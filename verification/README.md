# Usage tailing, the event feed and its readers: a verified model

toktop shows what running agents spend. It tails the transcripts they append to,
turns the growth into events, keeps a bounded feed of events and probe samples,
and draws both. This project models the code between "an agent appended some
bytes to its log" and "the dashboard holds this many tokens, each counted once",
and proves what it promises.

| files | what they model |
|---|---|
| `Base.dfy`, `Counters.dfy`, `Order.dfy`, `Decimal.dfy`, `Division.dfy` | bytes, order-free sums, saturating 64-bit counters, sorted windows, the numerals in ids, floors |
| `Lines.dfy`, `Reader.dfy`, `Torn.dfy` | line splitting, the chunked reader, the torn-tail rule |
| `Frames.dfy`, `Zstd.dfy`, `Layout.dfy`, `DshReader.dfy` | Zstandard frames (RFC 8878) as a prefix code and as the standard lays them out, the capped frame reader |
| `Owner.dfy`, `Tallies.dfy`, `Tail.dfy`, `Watcher.dfy` | who a transcript belongs to, how records count, one poll of one file, the watcher with its maps |
| `Runs.dfy`, `ExactlyOnce.dfy`, `Figures.dfy`, `Baseline.dfy`, `Rotation.dfy`, `Boundaries.dfy`, `Counting.dfy` | whole schedules of appends, polls and forgetting: what is counted, what is shown, and where it ends |
| `Dashboard.dfy` | the watcher's loop over a whole store, end to end |
| `Sources.dfy` | agents that keep cumulative counters per session in a database |
| `Processes.dfy`, `Lifecycle.dfy`, `Report.dfy`, `Following.dfy` | following processes across exits and reused PIDs, reporting what grew, and the last report of a stop |
| `Feed.dfy`, `FeedHistory.dfy`, `Ingest.dfy` | the feed, its whole history, and POSTs that are sent again |
| `Probes.dfy`, `Scheduler.dfy`, `TimedRing.dfy` | the probe ring and its chart, the probe protocol over all interleavings, the value history |
| `Utf8.dfy`, `Sanitize.dfy` | what of an untrusted text reaches the terminal |
| `JsonWalk.dfy` | counters and the working directory of a JSON record, wherever they stand |
| `Timeline.dfy`, `Uniform.dfy` | the compressed and the uniform throughput charts |

A file is a byte sequence that grows between polls; a poll may see its length, its
header and its body at three different moments. Objects whose methods update their
fields (the watcher, the collector, the probe table, the agent table, the JSON
event) are classes; each method is proved against a function of the old state, and
the properties of whole runs are proved about those functions. Map iteration is an
arbitrary choice of element.

## Hypotheses

What the code needs and the theorems therefore assume, each with the lemma that
shows the other side of it where there is one:

* A transcript is append-only while it is followed. A shrink restarts it from zero, unless
  the new file is met under the stamp, modification time and size, of the old one
  (`Rotation.ReplacedFileStartsOver`, `Rotation.OldStampHides`); a rewrite to an equal or
  larger size is not noticed.
* A transcript is fully counted once a poll has seen its last bytes undisturbed. For a
  compressed log of more than 8 MiB after attach that takes two more polls for every
  further 8 MiB and a byte (`Runs.RoundsAre`).
* Attach records files in its own walk only. One idle for longer than
  `recencyWindow` at attach (`agentusage/watch.go:745`, `agentusage/watch.go:837`)
  counts from its start when it wakes up.
* Committing a parsed fragment early is sound when the whole line carries the same
  record and its remainder parses to nothing (`Torn.Tearable`): a JSON object and
  white space. Only fragments of a length that can count matter; a record past the cap
  has none. For a reader buffer that does not divide the cap one length would be
  counted early and not in a batch (`Boundaries.CapCountsTheNewlineOnce`); with the
  program's own buffer it never is (`Boundaries.EarlyCountIsTheBatch`).
* A trailing fragment that fills the reader buffer exactly waits for its line
  (`Boundaries.FullBufferFragmentWaits`).
* A session header stands in the first nineteen lines, and a half-written header line
  is not mistaken for another (`Owner.HeaderAt`). On line twenty a half-written header
  refuses the file until a forgetting pass drops the refusal, and the offset with it
  (`Boundaries.MisjudgedOnlyOnTwentieth`, `Boundaries.RefusedUntilForgotten`).
* A file present at attach is not forgotten before its verdict (`Runs.Spares`); if it
  is, its history counts too (`Boundaries.ForgottenHistoryIsCounted`). Agents without a
  session header need no such hypothesis (`Figures.HeaderlessIsHarmless`), nor does a file
  created after attach, nor any file once it was spared (`Runs.KeptForGood`).
* Compressed logs: every frame decompresses and its text ends in a newline
  (`DshReader.ClosedFrames`); the header decoder depends on the header's own bytes
  only (`Zstd.SelfContained`).
* Feed retries: the events carry their own timestamps, none further ahead of the
  clock than two minutes, and ids the feed has not seen. An event without a timestamp
  is judged anew on every send (`FeedHistory.ResendChangesNothingIff`).
* Probe keys tell backends apart whose addresses hold no bar (`Scheduler.KeysTellBackends`,
  `Scheduler.KeysCanCollide`).
* The sums of the compressed chart do not wrap: they fit a Duration exactly when its
  width in seconds does (`Timeline.WindowFitsIff`).

Two comments in the source say more than the code does. `skipEscapeSeq` is said to
swallow the rest of the text for every unterminated sequence; it does for control
strings, not for control sequences (`Sanitize.UnterminatedStringSwallowsAll`,
`Sanitize.BrokenSequenceEndsThere`; `Sanitize.UnterminatedSwallowsIff` says exactly
when), and it takes parameter and intermediate bytes in any order. `walk` is said to make a record's layout irrelevant; that holds for the
counters, and for the directory exactly under `JsonWalk.DirectoryIgnoresOrderIff`; a
record with two directories depends on it (`JsonWalk.TwoDirectoriesDependOnOrder`).

## Model

| member | source | states |
|---|---|---|
| `Counters.SatAdd` | agentusage/watch.go:1187-1193 | The machine addition, sign test included, is min(a + b, MaxInt) on every pair of non-negative 64-bit counters. |
| `Lines.SplitIsFaithful` | agentusage/watch.go:994-1042 | Splitting at newlines loses no byte: the lines rejoined, and the unfinished rest, are the input. |
| `Lines.SplitIsUnique` | agentusage/watch.go:994-1042 | Any newline-free lines and rest that rejoin to the input are the ones the split yields. |
| `Lines.SplitAppend` | agentusage/watch.go:994-1042 | How appending bytes changes the split: only the open line is affected. |
| `Lines.BatchAppend` | agentusage/watch.go:994-1042 | A batch read of an appended file is the batch of its front followed by that of the unfinished rest and the new bytes. |
| `Reader.SliceReader.ReadSlice` | agentusage/watch.go:1001-1018 | bufio.ReadSlice by its three outcomes: a chunk up to a newline, a full buffer without one, or the remainder at the end or at an error; the position moves by the chunk. |
| `Reader.ConsumeAppend` | agentusage/watch.go:994-1056 | For every buffer size the chunked loop with its discard flag yields exactly the records and the committed offset of a plain line splitter: terminated lines within the cap counted with their newline, carriage returns dropped, a fragment only when it parses, fits the cap and does not fill the last buffer; a read error yields nothing. |
| `Counting.LineCounts` | agentusage/watch.go:1019-1036 | Which records those are, said of the bytes: a newline-terminated line adds its usage exactly when it fits the cap and, its carriage return dropped, parses to a record that names no directory or the watcher's own; it is done with either way. |
| `Counting.FragmentCountsToo` | agentusage/watch.go:1038-1052 | A trailing fragment is done with exactly when it fits the cap, leaves the last buffer short and parses, and adds its usage under the same condition. |
| `Counting.BatchInFileOrder` | agentusage/watch.go:1066-1079 | A whole file yields the usages of its own records: every line that has one, no other, in file order. |
| `Boundaries.CapCountsTheNewlineOnce` | agentusage/watch.go:1019-1052 | For any reader buffer, counting an unterminated record early agrees with counting its terminated line exactly when the newline still fits the cap or the record carries nothing; the failing length can arise only where the buffer does not divide the cap. |
| `Boundaries.EarlyCountIsTheBatch` | agentusage/watch.go:1058-1064 | With the buffer the program uses, which divides the cap, no fragment of that length counts, so early and batch counting always agree. |
| `Boundaries.FullBufferFragmentWaits` | agentusage/watch.go:1038-1052 | A fragment that is a multiple of the reader buffer is not committed, and is counted as a whole line later. |
| `Torn.Advance` | agentusage/watch.go:912-989 | One more read from where the last one stopped keeps the commitment: every whole line counted once, and at most one early fragment of the line still open. |
| `Torn.AdvanceTorn` | agentusage/watch.go:1038-1052 | Reading on inside a line whose fragment was counted early adds nothing for the rest of that line. |
| `Torn.ReadTwice` | agentusage/watch.go:957-961 | Reading again the bytes one read left behind counts nothing and moves nowhere. |
| `Torn.WholeLines` | agentusage/watch.go:1019-1036 | Cutting the unfinished line off loses no record. |
| `Runs.RunInv` | agentusage/watch.go:924-989 | Over any append-only schedule of polls, failed polls and forgetting, everything before the recorded offset is accounted for, with owner verdicts, stamps and offsets consistent with the file. |
| `ExactlyOnce.EqualStampsHideNoLines` | agentusage/watch.go:929-932 | Over any append-only run, a poll that finds an equal stamp and reads the file all the same counts nothing and moves nothing: skipping it is re-reading it. |
| `ExactlyOnce.EqualStampsHideNoFrames` | agentusage/watch.go:982-989 | The same for compressed logs: a stamp is never set over unread complete frames. |
| `Figures.SchedulesAgree` | agentusage/watch.go:852-910 | Two schedules over the same file leave the same records and the same figures, for either kind of agent, whenever polls come, whichever fail, whatever bookkeeping is forgotten in between, and however long after the finished file was seen one looks, as long as forgetting is harmless. |
| `Runs.QuietStays` | agentusage/watch.go:957-961 | A file read to its end keeps its offset, its records and its figures through any further polls of it, failed ones included, and any forgetting passes that spare it. |
| `Runs.ForeignCountsNothing` | agentusage/watch.go:935-951 | A file whose verdict is refused or still open counts no record over any run. |
| `Runs.Drains` | agentusage/watch.go:985-989 | Polls that see the finished file read it to its end, whatever comes between them while nothing forgets it: one is enough for what a read window holds, and two more for every further window. |
| `Runs.RoundsAre` | agentusage/dsh.go:123-132 | That number in closed form: none beyond the first for line transcripts, and two for every 8 MiB and a byte of a compressed log. |
| `ExactlyOnce.FramesStride` | agentusage/dsh.go:123-132 | Two capped reads in a row pass more than a window, or find no frame that can be decoded. |
| `Runs.RunTallied` | agentusage/watch.go:1082-1093 | Over any run of a per-message agent the file's contribution is the saturated sum of the records counted, and its total the largest. |
| `ExactlyOnce.LineTranscriptsCountOnce` | agentusage/watch.go:924-1056 | Exactly-once tailing: on an append-only file of ours, for every interleaving of appends, polls, failed polls and forgetting, once a poll has seen the newline-terminated end, the records counted are those of one batch split of the bytes after attach. |
| `ExactlyOnce.LinesStay` | agentusage/watch.go:924-989 | And they stay so at every later moment, whatever polls, failures and forgetting passes come. |
| `Figures.LineTranscriptsReportOnce` | agentusage/watch.go:924-1124 | After any harmless schedule, from the first undisturbed poll of the finished file on and at every later moment, its counting entries are those of one batch read of what was written after attach, for per-message and cumulative agents; in particular a session created after attach is shown in full. |
| `Counting.TranscriptsCountTheirOwn` | agentusage/watch.go:1066-1079 | So over any harmless schedule exactly the usages of a file's own records are counted, in file order: all of them when every line is one, and nothing counted or shown when all belong to other directories. |
| `Figures.ShownFigures` | agentusage/watch.go:1081-1124 | What that is in closed form: saturated sums and the largest total for per-message records; for cumulative ones the largest value less the seeded baseline, the first reading, or nothing, never below zero. |
| `Figures.RunFolds` | agentusage/watch.go:852-910 | Every step of a run, forgetting included, keeps the entries a fold of the records counted: forgetting a file attach never met changes none of its figures. |
| `Runs.KeptForGood` | agentusage/watch.go:857-876 | A file forgetIdle spares once is spared in every schedule from then on: one with counts, one known to be ours, one that predates a headerless watch. |
| `Figures.HeaderlessIsHarmless` | agentusage/watch.go:870-876 | For agents without a session header forgetting is harmless on every schedule. |
| `Figures.LaterIsHarmless` | agentusage/watch.go:857-876 | For the others it is once a poll has seen the finished file of ours. |
| `ExactlyOnce.CompressedLogsCountOnce` | agentusage/dsh.go:123-198 | Capped compressed tailing is schedule-independent: over any append and poll schedule, once enough polls have seen the finished log (one up to 8 MiB, two more for every further window), the records counted equal those of one decode of all complete frames after attach. |
| `ExactlyOnce.FramesStay` | agentusage/dsh.go:123-198 | And they stay so at every later moment. |
| `Figures.CompressedLogsReportOnce` | agentusage/dsh.go:123-198 | And the figures shown, then and at every later moment, are those of that decode. |
| `Counting.LogsCountTheirOwn` | agentusage/dsh.go:128-143 | The same of the text a compressed log holds. |
| `ExactlyOnce.QuietFramesAreDone` | agentusage/watch.go:985-988 | Stamping never hides frames beyond the window: when a capped read finds nothing, the whole rest of the file holds no complete frame. |
| `ExactlyOnce.HeaderSettlesLines` | agentusage/watch.go:1139-1175 | With the session header in the first nineteen lines, the verdict of the whole file is whether its directory is the watcher's, and every prefix gives that verdict or none. |
| `ExactlyOnce.HeaderSettlesFrames` | agentusage/dsh.go:148-172 | The same for compressed logs that open with their header frame. |
| `Figures.ForgottenStartsOver` | agentusage/watch.go:857-910 | Any schedule in which a forgetting pass does drop the file ends, and stays, with the whole file counted, and shown as one attach never met. |
| `Figures.ForgottenFramesStartOver` | agentusage/watch.go:857-910 | The same for compressed logs, with the same number of polls. |
| `Boundaries.ForgottenHistoryIsCounted` | agentusage/watch.go:857-910 | So, from a line boundary and over every schedule, exactly the records after attach are counted if and only if every forgetting pass spared the file or its history held no record. |
| `Figures.EmptyAtAttach` | agentusage/watch.go:857-910 | The one file for which forgetting changes a figure and no record: empty at attach. A cumulative figure differs exactly when there was a baseline to forget and something to show. |
| `Rotation.ReplacedFileStartsOver` | agentusage/watch.go:933-956 | A file found shorter than its offset is counted whole on top of what was counted of the old one, once, whatever that poll got (no header, no verdict, no content, a failed read) and on any schedule of further events that never meets the new file under the old one's stamp; its figures go on from the old ones. |
| `Rotation.OldStampHides` | agentusage/watch.go:929-941 | The other side of that condition: while the shrunk file has no verdict, a poll that meets it under the old stamp takes it for read. |
| `Owner.ScanOwner` | agentusage/watch.go:1154-1174 | The bounded header scan gives: the first header in twenty lines decides; a shorter file stays undecided; twenty lines without one refuse; an over-long token ends the scan. |
| `Owner.VerdictIsStable` | agentusage/watch.go:1131-1174 | A verdict reached on any prefix of a file whose header stands in its first nineteen lines is the final file's: whether that header names the watcher's directory. |
| `Boundaries.TwentiethLineIsTooLate` | agentusage/watch.go:1157-1174 | With the header on line twenty a poll that catches that line half-written reaches a refusal where the whole file is ours. |
| `Boundaries.MisjudgedOnlyOnTwentieth` | agentusage/watch.go:1154-1174 | With honest lines every prefix of a file gives no verdict or the final one, exactly unless its first header is on line twenty, is ours, and can pass for a line without one while half-written. |
| `Runs.RefusalLasts` | agentusage/watch.go:939-951 | A refusal stays, and counts nothing, through any run without a forgetting pass over the file. |
| `Boundaries.RefusedUntilForgotten` | agentusage/watch.go:857-899 | How long that refusal lasts: through any polls, and no longer than the first forgetting pass; a poll of the finished file after one counts all of it. |
| `DshReader.OwnsZstd` | agentusage/dsh.go:148-172 | The verdict of the complete frames in the opening bytes: undecided without one, else the first header line, else a refusal. |
| `DshReader.ZstdVerdictIsStable` | agentusage/dsh.go:146-172 | Any verdict a prefix of a compressed log gives is the final log's, when its first frame holds the header. |
| `DshReader.LogVerdictIs` | agentusage/dsh.go:148-172 | Once the first frame is there, within the 64 KiB read for it, the verdict is whether the first header in its text names the watcher's directory. |
| `Zstd.ZstdFrameLen` | agentusage/dsh.go:202-246 | The frame-length loop returns the recursive frame size: header, blocks by type up to the last one, checksum, all within the cap and the input (RFC 8878, sections 3.1.1, 3.1.1.2 and 3.1.2). |
| `Layout.WrittenFrameIsFound` | agentusage/dsh.go:202-246 | Round trip: a frame laid out by the standard, header, blocks of any type and size with the last one marked, checksum or none, is found whole whatever follows it, its length the bytes written; a reserved block type or more than 8 MiB gives none (RFC 8878, sections 3.1.1 and 3.1.1.2). |
| `Layout.BlockReadsBack` | agentusage/dsh.go:218-228 | A block header of three little-endian bytes is read back as its last mark, its type and the bytes its payload takes. |
| `Zstd.FrameLenIsPrefixCode` | agentusage/dsh.go:200-246 | Success n satisfies 0 < n <= 8 MiB and n <= input length, is unchanged by any bytes appended, and every strict prefix of the frame is rejected. |
| `Zstd.FramingIsPrefixCode` | agentusage/dsh.go:200-246 | So frames form a prefix code over all pairs of inputs. |
| `Frames.FrameSplitIsUnique` | agentusage/dsh.go:185-196 | There is only one way to cut bytes into whole frames. |
| `Zstd.DecodeZstdPrefix` | agentusage/dsh.go:179-198 | The decode loop returns the walk of all complete frames, the bytes they take, and whether it stopped at one that does not decompress. |
| `Frames.WalkOfConsumed` | agentusage/dsh.go:174-198 | Decoding the consumed prefix again gives the same text and the same length. |
| `Frames.WalkExtends` | agentusage/dsh.go:185-196 | Appending bytes extends the walk and changes nothing of it. |
| `DshReader.ConsumeZstd` | agentusage/dsh.go:128-143 | The capped read yields the records of the complete frames in the window, their end as the new offset, and a failure only when the first frame does not decompress. |
| `Watcher.LogsEndInZstd` | agentusage/dsh.go:72-74 | Compressed logs are the paths that end in .jsonl.zstd. |
| `DshReader.CappedReadProgresses` | agentusage/dsh.go:123-143 | A poll facing a complete frame within the cap always consumes at least one. |
| `Tallies.PerMessageSums` | agentusage/watch.go:1084-1093 | Folding per-message records saturates to min(sum, MaxInt) in each counter. |
| `Tallies.CumulativeIsLargestGrowth` | agentusage/watch.go:1094-1122 | Once the baseline is fixed a cumulative counter is max(what it was, largest record - base). |
| `Tallies.CumulativeIgnoresOrderAndRepeats` | agentusage/watch.go:1094-1122 | So re-reading or reordering records cannot change it. |
| `Tallies.FoldGrows` | agentusage/watch.go:1082-1124 | No record ever lowers a contribution. |
| `Baseline.SeedIsAStretch` | agentusage/watch.go:545-580 | The records of the seed tail are a contiguous stretch of the file's records, even when the tail starts inside a line. |
| `Baseline.CumulativeNeverOvercredits` | agentusage/watch.go:547-580 | For a file met at attach with non-decreasing counters, whether its seed read saw it, failed, or never came, what a whole run reports never exceeds the final counter minus its value at attach; it is that difference exactly when nothing was spent or the baseline equals the value at attach, as it does when the seed saw the file as it was and found a record. |
| `Baseline.SeededIs` | agentusage/watch.go:547-580 | The baseline attach records holds the largest value of each counter in the last 256 KiB the seed read, and there is none when it read no record. |
| `Baseline.ForgottenOvercredits` | agentusage/watch.go:857-910 | A file the run forgets reports its whole counter: too much exactly when some of it was spent before attach, so never for a file that was empty then. |
| `Watcher.Watcher.constructor` | agentusage/watch.go:440-446 | A new watcher knows no file and has reported nothing. |
| `Watcher.Watcher.Attach` | agentusage/watch.go:447-461 | Attach records a file's length and age, and seeds the baseline of a cumulative agent; no other file changes. |
| `Watcher.Watcher.AttachAll` | agentusage/watch.go:447-461 | The attach loop leaves every file as its own finds say, and all others untouched. |
| `Watcher.Watcher.SeedBaseline` | agentusage/watch.go:554-580 | The baseline becomes the largest value of each counter in the tail read, and stays unset on a failed read. |
| `Watcher.Watcher.ApplyRecord` | agentusage/watch.go:1082-1124 | One record folded into the maps is one step of the per-file tally; no other file changes. |
| `Watcher.Watcher.Owns` | agentusage/watch.go:1139-1175 | The cached or fresh verdict, caching it when final. |
| `Watcher.Watcher.ReadNew` | agentusage/watch.go:924-989 | One poll of one file is the per-file step: skip on an equal stamp, restart on a shrink, wait without a verdict, pass over foreign files, commit offset and stamp only after a completed read; no other file changes. |
| `Tail.NothingPastTheEnd` | agentusage/watch.go:957-968 | A line transcript that ends before the recorded offset yields nothing and moves nothing. |
| `Watcher.Watcher.DropFile` | agentusage/watch.go:901-910 | Every entry of the file but its counted contribution goes. |
| `Watcher.Watcher.ForgetIdle` | agentusage/watch.go:857-899 | Forgets exactly the unlisted files that carry no counts, are not known to be ours and are not protected by predating a headerless watch; totals are unchanged. |
| `Watcher.Watcher.Totals` | agentusage/watch.go:706-713 | The sums over the maps, in any iteration order, are min(true sum, MaxInt). |
| `Watcher.Watcher.Poll` | agentusage/watch.go:692-728 | One poll applies the per-file step to every listed file; afterwards the sample is exactly the saturated sums, no component fell, and growth is reported iff one rose. |
| `Watcher.Watcher.Run` | agentusage/watch.go:584-605 | Any number of polls take every file through its own steps; the callback gets a sample each time one count grew, each above the last, and the last of them is what is shown. |
| `Watcher.Watcher.Refresh` | agentusage/watch.go:715-721 | The sample is replaced exactly when a sum grew, and then equals the sums. |
| `Watcher.SumsGrow` | agentusage/watch.go:706-713 | If no file's entries fall, no sum does. |
| `Dashboard.LoopIsARun` | agentusage/watch.go:692-728 | Whatever else the loop meets, the entries of one path go through a run of polls and forgetting passes over its bytes. |
| `Dashboard.LifeShows` | agentusage/watch.go:692-1124 | A transcript of ours that was seen finished has its figures, whatever became of it later; one of another directory has none. |
| `Dashboard.Watch` | agentusage/watch.go:438-467 | A new watcher has recorded where every file found ends, has seeded the baselines, and has counted nothing. |
| `Dashboard.Follow` | agentusage/watch.go:409-728 | End to end: a watcher attached to a store and polled through any rounds shows, in every count, the sum over our transcripts of what one read of each after attach gives, saturated at MaxInt, once each has been seen finished and at every later moment, failed polls and rescans without it included. |
| `Sources.GrowthSince` | agentusage/watch.go:638-659 | Whatever order the sessions come in, the reading is the sum of max(0, current - base), or nothing if it would pass 2^40. |
| `Sources.SessionWatcher.constructor` | agentusage/watch.go:409-418 | A failed attach snapshot leaves the latch open instead of becoming an empty baseline. |
| `Sources.SessionWatcher.ReadSessionSource` | agentusage/watch.go:625-660 | The latch is set by the first success, which reports nothing; later readings never change it; failed reads report nothing. |
| `Sources.SessionWatcher.Poll` | agentusage/watch.go:692-721 | A poll of a session source is one step of the latch and the sample. |
| `Sources.SnapshotIsTheFirst` | agentusage/watch.go:361-369 | Over any run the snapshot is the first that succeeded and never changes after. |
| `Sources.TouchedIsEnoughIff` | agentusage/source.go:32-43 | Reading only the sessions touched since attach counts what reading all would, exactly when no other session gained since the snapshot. |
| `Sources.FilteredQueryIsEnough` | agentusage/source.go:32-43 | While every session the filter leaves out stands as it was snapshotted, the filtered reading is the whole one. |
| `Sources.SampleIsLastGrowth` | agentusage/watch.go:635-660 | With counters that never fall, the sample after any run is the growth of the last successful reading, and never falls. |
| `Sources.LateSnapshotCountsOnlyGrowth` | agentusage/watch.go:621-634 | After a failed attach nothing is reported until a read succeeds, nothing for that read, and from then on only what is gained over it. |
| `Sources.BadReadsLeaveNoTrace` | agentusage/watch.go:635-660 | Once the snapshot stands, a failed or unbelievable reading anywhere in a run can be left out of it. |
| `Report.Tracked.Report` | internal/agentwatch/agentwatch.go:394-429 | One report hands the feed an event whose output, prompt and thinking tokens are the positive growth of each count since the last, dated by the clock, under the id of the process and sample, with the engine it goes through, or nothing when nothing grew; the sample is remembered. |
| `Report.SampleIDNamesTheSample` | internal/agentwatch/agentwatch.go:431-439 | Two samples share an event id exactly when they are of one process and one instant. |
| `Report.Tracked.Tick` | internal/agentwatch/agentwatch.go:248-255 | Token conservation: after every poll and report, the tokens of all events sent add up, count by count, to min(what the transcripts hold, MaxInt); the feed is what recording the new event leaves. |
| `Report.Tracked.Final` | internal/agentwatch/agentwatch.go:310-312 | The forced poll and last report of a stopped follower keep that balance. |
| `Report.RecordsAddUp` | internal/agentwatch/agentwatch.go:394-429 | Over any samples the events sent add up to the last reported sample plus every fall between reports, so to the sample itself exactly when it never fell. |
| `Report.RisingSamplesAddUp` | internal/agentwatch/agentwatch.go:394-429 | Samples that never fall are sent in full, even when several are reported as one. |
| `Lifecycle.AgentWatcher.Classify` | internal/agentwatch/agentwatch.go:179-197 | The first pass keeps the followers whose process is still the one found, displaces those of reused PIDs, and lists what is new. |
| `Lifecycle.SameProcessIff` | internal/agentwatch/agentwatch.go:164-172 | Two readings of one PID are the same process exactly when both start instants are known and equal, or one is unknown and tool and directory agree. |
| `Lifecycle.AgentWatcher.Remove` | internal/agentwatch/agentwatch.go:198-205 | Every follower at a dead PID leaves the table, listed in PID order. |
| `Lifecycle.AgentWatcher.Turnover` | internal/agentwatch/agentwatch.go:210-258 | Displaced followers stop first, newcomers attach next, exited ones stop last; afterwards exactly the tracked followers are at work. |
| `Lifecycle.AgentWatcher.Discover` | internal/agentwatch/agentwatch.go:175-287 | With unique PIDs a process found at a tracked PID keeps its follower exactly when both start instants are known and equal, or one is unknown and tool and directory agree; else that follower is stopped and the PID gets a new one if the process is readable. New processes are tracked exactly when readable, those not found are stopped, and each tracked one is attributed to the first measured engine at the endpoint it uses now, or to none. |
| `Lifecycle.AgentWatcher.StopAll` | internal/agentwatch/agentwatch.go:289-301 | Every follower at work is stopped, in PID order, and none stays tracked. |
| `Lifecycle.AgentWatcher.StopOne` | internal/agentwatch/agentwatch.go:303-313 | A follower is stopped only while at work, and is then no longer at work. |
| `Following.Desk.StopOne` | internal/agentwatch/agentwatch.go:303-313 | Every stop is the first of its follower and comes with a forced poll and one last report, after which the events it ever sent add up to what its transcripts hold, at most MaxInt; that is kept for every stop there ever was. |
| `Lifecycle.ListingIsUnique` | internal/agentwatch/agentwatch.go:386-390 | The order in which a batch is stopped does not depend on map iteration. |
| `Lifecycle.AtWorkIff` | internal/agentwatch/agentwatch.go:175-287 | At work are exactly the followers started and not stopped. |
| `Lifecycle.OnceEach` | internal/agentwatch/agentwatch.go:303-313 | No follower is started twice or stopped twice. |
| `Lifecycle.StoppedBeforeReplaced` | internal/agentwatch/agentwatch.go:210-214 | Over any run, before a PID gets another follower the one it had was stopped. |
| `Lifecycle.Accounted` | internal/agentwatch/agentwatch.go:175-287 | Every follower ever started is either tracked now or was stopped exactly once. |
| `Feed.AgentOrdering` | internal/collector/collector.go:462-473 | The event comparison is a total preorder. |
| `Feed.AgentCmpIs` | internal/collector/collector.go:462-473 | It orders by instant, and events of one instant by agent, id and note, each text by its first differing character. |
| `Feed.ProbeOrdering` | internal/collector/collector.go:475-483 | So is the probe comparison. |
| `Feed.ProbeCmpIs` | internal/collector/collector.go:475-483 | It orders by instant, and samples of one instant by backend and model. |
| `Feed.Search` | internal/collector/collector.go:498 | The binary search finds the stable position: behind every element not above the new one. |
| `Feed.InsertSorted` | internal/collector/collector.go:492-502 | The in-place search and back-to-front shift is stable insertion. |
| `Feed.Collector.RecordAgent` | internal/collector/collector.go:435-448 | Stamps and records an event unless its id is retained; the feed stays oldest first and within 512. An event later than all retained becomes the last, pushing the oldest out of a full feed. |
| `Feed.Collector.RecordProbe` | internal/collector/collector.go:453-460 | Records a sample and keeps the ring sorted and within 128. |
| `Order.WindowInsert` | internal/collector/collector.go:444-447 | Inserting into the window and cutting equals inserting into everything and cutting: what was evicted never matters again. |
| `Order.SortAllIsStable` | internal/collector/collector.go:485-491 | Repeated insertion is the stable sort of the arrivals. |
| `Order.StableSortIsUnique` | internal/collector/collector.go:485-491 | There is only one stable sort. |
| `Order.OrderMattersOnlyAmongTies` | internal/collector/collector.go:450-452 | Two arrival orders give the same result exactly when elements that tie arrived in the same order. |
| `FeedHistory.FeedIsTheNewestAccepted` | internal/collector/collector.go:432-448 | After any events the feed is the last 512 of the stable sort of all accepted ones, sorted, with no non-empty id twice. |
| `FeedHistory.FeedIsChronological` | internal/collector/collector.go:432-448 | In instants: the feed is oldest first, ties by agent, id and note, and an accepted event is retained or no later than any of the 512 that are. |
| `FeedHistory.OnlyRepeatsAreRefused` | internal/collector/collector.go:432-441 | Nothing is refused but an event whose non-empty id was retained when it came. |
| `FeedHistory.OnceAcceptedNeverAgain` | internal/collector/collector.go:432-448 | An accepted event with an id, sent again at any later time, changes nothing, even after its eviction. |
| `FeedHistory.ResendChangesNothingIff` | internal/collector/collector.go:432-448 | Sending an event changes nothing exactly when its id is retained or the feed is full of newer events; so a resend under another timestamp is judged by that timestamp. |
| `FeedHistory.RetriedStreamCountsOnce` | internal/collector/collector.go:432-448 | A recorded prefix, any other traffic, then the whole stream again leaves the feed that sending only the rest would have left. |
| `Ingest.HandlePost` | internal/ingest/server.go:479-596 | One POST records the events up to the first value that does not decode, answers with their number, refuses browsers and empty bodies, and leaves exactly the replay of those events. |
| `Ingest.DerivedIdNamesTheLine` | internal/ingest/server.go:134-144 | Two lines share a derived id only if they are the same line number and the keys clamp to the same text. |
| `Ingest.DerivedIdIs` | internal/ingest/server.go:134-144 | A derived id is the key, cut to make room, a colon and the line number, within 128 characters; there is none without a key, before line one, or when nothing of the key is left. |
| `Ingest.RetriedPost` | internal/ingest/server.go:515-586 | A POST of fresh distinct ids that failed at any value and is sent again whole, other traffic in between, leaves the feed of sending only the missing events; sent again at once, the feed of one send. |
| `Ingest.RetriedPostCountsOnce` | internal/ingest/server.go:131-144 | With an idempotency key the same holds of events without ids: the derived ids are distinct and come out the same on the second send. |
| `Probes.RingIsTheNewest` | internal/collector/collector.go:450-460 | The ring is the newest 128 of everything that ever arrived. |
| `Probes.RingIsChronological` | internal/collector/collector.go:450-460 | In instants: the ring is oldest first, and what fell out of it is no later than any of the 128 in it. |
| `Probes.FinishingOrderDoesNotMatter` | internal/collector/collector.go:450-460 | With no two samples of one instant, backend and model, every arrival order yields the same ring. |
| `Probes.TwinsKeepArrivalOrder` | internal/collector/collector.go:475-491 | Two different samples that tie keep their arrival order, so there the order does show. |
| `Probes.ProbeSeries` | internal/ui/ui.go:1427-1448 | The two-cursor step-hold series shows in each column the latest probe strictly before the column's end, and zero before any. |
| `Probes.SeriesEndsAtTheNewest` | internal/ui/ui.go:1432-1440 | Columns end a cadence apart, the last of them one cadence after the newest probe, which it shows. |
| `Prober.ProbeTable.ProbeAll` | internal/collector/collector.go:568-588 | A wave is one event of the protocol: within 500 ms of the last it launches nothing, else the free targets, each with a generation of its own stamped by the wave. |
| `Scheduler.LiveIsExactly` | internal/collector/collector.go:576-587 | A wave launches every free target, only free ones, and no key twice. |
| `Prober.ProbeTable.Backoff` | internal/collector/collector.go:611-615 | An answer is one event of the protocol: told to wait, its key is free at no instant before the clock plus the wait. |
| `Prober.ProbeTable.Store` | internal/collector/collector.go:609-616 | A generation records its reading, field by field, dated by its wave and under its backend and model, and the ring stays that of all samples recorded. |
| `Prober.ProbeTable.Land` | internal/collector/collector.go:595-599 | The end of a generation is one event of the protocol: its key is free again exactly when its wait is over, and no other key is affected. |
| `ProbeRuns.OneGenerationPerBackend` | internal/collector/collector.go:543-549 | In every interleaving at most one generation per base and model is in flight. |
| `Scheduler.KeysTellBackends` | internal/collector/collector.go:577 | Addresses without a bar share a key only when base and model agree. |
| `Scheduler.KeysCanCollide` | internal/collector/collector.go:577 | With a bar in an address two backends can share one key. |
| `ProbeRuns.WaveCommitsIff` | internal/collector/collector.go:568-574 | A wave is committed exactly when 500 ms or more have passed since the last one, and otherwise leaves no trace. |
| `ProbeRuns.WavesKeepTheirDistance` | internal/collector/collector.go:543-574 | Committed wave stamps are at least 500 ms apart, even if the clock steps back. |
| `ProbeRuns.RetryAfterIsHonoured` | internal/collector/collector.go:581-615 | After an answer at clock t asking to wait r, no later launch for that key carries a stamp below t + r. |
| `ProbeRuns.TargetIsProbedIff` | internal/collector/collector.go:576-587 | A committed wave probes a target exactly when every earlier generation of its key has ended and its wait is over. |
| `ProbeRuns.RingForgetsTheSchedule` | internal/collector/collector.go:590-618 | The protocol never yields two samples that tie, so runs that produced the same samples hold the same ring, however they finished. |
| `TimedRing.Ring.Push` | internal/collector/collector.go:385-406 | The buffer overwritten from its head holds the last 180 values, oldest first, and its newest is dated now. |
| `TimedRing.Ring.Copy` | internal/collector/collector.go:410-418 | The copy is the contents, oldest first. |
| `TimedRing.RingHoldsTheLast` | internal/collector/collector.go:373-378 | After any pushes the ring holds the last 180 of them. |
| `Utf8.DecodedEncodes` | internal/core/sanitize.go:43-53 | What is decoded encodes to exactly the bytes consumed (RFC 3629, sections 3 and 4). |
| `Utf8.EncodedDecodes` | internal/core/sanitize.go:43-53 | Every scalar decodes from its encoding, whatever follows. |
| `Sanitize.SkipEscapeSeq` | internal/core/sanitize.go:127-159 | The skip is the length of one escape sequence, stays within the text and always makes progress. |
| `Sanitize.NeedsSanitize` | internal/core/sanitize.go:117-125 | True exactly when some byte is a control other than newline and tab, DEL, or not ASCII. |
| `Sanitize.SanitizeText` | internal/core/sanitize.go:23-57 | Fast path and loop both give the sanitized text. |
| `Sanitize.PlainTextPasses` | internal/core/sanitize.go:24-26 | The fast path agrees with the slow loop. |
| `Sanitize.SanitizedIsClean` | internal/core/sanitize.go:15-22 | The result is valid UTF-8 of allowed scalars only: no C0 but newline and tab, no ESC, DEL, C1 or unsafe rune. |
| `Sanitize.UnchangedIffClean` | internal/core/sanitize.go:15-57 | Exactly the clean texts pass unchanged. |
| `Sanitize.RuneSurvivesIff` | internal/core/sanitize.go:28-115 | Code point by code point, whatever follows: controls but newline and tab, DEL, C1, bidirectional controls, format characters but the zero-width joiner, the listed separators and the variation selectors go, everything else stays. |
| `Sanitize.SanitizingIsIdempotent` | internal/core/sanitize.go:15-57 | Sanitizing twice is sanitizing once, and the result is never longer. |
| `Sanitize.CleanPrefixSurvives` | internal/core/sanitize.go:23-57 | Clean text in front of anything is kept as it is. |
| `Sanitize.ControlSequencesVanish` | internal/core/sanitize.go:136-143 | A complete control sequence disappears whole and leaves no trace in what follows. |
| `Sanitize.ControlStringsVanish` | internal/core/sanitize.go:144-154 | So does a complete control string closed by BEL or ST. |
| `Sanitize.UnterminatedStringSwallowsAll` | internal/core/sanitize.go:127-154 | A control string that never ends swallows the rest. |
| `Sanitize.BrokenSequenceEndsThere` | internal/core/sanitize.go:136-143 | A control sequence broken off by a byte that cannot be its own does not: only what was read of it goes. |
| `Sanitize.UnterminatedSwallowsIff` | internal/core/sanitize.go:127-154 | A sequence that never reaches its end takes the whole rest along exactly when it is a control string or nothing follows its parameter bytes. |
| `JsonWalk.AsInt` | agentusage/json.go:165-186 | A number counts only if it is whole and between 1 and 2^40. |
| `JsonWalk.WholeNumbersCount` | agentusage/json.go:165-186 | Exactly the whole numbers from 1 to 2^40 are token counts, each its own. |
| `JsonWalk.Event.Walk` | agentusage/json.go:107-140 | The walk raises each counter to its largest leaf reachable within depth 8 outside payload keys, and keeps the first directory met. |
| `JsonWalk.EightLevels` | agentusage/json.go:103-113 | A counter counts at any level down to the eighth, and nothing is found below it. |
| `JsonWalk.OneLevel` | agentusage/json.go:107-140 | A list is one level, and so is an object under a key that is no counter and no payload. |
| `JsonWalk.Event.Assign` | agentusage/json.go:146-163 | A counter keeps the larger of its value and the new one, in the order the key tables are consulted. |
| `JsonWalk.CountersIgnoreOrder` | agentusage/json.go:107-163 | Reordering object members at any level leaves all four counters unchanged. |
| `JsonWalk.PermutedMembers` | agentusage/json.go:118-119 | Every permutation of an object's members is such a reordering. |
| `JsonWalk.DirectoryIgnoresOrderIff` | agentusage/json.go:118-125 | The directory is independent of member order exactly when no two directories can come first. |
| `JsonWalk.TwoDirectoriesDependOnOrder` | agentusage/json.go:118-125 | A record with two directory keys that differ is one where it does not. |
| `JsonWalk.AgreeingDirectoriesSettleIt` | agentusage/json.go:118-125 | In particular when all non-empty directories in the record agree. |
| `JsonWalk.LeafIsSane` | agentusage/json.go:165-186 | Every counter leaf is between 1 and 2^40. |
| `JsonWalk.ParseGeneric` | agentusage/json.go:188-212 | A record yields a reading exactly when it holds a counter leaf, and then a present one, with input plus output standing in for a missing total. |
| `Timeline.WindowFitsIff` | internal/ui/ui.go:523-533 | For any block size the summed window fits a 63-bit Duration exactly when w seconds do. |
| `Timeline.CapFits` | internal/ui/ui.go:581-590 | The cap keeps w spans of the largest shift inside a Duration. |
| `Timeline.SpansDouble` | internal/ui/ui.go:523-545 | The newest block of columns is a second wide each, and every block twice as wide as the one right of it, exactly as long as w columns of that width fit a Duration. |
| `Timeline.Locate` | internal/ui/ui.go:553-562 | The bucket search ends at the column covering the age of the sample. |
| `Timeline.ColumnIsUnique` | internal/ui/ui.go:553-562 | An age is in one column only. |
| `Timeline.Accumulate` | internal/ui/ui.go:546-569 | The sums and counts are those of the samples of each engine in each column. |
| `Timeline.CompressSeries` | internal/ui/ui.go:517-579 | Each column is the sum over engines of their mean rate in its span; the separators are where the uncapped level changes; no samples or no width give no chart. |
| `Timeline.ChartAddsUp` | internal/ui/ui.go:511-516 | With at most one sample of an engine in a column, the columns add up to the rates in the window. |
| `Uniform.NearestIsFloor` | internal/ui/agents.go:272-286 | The corrected truncating division is a floor on both sides of zero. |
| `Uniform.NearestSteps` | internal/ui/ui.go:1402-1406 | One column later is the next slot of every history, so no column repeats or skips a sample. |
| `Uniform.AggHist` | internal/ui/ui.go:1371-1417 | Each column sums the engines' samples, every history moved by one fixed number of slots, and the rates of the agents' own events nearest to it. |
| `Uniform.ColumnShowsNearest` | internal/ui/ui.go:1401-1412 | In instants: a column shows of an engine the sample within half a cadence of the column's own instant. |
| `Uniform.ColumnShowsNothing` | internal/ui/ui.go:1380-1412 | Without such a sample, without samples or without a date it shows zero. |
| `Uniform.NewestIsAttained` | internal/ui/ui.go:1383-1394 | The grid ends at the newest of the engines' last samples and the agents' own events. |
| `Uniform.AgentDenseHist` | internal/ui/agents.go:242-270 | The agents' series holds in each column the rates of the events no engine already shows whose nearest slot it is. |
| `Uniform.DenseAddsUp` | internal/ui/agents.go:242-270 | Its columns add up to the events on the grid: no token is lost or shown twice. |
| `Uniform.SampleIsShownOnce` | internal/ui/ui.go:1367-1417 | Each sample is shown in exactly one column if its slot falls in the grid, and in none otherwise. |

## Left out

- Foreign parsers: JSON text decoding, the per-agent record parsers, Zstandard header
  and block decompression, SQLite queries, Unicode normalisation, grapheme clusters and
  the tables behind Cf and Bidi_Control are parameters.
- Operating system and network: process discovery, directory walks and their cache,
  symbolic links and path confinement, HTTP deadlines and logging, the HTTP side of a probe.
- Time: clocks are parameters; instants are integers of nanoseconds whose additions do
  not wrap. Differences saturate where the code compares them.
- Integers are 64-bit; the bound of 2^40 tokens does not fit a 32-bit int.
- Rates and averages are reals, so rounding is not modelled; the smoothing of rates
  (`rates`, `ema`) is left out as it adds only easy members.
- Strings are sequences of characters compared by code point, which is the byte order of
  valid UTF-8. Lengths that the code counts in grapheme clusters belong to the clamp
  parameter.
- Rendering, layout and colours; of the charts only the numbers.
- The database keyed by path and session id is one map keyed by the pair.
- Locks: each critical section is one step. `ProbeRuns` interleaves the steps of waves and
  generations; discovery and shutdown run on one goroutine and are modelled in sequence.
- The context a probe runs under, and cancellation by it.
- Report.Tracked.Report: the tracker always has a recorder; without one
  (`internal/agentwatch/agentwatch.go:411-413`) nothing is sent.
- Lifecycle.AgentWatcher.Discover: which endpoint a process is connected to and the addresses
  in engine URLs are parameters.
- Ingest.HandlePost: the error texts of a refused POST and its headers are left out; the
  body arrives as already decoded values.
- Timeline.CompressSeries: sums spans without wrap-around; beyond 2^63 nanoseconds' worth of
  columns the code's own sums wrap.
- DshReader.ConsumeZstd: the decoder could not be built (`agentusage/dsh.go:180-183`) is left out.
