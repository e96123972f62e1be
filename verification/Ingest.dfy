// The record loop of internal/ingest/server.go: one POST carries a stream of
// events, each recorded as soon as it is decoded, under an id that a repeat of
// the same POST derives again.
module Ingest {
  import opened Base
  import opened Decimal
  import opened Feed
  import opened FeedHistory

  const ID_CHARACTERS: int := 128
  const MAX_EVENT_SKEW: int := 120_000_000_000

  // What decoding the next value of a body gives: an event, or the HTTP status
  // its failure answers with. The body ends after the last one.
  datatype Item = Decoded(event: AgentEvent) | Rejected(status: nat)

  datatype Response = Accepted(count: nat) | Refused(status: nat, recorded: nat)

  // Cutting a field to n characters; only its results are used.
  type Clamp = (string, int) -> string

  function DerivedEventID(clamp: Clamp, key: string, n: int): string {
    if key == "" || n < 1 then "" else
      var suffix := ":" + Itoa(n);
      var head := clamp(key, ID_CHARACTERS - |suffix|);
      if head == "" then "" else head + suffix
  }

  // Two lines share a derived id only when they are the same line of POSTs
  // whose keys are cut to the same text.
  lemma DerivedIdNamesTheLine(clamp: Clamp, key: string, n: int, other: string, m: int)
    requires DerivedEventID(clamp, key, n) != ""
    requires DerivedEventID(clamp, key, n) == DerivedEventID(clamp, other, m)
    ensures n == m
    ensures var room := ID_CHARACTERS - |Itoa(n)| - 1; clamp(key, room) == clamp(other, room)
  {
    var a, b := clamp(key, ID_CHARACTERS - |":" + Itoa(n)|), clamp(other, ID_CHARACTERS - |":" + Itoa(m)|);
    Associative(a, ":", Itoa(n));
    Associative(b, ":", Itoa(m));
    SuffixIsUnique(a, Itoa(n), b, Itoa(m));
    ItoaIsInjective(n, m);
  }

  // A derived id is the key, cut to make room, a colon and the line; there is
  // none without a key, before the first line, or when nothing of the key is
  // left. A clamp that keeps to its bound keeps the id within 128 characters.
  lemma DerivedIdIs(clamp: Clamp, key: string, n: nat)
    ensures var id, head := DerivedEventID(clamp, key, n), clamp(key, 127 - |Itoa(n)|);
      && (id == "" <==> key == "" || n == 0 || head == "")
      && (id != "" ==> id == head + ":" + Itoa(n))
      && (id != "" && |head| <= 127 - |Itoa(n)| ==> |id| <= 128)
  {
    Associative(clamp(key, 127 - |Itoa(n)|), ":", Itoa(n));
  }

  // A missing timestamp, or one too far ahead of the clock, becomes the clock's.
  function Arrived(ev: AgentEvent, now: Instant): AgentEvent {
    if ev.at == 0 || ev.at - now > MAX_EVENT_SKEW then ev.(at := now) else ev
  }

  // The event recorded for the n-th value of the body, counting from one.
  function Prepare(clamp: Clamp, key: string, ev: AgentEvent, n: nat, now: Instant): AgentEvent {
    var timed := Stamped(Arrived(ev, now), now);
    if timed.id == "" then timed.(id := DerivedEventID(clamp, key, n)) else timed
  }

  // The body as events, up to the first value that is none.
  function Stream(clamp: Clamp, key: string, body: seq<Item>, clock: nat -> Instant, from: nat): seq<AgentEvent>
    requires from <= |body|
    decreases |body| - from
  {
    if from == |body| || body[from].Rejected? then [] else
      [Prepare(clamp, key, body[from].event, from + 1, clock(from))] + Stream(clamp, key, body, clock, from + 1)
  }

  // How many leading values decode.
  function Good(body: seq<Item>, from: nat): (n: nat)
    requires from <= |body|
    ensures n <= |body| - from
    ensures forall i :: from <= i < from + n ==> body[i].Decoded?
    ensures from + n < |body| ==> body[from + n].Rejected?
    decreases |body| - from
  {
    if from == |body| || body[from].Rejected? then 0 else 1 + Good(body, from + 1)
  }

  method HandlePost(c: Collector, clamp: Clamp, fromBrowser: bool, key: string, body: seq<Item>, clock: nat -> Instant)
    returns (answer: Response)
    requires c.Valid()
    modifies c`agents
    ensures c.Valid()
    ensures fromBrowser ==> c.agents == old(c.agents) && answer == Refused(403, 0)
    ensures !fromBrowser ==> c.agents == Replay(old(c.agents), Stream(clamp, key, body, clock, 0))
    ensures !fromBrowser ==> var n := Good(body, 0);
      answer == if n < |body| then Refused(body[n].status, n) else if n == 0 then Refused(400, 0) else Accepted(n)
  {
    if fromBrowser {
      return Refused(403, 0);
    }
    var n := 0;
    ghost var goal, good := Replay(c.agents, Stream(clamp, key, body, clock, 0)), Good(body, 0);
    while true
      invariant c.Valid() && Pending(clamp, key, body, clock, c.agents, n, goal, good)
      decreases |body| - n
    {
      if n == |body| {
        AllRecorded(clamp, key, body, clock, c.agents, n, goal, good);
        return if n > 0 then Accepted(n) else Refused(400, 0);
      }
      if body[n].Rejected? {
        AllRecorded(clamp, key, body, clock, c.agents, n, goal, good);
        return Refused(body[n].status, n);
      }
      var ev := Identify(clamp, key, body[n].event, n, clock(n));
      OneRecorded(clamp, key, body, clock, c.agents, n, goal, good, Stamped(ev, clock(n)));
      c.RecordAgent(ev, clock(n));
      n := n + 1;
    }
  }

  // The clamped timestamp, and an id for an event that brings none.
  method Identify(clamp: Clamp, key: string, event: AgentEvent, n: nat, now: Instant) returns (ev: AgentEvent)
    ensures Stamped(ev, now) == Prepare(clamp, key, event, n + 1, now)
  {
    ev := event;
    if ev.at == 0 {
      ev := ev.(at := now);
    } else if ev.at - now > MAX_EVENT_SKEW {
      ev := ev.(at := now);
    }
    if ev.id == "" {
      ev := ev.(id := DerivedEventID(clamp, key, n + 1));
    }
  }

  // What is recorded and what is still to come make the goal.
  ghost predicate Pending(clamp: Clamp, key: string, body: seq<Item>, clock: nat -> Instant,
                          feed: seq<AgentEvent>, n: nat, goal: seq<AgentEvent>, good: nat) {
    n <= |body| && Replay(feed, Stream(clamp, key, body, clock, n)) == goal && n + Good(body, n) == good
  }

  lemma AllRecorded(clamp: Clamp, key: string, body: seq<Item>, clock: nat -> Instant,
                    feed: seq<AgentEvent>, n: nat, goal: seq<AgentEvent>, good: nat)
    requires Pending(clamp, key, body, clock, feed, n, goal, good) && (n < |body| ==> body[n].Rejected?)
    ensures feed == goal && n == good
  {
  }

  lemma OneRecorded(clamp: Clamp, key: string, body: seq<Item>, clock: nat -> Instant,
                    feed: seq<AgentEvent>, n: nat, goal: seq<AgentEvent>, good: nat, ev: AgentEvent)
    requires Pending(clamp, key, body, clock, feed, n, goal, good) && n < |body| && body[n].Decoded?
    requires ev == Prepare(clamp, key, body[n].event, n + 1, clock(n))
    ensures Pending(clamp, key, body, clock, Record(feed, ev), n + 1, goal, good)
  {
    ReplayHead(feed, ev, Stream(clamp, key, body, clock, n + 1));
  }

  lemma ReplayHead(feed: seq<AgentEvent>, ev: AgentEvent, rest: seq<AgentEvent>)
    ensures Replay(feed, [ev] + rest) == Replay(Record(feed, ev), rest)
  {
    assert ([ev] + rest)[0] == ev && ([ev] + rest)[1..] == rest;
  }

  // The timestamp is the sender's own, at either clock.
  predicate Timed(ev: AgentEvent, now: Instant) {
    ev.at != 0 && ev.at - now <= 120_000_000_000
  }

  lemma {:induction false} StreamAt(clamp: Clamp, key: string, body: seq<Item>, clock: nat -> Instant, from: nat)
    requires from <= |body|
    ensures var s := Stream(clamp, key, body, clock, from);
      && |s| == Good(body, from)
      && forall i :: 0 <= i < |s| ==>
           s[i] == Prepare(clamp, key, body[from + i].event, from + i + 1, clock(from + i))
    decreases |body| - from
  {
    if from < |body| && body[from].Decoded? {
      StreamAt(clamp, key, body, clock, from + 1);
      var s, t := Stream(clamp, key, body, clock, from), Stream(clamp, key, body, clock, from + 1);
      forall i | 0 <= i < |s|
        ensures s[i] == Prepare(clamp, key, body[from + i].event, from + i + 1, clock(from + i))
      {
        if i > 0 {
          assert s[i] == t[i - 1];
        }
      }
    }
  }

  // A body broken off at its k-th value, and the same body whole.
  ghost predicate BrokenOff(part: seq<Item>, body: seq<Item>, k: nat) {
    k <= |part| && k <= |body| && part[..k] == body[..k] && Good(part, 0) == k && Good(body, 0) == |body|
  }

  lemma PartIsPrefix(clamp: Clamp, key: string, part: seq<Item>, body: seq<Item>, k: nat,
                     first: nat -> Instant, second: nat -> Instant)
    requires BrokenOff(part, body, k)
    requires forall i :: 0 <= i < |body| ==> body[i].Decoded? ==>
               Timed(body[i].event, first(i)) && Timed(body[i].event, second(i))
    ensures |Stream(clamp, key, body, second, 0)| == |body|
    ensures Stream(clamp, key, part, first, 0) == Stream(clamp, key, body, second, 0)[..k]
  {
    StreamAt(clamp, key, part, first, 0);
    StreamAt(clamp, key, body, second, 0);
    forall i | 0 <= i < k
      ensures Stream(clamp, key, part, first, 0)[i] == Stream(clamp, key, body, second, 0)[i]
    {
      assert part[i] == part[..k][i] == body[..k][i] == body[i];
    }
  }

  // The first count ids the key derives exist and are new to the feed.
  ghost predicate FreshKey(clamp: Clamp, key: string, count: nat, feed: seq<AgentEvent>) {
    forall n :: 1 <= n <= count ==> FreshId(feed, DerivedEventID(clamp, key, n))
  }

  predicate FreshId(feed: seq<AgentEvent>, id: string) {
    id != "" && !HasAgentID(feed, id)
  }

  // Ids left to the POST: each line gets its own.
  lemma {:induction false} DerivedStreamIsFresh(clamp: Clamp, key: string, body: seq<Item>, clock: nat -> Instant,
                                                feed: seq<AgentEvent>)
    requires Good(body, 0) == |body| && FreshKey(clamp, key, |body|, feed)
    requires forall i :: 0 <= i < |body| ==> body[i].event.id == ""
    ensures FreshStream(feed, Stream(clamp, key, body, clock, 0))
  {
    var s := Stream(clamp, key, body, clock, 0);
    StreamAt(clamp, key, body, clock, 0);
    forall i | 0 <= i < |s|
      ensures s[i].id == DerivedEventID(clamp, key, i + 1)
    {
      IdOfLine(clamp, key, body, clock, i);
    }
    NamedByLine(clamp, key, s, feed);
  }

  lemma {:induction false} NamedByLine(clamp: Clamp, key: string, s: seq<AgentEvent>, feed: seq<AgentEvent>)
    requires FreshKey(clamp, key, |s|, feed)
    requires forall i :: 0 <= i < |s| ==> s[i].id == DerivedEventID(clamp, key, i + 1)
    ensures FreshStream(feed, s)
  {
    forall i | 0 <= i < |s|
      ensures FreshId(feed, s[i].id)
    {
      assert FreshId(feed, DerivedEventID(clamp, key, i + 1));
    }
    forall i, j | 0 <= i < j < |s|
      ensures s[i].id != s[j].id
    {
      if s[i].id == s[j].id {
        DerivedIdNamesTheLine(clamp, key, i + 1, key, j + 1);
      }
    }
  }

  lemma IdOfLine(clamp: Clamp, key: string, body: seq<Item>, clock: nat -> Instant, i: nat)
    requires Good(body, 0) == |body| && i < |Stream(clamp, key, body, clock, 0)|
    requires forall i :: 0 <= i < |body| ==> body[i].event.id == ""
    ensures |Stream(clamp, key, body, clock, 0)| == |body|
    ensures Stream(clamp, key, body, clock, 0)[i].id == DerivedEventID(clamp, key, i + 1)
  {
    StreamAt(clamp, key, body, clock, 0);
  }

  // A POST that failed at any value and is sent again whole, with any other
  // traffic in between, leaves the feed that sending only the missing values
  // would have left; sent again at once, the feed of one send.
  lemma RetriedPost(clamp: Clamp, key: string, part: seq<Item>, body: seq<Item>, k: nat,
                    first: nat -> Instant, second: nat -> Instant,
                    before: seq<AgentEvent>, between: seq<AgentEvent>)
    requires BrokenOff(part, body, k)
    requires forall i :: 0 <= i < |body| ==> Timed(body[i].event, first(i)) && Timed(body[i].event, second(i))
    requires FreshStream(Replay([], before), Stream(clamp, key, body, second, 0))
    ensures var once, again := Stream(clamp, key, part, first, 0), Stream(clamp, key, body, second, 0);
      && |again| == |body|
      && Replay([], before + once + between + again) == Replay([], before + once + between + again[k..])
      && Replay([], before + once + again) == Replay([], before + again)
  {
    var once, again := Stream(clamp, key, part, first, 0), Stream(clamp, key, body, second, 0);
    PartIsPrefix(clamp, key, part, body, k, first, second);
    RetriedStreamCountsOnce(before, again, k, between);
    RetriedStreamCountsOnce(before, again, k, []);
    SplitAt(again, k);
    assert before + once + [] == before + once;
    Associative(before, again[..k], again[k..]);
  }

  // With an idempotency key the events need no ids of their own.
  lemma RetriedPostCountsOnce(clamp: Clamp, key: string, part: seq<Item>, body: seq<Item>, k: nat,
                              first: nat -> Instant, second: nat -> Instant,
                              before: seq<AgentEvent>, between: seq<AgentEvent>)
    requires BrokenOff(part, body, k)
    requires forall i :: 0 <= i < |body| ==>
               body[i].event.id == "" && Timed(body[i].event, first(i)) && Timed(body[i].event, second(i))
    requires FreshKey(clamp, key, |body|, Replay([], before))
    ensures var once, again := Stream(clamp, key, part, first, 0), Stream(clamp, key, body, second, 0);
      && |again| == |body|
      && Replay([], before + once + between + again) == Replay([], before + once + between + again[k..])
      && Replay([], before + once + again) == Replay([], before + again)
  {
    DerivedStreamIsFresh(clamp, key, body, second, Replay([], before));
    RetriedPost(clamp, key, part, body, k, first, second, before, between);
  }
}
