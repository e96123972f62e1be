// The agent lifecycle of internal/agentwatch/agentwatch.go: which processes
// are followed, across exits and reused PIDs, and that every follower started
// is stopped exactly once.
module Lifecycle {
  import opened Base
  import opened Order
  import opened Processes

  // id tells apart the followers a process may get over time.
  datatype Tracker = Tracker(proc: Process, id: nat)

  predicate SameProcess(tracked: Process, found: Process) {
    if tracked.pid != found.pid then false
    else if tracked.started != 0 && found.started != 0 then tracked.started == found.started
    else tracked.tool == found.tool && tracked.dir == found.dir
  }

  // A reused PID shows by its start instants, or, where the platform reports
  // none, by tool and directory.
  lemma SameProcessIff(t: Process, p: Process)
    ensures SameProcess(t, p) <==>
      t.pid == p.pid && ((t.started == p.started != 0) ||
                         ((t.started == 0 || p.started == 0) && t.tool == p.tool && t.dir == p.dir))
  {
  }

  // What the rest of the program observes: a follower put to work, and one
  // canceled, awaited and asked for its final report.
  datatype Action = Start(t: Tracker) | Stop(t: Tracker)

  type Log = seq<Action>

  function Starts(log: Log): nat {
    if log == [] then 0 else Starts(log[..|log| - 1]) + (if log[|log| - 1].Start? then 1 else 0)
  }

  // The followers at work after log, by PID.
  function Open(log: Log): map<Pid, Tracker> {
    if log == [] then map[] else
      var open, a := Open(log[..|log| - 1]), log[|log| - 1];
      match a
      case Start(t) => open[t.proc.pid := t]
      case Stop(t) => open - {t.proc.pid}
  }

  // A follower starts only with a new id and no other at its PID, and stops
  // only while it is at work.
  predicate Proper(log: Log) {
    log == [] ||
    var front, a := log[..|log| - 1], log[|log| - 1];
    && Proper(front)
    && match a
       case Start(t) => t.proc.pid !in Open(front) && t.id == Starts(front)
       case Stop(t) => t.proc.pid in Open(front) && Open(front)[t.proc.pid] == t
  }

  lemma Appended(log: Log, a: Action)
    ensures (log + [a])[..|log + [a]| - 1] == log && (log + [a])[|log + [a]| - 1] == a
    ensures forall x :: x in log + [a] <==> x == a || x in log
  {
  }

  lemma LogStart(log: Log, t: Tracker)
    requires Proper(log) && t.proc.pid !in Open(log) && t.id == Starts(log)
    ensures Proper(log + [Start(t)])
    ensures Open(log + [Start(t)]) == Open(log)[t.proc.pid := t] && Starts(log + [Start(t)]) == Starts(log) + 1
  {
    Appended(log, Start(t));
  }

  lemma LogStop(log: Log, t: Tracker)
    requires Proper(log) && t.proc.pid in Open(log) && Open(log)[t.proc.pid] == t
    ensures Proper(log + [Stop(t)])
    ensures Open(log + [Stop(t)]) == Open(log) - {t.proc.pid} && Starts(log + [Stop(t)]) == Starts(log)
  {
    Appended(log, Stop(t));
  }

  // Followers being stopped, one after the other.
  function Stops(ts: seq<Tracker>): Log {
    if ts == [] then [] else [Stop(ts[0])] + Stops(ts[1..])
  }

  function Pids(ts: seq<Tracker>): set<Pid> {
    set t | t in ts :: t.proc.pid
  }

  function PidCmp(a: Tracker, b: Tracker): int {
    a.proc.pid - b.proc.pid
  }

  lemma PidOrdering()
    ensures Ordering(PidCmp)
  {
  }

  // ts are members of open, each under its own PID, none twice.
  ghost predicate Among(ts: seq<Tracker>, open: map<Pid, Tracker>) {
    && (forall i :: 0 <= i < |ts| ==> ts[i].proc.pid in open && open[ts[i].proc.pid] == ts[i])
    && NoTwins(PidCmp, ts)
  }

  // A measured engine: its address, and what it is called.
  datatype Engine = Engine(endpoint: string, name: string)

  // The engine a process at this PID generates through: the first one at the
  // endpoint it is connected to, "" when there is none.
  ghost predicate IsVia(engines: seq<Engine>, matched: map<Pid, string>, pid: Pid, via: string) {
    if pid in matched && exists i :: 0 <= i < |engines| && engines[i].endpoint == matched[pid]
    then exists i :: 0 <= i < |engines| && IsFirstAt(engines, matched[pid], i) && via == engines[i].name
    else via == ""
  }

  predicate IsFirstAt(engines: seq<Engine>, endpoint: string, i: nat)
    requires i < |engines|
  {
    engines[i].endpoint == endpoint && forall j :: 0 <= j < i ==> engines[j].endpoint != endpoint
  }

  class AgentWatcher {
    var tracked: map<Pid, Tracker>
    var via: map<Pid, string>
    var log: Log
    var nextId: nat

    // Between two calls exactly the tracked followers are at work.
    ghost predicate Valid()
      reads this
    {
      Proper(log) && Open(log) == tracked && nextId == Starts(log) && OwnPids()
    }

    ghost predicate OwnPids()
      reads this
    {
      forall pid :: pid in tracked ==> tracked[pid].proc.pid == pid
    }

    constructor ()
      ensures Valid() && log == [] && tracked == map[]
    {
      tracked, via, log, nextId := map[], map[], [], 0;
    }

    method StopOne(t: Tracker)
      requires Proper(log) && t.proc.pid in Open(log) && Open(log)[t.proc.pid] == t
      modifies this`log
      ensures log == old(log) + [Stop(t)] && Proper(log)
      ensures Open(log) == old(Open(log)) - {t.proc.pid} && Starts(log) == old(Starts(log))
    {
      LogStop(log, t);
      log := log + [Stop(t)];
    }

    method StopEach(ts: seq<Tracker>)
      requires Proper(log) && Among(ts, Open(log))
      modifies this`log
      ensures log == old(log) + Stops(ts) && Proper(log)
      ensures Open(log) == old(Open(log)) - Pids(ts) && Starts(log) == old(Starts(log))
    {
      var k := 0;
      assert log + Stops(ts) == old(log) + Stops(ts);
      while k < |ts|
        invariant k <= |ts| && Proper(log)
        invariant log + Stops(ts[k..]) == old(log) + Stops(ts)
        invariant Open(log) == old(Open(log)) - Pids(ts[..k]) && Starts(log) == old(Starts(log))
      {
        PidsGrow(ts, k);
        DropDrop(ts, k, 1);
        Associative(log, [Stop(ts[k])], Stops(ts[k + 1..]));
        StopOne(ts[k]);
        k := k + 1;
      }
      assert ts[..k] == ts && ts[k..] == [];
    }

    // Takes every follower at one of the PIDs out of the table.
    method Remove(dead: set<Pid>) returns (gone: seq<Tracker>)
      requires OwnPids() && dead <= tracked.Keys
      modifies this`tracked
      ensures tracked == old(tracked) - dead && IsListing(gone, old(tracked), dead)
    {
      ghost var was := tracked;
      gone := [];
      var rest := dead;
      while rest != {}
        invariant rest <= dead && Among(gone, was) && Pids(gone) == dead - rest
        invariant tracked == was - (dead - rest)
      {
        var pid := AnyOf(rest);
        TakeOut(was, gone, pid);
        gone := gone + [tracked[pid]];
        tracked := tracked - {pid};
        rest := rest - {pid};
      }
      Reordered(gone, was);
      gone := SortAll(PidCmp, gone);
    }

    // Every follower at work is stopped, in PID order.
    method StopAll()
      requires Valid()
      modifies this
      ensures Valid() && tracked == map[]
      ensures exists gone :: IsListing(gone, old(tracked), old(tracked).Keys) && log == old(log) + Stops(gone)
    {
      var gone := Remove(tracked.Keys);
      StopEach(gone);
    }

    // The first pass of discover: what is new, and what a reused PID displaces.
    method Classify(found: seq<Process>) returns (arrived: seq<Process>, replaced: seq<Tracker>, live: set<Pid>)
      requires OwnPids()
      modifies this`tracked
      ensures live == LivePids(found) && IsSorted(found, old(tracked), tracked, arrived, replaced)
    {
      arrived, replaced, live := [], [], {};
      ghost var was := tracked;
      var k := 0;
      assert found[..0] == [];
      while k < |found|
        invariant k <= |found| && OwnPids()
        invariant live == LivePids(found[..k]) && IsSorted(found[..k], was, tracked, arrived, replaced)
      {
        var p := found[k];
        assert found[..k + 1] == found[..k] + [p];
        live := live + {p.pid};
        if p.pid !in tracked {
          MeetNew(found[..k], was, tracked, arrived, replaced, p);
          arrived := arrived + [p];
        } else if !SameProcess(tracked[p.pid].proc, p) {
          MeetReused(found[..k], was, tracked, arrived, replaced, p);
          replaced := replaced + [tracked[p.pid]];
          tracked := tracked - {p.pid};
          arrived := arrived + [p];
        } else {
          MeetSame(found[..k], was, tracked, arrived, replaced, p);
        }
        k := k + 1;
      }
      assert found[..k] == found;
    }

    // At work: the tracked followers, and others taken out of the table but
    // not yet stopped.
    ghost predicate Working(others: map<Pid, Tracker>)
      reads this
    {
      Proper(log) && Open(log) == tracked + others && nextId == Starts(log) && OwnPids()
    }

    // A follower for a new process that keeps something readable, unless its
    // PID got one already.
    method Attach(p: Process, readable: Process -> bool, ghost others: map<Pid, Tracker>)
      requires Working(others) && p.pid !in others
      modifies this
      ensures Working(others) && old(log) <= log
      ensures tracked == if readable(p) && p.pid !in old(tracked)
                         then old(tracked)[p.pid := Tracker(p, old(nextId))] else old(tracked)
    {
      if readable(p) && p.pid !in tracked {
        var t := Tracker(p, nextId);
        LogStart(log, t);
        Merged(tracked, others, p.pid, t);
        log := log + [Start(t)];
        tracked := tracked[p.pid := t];
        nextId := nextId + 1;
      }
    }

    method AttachAll(arrived: seq<Process>, readable: Process -> bool, ghost others: map<Pid, Tracker>)
      requires Working(others) && forall p :: p in arrived ==> p.pid !in others
      modifies this
      ensures Working(others) && old(log) <= log && IsAttached(arrived, readable, old(tracked), tracked)
    {
      var k := 0;
      while k < |arrived|
        invariant k <= |arrived| && Working(others) && old(log) <= log
        invariant IsAttached(arrived[..k], readable, old(tracked), tracked)
      {
        AttachOne(arrived, k, readable, old(tracked), tracked, nextId);
        Attach(arrived[k], readable, others);
        k := k + 1;
      }
      assert arrived[..k] == arrived;
    }

    // The order that matters: a reused PID's old follower is stopped before
    // its successor attaches, and the exited last.
    method Turnover(replaced: seq<Tracker>, arrived: seq<Process>, readable: Process -> bool,
                    exited: seq<Tracker>, ghost others: map<Pid, Tracker>)
      requires OwnPids() && nextId == Starts(log) && Proper(log)
      requires Among(replaced, Open(log)) && Open(log) - Pids(replaced) == tracked + others
      requires tracked.Keys !! others.Keys && forall p :: p in arrived ==> p.pid !in others
      requires IsListing(exited, others, others.Keys)
      modifies this
      ensures Valid() && old(log) <= log && IsAttached(arrived, readable, old(tracked), tracked)
    {
      StopEach(replaced);
      AttachAll(arrived, readable, others);
      Leaving(tracked, others, exited);
      StopEach(exited);
    }

    // engines are the measured ones, and matched the endpoints that tracked
    // processes are connected to.
    method Discover(found: seq<Process>, readable: Process -> bool, engines: seq<Engine>, matched: map<Pid, string>)
      requires Valid()
      modifies this
      ensures Valid() && old(log) <= log
      ensures IsDiscovered(found, readable, old(tracked), tracked)
      ensures UniquePids(found) ==> TurnsOut(found, readable, old(tracked), tracked, old(log), log)
      ensures via.Keys == tracked.Keys && forall pid :: pid in tracked ==> IsVia(engines, matched, pid, via[pid])
    {
      ghost var was := tracked;
      var arrived, replaced, live := Classify(found);
      ghost var kept := tracked;
      var exited := Remove(tracked.Keys - live);
      arrived := SortProcesses(arrived);
      Parted(kept, kept.Keys - live, exited);
      Turnover(replaced, arrived, readable, exited, Restrict(kept, kept.Keys - live));
      Concludes(found, readable, was, kept, arrived, replaced, tracked);
      if UniquePids(found) {
        Outcome(found, readable, was, tracked, old(log), log);
      }
      Attribute(engines, matched);
    }

    // Asked anew on every pass: an agent may switch engines.
    method Attribute(engines: seq<Engine>, matched: map<Pid, string>)
      modifies `via
      ensures via.Keys == tracked.Keys && forall pid :: pid in tracked ==> IsVia(engines, matched, pid, via[pid])
    {
      via := map[];
      var left := tracked.Keys;
      while left != {}
        invariant left <= tracked.Keys && via.Keys == tracked.Keys - left
        invariant forall pid :: pid in via ==> IsVia(engines, matched, pid, via[pid])
      {
        var pid := AnyOf(left);
        var name := "";
        if pid in matched {
          name := NameAt(engines, matched[pid]);
        }
        via := via[pid := name];
        left := left - {pid};
      }
    }
  }

  method NameAt(engines: seq<Engine>, endpoint: string) returns (name: string)
    ensures if exists i :: 0 <= i < |engines| && engines[i].endpoint == endpoint
            then exists i :: 0 <= i < |engines| && IsFirstAt(engines, endpoint, i) && name == engines[i].name
            else name == ""
  {
    for i := 0 to |engines|
      invariant forall j :: 0 <= j < i ==> engines[j].endpoint != endpoint
    {
      if engines[i].endpoint == endpoint {
        assert IsFirstAt(engines, endpoint, i);
        return engines[i].name;
      }
    }
    return "";
  }

  // Stopping the exited leaves the tracked.
  lemma Leaving(tracked: map<Pid, Tracker>, others: map<Pid, Tracker>, exited: seq<Tracker>)
    requires tracked.Keys !! others.Keys && IsListing(exited, others, others.Keys)
    ensures Among(exited, tracked + others) && tracked + others - Pids(exited) == tracked
  {
    assert tracked + others - others.Keys == tracked;
  }

  lemma Parted(m: map<Pid, Tracker>, keys: set<Pid>, ts: seq<Tracker>)
    requires keys <= m.Keys && IsListing(ts, m, keys)
    ensures var part := Restrict(m, keys);
      && m == (m - keys) + part && part.Keys == keys && IsListing(ts, part, part.Keys)
  {
    assert forall i :: 0 <= i < |ts| ==> ts[i].proc.pid in Pids(ts) by {
      assert forall i :: 0 <= i < |ts| ==> ts[i] in ts;
    }
  }

  function Restrict(m: map<Pid, Tracker>, keys: set<Pid>): map<Pid, Tracker> {
    map pid | pid in keys && pid in m :: m[pid]
  }

  method SortProcesses(ps: seq<Process>) returns (s: seq<Process>)
    ensures forall p :: p in s <==> p in ps
    ensures forall i, j :: 0 <= i < j < |s| ==> s[i].pid <= s[j].pid
  {
    s := SortAll(ProcessCmp, ps);
    SortAllSorts(ProcessCmp, ps);
    SortAllHolds(ProcessCmp, ps);
  }

  function LivePids(found: seq<Process>): set<Pid> {
    set p | p in found :: p.pid
  }

  function ProcessCmp(a: Process, b: Process): int {
    a.pid - b.pid
  }

  // The followers at the PIDs dead, in PID order.
  ghost predicate IsListing(ts: seq<Tracker>, open: map<Pid, Tracker>, dead: set<Pid>) {
    && Among(ts, open) && Pids(ts) == dead
    && forall i, j :: 0 <= i < j < |ts| ==> ts[i].proc.pid < ts[j].proc.pid
  }

  // Found processes against the table: what stays is the same process as
  // everything found at its PID, what went was not, and what is at none is new.
  ghost predicate IsSorted(found: seq<Process>, was: map<Pid, Tracker>, left: map<Pid, Tracker>,
                           arrived: seq<Process>, replaced: seq<Tracker>) {
    && Among(replaced, was) && left == was - Pids(replaced)
    && (forall t :: t in replaced ==> exists p :: p in found && p.pid == t.proc.pid && !SameProcess(t.proc, p))
    && (forall p :: p in found && p.pid in left ==> SameProcess(left[p.pid].proc, p))
    && (forall p :: p in found && p.pid !in left ==> p.pid in LivePids(arrived))
    && (forall p :: p in arrived ==> p in found && p.pid !in left)
  }

  ghost predicate IsAttached(arrived: seq<Process>, readable: Process -> bool,
                             was: map<Pid, Tracker>, now: map<Pid, Tracker>)
  {
    && (forall pid :: pid in was ==> pid in now && now[pid] == was[pid])
    && (forall pid :: pid in now && pid !in was ==> now[pid].proc in arrived && readable(now[pid].proc))
    && (forall p :: p in arrived && readable(p) ==> p.pid in now)
  }

  // One pass of discovery: everything tracked is a process just found, either
  // followed before and the same, or readable and new. When no PID is found
  // twice, exactly the readable and the already followed are tracked.
  ghost predicate IsDiscovered(found: seq<Process>, readable: Process -> bool,
                               was: map<Pid, Tracker>, now: map<Pid, Tracker>)
  {
    && (forall pid :: pid in now ==> exists p :: p in found && SameProcess(now[pid].proc, p))
    && (forall pid :: pid in now ==> (pid in was && now[pid] == was[pid]) || readable(now[pid].proc))
    && (UniquePids(found) ==> forall p :: p in found ==>
          if p.pid in was && SameProcess(was[p.pid].proc, p) then p.pid in now && now[p.pid] == was[p.pid]
          else (p.pid in now <==> readable(p)) && (p.pid in now ==> now[p.pid].proc == p))
  }

  ghost predicate UniquePids(found: seq<Process>) {
    forall p, q :: p in found && q in found && p.pid == q.pid ==> p == q
  }

  lemma Merged(tracked: map<Pid, Tracker>, others: map<Pid, Tracker>, pid: Pid, t: Tracker)
    requires pid !in others
    ensures (tracked + others)[pid := t] == tracked[pid := t] + others
  {
  }

  lemma AttachOne(arrived: seq<Process>, k: nat, readable: Process -> bool,
                  was: map<Pid, Tracker>, now: map<Pid, Tracker>, id: nat)
    requires k < |arrived| && IsAttached(arrived[..k], readable, was, now)
    ensures var p := arrived[k];
      IsAttached(arrived[..k + 1], readable, was,
                 if readable(p) && p.pid !in now then now[p.pid := Tracker(p, id)] else now)
  {
    assert arrived[..k + 1] == arrived[..k] + [arrived[k]];
    assert forall q :: q in arrived[..k + 1] <==> q in arrived[..k] || q == arrived[k];
  }

  lemma Concludes(found: seq<Process>, readable: Process -> bool, was: map<Pid, Tracker>, kept: map<Pid, Tracker>,
                  arrived: seq<Process>, replaced: seq<Tracker>, now: map<Pid, Tracker>)
    requires IsSorted(found, was, kept, arrived, replaced)
    requires forall pid :: pid in kept ==> kept[pid].proc.pid == pid
    requires forall pid :: pid in was ==> was[pid].proc.pid == pid
    requires forall pid :: pid in now ==> now[pid].proc.pid == pid
    requires IsAttached(arrived, readable, kept - (kept.Keys - LivePids(found)), now)
    ensures IsDiscovered(found, readable, was, now)
  {
  }

  lemma MeetNew(found: seq<Process>, was: map<Pid, Tracker>, left: map<Pid, Tracker>,
                arrived: seq<Process>, replaced: seq<Tracker>, p: Process)
    requires IsSorted(found, was, left, arrived, replaced) && p.pid !in left
    ensures IsSorted(found + [p], was, left, arrived + [p], replaced)
  {
    assert forall q :: q in found + [p] <==> q in found || q == p;
    assert forall q :: q in arrived + [p] <==> q in arrived || q == p;
    assert LivePids(arrived + [p]) == LivePids(arrived) + {p.pid};
  }

  lemma MeetSame(found: seq<Process>, was: map<Pid, Tracker>, left: map<Pid, Tracker>,
                 arrived: seq<Process>, replaced: seq<Tracker>, p: Process)
    requires IsSorted(found, was, left, arrived, replaced)
    requires p.pid in left && SameProcess(left[p.pid].proc, p)
    ensures IsSorted(found + [p], was, left, arrived, replaced)
  {
    assert forall q :: q in found + [p] <==> q in found || q == p;
  }

  lemma MeetReused(found: seq<Process>, was: map<Pid, Tracker>, left: map<Pid, Tracker>,
                   arrived: seq<Process>, replaced: seq<Tracker>, p: Process)
    requires IsSorted(found, was, left, arrived, replaced)
    requires p.pid in left && left[p.pid].proc.pid == p.pid && !SameProcess(left[p.pid].proc, p)
    ensures IsSorted(found + [p], was, left - {p.pid}, arrived + [p], replaced + [left[p.pid]])
  {
    var more := replaced + [left[p.pid]];
    assert forall q :: q in found + [p] <==> q in found || q == p;
    assert forall q :: q in arrived + [p] <==> q in arrived || q == p;
    assert forall t :: t in more <==> t in replaced || t == left[p.pid];
    assert LivePids(arrived + [p]) == LivePids(arrived) + {p.pid};
    TakeOut(was, replaced, p.pid);
  }

  lemma PidsGrow(ts: seq<Tracker>, k: nat)
    requires k < |ts| && NoTwins(PidCmp, ts)
    ensures Pids(ts[..k + 1]) == Pids(ts[..k]) + {ts[k].proc.pid} && ts[k].proc.pid !in Pids(ts[..k])
  {
    assert ts[..k + 1] == ts[..k] + [ts[k]];
    assert forall t :: t in ts[..k] ==> exists i :: 0 <= i < k && ts[i] == t && PidCmp(ts[i], ts[k]) != 0;
  }

  lemma TakeOut(was: map<Pid, Tracker>, gone: seq<Tracker>, pid: Pid)
    requires Among(gone, was) && pid in was && pid !in Pids(gone) && was[pid].proc.pid == pid
    ensures Among(gone + [was[pid]], was) && Pids(gone + [was[pid]]) == Pids(gone) + {pid}
  {
    var more := gone + [was[pid]];
    assert forall t :: t in gone ==> t.proc.pid in Pids(gone);
    assert forall i :: 0 <= i < |gone| ==> gone[i] in gone;
    assert forall t :: t in more <==> t in gone || t == was[pid];
  }

  // Sorting by PID is only a reordering.
  lemma Reordered(ts: seq<Tracker>, open: map<Pid, Tracker>)
    requires Among(ts, open)
    ensures IsListing(SortAll(PidCmp, ts), open, Pids(ts))
  {
    PidOrdering();
    SortAllSorts(PidCmp, ts);
    SortAllHolds(PidCmp, ts);
    NoTwinsSurvive(PidCmp, ts);
    SameMembers(ts, SortAll(PidCmp, ts), open);
  }

  lemma SameMembers(ts: seq<Tracker>, s: seq<Tracker>, open: map<Pid, Tracker>)
    requires Among(ts, open) && (forall t :: t in s <==> t in ts) && NoTwins(PidCmp, s)
    ensures Among(s, open) && Pids(s) == Pids(ts)
  {
    assert forall i :: 0 <= i < |s| ==> s[i] in ts;
  }

  // No order of the map's iteration shows: there is one listing.
  lemma ListingIsUnique(a: seq<Tracker>, b: seq<Tracker>, open: map<Pid, Tracker>, dead: set<Pid>)
    requires IsListing(a, open, dead) && IsListing(b, open, dead)
    ensures a == b
  {
    PidOrdering();
    forall k
      ensures Ties(PidCmp, a, k) == Ties(PidCmp, b, k)
    {
      AtMostOneTie(PidCmp, a, k);
      AtMostOneTie(PidCmp, b, k);
      TiesHold(PidCmp, a, k);
      TiesHold(PidCmp, b, k);
      SamePid(a, b, open, dead, k);
      SamePid(b, a, open, dead, k);
      SingleTie(Ties(PidCmp, a, k), Ties(PidCmp, b, k));
    }
    StableSortIsUnique(PidCmp, a, b);
  }

  lemma SamePid(a: seq<Tracker>, b: seq<Tracker>, open: map<Pid, Tracker>, dead: set<Pid>, k: Tracker)
    requires IsListing(a, open, dead) && IsListing(b, open, dead)
    ensures forall t :: t in a && PidCmp(t, k) == 0 ==> t in b
  {
    forall t | t in a
      ensures t in b
    {
      assert t.proc.pid in Pids(b);
      var u :| u in b && u.proc.pid == t.proc.pid;
    }
  }

  lemma SingleTie(a: seq<Tracker>, b: seq<Tracker>)
    requires |a| <= 1 && |b| <= 1 && forall t :: t in a <==> t in b
    ensures a == b
  {
    assert (a != [] ==> a[0] in a) && (b != [] ==> b[0] in b);
  }

  lemma {:induction false} PrefixIsProper(log: Log, n: nat)
    requires Proper(log) && n <= |log|
    ensures Proper(log[..n])
    decreases |log|
  {
    if n == |log| {
      assert log[..n] == log;
    } else {
      PrefixIsProper(log[..|log| - 1], n);
      assert log[..|log| - 1][..n] == log[..n];
    }
  }

  predicate AtWork(log: Log, t: Tracker) {
    t.proc.pid in Open(log) && Open(log)[t.proc.pid] == t
  }

  // At work are exactly the followers started and not stopped.
  lemma {:induction false} AtWorkIff(log: Log, t: Tracker)
    requires Proper(log)
    ensures AtWork(log, t) <==> Start(t) in log && Stop(t) !in log
    ensures Start(t) in log ==> t.id < Starts(log)
    ensures Stop(t) in log ==> Start(t) in log
    ensures forall pid :: pid in Open(log) ==> Open(log)[pid].proc.pid == pid
  {
    if log != [] {
      var front, a := log[..|log| - 1], log[|log| - 1];
      AtWorkIff(front, t);
      assert log == front + [a];
      assert forall x :: x in log <==> x in front || x == a;
    }
  }

  // What becomes of a tracked PID, in the fields of the processes. The follower
  // stays exactly when both start instants are known and equal, or one is
  // unknown and tool and directory agree. Else it is stopped, and the PID gets a
  // new follower of the process found, if that keeps anything readable.
  ghost predicate Judged(t: Tracker, p: Process, readable: Process -> bool, now: map<Pid, Tracker>,
                         before: Log, log: Log)
  {
    if (t.proc.started != 0 && p.started != 0 && t.proc.started == p.started) ||
       ((t.proc.started == 0 || p.started == 0) && t.proc.tool == p.tool && t.proc.dir == p.dir)
    then p.pid in now && now[p.pid] == t && Stop(t) !in log
    else && Stop(t) in log
         && (p.pid in now <==> readable(p))
         && (p.pid in now ==> now[p.pid].proc == p && Start(now[p.pid]) in log && Start(now[p.pid]) !in before)
  }

  // One discovery, PID by PID: those found at a tracked PID, those found at
  // another, and the tracked ones that were not found.
  ghost predicate TurnsOut(found: seq<Process>, readable: Process -> bool, was: map<Pid, Tracker>,
                           now: map<Pid, Tracker>, before: Log, log: Log)
  {
    && (forall p :: p in found && p.pid in was ==> Judged(was[p.pid], p, readable, now, before, log))
    && (forall p :: p in found && p.pid !in was ==>
          (p.pid in now <==> readable(p)) && (p.pid in now ==> now[p.pid].proc == p))
    && (forall pid :: pid in was && (forall p :: p in found ==> p.pid != pid) ==>
          pid !in now && Stop(was[pid]) in log)
  }

  // Everyone at work before is at work still or was stopped in between, and
  // whoever is at work only now was started in between.
  lemma Between(was: map<Pid, Tracker>, now: map<Pid, Tracker>, before: Log, log: Log, pid: Pid)
    requires Proper(log) && Proper(before) && before <= log && Open(before) == was && Open(log) == now
    ensures pid in was ==> (Stop(was[pid]) in log <==> !(pid in now && now[pid] == was[pid]))
    ensures pid in now && !(pid in was && was[pid] == now[pid]) ==>
              Start(now[pid]) in log && Start(now[pid]) !in before
  {
    if pid in was {
      AtWorkIff(before, was[pid]);
      AtWorkIff(log, was[pid]);
    }
    if pid in now {
      AtWorkIff(before, now[pid]);
      AtWorkIff(log, now[pid]);
    }
  }

  lemma Outcome(found: seq<Process>, readable: Process -> bool, was: map<Pid, Tracker>, now: map<Pid, Tracker>,
                before: Log, log: Log)
    requires Proper(log) && Proper(before) && before <= log && Open(before) == was && Open(log) == now
    requires IsDiscovered(found, readable, was, now) && UniquePids(found)
    requires forall pid :: pid in was ==> was[pid].proc.pid == pid
    requires forall pid :: pid in now ==> now[pid].proc.pid == pid
    ensures TurnsOut(found, readable, was, now, before, log)
  {
    forall p | p in found && p.pid in was
      ensures Judged(was[p.pid], p, readable, now, before, log)
    {
      Between(was, now, before, log, p.pid);
    }
    forall pid | pid in was && forall p :: p in found ==> p.pid != pid
      ensures pid !in now && Stop(was[pid]) in log
    {
      Between(was, now, before, log, pid);
    }
  }

  lemma StepAt(log: Log, j: nat)
    requires Proper(log) && j < |log|
    ensures Proper(log[..j])
    ensures log[j].Start? ==> log[j].t.proc.pid !in Open(log[..j]) && log[j].t.id == Starts(log[..j])
    ensures log[j].Stop? ==> AtWork(log[..j], log[j].t)
  {
    PrefixIsProper(log, j + 1);
    PrefixIsProper(log, j);
    assert log[..j + 1][..|log[..j + 1]| - 1] == log[..j];
  }

  // A follower is put to work once and stopped once.
  lemma OnceEach(log: Log, i: nat, j: nat)
    requires Proper(log) && i < j < |log|
    ensures log[i] != log[j]
  {
    StepAt(log, j);
    AtWorkIff(log[..j], log[j].t);
    assert log[i] == log[..j][i];
  }

  // Over any sequence of discoveries: before a PID gets another follower, the
  // one it had was stopped.
  lemma StoppedBeforeReplaced(log: Log, i: nat, j: nat)
    requires Proper(log) && i < j < |log| && log[i].Start? && log[j].Start?
    requires log[i].t.proc.pid == log[j].t.proc.pid
    ensures exists k :: i < k < j && log[k] == Stop(log[i].t)
  {
    var t := log[i].t;
    StepAt(log, j);
    AtWorkIff(log[..j], t);
    assert log[..j][i] == Start(t);
    var k :| 0 <= k < j && log[..j][k] == Stop(t);
    if k <= i {
      StepAt(log, k);
      AtWorkIff(log[..k], t);
      var l :| 0 <= l < k && log[..k][l] == Start(t);
      OnceEach(log, l, i);
    }
  }

  // Every follower ever started is tracked now or was stopped, never both.
  lemma Accounted(w: AgentWatcher, t: Tracker)
    requires w.Valid() && Start(t) in w.log
    ensures (t.proc.pid in w.tracked && w.tracked[t.proc.pid] == t) <==> multiset(w.log)[Stop(t)] == 0
    ensures multiset(w.log)[Stop(t)] <= 1 && multiset(w.log)[Start(t)] == 1
  {
    AtWorkIff(w.log, t);
    CountOnce(w.log, Stop(t));
    CountOnce(w.log, Start(t));
    assert Stop(t) in w.log <==> Stop(t) in multiset(w.log);
    assert Start(t) in w.log <==> Start(t) in multiset(w.log);
  }

  lemma {:induction false} CountOnce(log: Log, a: Action)
    requires Proper(log)
    ensures multiset(log)[a] <= 1
  {
    if log != [] {
      var front := log[..|log| - 1];
      CountOnce(front, a);
      assert log == front + [log[|log| - 1]];
      if a == log[|log| - 1] && a in multiset(front) {
        var i :| 0 <= i < |front| && front[i] == a;
        OnceEach(log, i, |log| - 1);
      }
    }
  }
}
