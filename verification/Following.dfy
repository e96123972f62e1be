// Followers and their reports together (internal/agentwatch/agentwatch.go):
// stopping one is ending its poll loop, one forced poll, and one last report,
// after which its events add up to what its transcripts hold.
module Following {
  import opened Counters
  import opened Feed
  import opened Lifecycle
  import opened Report
  import opened Watcher

  // What a follower had sent, and its transcripts held, when it was stopped: the
  // one adds up to the other.
  datatype Account = Account(sent: seq<AgentEvent>, seen: map<Path, Values>)

  type Told = a: Account | AddsUp(a.sent, a.seen) witness Account([], map[])

  class Desk {
    const agents: AgentWatcher
    // The tracker of every follower, by the follower's id.
    var trackers: map<nat, Tracked>
    ghost var told: map<Tracker, Told>

    // Every stop in the log came with a final report, after which the events
    // added up: an account of it that is Told.
    ghost predicate Valid()
      reads this, agents
    {
      && Proper(agents.log)
      && forall t :: t in told <==> Stop(t) in agents.log
    }

    constructor (agents: AgentWatcher)
      requires agents.log == []
      ensures this.agents == agents && trackers == map[] && told == map[] && Valid()
    {
      this.agents, trackers, told := agents, map[], map[];
    }

    // A follower put to work gets its tracker, and keeps it.
    method Enroll(id: nat, tr: Tracked)
      requires Valid() && id !in trackers
      modifies `trackers
      ensures Valid() && trackers == old(trackers)[id := tr]
    {
      trackers := trackers[id := tr];
    }

    // The poll loop ends; the report is still to come.
    method EndLoop(t: Tracker)
      requires Valid() && t.proc.pid in Open(agents.log) && Open(agents.log)[t.proc.pid] == t
      modifies agents`log
      ensures Proper(agents.log) && Stop(t) !in old(agents.log) && agents.log == old(agents.log) + [Stop(t)]
      ensures forall u :: u in told || u == t <==> Stop(u) in agents.log
    {
      agents.StopOne(t);
      OnlyStop(old(agents.log), t);
    }

    method StopOne(t: Tracker, tr: Tracked, bye: Farewell)
      requires Valid() && t.proc.pid in Open(agents.log) && Open(agents.log)[t.proc.pid] == t
      requires t.id in trackers && trackers[t.id] == tr && tr.Synced() && tr.rec.Valid()
      requires |bye.views| == |bye.listing|
      modifies this`told, agents`log, tr`last, tr`sent, tr.watch, tr.rec`agents
      ensures Valid() && tr.Synced() && tr.rec.Valid()
      ensures Stop(t) !in old(agents.log) && agents.log == old(agents.log) + [Stop(t)]
      ensures told == old(told)[t := Account(tr.sent, tr.watch.seen)]
      ensures Reported(tr.follower, tr.viaEngine, tr.watch.sample, bye.clock, bye.now, old(tr.last), tr.last,
                       old(tr.sent), tr.sent, old(tr.rec.agents), tr.rec.agents)
    {
      EndLoop(t);
      tr.Final(bye);
      told := told[t := Account(tr.sent, tr.watch.seen)];
    }
  }

  // A follower at work has not been stopped.
  lemma OnlyStop(log: Log, t: Tracker)
    requires Proper(log + [Stop(t)])
    ensures Stop(t) !in log
    ensures forall a :: a in log + [Stop(t)] <==> a == Stop(t) || a in log
  {
    if Stop(t) in log {
      var i :| 0 <= i < |log| && log[i] == Stop(t);
      OnceEach(log + [Stop(t)], i, |log|);
      assert false;
    }
  }
}
