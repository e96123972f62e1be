// The feed over whole histories: what is retained after any sequence of
// events, and why sending an event again, however late, changes nothing.
module FeedHistory {
  import opened Base
  import opened Order
  import opened Feed

  // The feed after recording evs, already stamped, from some feed on.
  function Replay(feed: seq<AgentEvent>, evs: seq<AgentEvent>): seq<AgentEvent>
    decreases |evs|
  {
    if evs == [] then feed else Replay(Record(feed, evs[0]), evs[1..])
  }

  // The events of evs the feed takes in, in order.
  function Accepted(feed: seq<AgentEvent>, evs: seq<AgentEvent>): seq<AgentEvent>
    decreases |evs|
  {
    if evs == [] then [] else
      (if HasAgentID(feed, evs[0].id) then [] else [evs[0]]) + Accepted(Record(feed, evs[0]), evs[1..])
  }

  ghost predicate NoRepeatedIds(feed: seq<AgentEvent>) {
    forall i, j :: 0 <= i < j < |feed| && feed[i].id != "" ==> feed[i].id != feed[j].id
  }

  // feed is the window over every event accepted so far.
  ghost predicate IsWindow(feed: seq<AgentEvent>, accepted: seq<AgentEvent>) {
    feed == Last(AGENT_HISTORY_LEN, SortAll(AgentCmp, accepted)) && NoRepeatedIds(feed)
  }

  lemma SortAllGrows(xs: seq<AgentEvent>, x: AgentEvent)
    ensures SortAll(AgentCmp, xs + [x]) == Insert(AgentCmp, SortAll(AgentCmp, xs), x)
  {
    assert (xs + [x])[..|xs + [x]| - 1] == xs;
  }

  lemma FreshIdStaysUnique(feed: seq<AgentEvent>, x: AgentEvent)
    requires NoRepeatedIds(feed) && !HasAgentID(feed, x.id)
    ensures NoRepeatedIds(Last(AGENT_HISTORY_LEN, Insert(AgentCmp, feed, x)))
  {
    var p, r := Place(AgentCmp, feed, x, 0), Insert(AgentCmp, feed, x);
    forall i, j | 0 <= i < j < |r| && r[i].id != ""
      ensures r[i].id != r[j].id
    {
      SpliceIndex(feed, x, p, i);
      SpliceIndex(feed, x, p, j);
    }
  }

  lemma RecordKeepsWindow(feed: seq<AgentEvent>, accepted: seq<AgentEvent>, ev: AgentEvent)
    requires IsWindow(feed, accepted) && !HasAgentID(feed, ev.id)
    ensures IsWindow(Record(feed, ev), accepted + [ev])
  {
    AgentOrdering();
    SortAllSorts(AgentCmp, accepted);
    WindowInsert(AgentCmp, SortAll(AgentCmp, accepted), ev, AGENT_HISTORY_LEN);
    SortAllGrows(accepted, ev);
    FreshIdStaysUnique(feed, ev);
  }

  lemma {:induction false} ReplayKeepsWindow(feed: seq<AgentEvent>, accepted: seq<AgentEvent>, evs: seq<AgentEvent>)
    requires IsWindow(feed, accepted)
    ensures IsWindow(Replay(feed, evs), accepted + Accepted(feed, evs))
    decreases |evs|
  {
    if evs == [] {
      assert accepted + [] == accepted;
    } else if HasAgentID(feed, evs[0].id) {
      ReplayKeepsWindow(feed, accepted, evs[1..]);
      assert [] + Accepted(feed, evs[1..]) == Accepted(feed, evs[1..]);
    } else {
      RecordKeepsWindow(feed, accepted, evs[0]);
      ReplayKeepsWindow(Record(feed, evs[0]), accepted + [evs[0]], evs[1..]);
      Associative(accepted, [evs[0]], Accepted(Record(feed, evs[0]), evs[1..]));
    }
  }

  // After any events the feed is the last 512 of the stable sort of everything
  // accepted, and no non-empty id repeats in it.
  lemma FeedIsTheNewestAccepted(evs: seq<AgentEvent>)
    ensures var feed, all := Replay([], evs), Accepted([], evs);
      && feed == Last(AGENT_HISTORY_LEN, SortAll(AgentCmp, all))
      && IsStableSort(AgentCmp, all, SortAll(AgentCmp, all))
      && NoRepeatedIds(feed) && Sorted(AgentCmp, feed)
  {
    AgentOrdering();
    assert IsWindow([], []);
    ReplayKeepsWindow([], [], evs);
    assert [] + Accepted([], evs) == Accepted([], evs);
    SortAllIsStable(AgentCmp, Accepted([], evs));
    CutKeepsSorted(AgentCmp, SortAll(AgentCmp, Accepted([], evs)), AGENT_HISTORY_LEN);
  }

  // In instants and texts: the feed is oldest first, ties by agent, id and note,
  // and nothing accepted but no longer retained is later than anything that is.
  lemma FeedIsChronological(evs: seq<AgentEvent>)
    ensures var feed := Replay([], evs);
      && Chronological(feed)
      && forall e :: e in Accepted([], evs) ==>
           e in feed || (|feed| == 512 && forall x :: x in feed ==> e.at <= x.at && InOrder(e, x))
  {
    var feed, all := Replay([], evs), Accepted([], evs);
    FeedIsTheNewestAccepted(evs);
    SortedIsChronological(feed);
    AgentOrdering();
    forall e | e in all && e !in feed
      ensures |feed| == 512 && forall x :: x in feed ==> e.at <= x.at && InOrder(e, x)
    {
      LeftOutIsBelow(AgentCmp, all, AGENT_HISTORY_LEN, e);
      forall x | x in feed
        ensures e.at <= x.at && InOrder(e, x)
      {
        AgentCmpIs(e, x);
      }
    }
  }

  // What is not accepted carries the id of an event retained when it came; so
  // events without an id always are.
  lemma {:induction false} OnlyRepeatsAreRefused(feed: seq<AgentEvent>, evs: seq<AgentEvent>, k: nat)
    requires k < |evs|
    ensures var before := Replay(feed, evs[..k]);
      evs[k] in Accepted(feed, evs) || (evs[k].id != "" && exists x :: x in before && x.id == evs[k].id)
    decreases k
  {
    if k == 0 {
      if HasAgentID(feed, evs[0].id) {
        var i :| 0 <= i < |feed| && feed[i].id == evs[0].id;
        assert feed[i] in feed && evs[..0] == [];
      }
    } else {
      OnlyRepeatsAreRefused(Record(feed, evs[0]), evs[1..], k - 1);
      assert evs[..k][1..] == evs[1..][..k - 1] && evs[..k][0] == evs[0];
    }
  }

  // e was accepted: it is still retained, or everything retained is newer.
  ghost predicate Settled(feed: seq<AgentEvent>, e: AgentEvent) {
    e in feed || (|feed| == AGENT_HISTORY_LEN && forall x :: x in feed ==> AgentCmp(e, x) <= 0)
  }

  lemma RecordSettles(feed: seq<AgentEvent>, e: AgentEvent)
    requires Sorted(AgentCmp, feed) && |feed| <= AGENT_HISTORY_LEN && !HasAgentID(feed, e.id)
    ensures Settled(Record(feed, e), e)
  {
    var r := Insert(AgentCmp, feed, e);
    SpliceIndex(feed, e, Place(AgentCmp, feed, e, 0), Place(AgentCmp, feed, e, 0));
    AgentOrdering();
    InsertSorts(AgentCmp, feed, e);
    DroppedIsLeast(r, e);
  }

  // Cutting a sorted sequence drops only what is not above the rest.
  lemma DroppedIsLeast(r: seq<AgentEvent>, e: AgentEvent)
    requires Sorted(AgentCmp, r) && |r| <= AGENT_HISTORY_LEN + 1 && e in r
    ensures Settled(Last(AGENT_HISTORY_LEN, r), e)
  {
    var k :| 0 <= k < |r| && r[k] == e;
    if |r| > AGENT_HISTORY_LEN && k > 0 {
      assert r[1..][k - 1] == e;
    }
  }

  lemma StaysSettled(feed: seq<AgentEvent>, e: AgentEvent, x: AgentEvent)
    requires Sorted(AgentCmp, feed) && |feed| <= AGENT_HISTORY_LEN && Settled(feed, e)
    ensures Settled(Record(feed, x), e)
  {
    if !HasAgentID(feed, x.id) {
      AgentOrdering();
      var p, r := Place(AgentCmp, feed, x, 0), Insert(AgentCmp, feed, x);
      InsertSorts(AgentCmp, feed, x);
      InsertHolds(feed, x, p);
      if e in feed {
        DroppedIsLeast(r, e);
      } else if p > 0 {
        assert Transitive(AgentCmp, e, feed[0], x);
        PlaceSplits(AgentCmp, feed, x, 0);
        assert feed[0] in feed;
        forall y | y in Last(AGENT_HISTORY_LEN, r)
          ensures AgentCmp(e, y) <= 0
        {
          assert y in r;
        }
      } else {
        assert r[1..] == feed;
      }
    }
  }

  lemma InsertHolds(feed: seq<AgentEvent>, x: AgentEvent, p: nat)
    requires p <= |feed|
    ensures forall y :: y in feed[..p] + [x] + feed[p..] <==> y == x || y in feed
  {
    assert feed == feed[..p] + feed[p..];
  }

  // An event still retained, or older than everything retained, is refused or
  // falls straight out again.
  lemma SettledIsInert(feed: seq<AgentEvent>, e: AgentEvent)
    requires Settled(feed, e) && e.id != ""
    ensures Record(feed, e) == feed
  {
    if !HasAgentID(feed, e.id) {
      if e in feed {
        assert HasAgentID(feed, e.id);
      }
      assert feed[0] in feed;
      TieSharesId(e, feed[0]);
      AgentOrdering();
      assert Antisymmetric(AgentCmp, e, feed[0]);
      assert ([e] + feed)[1..] == feed && feed[..0] + [e] + feed[0..] == [e] + feed;
    }
  }

  lemma TieSharesId(a: AgentEvent, b: AgentEvent)
    ensures AgentCmp(a, b) == 0 ==> a.id == b.id
  {
    StringCmpEqual(a.id, b.id, 0);
  }

  lemma RepeatsShow(feed: seq<AgentEvent>, id: string)
    requires id != ""
    ensures HasAgentID(feed, id) <==> exists x :: x in feed && x.id == id
  {
    if HasAgentID(feed, id) {
      var i :| 0 <= i < |feed| && feed[i].id == id;
      assert feed[i] in feed;
    }
  }

  // Exactly when sending an event changes nothing: its id is still retained,
  // or the feed is full and everything in it is newer. A resend that carries
  // another timestamp is judged by that timestamp.
  lemma ResendChangesNothingIff(feed: seq<AgentEvent>, e: AgentEvent)
    requires Sorted(AgentCmp, feed) && |feed| <= AGENT_HISTORY_LEN && e.id != ""
    ensures Record(feed, e) == feed <==>
      (exists x :: x in feed && x.id == e.id) || (|feed| == 512 && !InOrder(feed[0], e))
  {
    RepeatsShow(feed, e.id);
    if |feed| == AGENT_HISTORY_LEN {
      AgentCmpIs(feed[0], e);
    }
    var p, r := Place(AgentCmp, feed, e, 0), Insert(AgentCmp, feed, e);
    if !HasAgentID(feed, e.id) {
      if |feed| == AGENT_HISTORY_LEN && AgentCmp(feed[0], e) > 0 {
        assert feed[..0] + [e] + feed[0..] == [e] + feed && ([e] + feed)[1..] == feed;
      } else if |feed| == AGENT_HISTORY_LEN {
        assert p > 0;
        SpliceIndex(feed, e, p, p);
        assert r[1..][p - 1] == e;
      }
    }
  }

  // Sorted and bounded, from any such feed on.
  lemma {:induction false} ReplayKeepsShape(feed: seq<AgentEvent>, evs: seq<AgentEvent>)
    requires Sorted(AgentCmp, feed) && |feed| <= AGENT_HISTORY_LEN
    ensures Sorted(AgentCmp, Replay(feed, evs)) && |Replay(feed, evs)| <= AGENT_HISTORY_LEN
    decreases |evs|
  {
    if evs != [] {
      RecordKeepsShape(feed, evs[0]);
      ReplayKeepsShape(Record(feed, evs[0]), evs[1..]);
    }
  }

  lemma {:induction false} SettledForGood(feed: seq<AgentEvent>, e: AgentEvent, evs: seq<AgentEvent>)
    requires Sorted(AgentCmp, feed) && |feed| <= AGENT_HISTORY_LEN && Settled(feed, e)
    ensures Settled(Replay(feed, evs), e)
    decreases |evs|
  {
    if evs != [] {
      RecordKeepsShape(feed, evs[0]);
      StaysSettled(feed, e, evs[0]);
      SettledForGood(Record(feed, evs[0]), e, evs[1..]);
    }
  }

  lemma {:induction false} ReplayAppend(feed: seq<AgentEvent>, a: seq<AgentEvent>, b: seq<AgentEvent>)
    ensures Replay(feed, a + b) == Replay(Replay(feed, a), b)
    decreases |a|
  {
    if a == [] {
      assert a + b == b;
    } else {
      TailOfAppend(a, b);
      ReplayAppend(Record(feed, a[0]), a[1..], b);
    }
  }

  // An event with an id, once accepted, can be sent again at any later time
  // without effect, even after it was evicted.
  lemma OnceAcceptedNeverAgain(before: seq<AgentEvent>, e: AgentEvent, between: seq<AgentEvent>)
    requires e.id != "" && !HasAgentID(Replay([], before), e.id)
    ensures Replay([], before + [e] + between + [e]) == Replay([], before + [e] + between)
  {
    var feed := Replay([], before);
    ReplayKeepsShape([], before);
    RecordSettles(feed, e);
    RecordKeepsShape(feed, e);
    SettledForGood(Record(feed, e), e, between);
    ReplayAppend([], before, [e]);
    ReplayAppend([], before + [e], between);
    ReplayAppend([], before + [e] + between, [e]);
    ReplayOne(feed, e);
    ReplayOne(Replay([], before + [e] + between), e);
    SettledIsInert(Replay([], before + [e] + between), e);
  }

  lemma ReplayOne(feed: seq<AgentEvent>, e: AgentEvent)
    ensures Replay(feed, [e]) == Record(feed, e)
  {
    assert [e][1..] == [];
  }

  // A stream of events with distinct ids the feed has not seen.
  ghost predicate FreshStream(feed: seq<AgentEvent>, stream: seq<AgentEvent>) {
    && (forall e :: e in stream ==> e.id != "" && !HasAgentID(feed, e.id))
    && (forall i, j :: 0 <= i < j < |stream| ==> stream[i].id != stream[j].id)
  }

  lemma FreshStreamShrinks(feed: seq<AgentEvent>, stream: seq<AgentEvent>)
    requires stream != [] && FreshStream(feed, stream)
    ensures FreshStream(Record(feed, stream[0]), stream[1..])
  {
    var e := stream[0];
    forall x | x in stream[1..]
      ensures !HasAgentID(Record(feed, e), x.id) && x.id != ""
    {
      var i :| 0 < i < |stream| && stream[i] == x;
      NewIdStaysNew(feed, e, x.id);
    }
  }

  lemma NewIdStaysNew(feed: seq<AgentEvent>, e: AgentEvent, id: string)
    requires !HasAgentID(feed, id) && e.id != id
    ensures !HasAgentID(Record(feed, e), id)
  {
    var p, r := Place(AgentCmp, feed, e, 0), Insert(AgentCmp, feed, e);
    forall i | 0 <= i < |r|
      ensures id != "" ==> r[i].id != id
    {
      SpliceIndex(feed, e, p, i);
    }
  }

  lemma {:induction false} FreshStreamSettles(feed: seq<AgentEvent>, stream: seq<AgentEvent>)
    requires Sorted(AgentCmp, feed) && |feed| <= AGENT_HISTORY_LEN && FreshStream(feed, stream)
    ensures forall e :: e in stream ==> Settled(Replay(feed, stream), e)
    decreases |stream|
  {
    if stream != [] {
      var e, rest := stream[0], stream[1..];
      assert e in stream;
      RecordSettles(feed, e);
      RecordKeepsShape(feed, e);
      SettledForGood(Record(feed, e), e, rest);
      FreshStreamShrinks(feed, stream);
      FreshStreamSettles(Record(feed, e), rest);
      SplitAt(stream, 1);
    }
  }

  lemma {:induction false} InertStream(feed: seq<AgentEvent>, stream: seq<AgentEvent>)
    requires forall e :: e in stream ==> e.id != "" && Settled(feed, e)
    ensures Replay(feed, stream) == feed
    decreases |stream|
  {
    if stream != [] {
      assert stream[0] in stream;
      SettledIsInert(feed, stream[0]);
      InertStream(feed, stream[1..]);
    }
  }

  // A sender that got through the first events of a stream, lost the answer,
  // and sends the whole stream again, with any other traffic in between,
  // leaves the feed one send would have left.
  lemma RetriedStreamCountsOnce(before: seq<AgentEvent>, stream: seq<AgentEvent>, k: nat, between: seq<AgentEvent>)
    requires k <= |stream| && FreshStream(Replay([], before), stream)
    ensures Replay([], before + stream[..k] + between + stream) ==
            Replay([], before + stream[..k] + between + stream[k..])
  {
    var sent, feed := stream[..k], Replay([], before);
    var mid := before + sent + between;
    ReplayKeepsShape([], before);
    FreshStreamSettles(feed, sent);
    ReplayKeepsShape(feed, sent);
    forall e | e in sent
      ensures Settled(Replay(Replay(feed, sent), between), e)
    {
      SettledForGood(Replay(feed, sent), e, between);
    }
    ReplayAppend([], before, sent);
    ReplayAppend([], before + sent, between);
    ReplayAppend([], mid, stream);
    ReplayAppend([], mid, stream[k..]);
    SplitAt(stream, k);
    ReplayAppend(Replay([], mid), sent, stream[k..]);
    InertStream(Replay([], mid), sent);
  }
}
