// The event feed and the probe ring of internal/collector/collector.go: sorted,
// bounded, and for events free of repeated ids.
module Feed {
  import opened Order

  const AGENT_HISTORY_LEN: nat := 512
  const PROBE_HISTORY_LEN: nat := 128

  // An instant in nanoseconds; zero is Go's zero time, "no timestamp".
  type Instant = int

  datatype AgentEvent = AgentEvent(
    at: Instant, id: string, agent: string, model: string, kind: string,
    promptTokens: int, outputTokens: int, thinkingTokens: int, viaEngine: string, note: string)

  datatype ProbeSample = ProbeSample(at: Instant, addr: string, model: string, ok: bool, err: string,
    ttftMs: real, tokPS: real, tokens: int, retryAfter: int)

  function Sign(n: int): int {
    if n < 0 then -1 else if n > 0 then 1 else 0
  }

  // strings.Compare from index i on.
  function StringCmp(a: string, b: string, i: nat): int
    requires i <= |a| && i <= |b|
    decreases |a| - i
  {
    if i == |a| then (if i == |b| then 0 else -1)
    else if i == |b| then 1
    else if a[i] != b[i] then Sign(a[i] as int - b[i] as int)
    else StringCmp(a, b, i + 1)
  }

  function AgentCmp(a: AgentEvent, b: AgentEvent): int {
    if a.at != b.at then Sign(a.at - b.at)
    else if StringCmp(a.agent, b.agent, 0) != 0 then StringCmp(a.agent, b.agent, 0)
    else if StringCmp(a.id, b.id, 0) != 0 then StringCmp(a.id, b.id, 0)
    else StringCmp(a.note, b.note, 0)
  }

  function ProbeCmp(a: ProbeSample, b: ProbeSample): int {
    if a.at != b.at then Sign(a.at - b.at)
    else if StringCmp(a.addr, b.addr, 0) != 0 then StringCmp(a.addr, b.addr, 0)
    else StringCmp(a.model, b.model, 0)
  }

  lemma {:induction false} StringCmpFlips(a: string, b: string, i: nat)
    requires i <= |a| && i <= |b|
    ensures StringCmp(b, a, i) == -StringCmp(a, b, i)
    decreases |a| - i
  {
    if i < |a| && i < |b| && a[i] == b[i] {
      StringCmpFlips(a, b, i + 1);
    }
  }

  lemma {:induction false} StringCmpChains(a: string, b: string, c: string, i: nat)
    requires i <= |a| && i <= |b| && i <= |c|
    ensures StringCmp(a, b, i) <= 0 && StringCmp(b, c, i) <= 0 ==>
              StringCmp(a, c, i) <= 0 && (StringCmp(a, c, i) == 0 ==> StringCmp(a, b, i) == 0 == StringCmp(b, c, i))
    decreases |a| - i
  {
    if i < |a| && i < |b| && i < |c| && a[i] == b[i] == c[i] {
      StringCmpChains(a, b, c, i + 1);
    }
  }

  lemma {:induction false} StringCmpEqual(a: string, b: string, i: nat)
    requires i <= |a| && i <= |b| && a[..i] == b[..i]
    ensures StringCmp(a, b, i) == 0 <==> a == b
    decreases |a| - i
  {
    if i < |a| && i < |b| && a[i] == b[i] {
      assert a[..i + 1] == a[..i] + [a[i]] && b[..i + 1] == b[..i] + [b[i]];
      StringCmpEqual(a, b, i + 1);
    } else if i == |a| && i == |b| {
      assert a == a[..i] && b == b[..i];
    } else if i < |a| && i < |b| {
      assert a[i] != b[i];
    }
  }

  lemma AgentOrdering()
    ensures Ordering(AgentCmp)
  {
    forall a, b
      ensures Antisymmetric(AgentCmp, a, b)
    {
      StringCmpFlips(a.agent, b.agent, 0);
      StringCmpFlips(a.id, b.id, 0);
      StringCmpFlips(a.note, b.note, 0);
    }
    forall a, b, c
      ensures Transitive(AgentCmp, a, b, c)
    {
      StringCmpChains(a.agent, b.agent, c.agent, 0);
      StringCmpChains(a.id, b.id, c.id, 0);
      StringCmpChains(a.note, b.note, c.note, 0);
      SameKeys(a.agent, b.agent, c.agent);
      SameKeys(a.id, b.id, c.id);
    }
  }

  // Comparing equal to one side compares the same to the other.
  lemma SameKeys(a: string, b: string, c: string)
    ensures StringCmp(a, b, 0) == 0 ==> StringCmp(a, c, 0) == StringCmp(b, c, 0)
    ensures StringCmp(b, c, 0) == 0 ==> StringCmp(a, c, 0) == StringCmp(a, b, 0)
  {
    StringCmpEqual(a, b, 0);
    StringCmpEqual(b, c, 0);
  }

  lemma ProbeOrdering()
    ensures Ordering(ProbeCmp)
  {
    forall a, b
      ensures Antisymmetric(ProbeCmp, a, b)
    {
      StringCmpFlips(a.addr, b.addr, 0);
      StringCmpFlips(a.model, b.model, 0);
    }
    forall a, b, c
      ensures Transitive(ProbeCmp, a, b, c)
    {
      StringCmpChains(a.addr, b.addr, c.addr, 0);
      StringCmpChains(a.model, b.model, c.model, 0);
      SameKeys(a.addr, b.addr, c.addr);
    }
  }

  // The order of two texts, said of their characters: one begins the other, or
  // the first character in which they differ decides.
  ghost predicate NotAfter(a: string, b: string) {
    a <= b || exists k: nat :: DiffersAt(a, b, k) && a[k] < b[k]
  }

  predicate DiffersAt(a: string, b: string, k: nat) {
    k < |a| && k < |b| && a[..k] == b[..k] && a[k] != b[k]
  }

  lemma {:induction false} StringCmpIs(a: string, b: string, i: nat)
    requires i <= |a| && i <= |b| && a[..i] == b[..i]
    ensures StringCmp(a, b, i) <= 0 <==> NotAfter(a, b)
    decreases |a| - i
  {
    if i < |a| && i < |b| && a[i] == b[i] {
      assert a[..i + 1] == a[..i] + [a[i]] && b[..i + 1] == b[..i] + [b[i]];
      StringCmpIs(a, b, i + 1);
    } else if i < |a| && i < |b| {
      assert DiffersAt(a, b, i);
      forall k: nat | DiffersAt(a, b, k)
        ensures k == i
      {
        SameFront(a, b, i, k);
      }
    } else {
      EqualBefore(a, b, i);
    }
  }

  lemma EqualBefore(a: string, b: string, i: nat)
    requires i <= |a| && i <= |b| && a[..i] == b[..i]
    ensures forall k :: 0 <= k < i ==> a[k] == b[k]
  {
    assert forall k :: 0 <= k < i ==> a[k] == a[..i][k] && b[k] == b[..i][k];
  }

  lemma SameFront(a: string, b: string, i: nat, k: nat)
    requires DiffersAt(a, b, i) && DiffersAt(a, b, k)
    ensures k == i
  {
    EqualBefore(a, b, i);
    EqualBefore(a, b, k);
  }

  // The feed's order: by instant, then by agent, id and note.
  ghost predicate InOrder(a: AgentEvent, b: AgentEvent) {
    if a.at != b.at then a.at < b.at
    else if a.agent != b.agent then NotAfter(a.agent, b.agent)
    else if a.id != b.id then NotAfter(a.id, b.id)
    else NotAfter(a.note, b.note)
  }

  lemma AgentCmpIs(a: AgentEvent, b: AgentEvent)
    ensures AgentCmp(a, b) <= 0 <==> InOrder(a, b)
  {
    StringCmpIs(a.agent, b.agent, 0);
    StringCmpIs(a.id, b.id, 0);
    StringCmpIs(a.note, b.note, 0);
    StringCmpEqual(a.agent, b.agent, 0);
    StringCmpEqual(a.id, b.id, 0);
  }

  // The ring's order: by instant, then by backend and model.
  ghost predicate InRingOrder(a: ProbeSample, b: ProbeSample) {
    if a.at != b.at then a.at < b.at
    else if a.addr != b.addr then NotAfter(a.addr, b.addr)
    else NotAfter(a.model, b.model)
  }

  lemma ProbeCmpIs(a: ProbeSample, b: ProbeSample)
    ensures ProbeCmp(a, b) <= 0 <==> InRingOrder(a, b)
  {
    StringCmpIs(a.addr, b.addr, 0);
    StringCmpIs(a.model, b.model, 0);
    StringCmpEqual(a.addr, b.addr, 0);
  }

  // The empty id never repeats.
  predicate HasAgentID(events: seq<AgentEvent>, id: string) {
    id != "" && exists i :: 0 <= i < |events| && events[i].id == id
  }

  // RecordAgent on the retained feed, the event already stamped.
  function Record(feed: seq<AgentEvent>, ev: AgentEvent): seq<AgentEvent> {
    if HasAgentID(feed, ev.id) then feed else Last(AGENT_HISTORY_LEN, Insert(AgentCmp, feed, ev))
  }

  function Push(ring: seq<ProbeSample>, s: ProbeSample): seq<ProbeSample> {
    Last(PROBE_HISTORY_LEN, Insert(ProbeCmp, ring, s))
  }

  function Stamped(ev: AgentEvent, now: Instant): AgentEvent {
    if ev.at == 0 then ev.(at := now) else ev
  }

  // Oldest first, whatever else.
  ghost predicate Chronological(feed: seq<AgentEvent>) {
    forall i, j :: 0 <= i < j < |feed| ==> feed[i].at <= feed[j].at && InOrder(feed[i], feed[j])
  }

  lemma SortedIsChronological(feed: seq<AgentEvent>)
    ensures Sorted(AgentCmp, feed) <==> Chronological(feed)
  {
    forall i, j | 0 <= i < j < |feed|
      ensures AgentCmp(feed[i], feed[j]) <= 0 <==> InOrder(feed[i], feed[j])
    {
      AgentCmpIs(feed[i], feed[j]);
    }
  }

  // A repeated id changes nothing. An event later than everything retained is
  // the newest from then on, and pushes the oldest out of a full feed.
  ghost predicate Takes(was: seq<AgentEvent>, ev: AgentEvent, feed: seq<AgentEvent>) {
    && (ev.id != "" && (exists x :: x in was && x.id == ev.id) ==> feed == was)
    && ((ev.id == "" || forall x :: x in was ==> x.id != ev.id) && (forall x :: x in was ==> x.at < ev.at) ==>
          feed == (if |was| < 512 then was else was[1..]) + [ev])
  }

  lemma RecordTakes(feed: seq<AgentEvent>, ev: AgentEvent)
    requires |feed| <= 512
    ensures Takes(feed, ev, Record(feed, ev))
  {
    if HasAgentID(feed, ev.id) {
      var i :| 0 <= i < |feed| && feed[i].id == ev.id;
      assert feed[i] in feed;
    } else {
      forall x | x in feed
        ensures ev.id == "" || x.id != ev.id
      {
        var i :| 0 <= i < |feed| && feed[i] == x;
      }
      if forall x :: x in feed ==> x.at < ev.at {
        LaterIsLast(feed, ev);
      }
    }
  }

  lemma LaterIsLast(feed: seq<AgentEvent>, ev: AgentEvent)
    requires |feed| <= 512 && forall x :: x in feed ==> x.at < ev.at
    ensures Last(AGENT_HISTORY_LEN, Insert(AgentCmp, feed, ev)) == (if |feed| < 512 then feed else feed[1..]) + [ev]
  {
    PlaceOfLater(feed, ev, 0);
    assert Insert(AgentCmp, feed, ev) == feed + [ev] by {
      assert feed[..|feed|] == feed && feed[|feed|..] == [];
    }
    TailOfPush(feed, ev);
  }

  lemma TailOfPush(feed: seq<AgentEvent>, ev: AgentEvent)
    ensures feed != [] ==> (feed + [ev])[1..] == feed[1..] + [ev]
    ensures (feed + [ev])[0..] == feed + [ev]
  {
  }

  lemma {:induction false} PlaceOfLater(feed: seq<AgentEvent>, ev: AgentEvent, i: nat)
    requires i <= |feed| && forall x :: x in feed ==> x.at < ev.at
    ensures Place(AgentCmp, feed, ev, i) == |feed|
    decreases |feed| - i
  {
    if i < |feed| {
      assert feed[i] in feed;
      PlaceOfLater(feed, ev, i + 1);
    }
  }

  // sort.Search over the first n elements: the first one above x.
  method Search<T(!new)>(a: array<T>, n: nat, x: T, cmp: Cmp<T>) returns (dst: nat)
    requires n <= a.Length && Ordering(cmp) && Sorted(cmp, a[..n])
    ensures dst == Place(cmp, a[..n], x, 0)
  {
    ghost var s := a[..n];
    ghost var p := Place(cmp, s, x, 0);
    PlaceSplits(cmp, s, x, 0);
    var lo, hi := 0, n;
    while lo < hi
      invariant 0 <= lo <= p <= hi <= n
    {
      var h := (lo + hi) / 2;
      assert a[h] == s[h];
      if cmp(a[h], x) > 0 {
        hi := h;
      } else {
        lo := h + 1;
      }
    }
    return lo;
  }

  // copy(s[dst+1:], s[dst:]), back to front because the ranges overlap.
  method ShiftUp<T>(a: array<T>, dst: nat)
    requires dst < a.Length
    modifies a
    ensures forall j :: 0 <= j <= dst ==> a[j] == old(a[j])
    ensures forall j :: dst < j < a.Length ==> a[j] == old(a[j - 1])
  {
    var k := a.Length - 1;
    while k > dst
      invariant dst <= k < a.Length
      invariant forall j :: 0 <= j <= k ==> a[j] == old(a[j])
      invariant forall j :: k < j < a.Length ==> a[j] == old(a[j - 1])
    {
      a[k] := a[k - 1];
      k := k - 1;
    }
  }

  // The in-place insertion: a sorted array whose last element is new.
  method InsertSorted<T(!new)>(a: array<T>, cmp: Cmp<T>)
    requires a.Length > 0 && Ordering(cmp) && Sorted(cmp, a[..a.Length - 1])
    modifies a
    ensures a[..] == Insert(cmp, old(a[..a.Length - 1]), old(a[a.Length - 1]))
  {
    var i := a.Length - 1;
    ghost var s := a[..i];
    var ev := a[i];
    var dst := Search(a, i, ev, cmp);
    ShiftUp(a, dst);
    a[dst] := ev;
    Spliced(a[..], s, ev, dst);
  }

  // insertSorted(append(s, x), cmp).
  method AppendSorted<T(!new)>(s: seq<T>, x: T, cmp: Cmp<T>) returns (r: seq<T>)
    requires Ordering(cmp) && Sorted(cmp, s)
    ensures r == Insert(cmp, s, x) && Sorted(cmp, r)
  {
    var appended := s + [x];
    var a := new T[|appended|](i requires 0 <= i < |appended| => appended[i]);
    assert a[..a.Length - 1] == s;
    InsertSorted(a, cmp);
    InsertSorts(cmp, s, x);
    return a[..];
  }

  lemma Spliced<T>(r: seq<T>, s: seq<T>, x: T, p: nat)
    requires p <= |s| && |r| == |s| + 1 && r[p] == x
    requires forall j :: 0 <= j < p ==> r[j] == s[j]
    requires forall j :: p < j < |r| ==> r[j] == s[j - 1]
    ensures r == s[..p] + [x] + s[p..]
  {
  }

  lemma CutKeepsSorted<T>(cmp: Cmp<T>, s: seq<T>, cap: nat)
    requires Sorted(cmp, s)
    ensures Sorted(cmp, Last(cap, s))
  {
  }

  lemma RecordKeepsShape(feed: seq<AgentEvent>, ev: AgentEvent)
    requires Sorted(AgentCmp, feed) && |feed| <= AGENT_HISTORY_LEN
    ensures Sorted(AgentCmp, Record(feed, ev)) && |Record(feed, ev)| <= AGENT_HISTORY_LEN
  {
    AgentOrdering();
    InsertSorts(AgentCmp, feed, ev);
    CutKeepsSorted(AgentCmp, Insert(AgentCmp, feed, ev), AGENT_HISTORY_LEN);
  }

  lemma RecordKeepsOrder(feed: seq<AgentEvent>, ev: AgentEvent)
    requires Sorted(AgentCmp, feed) && |feed| <= AGENT_HISTORY_LEN
    ensures Chronological(feed) && Chronological(Record(feed, ev))
  {
    RecordKeepsShape(feed, ev);
    SortedIsChronological(feed);
    SortedIsChronological(Record(feed, ev));
  }

  class Collector {
    var agents: seq<AgentEvent>
    var probes: seq<ProbeSample>

    ghost predicate Valid()
      reads this
    {
      && Sorted(AgentCmp, agents) && |agents| <= AGENT_HISTORY_LEN
      && Sorted(ProbeCmp, probes) && |probes| <= PROBE_HISTORY_LEN
    }

    constructor ()
      ensures Valid() && agents == [] && probes == []
    {
      agents, probes := [], [];
    }

    method RecordAgent(event: AgentEvent, now: Instant)
      requires Valid()
      modifies this`agents
      ensures Valid()
      ensures agents == Record(old(agents), Stamped(event, now))
      ensures Chronological(agents)
      ensures Takes(old(agents), if event.at == 0 then event.(at := now) else event, agents)
    {
      var ev := if event.at == 0 then event.(at := now) else event;
      RecordTakes(agents, ev);
      RecordKeepsOrder(agents, ev);
      Retain(ev);
    }

    // Under the lock.
    method Retain(ev: AgentEvent)
      requires Valid()
      modifies this`agents
      ensures Valid() && agents == Record(old(agents), ev)
    {
      if HasAgentID(agents, ev.id) {
        return;
      }
      AgentOrdering();
      var s := AppendSorted(agents, ev, AgentCmp);
      CutKeepsSorted(AgentCmp, s, AGENT_HISTORY_LEN);
      agents := s;
      if |agents| > AGENT_HISTORY_LEN {
        agents := agents[|agents| - AGENT_HISTORY_LEN..];
      }
    }

    method RecordProbe(sample: ProbeSample)
      requires Valid()
      modifies this`probes
      ensures Valid()
      ensures probes == Push(old(probes), sample)
    {
      ProbeOrdering();
      var s := AppendSorted(probes, sample, ProbeCmp);
      CutKeepsSorted(ProbeCmp, s, PROBE_HISTORY_LEN);
      probes := s;
      if |probes| > PROBE_HISTORY_LEN {
        probes := probes[|probes| - PROBE_HISTORY_LEN..];
      }
    }
  }
}
