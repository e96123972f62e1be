// The order-independent JSON walk of agentusage/json.go: token counters and the
// working directory, wherever a transcript record keeps them.
module JsonWalk {
  import opened Base
  import opened Counters

  // A decoded document. The members of an object come in the order Go's map
  // iteration happens to yield them; numbers are the reals they stand for.
  datatype Json =
    | Null
    | Boolean(value: bool)
    | Number(number: real)
    | Text(text: string)
    | List(items: seq<Json>)
    | Object(members: seq<Member>)

  datatype Member = Member(key: string, value: Json)

  type Lower = string -> string

  datatype Counter = Output | Thinking | Total | Input

  datatype Usage = Usage(output: Count, thinking: Count, total: Count, input: Count) {
    function Get(c: Counter): Count {
      match c
      case Output => output
      case Thinking => thinking
      case Total => total
      case Input => input
    }

    function Raise(c: Counter, n: Count): Usage {
      match c
      case Output => this.(output := Max(output, n))
      case Thinking => this.(thinking := Max(thinking, n))
      case Total => this.(total := Max(total, n))
      case Input => this.(input := Max(input, n))
    }
  }

  const NO_USAGE := Usage(0, 0, 0, 0)

  const MAX_DEPTH: nat := 8

  const OUTPUT_KEYS := {
    "output_tokens", "outputtokens", "completion_tokens", "completiontokens", "candidatestokencount", "output",
    "outputtokencount"
  }
  const THINKING_KEYS := {
    "thinking_tokens", "thinkingtokens", "reasoning_tokens", "reasoning_output_tokens", "thoughtstokencount",
    "reasoningtokens", "reasoning", "thinking"
  }
  const TOTAL_KEYS := {"total_tokens", "totaltokens", "totaltokencount"}
  const INPUT_KEYS := {"input_tokens", "inputtokens", "prompt_tokens", "prompttokens", "prompttokencount", "input"}
  const CWD_KEYS := {"cwd", "working_directory", "workingdirectory", "workdir", "project_dir", "projectdir"}
  const PAYLOAD_KEYS := {
    "content", "parts", "delta", "tool_result", "toolresult", "tool_use", "tooluse", "tool_calls", "toolcalls",
    "arguments", "prompt", "messages", "choices", "system", "text", "query", "input_text", "inputtext",
    "output_text", "outputtext", "system_instruction", "systeminstruction"
  }

  // The counter a key names. The tables are consulted in this order.
  function CounterOf(key: string): Option<Counter> {
    if key in THINKING_KEYS then Some(Thinking)
    else if key in OUTPUT_KEYS then Some(Output)
    else if key in TOTAL_KEYS then Some(Total)
    else if key in INPUT_KEYS then Some(Input)
    else None
  }

  // A whole number of tokens, from one to what can be believed.
  function AsInt(v: Json): (n: Option<Count>)
    ensures n.Some? ==> 1 <= n.value <= MAX_SANE_TOKENS && v == Number(n.value as real)
  {
    if !v.Number? || v.number < 1.0 || v.number > MAX_SANE_TOKENS as real then None
    else
      var i := v.number.Floor;
      if v.number != i as real then None else Some(i)
  }

  // Exactly the whole numbers from 1 to 2^40 are token counts, each its own.
  lemma WholeNumbersCount(v: Json, k: nat)
    ensures (AsInt(v).Some? && AsInt(v).value == k) <==> v == Number(k as real) && 1 <= k <= 0x100_0000_0000
  {
    if v == Number(k as real) {
      assert v.number.Floor == k;
    }
  }

  // What a walk can pick up.
  datatype Leaf = Tokens(counter: Counter, n: nat) | Directory(path: string)

  // The leaf is somewhere in the node, no deeper than the limit and outside
  // every payload. Which member comes first plays no part in it.
  ghost predicate Has(lower: Lower, node: Json, depth: nat, leaf: Leaf)
    requires depth <= MAX_DEPTH + 1
    decreases MAX_DEPTH + 1 - depth, 1
  {
    depth <= MAX_DEPTH &&
    match node
    case Object(ms) => exists i :: 0 <= i < |ms| && MemberHas(lower, ms[i], depth, leaf)
    case List(items) => exists i :: 0 <= i < |items| && ItemHas(lower, items[i], depth, leaf)
    case _ => false
  }

  ghost predicate ItemHas(lower: Lower, item: Json, depth: nat, leaf: Leaf)
    requires depth <= MAX_DEPTH
    decreases MAX_DEPTH + 1 - depth, 0
  {
    Has(lower, item, depth + 1, leaf)
  }

  ghost predicate MemberHas(lower: Lower, m: Member, depth: nat, leaf: Leaf)
    requires depth <= MAX_DEPTH
    decreases MAX_DEPTH + 1 - depth, 0
  {
    var key := lower(m.key);
    if m.value.Text? then key in CWD_KEYS && leaf == Directory(m.value.text)
    else if CounterOf(key).Some? then AsInt(m.value).Some? && leaf == Tokens(CounterOf(key).value, AsInt(m.value).value)
    else key !in PAYLOAD_KEYS && Has(lower, m.value, depth + 1, leaf)
  }

  // Every list, and every object under a key of its own, is one level. Counters
  // count down to the eighth, and nothing is found below it.
  lemma EightLevels(lower: Lower, node: Json, key: string, n: nat, depth: nat, leaf: Leaf)
    requires CounterOf(lower(key)).Some? && 1 <= n <= 0x100_0000_0000 && depth <= 8
    ensures Has(lower, Object([Member(key, Number(n as real))]), depth, Tokens(CounterOf(lower(key)).value, n))
    ensures !Has(lower, node, 9, leaf)
  {
    var m := Member(key, Number(n as real));
    WholeNumbersCount(m.value, n);
    assert MemberHas(lower, [m][0], depth, Tokens(CounterOf(lower(key)).value, n));
  }

  lemma OneLevel(lower: Lower, node: Json, key: string, depth: nat, leaf: Leaf)
    requires depth <= 8
    ensures Has(lower, List([node]), depth, leaf) == Has(lower, node, depth + 1, leaf)
    ensures !node.Text? && CounterOf(lower(key)).None? && lower(key) !in PAYLOAD_KEYS ==>
              Has(lower, Object([Member(key, node)]), depth, leaf) == Has(lower, node, depth + 1, leaf)
  {
    assert ItemHas(lower, [node][0], depth, leaf) == Has(lower, node, depth + 1, leaf);
    var m := Member(key, node);
    assert Has(lower, Object([m]), depth, leaf) == MemberHas(lower, [m][0], depth, leaf);
  }

  // u' is u raised to the largest leaf of each counter.
  ghost predicate Raised(u: Usage, u': Usage, has: Leaf -> bool) {
    forall c: Counter ::
      && u.Get(c) <= u'.Get(c)
      && (forall n: nat :: has(Tokens(c, n)) ==> n <= u'.Get(c))
      && (u'.Get(c) == u.Get(c) || has(Tokens(c, u'.Get(c))))
  }

  lemma RaisedTwice(u: Usage, v: Usage, w: Usage, p: Leaf -> bool, q: Leaf -> bool, r: Leaf -> bool)
    requires Raised(u, v, p) && Raised(v, w, q) && forall l :: r(l) <==> p(l) || q(l)
    ensures Raised(u, w, r)
  {
    forall c: Counter
      ensures u.Get(c) <= v.Get(c) <= w.Get(c)
    {
    }
  }

  // The first directory the walk meets, in the document's order; an empty one
  // is none.
  function FirstDirectory(lower: Lower, node: Json, depth: nat): string
    requires depth <= MAX_DEPTH + 1
    decreases MAX_DEPTH + 1 - depth, 2, 0
  {
    if depth > MAX_DEPTH then "" else
      match node
      case Object(ms) => FirstOfMembers(lower, ms, 0, depth)
      case List(items) => FirstOfItems(lower, items, 0, depth)
      case _ => ""
  }

  function FirstOfMembers(lower: Lower, ms: seq<Member>, i: nat, depth: nat): string
    requires depth <= MAX_DEPTH && i <= |ms|
    decreases MAX_DEPTH + 1 - depth, 1, |ms| - i
  {
    if i == |ms| then "" else
      var first := FirstOfMember(lower, ms[i], depth);
      if first != "" then first else FirstOfMembers(lower, ms, i + 1, depth)
  }

  function FirstOfMember(lower: Lower, m: Member, depth: nat): string
    requires depth <= MAX_DEPTH
    decreases MAX_DEPTH + 1 - depth, 0, 0
  {
    var key := lower(m.key);
    if m.value.Text? then (if key in CWD_KEYS then m.value.text else "")
    else if CounterOf(key).Some? || key in PAYLOAD_KEYS then ""
    else FirstDirectory(lower, m.value, depth + 1)
  }

  function FirstOfItems(lower: Lower, items: seq<Json>, i: nat, depth: nat): string
    requires depth <= MAX_DEPTH && i <= |items|
    decreases MAX_DEPTH + 1 - depth, 1, |items| - i
  {
    if i == |items| then "" else
      var first := FirstDirectory(lower, items[i], depth + 1);
      if first != "" then first else FirstOfItems(lower, items, i + 1, depth)
  }

  class Event {
    var usage: Usage
    var cwd: string

    constructor ()
      ensures usage == NO_USAGE && cwd == ""
    {
      usage, cwd := NO_USAGE, "";
    }

    method Assign(key: string, val: Json)
      requires CounterOf(key).Some?
      modifies this`usage
      ensures usage == if AsInt(val).Some? then old(usage).Raise(CounterOf(key).value, AsInt(val).value) else old(usage)
    {
      var n := AsInt(val);
      if n.None? || n.value <= 0 {
        return;
      }
      if key in THINKING_KEYS {
        usage := usage.(thinking := Max(usage.thinking, n.value));
      } else if key in OUTPUT_KEYS {
        usage := usage.(output := Max(usage.output, n.value));
      } else if key in TOTAL_KEYS {
        usage := usage.(total := Max(usage.total, n.value));
      } else {
        usage := usage.(input := Max(usage.input, n.value));
      }
    }

    // The largest of every counter, and the first directory.
    method Walk(lower: Lower, node: Json, depth: nat)
      requires depth <= MAX_DEPTH + 1
      modifies this
      ensures Raised(old(usage), usage, (l: Leaf) => Has(lower, node, depth, l))
      ensures cwd == if old(cwd) != "" then old(cwd) else FirstDirectory(lower, node, depth)
      decreases MAX_DEPTH + 1 - depth, 2
    {
      if depth > MAX_DEPTH {
        return;
      }
      match node {
        case Object(ms) => WalkMembers(lower, ms, depth);
        case List(items) => WalkItems(lower, items, depth);
        case _ =>
      }
    }

    method WalkMembers(lower: Lower, ms: seq<Member>, depth: nat)
      requires depth <= MAX_DEPTH
      modifies this
      ensures Raised(old(usage), usage, (l: Leaf) => exists j :: 0 <= j < |ms| && MemberHas(lower, ms[j], depth, l))
      ensures cwd == if old(cwd) != "" then old(cwd) else FirstOfMembers(lower, ms, 0, depth)
      decreases MAX_DEPTH + 1 - depth, 1
    {
      var i := 0;
      while i < |ms|
        invariant i <= |ms|
        invariant Raised(old(usage), usage, (l: Leaf) => exists j :: 0 <= j < i && MemberHas(lower, ms[j], depth, l))
        invariant (if cwd != "" then cwd else FirstOfMembers(lower, ms, i, depth)) ==
                  if old(cwd) != "" then old(cwd) else FirstOfMembers(lower, ms, 0, depth)
      {
        ghost var before := usage;
        WalkMember(lower, ms[i], depth);
        OneMoreMember(lower, ms, i, depth, old(usage), before, usage);
        i := i + 1;
      }
    }

    method WalkItems(lower: Lower, items: seq<Json>, depth: nat)
      requires depth <= MAX_DEPTH
      modifies this
      ensures Raised(old(usage), usage, (l: Leaf) => exists j :: 0 <= j < |items| && ItemHas(lower, items[j], depth, l))
      ensures cwd == if old(cwd) != "" then old(cwd) else FirstOfItems(lower, items, 0, depth)
      decreases MAX_DEPTH + 1 - depth, 1
    {
      var i := 0;
      while i < |items|
        invariant i <= |items|
        invariant Raised(old(usage), usage, (l: Leaf) => exists j :: 0 <= j < i && ItemHas(lower, items[j], depth, l))
        invariant (if cwd != "" then cwd else FirstOfItems(lower, items, i, depth)) ==
                  if old(cwd) != "" then old(cwd) else FirstOfItems(lower, items, 0, depth)
      {
        ghost var before := usage;
        WalkItem(lower, items[i], depth);
        OneMoreItem(lower, items, i, depth, old(usage), before, usage);
        i := i + 1;
      }
    }

    method WalkItem(lower: Lower, item: Json, depth: nat)
      requires depth <= MAX_DEPTH
      modifies this
      ensures Raised(old(usage), usage, (l: Leaf) => ItemHas(lower, item, depth, l))
      ensures cwd == if old(cwd) != "" then old(cwd) else FirstDirectory(lower, item, depth + 1)
      decreases MAX_DEPTH + 1 - depth, 0
    {
      Walk(lower, item, depth + 1);
      assert forall l :: ItemHas(lower, item, depth, l) <==> Has(lower, item, depth + 1, l);
    }

    method WalkMember(lower: Lower, m: Member, depth: nat)
      requires depth <= MAX_DEPTH
      modifies this
      ensures Raised(old(usage), usage, (l: Leaf) => MemberHas(lower, m, depth, l))
      ensures cwd == if old(cwd) != "" then old(cwd) else FirstOfMember(lower, m, depth)
      decreases MAX_DEPTH + 1 - depth, 0
    {
      var key := lower(m.key);
      if m.value.Text? {
        MemberSkipped(lower, m, depth, usage);
        if key in CWD_KEYS && cwd == "" {
          cwd := m.value.text;
        }
        return;
      }
      if CounterOf(key).Some? {
        MemberCounted(lower, m, depth, usage);
        Assign(key, m.value);
        return;
      }
      if key in PAYLOAD_KEYS {
        MemberSkipped(lower, m, depth, usage);
        return;
      }
      ghost var before := usage;
      Walk(lower, m.value, depth + 1);
      MemberWalked(lower, m, depth, before, usage);
    }
  }

  lemma MemberSkipped(lower: Lower, m: Member, depth: nat, u: Usage)
    requires depth <= MAX_DEPTH
    requires m.value.Text? || (CounterOf(lower(m.key)).None? && lower(m.key) in PAYLOAD_KEYS)
    ensures Raised(u, u, (l: Leaf) => MemberHas(lower, m, depth, l))
  {
    assert forall c, n: nat :: !MemberHas(lower, m, depth, Tokens(c, n));
  }

  lemma MemberCounted(lower: Lower, m: Member, depth: nat, u: Usage)
    requires depth <= MAX_DEPTH && !m.value.Text? && CounterOf(lower(m.key)).Some?
    ensures var c, n := CounterOf(lower(m.key)).value, AsInt(m.value);
      Raised(u, if n.Some? then u.Raise(c, n.value) else u, (l: Leaf) => MemberHas(lower, m, depth, l))
  {
    var c, n := CounterOf(lower(m.key)).value, AsInt(m.value);
    assert forall d, k: nat :: MemberHas(lower, m, depth, Tokens(d, k)) <==> d == c && n == Some(k);
  }

  lemma MemberWalked(lower: Lower, m: Member, depth: nat, u: Usage, v: Usage)
    requires depth <= MAX_DEPTH && !m.value.Text?
    requires CounterOf(lower(m.key)).None? && lower(m.key) !in PAYLOAD_KEYS
    requires Raised(u, v, (l: Leaf) => Has(lower, m.value, depth + 1, l))
    ensures Raised(u, v, (l: Leaf) => MemberHas(lower, m, depth, l))
  {
    assert forall l :: MemberHas(lower, m, depth, l) <==> Has(lower, m.value, depth + 1, l);
  }

  lemma OneMoreMember(lower: Lower, ms: seq<Member>, i: nat, depth: nat, u: Usage, v: Usage, w: Usage)
    requires i < |ms| && depth <= MAX_DEPTH
    requires Raised(u, v, (l: Leaf) => exists j :: 0 <= j < i && MemberHas(lower, ms[j], depth, l))
    requires Raised(v, w, (l: Leaf) => MemberHas(lower, ms[i], depth, l))
    ensures Raised(u, w, (l: Leaf) => exists j :: 0 <= j < i + 1 && MemberHas(lower, ms[j], depth, l))
  {
    RaisedTwice(u, v, w, (l: Leaf) => exists j :: 0 <= j < i && MemberHas(lower, ms[j], depth, l),
                (l: Leaf) => MemberHas(lower, ms[i], depth, l),
                (l: Leaf) => exists j :: 0 <= j < i + 1 && MemberHas(lower, ms[j], depth, l));
  }

  lemma OneMoreItem(lower: Lower, items: seq<Json>, i: nat, depth: nat, u: Usage, v: Usage, w: Usage)
    requires i < |items| && depth <= MAX_DEPTH
    requires Raised(u, v, (l: Leaf) => exists j :: 0 <= j < i && ItemHas(lower, items[j], depth, l))
    requires Raised(v, w, (l: Leaf) => ItemHas(lower, items[i], depth, l))
    ensures Raised(u, w, (l: Leaf) => exists j :: 0 <= j < i + 1 && ItemHas(lower, items[j], depth, l))
  {
    RaisedTwice(u, v, w, (l: Leaf) => exists j :: 0 <= j < i && ItemHas(lower, items[j], depth, l),
                (l: Leaf) => ItemHas(lower, items[i], depth, l),
                (l: Leaf) => exists j :: 0 <= j < i + 1 && ItemHas(lower, items[j], depth, l));
  }

  // The same document with the members of its objects in some other order, at
  // any level. Keys being unique in an object, members correspond one to one.
  ghost predicate Shuffled(a: Json, b: Json)
    decreases a, 2
  {
    match a
    case Object(ms) =>
      && b.Object? && |ms| == |b.members|
      && (forall i :: 0 <= i < |ms| ==> Matches(ms[i], b.members))
      && (forall j :: 0 <= j < |b.members| ==> MatchedBy(a, b.members[j]))
    case List(items) =>
      b.List? && |items| == |b.items| && forall i :: 0 <= i < |items| ==> Shuffled(items[i], b.items[i])
    case _ => a == b
  }

  ghost predicate Matches(m: Member, ns: seq<Member>)
    decreases m, 1
  {
    exists j :: 0 <= j < |ns| && SameMember(m, ns[j])
  }

  ghost predicate MatchedBy(a: Json, n: Member)
    requires a.Object?
    decreases a, 1
  {
    exists i :: 0 <= i < |a.members| && SameMember(a.members[i], n)
  }

  ghost predicate SameMember(m: Member, n: Member)
    decreases m, 0
  {
    m.key == n.key && Shuffled(m.value, n.value)
  }

  lemma {:induction false} ShuffledItself(a: Json)
    ensures Shuffled(a, a)
  {
    match a {
      case Object(ms) =>
        forall i | 0 <= i < |ms|
          ensures Matches(ms[i], ms) && MatchedBy(a, ms[i])
        {
          ShuffledItself(ms[i].value);
          assert SameMember(ms[i], ms[i]);
        }
      case List(items) =>
        forall i | 0 <= i < |items|
          ensures Shuffled(items[i], items[i])
        {
          ShuffledItself(items[i]);
        }
      case _ =>
    }
  }

  // Any permutation of an object's members is one.
  lemma PermutedMembers(ms: seq<Member>, ns: seq<Member>)
    requires multiset(ms) == multiset(ns)
    ensures Shuffled(Object(ms), Object(ns))
  {
    assert |multiset(ms)| == |ms| && |multiset(ns)| == |ns|;
    forall i | 0 <= i < |ms|
      ensures Matches(ms[i], ns)
    {
      assert ms[i] in multiset(ns);
      FoundAgain(ms[i], ns);
    }
    forall j | 0 <= j < |ns|
      ensures MatchedBy(Object(ms), ns[j])
    {
      assert ns[j] in multiset(ms);
      FoundAgain(ns[j], ms);
    }
  }

  lemma FoundAgain(m: Member, ns: seq<Member>)
    requires m in ns
    ensures Matches(m, ns) && MatchedBy(Object(ns), m)
  {
    var j :| 0 <= j < |ns| && ns[j] == m;
    ShuffledItself(m.value);
    assert SameMember(ns[j], m) && SameMember(m, ns[j]);
  }

  // What can be picked up does not depend on the order: nothing gets lost, and
  // nothing is gained.
  lemma {:induction false} HasIgnoresOrder(lower: Lower, a: Json, b: Json, depth: nat, leaf: Leaf)
    requires depth <= MAX_DEPTH + 1 && Shuffled(a, b)
    ensures Has(lower, a, depth, leaf) <==> Has(lower, b, depth, leaf)
    decreases MAX_DEPTH + 1 - depth, 2
  {
    if depth <= MAX_DEPTH {
      match a {
        case Object(ms) =>
          if Has(lower, a, depth, leaf) {
            ObjectKeeps(lower, a, b, depth, leaf);
          } else if Has(lower, b, depth, leaf) {
            ObjectGains(lower, a, b, depth, leaf);
          }
        case List(items) =>
          ListIgnoresOrder(lower, a, b, depth, leaf);
        case _ =>
      }
    }
  }

  lemma {:induction false} ListIgnoresOrder(lower: Lower, a: Json, b: Json, depth: nat, leaf: Leaf)
    requires depth <= MAX_DEPTH && a.List? && Shuffled(a, b)
    ensures Has(lower, a, depth, leaf) <==> Has(lower, b, depth, leaf)
    decreases MAX_DEPTH + 1 - depth, 1
  {
    forall i | 0 <= i < |a.items|
      ensures ItemHas(lower, a.items[i], depth, leaf) <==> ItemHas(lower, b.items[i], depth, leaf)
    {
      HasIgnoresOrder(lower, a.items[i], b.items[i], depth + 1, leaf);
    }
  }

  lemma {:induction false} ObjectKeeps(lower: Lower, a: Json, b: Json, depth: nat, leaf: Leaf)
    requires depth <= MAX_DEPTH && a.Object? && Shuffled(a, b) && Has(lower, a, depth, leaf)
    ensures Has(lower, b, depth, leaf)
    decreases MAX_DEPTH + 1 - depth, 1
  {
    var i :| 0 <= i < |a.members| && MemberHas(lower, a.members[i], depth, leaf);
    assert Matches(a.members[i], b.members);
    var j :| 0 <= j < |b.members| && SameMember(a.members[i], b.members[j]);
    MemberIgnoresOrder(lower, a.members[i], b.members[j], depth, leaf);
  }

  lemma {:induction false} ObjectGains(lower: Lower, a: Json, b: Json, depth: nat, leaf: Leaf)
    requires depth <= MAX_DEPTH && a.Object? && Shuffled(a, b) && Has(lower, b, depth, leaf)
    ensures Has(lower, a, depth, leaf)
    decreases MAX_DEPTH + 1 - depth, 1
  {
    var j :| 0 <= j < |b.members| && MemberHas(lower, b.members[j], depth, leaf);
    assert MatchedBy(a, b.members[j]);
    var i :| 0 <= i < |a.members| && SameMember(a.members[i], b.members[j]);
    MemberIgnoresOrder(lower, a.members[i], b.members[j], depth, leaf);
  }

  lemma {:induction false} MemberIgnoresOrder(lower: Lower, m: Member, n: Member, depth: nat, leaf: Leaf)
    requires depth <= MAX_DEPTH && SameMember(m, n)
    ensures MemberHas(lower, m, depth, leaf) <==> MemberHas(lower, n, depth, leaf)
    decreases MAX_DEPTH + 1 - depth, 0
  {
    HasIgnoresOrder(lower, m.value, n.value, depth + 1, leaf);
  }

  // What a walk of a record collects: the largest leaf of every counter.
  ghost predicate Collects(lower: Lower, doc: Json, u: Usage) {
    Raised(NO_USAGE, u, (l: Leaf) => Has(lower, doc, 0, l))
  }

  // All four counters come out the same whatever the order of members.
  lemma CountersIgnoreOrder(lower: Lower, a: Json, b: Json, u: Usage, v: Usage)
    requires Shuffled(a, b) && Collects(lower, a, u) && Collects(lower, b, v)
    ensures u == v
  {
    forall l
      ensures Has(lower, a, 0, l) <==> Has(lower, b, 0, l)
    {
      HasIgnoresOrder(lower, a, b, 0, l);
    }
    CollectsAtMost(lower, a, b, u, v);
    CollectsAtMost(lower, b, a, v, u);
    assert forall c: Counter :: u.Get(c) == v.Get(c);
    assert u.Get(Output) == v.Get(Output) && u.Get(Thinking) == v.Get(Thinking);
    assert u.Get(Total) == v.Get(Total) && u.Get(Input) == v.Get(Input);
  }

  lemma CollectsAtMost(lower: Lower, a: Json, b: Json, u: Usage, v: Usage)
    requires Collects(lower, a, u) && Collects(lower, b, v)
    requires forall l :: Has(lower, a, 0, l) <==> Has(lower, b, 0, l)
    ensures forall c: Counter :: u.Get(c) <= v.Get(c)
  {
  }

  // No directory is to be found in the node.
  ghost predicate Mute(lower: Lower, node: Json, depth: nat)
    requires depth <= MAX_DEPTH + 1
  {
    forall c :: Has(lower, node, depth, Directory(c)) ==> c == ""
  }

  ghost predicate MuteMember(lower: Lower, m: Member, depth: nat)
    requires depth <= MAX_DEPTH
  {
    forall c :: MemberHas(lower, m, depth, Directory(c)) ==> c == ""
  }

  lemma MuteObject(lower: Lower, ms: seq<Member>, depth: nat)
    requires depth <= MAX_DEPTH
    ensures Mute(lower, Object(ms), depth) <==> forall k :: 0 <= k < |ms| ==> MuteMember(lower, ms[k], depth)
  {
    if Mute(lower, Object(ms), depth) {
      forall k, c | 0 <= k < |ms| && MemberHas(lower, ms[k], depth, Directory(c))
        ensures c == ""
      {
        assert Has(lower, Object(ms), depth, Directory(c));
      }
    }
  }

  // Some order of the members makes the walk meet c first. Lists keep theirs.
  ghost predicate Possible(lower: Lower, node: Json, depth: nat, c: string)
    requires depth <= MAX_DEPTH + 1
    decreases MAX_DEPTH + 1 - depth, 1
  {
    c != "" && depth <= MAX_DEPTH &&
    match node
    case Object(ms) => exists i :: 0 <= i < |ms| && PossibleIn(lower, ms[i], depth, c)
    case List(items) =>
      exists i :: 0 <= i < |items| && Possible(lower, items[i], depth + 1, c) && AllMute(lower, items, 0, i, depth + 1)
    case _ => false
  }

  ghost predicate AllMute(lower: Lower, items: seq<Json>, from: nat, to: nat, depth: nat)
    requires depth <= MAX_DEPTH + 1 && from <= to <= |items|
  {
    forall j :: from <= j < to ==> Mute(lower, items[j], depth)
  }

  lemma MuteList(lower: Lower, items: seq<Json>, depth: nat)
    requires depth <= MAX_DEPTH
    ensures Mute(lower, List(items), depth) <==> AllMute(lower, items, 0, |items|, depth + 1)
  {
    if Mute(lower, List(items), depth) {
      forall k, c | 0 <= k < |items| && Has(lower, items[k], depth + 1, Directory(c))
        ensures c == ""
      {
        assert ItemHas(lower, items[k], depth, Directory(c));
        assert Has(lower, List(items), depth, Directory(c));
      }
    }
    if AllMute(lower, items, 0, |items|, depth + 1) {
      forall c | Has(lower, List(items), depth, Directory(c))
        ensures c == ""
      {
        var i :| 0 <= i < |items| && ItemHas(lower, items[i], depth, Directory(c));
        assert Mute(lower, items[i], depth + 1);
      }
    }
  }

  ghost predicate PossibleIn(lower: Lower, m: Member, depth: nat, c: string)
    requires depth <= MAX_DEPTH
    decreases MAX_DEPTH + 1 - depth, 0
  {
    var key := lower(m.key);
    if m.value.Text? then key in CWD_KEYS && c == m.value.text && c != ""
    else CounterOf(key).None? && key !in PAYLOAD_KEYS && Possible(lower, m.value, depth + 1, c)
  }

  // The walk finds a directory whenever there is one, and only a possible one.
  lemma {:induction false} FirstIsPossible(lower: Lower, node: Json, depth: nat)
    requires depth <= MAX_DEPTH + 1
    ensures FirstDirectory(lower, node, depth) == "" <==> Mute(lower, node, depth)
    ensures FirstDirectory(lower, node, depth) != "" ==>
              Possible(lower, node, depth, FirstDirectory(lower, node, depth))
    decreases MAX_DEPTH + 1 - depth, 2, 0
  {
    if depth <= MAX_DEPTH {
      match node {
        case Object(ms) =>
          FirstOfMembersIsPossible(lower, ms, 0, depth);
          MuteObject(lower, ms, depth);
        case List(items) =>
          FirstOfItemsIsPossible(lower, items, 0, depth);
          MuteList(lower, items, depth);
        case _ =>
      }
    }
  }

  lemma {:induction false} FirstOfMembersIsPossible(lower: Lower, ms: seq<Member>, i: nat, depth: nat)
    requires depth <= MAX_DEPTH && i <= |ms|
    ensures var c := FirstOfMembers(lower, ms, i, depth);
      && (c == "" <==> forall k :: i <= k < |ms| ==> MuteMember(lower, ms[k], depth))
      && (c != "" ==> exists k :: i <= k < |ms| && PossibleIn(lower, ms[k], depth, c))
    decreases MAX_DEPTH + 1 - depth, 1, |ms| - i
  {
    if i < |ms| {
      FirstOfMemberIsPossible(lower, ms[i], depth);
      FirstOfMembersIsPossible(lower, ms, i + 1, depth);
      MembersFrom(lower, ms, i, depth, FirstOfMember(lower, ms[i], depth), FirstOfMembers(lower, ms, i + 1, depth));
    }
  }

  // The first among a member and the rest.
  lemma MembersFrom(lower: Lower, ms: seq<Member>, i: nat, depth: nat, first: string, rest: string)
    requires depth <= MAX_DEPTH && i < |ms|
    requires first == "" <==> MuteMember(lower, ms[i], depth)
    requires first != "" ==> PossibleIn(lower, ms[i], depth, first)
    requires rest == "" <==> forall k :: i < k < |ms| ==> MuteMember(lower, ms[k], depth)
    requires rest != "" ==> exists k :: i < k < |ms| && PossibleIn(lower, ms[k], depth, rest)
    ensures var c := if first != "" then first else rest;
      && (c == "" <==> forall k :: i <= k < |ms| ==> MuteMember(lower, ms[k], depth))
      && (c != "" ==> exists k :: i <= k < |ms| && PossibleIn(lower, ms[k], depth, c))
  {
  }

  lemma {:induction false} FirstOfMemberIsPossible(lower: Lower, m: Member, depth: nat)
    requires depth <= MAX_DEPTH
    ensures var c := FirstOfMember(lower, m, depth);
      && (c == "" <==> MuteMember(lower, m, depth))
      && (c != "" ==> PossibleIn(lower, m, depth, c))
    decreases MAX_DEPTH + 1 - depth, 0, 0
  {
    if m.value.Text? {
      assert MemberHas(lower, m, depth, Directory(m.value.text)) <==> lower(m.key) in CWD_KEYS;
    } else {
      FirstIsPossible(lower, m.value, depth + 1);
      assert CounterOf(lower(m.key)).None? && lower(m.key) !in PAYLOAD_KEYS ==>
        forall d :: MemberHas(lower, m, depth, Directory(d)) <==> Has(lower, m.value, depth + 1, Directory(d));
    }
  }

  lemma {:induction false} FirstOfItemsIsPossible(lower: Lower, items: seq<Json>, i: nat, depth: nat)
    requires depth <= MAX_DEPTH && i <= |items|
    ensures var c := FirstOfItems(lower, items, i, depth);
      && (c == "" <==> AllMute(lower, items, i, |items|, depth + 1))
      && (c != "" ==> exists k :: i <= k < |items| && Possible(lower, items[k], depth + 1, c)
                        && AllMute(lower, items, i, k, depth + 1))
    decreases MAX_DEPTH + 1 - depth, 1, |items| - i
  {
    if i < |items| {
      FirstIsPossible(lower, items[i], depth + 1);
      FirstOfItemsIsPossible(lower, items, i + 1, depth);
      ItemsFrom(lower, items, i, depth,
                FirstDirectory(lower, items[i], depth + 1), FirstOfItems(lower, items, i + 1, depth));
    }
  }

  lemma ItemsFrom(lower: Lower, items: seq<Json>, i: nat, depth: nat, first: string, rest: string)
    requires depth <= MAX_DEPTH && i < |items|
    requires first == "" <==> Mute(lower, items[i], depth + 1)
    requires first != "" ==> Possible(lower, items[i], depth + 1, first)
    requires rest == "" <==> AllMute(lower, items, i + 1, |items|, depth + 1)
    requires rest != "" ==> exists k :: i + 1 <= k < |items| && Possible(lower, items[k], depth + 1, rest)
                              && AllMute(lower, items, i + 1, k, depth + 1)
    ensures var c := if first != "" then first else rest;
      && (c == "" <==> AllMute(lower, items, i, |items|, depth + 1))
      && (c != "" ==> exists k :: i <= k < |items| && Possible(lower, items[k], depth + 1, c)
                        && AllMute(lower, items, i, k, depth + 1))
  {
    if first != "" {
      assert AllMute(lower, items, i, i, depth + 1);
    } else if rest != "" {
      var k :| i + 1 <= k < |items| && Possible(lower, items[k], depth + 1, rest)
               && AllMute(lower, items, i + 1, k, depth + 1);
      assert AllMute(lower, items, i, k, depth + 1);
    }
  }

  // No order opens a possibility the others lack.
  lemma {:induction false} PossibleIgnoresOrder(lower: Lower, a: Json, b: Json, depth: nat, c: string)
    requires depth <= MAX_DEPTH + 1 && Shuffled(a, b) && Possible(lower, b, depth, c)
    ensures Possible(lower, a, depth, c)
    decreases MAX_DEPTH + 1 - depth, 2
  {
    if a.Object? {
      PossibleInObject(lower, a, b, depth, c);
    } else if a.List? {
      PossibleInList(lower, a, b, depth, c);
    }
  }

  lemma {:induction false} PossibleInObject(lower: Lower, a: Json, b: Json, depth: nat, c: string)
    requires depth <= MAX_DEPTH + 1 && a.Object? && Shuffled(a, b) && Possible(lower, b, depth, c)
    ensures Possible(lower, a, depth, c)
    decreases MAX_DEPTH + 1 - depth, 1
  {
    var j :| 0 <= j < |b.members| && PossibleIn(lower, b.members[j], depth, c);
    assert MatchedBy(a, b.members[j]);
    var i :| 0 <= i < |a.members| && SameMember(a.members[i], b.members[j]);
    PossibleInMember(lower, a.members[i], b.members[j], depth, c);
  }

  lemma {:induction false} PossibleInMember(lower: Lower, m: Member, n: Member, depth: nat, c: string)
    requires depth <= MAX_DEPTH && SameMember(m, n) && PossibleIn(lower, n, depth, c)
    ensures PossibleIn(lower, m, depth, c)
    decreases MAX_DEPTH + 1 - depth, 0
  {
    StaysContainer(m.value, n.value);
    if !n.value.Text? {
      PossibleIgnoresOrder(lower, m.value, n.value, depth + 1, c);
    }
  }

  lemma {:induction false} PossibleInList(lower: Lower, a: Json, b: Json, depth: nat, c: string)
    requires depth <= MAX_DEPTH + 1 && a.List? && Shuffled(a, b) && Possible(lower, b, depth, c)
    ensures Possible(lower, a, depth, c)
    decreases MAX_DEPTH + 1 - depth, 0
  {
    var i :| 0 <= i < |b.items| && Possible(lower, b.items[i], depth + 1, c)
           && AllMute(lower, b.items, 0, i, depth + 1);
    PossibleIgnoresOrder(lower, a.items[i], b.items[i], depth + 1, c);
    ItemsStayMute(lower, a, b, i, depth);
  }

  lemma ItemsStayMute(lower: Lower, a: Json, b: Json, i: nat, depth: nat)
    requires depth <= MAX_DEPTH && a.List? && Shuffled(a, b) && i <= |b.items|
    requires AllMute(lower, b.items, 0, i, depth + 1)
    ensures AllMute(lower, a.items, 0, i, depth + 1)
  {
    forall j | 0 <= j < i
      ensures Mute(lower, a.items[j], depth + 1)
    {
      MuteIgnoresOrder(lower, a.items[j], b.items[j], depth + 1);
    }
  }

  lemma MuteIgnoresOrder(lower: Lower, a: Json, b: Json, depth: nat)
    requires depth <= MAX_DEPTH + 1 && Shuffled(a, b) && Mute(lower, b, depth)
    ensures Mute(lower, a, depth)
  {
    forall c | Has(lower, a, depth, Directory(c))
      ensures c == ""
    {
      HasIgnoresOrder(lower, a, b, depth, Directory(c));
    }
  }

  // Every possibility is some order's.
  lemma {:induction false} PossibleIsReached(lower: Lower, a: Json, depth: nat, c: string) returns (b: Json)
    requires depth <= MAX_DEPTH + 1 && Possible(lower, a, depth, c)
    ensures Shuffled(a, b) && FirstDirectory(lower, b, depth) == c
    decreases MAX_DEPTH + 1 - depth, 1
  {
    if a.Object? {
      var i :| 0 <= i < |a.members| && PossibleIn(lower, a.members[i], depth, c);
      b := ReachedInObject(lower, a.members, i, depth, c);
    } else {
      var i :| 0 <= i < |a.items| && Possible(lower, a.items[i], depth + 1, c)
             && AllMute(lower, a.items, 0, i, depth + 1);
      b := ReachedInList(lower, a.items, i, depth, c);
    }
  }

  lemma {:induction false} ReachedInObject(lower: Lower, ms: seq<Member>, i: nat, depth: nat, c: string)
    returns (b: Json)
    requires depth <= MAX_DEPTH && i < |ms| && PossibleIn(lower, ms[i], depth, c)
    ensures Shuffled(Object(ms), b) && FirstDirectory(lower, b, depth) == c
    decreases MAX_DEPTH + 1 - depth, 0, 1
  {
    var v := ReachedInMember(lower, ms[i], depth, c);
    FrontIsShuffled(ms, i, v);
    FrontComesFirst(lower, ToFront(ms, i, v), depth, c);
    b := Object(ToFront(ms, i, v));
  }

  lemma {:induction false} ReachedInMember(lower: Lower, m: Member, depth: nat, c: string) returns (v: Json)
    requires depth <= MAX_DEPTH && PossibleIn(lower, m, depth, c)
    ensures Shuffled(m.value, v) && FirstOfMember(lower, Member(m.key, v), depth) == c != ""
    decreases MAX_DEPTH + 1 - depth, 0, 0
  {
    v := m.value;
    if v.Text? {
      ShuffledItself(v);
    } else {
      v := PossibleIsReached(lower, v, depth + 1, c);
      StaysContainer(m.value, v);
      WalksIntoMember(lower, m, v, depth);
    }
  }

  lemma WalksIntoMember(lower: Lower, m: Member, v: Json, depth: nat)
    requires depth <= MAX_DEPTH && !v.Text? && CounterOf(lower(m.key)).None? && lower(m.key) !in PAYLOAD_KEYS
    ensures FirstOfMember(lower, Member(m.key, v), depth) == FirstDirectory(lower, v, depth + 1)
  {
  }

  lemma FrontComesFirst(lower: Lower, ms: seq<Member>, depth: nat, c: string)
    requires depth <= MAX_DEPTH && ms != [] && FirstOfMember(lower, ms[0], depth) == c != ""
    ensures FirstDirectory(lower, Object(ms), depth) == c
  {
  }

  lemma StaysContainer(a: Json, b: Json)
    requires Shuffled(a, b)
    ensures a.Text? <==> b.Text?
  {
  }

  lemma {:induction false} ReachedInList(lower: Lower, items: seq<Json>, i: nat, depth: nat, c: string)
    returns (b: Json)
    requires depth <= MAX_DEPTH && i < |items|
    requires Possible(lower, items[i], depth + 1, c) && AllMute(lower, items, 0, i, depth + 1)
    ensures Shuffled(List(items), b) && FirstDirectory(lower, b, depth) == c
    decreases MAX_DEPTH + 1 - depth, 0
  {
    var v := PossibleIsReached(lower, items[i], depth + 1, c);
    b := List(items[i := v]);
    OneItemShuffled(items, i, v);
    SkipsMute(lower, items, i, v, 0, depth);
  }

  lemma OneItemShuffled(items: seq<Json>, i: nat, v: Json)
    requires i < |items| && Shuffled(items[i], v)
    ensures Shuffled(List(items), List(items[i := v]))
  {
    forall j | 0 <= j < |items|
      ensures Shuffled(items[j], items[i := v][j])
    {
      ShuffledItself(items[j]);
    }
  }

  function ToFront(ms: seq<Member>, i: nat, v: Json): seq<Member>
    requires i < |ms|
  {
    [Member(ms[i].key, v)] + ms[..i] + ms[i + 1..]
  }

  lemma FrontIsShuffled(ms: seq<Member>, i: nat, v: Json)
    requires i < |ms| && Shuffled(ms[i].value, v)
    ensures Shuffled(Object(ms), Object(ToFront(ms, i, v)))
  {
    var ns := ToFront(ms, i, v);
    assert SameMember(ms[i], ns[0]);
    forall k | 0 <= k < |ms|
      ensures Matches(ms[k], ns)
    {
      if k != i {
        assert ns[if k < i then k + 1 else k] == ms[k];
        FoundAgain(ms[k], ns);
      }
    }
    forall j | 0 <= j < |ns|
      ensures MatchedBy(Object(ms), ns[j])
    {
      if j > 0 {
        assert ns[j] == ms[if j <= i then j - 1 else j];
        FoundAgain(ns[j], ms);
      } else {
        assert SameMember(Object(ms).members[i], ns[j]);
      }
    }
  }

  lemma {:induction false} SkipsMute(lower: Lower, items: seq<Json>, i: nat, v: Json, k: nat, depth: nat)
    requires depth <= MAX_DEPTH && k <= i < |items| && AllMute(lower, items, 0, i, depth + 1)
    requires FirstDirectory(lower, v, depth + 1) != ""
    ensures FirstOfItems(lower, items[i := v], k, depth) == FirstDirectory(lower, v, depth + 1)
    decreases i - k
  {
    if k < i {
      FirstIsPossible(lower, items[k], depth + 1);
      SkipsMute(lower, items, i, v, k + 1, depth);
    }
  }

  ghost predicate DirectoryIgnoresOrder(lower: Lower, a: Json) {
    forall b :: Shuffled(a, b) ==> FirstDirectory(lower, b, 0) == FirstDirectory(lower, a, 0)
  }

  ghost predicate OneCanBeFirst(lower: Lower, a: Json) {
    forall c, d :: Possible(lower, a, 0, c) && Possible(lower, a, 0, d) ==> c == d
  }

  // The directory, unlike the counters, may depend on the order of members.
  // It does not exactly when no two directories can come first.
  lemma DirectoryIgnoresOrderIff(lower: Lower, a: Json)
    ensures DirectoryIgnoresOrder(lower, a) <==> OneCanBeFirst(lower, a)
  {
    if DirectoryIgnoresOrder(lower, a) {
      forall c, d | Possible(lower, a, 0, c) && Possible(lower, a, 0, d)
        ensures c == d
      {
        var x := PossibleIsReached(lower, a, 0, c);
        var y := PossibleIsReached(lower, a, 0, d);
      }
    }
    if OneCanBeFirst(lower, a) {
      forall b | Shuffled(a, b)
        ensures FirstDirectory(lower, b, 0) == FirstDirectory(lower, a, 0)
      {
        OneFirst(lower, a, b);
      }
    }
  }

  lemma OneFirst(lower: Lower, a: Json, b: Json)
    requires OneCanBeFirst(lower, a) && Shuffled(a, b)
    ensures FirstDirectory(lower, b, 0) == FirstDirectory(lower, a, 0)
  {
    FirstIsPossible(lower, a, 0);
    FirstIsPossible(lower, b, 0);
    if FirstDirectory(lower, b, 0) == "" {
      MuteIgnoresOrder(lower, a, b, 0);
    } else {
      PossibleIgnoresOrder(lower, a, b, 0, FirstDirectory(lower, b, 0));
      PossibleIsPresent(lower, a, 0, FirstDirectory(lower, b, 0));
    }
  }

  lemma {:induction false} PossibleIsPresent(lower: Lower, node: Json, depth: nat, c: string)
    requires depth <= MAX_DEPTH + 1 && Possible(lower, node, depth, c)
    ensures c != "" && Has(lower, node, depth, Directory(c))
    decreases MAX_DEPTH + 1 - depth, 1
  {
    if node.Object? {
      var i :| 0 <= i < |node.members| && PossibleIn(lower, node.members[i], depth, c);
      PossibleInIsPresent(lower, node.members[i], depth, c);
    } else if node.List? {
      var i :| 0 <= i < |node.items| && Possible(lower, node.items[i], depth + 1, c);
      PossibleIsPresent(lower, node.items[i], depth + 1, c);
    }
  }

  lemma {:induction false} PossibleInIsPresent(lower: Lower, m: Member, depth: nat, c: string)
    requires depth <= MAX_DEPTH && PossibleIn(lower, m, depth, c)
    ensures MemberHas(lower, m, depth, Directory(c))
    decreases MAX_DEPTH + 1 - depth, 0
  {
    if !m.value.Text? {
      PossibleIsPresent(lower, m.value, depth + 1, c);
    }
  }

  // In particular it does not when all directories in the record agree.
  lemma AgreeingDirectoriesSettleIt(lower: Lower, a: Json)
    requires forall c, d :: c != "" && d != "" && Has(lower, a, 0, Directory(c)) && Has(lower, a, 0, Directory(d)) ==>
               c == d
    ensures DirectoryIgnoresOrder(lower, a)
  {
    forall c, d | Possible(lower, a, 0, c) && Possible(lower, a, 0, d)
      ensures c == d
    {
      PossibleIsPresent(lower, a, 0, c);
      PossibleIsPresent(lower, a, 0, d);
    }
    DirectoryIgnoresOrderIff(lower, a);
  }

  // A record for which it does: two directory keys that name different places.
  lemma TwoDirectoriesDependOnOrder(lower: Lower)
    requires lower("cwd") == "cwd" && lower("workdir") == "workdir"
    ensures !DirectoryIgnoresOrder(lower, Object([Member("cwd", Text("/a")), Member("workdir", Text("/b"))]))
  {
    var a, b := Member("cwd", Text("/a")), Member("workdir", Text("/b"));
    var doc := Object([a, b]);
    assert PossibleIn(lower, doc.members[0], 0, "/a");
    assert PossibleIn(lower, doc.members[1], 0, "/b");
    assert Possible(lower, doc, 0, "/a") && Possible(lower, doc, 0, "/b");
    DirectoryIgnoresOrderIff(lower, doc);
  }

  lemma {:induction false} LeafIsSane(lower: Lower, node: Json, depth: nat, c: Counter, n: nat)
    requires depth <= MAX_DEPTH + 1 && Has(lower, node, depth, Tokens(c, n))
    ensures 1 <= n <= MAX_SANE_TOKENS
    decreases MAX_DEPTH + 1 - depth, 1
  {
    if node.Object? {
      var i :| 0 <= i < |node.members| && MemberHas(lower, node.members[i], depth, Tokens(c, n));
      MemberIsSane(lower, node.members[i], depth, c, n);
    } else {
      var i :| 0 <= i < |node.items| && ItemHas(lower, node.items[i], depth, Tokens(c, n));
      LeafIsSane(lower, node.items[i], depth + 1, c, n);
    }
  }

  lemma {:induction false} MemberIsSane(lower: Lower, m: Member, depth: nat, c: Counter, n: nat)
    requires depth <= MAX_DEPTH && MemberHas(lower, m, depth, Tokens(c, n))
    ensures 1 <= n <= MAX_SANE_TOKENS
    decreases MAX_DEPTH + 1 - depth, 0
  {
    if CounterOf(lower(m.key)).None? {
      LeafIsSane(lower, m.value, depth + 1, c, n);
    }
  }

  ghost predicate Counts(lower: Lower, doc: Json) {
    exists c, n: nat :: Has(lower, doc, 0, Tokens(c, n))
  }

  lemma CollectedIsSane(lower: Lower, doc: Json, u: Usage)
    requires Collects(lower, doc, u)
    ensures forall c: Counter :: u.Get(c) <= MAX_SANE_TOKENS
    ensures Counts(lower, doc) <==> u != NO_USAGE
  {
    forall c: Counter
      ensures u.Get(c) <= MAX_SANE_TOKENS
    {
      if u.Get(c) > 0 {
        LeafIsSane(lower, doc, 0, c, u.Get(c));
      }
    }
    if Counts(lower, doc) {
      var c, n: nat :| Has(lower, doc, 0, Tokens(c, n));
      LeafIsSane(lower, doc, 0, c, n);
      assert n <= u.Get(c);
    } else {
      assert forall c: Counter :: u.Get(c) == 0;
      assert u.Get(Output) == u.Get(Thinking) == u.Get(Total) == u.Get(Input) == 0;
    }
  }

  // The counts of a record: without a total, what was read and what written.
  function ValuesOf(u: Usage): Values
    requires u.input + u.output <= MAX_INT
  {
    Values(u.output, u.thinking, if u.total == 0 && u.input > 0 then u.input + u.output else u.total, u.input)
  }

  ghost predicate IsReading(lower: Lower, doc: Json, v: Values) {
    exists u: Usage :: Collects(lower, doc, u) && u.input + u.output <= MAX_INT && v == ValuesOf(u)
  }

  // A record that is an object, as the generic adapter reads it.
  method ParseGeneric(lower: Lower, doc: Option<Json>) returns (v: Values, cwd: string, ok: bool)
    ensures ok <==> doc.Some? && doc.value.Object? && Counts(lower, doc.value)
    ensures ok ==> cwd == FirstDirectory(lower, doc.value, 0) && v.Present() && IsReading(lower, doc.value, v)
    ensures !ok ==> v == NOTHING && cwd == ""
  {
    if doc.None? || !doc.value.Object? {
      return NOTHING, "", false;
    }
    var ev := new Event();
    ev.Walk(lower, doc.value, 0);
    var u := ev.usage;
    assert Collects(lower, doc.value, u);
    CollectedIsSane(lower, doc.value, u);
    assert u.Get(Output) <= MAX_SANE_TOKENS && u.Get(Thinking) <= MAX_SANE_TOKENS;
    assert u.Get(Total) <= MAX_SANE_TOKENS && u.Get(Input) <= MAX_SANE_TOKENS;
    if !(u.output > 0 || u.thinking > 0 || u.total > 0 || u.input > 0) {
      return NOTHING, "", false;
    }
    var out, inp, tot := Counters.Counter(u.output), Counters.Counter(u.input), Counters.Counter(u.total);
    if tot == 0 && inp > 0 {
      tot := SatAdd(inp, out);
    }
    v := Values(out, Counters.Counter(u.thinking), tot, inp);
    if !v.Present() {
      return NOTHING, "", false;
    }
    assert v == ValuesOf(u);
    return v, ev.cwd, true;
  }
}
