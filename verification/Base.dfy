// Vocabulary shared by every module: options, bytes, and the order-free sum
// over a finite set that Go's randomised map iteration calls for.
module Base {
  datatype Option<+T> = None | Some(value: T)

  type Byte = b: int | 0 <= b < 256
  type Bytes = seq<Byte>

  type Positive = n: nat | n > 0 witness 1

  const NEWLINE: Byte := 10
  const RETURN: Byte := 13

  function Max(a: int, b: int): int {
    if a < b then b else a
  }

  function Min(a: int, b: int): int {
    if b < a then b else a
  }

  // time.Time.Sub: the difference of two instants, saturated to 64 bits.
  function Elapsed(later: int, earlier: int): int {
    Max(-0x8000_0000_0000_0000, Min(later - earlier, 0x7FFF_FFFF_FFFF_FFFF))
  }

  // The next key of Go's map iteration: whichever.
  method AnyOf<T(==)>(s: set<T>) returns (x: T)
    requires s != {}
    ensures x in s
  {
    x :| x in s;
  }

  // The value stored under k, or the default a Go map index yields.
  function Lookup<K, V>(m: map<K, V>, k: K, zero: V): V {
    if k in m then m[k] else zero
  }

  // Sequence facts, kept apart from the recursive definitions that use them.
  lemma Associative<T>(a: seq<T>, b: seq<T>, c: seq<T>)
    ensures a + b + c == a + (b + c)
  {
  }

  lemma CutAt<T>(s: seq<T>, i: nat)
    requires i < |s|
    ensures s == s[..i] + [s[i]] + s[i + 1..]
  {
  }

  lemma DropDrop<T>(s: seq<T>, i: nat, j: nat)
    requires i + j <= |s|
    ensures s[i..][j..] == s[i + j..]
  {
  }

  lemma SplitAt<T>(s: seq<T>, i: nat)
    requires i <= |s|
    ensures s == s[..i] + s[i..]
  {
  }

  lemma TailOfAppend<T>(a: seq<T>, b: seq<T>)
    requires a != []
    ensures (a + b)[0] == a[0] && (a + b)[1..] == a[1..] + b
  {
  }

  // The sum of f over s. The choice of element is arbitrary; SumRemove says it
  // does not matter, which is what makes a loop over a Go map deterministic.
  ghost function Sum<K(!new)>(s: set<K>, f: K -> nat): nat {
    if s == {} then 0 else
      var k :| k in s;
      f(k) + Sum(s - {k}, f)
  }

  lemma {:induction false} SumRemove<K(!new)>(s: set<K>, f: K -> nat, x: K)
    requires x in s
    ensures Sum(s, f) == f(x) + Sum(s - {x}, f)
    decreases |s|
  {
    var k :| k in s && Sum(s, f) == f(k) + Sum(s - {k}, f);
    if k != x {
      SumRemove(s - {k}, f, x);
      SumRemove(s - {x}, f, k);
      assert s - {k} - {x} == s - {x} - {k};
    }
  }

  lemma {:induction false} SumMonotone<K(!new)>(s: set<K>, f: K -> nat, t: set<K>, g: K -> nat)
    requires s <= t
    requires forall k :: k in s ==> f(k) <= g(k)
    ensures Sum(s, f) <= Sum(t, g)
    decreases |t|
  {
    if t != {} {
      var x :| x in t;
      SumRemove(t, g, x);
      if x in s {
        SumRemove(s, f, x);
        SumMonotone(s - {x}, f, t - {x}, g);
      } else {
        SumMonotone(s, f, t - {x}, g);
      }
    }
  }

  lemma SumAgrees<K(!new)>(s: set<K>, f: K -> nat, g: K -> nat)
    requires forall k :: k in s ==> f(k) == g(k)
    ensures Sum(s, f) == Sum(s, g)
  {
    SumMonotone(s, f, s, g);
    SumMonotone(s, g, s, f);
  }

  lemma {:induction false} SumSplit<K(!new)>(all: set<K>, s: set<K>, f: K -> nat)
    requires s <= all
    ensures Sum(all, f) == Sum(s, f) + Sum(all - s, f)
    decreases |s|
  {
    if s == {} {
      assert all - s == all;
    } else {
      var k :| k in s;
      SumRemove(all, f, k);
      SumRemove(s, f, k);
      SumSplit(all - {k}, s - {k}, f);
      assert all - {k} - (s - {k}) == all - s;
    }
  }

  lemma {:induction false} SumIsZeroIff<K(!new)>(s: set<K>, f: K -> nat)
    ensures Sum(s, f) == 0 <==> forall k :: k in s ==> f(k) == 0
    decreases |s|
  {
    if s != {} {
      var x :| x in s;
      SumRemove(s, f, x);
      SumIsZeroIff(s - {x}, f);
      assert forall k :: k in s <==> k == x || k in s - {x};
    }
  }

  lemma SumDropZeros<K(!new)>(all: set<K>, s: set<K>, f: K -> nat)
    requires s <= all && forall k :: k in all - s ==> f(k) == 0
    ensures Sum(all, f) == Sum(s, f)
  {
    SumSplit(all, s, f);
    SumIsZeroIff(all - s, f);
  }

  // Sums of reals over the first n indices.
  function SumTo(n: nat, f: nat -> real): real {
    if n == 0 then 0.0 else SumTo(n - 1, f) + f(n - 1)
  }

  lemma {:induction false} SumToAgrees(n: nat, f: nat -> real, g: nat -> real)
    requires forall i: nat :: i < n ==> f(i) == g(i)
    ensures SumTo(n, f) == SumTo(n, g)
  {
    if n > 0 {
      SumToAgrees(n - 1, f, g);
    }
  }

  // Raising one summand raises the sum as much.
  lemma {:induction false} SumToBump(n: nat, f: nat -> real, g: nat -> real, at: nat, d: real)
    requires forall i: nat :: i < n ==> g(i) == f(i) + if i == at then d else 0.0
    ensures SumTo(n, g) == SumTo(n, f) + if at < n then d else 0.0
  {
    if n > 0 {
      SumToBump(n - 1, f, g, at, d);
    }
  }

  lemma {:induction false} SumToZero(n: nat, f: nat -> real)
    requires forall i: nat :: i < n ==> f(i) == 0.0
    ensures SumTo(n, f) == 0.0
  {
    if n > 0 {
      SumToZero(n - 1, f);
    }
  }
}
