// The value history of internal/collector/collector.go: a buffer reserved once
// and overwritten from its head, dated by its newest sample.
module TimedRing {
  import opened Order

  const HISTORY_LEN: nat := 180

  class Ring {
    const buf: array<real>
    var len: nat
    var head: nat
    var t0: int

    // While filling, the head stays put.
    ghost predicate Valid()
      reads this, buf
    {
      buf.Length == HISTORY_LEN && len <= HISTORY_LEN && head < HISTORY_LEN && (len < HISTORY_LEN ==> head == 0)
    }

    // Oldest first.
    ghost function Contents(): seq<real>
      requires Valid()
      reads this, buf
    {
      if len < HISTORY_LEN then buf[..len] else buf[head..] + buf[..head]
    }

    constructor ()
      ensures Valid() && fresh(buf) && Contents() == []
    {
      buf := new real[HISTORY_LEN](_ => 0.0);
      len, head, t0 := 0, 0, 0;
    }

    method Push(v: real, now: int, interval: int)
      requires Valid()
      modifies this, buf
      ensures Valid()
      ensures Contents() == Last(180, old(Contents()) + [v])
      ensures t0 + (|Contents()| - 1) * interval == now
    {
      ghost var was := Contents();
      if len < HISTORY_LEN {
        buf[len] := v;
        len := len + 1;
        if len == HISTORY_LEN {
          assert buf[head..] + buf[..head] == buf[..len];
        }
        assert buf[..len] == was + [v];
      } else {
        buf[head] := v;
        head := head + 1;
        if head == HISTORY_LEN {
          head := 0;
        }
        Rotated(was, v, buf[..], head);
      }
      t0 := now - (len - 1) * interval;
    }

    method Copy() returns (out: seq<real>)
      requires Valid()
      ensures out == Contents()
    {
      if len == 0 {
        return [];
      }
      return if len < HISTORY_LEN then buf[head..len] else buf[head..] + buf[..head];
    }
  }

  // Overwriting the oldest and moving the head is dropping it and appending.
  lemma Rotated(was: seq<real>, v: real, buf: seq<real>, head: nat)
    requires |was| == |buf| == HISTORY_LEN && head < HISTORY_LEN
    requires forall k :: 1 <= k < HISTORY_LEN ==>
               was[k] == if head + k - 1 < HISTORY_LEN then buf[head + k - 1] else buf[head + k - 1 - HISTORY_LEN]
    requires v == if head == 0 then buf[HISTORY_LEN - 1] else buf[head - 1]
    ensures buf[head..] + buf[..head] == Last(HISTORY_LEN, was + [v])
  {
  }

  // The ring after any pushes holds the last of them.
  function Pushed(vs: seq<real>): seq<real> {
    if vs == [] then [] else Last(HISTORY_LEN, Pushed(vs[..|vs| - 1]) + [vs[|vs| - 1]])
  }

  lemma {:induction false} RingHoldsTheLast(vs: seq<real>)
    ensures Pushed(vs) == Last(HISTORY_LEN, vs)
  {
    if vs != [] {
      var front, v := vs[..|vs| - 1], vs[|vs| - 1];
      RingHoldsTheLast(front);
      assert vs == front + [v];
      LastOfLast(front, v);
    }
  }

  lemma LastOfLast(front: seq<real>, v: real)
    ensures Last(HISTORY_LEN, Last(HISTORY_LEN, front) + [v]) == Last(HISTORY_LEN, front + [v])
  {
  }
}
