// SanitizeText of internal/core/sanitize.go: what may reach a terminal of a
// text nobody vouches for (escape sequences as in ECMA-48, sections 5.4 and
// 5.6).
module Sanitize {
  import opened Base
  import opened Utf8

  const ESC: Byte := 0x1B
  const BEL: Byte := 0x07
  const DEL: Byte := 0x7F
  const TAB: Byte := 9
  const BACKSLASH: Byte := 0x5C

  // Membership in the Unicode classes Cf and Bidi_Control.
  datatype Tables = Tables(format: int -> bool, bidi: int -> bool)

  predicate UnsafeRune(u: Tables, r: int) {
    || 0x80 <= r <= 0x9F
    || u.bidi(r)
    || (u.format(r) && r != 0x200D)
    || r in {0x034F, 0x180B, 0x180C, 0x180D, 0x180F, 0x2028, 0x2029}
    || 0xFE00 <= r <= 0xFE0F
    || 0xE0100 <= r <= 0xE01EF
  }

  // What a sanitized text is made of.
  predicate Allowed(u: Tables, r: Scalar) {
    r == NEWLINE || r == TAB || 0x20 <= r < 0x7F || (r >= 0x80 && !UnsafeRune(u, r))
  }

  // Sanitized text: the UTF-8 of allowed scalars.
  ghost predicate IsClean(u: Tables, s: Bytes) {
    exists rs: seq<Scalar> :: AllAllowed(u, rs) && s == EncodeAll(rs)
  }

  predicate AllAllowed(u: Tables, rs: seq<Scalar>) {
    forall i :: 0 <= i < |rs| ==> Allowed(u, rs[i])
  }

  // The bytes of a CSI between its bracket and its final byte.
  function ParamRun(t: Bytes): (n: nat)
    ensures n <= |t|
  {
    if t == [] || !(0x20 <= t[0] <= 0x3F) then 0 else 1 + ParamRun(t[1..])
  }

  // The bytes of a control string, its terminator BEL or ST included.
  function StringRun(t: Bytes): (n: nat)
    ensures n <= |t|
  {
    if t == [] then 0
    else if t[0] == BEL then 1
    else if t[0] == ESC && |t| > 1 && t[1] == BACKSLASH then 2
    else 1 + StringRun(t[1..])
  }

  predicate OpensString(b: Byte) {
    b in {0x5D, 0x50, 0x58, 0x5E, 0x5F}
  }

  // One escape sequence, after its ESC.
  function EscapeLen(t: Bytes): (n: nat)
    ensures n <= |t| && (t != [] ==> n > 0)
  {
    if t == [] then 0
    else if t[0] == 0x5B then
      var n := 1 + ParamRun(t[1..]);
      if n < |t| && 0x40 <= t[n] <= 0x7E then n + 1 else n
    else if OpensString(t[0]) then 1 + StringRun(t[1..])
    else 1
  }

  method SkipEscapeSeq(s: Bytes, start: nat) returns (i: nat)
    requires start <= |s|
    ensures i == start + EscapeLen(s[start..])
    ensures start <= i <= |s| && (start < |s| ==> i > start)
  {
    i := start;
    if i >= |s| {
      return;
    }
    var c := s[i];
    i := i + 1;
    assert s[start..][1..] == s[i..];
    if c == 0x5B {
      while i < |s| && 0x20 <= s[i] <= 0x3F
        invariant start < i <= |s| && i + ParamRun(s[i..]) == start + 1 + ParamRun(s[start + 1..])
      {
        assert s[i..][1..] == s[i + 1..];
        i := i + 1;
      }
      if i < |s| && 0x40 <= s[i] <= 0x7E {
        i := i + 1;
      }
    } else if c in {0x5D, 0x50, 0x58, 0x5E, 0x5F} {
      while i < |s|
        invariant start < i <= |s| && i + StringRun(s[i..]) == start + 1 + StringRun(s[start + 1..])
      {
        assert s[i..][1..] == s[i + 1..];
        if s[i] == BEL {
          i := i + 1;
          return;
        }
        if s[i] == ESC && i + 1 < |s| && s[i + 1] == BACKSLASH {
          i := i + 2;
          return;
        }
        i := i + 1;
      }
    }
  }

  // One step over a text: how many bytes, and whether they stay.
  datatype Stride = Stride(size: nat, keep: bool)

  function Next(u: Tables, s: Bytes): (n: Stride)
    requires s != []
    ensures 1 <= n.size <= |s|
  {
    var c := s[0];
    if c == ESC then Stride(1 + EscapeLen(s[1..]), false)
    else if c == NEWLINE || c == TAB then Stride(1, true)
    else if c < 0x20 || c == DEL then Stride(1, false)
    else if c < 0x80 then Stride(1, true)
    else if Fails(s) then Stride(1, false)
    else Stride(DecodeRune(s).size, !UnsafeRune(u, DecodeRune(s).rune))
  }

  function Sanitized(u: Tables, s: Bytes): (r: Bytes)
    ensures |r| <= |s|
    decreases |s|
  {
    if s == [] then [] else
      var n := Next(u, s);
      (if n.keep then s[..n.size] else []) + Sanitized(u, s[n.size..])
  }

  predicate Suspicious(c: Byte) {
    (c < 0x20 && c != NEWLINE && c != TAB) || c == DEL || c >= 0x80
  }

  method NeedsSanitize(s: Bytes) returns (needed: bool)
    ensures needed <==> exists i :: 0 <= i < |s| && Suspicious(s[i])
  {
    var i := 0;
    while i < |s|
      invariant i <= |s| && forall j :: 0 <= j < i ==> !Suspicious(s[j])
    {
      if Suspicious(s[i]) {
        return true;
      }
      i := i + 1;
    }
    return false;
  }

  // One turn of the loop: where the next begins, and whether these bytes stay.
  method Turn(u: Tables, s: Bytes, i: nat) returns (next: nat, keep: bool)
    requires i < |s|
    ensures i < next <= |s| && Next(u, s[i..]) == Stride(next - i, keep)
  {
    var c := s[i];
    if c == ESC {
      assert s[i..][1..] == s[i + 1..];
      next := SkipEscapeSeq(s, i + 1);
      keep := false;
    } else if c == NEWLINE || c == TAB {
      next, keep := i + 1, true;
    } else if c < 0x20 || c == DEL {
      next, keep := i + 1, false;
    } else if c < 0x80 {
      next, keep := i + 1, true;
    } else {
      var d := DecodeRune(s[i..]);
      if d.rune == RUNE_ERROR && d.size == 1 {
        next, keep := i + 1, false;
      } else {
        next, keep := i + d.size, !UnsafeRune(u, d.rune);
      }
    }
  }

  method SanitizeText(u: Tables, s: Bytes) returns (out: Bytes)
    ensures out == Sanitized(u, s)
  {
    var needed := NeedsSanitize(s);
    if !needed {
      PlainTextPasses(u, s);
      return s;
    }
    var b, i := [], 0;
    ghost var goal := Sanitized(u, s);
    Track(u, s, b, goal);
    while i < |s|
      invariant i <= |s| && OnTrack(u, s, i, b, goal)
    {
      var next, keep := Turn(u, s, i);
      TurnStaysOnTrack(u, s, i, b, goal, next, keep);
      if keep {
        b := b + s[i..next];
      }
      i := next;
    }
    Track(u, s, b, goal);
    return b;
  }

  // What is written and what is still to come make the goal.
  ghost predicate OnTrack(u: Tables, s: Bytes, i: nat, b: Bytes, goal: Bytes) {
    i <= |s| && b + Sanitized(u, s[i..]) == goal
  }

  lemma TurnStaysOnTrack(u: Tables, s: Bytes, i: nat, b: Bytes, goal: Bytes, next: nat, keep: bool)
    requires i < next <= |s| && Next(u, s[i..]) == Stride(next - i, keep) && OnTrack(u, s, i, b, goal)
    ensures OnTrack(u, s, next, if keep then b + s[i..next] else b, goal)
  {
    SliceOf(s, i, next - i);
    OneStride(u, s[i..], Stride(next - i, keep), s[next..]);
    Glue(b, s[i..next], keep, Sanitized(u, s[next..]));
  }

  lemma OneStride(u: Tables, t: Bytes, n: Stride, rest: Bytes)
    requires t != [] && Next(u, t) == n && t[n.size..] == rest
    ensures Sanitized(u, t) == (if n.keep then t[..n.size] else []) + Sanitized(u, rest)
  {
  }

  lemma Track(u: Tables, s: Bytes, b: Bytes, goal: Bytes)
    ensures OnTrack(u, s, 0, [], Sanitized(u, s)) && (OnTrack(u, s, |s|, b, goal) ==> b == goal)
  {
    assert s[0..] == s && s[|s|..] == [] && b + [] == b;
    assert [] + Sanitized(u, s) == Sanitized(u, s);
  }

  lemma SliceOf(s: Bytes, i: nat, n: nat)
    requires i + n <= |s|
    ensures s[i..][..n] == s[i..i + n] && s[i..][n..] == s[i + n..]
  {
  }

  lemma Glue(b: Bytes, piece: Bytes, keep: bool, rest: Bytes)
    ensures (if keep then b + piece else b) + rest == b + ((if keep then piece else []) + rest)
  {
    Associative(b, piece, rest);
    assert [] + rest == rest;
  }

  // The fast path: text without a suspicious byte is its own result.
  lemma {:induction false} PlainTextPasses(u: Tables, s: Bytes)
    requires forall i :: 0 <= i < |s| ==> !Suspicious(s[i])
    ensures Sanitized(u, s) == s
  {
    if s != [] {
      PlainTextPasses(u, s[1..]);
      assert s[..1] + s[1..] == s;
    }
  }

  lemma KeptIsOneScalar(u: Tables, s: Bytes)
    requires s != [] && Next(u, s).keep
    ensures !Fails(s) && Allowed(u, DecodeRune(s).rune)
    ensures Next(u, s).size == DecodeRune(s).size && Encode(DecodeRune(s).rune) == s[..DecodeRune(s).size]
  {
    DecodedEncodes(s);
  }

  // The result is always well-formed and holds nothing but allowed scalars.
  lemma {:induction false} SanitizedIsClean(u: Tables, s: Bytes)
    ensures IsClean(u, Sanitized(u, s))
    decreases |s|
  {
    if s == [] {
      assert EncodeAll([]) == [] && AllAllowed(u, []);
    } else {
      var n := Next(u, s);
      SanitizedIsClean(u, s[n.size..]);
      if n.keep {
        KeptIsOneScalar(u, s);
        OneMoreScalar(u, DecodeRune(s).rune, Sanitized(u, s[n.size..]));
      } else {
        assert [] + Sanitized(u, s[n.size..]) == Sanitized(u, s[n.size..]);
      }
    }
  }

  lemma OneMoreScalar(u: Tables, r: Scalar, t: Bytes)
    requires Allowed(u, r) && IsClean(u, t)
    ensures IsClean(u, Encode(r) + t)
  {
    var rs: seq<Scalar> :| AllAllowed(u, rs) && t == EncodeAll(rs);
    assert ([r] + rs)[1..] == rs;
    assert EncodeAll([r] + rs) == Encode(r) + t;
  }

  lemma AllowedIsKept(u: Tables, r: Scalar, rest: Bytes)
    requires Allowed(u, r)
    ensures Next(u, Encode(r) + rest) == Stride(|Encode(r)|, true)
  {
    EncodedDecodes(r, rest);
    assert (Encode(r) + rest)[0] == Encode(r)[0];
  }

  // Clean text in front of anything survives as it is.
  lemma {:induction false} CleanPrefixSurvives(u: Tables, rs: seq<Scalar>, rest: Bytes)
    requires AllAllowed(u, rs)
    ensures Sanitized(u, EncodeAll(rs) + rest) == EncodeAll(rs) + Sanitized(u, rest)
  {
    if rs == [] {
      assert [] + rest == rest && [] + Sanitized(u, rest) == Sanitized(u, rest);
    } else {
      var first, more := Encode(rs[0]), EncodeAll(rs[1..]);
      CleanPrefixSurvives(u, rs[1..], rest);
      AllowedIsKept(u, rs[0], more + rest);
      Associative(first, more, rest);
      Associative(first, more, Sanitized(u, rest));
      FrontAndRest(first, more + rest);
    }
  }

  lemma FrontAndRest(a: Bytes, b: Bytes)
    ensures (a + b)[..|a|] == a && (a + b)[|a|..] == b
  {
  }

  // What becomes of one code point, whatever follows it: these are removed, and
  // every other stays. An escape takes more along and is not among them.
  lemma RuneSurvivesIff(u: Tables, r: Scalar, rest: Bytes)
    requires r != 0x1B
    ensures var unsafe :=
        || (r < 0x20 && r != 9 && r != 10) || 0x7F <= r <= 0x9F
        || (r >= 0x80 && (u.bidi(r) || (u.format(r) && r != 0x200D)))
        || r in {0x034F, 0x180B, 0x180C, 0x180D, 0x180F, 0x2028, 0x2029}
        || 0xFE00 <= r <= 0xFE0F || 0xE0100 <= r <= 0xE01EF;
      Sanitized(u, Encode(r) + rest) == (if unsafe then [] else Encode(r)) + Sanitized(u, rest)
  {
    var s := Encode(r) + rest;
    EncodedDecodes(r, rest);
    FrontAndRest(Encode(r), rest);
    assert r < 0x80 ==> s[0] == r;
    assert r >= 0x80 ==> s[0] == Encode(r)[0] >= 0x80;
  }

  // Exactly the clean texts pass unchanged.
  lemma UnchangedIffClean(u: Tables, s: Bytes)
    ensures Sanitized(u, s) == s <==> IsClean(u, s)
  {
    SanitizedIsClean(u, s);
    if IsClean(u, s) {
      var rs: seq<Scalar> :| AllAllowed(u, rs) && s == EncodeAll(rs);
      CleanPrefixSurvives(u, rs, []);
      assert EncodeAll(rs) + [] == EncodeAll(rs);
      assert Sanitized(u, []) == [];
    }
  }

  // Sanitizing twice is sanitizing once, and never longer than the input.
  lemma SanitizingIsIdempotent(u: Tables, s: Bytes)
    ensures Sanitized(u, Sanitized(u, s)) == Sanitized(u, s)
    ensures |Sanitized(u, s)| <= |s|
  {
    SanitizedIsClean(u, s);
    UnchangedIffClean(u, Sanitized(u, s));
  }

  // A control sequence: parameter and intermediate bytes, then a final byte.
  predicate IsCSI(params: Bytes, final: Byte) {
    (forall i :: 0 <= i < |params| ==> 0x20 <= params[i] <= 0x3F) && 0x40 <= final <= 0x7E
  }

  // The body of a control string holds nothing that would end it.
  predicate IsBody(body: Bytes) {
    && (forall i :: 0 <= i < |body| ==> body[i] != BEL)
    && (forall i :: 0 <= i < |body| - 1 ==> body[i] != ESC || body[i + 1] != BACKSLASH)
  }

  predicate IsTerminator(end: Bytes) {
    end == [BEL] || end == [ESC, BACKSLASH]
  }

  lemma {:induction false} ParamRunIs(params: Bytes, final: Byte, rest: Bytes)
    requires IsCSI(params, final)
    ensures ParamRun(params + ([final] + rest)) == |params|
    ensures (params + ([final] + rest))[|params|] == final
  {
    if params != [] {
      TailOfAppend(params, [final] + rest);
      ParamRunIs(params[1..], final, rest);
    }
  }

  lemma {:induction false} StringRunIs(body: Bytes, end: Bytes, rest: Bytes)
    requires IsBody(body) && IsTerminator(end)
    ensures StringRun(body + (end + rest)) == |body| + |end|
  {
    if body == [] {
      assert [] + (end + rest) == end + rest;
    } else {
      TailOfAppend(body, end + rest);
      StringRunIs(body[1..], end, rest);
    }
  }

  // A complete escape sequence disappears whole, and the text after it is
  // treated as if the sequence had not been there.
  lemma ControlSequencesVanish(u: Tables, params: Bytes, final: Byte, rest: Bytes)
    requires IsCSI(params, final)
    ensures Sanitized(u, [ESC, 0x5B] + (params + ([final] + rest))) == Sanitized(u, rest)
  {
    var t := params + ([final] + rest);
    ParamRunIs(params, final, rest);
    Opened(0x5B, t);
    assert t[|params| + 1..] == rest;
    Skipped(u, [ESC, 0x5B] + t, |params| + 3, rest);
  }

  lemma StringEscape(opener: Byte, t: Bytes)
    requires OpensString(opener)
    ensures EscapeLen([opener] + t) == 1 + StringRun(t)
  {
    assert ([opener] + t)[1..] == t;
  }

  lemma ControlStringsVanish(u: Tables, opener: Byte, body: Bytes, end: Bytes, rest: Bytes)
    requires OpensString(opener) && IsBody(body) && IsTerminator(end)
    ensures Sanitized(u, [ESC, opener] + (body + (end + rest))) == Sanitized(u, rest)
  {
    var t := body + (end + rest);
    StringRunIs(body, end, rest);
    StringEscape(opener, t);
    Opened(opener, t);
    assert t[|body| + |end|..] == rest;
    Skipped(u, [ESC, opener] + t, |body| + |end| + 2, rest);
  }

  // A control string that never ends takes everything after it along.
  lemma UnterminatedStringSwallowsAll(u: Tables, opener: Byte, body: Bytes)
    requires OpensString(opener) && IsBody(body)
    ensures Sanitized(u, [ESC, opener] + body) == []
  {
    Unterminated(body);
    StringEscape(opener, body);
    Opened(opener, body);
    Skipped(u, [ESC, opener] + body, |body| + 2, []);
  }

  lemma {:induction false} Unterminated(body: Bytes)
    requires IsBody(body)
    ensures StringRun(body) == |body|
  {
    if body != [] {
      Unterminated(body[1..]);
    }
  }

  // A control sequence broken off by a byte that can be none of its own does
  // not: only what was read of it vanishes, and the rest is text again.
  lemma BrokenSequenceEndsThere(u: Tables, params: Bytes, rest: Bytes)
    requires forall i :: 0 <= i < |params| ==> 0x20 <= params[i] <= 0x3F
    requires rest == [] || !(0x20 <= rest[0] <= 0x7E)
    ensures Sanitized(u, [ESC, 0x5B] + (params + rest)) == Sanitized(u, rest)
  {
    var t := params + rest;
    BrokenRun(params, rest);
    Opened(0x5B, t);
    assert t[|params|..] == rest;
    assert rest != [] ==> t[|params|] == rest[0];
    Skipped(u, [ESC, 0x5B] + t, |params| + 2, rest);
  }

  lemma {:induction false} BrokenRun(params: Bytes, rest: Bytes)
    requires forall i :: 0 <= i < |params| ==> 0x20 <= params[i] <= 0x3F
    requires rest == [] || !(0x20 <= rest[0] <= 0x7E)
    ensures ParamRun(params + rest) == |params|
  {
    if params == [] {
      assert [] + rest == rest;
    } else {
      TailOfAppend(params, rest);
      BrokenRun(params[1..], rest);
    }
  }

  // A control sequence or string that reaches its own end.
  predicate Completes(t: Bytes)
    requires t != []
  {
    if t[0] == 0x5B
    then var n := 1 + ParamRun(t[1..]); n < |t| && 0x40 <= t[n] <= 0x7E
    else !IsBody(t[1..])
  }

  // Which of those that do not take the whole rest of the text along: every
  // control string, and a control sequence only if nothing follows its
  // parameter bytes.
  lemma UnterminatedSwallowsIff(t: Bytes)
    requires t != [] && (t[0] == 0x5B || OpensString(t[0])) && !Completes(t)
    ensures EscapeLen(t) == |t| <==> OpensString(t[0]) || forall i :: 1 <= i < |t| ==> 0x20 <= t[i] <= 0x3F
  {
    if t[0] == 0x5B {
      ParamRunIsAll(t[1..]);
      assert forall i :: 0 <= i < |t| - 1 ==> t[1..][i] == t[i + 1];
    } else {
      Unterminated(t[1..]);
    }
  }

  lemma {:induction false} ParamRunIsAll(t: Bytes)
    ensures ParamRun(t) == |t| <==> forall i :: 0 <= i < |t| ==> 0x20 <= t[i] <= 0x3F
  {
    if t != [] {
      ParamRunIsAll(t[1..]);
      assert forall i :: 0 <= i < |t| - 1 ==> t[1..][i] == t[i + 1];
    }
  }

  lemma Opened(opener: Byte, t: Bytes)
    ensures ([ESC, opener] + t)[1..] == [opener] + t && ([opener] + t)[1..] == t
    ensures forall n :: 0 <= n <= |t| ==> ([ESC, opener] + t)[n + 2..] == t[n..]
    ensures forall n :: 0 <= n < |t| ==> ([opener] + t)[n + 1] == t[n]
  {
  }

  lemma Skipped(u: Tables, s: Bytes, n: nat, rest: Bytes)
    requires s != [] && s[0] == ESC && EscapeLen(s[1..]) + 1 == n && s[n..] == rest
    ensures Sanitized(u, s) == Sanitized(u, rest)
  {
    OneStride(u, s, Stride(n, false), rest);
    assert [] + Sanitized(u, rest) == Sanitized(u, rest);
  }
}
