// Decimal numerals and the text after a last colon: what makes the ids of
// internal/ingest/server.go and internal/agentwatch/agentwatch.go tell one
// record from another.
module Decimal {
  predicate IsDigit(c: char) {
    '0' <= c <= '9'
  }

  function Itoa(n: nat): (s: string)
    ensures s != "" && forall c :: c in s ==> IsDigit(c)
  {
    var last := ('0' as int + n % 10) as char;
    if n < 10 then [last] else Itoa(n / 10) + [last]
  }

  // strconv.FormatInt to base ten.
  function FormatInt(n: int): string {
    if n < 0 then "-" + Itoa(-n) else Itoa(n)
  }

  lemma {:induction false} ItoaIsInjective(a: nat, b: nat)
    requires Itoa(a) == Itoa(b)
    ensures a == b
    decreases a
  {
    LastDigit(a);
    LastDigit(b);
    if a >= 10 && b >= 10 {
      ItoaIsInjective(a / 10, b / 10);
    }
  }

  lemma LastDigit(n: nat)
    ensures var s := Itoa(n);
      && s[|s| - 1] as int == '0' as int + n % 10
      && (|s| == 1 <==> n < 10)
      && (n >= 10 ==> s[..|s| - 1] == Itoa(n / 10))
  {
  }

  lemma SignShows(n: int)
    ensures '-' in FormatInt(n) <==> n < 0
  {
    if n < 0 {
      assert FormatInt(n)[0] == '-';
    }
  }

  lemma FormatIntIsInjective(a: int, b: int)
    requires FormatInt(a) == FormatInt(b)
    ensures a == b
  {
    SignShows(a);
    SignShows(b);
    if a < 0 {
      assert FormatInt(a)[1..] == Itoa(-a) && FormatInt(b)[1..] == Itoa(-b);
      ItoaIsInjective(-a, -b);
    } else {
      ItoaIsInjective(a, b);
    }
  }

  lemma NumeralsHoldNoColon(n: int)
    ensures ':' !in FormatInt(n)
  {
  }

  // The text after the last colon is where the two parts meet.
  lemma SuffixIsUnique(a: string, m: string, b: string, n: string)
    requires a + ":" + m == b + ":" + n && ':' !in m && ':' !in n
    ensures a == b && m == n
  {
    LastColon(a, m, b, n);
    LastColon(b, n, a, m);
    SplitColon(a, m);
    SplitColon(b, n);
  }

  lemma LastColon(a: string, m: string, b: string, n: string)
    requires a + ":" + m == b + ":" + n && ':' !in m
    ensures |b| <= |a|
  {
    var s := a + ":" + m;
    assert forall k :: |a| < k < |s| ==> s[k] == m[k - |a| - 1] && s[k] != ':';
    assert (b + ":" + n)[|b|] == ':' == s[|b|];
  }

  lemma SplitColon(a: string, m: string)
    ensures (a + ":" + m)[..|a|] == a && (a + ":" + m)[|a| + 1..] == m
  {
  }
}
