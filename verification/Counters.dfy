// The token counters of agentusage/watch.go: 64-bit machine integers that
// saturate instead of wrapping.
module Counters {
  import opened Base

  const MAX_INT: int := 0x7FFF_FFFF_FFFF_FFFF
  const MAX_SANE_TOKENS: int := 0x100_0000_0000

  // A non-negative value of Go's 64-bit int.
  type Count = n: int | 0 <= n <= MAX_INT

  // Two's complement wrap-around of a mathematical integer.
  function Wrap(n: int): int {
    var m := n % 0x1_0000_0000_0000_0000;
    if m > MAX_INT then m - 0x1_0000_0000_0000_0000 else m
  }

  // The addition is the machine's: it wraps, and the sign betrays it.
  function SatAdd(a: Count, b: Count): (s: Count)
    ensures s as int == Min(a + b, MAX_INT)
  {
    var s := Wrap(a + b);
    if s < 0 then MAX_INT else s
  }

  function Counter(n: int): (c: Count) {
    if n < 0 || n > MAX_SANE_TOKENS then 0 else n
  }

  datatype Values = Values(output: Count, thinking: Count, total: Count, input: Count) {
    predicate Present() {
      output > 0 || thinking > 0 || total > 0 || input > 0
    }
  }

  const NOTHING := Values(0, 0, 0, 0)

  predicate AtMost(a: Values, b: Values) {
    a.output <= b.output && a.thinking <= b.thinking && a.total <= b.total && a.input <= b.input
  }
}
