/** The range of a C# `int` and the unchecked conversions into it. */
module Int32 {
  const Min: int := -0x8000_0000
  const Max: int := 0x7FFF_FFFF

  predicate InRange(n: int)
  {
    Min <= n <= Max
  }

  /** Unchecked conversion or arithmetic into `int`: the value wraps modulo 2^32 into the range. */
  function Wrap(n: int): (w: int)
    ensures InRange(w)
    ensures InRange(n) ==> w == n
    ensures (w - n) % 0x1_0000_0000 == 0
  {
    (n - Min) % 0x1_0000_0000 + Min
  }
}
