/** The 32-bit `int` of the Windows toolchain, and the wrap-around of the two
    conversions WinPrint.cpp performs on it: the `(int)` cast of `tellg()` and
    `y += fontSize`, where `fontSize` is an `unsigned int`. */
module Int32Arith {
  const TwoTo31: int := 0x8000_0000
  const TwoTo32: int := 0x1_0000_0000

  type Int32 = x: int | -0x8000_0000 <= x < 0x8000_0000

  /** The low 32 bits of `n` read back as a two's-complement `int`. */
  function ToInt32(n: int): (r: Int32)
    ensures (r - n) % TwoTo32 == 0
    ensures -TwoTo31 <= n < TwoTo31 ==> r == n
  {
    var m := n % TwoTo32;
    if m < TwoTo31 then m else m - TwoTo32
  }

  /** Wrapping an intermediate sum does not change the wrapped total. */
  lemma {:induction false} ToInt32Add(a: int, b: int)
    ensures ToInt32(ToInt32(a) + b) == ToInt32(a + b)
  {
    var c := ToInt32(a);
    assert (c + b) % TwoTo32 == (a + b) % TwoTo32 by {
      var q := (c - a) / TwoTo32;
      assert c + b == (a + b) + q * TwoTo32;
    }
  }
}
