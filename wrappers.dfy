/** Option and Result values standing for C#'s nullable references and thrown exceptions. */
module Wrappers {

  /** A value that may be null in the C# source. */
  datatype Option<+T> = None | Some(value: T)

  /** The outcome of a call that either returns a value or throws. */
  datatype Result<+R, +E> = Success(value: R) | Failure(error: E)

  /** The exceptions the modelled code can throw. */
  datatype Fault =
    | ArgumentOutOfRange   // unknown level passed to IsEnabled
    | ArgumentNull         // Log called without a formatter
    | NullReference        // a member called on a null state
}

/** C#'s 32-bit `int`, for the diagnostic call counters that wrap on overflow. */
module Int32 {

  newtype int32 = x: int | -0x8000_0000 <= x < 0x8000_0000

  /** `++x` on an `int` in an unchecked context: wraps from int.MaxValue to int.MinValue. */
  function Inc(x: int32): (r: int32)
    ensures x < 0x7fff_ffff ==> r as int == x as int + 1
    ensures x == 0x7fff_ffff ==> r == -0x8000_0000
    ensures (r as int - x as int - 1) % 0x1_0000_0000 == 0
  {
    if x == 0x7fff_ffff then -0x8000_0000 else x + 1
  }

  /** `n` increments in a row. */
  function IncN(x: int32, n: nat): int32
    decreases n
  {
    if n == 0 then x else Inc(IncN(x, n - 1))
  }

  /** After `n` increments a counter has grown by `n`, modulo 2^32: it counts calls as long as they number fewer than 2^32. */
  lemma {:induction false} IncNCounts(x: int32, n: nat)
    ensures (IncN(x, n) as int - x as int - n) % 0x1_0000_0000 == 0
    ensures x as int + n < 0x8000_0000 ==> IncN(x, n) as int == x as int + n
    decreases n
  {
    if n > 0 {
      IncNCounts(x, n - 1);
      var p := IncN(x, n - 1);
      assert (IncN(x, n) as int - p as int - 1) % 0x1_0000_0000 == 0;
      var a := IncN(x, n) as int - p as int - 1;
      var b := p as int - x as int - (n - 1);
      assert IncN(x, n) as int - x as int - n == a + b;
    }
  }
}
