/**
 * The C++ integer widths the CLAS12 layer relies on: `int` (32 bit),
 * `short` (16 bit) and `size_t` (64 bit unsigned), and the conversions
 * between them that happen implicitly in the headers.
 */
module CppTypes {

  const Int32Min: int := -0x8000_0000
  const Int32Max: int := 0x7fff_ffff
  const ShortMin: int := -0x8000
  const ShortMax: int := 0x7fff
  const SizeTModulus: int := 0x1_0000_0000_0000_0000

  /** A C++ `int` / `Int_t`. */
  type Int32 = x: int | Int32Min <= x <= Int32Max

  /** A C++ `short` / `Short_t`. */
  type Short = x: int | ShortMin <= x <= ShortMax

  /**
   * ROOT's RVec keeps its size in a 32-bit signed integer, so no RVec
   * holds more than Int32Max elements.
   */
  predicate IsRVec<T>(s: seq<T>) {
    |s| <= Int32Max
  }

  /**
   * The value a signed `int` takes when it is compared with, or used as,
   * a `size_t`: negative values wrap around to the top of the 64-bit range.
   */
  function SizeT(x: Int32): (u: nat)
    ensures u < SizeTModulus
    ensures u % SizeTModulus == x % SizeTModulus
    ensures 0 <= x ==> u == x
    ensures x < 0 ==> u > Int32Max
  {
    if x >= 0 then x else x + SizeTModulus
  }

  /**
   * The value an `int` takes when it is passed where a `short` is expected:
   * the residue modulo 2^16 in the range of `short`.
   */
  function ToShort(x: int): (s: Short)
    ensures (x - s) % 0x1_0000 == 0
    ensures ShortMin <= x <= ShortMax ==> s == x
  {
    var m := x % 0x1_0000;
    if m > ShortMax then m - 0x1_0000 else m
  }
}
