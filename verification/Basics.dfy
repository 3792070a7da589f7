/** Types the modules share. */
module Basics {
  datatype Option<+T> = None | Some(value: T)

  type byte = x: int | 0 <= x < 256

  type int32 = x: int | -0x8000_0000 <= x < 0x8000_0000

  function Min(a: int, b: int): int {
    if a < b then a else b
  }

  function Max(a: int, b: int): int {
    if a > b then a else b
  }

  function Without<T>(s: seq<T>, k: nat): seq<T>
    requires k < |s|
  {
    s[..k] + s[k + 1..]
  }

  /** a / b rounded up. */
  function CeilDiv(a: nat, b: int): (q: nat)
    requires b >= 1
  {
    (a + b - 1) / b
  }

  lemma Quotient(a: nat, b: int)
    requires b >= 1
    ensures a / b * b <= a < a / b * b + b
    ensures (a / b - 1) * b == a / b * b - b
  {
  }

  lemma Multiply(x: int, y: int, b: int)
    requires x <= y && b >= 1
    ensures x * b <= y * b
  {
  }

  lemma CeilDivBounds(a: nat, b: int, n: int)
    requires b >= 1
    ensures n < CeilDiv(a, b) <==> n * b < a
  {
    var q: int := CeilDiv(a, b);
    Quotient(a + b - 1, b);
    if n < q { Multiply(n, q - 1, b); } else { Multiply(q, n, b); }
  }

  /** The 32 bits of x, read as unsigned. */
  function Bits(x: int32): nat {
    if x < 0 then x + 0x1_0000_0000 else x
  }

  function Le32(x: int32): seq<byte> {
    var u := Bits(x);
    [u % 0x100, u / 0x100 % 0x100, u / 0x1_0000 % 0x100, u / 0x100_0000]
  }

  /** Four bytes, the lowest first, or'ed together; the highest has the sign. */
  function FromLe32(a: byte, b: byte, c: byte, d: byte): int32 {
    var high := if d >= 0x80 then d as int - 0x100 else d as int;
    a as int + 0x100 * (b as int + 0x100 * (c as int + 0x100 * high))
  }

  lemma Le32RoundTrip(x: int32)
    ensures var s := Le32(x); FromLe32(s[0], s[1], s[2], s[3]) == x
  {
    var u := Bits(x);
    assert u / 0x1_0000 == u / 0x100 / 0x100;
    assert u / 0x100_0000 == u / 0x1_0000 / 0x100;
  }
}
