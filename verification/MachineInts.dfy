/** 64-bit arithmetic as the compiled program performs it. */
module MachineInts {
  const TWO_63: int := 0x8000_0000_0000_0000
  const TWO_64: int := 0x1_0000_0000_0000_0000
  const MAX_INT64: int := TWO_63 - 1

  type int64 = x: int | -TWO_63 <= x < TWO_63
  type uint64 = x: int | 0 <= x < TWO_64

  /** The signed value left when a result wraps around. */
  function Signed64(x: int): int64 {
    var m := x % TWO_64;
    if m < TWO_63 then m else m - TWO_64
  }

  /** Division that rounds towards zero. */
  function TruncDiv(a: int, b: int): int
    requires b > 0
  {
    if a >= 0 then a / b else -((-a) / b)
  }

  function Min(a: int, b: int): int {
    if a < b then a else b
  }

  function Max(a: int, b: int): int {
    if a > b then a else b
  }

  lemma SignedFits(x: int)
    requires -TWO_63 <= x < TWO_63
    ensures Signed64(x) == x
  {
    if x < 0 {
      assert x % TWO_64 == x + TWO_64;
    }
  }

  lemma MulMono(a: int, b: int, c: int)
    requires a <= b && c >= 0
    ensures a * c <= b * c
  {
  }

  lemma Quotient(a: int, b: int, q: int, r: int)
    requires b > 0 && a == q * b + r && 0 <= r < b
    ensures a / b == q
  {
    var q', r' := a / b, a % b;
    assert a == b * q' + r' == q' * b + r';
    if q' > q { MulMono(q + 1, q', b); }
    if q > q' { MulMono(q' + 1, q, b); }
  }

  /** What rounding towards zero leaves of a positive dividend. */
  lemma QuotientBounds(a: int, b: int)
    requires b > 0
    ensures (a / b) * b <= a < (a / b) * b + b
  {
    assert a == b * (a / b) + a % b;
  }
}
