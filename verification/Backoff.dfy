/** The wait between git attempts: capped exponential, computed with a 64-bit shift. */
module Backoff {
  import opened Common
  import opened MachineInts

  const BASE: Time := 250 * MILLISECOND
  const CAP: Time := 2 * SECOND
  const TWO_31: int := 0x8000_0000

  function Pow2(n: nat): (p: nat)
    ensures p >= 1
  {
    if n == 0 then 1 else 2 * Pow2(n - 1)
  }

  /** Attempts are unsigned 64-bit numbers; 0 underflows to a shift that clears every bit. */
  function BackoffCeiling(attempt: uint64): Time
  {
    var ceiling := Signed64(BASE * Pow2((attempt - 1) % TWO_64));
    if ceiling <= 0 || ceiling > CAP then CAP else ceiling
  }

  lemma {:induction false} PowSum(a: nat, b: nat)
    ensures Pow2(a + b) == Pow2(a) * Pow2(b)
  {
    if a > 0 { PowSum(a - 1, b); }
  }

  lemma PowersOfTwo()
    ensures Pow2(3) == 8 && Pow2(24) == 0x100_0000 && Pow2(64) == TWO_64
  {
    assert Pow2(8) == 256;
    PowSum(8, 8);
    PowSum(16, 8);
    PowSum(16, 16);
    PowSum(32, 32);
  }

  /** Wrap-around keeps divisibility by a power of two. */
  lemma SignedKeepsMultiples(k: int)
    ensures exists j :: Signed64(k * TWO_31) == j * TWO_31
  {
    var x := k * TWO_31;
    var q := x / TWO_64;
    assert x % TWO_64 == (k - q * 0x2_0000_0000) * TWO_31;
    if x % TWO_64 < TWO_63 {
      assert Signed64(x) == (k - q * 0x2_0000_0000) * TWO_31;
    } else {
      assert Signed64(x) == (k - q * 0x2_0000_0000 - 0x2_0000_0000) * TWO_31;
    }
  }

  /** From the 24th doubling on, every value is a multiple of 2^31, wrapped or not. */
  lemma FarShift(s: nat)
    requires s >= 24
    ensures exists k :: BASE * Pow2(s) == k * TWO_31
    ensures BASE * Pow2(s) > CAP
  {
    PowSum(24, s - 24);
    PowersOfTwo();
    hide Pow2;
    var k := 1953125 * Pow2(s - 24);
    assert BASE * Pow2(s) == k * TWO_31;
  }

  lemma {:induction false} PowGrows(a: nat, b: nat)
    requires a <= b
    ensures Pow2(a) <= Pow2(b)
  {
    if a < b { PowGrows(a, b - 1); }
  }

  lemma NearPower(s: nat)
    requires s < 24
    ensures Pow2(s) <= 0x100_0000 && (s >= 3 ==> Pow2(s) >= 8)
  {
    PowGrows(s, 24);
    PowersOfTwo();
    if s >= 3 { PowGrows(3, s); }
  }

  lemma NearProduct(p: nat)
    requires p <= 0x100_0000
    ensures Signed64(BASE * p) == BASE * p
  {
    SignedFits(BASE * p);
  }

  /** Up to there the product still fits, and it passes the cap from the third doubling on. */
  lemma NearShift(s: nat)
    requires s < 24
    ensures Signed64(BASE * Pow2(s)) == BASE * Pow2(s)
    ensures s >= 3 ==> BASE * Pow2(s) >= CAP
  {
    NearPower(s);
    hide Pow2, Signed64;
    NearProduct(Pow2(s));
  }

  /** For every attempt number the ceiling is the capped doubling: no wrapped value slips past the guard. */
  lemma CeilingIsCappedDoubling(attempt: uint64)
    requires attempt >= 1
    ensures BackoffCeiling(attempt) == Min(BASE * Pow2(attempt - 1), CAP)
  {
    var s := attempt - 1;
    assert (attempt - 1) % TWO_64 == s;
    if s >= 24 {
      FarShift(s);
      var k :| BASE * Pow2(s) == k * TWO_31;
      SignedKeepsMultiples(k);
      hide Signed64, Pow2;
      var j :| Signed64(k * TWO_31) == j * TWO_31;
    } else {
      NearShift(s);
    }
  }

  lemma AttemptZeroWaitsTheCap()
    ensures BackoffCeiling(0) == CAP
  {
    PowSum(64, TWO_64 - 1 - 64);
    PowersOfTwo();
    hide Pow2;
    var rest := Pow2(TWO_64 - 1 - 64);
    assert BASE * Pow2(TWO_64 - 1) == (BASE * rest) * TWO_64;
    assert (BASE * rest) * TWO_64 % TWO_64 == 0;
  }

  lemma ThirtyNineDoublings()
    ensures Pow2(39) == 0x80_0000_0000
  {
    assert Pow2(7) == 128 && Pow2(8) == 256;
    PowSum(8, 8);
    PowSum(16, 16);
    PowSum(32, 7);
  }

  /** The product of attempt 40 has wrapped and is positive again: it is the cap that refuses it. */
  lemma WrappedAndPositive()
    ensures BASE * Pow2(39) > MAX_INT64 && Signed64(BASE * Pow2(39)) > CAP && BackoffCeiling(40) == CAP
  {
    ThirtyNineDoublings();
    hide Pow2;
    Quotient(BASE * Pow2(39), TWO_64, 7, 118117 * 0x4000_0000_0000);
  }
}
