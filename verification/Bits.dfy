/** Shifts, masks and ors on natural numbers, by their bits. */
module Bits {

  function Shl(n: nat, k: nat): nat
    decreases k
  {
    if k == 0 then n else 2 * Shl(n, k - 1)
  }

  function Shr(n: nat, k: nat): nat
    decreases k
  {
    if k == 0 then n else Shr(n / 2, k - 1)
  }

  function And(a: nat, b: nat): nat
    decreases a
  {
    if a == 0 then 0 else 2 * And(a / 2, b / 2) + (if a % 2 == 1 && b % 2 == 1 then 1 else 0)
  }

  function Or(a: nat, b: nat): nat
    decreases a + b
  {
    if a == 0 && b == 0 then 0 else 2 * Or(a / 2, b / 2) + (if a % 2 == 1 || b % 2 == 1 then 1 else 0)
  }

  lemma {:induction false} AndZero(n: nat)
    ensures And(n, 0) == 0
  {
    if n != 0 { AndZero(n / 2); }
  }

  lemma {:induction false} OrZero(n: nat)
    ensures Or(n, 0) == n
  {
    if n != 0 { OrZero(n / 2); }
  }

  /** A number shifted up, with low bits below it, gives both back. */
  lemma {:induction false} Parts(q: nat, r: nat, k: nat)
    requires r < Shl(1, k)
    ensures Shr(Shl(q, k) + r, k) == q
    ensures And(Shl(q, k) + r, Shl(1, k) - 1) == r
    ensures Or(Shl(q, k), r) == Shl(q, k) + r
    decreases k
  {
    if k == 0 {
      AndZero(q);
      OrZero(q);
    } else {
      var n := Shl(q, k) + r;
      assert n / 2 == Shl(q, k - 1) + r / 2 && n % 2 == r % 2;
      assert Shl(q, k) / 2 == Shl(q, k - 1) && Shl(q, k) % 2 == 0;
      Parts(q, r / 2, k - 1);
      LowOnes(k);
    }
  }

  lemma LowOnes(k: nat)
    requires k > 0
    ensures (Shl(1, k) - 1) / 2 == Shl(1, k - 1) - 1 && (Shl(1, k) - 1) % 2 == 1
  {
    Positive(1, k - 1);
  }

  lemma {:induction false} Positive(n: nat, k: nat)
    requires n > 0
    ensures Shl(n, k) > 0
    decreases k
  {
    if k > 0 { Positive(n, k - 1); }
  }

  lemma {:induction false} ShlAdd(n: nat, j: nat, k: nat)
    ensures Shl(Shl(n, j), k) == Shl(n, j + k)
    decreases k
  {
    if k > 0 { ShlAdd(n, j, k - 1); }
  }

  lemma {:induction false} ShrAdd(n: nat, j: nat, k: nat)
    ensures Shr(Shr(n, j), k) == Shr(n, j + k)
    decreases j
  {
    if j > 0 { ShrAdd(n / 2, j - 1, k); }
  }

  lemma Shl8(n: nat)
    ensures Shl(n, 8) == 256 * n
  {
    assert Shl(n, 4) == 16 * n;
    assert Shl(n, 6) == 64 * n;
  }

  lemma Split8(q: nat, r: nat)
    requires r < 256
    ensures Shr(256 * q + r, 8) == q && And(256 * q + r, 0xFF) == r
  {
    Shl8(q);
    Shl8(1);
    Parts(q, r, 8);
  }

  /** On bytes: shifting down by eight divides by 256, the mask 0xFF is the remainder. */
  lemma ByteStep(n: nat)
    ensures Shr(n, 8) == n / 256 && And(n, 0xFF) == n % 256
  {
    Split8(n / 256, n % 256);
  }

  /** The bytes that shifts and masks take out of a number are its base-256 digits. */
  lemma TakeBytes(n: nat)
    ensures And(n, 0xFF) == n % 256
    ensures And(Shr(n, 8), 0xFF) == n / 0x100 % 256
    ensures And(Shr(n, 16), 0xFF) == n / 0x1_0000 % 256
    ensures And(Shr(n, 24), 0xFF) == n / 0x100_0000 % 256
  {
    ByteStep(n);
    ByteStep(n / 0x100);
    ByteStep(n / 0x1_0000);
    ByteStep(n / 0x100_0000);
    ShrAdd(n, 8, 8);
    ShrAdd(n, 16, 8);
    assert n / 0x1_0000 == n / 0x100 / 256 && n / 0x100_0000 == n / 0x1_0000 / 256;
  }

  /** The number that shifts and ors put together from bytes is their base-256 sum. */
  lemma PutBytes(a: nat, b: nat, c: nat, d: nat)
    requires a < 256 && b < 256 && c < 256 && d < 256
    ensures Or(Or(Or(Shl(a, 24), Shl(b, 16)), Shl(c, 8)), d) == a * 0x100_0000 + b * 0x1_0000 + c * 0x100 + d
    ensures Or(Or(Shl(b, 16), Shl(c, 8)), d) == b * 0x1_0000 + c * 0x100 + d
  {
    PutPair(a, b, 16);
    PutTriple(a * 256 + b, c, d);
    PutTriple(b, c, d);
  }

  lemma PutPair(a: nat, b: nat, k: nat)
    requires b < 256
    ensures Or(Shl(a, k + 8), Shl(b, k)) == Shl(a * 256 + b, k)
    decreases k
  {
    if k == 0 {
      Shl8(1);
      Shl8(a);
      Parts(a, b, 8);
    } else {
      PutPair(a, b, k - 1);
    }
  }

  lemma PutTriple(a: nat, b: nat, c: nat)
    requires b < 256 && c < 256
    ensures Or(Or(Shl(a, 16), Shl(b, 8)), c) == a * 0x1_0000 + b * 0x100 + c
  {
    PutPair(a, b, 8);
    Shl8(1);
    Shl8(a * 256 + b);
    Parts(a * 256 + b, c, 8);
  }
}
