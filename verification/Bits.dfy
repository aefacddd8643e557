/** Bitwise arithmetic on natural numbers, and the two ways of reading a byte string as
    a string of bits. */
module Bits {
  import opened Wire

  function Bit(a: nat, k: nat): bool {
    if k == 0 then a % 2 == 1 else Bit(a / 2, k - 1)
  }

  function Or(a: nat, b: nat): nat {
    if a == 0 then b else if b == 0 then a else
    (if a % 2 == 1 || b % 2 == 1 then 1 else 0) + 2 * Or(a / 2, b / 2)
  }

  function Shr(a: nat, j: nat): nat
    decreases j
  {
    if j == 0 then a else Shr(a / 2, j - 1)
  }

  function Shl(a: nat, j: nat): nat
    decreases j
  {
    if j == 0 then a else Shl(2 * a, j - 1)
  }

  function Pow2(w: nat): nat {
    if w == 0 then 1 else 2 * Pow2(w - 1)
  }

  /** The low `w` bits. */
  function Low(a: nat, w: nat): (r: nat)
    ensures r < Pow2(w)
  {
    if w == 0 then 0 else a % 2 + 2 * Low(a / 2, w - 1)
  }

  function Byte(a: nat): byte {
    assert Pow2(8) == 256;
    Low(a, 8)
  }

  lemma {:induction false} BitZero(k: nat)
    ensures !Bit(0, k)
  {
    if k > 0 {
      BitZero(k - 1);
    }
  }

  lemma {:induction false} BitOr(a: nat, b: nat, k: nat)
    ensures Bit(Or(a, b), k) == (Bit(a, k) || Bit(b, k))
  {
    if a == 0 || b == 0 {
      BitZero(k);
    } else if k > 0 {
      BitOr(a / 2, b / 2, k - 1);
    }
  }

  lemma {:induction false} BitShr(a: nat, j: nat, k: nat)
    ensures Bit(Shr(a, j), k) == Bit(a, k + j)
    decreases j
  {
    if j > 0 {
      BitShr(a / 2, j - 1, k);
    }
  }

  lemma {:induction false} BitShl(a: nat, j: nat, k: nat)
    ensures Bit(Shl(a, j), k) == (k >= j && Bit(a, k - j))
    decreases j
  {
    if j > 0 {
      BitShl(2 * a, j - 1, k);
      if k >= j {
        assert Bit(2 * a, k - j + 1) == Bit(a, k - j);
      }
    }
  }

  lemma {:induction false} BitLow(a: nat, w: nat, k: nat)
    ensures Bit(Low(a, w), k) == (k < w && Bit(a, k))
  {
    if w == 0 {
      BitZero(k);
    } else if k > 0 {
      BitLow(a / 2, w - 1, k - 1);
    }
  }

  lemma {:induction false} BitHigh(a: nat, w: nat, k: nat)
    requires a < Pow2(w) && k >= w
    ensures !Bit(a, k)
  {
    if w == 0 {
      BitZero(k);
    } else {
      BitHigh(a / 2, w - 1, k - 1);
    }
  }

  /** Numbers below 2^w are determined by their low w bits. */
  lemma {:induction false} BitsDetermine(a: nat, b: nat, w: nat)
    requires a < Pow2(w) && b < Pow2(w)
    requires forall k :: 0 <= k < w ==> Bit(a, k) == Bit(b, k)
    ensures a == b
  {
    if w > 0 {
      forall k | 0 <= k < w - 1 ensures Bit(a / 2, k) == Bit(b / 2, k) {
        assert Bit(a, k + 1) == Bit(b, k + 1);
      }
      BitsDetermine(a / 2, b / 2, w - 1);
      assert Bit(a, 0) == Bit(b, 0);
    }
  }

  lemma ByteHigh(a: byte, k: nat)
    requires k >= 8
    ensures !Bit(a, k)
  {
    assert Pow2(8) == 256;
    BitHigh(a, 8, k);
  }

  // ------------------------------------------------------ byte strings as bits

  /** Bit `m`, least significant bit of each byte first; zero past the end. */
  function BitLE(s: bytes, m: nat): bool {
    m / 8 < |s| && Bit(s[m / 8], m % 8)
  }

  lemma SameBitsLE(a: bytes, b: bytes)
    requires |a| == |b|
    requires forall m :: 0 <= m < 8 * |a| ==> BitLE(a, m) == BitLE(b, m)
    ensures a == b
  {
    assert Pow2(8) == 256;
    forall i | 0 <= i < |a| ensures a[i] == b[i] {
      forall k | 0 <= k < 8 ensures Bit(a[i], k) == Bit(b[i], k) {
        var m := 8 * i + k;
        assert m / 8 == i && m % 8 == k;
        assert BitLE(a, m) == BitLE(b, m);
      }
      BitsDetermine(a[i], b[i], 8);
    }
  }
}
