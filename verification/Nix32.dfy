/** The store's base-32 encoding: digits of five bits, least significant last, over an
    alphabet without e, o, u and t. */
module Nix32 {
  import opened Results
  import opened Wire
  import opened Bits

  const ALPHABET: string := "0123456789abcdfghijklmnpqrsvwxyz"

  // --------------------------------------------------------------- characters

  function Lookup(c: char, from: nat): (d: Option<nat>)
    requires from <= |ALPHABET|
    ensures d.Some? ==> from <= d.value < |ALPHABET| && ALPHABET[d.value] == c
    ensures d.None? ==> forall i :: from <= i < |ALPHABET| ==> ALPHABET[i] != c
    decreases |ALPHABET| - from
  {
    if from == |ALPHABET| then None
    else if ALPHABET[from] == c then Some(from)
    else Lookup(c, from + 1)
  }

  function LookupReverse(c: char): (d: Option<nat>)
    ensures d.Some? ==> d.value < 32
  {
    Lookup(c, 0)
  }

  /** The symbols stand in increasing order, so no two are equal. */
  lemma SymbolsIncrease(i: nat, j: nat)
    requires i < j < 32
    ensures |ALPHABET| == 32 && ALPHABET[i] < ALPHABET[j]
  {
  }

  /** A symbol is looked up as the digit it stands for. */
  lemma LookupSymbol(d: nat)
    requires d < 32
    ensures |ALPHABET| == 32 && LookupReverse(ALPHABET[d]) == Some(d)
  {
    assert |ALPHABET| == 32;
    var e := LookupReverse(ALPHABET[d]).value;
    if e < d {
      SymbolsIncrease(e, d);
    } else if d < e {
      SymbolsIncrease(d, e);
    }
  }

  // ----------------------------------------------------------------- encoding

  function EncodedLength(n: nat): nat {
    if n == 0 then 0 else (n * 8 - 1) / 5 + 1
  }

  /** The five bits of `bs` from bit 5n on. */
  function Digit(bs: bytes, n: nat): (d: nat)
    requires 5 * n < 8 * |bs|
    ensures d < 32
  {
    var i, j := 5 * n / 8, 5 * n % 8;
    var c := Or(Shr(bs[i], j), if i >= |bs| - 1 then 0 else Byte(Shl(bs[i + 1], 8 - j)));
    assert Pow2(5) == 32;
    Low(c, 5)
  }

  lemma DigitBits(bs: bytes, n: nat, k: nat)
    requires 5 * n < 8 * |bs| && k < 5
    ensures Bit(Digit(bs, n), k) == BitLE(bs, 5 * n + k)
  {
    var i, j := 5 * n / 8, 5 * n % 8;
    var hi := if i >= |bs| - 1 then 0 else Byte(Shl(bs[i + 1], 8 - j));
    BitLow(Or(Shr(bs[i], j), hi), 5, k);
    BitOr(Shr(bs[i], j), hi, k);
    BitShr(bs[i], j, k);
    BitZero(k);
    if i < |bs| - 1 {
      BitLow(Shl(bs[i + 1], 8 - j), 8, k);
      BitShl(bs[i + 1], 8 - j, k);
    }
    var m := 5 * n + k;
    if j + k < 8 {
      assert m / 8 == i && m % 8 == j + k;
    } else {
      assert m / 8 == i + 1 && m % 8 == j + k - 8;
      ByteHigh(bs[i], j + k);
    }
  }

  function Encoded(bs: bytes): (s: string)
    ensures |s| == EncodedLength(|bs|)
  {
    var len := EncodedLength(|bs|);
    seq(len, p requires 0 <= p < len => ALPHABET[Digit(bs, len - 1 - p)])
  }

  method Encode(bs: bytes) returns (s: string)
    ensures s == Encoded(bs)
  {
    if |bs| == 0 {
      return "";
    }
    var len := EncodedLength(|bs|);
    s := "";
    var n: int := len - 1;
    while n >= 0
      invariant -1 <= n < len && |s| == len - 1 - n
      invariant forall p :: 0 <= p < |s| ==> s[p] == Encoded(bs)[p]
    {
      s := s + [ALPHABET[Digit(bs, n)]];
      n := n - 1;
    }
  }

  // ----------------------------------------------------------------- decoding

  /** std::string::resize: cut off, or extended with zeros. */
  function Resize(res: bytes, n: nat): (r: bytes)
    ensures |r| == n
  {
    if n <= |res| then res[..n] else res + Zeros(n - |res|)
  }

  /** Or-ing digit number `n` into the bytes decoded so far. */
  function DecodeStep(res: bytes, n: nat, digit: nat): bytes {
    var i, j := 5 * n / 8, 5 * n % 8;
    var r1 := Resize(res, i + 1);
    var r2 := r1[i := Byte(Or(r1[i], Shl(digit, j)))];
    var over := Shr(digit, 8 - j);
    if over == 0 then r2 else
    var r3 := Resize(r2, i + 2);
    r3[i + 1 := Byte(Or(r3[i + 1], over))]
  }

  /** The bytes after the last `n` characters, or None at a character outside the
      alphabet. */
  function Decoded(s: string, n: nat): Option<bytes>
    requires n <= |s|
  {
    if n == 0 then Some([]) else
    match (Decoded(s, n - 1), LookupReverse(FromEnd(s, n - 1)))
    case (Some(res), Some(digit)) => Some(DecodeStep(res, n - 1, digit))
    case _ => None
  }

  function FromEnd(s: string, q: nat): char
    requires q < |s|
  {
    s[|s| - q - 1]
  }

  method Decode(s: string) returns (r: Option<bytes>)
    ensures r == Decoded(s, |s|)
  {
    hide LookupReverse, DecodeStep;
    var res: bytes := [];
    for n := 0 to |s|
      invariant Decoded(s, n) == Some(res)
    {
      var digit := LookupReverse(FromEnd(s, n));
      if digit.None? {
        StaysUndecoded(s, n + 1, |s|);
        return None;
      }
      res := DecodeStep(res, n, digit.value);
    }
    return Some(res);
  }

  lemma {:induction false} StaysUndecoded(s: string, n: nat, m: nat)
    requires n <= m <= |s| && Decoded(s, n).None?
    ensures Decoded(s, m).None?
  {
    hide DecodeStep, LookupReverse, FromEnd;
    if n < m {
      StaysUndecoded(s, n, m - 1);
    }
  }

  function DigitAt(s: string, q: nat): (d: nat)
    requires q < |s|
    ensures d < 32
  {
    var d := LookupReverse(FromEnd(s, q));
    if d.Some? then d.value else 0
  }

  lemma DigitHigh(d: nat, k: nat)
    requires d < 32 && k >= 5
    ensures !Bit(d, k)
  {
    assert Pow2(5) == 32;
    BitHigh(d, 5, k);
  }

  lemma ResizeBits(res: bytes, n: nat, m: nat)
    requires |res| <= n
    ensures BitLE(Resize(res, n), m) == BitLE(res, m)
  {
    BitZero(m % 8);
  }

  lemma SetByteBits(res: bytes, i: nat, extra: nat, m: nat)
    requires i < |res|
    ensures BitLE(res[i := Byte(Or(res[i], extra))], m) == (BitLE(res, m) || (m / 8 == i && Bit(extra, m % 8)))
  {
    BitLow(Or(res[i], extra), 8, m % 8);
    BitOr(res[i], extra, m % 8);
  }

  /** One step adds exactly the digit's bits at position 5n, and as long as no more
      than the current byte exists yet, it cuts nothing off. */
  lemma StepBits(res: bytes, n: nat, digit: nat, m: nat)
    requires digit < 32 && |res| <= 5 * n / 8 + 1
    ensures BitLE(DecodeStep(res, n, digit), m) == (BitLE(res, m) || (5 * n <= m && Bit(digit, m - 5 * n)))
  {
    hide BitLE, Bit, Or, Shl, Shr, Resize, Low;
    var i, j := 5 * n / 8, 5 * n % 8;
    var r1 := Resize(res, i + 1);
    var r2 := r1[i := Byte(Or(r1[i], Shl(digit, j)))];
    var over := Shr(digit, 8 - j);
    ResizeBits(res, i + 1, m);
    SetByteBits(r1, i, Shl(digit, j), m);
    BitShl(digit, j, m % 8);
    BitShr(digit, 8 - j, m % 8);
    BitZero(m % 8);
    if over != 0 {
      ResizeBits(r2, i + 2, m);
      SetByteBits(Resize(r2, i + 2), i + 1, over, m);
    }
    if 5 * n <= m {
      if m / 8 == i {
        assert m % 8 - j == m - 5 * n;
      } else if m / 8 == i + 1 {
        assert m % 8 + (8 - j) == m - 5 * n;
      } else {
        DigitHigh(digit, m - 5 * n);
      }
    }
  }

  /** A digit only spills into a second byte when it starts past bit 3 of the first. */
  lemma SpillNeedsRoom(digit: nat, j: nat)
    requires digit < 32 && j < 8 && Shr(digit, 8 - j) != 0
    ensures j >= 4
  {
    if j < 4 {
      forall k | 0 <= k < 5 ensures Bit(Shr(digit, 8 - j), k) == Bit(0, k) {
        BitShr(digit, 8 - j, k);
        DigitHigh(digit, k + 8 - j);
        BitZero(k);
      }
      ShrSmaller(digit, 8 - j);
      assert Pow2(5) == 32;
      BitsDetermine(Shr(digit, 8 - j), 0, 5);
    }
  }

  lemma {:induction false} ShrSmaller(a: nat, j: nat)
    ensures Shr(a, j) <= a
    decreases j
  {
    if j > 0 {
      ShrSmaller(a / 2, j - 1);
    }
  }

  lemma StepLength(res: bytes, n: nat, digit: nat)
    requires digit < 32
    ensures |DecodeStep(res, n, digit)| == 5 * n / 8 + (if Shr(digit, 8 - 5 * n % 8) == 0 then 1 else 2)
    ensures |DecodeStep(res, n, digit)| <= 5 * (n + 1) / 8 + 1
  {
    if Shr(digit, 8 - 5 * n % 8) != 0 {
      SpillNeedsRoom(digit, 5 * n % 8);
    }
  }

  /** Bit `m` of what `n` digits decode to. */
  predicate BitOfDigits(s: string, n: nat, m: nat)
    requires n <= |s|
  {
    m < 5 * n && Bit(DigitAt(s, m / 5), m % 5)
  }

  /** What decoding produces, bit by bit, and how long it is. In particular the
      resize at the start of every step never cuts off a byte already written. */
  lemma {:induction false} DecodedBits(s: string, n: nat)
    requires n <= |s| && Decoded(s, n).Some?
    ensures |Decoded(s, n).value| <= 5 * n / 8 + 1
    ensures forall q :: 0 <= q < n ==> LookupReverse(FromEnd(s, q)).Some?
    ensures forall m: nat :: BitLE(Decoded(s, n).value, m) <==> BitOfDigits(s, n, m)
    ensures |Decoded(s, n).value| == if n == 0 then 0 else
              5 * (n - 1) / 8 + (if Shr(DigitAt(s, n - 1), 8 - 5 * (n - 1) % 8) == 0 then 1 else 2)
  {
    hide DecodeStep, LookupReverse, BitLE;
    if n == 0 {
      NoBits();
    } else {
      DecodedBits(s, n - 1);
      var prev, digit := Decoded(s, n - 1).value, DigitAt(s, n - 1);
      StepLength(prev, n - 1, digit);
      forall m: nat ensures BitLE(DecodeStep(prev, n - 1, digit), m) <==> BitOfDigits(s, n, m) {
        StepBits(prev, n - 1, digit, m);
        assert BitLE(prev, m) <==> BitOfDigits(s, n - 1, m);
        if m >= 5 * n {
          DigitHigh(digit, m - 5 * (n - 1));
        } else if m >= 5 * (n - 1) {
          assert m / 5 == n - 1 && m % 5 == m - 5 * (n - 1);
        }
      }
    }
  }

  lemma NoBits()
    ensures forall m: nat :: !BitLE([], m)
  {
  }

  // --------------------------------------------------------------- round trips

  lemma EncodedDigit(bs: bytes, q: nat)
    requires q < EncodedLength(|bs|)
    ensures LookupReverse(FromEnd(Encoded(bs), q)) == Some(Digit(bs, q))
  {
    LookupSymbol(Digit(bs, q));
  }

  lemma {:induction false} EncodedDecodes(bs: bytes, n: nat)
    requires n <= |Encoded(bs)|
    ensures Decoded(Encoded(bs), n).Some?
  {
    hide DecodeStep, LookupReverse, Digit, Encoded;
    if n > 0 {
      EncodedDecodes(bs, n - 1);
      EncodedDigit(bs, n - 1);
    }
  }

  /** Decoding undoes encoding, for byte strings of every length. */
  lemma RoundTrip(bs: bytes)
    ensures Decoded(Encoded(bs), |Encoded(bs)|) == Some(bs)
  {
    hide DecodeStep, LookupReverse, Digit, Encoded, Decoded, BitLE;
    var s := Encoded(bs);
    var len := |s|;
    if bs == [] {
      EmptyEncoding();
    } else {
      EncodedDecodes(bs, len);
      DecodedBits(s, len);
      var res := Decoded(s, len).value;
      EncodedDigit(bs, 0);
      EncodedDigit(bs, len - 1);
      NoSpill(bs, len);
      forall m | 0 <= m < 8 * |bs| ensures BitLE(res, m) == BitLE(bs, m) {
        assert BitLE(res, m) <==> BitOfDigits(s, len, m);
        EncodedDigit(bs, m / 5);
        DigitBits(bs, m / 5, m % 5);
      }
      SameBitsLE(res, bs);
    }
  }

  lemma EmptyEncoding()
    ensures Encoded([]) == [] && Decoded([], 0) == Some([])
  {
  }

  /** The first character of an encoding carries only the bits there are. */
  lemma NoSpill(bs: bytes, len: nat)
    requires bs != [] && len == EncodedLength(|bs|)
    ensures 5 * (len - 1) / 8 == |bs| - 1
    ensures Shr(Digit(bs, len - 1), 8 - 5 * (len - 1) % 8) == 0
  {
    var d, j := Digit(bs, len - 1), 5 * (len - 1) % 8;
    forall k | 0 <= k < 5 ensures Bit(Shr(d, 8 - j), k) == Bit(0, k) {
      BitShr(d, 8 - j, k);
      BitZero(k);
      if k + 8 - j < 5 {
        DigitBits(bs, len - 1, k + 8 - j);
        assert 5 * (len - 1) + (k + 8 - j) >= 8 * |bs|;
      } else {
        DigitHigh(d, k + 8 - j);
      }
    }
    ShrSmaller(d, 8 - j);
    assert Pow2(5) == 32;
    BitsDetermine(Shr(d, 8 - j), 0, 5);
  }

  /** Strings of equal length that decode to equal bytes are equal: apart from
      characters outside the alphabet, nothing is read two ways. */
  lemma DecodeIsInjective(s: string, t: string)
    requires |s| == |t|
    requires Decoded(s, |s|).Some? && Decoded(s, |s|) == Decoded(t, |t|)
    ensures s == t
  {
    hide Decoded, BitLE, LookupReverse, DigitAt;
    DecodedBits(s, |s|);
    DecodedBits(t, |t|);
    var res := Decoded(s, |s|).value;
    forall p | 0 <= p < |s| ensures s[p] == t[p] {
      var q := |s| - 1 - p;
      forall k | 0 <= k < 5 ensures Bit(DigitAt(s, q), k) == Bit(DigitAt(t, q), k) {
        var m := 5 * q + k;
        assert m / 5 == q && m % 5 == k;
        assert BitLE(res, m) <==> BitOfDigits(s, |s|, m);
        assert BitLE(res, m) <==> BitOfDigits(t, |t|, m);
      }
      SameDigitSameSymbol(s, t, q);
    }
  }

  lemma SameDigitSameSymbol(s: string, t: string, q: nat)
    requires q < |s| == |t|
    requires LookupReverse(FromEnd(s, q)).Some? && LookupReverse(FromEnd(t, q)).Some?
    requires forall k :: 0 <= k < 5 ==> Bit(DigitAt(s, q), k) == Bit(DigitAt(t, q), k)
    ensures FromEnd(s, q) == FromEnd(t, q)
  {
    assert Pow2(5) == 32;
    BitsDetermine(DigitAt(s, q), DigitAt(t, q), 5);
  }
}
