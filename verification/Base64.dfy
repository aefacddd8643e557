/** Base64 with padding, as in section 4 of RFC 4648; decoding stops at the first '='
    and passes over line feeds. */
module Base64 {
  import opened Results
  import opened Wire
  import opened Bits

  // --------------------------------------------------------------- characters

  const UPPER: string := "ABCDEFGHIJKLMNOPQRSTUVWXYZ"
  const LOWER: string := "abcdefghijklmnopqrstuvwxyz"
  const OTHER: string := "0123456789+/"

  /** The table of characters, in three pieces. */
  function Symbol(d: nat): char
    requires d < 64
  {
    if d < 26 then UPPER[d] else if d < 52 then LOWER[d - 26] else OTHER[d - 52]
  }

  function DigitOf(c: char): (d: Option<nat>)
    ensures d.Some? ==> d.value < 64
  {
    if 'A' <= c <= 'Z' then Some(c as nat - 'A' as nat)
    else if 'a' <= c <= 'z' then Some(c as nat - 'a' as nat + 26)
    else if '0' <= c <= '9' then Some(c as nat - '0' as nat + 52)
    else if c == '+' then Some(62)
    else if c == '/' then Some(63)
    else None
  }

  lemma DigitOfSymbol(d: nat)
    requires d < 64
    ensures DigitOf(Symbol(d)) == Some(d)
  {
    if d < 26 {
      UpperAt(d);
    } else if d < 52 {
      LowerAt(d - 26);
    }
  }

  lemma UpperAt(d: nat)
    requires d < 26
    ensures UPPER[d] as nat == 'A' as nat + d
  {
  }

  lemma LowerAt(d: nat)
    requires d < 26
    ensures LOWER[d] as nat == 'a' as nat + d
  {
  }

  // ------------------------------------------------- regrouping bits, reference

  /** A string of `width`-bit digits as a string of bits, the most significant bit of
      each digit first; zero past the end. */
  function BitOf(ds: seq<nat>, width: nat, m: nat): bool
    requires width > 0
  {
    m / width < |ds| && Bit(ds[m / width], width - 1 - m % width)
  }

  /** The number made of the `w` bits from position `from` on. */
  function Gather(ds: seq<nat>, width: nat, from: nat, w: nat): (r: nat)
    requires width > 0
    ensures r < Pow2(w)
  {
    if w == 0 then 0 else
    2 * Gather(ds, width, from, w - 1) + (if BitOf(ds, width, from + w - 1) then 1 else 0)
  }

  lemma {:induction false} GatherBits(ds: seq<nat>, width: nat, from: nat, w: nat, k: nat)
    requires width > 0 && k < w
    ensures Bit(Gather(ds, width, from, w), k) == BitOf(ds, width, from + w - 1 - k)
  {
    if k > 0 {
      GatherBits(ds, width, from, w - 1, k - 1);
      assert Gather(ds, width, from, w) / 2 == Gather(ds, width, from, w - 1);
    }
  }

  /** A number below 2^w with the right bits is the gathered one. */
  lemma IsGather(ds: seq<nat>, width: nat, from: nat, w: nat, x: nat)
    requires width > 0 && x < Pow2(w)
    requires forall k :: 0 <= k < w ==> Bit(x, k) == BitOf(ds, width, from + w - 1 - k)
    ensures x == Gather(ds, width, from, w)
  {
    forall k | 0 <= k < w ensures Bit(x, k) == Bit(Gather(ds, width, from, w), k) {
      GatherBits(ds, width, from, w, k);
    }
    BitsDetermine(x, Gather(ds, width, from, w), w);
  }

  // ----------------------------------------------------------------- encoding

  /** How many characters other than padding. */
  function DigitCount(n: nat): nat {
    (8 * n + 5) / 6
  }

  function Sextet(bs: bytes, p: nat): (d: nat)
    ensures d < 64
  {
    assert Pow2(6) == 64;
    Gather(bs, 8, 6 * p, 6)
  }

  /** Each character stands for the next six bits, zeros filling up the last group,
      and '=' fills the length up to a multiple of 4. */
  function Encoded(bs: bytes): (s: string)
    ensures |s| == (|bs| + 2) / 3 * 4
  {
    seq((|bs| + 2) / 3 * 4, p requires 0 <= p => if p < DigitCount(|bs|) then Symbol(Sextet(bs, p)) else '=')
  }

  /** The accumulator holds, in its low bits, the `nbits` bits before position `upto`. */
  predicate Holds(ds: seq<nat>, width: nat, data: nat, nbits: nat, upto: nat)
    requires width > 0
  {
    nbits <= upto && forall k :: 0 <= k < nbits ==> Bit(data, k) == BitOf(ds, width, upto - 1 - k)
  }

  /** Taking in one digit: `data << w | digit` in 32 bits. */
  lemma TakeIn(ds: seq<nat>, w: nat, data: nat, nbits: nat, i: nat)
    requires (w == 6 || w == 8) && nbits + w <= 32 && i < |ds| && ds[i] < Pow2(w)
    requires Holds(ds, w, data, nbits, w * i)
    ensures Holds(ds, w, Low(Or(Shl(data, w), ds[i]), 32), nbits + w, w * (i + 1))
  {
    hide Bit, Low, Or, Shl;
    var upto := w * (i + 1);
    assert upto == w * i + w;
    forall k | 0 <= k < nbits + w
      ensures Bit(Low(Or(Shl(data, w), ds[i]), 32), k) == BitOf(ds, w, upto - 1 - k)
    {
      BitLow(Or(Shl(data, w), ds[i]), 32, k);
      BitOr(Shl(data, w), ds[i], k);
      BitShl(data, w, k);
      if k < w {
        DivMod(w, i, w - 1 - k);
      } else {
        BitHigh(ds[i], w, k);
        assert upto - 1 - k == w * i - 1 - (k - w);
      }
    }
  }

  lemma DivMod(w: nat, i: nat, r: nat)
    requires (w == 6 || w == 8) && r < w
    ensures (w * i + r) / w == i && (w * i + r) % w == r
  {
  }

  /** Giving out the oldest `v` bits: `data >> (nbits - v)` cut to v bits. */
  lemma GiveOut(ds: seq<nat>, w: nat, data: nat, nbits: nat, upto: nat, v: nat)
    requires w > 0 && v <= nbits && Holds(ds, w, data, nbits, upto)
    ensures Low(Shr(data, nbits - v), v) == Gather(ds, w, upto - nbits, v)
    ensures Holds(ds, w, data, nbits - v, upto)
  {
    hide Bit, Low, Shr, Gather, BitOf;
    var x := Low(Shr(data, nbits - v), v);
    forall k | 0 <= k < v ensures Bit(x, k) == BitOf(ds, w, upto - nbits + v - 1 - k) {
      BitLow(Shr(data, nbits - v), v, k);
      BitShr(data, nbits - v, k);
    }
    IsGather(ds, w, upto - nbits, v, x);
  }

  /** The last group: the bits left over, shifted up. */
  lemma GiveLast(ds: seq<nat>, w: nat, data: nat, nbits: nat, v: nat)
    requires (w == 6 || w == 8) && nbits <= v && Holds(ds, w, data, nbits, w * |ds|)
    ensures Low(Shl(data, v - nbits), v) == Gather(ds, w, w * |ds| - nbits, v)
  {
    hide Bit, Low, Shl, Gather;
    var x := Low(Shl(data, v - nbits), v);
    forall k | 0 <= k < v ensures Bit(x, k) == BitOf(ds, w, w * |ds| - nbits + v - 1 - k) {
      BitLow(Shl(data, v - nbits), v, k);
      BitShl(data, v - nbits, k);
      if k < v - nbits {
        PastEnd(w, |ds|, w * |ds| - nbits + v - 1 - k);
      } else {
        assert w * |ds| - nbits + v - 1 - k == w * |ds| - 1 - (k - (v - nbits));
      }
    }
    IsGather(ds, w, w * |ds| - nbits, v, x);
  }

  lemma PastEnd(w: nat, n: nat, m: nat)
    requires (w == 6 || w == 8) && m >= w * n
    ensures m / w >= n
  {
  }

  predicate Agrees(res: string, bs: bytes)
  {
    |res| <= |Encoded(bs)| && forall p :: 0 <= p < |res| ==> res[p] == Encoded(bs)[p]
  }

  lemma AgreesNext(res: string, bs: bytes, c: char)
    requires Agrees(res, bs) && |res| < |Encoded(bs)|
    requires c == if |res| < DigitCount(|bs|) then Symbol(Sextet(bs, |res|)) else '='
    ensures Agrees(res + [c], bs)
  {
  }

  lemma AgreesAll(res: string, bs: bytes)
    requires Agrees(res, bs) && DigitCount(|bs|) <= |res| && |res| % 4 == 0
    ensures res == Encoded(bs)
  {
    Lengths(|bs|);
    SameMultiple(|res|, |Encoded(bs)|);
    hide DigitCount, Encoded;
    assert forall p :: 0 <= p < |res| ==> res[p] == Encoded(bs)[p];
  }

  lemma SameMultiple(a: nat, b: nat)
    requires a % 4 == 0 && b % 4 == 0 && a <= b < a + 4
    ensures a == b
  {
  }

  lemma AgreesNothing(bs: bytes)
    ensures Agrees("", bs)
  {
  }

  /** How long the text is, the last group counted in full. */
  lemma Lengths(n: nat)
    ensures DigitCount(n) <= (n + 2) / 3 * 4 < DigitCount(n) + 4 && (n + 2) / 3 * 4 % 4 == 0
  {
  }

  method Encode(bs: bytes) returns (res: string)
    ensures res == Encoded(bs)
  {
    hide Holds, Sextet, Symbol, Low, Or, Shl, Shr, Bit, Gather, Agrees, Encoded;
    assert Pow2(8) == 256 && Pow2(6) == 64;
    Lengths(|bs|);
    res := "";
    var data: nat, nbits: nat := 0, 0;
    HoldsNothing(bs, 8, 0, 0);
    AgreesNothing(bs);
    for i := 0 to |bs|
      invariant nbits < 6 && data >= 0 && nbits >= 0 && 6 * |res| + nbits == 8 * i
      invariant Holds(bs, 8, data, nbits, 8 * i)
      invariant Agrees(res, bs)
    {
      TakeIn(bs, 8, data, nbits, i);
      data := Low(Or(Shl(data, 8), bs[i]), 32);
      nbits := nbits + 8;
      while nbits >= 6
        invariant 0 <= nbits < 14 && 6 * |res| + nbits == 8 * (i + 1)
        invariant Holds(bs, 8, data, nbits, 8 * (i + 1))
        invariant Agrees(res, bs)
      {
        GiveOut(bs, 8, data, nbits, 8 * (i + 1), 6);
        nbits := nbits - 6;
        SextetIs(bs, |res|);
        AgreesNext(res, bs, Symbol(Low(Shr(data, nbits), 6)));
        res := res + [Symbol(Low(Shr(data, nbits), 6))];
      }
    }
    if nbits != 0 {
      GiveLast(bs, 8, data, nbits, 6);
      SextetIs(bs, |res|);
      AgreesNext(res, bs, Symbol(Low(Shl(data, 6 - nbits), 6)));
      res := res + [Symbol(Low(Shl(data, 6 - nbits), 6))];
    }
    while |res| % 4 != 0
      invariant DigitCount(|bs|) <= |res| <= (|bs| + 2) / 3 * 4 && Agrees(res, bs)
      decreases (|bs| + 2) / 3 * 4 - |res|
    {
      AgreesNext(res, bs, '=');
      res := res + ['='];
    }
    AgreesAll(res, bs);
  }

  lemma SextetIs(bs: bytes, p: nat)
    ensures Sextet(bs, p) == Gather(bs, 8, 6 * p, 6) < 64
  {
    assert Pow2(6) == 64;
  }

  lemma HoldsNothing(ds: seq<nat>, w: nat, data: nat, upto: nat)
    requires w > 0
    ensures Holds(ds, w, data, 0, upto)
  {
  }

  // ----------------------------------------------------------------- decoding

  /** The digits a decoder sees: up to the first '=', without line feeds, or None
      when another character comes before that. */
  function Digits(s: string): (ds: Option<seq<nat>>)
    ensures ds.Some? ==> forall i :: 0 <= i < |ds.value| ==> ds.value[i] < 64
  {
    if s == "" || s[0] == '=' then Some([]) else
    if s[0] == '\n' then Digits(s[1..]) else
    match (DigitOf(s[0]), Digits(s[1..]))
    case (Some(d), Some(ds)) => Some([d] + ds)
    case _ => None
  }

  /** All whole bytes in the digits' bits. */
  function Packed(ds: seq<nat>): (r: bytes)
    ensures |r| == 6 * |ds| / 8
  {
    assert Pow2(8) == 256;
    seq(6 * |ds| / 8, i requires 0 <= i => Gather(ds, 6, 8 * i, 8))
  }

  function Decoded(s: string): Option<bytes> {
    match Digits(s)
    case Some(ds) => Some(Packed(ds))
    case None => None
  }

  method Decode(s: string) returns (r: Option<bytes>)
    ensures r == Decoded(s)
  {
    hide Holds, DigitOf, Low, Or, Shl, Shr, Bit, Gather, Packed;
    var res: bytes, d: nat, bits: nat := [], 0, 0;
    ghost var ds: seq<nat> := [];
    HoldsNothing(ds, 6, 0, 0);
    PackedEmpty();
    assert s[0..] == s;
    PrependNothing(Digits(s));
    for i := 0 to |s|
      invariant 0 <= bits < 8 && d >= 0 && 8 * |res| + bits == 6 * |ds|
      invariant Small(ds) && Holds(ds, 6, d, bits, 6 * |ds|)
      invariant res == Packed(ds)
      invariant Digits(s) == Prepend(ds, Digits(s[i..]))
    {
      if s[i] == '=' {
        assert ds + [] == ds;
        return Some(res);
      }
      assert s[i..][1..] == s[i + 1..];
      if s[i] == '\n' {
        continue;
      }
      var digit := DigitOf(s[i]);
      if digit.None? {
        return None;
      }
      ghost var more := ds + [digit.value];
      PrependOne(ds, digit.value, Digits(s[i + 1..]));
      Extend(ds, digit.value, d, bits);
      TakeIn(more, 6, d, bits, |ds|);
      PackedGrows(ds, digit.value);
      bits := bits + 6;
      d := Low(Or(Shl(d, 6), digit.value), 32);
      if bits >= 8 {
        GiveOut(more, 6, d, bits, 6 * |more|, 8);
        res := res + [Byte(Shr(d, bits - 8))];
        bits := bits - 8;
      }
      ds := more;
    }
    assert ds + [] == ds;
    return Some(res);
  }

  predicate Small(ds: seq<nat>) {
    forall i :: 0 <= i < |ds| ==> ds[i] < 64
  }

  function Prepend(ds: seq<nat>, rest: Option<seq<nat>>): Option<seq<nat>> {
    if rest.Some? then Some(ds + rest.value) else None
  }

  lemma PrependOne(ds: seq<nat>, d: nat, rest: Option<seq<nat>>)
    ensures Prepend(ds, Prepend([d], rest)) == Prepend(ds + [d], rest)
  {
    if rest.Some? {
      assert ds + ([d] + rest.value) == ds + [d] + rest.value;
    }
  }

  lemma PackedEmpty()
    ensures Packed([]) == []
  {
  }

  lemma PrependNothing(rest: Option<seq<nat>>)
    ensures Prepend([], rest) == rest
  {
    if rest.Some? {
      assert [] + rest.value == rest.value;
    }
  }

  /** Appending a digit keeps the bits there were. */
  lemma Extend(ds: seq<nat>, digit: nat, data: nat, nbits: nat)
    requires digit < 64 && Small(ds) && Holds(ds, 6, data, nbits, 6 * |ds|)
    ensures Small(ds + [digit]) && digit < Pow2(6)
    ensures Holds(ds + [digit], 6, data, nbits, 6 * |ds|)
  {
    assert Pow2(6) == 64;
  }

  lemma {:induction false} GatherExtend(ds: seq<nat>, digit: nat, from: nat, w: nat)
    requires from + w <= 6 * |ds|
    ensures Gather(ds + [digit], 6, from, w) == Gather(ds, 6, from, w)
  {
    if w > 0 {
      GatherExtend(ds, digit, from, w - 1);
    }
  }

  lemma PackedAt(ds: seq<nat>, i: nat)
    requires i < 6 * |ds| / 8
    ensures Packed(ds)[i] == Gather(ds, 6, 8 * i, 8)
  {
  }

  lemma LengthGrows(n: nat)
    ensures 6 * (n + 1) / 8 == 6 * n / 8 + (if 6 * n % 8 >= 2 then 1 else 0)
  {
  }

  lemma OneLonger(was: bytes, now: bytes)
    requires |was| <= |now| <= |was| + 1 && forall i :: 0 <= i < |was| ==> now[i] == was[i]
    ensures now == was + (if |now| == |was| then [] else [now[|was|]])
  {
  }

  lemma PackedGrows(ds: seq<nat>, digit: nat)
    ensures Packed(ds + [digit]) == Packed(ds) +
      (if 6 * |ds| % 8 >= 2 then [Gather(ds + [digit], 6, 8 * (6 * |ds| / 8), 8)] else [])
  {
    hide Gather, Packed, BitOf, Pow2;
    var more, n := ds + [digit], 6 * |ds| / 8;
    var was, now := Packed(ds), Packed(more);
    LengthGrows(|ds|);
    forall i | 0 <= i < |was| ensures now[i] == was[i] {
      PackedAt(ds, i);
      PackedAt(more, i);
      GatherExtend(ds, digit, 8 * i, 8);
    }
    OneLonger(was, now);
    if |now| == n + 1 {
      PackedAt(more, n);
    }
  }

  // --------------------------------------------------------------- round trips

  function Sextets(bs: bytes, p: nat): seq<nat>
    requires p <= DigitCount(|bs|)
  {
    seq<nat>(DigitCount(|bs|) - p, k requires 0 <= k => Sextet(bs, p + k))
  }

  lemma {:induction false} EncodedDigits(bs: bytes, p: nat)
    requires p <= DigitCount(|bs|)
    ensures Digits(Encoded(bs)[p..]) == Some(Sextets(bs, p))
    decreases DigitCount(|bs|) - p
  {
    hide Sextet, Symbol, DigitOf;
    var s := Encoded(bs);
    if p < DigitCount(|bs|) {
      EncodedDigits(bs, p + 1);
      DigitOfSymbol(Sextet(bs, p));
      SymbolIsDigit(Sextet(bs, p));
      assert s[p..][1..] == s[p + 1..];
      assert Sextets(bs, p) == [Sextet(bs, p)] + Sextets(bs, p + 1);
    } else {
      assert Sextets(bs, p) == [];
      assert s[p..] == "" || s[p..][0] == '=';
    }
  }

  lemma SymbolIsDigit(d: nat)
    requires d < 64
    ensures Symbol(d) != '=' && Symbol(d) != '\n'
  {
    DigitOfSymbol(d);
  }

  /** Decoding undoes encoding, for byte strings of every length. */
  lemma RoundTrip(bs: bytes)
    ensures Decoded(Encoded(bs)) == Some(bs)
  {
    hide Encoded, Digits, Gather, Bit, Sextet, Packed;
    EncodedDigits(bs, 0);
    assert Encoded(bs)[0..] == Encoded(bs);
    PackedSextets(bs, Sextets(bs, 0));
  }

  lemma PackedSextets(bs: bytes, ds: seq<nat>)
    requires |ds| == DigitCount(|bs|) && forall k :: 0 <= k < |ds| ==> ds[k] == Sextet(bs, k)
    ensures Packed(ds) == bs
  {
    assert Pow2(8) == 256;
    forall i | 0 <= i < |bs| ensures Packed(ds)[i] == bs[i] {
      forall k | 0 <= k < 8 ensures Bit(bs[i], k) == BitOf(ds, 6, 8 * i + 8 - 1 - k) {
        var m := 8 * i + 7 - k;
        SextetIs(bs, m / 6);
        GatherBits(bs, 8, 6 * (m / 6), 6, 5 - m % 6);
        assert 6 * (m / 6) + 6 - 1 - (5 - m % 6) == m;
        assert m / 8 == i && 7 - m % 8 == k;
      }
      IsGather(ds, 6, 8 * i, 8, bs[i]);
    }
  }

  // -------------------------------------------------- where decoding is not exact

  /** Equally many digits decode alike exactly if they agree on the bits of whole bytes:
      what the last digit carries beyond them is ignored. */
  lemma DecodesAlike(ds: seq<nat>, es: seq<nat>)
    requires |ds| == |es|
    ensures Packed(ds) == Packed(es) <==>
            forall m :: 0 <= m < 8 * (6 * |ds| / 8) ==> BitOf(ds, 6, m) == BitOf(es, 6, m)
  {
    hide Gather, Bit;
    if Packed(ds) == Packed(es) {
      forall m | 0 <= m < 8 * (6 * |ds| / 8) ensures BitOf(ds, 6, m) == BitOf(es, 6, m) {
        var i, k := m / 8, 7 - m % 8;
        assert Packed(ds)[i] == Packed(es)[i];
        GatherBits(ds, 6, 8 * i, 8, k);
        GatherBits(es, 6, 8 * i, 8, k);
        assert 8 * i + 8 - 1 - k == m;
      }
    } else if forall m :: 0 <= m < 8 * (6 * |ds| / 8) ==> BitOf(ds, 6, m) == BitOf(es, 6, m) {
      forall i | 0 <= i < |Packed(ds)| ensures Packed(ds)[i] == Packed(es)[i] {
        forall k | 0 <= k < 8 ensures Bit(Gather(ds, 6, 8 * i, 8), k) == BitOf(es, 6, 8 * i + 8 - 1 - k) {
          GatherBits(ds, 6, 8 * i, 8, k);
        }
        IsGather(es, 6, 8 * i, 8, Gather(ds, 6, 8 * i, 8));
      }
      assert false;
    }
  }

  /** So, unlike the base-32 form, two different strings can decode to the same bytes. */
  lemma DecodingIsNotInjective()
    ensures Decoded("AA") == Some([0]) && Decoded("AB") == Some([0])
  {
    hide Digits, Packed, Gather, Bit, Pow2;
    DigitsTwo('A', 'A', 0, 0);
    DigitsTwo('A', 'B', 0, 1);
    HighBits();
    forall m | 0 <= m < 8 ensures BitOf([0, 0], 6, m) == BitOf([0, 1], 6, m) {
      if m >= 6 {
        assert m / 6 == 1 && (5 - m % 6 == 5 || 5 - m % 6 == 4);
      }
    }
    DecodesAlike([0, 0], [0, 1]);
    PackedZeros();
  }

  lemma PackedZeros()
    ensures Packed([0, 0]) == [0]
  {
    hide Gather, Bit;
    forall k | 0 <= k < 8 ensures Bit(0, k) == BitOf([0, 0], 6, 0 + 8 - 1 - k) {
      BitZero(k);
      BitZero(5 - (7 - k) % 6);
    }
    IsGather([0, 0], 6, 0, 8, 0);
  }

  lemma HighBits()
    ensures !Bit(0, 4) && !Bit(0, 5) && !Bit(1, 4) && !Bit(1, 5)
  {
    BitZero(4);
    BitZero(5);
    BitZero(3);
  }

  lemma DigitsTwo(a: char, b: char, d: nat, e: nat)
    requires DigitOf(a) == Some(d) && DigitOf(b) == Some(e)
    ensures Digits([a, b]) == Some([d, e])
  {
    assert [a, b][1..] == [b] && [b][1..] == [];
    assert Digits([]) == Some([]);
    assert Digits([b]) == Some([e] + []) && [e] + [] == [e];
    assert Digits([a, b]) == Some([d] + [e]) && [d] + [e] == [d, e];
  }

  function Spelled(ds: seq<nat>): string
    requires Small(ds)
  {
    seq(|ds|, i requires 0 <= i < |ds| => Symbol(ds[i]))
  }

  lemma {:induction false} SpelledDigits(ds: seq<nat>, pad: string)
    requires Small(ds) && (pad == "" || pad[0] == '=')
    ensures Digits(Spelled(ds) + pad) == Some(ds)
  {
    hide Symbol, DigitOf;
    if ds != [] {
      var s := Spelled(ds) + pad;
      SpelledDigits(ds[1..], pad);
      DigitOfSymbol(ds[0]);
      SymbolIsDigit(ds[0]);
      assert s[1..] == Spelled(ds[1..]) + pad;
      assert [ds[0]] + ds[1..] == ds;
    }
  }

  lemma LastIsEven(bs: bytes)
    requires |bs| % 3 != 0
    ensures Sextet(bs, DigitCount(|bs|) - 1) % 2 == 0
  {
    var n := DigitCount(|bs|);
    SextetIs(bs, n - 1);
    GatherBits(bs, 8, 6 * (n - 1), 6, 0);
  }

  /** An even digit and the next differ in the last bit only. */
  lemma NextDigitBits(d: nat, k: nat)
    requires d % 2 == 0 && k > 0
    ensures Bit(d, k) == Bit(d + 1, k)
  {
  }

  /** Wherever the digits hold more bits than the bytes, there is a second text of the same
      length and alphabet that decodes to them. */
  lemma SecondText(bs: bytes) returns (t: string)
    requires |bs| % 3 != 0
    ensures |t| == |Encoded(bs)| && t != Encoded(bs) && Decoded(t) == Some(bs)
    ensures forall i :: 0 <= i < |t| ==> t[i] == '=' || DigitOf(t[i]).Some?
  {
    hide Gather, Bit, Symbol, DigitOf, Packed, Digits, BitOf, Sextet;
    var n := DigitCount(|bs|);
    var ds := Sextets(bs, 0);
    LastIsEven(bs);
    var es := ds[n - 1 := ds[n - 1] + 1];
    var pad := Encoded(bs)[n..];
    t := Spelled(es) + pad;
    SpelledDigits(es, pad);
    LastDigitIgnored(bs, ds, es);
    DecodesAlike(ds, es);
    PackedSextets(bs, ds);
    forall i | 0 <= i < n ensures DigitOf(t[i]) == Some(es[i]) {
      DigitOfSymbol(es[i]);
    }
    DigitOfSymbol(ds[n - 1]);
    assert Encoded(bs)[n - 1] == Symbol(ds[n - 1]) && t[n - 1] == Symbol(es[n - 1]);
  }

  lemma LastDigitIgnored(bs: bytes, ds: seq<nat>, es: seq<nat>)
    requires |bs| % 3 != 0 && |ds| == DigitCount(|bs|) && ds[|ds| - 1] % 2 == 0
    requires es == ds[|ds| - 1 := ds[|ds| - 1] + 1]
    ensures forall m :: 0 <= m < 8 * (6 * |ds| / 8) ==> BitOf(ds, 6, m) == BitOf(es, 6, m)
    ensures 6 * |ds| / 8 == |bs|
  {
    hide Bit;
    var n := |ds|;
    forall m | 0 <= m < 8 * (6 * n / 8) ensures BitOf(ds, 6, m) == BitOf(es, 6, m) {
      if m / 6 == n - 1 {
        assert 5 - m % 6 > 0;
        NextDigitBits(ds[n - 1], 5 - m % 6);
      }
    }
  }
}
