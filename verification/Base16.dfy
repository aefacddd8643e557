/** Hexadecimal, as base16::encode and base16::decode have it. */
module Base16 {
  import opened Results
  import opened Wire
  import opened Bits

  const DIGITS: string := "0123456789abcdef"

  function HexDigit(c: char): (d: Option<nat>)
    ensures d.Some? ==> d.value < 16
  {
    if '0' <= c <= '9' then Some(c as nat - '0' as nat)
    else if 'A' <= c <= 'F' then Some(c as nat - 'A' as nat + 10)
    else if 'a' <= c <= 'f' then Some(c as nat - 'a' as nat + 10)
    else None
  }

  lemma HexDigitOfSymbol(d: nat)
    requires d < 16
    ensures |DIGITS| == 16 && HexDigit(DIGITS[d]) == Some(d)
  {
  }

  function Encoded(b: bytes): (s: string)
    ensures |s| == 2 * |b|
  {
    seq(2 * |b|, i requires 0 <= i < 2 * |b| => DIGITS[if i % 2 == 0 then b[i / 2] / 16 else b[i / 2] % 16])
  }

  method Encode(b: bytes) returns (s: string)
    ensures s == Encoded(b)
  {
    s := "";
    for i := 0 to |b|
      invariant |s| == 2 * i && forall k :: 0 <= k < 2 * i ==> s[k] == Encoded(b)[k]
    {
      s := s + [DIGITS[b[i] / 16]];
      s := s + [DIGITS[b[i] % 16]];
    }
  }

  /** The first `n` bytes of a decoded string, or None at a bad digit. */
  function Decoded(s: string, n: nat): (r: Option<bytes>)
    requires 2 * n <= |s|
    ensures r.Some? ==> |r.value| == n
  {
    if n == 0 then Some([]) else
    match (Decoded(s, n - 1), HexDigit(s[2 * n - 2]), HexDigit(s[2 * n - 1]))
    case (Some(res), Some(hi), Some(lo)) => Some(res + [16 * hi + lo])
    case _ => None
  }

  method Decode(s: string) returns (r: Option<bytes>)
    requires |s| % 2 == 0
    ensures r == Decoded(s, |s| / 2)
  {
    hide HexDigit;
    var res: bytes := [];
    for i := 0 to |s| / 2
      invariant Decoded(s, i) == Some(res)
    {
      var hi, lo := HexDigit(s[2 * i]), HexDigit(s[2 * i + 1]);
      if hi.None? || lo.None? {
        StaysUndecoded(s, i + 1, |s| / 2);
        return None;
      }
      res := res + [16 * hi.value + lo.value];
    }
    return Some(res);
  }

  lemma {:induction false} StaysUndecoded(s: string, n: nat, m: nat)
    requires n <= m && 2 * m <= |s| && Decoded(s, n).None?
    ensures Decoded(s, m).None?
  {
    if n < m {
      StaysUndecoded(s, n, m - 1);
    }
  }

  lemma EncodedByte(b: bytes, i: nat)
    requires i < |b|
    ensures HexDigit(Encoded(b)[2 * i]) == Some(b[i] / 16)
    ensures HexDigit(Encoded(b)[2 * i + 1]) == Some(b[i] % 16)
  {
    hide HexDigit;
    HexDigitOfSymbol(b[i] / 16);
    HexDigitOfSymbol(b[i] % 16);
  }

  lemma {:induction false} PrefixRoundTrip(b: bytes, n: nat)
    requires n <= |b|
    ensures Decoded(Encoded(b), n) == Some(b[..n])
  {
    hide HexDigit, Encoded;
    if n > 0 {
      PrefixRoundTrip(b, n - 1);
      EncodedByte(b, n - 1);
      assert b[..n] == b[..n - 1] + [b[n - 1]];
    }
  }

  /** Decoding undoes encoding, for byte strings of every length. */
  lemma RoundTrip(b: bytes)
    ensures Decoded(Encoded(b), |b|) == Some(b)
  {
    hide HexDigit, Encoded, Decoded;
    PrefixRoundTrip(b, |b|);
    assert b[..|b|] == b;
  }

  function LowerChar(c: char): char {
    if 'A' <= c <= 'F' then (c as nat + 32) as char else c
  }

  function Lower(s: string): (r: string)
    ensures |r| == |s|
  {
    seq(|s|, i requires 0 <= i < |s| => LowerChar(s[i]))
  }

  /** A character stands for a digit exactly if it is its symbol, in either case. */
  lemma HexDigitExactly(c: char, d: nat)
    requires d < 16
    ensures |DIGITS| == 16 && (HexDigit(c) == Some(d) <==> LowerChar(c) == DIGITS[d])
  {
    HexDigitOfSymbol(d);
    if HexDigit(c).Some? {
      HexDigitOfSymbol(HexDigit(c).value);
    }
  }

  lemma {:induction false} PrefixDecodesExactly(s: string, b: bytes, n: nat)
    requires |s| == 2 * |b| && n <= |b|
    ensures Decoded(s, n) == Some(b[..n]) <==> Lower(s)[..2 * n] == Encoded(b)[..2 * n]
  {
    hide HexDigit, LowerChar, Encoded, Lower;
    if n > 0 {
      PrefixDecodesExactly(s, b, n - 1);
      var (hi, lo) := (b[n - 1] / 16, b[n - 1] % 16);
      HexDigitExactly(s[2 * n - 2], hi);
      HexDigitExactly(s[2 * n - 1], lo);
      SymbolsOf(s, b, n - 1);
      assert b[..n] == b[..n - 1] + [b[n - 1]];
      LastTwo(Lower(s), n);
      LastTwo(Encoded(b), n);
      DecodedLast(s, b, n);
    }
  }

  lemma SymbolsOf(s: string, b: bytes, i: nat)
    requires |s| == 2 * |b| && i < |b|
    ensures |DIGITS| == 16
    ensures Encoded(b)[2 * i] == DIGITS[b[i] / 16] && Encoded(b)[2 * i + 1] == DIGITS[b[i] % 16]
    ensures Lower(s)[2 * i] == LowerChar(s[2 * i]) && Lower(s)[2 * i + 1] == LowerChar(s[2 * i + 1])
  {
  }

  lemma LastTwo(s: string, n: nat)
    requires 0 < n && 2 * n <= |s|
    ensures s[..2 * n] == s[..2 * n - 2] + [s[2 * n - 2], s[2 * n - 1]]
  {
  }

  lemma DecodedLast(s: string, b: bytes, n: nat)
    requires |s| == 2 * |b| && 0 < n <= |b|
    ensures Decoded(s, n) == Some(b[..n]) <==>
            Decoded(s, n - 1) == Some(b[..n - 1]) && HexDigit(s[2 * n - 2]) == Some(b[n - 1] / 16) &&
            HexDigit(s[2 * n - 1]) == Some(b[n - 1] % 16)
  {
    hide HexDigit;
    var (prev, hi, lo) := (Decoded(s, n - 1), HexDigit(s[2 * n - 2]), HexDigit(s[2 * n - 1]));
    assert b[..n] == b[..n - 1] + [b[n - 1]];
    if Decoded(s, n) == Some(b[..n]) {
      var res := prev.value + [16 * hi.value + lo.value];
      assert res[..n - 1] == prev.value && res[n - 1] == 16 * hi.value + lo.value;
      assert b[..n][..n - 1] == b[..n - 1] && b[..n][n - 1] == b[n - 1];
    }
  }

  /** A text decodes to a byte string exactly if it is that string's encoding, but for the
      case of its letters. */
  lemma DecodesExactly(s: string, b: bytes)
    requires |s| == 2 * |b|
    ensures Decoded(s, |b|) == Some(b) <==> Lower(s) == Encoded(b)
  {
    hide Decoded, Lower, Encoded;
    PrefixDecodesExactly(s, b, |b|);
    assert b[..|b|] == b && Lower(s)[..|s|] == Lower(s) && Encoded(b)[..|s|] == Encoded(b);
  }
}
