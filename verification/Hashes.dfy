/** SHA-256 digests and their printed forms. */
module Hashes {
  import opened Results
  import opened Wire
  import Base16
  import Base64
  import Nix32

  /** A SHA-256 digest. The digest function itself is a parameter throughout: nothing
      depends on which it is. */
  type Hash = h: bytes | |h| == 32 witness Zeros(32)
  type Sha = bytes -> Hash

  datatype HashFormat = Nix32Format | Base16Format | SriFormat

  const ALGO_NAME: string := "sha256"

  /** What BadHash reports. */
  datatype BadHash = NoType | WrongAlgorithm | WrongLength | BadDigits

  // ----------------------------------------------------------------- printing

  function Digits(h: Hash, format: HashFormat): string {
    match format
    case Nix32Format => Nix32.Encoded(h)
    case Base16Format => Base16.Encoded(h)
    case SriFormat => Base64.Encoded(h)
  }

  function Prefix(format: HashFormat): string {
    ALGO_NAME + [if format.SriFormat? then '-' else ':']
  }

  function Text(h: Hash, format: HashFormat, includeAlgo: bool): string {
    (if format.SriFormat? || includeAlgo then Prefix(format) else "") + Digits(h, format)
  }

  method ToString(h: Hash, format: HashFormat, includeAlgo: bool) returns (s: string)
    ensures s == Text(h, format, includeAlgo)
  {
    hide Nix32.Encoded, Base16.Encoded, Base64.Encoded;
    s := "";
    if format.SriFormat? || includeAlgo {
      s := s + ALGO_NAME;
      s := s + [if format.SriFormat? then '-' else ':'];
    }
    var digits: string;
    match format {
      case Base16Format => digits := Base16.Encode(h);
      case Nix32Format => digits := Nix32.Encode(h);
      case SriFormat => digits := Base64.Encode(h);
    }
    s := s + digits;
  }

  // ------------------------------------------------------------------ parsing

  /** Where the first separator stands. */
  function Find(s: string, separator: char): (i: Option<nat>)
    ensures i.Some? ==> i.value < |s| && s[i.value] == separator && separator !in s[..i.value]
    ensures i.None? ==> separator !in s
  {
    if s == "" then None
    else if s[0] == separator then Some(0)
    else match Find(s[1..], separator)
      case Some(i) => Some(i + 1)
      case None => None
  }

  /** The prefix before the first separator and what follows it, or None and nothing
      split off. */
  function SplitPrefixTo(s: string, separator: char): Option<(string, string)> {
    match Find(s, separator)
    case Some(i) => Some((s[..i], s[i + 1..]))
    case None => None
  }

  function BaseFromSize(rest: string): Option<HashFormat> {
    if |rest| == 64 then Some(Base16Format)
    else if |rest| == 52 then Some(Nix32Format)
    else if |rest| == 44 then Some(SriFormat)
    else None
  }

  /** Undecodable digits leave the result empty, and then its length is wrong. */
  function ParseLowLevel(rest: string, format: HashFormat): Result<Hash, BadHash>
    requires format.Base16Format? ==> |rest| % 2 == 0
  {
    var d := match format
      case Base16Format => Base16.Decoded(rest, |rest| / 2)
      case Nix32Format => Nix32.Decoded(rest, |rest|)
      case SriFormat => Base64.Decoded(rest);
    if d.Some? && |d.value| == 32 then Success(d.value) else Failure(BadDigits)
  }

  function Parsed(original: string): Result<Hash, BadHash> {
    var colon := SplitPrefixTo(original, ':');
    var split := if colon.Some? then colon else SplitPrefixTo(original, '-');
    if split.None? then Failure(NoType) else
    var (algo, rest) := split.value;
    if algo != ALGO_NAME then Failure(WrongAlgorithm) else
    if colon.None? then ParseLowLevel(rest, SriFormat) else
    var base := BaseFromSize(rest);
    if base.None? then Failure(WrongLength) else ParseLowLevel(rest, base.value)
  }

  method ParseAnyPrefixed(original: string) returns (r: Result<Hash, BadHash>)
    ensures r == Parsed(original)
  {
    var isSri := false;
    var split := SplitPrefixTo(original, ':');
    if split.None? {
      split := SplitPrefixTo(original, '-');
      isSri := split.Some?;
    }
    if split.None? {
      return Failure(NoType);
    }
    var (algo, rest) := split.value;
    if algo != ALGO_NAME {
      return Failure(WrongAlgorithm);
    }
    var format := if isSri then Some(SriFormat) else BaseFromSize(rest);
    if format.None? {
      return Failure(WrongLength);
    }
    var d;
    match format.value {
      case Base16Format => d := Base16.Decode(rest);
      case Nix32Format => d := Nix32.Decode(rest);
      case SriFormat => d := Base64.Decode(rest);
    }
    var bytes := if d.Some? then d.value else [];
    if |bytes| != 32 {
      return Failure(BadDigits);
    }
    return Success(bytes);
  }

  // --------------------------------------------------------------- properties

  lemma {:induction false} FindFirst(s: string, i: nat)
    requires i < |s| && s[i] !in s[..i]
    ensures Find(s, s[i]) == Some(i)
  {
    if i > 0 {
      assert s[..i][0] == s[0];
      assert s[1..][..i - 1] == s[1..i];
      FindFirst(s[1..], i - 1);
    }
  }

  lemma SplitPrinted(digits: string, format: HashFormat)
    requires format.SriFormat? ==> ':' !in digits
    ensures var s := Prefix(format) + digits;
      if format.SriFormat?
      then SplitPrefixTo(s, ':') == None && SplitPrefixTo(s, '-') == Some((ALGO_NAME, digits))
      else SplitPrefixTo(s, ':') == Some((ALGO_NAME, digits))
  {
    var s := Prefix(format) + digits;
    assert s[..6] == ALGO_NAME && s[7..] == digits;
    FindFirst(s, 6);
  }

  /** The three encodings of a digest have three different lengths, and each is told
      from its own. */
  lemma LengthTellsBase(h: Hash, format: HashFormat)
    ensures BaseFromSize(Digits(h, format)) == Some(format)
  {
  }

  lemma DigitsDecode(h: Hash, format: HashFormat)
    ensures format.Base16Format? ==> |Digits(h, format)| % 2 == 0
    ensures ParseLowLevel(Digits(h, format), format) == Success(h)
  {
    hide Nix32.Encoded, Base16.Encoded, Base64.Encoded, Nix32.Decoded, Base16.Decoded, Base64.Decoded;
    match format
    case Nix32Format => Nix32.RoundTrip(h);
    case Base16Format => Base16.RoundTrip(h);
    case SriFormat => Base64.RoundTrip(h);
  }

  lemma NoColonInBase64(h: Hash)
    ensures ':' !in Base64.Encoded(h)
  {
    hide Base64.Sextet, Base64.Symbol;
    var s := Base64.Encoded(h);
    forall p | 0 <= p < |s| ensures s[p] != ':' {
      if p < Base64.DigitCount(32) {
        Base64.DigitOfSymbol(Base64.Sextet(h, p));
      }
    }
  }

  /** Every printed digest that names its algorithm parses back, in all three formats. */
  lemma PrintedParses(h: Hash, format: HashFormat)
    ensures Parsed(Text(h, format, true)) == Success(h)
  {
    hide ParseLowLevel, Digits, SplitPrefixTo, BaseFromSize;
    LengthTellsBase(h, format);
    DigitsDecode(h, format);
    if format.SriFormat? {
      NoColon(h);
    }
    SplitPrinted(Digits(h, format), format);
  }

  lemma NoColon(h: Hash)
    ensures ':' !in Digits(h, SriFormat)
  {
    NoColonInBase64(h);
  }

  /** A prefixed 52-character string parses to a digest exactly when it is that digest's
      printed form, so different ones never parse to the same digest. */
  lemma Nix32TextIsUnique(rest: string, h: Hash)
    requires |rest| == 52
    ensures Parsed(Prefix(Nix32Format) + rest) == Success(h) <==> Prefix(Nix32Format) + rest == Text(h, Nix32Format, true)
  {
    hide Nix32.Decoded, Nix32.Encoded, SplitPrefixTo;
    SplitPrinted(rest, Nix32Format);
    Nix32.RoundTrip(h);
    assert |Nix32.Encoded(h)| == 52;
    CancelPrefix(Prefix(Nix32Format), rest, Nix32.Encoded(h));
    if Parsed(Prefix(Nix32Format) + rest) == Success(h) {
      Nix32.DecodeIsInjective(rest, Nix32.Encoded(h));
    }
  }

  /** Not so in base 64: every digest has a second prefixed text of the same length that
      parses to it, because a 43-digit text holds two bits more than a digest. */
  lemma SriTextIsNotUnique(h: Hash) returns (rest: string)
    ensures |rest| == 44 && Prefix(SriFormat) + rest != Text(h, SriFormat, true)
    ensures Parsed(Prefix(SriFormat) + rest) == Success(h)
  {
    hide Base64.Decoded, Base64.Encoded, SplitPrefixTo, Base64.DigitOf;
    rest := Base64.SecondText(h);
    ColonIsNoDigit();
    SplitPrinted(rest, SriFormat);
    CancelPrefix(Prefix(SriFormat), rest, Base64.Encoded(h));
  }

  lemma ColonIsNoDigit()
    ensures Base64.DigitOf(':').None?
  {
  }

  lemma CancelPrefix(p: string, a: string, b: string)
    ensures p + a == p + b ==> a == b
  {
    assert (p + a)[|p|..] == a && (p + b)[|p|..] == b;
  }

  /** What follows "sha256:" is told by its length, what follows "sha256-" is base 64 of any
      length, and only where no colon comes first. */
  function Denoted(s: string): Option<Hash> {
    if |s| < 7 || s[..6] != ALGO_NAME then None else
    var rest := s[7..];
    if s[6] == ':' then
      if |rest| == 64 then OfSize(Base16.Decoded(rest, 32))
      else if |rest| == 52 then OfSize(Nix32.Decoded(rest, 52))
      else if |rest| == 44 then OfSize(Base64.Decoded(rest))
      else None
    else if s[6] == '-' && ':' !in rest then OfSize(Base64.Decoded(rest))
    else None
  }

  function OfSize(d: Option<bytes>): Option<Hash> {
    if d.Some? && |d.value| == 32 then Some(d.value) else None
  }

  /** Where the first separator is. */
  lemma {:induction false} FindExactly(s: string, c: char, i: nat)
    requires i < |s| && s[i] == c && c !in s[..i]
    ensures Find(s, c) == Some(i)
  {
    FindFirst(s, i);
  }

  lemma NameHasNoSeparator()
    ensures |ALGO_NAME| == 6 && ':' !in ALGO_NAME && '-' !in ALGO_NAME
  {
  }

  /** Only texts that name the algorithm are taken, each for what it denotes. */
  lemma ParsesExactly(s: string, h: Hash)
    ensures Parsed(s) == Success(h) <==> Denoted(s) == Some(h)
  {
    hide Base16.Decoded, Nix32.Decoded, Base64.Decoded, ALGO_NAME, Find;
    NameHasNoSeparator();
    var colon, dash := Find(s, ':'), Find(s, '-');
    if |s| >= 7 && s[..6] == ALGO_NAME {
      if s[6] == ':' {
        FindExactly(s, ':', 6);
      } else if s[6] == '-' {
        FindExactly(s, '-', 6);
        assert s == s[..6] + ['-'] + s[7..];
      }
    }
  }

  /** What an error means: no separator at all, or another algorithm's name before the
      first one. */
  lemma RefusedBecause(s: string)
    ensures Parsed(s) == Failure(NoType) <==> ':' !in s && '-' !in s
    ensures Parsed(s) == Failure(WrongAlgorithm) <==>
            exists i :: 0 <= i < |s| && (s[i] == ':' || (s[i] == '-' && ':' !in s)) && s[i] !in s[..i] && s[..i] != ALGO_NAME
  {
    hide Base16.Decoded, Nix32.Decoded, Base64.Decoded, ALGO_NAME, Find;
    if exists i :: 0 <= i < |s| && (s[i] == ':' || (s[i] == '-' && ':' !in s)) && s[i] !in s[..i] && s[..i] != ALGO_NAME {
      var i :| 0 <= i < |s| && (s[i] == ':' || (s[i] == '-' && ':' !in s)) && s[i] !in s[..i] && s[..i] != ALGO_NAME;
      FindExactly(s, s[i], i);
    }
  }
}
