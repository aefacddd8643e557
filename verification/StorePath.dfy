/** Store paths: which base names are allowed, how a path is printed and parsed, and the
    name a content address gives. */
module StorePath {
  import opened Results
  import opened Wire
  import opened Nar
  import opened Hashes
  import opened CanonPath
  import Nix32
  import Bits

  const HASH_LEN: nat := 32
  const MAX_NAME: nat := 211
  const DASH: byte := 45
  const POINT: byte := 46

  /** A store path without its directory. */
  type Base = bytes

  // --------------------------------------------------------------- base names

  /** Digits and lower-case letters but e, o, u and t. */
  predicate HashChar(c: byte) {
    c != 101 && c != 111 && c != 117 && c != 116 && (48 <= c <= 57 || 97 <= c <= 122)
  }

  /** Letters, digits and + - . _ ? = */
  predicate NameChar(c: byte) {
    48 <= c <= 57 || 97 <= c <= 122 || 65 <= c <= 90 || c == 43 || c == DASH || c == POINT || c == 95 || c == 63 || c == 61
  }

  /** No name starts with a component "." or "..", a component ending at a dash. */
  predicate DotRule(name: bytes)
    requires name != []
  {
    name[0] == POINT ==>
      |name| > 1 && name[1] != DASH && (name[1] == POINT ==> |name| > 2 && name[2] != DASH)
  }

  predicate CheckName(name: bytes) {
    0 < |name| <= MAX_NAME && DotRule(name) && forall i :: 0 <= i < |name| ==> NameChar(name[i])
  }

  /** What the constructor accepts. Nothing looks at the byte between hash and name. */
  predicate IsStorePath(b: Base) {
    |b| >= HASH_LEN + 1 && (forall i :: 0 <= i < HASH_LEN ==> HashChar(b[i])) && CheckName(b[HASH_LEN + 1..])
  }

  /** What comes before the first dash. */
  function FirstComponent(name: bytes): bytes {
    if name == [] || name[0] == DASH then [] else [name[0]] + FirstComponent(name[1..])
  }

  /** The rule on leading dots in terms of components. */
  lemma DotRuleSays(name: bytes)
    requires name != []
    ensures DotRule(name) <==> FirstComponent(name) != DOT && FirstComponent(name) != DOTDOT
  {
    var f0 := FirstComponent(name);
    if name[0] == POINT {
      var f1 := FirstComponent(name[1..]);
      assert f0 == [POINT] + f1;
      if |name| > 1 && name[1] == POINT {
        var f2 := FirstComponent(name[2..]);
        assert name[1..][1..] == name[2..] && name[1..][0] == POINT;
        assert f1 == [POINT] + f2;
        assert f0 == [POINT, POINT] + f2;
        assert |name| > 2 ==> name[2..][0] == name[2];
        assert f2 != [] ==> |f0| > 2;
      } else if |name| > 1 && name[1] != DASH {
        assert f1 == [name[1]] + FirstComponent(name[1..][1..]);
        assert f0[1] == name[1];
      }
    } else if name[0] != DASH {
      assert f0[0] == name[0];
    }
  }

  /** The digit a character of the hash part stands for. */
  function HashDigit(c: byte): nat {
    if c <= 57 then (if c < 48 then 0 else c - 48)
    else if c < 97 then 0
    else if c <= 100 then c - 87
    else if c <= 110 then c - 88
    else if c <= 115 then c - 89
    else if c < 118 then 0
    else c - 91
  }

  /** The characters allowed in the hash part are exactly the digits of base 32. */
  lemma HashCharsAreDigits(c: byte)
    ensures HashChar(c) <==> exists d: nat :: d < |Nix32.ALPHABET| && Nix32.ALPHABET[d] as nat == c
  {
    if HashChar(c) {
      var d := HashDigit(c);
      assert d < |Nix32.ALPHABET| && Nix32.ALPHABET[d] as nat == c;
    }
    if d: nat :| d < |Nix32.ALPHABET| && Nix32.ALPHABET[d] as nat == c {
      AlphabetIsHashChars(d);
    }
  }

  function NameOf(b: Base): bytes
    requires |b| > HASH_LEN
  {
    b[HASH_LEN + 1..]
  }

  /** A base name is one proper path component, provided that the unchecked byte is. */
  lemma StorePathIsComponent(b: Base)
    requires IsStorePath(b)
    ensures ValidName(b) <==> b[HASH_LEN] != SLASH && b[HASH_LEN] != NUL
  {
    forall i | 0 <= i < |b| && i != HASH_LEN ensures b[i] != SLASH && b[i] != NUL {
      if i > HASH_LEN {
        assert NameChar(b[HASH_LEN + 1..][i - HASH_LEN - 1]);
      }
    }
  }

  // ------------------------------------------------------ printing and parsing

  function PrintPath(b: Base, storeDir: Parts): bytes {
    Slashed(storeDir) + [SLASH] + b
  }

  datatype BadPath = Empty | NotAbsolute | NotInStore | BadBaseName

  function ParsePath(path: bytes, storeDir: Parts): Result<Base, BadPath> {
    if path == [] then Failure(Empty)
    else if path[0] != SLASH then Failure(NotAbsolute)
    else
      var cs := Resolve([], Fields(path));
      if cs == [] || cs[..|cs| - 1] != storeDir then Failure(NotInStore)
      else if !IsStorePath(cs[|cs| - 1]) then Failure(BadBaseName)
      else Success(cs[|cs| - 1])
  }

  /** Printing and parsing a store path gives it back. */
  lemma PrintedPathParses(b: Base, storeDir: Parts)
    requires AllValid(storeDir) && IsStorePath(b) && ValidName(b)
    ensures ParsePath(PrintPath(b, storeDir), storeDir) == Success(b)
  {
    var cs := storeDir + [b];
    SlashedOne(storeDir, b);
    SlashedStarts(cs);
    CanonicalIsFixed(cs);
    assert cs[..|cs| - 1] == storeDir;
  }

  /** What parses is a proper base name, whatever the string looked like. */
  lemma ParsedIsStorePath(path: bytes, storeDir: Parts)
    requires ParsePath(path, storeDir).Success?
    ensures IsStorePath(ParsePath(path, storeDir).value)
  {
  }

  /** A string parses as a store path exactly if it is absolute and its canonical form is
      that path's printed form. */
  lemma ParsesExactly(path: bytes, storeDir: Parts, b: Base)
    requires AllValid(storeDir) && NUL !in path
    ensures ParsePath(path, storeDir) == Success(b) <==>
            path != [] && path[0] == SLASH && IsStorePath(b) && ValidName(b) &&
            Abs(Resolve([], Fields(path))) == PrintPath(b, storeDir)
  {
    hide IsStorePath, Fields, Resolve;
    var cs := Resolve([], Fields(path));
    FieldsAreClean(path);
    ResolvedIsValid([], Fields(path));
    SlashedOne(storeDir, b);
    if ValidName(b) && Abs(cs) == PrintPath(b, storeDir) {
      AbsIsInjective(cs, storeDir + [b]);
      assert (storeDir + [b])[..|storeDir|] == storeDir;
    }
    if ParsePath(path, storeDir) == Success(b) {
      assert cs == storeDir + [b];
    }
  }

  // -------------------------------------------------------- content addresses

  /** The low `w` bits of a and b, combined by exclusive or. */
  function Xor(a: nat, b: nat, w: nat): (r: nat)
    ensures r < Bits.Pow2(w)
  {
    if w == 0 then 0 else (if a % 2 != b % 2 then 1 else 0) + 2 * Xor(a / 2, b / 2, w - 1)
  }

  function XorByte(a: byte, b: byte): byte {
    assert Bits.Pow2(8) == 256;
    Xor(a, b, 8)
  }

  /** Byte `k` of the first `upto` bytes of a digest folded to `size` bytes. */
  function Folded(hash: bytes, size: nat, k: nat, upto: nat): byte
    requires size > 0 && upto <= |hash|
  {
    if upto == 0 then 0 else
    var rest := Folded(hash, size, k, upto - 1);
    if (upto - 1) % size == k then XorByte(rest, hash[upto - 1]) else rest
  }

  function Compressed(hash: bytes, size: nat): (h: bytes)
    requires size > 0
    ensures |h| == size
  {
    seq(size, k requires 0 <= k => Folded(hash, size, k, |hash|))
  }

  method CompressHash(hash: bytes, size: nat) returns (h: bytes)
    requires size > 0
    ensures h == Compressed(hash, size)
  {
    h := Zeros(size);
    for i := 0 to |hash|
      invariant |h| == size && forall k :: 0 <= k < size ==> h[k] == Folded(hash, size, k, i)
    {
      h := h[i % size := XorByte(h[i % size], hash[i])];
    }
  }

  /** Every bit of a folded digest is the parity of that bit over the bytes folded in. */
  lemma {:induction false} FoldedBit(hash: bytes, size: nat, k: nat, upto: nat, j: nat)
    requires size > 0 && upto <= |hash| && j < 8
    ensures Bits.Bit(Folded(hash, size, k, upto), j) <==> Odd(hash, size, k, upto, j)
  {
    if upto == 0 {
      Bits.BitZero(j);
    } else {
      FoldedBit(hash, size, k, upto - 1, j);
      XorBit(Folded(hash, size, k, upto - 1), hash[upto - 1], 8, j);
    }
  }

  /** Whether an odd number of the bytes that land on `k` have bit `j` set. */
  predicate Odd(hash: bytes, size: nat, k: nat, upto: nat, j: nat)
    requires size > 0 && upto <= |hash|
  {
    upto > 0 &&
    (Odd(hash, size, k, upto - 1, j) != ((upto - 1) % size == k && Bits.Bit(hash[upto - 1], j)))
  }

  lemma {:induction false} XorBit(a: nat, b: nat, w: nat, j: nat)
    requires j < w
    ensures Bits.Bit(Xor(a, b, w), j) == (Bits.Bit(a, j) != Bits.Bit(b, j))
  {
    if j > 0 {
      XorBit(a / 2, b / 2, w - 1, j - 1);
    }
  }

  function Ascii(s: string): (b: bytes)
    ensures |b| == |s|
  {
    seq(|s|, i requires 0 <= i < |s| => if s[i] as nat < 256 then s[i] as nat else 0)
  }

  const SOURCE: bytes := [115, 111, 117, 114, 99, 101]
  const COLON: byte := 58

  /** The string whose digest becomes the hash part. */
  function Fingerprint(name: bytes, narHash: Hash, storeDir: Parts): bytes {
    SOURCE + [COLON] + Ascii(Text(narHash, Base16Format, true)) + [COLON] + Slashed(storeDir) + [COLON] + name
  }

  /** makeContentAddressedPath, or None for a bad name. */
  function Address(name: bytes, narHash: Hash, storeDir: Parts, sha: Sha): Option<Base> {
    if !CheckName(name) then None else
    var h := Compressed(sha(Fingerprint(name, narHash, storeDir)), 20);
    Some(Ascii(Nix32.Encoded(h)) + [DASH] + name)
  }

  method MakeContentAddressedPath(name: bytes, narHash: Hash, storeDir: Parts, sha: Sha) returns (b: Option<Base>)
    ensures b == Address(name, narHash, storeDir, sha)
  {
    hide Compressed, Fingerprint, Nix32.Encoded;
    if !CheckName(name) {
      return None;
    }
    var h := CompressHash(sha(Fingerprint(name, narHash, storeDir)), 20);
    var digits := Nix32.Encode(h);
    return Some(Ascii(digits) + [DASH] + name);
  }

  lemma AlphabetIsHashChars(d: nat)
    requires d < 32
    ensures |Nix32.ALPHABET| == 32 && Nix32.ALPHABET[d] as nat < 256 && HashChar(Nix32.ALPHABET[d] as nat)
  {
  }

  lemma EncodedAt(h: bytes, i: nat)
    requires |h| == 20 && i < 32
    ensures |Nix32.Encoded(h)| == 32 && |Nix32.ALPHABET| == 32
    ensures Nix32.Encoded(h)[i] == Nix32.ALPHABET[Nix32.Digit(h, 31 - i)]
  {
    hide Nix32.Digit;
  }

  lemma AsciiAt(s: string, i: nat)
    requires i < |s| && s[i] as nat < 256
    ensures Ascii(s)[i] == s[i] as nat
  {
  }

  lemma HashPartIsFine(h: bytes)
    requires |h| == 20
    ensures |Nix32.Encoded(h)| == 32 && forall i :: 0 <= i < 32 ==> HashChar(Ascii(Nix32.Encoded(h))[i])
  {
    hide HashChar, Nix32.Encoded, Nix32.Digit, Ascii;
    assert |Nix32.Encoded(h)| == 32;
    forall i | 0 <= i < 32 ensures HashChar(Ascii(Nix32.Encoded(h))[i]) {
      EncodedAt(h, i);
      AlphabetIsHashChars(Nix32.Digit(h, 31 - i));
      AsciiAt(Nix32.Encoded(h), i);
    }
  }

  /** A content address is a store path, a proper component, and carries its name. */
  lemma AddressIsStorePath(name: bytes, narHash: Hash, storeDir: Parts, sha: Sha)
    requires CheckName(name)
    ensures var b := Address(name, narHash, storeDir, sha).value;
      IsStorePath(b) && ValidName(b) && NameOf(b) == name
  {
    hide Fingerprint, Compressed, Nix32.Encoded, Ascii;
    var h := Compressed(sha(Fingerprint(name, narHash, storeDir)), 20);
    var b := Address(name, narHash, storeDir, sha).value;
    HashPartIsFine(h);
    assert b[HASH_LEN + 1..] == name;
    StorePathIsComponent(b);
  }

  function LastColon(s: bytes): (i: nat)
    ensures i <= |s|
  {
    if s == [] then 0 else if s[|s| - 1] == COLON then |s| - 1 else LastColon(s[..|s| - 1])
  }

  lemma {:induction false} LastColonIs(a: bytes, name: bytes)
    requires COLON !in name
    ensures LastColon(a + [COLON] + name) == |a|
  {
    if name != [] {
      assert (a + [COLON] + name)[..|a| + |name|] == a + [COLON] + name[..|name| - 1];
      LastColonIs(a, name[..|name| - 1]);
    }
  }

  lemma NameIsCutOff(a: bytes, name: bytes, b: bytes, other: bytes)
    requires COLON !in name && COLON !in other && a + [COLON] + name == b + [COLON] + other
    ensures a == b && name == other
  {
    LastColonIs(a, name);
    LastColonIs(b, other);
    assert (a + [COLON] + name)[..|a|] == a && (b + [COLON] + other)[..|b|] == b;
    assert (a + [COLON] + name)[|a| + 1..] == name && (b + [COLON] + other)[|b| + 1..] == other;
  }

  lemma HexDigitIsAscii(h: Hash, i: nat)
    requires i < 64
    ensures Base16.Encoded(h)[i] as nat < 256
  {
    SymbolIsAscii(if i % 2 == 0 then h[i / 2] / 16 else h[i / 2] % 16);
  }

  lemma SymbolIsAscii(d: nat)
    requires d < 16
    ensures |Base16.DIGITS| == 16 && Base16.DIGITS[d] as nat < 256
  {
  }

  lemma HexIsAscii(h: Hash)
    ensures |Text(h, Base16Format, true)| == 71
    ensures forall i :: 0 <= i < 71 ==> Text(h, Base16Format, true)[i] as nat < 256
  {
    hide Base16.Encoded;
    forall i | 0 <= i < 64 ensures Base16.Encoded(h)[i] as nat < 256 {
      HexDigitIsAscii(h, i);
    }
    assert forall i :: 7 <= i < 71 ==> Text(h, Base16Format, true)[i] == Base16.Encoded(h)[i - 7];
  }

  lemma AsciiIsInjective(a: string, b: string)
    requires Ascii(a) == Ascii(b) && |a| == |b|
    requires forall i :: 0 <= i < |a| ==> a[i] as nat < 256 && b[i] as nat < 256
    ensures a == b
  {
    forall i | 0 <= i < |a| ensures a[i] == b[i] {
      assert Ascii(a)[i] == a[i] as nat && Ascii(b)[i] == b[i] as nat;
    }
  }

  lemma SlashedIsInjective(cs: Parts, ds: Parts)
    requires AllValid(cs) && AllValid(ds) && Slashed(cs) == Slashed(ds)
    ensures cs == ds
  {
    SlashedNothing();
    if cs != [] {
      SlashedStarts(cs);
    }
    if ds != [] {
      SlashedStarts(ds);
    }
    AbsIsInjective(cs, ds);
  }

  lemma Cut(p: bytes, t: bytes, d: bytes, u: bytes, e: bytes)
    requires |t| == |u| && p + t + [COLON] + d == p + u + [COLON] + e
    ensures t == u && d == e
  {
    var n := |p| + |t|;
    assert (p + t + [COLON] + d)[|p|..n] == t && (p + u + [COLON] + e)[|p|..n] == u;
    assert (p + t + [COLON] + d)[n + 1..] == d && (p + u + [COLON] + e)[n + 1..] == e;
  }

  /** The string whose digest names a path says name, digest and store directory without
      ambiguity, so two addresses can only coincide where digests or their folds do. */
  lemma FingerprintIsInjective(name: bytes, h: Hash, dir: Parts, other: bytes, k: Hash, elsewhere: Parts)
    requires CheckName(name) && CheckName(other) && AllValid(dir) && AllValid(elsewhere)
    requires Fingerprint(name, h, dir) == Fingerprint(other, k, elsewhere)
    ensures name == other && h == k && dir == elsewhere
  {
    hide Text, Slashed, AllValid, Ascii;
    var (t, u) := (Text(h, Base16Format, true), Text(k, Base16Format, true));
    var p := SOURCE + [COLON];
    NameIsCutOff(p + Ascii(t) + [COLON] + Slashed(dir), name, p + Ascii(u) + [COLON] + Slashed(elsewhere), other);
    HexIsAscii(h);
    HexIsAscii(k);
    Cut(p, Ascii(t), Slashed(dir), Ascii(u), Slashed(elsewhere));
    AsciiIsInjective(t, u);
    PrintedParses(h, Base16Format);
    PrintedParses(k, Base16Format);
    SlashedIsInjective(dir, elsewhere);
  }
}
