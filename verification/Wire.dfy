/** The byte-level serialisation under the archive format: 64-bit little-endian
    numbers and length-prefixed strings padded with zeros to a multiple of 8. */
module Wire {
  import opened Results

  type byte = b: int | 0 <= b < 256
  type bytes = seq<byte>

  const TWO_64: nat := 0x1_0000_0000_0000_0000
  type u64 = n: nat | n < TWO_64

  /** A byte string whose length fits the 64-bit length prefix. */
  type blob = s: bytes | |s| < TWO_64

  datatype ArchiveFault =
    | BadTag
    | BadFileName
    | NotSorted
    | BadTarget
    | UnknownType
    | TooDeep
    | NotAnArchive

  /** What a reader can throw; everything but `EndOfFile` and `TooLarge` is a
      SerialisationError in the source. */
  datatype ReadError =
    | EndOfFile
    | TooLarge
    | StringTooLong
    | NonZeroPadding
    | BadArchive(fault: ArchiveFault)

  type Read<+T> = Result<(T, bytes), ReadError>

  // ---------------------------------------------------------------- numbers

  function LittleEndian(n: nat, width: nat): (b: bytes)
    ensures |b| == width
  {
    if width == 0 then [] else [n % 256] + LittleEndian(n / 256, width - 1)
  }

  function FromLittleEndian(b: bytes): nat {
    if b == [] then 0 else b[0] + 256 * FromLittleEndian(b[1..])
  }

  function Pow256(k: nat): nat {
    if k == 0 then 1 else 256 * Pow256(k - 1)
  }

  lemma {:induction false} LittleEndianRoundTrip(n: nat, width: nat)
    requires n < Pow256(width)
    ensures FromLittleEndian(LittleEndian(n, width)) == n
  {
    if width > 0 {
      LittleEndianRoundTrip(n / 256, width - 1);
      assert LittleEndian(n, width)[1..] == LittleEndian(n / 256, width - 1);
    }
  }

  lemma {:induction false} FromLittleEndianRoundTrip(b: bytes)
    ensures FromLittleEndian(b) < Pow256(|b|)
    ensures LittleEndian(FromLittleEndian(b), |b|) == b
  {
    if b != [] {
      FromLittleEndianRoundTrip(b[1..]);
      assert b == [b[0]] + b[1..];
    }
  }

  lemma EightBytesHoldU64()
    ensures Pow256(8) == TWO_64
  {
    assert Pow256(4) == 0x1_0000_0000;
  }

  // ---------------------------------------------------------------- padding

  function PadLen(len: nat): (n: nat)
    ensures n < 8 && (len + n) % 8 == 0
  {
    if len % 8 == 0 then 0 else 8 - len % 8
  }

  function Zeros(n: nat): (z: bytes)
    ensures |z| == n
  {
    seq(n, _ => 0)
  }

  /** A string as it goes over the wire. */
  function Encode(x: blob): (s: bytes)
    ensures |s| == 8 + |x| + PadLen(|x|)
  {
    LittleEndian(|x|, 8) + x + Zeros(PadLen(|x|))
  }

  // ---------------------------------------------------------------- readers

  /** Exactly `n` bytes, or end of file. */
  function Take(s: bytes, n: nat): Read<bytes> {
    if |s| < n then Failure(EndOfFile) else Success((s[..n], s[n..]))
  }

  function ReadU64(s: bytes): (r: Read<u64>)
    ensures r.Success? ==> |r.value.1| + 8 == |s|
  {
    var (b, rest) :- Take(s, 8);
    FromLittleEndianRoundTrip(b);
    EightBytesHoldU64();
    Success((FromLittleEndian(b), rest))
  }

  /** A length-prefixed string of at most `max` bytes. */
  function ReadString(s: bytes, max: nat): (r: Read<blob>)
    ensures r.Success? ==> |r.value.1| + 8 <= |s| && |r.value.0| <= max
  {
    if |s| < 8 then Failure(EndOfFile) else
    var len := FromLittleEndian(s[..8]);
    if len > max then Failure(StringTooLong) else
    var end := 8 + len + PadLen(len);
    if |s| < end then Failure(EndOfFile) else
    if s[8 + len..end] != Zeros(PadLen(len)) then Failure(NonZeroPadding) else
    assert len < TWO_64 by { FromLittleEndianRoundTrip(s[..8]); EightBytesHoldU64(); }
    Success((s[8..8 + len], s[end..]))
  }

  /** Reading a number consumes exactly the eight bytes that print it. */
  lemma ReadU64Inverse(n: u64, rest: bytes)
    ensures ReadU64(LittleEndian(n, 8) + rest) == Success((n, rest))
  {
    EightBytesHoldU64();
    LittleEndianRoundTrip(n, 8);
    var s := LittleEndian(n, 8) + rest;
    assert s[..8] == LittleEndian(n, 8) && s[8..] == rest;
  }

  lemma ReadU64Canonical(s: bytes)
    requires ReadU64(s).Success?
    ensures s == LittleEndian(ReadU64(s).value.0, 8) + ReadU64(s).value.1
  {
    FromLittleEndianRoundTrip(s[..8]);
    assert s == s[..8] + s[8..];
  }

  /** A string that was printed is read back whatever follows it. */
  lemma ReadStringInverse(x: blob, rest: bytes, max: nat)
    requires |x| <= max
    ensures ReadString(Encode(x) + rest, max) == Success((x, rest))
  {
    var s, mid, end := Encode(x) + rest, 8 + |x|, 8 + |x| + PadLen(|x|);
    EightBytesHoldU64();
    LittleEndianRoundTrip(|x|, 8);
    assert s[..8] == LittleEndian(|x|, 8) && s[8..mid] == x;
    assert s[mid..end] == Zeros(PadLen(|x|)) && s[end..] == rest;
  }

  /** Only a printed string is accepted: the encoding of a string is unique. */
  lemma ReadStringCanonical(s: bytes, max: nat)
    requires ReadString(s, max).Success?
    ensures s == Encode(ReadString(s, max).value.0) + ReadString(s, max).value.1
  {
    hide FromLittleEndian, LittleEndian;
    var len := FromLittleEndian(s[..8]);
    var mid, end := 8 + len, 8 + len + PadLen(len);
    FromLittleEndianRoundTrip(s[..8]);
    assert s == s[..8] + s[8..mid] + s[mid..end] + s[end..];
  }
}
