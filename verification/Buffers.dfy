/** Buffered sinks and sources: how bytes are grouped on the way changes, which bytes
    arrive and in which order does not. */
module Buffers {
  import opened Results
  import opened Wire
  import opened NarStream
  import opened SourceChannel

  class BufferedSink {
    const buffer: array<byte>
    var bufPos: nat
    /** What writeUnbuffered was called with, call by call. */
    var written: seq<bytes>

    ghost predicate Valid()
      reads this
    {
      bufPos < buffer.Length && forall i :: 0 <= i < |written| ==> written[i] != []
    }

    /** Every byte accepted so far. */
    ghost function Accepted(): bytes
      reads this, buffer
      requires Valid()
    {
      Flatten(written) + buffer[..bufPos]
    }

    constructor (bufSize: nat)
      requires bufSize > 0
      ensures Valid() && fresh(buffer) && buffer.Length == bufSize && Accepted() == [] && bufPos == 0
    {
      buffer := new byte[bufSize](_ => 0);
      bufPos, written := 0, [];
    }

    method WriteUnbuffered(data: bytes)
      requires data != []
      modifies this`written
      ensures written == old(written) + [data]
    {
      written := written + [data];
    }

    method Flush()
      requires bufPos <= buffer.Length && forall i :: 0 <= i < |written| ==> written[i] != []
      requires buffer.Length > 0
      modifies this
      ensures Valid() && bufPos == 0
      ensures Accepted() == Flatten(old(written)) + old(buffer[..bufPos])
      ensures old(bufPos) == 0 ==> written == old(written)
    {
      if bufPos == 0 {
        return;
      }
      var n := bufPos;
      bufPos := 0;
      FlattenOne(written, buffer[..n]);
      WriteUnbuffered(buffer[..n]);
    }

    /** Data that fits is copied behind what is there. */
    method CopyIn(data: bytes)
      requires Valid() && |data| < buffer.Length - bufPos
      modifies this`bufPos, buffer
      ensures Valid() && Accepted() == old(Accepted()) + data
    {
      ghost var was := buffer[..bufPos];
      for i := 0 to |data|
        invariant buffer[..bufPos] == was && buffer[bufPos..bufPos + i] == data[..i]
        modifies buffer
      {
        buffer[bufPos + i] := data[i];
      }
      assert buffer[..bufPos + |data|] == was + data;
      assert Flatten(written) + was + data == Flatten(written) + (was + data);
      bufPos := bufPos + |data|;
    }

    /** Data that does not fit goes past the buffer, after what is in it. */
    method Write(data: bytes)
      requires Valid()
      modifies this, buffer
      ensures Valid() && Accepted() == old(Accepted()) + data
    {
      hide Flatten;
      var rest := data;
      while rest != []
        invariant Valid() && Accepted() + rest == old(Accepted()) + data
        decreases |rest|
      {
        if |rest| >= buffer.Length - bufPos {
          Flush();
          FlattenOne(written, rest);
          assert buffer[..0] == [];
          assert forall b: bytes :: b + [] == b;
          WriteUnbuffered(rest);
        } else {
          CopyIn(rest);
        }
        assert Accepted() + [] == Accepted();
        rest := [];
      }
    }
  }

  /** A buffered source over `rest`, the unread part of a file. */
  class BufferedSource {
    const buffer: array<byte>
    var bufPosIn: nat
    var bufPosOut: nat
    var rest: bytes

    ghost predicate Valid()
      reads this
    {
      buffer.Length > 0 && bufPosOut <= bufPosIn <= buffer.Length && (bufPosIn > 0 ==> bufPosOut < bufPosIn)
    }

    ghost function Remaining(): bytes
      reads this, buffer
      requires Valid()
    {
      buffer[bufPosOut..bufPosIn] + rest
    }

    constructor (bufSize: nat, file: bytes)
      requires bufSize > 0
      ensures Valid() && fresh(buffer) && Remaining() == file
    {
      buffer := new byte[bufSize](_ => 0);
      bufPosIn, bufPosOut, rest := 0, 0, file;
    }

    /** As many bytes as the system likes, but one at least before the end of file. */
    method ReadUnbuffered() returns (n: nat)
      requires Valid() && bufPosIn == 0
      modifies this`rest, buffer
      ensures n <= buffer.Length && (n == 0 <==> old(rest) == [])
      ensures old(rest) == buffer[..n] + rest
    {
      if rest == [] {
        return 0;
      }
      n :| 1 <= n <= buffer.Length && n <= |rest|;
      for i := 0 to n
        invariant rest == old(rest) && buffer[..i] == rest[..i]
        modifies buffer
      {
        buffer[i] := rest[i];
      }
      rest := rest[n..];
    }

    method Read(len: nat) returns (r: Result<bytes, ReadError>)
      requires Valid()
      modifies this, buffer
      ensures Valid()
      ensures r.Failure? <==> old(Remaining()) == []
      ensures r.Failure? ==> r.error == EndOfFile && Remaining() == []
      ensures r.Success? ==> |r.value| <= len && (len > 0 ==> |r.value| > 0) && old(Remaining()) == r.value + Remaining()
    {
      if bufPosIn == 0 {
        bufPosIn := ReadUnbuffered();
        if bufPosIn == 0 {
          return Failure(EndOfFile);
        }
      }
      var n := if len < bufPosIn - bufPosOut then len else bufPosIn - bufPosOut;
      ghost var was := buffer[bufPosOut..bufPosIn];
      var data := buffer[bufPosOut..bufPosOut + n];
      assert was == data + buffer[bufPosOut + n..bufPosIn];
      bufPosOut := bufPosOut + n;
      if bufPosIn == bufPosOut {
        bufPosIn, bufPosOut := 0, 0;
      }
      return Success(data);
    }

    /** FdSource::skip on a file that can seek: the buffer first, then the file position.
        Skipping past the end of the file is not an error here, unlike when reading. */
    method SkipSeeking(len: nat)
      requires Valid()
      modifies this
      ensures Valid()
      ensures Remaining() == if len <= |old(Remaining())| then old(Remaining())[len..] else []
    {
      var left := len;
      ghost var was := Remaining();
      if left > 0 && bufPosIn - bufPosOut > 0 {
        if left >= bufPosIn - bufPosOut {
          left := left - (bufPosIn - bufPosOut);
          bufPosIn, bufPosOut := 0, 0;
          assert rest == was[len - left..];
        } else {
          bufPosOut := bufPosOut + left;
          left := 0;
        }
      }
      if left > 0 {
        rest := if left <= |rest| then rest[left..] else [];
      }
    }
  }
}
