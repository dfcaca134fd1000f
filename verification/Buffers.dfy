/** net/Buffer.h and net/Buffer.cc: a byte buffer with a gap in front and behind,
    proved to act on its contents like a plain sequence of bytes. */
module Buffers {
  import opened Seqs
  import opened Endian

  const CHEAP_PREPEND: nat := 8
  const INITIAL_SIZE: nat := 1024
  const EXTRA: nat := 65536   // sizeof extrabuf

  const CR: byte := 13
  const LF: byte := 10

  /** std::copy of data to the array, from position at on. */
  method CopyTo(data: seq<byte>, dst: array<byte>, at: nat)
    requires at + |data| <= dst.Length
    modifies dst
    ensures dst[..] == old(dst[..at]) + data + old(dst[at + |data|..])
  {
    ghost var before := dst[..];
    for i := 0 to |data|
      invariant dst[..] == before[..at] + data[..i] + before[at + i..]
    {
      dst[at + i] := data[i];
      assert dst[..] == before[..at] + data[..i + 1] + before[at + i + 1..];
    }
    assert data[..|data|] == data;
  }

  /** std::copy within one array toward its front, first byte first. */
  method MoveDown(a: array<byte>, from: nat, to: nat, n: nat)
    requires to <= from && from + n <= a.Length
    modifies a
    ensures a[to..to + n] == old(a[from..from + n])
  {
    ghost var before, d := a[..], from - to;
    for i := 0 to n
      invariant forall k :: to <= k < to + i ==> a[k] == before[k + d]
      invariant forall k :: from + i <= k < a.Length ==> a[k] == before[k]
    {
      a[to + i] := a[from + i];
    }
    assert a[to..to + n] == before[from..from + n];
  }

  /** A slice of the data that was copied to the front. */
  lemma SliceOfFront(all: seq<byte>, data: seq<byte>, tail: seq<byte>, lo: nat, hi: nat)
    requires all == data + tail && lo <= hi <= |data|
    ensures all[lo..hi] == data[lo..hi]
  {
  }

  /** A slice that begins with the data that was copied behind front. */
  lemma SliceOfBack(all: seq<byte>, front: seq<byte>, data: seq<byte>, back: seq<byte>, hi: nat)
    requires all == front + data + back && |front| + |data| <= hi <= |all|
    ensures all[|front|..hi] == data + back[..hi - |front| - |data|]
  {
  }

  /** What readv(2) answers. */
  datatype Readv = Delivered(data: seq<byte>) | Failed(errno: int)

  class Buffer {
    var buffer: array<byte>
    var readerIndex: nat
    var writerIndex: nat

    ghost predicate Valid()
      reads this
    {
      readerIndex <= writerIndex <= buffer.Length && CHEAP_PREPEND <= buffer.Length
    }

    /** The readable bytes. */
    function Contents(): (s: seq<byte>)
      requires Valid()
      reads this, buffer
    {
      buffer[readerIndex..writerIndex]
    }

    function WritableBytes(): nat
      requires Valid()
      reads this
    {
      buffer.Length - writerIndex
    }

    constructor (initialSize: nat)
      ensures Valid() && fresh(buffer) && Contents() == []
      ensures readerIndex == CHEAP_PREPEND && WritableBytes() == initialSize
    {
      buffer := new byte[CHEAP_PREPEND + initialSize](_ => 0);
      readerIndex := CHEAP_PREPEND;
      writerIndex := CHEAP_PREPEND;
    }

    method RetrieveAll()
      requires Valid()
      modifies this`readerIndex, this`writerIndex
      ensures Valid() && Contents() == [] && readerIndex == CHEAP_PREPEND
    {
      readerIndex := CHEAP_PREPEND;
      writerIndex := CHEAP_PREPEND;
    }

    method Retrieve(len: nat)
      requires Valid() && len <= |Contents()|
      modifies this`readerIndex, this`writerIndex
      ensures Valid() && Contents() == old(Contents())[len..]
      ensures readerIndex >= CHEAP_PREPEND || readerIndex >= old(readerIndex)
    {
      if len < writerIndex - readerIndex {
        readerIndex := readerIndex + len;
      } else {
        RetrieveAll();
      }
    }

    method RetrieveAsString(len: nat) returns (result: seq<byte>)
      requires Valid() && len <= |Contents()|
      modifies this`readerIndex, this`writerIndex
      ensures Valid() && result + Contents() == old(Contents()) && |result| == len
    {
      result := buffer[readerIndex..readerIndex + len];
      ghost var before := Contents();
      assert result == before[..len];
      Retrieve(len);
    }

    /** resize: the bytes stay where they are in a longer array. */
    method Grow(size: nat)
      requires Valid() && size >= buffer.Length
      modifies this`buffer
      ensures Valid() && fresh(buffer) && buffer.Length == size
      ensures Contents() == old(Contents())
    {
      var longer := new byte[size](_ => 0);
      ghost var tail := longer[buffer.Length..];
      CopyTo(buffer[..], longer, 0);
      assert longer[..] == buffer[..] + tail;
      SliceOfFront(longer[..], buffer[..], tail, readerIndex, writerIndex);
      assert longer[..][readerIndex..writerIndex] == longer[readerIndex..writerIndex];
      assert buffer[..][readerIndex..writerIndex] == buffer[readerIndex..writerIndex];
      buffer := longer;
    }

    method MoveToFront()
      requires Valid() && CHEAP_PREPEND < readerIndex
      modifies this`readerIndex, this`writerIndex, buffer
      ensures Valid() && Contents() == old(Contents()) && readerIndex == CHEAP_PREPEND
      ensures writerIndex == CHEAP_PREPEND + |Contents()|
    {
      var readable := writerIndex - readerIndex;
      MoveDown(buffer, readerIndex, CHEAP_PREPEND, readable);
      readerIndex := CHEAP_PREPEND;
      writerIndex := readerIndex + readable;
    }

    method EnsureWritableBytes(len: nat)
      requires Valid()
      modifies this, buffer
      ensures Valid() && Contents() == old(Contents()) && WritableBytes() >= len
      ensures buffer == old(buffer) || fresh(buffer)
      ensures readerIndex == old(readerIndex) || readerIndex == CHEAP_PREPEND
    {
      if WritableBytes() < len {
        // makeSpace
        if WritableBytes() + readerIndex < len + CHEAP_PREPEND {
          Grow(writerIndex + len);
        } else {
          assert CHEAP_PREPEND < readerIndex;
          MoveToFront();
        }
      }
    }

    /** append when there is room: the array stays. */
    method AppendWithin(data: seq<byte>)
      requires Valid() && |data| <= WritableBytes()
      modifies this`writerIndex, buffer
      ensures Valid() && Contents() == old(Contents()) + data
      ensures WritableBytes() == old(WritableBytes()) - |data|
    {
      ghost var before, w := buffer[..], writerIndex;
      CopyTo(data, buffer, writerIndex);
      writerIndex := writerIndex + |data|;
      assert buffer[..writerIndex] == before[..w] + data;
      assert Contents() == buffer[..writerIndex][readerIndex..];
      assert old(Contents()) == before[..w][readerIndex..];
    }

    method Append(data: seq<byte>)
      requires Valid()
      modifies this, buffer
      ensures Valid() && Contents() == old(Contents()) + data
      ensures buffer == old(buffer) || fresh(buffer)
      ensures readerIndex == old(readerIndex) || readerIndex == CHEAP_PREPEND
    {
      EnsureWritableBytes(|data|);
      AppendWithin(data);
    }

    method Unwrite(len: nat)
      requires Valid() && len <= |Contents()|
      modifies this`writerIndex
      ensures Valid() && Contents() == old(Contents())[..|old(Contents())| - len]
    {
      writerIndex := writerIndex - len;
    }

    method Prepend(data: seq<byte>)
      requires Valid() && |data| <= readerIndex
      modifies this`readerIndex, buffer
      ensures Valid() && Contents() == data + old(Contents())
      ensures readerIndex == old(readerIndex) - |data|
    {
      ghost var before, r := buffer[..], readerIndex;
      readerIndex := readerIndex - |data|;
      CopyTo(data, buffer, readerIndex);
      SliceOfBack(buffer[..], before[..readerIndex], data, before[r..], writerIndex);
      assert Contents() == buffer[..][readerIndex..writerIndex];
      assert old(Contents()) == before[r..][..writerIndex - r];
    }

    // ----- integers in network order -----

    method AppendInt(x: int, width: nat)
      requires Valid() && Fits(x, width)
      modifies this, buffer
      ensures Valid() && Contents() == old(Contents()) + Encode(x, width)
      ensures buffer == old(buffer) || fresh(buffer)
      ensures readerIndex == old(readerIndex) || readerIndex == CHEAP_PREPEND
    {
      Append(Encode(x, width));
    }

    method PeekInt(width: nat) returns (x: int)
      requires Valid() && 0 < width <= |Contents()|
      ensures Fits(x, width) && Encode(x, width) == Contents()[..width]
    {
      x := Decode(buffer[readerIndex..readerIndex + width]);
      assert buffer[readerIndex..readerIndex + width] == Contents()[..width];
      WireRoundTrip(Contents()[..width]);
    }

    method ReadInt(width: nat) returns (x: int)
      requires Valid() && 0 < width <= |Contents()|
      modifies this`readerIndex, this`writerIndex
      ensures Valid() && Fits(x, width) && Encode(x, width) + Contents() == old(Contents())
    {
      x := PeekInt(width);
      Retrieve(width);
    }

    method PrependInt(x: int, width: nat)
      requires Valid() && Fits(x, width) && width <= readerIndex
      modifies this`readerIndex, buffer
      ensures Valid() && Contents() == Encode(x, width) + old(Contents())
      ensures readerIndex == old(readerIndex) - width
    {
      Prepend(Encode(x, width));
    }

    // ----- the rest -----

    method Shrink(reserve: nat)
      requires Valid()
      modifies this
      ensures Valid() && fresh(buffer) && Contents() == old(Contents()) && readerIndex == CHEAP_PREPEND
      ensures WritableBytes() >= reserve
    {
      var other := new Buffer(INITIAL_SIZE);
      var contents := Contents();
      other.EnsureWritableBytes(|contents| + reserve);
      other.AppendWithin(contents);
      buffer, readerIndex, writerIndex := other.buffer, other.readerIndex, other.writerIndex;
    }

    /** readv(2) into the free space and, if that is small, the stack. All that the
        kernel delivered ends up behind the contents; after an error nothing does. */
    method ReadFd(read: Readv) returns (n: int, savedErrno: int)
      requires Valid()
      requires read.Delivered? ==> |read.data| <= WritableBytes() + (if WritableBytes() < EXTRA then EXTRA else 0)
      modifies this, buffer
      ensures Valid() && (buffer == old(buffer) || fresh(buffer))
      ensures match read
              case Delivered(data) => n == |data| && Contents() == old(Contents()) + data
              case Failed(errno) => n < 0 && savedErrno == errno && Contents() == old(Contents())
    {
      n, savedErrno := -1, 0;
      match read
      case Failed(errno) => savedErrno := errno;
      case Delivered(data) =>
        var writable := WritableBytes();
        n := |data|;
        if n <= writable {
          AppendWithin(data);
        } else {
          AppendWithin(data[..writable]);
          Append(data[writable..]);
          assert data == data[..writable] + data[writable..];
        }
    }

    /** The first CRLF, as a distance from peek(). */
    method FindCRLF() returns (k: int)
      requires Valid()
      ensures k == if FindPair(Contents(), CR, LF) < |Contents()| then FindPair(Contents(), CR, LF) else -1
    {
      var n := writerIndex - readerIndex;
      ghost var s := Contents();
      var i := 0;
      while i + 1 < n
        invariant 0 <= i
        invariant forall j :: 0 <= j < i && j + 1 < n ==> !(s[j] == CR && s[j + 1] == LF)
      {
        if buffer[readerIndex + i] == CR && buffer[readerIndex + i + 1] == LF {
          FindPairUnique(s, CR, LF, i);
          return i;
        }
        i := i + 1;
      }
      return -1;
    }
  }

  /** A fresh buffer keeps its eight bytes in front through any appends, so a length
      can be put before what was appended. */
  method AppendThenPrepend(pieces: seq<seq<byte>>, header: seq<byte>) returns (b: Buffer)
    requires |header| <= CHEAP_PREPEND
    ensures fresh(b) && b.Valid() && b.Contents() == header + Flatten(pieces)
  {
    b := new Buffer(INITIAL_SIZE);
    for i := 0 to |pieces|
      invariant b.Valid() && fresh(b) && fresh(b.buffer)
      invariant b.Contents() == Flatten(pieces[..i]) && b.readerIndex == CHEAP_PREPEND
    {
      b.Append(pieces[i]);
      assert pieces[..i + 1] == pieces[..i] + [pieces[i]];
      FlattenSnoc(pieces[..i], pieces[i]);
    }
    assert pieces[..|pieces|] == pieces;
    b.Prepend(header);
  }
}
