// Bytes, and the growable byte FIFO under every connection (src/core/UtilPdu.cpp, CSimpleBuffer).

module Bytes {
  type byte = x: int | 0 <= x < 0x100
  type uint16 = x: int | 0 <= x < 0x1_0000
  type uint32 = x: int | 0 <= x < 0x1_0000_0000

  // Lengths the source may keep in an `int`.
  predicate FitsInt(n: int) {
    0 <= n < 0x8000_0000
  }
}

module SimpleBuffers {
  import opened Bytes

  // Buffer sizes whose growth by a quarter does not wrap a uint32.
  predicate MayGrowTo(n: int) {
    0 <= n && n + n / 4 < 0x1_0000_0000
  }

  class SimpleBuffer {
    var buffer: array<byte>
    var allocSize: nat
    var writeOffset: nat

    ghost predicate Valid()
      reads this
    {
      writeOffset <= allocSize == buffer.Length
    }

    // The abstract value: the bytes written and not yet read.
    ghost function Contents(): (s: seq<byte>)
      requires Valid()
      reads this, buffer
      ensures |s| == writeOffset
    {
      buffer[..writeOffset]
    }

    constructor ()
      ensures Valid() && fresh(buffer)
      ensures Contents() == [] && allocSize == 0
    {
      buffer := new byte[0];
      allocSize, writeOffset := 0, 0;
    }

    // realloc: the bytes up to the smaller size survive, the others are arbitrary.
    // The new capacity may be smaller than the old one, but never below the contents.
    method Extend(len: nat)
      requires Valid() && MayGrowTo(writeOffset + len)
      modifies this
      ensures Valid() && fresh(buffer)
      ensures Contents() == old(Contents())
      ensures allocSize == writeOffset + len + (writeOffset + len) / 4
    {
      allocSize := writeOffset + len;
      allocSize := allocSize + allocSize / 4;
      var newBuf := new byte[allocSize];
      forall i | 0 <= i < buffer.Length && i < allocSize {
        newBuf[i] := buffer[i];
      }
      buffer := newBuf;
    }

    method Write(data: seq<byte>) returns (len: nat)
      requires Valid() && MayGrowTo(writeOffset + |data|)
      modifies this, buffer
      ensures Valid() && (buffer == old(buffer) || fresh(buffer))
      ensures Contents() == old(Contents()) + data && len == |data|
    {
      len := |data|;
      if writeOffset + len > allocSize {
        Extend(len);
      }
      forall i | 0 <= i < len {
        buffer[writeOffset + i] := data[i];
      }
      writeOffset := writeOffset + len;
    }

    // Write with a NULL source: room is claimed, its bytes are whatever was there.
    method WriteNull(len: nat)
      requires Valid() && MayGrowTo(writeOffset + len)
      modifies this, buffer
      ensures Valid() && (buffer == old(buffer) || fresh(buffer))
      ensures writeOffset == old(writeOffset) + len
      ensures Contents()[..old(writeOffset)] == old(Contents())
    {
      if writeOffset + len > allocSize {
        Extend(len);
      }
      writeOffset := writeOffset + len;
    }

    // Bytes put behind the contents by someone else (a receive) become contents.
    method IncWriteOffset(len: nat)
      requires Valid() && writeOffset + len <= allocSize
      modifies this`writeOffset
      ensures Valid()
      ensures Contents() == buffer[..old(writeOffset) + len]
    {
      writeOffset := writeOffset + len;
    }

    method Read(len: nat) returns (n: nat, taken: seq<byte>)
      requires Valid()
      modifies this`writeOffset, buffer
      ensures Valid()
      ensures n == if len > old(writeOffset) then old(writeOffset) else len
      ensures taken == old(Contents())[..n] && Contents() == old(Contents())[n..]
    {
      n := if len > writeOffset then writeOffset else len;
      taken := buffer[..n];
      writeOffset := writeOffset - n;
      forall i | 0 <= i < writeOffset {
        buffer[i] := buffer[i + n];
      }
    }
  }
}
