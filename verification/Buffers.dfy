/**
  `Buffer`: a growable byte vector with a read and a write position. Seen from outside it
  is a first-in first-out byte queue, `Contents`; most of its users also rely on the read
  position being zero.
 */
module Buffers {
  import opened Numbers
  import opened Framing

  const BUF_SIZE := 4096

  const POOL := -1

  const NOBODY := -2

  function Zeros(n: nat): (z: seq<Byte>)
    ensures |z| == n
  {
    seq(n, _ => 0)
  }

  /** Memory with `data` copied over it from position `at` on. */
  function Overwrite(mem: seq<Byte>, at: nat, data: seq<Byte>): (m: seq<Byte>)
    requires at + |data| <= |mem|
    ensures |m| == |mem|
    ensures m[..at] == mem[..at] && m[at..at + |data|] == data && m[at + |data|..] == mem[at + |data|..]
  {
    mem[..at] + data + mem[at + |data|..]
  }

  class Buffer {
    var mem: seq<Byte>  // the vector; its size is what the buffer ring records
    var writePos: nat
    var readPos: nat
    ghost const owner: int   // tells buffers apart: whose it is, with NOBODY and POOL below zero,
    ghost const serial: int  // and which of the owner's

    ghost predicate Valid()
      reads this
    {
      readPos <= writePos <= |mem|
    }

    ghost function Contents(): seq<Byte>
      requires Valid()
      reads this
    {
      mem[readPos..writePos]
    }

    constructor (size: nat := BUF_SIZE, ghost owner: int := NOBODY, ghost serial: int := 0)
      ensures Valid() && Contents() == []
      ensures readPos == 0 && writePos == 0 && |mem| == size && this.owner == owner && this.serial == serial
    {
      mem, writePos, readPos := Zeros(size), 0, 0;
      this.owner, this.serial := owner, serial;
    }

    method Write(data: seq<Byte>)
      requires Valid()
      modifies this
      ensures Valid() && Contents() == old(Contents()) + data
      ensures readPos == old(readPos)
      ensures |mem| == Max(old(|mem|), old(writePos) + |data|)
    {
      if |data| > |mem| - writePos {
        mem := mem + Zeros(writePos + |data| - |mem|);
      }
      mem := Overwrite(mem, writePos, data);
      writePos := writePos + |data|;
    }

    method Read(len: nat) returns (dest: seq<Byte>)
      requires Valid()
      modifies this
      ensures Valid()
      ensures dest == old(Contents())[..Min(len, old(|Contents()|))]
      ensures Contents() == old(Contents())[|dest|..]
      ensures |mem| == old(|mem|)
    {
      var toRead := Min(len, writePos - readPos);
      dest := mem[readPos..readPos + toRead];
      readPos := readPos + toRead;
      if readPos == writePos {
        readPos, writePos := 0, 0;
      }
    }

    function GetBufferSize(): nat
      reads this
    {
      |mem|
    }

    function GetStoredSize(): (n: nat)
      requires Valid()
      reads this
      ensures n == |Contents()|
    {
      writePos - readPos
    }

    function GetRemainingSize(): nat
      requires Valid()
      reads this
    {
      |mem| - writePos
    }

    /** Bytes put behind the write position by the kernel or by the TLS library, which were
        given `GetWriteBuffer()` and `GetRemainingSize()`. */
    method Deposit(data: seq<Byte>)
      requires Valid() && |data| <= GetRemainingSize()
      modifies this`mem
      ensures Valid() && |mem| == old(|mem|) && Contents() == old(Contents())
      ensures mem[..writePos] == old(mem[..writePos])
      ensures mem[writePos..writePos + |data|] == data
    {
      mem := Overwrite(mem, writePos, data);
    }

    /** Only the positions move; the read position goes back to the start, so bytes that
        were already read come back unless there were none. */
    method OnWrite(bytes: nat)
      requires Valid() && bytes <= GetRemainingSize()
      modifies this`writePos, this`readPos
      ensures Valid() && readPos == 0 && writePos == old(writePos) + bytes
      ensures Contents() == old(mem[..readPos]) + old(Contents()) + mem[old(writePos)..old(writePos) + bytes]
      ensures Contents() == old(Contents()) + mem[old(writePos)..old(writePos) + bytes] <==> old(readPos) == 0
    {
      writePos := writePos + bytes;
      readPos := 0;
    }

    method OnRead(bytes: nat)
      requires Valid()
      modifies this`writePos, this`readPos
      ensures Valid()
      ensures Contents() == old(Contents())[Min(bytes, old(|Contents()|))..]
      ensures Contents() == [] ==> readPos == 0 && writePos == 0
    {
      readPos := readPos + bytes;
      if readPos >= writePos {
        readPos, writePos := 0, 0;
      }
    }

    method Append(other: Buffer)
      requires other != this && Valid() && other.Valid()
      modifies this
      ensures Valid() && Contents() == old(Contents()) + other.Contents()
      ensures readPos == old(readPos)
      ensures |mem| == Max(old(|mem|), old(writePos) + |other.Contents()|)
    {
      var appendSize := other.GetStoredSize();
      if writePos + appendSize > |mem| {
        mem := mem + Zeros(writePos + appendSize - |mem|);
      }
      mem := Overwrite(mem, writePos, other.mem[other.readPos..other.writePos]);
      writePos := writePos + appendSize;
    }

    /** Keeps the bytes from `offset` on, counted from the start of the vector and not from
        the read position: that is dropping `offset` stored bytes exactly when nothing had
        been read. */
    method PreserveFrom(offset: nat)
      requires Valid() && offset <= writePos
      modifies this
      ensures Valid() && readPos == 0 && |mem| == old(|mem|)
      ensures Contents() == old(mem[offset..writePos])
      ensures offset <= old(|Contents()|) ==>
                (Contents() == old(Contents())[offset..] <==> old(readPos) == 0)
    {
      var remaining := writePos - offset;
      mem := Overwrite(mem, 0, mem[offset..writePos]);
      readPos := 0;
      writePos := remaining;
    }

    method Reset()
      modifies this`writePos, this`readPos
      ensures Valid() && Contents() == [] && readPos == 0 && writePos == 0
    {
      readPos, writePos := 0, 0;
    }
  }
}
