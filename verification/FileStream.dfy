/**
 do_fwrite and do_fread on one open file: a stream laid out in whole blocks that are taken
 from the block bitmap as the file grows.  The code reads and writes the physical blocks
 between the first and the last one of a transfer, so it relies on their being consecutive.
 */
module FileStream {
  import opened Basics
  import opened Bitmap

  const BLOCK_SIZE := 0x1000
  const MAX_DIRECT_NUM := 12
  // FILE_READ_BLOCK_NUM and FILE_WRITE_BLOCK_NUM
  const BUFFER_BLOCKS := 5
  const ERROR_NO_FREE_BLOCK := -3

  class OpenFile {
    const disk: array<Byte>
    const bmp: array<bv8>
    var direct: seq<nat>
    var indirect1: nat
    var size: nat
    var freeBlocks: int
    var wOffset: nat
    var rOffset: nat
    // The first block of the file, or the next free block while the file is empty.
    ghost var base: nat
    // Everything written so far.
    ghost var data: seq<Byte>

    /** The set bits of the block bitmap are exactly those below p. */
    ghost predicate UsedBelow(p: nat)
      reads bmp
    {
      forall k: nat :: k < BYTE_SIZE * bmp.Length ==> Bit(bmp[..], k) == (k < p)
    }

    /** The number of blocks the file has. */
    ghost function Blocks(): nat
      reads this
    {
      if wOffset == 0 then 0 else wOffset / BLOCK_SIZE + 1
    }

    /**
     The file's blocks are consecutive and the last ones in use.  They hold what was written
     and zeros after it.  do_fwrite leaves the last block's number in the pointer-block field.
     */
    ghost predicate Valid()
      reads this, disk, bmp
    {
      && disk.Length == BLOCK_SIZE * BYTE_SIZE * bmp.Length && bmp.Length > 0 && disk as object != bmp as object
      && |direct| == MAX_DIRECT_NUM && Blocks() <= MAX_DIRECT_NUM && base + Blocks() <= BYTE_SIZE * bmp.Length
      && UsedBelow(base + Blocks())
      && (forall k :: 0 <= k < Blocks() ==> direct[k] == base + k) && (Blocks() == 0 ==> direct[0] == 0)
      && size == Blocks() * BLOCK_SIZE && indirect1 == (if Blocks() == 0 then 0 else base + Blocks() - 1)
      && |data| == wOffset
      && (forall y :: base * BLOCK_SIZE <= y < base * BLOCK_SIZE + wOffset ==> disk[y] == data[y - base * BLOCK_SIZE])
      && (forall y :: base * BLOCK_SIZE + wOffset <= y < (base + Blocks()) * BLOCK_SIZE ==> disk[y] == 0)
    }

    /** A file just created and opened: no blocks, and the bitmap's set bits form a prefix. */
    constructor (disk: array<Byte>, bmp: array<bv8>, freeBlocks: int, ghost p: nat)
      requires disk.Length == BLOCK_SIZE * BYTE_SIZE * bmp.Length && bmp.Length > 0 && disk as object != bmp as object
      requires p <= BYTE_SIZE * bmp.Length
      requires forall k: nat :: k < BYTE_SIZE * bmp.Length ==> Bit(bmp[..], k) == (k < p)
      ensures Valid() && data == [] && rOffset == 0 && base == p && this.disk == disk && this.bmp == bmp
    {
      this.disk, this.bmp, this.freeBlocks := disk, bmp, freeBlocks;
      direct := seq(MAX_DIRECT_NUM, _ => 0);
      indirect1, size, wOffset, rOffset := 0, 0, 0, 0;
      base, data := p, [];
    }

    /** clear_block_index */
    method ClearBlock(b: nat)
      requires (b + 1) * BLOCK_SIZE <= disk.Length
      modifies disk
      ensures forall x :: 0 <= x < disk.Length ==>
        disk[x] == if b * BLOCK_SIZE <= x < (b + 1) * BLOCK_SIZE then 0 else old(disk[x])
    {
      for i := 0 to BLOCK_SIZE
        invariant forall x :: 0 <= x < disk.Length ==>
          disk[x] == if b * BLOCK_SIZE <= x < b * BLOCK_SIZE + i then 0 else old(disk[x])
      {
        disk[b * BLOCK_SIZE + i] := 0;
      }
    }

    /** find_free_block, set_block_bmp and the writes that go with them: the next block, cleared. */
    method TakeBlock(ghost p: nat) returns (f: nat)
      requires UsedBelow(p) && p < BYTE_SIZE * bmp.Length && disk.Length == BLOCK_SIZE * BYTE_SIZE * bmp.Length
      requires disk as object != bmp as object
      modifies this`freeBlocks, bmp, disk
      ensures f == p && UsedBelow(p + 1) && freeBlocks == old(freeBlocks) - 1
      ensures forall x :: 0 <= x < disk.Length ==>
        disk[x] == if p * BLOCK_SIZE <= x < (p + 1) * BLOCK_SIZE then 0 else old(disk[x])
    {
      var r := FindFree(bmp, ERROR_NO_FREE_BLOCK);
      assert !Bit(bmp[..], p);
      assert r >= 0 ==> r >= p;
      f := r;
      Set(bmp, f);
      freeBlocks := freeBlocks - 1;
      ClearBlock(f);
    }

    /** The allocation loops of do_fwrite: blocks begin + first up to begin + need. */
    method Grow(begin: nat, first: nat, need: nat)
      requires disk.Length == BLOCK_SIZE * BYTE_SIZE * bmp.Length && disk as object != bmp as object
      requires |direct| == MAX_DIRECT_NUM
      requires first <= need && begin + need < MAX_DIRECT_NUM && base + begin + need < BYTE_SIZE * bmp.Length
      requires UsedBelow(base + begin + first)
      modifies this`direct, this`indirect1, this`size, this`freeBlocks, bmp, disk
      ensures |direct| == MAX_DIRECT_NUM && UsedBelow(base + begin + need + 1) && indirect1 == base + begin + need
      ensures size == old(size) + (need + 1 - first) * BLOCK_SIZE && freeBlocks == old(freeBlocks) - (need + 1 - first)
      ensures forall k :: 0 <= k < begin + first ==> direct[k] == old(direct)[k]
      ensures forall k :: begin + first <= k <= begin + need ==> direct[k] == base + k
      ensures forall x :: 0 <= x < disk.Length ==>
        disk[x] == if (base + begin + first) * BLOCK_SIZE <= x < (base + begin + need + 1) * BLOCK_SIZE then 0
          else old(disk[x])
    {
      var i := first;
      while i <= need
        invariant first <= i <= need + 1 && |direct| == MAX_DIRECT_NUM && UsedBelow(base + begin + i)
        invariant i > first ==> indirect1 == base + begin + i - 1
        invariant size == old(size) + (i - first) * BLOCK_SIZE && freeBlocks == old(freeBlocks) - (i - first)
        invariant forall k :: 0 <= k < begin + first ==> direct[k] == old(direct)[k]
        invariant forall k :: begin + first <= k < begin + i ==> direct[k] == base + k
        invariant forall x :: 0 <= x < disk.Length ==>
          disk[x] == if (base + begin + first) * BLOCK_SIZE <= x < (base + begin + i) * BLOCK_SIZE then 0
            else old(disk[x])
      {
        var f := TakeBlock(base + begin + i);
        indirect1 := f;
        size := size + BLOCK_SIZE;
        direct := direct[begin + i := f];
        i := i + 1;
      }
    }

    /** read_block of the blocks from first to last into consecutive places of a buffer. */
    method ReadBlocks(first: nat, last: nat, buf: array<Byte>)
      requires first <= last && (last + 1) * BLOCK_SIZE <= disk.Length
      requires (last - first + 1) * BLOCK_SIZE <= buf.Length && buf != disk
      modifies buf
      ensures forall x :: 0 <= x < (last - first + 1) * BLOCK_SIZE ==> buf[x] == disk[first * BLOCK_SIZE + x]
    {
      for b := first to last + 1
        invariant forall x :: 0 <= x < (b - first) * BLOCK_SIZE ==> buf[x] == disk[first * BLOCK_SIZE + x]
      {
        for i := 0 to BLOCK_SIZE
          invariant forall x :: 0 <= x < (b - first) * BLOCK_SIZE + i ==> buf[x] == disk[first * BLOCK_SIZE + x]
        {
          buf[(b - first) * BLOCK_SIZE + i] := disk[b * BLOCK_SIZE + i];
        }
      }
    }

    /** write_block of the blocks from first to last. */
    method WriteBlocks(first: nat, last: nat, buf: array<Byte>)
      requires first <= last && (last + 1) * BLOCK_SIZE <= disk.Length
      requires (last - first + 1) * BLOCK_SIZE <= buf.Length && buf != disk
      modifies disk
      ensures forall x :: 0 <= x < (last - first + 1) * BLOCK_SIZE ==> disk[first * BLOCK_SIZE + x] == buf[x]
      ensures forall x :: 0 <= x < disk.Length && !(first * BLOCK_SIZE <= x < (last + 1) * BLOCK_SIZE) ==>
        disk[x] == old(disk[x])
    {
      for b := first to last + 1
        invariant forall x :: 0 <= x < (b - first) * BLOCK_SIZE ==> disk[first * BLOCK_SIZE + x] == buf[x]
        invariant forall x :: 0 <= x < disk.Length && !(first * BLOCK_SIZE <= x < b * BLOCK_SIZE) ==>
          disk[x] == old(disk[x])
      {
        for i := 0 to BLOCK_SIZE
          invariant forall x :: 0 <= x < (b - first) * BLOCK_SIZE + i ==> disk[first * BLOCK_SIZE + x] == buf[x]
          invariant forall x :: 0 <= x < disk.Length && !(first * BLOCK_SIZE <= x < b * BLOCK_SIZE + i) ==>
            disk[x] == old(disk[x])
        {
          disk[b * BLOCK_SIZE + i] := buf[(b - first) * BLOCK_SIZE + i];
        }
      }
    }

    /** do_fread: within what was written it returns exactly that slice, and moves the read offset. */
    method Fread(length: nat) returns (buffer: array<Byte>)
      requires Valid() && rOffset + length <= wOffset && FitsAt(rOffset, length)
      modifies this`rOffset
      ensures Valid() && rOffset == old(rOffset) + length && data == old(data)
      ensures fresh(buffer) && buffer[..] == data[old(rOffset)..rOffset]
    {
      var begin, end := rOffset / BLOCK_SIZE, (rOffset + length) / BLOCK_SIZE;
      var staging := new Byte[BUFFER_BLOCKS * BLOCK_SIZE](_ => 0);
      ReadSpan(begin, end, staging);
      buffer := CopyOut(staging, rOffset % BLOCK_SIZE, length);
      forall x | 0 <= x < length ensures buffer[x] == data[rOffset + x] {
        assert begin * BLOCK_SIZE + (rOffset % BLOCK_SIZE + x) == rOffset + x;
      }
      rOffset := rOffset + length;
    }

    /** The first half of do_fread: the file's blocks from begin to end.  An empty file has block 0 in both places. */
    method ReadSpan(begin: nat, end: nat, staging: array<Byte>)
      requires Valid() && begin <= end <= wOffset / BLOCK_SIZE && end - begin < BUFFER_BLOCKS
      requires staging.Length == BUFFER_BLOCKS * BLOCK_SIZE && staging != disk && staging as object != bmp as object
      modifies staging
      ensures forall x :: 0 <= x < (end - begin + 1) * BLOCK_SIZE && begin * BLOCK_SIZE + x < wOffset ==>
        staging[x] == data[begin * BLOCK_SIZE + x]
    {
      ReadBlocks(direct[begin], direct[end], staging);
      forall x | 0 <= x < (end - begin + 1) * BLOCK_SIZE && begin * BLOCK_SIZE + x < wOffset
        ensures staging[x] == data[begin * BLOCK_SIZE + x]
      {
        assert disk[base * BLOCK_SIZE + (begin * BLOCK_SIZE + x)] == data[begin * BLOCK_SIZE + x];
      }
    }

    /** memcpy out of the staging buffer */
    method CopyOut(staging: array<Byte>, at: nat, length: nat) returns (buffer: array<Byte>)
      requires at + length <= staging.Length
      ensures fresh(buffer) && buffer.Length == length && forall x :: 0 <= x < length ==> buffer[x] == staging[at + x]
    {
      buffer := new Byte[length](_ => 0);
      for i := 0 to length
        invariant forall x :: 0 <= x < i ==> buffer[x] == staging[at + x]
        modifies buffer
      {
        buffer[i] := staging[at + i];
      }
    }

    /** memcpy into the staging buffer */
    method CopyIn(buffer: seq<Byte>, staging: array<Byte>, at: nat)
      requires at + |buffer| <= staging.Length
      modifies staging
      ensures forall x :: 0 <= x < staging.Length ==>
        staging[x] == if at <= x < at + |buffer| then buffer[x - at] else old(staging[x])
    {
      for i := 0 to |buffer|
        invariant forall x :: 0 <= x < staging.Length ==>
          staging[x] == if at <= x < at + i then buffer[x - at] else old(staging[x])
      {
        staging[at + i] := buffer[i];
      }
    }

    /** The second half of do_fwrite: read the blocks, lay the bytes over them, write them back. */
    method Overwrite(first: nat, last: nat, at: nat, buffer: seq<Byte>)
      requires first <= last < first + BUFFER_BLOCKS && (last + 1) * BLOCK_SIZE <= disk.Length
      requires at + |buffer| <= (last - first + 1) * BLOCK_SIZE
      modifies disk
      ensures forall x :: 0 <= x < disk.Length ==>
        disk[x] == if first * BLOCK_SIZE + at <= x < first * BLOCK_SIZE + at + |buffer|
          then buffer[x - (first * BLOCK_SIZE + at)] else old(disk[x])
    {
      var staging := new Byte[BUFFER_BLOCKS * BLOCK_SIZE](_ => 0);
      ReadBlocks(first, last, staging);
      CopyIn(buffer, staging, at);
      WriteBlocks(first, last, staging);
      forall x | 0 <= x < disk.Length
        ensures disk[x] == if first * BLOCK_SIZE + at <= x < first * BLOCK_SIZE + at + |buffer|
          then buffer[x - (first * BLOCK_SIZE + at)] else old(disk[x])
      {
        if first * BLOCK_SIZE <= x < (last + 1) * BLOCK_SIZE {
          assert disk[first * BLOCK_SIZE + (x - first * BLOCK_SIZE)] == staging[x - first * BLOCK_SIZE];
        }
      }
    }

    /** The first half of do_fwrite: the file gets the blocks up to `end`, zeroed; what was written stays. */
    method Extend(begin: nat, end: nat)
      requires Valid() && begin == wOffset / BLOCK_SIZE <= end < MAX_DIRECT_NUM && base + end < BYTE_SIZE * bmp.Length
      modifies this`direct, this`indirect1, this`size, this`freeBlocks, bmp, disk
      ensures |direct| == MAX_DIRECT_NUM && UsedBelow(base + end + 1) && indirect1 == base + end
      ensures size == (end + 1) * BLOCK_SIZE
      ensures freeBlocks + end + 1 == old(freeBlocks) + old(Blocks())
      ensures forall k :: 0 <= k <= end ==> direct[k] == base + k
      ensures forall y :: base * BLOCK_SIZE <= y < base * BLOCK_SIZE + wOffset ==>
        disk[y] == data[y - base * BLOCK_SIZE]
      ensures forall y :: base * BLOCK_SIZE + wOffset <= y < (base + end + 1) * BLOCK_SIZE ==> disk[y] == 0
      ensures forall x :: 0 <= x < disk.Length && !(base * BLOCK_SIZE <= x < (base + end + 1) * BLOCK_SIZE) ==>
        disk[x] == old(disk[x])
    {
      var need := end - begin;
      if wOffset == 0 {
        Grow(begin, 0, need);
      } else if need != 0 {
        Grow(begin, 1, need);
      }
    }

    /** The bytes go after everything written before, into blocks the file has by now. */
    method Append(begin: nat, end: nat, buffer: seq<Byte>)
      requires begin == wOffset / BLOCK_SIZE && end == (wOffset + |buffer|) / BLOCK_SIZE < begin + BUFFER_BLOCKS
      requires |direct| == MAX_DIRECT_NUM && end < MAX_DIRECT_NUM && (base + end + 1) * BLOCK_SIZE <= disk.Length
      requires direct[begin] == base + begin && direct[end] == base + end && |data| == wOffset
      requires forall y :: base * BLOCK_SIZE <= y < base * BLOCK_SIZE + wOffset ==>
        disk[y] == data[y - base * BLOCK_SIZE]
      requires forall y :: base * BLOCK_SIZE + wOffset <= y < (base + end + 1) * BLOCK_SIZE ==> disk[y] == 0
      modifies disk
      ensures forall y :: base * BLOCK_SIZE <= y < base * BLOCK_SIZE + wOffset + |buffer| ==>
        disk[y] == (data + buffer)[y - base * BLOCK_SIZE]
      ensures forall y :: base * BLOCK_SIZE + wOffset + |buffer| <= y < (base + end + 1) * BLOCK_SIZE ==> disk[y] == 0
      ensures forall x :: 0 <= x < disk.Length && !(base * BLOCK_SIZE <= x < (base + end + 1) * BLOCK_SIZE) ==>
        disk[x] == old(disk[x])
    {
      assert direct[begin] * BLOCK_SIZE + wOffset % BLOCK_SIZE == base * BLOCK_SIZE + wOffset;
      Overwrite(direct[begin], direct[end], wOffset % BLOCK_SIZE, buffer);
    }

    /** do_fwrite: appends, keeps everything written before, and changes no block that is not the file's. */
    method Fwrite(buffer: seq<Byte>) returns (length: nat)
      requires Valid() && wOffset + |buffer| > 0 && FitsAt(wOffset, |buffer|)
      requires (wOffset + |buffer|) / BLOCK_SIZE < MAX_DIRECT_NUM
      requires base + (wOffset + |buffer|) / BLOCK_SIZE < BYTE_SIZE * bmp.Length
      modifies this, disk, bmp
      ensures Valid() && data == old(data) + buffer && rOffset == old(rOffset) && base == old(base)
      ensures length == |buffer|
      ensures freeBlocks + Blocks() == old(freeBlocks + Blocks())
      ensures forall x :: 0 <= x < disk.Length && !(base * BLOCK_SIZE <= x < (base + Blocks()) * BLOCK_SIZE) ==>
        disk[x] == old(disk[x])
    {
      length := |buffer|;
      var begin, end := wOffset / BLOCK_SIZE, (wOffset + length) / BLOCK_SIZE;
      Extend(begin, end);
      Append(begin, end, buffer);
      data := data + buffer;
      wOffset := wOffset + length;
      assert Blocks() == end + 1;
    }
  }

  /** A transfer of this length at this offset fits the staging buffer. */
  predicate FitsAt(offset: nat, length: nat) {
    (offset + length) / BLOCK_SIZE - offset / BLOCK_SIZE < BUFFER_BLOCKS
  }

  /** A call on the open file. */
  datatype Op = Write(buffer: seq<Byte>) | Read(length: nat)

  /**
   The calls, one after the other from these offsets, are ones the code is made for: an
   empty file is not written to with nothing,
     each transfer fits the staging buffer where it falls, the file stays within its
   direct blocks and the `room` blocks there are, and reads stay within what was written by then.
   */
  predicate Fits(ops: seq<Op>, wOffset: nat, rOffset: nat, room: nat) {
    ops == [] || match ops[0]
      case Write(buffer) =>
        var end := wOffset + |buffer|;
        && end > 0 && FitsAt(wOffset, |buffer|)
        && end / BLOCK_SIZE < MAX_DIRECT_NUM && end / BLOCK_SIZE < room && Fits(ops[1..], end, rOffset, room)
      case Read(length) =>
        rOffset + length <= wOffset && FitsAt(rOffset, length) && Fits(ops[1..], wOffset, rOffset + length, room)
  }

  /** Everything the calls write. */
  function Written(ops: seq<Op>): seq<Byte> {
    if ops == [] then []
    else if ops[0].Write? then ops[0].buffer + Written(ops[1..])
    else Written(ops[1..])
  }

  /** The piece a read takes from the stream, and the offset after it; a write takes none. */
  function First(op: Op, stream: seq<Byte>, rOffset: nat): (seq<seq<Byte>>, nat) {
    if op.Read? && rOffset + op.length <= |stream|
    then ([stream[rOffset..rOffset + op.length]], rOffset + op.length)
    else ([], rOffset)
  }

  /** Cutting a stream into pieces of the lengths read, from an offset on. */
  function Cut(ops: seq<Op>, stream: seq<Byte>, rOffset: nat): seq<seq<Byte>> {
    if ops == [] then []
    else
      var (pieces, next) := First(ops[0], stream, rOffset);
      pieces + Cut(ops[1..], stream, next)
  }

  lemma Regroup(a: seq<Byte>, b: seq<Byte>, c: seq<Byte>)
    ensures (a + b) + c == a + (b + c)
  {
  }

  /** What the first call returns does not depend on what is written after it. */
  lemma CutFirst(ops: seq<Op>, stream: seq<Byte>, more: seq<Byte>, rOffset: nat)
    requires ops != [] && (ops[0].Read? ==> rOffset + ops[0].length <= |stream|)
    ensures var (pieces, next) := First(ops[0], stream, rOffset);
      Cut(ops, stream + more, rOffset) == pieces + Cut(ops[1..], stream + more, next)
    ensures Written(ops) == Written([ops[0]]) + Written(ops[1..])
  {
    if ops[0].Read? {
      var end := rOffset + ops[0].length;
      assert (stream + more)[rOffset..end] == stream[rOffset..end];
    }
  }

  /**
   Any interleaving of writes and reads on an open file: the file ends up with everything
   written, in order, and the reads return that one stream, cut into the lengths asked for.
   */
  method RoundTrip(f: OpenFile, ops: seq<Op>) returns (out: seq<seq<Byte>>)
    requires f.Valid()
    requires Fits(ops, f.wOffset, f.rOffset, BYTE_SIZE * f.bmp.Length - f.base)
    modifies f, f.disk, f.bmp
    ensures f.Valid() && f.data == old(f.data) + Written(ops) && f.base == old(f.base)
    ensures out == Cut(ops, f.data, old(f.rOffset))
    decreases |ops|
  {
    if ops == [] {
      return [];
    }
    var pieces := Perform(f, ops[0]);
    ghost var stream, more := f.data, Written(ops[1..]);
    out := RoundTrip(f, ops[1..]);
    CutFirst(ops, stream, more, old(f.rOffset));
    Regroup(old(f.data), Written([ops[0]]), more);
    out := pieces + out;
  }

  /** One call: do_fwrite or do_fread. */
  method Perform(f: OpenFile, op: Op) returns (pieces: seq<seq<Byte>>)
    requires f.Valid()
    requires Fits([op], f.wOffset, f.rOffset, BYTE_SIZE * f.bmp.Length - f.base)
    modifies f, f.disk, f.bmp
    ensures f.Valid() && f.base == old(f.base) && f.data == old(f.data) + Written([op])
    ensures (pieces, f.rOffset) == First(op, f.data, old(f.rOffset))
  {
    match op
    case Write(buffer) =>
      var _ := f.Fwrite(buffer);
      pieces := [];
    case Read(length) =>
      var buffer := f.Fread(length);
      pieces := [buffer[..]];
  }
}
