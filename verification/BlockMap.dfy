/**
 The block map of an inode: the first 12 block indices are in the inode, the next 1024 in a
 pointer block that is taken when the first of them is written.
 */
module BlockMap {
  import opened Bitmap

  const FIRST_POINTER := 12
  const POINTER_PER_BLOCK := 1024
  const SECOND_POINTER := FIRST_POINTER + POINTER_PER_BLOCK
  const BLOCK_SIZE := 0x1000
  const ERROR_NO_FREE_BLOCK := -3

  class Inode {
    var direct: seq<nat>
    var indirect1: nat
    var size: nat
    constructor ()
      ensures direct == seq(FIRST_POINTER, _ => 0) && indirect1 == 0 && size == 0
    {
      direct, indirect1, size := seq(FIRST_POINTER, _ => 0), 0, 0;
    }
  }

  class Volume {
    // The words of every block.
    const block: array<seq<nat>>
    const bmp: array<bv8>
    var freeBlocks: int
    // The inodes of the volume.
    ghost var inodes: set<Inode>

    ghost predicate InodeOk(o: Inode)
      reads o, bmp
    {
      |o.direct| == FIRST_POINTER &&
        (o.indirect1 != 0 ==> o.indirect1 < BYTE_SIZE * bmp.Length && Bit(bmp[..], o.indirect1))
    }

    /** No two inodes share a pointer block, and pointer blocks are in use. */
    ghost predicate Valid()
      reads this, block, bmp, inodes
    {
      && block.Length == BYTE_SIZE * bmp.Length && block as object != bmp as object && bmp.Length > 0 && Bit(bmp[..], 0)
      && (forall b :: 0 <= b < block.Length ==> |block[b]| == POINTER_PER_BLOCK)
      && (forall o :: o in inodes ==> InodeOk(o))
      && (forall o, p :: o in inodes && p in inodes && o != p && o.indirect1 != 0 ==> o.indirect1 != p.indirect1)
    }

    /** The volume over its blocks and its bitmap, with no files yet. */
    constructor (block: array<seq<nat>>, bmp: array<bv8>, freeBlocks: int)
      requires block.Length == BYTE_SIZE * bmp.Length && block as object != bmp as object && bmp.Length > 0
      requires Bit(bmp[..], 0)
      requires forall b :: 0 <= b < block.Length ==> |block[b]| == POINTER_PER_BLOCK
      ensures Valid() && inodes == {}
    {
      this.block, this.bmp, this.freeBlocks, this.inodes := block, bmp, freeBlocks, {};
    }

    method AddFile() returns (o: Inode)
      requires Valid()
      modifies this`inodes
      ensures Valid() && fresh(o) && inodes == old(inodes) + {o} && o.indirect1 == 0
    {
      assert forall p :: p in inodes ==> InodeOk(p);
      o := new Inode();
      inodes := inodes + {o};
    }

    ghost predicate InodeShape(o: Inode)
      reads o, block
    {
      |o.direct| == FIRST_POINTER && o.indirect1 < block.Length && |block[o.indirect1]| == POINTER_PER_BLOCK
    }

    /** The block at an index of a file: 0 if there is none, -1 if there is no pointer block for it. */
    ghost function At(o: Inode, idx: nat): int
      requires InodeShape(o) && idx < SECOND_POINTER
      reads o, block
    {
      if idx < FIRST_POINTER then o.direct[idx] else if o.indirect1 == 0 then -1
        else block[o.indirect1][idx - FIRST_POINTER]
    }

    lemma InodeIn(o: Inode)
      requires Valid() && o in inodes
      ensures InodeShape(o)
    {
    }

    /** get_block_index_in_inode below SECOND_POINTER */
    method Get(o: Inode, idx: nat) returns (r: int)
      requires Valid() && o in inodes && idx < SECOND_POINTER
      ensures InodeShape(o) && r == At(o, idx)
    {
      InodeIn(o);
      if idx < FIRST_POINTER {
        return o.direct[idx];
      }
      if o.indirect1 == 0 {
        return -1;
      }
      var buffer1 := block[o.indirect1];
      return buffer1[idx - FIRST_POINTER];
    }

    /** find_free_block, set_block_bmp and clear_block_index: a block that was free, zeroed. */
    method TakeBlock() returns (f: nat)
      requires Valid() && exists b :: 0 <= b < block.Length && !Bit(bmp[..], b)
      modifies this`freeBlocks, block, bmp
      ensures 0 < f < block.Length && LeastClear(old(bmp[..]), f) && freeBlocks == old(freeBlocks) - 1
      ensures forall k: nat :: Bit(bmp[..], k) == (k == f || Bit(old(bmp[..]), k))
      ensures block[..] == old(block[..])[f := seq(POINTER_PER_BLOCK, _ => 0)]
    {
      var r := FindFree(bmp, ERROR_NO_FREE_BLOCK);
      f := r;
      Set(bmp, f);
      freeBlocks := freeBlocks - 1;
      block[f] := seq(POINTER_PER_BLOCK, _ => 0);
    }

    /** The first write of an index that needs it: the file gets its pointer block. */
    method AddPointerBlock(o: Inode)
      requires Valid() && o in inodes && o.indirect1 == 0 && exists b :: 0 <= b < block.Length && !Bit(bmp[..], b)
      modifies this`freeBlocks, block, bmp, o
      ensures Valid() && o.direct == old(o.direct) && LeastClear(old(bmp[..]), o.indirect1) && o.indirect1 != 0
      ensures freeBlocks == old(freeBlocks) - 1 && o.size == old(o.size) + BLOCK_SIZE
      ensures forall k: nat :: Bit(bmp[..], k) == (k == o.indirect1 || Bit(old(bmp[..]), k))
      ensures o.indirect1 < block.Length && block[..] == old(block[..])[o.indirect1 := seq(POINTER_PER_BLOCK, _ => 0)]
    {
      assert forall p :: p in inodes ==> InodeOk(p);
      var f := TakeBlock();
      o.indirect1 := f;
      o.size := o.size + BLOCK_SIZE;
    }

    /**
     write_block_index_in_inode below SECOND_POINTER: the index now names the block; every
     other index of the file that was mapped, and every index of every other file, is
     unchanged; at most one block more is in use, one that was free, as the pointer block.
     */
    method Write(o: Inode, idx: nat, b: nat)
      requires Valid() && o in inodes && idx < SECOND_POINTER
      requires idx >= FIRST_POINTER && o.indirect1 == 0 ==> exists b :: 0 <= b < block.Length && !Bit(bmp[..], b)
      modifies this`freeBlocks, block, bmp, o
      ensures Valid() && (forall p :: p in inodes ==> InodeShape(p))
      ensures At(o, idx) == b
      ensures forall j :: 0 <= j < SECOND_POINTER && j != idx && old(InodeShape(o)) && old(At(o, j)) > 0 ==>
        At(o, j) == old(At(o, j))
      ensures forall p, j :: p in inodes && p != o && 0 <= j < SECOND_POINTER && old(InodeShape(p)) ==>
        At(p, j) == old(At(p, j))
      ensures forall c :: 0 <= c < block.Length && (idx < FIRST_POINTER || c != o.indirect1) ==>
        block[c] == old(block[c])
      ensures if old(o.indirect1) != 0 || idx < FIRST_POINTER
        then o.indirect1 == old(o.indirect1) && freeBlocks == old(freeBlocks) && o.size == old(o.size)
        else LeastClear(old(bmp[..]), o.indirect1) && freeBlocks == old(freeBlocks) - 1
             && o.size == old(o.size) + BLOCK_SIZE
      ensures forall k: nat :: Bit(bmp[..], k) == ((k != 0 && k == o.indirect1) || Bit(old(bmp[..]), k))
    {
      assert forall p :: p in inodes ==> InodeOk(p);
      if idx < FIRST_POINTER {
        o.direct := o.direct[idx := b];
        return;
      }
      if o.indirect1 == 0 {
        AddPointerBlock(o);
      }
      var buffer1 := block[o.indirect1];
      block[o.indirect1] := buffer1[idx - FIRST_POINTER := b];
    }
  }
}
