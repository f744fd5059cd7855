/**
 Allocation of blocks and inodes with write-through of the superblock and the two bitmaps:
 who owns which block, what the free counters promise, and what a remount finds.
 */
module Alloc {
  import opened Bitmap

  const BLOCK_NUM := 0x40000
  const INODE_NUM := 0x2000
  const DATA_BLOCK_INDEX := 266
  const MAX_DIRECT_NUM := 12
  const ERROR_NO_FREE_INODE := -2
  const ERROR_NO_FREE_BLOCK := -3

  datatype Inode = Inode(direct: seq<nat>, indirect1: nat)

  /** What the two bitmap buffers and the two counters hold when the machine starts; buffers not given are zero. */
  datatype Memory = Memory(bmp: seq<bv8>, ibmp: seq<bv8>, freeBlocks: int, freeInodes: int)

  /** do_touch; do_mkdir or do_symlink; one block of do_fwrite; do_rmdir; a restart that loses memory. */
  datatype Op =
    | NewFile
    | NewWithBlock
    | GrowFile(inode: nat, index: nat)
    | Remove(inode: nat)
    | Restart(junk: Memory)

  /** The blocks an inode names. */
  ghost function Owned(o: Inode): set<nat> {
    (set b | b in o.direct && b != 0) + (if o.indirect1 == 0 then {} else {o.indirect1})
  }

  /** The clear bits of a bitmap. */
  ghost function Clear(bytes: seq<bv8>): set<nat> {
    set k: nat | k < BYTE_SIZE * |bytes| && !Bit(bytes, k)
  }

  /** Setting a clear bit takes one from the clear bits. */
  lemma ClearAfterSet(was: seq<bv8>, now: seq<bv8>, f: nat)
    requires |now| == |was| && f in Clear(was) && forall k: nat :: Bit(now, k) == (k == f || Bit(was, k))
    ensures Clear(now) == Clear(was) - {f} && |Clear(now)| == |Clear(was)| - 1
  {
  }

  /** Clearing bits never makes fewer clear bits. */
  lemma ClearAfterUnset(was: seq<bv8>, now: seq<bv8>, f: nat)
    requires |now| == |was| && forall k: nat :: Bit(now, k) == (k != f && Bit(was, k))
    ensures |Clear(was)| <= |Clear(now)|
  {
    assert Clear(was) <= Clear(now);
    SubsetCard(Clear(was), Clear(now));
  }

  lemma {:induction false} SubsetCard(a: set<nat>, b: set<nat>)
    requires a <= b
    ensures |a| <= |b|
  {
    if a == {} {
    } else {
      var x :| x in a;
      SubsetCard(a - {x}, b - {x});
    }
  }

  class FileSystem {
    // The buffers in memory: block bitmap, inode bitmap, and the two counters of the superblock.
    const bmp: array<bv8>
    const ibmp: array<bv8>
    var freeBlocks: int
    var freeInodes: int
    // The same on disk.
    const diskBmp: array<bv8>
    const diskIbmp: array<bv8>
    var diskFreeBlocks: int
    var diskFreeInodes: int
    // The inode table on disk.
    var table: map<nat, Inode>

    ghost predicate Shape()
      reads this
    {
      && bmp.Length == diskBmp.Length == BLOCK_NUM / BYTE_SIZE
      && ibmp.Length == diskIbmp.Length == INODE_NUM / BYTE_SIZE
      && bmp != ibmp && bmp != diskBmp && bmp != diskIbmp && ibmp != diskBmp && ibmp != diskIbmp && diskBmp != diskIbmp
    }

    /** Memory and disk agree. */
    ghost predicate Synced()
      reads this, bmp, ibmp, diskBmp, diskIbmp
    {
      diskBmp[..] == bmp[..] && diskIbmp[..] == ibmp[..] && diskFreeBlocks == freeBlocks && diskFreeInodes == freeInodes
    }

    ghost predicate Live(i: nat)
      reads ibmp
    {
      Bit(ibmp[..], i)
    }

    /** A live inode is in the table, and its blocks are data blocks in use. */
    ghost predicate InodeOk(i: nat)
      reads this, bmp, ibmp
    {
      && (Live(i) ==> i in table && |table[i].direct| == MAX_DIRECT_NUM)

      && (Live(i) && i in table ==>
            forall b :: b in Owned(table[i]) ==> DATA_BLOCK_INDEX <= b < BLOCK_NUM && Bit(bmp[..], b))
    }

    ghost predicate Apart(i: nat, j: nat)
      reads this, ibmp
    {
      Live(i) && Live(j) && i != j && i in table && j in table ==> Owned(table[i]) !! Owned(table[j])
    }

    ghost predicate Valid()
      reads this, bmp, ibmp, diskBmp, diskIbmp
    {
      && Shape() && Synced()
      && (forall b :: 0 <= b < DATA_BLOCK_INDEX ==> Bit(bmp[..], b))
      && freeBlocks <= |Clear(bmp[..])| && freeInodes <= |Clear(ibmp[..])|
      && (forall i: nat :: InodeOk(i)) && (forall i: nat, j: nat :: Apart(i, j))
    }

    /** No data block in use is lost: some live inode owns it. */
    ghost predicate Accounted()
      reads this, bmp, ibmp
    {
      AllOwned(bmp[..], ibmp[..], table)
    }

    /** Besides, every live inode lists its blocks from entry 0 on, so that a removal finds all of them. */
    ghost predicate Whole()
      reads this, bmp, ibmp
    {
      Accounted() && AllPacked(ibmp[..], table)
    }

    /** sync_to_disk_block_bmp, sync_to_disk_inode_bmp and, the other way, the reads of init_fs */
    static method Sync(from: array<bv8>, to: array<bv8>)
      requires from.Length == to.Length && from != to
      modifies to
      ensures to[..] == from[..]
    {
      for i := 0 to from.Length
        invariant to[..i] == from[..i]
      {
        to[i] := from[i];
      }
    }

    /** find_free_block, set_block_bmp, sync, count down, sync: the least free block, now in use. */
    method TakeBlock() returns (f: nat)
      requires Shape() && Synced() && Clear(bmp[..]) != {}
      modifies this`freeBlocks, this`diskFreeBlocks, bmp, diskBmp
      ensures f < BLOCK_NUM && !Bit(old(bmp[..]), f) && (forall k :: 0 <= k < f ==> Bit(old(bmp[..]), k))
      ensures forall k: nat :: Bit(bmp[..], k) == (k == f || Bit(old(bmp[..]), k))
      ensures Synced() && freeBlocks == old(freeBlocks) - 1 && |Clear(bmp[..])| == |Clear(old(bmp[..]))| - 1
    {
      ghost var was := bmp[..];
      ghost var k :| k in Clear(was);
      var r := FindFree(bmp, ERROR_NO_FREE_BLOCK);
      assert !Bit(bmp[..], k);
      f := r;
      Set(bmp, f);
      ClearAfterSet(was, bmp[..], f);
      Sync(bmp, diskBmp);
      freeBlocks := freeBlocks - 1;
      diskFreeBlocks := freeBlocks;
    }

    /** find_free_inode, set_inode_bmp, sync, count down, sync: the least free inode, now in use. */
    method TakeInode() returns (f: nat)
      requires Shape() && Synced() && Clear(ibmp[..]) != {}
      modifies this`freeInodes, this`diskFreeInodes, ibmp, diskIbmp
      ensures f < INODE_NUM && !Bit(old(ibmp[..]), f) && (forall k :: 0 <= k < f ==> Bit(old(ibmp[..]), k))
      ensures forall k: nat :: Bit(ibmp[..], k) == (k == f || Bit(old(ibmp[..]), k))
      ensures Synced() && freeInodes == old(freeInodes) - 1 && |Clear(ibmp[..])| == |Clear(old(ibmp[..]))| - 1
    {
      ghost var was := ibmp[..];
      ghost var k :| k in Clear(was);
      var r := FindFree(ibmp, ERROR_NO_FREE_INODE);
      assert !Bit(ibmp[..], k);
      f := r;
      Set(ibmp, f);
      ClearAfterSet(was, ibmp[..], f);
      Sync(ibmp, diskIbmp);
      freeInodes := freeInodes - 1;
      diskFreeInodes := freeInodes;
    }

    /** do_touch: a new inode without blocks */
    method Touch() returns (i: nat)
      requires Valid() && Clear(ibmp[..]) != {}
      modifies this, ibmp, diskIbmp
      ensures Valid() && !old(Live(i)) && table == old(table)[i := Inode(seq(MAX_DIRECT_NUM, _ => 0), 0)]
      ensures (forall j :: 0 <= j < i ==> old(Live(j))) && (forall j: nat :: Live(j) == (j == i || old(Live(j))))
      ensures freeBlocks == old(freeBlocks) && freeInodes == old(freeInodes) - 1
      ensures old(Whole()) ==> Whole()
    {
      i := TakeInode();
      table := table[i := Inode(seq(MAX_DIRECT_NUM, _ => 0), 0)];
      assert Owned(table[i]) == {} && Packed(table[i]);
      forall j: nat ensures InodeOk(j) { assert old(InodeOk(j)); }
      forall j: nat, k: nat ensures Apart(j, k) { assert old(Apart(j, k)); }
      if old(Whole()) {
        AddKeeps(old(bmp[..]), old(ibmp[..]), old(table), bmp[..], ibmp[..], i, table[i]);
      }
    }

    /** do_mkdir and do_symlink: a new inode with one block of its own, in its first entry */
    method MakeWithBlock() returns (i: nat, f: nat)
      requires Valid() && Clear(ibmp[..]) != {} && Clear(bmp[..]) != {}
      modifies this, bmp, diskBmp, ibmp, diskIbmp
      ensures Valid() && !old(Live(i)) && (forall j :: 0 <= j < i ==> old(Live(j)))
      ensures TakenBy(old(bmp[..]), bmp[..], f) && table == old(table)[i := FirstBlock(f)]
      ensures forall j: nat :: Live(j) == (j == i || old(Live(j)))
      ensures freeBlocks == old(freeBlocks) - 1 && freeInodes == old(freeInodes) - 1
      ensures old(Whole()) ==> Whole()
    {
      i := TakeInode();
      f := TakeBlock();
      assert f >= DATA_BLOCK_INDEX;
      table := table[i := FirstBlock(f)];
      FirstBlockOwned(f);
      forall j: nat ensures InodeOk(j) { assert old(InodeOk(j)); }
      forall j: nat, k: nat ensures Apart(j, k) {
        assert old(Apart(j, k)) && old(InodeOk(j)) && old(InodeOk(k));
      }
      assert Packed(FirstBlock(f));
      if old(Whole()) {
        AddKeeps(old(bmp[..]), old(ibmp[..]), old(table), bmp[..], ibmp[..], i, FirstBlock(f));
      }
    }

    /** What validity says about the blocks of one live inode. */
    lemma OwnBlocks(i: nat)
      requires Valid() && Live(i)
      ensures i in table && |table[i].direct| == MAX_DIRECT_NUM
      ensures forall b :: b in Owned(table[i]) ==> DATA_BLOCK_INDEX <= b && Bit(bmp[..], b)
      ensures forall j: nat :: j != i && Bit(ibmp[..], j) && j in table ==> Owned(table[j]) !! Owned(table[i])
    {
      assert InodeOk(i);
      forall j: nat | j != i && Bit(ibmp[..], j) && j in table ensures Owned(table[j]) !! Owned(table[i]) {
        assert Apart(i, j);
      }
    }

    /** One turn of the allocation loops of do_fwrite: the least free block for index k of a live file */
    method Grow(i: nat, k: nat) returns (f: nat)
      requires Valid() && Live(i) && k < MAX_DIRECT_NUM && Clear(bmp[..]) != {}
      modifies this, bmp, diskBmp
      ensures Valid() && i in old(table) && |old(table)[i].direct| == MAX_DIRECT_NUM
      ensures TakenBy(old(bmp[..]), bmp[..], f) && table == old(table)[i := Grown(old(table)[i], k, f)]
      ensures freeBlocks == old(freeBlocks) - 1
      ensures old(Whole()) ==> (Accounted() <==> old(table)[i].direct[k] == 0)
      ensures old(Whole()) ==> (Whole() <==> Appends(old(table)[i].direct, k))
    {
      OwnBlocks(i);
      f := TakeBlock();
      assert f >= DATA_BLOCK_INDEX;
      var was := table[i];
      table := table[i := Grown(was, k, f)];
      OwnedAfter(was, k, f);
      forall j: nat ensures InodeOk(j) { assert old(InodeOk(j)); }
      forall j: nat, l: nat ensures Apart(j, l) {
        assert old(Apart(j, l)) && old(InodeOk(j)) && old(InodeOk(l));
      }
      if old(Whole()) {
        GrowExact(old(bmp[..]), ibmp[..], old(table), bmp[..], i, k, f);
      }
    }

    /** release_inode_block of an inode with an empty direct entry: exactly the blocks before it are free again. */
    method Release(o: Inode)
      requires bmp.Length == BLOCK_NUM / BYTE_SIZE && |o.direct| == MAX_DIRECT_NUM && 0 in o.direct
      requires forall b :: b in Owned(o) ==> b < BLOCK_NUM
      modifies bmp
      ensures forall k: nat :: Bit(bmp[..], k) == (k !in Listed(o.direct) && Bit(old(bmp[..]), k))
      ensures |Clear(old(bmp[..]))| <= |Clear(bmp[..])|
    {
      var i := 0;
      while i < MAX_DIRECT_NUM && o.direct[i] != 0
        invariant 0 <= i <= MAX_DIRECT_NUM && 0 !in o.direct[..i]
        invariant forall k: nat :: Bit(bmp[..], k) == (k !in o.direct[..i] && Bit(old(bmp[..]), k))
        invariant |Clear(old(bmp[..]))| <= |Clear(bmp[..])|
      {
        ghost var was := bmp[..];
        assert o.direct[i] in Owned(o);
        Unset(bmp, o.direct[i]);
        ClearAfterUnset(was, bmp[..], o.direct[i]);
        assert o.direct[..i + 1] == o.direct[..i] + [o.direct[i]];
        i := i + 1;
      }
      assert o.direct[..i] == o.direct ==> 0 !in o.direct;
      ListedIs(o.direct, i);
    }

    /** do_rmdir of a directory other than the root and the current one */
    method RemoveInode(i: nat)
      requires Valid() && Live(i) && i < INODE_NUM && i in table && 0 in table[i].direct
      modifies this, bmp, diskBmp, ibmp, diskIbmp
      ensures Valid() && table == old(table) && freeBlocks == old(freeBlocks) && freeInodes == old(freeInodes)
      ensures forall j: nat :: Live(j) == (j != i && old(Live(j)))
      ensures forall k: nat :: Bit(bmp[..], k) == (k !in Listed(table[i].direct) && Bit(old(bmp[..]), k))
      ensures old(Whole()) ==> Whole()
    {
      assert InodeOk(i);
      var child := table[i];
      ghost var was := ibmp[..];
      Unset(ibmp, i);
      ClearAfterUnset(was, ibmp[..], i);
      Sync(ibmp, diskIbmp);
      Release(child);
      Sync(bmp, diskBmp);
      ListedOwned(child);
      forall j: nat ensures InodeOk(j) { assert old(InodeOk(j)) && old(Apart(i, j)); }
      forall j: nat, k: nat ensures Apart(j, k) { assert old(Apart(j, k)); }
      if old(Whole()) {
        RemoveKeeps(old(bmp[..]), old(ibmp[..]), table, bmp[..], ibmp[..], i);
      }
    }

    /** init_fs on a disk that holds a file system */
    method Mount()
      requires Shape()
      modifies this`freeBlocks, this`freeInodes, bmp, ibmp
      ensures Synced()
    {
      freeBlocks := diskFreeBlocks;
      freeInodes := diskFreeInodes;
      Sync(diskBmp, bmp);
      Sync(diskIbmp, ibmp);
    }

    /** Whatever the memory holds, a remount after a complete operation restores it. */
    method Remount(junk: Memory)
      requires Valid()
      modifies this`freeBlocks, this`freeInodes, bmp, ibmp
      ensures Valid() && bmp[..] == old(bmp[..]) && ibmp[..] == old(ibmp[..])
      ensures freeBlocks == old(freeBlocks) && freeInodes == old(freeInodes) && table == old(table)
    {
      ghost var blocks, inodes := bmp[..], ibmp[..];
      forall k | 0 <= k < bmp.Length { bmp[k] := if k < |junk.bmp| then junk.bmp[k] else 0; }
      forall k | 0 <= k < ibmp.Length { ibmp[k] := if k < |junk.ibmp| then junk.ibmp[k] else 0; }
      freeBlocks, freeInodes := junk.freeBlocks, junk.freeInodes;
      Mount();
      assert bmp[..] == blocks && ibmp[..] == inodes;
      forall j: nat ensures InodeOk(j) { assert old(InodeOk(j)); }
      forall j: nat, k: nat ensures Apart(j, k) { assert old(Apart(j, k)); }
    }

    /** do_mkfs: the metadata blocks and the root directory's block are in use. */
    constructor ()
      ensures Valid() && fresh(bmp) && fresh(ibmp) && fresh(diskBmp) && fresh(diskIbmp)
      ensures Whole() && (forall i: nat :: Live(i) <==> i == 0) && table == map[0 := FirstBlock(DATA_BLOCK_INDEX)]
      ensures freeBlocks == |Clear(bmp[..])| == BLOCK_NUM - DATA_BLOCK_INDEX - 1
      ensures freeInodes == |Clear(ibmp[..])| == INODE_NUM - 1
    {
      var zeros := new bv8[BLOCK_NUM / BYTE_SIZE](_ => 0);
      var izeros := new bv8[INODE_NUM / BYTE_SIZE](_ => 0);
      bmp, ibmp := zeros, izeros;
      diskBmp := new bv8[BLOCK_NUM / BYTE_SIZE](_ => 0);
      diskIbmp := new bv8[INODE_NUM / BYTE_SIZE](_ => 0);
      freeBlocks, freeInodes := BLOCK_NUM - DATA_BLOCK_INDEX, INODE_NUM;
      diskFreeBlocks, diskFreeInodes := BLOCK_NUM - DATA_BLOCK_INDEX, INODE_NUM;
      table := map[];
      new;
      MarkMetadata(bmp);
      Sync(bmp, diskBmp);
      AllClear(ibmp[..]);
      MakeRoot();
    }

    /** The root directory: the first inode and the first data block. */
    method MakeRoot()
      requires Shape() && Synced()
      requires (forall k: nat :: Bit(bmp[..], k) == (k < DATA_BLOCK_INDEX)) && (forall k: nat :: !Bit(ibmp[..], k))
      requires freeBlocks == |Clear(bmp[..])| && freeInodes == |Clear(ibmp[..])|
      modifies this, bmp, diskBmp, ibmp, diskIbmp
      ensures Valid() && Whole() && (forall i: nat :: Live(i) <==> i == 0)
      ensures table == map[0 := FirstBlock(DATA_BLOCK_INDEX)]
      ensures freeBlocks == |Clear(bmp[..])| == old(freeBlocks) - 1
      ensures freeInodes == |Clear(ibmp[..])| == old(freeInodes) - 1
    {
      assert 0 in Clear(ibmp[..]) && DATA_BLOCK_INDEX in Clear(bmp[..]);
      var root := TakeInode();
      var f := TakeBlock();
      RootIs(bmp[..], ibmp[..], root, f);
      table := map[root := FirstBlock(f)];
    }

    /** A file that is written from its beginning twice: its first block is then in use and nobody's. */
    method GrowTwice(i: nat)
      requires Valid() && Whole() && Live(i) && i in table && table[i] == Inode(seq(MAX_DIRECT_NUM, _ => 0), 0)
      requires freeBlocks >= 2
      modifies this, bmp, diskBmp
      ensures Valid() && !Accounted()
    {
      var first := Grow(i, 0);
      assert first != 0;
      var second := Grow(i, 0);
    }

    /** On a new volume: a file is created and written so. */
    static method LosesBlock() returns (v: FileSystem)
      ensures fresh(v) && v.Valid() && !v.Accounted()
    {
      v := new FileSystem();
      var i := v.Touch();
      v.GrowTwice(i);
    }

    static method MarkMetadata(bmp: array<bv8>)
      requires bmp.Length == BLOCK_NUM / BYTE_SIZE && forall k :: 0 <= k < bmp.Length ==> bmp[k] == 0
      modifies bmp
      ensures forall k: nat :: Bit(bmp[..], k) == (k < DATA_BLOCK_INDEX)
      ensures |Clear(bmp[..])| == BLOCK_NUM - DATA_BLOCK_INDEX
    {
      AllClear(bmp[..]);
      for i := 0 to DATA_BLOCK_INDEX
        invariant forall k: nat :: Bit(bmp[..], k) == (k < i)
        invariant |Clear(bmp[..])| == BLOCK_NUM - i
      {
        ghost var was := bmp[..];
        Set(bmp, i);
        ClearAfterSet(was, bmp[..], i);
      }
    }

    /**
     Any sequence of operations on a volume, skipping those without room or without a target.
     If every file grew only at its first empty entry, no block was lost on the way.
     */
    method Session(ops: seq<Op>) returns (appended: bool)
      requires Valid()
      modifies this, bmp, diskBmp, ibmp, diskIbmp
      ensures Valid() && (appended && old(Whole()) ==> Whole())
      ensures !appended ==> exists n :: 0 <= n < |ops| && ops[n].GrowFile?
    {
      appended := true;
      for n := 0 to |ops|
        invariant Valid() && (appended && old(Whole()) ==> Whole())
        invariant !appended ==> exists k :: 0 <= k < n && ops[k].GrowFile?
      {
        var appends := Operate(ops[n]);
        appended := appended && appends;
      }
    }

    /** One operation of a session. */
    method Operate(op: Op) returns (appends: bool)
      requires Valid()
      modifies this, bmp, diskBmp, ibmp, diskIbmp
      ensures Valid() && (old(Whole()) ==> (Whole() <==> appends))
      ensures !appends ==> op.GrowFile?
    {
      appends := true;
      var block := FindFree(bmp, ERROR_NO_FREE_BLOCK);
      var inode := FindFree(ibmp, ERROR_NO_FREE_INODE);
      assert block >= 0 ==> block in Clear(bmp[..]);
      assert inode >= 0 ==> inode in Clear(ibmp[..]);
      match op
      case NewFile =>
        if inode >= 0 {
          var _ := Touch();
        }
      case NewWithBlock =>
        if inode >= 0 && block >= 0 {
          var _, _ := MakeWithBlock();
        }
      case GrowFile(i, k) =>
        if i < INODE_NUM && k < MAX_DIRECT_NUM && block >= 0 {
          var live := Check(ibmp, i);
          if live {
            assert InodeOk(i);
            appends := Appends(table[i].direct, k);
            var _ := Grow(i, k);
          }
        }
      case Remove(i) =>
        if 0 < i < INODE_NUM {
          var live := Check(ibmp, i);
          if live && i in table && 0 in table[i].direct {
            RemoveInode(i);
          }
        }
      case Restart(junk) => Remount(junk);
    }
  }

  // ----------------------------------------------------------------- blocks and their owners

  /** A live inode names the block. */
  ghost predicate Owns(ibytes: seq<bv8>, table: map<nat, Inode>, i: nat, b: nat) {
    Bit(ibytes, i) && i in table && b in Owned(table[i])
  }

  ghost predicate HasOwner(ibytes: seq<bv8>, table: map<nat, Inode>, b: nat) {
    exists i: nat :: Owns(ibytes, table, i, b)
  }

  ghost predicate AllOwned(bytes: seq<bv8>, ibytes: seq<bv8>, table: map<nat, Inode>) {
    forall b: nat :: DATA_BLOCK_INDEX <= b && Bit(bytes, b) ==> HasOwner(ibytes, table, b)
  }

  /** The entries in use come first and are distinct, and the pointer-block field names one of them if any. */
  ghost predicate Packed(o: Inode) {
    && (forall j, k :: 0 <= j < k < |o.direct| && o.direct[k] != 0 ==> o.direct[j] != 0 && o.direct[j] != o.direct[k])
    && (o.indirect1 == 0 || o.indirect1 in o.direct)
  }

  ghost predicate AllPacked(ibytes: seq<bv8>, table: map<nat, Inode>) {
    forall i: nat :: Bit(ibytes, i) && i in table ==> Packed(table[i])
  }

  /** Entry k is the first empty one. */
  predicate Appends(direct: seq<nat>, k: nat)
    requires k < |direct|
  {
    direct[k] == 0 && 0 !in direct[..k]
  }

  /** The inode of a new directory or link: one block. */
  function FirstBlock(f: nat): Inode {
    Inode([f] + seq(MAX_DIRECT_NUM - 1, _ => 0), 0)
  }

  lemma FirstBlockOwned(f: nat)
    requires f != 0
    ensures |FirstBlock(f).direct| == MAX_DIRECT_NUM && Owned(FirstBlock(f)) == {f} && Packed(FirstBlock(f))
  {
  }

  /** A volume with nothing but its root directory. */
  lemma RootIs(bytes: seq<bv8>, ibytes: seq<bv8>, root: nat, f: nat)
    requires (forall k: nat :: Bit(ibytes, k) <==> k == root) && f != 0
    requires forall k: nat :: Bit(bytes, k) <==> k == f || k < DATA_BLOCK_INDEX
    ensures Owned(FirstBlock(f)) == {f} && |FirstBlock(f).direct| == MAX_DIRECT_NUM
    ensures AllOwned(bytes, ibytes, map[root := FirstBlock(f)]) && AllPacked(ibytes, map[root := FirstBlock(f)])
  {
    FirstBlockOwned(f);
    forall b: nat | DATA_BLOCK_INDEX <= b && Bit(bytes, b) ensures HasOwner(ibytes, map[root := FirstBlock(f)], b) {
      assert Owns(ibytes, map[root := FirstBlock(f)], root, b);
    }
  }

  /** A new inode that owns the blocks just taken. */
  lemma AddKeeps(was: seq<bv8>, iwas: seq<bv8>, table: map<nat, Inode>, now: seq<bv8>, inow: seq<bv8>, i: nat, o: Inode)
    requires AllOwned(was, iwas, table) && AllPacked(iwas, table) && Packed(o) && !Bit(iwas, i)
    requires forall j: nat :: Bit(inow, j) == (j == i || Bit(iwas, j))
    requires forall b: nat :: Bit(now, b) ==> Bit(was, b) || b in Owned(o)
    ensures AllOwned(now, inow, table[i := o]) && AllPacked(inow, table[i := o])
  {
    forall b: nat | DATA_BLOCK_INDEX <= b && Bit(now, b) ensures HasOwner(inow, table[i := o], b) {
      if b in Owned(o) {
        assert Owns(inow, table[i := o], i, b);
      } else {
        assert HasOwner(iwas, table, b);
        var j: nat :| Owns(iwas, table, j, b);
        assert Owns(inow, table[i := o], j, b);
      }
    }
  }

  function Grown(o: Inode, k: nat, f: nat): Inode
    requires k < |o.direct|
  {
    Inode(o.direct[k := f], f)
  }

  lemma GrownOwned(o: Inode, k: nat, f: nat)
    requires Packed(o) && k < |o.direct| && o.direct[k] == 0 && f != 0
    ensures Owned(Grown(o, k, f)) == Owned(o) + {f}
  {
    var n := Grown(o, k, f);
    forall b | b in Owned(o) ensures b in Owned(n) {
      var j :| 0 <= j < |o.direct| && o.direct[j] == b;
      assert n.direct[j] == b;
    }
    assert n.direct[k] == f;
  }

  lemma GrownPacked(o: Inode, k: nat, f: nat)
    requires Packed(o) && k < |o.direct| && o.direct[k] == 0 && f != 0 && f !in o.direct
    ensures Packed(Grown(o, k, f)) <==> Appends(o.direct, k)
  {
    var n := Grown(o, k, f);
    assert n.direct[k] == f;
    if 0 in o.direct[..k] {
      var j :| 0 <= j < k && o.direct[..k][j] == 0;
      assert n.direct[j] == 0;
    } else {
      assert forall j :: 0 <= j < k ==> o.direct[j] == o.direct[..k][j];
    }
  }

  /** The block of an entry that is overwritten is nowhere else in the inode. */
  lemma GrownLoses(o: Inode, k: nat, f: nat)
    requires Packed(o) && k < |o.direct| && o.direct[k] != 0 && f !in o.direct
    ensures o.direct[k] in Owned(o) && o.direct[k] !in Owned(Grown(o, k, f))
  {
    var b, n := o.direct[k], Grown(o, k, f);
    forall j | 0 <= j < |n.direct| ensures n.direct[j] != b {
      assert j != k ==> n.direct[j] == o.direct[j];
    }
  }

  /** An inode that gained the block just taken. */
  lemma MoreKeeps(was: seq<bv8>, ibytes: seq<bv8>, table: map<nat, Inode>, now: seq<bv8>, i: nat, n: Inode, f: nat)
    requires AllOwned(was, ibytes, table) && TakenBy(was, now, f) && Bit(ibytes, i) && i in table
    requires Owned(n) == Owned(table[i]) + {f}
    ensures AllOwned(now, ibytes, table[i := n])
  {
    forall b: nat | DATA_BLOCK_INDEX <= b && Bit(now, b) ensures HasOwner(ibytes, table[i := n], b) {
      if b == f {
        assert Owns(ibytes, table[i := n], i, b);
      } else {
        assert HasOwner(ibytes, table, b);
        var j: nat :| Owns(ibytes, table, j, b);
        assert Owns(ibytes, table[i := n], j, b);
      }
    }
  }

  /**
   Growing at entry k loses a block exactly when the entry is in use, and the volume stays
   whole exactly when k is the first empty entry.
   */
  lemma GrowExact(was: seq<bv8>, ibytes: seq<bv8>, table: map<nat, Inode>, now: seq<bv8>, i: nat, k: nat, f: nat)
    requires AllOwned(was, ibytes, table) && AllPacked(ibytes, table) && TakenBy(was, now, f) && f != 0
    requires Bit(ibytes, i) && i in table && k < |table[i].direct|
    requires forall b :: b in Owned(table[i]) ==> DATA_BLOCK_INDEX <= b && Bit(was, b)
    requires forall j: nat :: j != i && Bit(ibytes, j) && j in table ==> Owned(table[j]) !! Owned(table[i])
    ensures var r := table[i := Grown(table[i], k, f)];
      && (AllOwned(now, ibytes, r) <==> table[i].direct[k] == 0)
      && (AllOwned(now, ibytes, r) && AllPacked(ibytes, r) <==> Appends(table[i].direct, k))
  {
    var o := table[i];
    var r := table[i := Grown(o, k, f)];
    assert f !in Owned(o);
    if o.direct[k] == 0 {
      GrownOwned(o, k, f);
      GrownPacked(o, k, f);
      MoreKeeps(was, ibytes, table, now, i, Grown(o, k, f), f);
    } else {
      GrownLoses(o, k, f);
      var b := o.direct[k];
      assert Bit(now, b) && !HasOwner(ibytes, r, b) by {
        forall j: nat ensures !Owns(ibytes, r, j, b) { }
      }
    }
  }

  /** Removing a packed inode frees everything it owns. */
  lemma RemoveKeeps(was: seq<bv8>, iwas: seq<bv8>, table: map<nat, Inode>, now: seq<bv8>, inow: seq<bv8>, i: nat)
    requires AllOwned(was, iwas, table) && AllPacked(iwas, table) && Bit(iwas, i) && i in table && 0 in table[i].direct
    requires forall j: nat :: Bit(inow, j) == (j != i && Bit(iwas, j))
    requires forall b: nat :: Bit(now, b) == (b !in Listed(table[i].direct) && Bit(was, b))
    ensures AllOwned(now, inow, table) && AllPacked(inow, table)
  {
    forall b: nat | DATA_BLOCK_INDEX <= b && Bit(now, b) ensures HasOwner(inow, table, b) {
      assert HasOwner(iwas, table, b);
      var j: nat :| Owns(iwas, table, j, b);
      if j == i {
        PackedListed(table[i], b);
      }
      assert Owns(inow, table, j, b);
    }
  }

  lemma PackedListed(o: Inode, b: nat)
    requires Packed(o) && b in Owned(o) && 0 in o.direct
    ensures b in Listed(o.direct)
  {
    var j :| 0 <= j < |o.direct| && o.direct[j] == b;
    ListedAt(o.direct, j);
  }

  lemma {:induction false} ListedAt(direct: seq<nat>, j: nat)
    requires j < |direct| && 0 !in direct[..j + 1]
    ensures direct[j] in Listed(direct)
  {
    assert direct[..j + 1][0] == direct[0];
    if j == 0 {
    } else {
      assert direct[1..][..j] == direct[..j + 1][1..];
      ListedAt(direct[1..], j - 1);
    }
  }

  /** The direct entries before the first empty one. */
  ghost function Listed(direct: seq<nat>): seq<nat> {
    if direct == [] || direct[0] == 0 then [] else [direct[0]] + Listed(direct[1..])
  }

  lemma {:induction false} ListedIs(direct: seq<nat>, i: nat)
    requires i < |direct| && direct[i] == 0 && 0 !in direct[..i]
    ensures Listed(direct) == direct[..i]
  {
    if i == 0 {
    } else {
      assert direct[0] in direct[..i];
      assert direct[1..][..i - 1] == direct[..i][1..];
      ListedIs(direct[1..], i - 1);
    }
  }

  lemma {:induction false} ListedIn(direct: seq<nat>, b: nat)
    requires b in Listed(direct)
    ensures b in direct && b != 0
  {
    if b == direct[0] {
    } else {
      ListedIn(direct[1..], b);
    }
  }

  lemma ListedOwned(o: Inode)
    ensures forall b :: b in Listed(o.direct) ==> b in Owned(o)
  {
    forall b | b in Listed(o.direct) ensures b in Owned(o) { ListedIn(o.direct, b); }
  }

  lemma AllClear(bytes: seq<bv8>)
    requires forall k :: 0 <= k < |bytes| ==> bytes[k] == 0
    ensures |Clear(bytes)| == BYTE_SIZE * |bytes| && forall k: nat :: !Bit(bytes, k)
  {
    assert Clear(bytes) == Below(BYTE_SIZE * |bytes|);
  }

  ghost function Below(n: nat): (s: set<nat>)
    ensures |s| == n && forall k: nat :: k in s <==> k < n
  {
    if n == 0 then {} else Below(n - 1) + {n - 1}
  }

  /** Bit f was the least clear one and is now set; no other bit changed. */
  ghost predicate TakenBy(was: seq<bv8>, now: seq<bv8>, f: nat) {
    && LeastClear(was, f)
    && forall k: nat :: Bit(now, k) == (k == f || Bit(was, k))
  }

  lemma OwnedAfter(o: Inode, k: nat, f: nat)
    requires k < |o.direct| && f != 0
    ensures Owned(Inode(o.direct[k := f], f)) <= Owned(o) + {f} && f in Owned(Inode(o.direct[k := f], f))
  {
  }
}
