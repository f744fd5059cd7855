/**
 The SD card routines: an overlap-safe copy, and loops that move bytes between memory and
 512-byte sectors through a bounce buffer.  The card is seen as one flat range of bytes.
 */
module SectorDisk {
  import opened Basics

  const SECTOR := 512
  const BLOCK_SIZE := 0x1000
  const FS_START_SD_OFFSET := 0x20000000

  /** Byte p of the card. */
  function ByteAt(sectors: seq<seq<Byte>>, p: nat): Byte
    requires p / SECTOR < |sectors| && |sectors[p / SECTOR]| == SECTOR
  {
    sectors[p / SECTOR][p % SECTOR]
  }

  /** memcopy: correct for every overlap of source and destination. */
  method MemCopy(mem: array<Byte>, t: nat, f: nat, n: nat)
    requires t + n <= mem.Length && f + n <= mem.Length
    modifies mem
    ensures forall x :: 0 <= x < mem.Length ==> mem[x] == if t <= x < t + n then old(mem[f + (x - t)]) else old(mem[x])
  {
    if f < t {
      var k := n;
      while k > 0
        invariant 0 <= k <= n
        invariant forall x :: 0 <= x < mem.Length ==>
          mem[x] == if t + k <= x < t + n then old(mem[f + (x - t)]) else old(mem[x])
      {
        k := k - 1;
        mem[t + k] := mem[f + k];
      }
    } else {
      var k := 0;
      while k < n
        invariant 0 <= k <= n
        invariant forall x :: 0 <= x < mem.Length ==>
          mem[x] == if t <= x < t + k then old(mem[f + (x - t)]) else old(mem[x])
      {
        mem[t + k] := mem[f + k];
        k := k + 1;
      }
    }
  }

  class SdCard {
    const sector: array<seq<Byte>>
    const mem: array<Byte>
    // Where the bounce buffer is in memory.
    const bounce: nat

    ghost predicate Valid()
      reads sector
    {
      bounce + SECTOR <= mem.Length && sector as object != mem as object && forall s :: 0 <= s < sector.Length ==>
        |sector[s]| == SECTOR
    }

    constructor (sector: array<seq<Byte>>, mem: array<Byte>, bounce: nat)
      requires bounce + SECTOR <= mem.Length && sector as object != mem as object
      requires forall s :: 0 <= s < sector.Length ==> |sector[s]| == SECTOR
      ensures Valid() && this.sector == sector && this.mem == mem && this.bounce == bounce
    {
      this.sector, this.mem, this.bounce := sector, mem, bounce;
    }

    /** The range of memory lies apart from the bounce buffer. */
    predicate Outside(buf: nat, n: nat) {
      buf + n <= mem.Length && (buf + n <= bounce || bounce + SECTOR <= buf)
    }

    /** Read_Single_Block into the bounce buffer */
    method ReadSector(s: nat)
      requires Valid() && s < sector.Length
      modifies mem
      ensures forall x :: 0 <= x < mem.Length ==>
        mem[x] == if bounce <= x < bounce + SECTOR then sector[s][x - bounce] else old(mem[x])
    {
      for i := 0 to SECTOR
        invariant forall x :: 0 <= x < mem.Length ==>
          mem[x] == if bounce <= x < bounce + i then sector[s][x - bounce] else old(mem[x])
      {
        mem[bounce + i] := sector[s][i];
      }
    }

    /** How much of a transfer the current sector takes. */
    function Once(pos: nat, left: nat): (r: nat)
      ensures left > 0 ==> 0 < r <= left && pos % SECTOR + r <= SECTOR
    {
      if SECTOR - pos % SECTOR < left then SECTOR - pos % SECTOR else left
    }

    /** sdread: any base and length give exactly that range of the card. */
    method Read(buf: nat, base: nat, n: nat)
      requires Valid() && Outside(buf, n) && base + n <= SECTOR * sector.Length
      modifies mem
      ensures forall x :: buf <= x < buf + n ==> mem[x] == ByteAt(sector[..], base + (x - buf))
      ensures forall x :: 0 <= x < mem.Length && !(buf <= x < buf + n) && !(bounce <= x < bounce + SECTOR) ==>
        mem[x] == old(mem[x])
    {
      var to, pos, left := buf, base, n;
      while left > 0
        invariant to - buf == pos - base == n - left && 0 <= left <= n
        invariant forall x :: buf <= x < to ==> mem[x] == ByteAt(sector[..], base + (x - buf))
        invariant forall x :: 0 <= x < mem.Length && !(buf <= x < buf + n) && !(bounce <= x < bounce + SECTOR) ==>
          mem[x] == old(mem[x])
      {
        ReadSector(pos / SECTOR);
        var once := Once(pos, left);
        MemCopy(mem, to, bounce + pos % SECTOR, once);
        forall x | to <= x < to + once ensures mem[x] == ByteAt(sector[..], base + (x - buf)) {
          var p := base + (x - buf);
          assert p / SECTOR == pos / SECTOR && p % SECTOR == pos % SECTOR + (x - to);
        }
        to, pos, left := to + once, pos + once, left - once;
      }
    }

    /** Write_Single_Block from the bounce buffer */
    method WriteSector(s: nat)
      requires Valid() && s < sector.Length
      modifies sector
      ensures Valid() && sector[..] == old(sector[..])[s := mem[bounce..bounce + SECTOR]]
    {
      sector[s] := mem[bounce..bounce + SECTOR];
    }

    /** One turn of sdwrite: bytes go through the bounce buffer to their place in a sector. */
    method Flush(from: nat, s: nat, at: nat, once: nat)
      requires Valid() && s < sector.Length && Outside(from, once) && at + once <= SECTOR
      modifies mem, sector
      ensures Valid() && (forall x :: 0 <= x < mem.Length && !(bounce <= x < bounce + SECTOR) ==> mem[x] == old(mem[x]))
      ensures forall r :: 0 <= r < sector.Length && r != s ==> sector[r] == old(sector[r])
      ensures forall k :: at <= k < at + once ==> sector[s][k] == old(mem[from + (k - at)])
      ensures once == SECTOR ==> SectorIs(sector[s], old(mem[..]), from)
    {
      MemCopy(mem, bounce + at, from, once);
      WriteSector(s);
    }

    /** sdwrite of whole sectors: exactly that range of the card becomes the buffer. */
    method Write(buf: nat, base: nat, n: nat)
      requires Valid() && Outside(buf, n) && base + n <= SECTOR * sector.Length && base % SECTOR == 0 && n % SECTOR == 0
      modifies mem, sector
      ensures Valid() && forall x :: 0 <= x < mem.Length && !(bounce <= x < bounce + SECTOR) ==> mem[x] == old(mem[x])
      ensures forall p :: 0 <= p < SECTOR * sector.Length ==>
        ByteAt(sector[..], p) == if base <= p < base + n then old(mem[buf + (p - base)]) else ByteAt(old(sector[..]), p)
    {
      var from, pos, left := buf, base, n;
      ghost var first, d := base / SECTOR, 0;
      while left > 0
        invariant Valid() && base == SECTOR * first && from == buf + SECTOR * d && pos == SECTOR * (first + d)
        invariant left == n - SECTOR * d && left >= 0
        invariant forall x :: 0 <= x < mem.Length && !(bounce <= x < bounce + SECTOR) ==> mem[x] == old(mem[x])
        invariant Copied(sector[..], old(sector[..]), old(mem[..]), buf, first, d)
      {
        assert pos / SECTOR == first + d && pos % SECTOR == 0 && left >= SECTOR;
        var once := Once(pos, left);
        ghost var now, sectors := mem[..], sector[..];
        Flush(from, pos / SECTOR, pos % SECTOR, once);
        SectorSame(sector[first + d], now, old(mem[..]), from);
        CopiedNext(sectors, sector[..], old(sector[..]), old(mem[..]), buf, first, d);
        from, pos, left := from + once, pos + once, left - once;
        d := d + 1;
      }
      FlatIs(sector[..], old(sector[..]), old(mem[..]), buf, first, d);
    }

    /** write_block: the block becomes the buffer, and every other block stays as it was. */
    method WriteBlock(b: nat, buf: nat)
      requires Valid() && Outside(buf, BLOCK_SIZE) && OnCard(b, sector.Length)
      modifies mem, sector
      ensures Valid() && mem[buf..buf + BLOCK_SIZE] == old(mem[buf..buf + BLOCK_SIZE])
      ensures BlockAt(sector[..], b) == mem[buf..buf + BLOCK_SIZE]
      ensures forall c: nat :: c != b && OnCard(c, sector.Length) ==>
        BlockAt(sector[..], c) == BlockAt(old(sector[..]), c)
    {
      Write(buf, b * BLOCK_SIZE + FS_START_SD_OFFSET, BLOCK_SIZE);
      assert mem[buf..buf + BLOCK_SIZE] == old(mem[buf..buf + BLOCK_SIZE]);
      forall c: nat | c != b && OnCard(c, sector.Length) ensures BlockAt(sector[..], c) == BlockAt(old(sector[..]), c) {
        assert c < b || b < c;
      }
    }

    /** read_block */
    method ReadBlock(b: nat, buf: nat)
      requires Valid() && Outside(buf, BLOCK_SIZE) && OnCard(b, sector.Length)
      modifies mem
      ensures mem[buf..buf + BLOCK_SIZE] == BlockAt(sector[..], b)
    {
      Read(buf, b * BLOCK_SIZE + FS_START_SD_OFFSET, BLOCK_SIZE);
    }
  }

  predicate OnCard(b: nat, sectors: nat) {
    FS_START_SD_OFFSET + (b + 1) * BLOCK_SIZE <= SECTOR * sectors
  }

  /** The contents of file system block b. */
  function BlockAt(sectors: seq<seq<Byte>>, b: nat): seq<Byte>
    requires OnCard(b, |sectors|) && forall s :: 0 <= s < |sectors| ==> |sectors[s]| == SECTOR
  {
    seq<Byte>(BLOCK_SIZE, i requires 0 <= i < BLOCK_SIZE => ByteAt(sectors, FS_START_SD_OFFSET + b * BLOCK_SIZE + i))
  }

  predicate SectorIs(data: seq<Byte>, mem: seq<Byte>, at: int) {
    |data| == SECTOR && 0 <= at && at + SECTOR <= |mem| && forall k :: 0 <= k < SECTOR ==> data[k] == mem[at + k]
  }

  lemma SectorSame(data: seq<Byte>, mem: seq<Byte>, was: seq<Byte>, at: int)
    requires SectorIs(data, mem, at) && |was| == |mem| && forall x :: at <= x < at + SECTOR ==> mem[x] == was[x]
    ensures SectorIs(data, was, at)
  {
  }

  /** The d sectors from the first one on hold the buffer, and every other sector is as it was. */
  ghost predicate Copied(now: seq<seq<Byte>>, was: seq<seq<Byte>>, mem: seq<Byte>, buf: nat, first: nat, d: nat) {
    && |now| == |was| && (forall s :: 0 <= s < |now| && !(first <= s < first + d) ==> now[s] == was[s])
    && (forall s :: first <= s < first + d && s < |now| ==> SectorIs(now[s], mem, buf + SECTOR * (s - first)))
  }

  lemma CopiedNext(now: seq<seq<Byte>>, next: seq<seq<Byte>>, was: seq<seq<Byte>>, mem: seq<Byte>,
    buf: nat, first: nat, d: nat)
    requires Copied(now, was, mem, buf, first, d) && first + d < |now| == |next|
    requires forall s :: 0 <= s < |now| && s != first + d ==> next[s] == now[s]
    requires SectorIs(next[first + d], mem, buf + SECTOR * d)
    ensures Copied(next, was, mem, buf, first, d + 1)
  {
  }

  lemma FlatIs(now: seq<seq<Byte>>, was: seq<seq<Byte>>, mem: seq<Byte>, buf: nat, first: nat, d: nat)
    requires (forall s :: 0 <= s < |now| ==> |now[s]| == SECTOR) && (forall s :: 0 <= s < |was| ==> |was[s]| == SECTOR)
    requires first + d <= |now| && buf + SECTOR * d <= |mem| && Copied(now, was, mem, buf, first, d)
    ensures forall p :: 0 <= p < SECTOR * |now| ==>
      ByteAt(now, p) ==
      if SECTOR * first <= p < SECTOR * (first + d) then mem[buf + (p - SECTOR * first)] else ByteAt(was, p)
  {
  }
}
