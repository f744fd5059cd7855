/**
 Demand paging with a software-managed TLB.  The page table lives in the first page frames;
 the kernel keeps a shadow copy of the hardware TLB (`tlb_table`) and rebuilds half of an
 entry from it.  The regime modelled is the one where free frames remain.
 */
module Tlb {

  const FRAME_PAGES := 2048
  const PAGE_TABLE_PAGES := 512
  const PAGE_WORDS := 1024
  const VM_PAGES := 0x80000
  const TLB_ENTRIES_NUM := 32
  const FIRST_PFN := 0x1000
  // EntryHi has eight bits for the address space, into which the handler writes the pid.
  const ASIDS := 256
  // PTE_C | PTE_D | PTE_V
  const FLAGS := 0x16
  // What fill_tlb puts into EntryHi, cut to the register's width, and into the shadow copy.
  const NO_VPN2 := 0x7fff7
  const NO_SHADOW_VPN2 := 0xffff7

  /** A hardware entry: a pair of adjacent virtual pages of one address space. */
  datatype Slot = Slot(vpn2: nat, asid: nat, lo0: nat, lo1: nat)

  datatype Shadow = Shadow(vpn2: nat, pid: nat, pfn0: nat, pfn1: nat)

  function Pte(pfn: nat): nat {
    pfn * 0x1000 + FLAGS
  }

  function EntryLo(pfn: nat): nat {
    pfn * 0x40 + FLAGS
  }

  predicate Valid(lo: nat) {
    lo / 2 % 2 == 1
  }

  /** The half of an entry that translates an even or an odd page. */
  function Half(e: Slot, odd: bool): nat {
    if odd then e.lo1 else e.lo0
  }

  // ----------------------------------------------------------------- invariants

  predicate IsPte(x: nat, used: nat) {
    FIRST_PFN + PAGE_TABLE_PAGES <= x / 0x1000 < FIRST_PFN + used && x == Pte(x / 0x1000)
  }

  /** A mapped page has a frame of its own that was handed out and does not hold the page table. */
  ghost predicate TableOk(mem: seq<nat>, used: nat) {
    && |mem| == FRAME_PAGES * PAGE_WORDS && PAGE_TABLE_PAGES <= used <= FRAME_PAGES
    && (forall v :: 0 <= v < VM_PAGES && mem[v] != 0 ==> IsPte(mem[v], used))
    && (forall v, w :: 0 <= v < w < VM_PAGES && mem[v] != 0 ==> mem[v] != mem[w])
  }

  /** A valid half agrees with the page table and with the shadow copy. */
  predicate HalfOk(mem: seq<nat>, v: nat, lo: nat, pfn: nat) {
    Valid(lo) ==> lo == EntryLo(pfn) && v < |mem| && mem[v] == Pte(pfn)
  }

  predicate Holds(mem: seq<nat>, e: Slot, m: Shadow) {
    && e.vpn2 < VM_PAGES / 2 && (Valid(e.lo0) || Valid(e.lo1)) && m.vpn2 == e.vpn2 && m.pid == e.asid
    && HalfOk(mem, 2 * e.vpn2, e.lo0, m.pfn0) && HalfOk(mem, 2 * e.vpn2 + 1, e.lo1, m.pfn1)
  }

  predicate Unused(e: Slot, m: Shadow) {
    e.vpn2 == NO_VPN2 && !Valid(e.lo0) && !Valid(e.lo1) && m.vpn2 == NO_SHADOW_VPN2
  }

  ghost predicate TlbOk(mem: seq<nat>, hw: seq<Slot>, shadow: seq<Shadow>) {
    && |hw| == |shadow| == TLB_ENTRIES_NUM
    && (forall i :: 0 <= i < |hw| ==> Holds(mem, hw[i], shadow[i]) || Unused(hw[i], shadow[i]))
    && (forall i, j :: 0 <= i < j < |hw| && hw[i].vpn2 == hw[j].vpn2 ==> hw[i].vpn2 == NO_VPN2)
  }

  /** Some hardware entry translates the page for this address space. */
  predicate Accessible(hw: seq<Slot>, vpn: nat, pid: nat) {
    exists i :: 0 <= i < |hw| && hw[i].vpn2 == vpn / 2 && hw[i].asid == pid && Valid(Half(hw[i], vpn % 2 == 1))
  }

  /** A hardware entry holds the pair of pages, whether or not this half is valid. */
  predicate Cached(hw: seq<Slot>, vpn: nat, pid: nat) {
    exists i :: 0 <= i < |hw| && hw[i].vpn2 == vpn / 2 && hw[i].asid == pid
  }

  /** The shadow copy shows the pair of pages in another address space. */
  predicate Foreign(shadow: seq<Shadow>, vpn: nat, pid: nat) {
    exists i :: 0 <= i < |shadow| && shadow[i].vpn2 == vpn / 2 && shadow[i].pid != pid
  }

  // ----------------------------------------------------------------- the three updates

  /** A new translation, with the other half invalid. */
  function NewSlot(vpn: nat, pid: nat, pfn: nat): Slot {
    if vpn % 2 == 1 then Slot(vpn / 2, pid, 0, EntryLo(pfn)) else Slot(vpn / 2, pid, EntryLo(pfn), 0)
  }

  function NewShadow(m: Shadow, vpn: nat, pid: nat, pfn: nat): Shadow {
    if vpn % 2 == 1 then m.(vpn2 := vpn / 2, pid := pid, pfn1 := pfn) else m.(vpn2 := vpn / 2, pid := pid, pfn0 := pfn)
  }

  lemma RefillKeeps(mem: seq<nat>, hw: seq<Slot>, shadow: seq<Shadow>, k: nat, vpn: nat, pid: nat, pfn: nat)
    requires TlbOk(mem, hw, shadow) && k < TLB_ENTRIES_NUM && vpn < VM_PAGES <= |mem| && mem[vpn] == Pte(pfn)
    requires !Cached(hw, vpn, pid) && !Foreign(shadow, vpn, pid)
    ensures TlbOk(mem, hw[k := NewSlot(vpn, pid, pfn)], shadow[k := NewShadow(shadow[k], vpn, pid, pfn)])
    ensures Accessible(hw[k := NewSlot(vpn, pid, pfn)], vpn, pid)
  {
    NotCached(mem, hw, shadow, vpn, pid);
    var hw', shadow' := hw[k := NewSlot(vpn, pid, pfn)], shadow[k := NewShadow(shadow[k], vpn, pid, pfn)];
    NewHolds(mem, shadow[k], vpn, pid, pfn);
    forall i | 0 <= i < |hw'| ensures Holds(mem, hw'[i], shadow'[i]) || Unused(hw'[i], shadow'[i]) {
      assert i != k ==> Holds(mem, hw[i], shadow[i]) || Unused(hw[i], shadow[i]);
    }
    assert hw'[k].vpn2 == vpn / 2 && Valid(Half(hw'[k], vpn % 2 == 1));
  }

  /** A pair that is neither cached nor another task's is in no entry at all. */
  lemma NotCached(mem: seq<nat>, hw: seq<Slot>, shadow: seq<Shadow>, vpn: nat, pid: nat)
    requires TlbOk(mem, hw, shadow) && vpn < VM_PAGES && !Cached(hw, vpn, pid) && !Foreign(shadow, vpn, pid)
    ensures forall i :: 0 <= i < |hw| ==> hw[i].vpn2 != vpn / 2
  {
  }

  lemma NewHolds(mem: seq<nat>, m: Shadow, vpn: nat, pid: nat, pfn: nat)
    requires vpn < VM_PAGES <= |mem| && mem[vpn] == Pte(pfn)
    ensures Holds(mem, NewSlot(vpn, pid, pfn), NewShadow(m, vpn, pid, pfn))
    ensures Valid(Half(NewSlot(vpn, pid, pfn), vpn % 2 == 1))
  {
    EntryLoValid(pfn);
    assert 2 * (vpn / 2) + vpn % 2 == vpn;
  }

  lemma EntryLoValid(pfn: nat)
    ensures Valid(EntryLo(pfn)) && !Valid(0) && EntryLo(pfn) / 0x40 == pfn
  {
    assert EntryLo(pfn) / 2 == 2 * (16 * pfn + 5) + 1;
  }

  /** Mapping a page that was not mapped keeps every translation, and frame `used` is its own. */
  lemma MapKeeps(mem: seq<nat>, hw: seq<Slot>, shadow: seq<Shadow>, used: nat, vpn: nat)
    requires TableOk(mem, used) && TlbOk(mem, hw, shadow) && used < FRAME_PAGES && vpn < VM_PAGES && mem[vpn] == 0
    ensures TableOk(mem[vpn := Pte(FIRST_PFN + used)], used + 1)
    ensures TlbOk(mem[vpn := Pte(FIRST_PFN + used)], hw, shadow)
  {
  }

  /** Clearing a frame above the page table changes nothing here. */
  lemma TableDependsOnly(was: seq<nat>, mem: seq<nat>, hw: seq<Slot>, shadow: seq<Shadow>, used: nat)
    requires TableOk(was, used) && TlbOk(was, hw, shadow) && |mem| == |was| && mem[..VM_PAGES] == was[..VM_PAGES]
    ensures TableOk(mem, used) && TlbOk(mem, hw, shadow)
  {
    assert forall v :: 0 <= v < VM_PAGES ==> mem[v] == mem[..VM_PAGES][v] == was[..VM_PAGES][v] == was[v];
    forall i | 0 <= i < |hw| ensures Holds(mem, hw[i], shadow[i]) || Unused(hw[i], shadow[i]) {
      assert Holds(was, hw[i], shadow[i]) || Unused(hw[i], shadow[i]);
    }
  }

  /** Every entry of the page table in use is valid. */
  lemma MappedIs(mem: seq<nat>, used: nat, vpn: nat)
    requires TableOk(mem, used) && vpn < VM_PAGES && mem[vpn] != 0
    ensures Valid(mem[vpn]) && mem[vpn] == Pte(mem[vpn] / 0x1000)
  {
  }

  lemma SameTable(was: seq<nat>, mem: seq<nat>, vpn: nat, pfn: nat)
    requires VM_PAGES <= |mem| == |was| && vpn < VM_PAGES && mem[..VM_PAGES] == was[..VM_PAGES][vpn := Pte(pfn)]
    ensures mem[vpn] == Pte(pfn) && forall v :: 0 <= v < VM_PAGES && v != vpn ==> mem[v] == was[v]
  {
  }

  /** A refill of a pair that was not cached leaves the other page of the pair cached and invalid. */
  lemma HalfIsAlone(hw: seq<Slot>, k: nat, vpn: nat, other: nat, pid: nat, pfn: nat)
    requires k < |hw| && vpn / 2 == other / 2 && vpn != other && !Cached(hw, vpn, pid)
    ensures var hw' := hw[k := NewSlot(vpn, pid, pfn)]; Cached(hw', other, pid) && !Accessible(hw', other, pid)
  {
    var hw' := hw[k := NewSlot(vpn, pid, pfn)];
    assert hw'[k].vpn2 == other / 2 && hw'[k].asid == pid;
  }

  /** The entries hold the same pairs of pages for the same address spaces. */
  predicate SamePairs(was: seq<Slot>, hw: seq<Slot>) {
    |was| == |hw| && forall i :: 0 <= i < |hw| ==> hw[i].vpn2 == was[i].vpn2 && hw[i].asid == was[i].asid
  }

  /** One task has touched the pairs 0 to k - 1 in turn: the last of them are the ones in the entries. */
  predicate Filled(hw: seq<Slot>, k: nat, pid: nat) {
    forall i :: 0 <= i < |hw| ==> hw[i].vpn2 == NO_VPN2 || LastThere(hw[i], i, k, pid)
  }

  predicate LastThere(e: Slot, i: nat, k: nat, pid: nat) {
    e.asid == pid && k - TLB_ENTRIES_NUM <= e.vpn2 < k && (e.vpn2 + 1) % TLB_ENTRIES_NUM == i
  }

  lemma FilledNext(hw: seq<Slot>, k: nat, pid: nat, pfn: nat)
    requires |hw| == TLB_ENTRIES_NUM && Filled(hw, k, pid)
    ensures (k % TLB_ENTRIES_NUM + 1) % TLB_ENTRIES_NUM == (k + 1) % TLB_ENTRIES_NUM
    ensures Filled(hw[(k + 1) % TLB_ENTRIES_NUM := NewSlot(2 * k, pid, pfn)], k + 1, pid)
  {
    var at := (k + 1) % TLB_ENTRIES_NUM;
    var hw' := hw[at := NewSlot(2 * k, pid, pfn)];
    forall i | 0 <= i < |hw'| ensures hw'[i].vpn2 == NO_VPN2 || LastThere(hw'[i], i, k + 1, pid) {
      if i != at && hw[i].vpn2 != NO_VPN2 {
        assert LastThere(hw[i], i, k, pid);
      }
    }
  }

  lemma FilledSame(was: seq<Slot>, hw: seq<Slot>, k: nat, pid: nat)
    requires Filled(was, k, pid) && SamePairs(was, hw)
    ensures Filled(hw, k, pid)
  {
  }

  /** A pair that is not among the last ones is cached nowhere and is nobody else's. */
  lemma NotAmongThem(mem: seq<nat>, hw: seq<Slot>, shadow: seq<Shadow>, k: nat, vpn: nat, pid: nat)
    requires TlbOk(mem, hw, shadow) && Filled(hw, k, pid) && vpn < VM_PAGES && !(k - TLB_ENTRIES_NUM <= vpn / 2 < k)
    ensures !Cached(hw, vpn, pid) && !Foreign(shadow, vpn, pid)
  {
  }

  /** The page a half of an entry translates. */
  function PageOf(e: Slot, odd: bool): nat {
    2 * e.vpn2 + (if odd then 1 else 0)
  }

  /** A valid half names the frame the page table names, and that frame does not hold the page table. */
  lemma TranslationIs(mem: seq<nat>, used: nat, hw: seq<Slot>, shadow: seq<Shadow>, i: nat, odd: bool)
    requires TableOk(mem, used) && TlbOk(mem, hw, shadow) && i < |hw| && Valid(Half(hw[i], odd))
    ensures var v, f := PageOf(hw[i], odd), Half(hw[i], odd) / 0x40;
      v < VM_PAGES && mem[v] == Pte(f) && f >= FIRST_PFN + PAGE_TABLE_PAGES
  {
  }

  /** A page some entry translates is mapped. */
  lemma AccessibleMapped(mem: seq<nat>, used: nat, hw: seq<Slot>, shadow: seq<Shadow>, vpn: nat, pid: nat)
    requires TableOk(mem, used) && TlbOk(mem, hw, shadow) && vpn < VM_PAGES && Accessible(hw, vpn, pid)
    ensures mem[vpn] != 0
  {
    var i :| 0 <= i < |hw| && hw[i].vpn2 == vpn / 2 && hw[i].asid == pid && Valid(Half(hw[i], vpn % 2 == 1));
    TranslationIs(mem, used, hw, shadow, i, vpn % 2 == 1);
  }

  /** Two valid halves translate to the same frame only if they translate the same page. */
  lemma TranslationsApart(mem: seq<nat>, used: nat, hw: seq<Slot>,
    shadow: seq<Shadow>, i: nat, a: bool, j: nat, b: bool)
    requires TableOk(mem, used) && TlbOk(mem, hw, shadow) && i < |hw| && j < |hw|
    requires Valid(Half(hw[i], a)) && Valid(Half(hw[j], b))
    ensures Half(hw[i], a) / 0x40 == Half(hw[j], b) / 0x40 <==> PageOf(hw[i], a) == PageOf(hw[j], b)
  {
    TranslationIs(mem, used, hw, shadow, i, a);
    TranslationIs(mem, used, hw, shadow, j, b);
  }

  /** Filling in the missing half of an entry. */
  function FullSlot(m: Shadow, vpn: nat, pid: nat, pfn: nat): Slot {
    if vpn % 2 == 1 then Slot(vpn / 2, pid, EntryLo(m.pfn0), EntryLo(pfn))
      else Slot(vpn / 2, pid, EntryLo(pfn), EntryLo(m.pfn1))
  }

  lemma FillKeeps(mem: seq<nat>, hw: seq<Slot>, shadow: seq<Shadow>, k: nat, vpn: nat, pid: nat, pfn: nat)
    requires TlbOk(mem, hw, shadow) && k < TLB_ENTRIES_NUM && vpn < VM_PAGES <= |mem| && mem[vpn] == Pte(pfn)
    requires hw[k].vpn2 == vpn / 2 && hw[k].asid == pid && !Valid(Half(hw[k], vpn % 2 == 1))
    ensures TlbOk(mem, hw[k := FullSlot(shadow[k], vpn, pid, pfn)], shadow[k := NewShadow(shadow[k], vpn, pid, pfn)])
    ensures Accessible(hw[k := FullSlot(shadow[k], vpn, pid, pfn)], vpn, pid)
    ensures forall v: nat, p: nat :: Accessible(hw, v, p) ==>
      Accessible(hw[k := FullSlot(shadow[k], vpn, pid, pfn)], v, p)
  {
    assert Holds(mem, hw[k], shadow[k]);
    EntryLoValid(pfn);
    assert 2 * (vpn / 2) + vpn % 2 == vpn;
    var hw' := hw[k := FullSlot(shadow[k], vpn, pid, pfn)];
    assert hw'[k].vpn2 == vpn / 2 && Valid(Half(hw'[k], vpn % 2 == 1));
    EntryLoValid(shadow[k].pfn0);
    EntryLoValid(shadow[k].pfn1);
    forall v: nat, p: nat | Accessible(hw, v, p) ensures Accessible(hw', v, p) {
      var i :| 0 <= i < |hw| && hw[i].vpn2 == v / 2 && hw[i].asid == p && Valid(Half(hw[i], v % 2 == 1));
      assert hw'[i].vpn2 == v / 2 && hw'[i].asid == p && Valid(Half(hw'[i], v % 2 == 1));
    }
  }

  /** The entry the shadow copy points to is the one the hardware found. */
  lemma ShadowFinds(mem: seq<nat>, hw: seq<Slot>, shadow: seq<Shadow>, i: nat, k: nat, vpn: nat, pid: nat)
    requires TlbOk(mem, hw, shadow) && vpn < VM_PAGES && i < TLB_ENTRIES_NUM && k < TLB_ENTRIES_NUM
    requires hw[i].vpn2 == vpn / 2 && hw[i].asid == pid
    ensures shadow[i].vpn2 == vpn / 2 && shadow[i].pid == pid
    ensures shadow[k].vpn2 == vpn / 2 ==> k == i
  {
  }

  /** The page got the frame, the frame is cleared, and no other word of memory changed. */
  ghost predicate Mapped(was: seq<nat>, now: seq<nat>, vpn: nat, f: nat) {
    |now| == |was| && forall w :: 0 <= w < |was| ==>
      now[w] == if w == vpn then Pte(FIRST_PFN + f) else if w / PAGE_WORDS == f then 0 else was[w]
  }

  ghost function Pages(mem: seq<nat>): set<nat> {
    set v: nat | v < VM_PAGES && v < |mem| && mem[v] != 0
  }

  lemma MappedPages(was: seq<nat>, now: seq<nat>, vpn: nat, f: nat)
    requires Mapped(was, now, vpn, f) && vpn < VM_PAGES <= |was| && f >= PAGE_TABLE_PAGES && was[vpn] == 0
    ensures Pages(now) == Pages(was) + {vpn} && |Pages(now)| == |Pages(was)| + 1
  {
    assert forall v :: 0 <= v < VM_PAGES ==> v / PAGE_WORDS < PAGE_TABLE_PAGES;
    assert Pages(now) == Pages(was) + {vpn};
  }

  /** What an access does to memory: a missing page is mapped to the next frame, or nothing happens. */
  ghost predicate Maps(was: seq<nat>, now: seq<nat>, vpn: nat, free: nat, left: nat, maps: bool) {
    if maps then free > 0 && left == free - 1 && free <= FRAME_PAGES && Mapped(was, now, vpn, FRAME_PAGES - free)
    else left == free && now == was
  }

  /** The words of the frames already handed out, the page table aside. */
  ghost predicate SameFrames(was: seq<nat>, now: seq<nat>, used: nat) {
    |now| == |was| && forall w :: VM_PAGES <= w < used * PAGE_WORDS && w < |was| ==> now[w] == was[w]
  }

  lemma MapsKeeps(was: seq<nat>, now: seq<nat>, vpn: nat, free: nat, left: nat, maps: bool)
    requires Maps(was, now, vpn, free, left, maps) && vpn < VM_PAGES <= |was|
    requires maps ==> was[vpn] == 0 && free <= FRAME_PAGES - PAGE_TABLE_PAGES
    ensures |Pages(now)| + left == |Pages(was)| + free && left <= free
    ensures free <= FRAME_PAGES ==> SameFrames(was, now, FRAME_PAGES - free)
  {
    if maps {
      MappedPages(was, now, vpn, FRAME_PAGES - free);
    }
  }

  // ----------------------------------------------------------------- the handler

  class Mmu {
    // The words of the page frames; the first frames hold the page table.
    const mem: array<nat>
    const avail: array<bool>
    const hw: array<Slot>
    const shadow: array<Shadow>
    var tlbPtr: nat
    var allocPtr: nat
    var free: nat

    ghost predicate FramesOk()
      reads this, avail
    {
      && avail.Length == FRAME_PAGES && free <= FRAME_PAGES - PAGE_TABLE_PAGES
      && allocPtr == (FRAME_PAGES - free) % FRAME_PAGES
      && forall f :: 0 <= f < FRAME_PAGES ==> avail[f] == (f >= FRAME_PAGES - free)
    }

    /** Every valid half of every TLB entry agrees with the page table, and so does the shadow copy. */
    ghost predicate Coherent()
      reads this, mem, avail, hw, shadow
    {
      FramesOk() && tlbPtr < TLB_ENTRIES_NUM &&
        TableOk(mem[..], FRAME_PAGES - free) && TlbOk(mem[..], hw[..], shadow[..])
    }

    /** init_memory, after the page table's frames were taken: nothing is mapped, nothing is cached. */
    constructor ()
      ensures Coherent() && fresh(mem) && fresh(avail) && fresh(hw) && fresh(shadow)
      ensures free == FRAME_PAGES - PAGE_TABLE_PAGES && tlbPtr == 0
      ensures forall v :: 0 <= v < VM_PAGES ==> mem[v] == 0
    {
      mem := new nat[FRAME_PAGES * PAGE_WORDS](_ => 0);
      avail := new bool[FRAME_PAGES](f => f >= PAGE_TABLE_PAGES);
      hw := new Slot[TLB_ENTRIES_NUM](_ => Slot(NO_VPN2, 0, 0, 0));
      shadow := new Shadow[TLB_ENTRIES_NUM](_ => Shadow(NO_SHADOW_VPN2, 0, 0, 0));
      tlbPtr, allocPtr, free := 0, PAGE_TABLE_PAGES, FRAME_PAGES - PAGE_TABLE_PAGES;
    }

    /** tlbp: the entry that matches EntryHi, if any. */
    method Probe(vpn: nat, pid: nat) returns (i: nat)
      requires hw.Length == TLB_ENTRIES_NUM
      ensures i <= TLB_ENTRIES_NUM && (i < TLB_ENTRIES_NUM <==> Cached(hw[..], vpn, pid))
      ensures i < TLB_ENTRIES_NUM ==> hw[i].vpn2 == vpn / 2 && hw[i].asid == pid
    {
      i := 0;
      while i < TLB_ENTRIES_NUM && !(hw[i].vpn2 == vpn / 2 && hw[i].asid == pid)
        invariant i <= TLB_ENTRIES_NUM
        invariant forall j :: 0 <= j < i ==> !(hw[j].vpn2 == vpn / 2 && hw[j].asid == pid)
      {
        i := i + 1;
      }
      assert i < TLB_ENTRIES_NUM ==> hw[..][i] == hw[i];
    }

    /** check_tlb_wrong_access */
    method WrongAccess(vpn: nat, pid: nat) returns (wrong: bool)
      requires shadow.Length == TLB_ENTRIES_NUM
      ensures wrong <==> Foreign(shadow[..], vpn, pid)
    {
      var i := 0;
      while i < TLB_ENTRIES_NUM
        invariant i <= TLB_ENTRIES_NUM
        invariant forall j :: 0 <= j < i ==> !(shadow[j].vpn2 == vpn / 2 && shadow[j].pid != pid)
      {
        if shadow[i].vpn2 == vpn / 2 && shadow[i].pid != pid {
          assert shadow[..][i] == shadow[i];
          return true;
        }
        i := i + 1;
      }
      return false;
    }

    /** get_tlb_invalid_index: the entry of the shadow copy for this pair; it is the entry the hardware found. */
    method InvalidIndex(vpn: nat, pid: nat, ghost hit: nat) returns (i: nat)
      requires Coherent() && vpn < VM_PAGES && hit < TLB_ENTRIES_NUM && hw[hit].vpn2 == vpn / 2 && hw[hit].asid == pid
      ensures i == hit
    {
      i := 0;
      ShadowFinds(mem[..], hw[..], shadow[..], hit, hit, vpn, pid);
      while !(shadow[i].vpn2 == vpn / 2 && shadow[i].pid == pid)
        invariant i <= hit
        decreases hit - i
      {
        i := i + 1;
      }
      ShadowFinds(mem[..], hw[..], shadow[..], hit, i, vpn, pid);
    }

    /** bzero of one page frame */
    method ClearFrame(f: nat)
      requires mem.Length == FRAME_PAGES * PAGE_WORDS && f < FRAME_PAGES
      modifies mem
      ensures forall w :: 0 <= w < mem.Length ==> mem[w] == if w / PAGE_WORDS == f then 0 else old(mem[w])
    {
      var w := f * PAGE_WORDS;
      while w < (f + 1) * PAGE_WORDS
        invariant f * PAGE_WORDS <= w <= (f + 1) * PAGE_WORDS
        invariant forall x :: 0 <= x < mem.Length ==> mem[x] == if f * PAGE_WORDS <= x < w then 0 else old(mem[x])
      {
        mem[w] := 0;
        w := w + 1;
      }
    }

    /** page_alloc while a frame is free: the frames are handed out in order, cleared. */
    method PageAlloc() returns (f: nat)
      requires Coherent() && free > 0
      modifies this`allocPtr, this`free, avail, mem
      ensures f == FRAME_PAGES - old(free) && free == old(free) - 1 && FramesOk()
      ensures mem[..VM_PAGES] == old(mem[..VM_PAGES])
      ensures forall w :: 0 <= w < mem.Length ==> mem[w] == if w / PAGE_WORDS == f then 0 else old(mem[w])
    {
      var i := allocPtr;
      while i < FRAME_PAGES && !avail[i]
        invariant 0 <= i <= FRAME_PAGES - free
      {
        i := i + 1;
      }
      f := i;
      allocPtr := (allocPtr + 1) % FRAME_PAGES;
      ClearFrame(f);
      avail[f] := false;
      free := free - 1;
      assert forall w :: 0 <= w < VM_PAGES ==> w / PAGE_WORDS < PAGE_TABLE_PAGES;
    }

    /** The page is mapped: it gets the next frame. */
    method MapPage(vpn: nat) returns (pfn: nat)
      requires Coherent() && free > 0 && vpn < VM_PAGES && mem[vpn] == 0
      modifies this`allocPtr, this`free, avail, mem
      ensures Coherent() && pfn == FIRST_PFN + FRAME_PAGES - old(free) && free == old(free) - 1
      ensures mem[..VM_PAGES] == old(mem[..VM_PAGES])[vpn := Pte(pfn)]
      ensures Mapped(old(mem[..]), mem[..], vpn, FRAME_PAGES - old(free))
    {
      ghost var was := mem[..];
      var f := PageAlloc();
      pfn := FIRST_PFN + f;
      TableDependsOnly(was, mem[..], hw[..], shadow[..], f);
      MapKeeps(mem[..], hw[..], shadow[..], f, vpn);
      ghost var cleared := mem[..];
      mem[vpn] := Pte(pfn);
      assert mem[..] == cleared[vpn := Pte(pfn)];
      assert mem[..VM_PAGES] == cleared[..VM_PAGES][vpn := Pte(pfn)];
    }

    /** The rest of the refill handler: the next entry round-robin is flushed and rewritten. */
    method Refill(vpn: nat, pid: nat, pfn: nat)
      requires Coherent() && vpn < VM_PAGES && mem[vpn] == Pte(pfn)
      requires !Cached(hw[..], vpn, pid) && !Foreign(shadow[..], vpn, pid)
      modifies this`tlbPtr, hw, shadow
      ensures Coherent() && tlbPtr == (old(tlbPtr) + 1) % TLB_ENTRIES_NUM && Accessible(hw[..], vpn, pid)
      ensures hw[..] == old(hw[..])[tlbPtr := NewSlot(vpn, pid, pfn)]
    {
      ghost var hw0, shadow0 := hw[..], shadow[..];
      tlbPtr := (tlbPtr + 1) % TLB_ENTRIES_NUM;
      RefillKeeps(mem[..], hw0, shadow0, tlbPtr, vpn, pid, pfn);
      // tlb_flush_no_check leaves zeros in EntryLo0 and EntryLo1
      var entryLo0, entryLo1 := 0, 0;
      hw[tlbPtr] := Slot(0, 0, entryLo0, entryLo1);
      if vpn % 2 == 1 {
        entryLo1 := EntryLo(pfn);
      } else {
        entryLo0 := EntryLo(pfn);
      }
      hw[tlbPtr] := Slot(vpn / 2, pid, entryLo0, entryLo1);
      if vpn % 2 == 1 {
        shadow[tlbPtr] := shadow[tlbPtr].(vpn2 := vpn / 2, pid := pid, pfn1 := entryLo1 / 0x40);
      } else {
        shadow[tlbPtr] := shadow[tlbPtr].(vpn2 := vpn / 2, pid := pid, pfn0 := entryLo0 / 0x40);
      }
      EntryLoValid(pfn);
      assert hw[..] == hw0[tlbPtr := NewSlot(vpn, pid, pfn)];
      assert shadow[..] == shadow0[tlbPtr := NewShadow(shadow0[tlbPtr], vpn, pid, pfn)];
    }

    /** The invalid handler: the other half of the entry is taken from the shadow copy. */
    method FillHalf(vpn: nat, pid: nat, pfn: nat, ghost hit: nat)
      requires Coherent() && vpn < VM_PAGES && mem[vpn] == Pte(pfn)
      requires hit < TLB_ENTRIES_NUM && hw[hit].vpn2 == vpn / 2 && hw[hit].asid == pid
      requires !Valid(Half(hw[hit], vpn % 2 == 1))
      modifies hw, shadow
      ensures Coherent() && Accessible(hw[..], vpn, pid)
      ensures forall v: nat, p: nat :: Accessible(old(hw[..]), v, p) ==> Accessible(hw[..], v, p)
      ensures SamePairs(old(hw[..]), hw[..])
    {
      ghost var hw0, shadow0 := hw[..], shadow[..];
      FillKeeps(mem[..], hw0, shadow0, hit, vpn, pid, pfn);
      var i := InvalidIndex(vpn, pid, hit);
      var entryLo0, entryLo1;
      if vpn % 2 == 1 {
        entryLo1 := EntryLo(pfn);
        entryLo0 := EntryLo(shadow[i].pfn0);
      } else {
        entryLo0 := EntryLo(pfn);
        entryLo1 := EntryLo(shadow[i].pfn1);
      }
      hw[i] := Slot(vpn / 2, pid, entryLo0, entryLo1);
      if vpn % 2 == 1 {
        shadow[i] := shadow[i].(vpn2 := vpn / 2, pid := pid, pfn1 := entryLo1 / 0x40);
      } else {
        shadow[i] := shadow[i].(vpn2 := vpn / 2, pid := pid, pfn0 := entryLo0 / 0x40);
      }
      EntryLoValid(pfn);
      assert hw[..] == hw0[i := FullSlot(shadow0[i], vpn, pid, pfn)];
      assert shadow[..] == shadow0[i := NewShadow(shadow0[i], vpn, pid, pfn)];
    }

    /** The condition on which the handler gives the page to the process. */
    ghost predicate Resolvable(vpn: nat, pid: nat)
      requires vpn < VM_PAGES <= mem.Length
      reads this, mem, hw, shadow
    {
      if Cached(hw[..], vpn, pid) then mem[vpn] == 0
      else !Foreign(shadow[..], vpn, pid) && (mem[vpn] != 0 || free > 0)
    }

    /** The refill handler. */
    method HandleMiss(vpn: nat, pid: nat)
      requires Coherent() && vpn < VM_PAGES && !Cached(hw[..], vpn, pid)
      modifies this, mem, avail, hw, shadow
      ensures Coherent()
      ensures Maps(old(mem[..]), mem[..], vpn, old(free), free, old(mem[vpn] == 0 && Resolvable(vpn, pid)))
      ensures if old(Resolvable(vpn, pid))
        then Accessible(hw[..], vpn, pid) && tlbPtr == (old(tlbPtr) + 1) % TLB_ENTRIES_NUM
          && hw[..] == old(hw[..])[tlbPtr := NewSlot(vpn, pid, mem[vpn] / 0x1000)]
        else mem[..] == old(mem[..]) && hw[..] == old(hw[..]) && shadow[..] == old(shadow[..])
    {
      var wrong := WrongAccess(vpn, pid);
      if wrong {
        return;
      }
      if mem[vpn] != 0 && Valid(mem[vpn]) {
        MappedIs(mem[..], FRAME_PAGES - free, vpn);
        Refill(vpn, pid, mem[vpn] / 0x1000);
      } else if mem[vpn] == 0 {
        if free != 0 {
          var pfn := MapPage(vpn);
          SameTable(old(mem[..]), mem[..], vpn, pfn);
          assert Pte(pfn) / 0x1000 == pfn;
          Refill(vpn, pid, pfn);
        }
      } else {
        MappedIs(mem[..], FRAME_PAGES - free, vpn);
      }
    }

    /**
     handle_tlb_exception_helper, for an access the hardware refused.  Coherence is kept, no
     mapping changes but a missing one is made, and the page is accessible afterwards exactly
     when it was resolvable.  The frame of a page newly mapped is cleared; no other word changes.
     */
    method HandleException(vpn: nat, pid: nat)
      requires Coherent() && vpn < VM_PAGES && pid < ASIDS && !Accessible(hw[..], vpn, pid)
      requires Cached(hw[..], vpn, pid) && mem[vpn] == 0 ==> free > 0
      modifies this, mem, avail, hw, shadow
      ensures Coherent()
      ensures forall v :: 0 <= v < VM_PAGES && (v != vpn || old(mem[v]) != 0) ==> mem[v] == old(mem[v])
      ensures Accessible(hw[..], vpn, pid) <==> old(Resolvable(vpn, pid))
      ensures Maps(old(mem[..]), mem[..], vpn, old(free), free, old(mem[vpn] == 0 && Resolvable(vpn, pid)))
      ensures old(Cached(hw[..], vpn, pid)) ==>
        forall v: nat, p: nat :: Accessible(old(hw[..]), v, p) ==> Accessible(hw[..], v, p)
      ensures old(Cached(hw[..], vpn, pid)) ==> tlbPtr == old(tlbPtr) && SamePairs(old(hw[..]), hw[..])
      ensures !old(Cached(hw[..], vpn, pid)) && old(Resolvable(vpn, pid)) ==>
        tlbPtr == (old(tlbPtr) + 1) % TLB_ENTRIES_NUM &&
          hw[..] == old(hw[..])[tlbPtr := NewSlot(vpn, pid, mem[vpn] / 0x1000)]
      ensures !old(Resolvable(vpn, pid)) ==>
        mem[..] == old(mem[..]) && hw[..] == old(hw[..]) && shadow[..] == old(shadow[..])
    {
      var index := Probe(vpn, pid);
      if index == TLB_ENTRIES_NUM {
        HandleMiss(vpn, pid);
      } else if mem[vpn] == 0 {
        var pfn := MapPage(vpn);
        SameTable(old(mem[..]), mem[..], vpn, pfn);
        FillHalf(vpn, pid, pfn, index);
      }
    }

    /**
     Any sequence of accesses by any tasks, each refused one handled.  The run stops early only
     at a page that is to be mapped when no frame is free.  Mapped pages and free frames add up
     to the same number throughout, and no word of a frame already handed out changes.
     */
    method Serve(accesses: seq<(nat, nat)>) returns (done: nat)
      requires Coherent() && forall k :: 0 <= k < |accesses| ==> accesses[k].0 < VM_PAGES && accesses[k].1 < ASIDS
      modifies this, mem, avail, hw, shadow
      ensures Coherent() && done <= |accesses|
      ensures done < |accesses| ==> free == 0 && mem[accesses[done].0] == 0
      ensures forall v :: 0 <= v < VM_PAGES && old(mem[v]) != 0 ==> mem[v] == old(mem[v])
      ensures |Pages(mem[..])| + free == old(|Pages(mem[..])| + free)
      ensures SameFrames(old(mem[..]), mem[..], FRAME_PAGES - old(free))
    {
      done := 0;
      while done < |accesses|
        invariant Coherent() && done <= |accesses| && free <= old(free)
        invariant forall v :: 0 <= v < VM_PAGES && old(mem[v]) != 0 ==> mem[v] == old(mem[v])
        invariant |Pages(mem[..])| + free == old(|Pages(mem[..])| + free)
        invariant SameFrames(old(mem[..]), mem[..], FRAME_PAGES - old(free))
      {
        var vpn, pid := accesses[done].0, accesses[done].1;
        if mem[vpn] == 0 && free == 0 && Cached(hw[..], vpn, pid) {
          return;
        }
        var fault := !Accessible(hw[..], vpn, pid);
        if fault {
          ghost var was, before := mem[..], free;
          ghost var maps := mem[vpn] == 0 && Resolvable(vpn, pid);
          HandleException(vpn, pid);
          MapsKeeps(was, mem[..], vpn, before, free, maps);
        }
        done := done + 1;
      }
    }

    /**
     Both pages of a pair are mapped and the pair is not cached: an access to one brings in
     only its half, and the access to the other is then refused for as long as the pair stays
     in its entry.
     */
    method StrandsOtherHalf(vpn: nat, other: nat, pid: nat)
      requires Coherent() && vpn < VM_PAGES && other < VM_PAGES && pid < ASIDS && vpn / 2 == other / 2 && vpn != other
      requires mem[vpn] != 0 && mem[other] != 0 && !Cached(hw[..], vpn, pid) && !Foreign(shadow[..], vpn, pid)
      modifies this, mem, avail, hw, shadow
      ensures Coherent() && Accessible(hw[..], vpn, pid) && !Accessible(hw[..], other, pid) && !Resolvable(other, pid)
      ensures forall v :: 0 <= v < VM_PAGES ==> mem[v] == old(mem[v])
    {
      assert !Accessible(hw[..], vpn, pid);
      ghost var hw0 := hw[..];
      HandleException(vpn, pid);
      HalfIsAlone(hw0, tlbPtr, vpn, other, pid, mem[vpn] / 0x1000);
      HandleException(other, pid);
    }

    /** The first page of one more pair: the pair takes the next entry. */
    method TouchNew(k: nat, pid: nat)
      requires Coherent() && pid < ASIDS && 2 * k < VM_PAGES && free > 0 && mem[2 * k] == 0
      requires tlbPtr == k % TLB_ENTRIES_NUM && Filled(hw[..], k, pid)
      modifies this, mem, avail, hw, shadow
      ensures Coherent() && free >= old(free) - 1 && Accessible(hw[..], 2 * k, pid)
      ensures tlbPtr == (k + 1) % TLB_ENTRIES_NUM && Filled(hw[..], k + 1, pid)
      ensures forall v :: 0 <= v < VM_PAGES && (v != 2 * k || old(mem[v]) != 0) ==> mem[v] == old(mem[v])
      ensures Cached(hw[..], 2 * k + 1, pid) && !Accessible(hw[..], 2 * k + 1, pid)
    {
      ghost var hw0 := hw[..];
      NotAmongThem(mem[..], hw0, shadow[..], k, 2 * k, pid);
      HandleException(2 * k, pid);
      FilledNext(hw0, k, pid, mem[2 * k] / 0x1000);
      HalfIsAlone(hw0, tlbPtr, 2 * k, 2 * k + 1, pid, mem[2 * k] / 0x1000);
    }

    /**
     A run of one task on a machine just started: the first two pages, then one page of each of
     the next 32 pairs, then the first page again.  The second page, mapped all along, is refused.
     */
    static method StrandAfterStart(pid: nat) returns (m: Mmu)
      requires pid < ASIDS
      ensures fresh(m) && m.Coherent() && m.mem[0] != 0 && m.mem[1] != 0
      ensures Accessible(m.hw[..], 0, pid) && !Accessible(m.hw[..], 1, pid) && !m.Resolvable(1, pid)
    {
      m := new Mmu();
      m.FirstPair(pid);
      for k := 1 to TLB_ENTRIES_NUM + 1
        invariant m.Coherent() && fresh(m) && fresh(m.mem) && fresh(m.avail) && fresh(m.hw) && fresh(m.shadow)
        invariant m.free >= 1000 - k && m.tlbPtr == k % TLB_ENTRIES_NUM && Filled(m.hw[..], k, pid)
        invariant m.mem[0] != 0 && m.mem[1] != 0 && forall v :: 2 * k <= v < VM_PAGES ==> m.mem[v] == 0
      {
        m.TouchNew(k, pid);
      }
      NotAmongThem(m.mem[..], m.hw[..], m.shadow[..], TLB_ENTRIES_NUM + 1, 0, pid);
      m.StrandsOtherHalf(0, 1, pid);
    }

    /** The first two pages. */
    method FirstPair(pid: nat)
      requires Coherent() && pid < ASIDS && free >= 2 && tlbPtr == 0 && forall v :: 0 <= v < VM_PAGES ==> mem[v] == 0
      modifies this, mem, avail, hw, shadow
      ensures Coherent() && free >= old(free) - 2 && tlbPtr == 1 && Filled(hw[..], 1, pid)
      ensures mem[0] != 0 && mem[1] != 0 && forall v :: 2 <= v < VM_PAGES ==> mem[v] == 0
    {
      TouchNew(0, pid);
      AccessibleMapped(mem[..], FRAME_PAGES - free, hw[..], shadow[..], 0, pid);
      ghost var hw1 := hw[..];
      HandleException(1, pid);
      FilledSame(hw1, hw[..], 1, pid);
      AccessibleMapped(mem[..], FRAME_PAGES - free, hw[..], shadow[..], 1, pid);
    }
  }
}
