/**
 A directory as a table of entries, and what do_mkdir, do_touch, do_rmdir and do_rename make
 of it.  Lookups see only the first block of a directory, so the model is one block of 32
 entries, of which the first two are "." and "..".
 */
module Directory {
  import opened Basics

  const DENTRY_NUM_PER_BLOCK := 32
  const MAX_DENTRY_BLOCK_NUM := 12

  datatype Dentry = Dentry(inum: nat, name: string)

  const EMPTY := Dentry(0, "")

  /** The entries of the first block, and i_fnum. */
  datatype Dir = Dir(slots: seq<Dentry>, fnum: nat)

  /** The first entry with this name, or the number of entries. */
  function Index(slots: seq<Dentry>, name: string, from: nat := 0): (k: nat)
    requires from <= |slots|
    ensures from <= k <= |slots|
    ensures k < |slots| ==> slots[k].name == name
    ensures forall j :: from <= j < k ==> slots[j].name != name
    decreases |slots| - from
  {
    if from == |slots| || slots[from].name == name then from else Index(slots, name, from + 1)
  }

  // ----------------------------------------------------------------- the operations

  /** write_dentry on an entry of the first block: an entry past the last handed out, or "." or "..", is an error. */
  function WriteDentry(d: Dir, k: nat, e: Dentry): Dir {
    if k < 2 || k > d.fnum + 2 || k >= |d.slots| then d else Dir(d.slots[k := e], d.fnum + 1)
  }

  /** do_mkdir and do_touch, as far as the parent directory goes */
  function Create(d: Dir, name: string, inum: nat): Dir {
    if Index(d.slots, name) < |d.slots| then d else WriteDentry(d, d.fnum + 2, Dentry(inum, name))
  }

  /** find_dentry, as the 32-bit number its callers use */
  function Found(d: Dir, name: string): nat {
    if Index(d.slots, name) < |d.slots| then Index(d.slots, name) else WORD - 1
  }

  /** remove_dentry of what find_dentry returned: the count goes down whether or not the entry was cleared. */
  function Remove(d: Dir, name: string): Dir {
    var w := WriteDentry(d, Found(d, name), EMPTY);
    w.(fnum := (w.fnum + WORD - 1) % WORD)
  }

  /** do_rename */
  function Rename(d: Dir, name: string, newName: string): Dir {
    if Index(d.slots, name) == |d.slots| then d
    else WriteDentry(d, Found(d, name), Dentry(d.slots[Index(d.slots, name)].inum, newName))
  }

  // ----------------------------------------------------------------- the directory as a map

  /** Entries are "." and "..", then distinct names with gaps; from i_fnum + 2 on all are empty. */
  ghost predicate DirOk(d: Dir) {
    && |d.slots| == DENTRY_NUM_PER_BLOCK && d.fnum + 2 <= DENTRY_NUM_PER_BLOCK
    && d.slots[0].name == "." && d.slots[1].name == ".."
    && (forall j, k :: 0 <= j < k < |d.slots| && d.slots[j].name == d.slots[k].name ==> d.slots[j].name == "")
    && (forall j :: d.fnum + 2 <= j < |d.slots| ==> d.slots[j] == EMPTY)
  }

  /** A lookup of this name finds what the map holds. */
  predicate Agrees(d: Dir, m: map<string, nat>, name: string) {
    var k := Index(d.slots, name);
    if name in m then k < |d.slots| && d.slots[k].inum == m[name] else k == |d.slots|
  }

  /** The directory holds exactly the map. */
  ghost predicate Shows(d: Dir, m: map<string, nat>) {
    DirOk(d) && "" !in m && forall name :: name != "" ==> Agrees(d, m, name)
  }

  /** In a well-formed directory the entry of a name is unique. */
  lemma OnlyEntry(d: Dir, k: nat)
    requires DirOk(d) && k < |d.slots| && d.slots[k].name != ""
    ensures Index(d.slots, d.slots[k].name) == k
  {
  }

  lemma WriteOk(d: Dir, k: nat, e: Dentry)
    requires DirOk(d) && 2 <= k <= d.fnum + 2 <= DENTRY_NUM_PER_BLOCK && k < DENTRY_NUM_PER_BLOCK
    requires e == EMPTY || (e.name != "" && forall j :: 0 <= j < |d.slots| && j != k ==> d.slots[j].name != e.name)
    ensures var r := WriteDentry(d, k, e);
      && (forall i, j :: 0 <= i < j < |r.slots| && r.slots[i].name == r.slots[j].name ==> r.slots[i].name == "")
      && (forall j :: d.fnum + 3 <= j < |r.slots| ==> r.slots[j] == EMPTY)
  {
  }

  /** Where a name is found after one entry was replaced. */
  lemma IndexAfter(d: Dir, k: nat, e: Dentry, name: string)
    requires DirOk(d) && k < |d.slots| && name != ""
    requires e.name != "" ==> forall j :: 0 <= j < |d.slots| && j != k ==> d.slots[j].name != e.name
    ensures Index(d.slots[k := e], name) ==
      if name == e.name then k else if name == d.slots[k].name then |d.slots| else Index(d.slots, name)
  {
    var slots := d.slots[k := e];
    var i, i' := Index(d.slots, name), Index(slots, name);
    assert slots[k] == e && forall j :: 0 <= j < |slots| && j != k ==> slots[j] == d.slots[j];
    if name != e.name {
      if i' < |slots| {
        assert d.slots[i'] == slots[i'];
        OnlyEntry(d, i');
        if name == d.slots[k].name {
          OnlyEntry(d, k);
        }
      }
    }
  }

  /** Creation finds its slot empty, adds the name, and refuses a name that exists. */
  lemma CreateShows(d: Dir, m: map<string, nat>, name: string, inum: nat)
    requires Shows(d, m) && name != "" && d.fnum + 2 < DENTRY_NUM_PER_BLOCK
    ensures name !in m ==> d.slots[d.fnum + 2] == EMPTY
    ensures Shows(Create(d, name, inum), if name in m then m else m[name := inum])
  {
    assert Agrees(d, m, name);
    if name !in m {
      var k, e, r, m' := d.fnum + 2, Dentry(inum, name), Create(d, name, inum), m[name := inum];
      WriteOk(d, k, e);
      forall n | n != "" ensures Agrees(r, m', n) {
        IndexAfter(d, k, e, n);
        assert Agrees(d, m, n);
      }
    }
  }

  /** Removal of a name that was created takes exactly that name away and leaves a gap. */
  lemma RemoveShows(d: Dir, m: map<string, nat>, name: string)
    requires Shows(d, m) && name in m && name != "." && name != ".."
    ensures Shows(Remove(d, name), m - {name})
  {
    assert Agrees(d, m, name);
    var k, r, m' := Index(d.slots, name), Remove(d, name), m - {name};
    WriteOk(d, k, EMPTY);
    assert r.fnum == d.fnum && r.slots == d.slots[k := EMPTY];
    forall n | n != "" ensures Agrees(r, m', n) {
      IndexAfter(d, k, EMPTY, n);
      assert Agrees(d, m, n);
    }
  }

  /** Renaming moves the inode to the new name; a missing name, "." and ".." are left alone. */
  lemma RenameShows(d: Dir, m: map<string, nat>, name: string, newName: string)
    requires Shows(d, m) && name != "" && newName != "" && newName !in m && d.fnum + 2 < DENTRY_NUM_PER_BLOCK
    ensures Shows(Rename(d, name, newName), if name in m && name != "." &&
      name != ".." then (m - {name})[newName := m[name]] else m)
  {
    assert Agrees(d, m, name) && Agrees(d, m, newName);
    var k := Index(d.slots, name);
    if name in m && k >= 2 {
      var e, r, m' := Dentry(d.slots[k].inum, newName), Rename(d, name, newName), (m - {name})[newName := m[name]];
      WriteOk(d, k, e);
      forall n | n != "" ensures Agrees(r, m', n) {
        IndexAfter(d, k, e, n);
        assert Agrees(d, m, n);
      }
    }
  }

  /**
   Removal keeps the directory well formed exactly when it finds a created name, or the last
   entry handed out is already a gap: otherwise the next creation overwrites a live entry,
   or, with nothing handed out, i_fnum wraps around.
   */
  lemma RemoveExact(d: Dir, name: string)
    requires DirOk(d) && name != ""
    ensures DirOk(Remove(d, name)) <==>
      2 <= Index(d.slots, name) < |d.slots| || (d.fnum > 0 && d.slots[d.fnum + 1] == EMPTY)
  {
    var k, r := Index(d.slots, name), Remove(d, name);
    if 2 <= k < |d.slots| {
      WriteOk(d, k, EMPTY);
      assert r == Dir(d.slots[k := EMPTY], d.fnum);
    } else {
      assert r == Dir(d.slots, if d.fnum == 0 then WORD - 1 else d.fnum - 1);
      assert d.fnum > 0 && DirOk(r) ==> r.slots[r.fnum + 2] == EMPTY;
    }
  }

  /**
   What goes wrong otherwise: with the last entry handed out in use, removing a name that is
   not there (or "." or "..") and then creating one puts the new name over that entry.
   */
  lemma RemovalLosesEntry(d: Dir, m: map<string, nat>, missing: string, name: string, inum: nat)
    requires Shows(d, m) && d.fnum > 0 && d.slots[d.fnum + 1].name != ""
    requires missing != "" && (missing in m ==> missing == "." || missing == "..") && name != "" && name !in m
    ensures var live, r := d.slots[d.fnum + 1].name, Create(Remove(d, missing), name, inum);
      live in m && Index(r.slots, live) == |r.slots|
  {
    var k := d.fnum + 1;
    assert Agrees(d, m, missing) && Agrees(d, m, name) && Agrees(d, m, d.slots[k].name);
    OnlyEntry(d, k);
    OnlyEntry(d, 0);
    OnlyEntry(d, 1);
    assert Remove(d, missing) == Dir(d.slots, d.fnum - 1);
    IndexAfter(d, k, Dentry(inum, name), d.slots[k].name);
  }

  /**
   Renaming a created name keeps the directory well formed exactly when an entry is left to
   hand out, which the count uses up, and no other entry has the new name.
   */
  lemma RenameExact(d: Dir, name: string, newName: string)
    requires DirOk(d) && name != "" && 2 <= Index(d.slots, name) < |d.slots|
    ensures DirOk(Rename(d, name, newName)) <==>
      d.fnum + 2 < DENTRY_NUM_PER_BLOCK && (newName in {"", name} || Index(d.slots, newName) == |d.slots|)
  {
    var k, j, r := Index(d.slots, name), Index(d.slots, newName), Rename(d, name, newName);
    assert r == Dir(d.slots[k := Dentry(d.slots[k].inum, newName)], d.fnum + 1);
    if newName in {"", name} || j == |d.slots| {
      forall i | 0 <= i < |d.slots| && i != k ensures newName == "" || d.slots[i].name != newName { OnlyName(d, i, k); }
    } else {
      assert r.slots[j].name == r.slots[k].name == newName && j != k;
    }
  }

  lemma OnlyName(d: Dir, i: nat, k: nat)
    requires DirOk(d) && i < |d.slots| && k < |d.slots| && i != k
    ensures d.slots[i].name == "" || d.slots[i].name != d.slots[k].name
  {
  }

  /** What goes wrong otherwise: of the two entries with the new name, no lookup finds the later one. */
  lemma RenameShadows(d: Dir, m: map<string, nat>, name: string, newName: string)
    requires Shows(d, m) && {name, newName} <= m.Keys && name != newName && 2 <= Index(d.slots, name)
    ensures var r, j, k := Rename(d, name, newName), Index(d.slots, name), Index(d.slots, newName);
      var lost := if j < k then k else j;
      && lost < |d.slots| && r.slots[lost].inum == (if j < k then m[newName] else m[name])
      && forall n :: Index(r.slots, n) != lost
  {
    assert Agrees(d, m, name) && Agrees(d, m, newName);
    var r, j, k := Rename(d, name, newName), Index(d.slots, name), Index(d.slots, newName);
    assert r.slots == d.slots[j := Dentry(m[name], newName)];
    var lost, found := if j < k then k else j, if j < k then j else k;
    assert r.slots[lost].name == r.slots[found].name == newName && found < lost;
    forall n ensures Index(r.slots, n) != lost { }
  }

  /** The table do_mkdir writes for a new directory. */
  function New(self: nat, parent: nat): Dir {
    Dir([Dentry(self, "."), Dentry(parent, "..")] + seq(DENTRY_NUM_PER_BLOCK - 2, _ => EMPTY), 0)
  }

  lemma NewShows(self: nat, parent: nat)
    ensures Shows(New(self, parent), map["." := self, ".." := parent])
  {
    var d, m := New(self, parent), map["." := self, ".." := parent];
    forall name | name != "" ensures Agrees(d, m, name) {
      OnlyEntry(d, 0);
      OnlyEntry(d, 1);
    }
  }

  // ----------------------------------------------------------------- any sequence of operations

  datatype Op = Make(name: string, inum: nat) | Drop(name: string) | Move(name: string, newName: string)

  function Apply(d: Dir, op: Op): Dir {
    match op
    case Make(name, inum) => Create(d, name, inum)
    case Drop(name) => Remove(d, name)
    case Move(name, newName) => Rename(d, name, newName)
  }

  /** The same operation on a map. */
  function ApplyMap(m: map<string, nat>, op: Op): map<string, nat> {
    match op
    case Make(name, inum) => if name in m then m else m[name := inum]
    case Drop(name) => m - {name}
    case Move(name, newName) => if name in m && name != "." && name != ".." then (m - {name})[newName := m[name]] else m
  }

  /** Names are not empty, an entry is left to hand out, removed names exist, and rename targets are new. */
  predicate Permitted(d: Dir, m: map<string, nat>, op: Op) {
    && op.name != ""
    && match op
       case Make(_, _) => d.fnum + 2 < DENTRY_NUM_PER_BLOCK
       case Drop(name) => name in m && name != "." && name != ".."
       case Move(_, newName) => d.fnum + 2 < DENTRY_NUM_PER_BLOCK && newName != "" && newName !in m
  }

  predicate AllPermitted(d: Dir, m: map<string, nat>, ops: seq<Op>)
    decreases |ops|
  {
    ops == [] || (Permitted(d, m, ops[0]) && AllPermitted(Apply(d, ops[0]), ApplyMap(m, ops[0]), ops[1..]))
  }

  function ApplyAll(d: Dir, ops: seq<Op>): Dir
    decreases |ops|
  {
    if ops == [] then d else ApplyAll(Apply(d, ops[0]), ops[1..])
  }

  function ApplyAllMap(m: map<string, nat>, ops: seq<Op>): map<string, nat>
    decreases |ops|
  {
    if ops == [] then m else ApplyAllMap(ApplyMap(m, ops[0]), ops[1..])
  }

  /** A directory is a finite map: after any sequence of operations every lookup agrees with the map. */
  lemma {:induction false} DirectoryIsMap(d: Dir, m: map<string, nat>, ops: seq<Op>)
    requires Shows(d, m) && AllPermitted(d, m, ops)
    ensures Shows(ApplyAll(d, ops), ApplyAllMap(m, ops))
    decreases |ops|
  {
    if ops == [] {
    } else {
      match ops[0] {
        case Make(name, inum) => CreateShows(d, m, name, inum);
        case Drop(name) => RemoveShows(d, m, name);
        case Move(name, newName) => RenameShows(d, m, name, newName);
      }
      DirectoryIsMap(Apply(d, ops[0]), ApplyMap(m, ops[0]), ops[1..]);
    }
  }

  // ----------------------------------------------------------------- the code

  class DirectoryFile {
    // The directory's blocks, each a table of entries; blocks past the first are never searched.
    const blocks: array<seq<Dentry>>
    var fnum: nat

    ghost predicate Valid()
      reads this, blocks
    {
      blocks.Length == MAX_DENTRY_BLOCK_NUM &&
        (forall b :: 0 <= b < blocks.Length ==> |blocks[b]| == DENTRY_NUM_PER_BLOCK) && fnum < WORD
    }

    ghost function State(): Dir
      requires Valid()
      reads this, blocks
    {
      Dir(blocks[0], fnum)
    }

    /** A new directory holds itself and its parent. */
    constructor (self: nat, parent: nat)
      ensures Valid() && State() == New(self, parent) && fresh(blocks)
      ensures Shows(State(), map["." := self, ".." := parent])
    {
      blocks := new seq<Dentry>[MAX_DENTRY_BLOCK_NUM](_ => seq(DENTRY_NUM_PER_BLOCK, _ => EMPTY));
      fnum := 0;
      new;
      blocks[0] := [Dentry(self, "."), Dentry(parent, "..")] + seq(DENTRY_NUM_PER_BLOCK - 2, _ => EMPTY);
      NewShows(self, parent);
    }

    /** find_dentry: the entry counter is not reset between blocks, so only the first block counts. */
    method FindDentry(name: string) returns (r: int)
      requires Valid()
      ensures r == if Index(blocks[0], name) < |blocks[0]| then Index(blocks[0], name) else -1
    {
      var i, j := 0, 0;
      while i < MAX_DENTRY_BLOCK_NUM
        invariant 0 <= i <= MAX_DENTRY_BLOCK_NUM
        invariant if i == 0 then j == 0 else j == DENTRY_NUM_PER_BLOCK && Index(blocks[0], name) == |blocks[0]|
      {
        var p := blocks[i];
        while j < DENTRY_NUM_PER_BLOCK
          invariant 0 <= j <= DENTRY_NUM_PER_BLOCK
          invariant if i == 0 then Index(p, name) == Index(p, name, j) else j == DENTRY_NUM_PER_BLOCK
        {
          if name == p[j].name {
            return i * DENTRY_NUM_PER_BLOCK + j;
          }
          j := j + 1;
        }
        i := i + 1;
      }
      return -1;
    }

    /** write_dentry, for an entry of the first block */
    method WriteEntry(k: nat, e: Dentry)
      requires Valid() && fnum + 1 < WORD && (2 <= k <= fnum + 2 ==> k < DENTRY_NUM_PER_BLOCK)
      modifies this, blocks
      ensures Valid() && State() == WriteDentry(old(State()), k, e)
    {
      if k < 2 {
        return;
      }
      if k > fnum + 2 {
        return;
      }
      fnum := fnum + 1;
      blocks[0] := blocks[0][k := e];
    }

    /** do_mkdir and do_touch on the parent directory */
    method Touch(name: string, inum: nat) returns (duplicate: bool)
      requires Valid() && fnum + 2 < DENTRY_NUM_PER_BLOCK
      modifies this, blocks
      ensures Valid() && State() == Create(old(State()), name, inum)
      ensures duplicate <==> Index(old(State()).slots, name) < DENTRY_NUM_PER_BLOCK
    {
      var r := FindDentry(name);
      duplicate := r != -1;
      if !duplicate {
        WriteEntry(fnum + 2, Dentry(inum, name));
      }
    }

    /** do_rmdir on the parent directory */
    method Rmdir(name: string)
      requires Valid() && fnum + 2 <= DENTRY_NUM_PER_BLOCK
      modifies this, blocks
      ensures Valid() && State() == Remove(old(State()), name)
    {
      var r := FindDentry(name);
      var k := if r == -1 then WORD - 1 else r;
      WriteEntry(k, EMPTY);
      fnum := (fnum + WORD - 1) % WORD;
    }

    /** do_rename; the inode number comes from a second search */
    method RenameEntry(name: string, newName: string)
      requires Valid() && fnum + 2 < DENTRY_NUM_PER_BLOCK
      modifies this, blocks
      ensures Valid() && State() == Rename(old(State()), name, newName)
    {
      var r := FindDentry(name);
      var k := if r == -1 then WORD - 1 else r;
      var inum := if r == -1 then 0 else blocks[0][r].inum;
      WriteEntry(k, Dentry(inum, newName));
    }

    /** In a new directory: a is created, b, which is not there, is removed, c is created.  Then a is gone. */
    static method LosesEntry(self: nat, parent: nat, inum: nat, inum': nat) returns (f: DirectoryFile)
      ensures fresh(f) && f.Valid() && Index(f.State().slots, "a") == DENTRY_NUM_PER_BLOCK
    {
      f := new DirectoryFile(self, parent);
      var m := map["." := self, ".." := parent];
      CreateShows(f.State(), m, "a", inum);
      assert Agrees(f.State(), m, "a");
      var duplicate := f.Touch("a", inum);
      RemovalLosesEntry(f.State(), m["a" := inum], "b", "c", inum');
      f.Rmdir("b");
      duplicate := f.Touch("c", inum');
    }

    /** In a new directory: a and b are created, a is renamed to b.  Then b's own entry is not found. */
    static method RenameLosesEntry(self: nat, parent: nat, inum: nat, inum': nat) returns (f: DirectoryFile)
      ensures fresh(f) && f.Valid() && f.State().slots[3] == Dentry(inum', "b")
      ensures forall n :: Index(f.State().slots, n) != 3
    {
      f := new DirectoryFile(self, parent);
      var m := map["." := self, ".." := parent];
      CreateShows(f.State(), m, "a", inum);
      assert Agrees(f.State(), m, "a");
      var duplicate := f.Touch("a", inum);
      CreateShows(f.State(), m["a" := inum], "b", inum');
      assert Agrees(f.State(), m["a" := inum], "b");
      duplicate := f.Touch("b", inum');
      OnlyEntry(f.State(), 2);
      OnlyEntry(f.State(), 3);
      RenameShadows(f.State(), m["a" := inum]["b" := inum'], "a", "b");
      f.RenameEntry("a", "b");
    }
  }
}
