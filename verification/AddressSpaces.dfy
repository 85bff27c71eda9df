/**
 What the kernel's loops over page tables compute: growing, shrinking and destroying
 address spaces, and mapping ranges of the kernel half.
 */
module AddressSpaces {
  import opened Basics
  import opened PageTables

  const USER_FLAGS: Flags := Flags(true, true, true, 0)

  /** `PGROUNDUP` in pages. */
  function RoundUp(bytes: nat): (pages: nat) {
    (bytes + PAGE_SIZE - 1) / PAGE_SIZE
  }

  /** The least number of pages that holds them. */
  lemma RoundUpLeast(bytes: nat)
    ensures bytes <= RoundUp(bytes) * PAGE_SIZE < bytes + PAGE_SIZE
  {
  }

  /** User memory lies below this address. */
  const KERNBASE: nat := 0x8000_0000

  // ---------------------------------------------------------------- how roles move

  /** Only free frames change role, and only to serve directory `d`. */
  ghost predicate Grows(owner: Owners, owner': Owners, d: nat) {
    && owner'.Keys == owner.Keys
    && (forall f :: f in owner && owner[f] != Free && f in owner' ==> owner'[f] == owner[f])
    && (forall f :: f in owner && owner[f] == Free && f in owner' ==> Serves(owner'[f], f, d))
  }

  ghost predicate Serves(r: Role, f: nat, d: nat) {
    || r == Free
    || (r == Dir && f == d)
    || (r.TableOf? && r.dir == d)
    || (r.PageOf? && r.dir == d)
  }

  lemma GrowsTrans(a: Owners, b: Owners, c: Owners, d: nat)
    requires Grows(a, b, d) && Grows(b, c, d)
    ensures Grows(a, c, d)
  {
  }

  lemma KeptTrans(a: Vm, b: Vm, c: Vm, d: nat)
    requires OthersKept(a, b, d) && OthersKept(b, c, d)
    ensures OthersKept(a, c, d)
  {
    forall e | HasRole(a.owner, e, Dir) && e != d ensures HasRole(c.owner, e, Dir) && SameSpace(a.mem, c.mem, e) {
      assert SameSpace(a.mem, b.mem, e) && SameSpace(b.mem, c.mem, e);
    }
  }

  // ---------------------------------------------------------------- finding or making a page table

  /** `getPageTableEntry` with `alloc` set, for directory entry `i`; the flag is false when there is no memory. */
  ghost function Walked(vm: Vm, d: nat, i: nat): (Vm, bool)
    requires IsTable(vm.mem, d) && i < ENTRIES && d !in vm.free
  {
    if TableFor(vm.mem, d, i).Some? then (vm, true)
    else if vm.free == [] then (vm, false)
    else (AddTable(Pop(vm), d, i, vm.free[0]), true)
  }

  /** A directory is a table and is not free. */
  lemma DirFacts(vm: Vm, d: nat)
    requires Inv(vm) && HasRole(vm.owner, d, Dir)
    ensures IsTable(vm.mem, d) && d !in vm.free
  {
    assert RoleOk(vm.mem, vm.owner, d);
  }

  lemma SameSpaceRefl(mem: Memory, d: nat)
    ensures SameSpace(mem, mem, d)
  {
  }

  /** Making a page table changes no mapping and takes at most one frame. */
  lemma WalkedOk(vm: Vm, d: nat, i: nat)
    requires Inv(vm) && HasRole(vm.owner, d, Dir) && i < ENTRIES
    ensures IsTable(vm.mem, d) && d !in vm.free
    ensures var (vm', ok) := Walked(vm, d, i);
            && Inv(vm') && OthersKept(vm, vm', d) && SameSpace(vm.mem, vm'.mem, d) && Grows(vm.owner, vm'.owner, d)
            && HasRole(vm'.owner, d, Dir)
            && (ok <==> TableFor(vm.mem, d, i).Some? || vm.free != [])
            && (ok <==> TableFor(vm'.mem, d, i).Some?)
            && |vm'.free| == |vm.free| - (if TableFor(vm.mem, d, i).None? && ok then 1 else 0)
            && (forall j :: 0 <= j < ENTRIES && j != i ==> TableFor(vm'.mem, d, j) == TableFor(vm.mem, d, j))
  {
    hide Inv;
    hide SameSpace;
    hide OthersKept;
    DirFacts(vm, d);
    if TableFor(vm.mem, d, i).None? && vm.free != [] {
      PopInv(vm);
      AddTableInv(Pop(vm), d, i, vm.free[0]);
      PopKept(vm, AddTable(Pop(vm), d, i, vm.free[0]), d);
    } else {
      KeptRefl(vm, d);
      SameSpaceRefl(vm.mem, d);
    }
  }

  /** Allocating a frame concerns no directory. */
  lemma PopKept(vm: Vm, vm': Vm, d: nat)
    requires vm.free != [] && HasRole(vm.owner, vm.free[0], Free) && OthersKept(Pop(vm), vm', d)
    ensures OthersKept(vm, vm', d)
  {
    forall e | HasRole(vm.owner, e, Dir) && e != d ensures HasRole(vm'.owner, e, Dir) && SameSpace(vm.mem, vm'.mem, e) {
      assert HasRole(Pop(vm).owner, e, Dir);
    }
  }

  // ---------------------------------------------------------------- releasing pages

  ghost predicate PageIn(r: Role, d: nat, lo: nat, hi: nat) {
    r.PageOf? && r.dir == d && lo <= r.page < hi
  }

  /** `releaseUserPages`, page by page. */
  ghost function Released(vm: Vm, d: nat, v: nat, hi: nat): Vm
    requires Inv(vm) && HasRole(vm.owner, d, Dir) && hi <= USER_PAGES
    decreases hi - v
  {
    if v >= hi then vm
    else if Lookup(vm.mem, d, v).Some? then
      UnmapInv(vm, d, v);
      UnmapRoles(vm, d, v);
      Released(UnmapPage(vm, d, v), d, v + 1, hi)
    else Released(vm, d, v + 1, hi)
  }

  /** Unmapping a page frees its frame and changes no other role, no directory entry and no other page's bytes. */
  lemma UnmapRoles(vm: Vm, d: nat, v: nat)
    requires Inv(vm) && HasRole(vm.owner, d, Dir) && v < USER_PAGES && Lookup(vm.mem, d, v).Some?
    ensures Mappable(vm, d, v) && IsTable(vm.mem, TableFor(vm.mem, d, v / ENTRIES).value)
    ensures var vm' := UnmapPage(vm, d, v);
            && HasRole(vm'.owner, d, Dir) && vm'.owner.Keys == vm.owner.Keys
            && (forall f :: f in vm.owner && f in vm'.owner ==>
                 vm'.owner[f] == if PageIn(vm.owner[f], d, v, v + 1) then Free else vm.owner[f])
            && (forall i :: 0 <= i < ENTRIES ==> TableFor(vm'.mem, d, i) == TableFor(vm.mem, d, i))
            && (forall f :: f in vm.owner && vm.owner[f].PageOf? && vm.owner[f] != PageOf(d, v) ==>
                 Bytes(vm'.mem, f) == Bytes(vm.mem, f))
  {
    TableRole(vm, d, v / ENTRIES);
    PageRole(vm, d, v);
    forall f | f in vm.owner && PageIn(vm.owner[f], d, v, v + 1) ensures f == Lookup(vm.mem, d, v).value.frame {
      assert RoleOk(vm.mem, vm.owner, f);
    }
  }

  /** What releasing pages [v, hi) does, whatever is mapped there. */
  ghost predicate IsReleased(vm: Vm, vm': Vm, d: nat, v: nat, hi: nat) {
    && Inv(vm') && OthersKept(vm, vm', d) && HasRole(vm'.owner, d, Dir)
    && vm'.owner.Keys == vm.owner.Keys
    && (forall f :: f in vm.owner && f in vm'.owner ==>
         vm'.owner[f] == if PageIn(vm.owner[f], d, v, hi) then Free else vm.owner[f])
    && (forall i :: 0 <= i < ENTRIES ==> TableFor(vm'.mem, d, i) == TableFor(vm.mem, d, i))
    && (forall w :: 0 <= w < PAGES ==> Lookup(vm'.mem, d, w) == if v <= w < hi then None else Lookup(vm.mem, d, w))
    && (forall f :: f in vm.owner && vm.owner[f].PageOf? && !PageIn(vm.owner[f], d, v, hi) ==>
         Bytes(vm'.mem, f) == Bytes(vm.mem, f))
  }

  lemma KeptRefl(vm: Vm, d: nat)
    ensures OthersKept(vm, vm, d)
  {
    forall e ensures SameSpace(vm.mem, vm.mem, e) { SameSpaceRefl(vm.mem, e); }
  }

  lemma {:induction false} ReleasedOk(vm: Vm, d: nat, v: nat, hi: nat)
    requires Inv(vm) && HasRole(vm.owner, d, Dir) && hi <= USER_PAGES
    ensures IsReleased(vm, Released(vm, d, v, hi), d, v, hi)
    decreases hi - v
  {
    hide Inv;
    hide Lookup;
    hide OthersKept;
    if v >= hi {
      KeptRefl(vm, d);
    } else if Lookup(vm.mem, d, v).Some? {
      UnmapInv(vm, d, v);
      UnmapRoles(vm, d, v);
      var vm1 := UnmapPage(vm, d, v);
      hide UnmapPage;
      ReleasedOk(vm1, d, v + 1, hi);
      KeptTrans(vm, vm1, Released(vm1, d, v + 1, hi), d);
    } else {
      ReleasedOk(vm, d, v + 1, hi);
      forall f | f in vm.owner ensures vm.owner[f] != PageOf(d, v) { NotMapped(vm, d, v, f); }
    }
  }

  // ---------------------------------------------------------------- mapping a page

  /** A held data frame is to become page `v` of `d`, which is not mapped. */
  ghost predicate Creatable(vm: Vm, d: nat, v: nat, f: nat) {
    Inv(vm) && HasRole(vm.owner, d, Dir) && v < USER_PAGES && Lookup(vm.mem, d, v).None? &&
      HasRole(vm.owner, f, Held) && IsData(vm.mem, f)
  }

  /** `createPageTableEntries` for one user page; the flag is false when there is no memory for a page table. */
  ghost function Created(vm: Vm, d: nat, v: nat, f: nat, flags: Flags): (Vm, bool)
    requires Creatable(vm, d, v, f)
  {
    WalkedOk(vm, d, v / ENTRIES);
    WalkedHeld(vm, d, v / ENTRIES, f);
    var (vm', ok) := Walked(vm, d, v / ENTRIES);
    if ok then
      MapPageInv(vm', d, v, f, flags);
      (MapPage(vm', d, v, f, flags), true)
    else (vm', false)
  }

  lemma WalkedHeld(vm: Vm, d: nat, i: nat, f: nat)
    requires Inv(vm) && HasRole(vm.owner, d, Dir) && i < ENTRIES && HasRole(vm.owner, f, Held)
    ensures IsTable(vm.mem, d) && d !in vm.free
    ensures var vm' := Walked(vm, d, i).0;
            HasRole(vm'.owner, f, Held) && f in vm'.mem && f in vm.mem && vm'.mem[f] == vm.mem[f]
    ensures var vm' := Walked(vm, d, i).0; forall g :: g in vm.owner && vm.owner[g].PageOf? ==>
              Bytes(vm'.mem, g) == Bytes(vm.mem, g)
  {
    DirFacts(vm, d);
  }

  /** What mapping one page does. */
  ghost predicate IsCreated(vm: Vm, vm': Vm, d: nat, v: nat, f: nat, flags: Flags, ok: bool) {
    && Inv(vm') && OthersKept(vm, vm', d) && HasRole(vm'.owner, d, Dir)
    && vm'.owner.Keys == vm.owner.Keys
    && (ok <==> TableFor(vm.mem, d, v / ENTRIES).Some? || vm.free != [])
    && |vm'.free| == |vm.free| - (if TableFor(vm.mem, d, v / ENTRIES).None? && ok then 1 else 0)
    && HasRole(vm'.owner, f, if ok then PageOf(d, v) else Held)
    && (forall g :: g in vm.owner && g in vm'.owner && g != f && vm.owner[g] != Free ==> vm'.owner[g] == vm.owner[g])
    && (forall g :: g in vm.owner && g in vm'.owner && vm.owner[g] == Free ==>
         vm'.owner[g] == Free || vm'.owner[g] == TableOf(d, v / ENTRIES))
    && (forall i :: 0 <= i < ENTRIES && i != v / ENTRIES ==> TableFor(vm'.mem, d, i) == TableFor(vm.mem, d, i))
    && (TableFor(vm'.mem, d, v / ENTRIES).Some? <==> ok)
    && (forall w :: 0 <= w < PAGES ==>
         Lookup(vm'.mem, d, w) == if ok && w == v then Some(Pte(f, flags.(present := true))) else Lookup(vm.mem, d, w))
    && Bytes(vm'.mem, f) == Bytes(vm.mem, f)
    && (forall g :: g in vm.owner && vm.owner[g].PageOf? ==> Bytes(vm'.mem, g) == Bytes(vm.mem, g))
  }

  lemma WalkedRoles(vm: Vm, d: nat, i: nat, g: nat)
    requires Inv(vm) && HasRole(vm.owner, d, Dir) && i < ENTRIES && HasRole(vm.owner, g, Free)
    ensures IsTable(vm.mem, d) && d !in vm.free
    ensures var vm' := Walked(vm, d, i).0; g in vm'.owner && (vm'.owner[g] == Free || vm'.owner[g] == TableOf(d, i))
  {
    DirFacts(vm, d);
  }

  lemma MapPageRest(vm: Vm, d: nat, v: nat, f: nat, flags: Flags)
    requires Inv(vm) && Mappable(vm, d, v) && IsTable(vm.mem, TableFor(vm.mem, d, v / ENTRIES).value)
    requires HasRole(vm.owner, f, Held)
    ensures var vm' := MapPage(vm, d, v, f, flags);
            && (forall i :: 0 <= i < ENTRIES ==> TableFor(vm'.mem, d, i) == TableFor(vm.mem, d, i))
            && Bytes(vm'.mem, f) == Bytes(vm.mem, f)
            && (forall g :: g in vm.owner && vm.owner[g].PageOf? ==> Bytes(vm'.mem, g) == Bytes(vm.mem, g))
  {
    TableRole(vm, d, v / ENTRIES);
  }

  lemma CreatedOk(vm: Vm, d: nat, v: nat, f: nat, flags: Flags)
    requires Creatable(vm, d, v, f)
    ensures var (vm', ok) := Created(vm, d, v, f, flags); IsCreated(vm, vm', d, v, f, flags, ok)
  {
    hide Inv;
    hide OthersKept;
    hide SameSpace;
    hide Walked;
    hide Lookup;
    WalkedOk(vm, d, v / ENTRIES);
    WalkedHeld(vm, d, v / ENTRIES, f);
    var (vm1, ok) := Walked(vm, d, v / ENTRIES);
    forall g | g in vm.owner && vm.owner[g] == Free
      ensures g in vm1.owner && (vm1.owner[g] == Free || vm1.owner[g] == TableOf(d, v / ENTRIES)) {
      WalkedRoles(vm, d, v / ENTRIES, g);
    }
    forall w | 0 <= w < PAGES
      ensures Lookup(vm1.mem, d, w) == Lookup(vm.mem, d, w) { SameLookup(vm.mem, vm1.mem, d, w); }
    if ok {
      MapPageInv(vm1, d, v, f, flags);
      MapPageRest(vm1, d, v, f, flags);
      KeptTrans(vm, vm1, MapPage(vm1, d, v, f, flags), d);
    }
  }

  lemma SameLookup(mem: Memory, mem': Memory, d: nat, v: nat)
    requires SameSpace(mem, mem', d) && v < PAGES
    ensures Lookup(mem', d, v) == Lookup(mem, d, v)
  {
  }

  // ---------------------------------------------------------------- growing

  ghost predicate Growable(vm: Vm, d: nat, lo: nat, v: nat, hi: nat) {
    && Inv(vm) && HasRole(vm.owner, d, Dir) && lo <= v && hi <= USER_PAGES
    && forall w :: v <= w < hi ==> Lookup(vm.mem, d, w).None?
  }

  /** A frame is allocated and filled for page `v`. */
  ghost function Prepared(vm: Vm, frame: Frame): Vm
    requires vm.free != []
  {
    Fill(Pop(vm), vm.free[0], frame)
  }

  lemma PreparedOk(vm: Vm, frame: Frame, d: nat, v: nat)
    requires Inv(vm) && vm.free != [] && HasRole(vm.owner, d, Dir) && frame.Data? && |frame.bytes| == PAGE_SIZE
    requires v < USER_PAGES && Lookup(vm.mem, d, v).None?
    ensures var vm' := Prepared(vm, frame);
            var f := vm.free[0];
            && Creatable(vm', d, v, f) && OthersKept(vm, vm', d) && SameSpace(vm.mem, vm'.mem, d)
            && HasRole(vm.owner, f, Free) && vm'.owner == vm.owner[f := Held] && |vm'.free| == |vm.free| - 1
            && Bytes(vm'.mem, f) == frame.bytes
            && (forall g :: g in vm.owner && vm.owner[g].PageOf? ==> Bytes(vm'.mem, g) == Bytes(vm.mem, g))
            && (forall i :: 0 <= i < ENTRIES ==> TableFor(vm'.mem, d, i) == TableFor(vm.mem, d, i))
  {
    hide Inv;
    hide SameSpace;
    PopInv(vm);
    FillInv(Pop(vm), vm.free[0], frame);
    DirFacts(vm, d);
    SameLookup(vm.mem, Prepared(vm, frame).mem, d, v);
  }

  /** `allocateMemoryAndPageTables` from page `v` on; `lo` is where the loop began. */
  ghost function Allocated(vm: Vm, d: nat, lo: nat, v: nat, hi: nat): (Vm, bool)
    requires Growable(vm, d, lo, v, hi)
    decreases hi - v
  {
    if v >= hi then (vm, true)
    else if vm.free == [] then (Released(vm, d, lo, hi), false)
    else
      PreparedOk(vm, ZeroData(), d, v);
      var vm1 := Prepared(vm, ZeroData());
      var f := vm.free[0];
      CreatedOk(vm1, d, v, f, USER_FLAGS);
      var (vm2, ok) := Created(vm1, d, v, f, USER_FLAGS);
      if ok then
        StillGrowable(vm, vm1, vm2, d, lo, v, hi, f);
        Allocated(vm2, d, lo, v + 1, hi)
      else
        ReleasedOk(vm2, d, lo, hi);
        (Push(Released(vm2, d, lo, hi), f), false)
  }

  lemma StillGrowable(vm: Vm, vm1: Vm, vm2: Vm, d: nat, lo: nat, v: nat, hi: nat, f: nat)
    requires Growable(vm, d, lo, v, hi) && v < hi && SameSpace(vm.mem, vm1.mem, d) &&
               IsCreated(vm1, vm2, d, v, f, USER_FLAGS, true)
    ensures Growable(vm2, d, lo, v + 1, hi)
  {
    hide Inv;
    forall w | v + 1 <= w < hi ensures Lookup(vm2.mem, d, w).None? {
      assert Lookup(vm.mem, d, w).None?;
    }
  }

  /** The pages [v, hi) are new: zeroed, writeable, on frames that were free. */
  ghost predicate IsGrown(vm: Vm, vm': Vm, d: nat, v: nat, hi: nat) {
    && Inv(vm') && OthersKept(vm, vm', d) && Grows(vm.owner, vm'.owner, d) && HasRole(vm'.owner, d, Dir)
    && (forall w :: 0 <= w < PAGES && !(v <= w < hi) ==> Lookup(vm'.mem, d, w) == Lookup(vm.mem, d, w))
    && (forall w :: v <= w < hi ==> NewPage(vm, vm', d, w))
    && (forall g :: g in vm.owner && vm.owner[g].PageOf? ==> Bytes(vm'.mem, g) == Bytes(vm.mem, g))
  }

  ghost predicate NewPage(vm: Vm, vm': Vm, d: nat, w: nat) {
    var e := Lookup(vm'.mem, d, w);
    e.Some? && e.value.flags == USER_FLAGS && HasRole(vm.owner, e.value.frame, Free) &&
      Bytes(vm'.mem, e.value.frame) == ZeroData().bytes
  }

  /** The pages [lo, hi) are gone, and nothing else has changed but that free frames may have become page tables. */
  ghost predicate IsRolledBack(vm: Vm, vm': Vm, d: nat, lo: nat, hi: nat) {
    && Inv(vm') && OthersKept(vm, vm', d) && HasRole(vm'.owner, d, Dir) && vm'.owner.Keys == vm.owner.Keys
    && (forall w :: 0 <= w < PAGES ==> Lookup(vm'.mem, d, w) == if lo <= w < hi then None else Lookup(vm.mem, d, w))
    && (forall g :: g in vm.owner && g in vm'.owner && vm.owner[g] != Free ==>
         vm'.owner[g] == if PageIn(vm.owner[g], d, lo, hi) then Free else vm.owner[g])
    && (forall g :: g in vm.owner && g in vm'.owner && vm.owner[g] == Free ==>
         vm'.owner[g] == Free || (vm'.owner[g].TableOf? && vm'.owner[g].dir == d))
    && (forall g :: g in vm.owner && vm.owner[g].PageOf? && !PageIn(vm.owner[g], d, lo, hi) ==>
         Bytes(vm'.mem, g) == Bytes(vm.mem, g))
  }

  lemma GrownStep(vm: Vm, vm1: Vm, vm2: Vm, vm3: Vm, d: nat, lo: nat, v: nat, hi: nat, f: nat)
    requires Growable(vm, d, lo, v, hi) && v < hi && HasRole(vm.owner, f, Free) && vm1.owner == vm.owner[f := Held]
    requires OthersKept(vm, vm1, d) && SameSpace(vm.mem, vm1.mem, d) && Bytes(vm1.mem, f) == ZeroData().bytes
    requires forall g :: g in vm.owner && vm.owner[g].PageOf? ==> Bytes(vm1.mem, g) == Bytes(vm.mem, g)
    requires IsCreated(vm1, vm2, d, v, f, USER_FLAGS, true) && IsGrown(vm2, vm3, d, v + 1, hi)
    ensures IsGrown(vm, vm3, d, v, hi)
  {
    hide Inv;
    KeptTrans(vm, vm1, vm2, d);
    KeptTrans(vm, vm2, vm3, d);
    hide OthersKept;
    forall w | 0 <= w < PAGES
      ensures Lookup(vm1.mem, d, w) == Lookup(vm.mem, d, w) { SameLookup(vm.mem, vm1.mem, d, w); }
    hide SameSpace;
    forall w | v <= w < hi ensures NewPage(vm, vm3, d, w) {
      if w > v {
        assert NewPage(vm2, vm3, d, w);
      } else {
        assert Lookup(vm3.mem, d, v) == Some(Pte(f, USER_FLAGS));
      }
    }
  }

  lemma RolledBackStep(vm: Vm, vm1: Vm, vm2: Vm, vm3: Vm, d: nat, lo: nat, v: nat, hi: nat, f: nat)
    requires Growable(vm, d, lo, v, hi) && v < hi && HasRole(vm.owner, f, Free) && vm1.owner == vm.owner[f := Held]
    requires OthersKept(vm, vm1, d) && SameSpace(vm.mem, vm1.mem, d)
    requires forall g :: g in vm.owner && vm.owner[g].PageOf? ==> Bytes(vm1.mem, g) == Bytes(vm.mem, g)
    requires IsCreated(vm1, vm2, d, v, f, USER_FLAGS, true) && IsRolledBack(vm2, vm3, d, lo, hi)
    ensures IsRolledBack(vm, vm3, d, lo, hi)
  {
    hide Inv;
    KeptTrans(vm, vm1, vm2, d);
    KeptTrans(vm, vm2, vm3, d);
    hide OthersKept;
    forall w | 0 <= w < PAGES
      ensures Lookup(vm1.mem, d, w) == Lookup(vm.mem, d, w) { SameLookup(vm.mem, vm1.mem, d, w); }
    hide SameSpace;
  }

  lemma RolledBackHere(vm: Vm, d: nat, lo: nat, v: nat, hi: nat)
    requires Growable(vm, d, lo, v, hi)
    ensures IsRolledBack(vm, Released(vm, d, lo, hi), d, lo, hi)
  {
    ReleasedOk(vm, d, lo, hi);
    hide Inv;
    hide Released;
  }

  lemma RolledBackRoles(vm: Vm, vm1: Vm, vm2: Vm, vm3: Vm, d: nat, lo: nat, v: nat, hi: nat, f: nat)
    requires HasRole(vm.owner, f, Free) && vm1.owner == vm.owner[f := Held]
    requires IsCreated(vm1, vm2, d, v, f, USER_FLAGS, false) && IsReleased(vm2, vm3, d, lo, hi)
    ensures HasRole(vm3.owner, f, Held) && vm3.owner.Keys == vm.owner.Keys
    ensures forall g :: g in vm.owner && vm.owner[g] != Free ==>
              vm3.owner[g] == if PageIn(vm.owner[g], d, lo, hi) then Free else vm.owner[g]
    ensures forall g :: g in vm.owner && g != f && vm.owner[g] == Free ==>
              vm3.owner[g] == Free || (vm3.owner[g].TableOf? && vm3.owner[g].dir == d)
  {
    hide Inv;
    hide Lookup;
    hide OthersKept;
    hide Bytes;
    hide TableFor;
  }

  lemma RolledBackBytes(vm: Vm, vm1: Vm, vm2: Vm, vm3: Vm, d: nat, lo: nat, v: nat, hi: nat, f: nat)
    requires HasRole(vm.owner, f, Free) && vm1.owner == vm.owner[f := Held]
    requires forall g :: g in vm.owner && vm.owner[g].PageOf? ==> Bytes(vm1.mem, g) == Bytes(vm.mem, g)
    requires IsCreated(vm1, vm2, d, v, f, USER_FLAGS, false) && IsReleased(vm2, vm3, d, lo, hi)
    ensures forall g :: g in vm.owner && vm.owner[g].PageOf? && !PageIn(vm.owner[g], d, lo, hi) ==>
              Bytes(Push(vm3, f).mem, g) == Bytes(vm.mem, g)
  {
    hide Inv;
    hide Lookup;
    hide OthersKept;
    hide TableFor;
  }

  /** No page table for the frame in hand: the pages go, and then the frame. */
  lemma RolledBackFull(vm: Vm, vm1: Vm, vm2: Vm, vm3: Vm, d: nat, lo: nat, v: nat, hi: nat, f: nat)
    requires Growable(vm, d, lo, v, hi) && v < hi && HasRole(vm.owner, f, Free) && vm1.owner == vm.owner[f := Held]
    requires OthersKept(vm, vm1, d) && SameSpace(vm.mem, vm1.mem, d)
    requires forall g :: g in vm.owner && vm.owner[g].PageOf? ==> Bytes(vm1.mem, g) == Bytes(vm.mem, g)
    requires IsCreated(vm1, vm2, d, v, f, USER_FLAGS, false) && IsReleased(vm2, vm3, d, lo, hi)
    ensures HasRole(vm3.owner, f, Held) && IsRolledBack(vm, Push(vm3, f), d, lo, hi)
  {
    hide Inv;
    hide Lookup;
    hide OthersKept;
    hide SameSpace;
    hide Bytes;
    hide TableFor;
    RolledBackRoles(vm, vm1, vm2, vm3, d, lo, v, hi, f);
    RolledBackBytes(vm, vm1, vm2, vm3, d, lo, v, hi, f);
    PushInv(vm3, f);
    PushKept(vm3, f, d);
    KeptTrans(vm, vm1, vm2, d);
    KeptTrans(vm, vm2, vm3, d);
    KeptTrans(vm, vm3, Push(vm3, f), d);
    RolledBackLookup(vm, vm1, vm2, vm3, d, lo, v, hi, f);
    hide IsCreated;
    hide IsReleased;
  }

  lemma RolledBackLookup(vm: Vm, vm1: Vm, vm2: Vm, vm3: Vm, d: nat, lo: nat, v: nat, hi: nat, f: nat)
    requires SameSpace(vm.mem, vm1.mem, d) && HasRole(vm3.owner, f, Held)
    requires IsCreated(vm1, vm2, d, v, f, USER_FLAGS, false) && IsReleased(vm2, vm3, d, lo, hi)
    ensures forall w :: 0 <= w < PAGES ==>
              Lookup(Push(vm3, f).mem, d, w) == if lo <= w < hi then None else Lookup(vm.mem, d, w)
  {
    hide Inv;
    hide Lookup;
    hide OthersKept;
    hide SameSpace;
    hide Bytes;
    hide TableFor;
    PushInv(vm3, f);
    forall w | 0 <= w < PAGES
      ensures Lookup(Push(vm3, f).mem, d, w) == if lo <= w < hi then None else Lookup(vm.mem, d, w) {
      SameLookup(vm.mem, vm1.mem, d, w);
      SameLookup(vm3.mem, Push(vm3, f).mem, d, w);
    }
  }

  lemma PushKept(vm: Vm, f: nat, d: nat)
    requires Inv(vm) && HasRole(vm.owner, f, Held)
    ensures OthersKept(vm, Push(vm, f), d)
  {
    hide SameSpace;
    hide Inv;
    PushInv(vm, f);
  }

  lemma {:induction false} AllocatedOk(vm: Vm, d: nat, lo: nat, v: nat, hi: nat)
    requires Growable(vm, d, lo, v, hi)
    ensures var (vm', ok) := Allocated(vm, d, lo, v, hi);
            if ok then IsGrown(vm, vm', d, v, hi) else IsRolledBack(vm, vm', d, lo, hi)
    decreases hi - v
  {
    hide Inv;
    hide OthersKept;
    hide SameSpace;
    hide Released;
    hide IsCreated;
    hide IsRolledBack;
    hide IsGrown;
    if v >= hi {
      GrownNone(vm, d, lo, v, hi);
    } else if vm.free == [] {
      RolledBackHere(vm, d, lo, v, hi);
    } else {
      PreparedOk(vm, ZeroData(), d, v);
      var vm1 := Prepared(vm, ZeroData());
      var f := vm.free[0];
      CreatedOk(vm1, d, v, f, USER_FLAGS);
      var (vm2, ok) := Created(vm1, d, v, f, USER_FLAGS);
      if ok {
        StillGrowable(vm, vm1, vm2, d, lo, v, hi, f);
        AllocatedOk(vm2, d, lo, v + 1, hi);
        var (vm3, ok3) := Allocated(vm2, d, lo, v + 1, hi);
        if ok3 {
          GrownStep(vm, vm1, vm2, vm3, d, lo, v, hi, f);
        } else {
          RolledBackStep(vm, vm1, vm2, vm3, d, lo, v, hi, f);
        }
      } else {
        CreatedDir(vm1, vm2, d, v, f);
        ReleasedOk(vm2, d, lo, hi);
        RolledBackFull(vm, vm1, vm2, Released(vm2, d, lo, hi), d, lo, v, hi, f);
      }
    }
  }

  lemma CreatedDir(vm1: Vm, vm2: Vm, d: nat, v: nat, f: nat)
    requires IsCreated(vm1, vm2, d, v, f, USER_FLAGS, false)
    ensures Inv(vm2) && HasRole(vm2.owner, d, Dir)
  {
  }

  /** Growing the user half makes no page table for the kernel half. */
  lemma {:induction false} KernelTablesKept(vm: Vm, d: nat, lo: nat, v: nat, hi: nat, i: nat)
    requires Growable(vm, d, lo, v, hi) && Allocated(vm, d, lo, v, hi).1 && USER_TABLES <= i < ENTRIES
    ensures TableFor(Allocated(vm, d, lo, v, hi).0.mem, d, i) == TableFor(vm.mem, d, i)
    decreases hi - v
  {
    hide Inv;
    hide OthersKept;
    hide SameSpace;
    hide Released;
    hide TableFor;
    hide Lookup;
    hide Bytes;
    if v < hi {
      PreparedOk(vm, ZeroData(), d, v);
      var vm1 := Prepared(vm, ZeroData());
      var f := vm.free[0];
      CreatedOk(vm1, d, v, f, USER_FLAGS);
      var vm2 := Created(vm1, d, v, f, USER_FLAGS).0;
      hide Created;
      StillGrowable(vm, vm1, vm2, d, lo, v, hi, f);
      KernelTablesKept(vm2, d, lo, v + 1, hi, i);
    }
  }

  lemma GrownNone(vm: Vm, d: nat, lo: nat, v: nat, hi: nat)
    requires Growable(vm, d, lo, v, hi) && v >= hi
    ensures IsGrown(vm, vm, d, v, hi)
  {
    hide Inv;
    KeptRefl(vm, d);
  }

  /**
   Growing an address space either succeeds, with zeroed pages on frames that were free, or gives back
   exactly the mapping there was before; the only trace of a failure is page tables without pages.
   */
  lemma GrowOrRestore(vm: Vm, d: nat, lo: nat, hi: nat)
    requires Growable(vm, d, lo, lo, hi)
    ensures var (vm', ok) := Allocated(vm, d, lo, lo, hi);
            && Inv(vm') && OthersKept(vm, vm', d)
            && (ok ==> forall w :: lo <= w < hi ==> NewPage(vm, vm', d, w))
            && (ok ==> forall w :: 0 <= w < PAGES && !(lo <= w < hi) ==> Lookup(vm'.mem, d, w) == Lookup(vm.mem, d, w))
            && (forall w :: 0 <= w < USER_PAGES && Lookup(vm.mem, d, w).Some? ==>
                  Bytes(vm'.mem, Lookup(vm.mem, d, w).value.frame) == Bytes(vm.mem, Lookup(vm.mem, d, w).value.frame))
            && (!ok ==> SameSpace(vm.mem, vm'.mem, d))
            && (!ok ==> forall g :: g in vm.owner ==>
                 g in vm'.owner && (vm'.owner[g] == vm.owner[g] ||
                   (vm.owner[g] == Free && vm'.owner[g].TableOf? && vm'.owner[g].dir == d)))
  {
    hide Inv;
    AllocatedOk(vm, d, lo, lo, hi);
    hide OthersKept;
    hide Allocated;
    var (vm', ok) := Allocated(vm, d, lo, lo, hi);
    if !ok {
      forall g | g in vm.owner ensures !PageIn(vm.owner[g], d, lo, hi) {
        if vm.owner[g].PageOf? && vm.owner[g].dir == d && lo <= vm.owner[g].page < hi {
          NotMapped(vm, d, vm.owner[g].page, g);
        }
      }
    }
    forall w | 0 <= w < USER_PAGES && Lookup(vm.mem, d, w).Some?
      ensures Bytes(vm'.mem, Lookup(vm.mem, d, w).value.frame) == Bytes(vm.mem, Lookup(vm.mem, d, w).value.frame)
    {
      PageRole(vm, d, w);
    }
  }

  // ---------------------------------------------------------------- destroying

  /** The frames that exist for directory `d`. */
  ghost predicate Owned(r: Role, f: nat, d: nat) {
    (r == Dir && f == d) || ((r.TableOf? || r.PageOf?) && r.dir == d)
  }

  ghost function Disown(owner: Owners, d: nat): Owners {
    map f | f in owner :: if Owned(owner[f], f, d) then Held else owner[f]
  }

  /** A directory without user pages can be taken apart: its frames are then merely held. */
  lemma DisownInv(vm: Vm, d: nat)
    requires Inv(vm) && HasRole(vm.owner, d, Dir) && forall v :: 0 <= v < USER_PAGES ==> Lookup(vm.mem, d, v).None?
    ensures Inv(vm.(owner := Disown(vm.owner, d)))
    ensures OthersKept(vm, vm.(owner := Disown(vm.owner, d)), d)
  {
    var vm' := vm.(owner := Disown(vm.owner, d));
    forall f | f in vm'.owner ensures RoleOk(vm'.mem, vm'.owner, f) { DisownRole(vm, d, f); }
    forall e | HasRole(vm.owner, e, Dir) && e != d
      ensures HasRole(vm'.owner, e, Dir) && SameSpace(vm.mem, vm'.mem, e) { SameSpaceRefl(vm.mem, e); }
  }

  lemma DisownRole(vm: Vm, d: nat, f: nat)
    requires Inv(vm) && HasRole(vm.owner, d, Dir) && f in vm.owner
    ensures f in Disown(vm.owner, d) && RoleOk(vm.mem, Disown(vm.owner, d), f)
  {
    assert RoleOk(vm.mem, vm.owner, f);
    if !Owned(vm.owner[f], f, d) {
      RoleFrame(vm, vm.(owner := Disown(vm.owner, d)), f);
    }
  }

  /** The loop of `freeMemoryAndPageTable` over the directory's entries from `i` on. */
  ghost function TablesFreed(vm: Vm, entries: seq<Pte>, i: nat): Vm
    decreases |entries| - i
  {
    if i >= |entries| then vm
    else TablesFreed(if entries[i].flags.present then Push(vm, entries[i].frame) else vm, entries, i + 1)
  }

  /** The frames that entries from `i` on lead to. */
  ghost predicate Pointed(entries: seq<Pte>, i: nat, f: nat) {
    exists j :: i <= j < |entries| && entries[j].flags.present && entries[j].frame == f
  }

  ghost predicate Distinct(entries: seq<Pte>) {
    forall j, k :: 0 <= j < k < |entries| && entries[j].flags.present && entries[k].flags.present ==>
      entries[j].frame != entries[k].frame
  }

  lemma {:induction false} TablesFreedOk(vm: Vm, entries: seq<Pte>, i: nat)
    requires Inv(vm) && Distinct(entries) && i <= |entries|
    requires forall j :: i <= j < |entries| && entries[j].flags.present ==> HasRole(vm.owner, entries[j].frame, Held)
    ensures var vm' := TablesFreed(vm, entries, i);
            && Inv(vm') && vm'.owner.Keys == vm.owner.Keys
            && (forall f :: f in vm.owner && f in vm'.owner ==>
                 vm'.owner[f] == if Pointed(entries, i, f) then Free else vm.owner[f])
            && (forall d :: HasRole(vm.owner, d, Dir) ==> HasRole(vm'.owner, d, Dir) && SameSpace(vm.mem, vm'.mem, d))
    decreases |entries| - i
  {
    hide Inv;
    hide SameSpace;
    if i == |entries| {
      forall d ensures SameSpace(vm.mem, vm.mem, d) { SameSpaceRefl(vm.mem, d); }
    } else {
      var vm1 := if entries[i].flags.present then Push(vm, entries[i].frame) else vm;
      if entries[i].flags.present {
        PushInv(vm, entries[i].frame);
      } else {
        forall d ensures SameSpace(vm.mem, vm.mem, d) { SameSpaceRefl(vm.mem, d); }
      }
      TablesFreedOk(vm1, entries, i + 1);
      var vm' := TablesFreed(vm1, entries, i + 1);
      forall d | HasRole(vm.owner, d, Dir) ensures HasRole(vm'.owner, d, Dir) && SameSpace(vm.mem, vm'.mem, d) {
        SpaceTrans(vm.mem, vm1.mem, vm'.mem, d);
      }
      forall f ensures Pointed(entries, i, f) <==>
        Pointed(entries, i + 1, f) || (entries[i].flags.present && entries[i].frame == f) {
        PointedStep(entries, i, f);
      }
    }
  }

  lemma PointedStep(entries: seq<Pte>, i: nat, f: nat)
    requires i < |entries|
    ensures Pointed(entries, i, f) <==>
              Pointed(entries, i + 1, f) || (entries[i].flags.present && entries[i].frame == f)
  {
  }

  lemma SpaceTrans(a: Memory, b: Memory, c: Memory, d: nat)
    requires SameSpace(a, b, d) && SameSpace(b, c, d)
    ensures SameSpace(a, c, d)
  {
  }

  /** The entries of a directory lead to its page tables, each once. */
  lemma DirEntries(vm: Vm, d: nat)
    requires Inv(vm) && HasRole(vm.owner, d, Dir)
    ensures IsTable(vm.mem, d) && Distinct(vm.mem[d].entries) && !Pointed(vm.mem[d].entries, 0, d)
    ensures forall f :: f in vm.owner ==>
              (Pointed(vm.mem[d].entries, 0, f) <==> vm.owner[f].TableOf? && vm.owner[f].dir == d)
    ensures forall j :: 0 <= j < ENTRIES && vm.mem[d].entries[j].flags.present ==>
              HasRole(vm.owner, vm.mem[d].entries[j].frame, TableOf(d, j))
  {
    assert RoleOk(vm.mem, vm.owner, d);
    var entries := vm.mem[d].entries;
    forall j | 0 <= j < ENTRIES && entries[j].flags.present ensures HasRole(vm.owner, entries[j].frame, TableOf(d, j)) {
      assert TableFor(vm.mem, d, j) == Some(entries[j].frame);
    }
    forall f | f in vm.owner ensures Pointed(entries, 0, f) <==> vm.owner[f].TableOf? && vm.owner[f].dir == d {
      assert RoleOk(vm.mem, vm.owner, f);
      if vm.owner[f].TableOf? && vm.owner[f].dir == d {
        assert entries[vm.owner[f].index].flags.present && entries[vm.owner[f].index].frame == f;
      }
    }
  }

  /** `freeMemoryAndPageTable`. */
  ghost function Destroyed(vm: Vm, d: nat): Vm
    requires Inv(vm) && HasRole(vm.owner, d, Dir)
  {
    ReleasedOk(vm, d, 0, USER_PAGES);
    var vm1 := Released(vm, d, 0, USER_PAGES);
    DirEntries(vm1, d);
    Push(TablesFreed(vm1.(owner := Disown(vm1.owner, d)), vm1.mem[d].entries, 0), d)
  }

  /** Every frame of the address space goes back to the free list, once, and no other frame changes hands. */
  ghost predicate IsDestroyed(vm: Vm, vm': Vm, d: nat) {
    && Inv(vm') && OthersKept(vm, vm', d) && vm'.owner.Keys == vm.owner.Keys
    && forall f :: f in vm.owner && f in vm'.owner ==>
         vm'.owner[f] == if Owned(vm.owner[f], f, d) then Free else vm.owner[f]
  }

  lemma DestroyedOk(vm: Vm, d: nat)
    requires Inv(vm) && HasRole(vm.owner, d, Dir)
    ensures IsDestroyed(vm, Destroyed(vm, d), d)
  {
    hide Inv;
    hide OthersKept;
    hide SameSpace;
    hide Released;
    hide TablesFreed;
    ReleasedOk(vm, d, 0, USER_PAGES);
    var vm1 := Released(vm, d, 0, USER_PAGES);
    DirEntries(vm1, d);
    DisownInv(vm1, d);
    var vm2 := vm1.(owner := Disown(vm1.owner, d));
    TablesFreedOk(vm2, vm1.mem[d].entries, 0);
    var vm3 := TablesFreed(vm2, vm1.mem[d].entries, 0);
    PushInv(vm3, d);
    PushKept(vm3, d, d);
    FreedKept(vm2, vm3, d);
    KeptTrans(vm, vm1, vm2, d);
    KeptTrans(vm, vm2, vm3, d);
    KeptTrans(vm, vm3, Push(vm3, d), d);
    forall f | f in vm.owner
      ensures PageIn(vm.owner[f], d, 0, USER_PAGES) <==> vm.owner[f].PageOf? && vm.owner[f].dir == d {
      if vm.owner[f].PageOf? { PageBound(vm, f); }
    }
  }

  lemma PageBound(vm: Vm, f: nat)
    requires Inv(vm) && f in vm.owner && vm.owner[f].PageOf?
    ensures vm.owner[f].page < USER_PAGES
  {
    assert RoleOk(vm.mem, vm.owner, f);
  }

  lemma FreedKept(vm: Vm, vm': Vm, d: nat)
    requires forall e :: HasRole(vm.owner, e, Dir) ==> HasRole(vm'.owner, e, Dir) && SameSpace(vm.mem, vm'.mem, e)
    ensures OthersKept(vm, vm', d)
  {
  }

  // ---------------------------------------------------------------- clearing the user bit

  /** The entry for page `v`, present or not. */
  function EntryOf(mem: Memory, d: nat, v: nat): Pte
    requires TableFor(mem, d, v / ENTRIES).Some?
  {
    Entry(mem, TableFor(mem, d, v / ENTRIES).value, v % ENTRIES)
  }

  function NoUser(e: Pte): Pte {
    e.(flags := e.flags.(user := false))
  }

  /** `clearPTEU`; the flag is false where the kernel panics. */
  ghost function Cleared(vm: Vm, d: nat, v: nat): (Vm, bool)
    requires Inv(vm) && HasRole(vm.owner, d, Dir) && v < PAGES
  {
    if TableFor(vm.mem, d, v / ENTRIES).None? then (vm, false)
    else
      TableRole(vm, d, v / ENTRIES);
      (PutEntry(vm, d, v, NoUser(EntryOf(vm.mem, d, v))), true)
  }

  /** Programs lose their access to the one page, if it was mapped; nothing else changes. */
  lemma ClearedOk(vm: Vm, d: nat, v: nat)
    requires Inv(vm) && HasRole(vm.owner, d, Dir) && v < PAGES
    ensures var (vm', ok) := Cleared(vm, d, v);
            && Inv(vm') && OthersKept(vm, vm', d) && vm'.owner == vm.owner
            && (ok <==> TableFor(vm.mem, d, v / ENTRIES).Some?)
            && (forall w :: 0 <= w < PAGES && w != v ==> Lookup(vm'.mem, d, w) == Lookup(vm.mem, d, w))
            && (Lookup(vm.mem, d, v).None? ==> Lookup(vm'.mem, d, v).None?)
            && (Lookup(vm.mem, d, v).Some? ==> ok && Lookup(vm'.mem, d, v) == Some(NoUser(Lookup(vm.mem, d, v).value)))
  {
    hide Inv;
    if TableFor(vm.mem, d, v / ENTRIES).None? {
      KeptRefl(vm, d);
    } else {
      TableRole(vm, d, v / ENTRIES);
      var e := NoUser(EntryOf(vm.mem, d, v));
      hide OthersKept;
      if v < USER_PAGES && Lookup(vm.mem, d, v).Some? {
        ReflagInv(vm, d, v, e.flags);
      } else {
        PutLooseInv(vm, d, v, e);
      }
    }
  }

  // ---------------------------------------------------------------- counting

  ghost function FreeFrames(owner: Owners): set<nat> {
    set f | f in owner && owner[f] == Free
  }

  ghost function Elements(s: seq<nat>): set<nat> {
    set x | x in s
  }

  lemma {:induction false} DistinctSize(s: seq<nat>)
    requires forall j, k :: 0 <= j < k < |s| ==> s[j] != s[k]
    ensures |Elements(s)| == |s|
  {
    if s != [] {
      var t := s[..|s| - 1];
      DistinctSize(t);
      assert Elements(s) == Elements(t) + {s[|s| - 1]};
    } else {
      assert Elements(s) == {};
    }
  }

  /** The length of the free list is the number of free frames. */
  lemma FreeSize(vm: Vm)
    requires Inv(vm)
    ensures |vm.free| == |FreeFrames(vm.owner)|
  {
    DistinctSize(vm.free);
    assert Elements(vm.free) == FreeFrames(vm.owner);
  }

  /** Equal roles, equally many free frames. */
  lemma SameFree(vm: Vm, vm': Vm)
    requires Inv(vm) && Inv(vm') && vm'.owner == vm.owner
    ensures |vm'.free| == |vm.free|
  {
    FreeSize(vm);
    FreeSize(vm');
  }

  // ---------------------------------------------------------------- the kernel half

  /** How many page tables are missing for the pages [v, hi). */
  ghost function Missing(mem: Memory, d: nat, v: nat, hi: nat): nat
    decreases hi - v
  {
    if v >= hi then 0
    else (if TableFor(mem, d, v / ENTRIES).None? then 1 else 0) + Missing(mem, d, (v / ENTRIES + 1) * ENTRIES, hi)
  }

  /** Only the tables in the range matter. */
  lemma {:induction false} MissingFrame(mem: Memory, mem': Memory, d: nat, v: nat, hi: nat)
    requires forall i :: v / ENTRIES <= i ==> TableFor(mem', d, i).None? == TableFor(mem, d, i).None?
    ensures Missing(mem', d, v, hi) == Missing(mem, d, v, hi)
    decreases hi - v
  {
    if v < hi { MissingFrame(mem, mem', d, (v / ENTRIES + 1) * ENTRIES, hi); }
  }

  /** When the tables present are those below `a`, the missing ones can be counted. */
  lemma {:induction false} MissingCount(mem: Memory, d: nat, v: nat, hi: nat, a: nat)
    requires v < hi && forall i :: v / ENTRIES <= i <= (hi - 1) / ENTRIES ==> (TableFor(mem, d, i).Some? <==> i < a)
    ensures Missing(mem, d, v, hi) == if (hi - 1) / ENTRIES < a then 0 else if a < v / ENTRIES
              then (hi - 1) / ENTRIES + 1 - v / ENTRIES else (hi - 1) / ENTRIES + 1 - a
    decreases hi - v
  {
    var next := (v / ENTRIES + 1) * ENTRIES;
    if next < hi { MissingCount(mem, d, next, hi, a); }
  }

  ghost predicate KernelMappable(vm: Vm, d: nat, v: nat, hi: nat) {
    && Inv(vm) && HasRole(vm.owner, d, Dir) && USER_PAGES <= v && hi <= PAGES
    && forall w :: v <= w < hi ==> Lookup(vm.mem, d, w).None?
  }

  /** `createPageTableEntries` in the kernel half: pages [v, hi) lead to consecutive frames from `f` on. */
  ghost function KernelMapped(vm: Vm, d: nat, v: nat, hi: nat, f: nat, flags: Flags): (Vm, bool)
    requires KernelMappable(vm, d, v, hi)
    decreases hi - v
  {
    if v >= hi then (vm, true)
    else
      WalkedOk(vm, d, v / ENTRIES);
      var (vm1, ok) := Walked(vm, d, v / ENTRIES);
      if ok then
        PutLooseInv(vm1, d, v, Pte(f, flags.(present := true)));
        StillMappable(vm, vm1, d, v, hi, f, flags);
        KernelMapped(PutEntry(vm1, d, v, Pte(f, flags.(present := true))), d, v + 1, hi, f + 1, flags)
      else (vm1, false)
  }

  lemma StillMappable(vm: Vm, vm1: Vm, d: nat, v: nat, hi: nat, f: nat, flags: Flags)
    requires KernelMappable(vm, d, v, hi) && v < hi && SameSpace(vm.mem, vm1.mem, d)
    requires Inv(vm1) && Mappable(vm1, d, v)
    ensures IsTable(vm1.mem, TableFor(vm1.mem, d, v / ENTRIES).value)
    ensures KernelMappable(PutEntry(vm1, d, v, Pte(f, flags.(present := true))), d, v + 1, hi)
  {
    PutLooseInv(vm1, d, v, Pte(f, flags.(present := true)));
    hide Inv;
    hide OthersKept;
    hide Lookup;
  }

  ghost predicate IsKernelMapped(vm: Vm, vm': Vm, d: nat, v: nat, hi: nat, f: nat, flags: Flags, ok: bool) {
    && Inv(vm') && OthersKept(vm, vm', d) && Grows(vm.owner, vm'.owner, d) && HasRole(vm'.owner, d, Dir)
    && (ok <==> |vm.free| >= Missing(vm.mem, d, v, hi))
    && (ok ==> |vm'.free| == |vm.free| - Missing(vm.mem, d, v, hi))
    && (ok ==> forall w :: 0 <= w < PAGES ==>
         Lookup(vm'.mem, d, w) == if v <= w < hi
           then Some(Pte(f + w - v, flags.(present := true))) else Lookup(vm.mem, d, w))
    && (ok ==> forall i :: 0 <= i < ENTRIES ==>
         (TableFor(vm'.mem, d, i).Some? <==> TableFor(vm.mem, d, i).Some? || TableIn(i, v, hi)))
  }

  /** Some page of [v, hi) uses directory entry `i`. */
  ghost predicate TableIn(i: nat, v: nat, hi: nat) {
    v < hi && v / ENTRIES <= i <= (hi - 1) / ENTRIES
  }

  /** One page of the kernel half: a table if need be, and the entry. */
  ghost predicate KernelStep(vm: Vm, vm2: Vm, d: nat, v: nat, e: Pte) {
    && Inv(vm2) && OthersKept(vm, vm2, d) && Grows(vm.owner, vm2.owner, d) && HasRole(vm2.owner, d, Dir)
    && |vm2.free| == |vm.free| - (if TableFor(vm.mem, d, v / ENTRIES).None? then 1 else 0)
    && (forall w :: 0 <= w < PAGES ==> Lookup(vm2.mem, d, w) == if w == v then Some(e) else Lookup(vm.mem, d, w))
    && (forall i :: 0 <= i < ENTRIES ==>
         (TableFor(vm2.mem, d, i).Some? <==> TableFor(vm.mem, d, i).Some? || i == v / ENTRIES))
  }

  lemma PutTables(vm: Vm, d: nat, v: nat, e: Pte)
    requires Inv(vm) && Mappable(vm, d, v)
    ensures IsTable(vm.mem, TableFor(vm.mem, d, v / ENTRIES).value)
    ensures forall i :: 0 <= i < ENTRIES ==> TableFor(PutEntry(vm, d, v, e).mem, d, i) == TableFor(vm.mem, d, i)
  {
    TableRole(vm, d, v / ENTRIES);
  }

  lemma KernelStepOk(vm: Vm, d: nat, v: nat, hi: nat, f: nat, flags: Flags)
    requires KernelMappable(vm, d, v, hi) && v < hi
    ensures IsTable(vm.mem, d) && d !in vm.free
    ensures var (vm1, ok) := Walked(vm, d, v / ENTRIES);
            && (ok <==> TableFor(vm.mem, d, v / ENTRIES).Some? || vm.free != [])
            && (ok ==> Inv(vm1) && Mappable(vm1, d, v) && SameSpace(vm.mem, vm1.mem, d) &&
                       IsTable(vm1.mem, TableFor(vm1.mem, d, v / ENTRIES).value))
            && (ok ==> KernelStep(vm, PutEntry(vm1, d, v, Pte(f, flags.(present := true))), d, v,
                 Pte(f, flags.(present := true))))
            && (!ok ==> vm1 == vm)
  {
    hide Inv;
    hide OthersKept;
    hide SameSpace;
    hide Lookup;
    hide Walked;
    WalkedOk(vm, d, v / ENTRIES);
    WalkedFails(vm, d, v / ENTRIES);
    var (vm1, ok) := Walked(vm, d, v / ENTRIES);
    if ok {
      var e := Pte(f, flags.(present := true));
      PutLooseInv(vm1, d, v, e);
      PutTables(vm1, d, v, e);
      hide TableFor;
      KeptTrans(vm, vm1, PutEntry(vm1, d, v, e), d);
      forall w | 0 <= w < PAGES
        ensures Lookup(vm1.mem, d, w) == Lookup(vm.mem, d, w) { SameLookup(vm.mem, vm1.mem, d, w); }
    }
  }

  lemma WalkedFails(vm: Vm, d: nat, i: nat)
    requires IsTable(vm.mem, d) && i < ENTRIES && d !in vm.free
    ensures !Walked(vm, d, i).1 ==> Walked(vm, d, i).0 == vm
  {
  }

  lemma {:induction false} KernelMappedOk(vm: Vm, d: nat, v: nat, hi: nat, f: nat, flags: Flags)
    requires KernelMappable(vm, d, v, hi)
    ensures var (vm', ok) := KernelMapped(vm, d, v, hi, f, flags); IsKernelMapped(vm, vm', d, v, hi, f, flags, ok)
    decreases hi - v
  {
    hide Inv;
    hide OthersKept;
    hide Walked;
    hide IsKernelMapped;
    hide KernelStep;
    hide SameSpace;
    if v >= hi {
      KernelMappedNone(vm, d, v, hi, f, flags);
    } else {
      KernelStepOk(vm, d, v, hi, f, flags);
      var (vm1, ok) := Walked(vm, d, v / ENTRIES);
      if ok {
        StillMappable(vm, vm1, d, v, hi, f, flags);
        var vm2 := PutEntry(vm1, d, v, Pte(f, flags.(present := true)));
        KernelMappedOk(vm2, d, v + 1, hi, f + 1, flags);
        var (vm3, ok3) := KernelMapped(vm2, d, v + 1, hi, f + 1, flags);
        KernelMappedStep(vm, vm2, vm3, d, v, hi, f, flags, ok3);
      } else {
        KernelMappedFails(vm, d, v, hi, f, flags);
      }
    }
  }

  lemma KernelMappedNone(vm: Vm, d: nat, v: nat, hi: nat, f: nat, flags: Flags)
    requires KernelMappable(vm, d, v, hi) && v >= hi
    ensures IsKernelMapped(vm, vm, d, v, hi, f, flags, true)
  {
    hide Inv;
    KeptRefl(vm, d);
  }

  lemma KernelMappedFails(vm: Vm, d: nat, v: nat, hi: nat, f: nat, flags: Flags)
    requires KernelMappable(vm, d, v, hi) && v < hi && TableFor(vm.mem, d, v / ENTRIES).None? && vm.free == []
    ensures IsKernelMapped(vm, vm, d, v, hi, f, flags, false)
  {
    hide Inv;
    KeptRefl(vm, d);
  }

  /** A page fewer to map needs a table fewer exactly when this page's table was missing. */
  lemma MissingStep(mem: Memory, mem': Memory, d: nat, v: nat, hi: nat)
    requires v < hi <= PAGES
    requires forall i :: 0 <= i < ENTRIES ==>
               (TableFor(mem', d, i).Some? <==> TableFor(mem, d, i).Some? || i == v / ENTRIES)
    ensures Missing(mem, d, v, hi) ==
              (if TableFor(mem, d, v / ENTRIES).None? then 1 else 0) + Missing(mem', d, v + 1, hi)
  {
    var next := (v / ENTRIES + 1) * ENTRIES;
    forall i | next / ENTRIES <= i ensures TableFor(mem', d, i).None? == TableFor(mem, d, i).None? {
      if i < ENTRIES { assert TableFor(mem', d, i).Some? <==> TableFor(mem, d, i).Some? || i == v / ENTRIES; }
    }
    MissingFrame(mem, mem', d, next, hi);
    if v + 1 < hi && v + 1 < next {
      assert (v + 1) / ENTRIES == v / ENTRIES;
      assert TableFor(mem', d, v / ENTRIES).Some?;
    }
  }

  lemma KernelMappedStep(vm: Vm, vm2: Vm, vm3: Vm, d: nat, v: nat, hi: nat, f: nat, flags: Flags, ok: bool)
    requires KernelMappable(vm, d, v, hi) && v < hi
    requires KernelStep(vm, vm2, d, v, Pte(f, flags.(present := true)))
    requires IsKernelMapped(vm2, vm3, d, v + 1, hi, f + 1, flags, ok)
    ensures IsKernelMapped(vm, vm3, d, v, hi, f, flags, ok)
  {
    hide Inv;
    hide Lookup;
    KeptTrans(vm, vm2, vm3, d);
    hide OthersKept;
    MissingStep(vm.mem, vm2.mem, d, v, hi);
    hide Missing;
    hide TableFor;
    forall i | 0 <= i < ENTRIES ensures TableIn(i, v, hi) <==> TableIn(i, v + 1, hi) || i == v / ENTRIES { }
  }
}
