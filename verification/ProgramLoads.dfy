/**
 The memory of a program while `exec` loads it: when each section finds room, when the stack does,
 and what the address space is like at each stage.
 */
module ProgramLoads {
  import opened Basics
  import opened PageTables
  import opened AddressSpaces
  import opened SpaceCopies
  import opened ExecStack

  // ---------------------------------------------------------------- a program being loaded

  /** The address space of a program of `size` bytes so far. */
  ghost predicate Loading(vm: Vm, d: nat, size: nat) {
    Fits(vm, d, size) && Closed(vm, d) && KernelGap(vm.mem, d)
  }

  /** The kernel half that every directory gets is closed to programs. */
  lemma BuiltLoading(vm: Vm, d: nat, data: nat, n: nat)
    requires DataPage(data) && Built(vm, d, data, 4, n)
    ensures Loading(vm, d, 0)
  {
    hide Inv;
    hide Lookup;
    hide TableFor;
    forall v | USER_PAGES <= v < PAGES ensures !Accessible(vm.mem, d, v) {
      assert Lookup(vm.mem, d, v) == if Covered(v, data, 4) then KernelEntry(v, data) else None;
    }
  }

  lemma LoadingFacts(vm: Vm, d: nat, size: nat, end: nat)
    requires Loading(vm, d, size)
    ensures Inv(vm) && HasRole(vm.owner, d, Dir) && size < KERNBASE
    ensures size <= end < KERNBASE ==> Growable(vm, d, RoundUp(size), RoundUp(size), RoundUp(end))
  {
    hide Inv;
    hide Lookup;
  }

  /** Sizes matter only up to whole pages. */
  lemma LoadingRound(vm: Vm, d: nat, size: nat)
    requires Loading(vm, d, size)
    ensures var lo := RoundUp(size);
            && Inv(vm) && HasRole(vm.owner, d, Dir) && RoundUp(lo * PAGE_SIZE) == lo
            && (lo < USER_PAGES ==> Loading(vm, d, lo * PAGE_SIZE))
            && ((lo + 2) * PAGE_SIZE < KERNBASE ==> Growable(vm, d, lo, lo, lo + 2) && lo < USER_PAGES)
  {
    hide Inv;
    hide Lookup;
  }

  lemma GrowsRefl(owner: Owners, d: nat)
    ensures Grows(owner, owner, d)
  {
  }

  lemma GrowthFails(vm: Vm, d: nat, lo: nat, hi: nat)
    requires Growable(vm, d, lo, lo, hi)
    ensures var vm' := Allocated(vm, d, lo, lo, hi).0;
            Inv(vm') && OthersKept(vm, vm', d) && Grows(vm.owner, vm'.owner, d) && HasRole(vm'.owner, d, Dir)
  {
    hide Inv;
    hide OthersKept;
    hide Lookup;
    GrowOrRestore(vm, d, lo, hi);
    AllocatedOk(vm, d, lo, lo, hi);
    hide Allocated;
  }

  lemma ClosedKept(vm: Vm, vm': Vm, d: nat)
    requires Closed(vm, d) && Inv(vm') && HasRole(vm'.owner, d, Dir)
    requires forall w :: USER_PAGES <= w < PAGES ==> Lookup(vm'.mem, d, w) == Lookup(vm.mem, d, w)
    ensures Closed(vm', d)
  {
    hide Inv;
    hide Lookup;
    forall w | USER_PAGES <= w < PAGES ensures !Accessible(vm'.mem, d, w) {
      assert !Accessible(vm.mem, d, w);
    }
  }

  lemma LoadingTables(vm: Vm, d: nat, size: nat)
    requires Loading(vm, d, size)
    ensures forall v :: 0 <= v < RoundUp(size) ==> !NoTable(vm.mem, d, v)
  {
    hide Inv;
    hide Lookup;
    hide TableFor;
    forall v | 0 <= v < RoundUp(size) ensures !NoTable(vm.mem, d, v) { MappedTable(vm.mem, d, v); }
  }

  lemma StackGrown(vm: Vm, grown: Vm, d: nat, lo: nat)
    requires Growable(vm, d, lo, lo, lo + 2) && (grown, true) == Allocated(vm, d, lo, lo, lo + 2)
    ensures Inv(grown) && OthersKept(vm, grown, d) && Grows(vm.owner, grown.owner, d) && HasRole(grown.owner, d, Dir)
    ensures Lookup(grown.mem, d, lo).Some? && Accessible(grown.mem, d, lo + 1)
  {
    hide Inv;
    hide OthersKept;
    hide Lookup;
    AllocatedOk(vm, d, lo, lo, lo + 2);
    hide Allocated;
    assert NewPage(vm, grown, d, lo) && NewPage(vm, grown, d, lo + 1);
  }

  /** The page below the stack is closed, the stack page open, and everything below has a page table. */
  lemma StackOpened(vm: Vm, grown: Vm, vm': Vm, d: nat, lo: nat)
    requires Growable(vm, d, lo, lo, lo + 2) && (grown, true) == Allocated(vm, d, lo, lo, lo + 2)
    requires Loading(grown, d, (lo + 2) * PAGE_SIZE)
    requires vm' == Cleared(grown, d, lo).0
    ensures Inv(vm') && OthersKept(vm, vm', d) && Grows(vm.owner, vm'.owner, d) && HasRole(vm'.owner, d, Dir)
    ensures StackOpen(vm', d, (lo + 2) * PAGE_SIZE) && KernelGap(vm'.mem, d)
  {
    hide Inv;
    hide OthersKept;
    hide Lookup;
    hide TableFor;
    hide Cleared;
    hide Allocated;
    hide Growable;
    hide Grows;
    StackGrown(vm, grown, d, lo);
    LoadingTables(grown, d, (lo + 2) * PAGE_SIZE);
    LoadingFacts(grown, d, (lo + 2) * PAGE_SIZE, 0);
    hide Fits;
    ClearedOk(grown, d, lo);
    KeptTrans(vm, grown, vm', d);
    ClosedKept(grown, vm', d);
    hide Closed;
    ClearedTables(grown, d, lo);
    forall v | 0 <= v < lo + 2 ensures !NoTable(vm'.mem, d, v) {
      assert !NoTable(grown.mem, d, v);
    }
  }

  lemma MappedTable(mem: Memory, d: nat, v: nat)
    requires Lookup(mem, d, v).Some?
    ensures TableFor(mem, d, v / ENTRIES).Some?
  {
  }

  lemma ClearedTables(vm: Vm, d: nat, v: nat)
    requires Inv(vm) && HasRole(vm.owner, d, Dir) && v < PAGES
    ensures forall i :: 0 <= i < ENTRIES ==> TableFor(Cleared(vm, d, v).0.mem, d, i) == TableFor(vm.mem, d, i)
  {
    hide Inv;
    hide PutEntry;
    if TableFor(vm.mem, d, v / ENTRIES).Some? {
      TableRole(vm, d, v / ENTRIES);
      PutTables(vm, d, v, NoUser(EntryOf(vm.mem, d, v)));
    }
  }

  /** A section that fits leaves a larger program, with the same kernel half. */
  lemma GrowLoading(vm: Vm, d: nat, size: nat, end: nat)
    requires Loading(vm, d, size) && size <= end < KERNBASE
    ensures Growable(vm, d, RoundUp(size), RoundUp(size), RoundUp(end))
    ensures var (vm', ok) := Allocated(vm, d, RoundUp(size), RoundUp(size), RoundUp(end)); ok ==> Loading(vm', d, end)
  {
    hide Inv;
    hide OthersKept;
    hide Lookup;
    hide TableFor;
    GrowBounded(vm, d, size, end - size);
    var lo, hi := RoundUp(size), RoundUp(end);
    AllocatedOk(vm, d, lo, lo, hi);
    var (vm', ok) := Allocated(vm, d, lo, lo, hi);
    if ok {
      ClosedKept(vm, vm', d);
      forall i | 568 <= i < 1016 ensures TableFor(vm'.mem, d, i).None? { KernelTablesKept(vm, d, lo, lo, hi, i); }
    }
  }

  // ---------------------------------------------------------------- counting frames

  /** One page more: whether it can be had, and what is left. */
  lemma PageCount(vm: Vm, vm1: Vm, vm2: Vm, d: nat, v: nat, f: nat, flags: Flags, ok: bool)
    requires IsCreated(vm1, vm2, d, v, f, flags, ok) && v < USER_PAGES && TablesTo(vm.mem, d, v)
    requires forall j :: 0 <= j < ENTRIES ==> TableFor(vm1.mem, d, j) == TableFor(vm.mem, d, j)
    requires |vm1.free| == |vm.free| - 1
    ensures ok <==> v % ENTRIES != 0 || |vm.free| > 1
    ensures ok ==> |vm2.free| == |vm.free| - if v % ENTRIES == 0 then 2 else 1
    ensures ok ==> TablesTo(vm2.mem, d, v + 1)
  {
    hide Inv;
    hide OthersKept;
    hide Lookup;
    hide Bytes;
    hide TableFor;
    assert TableFor(vm.mem, d, v / ENTRIES).Some? <==> v / ENTRIES * ENTRIES < v;
    if ok {
      forall j | 0 <= j < USER_TABLES ensures TableFor(vm2.mem, d, j).Some? <==> j * ENTRIES < v + 1 {
        if j != v / ENTRIES { assert TableFor(vm2.mem, d, j) == TableFor(vm.mem, d, j); }
      }
    }
  }

  /** With `n` frames in all, some spent on the pages below `v`, growing to `hi` succeeds exactly when they suffice. */
  lemma {:induction false} GrowCount(vm: Vm, d: nat, lo: nat, v: nat, hi: nat, n: nat)
    requires Growable(vm, d, lo, v, hi) && v <= hi && TablesTo(vm.mem, d, v) && n >= Used(v) && |vm.free| == n - Used(v)
    ensures var (vm', ok) := Allocated(vm, d, lo, v, hi);
            && (ok <==> n >= Used(hi))
            && (ok ==> TablesTo(vm'.mem, d, hi) && |vm'.free| == n - Used(hi))
    decreases hi - v
  {
    hide Inv;
    hide OthersKept;
    hide SameSpace;
    hide Released;
    hide IsCreated;
    hide TablesTo;
    hide Used;
    if v < hi {
      UsedStep(v);
      UsedGrows(v + 1, hi);
      if vm.free != [] {
        PreparedOk(vm, ZeroData(), d, v);
        var vm1 := Prepared(vm, ZeroData());
        var f := vm.free[0];
        CreatedOk(vm1, d, v, f, USER_FLAGS);
        var (vm2, ok) := Created(vm1, d, v, f, USER_FLAGS);
        PageCount(vm, vm1, vm2, d, v, f, USER_FLAGS, ok);
        hide Created;
        if ok {
          StillGrowable(vm, vm1, vm2, d, lo, v, hi, f);
          GrowCount(vm2, d, lo, v + 1, hi, n);
        }
      }
    }
  }

  /** A program of `size` bytes so far, in an address space for whose user half there were `n` frames. */
  ghost predicate Placed(vm: Vm, d: nat, size: nat, n: nat) {
    && Loading(vm, d, size) && TablesTo(vm.mem, d, RoundUp(size))
    && n >= Used(RoundUp(size)) && |vm.free| == n - Used(RoundUp(size))
  }

  lemma PlacedNone(vm: Vm, d: nat, data: nat, n: nat)
    requires DataPage(data) && n >= KERNEL_TABLES && Built(vm, d, data, 4, n)
    ensures Placed(vm, d, 0, n - KERNEL_TABLES)
  {
    hide Inv;
    hide Lookup;
    hide TableFor;
    BuiltLoading(vm, d, data, n);
  }

  /** A section finds room exactly when there are frames for all its pages and their tables. */
  lemma PlacedStep(vm: Vm, d: nat, size: nat, end: nat, n: nat)
    requires Placed(vm, d, size, n) && size <= end < KERNBASE
    ensures Growable(vm, d, RoundUp(size), RoundUp(size), RoundUp(end))
    ensures var (vm', ok) := Allocated(vm, d, RoundUp(size), RoundUp(size), RoundUp(end));
            && (ok <==> n >= Used(RoundUp(end))) && (ok ==> Placed(vm', d, end, n))
  {
    hide Loading;
    hide Used;
    hide TablesTo;
    hide Allocated;
    hide Growable;
    GrowLoading(vm, d, size, end);
    GrowCount(vm, d, RoundUp(size), RoundUp(size), RoundUp(end), n);
  }

  // ---------------------------------------------------------------- the section headers

  /** A section header as `exec` reads it: where the section ends and whether its contents can be read, or cut short. */
  datatype Section = Whole(end: nat, readable: bool) | CutShort

  /** The size of a program with these sections. */
  ghost function SizeOf(sections: seq<Section>): nat {
    if sections == [] then 0
    else
      var last, before := sections[|sections| - 1], SizeOf(sections[..|sections| - 1]);
      if last.Whole? && last.end > before then last.end else before
  }

  /** A section can be added to a program of `size` bytes when there are `free` frames in all. */
  ghost predicate Adds(section: Section, size: nat, free: nat) {
    && section.Whole? && section.readable && section.end < KERNBASE && (size > 0 || section.end > 0)
    && free >= 1 + KERNEL_TABLES + Used(RoundUp(if section.end > size then section.end else size))
  }

  /** The directory can be built and all these sections placed, one after another. */
  ghost predicate Placeable(sections: seq<Section>, free: nat) {
    && free >= 1 + KERNEL_TABLES
    && (sections == [] ||
        var k := |sections| - 1;
        Placeable(sections[..k], free) && Adds(sections[k], SizeOf(sections[..k]), free))
  }

  /** The same, without recursion. */
  lemma {:induction false} PlaceableExactly(sections: seq<Section>, free: nat)
    ensures Placeable(sections, free) <==>
              && free >= 1 + KERNEL_TABLES + Used(RoundUp(SizeOf(sections)))
              && (forall i :: 0 <= i < |sections| ==>
                    sections[i].Whole? && sections[i].readable && sections[i].end < KERNBASE)
              && (sections != [] ==> sections[0].end > 0)
    ensures sections != [] && sections[0].Whole? && sections[0].end > 0 ==> SizeOf(sections) > 0
  {
    hide Used;
    if sections != [] {
      var k := |sections| - 1;
      var before := sections[..k];
      PlaceableExactly(before, free);
      UsedGrows(RoundUp(SizeOf(before)), RoundUp(SizeOf(sections)));
      assert forall i :: 0 <= i < k ==> before[i] == sections[i];
    } else {
      assert Used(0) == 0 by { UsedNone(); }
    }
  }

  lemma UsedNone()
    ensures Used(0) == 0
  {
  }

  /** What can be placed can be placed up to any section. */
  lemma {:induction false} PlaceableBefore(sections: seq<Section>, k: nat, free: nat)
    requires k <= |sections| && Placeable(sections, free)
    ensures Placeable(sections[..k], free)
    decreases |sections|
  {
    if k == |sections| {
      assert sections[..k] == sections;
    } else {
      var before := sections[..|sections| - 1];
      PlaceableBefore(before, k, free);
      assert before[..k] == sections[..k];
    }
  }

  /** The first header cut short is reached exactly when everything before it can be placed. */
  ghost predicate Cut(sections: seq<Section>, free: nat, k: nat) {
    k < |sections| && sections[k].CutShort? && Placeable(sections[..k], free)
  }

  ghost predicate EverCut(sections: seq<Section>, free: nat) {
    exists k: nat :: Cut(sections, free, k)
  }

  /** The frames that are then left: all but those of the directory, its kernel half and the sections placed. */
  ghost predicate LeavesBehind(sections: seq<Section>, free: nat, rest: nat) {
    forall k: nat :: Cut(sections, free, k) ==>
      rest == free - (1 + KERNEL_TABLES + Used(RoundUp(SizeOf(sections[..k]))))
  }

  lemma CutHere(sections: seq<Section>, free: nat, i: nat, rest: nat)
    requires Cut(sections, free, i) && rest == free - (1 + KERNEL_TABLES + Used(RoundUp(SizeOf(sections[..i]))))
    ensures EverCut(sections, free) && LeavesBehind(sections, free, rest) && !Placeable(sections, free)
  {
    hide SizeOf;
    hide Used;
    hide Placeable;
    forall k: nat | Cut(sections, free, k) ensures k == i { CutOnce(sections, free, i, k); }
    NotPast(sections, free, i, |sections|);
    assert sections[..|sections|] == sections;
  }

  /** A program whose only header is cut short, with memory for a directory. */
  lemma OneHeader(free: nat)
    requires free >= 1 + KERNEL_TABLES
    ensures EverCut([CutShort], free) && LeavesBehind([CutShort], free, free - 1 - KERNEL_TABLES)
  {
    UsedNone();
    assert [CutShort][..0] == [];
    assert Cut([CutShort], free, 0);
    CutHere([CutShort], free, 0, free - 1 - KERNEL_TABLES);
  }

  lemma CutOnce(sections: seq<Section>, free: nat, j: nat, k: nat)
    requires Cut(sections, free, j) && Cut(sections, free, k)
    ensures j == k
  {
    if j < k {
      NotPast(sections, free, j, k);
    } else if k < j {
      NotPast(sections, free, k, j);
    }
  }

  /** A section that cannot be placed keeps all later ones from being reached. */
  lemma NotPast(sections: seq<Section>, free: nat, j: nat, k: nat)
    requires j < k <= |sections| && !Adds(sections[j], SizeOf(sections[..j]), free)
    ensures !Placeable(sections[..k], free)
  {
    assert sections[..k][..j + 1] == sections[..j + 1];
    assert sections[..j + 1][..j] == sections[..j];
    if Placeable(sections[..k], free) { PlaceableBefore(sections[..k], j + 1, free); }
  }

  // ---------------------------------------------------------------- the stack

  /** There is room for two more pages above a program of `size` bytes. */
  ghost predicate StackFits(size: nat, free: nat) {
    (RoundUp(size) + 2) * PAGE_SIZE < KERNBASE && free >= 1 + KERNEL_TABLES + Used(RoundUp(size) + 2)
  }

  /** The arguments and the words below them fit in the stack page. */
  ghost predicate ArgumentsFit(top: nat, args: seq<seq<Byte>>) {
    |args| <= MAX_ARG && Fit(top, args, |args|) && Room(top, SpAfter(top, args, |args|), 4 * (4 + |args|))
  }

  function TopOf(size: nat): nat {
    (RoundUp(size) + 2) * PAGE_SIZE
  }

  /** How the loading of a program ends. */
  datatype Loaded =
    | Ready(dir: nat, sp: nat)
    | Failed              // `cleanupExec`
    | Dropped(dir: nat)   // a section header is cut short: exec returns with the address space half built
    | Stray(top: nat)     // an argument is copied through a null page-table pointer

  /** A program is ready exactly when there are frames for it and its arguments fit. */
  ghost predicate ReadyExactly(sections: seq<Section>, args: seq<seq<Byte>>, free: nat, ready: bool) {
    Storable(args) ==>
      (ready <==> && Placeable(sections, free) && StackFits(SizeOf(sections), free)
                  && ArgumentsFit(TopOf(SizeOf(sections)), args))
  }

  /** A section more, in the terms of the whole sequence. */
  lemma PlaceableNext(sections: seq<Section>, i: nat, free: nat)
    requires i < |sections|
    ensures Placeable(sections[..i + 1], free) <==>
              Placeable(sections[..i], free) && Adds(sections[i], SizeOf(sections[..i]), free)
    ensures sections[i].Whole? ==>
              SizeOf(sections[..i + 1]) ==
                if sections[i].end > SizeOf(sections[..i]) then sections[i].end else SizeOf(sections[..i])
  {
    hide Adds;
    assert sections[..i + 1][..i] == sections[..i];
  }

  lemma SizeNone(sections: seq<Section>)
    ensures SizeOf(sections[..0]) == 0
  {
  }

  lemma PlaceableNone(sections: seq<Section>, free: nat)
    requires free >= 1 + KERNEL_TABLES
    ensures Placeable(sections[..0], free)
  {
  }

  /** Without frames for a directory no header is read. */
  lemma NoFrames(sections: seq<Section>, free: nat)
    requires free < 1 + KERNEL_TABLES
    ensures !Placeable(sections, free) && !EverCut(sections, free)
  {
    forall k: nat | k < |sections| ensures !Placeable(sections[..k], free) {
    }
  }

  /** Nothing is cut short where a section could not be placed, or where all could. */
  lemma NeverCut(sections: seq<Section>, free: nat, i: nat)
    requires i <= |sections| && Placeable(sections[..i], free)
    requires i < |sections| ==> sections[i].Whole? && !Adds(sections[i], SizeOf(sections[..i]), free)
    ensures !EverCut(sections, free)
    ensures Placeable(sections, free) <==> i == |sections|
  {
    assert sections[..|sections|] == sections;
    forall k: nat | k < |sections| && sections[k].CutShort? ensures !Placeable(sections[..k], free) {
      if k < i {
        NotPast(sections, free, k, i);
      } else {
        NotPast(sections, free, i, k);
      }
    }
    if i < |sections| { NotPast(sections, free, i, |sections|); }
  }
}
