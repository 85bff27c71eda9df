/**
 The kernel's memory functions as they run: loops that change the free list, page tables
 and frames in place.  Each is proved to compute the function that specifies it, so the
 theorems of `AddressSpaces`, `SpaceCopies` and `ExecStack` are theorems about these loops.
 */
module KernelMemory {
  import opened Basics
  import opened PageTables
  import opened AddressSpaces
  import opened SpaceCopies
  import opened ExecStack
  import opened ProgramLoads

  const TABLE_SPAN: nat := PAGE_SIZE * ENTRIES

  // ---------------------------------------------------------------- jumping over a missing table

  /** A missing page table can be jumped over: none of its pages is mapped. */
  lemma {:induction false} SkipTable(vm: Vm, d: nat, v: nat, hi: nat)
    requires Inv(vm) && HasRole(vm.owner, d, Dir) && hi <= USER_PAGES && TableFor(vm.mem, d, v / ENTRIES).None?
    ensures Released(vm, d, v, hi) == Released(vm, d, (v / ENTRIES + 1) * ENTRIES, hi)
    decreases hi - v
  {
    hide Inv;
    if v < hi && (v + 1) / ENTRIES == v / ENTRIES { SkipTable(vm, d, v + 1, hi); }
  }

  /** Freeing the frame and then clearing the entry is unmapping the page. */
  lemma UnmapInSteps(vm: Vm, d: nat, v: nat)
    requires Inv(vm) && HasRole(vm.owner, d, Dir) && v < USER_PAGES && Lookup(vm.mem, d, v).Some?
    ensures Mappable(vm, d, v) && IsTable(vm.mem, TableFor(vm.mem, d, v / ENTRIES).value)
    ensures var t, f := TableFor(vm.mem, d, v / ENTRIES).value, Lookup(vm.mem, d, v).value.frame;
            IsTable(Push(vm, f).mem, t) &&
              UnmapPage(vm, d, v) == Push(vm, f).(mem := SetEntry(Push(vm, f).mem, t, v % ENTRIES, NO_PTE))
  {
    TableRole(vm, d, v / ENTRIES);
    PageRole(vm, d, v);
    hide Inv;
    var t, f := TableFor(vm.mem, d, v / ENTRIES).value, Lookup(vm.mem, d, v).value.frame;
    assert UnmapPage(vm, d, v).mem == SetEntry(Push(vm, f).mem, t, v % ENTRIES, NO_PTE);
  }

  /** A frame that was not managed can be added to the free list. */
  lemma AddFrameInv(vm: Vm, f: nat)
    requires Inv(vm) && f !in vm.owner
    ensures Inv(Push(vm, f))
  {
    hide FreeOk;
    hide Linked;
    hide RoleOk;
    var vm' := Push(vm, f);
    AddFrameFree(vm, f);
    PushLinked(vm, f);
    FreeRole(vm', f);
    forall g | g in vm'.owner ensures RoleOk(vm'.mem, vm'.owner, g) {
      if g != f { AddFrameRole(vm, f, g); }
    }
  }

  lemma AddFrameFree(vm: Vm, f: nat)
    requires FreeOk(vm.free, vm.owner) && f !in vm.owner
    ensures FreeOk(Push(vm, f).free, Push(vm, f).owner)
  {
    var vm' := Push(vm, f);
    assert vm'.free[0] == f;
    forall g | g in vm.owner && vm.owner[g] == Free ensures g in vm'.free {
      var k :| 0 <= k < |vm.free| && vm.free[k] == g;
      assert vm'.free[k + 1] == g;
    }
  }

  lemma AddFrameRole(vm: Vm, f: nat, g: nat)
    requires Inv(vm) && f !in vm.owner && g in vm.owner
    ensures RoleOk(Push(vm, f).mem, Push(vm, f).owner, g)
  {
    hide FreeOk;
    hide Linked;
    assert RoleOk(vm.mem, vm.owner, g);
    if vm.owner[g].PageOf? { TableRole(vm, vm.owner[g].dir, vm.owner[g].page / ENTRIES); }
    RoleFrame(vm, Push(vm, f), g);
  }

  class Kernel {
    var head: Option<nat>   // `freeList`; the links are in the frames
    var mem: Memory
    ghost var free: seq<nat>
    ghost var owner: Owners

    ghost function View(): Vm
      reads this
    {
      Vm(free, mem, owner)
    }

    ghost predicate Valid()
      reads this
    {
      head == Head(free)
    }

    constructor ()
      ensures Valid() && Inv(View()) && owner == map[]
    {
      head, mem, free, owner := None, map[], [], map[];
    }

    method FreeFrame(f: nat)
      requires Valid()
      modifies this
      ensures Valid() && View() == Push(old(View()), f)
    {
      mem := mem[f := Link(head)];
      head := Some(f);
      free := [f] + free;
      owner := owner[f := Free];
    }

    method AllocFrame() returns (r: Option<nat>)
      requires Valid() && Inv(View())
      modifies this
      ensures Valid()
      ensures r.None? <==> old(free) == []
      ensures r.None? ==> View() == old(View())
      ensures r.Some? ==> r.value == old(free)[0] && View() == Pop(old(View()))
    {
      r := head;
      if r.None? { return; }
      head := mem[r.value].next;
      owner := owner[free[0] := Held];
      free := free[1..];
    }

    /** `freeMemoryRange`: the whole frames between two addresses come under management, all of them free. */
    method FreeRange(start: nat, end: nat)
      requires Inv(View()) && forall f :: RoundUp(start) <= f < end / PAGE_SIZE ==> f !in owner
      requires Valid()
      modifies this
      ensures Valid()
      ensures Inv(View())
      ensures forall f :: f in owner <==> f in old(owner) || RoundUp(start) <= f < end / PAGE_SIZE
      ensures forall f :: f in owner ==> owner[f] == if f in old(owner) then old(owner)[f] else Free
    {
      hide Inv;
      var p := RoundUp(start) * PAGE_SIZE;
      while p + PAGE_SIZE <= end
        invariant Valid()
        invariant p % PAGE_SIZE == 0 && RoundUp(start) <= p / PAGE_SIZE && Inv(View())
        invariant forall f :: f in owner <==> f in old(owner) || RoundUp(start) <= f < p / PAGE_SIZE
        invariant forall f :: f in owner ==> owner[f] == if f in old(owner) then old(owner)[f] else Free
        invariant RoundUp(start) < p / PAGE_SIZE ==> p <= end
      {
        AddFrameInv(View(), p / PAGE_SIZE);
        FreeFrame(p / PAGE_SIZE);
        p := p + PAGE_SIZE;
      }
    }

    /** One page of `releaseUserPages`, whose page table is in frame `t`. */
    method ReleaseOne(d: nat, v: nat, t: nat)
      requires Inv(View()) && HasRole(owner, d, Dir) && v < USER_PAGES && TableFor(mem, d, v / ENTRIES) == Some(t)
      requires Valid()
      modifies this
      ensures Valid()
      ensures Inv(View()) && HasRole(owner, d, Dir)
      ensures forall hi :: v < hi <= USER_PAGES ==> Released(View(), d, v + 1, hi) == Released(old(View()), d, v, hi)
    {
      hide Inv;
      hide Lookup;
      hide TableFor;
      TableRole(View(), d, v / ENTRIES);
      LookupIs(View(), d, v);
      var e := Entry(mem, t, v % ENTRIES);
      if e.flags.present {
        UnmapInSteps(View(), d, v);
        UnmapInv(View(), d, v);
        UnmapRoles(View(), d, v);
        FreeFrame(e.frame);
        mem := SetEntry(mem, t, v % ENTRIES, NO_PTE);
      }
    }

    /** Every page that a page-by-page walk would release is released, also when whole tables are jumped over. */
    method Release(d: nat, oldSize: nat, newSize: nat) returns (size: nat)
      requires Inv(View()) && HasRole(owner, d, Dir) && oldSize <= KERNBASE
      requires Valid()
      modifies this
      ensures Valid()
      ensures size == if newSize >= oldSize then oldSize else newSize
      ensures View() == if newSize >= oldSize
                then old(View()) else Released(old(View()), d, RoundUp(newSize), RoundUp(oldSize))
    {
      hide Inv;
      hide Lookup;
      hide TableFor;
      hide Released;
      if newSize >= oldSize { return oldSize; }
      ghost var hi := RoundUp(oldSize);
      var a := RoundUp(newSize) * PAGE_SIZE;
      while a < oldSize
        invariant Valid()
        invariant a % PAGE_SIZE == 0
        invariant Inv(View()) && HasRole(owner, d, Dir)
        invariant Released(View(), d, a / PAGE_SIZE, hi) == Released(old(View()), d, RoundUp(newSize), hi)
        decreases oldSize - a
      {
        var t := TableFor(mem, d, a / PAGE_SIZE / ENTRIES);
        if t.None? {
          SkipTable(View(), d, a / PAGE_SIZE, hi);
          Jump(a);
          a := (a / TABLE_SPAN + 1) * TABLE_SPAN - PAGE_SIZE;
        } else {
          ReleaseOne(d, a / PAGE_SIZE, t.value);
        }
        a := a + PAGE_SIZE;
      }
      ReleasedEnd(View(), d, a / PAGE_SIZE, hi);
      return newSize;
    }

    /** `getPageTableEntry`: the frame of the page table for directory entry `i`. */
    method Walk(d: nat, i: nat, alloc: bool) returns (t: Option<nat>)
      requires Inv(View()) && HasRole(owner, d, Dir) && i < ENTRIES
      requires Valid()
      modifies this
      ensures Valid()
      ensures IsTable(old(mem), d) && d !in old(free)
      ensures View() == if alloc then Walked(old(View()), d, i).0 else old(View())
      ensures t == TableFor(mem, d, i) && (alloc ==> t.Some? == Walked(old(View()), d, i).1)
    {
      hide Inv;
      DirFacts(View(), d);
      WalkedOk(View(), d, i);
      hide SameSpace;
      hide OthersKept;
      t := TableFor(mem, d, i);
      if t.None? && alloc {
        t := AllocFrame();
        if t.Some? {
          mem := mem[t.value := ZeroTable()];
          mem := SetEntry(mem, d, i, Pte(t.value, TABLE_FLAGS));
          owner := owner[t.value := TableOf(d, i)];
        }
      }
    }

    /** `createPageTableEntries` for one page of user memory. */
    method MapUser(d: nat, v: nat, f: nat, flags: Flags) returns (ok: bool)
      requires Creatable(View(), d, v, f)
      requires Valid()
      modifies this
      ensures Valid()
      ensures View() == Created(old(View()), d, v, f, flags).0 && ok == Created(old(View()), d, v, f, flags).1
    {
      WalkedOk(View(), d, v / ENTRIES);
      WalkedHeld(View(), d, v / ENTRIES, f);
      hide Inv;
      hide SameSpace;
      hide OthersKept;
      hide Walked;
      hide Lookup;
      var t := Walk(d, v / ENTRIES, true);
      if t.None? { return false; }
      TableRole(View(), d, v / ENTRIES);
      mem := SetEntry(mem, t.value, v % ENTRIES, Pte(f, flags.(present := true)));
      owner := owner[f := PageOf(d, v)];
      return true;
    }

    /** `createPageTableEntries` for a range of the kernel half. */
    method MapKernel(d: nat, start: nat, end: nat, frame: nat, flags: Flags) returns (ok: bool)
      requires KernelMappable(View(), d, start, end)
      requires Valid()
      modifies this
      ensures Valid()
      ensures View() == KernelMapped(old(View()), d, start, end, frame, flags).0 &&
                ok == KernelMapped(old(View()), d, start, end, frame, flags).1
    {
      hide Inv;
      hide SameSpace;
      hide OthersKept;
      hide Walked;
      hide Lookup;
      hide TableFor;
      var v, f := start, frame;
      while v < end
        invariant Valid()
        invariant KernelMappable(View(), d, v, end)
        invariant KernelMapped(View(), d, v, end, f, flags) == KernelMapped(old(View()), d, start, end, frame, flags)
      {
        WalkedOk(View(), d, v / ENTRIES);
        ghost var before := View();
        var t := Walk(d, v / ENTRIES, true);
        if t.None? { return false; }
        TableRole(View(), d, v / ENTRIES);
        StillMappable(before, View(), d, v, end, f, flags);
        mem := SetEntry(mem, t.value, v % ENTRIES, Pte(f, flags.(present := true)));
        v, f := v + 1, f + 1;
      }
      return true;
    }

    /** `allocateMemoryAndPageTables`. */
    method Allocate(d: nat, oldSize: nat, newSize: nat) returns (size: nat)
      requires Inv(View()) && HasRole(owner, d, Dir)
      requires oldSize <= newSize < KERNBASE ==>
                 Growable(View(), d, RoundUp(oldSize), RoundUp(oldSize), RoundUp(newSize))
      requires Valid()
      modifies this
      ensures Valid()
      ensures newSize >= KERNBASE ==> size == 0 && View() == old(View())
      ensures newSize < KERNBASE && newSize < oldSize ==> size == oldSize && View() == old(View())
      ensures oldSize <= newSize < KERNBASE ==>
                var r := Allocated(old(View()), d, RoundUp(oldSize), RoundUp(oldSize), RoundUp(newSize));
                View() == r.0 && size == if r.1 then newSize else 0
    {
      hide Inv;
      hide SameSpace;
      hide OthersKept;
      hide Lookup;
      hide Allocated;
      hide Growable;
      if newSize >= KERNBASE { return 0; }
      if newSize < oldSize { return oldSize; }
      ghost var lo, hi := RoundUp(oldSize), RoundUp(newSize);
      var a := RoundUp(oldSize) * PAGE_SIZE;
      while a < newSize
        invariant Valid()
        invariant a % PAGE_SIZE == 0
        invariant Growable(View(), d, lo, a / PAGE_SIZE, hi)
        invariant Allocated(View(), d, lo, a / PAGE_SIZE, hi) == Allocated(old(View()), d, lo, lo, hi)
      {
        var ok := AllocateOne(d, lo, a / PAGE_SIZE, hi, oldSize, newSize);
        if !ok { return 0; }
        a := a + PAGE_SIZE;
      }
      AllocatedEnd(View(), d, lo, a / PAGE_SIZE, hi);
      return newSize;
    }

    /** One page of the loop, with the way out when memory has run out. */
    method AllocateOne(d: nat, ghost lo: nat, v: nat, ghost hi: nat, oldSize: nat, newSize: nat) returns (ok: bool)
      requires lo == RoundUp(oldSize) && hi == RoundUp(newSize) && oldSize < newSize < KERNBASE && v < hi
      requires Growable(View(), d, lo, v, hi)
      requires Valid()
      modifies this
      ensures Valid()
      ensures ok ==> Growable(View(), d, lo, v + 1, hi)
      ensures ok ==> Allocated(View(), d, lo, v + 1, hi) == Allocated(old(View()), d, lo, v, hi)
      ensures !ok ==> (View(), false) == Allocated(old(View()), d, lo, v, hi)
    {
      hide Inv;
      hide SameSpace;
      hide OthersKept;
      hide Lookup;
      hide Released;
      hide Created;
      hide IsCreated;
      ghost var vm := View();
      var f := AllocFrame();
      if f.None? {
        var _ := Release(d, newSize, oldSize);
        return false;
      }
      mem := mem[f.value := ZeroData()];
      assert View() == Prepared(vm, ZeroData());
      PreparedOk(vm, ZeroData(), d, v);
      ghost var vm1 := View();
      CreatedOk(vm1, d, v, f.value, USER_FLAGS);
      ok := MapUser(d, v, f.value, USER_FLAGS);
      if ok {
        StillGrowable(vm, vm1, View(), d, lo, v, hi, f.value);
      } else {
        CreatedDir(vm1, View(), d, v, f.value);
        var _ := Release(d, newSize, oldSize);
        FreeFrame(f.value);
      }
    }

    /** `freeMemoryAndPageTable`. */
    method Destroy(d: nat)
      requires Inv(View()) && HasRole(owner, d, Dir)
      requires Valid()
      modifies this
      ensures Valid()
      ensures View() == Destroyed(old(View()), d)
    {
      hide Inv;
      hide SameSpace;
      hide OthersKept;
      hide Lookup;
      hide Released;
      hide TableFor;
      ReleasedOk(View(), d, 0, USER_PAGES);
      var _ := Release(d, KERNBASE, 0);
      DirEntries(View(), d);
      owner := Disown(owner, d);
      ghost var vm, entries := View(), mem[d].entries;
      var i := 0;
      while i < ENTRIES
        invariant Valid()
        invariant IsTable(mem, d) && mem[d].entries == entries && |entries| == ENTRIES && i <= ENTRIES
        invariant TablesFreed(View(), entries, i) == TablesFreed(vm, entries, 0)
      {
        if mem[d].entries[i].flags.present {
          assert Pointed(entries, 0, entries[i].frame);
          FreeFrame(mem[d].entries[i].frame);
        }
        i := i + 1;
      }
      FreeFrame(d);
    }

    /** `setupKernelVirtualMemory`. */
    method SetUpKernel(data: nat) returns (r: Option<nat>)
      requires Inv(View()) && DataPage(data)
      requires Valid()
      modifies this
      ensures Valid()
      ensures View() == SetUp(old(View()), data).0 && r == SetUp(old(View()), data).1
    {
      hide Inv;
      hide SameSpace;
      hide OthersKept;
      hide Lookup;
      hide Mapped;
      hide Destroyed;
      hide Built;
      hide Grows;
      r := AllocFrame();
      if r.None? { return; }
      var d := r.value;
      StartBuilt(old(View()), data);
      mem := mem[d := ZeroTable()];
      owner := owner[d := Dir];
      ghost var vm0, n := View(), |old(free)| - 1;
      MappedOk(vm0, d, data, 0, n);
      var k := 0;
      while k < 4
        invariant Valid()
        invariant 0 <= k <= 4 && Built(View(), d, data, k, n)
        invariant Mapped(View(), d, data, k, n) == Mapped(vm0, d, data, 0, n)
      {
        BuiltMappable(View(), d, data, k, n);
        var range := KernelMap(data)[k];
        KernelMappedOk(View(), d, range.start, range.end, range.frame, KernelFlags(range.writeable));
        ghost var before := View();
        var ok := MapKernel(d, range.start, range.end, range.frame, KernelFlags(range.writeable));
        MappedStep(before, d, data, k, n);
        if !ok {
          Destroy(d);
          return None;
        }
        BuiltStep(before, View(), d, data, k, n, ok);
        k := k + 1;
      }
      MappedEnd(View(), d, data, n);
    }

    /**
     `copyProcessPageTable` of `size` bytes.  The kernel panics at the first page that the parent does not map, unless
     memory has run out before.
     */
    method Copy(p: nat, size: nat, data: nat) returns (r: Option<nat>, panics: bool)
      requires DataPage(data) && Inv(View()) && HasRole(owner, p, Dir) && size <= KERNBASE
      requires Valid()
      modifies this
      ensures Valid()
      ensures var n := RoundUp(size);
              var m := FirstMissing(old(mem), p, 0, n);
              && AllPresent(old(View()), p, m)
              && var (vm, child, end) := Copied(old(View()), p, m, data);
                 && View() == vm && (panics <==> m < n && end == Done)
                 && (!panics ==> r == child)
    {
      hide Inv;
      hide SameSpace;
      hide OthersKept;
      hide Lookup;
      hide SetUp;
      hide CopiedFrom;
      hide Built;
      hide Copyable;
      hide Grows;
      ghost var n := FirstMissing(mem, p, 0, RoundUp(size));
      SetUpOk(View(), data);
      r := SetUpKernel(data);
      if r.None? { return r, false; }
      var d := r.value;
      SetUpCopyable(old(View()), View(), p, d, n, data);
      ghost var vm1 := View();
      var i := 0;
      while i < size
        invariant Valid()
        invariant i % PAGE_SIZE == 0 && i / PAGE_SIZE <= n && Copyable(View(), p, d, i / PAGE_SIZE, n)
        invariant CopiedFrom(View(), p, d, i / PAGE_SIZE, n) == CopiedFrom(vm1, p, d, 0, n)
        invariant OthersKept(old(View()), View(), d)
      {
        KeptLookup(old(View()), View(), d, p, i / PAGE_SIZE);
        if Lookup(mem, p, i / PAGE_SIZE).None? {
          CopiedEnd(View(), p, d, i / PAGE_SIZE, n);
          return None, true;
        }
        ghost var before := View();
        var ok := CopyOne(p, d, i / PAGE_SIZE, n);
        if !ok { return None, false; }
        KeptTrans(old(View()), before, View(), d);
        i := i + PAGE_SIZE;
      }
      CopiedEnd(View(), p, d, i / PAGE_SIZE, n);
      panics := false;
    }

    /** One page of the loop; a page table that cannot be had loses the page. */
    method CopyOne(p: nat, d: nat, i: nat, ghost n: nat) returns (ok: bool)
      requires Copyable(View(), p, d, i, n) && i < n
      requires Valid()
      modifies this
      ensures Valid()
      ensures ok ==> Copyable(View(), p, d, i + 1, n)
      ensures ok ==> CopiedFrom(View(), p, d, i + 1, n) == CopiedFrom(old(View()), p, d, i, n)
      ensures ok ==> OthersKept(old(View()), View(), d)
      ensures !ok ==> CopiedFrom(old(View()), p, d, i, n).0 == View() && CopiedFrom(old(View()), p, d, i, n).1 != Done
    {
      hide Inv;
      hide SameSpace;
      hide OthersKept;
      hide Created;
      hide IsCreated;
      hide Destroyed;
      ghost var vm := View();
      ParentData(vm, p, d, i, n);
      var e := Lookup(mem, p, i).value;
      var f := AllocFrame();
      if f.None? {
        Destroy(d);
        return false;
      }
      var page := Data(Bytes(mem, e.frame));
      mem := mem[f.value := page];
      PreparedOk(vm, page, d, i);
      ghost var vm1 := View();
      CreatedOk(vm1, d, i, f.value, e.flags);
      ok := MapUser(d, i, f.value, e.flags);
      if ok {
        StillCopyable(vm, vm1, View(), p, d, i, n, f.value, e.flags);
        CreatedKept(vm1, View(), d, i, f.value, e.flags);
        KeptTrans(vm, vm1, View(), d);
      } else {
        CreatedInv(vm1, View(), d, i, f.value, e.flags);
        Destroy(d);
      }
    }

    /** `clearPTEU`; without a page table the kernel panics. */
    method ClearUser(d: nat, v: nat) returns (ok: bool)
      requires Inv(View()) && HasRole(owner, d, Dir) && v < PAGES
      modifies this`mem
      ensures View() == Cleared(old(View()), d, v).0 && ok == Cleared(old(View()), d, v).1
    {
      hide Inv;
      var t := TableFor(mem, d, v / ENTRIES);
      if t.None? { return false; }
      TableRole(View(), d, v / ENTRIES);
      mem := SetEntry(mem, t.value, v % ENTRIES, NoUser(Entry(mem, t.value, v % ENTRIES)));
      return true;
    }

    /** The part of a copy that goes to the page of `x`. */
    method CopyPage(d: nat, x: nat, rest: seq<Byte>)
      requires Closed(View(), d) && x < TWO_32 && Accessible(mem, d, x / PAGE_SIZE) && rest != []
      modifies this`mem
      ensures Closed(View(), d) && View() == Chunked(old(View()), d, x, rest)
    {
      hide Inv;
      hide OthersKept;
      hide Lookup;
      PageBytes(View(), d, x / PAGE_SIZE);
      ChunkedOk(View(), d, x, rest);
      MappingClosed(View(), Chunked(View(), d, x, rest), d);
      hide SameMapping;
      hide Closed;
      var f := Lookup(mem, d, x / PAGE_SIZE).value.frame;
      mem := mem[f := Data(Patched(Bytes(mem, f), x % PAGE_SIZE, rest[..Chunk(x, |rest|)]))];
    }

    /** `copyToUserVirtualMemory`. */
    method CopyToUser(d: nat, va: nat, data: seq<Byte>) returns (a: Access)
      requires Closed(View(), d) && va < TWO_32
      modifies this`mem
      ensures View() == CopyOut(old(View()), d, va, data).0 && a == CopyOut(old(View()), d, va, data).1
    {
      hide Closed;
      hide Chunked;
      hide Lookup;
      hide SameMapping;
      var x: nat, rest := va, data;
      while rest != []
        invariant x < TWO_32 && Closed(View(), d)
        invariant CopyOut(View(), d, x, rest) == CopyOut(old(View()), d, va, data)
        decreases |rest|
      {
        a := AccessTo(mem, d, x / PAGE_SIZE);
        if a != Granted { return; }
        ChunkedOk(View(), d, x, rest);
        CopyPage(d, x, rest);
        rest := rest[Chunk(x, |rest|)..];
        x := NextPage(x);
      }
      return Granted;
    }

    /** The part of `exec` that lays out the arguments on the new stack. */
    method PushArguments(d: nat, top: nat, args: seq<seq<Byte>>) returns (sp: nat, a: Access)
      requires Closed(View(), d)
      modifies this`mem
      ensures var r := StackBuilt(old(View()), d, top, args); View() == r.0 && sp == r.1 && a == r.3
    {
      hide Closed;
      hide SameMapping;
      hide IsCopyOut;
      hide CopyOut;
      hide WordsBytes;
      hide Lowered;
      var ustack := new nat[3 + MAX_ARG + 1];
      sp := top;
      var argc := 0;
      while argc < |args|
        invariant 0 <= argc <= |args| && argc <= MAX_ARG && Closed(View(), d)
        invariant Pushed(View(), d, sp, args, ustack[3..3 + argc]) == Pushed(old(View()), d, top, args, [])
      {
        if argc >= MAX_ARG { return sp, Denied; }
        var s := args[argc] + [0];
        CopyOutOk(View(), d, Lowered(sp, |s|), s);
        ghost var before := View();
        ghost var ptrs: seq<nat> := ustack[3..3 + argc];
        sp := Lowered(sp, |s|);
        a := CopyToUser(d, sp, s);
        if a != Granted { return; }
        CopyOutMapping(before, View(), d, sp, s, a);
        MappingClosed(before, View(), d);
        ustack[3 + argc] := sp;
        assert ustack[3..3 + argc + 1] == ptrs + [sp];
        argc := argc + 1;
      }
      PushedClosed(old(View()), d, top, args, []);
      sp, a := PushWords(d, sp, ustack, argc);
    }

    /** The words below the strings, whose addresses are in the array from number 3 on. */
    method PushWords(d: nat, sp: nat, ustack: array<nat>, argc: nat) returns (sp': nat, a: Access)
      requires Closed(View(), d) && argc <= MAX_ARG && ustack.Length == 3 + MAX_ARG + 1
      modifies this`mem, ustack
      ensures sp' == (sp - (4 + argc) * 4) % TWO_32
      ensures (View(), a) == CopyOut(old(View()), d, sp', WordsBytes(Words(sp, old(ustack[3..3 + argc]))))
    {
      hide Closed;
      hide CopyOut;
      hide WordsBytes;
      ustack[3 + argc] := 0;
      ustack[0], ustack[1], ustack[2] := 0xffff_ffff, argc, (sp - (argc + 1) * 4) % TWO_32;
      var words: seq<nat> := ustack[..4 + argc];
      assert words == Words(sp, old(ustack[3..3 + argc]));
      sp' := (sp - (4 + argc) * 4) % TWO_32;
      a := CopyToUser(d, sp', WordsBytes(words));
    }

    /** `growProcess` on a process of `size` bytes. */
    method GrowProcess(d: nat, size: nat, n: int) returns (size': nat, ok: bool)
      requires Bounded(View(), d, size) && -0x8000_0000 <= n < 0x8000_0000
      requires Valid()
      modifies this
      ensures Valid()
      ensures var r := Resized(old(View()), d, size, n); View() == r.0 && size' == r.1 && ok == r.2
    {
      hide Inv;
      hide Lookup;
      hide Allocated;
      hide Released;
      size' := size;
      if n > 0 {
        size' := Allocate(d, size, size + n);
        if size' == 0 { return size, false; }
      } else if n < 0 {
        size' := Release(d, size, (size + n) % TWO_32);
        if size' == 0 { return size, false; }
      }
      return size', true;
    }

    /** The stack that `exec` makes: two pages above the program, the lower one closed to it. */
    method MakeStack(d: nat, size: nat, ghost n: nat) returns (top: Option<nat>)
      requires Placed(View(), d, size, n)
      requires Valid()
      modifies this
      ensures Valid()
      ensures Inv(View()) && OthersKept(old(View()), View(), d) && Grows(old(owner), owner, d) && HasRole(owner, d, Dir)
      ensures top.Some? <==> TopOf(size) < KERNBASE && n >= Used(RoundUp(size) + 2)
      ensures top.Some? ==> top.value == TopOf(size) && StackOpen(View(), d, top.value) && KernelGap(mem, d)
    {
      hide Inv;
      hide OthersKept;
      hide Lookup;
      hide Allocated;
      hide SameSpace;
      hide Grows;
      hide Loading;
      hide Used;
      hide TablesTo;
      var lo := RoundUp(size);
      LoadingRound(View(), d, size);
      var r := Allocate(d, lo * PAGE_SIZE, (lo + 2) * PAGE_SIZE);
      GrowsRefl(owner, d);
      KeptRefl(View(), d);
      if (lo + 2) * PAGE_SIZE < KERNBASE {
        PlacedStep(old(View()), d, lo * PAGE_SIZE, (lo + 2) * PAGE_SIZE, n);
        GrowthFails(old(View()), d, lo, lo + 2);
      }
      if r == 0 { return None; }
      ghost var grown := View();
      LoadingFacts(grown, d, (lo + 2) * PAGE_SIZE, 0);
      var ok := ClearUser(d, lo);
      StackOpened(old(View()), grown, View(), d, lo);
      return Some(r);
    }

    /** One section of the program is added, if it fits, for which there were `n` frames. */
    method AddSection(d: nat, size: nat, end: nat, ghost n: nat) returns (size': nat)
      requires Placed(View(), d, size, n)
      requires Valid()
      modifies this
      ensures Valid()
      ensures Inv(View()) && OthersKept(old(View()), View(), d) && Grows(old(owner), owner, d) && HasRole(owner, d, Dir)
      ensures var larger := if end > size then end else size;
              && (size' != 0 <==> end < KERNBASE && larger > 0 && n >= Used(RoundUp(larger)))
              && (size' != 0 ==> size' == larger && Placed(View(), d, size', n))
    {
      hide Inv;
      hide OthersKept;
      hide Lookup;
      hide Allocated;
      hide SameSpace;
      hide Grows;
      hide Loading;
      hide Used;
      hide TablesTo;
      LoadingFacts(View(), d, size, end);
      size' := Allocate(d, size, end);
      GrowsRefl(owner, d);
      KeptRefl(View(), d);
      if size <= end < KERNBASE {
        PlacedStep(old(View()), d, size, end, n);
        GrowthFails(old(View()), d, RoundUp(size), RoundUp(end));
      }
    }

    /** `cleanupExec`: all that was built for directory `d` since `was` goes back. */
    method CleanUp(d: nat, ghost was: Vm)
      requires Inv(View()) && HasRole(owner, d, Dir)
      requires Inv(was) && HasRole(was.owner, d, Free) && Grows(was.owner, owner, d) && OthersKept(was, View(), d)
      requires Valid()
      modifies this
      ensures Valid()
      ensures Inv(View()) && owner == was.owner && AllKept(was, View())
    {
      hide Inv;
      hide OthersKept;
      DestroyedOk(View(), d);
      Destroy(d);
      DestroyRestores(was, old(View()), View(), d);
      NewDirKept(was, View(), d);
    }

    /**
     The memory of a new program, from `setupKernelVirtualMemory` to the last copy of `exec`.  The program is ready
     exactly when there are frames for the directory, the sections and the stack, and the arguments fit; its stack then
     decodes to them.  A header cut short, once reached, leaves the address space behind.  Otherwise memory is as it
     was, unless a copy has gone through a null pointer.
     */
    method LoadProgram(data: nat, sections: seq<Section>, args: seq<seq<Byte>>) returns (r: Loaded)
      requires Inv(View()) && DataPage(data)
      requires Valid()
      modifies this
      ensures Valid()
      ensures r.Ready? ==> Inv(View()) && AllKept(old(View()), View()) && Grows(old(owner), owner, r.dir)
      ensures r.Ready? ==> HasRole(old(owner), r.dir, Free) && Closed(View(), r.dir) && KernelGap(mem, r.dir)
      ensures r.Ready? ==> exists ptrs :: Decodes(mem, r.dir, r.sp, args, ptrs)
      ensures ReadyExactly(sections, args, |old(free)|, r.Ready?)
      ensures r.Failed? ==> Inv(View()) && owner == old(owner) && AllKept(old(View()), View())
      ensures r.Dropped? <==> EverCut(sections, |old(free)|)
      ensures r.Dropped? ==> Inv(View()) && AllKept(old(View()), View()) && Grows(old(owner), owner, r.dir)
      ensures r.Dropped? ==> HasRole(old(owner), r.dir, Free) && HasRole(owner, r.dir, Dir)
      ensures r.Dropped? ==> LeavesBehind(sections, |old(free)|, |free|)
      ensures r.Stray? ==> exists k :: 0 <= k < |args| && |args[k]| >= r.top - PAGE_SIZE
    {
      hide Inv;
      hide OthersKept;
      hide Lookup;
      hide SameSpace;
      hide Grows;
      hide Loading;
      hide Built;
      hide SetUp;
      hide Placeable;
      hide EverCut;
      hide LeavesBehind;
      hide Decodes;
      ghost var was, frames := View(), |free|;
      SetUpOk(was, data);
      var dir := SetUpKernel(data);
      if dir.None? {
        NoFrames(sections, frames);
        return Failed;
      }
      var d := dir.value;
      PlacedNone(View(), d, data, frames - 1);
      PlaceableNone(sections, frames);
      r := LoadSections(d, sections, args, was);
    }

    /** The same from the new directory on. */
    method LoadSections(d: nat, sections: seq<Section>, args: seq<seq<Byte>>, ghost was: Vm) returns (r: Loaded)
      requires |was.free| >= 1 + KERNEL_TABLES && Placed(View(), d, 0, |was.free| - 1 - KERNEL_TABLES)
      requires Inv(was) && HasRole(was.owner, d, Free) && Grows(was.owner, owner, d) && OthersKept(was, View(), d)
      requires Placeable(sections[..0], |was.free|)
      requires Valid()
      modifies this
      ensures Valid()
      ensures r.Ready? ==> r.dir == d && Inv(View()) && AllKept(was, View()) && Grows(was.owner, owner, d)
      ensures r.Ready? ==> Closed(View(), d) && KernelGap(mem, d)
      ensures r.Ready? ==> exists ptrs :: Decodes(mem, d, r.sp, args, ptrs)
      ensures ReadyExactly(sections, args, |was.free|, r.Ready?)
      ensures r.Failed? ==> Inv(View()) && owner == was.owner && AllKept(was, View())
      ensures r.Dropped? <==> EverCut(sections, |was.free|)
      ensures r.Dropped? ==> r.dir == d && Inv(View()) && AllKept(was, View()) && Grows(was.owner, owner, d) &&
                             HasRole(owner, d, Dir)
      ensures r.Dropped? ==> LeavesBehind(sections, |was.free|, |free|)
      ensures r.Stray? ==> exists k :: 0 <= k < |args| && |args[k]| >= r.top - PAGE_SIZE
    {
      hide Inv;
      hide OthersKept;
      hide AllKept;
      hide Grows;
      hide Loading;
      hide Used;
      hide TablesTo;
      hide Placeable;
      hide SizeOf;
      hide EverCut;
      hide LeavesBehind;
      hide Decodes;
      ghost var frames, n := |was.free|, |was.free| - 1 - KERNEL_TABLES;
      var size, i := 0, 0;
      SizeNone(sections);
      while i < |sections|
        invariant Valid() && 0 <= i <= |sections| && Placed(View(), d, size, n)
        invariant size == SizeOf(sections[..i]) && Placeable(sections[..i], frames)
        invariant Grows(was.owner, owner, d) && OthersKept(was, View(), d)
      {
        if sections[i].CutShort? {
          LoadingFacts(View(), d, size, 0);
          NewDirKept(was, View(), d);
          CutHere(sections, frames, i, |free|);
          return Dropped(d);
        }
        ghost var before := View();
        var size' := AddSection(d, size, sections[i].end, n);
        GrowsTrans(was.owner, before.owner, owner, d);
        KeptTrans(was, before, View(), d);
        PlaceableNext(sections, i, frames);
        if size' == 0 || !sections[i].readable {
          CleanUp(d, was);
          NeverCut(sections, frames, i);
          return Failed;
        }
        size, i := size', i + 1;
      }
      NeverCut(sections, frames, i);
      assert sections[..i] == sections;
      ghost var before := View();
      var top := MakeStack(d, size, n);
      GrowsTrans(was.owner, before.owner, owner, d);
      KeptTrans(was, before, View(), d);
      if top.None? {
        CleanUp(d, was);
        return Failed;
      }
      r := Finish(d, top.value, args, was);
    }

    method Finish(d: nat, top: nat, args: seq<seq<Byte>>, ghost was: Vm) returns (r: Loaded)
      requires StackOpen(View(), d, top) && KernelGap(mem, d)
      requires Inv(was) && HasRole(was.owner, d, Free) && Grows(was.owner, owner, d) && OthersKept(was, View(), d)
      requires Valid()
      modifies this
      ensures Valid()
      ensures r.Ready? ==> r.dir == d && Inv(View()) && AllKept(was, View()) && Grows(was.owner, owner, d)
      ensures r.Ready? ==> Closed(View(), d) && KernelGap(mem, d)
      ensures r.Ready? ==> exists ptrs :: Decodes(mem, d, r.sp, args, ptrs)
      ensures Storable(args) ==> (r.Ready? <==> ArgumentsFit(top, args))
      ensures r.Failed? ==> Inv(View()) && owner == was.owner && AllKept(was, View())
      ensures !r.Dropped?
      ensures r.Stray? ==> r.top == top && exists k :: 0 <= k < |args| && |args[k]| >= top - PAGE_SIZE
    {
      hide Inv;
      hide OthersKept;
      hide Lookup;
      hide TableFor;
      hide Grows;
      hide StackBuilt;
      hide Decodes;
      hide AllKept;
      OpenFacts(View(), d, top);
      StackDecodes(View(), d, top, args);
      if forall k :: 0 <= k < |args| ==> |args[k]| < top - PAGE_SIZE { NeverWild(View(), d, top, args); }
      if Storable(args) { StackExactly(View(), d, top, args); }
      hide StackOpen;
      hide Fit;
      hide SpAfter;
      hide Room;
      var sp, a := PushArguments(d, top, args);
      KeptTrans(was, old(View()), View(), d);
      NewDirKept(was, View(), d);
      match a
      case Granted => return Ready(d, sp);
      case Denied =>
        CleanUp(d, was);
        return Failed;
      case Wild => return Stray(top);
    }
  }

  lemma ReleasedEnd(vm: Vm, d: nat, v: nat, hi: nat)
    requires Inv(vm) && HasRole(vm.owner, d, Dir) && hi <= USER_PAGES && v >= hi
    ensures Released(vm, d, v, hi) == vm
  {
  }

  lemma AllocatedEnd(vm: Vm, d: nat, lo: nat, v: nat, hi: nat)
    requires Growable(vm, d, lo, v, hi) && v >= hi
    ensures Allocated(vm, d, lo, v, hi) == (vm, true)
  {
  }

  lemma MappedStep(vm: Vm, d: nat, data: nat, k: nat, n: nat)
    requires DataPage(data) && k < 4 && Built(vm, d, data, k, n)
    ensures KernelMappable(vm, d, KernelMap(data)[k].start, KernelMap(data)[k].end)
    ensures var r := KernelMap(data)[k];
            var (vm1, ok) := KernelMapped(vm, d, r.start, r.end, r.frame, KernelFlags(r.writeable));
            && (ok ==> Built(vm1, d, data, k + 1, n) && Mapped(vm, d, data, k, n) == Mapped(vm1, d, data, k + 1, n))
            && (!ok ==> Mapped(vm, d, data, k, n) == (vm1, false))
  {
    hide Inv;
    hide Lookup;
    hide TableFor;
    hide KernelMapped;
    hide Built;
    hide IsKernelMapped;
    BuiltMappable(vm, d, data, k, n);
    var r := KernelMap(data)[k];
    KernelMappedOk(vm, d, r.start, r.end, r.frame, KernelFlags(r.writeable));
    var (vm1, ok) := KernelMapped(vm, d, r.start, r.end, r.frame, KernelFlags(r.writeable));
    BuiltStep(vm, vm1, d, data, k, n, ok);
  }

  lemma MappedEnd(vm: Vm, d: nat, data: nat, n: nat)
    requires DataPage(data) && Built(vm, d, data, 4, n)
    ensures Mapped(vm, d, data, 4, n) == (vm, true)
  {
  }

  lemma CreatedKept(vm: Vm, vm': Vm, d: nat, v: nat, f: nat, flags: Flags)
    requires IsCreated(vm, vm', d, v, f, flags, true)
    ensures OthersKept(vm, vm', d)
  {
  }

  lemma CopiedEnd(vm: Vm, p: nat, d: nat, i: nat, n: nat)
    requires Copyable(vm, p, d, i, n) && i >= n
    ensures CopiedFrom(vm, p, d, i, n) == (vm, Done)
  {
  }

  lemma Jump(a: nat)
    requires a % PAGE_SIZE == 0
    ensures (a / TABLE_SPAN + 1) * TABLE_SPAN == (a / PAGE_SIZE / ENTRIES + 1) * ENTRIES * PAGE_SIZE
    ensures (a / TABLE_SPAN + 1) * TABLE_SPAN >= a + PAGE_SIZE
  {
  }

  lemma LookupIs(vm: Vm, d: nat, v: nat)
    requires TableFor(vm.mem, d, v / ENTRIES).Some?
    ensures Lookup(vm.mem, d, v) == Seen(Entry(vm.mem, TableFor(vm.mem, d, v / ENTRIES).value, v % ENTRIES))
  {
  }
}
