/**
 Building a new address space: the kernel half that every directory has, and the copy of
 a parent's user half that `fork` makes.
 */
module SpaceCopies {
  import opened Basics
  import opened PageTables
  import opened AddressSpaces

  // ---------------------------------------------------------------- the kernel's map

  /** A line of `kernelMemoryMap`, in pages: first page, one past the last, first frame, and whether writeable. */
  datatype Range = Range(start: nat, end: nat, frame: nat, writeable: bool)

  const KERNEL_TABLES: nat := 64          // 56 for the direct map of physical memory, 8 for the devices

  /** Where the kernel's writeable data starts (`V2P(data)`, in pages) is up to the linker. */
  ghost predicate DataPage(data: nat) {
    0x100 < data < 0xE000
  }

  function KernelMap(data: nat): seq<Range> {
    [Range(0x8_0000, 0x8_0100, 0, true),
     Range(0x8_0100, 0x8_0000 + data, 0x100, false),
     Range(0x8_0000 + data, 0x8_E000, data, true),
     Range(0xF_E000, 0x10_0000, 0xF_E000, true)]
  }

  function KernelFlags(writeable: bool): Flags {
    Flags(true, writeable, false, 0)
  }

  /**
   What every directory maps page `w` of the kernel half to: physical memory, with the kernel's code and constants
   read-only, and the devices; none of it for programs.
   */
  ghost function KernelEntry(w: nat, data: nat): Option<Pte> {
    if 0x8_0000 <= w < 0x8_E000 then
      Some(Pte(w - 0x8_0000, Flags(true, w < 0x8_0100 || 0x8_0000 + data <= w, false, 0)))
    else if 0xF_E000 <= w < 0x10_0000 then Some(Pte(w, Flags(true, true, false, 0)))
    else None
  }

  /** The pages that the first `k` lines of the map cover. */
  ghost predicate Covered(w: nat, data: nat, k: nat) {
    || (0x8_0000 <= w < Top(data, k))
    || (k == 4 && 0xF_E000 <= w < 0x10_0000)
  }

  ghost function Top(data: nat, k: nat): nat {
    if k == 0 then 0x8_0000 else if k == 1 then 0x8_0100 else if k == 2 then 0x8_0000 + data else 0x8_E000
  }

  /** Directory entries in use after `k` lines: from 512 up to this, and the device tables at the end. */
  ghost function TableTop(data: nat, k: nat): nat {
    if k == 0 then 512 else (Top(data, k) - 1) / ENTRIES + 1
  }

  ghost function TablesUsed(data: nat, k: nat): nat {
    TableTop(data, k) - 512 + if k == 4 then 8 else 0
  }

  /** The state of a directory after `k` lines, when there were `n` free frames before the first. */
  ghost predicate Built(vm: Vm, d: nat, data: nat, k: nat, n: nat) {
    && Inv(vm) && HasRole(vm.owner, d, Dir)
    && n >= TablesUsed(data, k) && |vm.free| == n - TablesUsed(data, k)
    && (forall w :: 0 <= w < PAGES ==>
         Lookup(vm.mem, d, w) == if Covered(w, data, k) then KernelEntry(w, data) else None)
    && (forall i :: 0 <= i < ENTRIES ==>
         (TableFor(vm.mem, d, i).Some? <==> 512 <= i < TableTop(data, k) || (k == 4 && 1016 <= i)))
  }

  lemma BuiltMappable(vm: Vm, d: nat, data: nat, k: nat, n: nat)
    requires DataPage(data) && k < 4 && Built(vm, d, data, k, n)
    ensures KernelMappable(vm, d, KernelMap(data)[k].start, KernelMap(data)[k].end)
  {
    hide Inv;
    hide Lookup;
  }

  /** The tables that line `k` still needs. */
  lemma BuiltMissing(vm: Vm, d: nat, data: nat, k: nat, n: nat)
    requires DataPage(data) && k < 4 && Built(vm, d, data, k, n)
    ensures var r := KernelMap(data)[k];
            Missing(vm.mem, d, r.start, r.end) == TablesUsed(data, k + 1) - TablesUsed(data, k)
  {
    hide Inv;
    hide Lookup;
    hide Missing;
    var r := KernelMap(data)[k];
    forall i | r.start / ENTRIES <= i <= (r.end - 1) / ENTRIES
      ensures TableFor(vm.mem, d, i).Some? <==> i < TableTop(data, k) { }
    MissingCount(vm.mem, d, r.start, r.end, TableTop(data, k));
  }

  /** Line `k` is mapped if there are frames for its tables. */
  lemma BuiltStep(vm: Vm, vm': Vm, d: nat, data: nat, k: nat, n: nat, ok: bool)
    requires DataPage(data) && k < 4 && Built(vm, d, data, k, n)
    requires var r := KernelMap(data)[k]; IsKernelMapped(vm, vm', d, r.start, r.end, r.frame,
               KernelFlags(r.writeable), ok)
    ensures ok <==> n >= TablesUsed(data, k + 1)
    ensures ok ==> Built(vm', d, data, k + 1, n)
  {
    hide Inv;
    hide Lookup;
    hide Missing;
    hide OthersKept;
    hide TableFor;
    BuiltMissing(vm, d, data, k, n);
  }

  /** The loop of `setupKernelVirtualMemory` from line `k` on. */
  ghost function Mapped(vm: Vm, d: nat, data: nat, k: nat, n: nat): (Vm, bool)
    requires DataPage(data) && k <= 4 && Built(vm, d, data, k, n)
    decreases 4 - k
  {
    if k == 4 then (vm, true)
    else
      BuiltMappable(vm, d, data, k, n);
      var r := KernelMap(data)[k];
      KernelMappedOk(vm, d, r.start, r.end, r.frame, KernelFlags(r.writeable));
      var (vm1, ok) := KernelMapped(vm, d, r.start, r.end, r.frame, KernelFlags(r.writeable));
      if ok then
        BuiltStep(vm, vm1, d, data, k, n, ok);
        Mapped(vm1, d, data, k + 1, n)
      else (vm1, false)
  }

  lemma {:induction false} MappedOk(vm: Vm, d: nat, data: nat, k: nat, n: nat)
    requires DataPage(data) && k <= 4 && Built(vm, d, data, k, n)
    ensures var (vm', ok) := Mapped(vm, d, data, k, n);
            && (ok <==> n >= KERNEL_TABLES) && (ok ==> Built(vm', d, data, 4, n))
            && Inv(vm') && OthersKept(vm, vm', d) && Grows(vm.owner, vm'.owner, d) && HasRole(vm'.owner, d, Dir)
    decreases 4 - k
  {
    hide Inv;
    hide OthersKept;
    hide KernelMapped;
    if k == 4 {
      KeptRefl(vm, d);
    } else {
      BuiltMappable(vm, d, data, k, n);
      var r := KernelMap(data)[k];
      KernelMappedOk(vm, d, r.start, r.end, r.frame, KernelFlags(r.writeable));
      var (vm1, ok) := KernelMapped(vm, d, r.start, r.end, r.frame, KernelFlags(r.writeable));
      BuiltStep(vm, vm1, d, data, k, n, ok);
      if ok {
        MappedOk(vm1, d, data, k + 1, n);
        var vm2 := Mapped(vm1, d, data, k + 1, n).0;
        KeptTrans(vm, vm1, vm2, d);
        GrowsTrans(vm.owner, vm1.owner, vm2.owner, d);
      }
    }
  }

  // ---------------------------------------------------------------- setting up a directory

  /** `setupKernelVirtualMemory`; the directory, if there is memory for it and its tables. */
  ghost function SetUp(vm: Vm, data: nat): (Vm, Option<nat>)
    requires Inv(vm) && DataPage(data)
  {
    if vm.free == [] then (vm, None)
    else
      StartBuilt(vm, data);
      SetUpFrom(AddDir(Pop(vm), vm.free[0]), vm.free[0], data, |vm.free| - 1)
  }

  /** The same, from the zeroed directory `d` on. */
  ghost function SetUpFrom(vm: Vm, d: nat, data: nat, n: nat): (Vm, Option<nat>)
    requires DataPage(data) && Built(vm, d, data, 0, n)
  {
    MappedOk(vm, d, data, 0, n);
    var (vm1, ok) := Mapped(vm, d, data, 0, n);
    if ok then (vm1, Some(d)) else (Destroyed(vm1, d), None)
  }

  lemma StartBuilt(vm: Vm, data: nat)
    requires Inv(vm) && vm.free != [] && DataPage(data)
    ensures var d := vm.free[0];
            var vm0 := AddDir(Pop(vm), d);
            Built(vm0, d, data, 0, |vm.free| - 1) && OthersKept(vm, vm0, d) && Grows(vm.owner, vm0.owner, d) &&
              HasRole(vm.owner, d, Free)
  {
    hide Inv;
    hide OthersKept;
    hide Lookup;
    hide TableFor;
    PopInv(vm);
    AddDirInv(Pop(vm), vm.free[0]);
    PopKept(vm, AddDir(Pop(vm), vm.free[0]), vm.free[0]);
  }

  /** Nothing belongs to a directory that does not exist. */
  lemma NothingOwned(vm: Vm, d: nat, f: nat)
    requires Inv(vm) && HasRole(vm.owner, d, Free) && f in vm.owner
    ensures !Owned(vm.owner[f], f, d)
  {
    assert RoleOk(vm.mem, vm.owner, f);
  }

  /** Destroying a directory built only from free frames gives all of them back. */
  lemma DestroyRestores(vm: Vm, vm1: Vm, vm2: Vm, d: nat)
    requires Inv(vm) && HasRole(vm.owner, d, Free) && Grows(vm.owner, vm1.owner, d) && OthersKept(vm, vm1, d) &&
               IsDestroyed(vm1, vm2, d)
    ensures vm2.owner == vm.owner && OthersKept(vm, vm2, d) && |vm2.free| == |vm.free|
  {
    hide Inv;
    KeptTrans(vm, vm1, vm2, d);
    hide OthersKept;
    forall f | f in vm.owner ensures f in vm2.owner && vm2.owner[f] == vm.owner[f] {
      NothingOwned(vm, d, f);
    }
    SameFree(vm, vm2);
  }

  /**
   A directory takes 65 frames; with fewer, the call fails and every frame has the role it had before.
   */
  lemma SetUpOk(vm: Vm, data: nat)
    requires Inv(vm) && DataPage(data)
    ensures var (vm', r) := SetUp(vm, data);
            && Inv(vm')
            && (r.Some? <==> |vm.free| >= 1 + KERNEL_TABLES)
            && (r.Some? ==> Built(vm', r.value, data, 4, |vm.free| - 1) && |vm'.free| == |vm.free| - 65)
            && (r.Some? ==> HasRole(vm.owner, r.value, Free) && OthersKept(vm, vm', r.value))
            && (r.Some? ==> Grows(vm.owner, vm'.owner, r.value))
            && (r.None? ==> vm'.owner == vm.owner && |vm'.free| == |vm.free|)
            && (r.None? ==> forall e :: HasRole(vm.owner, e, Dir) ==> SameSpace(vm.mem, vm'.mem, e))
  {
    hide Inv;
    hide SameSpace;
    if vm.free == [] {
      forall e ensures SameSpace(vm.mem, vm.mem, e) { SameSpaceRefl(vm.mem, e); }
    } else {
      var d := vm.free[0];
      StartBuilt(vm, data);
      var vm0 := AddDir(Pop(vm), d);
      MappedOk(vm0, d, data, 0, |vm.free| - 1);
      var (vm1, ok) := Mapped(vm0, d, data, 0, |vm.free| - 1);
      hide Mapped;
      hide Built;
      KeptTrans(vm, vm0, vm1, d);
      GrowsTrans(vm.owner, vm0.owner, vm1.owner, d);
      if ok {
        BuiltFree(vm1, d, data, |vm.free| - 1);
      } else {
        DestroyedOk(vm1, d);
        DestroyRestores(vm, vm1, Destroyed(vm1, d), d);
      }
    }
  }

  lemma BuiltFree(vm: Vm, d: nat, data: nat, n: nat)
    requires Built(vm, d, data, 4, n)
    ensures |vm.free| == n - KERNEL_TABLES
  {
  }

  // ---------------------------------------------------------------- copying the user half

  /** Pages below `n` of the parent are mapped, and those from `i` on are not yet mapped in the child. */
  ghost predicate Copyable(vm: Vm, p: nat, d: nat, i: nat, n: nat) {
    && Inv(vm) && HasRole(vm.owner, p, Dir) && HasRole(vm.owner, d, Dir) && p != d && i <= n <= USER_PAGES
    && (forall w :: 0 <= w < n ==> Lookup(vm.mem, p, w).Some?)
    && (forall w :: i <= w < n ==> Lookup(vm.mem, d, w).None?)
  }

  /** What a copy can come to: done, out of frames, or out of frames with a page in hand. */
  datatype Outcome = Done | Short | Lost

  /** The page's contents as they are in the parent. */
  ghost function ParentPage(vm: Vm, p: nat, i: nat): Pte
    requires Lookup(vm.mem, p, i).Some?
  {
    Lookup(vm.mem, p, i).value
  }

  lemma ParentData(vm: Vm, p: nat, d: nat, i: nat, n: nat)
    requires Copyable(vm, p, d, i, n) && i < n
    ensures Lookup(vm.mem, p, i).Some? && |Bytes(vm.mem, ParentPage(vm, p, i).frame)| == PAGE_SIZE &&
              ParentPage(vm, p, i).flags.present
    ensures IsData(vm.mem, ParentPage(vm, p, i).frame)
  {
    PageRole(vm, p, i);
  }

  /** The loop of `copyProcessPageTable` from page `i` on. */
  ghost function CopiedFrom(vm: Vm, p: nat, d: nat, i: nat, n: nat): (Vm, Outcome)
    requires Copyable(vm, p, d, i, n)
    decreases n - i
  {
    if i >= n then (vm, Done)
    else if vm.free == [] then (Destroyed(vm, d), Short)
    else
      ParentData(vm, p, d, i, n);
      var e := ParentPage(vm, p, i);
      var f := vm.free[0];
      PreparedOk(vm, Data(Bytes(vm.mem, e.frame)), d, i);
      var vm1 := Prepared(vm, Data(Bytes(vm.mem, e.frame)));
      CreatedOk(vm1, d, i, f, e.flags);
      var (vm2, ok) := Created(vm1, d, i, f, e.flags);
      if ok then
        StillCopyable(vm, vm1, vm2, p, d, i, n, f, e.flags);
        CopiedFrom(vm2, p, d, i + 1, n)
      else
        CreatedInv(vm1, vm2, d, i, f, e.flags);
        (Destroyed(vm2, d), Lost)
  }

  lemma CreatedInv(vm1: Vm, vm2: Vm, d: nat, i: nat, f: nat, flags: Flags)
    requires IsCreated(vm1, vm2, d, i, f, flags, false)
    ensures Inv(vm2) && HasRole(vm2.owner, d, Dir)
  {
  }

  lemma KeptLookup(vm: Vm, vm': Vm, d: nat, p: nat, w: nat)
    requires OthersKept(vm, vm', d) && HasRole(vm.owner, p, Dir) && p != d && w < PAGES
    ensures HasRole(vm'.owner, p, Dir) && Lookup(vm'.mem, p, w) == Lookup(vm.mem, p, w)
    ensures w < USER_PAGES && Lookup(vm.mem, p, w).Some? ==>
              Bytes(vm'.mem, Lookup(vm.mem, p, w).value.frame) == Bytes(vm.mem, Lookup(vm.mem, p, w).value.frame)
  {
    assert SameSpace(vm.mem, vm'.mem, p);
  }

  lemma StillCopyable(vm: Vm, vm1: Vm, vm2: Vm, p: nat, d: nat, i: nat, n: nat, f: nat, flags: Flags)
    requires Copyable(vm, p, d, i, n) && i < n
    requires OthersKept(vm, vm1, d) && SameSpace(vm.mem, vm1.mem, d) && IsCreated(vm1, vm2, d, i, f, flags, true)
    ensures Copyable(vm2, p, d, i + 1, n)
  {
    hide Inv;
    hide Lookup;
    KeptTrans(vm, vm1, vm2, d);
    KeptLookup(vm, vm2, d, p, 0);
    hide OthersKept;
    forall w | 0 <= w < n ensures Lookup(vm2.mem, p, w).Some? {
      assert Lookup(vm.mem, p, w).Some?;
      KeptLookup(vm, vm2, d, p, w);
    }
    forall w | i + 1 <= w < n ensures Lookup(vm2.mem, d, w).None? {
      assert Lookup(vm.mem, d, w).None?;
      SameLookup(vm.mem, vm1.mem, d, w);
    }
  }

  /** Page `w` of the child holds the parent's bytes with the parent's flags, on a frame that was free. */
  ghost predicate PageCopied(vm: Vm, vm': Vm, p: nat, d: nat, w: nat) {
    var e, e' := Lookup(vm.mem, p, w), Lookup(vm'.mem, d, w);
    && e.Some? && e'.Some? && e'.value.flags == e.value.flags
    && Bytes(vm'.mem, e'.value.frame) == Bytes(vm.mem, e.value.frame)
    && HasRole(vm.owner, e'.value.frame, Free)
  }

  ghost predicate IsCopied(vm: Vm, vm': Vm, p: nat, d: nat, i: nat, n: nat) {
    && Inv(vm') && OthersKept(vm, vm', d) && Grows(vm.owner, vm'.owner, d) && HasRole(vm'.owner, d, Dir)
    && (forall w :: 0 <= w < PAGES && !(i <= w < n) ==> Lookup(vm'.mem, d, w) == Lookup(vm.mem, d, w))
    && (forall w :: i <= w < n ==> PageCopied(vm, vm', p, d, w))
    && (forall g :: g in vm.owner && vm.owner[g].PageOf? ==> Bytes(vm'.mem, g) == Bytes(vm.mem, g))
  }

  /** The child is gone: its frames are free, except for `lost` when there is one. */
  ghost predicate IsAbandoned(vm: Vm, vm': Vm, d: nat, lost: Option<nat>) {
    && Inv(vm') && OthersKept(vm, vm', d) && vm'.owner.Keys == vm.owner.Keys
    && (lost.Some? ==> HasRole(vm.owner, lost.value, Free) && HasRole(vm'.owner, lost.value, Held))
    && (forall f :: f in vm.owner && f in vm'.owner && Some(f) != lost ==>
         vm'.owner[f] == if Owned(vm.owner[f], f, d) then Free else vm.owner[f])
  }

  lemma CopiedNone(vm: Vm, p: nat, d: nat, i: nat, n: nat)
    requires Copyable(vm, p, d, i, n) && i >= n
    ensures IsCopied(vm, vm, p, d, i, n)
  {
    hide Inv;
    KeptRefl(vm, d);
  }

  /** A page prepared with the parent's bytes and mapped in the child. */
  ghost predicate CopyStep(vm: Vm, vm1: Vm, vm2: Vm, p: nat, d: nat, i: nat, f: nat, ok: bool) {
    && Lookup(vm.mem, p, i).Some? && IsCreated(vm1, vm2, d, i, f, Lookup(vm.mem, p, i).value.flags, ok)
    && HasRole(vm.owner, f, Free) && vm1.owner == vm.owner[f := Held] && Lookup(vm.mem, p, i).value.flags.present
    && OthersKept(vm, vm1, d) && SameSpace(vm.mem, vm1.mem, d)
    && Bytes(vm1.mem, f) == Bytes(vm.mem, Lookup(vm.mem, p, i).value.frame)
    && (forall g :: g in vm.owner && vm.owner[g].PageOf? ==> Bytes(vm1.mem, g) == Bytes(vm.mem, g))
  }

  lemma IsCopyStep(vm: Vm, vm1: Vm, vm2: Vm, p: nat, d: nat, i: nat, f: nat, ok: bool)
    requires Lookup(vm.mem, p, i).Some? && IsCreated(vm1, vm2, d, i, f, ParentPage(vm, p, i).flags, ok)
    requires HasRole(vm.owner, f, Free) && vm1.owner == vm.owner[f := Held] && ParentPage(vm, p, i).flags.present
    requires OthersKept(vm, vm1, d) && SameSpace(vm.mem, vm1.mem, d)
    requires Bytes(vm1.mem, f) == Bytes(vm.mem, ParentPage(vm, p, i).frame)
    requires forall g :: g in vm.owner && vm.owner[g].PageOf? ==> Bytes(vm1.mem, g) == Bytes(vm.mem, g)
    ensures CopyStep(vm, vm1, vm2, p, d, i, f, ok)
  {
    hide IsCreated;
    hide SameSpace;
    hide OthersKept;
    hide Lookup;
    hide Bytes;
  }

  lemma CopiedPage(vm: Vm, vm1: Vm, vm2: Vm, vm3: Vm, p: nat, d: nat, i: nat, n: nat, f: nat, w: nat)
    requires Copyable(vm, p, d, i, n) && i < n && CopyStep(vm, vm1, vm2, p, d, i, f, true) &&
               IsCopied(vm2, vm3, p, d, i + 1, n)
    requires OthersKept(vm, vm2, d) && i <= w < n
    ensures PageCopied(vm, vm3, p, d, w)
  {
    hide Inv;
    KeptLookup(vm, vm2, d, p, w);
    hide OthersKept;
    hide SameSpace;
    hide Lookup;
    hide Bytes;
    if w > i {
      assert PageCopied(vm2, vm3, p, d, w);
      assert HasRole(vm2.owner, Lookup(vm3.mem, d, w).value.frame, Free);
    } else {
      assert Lookup(vm3.mem, d, w) == Lookup(vm2.mem, d, w);
    }
  }

  lemma CopyGrows(vm: Vm, vm1: Vm, vm2: Vm, p: nat, d: nat, i: nat, f: nat)
    requires CopyStep(vm, vm1, vm2, p, d, i, f, true)
    ensures Grows(vm.owner, vm2.owner, d)
    ensures forall g :: g in vm.owner && vm.owner[g].PageOf? ==>
              g in vm2.owner && vm2.owner[g] == vm.owner[g] && Bytes(vm2.mem, g) == Bytes(vm.mem, g)
  {
    hide Inv;
    hide OthersKept;
    hide SameSpace;
    hide Lookup;
    hide Bytes;
  }

  lemma CopiedStep(vm: Vm, vm1: Vm, vm2: Vm, vm3: Vm, p: nat, d: nat, i: nat, n: nat, f: nat)
    requires Copyable(vm, p, d, i, n) && i < n && CopyStep(vm, vm1, vm2, p, d, i, f, true) &&
               IsCopied(vm2, vm3, p, d, i + 1, n)
    ensures IsCopied(vm, vm3, p, d, i, n)
  {
    hide Inv;
    hide OthersKept;
    hide PageCopied;
    hide SameSpace;
    hide Lookup;
    hide Bytes;
    KeptTrans(vm, vm1, vm2, d);
    KeptTrans(vm, vm2, vm3, d);
    CopyGrows(vm, vm1, vm2, p, d, i, f);
    GrowsTrans(vm.owner, vm2.owner, vm3.owner, d);
    hide Grows;
    forall w | i <= w < n ensures PageCopied(vm, vm3, p, d, w) {
      CopiedPage(vm, vm1, vm2, vm3, p, d, i, n, f, w);
    }
    forall w | 0 <= w < PAGES
      ensures Lookup(vm1.mem, d, w) == Lookup(vm.mem, d, w) { SameLookup(vm.mem, vm1.mem, d, w); }
  }

  lemma AbandonedStep(vm: Vm, vm1: Vm, vm2: Vm, vm3: Vm, p: nat, d: nat, i: nat, n: nat, f: nat, lost: Option<nat>)
    requires Copyable(vm, p, d, i, n) && i < n && CopyStep(vm, vm1, vm2, p, d, i, f, true) &&
               IsAbandoned(vm2, vm3, d, lost)
    ensures IsAbandoned(vm, vm3, d, lost)
  {
    hide Inv;
    KeptTrans(vm, vm1, vm2, d);
    KeptTrans(vm, vm2, vm3, d);
    hide OthersKept;
    hide SameSpace;
    hide Lookup;
    hide Bytes;
    hide Copyable;
  }

  lemma AbandonedHere(vm: Vm, d: nat)
    requires Inv(vm) && HasRole(vm.owner, d, Dir)
    ensures IsAbandoned(vm, Destroyed(vm, d), d, None)
  {
    DestroyedOk(vm, d);
    hide Inv;
    hide OthersKept;
    hide Destroyed;
  }

  lemma AbandonedFull(vm: Vm, vm1: Vm, vm2: Vm, p: nat, d: nat, i: nat, n: nat, f: nat)
    requires Copyable(vm, p, d, i, n) && i < n && CopyStep(vm, vm1, vm2, p, d, i, f, false)
    ensures Inv(vm2) && HasRole(vm2.owner, d, Dir) && IsAbandoned(vm, Destroyed(vm2, d), d, Some(f))
  {
    hide Inv;
    DestroyedOk(vm2, d);
    hide Destroyed;
    KeptTrans(vm, vm1, vm2, d);
    KeptTrans(vm, vm2, Destroyed(vm2, d), d);
    hide OthersKept;
    hide SameSpace;
    hide Lookup;
    hide Bytes;
  }

  // ---------------------------------------------------------------- how a copy ends

  /** The child's user tables are those of the pages below `i`. */
  ghost predicate TablesTo(mem: Memory, d: nat, i: nat) {
    forall j :: 0 <= j < USER_TABLES ==> (TableFor(mem, d, j).Some? <==> j * ENTRIES < i)
  }

  /** The end of the copy, from the number of free frames alone: a frame a page, and one more at each new table. */
  ghost function Fate(free: nat, i: nat, n: nat): Outcome
    decreases n - i
  {
    if i >= n then Done
    else if free == 0 then Short
    else if i % ENTRIES != 0 then Fate(free - 1, i + 1, n)
    else if free == 1 then Lost
    else Fate(free - 2, i + 1, n)
  }

  lemma FateStep(free: nat, i: nat, n: nat)
    ensures i >= n ==> Fate(free, i, n) == Done
    ensures i < n && free == 0 ==> Fate(free, i, n) == Short
    ensures i < n && free == 1 && i % ENTRIES == 0 ==> Fate(free, i, n) == Lost
    ensures i < n && free > 0 && i % ENTRIES != 0 ==> Fate(free, i, n) == Fate(free - 1, i + 1, n)
    ensures i < n && free > 1 && i % ENTRIES == 0 ==> Fate(free, i, n) == Fate(free - 2, i + 1, n)
  {
  }

  /** Frames used by the first `i` pages and their tables. */
  ghost function Used(i: nat): nat {
    i + (i + ENTRIES - 1) / ENTRIES
  }

  lemma UsedStep(i: nat)
    ensures Used(i + 1) == Used(i) + if i % ENTRIES == 0 then 2 else 1
  {
  }

  /** The first page of table `k` is reached with one frame left. */
  ghost predicate LostAt(free: int, n: nat, k: nat) {
    ENTRIES * k < n && free == (ENTRIES + 1) * k + 1
  }

  ghost predicate Leaks(free: int, n: nat) {
    exists k :: LostAt(free, n, k)
  }

  lemma {:induction false} UsedGrows(i: nat, n: nat)
    requires i <= n
    ensures Used(i) <= Used(n)
    decreases n - i
  {
    if i < n {
      UsedStep(i);
      UsedGrows(i + 1, n);
    }
  }

  lemma {:induction false} FateOf(free: nat, i: nat, n: nat)
    requires i <= n && free >= Used(i)
    ensures Fate(free - Used(i), i, n) == Done <==> free >= Used(n)
    ensures Fate(free - Used(i), i, n) == Lost <==> Leaks(free, n)
    decreases n - i
  {
    if i < n {
      UsedStep(i);
      UsedGrows(i + 1, n);
      if free >= Used(i + 1) {
        FateOf(free, i + 1, n);
      } else if free > Used(i) {
        assert LostAt(free, n, i / ENTRIES);
      } else {
        forall k ensures !LostAt(free, n, k) { NotLost(free, i, n, k); }
      }
    } else {
      forall k ensures !LostAt(free, n, k) { NotLost(free, i, n, k); }
    }
  }

  /** No page is lost when the frames run out, or the pages do, between pages. */
  lemma NotLost(free: nat, i: nat, n: nat, k: nat)
    requires i <= n && free >= Used(i) && (free == Used(i) || i == n)
    ensures !LostAt(free, n, k)
  {
    assert (ENTRIES * k + ENTRIES - 1) / ENTRIES == k;
    UsedStep(ENTRIES * k);
    if ENTRIES * k < i { UsedGrows(ENTRIES * k + 1, i); } else { UsedGrows(i, ENTRIES * k); }
  }

  lemma TablesStep(vm: Vm, vm1: Vm, vm2: Vm, p: nat, d: nat, i: nat, f: nat)
    requires CopyStep(vm, vm1, vm2, p, d, i, f, true) && i < USER_PAGES && TablesTo(vm.mem, d, i)
    requires forall j :: 0 <= j < ENTRIES ==> TableFor(vm1.mem, d, j) == TableFor(vm.mem, d, j)
    ensures TablesTo(vm2.mem, d, i + 1)
  {
    hide Inv;
    hide OthersKept;
    hide SameSpace;
    hide Lookup;
    hide Bytes;
    hide TableFor;
    forall j | 0 <= j < USER_TABLES ensures TableFor(vm2.mem, d, j).Some? <==> j * ENTRIES < i + 1 {
      if j != i / ENTRIES { assert TableFor(vm2.mem, d, j) == TableFor(vm.mem, d, j); }
    }
  }

  ghost predicate CopyEnds(vm: Vm, vm': Vm, p: nat, d: nat, i: nat, n: nat, o: Outcome) {
    && (o == Done ==> IsCopied(vm, vm', p, d, i, n))
    && (o == Short ==> IsAbandoned(vm, vm', d, None))
    && (o == Lost ==> exists f :: IsAbandoned(vm, vm', d, Some(f)))
  }

  /** The copy ends as the count of frames says, and each end leaves what it should. */
  lemma {:induction false} CopiedFromOk(vm: Vm, p: nat, d: nat, i: nat, n: nat)
    requires Copyable(vm, p, d, i, n) && TablesTo(vm.mem, d, i)
    ensures var (vm', o) := CopiedFrom(vm, p, d, i, n); o == Fate(|vm.free|, i, n) && CopyEnds(vm, vm', p, d, i, n, o)
    decreases n - i
  {
    hide Inv;
    hide OthersKept;
    hide SameSpace;
    hide IsCreated;
    hide IsCopied;
    hide IsAbandoned;
    hide Destroyed;
    hide Bytes;
    hide Fate;
    hide CopyStep;
    hide TablesTo;
    FateStep(|vm.free|, i, n);
    if i >= n {
      CopiedNone(vm, p, d, i, n);
    } else if vm.free == [] {
      AbandonedHere(vm, d);
    } else {
      ParentData(vm, p, d, i, n);
      var e := ParentPage(vm, p, i);
      var f := vm.free[0];
      PreparedOk(vm, Data(Bytes(vm.mem, e.frame)), d, i);
      var vm1 := Prepared(vm, Data(Bytes(vm.mem, e.frame)));
      CreatedOk(vm1, d, i, f, e.flags);
      var (vm2, ok) := Created(vm1, d, i, f, e.flags);
      IsCopyStep(vm, vm1, vm2, p, d, i, f, ok);
      CopyCount(vm, vm1, vm2, p, d, i, f, ok);
      if ok {
        StillCopyable(vm, vm1, vm2, p, d, i, n, f, e.flags);
        TablesStep(vm, vm1, vm2, p, d, i, f);
        CopiedFromOk(vm2, p, d, i + 1, n);
        var (vm3, o) := CopiedFrom(vm2, p, d, i + 1, n);
        CopyEndsStep(vm, vm1, vm2, vm3, p, d, i, n, f, o);
      } else {
        AbandonedFull(vm, vm1, vm2, p, d, i, n, f);
      }
    }
  }

  lemma CopyCount(vm: Vm, vm1: Vm, vm2: Vm, p: nat, d: nat, i: nat, f: nat, ok: bool)
    requires CopyStep(vm, vm1, vm2, p, d, i, f, ok) && i < USER_PAGES && TablesTo(vm.mem, d, i)
    requires TableFor(vm1.mem, d, i / ENTRIES) == TableFor(vm.mem, d, i / ENTRIES) && |vm1.free| == |vm.free| - 1
    ensures ok <==> i % ENTRIES != 0 || |vm.free| > 1
    ensures ok ==> |vm2.free| == |vm.free| - if i % ENTRIES == 0 then 2 else 1
  {
    hide Inv;
    hide OthersKept;
    hide SameSpace;
    hide Lookup;
    hide Bytes;
    hide TableFor;
    assert TableFor(vm.mem, d, i / ENTRIES).Some? <==> i / ENTRIES * ENTRIES < i;
  }

  lemma CopyEndsStep(vm: Vm, vm1: Vm, vm2: Vm, vm3: Vm, p: nat, d: nat, i: nat, n: nat, f: nat, o: Outcome)
    requires Copyable(vm, p, d, i, n) && i < n && CopyStep(vm, vm1, vm2, p, d, i, f, true) &&
               CopyEnds(vm2, vm3, p, d, i + 1, n, o)
    ensures CopyEnds(vm, vm3, p, d, i, n, o)
  {
    hide IsCopied;
    hide IsAbandoned;
    hide CopyStep;
    hide Copyable;
    match o
    case Done => CopiedStep(vm, vm1, vm2, vm3, p, d, i, n, f);
    case Short => AbandonedStep(vm, vm1, vm2, vm3, p, d, i, n, f, None);
    case Lost =>
      var g :| IsAbandoned(vm2, vm3, d, Some(g));
      AbandonedStep(vm, vm1, vm2, vm3, p, d, i, n, f, Some(g));
  }

  // ---------------------------------------------------------------- the whole copy

  /** The first `n` pages of directory `p` are mapped. */
  ghost predicate AllPresent(vm: Vm, p: nat, n: nat) {
    Inv(vm) && HasRole(vm.owner, p, Dir) && n <= USER_PAGES && forall w :: 0 <= w < n ==> Lookup(vm.mem, p, w).Some?
  }

  /** The first page from `i` on that directory `p` does not map, up to `n`. */
  ghost function FirstMissing(mem: Memory, p: nat, i: nat, n: nat): (m: nat)
    requires i <= n
    ensures i <= m <= n && (forall w :: i <= w < m ==> Lookup(mem, p, w).Some?)
    ensures m < n ==> Lookup(mem, p, m).None?
    decreases n - i
  {
    if i == n || Lookup(mem, p, i).None? then i else FirstMissing(mem, p, i + 1, n)
  }

  /** `copyProcessPageTable`: the child, if the copy succeeds, and how it ended. */
  ghost function Copied(vm: Vm, p: nat, n: nat, data: nat): (Vm, Option<nat>, Outcome)
    requires AllPresent(vm, p, n) && DataPage(data)
  {
    SetUpOk(vm, data);
    var (vm1, r) := SetUp(vm, data);
    if r.None? then (vm1, None, Short)
    else
      SetUpCopyable(vm, vm1, p, r.value, n, data);
      var (vm2, o) := CopiedFrom(vm1, p, r.value, 0, n);
      (vm2, if o == Done then r else None, o)
  }

  lemma SetUpCopyable(vm: Vm, vm1: Vm, p: nat, d: nat, n: nat, data: nat)
    requires AllPresent(vm, p, n) && DataPage(data) && |vm.free| > 0 && Built(vm1, d, data, 4, |vm.free| - 1)
    requires HasRole(vm.owner, d, Free) && OthersKept(vm, vm1, d)
    ensures Copyable(vm1, p, d, 0, n) && TablesTo(vm1.mem, d, 0)
  {
    hide Inv;
    hide Lookup;
    hide TableFor;
    KeptLookup(vm, vm1, d, p, 0);
    hide OthersKept;
    forall w | 0 <= w < n ensures Lookup(vm1.mem, p, w).Some? { KeptLookup(vm, vm1, d, p, w); }
  }

  /** The child has the parent's pages below `n`, none above, and the kernel half that every directory has. */
  ghost predicate IsChild(vm: Vm, vm': Vm, p: nat, d: nat, n: nat, data: nat) {
    && HasRole(vm.owner, d, Free) && HasRole(vm'.owner, d, Dir)
    && (forall w :: 0 <= w < n ==> PageCopied(vm, vm', p, d, w))
    && (forall w :: n <= w < USER_PAGES ==> Lookup(vm'.mem, d, w).None?)
    && (forall w :: USER_PAGES <= w < PAGES ==> Lookup(vm'.mem, d, w) == KernelEntry(w, data))
  }

  /** Every directory there was is still there, with its mapping and its bytes. */
  ghost predicate AllKept(vm: Vm, vm': Vm) {
    forall e :: HasRole(vm.owner, e, Dir) ==> HasRole(vm'.owner, e, Dir) && SameSpace(vm.mem, vm'.mem, e)
  }

  lemma NewDirKept(vm: Vm, vm': Vm, d: nat)
    requires HasRole(vm.owner, d, Free) && OthersKept(vm, vm', d)
    ensures AllKept(vm, vm')
  {
  }

  lemma ChildPage(vm: Vm, vm1: Vm, vm2: Vm, p: nat, d: nat, n: nat, w: nat)
    requires AllPresent(vm, p, n) && OthersKept(vm, vm1, d) && HasRole(vm.owner, d, Free) &&
               Grows(vm.owner, vm1.owner, d)
    requires w < n && PageCopied(vm1, vm2, p, d, w)
    ensures PageCopied(vm, vm2, p, d, w)
  {
    hide Inv;
    KeptLookup(vm, vm1, d, p, w);
  }

  lemma ChildOk(vm: Vm, vm1: Vm, vm2: Vm, p: nat, d: nat, n: nat, data: nat)
    requires AllPresent(vm, p, n) && DataPage(data) && |vm.free| > 0 && Built(vm1, d, data, 4, |vm.free| - 1)
    requires HasRole(vm.owner, d, Free) && OthersKept(vm, vm1, d) && Grows(vm.owner, vm1.owner, d)
    requires IsCopied(vm1, vm2, p, d, 0, n)
    ensures IsChild(vm, vm2, p, d, n, data) && Inv(vm2) && AllKept(vm, vm2) && Grows(vm.owner, vm2.owner, d)
  {
    hide Inv;
    hide OthersKept;
    hide PageCopied;
    hide Lookup;
    hide TableFor;
    hide AllKept;
    hide AllPresent;
    KeptTrans(vm, vm1, vm2, d);
    GrowsTrans(vm.owner, vm1.owner, vm2.owner, d);
    hide Grows;
    NewDirKept(vm, vm2, d);
    forall w | 0 <= w < n ensures PageCopied(vm, vm2, p, d, w) {
      ChildPage(vm, vm1, vm2, p, d, n, w);
    }
    CopySmall(vm, p, n);
  }

  lemma CopySmall(vm: Vm, p: nat, n: nat)
    requires AllPresent(vm, p, n)
    ensures n <= USER_PAGES
  {
  }

  /** A copy that was given up leaves the roles of all frames as they were, except for a lost page. */
  lemma AbandonedRoles(vm: Vm, vm1: Vm, vm2: Vm, d: nat, lost: Option<nat>)
    requires Inv(vm) && HasRole(vm.owner, d, Free) && Grows(vm.owner, vm1.owner, d) && OthersKept(vm, vm1, d)
    requires IsAbandoned(vm1, vm2, d, lost)
    ensures Inv(vm2) && AllKept(vm, vm2)
    ensures lost.None? ==> vm2.owner == vm.owner
    ensures lost.Some? ==> HasRole(vm.owner, lost.value, Free) && vm2.owner == vm.owner[lost.value := Held]
  {
    hide Inv;
    hide OthersKept;
    hide AllKept;
    KeptTrans(vm, vm1, vm2, d);
    NewDirKept(vm, vm2, d);
    forall f | f in vm.owner ensures !Owned(vm.owner[f], f, d) { NothingOwned(vm, d, f); }
  }

  /** The failure on vm.c:413-417: exactly one frame has been lost to the free list for ever. */
  ghost predicate LosesFrame(vm: Vm, vm': Vm) {
    exists f :: HasRole(vm.owner, f, Free) && vm'.owner == vm.owner[f := Held]
  }

  /**
   A copy succeeds exactly when there are 65 frames for the kernel half, one for every page and one for
   every 1024 of them; it then agrees with the parent on every byte and flag, on frames of its own.
   */
  lemma CopySucceeds(vm: Vm, p: nat, n: nat, data: nat)
    requires AllPresent(vm, p, n) && DataPage(data)
    ensures var (vm', r, _) := Copied(vm, p, n, data);
            && Inv(vm') && AllKept(vm, vm')
            && (r.Some? <==> |vm.free| >= 65 + Used(n))
            && (r.Some? ==> IsChild(vm, vm', p, r.value, n, data))
  {
    hide AllKept;
    hide IsChild;
    CopyCases(vm, p, n, data);
  }

  /**
   A copy that fails gives back every frame but one in exactly these cases: the frames ran out when a new
   page table was needed for a page already copied.
   */
  lemma CopyLoses(vm: Vm, p: nat, n: nat, data: nat)
    requires AllPresent(vm, p, n) && DataPage(data)
    ensures var (vm', r, _) := Copied(vm, p, n, data);
            && (r.None? ==> vm'.owner == vm.owner || LosesFrame(vm, vm'))
            && (r.None? && LosesFrame(vm, vm') <==> Leaks(|vm.free| - 65, n))
  {
    CopyCases(vm, p, n, data);
  }

  lemma CopyCases(vm: Vm, p: nat, n: nat, data: nat)
    requires AllPresent(vm, p, n) && DataPage(data)
    ensures var (vm', r, o) := Copied(vm, p, n, data);
            && Inv(vm') && AllKept(vm, vm')
            && (r.Some? <==> o == Done)
            && (r.Some? ==> IsChild(vm, vm', p, r.value, n, data) && Grows(vm.owner, vm'.owner, r.value))
            && (o == Short ==> vm'.owner == vm.owner)
            && (o == Lost ==> LosesFrame(vm, vm'))
            && (o == Done <==> |vm.free| >= 65 + Used(n))
            && (o == Lost <==> Leaks(|vm.free| - 65, n))
  {
    hide Inv;
    hide OthersKept;
    hide SameSpace;
    hide Built;
    hide Grows;
    hide SetUp;
    hide CopiedFrom;
    hide IsCopied;
    hide IsAbandoned;
    hide Copyable;
    SetUpOk(vm, data);
    var (vm1, r) := SetUp(vm, data);
    if r.Some? {
      var d := r.value;
      SetUpCopyable(vm, vm1, p, d, n, data);
      CopiedFromOk(vm1, p, d, 0, n);
      var (vm2, o) := CopiedFrom(vm1, p, d, 0, n);
      FateOf(|vm1.free|, 0, n);
      match o
      case Done => ChildOk(vm, vm1, vm2, p, d, n, data);
      case Short => AbandonedRoles(vm, vm1, vm2, d, None);
      case Lost =>
        var f :| IsAbandoned(vm1, vm2, d, Some(f));
        AbandonedRoles(vm, vm1, vm2, d, Some(f));
    }
  }

  // ---------------------------------------------------------------- writes after the copy

  /** A program stores into page `v` of its own address space. */
  ghost function Stored(vm: Vm, d: nat, v: nat, bytes: seq<Byte>): Vm
    requires Lookup(vm.mem, d, v).Some?
  {
    vm.(mem := vm.mem[Lookup(vm.mem, d, v).value.frame := Data(bytes)])
  }

  /** A store changes the bytes of one page of one address space. */
  lemma StoreStays(vm: Vm, d: nat, v: nat, bytes: seq<Byte>)
    requires Inv(vm) && HasRole(vm.owner, d, Dir) && v < USER_PAGES && Lookup(vm.mem, d, v).Some? &&
               |bytes| == PAGE_SIZE
    ensures var vm' := Stored(vm, d, v, bytes);
            && Inv(vm') && OthersKept(vm, vm', d) && vm'.owner == vm.owner
            && (forall w :: 0 <= w < PAGES ==> Lookup(vm'.mem, d, w) == Lookup(vm.mem, d, w))
            && Bytes(vm'.mem, Lookup(vm.mem, d, v).value.frame) == bytes
            && (forall w :: 0 <= w < USER_PAGES && w != v && Lookup(vm.mem, d, w).Some? ==>
                 Bytes(vm'.mem, Lookup(vm.mem, d, w).value.frame) == Bytes(vm.mem, Lookup(vm.mem, d, w).value.frame))
  {
    hide RoleOk;
    hide FreeOk;
    hide Linked;
    PageRole(vm, d, v);
    var f := Lookup(vm.mem, d, v).value.frame;
    var vm' := Stored(vm, d, v, bytes);
    LinkedKept(vm, vm'.mem);
    OthersFrame(vm, vm', {f}, d);
    forall w | 0 <= w < PAGES
      ensures Lookup(vm'.mem, d, w) == Lookup(vm.mem, d, w) { StoreLookup(vm, d, v, bytes, d, w); }
    forall w | 0 <= w < USER_PAGES && w != v && Lookup(vm.mem, d, w).Some?
      ensures Lookup(vm.mem, d, w).value.frame != f { PageRole(vm, d, w); }
    forall g | g in vm'.owner ensures RoleOk(vm'.mem, vm'.owner, g) { StoreRole(vm, d, v, bytes, g); }
  }

  lemma StoreLookup(vm: Vm, d: nat, v: nat, bytes: seq<Byte>, e: nat, w: nat)
    requires Inv(vm) && HasRole(vm.owner, d, Dir) && v < USER_PAGES && Lookup(vm.mem, d, v).Some? &&
               HasRole(vm.owner, e, Dir) && w < PAGES
    ensures Lookup(Stored(vm, d, v, bytes).mem, e, w) == Lookup(vm.mem, e, w)
  {
    PageRole(vm, d, v);
    assert RoleOk(vm.mem, vm.owner, e);
    if TableFor(vm.mem, e, w / ENTRIES).Some? { TableRole(vm, e, w / ENTRIES); }
  }

  lemma StoreRole(vm: Vm, d: nat, v: nat, bytes: seq<Byte>, g: nat)
    requires Inv(vm) && HasRole(vm.owner, d, Dir) && v < USER_PAGES && Lookup(vm.mem, d, v).Some? &&
               |bytes| == PAGE_SIZE && g in vm.owner
    ensures RoleOk(Stored(vm, d, v, bytes).mem, vm.owner, g)
  {
    PageRole(vm, d, v);
    assert RoleOk(vm.mem, vm.owner, g);
    var vm' := Stored(vm, d, v, bytes);
    if g == Lookup(vm.mem, d, v).value.frame {
      StoreLookup(vm, d, v, bytes, d, v);
      MappedRole(vm', d, v, g);
    } else {
      if vm.owner[g].PageOf? { StoreLookup(vm, d, v, bytes, vm.owner[g].dir, vm.owner[g].page); }
      RoleFrame(vm, vm', g);
    }
  }

  datatype Store = Store(dir: nat, page: nat, bytes: seq<Byte>)

  /** Stores by programs, each to a mapped page of its own directory. */
  ghost predicate CanStore(vm: Vm, s: Store) {
    HasRole(vm.owner, s.dir, Dir) && s.page < USER_PAGES && Lookup(vm.mem, s.dir, s.page).Some? &&
      |s.bytes| == PAGE_SIZE
  }

  /** A run of stores by any programs other than `e`'s. */
  ghost predicate StoreRun(run: seq<Vm>, stores: seq<Store>, e: nat) {
    && |run| == |stores| + 1
    && forall k :: 0 <= k < |stores| ==>
         CanStore(run[k], stores[k]) && stores[k].dir != e &&
           run[k + 1] == Stored(run[k], stores[k].dir, stores[k].page, stores[k].bytes)
  }

  /** Whatever the others write, and however often, address space `e` stays as it is. */
  lemma {:induction false} StoresNeverShow(run: seq<Vm>, stores: seq<Store>, e: nat, k: nat)
    requires StoreRun(run, stores, e) && Inv(run[0]) && HasRole(run[0].owner, e, Dir) && k < |run|
    ensures Inv(run[k]) && HasRole(run[k].owner, e, Dir) && SameSpace(run[0].mem, run[k].mem, e)
  {
    hide Inv;
    hide SameSpace;
    if k == 0 {
      SameSpaceRefl(run[0].mem, e);
    } else {
      StoresNeverShow(run, stores, e, k - 1);
      var s := stores[k - 1];
      StoreStays(run[k - 1], s.dir, s.page, s.bytes);
      assert run[k] == Stored(run[k - 1], s.dir, s.page, s.bytes);
      SpaceTrans(run[0].mem, run[k - 1].mem, run[k].mem, e);
    }
  }

  // ---------------------------------------------------------------- growing and shrinking a process

  /** A process of `size` bytes has no pages but those that hold them. */
  ghost predicate Bounded(vm: Vm, d: nat, size: nat) {
    && size < KERNBASE && Inv(vm) && HasRole(vm.owner, d, Dir)
    && forall w :: RoundUp(size) <= w < USER_PAGES ==> Lookup(vm.mem, d, w).None?
  }

  ghost predicate PresentBelow(mem: Memory, d: nat, n: nat) {
    forall w :: 0 <= w < n ==> Lookup(mem, d, w).Some?
  }

  /** A process of `size` bytes has exactly the pages that hold them. */
  ghost predicate Fits(vm: Vm, d: nat, size: nat) {
    Bounded(vm, d, size) && PresentBelow(vm.mem, d, RoundUp(size))
  }

  /** `growProcess`: memory, the new `MemorySize`, and whether the call succeeded.  Sizes are 32-bit. */
  ghost function Resized(vm: Vm, d: nat, size: nat, n: int): (Vm, nat, bool)
    requires Bounded(vm, d, size)
  {
    if n > 0 then
      if size + n >= KERNBASE then (vm, size, false)
      else
        var (vm', ok) := Allocated(vm, d, RoundUp(size), RoundUp(size), RoundUp(size + n));
        (vm', if ok then size + n else size, ok)
    else if n < 0 && size + n >= 0 then
      (Released(vm, d, RoundUp(size + n), RoundUp(size)), if size + n == 0 then size else size + n, size + n != 0)
    else (vm, size, n == 0 || size != 0)
  }

  lemma GrowBounded(vm: Vm, d: nat, size: nat, n: nat)
    requires Bounded(vm, d, size) && size + n < KERNBASE
    ensures var (vm', ok) := Allocated(vm, d, RoundUp(size), RoundUp(size), RoundUp(size + n));
            var size' := if ok then size + n else size;
            && Bounded(vm', d, size')
            && (PresentBelow(vm'.mem, d, RoundUp(size')) <==> PresentBelow(vm.mem, d, RoundUp(size)))
  {
    hide Inv;
    hide OthersKept;
    hide Lookup;
    AllocatedOk(vm, d, RoundUp(size), RoundUp(size), RoundUp(size + n));
    hide Allocated;
    var (vm', ok) := Allocated(vm, d, RoundUp(size), RoundUp(size), RoundUp(size + n));
    if ok {
      forall w | RoundUp(size) <= w < RoundUp(size + n) ensures Lookup(vm'.mem, d, w).Some? {
        assert NewPage(vm, vm', d, w);
      }
    }
  }

  lemma ShrinkBounded(vm: Vm, d: nat, size: nat, size': nat)
    requires Bounded(vm, d, size) && size' <= size
    ensures var vm' := Released(vm, d, RoundUp(size'), RoundUp(size));
            && Bounded(vm', d, size')
            && (PresentBelow(vm'.mem, d, RoundUp(size')) <==> PresentBelow(vm.mem, d, RoundUp(size')))
  {
    hide Inv;
    hide OthersKept;
    hide Lookup;
    ReleasedOk(vm, d, RoundUp(size'), RoundUp(size));
    hide Released;
  }

  /**
   Every change of size leaves a process without pages above its size.  It leaves it with exactly its pages if and only
   if it had all those that remain, and is not shrunk to nothing: that releases all pages, but reports failure and
   leaves `MemorySize` as it was.
   */
  lemma ResizeExactly(vm: Vm, d: nat, size: nat, n: int)
    requires Bounded(vm, d, size)
    ensures var (vm', size', _) := Resized(vm, d, size, n);
            && Bounded(vm', d, size')
            && (Fits(vm', d, size') <==>
                  !(n < 0 && size + n == 0) && PresentBelow(vm.mem, d, RoundUp(if size' < size then size' else size)))
  {
    hide Inv;
    hide OthersKept;
    hide Lookup;
    hide Allocated;
    hide Released;
    if n > 0 {
      if size + n < KERNBASE { GrowBounded(vm, d, size, n); }
    } else if n < 0 && size + n >= 0 {
      ShrinkBounded(vm, d, size, size + n);
      if size + n == 0 {
        EmptiedSpace(vm, d, size);
      }
    }
  }

  lemma EmptiedSpace(vm: Vm, d: nat, size: nat)
    requires Bounded(vm, d, size) && size > 0
    ensures var vm' := Released(vm, d, 0, RoundUp(size));
            && Bounded(vm', d, size) && !PresentBelow(vm'.mem, d, RoundUp(size))
            && FirstMissing(vm'.mem, d, 0, RoundUp(size)) == 0
  {
    hide Inv;
    hide OthersKept;
    hide Lookup;
    ReleasedOk(vm, d, 0, RoundUp(size));
    hide Released;
    assert Lookup(Released(vm, d, 0, RoundUp(size)).mem, d, 0).None?;
  }

  /** The frames that growing from page `v` to page `hi` takes: one a page, and one for every table that is missing. */
  ghost function Needs(mem: Memory, d: nat, v: nat, hi: nat): nat {
    (if v < hi then hi - v else 0) + Missing(mem, d, v, hi)
  }

  /** One page of it. */
  lemma NeedsStep(vm: Vm, vm1: Vm, vm2: Vm, d: nat, v: nat, hi: nat, f: nat, flags: Flags, ok: bool)
    requires IsCreated(vm1, vm2, d, v, f, flags, ok) && v < hi <= USER_PAGES && |vm1.free| == |vm.free| - 1
    requires forall j :: 0 <= j < ENTRIES ==> TableFor(vm1.mem, d, j) == TableFor(vm.mem, d, j)
    ensures !ok ==> |vm.free| < Needs(vm.mem, d, v, hi)
    ensures ok ==> |vm.free| - Needs(vm.mem, d, v, hi) == |vm2.free| - Needs(vm2.mem, d, v + 1, hi)
  {
    hide Inv;
    hide OthersKept;
    hide Lookup;
    hide Bytes;
    hide TableFor;
    assert v / ENTRIES < ENTRIES;
    if ok { MissingStep(vm.mem, vm2.mem, d, v, hi); }
  }

  /** Growing succeeds exactly when there are frames for that, and takes no others. */
  lemma {:induction false} GrowNeeds(vm: Vm, d: nat, lo: nat, v: nat, hi: nat)
    requires Growable(vm, d, lo, v, hi)
    ensures var (vm', ok) := Allocated(vm, d, lo, v, hi);
            && (ok <==> |vm.free| >= Needs(vm.mem, d, v, hi))
            && (ok ==> |vm'.free| == |vm.free| - Needs(vm.mem, d, v, hi))
    decreases hi - v
  {
    hide Inv;
    hide OthersKept;
    hide SameSpace;
    hide Released;
    hide IsCreated;
    hide TableFor;
    if v < hi && vm.free != [] {
      PreparedOk(vm, ZeroData(), d, v);
      var vm1 := Prepared(vm, ZeroData());
      var f := vm.free[0];
      CreatedOk(vm1, d, v, f, USER_FLAGS);
      var (vm2, ok) := Created(vm1, d, v, f, USER_FLAGS);
      NeedsStep(vm, vm1, vm2, d, v, hi, f, USER_FLAGS, ok);
      hide Created;
      hide Needs;
      if ok {
        StillGrowable(vm, vm1, vm2, d, lo, v, hi, f);
        GrowNeeds(vm2, d, lo, v + 1, hi);
      }
    }
  }

  /** A zeroed page, open to the program, on a frame that was free. */
  ghost predicate FreshPage(vm: Vm, vm': Vm, d: nat, w: nat) {
    && Lookup(vm'.mem, d, w).Some?
    && var e := Lookup(vm'.mem, d, w).value;
       && e.flags.present && e.flags.writeable && e.flags.user
       && HasRole(vm.owner, e.frame, Free) && HasRole(vm'.owner, e.frame, PageOf(d, w))
       && Bytes(vm'.mem, e.frame) == seq(PAGE_SIZE, _ => 0)
  }

  /** Page `w` is mapped as before, and if it is a user page it holds the same bytes. */
  ghost predicate SamePage(mem: Memory, mem': Memory, d: nat, w: nat) {
    && Lookup(mem', d, w) == Lookup(mem, d, w)
    && (w < USER_PAGES && Lookup(mem, d, w).Some? ==>
          Bytes(mem', Lookup(mem, d, w).value.frame) == Bytes(mem, Lookup(mem, d, w).value.frame))
  }

  /**
   `growProcess` upwards, exactly: it succeeds if and only if the new end lies below KERNBASE and there are frames for
   the new pages and their tables.  Then the size is the new one and the pages between the ends are new; otherwise the
   size and the address space are as they were.
   */
  lemma ResizeGrows(vm: Vm, d: nat, size: nat, n: int)
    requires Bounded(vm, d, size) && n > 0
    ensures var (vm', size', ok) := Resized(vm, d, size, n);
            && (ok <==> size + n < KERNBASE && |vm.free| >= Needs(vm.mem, d, RoundUp(size), RoundUp(size + n)))
            && Inv(vm') && OthersKept(vm, vm', d)
            && (ok ==> size' == size + n)
            && (ok ==> |vm'.free| == |vm.free| - Needs(vm.mem, d, RoundUp(size), RoundUp(size + n)))
            && (ok ==> forall w :: RoundUp(size) <= w < RoundUp(size + n) ==> FreshPage(vm, vm', d, w))
            && (ok ==> forall w :: 0 <= w < PAGES && !(RoundUp(size) <= w < RoundUp(size + n)) ==>
                  SamePage(vm.mem, vm'.mem, d, w))
            && (!ok ==> size' == size && SameSpace(vm.mem, vm'.mem, d))
  {
    hide Inv;
    hide OthersKept;
    hide Lookup;
    hide Needs;
    if size + n >= KERNBASE {
      KeptRefl(vm, d);
      SameSpaceRefl(vm.mem, d);
    } else {
      var lo, hi := RoundUp(size), RoundUp(size + n);
      GrowNeeds(vm, d, lo, lo, hi);
      GrowOrRestore(vm, d, lo, hi);
      var (vm', ok) := Allocated(vm, d, lo, lo, hi);
      assert HasRole(vm'.owner, d, Dir) by { AllocatedOk(vm, d, lo, lo, hi); }
      hide Allocated;
      hide SameSpace;
      if ok {
        forall w | lo <= w < hi ensures FreshPage(vm, vm', d, w) {
          assert NewPage(vm, vm', d, w);
          PageRole(vm', d, w);
        }
        forall w | 0 <= w < PAGES && !(lo <= w < hi) ensures SamePage(vm.mem, vm'.mem, d, w) {
        }
      }
    }
  }

  /** The pages from `lo` on are gone, with their frames free; those below, and the kernel half, are as before. */
  ghost predicate CutAt(vm: Vm, vm': Vm, d: nat, lo: nat) {
    && Inv(vm') && OthersKept(vm, vm', d)
    && (forall w :: lo <= w < USER_PAGES ==> Lookup(vm'.mem, d, w).None?)
    && (forall w :: lo <= w < USER_PAGES && Lookup(vm.mem, d, w).Some? ==>
          HasRole(vm'.owner, Lookup(vm.mem, d, w).value.frame, Free))
    && (forall w :: 0 <= w < lo || USER_PAGES <= w < PAGES ==> SamePage(vm.mem, vm'.mem, d, w))
  }

  lemma ReleaseCuts(vm: Vm, d: nat, size: nat, lo: nat)
    requires Bounded(vm, d, size) && lo <= RoundUp(size)
    ensures CutAt(vm, Released(vm, d, lo, RoundUp(size)), d, lo)
  {
    hide Inv;
    hide OthersKept;
    hide Lookup;
    ReleasedOk(vm, d, lo, RoundUp(size));
    var vm' := Released(vm, d, lo, RoundUp(size));
    hide Released;
    forall w | 0 <= w < PAGES && Lookup(vm.mem, d, w).Some? && w < USER_PAGES
      ensures HasRole(vm.owner, Lookup(vm.mem, d, w).value.frame, PageOf(d, w)) {
      PageRole(vm, d, w);
    }
  }

  /**
   `growProcess` downwards, exactly.  To a smaller size it always succeeds, and exactly the pages above go.  To nothing
   it releases all pages, but fails and keeps the size.  By more than the size, the 32-bit sum is larger than the size
   and nothing happens; the call then fails only for a process of size 0.
   */
  lemma ResizeShrinks(vm: Vm, d: nat, size: nat, n: int)
    requires Bounded(vm, d, size) && n < 0
    ensures var (vm', size', ok) := Resized(vm, d, size, n);
            && (size + n > 0 ==> ok && size' == size + n && CutAt(vm, vm', d, RoundUp(size + n)))
            && (size + n == 0 ==> !ok && size' == size && CutAt(vm, vm', d, 0))
            && (size + n < 0 ==> vm' == vm && size' == size && (ok <==> size > 0))
  {
    hide CutAt;
    hide Released;
    hide Inv;
    if size + n >= 0 {
      RoundsUp(size + n, size);
      ReleaseCuts(vm, d, size, RoundUp(size + n));
    }
  }

  lemma RoundsUp(a: nat, b: nat)
    requires a <= b
    ensures RoundUp(a) <= RoundUp(b) && RoundUp(0) == 0
  {
  }

  /** A change by nothing changes nothing. */
  lemma ResizeNone(vm: Vm, d: nat, size: nat)
    requires Bounded(vm, d, size)
    ensures Resized(vm, d, size, 0) == (vm, size, true)
  {
  }

  /** A process that has exactly its pages keeps exactly its pages, except when it is shrunk to nothing. */
  lemma ResizeFits(vm: Vm, d: nat, size: nat, n: int)
    requires Fits(vm, d, size)
    ensures var (vm', size', _) := Resized(vm, d, size, n); Fits(vm', d, size') <==> !(n < 0 && size + n == 0)
  {
    hide Inv;
    hide Lookup;
    ResizeExactly(vm, d, size, n);
    hide Resized;
  }
}
