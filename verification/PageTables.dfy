/**
 Physical frames and two-level page tables: every frame has one role, and the
 operations of the kernel move frames between roles.  Primitive changes to memory are
 functions on values; the kernel's loops are methods of `Kernel` in `KernelMemory`.
 */
module PageTables {
  import opened Basics

  /** The flag bits of a page table entry; `rest` stands for the bits the kernel does not name. */
  datatype Flags = Flags(present: bool, writeable: bool, user: bool, rest: nat)

  datatype Pte = Pte(frame: nat, flags: Flags)

  /** What a frame holds, as the kernel uses it. */
  datatype Frame = Link(next: Option<nat>) | Table(entries: seq<Pte>) | Data(bytes: seq<Byte>)

  /** Who a frame belongs to.  `Held` frames are in the hands of a kernel function, or lost by one. */
  datatype Role = Free | Held | Dir | TableOf(dir: nat, index: nat) | PageOf(dir: nat, page: nat)

  type Memory = map<nat, Frame>
  type Owners = map<nat, Role>

  /** The allocator's free list, memory, and the role of every managed frame. */
  datatype Vm = Vm(free: seq<nat>, mem: Memory, owner: Owners)

  const ENTRIES: nat := 1024
  const USER_TABLES: nat := 512          // directory entries below KERNBASE
  const USER_PAGES: nat := 0x8_0000
  const PAGES: nat := 0x10_0000
  const PAGE_SIZE: nat := 4096

  const NO_FLAGS: Flags := Flags(false, false, false, 0)
  const NO_PTE: Pte := Pte(0, NO_FLAGS)

  function ZeroTable(): Frame {
    Table(seq(ENTRIES, _ => NO_PTE))
  }

  function ZeroData(): Frame {
    Data(seq(PAGE_SIZE, _ => 0))
  }

  predicate IsTable(mem: Memory, f: nat) {
    f in mem && mem[f].Table? && |mem[f].entries| == ENTRIES
  }

  predicate IsData(mem: Memory, f: nat) {
    f in mem && mem[f].Data? && |mem[f].bytes| == PAGE_SIZE
  }

  /** Entry `i` of the table in frame `f`. */
  function Entry(mem: Memory, f: nat, i: nat): Pte {
    if IsTable(mem, f) && i < ENTRIES then mem[f].entries[i] else NO_PTE
  }

  function SetEntry(mem: Memory, f: nat, i: nat, e: Pte): Memory
    requires IsTable(mem, f) && i < ENTRIES
  {
    mem[f := Table(mem[f].entries[i := e])]
  }

  /** The frame of the page table for directory entry `i`, if present. */
  function TableFor(mem: Memory, d: nat, i: nat): Option<nat> {
    if Entry(mem, d, i).flags.present then Some(Entry(mem, d, i).frame) else None
  }

  /** The hardware's walk for page number `v`: directory index v / 1024, table index v % 1024. */
  function Lookup(mem: Memory, d: nat, v: nat): Option<Pte> {
    var t := TableFor(mem, d, v / ENTRIES);
    if t.Some? && Entry(mem, t.value, v % ENTRIES).flags.present then Some(Entry(mem, t.value, v % ENTRIES)) else None
  }

  function Bytes(mem: Memory, f: nat): seq<Byte> {
    if f in mem && mem[f].Data? then mem[f].bytes else []
  }

  // ---------------------------------------------------------------- the invariant

  /** The free list has no duplicates and lists exactly the free frames. */
  ghost predicate FreeOk(free: seq<nat>, owner: Owners) {
    && (forall k :: 0 <= k < |free| ==> free[k] in owner && owner[free[k]] == Free)
    && (forall f :: f in owner && owner[f] == Free ==> f in free)
    && (forall j, k :: 0 <= j < k < |free| ==> free[j] != free[k])
  }

  function Head(free: seq<nat>): Option<nat> {
    if free == [] then None else Some(free[0])
  }

  /** The first word of a free frame leads to the next. */
  ghost predicate Linked(mem: Memory, free: seq<nat>) {
    free == [] || (free[0] in mem && mem[free[0]] == Link(Head(free[1..])) && Linked(mem, free[1..]))
  }

  ghost predicate HasRole(owner: Owners, f: nat, r: Role) {
    f in owner && owner[f] == r
  }

  /** A directory entry restricts nothing; the entries of its page table do. */
  predicate Open(e: Pte) {
    e.flags.writeable && e.flags.user
  }

  /** A frame is used as its role says. */
  ghost predicate RoleOk(mem: Memory, owner: Owners, f: nat)
    requires f in owner
  {
    match owner[f]
    case Free => true
    case Held => true
    case Dir => IsTable(mem, f) && forall i :: 0 <= i < ENTRIES && TableFor(mem, f, i).Some? ==>
      HasRole(owner, TableFor(mem, f, i).value, TableOf(f, i)) && Open(Entry(mem, f, i))
    case TableOf(d, i) =>
      && IsTable(mem, f) && i < ENTRIES && HasRole(owner, d, Dir) && TableFor(mem, d, i) == Some(f)
      && (i < USER_TABLES ==> forall j :: 0 <= j < ENTRIES && Entry(mem, f, j).flags.present ==>
           HasRole(owner, Entry(mem, f, j).frame, PageOf(d, i * ENTRIES + j)))
    case PageOf(d, v) =>
      && IsData(mem, f) && v < USER_PAGES && HasRole(owner, d, Dir)
      && Lookup(mem, d, v).Some? && Lookup(mem, d, v).value.frame == f
  }

  ghost predicate Inv(vm: Vm) {
    && vm.mem.Keys == vm.owner.Keys
    && FreeOk(vm.free, vm.owner) && Linked(vm.mem, vm.free)
    && forall f :: f in vm.owner ==> RoleOk(vm.mem, vm.owner, f)
  }

  // ---------------------------------------------------------------- what a space looks like

  /** Directory `d` maps every page to the same frame with the same flags, and user pages hold the same bytes. */
  ghost predicate SameSpace(mem: Memory, mem': Memory, d: nat) {
    && (forall v :: 0 <= v < PAGES ==> Lookup(mem', d, v) == Lookup(mem, d, v))
    && (forall v :: 0 <= v < USER_PAGES && Lookup(mem, d, v).Some? ==>
         Bytes(mem', Lookup(mem, d, v).value.frame) == Bytes(mem, Lookup(mem, d, v).value.frame))
  }

  /** Every directory other than `d` is kept, with its space. */
  ghost predicate OthersKept(vm: Vm, vm': Vm, d: nat) {
    forall e :: HasRole(vm.owner, e, Dir) && e != d ==> HasRole(vm'.owner, e, Dir) && SameSpace(vm.mem, vm'.mem, e)
  }

  /** A present directory entry leads to a table with that role. */
  lemma TableRole(vm: Vm, d: nat, i: nat)
    requires Inv(vm) && HasRole(vm.owner, d, Dir) && i < ENTRIES && TableFor(vm.mem, d, i).Some?
    ensures HasRole(vm.owner, TableFor(vm.mem, d, i).value, TableOf(d, i)) &&
              IsTable(vm.mem, TableFor(vm.mem, d, i).value)
  {
    hide FreeOk;
    hide Linked;
    assert RoleOk(vm.mem, vm.owner, d);
    assert RoleOk(vm.mem, vm.owner, TableFor(vm.mem, d, i).value);
  }

  /** What the hardware lets a program do to a page: both levels have to agree. */
  function Rights(mem: Memory, d: nat, v: nat): (bool, bool) {
    var e, page := Entry(mem, d, v / ENTRIES), Lookup(mem, d, v);
    if page.None? then (false, false)
    else
      (e.flags.user && page.value.flags.user,
       e.flags.user && page.value.flags.user && e.flags.writeable && page.value.flags.writeable)
  }

  /** The flags of the page alone decide. */
  lemma RightsOfPage(vm: Vm, d: nat, v: nat)
    requires Inv(vm) && HasRole(vm.owner, d, Dir) && v < PAGES && Lookup(vm.mem, d, v).Some?
    ensures var flags := Lookup(vm.mem, d, v).value.flags;
            Rights(vm.mem, d, v) == (flags.user, flags.user && flags.writeable)
  {
    hide FreeOk;
    hide Linked;
    assert RoleOk(vm.mem, vm.owner, d);
    assert TableFor(vm.mem, d, v / ENTRIES).Some?;
  }

  /** A mapped user page leads to a data frame that belongs to this page of this directory and to no other. */
  lemma PageRole(vm: Vm, d: nat, v: nat)
    requires Inv(vm) && HasRole(vm.owner, d, Dir) && v < USER_PAGES && Lookup(vm.mem, d, v).Some?
    ensures HasRole(vm.owner, Lookup(vm.mem, d, v).value.frame, PageOf(d, v)) &&
              IsData(vm.mem, Lookup(vm.mem, d, v).value.frame)
  {
    hide FreeOk;
    hide Linked;
    TableRole(vm, d, v / ENTRIES);
    var t := TableFor(vm.mem, d, v / ENTRIES).value;
    assert RoleOk(vm.mem, vm.owner, t);
    assert v / ENTRIES * ENTRIES + v % ENTRIES == v;
    assert HasRole(vm.owner, Entry(vm.mem, t, v % ENTRIES).frame, PageOf(d, v / ENTRIES * ENTRIES + v % ENTRIES));
    assert RoleOk(vm.mem, vm.owner, Entry(vm.mem, t, v % ENTRIES).frame);
  }

  // ---------------------------------------------------------------- primitive changes

  /** `allocatePhysicalMemoryPage` with a frame to give. */
  function Pop(vm: Vm): Vm
    requires |vm.free| > 0
  {
    vm.(free := vm.free[1..], owner := vm.owner[vm.free[0] := Held])
  }

  /** `freePhysicalMemoryPage`. */
  function Push(vm: Vm, f: nat): Vm {
    vm.(free := [f] + vm.free, mem := vm.mem[f := Link(Head(vm.free))], owner := vm.owner[f := Free])
  }

  /** A held frame is filled. */
  function Fill(vm: Vm, f: nat, frame: Frame): Vm {
    vm.(mem := vm.mem[f := frame])
  }

  function AddDir(vm: Vm, f: nat): Vm {
    vm.(mem := vm.mem[f := ZeroTable()], owner := vm.owner[f := Dir])
  }

  const TABLE_FLAGS: Flags := Flags(true, true, true, 0)

  /** A zeroed frame becomes the page table for directory entry `i`. */
  function AddTable(vm: Vm, d: nat, i: nat, f: nat): Vm
    requires IsTable(vm.mem, d) && i < ENTRIES && f != d
  {
    vm.(mem := SetEntry(vm.mem[f := ZeroTable()], d, i, Pte(f, TABLE_FLAGS)), owner := vm.owner[f := TableOf(d, i)])
  }

  /** A held data frame becomes page `v`. */
  function MapPage(vm: Vm, d: nat, v: nat, f: nat, flags: Flags): Vm
    requires TableFor(vm.mem, d, v / ENTRIES).Some? && IsTable(vm.mem, TableFor(vm.mem, d, v / ENTRIES).value)
  {
    vm.(mem := SetEntry(vm.mem, TableFor(vm.mem, d, v / ENTRIES).value, v % ENTRIES, Pte(f, flags.(present := true))),
        owner := vm.owner[f := PageOf(d, v)])
  }

  /** An entry of the kernel half, or new flags for a mapped page. */
  function PutEntry(vm: Vm, d: nat, v: nat, e: Pte): Vm
    requires TableFor(vm.mem, d, v / ENTRIES).Some? && IsTable(vm.mem, TableFor(vm.mem, d, v / ENTRIES).value)
  {
    vm.(mem := SetEntry(vm.mem, TableFor(vm.mem, d, v / ENTRIES).value, v % ENTRIES, e))
  }

  /** A mapped user page goes back to the free list. */
  function UnmapPage(vm: Vm, d: nat, v: nat): Vm
    requires TableFor(vm.mem, d, v / ENTRIES).Some? && IsTable(vm.mem, TableFor(vm.mem, d, v / ENTRIES).value)
  {
    var t := TableFor(vm.mem, d, v / ENTRIES).value;
    var f := Entry(vm.mem, t, v % ENTRIES).frame;
    Vm([f] + vm.free, SetEntry(vm.mem, t, v % ENTRIES, NO_PTE)[f := Link(Head(vm.free))], vm.owner[f := Free])
  }

  // ---------------------------------------------------------------- frames of reference

  /** A directory none of whose frames change keeps its space. */
  lemma SpaceFrame(vm: Vm, mem': Memory, changed: set<nat>, e: nat)
    requires Inv(vm) && HasRole(vm.owner, e, Dir) && e !in changed
    requires forall g :: g in vm.mem && g !in changed ==> g in mem' && mem'[g] == vm.mem[g]
    requires forall g :: g in changed && g in vm.owner && vm.owner[g].TableOf? ==> vm.owner[g].dir != e
    requires forall g :: g in changed && g in vm.owner && vm.owner[g].PageOf? ==> vm.owner[g].dir != e
    ensures SameSpace(vm.mem, mem', e)
  {
    hide FreeOk;
    hide Linked;
    assert RoleOk(vm.mem, vm.owner, e);
    forall v | 0 <= v < PAGES ensures Lookup(mem', e, v) == Lookup(vm.mem, e, v) {
      if TableFor(vm.mem, e, v / ENTRIES).Some? { TableRole(vm, e, v / ENTRIES); }
    }
    forall v | 0 <= v < USER_PAGES && Lookup(vm.mem, e, v).Some?
      ensures Bytes(mem', Lookup(vm.mem, e, v).value.frame) == Bytes(vm.mem, Lookup(vm.mem, e, v).value.frame)
    {
      PageRole(vm, e, v);
    }
  }

  lemma OthersFrame(vm: Vm, vm': Vm, changed: set<nat>, d: nat)
    requires Inv(vm)
    requires forall g :: g in vm.mem && g !in changed ==> g in vm'.mem && vm'.mem[g] == vm.mem[g]
    requires forall g :: g in changed && g in vm.owner && vm.owner[g].TableOf? ==> vm.owner[g].dir == d
    requires forall g :: g in changed && g in vm.owner && vm.owner[g].PageOf? ==> vm.owner[g].dir == d
    requires forall g :: g in changed && g in vm.owner && vm.owner[g].Dir? ==> g == d
    requires forall g :: HasRole(vm.owner, g, Dir) && g != d ==> HasRole(vm'.owner, g, Dir)
    ensures OthersKept(vm, vm', d)
  {
    hide Inv;
    forall e | HasRole(vm.owner, e, Dir) && e != d ensures SameSpace(vm.mem, vm'.mem, e) {
      SpaceFrame(vm, vm'.mem, changed, e);
    }
  }

  /** A frame whose role does not involve the changed frames keeps its role. */
  lemma RoleFrame(vm: Vm, vm': Vm, f: nat)
    requires Inv(vm) && f in vm.owner && HasRole(vm'.owner, f, vm.owner[f])
    requires f in vm'.mem && vm'.mem[f] == vm.mem[f]
    requires vm.owner[f].TableOf? || vm.owner[f].PageOf? ==> HasRole(vm'.owner, vm.owner[f].dir, Dir)
    requires forall i :: 0 <= i < ENTRIES && vm.owner[f].Dir? && TableFor(vm.mem, f, i).Some? ==>
               HasRole(vm'.owner, TableFor(vm.mem, f, i).value, TableOf(f, i))
    requires vm.owner[f].TableOf? ==>
               TableFor(vm'.mem, vm.owner[f].dir, vm.owner[f].index) ==
                 TableFor(vm.mem, vm.owner[f].dir, vm.owner[f].index)
    requires vm.owner[f].TableOf? && vm.owner[f].index < USER_TABLES ==>
               forall j :: 0 <= j < ENTRIES && Entry(vm.mem, f, j).flags.present ==>
                 HasRole(vm'.owner, Entry(vm.mem, f, j).frame, PageOf(vm.owner[f].dir, vm.owner[f].index * ENTRIES + j))
    requires vm.owner[f].PageOf? ==>
               Lookup(vm'.mem, vm.owner[f].dir, vm.owner[f].page) == Lookup(vm.mem, vm.owner[f].dir, vm.owner[f].page)
    ensures RoleOk(vm'.mem, vm'.owner, f)
  {
    assert RoleOk(vm.mem, vm.owner, f);
    forall i | 0 <= i < ENTRIES
      ensures TableFor(vm'.mem, f, i) == TableFor(vm.mem, f, i) && Entry(vm'.mem, f, i) == Entry(vm.mem, f, i) {
    }
  }

  // ---------------------------------------------------------------- allocator

  lemma {:induction false} SameLinks(mem: Memory, mem': Memory, free: seq<nat>)
    requires Linked(mem, free)
    requires forall k :: 0 <= k < |free| ==> free[k] in mem && free[k] in mem' && mem'[free[k]] == mem[free[k]]
    ensures Linked(mem', free)
  {
    if free != [] {
      assert forall k :: 0 <= k < |free[1..]| ==> free[1..][k] == free[k + 1];
      SameLinks(mem, mem', free[1..]);
    }
  }

  /** The list stays linked as long as no free frame is written to. */
  lemma LinkedKept(vm: Vm, mem': Memory)
    requires FreeOk(vm.free, vm.owner) && Linked(vm.mem, vm.free)
    requires forall g :: g in vm.owner && vm.owner[g] == Free ==> g in mem' && g in vm.mem && mem'[g] == vm.mem[g]
    ensures Linked(mem', vm.free)
  {
    hide Linked;
    SameLinks(vm.mem, mem', vm.free);
  }

  /** A frame that is not on the list goes to the front of it. */
  lemma LinkedFront(mem: Memory, free: seq<nat>, f: nat)
    requires Linked(mem, free) && f !in free && forall k :: 0 <= k < |free| ==> free[k] in mem
    ensures Linked(mem[f := Link(Head(free))], [f] + free)
  {
    SameLinks(mem, mem[f := Link(Head(free))], free);
    assert ([f] + free)[1..] == free;
  }

  lemma PopFree(vm: Vm)
    requires FreeOk(vm.free, vm.owner) && |vm.free| > 0
    ensures FreeOk(Pop(vm).free, Pop(vm).owner)
  {
    var vm' := Pop(vm);
    forall g | g in vm'.owner && vm'.owner[g] == Free ensures g in vm'.free {
      var k :| 0 <= k < |vm.free| && vm.free[k] == g;
      assert vm'.free[k - 1] == g;
    }
  }

  lemma PopInv(vm: Vm)
    requires Inv(vm) && |vm.free| > 0
    ensures Inv(Pop(vm)) && HasRole(vm.owner, vm.free[0], Free)
  {
    var vm' := Pop(vm);
    PopFree(vm);
    assert Linked(vm.mem, vm.free[1..]);
    hide FreeOk;
    hide Linked;
    assert HasRole(vm.owner, vm.free[0], Free);
    forall f | f in vm'.owner ensures RoleOk(vm'.mem, vm'.owner, f) {
      assert RoleOk(vm.mem, vm.owner, f);
      if f != vm.free[0] { LooseApart(vm, vm.free[0], f, vm'); }
    }
  }

  lemma PushFree(vm: Vm, f: nat)
    requires FreeOk(vm.free, vm.owner) && f in vm.owner && vm.owner[f] != Free
    ensures FreeOk(Push(vm, f).free, Push(vm, f).owner)
  {
    assert Push(vm, f).free[0] == f;
    forall g | g in vm.owner && vm.owner[g] == Free ensures g in Push(vm, f).free {
      var k :| 0 <= k < |vm.free| && vm.free[k] == g;
      assert Push(vm, f).free[k + 1] == g;
    }
  }

  lemma PushLinked(vm: Vm, f: nat)
    requires vm.mem.Keys == vm.owner.Keys && FreeOk(vm.free, vm.owner) && Linked(vm.mem, vm.free)
    requires f in vm.owner ==> vm.owner[f] != Free
    ensures Linked(Push(vm, f).mem, Push(vm, f).free)
  {
    hide Linked;
    LinkedFront(vm.mem, vm.free, f);
  }

  lemma PushInv(vm: Vm, f: nat)
    requires Inv(vm) && HasRole(vm.owner, f, Held)
    ensures Inv(Push(vm, f))
    ensures forall d :: HasRole(vm.owner, d, Dir) ==> SameSpace(vm.mem, Push(vm, f).mem, d)
  {
    hide FreeOk;
    hide Linked;
    hide RoleOk;
    var vm' := Push(vm, f);
    PushFree(vm, f);
    PushLinked(vm, f);
    FreeRole(vm', f);
    forall g | g in vm'.owner ensures RoleOk(vm'.mem, vm'.owner, g) {
      if g != f { LooseApart(vm, f, g, vm'); }
    }
    forall d | HasRole(vm.owner, d, Dir) ensures SameSpace(vm.mem, vm'.mem, d) {
      SpaceFrame(vm, vm'.mem, {f}, d);
    }
  }

  /** No role depends on a frame that is free or merely held. */
  lemma LooseApart(vm: Vm, f: nat, g: nat, vm': Vm)
    requires Inv(vm) && (HasRole(vm.owner, f, Held) || HasRole(vm.owner, f, Free)) && g in vm.owner && g != f
    requires forall h :: h in vm.mem && h != f ==> h in vm'.mem && vm'.mem[h] == vm.mem[h]
    requires forall h :: h in vm.owner && h != f ==> HasRole(vm'.owner, h, vm.owner[h])
    ensures g in vm'.owner && RoleOk(vm'.mem, vm'.owner, g)
  {
    hide FreeOk;
    hide Linked;
    assert RoleOk(vm.mem, vm.owner, g);
    assert HasRole(vm'.owner, g, vm.owner[g]);
    if vm.owner[g].PageOf? {
      TableRole(vm, vm.owner[g].dir, vm.owner[g].page / ENTRIES);
    }
    RoleFrame(vm, vm', g);
  }

  /** Roles other than Free do not matter to the free list. */
  lemma KeepFree(vm: Vm, f: nat, r: Role)
    requires FreeOk(vm.free, vm.owner) && f in vm.owner && vm.owner[f] != Free && r != Free
    ensures FreeOk(vm.free, vm.owner[f := r])
  {
  }

  lemma FillInv(vm: Vm, f: nat, frame: Frame)
    requires Inv(vm) && HasRole(vm.owner, f, Held)
    ensures Inv(Fill(vm, f, frame))
    ensures forall d :: HasRole(vm.owner, d, Dir) ==> SameSpace(vm.mem, Fill(vm, f, frame).mem, d)
  {
    var vm' := Fill(vm, f, frame);
    LinkedKept(vm, vm'.mem);
    forall g | g in vm'.owner ensures RoleOk(vm'.mem, vm'.owner, g) {
      if g != f { LooseApart(vm, f, g, vm'); }
    }
    forall d | HasRole(vm.owner, d, Dir) ensures SameSpace(vm.mem, vm'.mem, d) {
      SpaceFrame(vm, vm'.mem, {f}, d);
    }
  }

  /** A zeroed directory maps nothing. */
  lemma ZeroDir(vm: Vm, f: nat)
    requires f in vm.mem && vm.mem[f] == ZeroTable() && HasRole(vm.owner, f, Dir)
    ensures forall i :: 0 <= i < ENTRIES ==> TableFor(vm.mem, f, i).None?
    ensures forall v :: 0 <= v < PAGES ==> Lookup(vm.mem, f, v).None?
    ensures RoleOk(vm.mem, vm.owner, f)
  {
  }

  lemma AddDirInv(vm: Vm, f: nat)
    requires Inv(vm) && HasRole(vm.owner, f, Held)
    ensures Inv(AddDir(vm, f)) && OthersKept(vm, AddDir(vm, f), f)
    ensures forall v :: 0 <= v < PAGES ==> Lookup(AddDir(vm, f).mem, f, v).None?
    ensures forall i :: 0 <= i < ENTRIES ==> TableFor(AddDir(vm, f).mem, f, i).None?
  {
    hide FreeOk;
    hide Linked;
    hide RoleOk;
    var vm' := AddDir(vm, f);
    KeepFree(vm, f, Dir);
    LinkedKept(vm, vm'.mem);
    ZeroDir(vm', f);
    forall g | g in vm'.owner ensures RoleOk(vm'.mem, vm'.owner, g) {
      if g != f { LooseApart(vm, f, g, vm'); }
    }
    OthersFrame(vm, vm', {f}, f);
  }

  // ---------------------------------------------------------------- a new page table

  lemma AddTableLookup(vm: Vm, d: nat, i: nat, f: nat, v: nat)
    requires Inv(vm) && HasRole(vm.owner, d, Dir) && i < ENTRIES && TableFor(vm.mem, d, i).None? &&
               HasRole(vm.owner, f, Held)
    requires v < PAGES
    ensures IsTable(vm.mem, d) && Lookup(AddTable(vm, d, i, f).mem, d, v) == Lookup(vm.mem, d, v)
  {
    hide FreeOk;
    hide Linked;
    assert RoleOk(vm.mem, vm.owner, d);
    if v / ENTRIES != i && TableFor(vm.mem, d, v / ENTRIES).Some? {
      TableRole(vm, d, v / ENTRIES);
    }
  }

  lemma AddTableRole(vm: Vm, d: nat, i: nat, f: nat, g: nat)
    requires Inv(vm) && HasRole(vm.owner, d, Dir) && i < ENTRIES && TableFor(vm.mem, d, i).None? &&
               HasRole(vm.owner, f, Held)
    requires g in vm.owner && g != f && g != d
    ensures IsTable(vm.mem, d) && var vm' := AddTable(vm, d, i, f); RoleOk(vm'.mem, vm'.owner, g)
  {
    hide FreeOk;
    hide Linked;
    assert RoleOk(vm.mem, vm.owner, d);
    assert RoleOk(vm.mem, vm.owner, g);
    if vm.owner[g].PageOf? {
      TableRole(vm, vm.owner[g].dir, vm.owner[g].page / ENTRIES);
      if vm.owner[g].dir == d { AddTableLookup(vm, d, i, f, vm.owner[g].page); }
    }
    RoleFrame(vm, AddTable(vm, d, i, f), g);
  }

  lemma AddTableTables(vm: Vm, d: nat, i: nat, f: nat, j: nat)
    requires IsTable(vm.mem, d) && i < ENTRIES && f != d && j < ENTRIES
    ensures TableFor(AddTable(vm, d, i, f).mem, d, j) == if j == i then Some(f) else TableFor(vm.mem, d, j)
  {
  }

  lemma AddTableOwn(vm: Vm, d: nat, i: nat, f: nat)
    requires Inv(vm) && HasRole(vm.owner, d, Dir) && i < ENTRIES && TableFor(vm.mem, d, i).None? &&
               HasRole(vm.owner, f, Held)
    ensures IsTable(vm.mem, d)
    ensures var vm' := AddTable(vm, d, i, f); RoleOk(vm'.mem, vm'.owner, d) && RoleOk(vm'.mem, vm'.owner, f)
  {
    hide FreeOk;
    hide Linked;
    assert RoleOk(vm.mem, vm.owner, d);
    var vm' := AddTable(vm, d, i, f);
    hide Inv;
    AddTableTables(vm, d, i, f, i);
    forall j | 0 <= j < ENTRIES && TableFor(vm'.mem, d, j).Some?
      ensures HasRole(vm'.owner, TableFor(vm'.mem, d, j).value, TableOf(d, j)) {
      AddTableTables(vm, d, i, f, j);
    }
  }

  lemma AddTableSpace(vm: Vm, d: nat, i: nat, f: nat)
    requires Inv(vm) && HasRole(vm.owner, d, Dir) && i < ENTRIES && TableFor(vm.mem, d, i).None? &&
               HasRole(vm.owner, f, Held)
    ensures IsTable(vm.mem, d) && SameSpace(vm.mem, AddTable(vm, d, i, f).mem, d)
  {
    assert RoleOk(vm.mem, vm.owner, d);
    hide Inv;
    var vm' := AddTable(vm, d, i, f);
    forall v | 0 <= v < PAGES ensures Lookup(vm'.mem, d, v) == Lookup(vm.mem, d, v) {
      AddTableLookup(vm, d, i, f, v);
    }
    forall v | 0 <= v < USER_PAGES && Lookup(vm.mem, d, v).Some?
      ensures Bytes(vm'.mem, Lookup(vm.mem, d, v).value.frame) == Bytes(vm.mem, Lookup(vm.mem, d, v).value.frame)
    {
      PageRole(vm, d, v);
    }
  }

  /** Adding a page table changes no mapping. */
  lemma AddTableInv(vm: Vm, d: nat, i: nat, f: nat)
    requires Inv(vm) && HasRole(vm.owner, d, Dir) && i < ENTRIES && TableFor(vm.mem, d, i).None? &&
               HasRole(vm.owner, f, Held)
    ensures IsTable(vm.mem, d)
    ensures var vm' := AddTable(vm, d, i, f);
            && Inv(vm') && OthersKept(vm, vm', d) && SameSpace(vm.mem, vm'.mem, d)
            && forall j :: 0 <= j < ENTRIES ==>
                 TableFor(vm'.mem, d, j) == if j == i then Some(f) else TableFor(vm.mem, d, j)
  {
    hide FreeOk;
    hide Linked;
    hide RoleOk;
    hide SameSpace;
    hide TableFor;
    AddTableOwn(vm, d, i, f);
    AddTableSpace(vm, d, i, f);
    KeepFree(vm, f, TableOf(d, i));
    var vm' := AddTable(vm, d, i, f);
    LinkedKept(vm, vm'.mem);
    forall g | g in vm'.owner ensures RoleOk(vm'.mem, vm'.owner, g) {
      if g != f && g != d { AddTableRole(vm, d, i, f, g); }
    }
    forall j | 0 <= j < ENTRIES ensures TableFor(vm'.mem, d, j) == if j == i then Some(f) else TableFor(vm.mem, d, j) {
      AddTableTables(vm, d, i, f, j);
    }
    OthersFrame(vm, vm', {d, f}, d);
  }

  // ---------------------------------------------------------------- a changed entry

  /** What a leaf entry means to the walk. */
  function Seen(e: Pte): Option<Pte> {
    if e.flags.present then Some(e) else None
  }

  ghost predicate Mappable(vm: Vm, d: nat, v: nat) {
    HasRole(vm.owner, d, Dir) && v < PAGES && TableFor(vm.mem, d, v / ENTRIES).Some?
  }

  /** Changing the entry for page `v` changes the walk for `v` only. */
  lemma LeafLookup(vm: Vm, d: nat, v: nat, e: Pte, v': nat)
    requires Inv(vm) && Mappable(vm, d, v) && v' < PAGES
    ensures IsTable(vm.mem, TableFor(vm.mem, d, v / ENTRIES).value)
    ensures Lookup(PutEntry(vm, d, v, e).mem, d, v') == if v' == v then Seen(e) else Lookup(vm.mem, d, v')
  {
    hide FreeOk;
    hide Linked;
    TableRole(vm, d, v / ENTRIES);
    if TableFor(vm.mem, d, v' / ENTRIES).Some? { TableRole(vm, d, v' / ENTRIES); }
    assert v == v / ENTRIES * ENTRIES + v % ENTRIES;
    assert v' == v' / ENTRIES * ENTRIES + v' % ENTRIES;
  }

  /** Other directories do not see the change. */
  lemma LeafOthers(vm: Vm, mem': Memory, d: nat, v: nat, e: Pte, g: nat, w: nat)
    requires Inv(vm) && Mappable(vm, d, v) && HasRole(vm.owner, g, Dir) && g != d && w < PAGES
    requires IsTable(vm.mem, TableFor(vm.mem, d, v / ENTRIES).value)
    requires forall h :: h in vm.owner && (vm.owner[h].Dir? || vm.owner[h].TableOf?) ==>
               h in mem' && mem'[h] == PutEntry(vm, d, v, e).mem[h]
    ensures Lookup(mem', g, w) == Lookup(vm.mem, g, w)
  {
    hide FreeOk;
    hide Linked;
    TableRole(vm, d, v / ENTRIES);
    assert RoleOk(vm.mem, vm.owner, g);
    if TableFor(vm.mem, g, w / ENTRIES).Some? { TableRole(vm, g, w / ENTRIES); }
  }

  /** Only the directory and its tables matter to the walk. */
  lemma LeafSame(vm: Vm, mem': Memory, d: nat, v: nat, e: Pte, w: nat)
    requires Inv(vm) && Mappable(vm, d, v) && IsTable(vm.mem, TableFor(vm.mem, d, v / ENTRIES).value) && w < PAGES
    requires forall h :: h in vm.owner && (vm.owner[h].Dir? || vm.owner[h].TableOf?) ==>
               h in mem' && mem'[h] == PutEntry(vm, d, v, e).mem[h]
    ensures Lookup(mem', d, w) == Lookup(PutEntry(vm, d, v, e).mem, d, w)
  {
    hide FreeOk;
    hide Linked;
    TableRole(vm, d, v / ENTRIES);
    if TableFor(vm.mem, d, w / ENTRIES).Some? { TableRole(vm, d, w / ENTRIES); }
  }

  /** The frame `f`, if any, is the old or the new frame of page `v`; everything else changes at most by entry `e`. */
  ghost predicate LeafStep(vm: Vm, vm': Vm, d: nat, v: nat, e: Pte, f: Option<nat>) {
    && Mappable(vm, d, v) && IsTable(vm.mem, TableFor(vm.mem, d, v / ENTRIES).value)
    && (f.Some? ==> f.value in vm.owner && (vm.owner[f.value].Held? || vm.owner[f.value] == PageOf(d, v)))
    && (forall h :: h in vm.owner && Some(h) != f ==> HasRole(vm'.owner, h, vm.owner[h]))
    && (forall h :: h in vm.owner && Some(h) != f ==> h in vm'.mem)
    && (forall h :: h in vm.owner && h in vm.mem && h in vm'.mem && Some(h) != f ==>
         vm'.mem[h] == PutEntry(vm, d, v, e).mem[h])
  }

  lemma LeafRoleDir(vm: Vm, vm': Vm, d: nat, v: nat, e: Pte, g: nat, f: Option<nat>)
    requires Inv(vm) && LeafStep(vm, vm', d, v, e, f) && HasRole(vm.owner, g, Dir)
    ensures g in vm'.owner && RoleOk(vm'.mem, vm'.owner, g) && g in vm'.mem && vm'.mem[g] == vm.mem[g]
  {
    hide FreeOk;
    hide Linked;
    TableRole(vm, d, v / ENTRIES);
    assert HasRole(vm'.owner, g, vm.owner[g]);
    assert RoleOk(vm.mem, vm.owner, g);
    RoleFrame(vm, vm', g);
  }

  /** Another table of a user half does not lead to page `v`. */
  lemma LeafElsewhere(vm: Vm, d: nat, v: nat, g: nat, j: nat)
    requires Inv(vm) && Mappable(vm, d, v) && g in vm.owner && vm.owner[g].TableOf? && vm.owner[g].index < USER_TABLES
    requires g != TableFor(vm.mem, d, v / ENTRIES).value && j < ENTRIES && Entry(vm.mem, g, j).flags.present
    ensures HasRole(vm.owner, Entry(vm.mem, g, j).frame, PageOf(vm.owner[g].dir, vm.owner[g].index * ENTRIES + j))
    ensures PageOf(vm.owner[g].dir, vm.owner[g].index * ENTRIES + j) != PageOf(d, v)
  {
    hide FreeOk;
    hide Linked;
    assert RoleOk(vm.mem, vm.owner, g);
    hide Inv;
    assert (vm.owner[g].index * ENTRIES + j) / ENTRIES == vm.owner[g].index;
  }

  lemma LeafRoleTable(vm: Vm, vm': Vm, d: nat, v: nat, e: Pte, g: nat, f: Option<nat>)
    requires Inv(vm) && LeafStep(vm, vm', d, v, e, f) && g in vm.owner && vm.owner[g].TableOf?
    requires g != TableFor(vm.mem, d, v / ENTRIES).value
    ensures g in vm'.owner && RoleOk(vm'.mem, vm'.owner, g)
  {
    hide Lookup;
    hide FreeOk;
    hide Linked;
    TableRole(vm, d, v / ENTRIES);
    assert HasRole(vm'.owner, g, vm.owner[g]);
    assert RoleOk(vm.mem, vm.owner, g);
    var k, i := vm.owner[g].dir, vm.owner[g].index;
    LeafRoleDir(vm, vm', d, v, e, k, f);
    forall j | 0 <= j < ENTRIES && i < USER_TABLES && Entry(vm.mem, g, j).flags.present
      ensures HasRole(vm'.owner, Entry(vm.mem, g, j).frame, PageOf(k, i * ENTRIES + j))
    {
      LeafElsewhere(vm, d, v, g, j);
    }
    hide Inv;
    RoleFrame(vm, vm', g);
  }

  lemma LeafRolePage(vm: Vm, vm': Vm, d: nat, v: nat, e: Pte, g: nat, f: Option<nat>)
    requires Inv(vm) && LeafStep(vm, vm', d, v, e, f) && g in vm.owner && vm.owner[g].PageOf? &&
               vm.owner[g] != PageOf(d, v)
    ensures g in vm'.owner && RoleOk(vm'.mem, vm'.owner, g)
  {
    hide FreeOk;
    hide Linked;
    TableRole(vm, d, v / ENTRIES);
    assert HasRole(vm'.owner, g, vm.owner[g]);
    assert RoleOk(vm.mem, vm.owner, g);
    var k, w := vm.owner[g].dir, vm.owner[g].page;
    hide Inv;
    LeafRoleDir(vm, vm', d, v, e, k, f);
    if k == d {
      LeafLookup(vm, d, v, e, w);
      LeafSame(vm, vm'.mem, d, v, e, w);
    } else {
      LeafOthers(vm, vm'.mem, d, v, e, k, w);
    }
    RoleFrame(vm, vm', g);
  }

  /** Frames that are neither the table, nor the old or new frame of the page, keep their roles. */
  lemma LeafRole(vm: Vm, vm': Vm, d: nat, v: nat, e: Pte, g: nat, f: Option<nat>)
    requires Inv(vm) && LeafStep(vm, vm', d, v, e, f)
    requires g in vm.owner && g != TableFor(vm.mem, d, v / ENTRIES).value && Some(g) != f && vm.owner[g] != PageOf(d, v)
    ensures g in vm'.owner && RoleOk(vm'.mem, vm'.owner, g)
  {
    assert HasRole(vm'.owner, g, vm.owner[g]);
    hide Inv;
    match vm.owner[g]
    case Dir => LeafRoleDir(vm, vm', d, v, e, g, f);
    case TableOf(_, _) => LeafRoleTable(vm, vm', d, v, e, g, f);
    case PageOf(_, _) => LeafRolePage(vm, vm', d, v, e, g, f);
    case _ =>
  }

  /** The table itself, when every present entry of a user table leads to a frame of the right role. */
  lemma LeafTable(vm: Vm, vm': Vm, d: nat, v: nat, e: Pte, f: Option<nat>)
    requires Inv(vm) && LeafStep(vm, vm', d, v, e, f)
    requires v < USER_PAGES && e.flags.present ==> HasRole(vm'.owner, e.frame, PageOf(d, v))
    ensures var t := TableFor(vm.mem, d, v / ENTRIES).value; t in vm'.owner && RoleOk(vm'.mem, vm'.owner, t)
  {
    hide Lookup;
    hide FreeOk;
    hide Linked;
    var t, i := TableFor(vm.mem, d, v / ENTRIES).value, v / ENTRIES;
    TableRole(vm, d, i);
    assert RoleOk(vm.mem, vm.owner, t);
    assert HasRole(vm'.owner, t, vm.owner[t]) && HasRole(vm'.owner, d, Dir);
    LeafRoleDir(vm, vm', d, v, e, d, f);
    hide Inv;
    assert v == i * ENTRIES + v % ENTRIES;
    assert TableFor(vm'.mem, d, i) == TableFor(vm.mem, d, i);
    forall j | 0 <= j < ENTRIES && i < USER_TABLES && Entry(vm'.mem, t, j).flags.present
      ensures HasRole(vm'.owner, Entry(vm'.mem, t, j).frame, PageOf(d, i * ENTRIES + j))
    {
      if j != v % ENTRIES {
        assert Entry(vm'.mem, t, j) == Entry(vm.mem, t, j);
      }
    }
  }

  lemma MapPageInv(vm: Vm, d: nat, v: nat, f: nat, flags: Flags)
    requires Inv(vm) && Mappable(vm, d, v) && v < USER_PAGES && Lookup(vm.mem, d, v).None?
    requires HasRole(vm.owner, f, Held) && IsData(vm.mem, f)
    ensures IsTable(vm.mem, TableFor(vm.mem, d, v / ENTRIES).value)
    ensures var vm' := MapPage(vm, d, v, f, flags);
            && Inv(vm') && OthersKept(vm, vm', d)
            && forall w :: 0 <= w < PAGES ==>
                 Lookup(vm'.mem, d, w) == if w == v then Some(Pte(f, flags.(present := true))) else Lookup(vm.mem, d, w)
  {
    hide FreeOk;
    hide Linked;
    hide RoleOk;
    var t, e := TableFor(vm.mem, d, v / ENTRIES).value, Pte(f, flags.(present := true));
    TableRole(vm, d, v / ENTRIES);
    var vm' := MapPage(vm, d, v, f, flags);
    KeepFree(vm, f, PageOf(d, v));
    LinkedKept(vm, vm'.mem);
    forall w | 0 <= w < PAGES ensures Lookup(vm'.mem, d, w) == if w == v then Some(e) else Lookup(vm.mem, d, w) {
      LeafLookup(vm, d, v, e, w);
    }
    forall g | g in vm'.owner ensures RoleOk(vm'.mem, vm'.owner, g) {
      if g == t {
        LeafTable(vm, vm', d, v, e, Some(f));
      } else if g == f {
        MappedRole(vm', d, v, f);
      } else {
        NotMapped(vm, d, v, g);
        LeafRole(vm, vm', d, v, e, g, Some(f));
      }
    }
    OthersFrame(vm, vm', {t, f}, d);
  }

  lemma MappedRole(vm: Vm, d: nat, v: nat, f: nat)
    requires HasRole(vm.owner, f, PageOf(d, v)) && IsData(vm.mem, f) && v < USER_PAGES && HasRole(vm.owner, d, Dir)
    requires Lookup(vm.mem, d, v).Some? && Lookup(vm.mem, d, v).value.frame == f
    ensures RoleOk(vm.mem, vm.owner, f)
  {
  }

  /** No frame belongs to a page that is not mapped. */
  lemma NotMapped(vm: Vm, d: nat, v: nat, g: nat)
    requires Inv(vm) && Lookup(vm.mem, d, v).None? && g in vm.owner
    ensures vm.owner[g] != PageOf(d, v)
  {
    assert RoleOk(vm.mem, vm.owner, g);
  }

  /** An entry that no page depends on: it is in the kernel half, or absent before and after. */
  lemma PutLooseInv(vm: Vm, d: nat, v: nat, e: Pte)
    requires Inv(vm) && Mappable(vm, d, v)
    requires v >= USER_PAGES || (Lookup(vm.mem, d, v).None? && !e.flags.present)
    ensures IsTable(vm.mem, TableFor(vm.mem, d, v / ENTRIES).value)
    ensures var vm' := PutEntry(vm, d, v, e);
            && Inv(vm') && OthersKept(vm, vm', d)
            && forall w :: 0 <= w < PAGES ==> Lookup(vm'.mem, d, w) == if w == v then Seen(e) else Lookup(vm.mem, d, w)
  {
    hide FreeOk;
    hide Linked;
    hide RoleOk;
    var t := TableFor(vm.mem, d, v / ENTRIES).value;
    TableRole(vm, d, v / ENTRIES);
    var vm' := PutEntry(vm, d, v, e);
    LinkedKept(vm, vm'.mem);
    forall w | 0 <= w < PAGES ensures Lookup(vm'.mem, d, w) == if w == v then Seen(e) else Lookup(vm.mem, d, w) {
      LeafLookup(vm, d, v, e, w);
    }
    forall g | g in vm'.owner ensures RoleOk(vm'.mem, vm'.owner, g) {
      if g == t {
        LeafTable(vm, vm', d, v, e, None);
      } else {
        LoosePage(vm, d, v, g);
        LeafRole(vm, vm', d, v, e, g, None);
      }
    }
    OthersFrame(vm, vm', {t}, d);
  }

  lemma LoosePage(vm: Vm, d: nat, v: nat, g: nat)
    requires Inv(vm) && g in vm.owner && (v >= USER_PAGES || Lookup(vm.mem, d, v).None?)
    ensures vm.owner[g] != PageOf(d, v)
  {
    assert RoleOk(vm.mem, vm.owner, g);
  }

  /** New flags for a mapped user page. */
  lemma ReflagInv(vm: Vm, d: nat, v: nat, flags: Flags)
    requires Inv(vm) && HasRole(vm.owner, d, Dir) && v < USER_PAGES && Lookup(vm.mem, d, v).Some? && flags.present
    ensures Mappable(vm, d, v) && IsTable(vm.mem, TableFor(vm.mem, d, v / ENTRIES).value)
    ensures var e := Lookup(vm.mem, d, v).value.(flags := flags);
            var vm' := PutEntry(vm, d, v, e);
            && Inv(vm') && OthersKept(vm, vm', d)
            && forall w :: 0 <= w < PAGES ==> Lookup(vm'.mem, d, w) == if w == v then Some(e) else Lookup(vm.mem, d, w)
  {
    hide FreeOk;
    hide Linked;
    hide RoleOk;
    var t, e := TableFor(vm.mem, d, v / ENTRIES).value, Lookup(vm.mem, d, v).value.(flags := flags);
    TableRole(vm, d, v / ENTRIES);
    PageRole(vm, d, v);
    var vm' := PutEntry(vm, d, v, e);
    LinkedKept(vm, vm'.mem);
    forall w | 0 <= w < PAGES ensures Lookup(vm'.mem, d, w) == if w == v then Some(e) else Lookup(vm.mem, d, w) {
      LeafLookup(vm, d, v, e, w);
    }
    forall g | g in vm'.owner ensures RoleOk(vm'.mem, vm'.owner, g) {
      if g == t {
        LeafTable(vm, vm', d, v, e, None);
      } else if g == e.frame {
        MappedRole(vm', d, v, g);
      } else {
        OnePage(vm, d, v, g);
        LeafRole(vm, vm', d, v, e, g, None);
      }
    }
    OthersFrame(vm, vm', {t}, d);
  }

  /** Only the mapped frame belongs to a page. */
  lemma OnePage(vm: Vm, d: nat, v: nat, g: nat)
    requires Inv(vm) && g in vm.owner && Lookup(vm.mem, d, v).Some? && g != Lookup(vm.mem, d, v).value.frame
    ensures vm.owner[g] != PageOf(d, v)
  {
    assert RoleOk(vm.mem, vm.owner, g);
  }

  /** Unmapping returns the frame and leaves every other page alone. */
  lemma UnmapInv(vm: Vm, d: nat, v: nat)
    requires Inv(vm) && HasRole(vm.owner, d, Dir) && v < USER_PAGES && Lookup(vm.mem, d, v).Some?
    ensures Mappable(vm, d, v) && IsTable(vm.mem, TableFor(vm.mem, d, v / ENTRIES).value)
    ensures var vm' := UnmapPage(vm, d, v);
            && Inv(vm') && OthersKept(vm, vm', d)
            && (forall w :: 0 <= w < PAGES ==> Lookup(vm'.mem, d, w) == if w == v then None else Lookup(vm.mem, d, w))
            && HasRole(vm.owner, Lookup(vm.mem, d, v).value.frame, PageOf(d, v))
  {
    hide FreeOk;
    hide Linked;
    hide RoleOk;
    var t, f := TableFor(vm.mem, d, v / ENTRIES).value, Lookup(vm.mem, d, v).value.frame;
    TableRole(vm, d, v / ENTRIES);
    PageRole(vm, d, v);
    var vm' := UnmapPage(vm, d, v);
    PushFree(vm, f);
    UnmapLinked(vm, d, v);
    forall w | 0 <= w < PAGES ensures Lookup(vm'.mem, d, w) == if w == v then None else Lookup(vm.mem, d, w) {
      LeafLookup(vm, d, v, NO_PTE, w);
      LeafSame(vm, vm'.mem, d, v, NO_PTE, w);
    }
    forall g | g in vm'.owner ensures RoleOk(vm'.mem, vm'.owner, g) {
      if g == t {
        LeafTable(vm, vm', d, v, NO_PTE, Some(f));
      } else if g == f {
        FreeRole(vm', f);
      } else {
        OnePage(vm, d, v, g);
        LeafRole(vm, vm', d, v, NO_PTE, g, Some(f));
      }
    }
    OthersFrame(vm, vm', {t, f}, d);
  }

  lemma UnmapLinked(vm: Vm, d: nat, v: nat)
    requires Inv(vm) && HasRole(vm.owner, d, Dir) && v < USER_PAGES && Lookup(vm.mem, d, v).Some?
    ensures Mappable(vm, d, v) && IsTable(vm.mem, TableFor(vm.mem, d, v / ENTRIES).value)
    ensures var vm' := UnmapPage(vm, d, v); Linked(vm'.mem, vm'.free)
  {
    hide RoleOk;
    hide Linked;
    TableRole(vm, d, v / ENTRIES);
    PageRole(vm, d, v);
    var t, f := TableFor(vm.mem, d, v / ENTRIES).value, Lookup(vm.mem, d, v).value.frame;
    var mem1 := SetEntry(vm.mem, t, v % ENTRIES, NO_PTE);
    LinkedKept(vm, mem1);
    LinkedFront(mem1, vm.free, f);
  }

  lemma FreeRole(vm: Vm, f: nat)
    requires HasRole(vm.owner, f, Free)
    ensures RoleOk(vm.mem, vm.owner, f)
  {
  }
}
