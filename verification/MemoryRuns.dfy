/**
 Whole runs of the memory system: programs store, processes grow, shrink, fork and end, the
 kernel takes and gives pages, in any order and any number.
 */
module MemoryRuns {
  import opened Basics
  import opened PageTables
  import opened AddressSpaces
  import opened SpaceCopies

  datatype Event =
    | Take                                      // `allocatePhysicalMemoryPage`: a kernel stack, a pipe
    | Give(f: nat)                              // `freePhysicalMemoryPage` of such a page
    | Make(data: nat)                           // `setupKernelVirtualMemory`
    | Grow(d: nat, lo: nat, hi: nat)            // `allocateMemoryAndPageTables`
    | Shrink(d: nat, lo: nat, hi: nat)          // `releaseUserPages`
    | Fork(p: nat, n: nat, data: nat)           // `copyProcessPageTable`
    | Drop(d: nat)                              // `freeMemoryAndPageTable`
    | Write(d: nat, v: nat, bytes: seq<Byte>)   // a program stores into a page of its own
    | Clear(d: nat, v: nat)                     // `clearPTEU`
    | Leave(d: nat)                             // `exec` returns without the address space it was building

  /** The memory, the pages that the kernel has taken for itself, and the directories that nobody knows any more. */
  datatype Sys = Sys(vm: Vm, taken: set<nat>, left: set<nat>)

  /** A directory that somebody can still use. */
  ghost predicate Known(s: Sys, d: nat) {
    HasRole(s.vm.owner, d, Dir) && d !in s.left
  }

  ghost predicate Can(s: Sys, e: Event) {
    match e
    case Take => true
    case Give(f) => f in s.taken
    case Make(data) => DataPage(data)
    case Grow(d, lo, hi) => Known(s, d) && Growable(s.vm, d, lo, lo, hi)
    case Shrink(d, lo, hi) => Known(s, d) && hi <= USER_PAGES
    case Fork(p, n, data) => Known(s, p) && AllPresent(s.vm, p, n) && DataPage(data)
    case Drop(d) => Known(s, d)
    case Write(d, v, bytes) => Known(s, d) && CanStore(s.vm, Store(d, v, bytes))
    case Clear(d, v) => Known(s, d) && v < PAGES
    case Leave(d) => Known(s, d)
  }

  /** What an event makes of the memory. */
  ghost function Next(s: Sys, e: Event): Sys
    requires Inv(s.vm) && Can(s, e)
  {
    hide Inv;
    hide Growable;
    hide AllPresent;
    match e
    case Take => if s.vm.free == [] then s else s.(vm := Pop(s.vm), taken := s.taken + {s.vm.free[0]})
    case Give(f) => s.(vm := Push(s.vm, f), taken := s.taken - {f})
    case Make(data) => s.(vm := SetUp(s.vm, data).0)
    case Grow(d, lo, hi) => s.(vm := Allocated(s.vm, d, lo, lo, hi).0)
    case Shrink(d, lo, hi) => s.(vm := Released(s.vm, d, lo, hi))
    case Fork(p, n, data) => s.(vm := Copied(s.vm, p, n, data).0)
    case Drop(d) => s.(vm := Destroyed(s.vm, d))
    case Write(d, v, bytes) => s.(vm := Stored(s.vm, d, v, bytes))
    case Clear(d, v) => s.(vm := Cleared(s.vm, d, v).0)
    case Leave(d) => s.(left := s.left + {d})
  }

  /** The event is a copy that runs out of frames with a page in hand. */
  ghost predicate Loses(s: Sys, e: Event) {
    e.Fork? && Leaks(|s.vm.free| - 65, e.n)
  }

  /** The address space that the event is about; a copy only reads its parent. */
  function Subject(e: Event): Option<nat> {
    match e
    case Grow(d, _, _) => Some(d)
    case Shrink(d, _, _) => Some(d)
    case Drop(d) => Some(d)
    case Write(d, _, _) => Some(d)
    case Clear(d, _) => Some(d)
    case _ => None
  }

  // ---------------------------------------------------------------- frames that are lost

  ghost function HeldFrames(owner: Owners): set<nat> {
    set f | f in owner && owner[f] == Held
  }

  /** The directory that a frame belongs to. */
  function Home(r: Role, f: nat): Option<nat> {
    match r
    case Dir => Some(f)
    case TableOf(d, _) => Some(d)
    case PageOf(d, _) => Some(d)
    case _ => None
  }

  /** The frames of these directories. */
  ghost function FramesOf(owner: Owners, ds: set<nat>): set<nat> {
    set f | f in owner && Home(owner[f], f).Some? && Home(owner[f], f).value in ds
  }

  /** The pages taken are held by the kernel, and the directories left behind are still there. */
  ghost predicate Sound(s: Sys) {
    Inv(s.vm) && s.taken <= HeldFrames(s.vm.owner) && forall d :: d in s.left ==> HasRole(s.vm.owner, d, Dir)
  }

  /** Frames that nobody can give back: held but not in the kernel's hands, or of a directory left behind. */
  ghost function Astray(s: Sys): set<nat> {
    HeldFrames(s.vm.owner) - s.taken + FramesOf(s.vm.owner, s.left)
  }

  /** How many frames the event loses. */
  ghost function Cost(s: Sys, e: Event): nat {
    if Loses(s, e) then 1 else if e.Leave? then |FramesOf(s.vm.owner, {e.d})| else 0
  }

  /** Only frames of directory `d`, and frames of none, change roles. */
  ghost predicate OnlyFor(owner: Owners, owner': Owners, d: nat) {
    && owner'.Keys == owner.Keys
    && forall f :: f in owner ==>
         owner'[f] == owner[f] ||
         ((Home(owner[f], f) == None || Home(owner[f], f) == Some(d)) &&
          (Home(owner'[f], f) == None || Home(owner'[f], f) == Some(d)))
  }

  lemma LeftKept(owner: Owners, owner': Owners, d: nat, left: set<nat>)
    requires OnlyFor(owner, owner', d) && d !in left && forall g :: g in left ==> HasRole(owner, g, Dir)
    ensures FramesOf(owner', left) == FramesOf(owner, left) && forall g :: g in left ==> HasRole(owner', g, Dir)
  {
    forall g | g in left ensures HasRole(owner', g, Dir) {
      assert Home(owner[g], g) == Some(g);
    }
  }

  lemma GrowsOnlyFor(owner: Owners, owner': Owners, d: nat)
    requires Grows(owner, owner', d)
    ensures OnlyFor(owner, owner', d)
  {
  }

  // ---------------------------------------------------------------- one event

  /** Every address space but the subject's is there as before. */
  ghost predicate KeptBut(vm: Vm, vm': Vm, subject: Option<nat>) {
    forall g: nat :: HasRole(vm.owner, g, Dir) && subject != Some(g) ==>
      HasRole(vm'.owner, g, Dir) && SameSpace(vm.mem, vm'.mem, g)
  }

  ghost predicate EventOk(s: Sys, s': Sys, e: Event) {
    && Sound(s') && s'.vm.owner.Keys == s.vm.owner.Keys && KeptBut(s.vm, s'.vm, Subject(e))
    && Astray(s) <= Astray(s') && |Astray(s')| == |Astray(s)| + Cost(s, e)
  }

  lemma AllSame(mem: Memory)
    ensures forall g :: SameSpace(mem, mem, g)
  {
    forall g ensures SameSpace(mem, mem, g) { SameSpaceRefl(mem, g); }
  }

  lemma TakeOk(s: Sys, e: Event)
    requires Sound(s) && e.Take? && Can(s, e)
    ensures EventOk(s, Next(s, e), e)
  {
    hide Inv;
    hide SameSpace;
    hide Astray;
    hide HeldFrames;
    AllSame(s.vm.mem);
    if s.vm.free != [] {
      PopInv(s.vm);
      HandOver(s, Next(s, e), s.vm.free[0]);
    }
  }

  /** A frame goes from the free list into the kernel's hands, or back. */
  lemma HandOver(s: Sys, s': Sys, f: nat)
    requires s.taken <= HeldFrames(s.vm.owner) && forall d :: d in s.left ==> HasRole(s.vm.owner, d, Dir)
    requires s'.left == s.left
    requires
      || (HasRole(s.vm.owner, f, Free) && s'.vm.owner == s.vm.owner[f := Held] && s'.taken == s.taken + {f})
      || (f in s.taken && s'.vm.owner == s.vm.owner[f := Free] && s'.taken == s.taken - {f})
    ensures Astray(s') == Astray(s) && s'.taken <= HeldFrames(s'.vm.owner)
    ensures forall d :: d in s'.left ==> HasRole(s'.vm.owner, d, Dir)
  {
    LeftKept(s.vm.owner, s'.vm.owner, f, s.left);
    hide FramesOf;
    assert HeldFrames(s'.vm.owner) - s'.taken == HeldFrames(s.vm.owner) - s.taken;
  }

  lemma GiveOk(s: Sys, e: Event)
    requires Sound(s) && e.Give? && Can(s, e)
    ensures EventOk(s, Next(s, e), e)
  {
    hide Inv;
    hide SameSpace;
    hide Astray;
    assert HasRole(s.vm.owner, e.f, Held);
    hide HeldFrames;
    PushInv(s.vm, e.f);
    HandOver(s, Next(s, e), e.f);
  }

  /** Where no frame becomes held or stops being held, nothing goes astray. */
  lemma SameHeld(s: Sys, s': Sys, e: Event, d: nat)
    requires Sound(s) && Inv(s'.vm) && s'.taken == s.taken && s'.left == s.left && !Loses(s, e) && !e.Leave?
    requires OnlyFor(s.vm.owner, s'.vm.owner, d) && d !in s.left
    requires forall f :: f in s.vm.owner ==> (s'.vm.owner[f] == Held <==> s.vm.owner[f] == Held)
    requires KeptBut(s.vm, s'.vm, Subject(e))
    ensures EventOk(s, s', e)
  {
    hide Inv;
    hide KeptBut;
    LeftKept(s.vm.owner, s'.vm.owner, d, s.left);
    hide OnlyFor;
    hide FramesOf;
    assert HeldFrames(s'.vm.owner) == HeldFrames(s.vm.owner);
  }

  lemma MakeOk(s: Sys, e: Event)
    requires Sound(s) && e.Make? && Can(s, e)
    ensures EventOk(s, Next(s, e), e)
  {
    hide Inv;
    hide SameSpace;
    hide SetUp;
    hide Built;
    hide EventOk;
    SetUpOk(s.vm, e.data);
    var (vm', r) := SetUp(s.vm, e.data);
    if r.Some? {
      GrowsOnlyFor(s.vm.owner, vm'.owner, r.value);
      SameHeld(s, Next(s, e), e, r.value);
    } else {
      SameRoles(s, Next(s, e), e);
    }
  }

  /** Where no role changes at all. */
  lemma SameRoles(s: Sys, s': Sys, e: Event)
    requires Sound(s) && Inv(s'.vm) && s'.taken == s.taken && s'.left == s.left && !Loses(s, e) && !e.Leave?
    requires s'.vm.owner == s.vm.owner && KeptBut(s.vm, s'.vm, Subject(e))
    ensures EventOk(s, s', e)
  {
    hide Inv;
    hide KeptBut;
  }

  lemma GrowOk(s: Sys, e: Event)
    requires Sound(s) && e.Grow? && Can(s, e)
    ensures EventOk(s, Next(s, e), e)
  {
    hide Inv;
    hide SameSpace;
    hide Lookup;
    hide EventOk;
    AllocatedOk(s.vm, e.d, e.lo, e.lo, e.hi);
    hide Allocated;
    SameHeld(s, Next(s, e), e, e.d);
  }

  lemma ShrinkOk(s: Sys, e: Event)
    requires Sound(s) && e.Shrink? && Can(s, e)
    ensures EventOk(s, Next(s, e), e)
  {
    hide Inv;
    hide SameSpace;
    hide Lookup;
    hide EventOk;
    ReleasedOk(s.vm, e.d, e.lo, e.hi);
    hide Released;
    SameHeld(s, Next(s, e), e, e.d);
  }

  lemma DropOk(s: Sys, e: Event)
    requires Sound(s) && e.Drop? && Can(s, e)
    ensures EventOk(s, Next(s, e), e)
  {
    hide Inv;
    hide SameSpace;
    hide EventOk;
    DestroyedOk(s.vm, e.d);
    hide Destroyed;
    SameHeld(s, Next(s, e), e, e.d);
  }

  lemma WriteOk(s: Sys, e: Event)
    requires Sound(s) && e.Write? && Can(s, e)
    ensures EventOk(s, Next(s, e), e)
  {
    hide Inv;
    hide SameSpace;
    hide Lookup;
    hide EventOk;
    StoreStays(s.vm, e.d, e.v, e.bytes);
    SameRoles(s, Next(s, e), e);
  }

  lemma ClearOk(s: Sys, e: Event)
    requires Sound(s) && e.Clear? && Can(s, e)
    ensures EventOk(s, Next(s, e), e)
  {
    hide Inv;
    hide SameSpace;
    hide Lookup;
    hide EventOk;
    ClearedOk(s.vm, e.d, e.v);
    hide Cleared;
    SameRoles(s, Next(s, e), e);
  }

  /** The frames of one directory more, none of which was astray before. */
  lemma LeaveOk(s: Sys, e: Event)
    requires Sound(s) && e.Leave? && Can(s, e)
    ensures EventOk(s, Next(s, e), e)
  {
    hide Inv;
    hide SameSpace;
    AllSame(s.vm.mem);
    var s' := Next(s, e);
    var more := FramesOf(s.vm.owner, {e.d});
    assert Astray(s') == Astray(s) + more;
    assert Astray(s) !! more;
  }

  ghost predicate GrowsBy(owner: Owners, owner': Owners) {
    exists d :: HasRole(owner, d, Free) && Grows(owner, owner', d)
  }

  /** A copy that does not lose a page has taken free frames for the child, or none. */
  lemma ForkKeeps(s: Sys, s': Sys, e: Event)
    requires Sound(s) && Inv(s'.vm) && AllKept(s.vm, s'.vm) && s'.taken == s.taken && s'.left == s.left
    requires e.Fork? && !Loses(s, e) && (s'.vm.owner == s.vm.owner || GrowsBy(s.vm.owner, s'.vm.owner))
    ensures EventOk(s, s', e)
  {
    hide Inv;
    hide SameSpace;
    hide Loses;
    hide EventOk;
    if s'.vm.owner == s.vm.owner {
      SameRoles(s, s', e);
    } else {
      var d :| HasRole(s.vm.owner, d, Free) && Grows(s.vm.owner, s'.vm.owner, d);
      GrowsOnlyFor(s.vm.owner, s'.vm.owner, d);
      SameHeld(s, s', e, d);
    }
  }

  lemma ForkLoses(s: Sys, s': Sys, e: Event)
    requires Sound(s) && Inv(s'.vm) && AllKept(s.vm, s'.vm) && s'.taken == s.taken && s'.left == s.left
    requires e.Fork? && Loses(s, e) && LosesFrame(s.vm, s'.vm)
    ensures EventOk(s, s', e)
  {
    hide Inv;
    hide SameSpace;
    hide Loses;
    hide Astray;
    hide HeldFrames;
    var f :| HasRole(s.vm.owner, f, Free) && s'.vm.owner == s.vm.owner[f := Held];
    GoesAstray(s, s', f);
  }

  /** A free frame is held, and nobody knows. */
  lemma GoesAstray(s: Sys, s': Sys, f: nat)
    requires s.taken <= HeldFrames(s.vm.owner) && forall d :: d in s.left ==> HasRole(s.vm.owner, d, Dir)
    requires HasRole(s.vm.owner, f, Free) && s'.vm.owner == s.vm.owner[f := Held]
    requires s'.taken == s.taken && s'.left == s.left
    ensures Astray(s') == Astray(s) + {f} && f !in Astray(s) && s'.taken <= HeldFrames(s'.vm.owner)
    ensures forall d :: d in s'.left ==> HasRole(s'.vm.owner, d, Dir)
  {
    LeftKept(s.vm.owner, s'.vm.owner, f, s.left);
    assert f !in FramesOf(s.vm.owner, s.left);
    hide FramesOf;
    assert HeldFrames(s'.vm.owner) == HeldFrames(s.vm.owner) + {f};
  }

  lemma ForkOk(s: Sys, e: Event)
    requires Sound(s) && e.Fork? && Can(s, e)
    ensures EventOk(s, Next(s, e), e)
  {
    hide Inv;
    hide AllKept;
    hide Lookup;
    hide PageCopied;
    hide Leaks;
    hide Grows;
    hide Copied;
    hide EventOk;
    CopyCases(s.vm, e.p, e.n, e.data);
    if Loses(s, e) {
      ForkLoses(s, Next(s, e), e);
    } else {
      ForkKeeps(s, Next(s, e), e);
    }
  }

  lemma NextOk(s: Sys, e: Event)
    requires Sound(s) && Can(s, e)
    ensures EventOk(s, Next(s, e), e)
  {
    hide Inv;
    hide EventOk;
    match e
    case Take => TakeOk(s, e);
    case Give(_) => GiveOk(s, e);
    case Make(_) => MakeOk(s, e);
    case Grow(_, _, _) => GrowOk(s, e);
    case Shrink(_, _, _) => ShrinkOk(s, e);
    case Fork(_, _, _) => ForkOk(s, e);
    case Drop(_) => DropOk(s, e);
    case Write(_, _, _) => WriteOk(s, e);
    case Clear(_, _) => ClearOk(s, e);
    case Leave(_) => LeaveOk(s, e);
  }

  // ---------------------------------------------------------------- runs

  /** Each event is possible when it comes. */
  ghost predicate Legal(s: Sys, events: seq<Event>)
    requires Sound(s)
    decreases events
  {
    events == [] || (Can(s, events[0]) && (NextOk(s, events[0]); Legal(Next(s, events[0]), events[1..])))
  }

  ghost function After(s: Sys, events: seq<Event>): Sys
    requires Sound(s) && Legal(s, events)
    decreases events
  {
    if events == [] then s else NextOk(s, events[0]); After(Next(s, events[0]), events[1..])
  }

  /** How many frames the events lose: one for each copy that loses a page, and all those of a directory left behind. */
  ghost function Losses(s: Sys, events: seq<Event>): nat
    requires Sound(s) && Legal(s, events)
    decreases events
  {
    if events == [] then 0
    else
      NextOk(s, events[0]);
      Cost(s, events[0]) + Losses(Next(s, events[0]), events[1..])
  }

  /**
   Through every run, memory stays sound, no frame is added or removed, no frame that has gone astray comes back, and
   as many have gone astray as the copies without room and the abandoned loads account for.
   */
  lemma {:induction false} FramesAccounted(s: Sys, events: seq<Event>)
    requires Sound(s) && Legal(s, events)
    ensures var s' := After(s, events);
            && Sound(s') && s'.vm.owner.Keys == s.vm.owner.Keys
            && Astray(s) <= Astray(s') && |Astray(s')| == |Astray(s)| + Losses(s, events)
    decreases events
  {
    hide Inv;
    hide Next;
    if events != [] {
      NextOk(s, events[0]);
      var s1 := Next(s, events[0]);
      FramesAccounted(s1, events[1..]);
    }
  }

  /** No copy of the run is without room for a page in hand, and no load is abandoned. */
  ghost predicate Careful(s: Sys, events: seq<Event>)
    requires Sound(s) && Legal(s, events)
    decreases events
  {
    events == [] ||
    (!Loses(s, events[0]) && !events[0].Leave? && (NextOk(s, events[0]); Careful(Next(s, events[0]), events[1..])))
  }

  lemma CostExactly(s: Sys, e: Event)
    requires Can(s, e)
    ensures Cost(s, e) == 0 <==> !Loses(s, e) && !e.Leave?
  {
    if e.Leave? { assert e.d in FramesOf(s.vm.owner, {e.d}); }
  }

  /** A run keeps every frame within reach if and only if none of its events is one of these. */
  lemma {:induction false} NothingLost(s: Sys, events: seq<Event>)
    requires Sound(s) && Legal(s, events)
    ensures Astray(After(s, events)) == Astray(s) <==> Careful(s, events)
    ensures Losses(s, events) == 0 <==> Careful(s, events)
    decreases events
  {
    hide Inv;
    hide Next;
    hide Loses;
    FramesAccounted(s, events);
    if events != [] {
      CostExactly(s, events[0]);
      NextOk(s, events[0]);
      NothingLost(Next(s, events[0]), events[1..]);
    }
    hide Careful;
    hide Losses;
    hide After;
    if Losses(s, events) == 0 { SameSize(Astray(s), Astray(After(s, events))); }
  }

  lemma SameSize(a: set<nat>, b: set<nat>)
    requires a <= b && |a| == |b|
    ensures a == b
  {
    assert |b - a| == 0;
  }

  /** Whatever the others do, an address space stays as it is, until it is itself the subject. */
  lemma {:induction false} SpacesApart(s: Sys, events: seq<Event>, d: nat)
    requires Sound(s) && Legal(s, events) && HasRole(s.vm.owner, d, Dir)
    requires forall k :: 0 <= k < |events| ==> Subject(events[k]) != Some(d)
    ensures var s' := After(s, events); HasRole(s'.vm.owner, d, Dir) && SameSpace(s.vm.mem, s'.vm.mem, d)
    decreases events
  {
    hide Inv;
    hide Next;
    hide SameSpace;
    if events == [] {
      SameSpaceRefl(s.vm.mem, d);
    } else {
      NextOk(s, events[0]);
      var s1 := Next(s, events[0]);
      SpacesApart(s1, events[1..], d);
      SpaceTrans(s.vm.mem, s1.vm.mem, After(s1, events[1..]).vm.mem, d);
    }
  }

  // ---------------------------------------------------------------- where every frame is

  /** The frames of the address spaces that somebody can still use. */
  ghost function KnownFrames(s: Sys): set<nat> {
    set f | f in s.vm.owner && Home(s.vm.owner[f], f).Some? && Home(s.vm.owner[f], f).value !in s.left
  }

  /** Free, taken, in a known address space, or astray: the four kinds make up all of memory. */
  lemma FourKinds(s: Sys)
    requires Sound(s)
    ensures |s.vm.owner.Keys| == |s.vm.free| + |s.taken| + |KnownFrames(s)| + |Astray(s)|
  {
    FreeSize(s.vm);
    KindsApart(s);
    hide *;
    Apart(FreeFrames(s.vm.owner), s.taken, KnownFrames(s), Astray(s));
  }

  lemma KindsApart(s: Sys)
    requires s.taken <= HeldFrames(s.vm.owner)
    ensures var free, known, astray := FreeFrames(s.vm.owner), KnownFrames(s), Astray(s);
            && s.vm.owner.Keys == free + s.taken + known + astray
            && free !! s.taken !! known !! astray
  {
  }

  lemma Apart(a: set<nat>, b: set<nat>, c: set<nat>, d: set<nat>)
    requires a !! b !! c !! d
    ensures |a + b + c + d| == |a| + |b| + |c| + |d|
  {
  }
}
