/**
 The process table: creation, exit, wait, sleep, wakeup, kill and scheduling, as a
 transition system.  A step is one critical section of `processTable.Lock`, or one of
 the stores that `fork` makes to a slot it has claimed without holding the lock; so
 the lock is free between any two steps.
 */
module ProcessTable {
  import opened Basics

  datatype ProcState = Unused | Embryo | Sleeping | Runnable | Running | Zombie

  /** Sleep channels are addresses: that of a process slot in `wait`, anything else elsewhere. */
  datatype Chan = OfProcess(p: nat) | Elsewhere(id: nat)

  /**
   A slot.  `stack` and `pages` name the allocations of its kernel stack and page table,
   `image` that of the page table which `exec` is filling for it.
   */
  datatype Slot = Slot(state: ProcState, pid: nat, parent: Option<nat>, chan: Option<Chan>, killed: bool,
                       stack: Option<nat>, pages: Option<nat>, image: Option<nat>)

  /** How far a process has come in `fork`; `child` is the slot it has claimed. */
  datatype Activity =
    | Free
    | Claimed(child: nat)   // EMBRYO, no kernel stack yet
    | Stacked(child: nat)   // allocateProcess has returned
    | Paged(child: nat)     // page table copied
    | Adopted(child: nat)   // Parent stored

  /** How `exec` ends once it has a page table. */
  datatype ExecEnd =
    | Committed   // the new page table replaces the old one
    | CleanedUp   // `cleanupExec`
    | Abandoned   // a section header is cut short: exec returns without `cleanupExec`

  datatype State = State(
    slots: seq<Slot>,
    act: seq<Activity>,
    cpu: seq<Option<nat>>,
    init: nat,
    nextPid: nat,
    nextAlloc: nat,      // names for allocations, in order
    freed: seq<nat>,     // allocations given back, in order
    lost: set<nat>,      // allocations dropped without being given back
    reaped: seq<nat>)    // pids returned by wait, in order

  // ---------------------------------------------------------------- what the loops compute

  function FindUnused(slots: seq<Slot>, i: nat): (r: Option<nat>)
    requires i <= |slots|
    ensures r.Some? ==> i <= r.value < |slots| && slots[r.value].state.Unused?
    ensures r.Some? ==> forall j :: i <= j < r.value ==> !slots[j].state.Unused?
    ensures r.None? ==> forall j :: i <= j < |slots| ==> !slots[j].state.Unused?
    decreases |slots| - i
  {
    if i == |slots| then None else if slots[i].state.Unused? then Some(i) else FindUnused(slots, i + 1)
  }

  predicate SleepsOn(slot: Slot, chan: Chan) {
    slot.state.Sleeping? && slot.chan == Some(chan)
  }

  /** `wakeup1`. */
  function Wake(slots: seq<Slot>, chan: Chan): (r: seq<Slot>)
    ensures |r| == |slots|
  {
    seq(|slots|, q requires 0 <= q < |slots| => if SleepsOn(slots[q], chan)
      then slots[q].(state := Runnable) else slots[q])
  }

  /** Children of `p` pass to `init`. */
  function Reparent(slots: seq<Slot>, p: nat, init: nat): (r: seq<Slot>)
    ensures |r| == |slots|
  {
    seq(|slots|, q requires 0 <= q < |slots| => if slots[q].parent == Some(p)
      then slots[q].(parent := Some(init)) else slots[q])
  }

  predicate IsZombieChild(slot: Slot, p: nat) {
    slot.parent == Some(p) && slot.state.Zombie?
  }

  predicate HasZombieChild(slots: seq<Slot>, p: nat) {
    exists q :: 0 <= q < |slots| && IsZombieChild(slots[q], p)
  }

  predicate HasChild(slots: seq<Slot>, p: nat) {
    exists q :: 0 <= q < |slots| && slots[q].parent == Some(p)
  }

  /** The critical section of `exit`. */
  function Exited(slots: seq<Slot>, p: nat, init: nat): (r: seq<Slot>)
    requires p < |slots| && slots[p].parent.Some?
    ensures |r| == |slots|
  {
    var woken := Wake(slots, OfProcess(slots[p].parent.value));
    var passed := Reparent(woken, p, init);
    var settled := if HasZombieChild(woken, p) then Wake(passed, OfProcess(init)) else passed;
    settled[p := settled[p].(state := Zombie)]
  }

  /** The first zombie child of `p` at or after slot `i`. */
  function FindZombie(slots: seq<Slot>, p: nat, i: nat): (r: Option<nat>)
    requires i <= |slots|
    ensures r.Some? ==> i <= r.value < |slots| && IsZombieChild(slots[r.value], p)
    ensures r.Some? ==> forall j :: i <= j < r.value ==> !IsZombieChild(slots[j], p)
    ensures r.None? ==> forall j :: i <= j < |slots| ==> !IsZombieChild(slots[j], p)
    decreases |slots| - i
  {
    if i == |slots| then None else if IsZombieChild(slots[i], p) then Some(i) else FindZombie(slots, p, i + 1)
  }

  function FindPid(slots: seq<Slot>, pid: nat, i: nat): (r: Option<nat>)
    requires i <= |slots|
    ensures r.Some? ==> i <= r.value < |slots| && slots[r.value].pid == pid
    ensures r.Some? ==> forall j :: i <= j < r.value ==> slots[j].pid != pid
    ensures r.None? ==> forall j :: i <= j < |slots| ==> slots[j].pid != pid
    decreases |slots| - i
  {
    if i == |slots| then None else if slots[i].pid == pid then Some(i) else FindPid(slots, pid, i + 1)
  }

  /** What `wait` leaves in the slot of the child it returns. */
  function Reaped(slot: Slot): Slot {
    slot.(state := Unused, pid := 0, parent := None, killed := false, stack := None, pages := None)
  }

  function Killed(slot: Slot): Slot {
    slot.(killed := true, state := if slot.state.Sleeping? then Runnable else slot.state)
  }

  // ---------------------------------------------------------------- steps

  ghost predicate Sized(s: State) {
    |s.act| == |s.slots| && s.init < |s.slots|
  }

  /** Process `p` is running on CPU `c`. */
  ghost predicate Runs(s: State, c: nat, p: nat) {
    Sized(s) && c < |s.cpu| && p < |s.slots| && s.cpu[c] == Some(p)
  }

  function SetSlot(s: State, q: nat, slot: Slot): State
    requires q < |s.slots|
  {
    s.(slots := s.slots[q := slot])
  }

  function SetAct(s: State, p: nat, act: Activity): State
    requires p < |s.act|
  {
    s.(act := s.act[p := act])
  }

  /** Process `p` is in neither `fork` nor `exec`. */
  ghost predicate Idle(s: State, p: nat)
    requires p < |s.act| && p < |s.slots|
  {
    s.act[p].Free? && s.slots[p].image.None?
  }

  /** `allocateProcess`, under the lock. */
  ghost predicate ClaimStep(s: State, s': State, c: nat, p: nat) {
    && Runs(s, c, p) && Idle(s, p)
    && var found := FindUnused(s.slots, 0);
       && found.Some?
       && var q := found.value;
          s' == SetAct(SetSlot(s, q, s.slots[q].(state := Embryo, pid := s.nextPid)), p,
            Claimed(q)).(nextPid := s.nextPid + 1)
  }

  /** The kernel stack is allocated, or the slot goes back. */
  ghost predicate StackStep(s: State, s': State, c: nat, p: nat, ok: bool) {
    && Runs(s, c, p) && s.act[p].Claimed? && s.act[p].child < |s.slots|
    && var q := s.act[p].child;
       s' == if ok then SetAct(SetSlot(s, q, s.slots[q].(stack := Some(s.nextAlloc))), p,
         Stacked(q)).(nextAlloc := s.nextAlloc + 1)
             else SetAct(SetSlot(s, q, s.slots[q].(state := Unused)), p, Free)
  }

  /** `copyProcessPageTable` succeeds, or the stack and the slot go back. */
  ghost predicate CopyStep(s: State, s': State, c: nat, p: nat, ok: bool) {
    && Runs(s, c, p) && s.act[p].Stacked? && s.act[p].child < |s.slots|
    && var q := s.act[p].child;
       && s.slots[q].stack.Some?
       && s' == if ok then SetAct(SetSlot(s, q, s.slots[q].(pages := Some(s.nextAlloc))), p,
            Paged(q)).(nextAlloc := s.nextAlloc + 1)
                else SetAct(SetSlot(s, q, s.slots[q].(stack := None, state := Unused)), p,
                  Free).(freed := s.freed + [s.slots[q].stack.value])
  }

  /** `np->Parent = curproc`, without the lock. */
  ghost predicate AdoptStep(s: State, s': State, c: nat, p: nat) {
    && Runs(s, c, p) && s.act[p].Paged? && s.act[p].child < |s.slots|
    && var q := s.act[p].child;
       s' == SetAct(SetSlot(s, q, s.slots[q].(parent := Some(p))), p, Adopted(q))
  }

  /** The child becomes RUNNABLE. */
  ghost predicate LaunchStep(s: State, s': State, c: nat, p: nat) {
    && Runs(s, c, p) && s.act[p].Adopted? && s.act[p].child < |s.slots|
    && var q := s.act[p].child;
       s' == SetAct(SetSlot(s, q, s.slots[q].(state := Runnable)), p, Free)
  }

  ghost predicate ExitStep(s: State, s': State, c: nat, p: nat) {
    && Runs(s, c, p) && Idle(s, p) && p != s.init && s.slots[p].parent.Some?
    && s' == s.(slots := Exited(s.slots, p, s.init), cpu := s.cpu[c := None])
  }

  ghost predicate ReapStep(s: State, s': State, c: nat, p: nat) {
    && Runs(s, c, p) && Idle(s, p)
    && var found := FindZombie(s.slots, p, 0);
       && found.Some?
       && var q := found.value;
          && s.slots[q].stack.Some? && s.slots[q].pages.Some?
          && s' == SetSlot(s, q, Reaped(s.slots[q])).(
                     freed := s.freed + [s.slots[q].stack.value, s.slots[q].pages.value],
                     reaped := s.reaped + [s.slots[q].pid])
  }

  /** `wait` finds children, none of them dead. */
  ghost predicate WaitStep(s: State, s': State, c: nat, p: nat) {
    && Runs(s, c, p) && Idle(s, p) && HasChild(s.slots, p) && FindZombie(s.slots, p, 0).None? && !s.slots[p].killed
    && s' == SetSlot(s, p, s.slots[p].(state := Sleeping, chan := Some(OfProcess(p)))).(cpu := s.cpu[c := None])
  }

  /** `exec` has its empty page table. */
  ghost predicate BuildStep(s: State, s': State, c: nat, p: nat) {
    && Runs(s, c, p) && Idle(s, p)
    && s' == SetSlot(s, p, s.slots[p].(image := Some(s.nextAlloc))).(nextAlloc := s.nextAlloc + 1)
  }

  ghost predicate ExecStep(s: State, s': State, c: nat, p: nat, end: ExecEnd) {
    && Runs(s, c, p) && s.slots[p].image.Some? && s.slots[p].pages.Some?
    && match end
       case Committed => s' == SetSlot(s, p, s.slots[p].(pages := s.slots[p].image, image := None)).(
                                 freed := s.freed + [s.slots[p].pages.value])
       case CleanedUp => s' == SetSlot(s, p, s.slots[p].(image := None)).(freed := s.freed + [s.slots[p].image.value])
       case Abandoned => s' == SetSlot(s, p, s.slots[p].(image := None)).(lost := s.lost + {s.slots[p].image.value})
  }

  ghost predicate SleepStep(s: State, s': State, c: nat, p: nat, id: nat) {
    && Runs(s, c, p) && s.act[p].Free?
    && s' == SetSlot(s, p, s.slots[p].(state := Sleeping, chan := Some(Elsewhere(id)))).(cpu := s.cpu[c := None])
  }

  ghost predicate WakeupStep(s: State, s': State, id: nat) {
    Sized(s) && s' == s.(slots := Wake(s.slots, Elsewhere(id)))
  }

  ghost predicate KillStep(s: State, s': State, pid: nat) {
    && Sized(s) && pid > 0
    && var found := FindPid(s.slots, pid, 0);
       && found.Some?
       && s' == SetSlot(s, found.value, Killed(s.slots[found.value]))
  }

  ghost predicate YieldStep(s: State, s': State, c: nat, p: nat) {
    && Runs(s, c, p)
    && s' == SetSlot(s, p, s.slots[p].(state := Runnable)).(cpu := s.cpu[c := None])
  }

  ghost predicate ScheduleStep(s: State, s': State, c: nat, p: nat) {
    && Sized(s) && c < |s.cpu| && s.cpu[c] == None && p < |s.slots| && s.slots[p].state.Runnable?
    && s' == SetSlot(s, p, s.slots[p].(state := Running, chan := None)).(cpu := s.cpu[c := Some(p)])
  }

  ghost predicate Step(s: State, s': State) {
    || (exists c, p :: ClaimStep(s, s', c, p))
    || (exists c, p, ok :: StackStep(s, s', c, p, ok))
    || (exists c, p, ok :: CopyStep(s, s', c, p, ok))
    || (exists c, p :: AdoptStep(s, s', c, p))
    || (exists c, p :: LaunchStep(s, s', c, p))
    || (exists c, p :: ExitStep(s, s', c, p))
    || (exists c, p :: ReapStep(s, s', c, p))
    || (exists c, p :: WaitStep(s, s', c, p))
    || (exists c, p :: BuildStep(s, s', c, p))
    || (exists c, p, end :: ExecStep(s, s', c, p, end))
    || (exists c, p, id :: SleepStep(s, s', c, p, id))
    || (exists id :: WakeupStep(s, s', id))
    || (exists pid :: KillStep(s, s', pid))
    || (exists c, p :: YieldStep(s, s', c, p))
    || (exists c, p :: ScheduleStep(s, s', c, p))
  }

  // ---------------------------------------------------------------- invariants

  /** A process that can be pointed to as a parent. */
  predicate Alive(slot: Slot) {
    slot.state.Sleeping? || slot.state.Runnable? || slot.state.Running?
  }

  /** What a slot owns in each state. */
  ghost predicate SlotOk(slot: Slot) {
    (slot.chan.Some? ==> slot.state.Sleeping? || slot.state.Runnable?) &&
    match slot.state
    case Unused => slot.parent.None? && slot.stack.None? && slot.pages.None? && slot.image.None? &&
                   (slot.killed ==> slot.pid > 0)
    case Embryo => slot.image.None?
    case Zombie => slot.stack.Some? && slot.pages.Some? && slot.image.None?
    case _ => slot.stack.Some? && slot.pages.Some?
  }

  /** A process in `fork` is able to run, and its claimed slot is as far as it has brought it. */
  ghost predicate ForkOk(s: State, p: nat)
    requires Sized(s) && p < |s.act|
  {
    s.act[p].Free? ||
    (&& (s.slots[p].state.Running? || s.slots[p].state.Runnable?)
     && s.act[p].child < |s.slots|
     && var slot := s.slots[s.act[p].child];
        && slot.state.Embryo?
        && match s.act[p]
           case Claimed(_) => slot.stack.None? && slot.pages.None? && slot.parent.None?
           case Stacked(_) => slot.stack.Some? && slot.pages.None? && slot.parent.None?
           case Paged(_) => slot.stack.Some? && slot.pages.Some? && slot.parent.None?
           case Adopted(_) => slot.stack.Some? && slot.pages.Some? && slot.parent == Some(p)
           case Free => true)
  }

  /** Every claimed slot is claimed once; an unfinished child with a parent is the parent's own. */
  ghost predicate ClaimsOk(s: State)
    requires Sized(s)
  {
    && (forall p :: 0 <= p < |s.act| ==> ForkOk(s, p))
    && (forall p, q :: 0 <= p < q < |s.act| && !s.act[p].Free? && !s.act[q].Free? ==> s.act[p].child != s.act[q].child)
    && (forall q :: 0 <= q < |s.slots| && s.slots[q].state.Embryo? && s.slots[q].parent.Some? ==>
          s.slots[q].parent.value < |s.act| && s.act[s.slots[q].parent.value] == Adopted(q))
  }

  ghost predicate ParentOk(slots: seq<Slot>, q: nat)
    requires q < |slots|
  {
    slots[q].parent.Some? ==>
      var r := slots[q].parent.value;
      r < |slots| && r != q && Alive(slots[r])
  }

  /** No parent pointer refers to a dead, unborn or unused slot, or to the slot itself. */
  ghost predicate ParentsOk(slots: seq<Slot>) {
    forall q :: 0 <= q < |slots| ==> ParentOk(slots, q)
  }

  /** Every process but the first has a parent. */
  ghost predicate FamilyOk(slots: seq<Slot>, init: nat) {
    forall q :: 0 <= q < |slots| && q != init && !slots[q].state.Unused? && !slots[q].state.Embryo? ==>
      slots[q].parent.Some?
  }

  ghost predicate CpuRuns(slots: seq<Slot>, p: Option<nat>) {
    p.Some? ==> p.value < |slots| && slots[p.value].state.Running?
  }

  /** Each CPU runs a running process, and each running process is on exactly one CPU. */
  ghost predicate CpusOk(slots: seq<Slot>, cpu: seq<Option<nat>>) {
    && (forall c :: 0 <= c < |cpu| ==> CpuRuns(slots, cpu[c]))
    && (forall c, d :: 0 <= c < |cpu| && 0 <= d < |cpu| && cpu[c].Some? && cpu[c] == cpu[d] ==> c == d)
    && (forall p :: 0 <= p < |slots| && slots[p].state.Running? ==> exists c :: 0 <= c < |cpu| && cpu[c] == Some(p))
  }

  /** A process asleep in `wait` sleeps on its own slot and has no dead child. */
  ghost predicate WaitersOk(slots: seq<Slot>) {
    && (forall p, r :: 0 <= p < |slots| && SleepsOn(slots[p], OfProcess(r)) ==> r == p)
    && (forall p, q :: 0 <= p < |slots| && 0 <= q < |slots| && SleepsOn(slots[p], OfProcess(p)) ==>
         !IsZombieChild(slots[q], p))
  }

  /** Pids are handed out once; a failed `fork` leaves its pid behind in an UNUSED slot. */
  ghost predicate PidsOk(slots: seq<Slot>, nextPid: nat, reaped: seq<nat>) {
    && nextPid > 0
    && (forall p :: 0 <= p < |slots| && !slots[p].state.Unused? ==> slots[p].pid > 0)
    && (forall p :: 0 <= p < |slots| && slots[p].pid > 0 ==> slots[p].pid < nextPid && slots[p].pid !in reaped)
    && (forall p, q :: 0 <= p < q < |slots| && slots[p].pid > 0 ==> slots[p].pid != slots[q].pid)
    && (forall i :: 0 <= i < |reaped| ==> 0 < reaped[i] < nextPid)
    && (forall i, j :: 0 <= i < j < |reaped| ==> reaped[i] != reaped[j])
  }

  predicate Owns(slot: Slot, a: nat) {
    slot.stack == Some(a) || slot.pages == Some(a) || slot.image == Some(a)
  }

  ghost predicate OwnsApart(slot: Slot) {
    && (slot.stack.Some? ==> slot.stack != slot.pages && slot.stack != slot.image)
    && (slot.pages.Some? ==> slot.pages != slot.image)
  }

  ghost predicate Owned(slots: seq<Slot>, a: nat) {
    exists q :: 0 <= q < |slots| && Owns(slots[q], a)
  }

  ghost predicate InUse(a: nat, nextAlloc: nat, freed: seq<nat>, lost: set<nat>) {
    a < nextAlloc && a !in freed && a !in lost
  }

  /** Every allocation has one owner, or has been given back once, or was lost. */
  ghost predicate AllocsOk(slots: seq<Slot>, nextAlloc: nat, freed: seq<nat>, lost: set<nat>) {
    && (forall q, a: nat :: 0 <= q < |slots| && Owns(slots[q], a) ==> InUse(a, nextAlloc, freed, lost))
    && (forall q, r, a: nat :: 0 <= q < |slots| && 0 <= r < |slots| && Owns(slots[q], a) && Owns(slots[r], a) ==>
         q == r)
    && (forall q :: 0 <= q < |slots| ==> OwnsApart(slots[q]))
    && (forall i :: 0 <= i < |freed| ==> freed[i] < nextAlloc && freed[i] !in lost)
    && (forall a :: a in lost ==> a < nextAlloc)
    && (forall i, j :: 0 <= i < j < |freed| ==> freed[i] != freed[j])
    && (forall a: nat :: InUse(a, nextAlloc, freed, lost) ==> Owned(slots, a))
  }

  ghost predicate Inv(s: State) {
    && Sized(s) && Alive(s.slots[s.init]) && s.slots[s.init].parent.None?
    && (forall q :: 0 <= q < |s.slots| ==> SlotOk(s.slots[q]))
    && ClaimsOk(s) && ParentsOk(s.slots) && FamilyOk(s.slots, s.init) && CpusOk(s.slots, s.cpu) && WaitersOk(s.slots)
    && PidsOk(s.slots, s.nextPid, s.reaped) && AllocsOk(s.slots, s.nextAlloc, s.freed, s.lost)
  }

  // ---------------------------------------------------------------- frames

  /** Slots change neither identity nor property. */
  ghost predicate SameIdentity(slots: seq<Slot>, slots': seq<Slot>) {
    && |slots'| == |slots|
    && forall q :: 0 <= q < |slots| ==>
         && slots'[q].pid == slots[q].pid && slots'[q].stack == slots[q].stack && slots'[q].pages == slots[q].pages
         && slots'[q].image == slots[q].image && (slots[q].pid == 0 ==> slots'[q].killed == slots[q].killed)
         && slots'[q].state.Unused? == slots[q].state.Unused? && slots'[q].state.Embryo? == slots[q].state.Embryo?
  }

  lemma IdentityPids(slots: seq<Slot>, slots': seq<Slot>, nextPid: nat, reaped: seq<nat>)
    requires SameIdentity(slots, slots') && PidsOk(slots, nextPid, reaped)
    ensures PidsOk(slots', nextPid, reaped)
  {
  }

  lemma OwnersKept(slots: seq<Slot>, slots': seq<Slot>, nextAlloc: nat, freed: seq<nat>, lost: set<nat>)
    requires AllocsOk(slots, nextAlloc, freed, lost) && |slots'| == |slots|
    requires forall q :: 0 <= q < |slots| ==> OwnsApart(slots'[q])
    requires forall q, a: nat :: 0 <= q < |slots| ==> Owns(slots'[q], a) == Owns(slots[q], a)
    ensures AllocsOk(slots', nextAlloc, freed, lost)
  {
    hide OwnsApart;
    hide Owns;
    hide InUse;
    forall a: nat | InUse(a, nextAlloc, freed, lost) ensures Owned(slots', a) {
      assert Owned(slots, a);
      var q :| 0 <= q < |slots| && Owns(slots[q], a);
      assert Owns(slots'[q], a);
    }
  }

  lemma IdentityAllocs(slots: seq<Slot>, slots': seq<Slot>, nextAlloc: nat, freed: seq<nat>, lost: set<nat>)
    requires SameIdentity(slots, slots') && AllocsOk(slots, nextAlloc, freed, lost)
    ensures AllocsOk(slots', nextAlloc, freed, lost)
  {
    forall q | 0 <= q < |slots| ensures OwnsApart(slots'[q]) {
      assert OwnsApart(slots[q]);
    }
    OwnersKept(slots, slots', nextAlloc, freed, lost);
  }

  /** Steps that only move processes between Sleeping, Runnable and Running keep the family tree. */
  ghost predicate SameFamily(s: State, s': State)
    requires Sized(s)
  {
    && SameIdentity(s.slots, s'.slots) && s'.act == s.act && s'.init == s.init
    && s'.nextPid == s.nextPid && s'.nextAlloc == s.nextAlloc && s'.freed == s.freed
    && s'.lost == s.lost && s'.reaped == s.reaped
    && (forall q :: 0 <= q < |s.slots| ==>
         && s'.slots[q].parent == s.slots[q].parent && Alive(s'.slots[q]) == Alive(s.slots[q])
         && s'.slots[q].state.Zombie? == s.slots[q].state.Zombie?
         && (s'.slots[q].chan.Some? ==>
               || s'.slots[q].state.Sleeping? || s'.slots[q].state.Runnable?
               || (s'.slots[q].chan == s.slots[q].chan && s'.slots[q].state == s.slots[q].state)))
    && (forall q :: 0 <= q < |s.slots| && !s.act[q].Free? ==> s'.slots[q].state.Running? || s'.slots[q].state.Runnable?)
  }

  lemma FamilyClaims(s: State, s': State)
    requires Sized(s) && ClaimsOk(s) && SameFamily(s, s')
    ensures Sized(s') && ClaimsOk(s')
  {
    forall p | 0 <= p < |s.act| ensures ForkOk(s', p) {
      assert ForkOk(s, p);
    }
  }

  lemma FamilySlots(s: State, s': State)
    requires Sized(s) && SameFamily(s, s') && ParentsOk(s.slots) && forall q :: 0 <= q < |s.slots| ==>
               SlotOk(s.slots[q])
    ensures ParentsOk(s'.slots) && forall q :: 0 <= q < |s'.slots| ==> SlotOk(s'.slots[q])
  {
    forall q | 0 <= q < |s'.slots| ensures SlotOk(s'.slots[q]) && ParentOk(s'.slots, q) {
      assert SlotOk(s.slots[q]) && ParentOk(s.slots, q);
    }
  }

  lemma FamilyKept(s: State, s': State)
    requires Sized(s) && SameFamily(s, s') && FamilyOk(s.slots, s.init)
    ensures FamilyOk(s'.slots, s'.init)
  {
  }

  lemma FamilyFrame(s: State, s': State)
    requires Inv(s) && SameFamily(s, s') && CpusOk(s'.slots, s'.cpu) && WaitersOk(s'.slots)
    ensures Inv(s')
  {
    hide PidsOk;
    hide AllocsOk;
    hide CpusOk;
    hide WaitersOk;
    hide ClaimsOk;
    hide ParentsOk;
    hide FamilyOk;
    hide SlotOk;
    IdentityPids(s.slots, s'.slots, s.nextPid, s.reaped);
    IdentityAllocs(s.slots, s'.slots, s.nextAlloc, s.freed, s.lost);
    FamilyClaims(s, s');
    FamilySlots(s, s');
    FamilyKept(s, s');
  }

  // ---------------------------------------------------------------- sleeping, waking, scheduling

  /** A process leaves its CPU. */
  lemma CpuLeft(slots: seq<Slot>, slots': seq<Slot>, cpu: seq<Option<nat>>, c: nat, p: nat)
    requires CpusOk(slots, cpu) && c < |cpu| && cpu[c] == Some(p) && |slots'| == |slots| && p < |slots|
    requires forall q :: 0 <= q < |slots| && q != p ==> slots'[q].state.Running? == slots[q].state.Running?
    requires !slots'[p].state.Running?
    ensures CpusOk(slots', cpu[c := None])
  {
    var cpu' := cpu[c := None];
    forall q | 0 <= q < |slots'| && slots'[q].state.Running? ensures exists d :: 0 <= d < |cpu'| && cpu'[d] == Some(q) {
      var d :| 0 <= d < |cpu| && cpu[d] == Some(q);
      assert cpu'[d] == Some(q);
    }
  }

  lemma CpuKept(slots: seq<Slot>, slots': seq<Slot>, cpu: seq<Option<nat>>)
    requires CpusOk(slots, cpu) && |slots'| == |slots|
    requires forall q :: 0 <= q < |slots| ==> slots'[q].state.Running? == slots[q].state.Running?
    ensures CpusOk(slots', cpu)
  {
    forall q | 0 <= q < |slots'| && slots'[q].state.Running? ensures exists d :: 0 <= d < |cpu| && cpu[d] == Some(q) {
      assert slots[q].state.Running?;
    }
  }

  /** Waiters stay right when nobody dies, changes parent or goes to sleep in `wait`. */
  lemma WaitersKept(slots: seq<Slot>, slots': seq<Slot>)
    requires WaitersOk(slots) && |slots'| == |slots|
    requires forall q, r :: 0 <= q < |slots| && SleepsOn(slots'[q], OfProcess(r)) ==> SleepsOn(slots[q], OfProcess(r))
    requires forall q, r :: 0 <= q < |slots| && IsZombieChild(slots'[q], r) ==> IsZombieChild(slots[q], r)
    ensures WaitersOk(slots')
  {
  }

  /** A process in `fork` can run, and a process on a CPU is running. */
  ghost predicate Facts(s: State)
    requires Sized(s)
  {
    && (forall q :: 0 <= q < |s.act| && !s.act[q].Free? ==> s.slots[q].state.Running? || s.slots[q].state.Runnable?)
    && (forall c :: 0 <= c < |s.cpu| ==> CpuRuns(s.slots, s.cpu[c]))
  }

  lemma InvFacts(s: State)
    requires Inv(s)
    ensures Sized(s) && Facts(s) && CpusOk(s.slots, s.cpu) && WaitersOk(s.slots)
  {
    forall q | 0 <= q < |s.act| && !s.act[q].Free? ensures s.slots[q].state.Running? || s.slots[q].state.Runnable? {
      assert ForkOk(s, q);
    }
  }

  /** One process that is alive changes its state, channel or kill flag, and stays alive. */
  lemma OneSlotFamily(s: State, s': State, p: nat, slot: Slot)
    requires Sized(s) && Facts(s) && p < |s.slots| && s' == SetSlot(s, p, slot).(cpu := s'.cpu)
    requires slot.pid == s.slots[p].pid && slot.stack == s.slots[p].stack && slot.pages == s.slots[p].pages &&
               slot.parent == s.slots[p].parent
    requires slot.image == s.slots[p].image && (slot.pid == 0 ==> slot.killed == s.slots[p].killed)
    requires slot.state == s.slots[p].state || (Alive(s.slots[p]) && Alive(slot))
    requires !s.act[p].Free? ==> slot.state.Running? || slot.state.Runnable?
    requires slot.chan.Some? ==> slot.state.Sleeping? || slot.state.Runnable? ||
                                 (slot.chan == s.slots[p].chan && slot.state == s.slots[p].state)
    ensures SameFamily(s, s')
  {
  }

  lemma WaitKeeps(s: State, s': State, c: nat, p: nat)
    requires Inv(s) && WaitStep(s, s', c, p)
    ensures Inv(s')
  {
    hide Inv;
    hide CpusOk;
    InvFacts(s);
    CpuLeft(s.slots, s'.slots, s.cpu, c, p);
    OneSlotFamily(s, s', p, s'.slots[p]);
    FamilyFrame(s, s');
  }

  lemma SleepKeeps(s: State, s': State, c: nat, p: nat, id: nat)
    requires Inv(s) && SleepStep(s, s', c, p, id)
    ensures Inv(s')
  {
    hide Inv;
    hide CpusOk;
    hide WaitersOk;
    InvFacts(s);
    CpuLeft(s.slots, s'.slots, s.cpu, c, p);
    WaitersKept(s.slots, s'.slots);
    OneSlotFamily(s, s', p, s'.slots[p]);
    FamilyFrame(s, s');
  }

  lemma WakeFamily(s: State, s': State, chan: Chan)
    requires Sized(s) && Facts(s) && s' == s.(slots := Wake(s.slots, chan))
    ensures SameFamily(s, s')
  {
  }

  lemma WakeupKeeps(s: State, s': State, id: nat)
    requires Inv(s) && WakeupStep(s, s', id)
    ensures Inv(s')
  {
    hide Inv;
    hide CpusOk;
    hide WaitersOk;
    InvFacts(s);
    CpuKept(s.slots, s'.slots, s.cpu);
    WaitersKept(s.slots, s'.slots);
    WakeFamily(s, s', Elsewhere(id));
    FamilyFrame(s, s');
  }

  lemma KillKeeps(s: State, s': State, pid: nat)
    requires Inv(s) && KillStep(s, s', pid)
    ensures Inv(s')
  {
    hide Inv;
    hide CpusOk;
    hide WaitersOk;
    InvFacts(s);
    CpuKept(s.slots, s'.slots, s.cpu);
    WaitersKept(s.slots, s'.slots);
    var q := FindPid(s.slots, pid, 0).value;
    OneSlotFamily(s, s', q, s'.slots[q]);
    FamilyFrame(s, s');
  }

  lemma YieldKeeps(s: State, s': State, c: nat, p: nat)
    requires Inv(s) && YieldStep(s, s', c, p)
    ensures Inv(s')
  {
    hide Inv;
    hide CpusOk;
    hide WaitersOk;
    InvFacts(s);
    CpuLeft(s.slots, s'.slots, s.cpu, c, p);
    WaitersKept(s.slots, s'.slots);
    OneSlotFamily(s, s', p, s'.slots[p]);
    FamilyFrame(s, s');
  }

  lemma CpuTaken(slots: seq<Slot>, slots': seq<Slot>, cpu: seq<Option<nat>>, c: nat, p: nat)
    requires CpusOk(slots, cpu) && c < |cpu| && cpu[c].None? && |slots'| == |slots| && p < |slots| &&
               !slots[p].state.Running?
    requires forall q :: 0 <= q < |slots| && q != p ==> slots'[q].state.Running? == slots[q].state.Running?
    requires slots'[p].state.Running?
    ensures CpusOk(slots', cpu[c := Some(p)])
  {
    var cpu' := cpu[c := Some(p)];
    assert forall d :: 0 <= d < |cpu| ==> cpu[d] != Some(p);
    forall q | 0 <= q < |slots'| && slots'[q].state.Running? ensures exists d :: 0 <= d < |cpu'| && cpu'[d] == Some(q) {
      if q == p {
        assert cpu'[c] == Some(p);
      } else {
        var d :| 0 <= d < |cpu| && cpu[d] == Some(q);
        assert cpu'[d] == Some(q);
      }
    }
  }

  lemma ScheduleKeeps(s: State, s': State, c: nat, p: nat)
    requires Inv(s) && ScheduleStep(s, s', c, p)
    ensures Inv(s')
  {
    hide Inv;
    hide CpusOk;
    hide WaitersOk;
    InvFacts(s);
    CpuTaken(s.slots, s'.slots, s.cpu, c, p);
    WaitersKept(s.slots, s'.slots);
    OneSlotFamily(s, s', p, s'.slots[p]);
    FamilyFrame(s, s');
  }

  // ---------------------------------------------------------------- exit

  /** What `exit` leaves in each slot. */
  lemma ExitedSlot(slots: seq<Slot>, p: nat, init: nat, q: nat)
    requires p < |slots| && slots[p].parent.Some? && q < |slots|
    ensures var parent := slots[p].parent.value;
            var slot := Exited(slots, p, init)[q];
            && slot.pid == slots[q].pid && slot.stack == slots[q].stack && slot.pages == slots[q].pages &&
                 slot.chan == slots[q].chan && slot.image == slots[q].image && slot.killed == slots[q].killed
            && slot.parent == (if slots[q].parent == Some(p) then Some(init) else slots[q].parent)
            && slot.state == (if q == p then Zombie
                              else if SleepsOn(slots[q], OfProcess(parent)) ||
                                (HasZombieChild(slots, p) && SleepsOn(slots[q], OfProcess(init))) then Runnable
                              else slots[q].state)
  {
    var woken := Wake(slots, OfProcess(slots[p].parent.value));
    assert forall r :: 0 <= r < |slots| ==> IsZombieChild(woken[r], p) == IsZombieChild(slots[r], p);
    assert HasZombieChild(woken, p) == HasZombieChild(slots, p) by {
      if r :| 0 <= r < |slots| && IsZombieChild(slots[r], p) { assert IsZombieChild(woken[r], p); }
    }
  }

  lemma ExitIdentity(s: State, s': State, c: nat, p: nat)
    requires Sized(s) && ExitStep(s, s', c, p) && Alive(s.slots[p])
    ensures SameIdentity(s.slots, s'.slots)
    ensures forall q :: 0 <= q < |s.slots| && q != p ==>
              s'.slots[q].state.Running? == s.slots[q].state.Running? && Alive(s'.slots[q]) == Alive(s.slots[q])
    ensures s'.slots[p].state.Zombie?
  {
    hide Exited;
    forall q | 0 <= q < |s.slots|
      ensures s'.slots[q].pid == s.slots[q].pid && s'.slots[q].stack == s.slots[q].stack &&
                s'.slots[q].pages == s.slots[q].pages && s'.slots[q].image == s.slots[q].image &&
                s'.slots[q].killed == s.slots[q].killed
      ensures s'.slots[q].state.Unused? == s.slots[q].state.Unused? &&
                s'.slots[q].state.Embryo? == s.slots[q].state.Embryo?
      ensures q != p ==> s'.slots[q].state.Running? == s.slots[q].state.Running?
      ensures q != p ==> Alive(s'.slots[q]) == Alive(s.slots[q])
    {
      ExitedSlot(s.slots, p, s.init, q);
    }
    ExitedSlot(s.slots, p, s.init, p);
  }

  lemma ExitClaims(s: State, s': State, c: nat, p: nat)
    requires Sized(s) && ClaimsOk(s) && ExitStep(s, s', c, p) && Alive(s.slots[p])
    ensures ClaimsOk(s')
  {
    hide Exited;
    ExitIdentity(s, s', c, p);
    forall q | 0 <= q < |s.slots| && s'.slots[q].state.Embryo? ensures s'.slots[q].parent == s.slots[q].parent {
      ExitedSlot(s.slots, p, s.init, q);
    }
    forall q | 0 <= q < |s.act| ensures ForkOk(s', q) {
      assert ForkOk(s, q);
      ExitedSlot(s.slots, p, s.init, q);
    }
  }

  lemma ExitParents(s: State, s': State, c: nat, p: nat)
    requires Sized(s) && ParentsOk(s.slots) && ExitStep(s, s', c, p) && Alive(s.slots[p]) &&
               Alive(s.slots[s.init]) && s.slots[s.init].parent.None?
    ensures ParentsOk(s'.slots) && Alive(s'.slots[s.init]) && s'.slots[s.init].parent.None?
  {
    hide Exited;
    ExitIdentity(s, s', c, p);
    ExitedSlot(s.slots, p, s.init, s.init);
    forall q | 0 <= q < |s'.slots| ensures ParentOk(s'.slots, q) {
      assert ParentOk(s.slots, q);
      ExitedSlot(s.slots, p, s.init, q);
    }
  }

  lemma ExitFamily(s: State, s': State, c: nat, p: nat)
    requires Sized(s) && FamilyOk(s.slots, s.init) && ExitStep(s, s', c, p) && Alive(s.slots[p])
    ensures FamilyOk(s'.slots, s.init)
  {
    hide Exited;
    forall q | 0 <= q < |s'.slots| && q != s.init && !s'.slots[q].state.Unused? && !s'.slots[q].state.Embryo?
      ensures s'.slots[q].parent.Some? {
      ExitedSlot(s.slots, p, s.init, q);
    }
  }

  lemma ExitWaiters(s: State, s': State, c: nat, p: nat)
    requires Sized(s) && ParentsOk(s.slots) && WaitersOk(s.slots) && ExitStep(s, s', c, p)
    ensures WaitersOk(s'.slots)
  {
    hide Exited;
    assert ParentOk(s.slots, p);
    forall q, r | 0 <= q < |s.slots| && SleepsOn(s'.slots[q], OfProcess(r)) ensures r == q {
      ExitedSlot(s.slots, p, s.init, q);
      assert SleepsOn(s.slots[q], OfProcess(r));
    }
    forall r, q | 0 <= r < |s.slots| && 0 <= q < |s.slots| && SleepsOn(s'.slots[r], OfProcess(r))
      ensures !IsZombieChild(s'.slots[q], r) {
      ExitedSlot(s.slots, p, s.init, r);
      ExitedSlot(s.slots, p, s.init, q);
      assert !IsZombieChild(s.slots[q], r);
    }
  }

  lemma ExitSlots(s: State, s': State, c: nat, p: nat, q: nat)
    requires Sized(s) && ExitStep(s, s', c, p) && q < |s.slots| && SlotOk(s.slots[q]) && SlotOk(s.slots[p]) &&
               s.slots[p].state.Running?
    ensures SlotOk(s'.slots[q])
  {
    ExitedSlot(s.slots, p, s.init, q);
  }

  lemma ExitKeeps(s: State, s': State, c: nat, p: nat)
    requires Inv(s) && ExitStep(s, s', c, p)
    ensures Inv(s')
  {
    hide Exited;
    hide ClaimsOk;
    hide ParentsOk;
    hide FamilyOk;
    hide WaitersOk;
    hide PidsOk;
    hide AllocsOk;
    hide SlotOk;
    assert CpuRuns(s.slots, s.cpu[c]);
    ExitIdentity(s, s', c, p);
    ExitClaims(s, s', c, p);
    ExitParents(s, s', c, p);
    ExitFamily(s, s', c, p);
    ExitWaiters(s, s', c, p);
    IdentityPids(s.slots, s'.slots, s.nextPid, s.reaped);
    IdentityAllocs(s.slots, s'.slots, s.nextAlloc, s.freed, s.lost);
    CpuLeft(s.slots, s'.slots, s.cpu, c, p);
    forall q | 0 <= q < |s'.slots| ensures SlotOk(s'.slots[q]) { ExitSlots(s, s', c, p, q); }
  }

  // ---------------------------------------------------------------- wait and fork: one slot that is not alive changes

  /** Parents, CPUs and waiters do not depend on a slot that is not alive. */
  lemma DeadSlotFrame(s: State, q: nat, slot: Slot)
    requires Sized(s) && q < |s.slots| && !Alive(s.slots[q]) && !slot.state.Zombie? && !slot.state.Sleeping? &&
               !slot.state.Running?
    requires ParentsOk(s.slots) && CpusOk(s.slots, s.cpu) && WaitersOk(s.slots)
    requires slot.parent.Some? ==>
               slot.parent.value < |s.slots| && slot.parent.value != q && Alive(s.slots[slot.parent.value])
    ensures var slots := s.slots[q := slot]; ParentsOk(slots) && CpusOk(slots, s.cpu) && WaitersOk(slots)
  {
    var slots := s.slots[q := slot];
    CpuKept(s.slots, slots, s.cpu);
    WaitersKept(s.slots, slots);
    forall r | 0 <= r < |slots| ensures ParentOk(slots, r) {
      assert ParentOk(s.slots, r);
    }
  }

  lemma ChildFamily(slots: seq<Slot>, init: nat, q: nat, slot: Slot)
    requires FamilyOk(slots, init) && q < |slots|
    requires slot.state.Unused? || slot.state.Embryo? || slot.parent.Some?
    ensures FamilyOk(slots[q := slot], init)
  {
  }

  /** Steps of `fork` and `wait` on the slot `q` of a child, by process `p`. */
  lemma ChildFrame(s: State, s': State, p: nat, q: nat, slot: Slot)
    requires Inv(s) && q < |s.slots| && p < |s.slots| && !Alive(s.slots[q]) && s'.slots == s.slots[q := slot] &&
               s'.cpu == s.cpu && s'.init == s.init
    requires !slot.state.Zombie? && !slot.state.Sleeping? && !slot.state.Running? && SlotOk(slot) && Sized(s')
    requires slot.parent.Some? ==>
               slot.parent.value < |s.slots| && slot.parent.value != q && Alive(s.slots[slot.parent.value])
    requires slot.state.Runnable? ==> slot.parent.Some?
    requires ClaimsOk(s') && PidsOk(s'.slots, s'.nextPid, s'.reaped)
    requires AllocsOk(s'.slots, s'.nextAlloc, s'.freed, s'.lost)
    ensures Inv(s')
  {
    hide ClaimsOk;
    hide ParentsOk;
    hide FamilyOk;
    hide CpusOk;
    hide WaitersOk;
    hide PidsOk;
    hide AllocsOk;
    DeadSlotFrame(s, q, slot);
    ChildFamily(s.slots, s.init, q, slot);
  }

  lemma SamePids(slots: seq<Slot>, q: nat, slot: Slot, nextPid: nat, reaped: seq<nat>)
    requires PidsOk(slots, nextPid, reaped) && q < |slots| && slot.pid == slots[q].pid &&
               (slots[q].state.Unused? ==> slot.state.Unused?)
    ensures PidsOk(slots[q := slot], nextPid, reaped)
  {
  }

  lemma SameAllocs(slots: seq<Slot>, q: nat, slot: Slot, nextAlloc: nat, freed: seq<nat>, lost: set<nat>)
    requires AllocsOk(slots, nextAlloc, freed, lost) && q < |slots| && slot.stack == slots[q].stack &&
               slot.pages == slots[q].pages && slot.image == slots[q].image
    ensures AllocsOk(slots[q := slot], nextAlloc, freed, lost)
  {
    assert OwnsApart(slots[q]);
    OwnersKept(slots, slots[q := slot], nextAlloc, freed, lost);
  }

  /** A fresh allocation for slot `q`. */
  lemma NewAlloc(slots: seq<Slot>, q: nat, slot: Slot, nextAlloc: nat, freed: seq<nat>, lost: set<nat>)
    requires AllocsOk(slots, nextAlloc, freed, lost) && q < |slots| && OwnsApart(slot)
    requires forall a: nat :: Owns(slot, a) == (Owns(slots[q], a) || a == nextAlloc)
    ensures AllocsOk(slots[q := slot], nextAlloc + 1, freed, lost)
  {
    hide OwnsApart;
    hide Owns;
    var slots' := slots[q := slot];
    forall r, a: nat | 0 <= r < |slots'| && Owns(slots'[r], a)
      ensures InUse(a, nextAlloc + 1, freed, lost) && (a == nextAlloc ==> r == q) {
      assert Owns(slots[r], a) || a == nextAlloc;
      assert Owns(slots[r], a) ==> InUse(a, nextAlloc, freed, lost);
    }
    forall r, t, a: nat | 0 <= r < |slots'| && 0 <= t < |slots'| && Owns(slots'[r], a) && Owns(slots'[t], a)
      ensures r == t {
      assert a != nextAlloc ==> Owns(slots[r], a) && Owns(slots[t], a);
    }
    forall a: nat | InUse(a, nextAlloc + 1, freed, lost) ensures Owned(slots', a) {
      if a == nextAlloc {
        assert Owns(slots'[q], a);
      } else {
        assert Owned(slots, a) by { assert InUse(a, nextAlloc, freed, lost); }
        var r :| 0 <= r < |slots| && Owns(slots[r], a);
        assert Owns(slots'[r], a);
      }
    }
  }

  /** A slot gains the one allocation it lacks. */
  lemma FreshAlloc(slots: seq<Slot>, q: nat, slot: Slot, nextAlloc: nat, freed: seq<nat>, lost: set<nat>)
    requires AllocsOk(slots, nextAlloc, freed, lost) && q < |slots|
    requires
      || (slots[q].stack.None? && slot.stack == Some(nextAlloc) && slot.pages == slots[q].pages &&
          slot.image == slots[q].image)
      || (slots[q].pages.None? && slot.pages == Some(nextAlloc) && slot.stack == slots[q].stack &&
          slot.image == slots[q].image)
      || (slots[q].image.None? && slot.image == Some(nextAlloc) && slot.stack == slots[q].stack &&
          slot.pages == slots[q].pages)
    ensures AllocsOk(slots[q := slot], nextAlloc + 1, freed, lost)
  {
    assert Owns(slots[q], nextAlloc) ==> InUse(nextAlloc, nextAlloc, freed, lost);
    assert OwnsApart(slots[q]);
    hide AllocsOk;
    NewAlloc(slots, q, slot, nextAlloc, freed, lost);
  }

  /** Slot `q` parts with the allocations in `back`: they are given back, or lost. */
  lemma PartWith(slots: seq<Slot>, q: nat, slot: Slot, nextAlloc: nat, freed: seq<nat>, lost: set<nat>,
                 freed': seq<nat>, lost': set<nat>, back: seq<nat>)
    requires AllocsOk(slots, nextAlloc, freed, lost) && q < |slots| && OwnsApart(slot)
    requires forall a: nat :: Owns(slot, a) == (Owns(slots[q], a) && a !in back)
    requires forall i :: 0 <= i < |back| ==> Owns(slots[q], back[i])
    requires forall a: nat :: InUse(a, nextAlloc, freed', lost') == (InUse(a, nextAlloc, freed, lost) && a !in back)
    requires forall i :: 0 <= i < |freed'| ==> freed'[i] < nextAlloc && freed'[i] !in lost'
    requires forall a :: a in lost' ==> a < nextAlloc
    requires forall i, j :: 0 <= i < j < |freed'| ==> freed'[i] != freed'[j]
    ensures AllocsOk(slots[q := slot], nextAlloc, freed', lost')
  {
    hide OwnsApart;
    hide Owns;
    hide InUse;
    var slots' := slots[q := slot];
    assert forall a :: a in back ==> Owns(slots[q], a);
    forall r, a: nat | 0 <= r < |slots'| && Owns(slots'[r], a) ensures InUse(a, nextAlloc, freed', lost') {
      assert Owns(slots[r], a);
    }
    forall r, t, a: nat | 0 <= r < |slots'| && 0 <= t < |slots'| && Owns(slots'[r], a) && Owns(slots'[t], a)
      ensures r == t {
      assert Owns(slots[r], a) && Owns(slots[t], a);
    }
    forall a: nat | InUse(a, nextAlloc, freed', lost') ensures Owned(slots', a) {
      assert Owned(slots, a);
      var r :| 0 <= r < |slots| && Owns(slots[r], a);
      assert Owns(slots'[r], a);
    }
  }

  /** Slot `q` gives back the allocations `back`. */
  lemma GiveBack(slots: seq<Slot>, q: nat, slot: Slot, nextAlloc: nat, freed: seq<nat>, lost: set<nat>, back: seq<nat>)
    requires AllocsOk(slots, nextAlloc, freed, lost) && q < |slots| && OwnsApart(slot)
    requires forall a: nat :: Owns(slot, a) == (Owns(slots[q], a) && a !in back)
    requires forall i :: 0 <= i < |back| ==> Owns(slots[q], back[i])
    requires forall i, j :: 0 <= i < j < |back| ==> back[i] != back[j]
    ensures AllocsOk(slots[q := slot], nextAlloc, freed + back, lost)
  {
    hide OwnsApart;
    hide Owns;
    var freed' := freed + back;
    forall i | 0 <= i < |back| ensures InUse(back[i], nextAlloc, freed, lost) {
      assert Owns(slots[q], back[i]);
    }
    forall i, j | 0 <= i < j < |freed'| ensures freed'[i] != freed'[j] {
      if i < |freed| <= j {
        assert InUse(back[j - |freed|], nextAlloc, freed, lost) && freed[i] in freed;
      }
    }
    PartWith(slots, q, slot, nextAlloc, freed, lost, freed', lost, back);
  }

  /** Slot `q` loses the allocation `gone`. */
  lemma LoseOne(slots: seq<Slot>, q: nat, slot: Slot, nextAlloc: nat, freed: seq<nat>, lost: set<nat>, gone: nat)
    requires AllocsOk(slots, nextAlloc, freed, lost) && q < |slots| && OwnsApart(slot) && Owns(slots[q], gone)
    requires forall a: nat :: Owns(slot, a) == (Owns(slots[q], a) && a != gone)
    ensures AllocsOk(slots[q := slot], nextAlloc, freed, lost + {gone})
  {
    hide OwnsApart;
    hide Owns;
    assert InUse(gone, nextAlloc, freed, lost);
    PartWith(slots, q, slot, nextAlloc, freed, lost, freed, lost + {gone}, [gone]);
  }

  lemma ReapPids(slots: seq<Slot>, q: nat, nextPid: nat, reaped: seq<nat>)
    requires PidsOk(slots, nextPid, reaped) && q < |slots| && !slots[q].state.Unused?
    ensures PidsOk(slots[q := Reaped(slots[q])], nextPid, reaped + [slots[q].pid])
  {
  }

  lemma ReapAllocs(slots: seq<Slot>, q: nat, nextAlloc: nat, freed: seq<nat>, lost: set<nat>)
    requires AllocsOk(slots, nextAlloc, freed, lost) && q < |slots| && slots[q].state.Zombie? && SlotOk(slots[q])
    ensures var freed' := freed + [slots[q].stack.value, slots[q].pages.value];
            AllocsOk(slots[q := Reaped(slots[q])], nextAlloc, freed', lost)
  {
    assert OwnsApart(slots[q]);
    hide AllocsOk;
    GiveBack(slots, q, Reaped(slots[q]), nextAlloc, freed, lost, [slots[q].stack.value, slots[q].pages.value]);
  }

  lemma ReapClaims(s: State, s': State, q: nat)
    requires Sized(s) && ClaimsOk(s) && q < |s.slots| && s.slots[q].state.Zombie? &&
               s' == SetSlot(s, q, Reaped(s.slots[q])).(freed := s'.freed, reaped := s'.reaped)
    ensures ClaimsOk(s')
  {
    forall p | 0 <= p < |s.act| ensures ForkOk(s', p) {
      assert ForkOk(s, p);
    }
  }

  lemma ReapKeeps(s: State, s': State, c: nat, p: nat)
    requires Inv(s) && ReapStep(s, s', c, p)
    ensures Inv(s')
  {
    hide ClaimsOk;
    hide ParentsOk;
    hide FamilyOk;
    hide CpusOk;
    hide WaitersOk;
    hide PidsOk;
    var q := FindZombie(s.slots, p, 0).value;
    ReapPids(s.slots, q, s.nextPid, s.reaped);
    ReapClaims(s, s', q);
    ReapAllocs(s.slots, q, s.nextAlloc, s.freed, s.lost);
    hide AllocsOk;
    ChildFrame(s, s', p, q, Reaped(s.slots[q]));
  }

  lemma ClaimPids(slots: seq<Slot>, q: nat, nextPid: nat, reaped: seq<nat>)
    requires PidsOk(slots, nextPid, reaped) && q < |slots|
    ensures PidsOk(slots[q := slots[q].(state := Embryo, pid := nextPid)], nextPid + 1, reaped)
  {
    assert nextPid !in reaped;
  }

  lemma ClaimClaims(s: State, s': State, p: nat, q: nat)
    requires Sized(s) && ClaimsOk(s) && p < |s.slots| && q < |s.slots| && s.act[p].Free? && SlotOk(s.slots[q]) &&
               s.slots[q].state.Unused?
    requires s.slots[p].state.Running?
    requires s' == SetAct(SetSlot(s, q, s.slots[q].(state := Embryo, pid := s.nextPid)), p,
               Claimed(q)).(nextPid := s.nextPid + 1)
    ensures ClaimsOk(s')
  {
    forall r | 0 <= r < |s.act| ensures ForkOk(s', r) && (r != p && !s.act[r].Free? ==> s.act[r].child != q) {
      assert ForkOk(s, r);
    }
  }

  lemma RunsRunning(s: State, c: nat, p: nat)
    requires Inv(s) && Runs(s, c, p)
    ensures s.slots[p].state.Running?
  {
    assert CpuRuns(s.slots, s.cpu[c]);
  }

  lemma ClaimKeeps(s: State, s': State, c: nat, p: nat)
    requires Inv(s) && ClaimStep(s, s', c, p)
    ensures Inv(s')
  {
    RunsRunning(s, c, p);
    hide ClaimsOk;
    hide ParentsOk;
    hide FamilyOk;
    hide CpusOk;
    hide WaitersOk;
    hide PidsOk;
    hide AllocsOk;
    var q := FindUnused(s.slots, 0).value;
    assert SlotOk(s.slots[q]);
    ClaimPids(s.slots, q, s.nextPid, s.reaped);
    SameAllocs(s.slots, q, s'.slots[q], s.nextAlloc, s.freed, s.lost);
    ClaimClaims(s, s', p, q);
    ChildFrame(s, s', p, q, s'.slots[q]);
  }

  /** A process in `fork` moves its claimed slot one stage on, or back to UNUSED. */
  lemma StageClaims(s: State, s': State, p: nat, slot: Slot, act: Activity)
    requires Sized(s) && ClaimsOk(s) && p < |s.slots| && !s.act[p].Free? && s.act[p].child < |s.slots|
    requires s'.slots == s.slots[s.act[p].child := slot] && s'.act == s.act[p := act] && s'.init == s.init
    requires act.Free? || (act.child == s.act[p].child && ForkOk(s', p))
    requires act.Free? ==> !slot.state.Embryo?
    requires slot.state.Embryo? && slot.parent.Some? ==> slot.parent == Some(p) && act.Adopted?
    ensures ClaimsOk(s')
  {
    assert ForkOk(s, p);
    forall r | 0 <= r < |s.act| ensures ForkOk(s', r) {
      assert ForkOk(s, r);
    }
  }

  /** What a process in `fork` or `exec` knows. */
  lemma Claimant(s: State, p: nat)
    requires Inv(s) && p < |s.act|
    ensures SlotOk(s.slots[p])
    ensures Sized(s) && ForkOk(s, p) && AllocsOk(s.slots, s.nextAlloc, s.freed, s.lost)
    ensures !s.act[p].Free? ==> SlotOk(s.slots[s.act[p].child]) && s.slots[s.act[p].child].pid > 0
  {
  }

  /** A stage of `fork` keeps the invariant. */
  lemma StageKeeps(s: State, s': State, p: nat, slot: Slot, act: Activity)
    requires Inv(s) && p < |s.slots| && !s.act[p].Free? && s.act[p].child < |s.slots| && ForkOk(s, p)
    requires s'.slots == s.slots[s.act[p].child := slot] && s'.act == s.act[p := act] && s'.init == s.init
    requires s'.cpu == s.cpu && s'.nextPid == s.nextPid && s'.reaped == s.reaped
    requires slot.pid == s.slots[s.act[p].child].pid && SlotOk(slot)
    requires slot.state.Unused? || slot.state.Embryo? || slot.state.Runnable?
    requires slot.parent.None? || (slot.parent == Some(p) && Alive(s.slots[p]))
    requires slot.state.Runnable? ==> slot.parent.Some?
    requires act.Free? || (act.child == s.act[p].child && ForkOk(s', p))
    requires act.Free? ==> !slot.state.Embryo?
    requires slot.state.Embryo? && slot.parent.Some? ==> act.Adopted?
    requires AllocsOk(s'.slots, s'.nextAlloc, s'.freed, s'.lost)
    ensures Inv(s')
  {
    hide ClaimsOk;
    hide ParentsOk;
    hide FamilyOk;
    hide CpusOk;
    hide WaitersOk;
    hide PidsOk;
    hide AllocsOk;
    var q := s.act[p].child;
    SamePids(s.slots, q, slot, s.nextPid, s.reaped);
    StageClaims(s, s', p, slot, act);
    ChildFrame(s, s', p, q, slot);
  }

  lemma StackKeeps(s: State, s': State, c: nat, p: nat, ok: bool)
    requires Inv(s) && StackStep(s, s', c, p, ok)
    ensures Inv(s')
  {
    hide Inv;
    hide AllocsOk;
    Claimant(s, p);
    var q := s.act[p].child;
    if ok {
      FreshAlloc(s.slots, q, s'.slots[q], s.nextAlloc, s.freed, s.lost);
    } else {
      SameAllocs(s.slots, q, s'.slots[q], s.nextAlloc, s.freed, s.lost);
    }
    StageKeeps(s, s', p, s'.slots[q], s'.act[p]);
  }

  lemma CopyFails(slots: seq<Slot>, q: nat, slot: Slot, nextAlloc: nat, freed: seq<nat>, lost: set<nat>)
    requires AllocsOk(slots, nextAlloc, freed, lost) && q < |slots| && slots[q].stack.Some? && slots[q].pages.None? &&
               slot.stack.None? && slot.pages.None? && slot.image == slots[q].image
    ensures AllocsOk(slots[q := slot], nextAlloc, freed + [slots[q].stack.value], lost)
  {
    assert OwnsApart(slots[q]);
    hide AllocsOk;
    GiveBack(slots, q, slot, nextAlloc, freed, lost, [slots[q].stack.value]);
  }

  lemma CopyKeeps(s: State, s': State, c: nat, p: nat, ok: bool)
    requires Inv(s) && CopyStep(s, s', c, p, ok)
    ensures Inv(s')
  {
    hide Inv;
    hide AllocsOk;
    Claimant(s, p);
    var q := s.act[p].child;
    if ok {
      FreshAlloc(s.slots, q, s'.slots[q], s.nextAlloc, s.freed, s.lost);
    } else {
      CopyFails(s.slots, q, s'.slots[q], s.nextAlloc, s.freed, s.lost);
    }
    StageKeeps(s, s', p, s'.slots[q], s'.act[p]);
  }

  lemma AdoptKeeps(s: State, s': State, c: nat, p: nat)
    requires Inv(s) && AdoptStep(s, s', c, p)
    ensures Inv(s')
  {
    hide Inv;
    hide AllocsOk;
    Claimant(s, p);
    var q := s.act[p].child;
    SameAllocs(s.slots, q, s'.slots[q], s.nextAlloc, s.freed, s.lost);
    StageKeeps(s, s', p, s'.slots[q], s'.act[p]);
  }

  lemma LaunchKeeps(s: State, s': State, c: nat, p: nat)
    requires Inv(s) && LaunchStep(s, s', c, p)
    ensures Inv(s')
  {
    hide Inv;
    hide AllocsOk;
    Claimant(s, p);
    var q := s.act[p].child;
    SameAllocs(s.slots, q, s'.slots[q], s.nextAlloc, s.freed, s.lost);
    StageKeeps(s, s', p, s'.slots[q], s'.act[p]);
  }

  // ---------------------------------------------------------------- exec

  /** A running process changes what it owns, and nothing else. */
  lemma OwnerFrame(s: State, s': State, p: nat, slot: Slot)
    requires Inv(s) && p < |s.slots| && s.slots[p].state.Running? && s'.slots == s.slots[p := slot]
    requires s'.act == s.act && s'.cpu == s.cpu && s'.init == s.init && s'.nextPid == s.nextPid && s'.reaped == s.reaped
    requires slot == s.slots[p].(pages := slot.pages, image := slot.image) && slot.pages.Some?
    requires AllocsOk(s'.slots, s'.nextAlloc, s'.freed, s'.lost)
    ensures Inv(s')
  {
    hide AllocsOk;
    hide ClaimsOk;
    hide CpusOk;
    hide WaitersOk;
    hide PidsOk;
    hide ParentsOk;
    hide FamilyOk;
    OwnerClaims(s, s', p, slot);
    CpuKept(s.slots, s'.slots, s.cpu);
    WaitersKept(s.slots, s'.slots);
    SamePids(s.slots, p, slot, s.nextPid, s.reaped);
    OwnerFamily(s.slots, s.init, p, slot);
  }

  lemma OwnerFamily(slots: seq<Slot>, init: nat, p: nat, slot: Slot)
    requires ParentsOk(slots) && FamilyOk(slots, init) && p < |slots|
    requires slot == slots[p].(pages := slot.pages, image := slot.image)
    ensures ParentsOk(slots[p := slot]) && FamilyOk(slots[p := slot], init)
  {
    var slots' := slots[p := slot];
    forall q | 0 <= q < |slots'| ensures ParentOk(slots', q) {
      assert ParentOk(slots, q);
    }
  }

  lemma OwnerClaims(s: State, s': State, p: nat, slot: Slot)
    requires Sized(s) && ClaimsOk(s) && p < |s.slots| && s.slots[p].state.Running?
    requires s'.slots == s.slots[p := slot] && s'.act == s.act && s'.init == s.init
    requires slot == s.slots[p].(pages := slot.pages, image := slot.image)
    ensures Sized(s') && ClaimsOk(s')
  {
    forall r | 0 <= r < |s.act| ensures ForkOk(s', r) {
      assert ForkOk(s, r);
    }
  }

  lemma BuildKeeps(s: State, s': State, c: nat, p: nat)
    requires Inv(s) && BuildStep(s, s', c, p)
    ensures Inv(s')
  {
    hide Inv;
    hide AllocsOk;
    hide ForkOk;
    RunsRunning(s, c, p);
    Claimant(s, p);
    FreshAlloc(s.slots, p, s'.slots[p], s.nextAlloc, s.freed, s.lost);
    OwnerFrame(s, s', p, s'.slots[p]);
  }

  lemma ExecAllocs(s: State, s': State, c: nat, p: nat, end: ExecEnd)
    requires AllocsOk(s.slots, s.nextAlloc, s.freed, s.lost) && ExecStep(s, s', c, p, end)
    ensures AllocsOk(s'.slots, s'.nextAlloc, s'.freed, s'.lost)
  {
    assert OwnsApart(s.slots[p]);
    var image, pages := s.slots[p].image.value, s.slots[p].pages.value;
    hide AllocsOk;
    match end
    case Committed => GiveBack(s.slots, p, s'.slots[p], s.nextAlloc, s.freed, s.lost, [pages]);
    case CleanedUp => GiveBack(s.slots, p, s'.slots[p], s.nextAlloc, s.freed, s.lost, [image]);
    case Abandoned => LoseOne(s.slots, p, s'.slots[p], s.nextAlloc, s.freed, s.lost, image);
  }

  lemma ExecKeeps(s: State, s': State, c: nat, p: nat, end: ExecEnd)
    requires Inv(s) && ExecStep(s, s', c, p, end)
    ensures Inv(s')
  {
    hide Inv;
    hide AllocsOk;
    hide ForkOk;
    RunsRunning(s, c, p);
    Claimant(s, p);
    ExecAllocs(s, s', c, p, end);
    OwnerFrame(s, s', p, s'.slots[p]);
  }

  // ---------------------------------------------------------------- runs

  lemma StepKeeps(s: State, s': State)
    requires Inv(s) && Step(s, s')
    ensures Inv(s')
  {
    hide Inv;
    hide ClaimStep;
    hide StackStep;
    hide CopyStep;
    hide AdoptStep;
    hide LaunchStep;
    hide ExitStep;
    hide ReapStep;
    hide BuildStep;
    hide ExecStep;
    hide WaitStep;
    hide SleepStep;
    hide WakeupStep;
    hide KillStep;
    hide YieldStep;
    hide ScheduleStep;
    if c, p :| ClaimStep(s, s', c, p) { ClaimKeeps(s, s', c, p); }
    else if c, p, ok :| StackStep(s, s', c, p, ok) { StackKeeps(s, s', c, p, ok); }
    else if c, p, ok :| CopyStep(s, s', c, p, ok) { CopyKeeps(s, s', c, p, ok); }
    else if c, p :| AdoptStep(s, s', c, p) { AdoptKeeps(s, s', c, p); }
    else if c, p :| LaunchStep(s, s', c, p) { LaunchKeeps(s, s', c, p); }
    else if c, p :| ExitStep(s, s', c, p) { ExitKeeps(s, s', c, p); }
    else if c, p :| ReapStep(s, s', c, p) { ReapKeeps(s, s', c, p); }
    else if c, p :| WaitStep(s, s', c, p) { WaitKeeps(s, s', c, p); }
    else if c, p :| BuildStep(s, s', c, p) { BuildKeeps(s, s', c, p); }
    else if c, p, end :| ExecStep(s, s', c, p, end) { ExecKeeps(s, s', c, p, end); }
    else if c, p, id :| SleepStep(s, s', c, p, id) { SleepKeeps(s, s', c, p, id); }
    else if id :| WakeupStep(s, s', id) { WakeupKeeps(s, s', id); }
    else if pid :| KillStep(s, s', pid) { KillKeeps(s, s', pid); }
    else if c, p :| YieldStep(s, s', c, p) { YieldKeeps(s, s', c, p); }
    else if c, p :| ScheduleStep(s, s', c, p) { ScheduleKeeps(s, s', c, p); }
  }

  const BLANK: Slot := Slot(Unused, 0, None, None, false, None, None, None)

  /** After `initialiseFirstUserProcess`: slot 0 holds the first process. */
  function Initial(slots: nat, cpus: nat): State
    requires slots > 0
  {
    State(seq(slots, q requires 0 <= q < slots => if q == 0
      then Slot(Runnable, 1, None, None, false, Some(0), Some(1), None) else BLANK),
          seq(slots, _ => Free), seq(cpus, _ => None), 0, 2, 2, [], {}, [])
  }

  lemma InitialInv(slots: nat, cpus: nat)
    requires slots > 0
    ensures Inv(Initial(slots, cpus))
  {
    var s := Initial(slots, cpus);
    InitialAllocs(slots, cpus);
    hide AllocsOk;
    forall p | 0 <= p < |s.act| ensures ForkOk(s, p) {
    }
  }

  lemma InitialAllocs(slots: nat, cpus: nat)
    requires slots > 0
    ensures var s := Initial(slots, cpus); AllocsOk(s.slots, s.nextAlloc, s.freed, s.lost)
  {
    var s := Initial(slots, cpus);
    forall q, a: nat | 0 <= q < |s.slots| && Owns(s.slots[q], a) ensures q == 0 && a < 2 {
    }
    forall a: nat | InUse(a, s.nextAlloc, s.freed, s.lost) ensures Owned(s.slots, a) {
      assert Owns(s.slots[0], a);
    }
  }

  ghost predicate IsRun(run: seq<State>) {
    && |run| > 0
    && (exists n, m :: n > 0 && run[0] == Initial(n, m))
    && forall i :: 0 <= i < |run| - 1 ==> Step(run[i], run[i + 1])
  }

  lemma {:induction false} RunInv(run: seq<State>, i: nat)
    requires IsRun(run) && i < |run|
    ensures Inv(run[i])
  {
    hide Inv;
    hide Step;
    if i == 0 {
      var n, m :| n > 0 && run[0] == Initial(n, m);
      InitialInv(n, m);
    } else {
      RunInv(run, i - 1);
      assert Step(run[i - 1], run[i - 1 + 1]);
      StepKeeps(run[i - 1], run[i]);
    }
  }

  /** With the lock free, a process asleep in `wait` has no dead child that it has not been told about. */
  lemma NoMissedChild(run: seq<State>, i: nat, p: nat, q: nat)
    requires IsRun(run) && i < |run| && p < |run[i].slots| && q < |run[i].slots|
    requires SleepsOn(run[i].slots[p], OfProcess(p)) && run[i].slots[q].parent == Some(p)
    ensures !run[i].slots[q].state.Zombie?
  {
    RunInv(run, i);
    assert !IsZombieChild(run[i].slots[q], p);
  }

  /** No parent pointer refers to a slot that is unused, unfinished or dead. */
  lemma ParentsAlive(run: seq<State>, i: nat, q: nat)
    requires IsRun(run) && i < |run| && q < |run[i].slots| && run[i].slots[q].parent.Some?
    ensures run[i].slots[q].parent.value < |run[i].slots| && Alive(run[i].slots[run[i].slots[q].parent.value])
  {
    RunInv(run, i);
    assert ParentOk(run[i].slots, q);
  }

  /** Each RUNNING process is on exactly one CPU; no other process is on any. */
  lemma OneCpuEach(run: seq<State>, i: nat, p: nat)
    requires IsRun(run) && i < |run| && p < |run[i].slots|
    ensures run[i].slots[p].state.Running? <==> exists c :: 0 <= c < |run[i].cpu| && run[i].cpu[c] == Some(p)
    ensures forall c, d :: 0 <= c < d < |run[i].cpu| && run[i].cpu[c] == Some(p) ==> run[i].cpu[d] != Some(p)
  {
    RunInv(run, i);
    assert forall c :: 0 <= c < |run[i].cpu| ==> CpuRuns(run[i].slots, run[i].cpu[c]);
  }

  /** `wait` returns a pid at most once, and never one that is still in the table. */
  lemma ReapedOnce(run: seq<State>, i: nat, j: nat, k: nat)
    requires IsRun(run) && i < |run| && j < |run[i].reaped| && k < |run[i].reaped|
    ensures run[i].reaped[j] == run[i].reaped[k] ==> j == k
    ensures forall p :: 0 <= p < |run[i].slots| && !run[i].slots[p].state.Unused? ==>
              run[i].slots[p].pid != run[i].reaped[j]
  {
    RunInv(run, i);
    assert run[i].reaped[j] in run[i].reaped;
  }

  /**
   Every kernel stack and page table ever allocated has exactly one owner, or has been freed
   exactly once, or is one of those that `exec` abandoned.
   */
  lemma NothingLeaks(run: seq<State>, i: nat, a: nat)
    requires IsRun(run) && i < |run| && a < run[i].nextAlloc
    ensures a in run[i].freed || a in run[i].lost <==> !Owned(run[i].slots, a)
    ensures !(a in run[i].freed && a in run[i].lost)
    ensures forall j, k :: 0 <= j < k < |run[i].freed| && run[i].freed[j] == a ==> run[i].freed[k] != a
    ensures forall q, r :: 0 <= q < r < |run[i].slots| && Owns(run[i].slots[q], a) ==> !Owns(run[i].slots[r], a)
  {
    RunInv(run, i);
    var s := run[i];
    AllocFacts(s.slots, s.nextAlloc, s.freed, s.lost, a);
  }

  lemma AllocFacts(slots: seq<Slot>, nextAlloc: nat, freed: seq<nat>, lost: set<nat>, a: nat)
    requires AllocsOk(slots, nextAlloc, freed, lost) && a < nextAlloc
    ensures a in freed || a in lost <==> !Owned(slots, a)
    ensures !(a in freed && a in lost)
  {
    hide Owns;
    if q :| 0 <= q < |slots| && Owns(slots[q], a) {
      assert InUse(a, nextAlloc, freed, lost);
    }
  }

  /** In this step `exec` drops page table `a`, which it has built and not finished. */
  ghost predicate Abandons(s: State, s': State, a: nat) {
    exists c, p: nat :: ExecStep(s, s', c, p, Abandoned) && s.slots[p].image == Some(a)
  }

  ghost predicate AbandonsAt(run: seq<State>, j: nat, a: nat) {
    j + 1 < |run| && Abandons(run[j], run[j + 1], a)
  }

  lemma LostStep(s: State, s': State, a: nat)
    requires Step(s, s')
    ensures a in s'.lost <==> a in s.lost || Abandons(s, s', a)
  {
    hide Exited;
    if c, p: nat :| ExecStep(s, s', c, p, Abandoned) {
      assert Abandons(s, s', s.slots[p].image.value);
    } else {
      KeepsLost(s, s');
    }
  }

  /** No other step loses anything. */
  lemma KeepsLost(s: State, s': State)
    requires Step(s, s') && forall c, p :: !ExecStep(s, s', c, p, Abandoned)
    ensures s'.lost == s.lost
  {
    hide Exited;
    hide Wake;
    hide FindUnused;
    hide FindZombie;
    hide FindPid;
  }

  /** What has been lost, exactly: the page tables that `exec` abandoned. */
  lemma {:induction false} LostExactly(run: seq<State>, i: nat, a: nat)
    requires IsRun(run) && i < |run|
    ensures a in run[i].lost <==> exists j :: 0 <= j < i && AbandonsAt(run, j, a)
  {
    hide Step;
    hide Abandons;
    if i == 0 {
      var n, m :| n > 0 && run[0] == Initial(n, m);
    } else {
      LostExactly(run, i - 1, a);
      assert Step(run[i - 1], run[i - 1 + 1]);
      LostStep(run[i - 1], run[i], a);
      assert AbandonsAt(run, i - 1, a) == Abandons(run[i - 1], run[i], a);
    }
  }

  /** The first process calls `exec`, which finds a section header cut short. */
  function CutShort(): seq<State> {
    var s := Scene(BLANK, Free, 2, 2);
    [Initial(2, 1),
     s,
     SetSlot(s, 0, s.slots[0].(image := Some(2))).(nextAlloc := 3),
     s.(nextAlloc := 3, lost := {2})]
  }

  lemma CutShortSteps()
    ensures var run := CutShort(); forall i :: 0 <= i < 3 ==> Step(run[i], run[i + 1])
  {
    var run := CutShort();
    assert ScheduleStep(run[0], run[1], 0, 0);
    assert BuildStep(run[1], run[2], 0, 0);
    assert ExecStep(run[2], run[3], 0, 0, Abandoned);
  }

  /** A page table can be lost: nobody owns it, and it has not been freed. */
  lemma TableLost()
    ensures var run := CutShort();
            IsRun(run) && 2 in run[3].lost && !Owned(run[3].slots, 2) && 2 !in run[3].freed
  {
    var run := CutShort();
    CutShortSteps();
    hide Step;
    assert run[0] == Initial(2, 1);
  }

  /** A process other than the first always has a parent to wake: `exit` is never held up. */
  lemma ExitEnabled(run: seq<State>, i: nat, c: nat, p: nat)
    requires IsRun(run) && i < |run| && Runs(run[i], c, p) && Idle(run[i], p) && p != run[i].init
    ensures exists s' :: ExitStep(run[i], s', c, p)
  {
    var s := run[i];
    RunInv(run, i);
    RunsRunning(s, c, p);
    assert ExitStep(s, s.(slots := Exited(s.slots, p, s.init), cpu := s.cpu[c := None]), c, p);
  }

  // ---------------------------------------------------------------- kill

  /** `kill` of a pid finds the one slot that holds it. */
  lemma KillFinds(slots: seq<Slot>, nextPid: nat, reaped: seq<nat>, q: nat)
    requires PidsOk(slots, nextPid, reaped) && q < |slots| && slots[q].pid > 0
    ensures FindPid(slots, slots[q].pid, 0) == Some(q)
  {
  }

  /** At step `j` of the run, `kill` names the pid in slot `q`. */
  ghost predicate Named(run: seq<State>, j: nat, q: nat) {
    j + 1 < |run| && q < |run[j].slots| && KillStep(run[j], run[j + 1], run[j].slots[q].pid)
  }

  /** Between `b` and `i`, `kill` names it. */
  ghost predicate NamedSince(run: seq<State>, b: nat, q: nat, i: nat) {
    exists j :: b < j < i && Named(run, j, q)
  }

  ghost predicate Claims(s: State, s': State) {
    exists c, p :: ClaimStep(s, s', c, p)
  }

  /** At step `b` of the run, `allocateProcess` takes slot `q`. */
  ghost predicate Born(run: seq<State>, b: nat, q: nat) {
    b + 1 < |run| && FindUnused(run[b].slots, 0) == Some(q) && Claims(run[b], run[b + 1])
  }

  ghost predicate Occupied(s: State, q: nat) {
    q < |s.slots| && !s.slots[q].state.Unused?
  }

  /** The process in slot `q`, born at `b`, still holds the slot at `i`. */
  ghost predicate Holds(run: seq<State>, b: nat, q: nat, i: nat) {
    && b < i < |run|
    && forall k :: b < k <= i ==> Occupied(run[k], q)
  }

  ghost predicate SameMark(s: State, s': State, q: nat)
    requires q < |s.slots|
  {
    && q < |s'.slots| && s'.slots[q].pid == s.slots[q].pid
    && s'.slots[q].killed == s.slots[q].killed
  }

  lemma ForkMark(s: State, s': State, c: nat, p: nat, ok: bool, q: nat)
    requires Occupied(s, q)
    requires ClaimStep(s, s', c, p) || StackStep(s, s', c, p, ok) || CopyStep(s, s', c, p, ok) ||
             AdoptStep(s, s', c, p) || LaunchStep(s, s', c, p)
    ensures SameMark(s, s', q)
  {
  }

  lemma ExitMark(s: State, s': State, c: nat, p: nat, q: nat)
    requires Occupied(s, q) && ExitStep(s, s', c, p)
    ensures SameMark(s, s', q)
  {
    ExitedSlot(s.slots, p, s.init, q);
  }

  lemma ReapMark(s: State, s': State, c: nat, p: nat, q: nat)
    requires Occupied(s, q) && Occupied(s', q) && (ReapStep(s, s', c, p) || WaitStep(s, s', c, p))
    ensures SameMark(s, s', q)
  {
  }

  lemma ExecMark(s: State, s': State, c: nat, p: nat, end: ExecEnd, q: nat)
    requires Occupied(s, q) && (BuildStep(s, s', c, p) || ExecStep(s, s', c, p, end))
    ensures SameMark(s, s', q)
  {
  }

  lemma SchedMark(s: State, s': State, c: nat, p: nat, id: nat, q: nat)
    requires Occupied(s, q)
    requires SleepStep(s, s', c, p, id) || WakeupStep(s, s', id) || YieldStep(s, s', c, p) || ScheduleStep(s, s', c, p)
    ensures SameMark(s, s', q)
  {
  }

  /** Only `kill` marks a process. */
  lemma OtherMark(s: State, s': State, q: nat)
    requires Step(s, s') && Occupied(s, q) && Occupied(s', q) && forall pid :: !KillStep(s, s', pid)
    ensures SameMark(s, s', q)
  {
    hide ClaimStep;
    hide StackStep;
    hide CopyStep;
    hide AdoptStep;
    hide LaunchStep;
    hide ExitStep;
    hide ReapStep;
    hide BuildStep;
    hide ExecStep;
    hide WaitStep;
    hide SleepStep;
    hide WakeupStep;
    hide KillStep;
    hide YieldStep;
    hide ScheduleStep;
    hide SameMark;
    if c, p :| ClaimStep(s, s', c, p) { ForkMark(s, s', c, p, true, q); }
    else if c, p, ok :| StackStep(s, s', c, p, ok) { ForkMark(s, s', c, p, ok, q); }
    else if c, p, ok :| CopyStep(s, s', c, p, ok) { ForkMark(s, s', c, p, ok, q); }
    else if c, p :| AdoptStep(s, s', c, p) { ForkMark(s, s', c, p, true, q); }
    else if c, p :| LaunchStep(s, s', c, p) { ForkMark(s, s', c, p, true, q); }
    else if c, p :| ExitStep(s, s', c, p) { ExitMark(s, s', c, p, q); }
    else if c, p :| ReapStep(s, s', c, p) { ReapMark(s, s', c, p, q); }
    else if c, p :| WaitStep(s, s', c, p) { ReapMark(s, s', c, p, q); }
    else if c, p :| BuildStep(s, s', c, p) { ExecMark(s, s', c, p, Committed, q); }
    else if c, p, end :| ExecStep(s, s', c, p, end) { ExecMark(s, s', c, p, end, q); }
    else if c, p, id :| SleepStep(s, s', c, p, id) { SchedMark(s, s', c, p, id, q); }
    else if id :| WakeupStep(s, s', id) { SchedMark(s, s', 0, 0, id, q); }
    else if c, p :| YieldStep(s, s', c, p) { SchedMark(s, s', c, p, 0, q); }
    else if c, p :| ScheduleStep(s, s', c, p) { SchedMark(s, s', c, p, 0, q); }
  }

  /** In one step a process keeps its pid, and becomes killed exactly when `kill` names it. */
  lemma KilledStep(s: State, s': State, q: nat)
    requires PidsOk(s.slots, s.nextPid, s.reaped) && Step(s, s') && Occupied(s, q) && Occupied(s', q)
    ensures s'.slots[q].pid == s.slots[q].pid
    ensures s'.slots[q].killed <==> s.slots[q].killed || KillStep(s, s', s.slots[q].pid)
  {
    KillFinds(s.slots, s.nextPid, s.reaped, q);
    hide Step;
    hide PidsOk;
    if pid :| KillStep(s, s', pid) {
    } else {
      OtherMark(s, s', q);
    }
  }

  lemma RunPids(run: seq<State>, i: nat)
    requires IsRun(run) && i < |run|
    ensures PidsOk(run[i].slots, run[i].nextPid, run[i].reaped)
  {
    RunInv(run, i);
  }

  lemma BirthMark(run: seq<State>, b: nat, q: nat)
    requires Born(run, b, q)
    ensures Holds(run, b, q, b + 1) && run[b + 1].slots[q].pid == run[b].nextPid
    ensures run[b + 1].slots[q].killed == run[b].slots[q].killed
  {
    var c, p :| ClaimStep(run[b], run[b + 1], c, p);
    assert Occupied(run[b + 1], q);
  }

  lemma KilledNext(run: seq<State>, b: nat, q: nat, k: nat)
    requires b < k && k + 1 < |run| && PidsOk(run[k].slots, run[k].nextPid, run[k].reaped) && Step(run[k], run[k + 1])
    requires Occupied(run[k], q) && Occupied(run[k + 1], q)
    ensures run[k + 1].slots[q].pid == run[k].slots[q].pid
    ensures run[k + 1].slots[q].killed <==> run[k].slots[q].killed || Named(run, k, q)
    ensures NamedSince(run, b, q, k + 1) <==> NamedSince(run, b, q, k) || Named(run, k, q)
  {
    KilledStep(run[k], run[k + 1], q);
    hide Step;
    hide KillStep;
    hide PidsOk;
  }

  /**
   When is a process killed?  When its slot was marked before it was born, or when `kill` has
   named its pid since.
   */
  lemma {:induction false} KilledExactly(run: seq<State>, b: nat, q: nat, i: nat)
    requires IsRun(run) && Born(run, b, q) && Holds(run, b, q, i)
    ensures run[i].slots[q].pid == run[b].nextPid
    ensures run[i].slots[q].killed <==> run[b].slots[q].killed || NamedSince(run, b, q, i)
    decreases i
  {
    hide Step;
    hide Claims;
    if i == b + 1 {
      BirthMark(run, b, q);
    } else {
      KilledExactly(run, b, q, i - 1);
      RunPids(run, i - 1);
      assert Step(run[i - 1], run[i - 1 + 1]);
      assert Occupied(run[i - 1], q) && Occupied(run[i], q);
      hide PidsOk;
      hide Named;
      hide NamedSince;
      KilledNext(run, b, q, i - 1);
    }
  }

  /** Is a process killed only if `kill` names it while it lives?  Exactly when it is born in an unmarked slot. */
  lemma KilledAlive(run: seq<State>, b: nat, q: nat)
    requires IsRun(run) && Born(run, b, q)
    ensures (forall i: nat :: Holds(run, b, q, i) && run[i].slots[q].killed ==> NamedSince(run, b, q, i))
            <==> !run[b].slots[q].killed
  {
    BirthMark(run, b, q);
    assert !NamedSince(run, b, q, b + 1);
    hide IsRun;
    hide Born;
    hide NamedSince;
    forall i: nat | Holds(run, b, q, i)
      ensures run[i].slots[q].killed <==> run[b].slots[q].killed || NamedSince(run, b, q, i) {
      KilledExactly(run, b, q, i);
    }
  }

  /** A slot that is new, or that `wait` has emptied, is unmarked: only a failed `fork` leaves a pid to be killed. */
  lemma UnmarkedSlot(run: seq<State>, i: nat, q: nat)
    requires IsRun(run) && i < |run| && q < |run[i].slots| && run[i].slots[q].state.Unused?
    ensures run[i].slots[q].killed ==> run[i].slots[q].pid > 0
  {
    RunInv(run, i);
    assert SlotOk(run[i].slots[q]);
  }

  // ---------------------------------------------------------------- who is asleep, and since when

  /** What `kill` does to each slot: the one with the pid is marked, and made runnable if it is asleep. */
  lemma KillWakes(s: State, s': State, pid: nat, q: nat)
    requires PidsOk(s.slots, s.nextPid, s.reaped) && KillStep(s, s', pid) && q < |s.slots|
    ensures |s'.slots| == |s.slots| && s' == s.(slots := s'.slots)
    ensures s.slots[q].pid != pid ==> s'.slots[q] == s.slots[q]
    ensures var slot, slot' := s.slots[q], s'.slots[q];
            slot.pid == pid ==>
              && slot'.killed
              && slot'.state == (if slot.state == Sleeping then Runnable else slot.state)
              && slot'.pid == pid && slot'.parent == slot.parent && slot'.chan == slot.chan
              && slot'.stack == slot.stack && slot'.pages == slot.pages && slot'.image == slot.image
  {
    if s.slots[q].pid == pid { KillFinds(s.slots, s.nextPid, s.reaped, q); }
  }

  /** What a wakeup does to each slot: the sleepers on the channel become runnable, and nothing else changes. */
  lemma WakeupClears(s: State, s': State, id: nat, q: nat)
    requires WakeupStep(s, s', id) && q < |s.slots|
    ensures |s'.slots| == |s.slots| && s' == s.(slots := s'.slots) && !SleepsOn(s'.slots[q], Elsewhere(id))
    ensures var slot, slot' := s.slots[q], s'.slots[q];
            && slot'.state ==
                 (if slot.state == Sleeping && slot.chan == Some(Elsewhere(id)) then Runnable else slot.state)
            && slot'.pid == slot.pid && slot'.parent == slot.parent && slot'.chan == slot.chan
            && slot'.killed == slot.killed && slot'.stack == slot.stack && slot'.pages == slot.pages
            && slot'.image == slot.image
  {
  }

  ghost predicate FallsAsleep(s: State, s': State, q: nat) {
    || (exists c :: WaitStep(s, s', c, q))
    || (exists c, id :: SleepStep(s, s', c, q, id))
  }

  ghost predicate FallsAsleepAt(run: seq<State>, k: nat, q: nat) {
    k + 1 < |run| && FallsAsleep(run[k], run[k + 1], q)
  }

  /** The slot is asleep after the step, as it was before. */
  ghost predicate StillAsleep(s: State, s': State, q: nat) {
    && q < |s.slots| && q < |s'.slots|
    && (s'.slots[q].state.Sleeping? ==> s.slots[q].state.Sleeping? && s'.slots[q].chan == s.slots[q].chan)
  }

  lemma ForkSleepers(s: State, s': State, c: nat, p: nat, ok: bool, q: nat)
    requires q < |s'.slots|
    requires ClaimStep(s, s', c, p) || StackStep(s, s', c, p, ok) || CopyStep(s, s', c, p, ok) ||
             AdoptStep(s, s', c, p) || LaunchStep(s, s', c, p)
    ensures StillAsleep(s, s', q)
  {
  }

  lemma ExitSleepers(s: State, s': State, c: nat, p: nat, q: nat)
    requires q < |s'.slots| && ExitStep(s, s', c, p)
    ensures StillAsleep(s, s', q)
  {
    hide Exited;
    ExitedSlot(s.slots, p, s.init, q);
  }

  lemma OtherSleepers(s: State, s': State, c: nat, p: nat, end: ExecEnd, id: nat, q: nat)
    requires q < |s'.slots|
    requires ReapStep(s, s', c, p) || BuildStep(s, s', c, p) || ExecStep(s, s', c, p, end) || WakeupStep(s, s', id) ||
             KillStep(s, s', id) || YieldStep(s, s', c, p) || ScheduleStep(s, s', c, p)
    ensures StillAsleep(s, s', q)
  {
  }

  /** Others do not put a process to sleep. */
  lemma SleepySteps(s: State, s': State, c: nat, p: nat, id: nat, q: nat)
    requires q < |s'.slots| && (WaitStep(s, s', c, p) || SleepStep(s, s', c, p, id))
    ensures StillAsleep(s, s', q) || (q == p && FallsAsleep(s, s', q))
  {
  }

  /** A process is asleep because it was, on the same channel, or because it has just gone to sleep. */
  lemma AsleepStep(s: State, s': State, q: nat)
    requires Step(s, s') && q < |s'.slots|
    ensures StillAsleep(s, s', q) || FallsAsleep(s, s', q)
  {
    hide ClaimStep;
    hide StackStep;
    hide CopyStep;
    hide AdoptStep;
    hide LaunchStep;
    hide ExitStep;
    hide ReapStep;
    hide BuildStep;
    hide ExecStep;
    hide WaitStep;
    hide SleepStep;
    hide WakeupStep;
    hide KillStep;
    hide YieldStep;
    hide ScheduleStep;
    hide StillAsleep;
    hide FallsAsleep;
    if c, p :| ClaimStep(s, s', c, p) { ForkSleepers(s, s', c, p, true, q); }
    else if c, p, ok :| StackStep(s, s', c, p, ok) { ForkSleepers(s, s', c, p, ok, q); }
    else if c, p, ok :| CopyStep(s, s', c, p, ok) { ForkSleepers(s, s', c, p, ok, q); }
    else if c, p :| AdoptStep(s, s', c, p) { ForkSleepers(s, s', c, p, true, q); }
    else if c, p :| LaunchStep(s, s', c, p) { ForkSleepers(s, s', c, p, true, q); }
    else if c, p :| ExitStep(s, s', c, p) { ExitSleepers(s, s', c, p, q); }
    else if c, p :| ReapStep(s, s', c, p) { OtherSleepers(s, s', c, p, Committed, 0, q); }
    else if c, p :| WaitStep(s, s', c, p) { SleepySteps(s, s', c, p, 0, q); }
    else if c, p :| BuildStep(s, s', c, p) { OtherSleepers(s, s', c, p, Committed, 0, q); }
    else if c, p, end :| ExecStep(s, s', c, p, end) { OtherSleepers(s, s', c, p, end, 0, q); }
    else if c, p, id :| SleepStep(s, s', c, p, id) { SleepySteps(s, s', c, p, id, q); }
    else if id :| WakeupStep(s, s', id) { OtherSleepers(s, s', 0, 0, Committed, id, q); }
    else if pid :| KillStep(s, s', pid) { OtherSleepers(s, s', 0, 0, Committed, pid, q); }
    else if c, p :| YieldStep(s, s', c, p) { OtherSleepers(s, s', c, p, Committed, 0, q); }
    else if c, p :| ScheduleStep(s, s', c, p) { OtherSleepers(s, s', c, p, Committed, 0, q); }
  }

  ghost predicate Asleep(s: State, q: nat, chan: Option<Chan>) {
    q < |s.slots| && s.slots[q].state.Sleeping? && s.slots[q].chan == chan
  }

  /** Asleep now and not then: it has gone to sleep in between. */
  lemma {:induction false} SleptLater(run: seq<State>, j: nat, i: nat, q: nat, chan: Option<Chan>)
    requires IsRun(run) && j <= i < |run| && !Asleep(run[j], q, chan) && Asleep(run[i], q, chan)
    ensures exists k :: j <= k < i && FallsAsleepAt(run, k, q)
    decreases i - j
  {
    hide Step;
    hide FallsAsleep;
    assert j < i;
    assert Step(run[i - 1], run[i - 1 + 1]);
    AsleepStep(run[i - 1], run[i], q);
    if FallsAsleep(run[i - 1], run[i], q) {
      assert FallsAsleepAt(run, i - 1, q);
    } else {
      SleptLater(run, j, i - 1, q, chan);
    }
  }

  /** A process that `kill` has named and that is asleep has gone to sleep after the `kill`. */
  lemma KilledAsleep(run: seq<State>, j: nat, i: nat, q: nat, chan: Option<Chan>)
    requires IsRun(run) && j < i < |run| && Named(run, j, q) && Asleep(run[i], q, chan)
    ensures exists k :: j < k < i && FallsAsleepAt(run, k, q)
  {
    RunPids(run, j);
    KillWakes(run[j], run[j + 1], run[j].slots[q].pid, q);
    hide KillStep;
    hide PidsOk;
    SleptLater(run, j + 1, i, q, chan);
  }

  /** A process that sleeps on a channel has gone to sleep after the last wakeup on it. */
  lemma SleepsSince(run: seq<State>, j: nat, i: nat, q: nat, id: nat)
    requires IsRun(run) && j < i < |run| && WakeupStep(run[j], run[j + 1], id) && Asleep(run[i], q, Some(Elsewhere(id)))
    ensures exists k :: j < k < i && FallsAsleepAt(run, k, q)
  {
    assert q < |run[j + 1].slots| ==> !Asleep(run[j + 1], q, Some(Elsewhere(id))) by {
      if q < |run[j + 1].slots| { WakeupClears(run[j], run[j + 1], id, q); }
    }
    hide WakeupStep;
    SleptLater(run, j + 1, i, q, Some(Elsewhere(id)));
  }

  lemma WaitUnmarked(s: State, s': State, q: nat)
    requires FallsAsleep(s, s', q) && q < |s.slots| && q < |s'.slots| && s'.slots[q].chan == Some(OfProcess(q))
    ensures !s'.slots[q].killed
  {
  }

  /** A killed process never sleeps in `wait`: it does not go to sleep there, and `kill` wakes one that has. */
  lemma {:induction false} KilledNeverWaits(run: seq<State>, i: nat, q: nat)
    requires IsRun(run) && i < |run| && Asleep(run[i], q, Some(OfProcess(q)))
    ensures !run[i].slots[q].killed
  {
    hide *;
    StartsAwake(run, q);
    if i > 0 {
      StepBefore(run, i);
      RunPids(run, i - 1);
      if Asleep(run[i - 1], q, Some(OfProcess(q))) { KilledNeverWaits(run, i - 1, q); }
      WaiterUnmarked(run[i - 1], run[i], q);
    }
  }

  lemma StepBefore(run: seq<State>, i: nat)
    requires IsRun(run) && 0 < i < |run|
    ensures Step(run[i - 1], run[i])
  {
    hide Step;
    assert Step(run[i - 1], run[i - 1 + 1]);
  }

  lemma WaiterUnmarked(s: State, s': State, q: nat)
    requires PidsOk(s.slots, s.nextPid, s.reaped) && Step(s, s') && Asleep(s', q, Some(OfProcess(q)))
    requires Asleep(s, q, Some(OfProcess(q))) ==> !s.slots[q].killed
    ensures !s'.slots[q].killed
  {
    hide Step;
    hide PidsOk;
    hide FallsAsleep;
    AsleepStep(s, s', q);
    if FallsAsleep(s, s', q) {
      SleeperThere(s, s', q);
      WaitUnmarked(s, s', q);
    } else {
      StillUnmarked(s, s', q);
    }
  }

  lemma StartsAwake(run: seq<State>, q: nat)
    requires IsRun(run)
    ensures forall chan :: !Asleep(run[0], q, chan)
  {
    var n, m :| n > 0 && run[0] == Initial(n, m);
  }

  /** Only a sleeper, or one woken that has not run since, names a channel. */
  lemma NoStaleChannel(run: seq<State>, i: nat, q: nat)
    requires IsRun(run) && i < |run| && q < |run[i].slots| && run[i].slots[q].chan.Some?
    ensures run[i].slots[q].state.Sleeping? || run[i].slots[q].state.Runnable?
  {
    RunInv(run, i);
    assert SlotOk(run[i].slots[q]);
  }

  lemma SleeperThere(s: State, s': State, q: nat)
    requires FallsAsleep(s, s', q)
    ensures q < |s.slots|
  {
  }

  /** A sleeper that stays asleep is not marked. */
  lemma StillUnmarked(s: State, s': State, q: nat)
    requires PidsOk(s.slots, s.nextPid, s.reaped) && Step(s, s') && q < |s.slots| && q < |s'.slots|
    requires s.slots[q].state.Sleeping? && s'.slots[q].state.Sleeping? && !s.slots[q].killed
    ensures !s'.slots[q].killed
  {
    hide Step;
    KilledStep(s, s', q);
    if KillStep(s, s', s.slots[q].pid) { KillWakes(s, s', s.slots[q].pid, q); }
  }

  /** Two slots and one CPU, which runs the first process. */
  function Scene(child: Slot, act: Activity, nextPid: nat, nextAlloc: nat): State {
    var first := Slot(Running, 1, None, None, false, Some(0), Some(1), None);
    State([first, child], [act, Free], [Some(0)], 0, nextPid, nextAlloc, [], {}, [])
  }

  function Child(state: ProcState, pid: nat, killed: bool): Slot {
    BLANK.(state := state, pid := pid, killed := killed)
  }

  /**
   The first process forks; there is no page for the kernel stack; `kill` names the pid that was
   left behind; the next `fork` succeeds.
   */
  function Misfire(): seq<State> {
    [Initial(2, 1),
     Scene(BLANK, Free, 2, 2),
     Scene(Child(Embryo, 2, false), Claimed(1), 3, 2),
     Scene(Child(Unused, 2, false), Free, 3, 2),
     Scene(Child(Unused, 2, true), Free, 3, 2),
     Scene(Child(Embryo, 3, true), Claimed(1), 4, 2),
     Scene(Child(Embryo, 3, true).(stack := Some(2)), Stacked(1), 4, 3),
     Scene(Child(Embryo, 3, true).(stack := Some(2), pages := Some(3)), Paged(1), 4, 4),
     Scene(Child(Embryo, 3, true).(stack := Some(2), pages := Some(3), parent := Some(0)), Adopted(1), 4, 4),
     Scene(Child(Runnable, 3, true).(stack := Some(2), pages := Some(3), parent := Some(0)), Free, 4, 4)]
  }

  lemma FailedFork()
    ensures var run := Misfire(); forall i :: 0 <= i < 4 ==> Step(run[i], run[i + 1])
  {
    var run := Misfire();
    assert ScheduleStep(run[0], run[1], 0, 0);
    assert ClaimStep(run[1], run[2], 0, 0);
    assert StackStep(run[2], run[3], 0, 0, false);
    assert KillStep(run[3], run[4], 2);
  }

  lemma NextFork()
    ensures var run := Misfire(); forall i :: 4 <= i < 9 ==> Step(run[i], run[i + 1])
    ensures var run := Misfire(); Claims(run[4], run[5])
  {
    var run := Misfire();
    assert ClaimStep(run[4], run[5], 0, 0);
    assert StackStep(run[5], run[6], 0, 0, true);
    assert CopyStep(run[6], run[7], 0, 0, true);
    assert AdoptStep(run[7], run[8], 0, 0);
    assert LaunchStep(run[8], run[9], 0, 0);
  }

  /** A process can be born killed: no `kill` ever named it. */
  lemma BornKilled()
    ensures var run := Misfire();
            && IsRun(run) && Born(run, 4, 1) && Holds(run, 4, 1, 9)
            && run[9].slots[1].state.Runnable? && run[9].slots[1].killed
            && !NamedSince(run, 4, 1, 9)
  {
    var run := Misfire();
    FailedFork();
    NextFork();
    hide Step;
    hide Claims;
    assert run[0] == Initial(2, 1);
    forall k | 4 < k <= 9 ensures Occupied(run[k], 1) {
    }
    forall j | 4 < j < 9 ensures !Named(run, j, 1) {
      assert run[j + 1].act != run[j].act;
    }
  }

  // ---------------------------------------------------------------- the loops over the table

  /** The effect of `exit`'s loop on the first `k` slots. */
  ghost function PassedOn(woken: seq<Slot>, p: nat, init: nat, k: nat): seq<Slot>
    requires k <= |woken|
  {
    var zombie := exists j :: 0 <= j < k && IsZombieChild(woken[j], p);
    seq(|woken|, q requires 0 <= q < |woken| =>
      var slot := if q < k && woken[q].parent == Some(p) then woken[q].(parent := Some(init)) else woken[q];
      if zombie && SleepsOn(slot, OfProcess(init)) then slot.(state := Runnable) else slot)
  }

  lemma PassedOnAll(woken: seq<Slot>, p: nat, init: nat)
    ensures PassedOn(woken, p, init, |woken|)
            == if HasZombieChild(woken, p)
              then Wake(Reparent(woken, p, init), OfProcess(init)) else Reparent(woken, p, init)
  {
  }

  /** One turn of that loop. */
  function Pass(slots: seq<Slot>, p: nat, init: nat, q: nat): seq<Slot>
    requires q < |slots|
  {
    if slots[q].parent != Some(p) then slots
    else
      var passed := slots[q := slots[q].(parent := Some(init))];
      if slots[q].state.Zombie? then Wake(passed, OfProcess(init)) else passed
  }

  lemma PassedOnStep(woken: seq<Slot>, p: nat, init: nat, q: nat)
    requires q < |woken|
    ensures PassedOn(woken, p, init, q + 1) == Pass(PassedOn(woken, p, init, q), p, init, q)
  {
    assert (exists j :: 0 <= j < q + 1 && IsZombieChild(woken[j], p)) <==>
           (exists j :: 0 <= j < q && IsZombieChild(woken[j], p)) || IsZombieChild(woken[q], p);
  }

  class Table {
    const slots: array<Slot>
    var nextPid: nat

    constructor (size: nat)
      ensures fresh(slots) && slots[..] == seq(size, _ => BLANK) && nextPid == 1
    {
      slots := new Slot[size](_ => BLANK);
      nextPid := 1;
      new;
      assert slots[..] == seq(size, _ => BLANK);
    }

    /** The search loop of `allocateProcess`. */
    method Allocate() returns (r: Option<nat>)
      modifies this, slots
      ensures r == FindUnused(old(slots[..]), 0)
      ensures r.None? ==> slots[..] == old(slots[..]) && nextPid == old(nextPid)
      ensures r.Some? ==>
                slots[..] == old(slots[..])[r.value := old(slots[r.value]).(state := Embryo, pid := old(nextPid))]
      ensures r.Some? ==> nextPid == old(nextPid) + 1
    {
      var p, found := 0, false;
      while p < slots.Length && !found
        invariant 0 <= p <= slots.Length && (found ==> p < slots.Length && slots[p].state.Unused?)
        invariant FindUnused(slots[..], 0) == FindUnused(slots[..], p)
        invariant slots[..] == old(slots[..])
        decreases slots.Length - p, !found
      {
        if slots[p].state.Unused? {
          found := true;
        } else {
          p := p + 1;
        }
      }
      if !found {
        return None;
      }
      slots[p] := slots[p].(state := Embryo, pid := nextPid);
      nextPid := nextPid + 1;
      return Some(p);
    }

    method Wakeup1(chan: Chan)
      modifies slots
      ensures slots[..] == Wake(old(slots[..]), chan)
    {
      for q := 0 to slots.Length
        invariant forall j :: 0 <= j < q ==> slots[j] == Wake(old(slots[..]), chan)[j]
        invariant forall j :: q <= j < slots.Length ==> slots[j] == old(slots[j])
      {
        if slots[q].state.Sleeping? && slots[q].chan == Some(chan) {
          slots[q] := slots[q].(state := Runnable);
        }
      }
    }

    /** The critical section of `exit` up to `sched`. */
    method Exit(p: nat, init: nat)
      requires p < slots.Length && slots[p].parent.Some?
      modifies slots
      ensures slots[..] == Exited(old(slots[..]), p, init)
    {
      Wakeup1(OfProcess(slots[p].parent.value));
      ghost var woken := slots[..];
      for q := 0 to slots.Length
        invariant |woken| == slots.Length && slots[..] == PassedOn(woken, p, init, q)
      {
        hide PassedOn;
        PassedOnStep(woken, p, init, q);
        if slots[q].parent == Some(p) {
          slots[q] := slots[q].(parent := Some(init));
          if slots[q].state.Zombie? {
            Wakeup1(OfProcess(init));
          }
        }
        assert slots[..] == PassedOn(woken, p, init, q + 1);
      }
      PassedOnAll(woken, p, init);
      slots[p] := slots[p].(state := Zombie);
    }

    /** One scan of `wait`: a dead child is taken out of the table; or the caller learns whether it has children. */
    method Reap(p: nat) returns (r: Option<nat>, haveKids: bool)
      modifies slots
      ensures match FindZombie(old(slots[..]), p, 0)
              case Some(q) => r == Some(old(slots[q]).pid) && slots[..] == old(slots[..])[q := Reaped(old(slots[q]))]
              case None => r == None && slots[..] == old(slots[..]) && haveKids == HasChild(slots[..], p)
    {
      haveKids := false;
      for q := 0 to slots.Length
        invariant slots[..] == old(slots[..])
        invariant FindZombie(slots[..], p, 0) == FindZombie(slots[..], p, q)
        invariant haveKids <==> exists j :: 0 <= j < q && slots[j].parent == Some(p)
      {
        if slots[q].parent != Some(p) {
          continue;
        }
        haveKids := true;
        if slots[q].state.Zombie? {
          r := Some(slots[q].pid);
          slots[q] := Reaped(slots[q]);
          return;
        }
      }
      r := None;
    }

    method Kill(pid: nat) returns (ok: bool)
      modifies slots
      ensures match FindPid(old(slots[..]), pid, 0)
              case Some(q) => ok && slots[..] == old(slots[..])[q := Killed(old(slots[q]))]
              case None => !ok && slots[..] == old(slots[..])
    {
      for q := 0 to slots.Length
        invariant slots[..] == old(slots[..])
        invariant FindPid(slots[..], pid, 0) == FindPid(slots[..], pid, q)
      {
        if slots[q].pid == pid {
          slots[q] := slots[q].(killed := true);
          if slots[q].state.Sleeping? {
            slots[q] := slots[q].(state := Runnable);
          }
          return true;
        }
      }
      return false;
    }
  }
}
