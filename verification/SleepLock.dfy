/**
 Sleeping locks on a multiprocessor, instruction group by instruction group: the
 inner spinlock, the process table lock, `sleep`, `wakeup`, the scheduler of each
 CPU, preemption and `kill`, in every interleaving.
 */
module SleepLock {
  import opened Basics

  datatype RunState = Runnable | Running | Sleeping

  /** Who holds `processTable.Lock`; `sched` and the scheduler hand it to each other. */
  datatype Owner = Free | Process(p: nat) | Scheduler(c: nat)

  /** The next thing a process does; `k` is the sleeping lock it is dealing with. */
  datatype Pc =
    | Outside                 // elsewhere, holding no spinlock
    | WantSpin(k: nat)        // sleeplockAcquire: take the inner spinlock
    | Test(k: nat)            // while (lk->Locked)
    | WantTable(k: nat)       // sleep: take processTable.Lock
    | DropSpin(k: nat)        // sleep: release the inner spinlock
    | Doze(k: nat)            // sleep: set Chan and State
    | Switching(k: nat)       // sched: hand the CPU to its scheduler
    | Gone(k: nat)            // off the CPU, in sleep
    | Awake(k: nat)           // sched has returned: clear Chan, release processTable.Lock
    | DropTaken(k: nat)       // sleeplockAcquire: release the inner spinlock
    | RelWant(k: nat)         // sleeplockRelease: take the inner spinlock
    | Clear(k: nat)           // lk->Locked = 0
    | WakeWant(k: nat)        // wakeup: take processTable.Lock
    | WakeScan(k: nat)        // wakeup1
    | WakeDrop(k: nat)        // wakeup: release processTable.Lock
    | RelDrop(k: nat)         // sleeplockRelease: release the inner spinlock
    | Yielded(resume: Pc)     // off the CPU, in yield
    | Back(resume: Pc)        // yield: sched has returned

  datatype State = State(
    pc: seq<Pc>,
    run: seq<RunState>,
    chan: seq<Option<nat>>,
    cpu: seq<Option<nat>>,        // the process on each CPU
    table: Owner,
    spin: seq<Option<nat>>,       // the holder of each inner spinlock
    locked: seq<bool>,
    pid: seq<Option<nat>>,        // lk->Pid
    held: seq<set<nat>>)          // the locks each process has acquired and not released

  // ---------------------------------------------------------------- steps

  function Preemptible(pc: Pc): bool {
    pc.Outside? || pc.WantSpin? || pc.RelWant?
  }

  /** `wakeup1`. */
  function WakeAll(run: seq<RunState>, chan: seq<Option<nat>>, k: nat): seq<RunState>
    requires |run| == |chan|
  {
    seq(|run|, p requires 0 <= p < |run| => if run[p].Sleeping? && chan[p] == Some(k) then Runnable else run[p])
  }

  ghost predicate Sized(s: State) {
    && |s.run| == |s.pc| && |s.chan| == |s.pc| && |s.held| == |s.pc|
    && |s.locked| == |s.spin| && |s.pid| == |s.spin|
  }

  /** Process `p`, on CPU `c`, takes its next step. */
  ghost predicate ProcessStep(s: State, s': State, c: nat, p: nat) {
    && Sized(s) && c < |s.cpu| && p < |s.pc| && s.cpu[c] == Some(p)
    && match s.pc[p]
       case Outside =>
         || (exists k :: 0 <= k < |s.spin| && s' == s.(pc := s.pc[p := WantSpin(k)]))
         || (exists k :: k in s.held[p] && s' == s.(pc := s.pc[p := RelWant(k)]))
       case WantSpin(k) =>
         k < |s.spin| && s.spin[k] == None && s' == s.(spin := s.spin[k := Some(p)], pc := s.pc[p := Test(k)])
       case Test(k) =>
         && k < |s.spin|
         && s' == if s.locked[k] then s.(pc := s.pc[p := WantTable(k)])
                  else s.(locked := s.locked[k := true], pid := s.pid[k := Some(p)],
                          held := s.held[p := s.held[p] + {k}], pc := s.pc[p := DropTaken(k)])
       case WantTable(k) =>
         s.table.Free? && s' == s.(table := Process(p), pc := s.pc[p := DropSpin(k)])
       case DropSpin(k) =>
         k < |s.spin| && s' == s.(spin := s.spin[k := None], pc := s.pc[p := Doze(k)])
       case Doze(k) =>
         s' == s.(chan := s.chan[p := Some(k)], run := s.run[p := Sleeping], pc := s.pc[p := Switching(k)])
       case Switching(k) =>
         s' == s.(cpu := s.cpu[c := None], table := Scheduler(c), pc := s.pc[p := Gone(k)])
       case Awake(k) =>
         s' == s.(chan := s.chan[p := None], table := Free, pc := s.pc[p := WantSpin(k)])
       case DropTaken(k) =>
         k < |s.spin| && s' == s.(spin := s.spin[k := None], pc := s.pc[p := Outside])
       case RelWant(k) =>
         k < |s.spin| && s.spin[k] == None && s' == s.(spin := s.spin[k := Some(p)], pc := s.pc[p := Clear(k)])
       case Clear(k) =>
         && k < |s.spin|
         && s' == s.(locked := s.locked[k := false], pid := s.pid[k := None],
                     held := s.held[p := s.held[p] - {k}], pc := s.pc[p := WakeWant(k)])
       case WakeWant(k) =>
         s.table.Free? && s' == s.(table := Process(p), pc := s.pc[p := WakeScan(k)])
       case WakeScan(k) =>
         s' == s.(run := WakeAll(s.run, s.chan, k), pc := s.pc[p := WakeDrop(k)])
       case WakeDrop(k) =>
         s' == s.(table := Free, pc := s.pc[p := RelDrop(k)])
       case RelDrop(k) =>
         k < |s.spin| && s' == s.(spin := s.spin[k := None], pc := s.pc[p := Outside])
       case Back(r) =>
         s' == s.(table := Free, pc := s.pc[p := r])
       case _ => false
  }

  /** `yield` on a timer interrupt, possible while the process holds no spinlock. */
  ghost predicate YieldStep(s: State, s': State, c: nat, p: nat) {
    && Sized(s) && c < |s.cpu| && p < |s.pc| && s.cpu[c] == Some(p) && Preemptible(s.pc[p]) && s.table.Free?
    && s' == s.(run := s.run[p := Runnable], cpu := s.cpu[c := None], table := Scheduler(c),
         pc := s.pc[p := Yielded(s.pc[p])])
  }

  /** The scheduler of an idle CPU takes and releases `processTable.Lock`. */
  ghost predicate SchedulerStep(s: State, s': State, c: nat) {
    && c < |s.cpu| && s.cpu[c] == None
    && ((s.table.Free? && s' == s.(table := Scheduler(c))) || (s.table == Scheduler(c) && s' == s.(table := Free)))
  }

  /** The scheduler of CPU `c` switches to a runnable process, which resumes inside `sched`. */
  ghost predicate DispatchStep(s: State, s': State, c: nat, p: nat) {
    && Sized(s) && c < |s.cpu| && p < |s.pc| && s.cpu[c] == None && s.table == Scheduler(c) && s.run[p].Runnable?
    && (s.pc[p].Gone? || s.pc[p].Yielded?)
    && s' == s.(run := s.run[p := Running], cpu := s.cpu[c := Some(p)], table := Process(p),
                pc := s.pc[p := if s.pc[p].Gone? then Awake(s.pc[p].k) else Back(s.pc[p].resume)])
  }

  /** `kill` wakes a process whatever it sleeps on. */
  ghost predicate KillStep(s: State, s': State, p: nat) {
    && Sized(s) && p < |s.pc| && s.table.Free? && s.run[p].Sleeping?
    && s' == s.(run := s.run[p := Runnable])
  }

  ghost predicate Step(s: State, s': State) {
    || (exists c, p :: ProcessStep(s, s', c, p))
    || (exists c, p :: YieldStep(s, s', c, p))
    || (exists c :: SchedulerStep(s, s', c))
    || (exists c, p :: DispatchStep(s, s', c, p))
    || (exists p :: KillStep(s, s', p))
  }

  // ---------------------------------------------------------------- invariants

  function HoldsTable(pc: Pc): bool {
    pc.DropSpin? || pc.Doze? || pc.Switching? || pc.Awake? || pc.WakeScan? || pc.WakeDrop? || pc.Back?
  }

  function HoldsSpin(pc: Pc): Option<nat> {
    match pc
    case Test(k) => Some(k)
    case WantTable(k) => Some(k)
    case DropSpin(k) => Some(k)
    case DropTaken(k) => Some(k)
    case Clear(k) => Some(k)
    case WakeWant(k) => Some(k)
    case WakeScan(k) => Some(k)
    case WakeDrop(k) => Some(k)
    case RelDrop(k) => Some(k)
    case _ => None
  }

  function OffCpu(pc: Pc): bool {
    pc.Gone? || pc.Yielded?
  }

  /** At most one process, or one scheduler, is inside a section guarded by `processTable.Lock`. */
  ghost predicate TableOk(s: State)
    requires Sized(s)
  {
    && (forall p :: 0 <= p < |s.pc| ==> (s.table == Process(p) <==> HoldsTable(s.pc[p])))
    && (s.table.Scheduler? ==> s.table.c < |s.cpu| && s.cpu[s.table.c] == None)
  }

  /** The same for the inner spinlocks. */
  ghost predicate SpinOk(s: State)
    requires Sized(s)
  {
    forall p, k :: 0 <= p < |s.pc| && 0 <= k < |s.spin| ==> (s.spin[k] == Some(p) <==> HoldsSpin(s.pc[p]) == Some(k))
  }

  /** A process is on exactly one CPU, or it is waiting in `sched`. */
  ghost predicate CpuOk(s: State)
    requires Sized(s)
  {
    && (forall c :: 0 <= c < |s.cpu| && s.cpu[c].Some? ==> s.cpu[c].value < |s.pc| && !OffCpu(s.pc[s.cpu[c].value]))
    && (forall c, d :: 0 <= c < |s.cpu| && 0 <= d < |s.cpu| && s.cpu[c].Some? && s.cpu[c] == s.cpu[d] ==> c == d)
    && (forall p :: 0 <= p < |s.pc| && !OffCpu(s.pc[p]) ==> exists c :: 0 <= c < |s.cpu| && s.cpu[c] == Some(p))
  }

  /** `State` and `Chan` agree with where the process is. */
  ghost predicate RunOk(s: State)
    requires Sized(s)
  {
    forall p :: 0 <= p < |s.pc| ==>
      && (s.run[p].Running? <==> !OffCpu(s.pc[p]) && !s.pc[p].Switching?)
      && (s.run[p].Sleeping? ==> (s.pc[p].Gone? || s.pc[p].Switching?) && s.chan[p] == Some(s.pc[p].k))
      && (s.pc[p].Switching? ==> s.run[p].Sleeping?)
      && (s.chan[p].Some? ==> s.pc[p].Switching? || s.pc[p].Gone? || s.pc[p].Awake?)
      && (s.pc[p].Yielded? || s.pc[p].Back? ==> Preemptible(s.pc[p].resume))
  }

  /** `Locked` and `Pid` record exactly who has acquired the lock. */
  ghost predicate HeldOk(s: State)
    requires Sized(s)
  {
    && (forall p, k :: 0 <= p < |s.pc| && 0 <= k < |s.spin| ==>
         (k in s.held[p] <==> s.locked[k] && s.pid[k] == Some(p)))
    && (forall p, k :: 0 <= p < |s.pc| && k in s.held[p] ==> k < |s.spin|)
    && (forall k :: 0 <= k < |s.spin| ==> (s.locked[k] <==> s.pid[k].Some?))
    && (forall k :: 0 <= k < |s.spin| && s.pid[k].Some? ==> s.pid[k].value < |s.pc|)
  }

  /** Where the process is, whether or not it has been preempted there. */
  function Point(pc: Pc): Pc {
    if pc.Yielded? || pc.Back? then pc.resume else pc
  }

  /** The locks that program counters mention exist; a releaser holds its lock until it clears it. */
  ghost predicate PcOk(s: State, p: nat)
    requires Sized(s) && p < |s.pc|
  {
    match Point(s.pc[p])
    case Outside => true
    case Yielded(_) => false
    case Back(_) => false
    case RelWant(k) => k in s.held[p] && k < |s.spin|
    case Clear(k) => k in s.held[p] && k < |s.spin|
    case pc => pc.k < |s.spin|
  }

  /** A process past clearing the lock that has yet to run `wakeup1`. */
  ghost predicate Pending(s: State, k: nat)
    requires k < |s.spin|
  {
    s.spin[k].Some? && s.spin[k].value < |s.pc| &&
      (s.pc[s.spin[k].value] == WakeWant(k) || s.pc[s.spin[k].value] == WakeScan(k))
  }

  /** Whoever has decided to sleep, or sleeps, on a lock that is not held will be woken. */
  ghost predicate NotLost(s: State, p: nat)
    requires p < |s.pc| && |s.locked| == |s.spin| && |s.run| == |s.pc|
  {
    match s.pc[p]
    case WantTable(k) => k < |s.spin| && s.locked[k]
    case DropSpin(k) => k < |s.spin| && s.locked[k]
    case Doze(k) => k < |s.spin| && (s.locked[k] || Pending(s, k))
    case Switching(k) => k < |s.spin| && (s.locked[k] || Pending(s, k))
    case Gone(k) => k < |s.spin| && (s.run[p].Sleeping? ==> s.locked[k] || Pending(s, k))
    case _ => true
  }

  ghost predicate Inv(s: State) {
    && Sized(s) && TableOk(s) && SpinOk(s) && CpuOk(s) && RunOk(s) && HeldOk(s)
    && (forall p :: 0 <= p < |s.pc| ==> PcOk(s, p))
    && (forall p :: 0 <= p < |s.pc| ==> NotLost(s, p))
  }

  // ---------------------------------------------------------------- each step keeps the invariant

  lemma ProcessTable(s: State, s': State, c: nat, p: nat)
    requires ProcessStep(s, s', c, p) && TableOk(s) && RunOk(s)
    ensures Sized(s') && TableOk(s')
  {
  }

  lemma ProcessSpin(s: State, s': State, c: nat, p: nat)
    requires ProcessStep(s, s', c, p) && SpinOk(s) && RunOk(s) && Sized(s')
    ensures SpinOk(s')
  {
  }

  lemma ProcessRun(s: State, s': State, c: nat, p: nat)
    requires ProcessStep(s, s', c, p) && TableOk(s) && RunOk(s) && !OffCpu(s.pc[p]) && Sized(s')
    ensures RunOk(s')
  {
  }

  lemma ProcessHeld(s: State, s': State, c: nat, p: nat)
    requires ProcessStep(s, s', c, p) && HeldOk(s) && PcOk(s, p) && Sized(s')
    ensures HeldOk(s')
  {
  }

  /** A process stays on its CPU, or leaves it and waits in `sched`. */
  lemma CpuKept(s: State, s': State, c: nat, p: nat)
    requires Sized(s) && Sized(s') && CpuOk(s) && c < |s.cpu| && p < |s.pc| && s.cpu[c] == Some(p)
    requires |s'.pc| == |s.pc| && forall q :: 0 <= q < |s.pc| && q != p ==> s'.pc[q] == s.pc[q]
    requires s'.cpu == if OffCpu(s'.pc[p]) then s.cpu[c := None] else s.cpu
    ensures CpuOk(s')
  {
    forall q | 0 <= q < |s.pc| && !OffCpu(s'.pc[q]) ensures exists d :: 0 <= d < |s'.cpu| && s'.cpu[d] == Some(q) {
      var d :| 0 <= d < |s.cpu| && s.cpu[d] == Some(q);
      assert s'.cpu[d] == Some(q);
    }
  }

  lemma ProcessCpu(s: State, s': State, c: nat, p: nat)
    requires ProcessStep(s, s', c, p) && CpuOk(s) && RunOk(s) && Sized(s')
    ensures CpuOk(s')
  {
    hide CpuOk;
    assert s.pc[p].Back? ==> !OffCpu(s.pc[p].resume);
    CpuKept(s, s', c, p);
  }

  lemma ProcessPc(s: State, s': State, c: nat, p: nat, q: nat)
    requires ProcessStep(s, s', c, p) && HeldOk(s) && RunOk(s) && PcOk(s, p) && Sized(s') && q < |s.pc| && PcOk(s, q)
    ensures PcOk(s', q)
  {
  }

  /** A lock that is held, or whose releaser is about to wake the sleepers, stays so until they are woken. */
  lemma PromiseKept(s: State, s': State, c: nat, p: nat, k: nat)
    requires ProcessStep(s, s', c, p) && SpinOk(s) && PcOk(s, p) && Sized(s')
    requires k < |s.spin| && (s.locked[k] || Pending(s, k)) && s.pc[p] != WakeScan(k)
    ensures s'.locked[k] || Pending(s', k)
  {
    assert s.spin[k] == Some(p) <==> HoldsSpin(s.pc[p]) == Some(k);
  }

  /** While a process is between testing the lock and giving up the inner spinlock, the lock stays held. */
  lemma TestStands(s: State, s': State, c: nat, p: nat, q: nat, k: nat)
    requires ProcessStep(s, s', c, p) && SpinOk(s) && q < |s.pc| && q != p && k < |s.spin|
    requires HoldsSpin(s.pc[q]) == Some(k) && s.locked[k]
    ensures s'.locked[k]
  {
    assert s.spin[k] == Some(p) <==> HoldsSpin(s.pc[p]) == Some(k);
    assert s.spin[k] == Some(q) <==> HoldsSpin(s.pc[q]) == Some(k);
  }

  lemma OthersNotLost(s: State, s': State, c: nat, p: nat, q: nat)
    requires ProcessStep(s, s', c, p) && TableOk(s) && SpinOk(s) && RunOk(s) && PcOk(s, p) && Sized(s')
    requires q < |s.pc| && q != p && NotLost(s, q)
    ensures NotLost(s', q)
  {
    assert HoldsTable(s.pc[p]) && HoldsTable(s.pc[q]) ==> p == q;
    hide SpinOk;
    hide TableOk;
    hide Pending;
    match s.pc[q]
    case WantTable(k) => TestStands(s, s', c, p, q, k);
    case DropSpin(k) => TestStands(s, s', c, p, q, k);
    case Doze(k) => PromiseKept(s, s', c, p, k);
    case Switching(k) => PromiseKept(s, s', c, p, k);
    case Gone(k) => if s.run[q].Sleeping? && s.pc[p] != WakeScan(k) { PromiseKept(s, s', c, p, k); }
    case _ =>
  }

  lemma OwnNotLost(s: State, s': State, c: nat, p: nat)
    requires ProcessStep(s, s', c, p) && SpinOk(s) && RunOk(s) && PcOk(s, p) && Sized(s') && NotLost(s, p)
    ensures NotLost(s', p)
  {
    if s.pc[p].Doze? || s.pc[p].Switching? {
      PromiseKept(s, s', c, p, s.pc[p].k);
    }
  }

  lemma ProcessKeeps(s: State, s': State, c: nat, p: nat)
    requires Inv(s) && ProcessStep(s, s', c, p)
    ensures Inv(s')
  {
    hide ProcessStep;
    hide TableOk;
    hide SpinOk;
    hide RunOk;
    hide HeldOk;
    hide PcOk;
    hide NotLost;
    StepSizes(s, s', c, p);
    ProcessTable(s, s', c, p);
    ProcessSpin(s, s', c, p);
    ProcessRun(s, s', c, p);
    ProcessHeld(s, s', c, p);
    ProcessCpu(s, s', c, p);
    OwnNotLost(s, s', c, p);
    forall q | 0 <= q < |s.pc| ensures PcOk(s', q) && NotLost(s', q) {
      ProcessPc(s, s', c, p, q);
      if q != p { OthersNotLost(s, s', c, p, q); }
    }
  }

  lemma StepSizes(s: State, s': State, c: nat, p: nat)
    requires ProcessStep(s, s', c, p) && CpuOk(s)
    ensures p < |s.pc| && |s'.pc| == |s.pc| && !OffCpu(s.pc[p])
  {
  }

  lemma YieldKeeps(s: State, s': State, c: nat, p: nat)
    requires Inv(s) && YieldStep(s, s', c, p)
    ensures Inv(s')
  {
    CpuKept(s, s', c, p);
    hide CpuOk;
    HeldKept(s, s');
    hide HeldOk;
    assert forall q :: 0 <= q < |s.pc| ==> PcOk(s, q) ==> PcOk(s', q);
    forall q | 0 <= q < |s.pc| ensures NotLost(s', q) {
      assert NotLost(s, q);
      PendingKept(s, s', p);
    }
  }

  lemma HeldKept(s: State, s': State)
    requires Sized(s) && Sized(s') && HeldOk(s) && |s'.pc| == |s.pc|
    requires s'.held == s.held && s'.locked == s.locked && s'.pid == s.pid && s'.spin == s.spin
    ensures HeldOk(s')
  {
  }

  /** A step of a process that is not waking anyone leaves the promises alone. */
  lemma PendingKept(s: State, s': State, p: nat)
    requires p < |s.pc| && |s'.pc| == |s.pc| && s'.spin == s.spin && !s.pc[p].WakeWant? && !s.pc[p].WakeScan?
    requires forall q :: 0 <= q < |s.pc| && q != p ==> s'.pc[q] == s.pc[q]
    ensures forall k :: 0 <= k < |s.spin| && Pending(s, k) ==> Pending(s', k)
  {
  }

  lemma SchedulerKeeps(s: State, s': State, c: nat)
    requires Inv(s) && SchedulerStep(s, s', c)
    ensures Inv(s')
  {
    forall q | 0 <= q < |s.pc| ensures PcOk(s', q) && NotLost(s', q) {
      assert PcOk(s, q) && NotLost(s, q);
    }
  }

  lemma DispatchCpu(s: State, s': State, c: nat, p: nat)
    requires Sized(s) && CpuOk(s) && DispatchStep(s, s', c, p) && Sized(s')
    ensures CpuOk(s')
  {
    assert forall d :: 0 <= d < |s.cpu| ==> s.cpu[d] != Some(p);
    forall q | 0 <= q < |s.pc| && !OffCpu(s'.pc[q]) ensures exists d :: 0 <= d < |s'.cpu| && s'.cpu[d] == Some(q) {
      if q == p {
        assert s'.cpu[c] == Some(p);
      } else {
        var d :| 0 <= d < |s.cpu| && s.cpu[d] == Some(q);
        assert s'.cpu[d] == Some(q);
      }
    }
  }

  lemma DispatchKeeps(s: State, s': State, c: nat, p: nat)
    requires Inv(s) && DispatchStep(s, s', c, p)
    ensures Inv(s')
  {
    hide CpuOk;
    HeldKept(s, s');
    hide HeldOk;
    PendingKept(s, s', p);
    DispatchCpu(s, s', c, p);
    forall q | 0 <= q < |s.pc| ensures PcOk(s', q) && NotLost(s', q) {
      assert PcOk(s, q) && NotLost(s, q);
    }
  }

  lemma KillKeeps(s: State, s': State, p: nat)
    requires Inv(s) && KillStep(s, s', p)
    ensures Inv(s')
  {
    forall q | 0 <= q < |s.pc| ensures PcOk(s', q) && NotLost(s', q) {
      assert PcOk(s, q) && NotLost(s, q);
    }
  }

  // ---------------------------------------------------------------- runs

  /** Every process new and runnable, no lock held. */
  function Initial(processes: nat, cpus: nat, locks: nat): State {
    State(seq(processes, _ => Yielded(Outside)), seq(processes, _ => Runnable), seq(processes, _ => None),
          seq(cpus, _ => None), Free,
          seq(locks, _ => None), seq(locks, _ => false), seq(locks, _ => None), seq(processes, _ => {}))
  }

  lemma InitialInv(processes: nat, cpus: nat, locks: nat)
    ensures Inv(Initial(processes, cpus, locks))
  {
  }

  lemma StepKeeps(s: State, s': State)
    requires Inv(s) && Step(s, s')
    ensures Inv(s')
  {
    hide Inv;
    hide ProcessStep;
    hide YieldStep;
    hide SchedulerStep;
    hide DispatchStep;
    hide KillStep;
    if c, p :| ProcessStep(s, s', c, p) { ProcessKeeps(s, s', c, p); }
    else if c, p :| YieldStep(s, s', c, p) { YieldKeeps(s, s', c, p); }
    else if c :| SchedulerStep(s, s', c) { SchedulerKeeps(s, s', c); }
    else if c, p :| DispatchStep(s, s', c, p) { DispatchKeeps(s, s', c, p); }
    else if p :| KillStep(s, s', p) { KillKeeps(s, s', p); }
  }

  ghost predicate IsRun(run: seq<State>) {
    && |run| > 0
    && (exists n, m, l :: run[0] == Initial(n, m, l))
    && forall i :: 0 <= i < |run| - 1 ==> Step(run[i], run[i + 1])
  }

  lemma {:induction false} RunInv(run: seq<State>, i: nat)
    requires IsRun(run) && i < |run|
    ensures Inv(run[i])
  {
    hide Inv;
    hide Step;
    if i == 0 {
      var n, m, l :| run[0] == Initial(n, m, l);
      InitialInv(n, m, l);
    } else {
      RunInv(run, i - 1);
      assert Step(run[i - 1], run[i - 1 + 1]);
      StepKeeps(run[i - 1], run[i]);
    }
  }

  /**
   No lost wakeup: a process asleep on a sleeping lock finds it held, or its releaser stands between
   clearing `Locked` and `wakeup1` with the inner spinlock in its hands.
   */
  lemma NoLostWakeup(run: seq<State>, i: nat, p: nat, k: nat)
    requires IsRun(run) && i < |run| && p < |run[i].pc| && p < |run[i].run| && p < |run[i].chan|
    requires run[i].run[p].Sleeping? && run[i].chan[p] == Some(k)
    ensures var s := run[i];
            && k < |s.locked| && k < |s.spin|
            && (s.locked[k] ||
                exists q :: 0 <= q < |s.pc| && s.spin[k] == Some(q) &&
                  (s.pc[q] == WakeWant(k) || s.pc[q] == WakeScan(k)))
  {
    RunInv(run, i);
    assert NotLost(run[i], p);
  }

  /** Mutual exclusion: two processes never have acquired the same sleeping lock. */
  lemma MutualExclusion(run: seq<State>, i: nat, p: nat, q: nat, k: nat)
    requires IsRun(run) && i < |run| && p < |run[i].held| && q < |run[i].held|
    requires k in run[i].held[p] && k in run[i].held[q]
    ensures p == q && k < |run[i].locked| && run[i].locked[k]
  {
    RunInv(run, i);
    var s := run[i];
    assert k < |s.spin|;
    assert s.pid[k] == Some(p) && s.pid[k] == Some(q);
  }

  /** A sleeping lock is locked exactly while one process has it, whose pid it names; a free one names none. */
  lemma HolderNamed(run: seq<State>, i: nat, k: nat)
    requires IsRun(run) && i < |run| && k < |run[i].spin|
    ensures var s := run[i];
            && k < |s.locked| && k < |s.pid| && (s.locked[k] <==> exists p :: 0 <= p < |s.held| && k in s.held[p])
            && (forall p :: 0 <= p < |s.held| ==> (s.pid[k] == Some(p) <==> k in s.held[p]))
            && (!s.locked[k] ==> s.pid[k].None?)
  {
    RunInv(run, i);
    var s := run[i];
    if s.locked[k] { assert k in s.held[s.pid[k].value]; }
  }

  /** A process at work names no channel: `sleep` has cleared it. */
  lemma NoStaleChannel(run: seq<State>, i: nat, p: nat)
    requires IsRun(run) && i < |run| && p < |run[i].pc| && p < |run[i].chan| && run[i].chan[p].Some?
    ensures run[i].pc[p].Switching? || run[i].pc[p].Gone? || run[i].pc[p].Awake?
  {
    RunInv(run, i);
  }

  /** A running process is on exactly one CPU, and a sleeping or runnable one that has left `sched` on none. */
  lemma RunningOnOneCpu(run: seq<State>, i: nat, p: nat)
    requires IsRun(run) && i < |run| && p < |run[i].pc| && p < |run[i].run| && run[i].run[p].Running?
    ensures var s := run[i];
            exists c :: 0 <= c < |s.cpu| && s.cpu[c] == Some(p) &&
              forall d :: 0 <= d < |s.cpu| && s.cpu[d] == Some(p) ==> d == c
  {
    RunInv(run, i);
    OneCpu(run[i], p);
  }

  lemma OneCpu(s: State, p: nat)
    requires Sized(s) && CpuOk(s) && RunOk(s) && p < |s.run| && s.run[p].Running?
    ensures exists c :: 0 <= c < |s.cpu| && s.cpu[c] == Some(p) &&
              forall d :: 0 <= d < |s.cpu| && s.cpu[d] == Some(p) ==> d == c
  {
    var c :| 0 <= c < |s.cpu| && s.cpu[c] == Some(p);
  }
}
