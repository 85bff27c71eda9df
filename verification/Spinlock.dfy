/**
 Spinlocks and interrupt nesting on a multiprocessor: every instruction group
 around the atomic exchange, `pushCli`/`popCli`, interrupt entry and exit, and the
 passage of a kernel thread through `sched` from one CPU to another.
 */
module Spinlock {
  import opened Basics

  /** `struct _Spinlock`: the word that is exchanged, and the CPU recorded for debugging. */
  datatype Word = Word(locked: bool, cpu: Option<nat>)

  /** What a CPU is in the middle of. */
  datatype Phase =
    | Ready
    | Pushed(i: nat)     // spinlockAcquire: interrupts off
    | Spinning(i: nat)   // spinlockAcquire: the exchange loop
    | Got(i: nat)        // spinlockAcquire: Cpu not yet recorded
    | Leaving(i: nat)    // spinlockRelease: isHolding checked
    | Cleared(i: nat)    // spinlockRelease: Cpu cleared
    | Freed(i: nat)      // spinlockRelease: word stored, popCli to come

  /** `CliDepth`, `InterruptsEnabled`, the IF flag, and the kernel thread running here. */
  datatype Cpu = Cpu(depth: nat, intena: bool, flag: bool, thread: nat, phase: Phase, held: set<nat>, open: nat)

  datatype Whereabouts = Fresh | On | Off

  /**
   A kernel thread.  `saved` is the local `intena` of `sched`; `entry` is the IF flag the
   thread had before the outermost `pushCli` it is inside.
   */
  datatype Thread = Thread(at: Whereabouts, handler: bool, saved: bool, entry: bool)

  /** Thread `c` is the scheduler of CPU `c`; the others are processes. */
  datatype State = State(cpus: seq<Cpu>, words: seq<Word>, threads: seq<Thread>)

  /** The index of `processTable.Lock`. */
  const TABLE: nat := 0

  // ---------------------------------------------------------------- pushCli and popCli

  function PushCli(c: Cpu): Cpu {
    c.(depth := c.depth + 1, intena := if c.depth == 0 then c.flag else c.intena, flag := false)
  }

  function PopCli(c: Cpu): Cpu
    requires c.depth > 0
  {
    c.(depth := c.depth - 1, flag := c.flag || (c.depth == 1 && c.intena))
  }

  function IsHolding(s: State, c: nat, i: nat): bool
    requires i < |s.words|
  {
    s.words[i].locked && s.words[i].cpu == Some(c)
  }

  // ---------------------------------------------------------------- steps

  ghost predicate OnCpu(s: State, c: nat) {
    c < |s.cpus| && s.cpus[c].thread < |s.threads|
  }

  function SetCpu(s: State, c: nat, cpu: Cpu): State
    requires c < |s.cpus|
  {
    s.(cpus := s.cpus[c := cpu])
  }

  /** The thread remembers its flag when it enters the outermost section. */
  function Enter(s: State, c: nat): State
    requires c < |s.cpus| && s.cpus[c].thread < |s.threads|
  {
    if s.cpus[c].depth == 0 then
      var t := s.cpus[c].thread;
      s.(threads := s.threads[t := s.threads[t].(entry := s.cpus[c].flag)])
    else s
  }

  ghost predicate PushStep(s: State, s': State, c: nat) {
    && OnCpu(s, c) && s.cpus[c].phase.Ready?
    && s' == SetCpu(Enter(s, c), c, PushCli(s.cpus[c]).(open := s.cpus[c].open + 1))
  }

  ghost predicate PopStep(s: State, s': State, c: nat) {
    && OnCpu(s, c) && s.cpus[c].phase.Ready? && s.cpus[c].open > 0 && s.cpus[c].depth > 0
    && s' == SetCpu(s, c, PopCli(s.cpus[c]).(open := s.cpus[c].open - 1))
  }

  ghost predicate AcquireStart(s: State, s': State, c: nat, i: nat) {
    OnCpu(s, c) && i < |s.words| && s' == SetCpu(Enter(s, c), c, PushCli(s.cpus[c]).(phase := Pushed(i)))
  }

  ghost predicate AcquireStep(s: State, s': State, c: nat) {
    && OnCpu(s, c)
    && var cpu := s.cpus[c];
       match cpu.phase
       case Ready => exists i :: AcquireStart(s, s', c, i)
       case Pushed(i) => i < |s.words| && !IsHolding(s, c, i) && s' == SetCpu(s, c, cpu.(phase := Spinning(i)))
       case Spinning(i) =>
         && i < |s.words|
         && s' == if s.words[i].locked then s
                  else SetCpu(s, c, cpu.(phase := Got(i),
                    held := cpu.held + {i})).(words := s.words[i := s.words[i].(locked := true)])
       case Got(i) =>
         i < |s.words| && s' == SetCpu(s, c, cpu.(phase := Ready)).(words := s.words[i := s.words[i].(cpu := Some(c))])
       case _ => false
  }

  ghost predicate ReleaseStart(s: State, s': State, c: nat, i: nat) {
    OnCpu(s, c) && i < |s.words| && IsHolding(s, c, i) && s' == SetCpu(s, c, s.cpus[c].(phase := Leaving(i)))
  }

  ghost predicate ReleaseStep(s: State, s': State, c: nat) {
    && OnCpu(s, c)
    && var cpu := s.cpus[c];
       match cpu.phase
       case Ready => exists i :: ReleaseStart(s, s', c, i)
       case Leaving(i) =>
         i < |s.words| && s' == SetCpu(s, c,
           cpu.(phase := Cleared(i))).(words := s.words[i := s.words[i].(cpu := None)])
       case Cleared(i) =>
         && i < |s.words|
         && s' == SetCpu(s, c,
              cpu.(phase := Freed(i), held := cpu.held - {i})).(words := s.words[i := s.words[i].(locked := false)])
       case Freed(i) => cpu.depth > 0 && s' == SetCpu(s, c, PopCli(cpu).(phase := Ready))
       case _ => false
  }

  /** `sched`: the thread saves `InterruptsEnabled` and hands the CPU to the scheduler. */
  ghost predicate SwitchOutStep(s: State, s': State, c: nat) {
    && OnCpu(s, c) && c < |s.threads| && TABLE < |s.words|
    && var cpu := s.cpus[c];
       var t := cpu.thread;
       && t >= |s.cpus| && cpu.phase.Ready? && cpu.depth == 1 && !cpu.flag && IsHolding(s, c, TABLE)
       && s' == SetCpu(s, c,
            cpu.(thread := c)).(threads := s.threads[t := s.threads[t].(at := Off,
              saved := cpu.intena)][c := s.threads[c].(at := On)])
  }

  /**
   `scheduler`: a process resumes in `sched`, which puts its own `InterruptsEnabled` back; a new one starts in
   `forkret`.
   */
  ghost predicate SwitchInStep(s: State, s': State, c: nat, t: nat) {
    && OnCpu(s, c) && c < |s.threads| && TABLE < |s.words| && |s.cpus| <= t < |s.threads|
    && var cpu := s.cpus[c];
       && cpu.thread == c && cpu.phase.Ready? && cpu.depth == 1 && IsHolding(s, c, TABLE) && !s.threads[t].at.On?
       && s' == if s.threads[t].at.Off? then
                  SetCpu(s, c, cpu.(thread := t, intena := s.threads[t].saved)).(
                    threads := s.threads[t := s.threads[t].(at := On)][c := s.threads[c].(at := Off)])
                else
                  SetCpu(s, c, cpu.(thread := t)).(
                    threads := s.threads[t := s.threads[t].(at := On,
                      entry := cpu.intena)][c := s.threads[c].(at := Off)])
  }

  /** `enableInterrupts` at the top of the scheduler's loop. */
  ghost predicate EnableStep(s: State, s': State, c: nat) {
    && OnCpu(s, c) && s.cpus[c].thread == c && s.cpus[c].phase.Ready? && s.cpus[c].depth == 0
    && s' == SetCpu(s, c, s.cpus[c].(flag := true))
  }

  /** Through an interrupt gate, which clears IF; and back. */
  ghost predicate InterruptStep(s: State, s': State, c: nat) {
    && OnCpu(s, c) && s.cpus[c].phase.Ready?
    && var cpu := s.cpus[c];
       var t := cpu.thread;
       if s.threads[t].handler then
         cpu.depth == 0 && s' ==
           SetCpu(s, c, cpu.(flag := true)).(threads := s.threads[t := s.threads[t].(handler := false)])
       else
         cpu.flag && s' == SetCpu(s, c, cpu.(flag := false)).(threads := s.threads[t := s.threads[t].(handler := true)])
  }

  ghost predicate Step(s: State, s': State) {
    exists c :: CpuStep(s, s', c)
  }

  ghost predicate CpuStep(s: State, s': State, c: nat) {
    || PushStep(s, s', c) || PopStep(s, s', c) || AcquireStep(s, s', c) || ReleaseStep(s, s', c)
    || SwitchOutStep(s, s', c) || (exists t :: SwitchInStep(s, s', c, t)) || EnableStep(s, s', c) ||
         InterruptStep(s, s', c)
  }

  // ---------------------------------------------------------------- invariants

  /** A lock that the CPU has exchanged but whose `Cpu` field does not name it at this moment. */
  function InTransit(phase: Phase, i: nat): bool {
    phase == Got(i) || phase == Cleared(i)
  }

  /** The locks named by the phase are held, or not, as the phase says. */
  ghost predicate PhaseOk(cpu: Cpu, n: nat) {
    match cpu.phase
    case Ready => true
    case Pushed(i) => i < n
    case Spinning(i) => i < n && i !in cpu.held
    case Got(i) => i < n && i in cpu.held
    case Leaving(i) => i < n && i in cpu.held
    case Cleared(i) => i < n && i in cpu.held
    case Freed(i) => i < n && i !in cpu.held
  }

  /** `CliDepth` counts the locks held, the open `pushCli` calls, and the one of a call in progress. */
  ghost predicate DepthOk(cpu: Cpu) {
    && cpu.depth == |cpu.held| + cpu.open + (if cpu.phase.Pushed? || cpu.phase.Spinning? ||
         cpu.phase.Freed? then 1 else 0)
    && (cpu.depth > 0 ==> !cpu.flag)
  }

  /** `Cpu` names exactly the CPU that holds the lock, except while the lock is in transit. */
  ghost predicate NamedOk(s: State, c: nat, i: nat)
    requires c < |s.cpus| && i < |s.words|
  {
    s.words[i].cpu == Some(c) <==> i in s.cpus[c].held && !InTransit(s.cpus[c].phase, i)
  }

  /** A held lock's word is set, and no lock is held twice. */
  ghost predicate LocksOk(s: State) {
    && (forall c, i :: 0 <= c < |s.cpus| && i in s.cpus[c].held ==> i < |s.words|)
    && (forall c, i :: 0 <= c < |s.cpus| && i in s.cpus[c].held && i < |s.words| ==> s.words[i].locked)
    && (forall c, d, i :: 0 <= c < |s.cpus| && 0 <= d < |s.cpus| && i in s.cpus[c].held && i in s.cpus[d].held ==>
         c == d)
    && (forall c, i :: 0 <= c < |s.cpus| && 0 <= i < |s.words| ==> NamedOk(s, c, i))
  }

  /** Each CPU runs one thread, its own scheduler or a process, and each thread runs on at most one CPU. */
  ghost predicate ThreadsOk(s: State) {
    && |s.cpus| <= |s.threads|
    && (forall c :: 0 <= c < |s.cpus| ==>
          s.cpus[c].thread < |s.threads| && s.threads[s.cpus[c].thread].at.On?
          && (s.cpus[c].thread < |s.cpus| ==> s.cpus[c].thread == c))
    && (forall c, d :: 0 <= c < |s.cpus| && 0 <= d < |s.cpus| && s.cpus[c].thread == s.cpus[d].thread ==> c == d)
  }

  /** `InterruptsEnabled` is the flag the running process had before its outermost section; a waiting one keeps it. */
  ghost predicate FlagsOk(s: State)
    requires ThreadsOk(s)
  {
    && (forall c :: 0 <= c < |s.cpus| && s.cpus[c].depth > 0 && s.cpus[c].thread >= |s.cpus| ==>
          s.cpus[c].intena == s.threads[s.cpus[c].thread].entry)
    && (forall t :: |s.cpus| <= t < |s.threads| && s.threads[t].at.Off? ==> s.threads[t].saved == s.threads[t].entry)
  }

  ghost predicate Inv(s: State) {
    && (forall c :: 0 <= c < |s.cpus| ==> PhaseOk(s.cpus[c], |s.words|) && DepthOk(s.cpus[c]))
    && LocksOk(s) && ThreadsOk(s) && FlagsOk(s)
  }

  // ---------------------------------------------------------------- each step keeps the invariant

  /** A step that leaves the words, and what each CPU holds, alone. */
  lemma LocksFrame(s: State, s': State, c: nat)
    requires LocksOk(s) && c < |s.cpus| && |s'.cpus| == |s.cpus| && s'.words == s.words
    requires forall d :: 0 <= d < |s.cpus| && d != c ==> s'.cpus[d] == s.cpus[d]
    requires s'.cpus[c].held == s.cpus[c].held
    requires forall i :: InTransit(s'.cpus[c].phase, i) <==> InTransit(s.cpus[c].phase, i)
    ensures LocksOk(s')
  {
    forall d, j | 0 <= d < |s'.cpus| && 0 <= j < |s'.words| ensures NamedOk(s', d, j) {
      assert NamedOk(s, d, j);
    }
  }

  /** A step that leaves the threads alone, and the flags of its CPU unless it was outside every section. */
  lemma FlagsFrame(s: State, s': State, c: nat)
    requires ThreadsOk(s) && FlagsOk(s) && c < |s.cpus| && |s'.cpus| == |s.cpus| && s'.threads == s.threads
    requires forall d :: 0 <= d < |s.cpus| && d != c ==> s'.cpus[d] == s.cpus[d]
    requires s'.cpus[c].thread == s.cpus[c].thread && s'.cpus[c].intena == s.cpus[c].intena
    requires s'.cpus[c].depth > 0 ==> s.cpus[c].depth > 0
    ensures ThreadsOk(s') && FlagsOk(s')
  {
  }

  lemma EnterFlags(s: State, s': State, c: nat, cpu: Cpu)
    requires ThreadsOk(s) && FlagsOk(s) && c < |s.cpus| && s' == SetCpu(Enter(s, c), c, cpu)
    requires cpu.thread == s.cpus[c].thread && cpu.intena == PushCli(s.cpus[c]).intena &&
               cpu.depth == s.cpus[c].depth + 1
    ensures ThreadsOk(s') && FlagsOk(s')
  {
  }

  lemma PushKeeps(s: State, s': State, c: nat)
    requires Inv(s) && PushStep(s, s', c)
    ensures Inv(s')
  {
    LocksFrame(s, s', c);
    EnterFlags(s, s', c, s'.cpus[c]);
  }

  lemma PopKeeps(s: State, s': State, c: nat)
    requires Inv(s) && PopStep(s, s', c)
    ensures Inv(s')
  {
    LocksFrame(s, s', c);
    FlagsFrame(s, s', c);
  }

  lemma TakeWord(s: State, s': State, c: nat, i: nat)
    requires LocksOk(s) && c < |s.cpus| && i < |s.words| && !s.words[i].locked && s.cpus[c].phase == Spinning(i)
    requires s' == SetCpu(s, c,
               s.cpus[c].(phase := Got(i),
                 held := s.cpus[c].held + {i})).(words := s.words[i := s.words[i].(locked := true)])
    ensures LocksOk(s')
  {
    forall d, j | 0 <= d < |s'.cpus| && 0 <= j < |s'.words| ensures NamedOk(s', d, j) {
      assert NamedOk(s, d, j);
    }
    assert forall d :: 0 <= d < |s.cpus| ==> i !in s.cpus[d].held;
  }

  lemma RecordCpu(s: State, s': State, c: nat, i: nat)
    requires LocksOk(s) && c < |s.cpus| && i < |s.words| && i in s.cpus[c].held && s.cpus[c].phase == Got(i)
    requires s' == SetCpu(s, c, s.cpus[c].(phase := Ready)).(words := s.words[i := s.words[i].(cpu := Some(c))])
    ensures LocksOk(s')
  {
    forall d, j | 0 <= d < |s'.cpus| && 0 <= j < |s'.words| ensures NamedOk(s', d, j) {
      assert NamedOk(s, d, j);
    }
  }

  /** `isHolding` answers truthfully when no operation on the lock is in progress here. */
  lemma HoldingExact(s: State, c: nat, i: nat)
    requires LocksOk(s) && c < |s.cpus| && i < |s.words|
    ensures IsHolding(s, c, i) <==> i in s.cpus[c].held && !InTransit(s.cpus[c].phase, i)
  {
    assert NamedOk(s, c, i);
  }

  lemma AcquireCpu(s: State, s': State, c: nat)
    requires AcquireStep(s, s', c) && PhaseOk(s.cpus[c], |s.words|) && DepthOk(s.cpus[c])
    requires forall i :: 0 <= i < |s.words| ==>
               (IsHolding(s, c, i) <==> i in s.cpus[c].held && !InTransit(s.cpus[c].phase, i))
    ensures |s'.cpus| == |s.cpus| && |s'.words| == |s.words| && PhaseOk(s'.cpus[c], |s'.words|) && DepthOk(s'.cpus[c])
    ensures forall d :: 0 <= d < |s.cpus| && d != c ==> s'.cpus[d] == s.cpus[d]
  {
  }

  lemma AcquireRest(s: State, s': State, c: nat)
    requires AcquireStep(s, s', c) && PhaseOk(s.cpus[c], |s.words|) && LocksOk(s) && ThreadsOk(s) && FlagsOk(s) &&
               DepthOk(s.cpus[c])
    ensures LocksOk(s') && ThreadsOk(s') && FlagsOk(s')
  {
    hide LocksOk;
    hide FlagsOk;
    var cpu := s.cpus[c];
    match cpu.phase
    case Ready =>
      LocksFrame(s, s', c);
      EnterFlags(s, s', c, s'.cpus[c]);
    case Pushed(i) =>
      LocksFrame(s, s', c);
      FlagsFrame(s, s', c);
    case Spinning(i) =>
      if !s.words[i].locked {
        TakeWord(s, s', c, i);
        FlagsFrame(s, s', c);
      }
    case Got(i) =>
      RecordCpu(s, s', c, i);
      FlagsFrame(s, s', c);
    case _ =>
  }

  lemma AcquireKeeps(s: State, s': State, c: nat)
    requires Inv(s) && AcquireStep(s, s', c)
    ensures Inv(s')
  {
    hide LocksOk;
    hide FlagsOk;
    hide ThreadsOk;
    hide PhaseOk;
    hide DepthOk;
    hide IsHolding;
    forall i | 0 <= i < |s.words|
      ensures IsHolding(s, c, i) <==> i in s.cpus[c].held && !InTransit(s.cpus[c].phase, i) {
      HoldingExact(s, c, i);
    }
    AcquireCpu(s, s', c);
    AcquireRest(s, s', c);
  }

  lemma ClearCpu(s: State, s': State, c: nat, i: nat)
    requires LocksOk(s) && c < |s.cpus| && i < |s.words| && i in s.cpus[c].held && s.cpus[c].phase == Leaving(i)
    requires s' == SetCpu(s, c, s.cpus[c].(phase := Cleared(i))).(words := s.words[i := s.words[i].(cpu := None)])
    ensures LocksOk(s')
  {
    forall d, j | 0 <= d < |s'.cpus| && 0 <= j < |s'.words| ensures NamedOk(s', d, j) {
      assert NamedOk(s, d, j);
    }
  }

  lemma FreeWord(s: State, s': State, c: nat, i: nat)
    requires LocksOk(s) && c < |s.cpus| && i < |s.words| && i in s.cpus[c].held && s.cpus[c].phase == Cleared(i)
    requires s' == SetCpu(s, c,
               s.cpus[c].(phase := Freed(i),
                 held := s.cpus[c].held - {i})).(words := s.words[i := s.words[i].(locked := false)])
    ensures LocksOk(s')
  {
    forall d, j | 0 <= d < |s'.cpus| && 0 <= j < |s'.words| ensures NamedOk(s', d, j) {
      assert NamedOk(s, d, j);
    }
  }

  lemma ReleaseLocks(s: State, s': State, c: nat)
    requires LocksOk(s) && ReleaseStep(s, s', c) && PhaseOk(s.cpus[c], |s.words|)
    ensures LocksOk(s')
  {
    hide LocksOk;
    match s.cpus[c].phase
    case Ready =>
      LocksFrame(s, s', c);
      HoldingExact(s, c, s'.cpus[c].phase.i);
    case Leaving(i) =>
      ClearCpu(s, s', c, i);
    case Cleared(i) =>
      FreeWord(s, s', c, i);
    case Freed(i) =>
      LocksFrame(s, s', c);
    case _ =>
  }

  lemma ReleaseKeeps(s: State, s': State, c: nat)
    requires Inv(s) && ReleaseStep(s, s', c)
    ensures Inv(s')
  {
    hide LocksOk;
    hide FlagsOk;
    ReleaseLocks(s, s', c);
    FlagsFrame(s, s', c);
    if s.cpus[c].phase.Ready? { HoldingExact(s, c, s'.cpus[c].phase.i); }
  }

  lemma SwitchOutKeeps(s: State, s': State, c: nat)
    requires Inv(s) && SwitchOutStep(s, s', c)
    ensures Inv(s')
  {
    hide LocksOk;
    hide ThreadsOk;
    hide FlagsOk;
    LocksFrame(s, s', c);
    SwitchOutThreads(s, s', c);
  }

  lemma SwitchOutThreads(s: State, s': State, c: nat)
    requires ThreadsOk(s) && FlagsOk(s) && SwitchOutStep(s, s', c)
    ensures ThreadsOk(s') && FlagsOk(s')
  {
  }

  /** The scheduler of CPU `c` gives way to process `t`, which no other CPU runs. */
  lemma Swapped(s: State, s': State, c: nat, t: nat, thread: Thread, intena: bool)
    requires ThreadsOk(s) && FlagsOk(s) && c < |s.cpus| <= t < |s.threads| && !s.threads[t].at.On?
    requires s.cpus[c].thread == c && thread.at.On? && thread.entry == intena
    requires s'.cpus == s.cpus[c := s.cpus[c].(thread := t, intena := intena)]
    requires s'.threads == s.threads[t := thread][c := s.threads[c].(at := Off)]
    ensures ThreadsOk(s') && FlagsOk(s')
  {
    forall d | 0 <= d < |s'.cpus| && d != c ensures s'.cpus[d] == s.cpus[d] && s.cpus[d].thread != t {
      assert s.threads[s.cpus[d].thread].at.On?;
    }
  }

  lemma SwitchInThreads(s: State, s': State, c: nat, t: nat)
    requires ThreadsOk(s) && FlagsOk(s) && SwitchInStep(s, s', c, t)
    ensures ThreadsOk(s') && FlagsOk(s')
  {
    hide IsHolding;
    var thread, intena := s'.threads[t], s'.cpus[c].intena;
    assert s.threads[t].at.Off? ==> s.threads[t].saved == s.threads[t].entry;
    hide ThreadsOk;
    hide FlagsOk;
    Swapped(s, s', c, t, thread, intena);
  }

  lemma SwitchInKeeps(s: State, s': State, c: nat, t: nat)
    requires Inv(s) && SwitchInStep(s, s', c, t)
    ensures Inv(s')
  {
    hide LocksOk;
    hide ThreadsOk;
    hide FlagsOk;
    LocksFrame(s, s', c);
    SwitchInThreads(s, s', c, t);
  }

  lemma EnableKeeps(s: State, s': State, c: nat)
    requires Inv(s) && EnableStep(s, s', c)
    ensures Inv(s')
  {
    LocksFrame(s, s', c);
  }

  lemma InterruptKeeps(s: State, s': State, c: nat)
    requires Inv(s) && InterruptStep(s, s', c)
    ensures Inv(s')
  {
    LocksFrame(s, s', c);
  }

  lemma StepKeeps(s: State, s': State, c: nat)
    requires Inv(s) && CpuStep(s, s', c)
    ensures Inv(s')
  {
    hide Inv;
    hide PushStep;
    hide PopStep;
    hide AcquireStep;
    hide ReleaseStep;
    hide SwitchOutStep;
    hide SwitchInStep;
    hide EnableStep;
    hide InterruptStep;
    if PushStep(s, s', c) { PushKeeps(s, s', c); }
    else if PopStep(s, s', c) { PopKeeps(s, s', c); }
    else if AcquireStep(s, s', c) { AcquireKeeps(s, s', c); }
    else if ReleaseStep(s, s', c) { ReleaseKeeps(s, s', c); }
    else if SwitchOutStep(s, s', c) { SwitchOutKeeps(s, s', c); }
    else if t :| SwitchInStep(s, s', c, t) { SwitchInKeeps(s, s', c, t); }
    else if EnableStep(s, s', c) { EnableKeeps(s, s', c); }
    else { InterruptKeeps(s, s', c); }
  }

  // ---------------------------------------------------------------- runs

  /** Every CPU in its scheduler with interrupts off, every process new, every lock free. */
  function Initial(cpus: nat, processes: nat, words: nat): State {
    State(seq(cpus, c requires 0 <= c < cpus => Cpu(0, false, false, c, Ready, {}, 0)),
          seq(words, _ => Word(false, None)),
          seq(cpus + processes,
            t requires 0 <= t < cpus + processes => Thread(if t < cpus then On else Fresh, false, false, false)))
  }

  ghost predicate IsRun(run: seq<State>) {
    && |run| > 0
    && (exists n, m, w :: run[0] == Initial(n, m, w))
    && forall i :: 0 <= i < |run| - 1 ==> Step(run[i], run[i + 1])
  }

  lemma InitialInv(cpus: nat, processes: nat, words: nat)
    ensures Inv(Initial(cpus, processes, words))
  {
    var s := Initial(cpus, processes, words);
    forall c, i | 0 <= c < |s.cpus| && 0 <= i < |s.words| ensures NamedOk(s, c, i) {
    }
  }

  lemma {:induction false} RunInv(run: seq<State>, i: nat)
    requires IsRun(run) && i < |run|
    ensures Inv(run[i])
  {
    hide Inv;
    hide CpuStep;
    if i == 0 {
      var n, m, w :| run[0] == Initial(n, m, w);
      InitialInv(n, m, w);
    } else {
      RunInv(run, i - 1);
      assert Step(run[i - 1], run[i - 1 + 1]);
      var c :| CpuStep(run[i - 1], run[i], c);
      StepKeeps(run[i - 1], run[i], c);
    }
  }

  /** At every moment at most one CPU holds a lock, and `isHolding` is true of no other CPU. */
  lemma MutualExclusion(run: seq<State>, i: nat, c: nat, d: nat, l: nat)
    requires IsRun(run) && i < |run| && c < |run[i].cpus| && d < |run[i].cpus| && l in run[i].cpus[c].held
    ensures l < |run[i].words| && run[i].words[l].locked
    ensures l in run[i].cpus[d].held ==> c == d
    ensures IsHolding(run[i], d, l) ==> c == d
  {
    RunInv(run, i);
    HoldingExact(run[i], d, l);
  }

  /** `CliDepth` is the number of locks held and `pushCli` calls open, so `popCli` never panics. */
  lemma DepthCounts(run: seq<State>, i: nat, c: nat)
    requires IsRun(run) && i < |run| && c < |run[i].cpus| && run[i].cpus[c].phase.Ready?
    ensures run[i].cpus[c].depth == |run[i].cpus[c].held| + run[i].cpus[c].open
    ensures run[i].cpus[c].depth > 0 ==> !run[i].cpus[c].flag
    ensures forall l :: l in run[i].cpus[c].held ==> l < |run[i].words| && IsHolding(run[i], c, l)
  {
    RunInv(run, i);
    var s := run[i];
    forall l | l in s.cpus[c].held ensures l < |s.words| && IsHolding(s, c, l) {
      HoldingExact(s, c, l);
    }
  }

  // ---------------------------------------------------------------- the interrupt flag

  /** Process `t` is inside a section guarded by `pushCli`: on a CPU, or waiting in `sched`. */
  ghost predicate Guarded(s: State, t: nat) {
    && |s.cpus| <= t < |s.threads|
    && (s.threads[t].at.Off? || exists c :: 0 <= c < |s.cpus| && s.cpus[c].thread == t && s.cpus[c].depth > 0)
  }

  /** A step of one CPU changes no other CPU. */
  lemma OtherCpus(s: State, s': State, d: nat, c: nat)
    requires CpuStep(s, s', d) && c < |s.cpus| && c != d
    ensures |s'.cpus| == |s.cpus| && s'.cpus[c] == s.cpus[c]
  {
  }

  lemma EntryKept(s: State, s': State, t: nat)
    requires Inv(s) && Step(s, s') && Guarded(s, t)
    ensures t < |s'.threads| && s'.threads[t].entry == s.threads[t].entry
  {
    hide Inv;
    hide CpuStep;
    var d :| CpuStep(s, s', d);
    InvThreads(s);
    EntryKeptBy(s, s', t, d);
  }

  lemma InvThreads(s: State)
    requires Inv(s)
    ensures ThreadsOk(s)
  {
  }

  lemma EntryKeptBy(s: State, s': State, t: nat, d: nat)
    requires ThreadsOk(s) && CpuStep(s, s', d) && Guarded(s, t)
    ensures t < |s'.threads| && s'.threads[t].entry == s.threads[t].entry
  {
    hide IsHolding;
  }

  /** The outermost `pushCli` records the flag. */
  lemma PushRecords(s: State, s': State, c: nat)
    requires ThreadsOk(s) && CpuStep(s, s', c) && c < |s.cpus| && c < |s'.cpus|
    requires s.cpus[c].depth == 0 && s'.cpus[c].depth == 1
    ensures s.cpus[c].thread < |s'.threads| && s'.threads[s.cpus[c].thread].entry == s.cpus[c].flag
  {
  }

  /** The outermost `popCli` of a process puts the recorded flag back. */
  lemma PopRestores(s: State, s': State, c: nat)
    requires Inv(s) && CpuStep(s, s', c) && c < |s.cpus| && c < |s'.cpus| && s.cpus[c].thread >= |s.cpus|
    requires s.cpus[c].depth == 1 && s'.cpus[c].depth == 0
    ensures s.cpus[c].thread < |s.threads| && s'.cpus[c].flag == s.threads[s.cpus[c].thread].entry
  {
    hide LocksOk;
    hide PhaseOk;
  }

  lemma {:induction false} EntryKeptLong(run: seq<State>, i: nat, j: nat, t: nat)
    requires IsRun(run) && i <= j < |run| && forall k :: i <= k < j ==> Guarded(run[k], t)
    requires t < |run[i].threads|
    ensures t < |run[j].threads| && run[j].threads[t].entry == run[i].threads[t].entry
    decreases j - i
  {
    hide Inv;
    hide Guarded;
    hide Step;
    if i < j {
      EntryKeptLong(run, i, j - 1, t);
      RunInv(run, j - 1);
      assert Step(run[j - 1], run[j - 1 + 1]);
      assert Guarded(run[j - 1], t);
      EntryKept(run[j - 1], run[j], t);
    }
  }

  /**
   A process that enters a guarded section on CPU `c` and leaves it on CPU `d`, however often it went
   through `sched` in between, gets back the interrupt flag it entered with.
   */
  lemma FlagComesBack(run: seq<State>, i: nat, j: nat, t: nat, c: nat, d: nat)
    requires IsRun(run) && i < j && j + 1 < |run| && c < |run[i].cpus| && c < |run[i + 1].cpus| &&
               d < |run[j].cpus| && d < |run[j + 1].cpus|
    requires run[i].cpus[c].thread == t && run[i].cpus[c].depth == 0 && run[i + 1].cpus[c].depth == 1
    requires forall k :: i < k <= j ==> Guarded(run[k], t)
    requires run[j].cpus[d].thread == t && run[j].cpus[d].depth == 1 && run[j + 1].cpus[d].depth == 0
    ensures run[j + 1].cpus[d].flag == run[i].cpus[c].flag
  {
    hide CpuStep;
    hide LocksOk;
    hide FlagsOk;
    hide PhaseOk;
    hide DepthOk;
    RunInv(run, i);
    RunInv(run, j);
    assert Step(run[i], run[i + 1]);
    var c' :| CpuStep(run[i], run[i + 1], c');
    if c' != c { OtherCpus(run[i], run[i + 1], c', c); }
    PushRecords(run[i], run[i + 1], c);
    EntryKeptLong(run, i + 1, j, t);
    assert Step(run[j], run[j + 1]);
    var d' :| CpuStep(run[j], run[j + 1], d');
    if d' != d { OtherCpus(run[j], run[j + 1], d', d); }
    assert Guarded(run[j], t);
    PopRestores(run[j], run[j + 1], d);
  }

  /** The scheduler takes over whatever `InterruptsEnabled` the process leaves behind. */
  lemma SchedulerInherits(s: State, s': State, c: nat)
    requires Inv(s) && SwitchOutStep(s, s', c)
    ensures s'.cpus[c].thread == c && s'.cpus[c].intena == s.threads[s.cpus[c].thread].entry
  {
  }

  lemma IntenaKeptBy(s: State, s': State, c: nat)
    requires CpuStep(s, s', c) && c < |s.cpus| && c < |s'.cpus| && DepthOk(s.cpus[c])
    requires s.cpus[c].thread == c && s'.cpus[c].thread == c && s.cpus[c].depth > 0
    ensures s'.cpus[c].intena == s.cpus[c].intena
    ensures s.cpus[c].depth == 1 && s'.cpus[c].depth == 0 ==> s'.cpus[c].flag == s.cpus[c].intena
  {
  }

  /** Inside a guarded section, only a switch to another thread changes `InterruptsEnabled`. */
  lemma IntenaKept(s: State, s': State, c: nat)
    requires Inv(s) && Step(s, s') && c < |s.cpus| && c < |s'.cpus|
    requires s.cpus[c].thread == c && s'.cpus[c].thread == c && s.cpus[c].depth > 0
    ensures s'.cpus[c].intena == s.cpus[c].intena
    ensures s.cpus[c].depth == 1 && s'.cpus[c].depth == 0 ==> s'.cpus[c].flag == s.cpus[c].intena
  {
    hide LocksOk;
    hide FlagsOk;
    hide ThreadsOk;
    hide PhaseOk;
    hide CpuStep;
    var d :| CpuStep(s, s', d);
    if d != c { OtherCpus(s, s', d, c); } else { IntenaKeptBy(s, s', c); }
  }

  lemma {:induction false} IntenaLong(run: seq<State>, i: nat, j: nat, c: nat)
    requires IsRun(run) && i <= j < |run|
    requires forall k :: i <= k <= j ==> c < |run[k].cpus| && run[k].cpus[c].thread == c && run[k].cpus[c].depth > 0
    ensures run[j].cpus[c].intena == run[i].cpus[c].intena
    decreases j - i
  {
    hide Inv;
    hide Step;
    if i < j {
      var k := j - 1;
      IntenaLong(run, i, k, c);
      RunInv(run, k);
      assert Step(run[k], run[k + 1]);
      IntenaKept(run[k], run[k + 1], c);
    }
  }

  /** The scheduler of CPU `c` is inside its section: some process runs on the CPU, or interrupts are pushed off. */
  ghost predicate SchedulerInside(s: State, c: nat) {
    c < |s.cpus| <= |s.threads| && (s.cpus[c].thread == c ==> s.cpus[c].depth > 0)
  }

  lemma OwnEntryKeptBy(s: State, s': State, c: nat, d: nat)
    requires ThreadsOk(s) && CpuStep(s, s', d) && SchedulerInside(s, c)
    ensures c < |s'.threads| && s'.threads[c].entry == s.threads[c].entry
  {
    hide IsHolding;
    hide SwitchOutStep;
    hide SwitchInStep;
    if t :| SwitchInStep(s, s', d, t) { EntriesSwitched(s, s', c, d, t); }
    else if SwitchOutStep(s, s', d) { EntriesSwitched(s, s', c, d, 0); }
  }

  /** A switch records nothing for a scheduler. */
  lemma EntriesSwitched(s: State, s': State, c: nat, d: nat, t: nat)
    requires SwitchInStep(s, s', d, t) || SwitchOutStep(s, s', d)
    requires c < |s.cpus| <= |s.threads|
    ensures c < |s'.threads| && s'.threads[c].entry == s.threads[c].entry
  {
    hide IsHolding;
  }

  lemma {:induction false} OwnEntryLong(run: seq<State>, i: nat, j: nat, c: nat)
    requires IsRun(run) && i <= j < |run| && forall k :: i <= k < j ==> SchedulerInside(run[k], c)
    requires c < |run[i].threads|
    ensures c < |run[j].threads| && run[j].threads[c].entry == run[i].threads[c].entry
    decreases j - i
  {
    hide SchedulerInside;
    hide CpuStep;
    hide LocksOk;
    hide FlagsOk;
    hide PhaseOk;
    hide DepthOk;
    if i < j {
      OwnEntryLong(run, i, j - 1, c);
      RunInv(run, j - 1);
      assert Step(run[j - 1], run[j - 1 + 1]);
      var d :| CpuStep(run[j - 1], run[j], d);
      assert SchedulerInside(run[j - 1], c);
      OwnEntryKeptBy(run[j - 1], run[j], c, d);
    }
  }

  /** The scheduler of CPU `c` enters its section at step `a` and is inside it up to `j`. */
  ghost predicate SchedulerSection(run: seq<State>, a: nat, j: nat, c: nat) {
    && a < j < |run| && c < |run[a].cpus| && run[a].cpus[c].thread == c && run[a].cpus[c].depth == 0
    && c < |run[a + 1].cpus| && run[a + 1].cpus[c].depth == 1
    && forall k :: a < k <= j ==> SchedulerInside(run[k], c)
  }

  /** Whatever runs on the CPU in between, the flag recorded for the scheduler is the one it had when it entered. */
  lemma SchedulerEntry(run: seq<State>, a: nat, j: nat, c: nat)
    requires IsRun(run) && SchedulerSection(run, a, j, c)
    ensures c < |run[j].threads| && run[j].threads[c].entry == run[a].cpus[c].flag
  {
    hide CpuStep;
    hide LocksOk;
    hide FlagsOk;
    hide PhaseOk;
    hide DepthOk;
    RunInv(run, a);
    assert Step(run[a], run[a + 1]);
    var d :| CpuStep(run[a], run[a + 1], d);
    if d != c { OtherCpus(run[a], run[a + 1], d, c); }
    PushRecords(run[a], run[a + 1], c);
    OwnEntryLong(run, a + 1, j, c);
  }

  /**
   The scheduler's own flag, exactly.  The scheduler of CPU `c` enters its section at step `a`; at step `i` process `t`
   hands over the CPU; at step `j` the scheduler leaves the section.  It then has the flag that `t` entered with, and so
   the one it had at step `a` if and only if the two were equal.
   */
  lemma SchedulerFlag(run: seq<State>, a: nat, i: nat, j: nat, c: nat)
    requires IsRun(run) && a < i < j && j + 1 < |run| && SwitchOutStep(run[i], run[i + 1], c)
    requires SchedulerSection(run, a, j, c)
    requires forall k :: i < k <= j ==> c < |run[k].cpus| && run[k].cpus[c].thread == c && run[k].cpus[c].depth > 0
    requires c < |run[j + 1].cpus| && run[j + 1].cpus[c].thread == c && run[j].cpus[c].depth == 1 &&
               run[j + 1].cpus[c].depth == 0
    ensures run[j + 1].cpus[c].flag == run[i].threads[run[i].cpus[c].thread].entry
    ensures run[j + 1].cpus[c].flag == run[a].cpus[c].flag <==>
              run[i].threads[run[i].cpus[c].thread].entry == run[a].cpus[c].flag
    ensures c < |run[j].threads| && run[j].threads[c].entry == run[a].cpus[c].flag
  {
    HandedFlag(run, i, j, c);
    SchedulerEntry(run, a, j, c);
  }

  /** For a process that entered its section on CPU `e` at step `b`, that is the flag it had there. */
  lemma SchedulerTakesFlag(run: seq<State>, b: nat, i: nat, j: nat, c: nat, e: nat)
    requires IsRun(run) && b < i < j && j + 1 < |run| && SwitchOutStep(run[i], run[i + 1], c)
    requires e < |run[b].cpus| && e < |run[b + 1].cpus| && run[b].cpus[e].thread == run[i].cpus[c].thread
    requires run[b].cpus[e].depth == 0 && run[b + 1].cpus[e].depth == 1
    requires forall k :: b < k <= i ==> Guarded(run[k], run[i].cpus[c].thread)
    requires forall k :: i < k <= j ==> c < |run[k].cpus| && run[k].cpus[c].thread == c && run[k].cpus[c].depth > 0
    requires c < |run[j + 1].cpus| && run[j + 1].cpus[c].thread == c && run[j].cpus[c].depth == 1 &&
               run[j + 1].cpus[c].depth == 0
    ensures run[j + 1].cpus[c].flag == run[b].cpus[e].flag
  {
    hide CpuStep;
    hide LocksOk;
    hide FlagsOk;
    hide PhaseOk;
    hide DepthOk;
    var t := run[i].cpus[c].thread;
    HandedFlag(run, i, j, c);
    hide SwitchOutStep;
    RunInv(run, b);
    assert Step(run[b], run[b + 1]);
    var d :| CpuStep(run[b], run[b + 1], d);
    if d != e { OtherCpus(run[b], run[b + 1], d, e); }
    PushRecords(run[b], run[b + 1], e);
    EntryKeptLong(run, b + 1, i, t);
  }

  lemma HandedFlag(run: seq<State>, i: nat, j: nat, c: nat)
    requires IsRun(run) && i < j && j + 1 < |run| && SwitchOutStep(run[i], run[i + 1], c)
    requires forall k :: i < k <= j ==> c < |run[k].cpus| && run[k].cpus[c].thread == c && run[k].cpus[c].depth > 0
    requires c < |run[j + 1].cpus| && run[j + 1].cpus[c].thread == c && run[j].cpus[c].depth == 1 &&
               run[j + 1].cpus[c].depth == 0
    ensures run[j + 1].cpus[c].flag == run[i].threads[run[i].cpus[c].thread].entry
  {
    RunInv(run, i);
    SchedulerInherits(run[i], run[i + 1], c);
    IntenaLong(run, i + 1, j, c);
    RunInv(run, j);
    hide Inv;
    hide Step;
    assert Step(run[j], run[j + 1]);
    IntenaKept(run[j], run[j + 1], c);
  }

  /** Entering the outermost section records the flag in `InterruptsEnabled`. */
  lemma EnterRecords(s: State, s': State, c: nat)
    requires Step(s, s') && c < |s.cpus| && c < |s'.cpus| && s.cpus[c].depth == 0 && s'.cpus[c].depth == 1
    ensures s'.cpus[c].intena == s.cpus[c].flag
  {
    hide CpuStep;
    var d :| CpuStep(s, s', d);
    if d != c { OtherCpus(s, s', d, c); } else { EnterRecordsBy(s, s', c); }
  }

  lemma EnterRecordsBy(s: State, s': State, c: nat)
    requires CpuStep(s, s', c) && c < |s.cpus| && c < |s'.cpus| && s.cpus[c].depth == 0 && s'.cpus[c].depth == 1
    ensures s'.cpus[c].intena == s.cpus[c].flag
  {
  }

  /**
   The other half: a section in which the scheduler dispatches nobody ends with the flag it began with.  So the
   scheduler's flag is lost only through a hand-over, and then exactly as `SchedulerFlag` says.
   */
  lemma SchedulerUndisturbed(run: seq<State>, i: nat, j: nat, c: nat)
    requires IsRun(run) && i < j && j + 1 < |run| && c < |run[i].cpus|
    requires run[i].cpus[c].thread == c && run[i].cpus[c].depth == 0
    requires forall k :: i < k <= j ==> c < |run[k].cpus| && run[k].cpus[c].thread == c && run[k].cpus[c].depth > 0
    requires run[i + 1].cpus[c].depth == 1
    requires c < |run[j + 1].cpus| && run[j + 1].cpus[c].thread == c
    requires run[j].cpus[c].depth == 1 && run[j + 1].cpus[c].depth == 0
    ensures run[j + 1].cpus[c].flag == run[i].cpus[c].flag
  {
    hide Inv;
    hide Step;
    assert Step(run[i], run[i + 1]) && Step(run[j], run[j + 1]);
    EnterRecords(run[i], run[i + 1], c);
    IntenaLong(run, i + 1, j, c);
    RunInv(run, j);
    IntenaKept(run[j], run[j + 1], c);
  }

  /** One CPU, one process, one lock. */
  function Small(depth: nat, intena: bool, flag: bool, thread: nat, phase: Phase, word: Word, scheduler: Thread,
    process: Thread): State {
    State([Cpu(depth, intena, flag, thread, phase, if word.locked then {TABLE} else {}, 0)], [word],
      [scheduler, process])
  }

  const FREE: Word := Word(false, None)
  const HALF: Word := Word(true, None)
  const HELD: Word := Word(true, Some(0))

  lemma SmallPush(intena: bool, flag: bool, t: nat, a: Thread, b: Thread)
    requires t < 2
    ensures var a', b' := if t == 0 then a.(entry := flag) else a, if t == 1 then b.(entry := flag) else b;
            Step(Small(0, intena, flag, t, Ready, FREE, a, b), Small(1, flag, false, t, Pushed(0), FREE, a', b'))
  {
    var a', b' := if t == 0 then a.(entry := flag) else a, if t == 1 then b.(entry := flag) else b;
    assert AcquireStart(Small(0, intena, flag, t, Ready, FREE, a, b),
             Small(1, flag, false, t, Pushed(0), FREE, a', b'), 0, 0);
    assert CpuStep(Small(0, intena, flag, t, Ready, FREE, a, b), Small(1, flag, false, t, Pushed(0), FREE, a', b'), 0);
  }

  lemma SmallTake(flag: bool, t: nat, a: Thread, b: Thread)
    requires t < 2
    ensures Step(Small(1, flag, false, t, Pushed(0), FREE, a, b), Small(1, flag, false, t, Spinning(0), FREE, a, b))
    ensures Step(Small(1, flag, false, t, Spinning(0), FREE, a, b), Small(1, flag, false, t, Got(0), HALF, a, b))
    ensures Step(Small(1, flag, false, t, Got(0), HALF, a, b), Small(1, flag, false, t, Ready, HELD, a, b))
  {
    assert CpuStep(Small(1, flag, false, t, Pushed(0), FREE, a, b),
             Small(1, flag, false, t, Spinning(0), FREE, a, b), 0);
    assert (var none: set<nat> := {}; none + {TABLE}) == {TABLE};
    assert CpuStep(Small(1, flag, false, t, Spinning(0), FREE, a, b), Small(1, flag, false, t, Got(0), HALF, a, b), 0);
    assert CpuStep(Small(1, flag, false, t, Got(0), HALF, a, b), Small(1, flag, false, t, Ready, HELD, a, b), 0);
  }

  lemma SmallAcquire(intena: bool, flag: bool, t: nat, a: Thread, b: Thread)
    requires t < 2
    ensures var a', b' := if t == 0 then a.(entry := flag) else a, if t == 1 then b.(entry := flag) else b;
            && Step(Small(0, intena, flag, t, Ready, FREE, a, b), Small(1, flag, false, t, Pushed(0), FREE, a', b'))
            && Step(Small(1, flag, false, t, Pushed(0), FREE, a', b'),
                 Small(1, flag, false, t, Spinning(0), FREE, a', b'))
            && Step(Small(1, flag, false, t, Spinning(0), FREE, a', b'), Small(1, flag, false, t, Got(0), HALF, a', b'))
            && Step(Small(1, flag, false, t, Got(0), HALF, a', b'), Small(1, flag, false, t, Ready, HELD, a', b'))
  {
    hide Step;
    hide Small;
    var a', b' := if t == 0 then a.(entry := flag) else a, if t == 1 then b.(entry := flag) else b;
    SmallPush(intena, flag, t, a, b);
    SmallTake(flag, t, a', b');
  }

  lemma SmallRelease(intena: bool, t: nat, a: Thread, b: Thread)
    requires t < 2
    ensures && Step(Small(1, intena, false, t, Ready, HELD, a, b), Small(1, intena, false, t, Leaving(0), HELD, a, b))
            && Step(Small(1, intena, false, t, Leaving(0), HELD, a, b),
                 Small(1, intena, false, t, Cleared(0), HALF, a, b))
            && Step(Small(1, intena, false, t, Cleared(0), HALF, a, b),
                 Small(1, intena, false, t, Freed(0), FREE, a, b))
            && Step(Small(1, intena, false, t, Freed(0), FREE, a, b), Small(0, intena, intena, t, Ready, FREE, a, b))
  {
    assert ReleaseStart(Small(1, intena, false, t, Ready, HELD, a, b),
             Small(1, intena, false, t, Leaving(0), HELD, a, b), 0, 0);
    assert CpuStep(Small(1, intena, false, t, Ready, HELD, a, b),
             Small(1, intena, false, t, Leaving(0), HELD, a, b), 0);
    assert CpuStep(Small(1, intena, false, t, Leaving(0), HELD, a, b),
             Small(1, intena, false, t, Cleared(0), HALF, a, b), 0);
    assert {TABLE} - {TABLE} == var none: set<nat> := {}; none;
    assert CpuStep(Small(1, intena, false, t, Cleared(0), HALF, a, b),
             Small(1, intena, false, t, Freed(0), FREE, a, b), 0);
    assert CpuStep(Small(1, intena, false, t, Freed(0), FREE, a, b), Small(0, intena, intena, t, Ready, FREE, a, b), 0);
  }

  lemma SmallSwitches(a: Thread, b: Thread)
    requires a.at.On? && b.at.Fresh?
    ensures Step(Small(0, false, false, 0, Ready, FREE, a, b), Small(0, false, true, 0, Ready, FREE, a, b))
    ensures Step(Small(1, true, false, 0, Ready, HELD, a, b),
              Small(1, true, false, 1, Ready, HELD, a.(at := Off), b.(at := On, entry := true)))
    ensures var t := b.(at := On, entry := false, handler := true);
            Step(Small(1, false, false, 1, Ready, HELD, a.(at := Off), t),
              Small(1, false, false, 0, Ready, HELD, a, t.(at := Off, saved := false)))
  {
    assert CpuStep(Small(0, false, false, 0, Ready, FREE, a, b), Small(0, false, true, 0, Ready, FREE, a, b), 0);
    assert SwitchInStep(Small(1, true, false, 0, Ready, HELD, a, b),
             Small(1, true, false, 1, Ready, HELD, a.(at := Off), b.(at := On, entry := true)), 0, 1);
    assert CpuStep(Small(1, true, false, 0, Ready, HELD, a, b),
             Small(1, true, false, 1, Ready, HELD, a.(at := Off), b.(at := On, entry := true)), 0);
    var u := b.(at := On, entry := false, handler := true);
    assert CpuStep(Small(1, false, false, 1, Ready, HELD, a.(at := Off), u),
             Small(1, false, false, 0, Ready, HELD, a, u.(at := Off, saved := false)), 0);
  }

  /** The scheduler takes the lock with the flag set at step `i` and has it clear after releasing it at step `j`. */
  ghost predicate LosesFlag(run: seq<State>, i: nat, j: nat) {
    && i + 1 < j < |run| && (forall k :: 0 <= k < |run| ==> |run[k].cpus| == 1)
    && run[i].cpus[0].thread == 0 && run[i].cpus[0].depth == 0 && run[i].cpus[0].flag && run[i + 1].cpus[0].depth == 1
    && run[j].cpus[0].thread == 0 && run[j].cpus[0].depth == 0 && !run[j].cpus[0].flag
    && forall k :: i < k < j && run[k].cpus[0].thread == 0 ==> run[k].cpus[0].depth == 1
  }

  /**
   `sched` saves and restores `InterruptsEnabled` for processes only: a scheduler that took the lock
   with interrupts on can release it with interrupts off.
   */
  lemma SchedulerLosesFlag() returns (run: seq<State>)
    ensures IsRun(run) && LosesFlag(run, 1, 20)
  {
    hide Step;
    var a0, a1, a2 := Thread(On, false, false, false), Thread(On, false, false, true), Thread(Off, false, false, true);
    var b0, b1 := Thread(Fresh, false, false, false), Thread(On, false, false, true);
    var b2, b3, b4 := b1.(handler := true), b1.(handler := true, entry := false), Thread(Off, true, false, false);
    run := [
      Small(0, false, false, 0, Ready, FREE, a0, b0), Small(0, false, true, 0, Ready, FREE, a0, b0),
      Small(1, true, false, 0, Pushed(0), FREE, a1, b0), Small(1, true, false, 0, Spinning(0), FREE, a1, b0),
      Small(1, true, false, 0, Got(0), HALF, a1, b0), Small(1, true, false, 0, Ready, HELD, a1, b0),
      Small(1, true, false, 1, Ready, HELD, a2, b1), Small(1, true, false, 1, Leaving(0), HELD, a2, b1),
      Small(1, true, false, 1, Cleared(0), HALF, a2, b1), Small(1, true, false, 1, Freed(0), FREE, a2, b1),
      Small(0, true, true, 1, Ready, FREE, a2, b1), Small(0, true, false, 1, Ready, FREE, a2, b2),
      Small(1, false, false, 1, Pushed(0), FREE, a2, b3), Small(1, false, false, 1, Spinning(0), FREE, a2, b3),
      Small(1, false, false, 1, Got(0), HALF, a2, b3), Small(1, false, false, 1, Ready, HELD, a2, b3),
      Small(1, false, false, 0, Ready, HELD, a1, b4), Small(1, false, false, 0, Leaving(0), HELD, a1, b4),
      Small(1, false, false, 0, Cleared(0), HALF, a1, b4), Small(1, false, false, 0, Freed(0), FREE, a1, b4),
      Small(0, false, false, 0, Ready, FREE, a1, b4)];
    assert run[0] == Initial(1, 1, 1);
    SmallSwitches(a0, b0);
    SmallAcquire(false, true, 0, a0, b0);
    SmallSwitches(a1, b0);
    SmallRelease(true, 1, a2, b1);
    SmallAcquire(true, false, 1, a2, b2);
    SmallRelease(false, 0, a1, b4);
    SmallInterrupt(a2, b1);
  }

  lemma SmallInterrupt(a: Thread, t: Thread)
    requires !t.handler
    ensures Step(Small(0, true, true, 1, Ready, FREE, a, t),
              Small(0, true, false, 1, Ready, FREE, a, t.(handler := true)))
  {
    assert CpuStep(Small(0, true, true, 1, Ready, FREE, a, t),
             Small(0, true, false, 1, Ready, FREE, a, t.(handler := true)), 0);
  }
}
