/**
 Pipes: a ring of 512 bytes with 32-bit counters that wrap, shared by readers and writers
 that sleep on each other.
 */
module Pipes {
  import opened Basics
  import opened Counters

  const SIZE: nat := 512

  // ---------------------------------------------------------------- the ring

  /** The bytes, the counters of bytes read and written, and whether each end is open. */
  datatype Ring = Ring(data: seq<Byte>, readCount: nat, writeCount: nat, readOpen: bool, writeOpen: bool)

  function Fill(q: Ring): nat {
    Ahead(q.readCount, q.writeCount)
  }

  ghost predicate RingOk(q: Ring) {
    |q.data| == SIZE && q.readCount < TWO_32 && q.writeCount < TWO_32 && Fill(q) <= SIZE
  }

  /** The bytes written and not yet read, oldest first. */
  ghost function Contents(q: Ring): seq<Byte>
    requires RingOk(q)
  {
    Window(q.data, q.readCount, Fill(q))
  }

  /** The test in `pipewrite`. */
  predicate Full(q: Ring) {
    q.writeCount == (q.readCount + SIZE) % TWO_32
  }

  /** The test in `piperead`. */
  predicate Empty(q: Ring) {
    q.readCount == q.writeCount
  }

  function Put(q: Ring, b: Byte): Ring
    requires |q.data| == SIZE
  {
    q.(data := q.data[q.writeCount % SIZE := b], writeCount := (q.writeCount + 1) % TWO_32)
  }

  function Taken(q: Ring): Ring {
    q.(readCount := (q.readCount + 1) % TWO_32)
  }

  /** The tests say what they mean, whatever the counters have wrapped to. */
  lemma TestsExact(q: Ring)
    requires RingOk(q)
    ensures Full(q) <==> |Contents(q)| == SIZE
    ensures Empty(q) <==> Contents(q) == []
  {
  }

  /** A byte put is the last one in. */
  lemma PutContents(q: Ring, b: Byte)
    requires RingOk(q) && !Full(q)
    ensures RingOk(Put(q, b)) && Contents(Put(q, b)) == Contents(q) + [b]
  {
    TestsExact(q);
    AheadStep(q.readCount, q.writeCount);
    WindowPut(q.data, q.readCount, q.writeCount, b);
  }

  /** A byte taken is the first one in. */
  lemma TakenContents(q: Ring)
    requires RingOk(q) && !Empty(q)
    ensures RingOk(Taken(q)) && Contents(q) == [q.data[q.readCount % SIZE]] + Contents(Taken(q))
  {
    TestsExact(q);
    AheadStep(q.readCount, q.writeCount);
    WindowTake(q.data, q.readCount, Fill(q));
  }

  // ---------------------------------------------------------------- readers and writers

  /**
   What a process is doing: between calls, wanting the pipe's lock, holding it, or asleep.
   `Writing` is the loop of `pipewrite`, `Checking` and `Reading` the two loops of `piperead`; one that is dozing
   has found itself not killed and goes to sleep next.
   */
  datatype Activity =
    | Idle
    | WantsWrite(data: seq<Byte>, i: nat) | Writing(data: seq<Byte>, i: nat)
    | WriteDozing(data: seq<Byte>, i: nat) | WriteAsleep(data: seq<Byte>, i: nat)
    | WantsRead(n: nat) | Checking(n: nat) | ReadDozing(n: nat) | ReadAsleep(n: nat) | Reading(n: nat, got: seq<Byte>)

  type Procs = map<nat, Activity>

  /** `written` and `read` are all the bytes that have gone in and come out. */
  datatype State = State(q: Ring, lock: Option<nat>, procs: Procs, killed: set<nat>, written: seq<Byte>,
    read: seq<Byte>)

  datatype Event = StartWrite(p: nat, data: seq<Byte>) | StartRead(p: nat,
    n: nat) | Lock(p: nat) | Act(p: nat) | Kill(p: nat) | CloseWrite | CloseRead

  function Woken(a: Activity, readers: bool): Activity {
    if readers && a.ReadAsleep? then WantsRead(a.n)
    else if !readers && a.WriteAsleep? then WantsWrite(a.data, a.i)
    else a
  }

  /** `wakeup` on one of the pipe's two channels. */
  function WakeAll(procs: Procs, readers: bool): Procs {
    map p | p in procs :: Woken(procs[p], readers)
  }

  predicate InWrite(a: Activity) {
    a.WantsWrite? || a.Writing? || a.WriteDozing? || a.WriteAsleep?
  }

  predicate InRead(a: Activity) {
    a.WantsRead? || a.Checking? || a.ReadDozing? || a.ReadAsleep? || a.Reading?
  }

  predicate Dozing(a: Activity) {
    a.WriteDozing? || a.ReadDozing?
  }

  predicate Asleep(a: Activity) {
    a.WriteAsleep? || a.ReadAsleep?
  }

  predicate Holds(a: Activity) {
    a.Writing? || a.Checking? || a.Reading? || Dozing(a)
  }

  /** A process in a call has its end open, and the end stays open for it. */
  ghost predicate Enabled(s: State, e: Event) {
    match e
    case StartWrite(p, _) => p in s.procs && s.procs[p].Idle? && s.q.writeOpen
    case StartRead(p, _) => p in s.procs && s.procs[p].Idle? && s.q.readOpen
    case Lock(p) => p in s.procs && (s.procs[p].WantsWrite? || s.procs[p].WantsRead?) && s.lock.None?
    case Act(p) => p in s.procs && Holds(s.procs[p])
    case Kill(p) => p in s.procs
    case CloseWrite => s.lock.None? && forall p :: p in s.procs ==> !InWrite(s.procs[p])
    case CloseRead => s.lock.None? && forall p :: p in s.procs ==> !InRead(s.procs[p])
  }

  function Become(s: State, p: nat, a: Activity, lock: Option<nat>): State {
    s.(procs := s.procs[p := a], lock := lock)
  }

  ghost function WriteAct(s: State, p: nat): State
    requires p in s.procs && s.procs[p].Writing? && |s.q.data| == SIZE
  {
    var a := s.procs[p];
    if a.i >= |a.data| then
      Become(s.(procs := WakeAll(s.procs, true)), p, Idle, None)
    else if !Full(s.q) then
      Become(s.(q := Put(s.q, a.data[a.i]), written := s.written + [a.data[a.i]]), p, Writing(a.data, a.i + 1), s.lock)
    else if !s.q.readOpen || p in s.killed then
      Become(s, p, Idle, None)
    else
      Become(s.(procs := WakeAll(s.procs, true)), p, WriteDozing(a.data, a.i), s.lock)
  }

  /** `sleep`, which gives up the pipe's lock. */
  function DozeAct(s: State, p: nat): State
    requires p in s.procs && Dozing(s.procs[p])
  {
    var a := s.procs[p];
    Become(s, p, if a.WriteDozing? then WriteAsleep(a.data, a.i) else ReadAsleep(a.n), None)
  }

  ghost function CheckAct(s: State, p: nat): State
    requires p in s.procs && s.procs[p].Checking?
  {
    var n := s.procs[p].n;
    if !(Empty(s.q) && s.q.writeOpen) then Become(s, p, Reading(n, []), s.lock)
    else if p in s.killed then Become(s, p, Idle, None)
    else Become(s, p, ReadDozing(n), s.lock)
  }

  ghost function ReadAct(s: State, p: nat): State
    requires p in s.procs && s.procs[p].Reading? && |s.q.data| == SIZE
  {
    var a := s.procs[p];
    if |a.got| >= a.n || Empty(s.q) then
      Become(s.(procs := WakeAll(s.procs, false)), p, Idle, None)
    else
      var b := s.q.data[s.q.readCount % SIZE];
      Become(s.(q := Taken(s.q), read := s.read + [b]), p, Reading(a.n, a.got + [b]), s.lock)
  }

  ghost function Next(s: State, e: Event): State
    requires Enabled(s, e) && |s.q.data| == SIZE
  {
    match e
    case StartWrite(p, data) => Become(s, p, WantsWrite(data, 0), s.lock)
    case StartRead(p, n) => Become(s, p, WantsRead(n), s.lock)
    case Lock(p) =>
      var a := s.procs[p];
      Become(s, p, if a.WantsWrite? then Writing(a.data, a.i) else Checking(a.n), Some(p))
    case Act(p) =>
      if s.procs[p].Writing? then WriteAct(s, p)
      else if s.procs[p].Checking? then CheckAct(s, p)
      else if s.procs[p].Reading? then ReadAct(s, p)
      else DozeAct(s, p)
    case Kill(p) => Become(s.(killed := s.killed + {p}), p, Woken(Woken(s.procs[p], true), false), s.lock)
    case CloseWrite => s.(q := s.q.(writeOpen := false), procs := WakeAll(s.procs, true))
    case CloseRead => s.(q := s.q.(readOpen := false), procs := WakeAll(s.procs, false))
  }

  // ---------------------------------------------------------------- what every run keeps

  ghost predicate LockOk(procs: Procs, lock: Option<nat>) {
    && (lock.Some? ==> lock.value in procs && Holds(procs[lock.value]))
    && forall p :: p in procs && Holds(procs[p]) ==> lock == Some(p)
  }

  /** What a process in the middle of a call has done so far. */
  ghost predicate ActivityOk(s: State, a: Activity) {
    && (InWrite(a) ==> s.q.writeOpen && a.i <= |a.data|)
    && (InRead(a) ==> s.q.readOpen)
    && (a.WriteDozing? ==> Full(s.q) && s.q.readOpen)
    && (a.ReadDozing? ==> Empty(s.q) && s.q.writeOpen)
    && (a.Reading? ==> |a.got| <= a.n && |a.got| <= |s.read| && a.got == s.read[|s.read| - |a.got|..])
  }

  /** Bytes come out as they went in, and at most 512 are on their way. */
  ghost predicate Fifo(s: State) {
    RingOk(s.q) && s.written == s.read + Contents(s.q)
  }

  ghost predicate Inv(s: State) {
    && Fifo(s) && LockOk(s.procs, s.lock)
    && forall p :: p in s.procs ==> ActivityOk(s, s.procs[p])
  }

  lemma PutFifo(s: State, b: Byte)
    requires Fifo(s) && !Full(s.q)
    ensures Fifo(s.(q := Put(s.q, b), written := s.written + [b]))
  {
    PutContents(s.q, b);
  }

  lemma TakeFifo(s: State)
    requires Fifo(s) && !Empty(s.q)
    ensures Fifo(s.(q := Taken(s.q), read := s.read + [s.q.data[s.q.readCount % SIZE]]))
  {
    TakenContents(s.q);
  }

  /** Opening and closing ends moves no bytes. */
  lemma CloseFifo(s: State, readOpen: bool, writeOpen: bool)
    requires Fifo(s)
    ensures Fifo(s.(q := s.q.(readOpen := readOpen, writeOpen := writeOpen)))
  {
    var q' := s.q.(readOpen := readOpen, writeOpen := writeOpen);
    assert Fill(q') == Fill(s.q);
    assert Contents(q') == Contents(s.q);
  }

  lemma WriteKeeps(s: State, p: nat)
    requires Inv(s) && p in s.procs && s.procs[p].Writing?
    ensures Inv(WriteAct(s, p))
  {
    var a := s.procs[p];
    if a.i < |a.data| && !Full(s.q) { PutFifo(s, a.data[a.i]); }
    hide RingOk;
  }

  lemma CheckKeeps(s: State, p: nat)
    requires Inv(s) && p in s.procs && s.procs[p].Checking?
    ensures Inv(CheckAct(s, p))
  {
  }

  lemma ReadKeeps(s: State, p: nat)
    requires Inv(s) && p in s.procs && s.procs[p].Reading?
    ensures Inv(ReadAct(s, p))
  {
    var a := s.procs[p];
    if |a.got| < a.n && !Empty(s.q) {
      TakeFifo(s);
      var s' := ReadAct(s, p);
      var got := a.got + [s.q.data[s.q.readCount % SIZE]];
      assert got == s'.read[|s'.read| - |got|..];
    }
    hide RingOk;
  }

  lemma DozeKeeps(s: State, p: nat)
    requires Inv(s) && p in s.procs && Dozing(s.procs[p])
    ensures Inv(DozeAct(s, p))
  {
    hide RingOk;
    hide Contents;
  }

  lemma CloseKeeps(s: State, e: Event)
    requires Inv(s) && Enabled(s, e) && (e.CloseWrite? || e.CloseRead?)
    ensures Inv(Next(s, e))
  {
    if e.CloseWrite? { CloseFifo(s, s.q.readOpen, false); } else { CloseFifo(s, false, s.q.writeOpen); }
    hide RingOk;
    hide Contents;
  }

  lemma CallKeeps(s: State, e: Event)
    requires Inv(s) && Enabled(s, e) && !e.CloseWrite? && !e.CloseRead? && !e.Act?
    ensures Inv(Next(s, e))
  {
    hide RingOk;
    hide Contents;
  }

  lemma StepKeeps(s: State, e: Event)
    requires Inv(s) && Enabled(s, e)
    ensures Inv(Next(s, e))
  {
    hide Inv;
    hide Next;
    match e
    case Act(p) => ActKeeps(s, p);
    case CloseWrite => CloseKeeps(s, e);
    case CloseRead => CloseKeeps(s, e);
    case _ => CallKeeps(s, e);
  }

  lemma ActKeeps(s: State, p: nat)
    requires Inv(s) && Enabled(s, Act(p))
    ensures Inv(Next(s, Act(p)))
  {
    if s.procs[p].Writing? { WriteKeeps(s, p); }
    else if s.procs[p].Checking? { CheckKeeps(s, p); }
    else if s.procs[p].Reading? { ReadKeeps(s, p); }
    else { DozeKeeps(s, p); }
    hide Inv;
    hide WriteAct;
    hide ReadAct;
    hide CheckAct;
    hide DozeAct;
  }

  // ---------------------------------------------------------------- who may be asleep

  ghost predicate WriterHolds(s: State) {
    s.lock.Some? && s.lock.value in s.procs && s.procs[s.lock.value].Writing?
  }

  ghost predicate ReaderTakes(s: State) {
    s.lock.Some? && s.lock.value in s.procs && s.procs[s.lock.value].Reading?
  }

  /** A sleeping reader has nothing to read, or a writer is at work that will wake it; and the same for writers. */
  ghost predicate Quiet(s: State) {
    && (forall p :: p in s.procs && s.procs[p].ReadAsleep? ==> s.q.writeOpen && (Empty(s.q) || WriterHolds(s)))
    && (forall p :: p in s.procs && s.procs[p].WriteAsleep? ==> s.q.readOpen && (Full(s.q) || ReaderTakes(s)))
  }

  /** The killed return of `pipewrite`, with the pipe full and a reader asleep that nobody wakes. */
  ghost predicate Strands(s: State, e: Event) {
    && e.Act? && e.p in s.procs && s.procs[e.p].Writing? && s.procs[e.p].i < |s.procs[e.p].data|
    && Full(s.q) && e.p in s.killed
    && exists r :: r in s.procs && s.procs[r].ReadAsleep?
  }

  lemma WriteQuiet(s: State, p: nat)
    requires Inv(s) && Quiet(s) && p in s.procs && s.procs[p].Writing?
    ensures Quiet(WriteAct(s, p)) <==> !Strands(s, Act(p))
  {
    TestsExact(s.q);
    hide RingOk;
    hide Fill;
    var s' := WriteAct(s, p);
    if Strands(s, Act(p)) {
      var r :| r in s.procs && s.procs[r].ReadAsleep?;
      assert s'.procs[r].ReadAsleep?;
    }
  }

  lemma CheckQuiet(s: State, p: nat)
    requires Inv(s) && Quiet(s) && p in s.procs && s.procs[p].Checking?
    ensures Quiet(CheckAct(s, p))
  {
    TestsExact(s.q);
    hide Fifo;
  }

  lemma ReadQuiet(s: State, p: nat)
    requires Inv(s) && Quiet(s) && p in s.procs && s.procs[p].Reading?
    ensures Quiet(ReadAct(s, p))
  {
    TestsExact(s.q);
    hide Fifo;
  }

  lemma DozeQuiet(s: State, p: nat)
    requires Inv(s) && Quiet(s) && p in s.procs && Dozing(s.procs[p])
    ensures Quiet(DozeAct(s, p))
  {
    assert ActivityOk(s, s.procs[p]);
    TestsExact(s.q);
    hide Fifo;
  }

  /** Every step keeps sleepers justified, but for the one return that strands a reader. */
  lemma StepQuiet(s: State, e: Event)
    requires Inv(s) && Quiet(s) && Enabled(s, e)
    ensures Quiet(Next(s, e)) <==> !Strands(s, e)
  {
    match e
    case Act(p) =>
      if s.procs[p].Writing? { WriteQuiet(s, p); }
      else if s.procs[p].Checking? { CheckQuiet(s, p); }
      else if s.procs[p].Reading? { ReadQuiet(s, p); }
      else { DozeQuiet(s, p); }
    case _ => hide Fifo;
  }

  // ---------------------------------------------------------------- runs

  ghost predicate Initial(s: State) {
    && |s.q.data| == SIZE && s.q.readCount == 0 && s.q.writeCount == 0 && s.q.readOpen && s.q.writeOpen
    && s.lock.None? && s.written == [] && s.read == []
    && forall p :: p in s.procs ==> s.procs[p].Idle?
  }

  ghost predicate StepOk(s: State, e: Event, s': State) {
    |s.q.data| == SIZE && Enabled(s, e) && s' == Next(s, e)
  }

  ghost predicate IsRun(run: seq<State>, events: seq<Event>) {
    && |run| == |events| + 1 && Initial(run[0])
    && forall k :: 0 <= k < |events| ==> StepOk(run[k], events[k], run[k + 1])
  }

  lemma InitialInv(s: State)
    requires Initial(s)
    ensures Inv(s) && Quiet(s)
  {
    assert Contents(s.q) == [];
  }

  lemma {:induction false} RunInv(run: seq<State>, events: seq<Event>, k: nat)
    requires IsRun(run, events) && k < |run|
    ensures Inv(run[k])
  {
    if k == 0 {
      InitialInv(run[0]);
    } else {
      RunInv(run, events, k - 1);
      assert StepOk(run[k - 1], events[k - 1], run[k]);
      StepKeeps(run[k - 1], events[k - 1]);
    }
  }

  /**
   In every run, whatever the counters have wrapped to: what was read is a prefix of what was written, at most 512
   bytes behind.
   */
  lemma ReadIsPrefix(run: seq<State>, events: seq<Event>, k: nat)
    requires IsRun(run, events) && k < |run|
    ensures run[k].read <= run[k].written && |run[k].written| - |run[k].read| <= SIZE
    ensures Fill(run[k].q) == |run[k].written| - |run[k].read|
  {
    RunInv(run, events, k);
  }

  /** In a run where no killed writer strands a reader, sleepers are justified throughout. */
  lemma {:induction false} RunQuiet(run: seq<State>, events: seq<Event>, k: nat)
    requires IsRun(run, events) && k < |run| && forall j :: 0 <= j < k ==> !Strands(run[j], events[j])
    ensures Quiet(run[k])
  {
    if k == 0 {
      InitialInv(run[0]);
    } else {
      RunQuiet(run, events, k - 1);
      RunInv(run, events, k - 1);
      assert StepOk(run[k - 1], events[k - 1], run[k]);
      StepQuiet(run[k - 1], events[k - 1]);
    }
  }

  /** Sleepers are justified throughout a run exactly when no killed writer strands a reader in it. */
  lemma QuietExactly(run: seq<State>, events: seq<Event>)
    requires IsRun(run, events)
    ensures (forall k :: 0 <= k < |run| ==> Quiet(run[k])) <==>
              (forall j :: 0 <= j < |events| ==> !Strands(run[j], events[j]))
  {
    if forall j :: 0 <= j < |events| ==> !Strands(run[j], events[j]) {
      forall k | 0 <= k < |run| ensures Quiet(run[k]) { RunQuiet(run, events, k); }
    } else if forall k :: 0 <= k < |run| ==> Quiet(run[k]) {
      forall j | 0 <= j < |events| ensures !Strands(run[j], events[j]) {
        RunInv(run, events, j);
        assert StepOk(run[j], events[j], run[j + 1]);
        StepQuiet(run[j], events[j]);
      }
    }
  }

  /** With the lock free, a sleeping reader means an empty pipe and a sleeping writer a full one; so not both. */
  lemma NeverBothAsleep(s: State)
    requires Inv(s) && Quiet(s) && s.lock.None?
    ensures forall p :: p in s.procs && s.procs[p].ReadAsleep? ==> s.read == s.written && s.q.writeOpen
    ensures forall p :: p in s.procs && s.procs[p].WriteAsleep? ==> |s.written| == |s.read| + SIZE && s.q.readOpen
    ensures forall p, r :: p in s.procs && r in s.procs && s.procs[p].WriteAsleep? ==> !s.procs[r].ReadAsleep?
  {
    TestsExact(s.q);
  }

  // ---------------------------------------------------------------- killed processes

  /** `kill` comes between the test of `IsKilled` and `sleep`. */
  ghost predicate KilledDozing(run: seq<State>, events: seq<Event>, j: nat, p: nat) {
    j < |events| && j < |run| && events[j] == Kill(p) && p in run[j].procs && Dozing(run[j].procs[p])
  }

  ghost predicate Drowsy(s: State, p: nat) {
    p in s.procs && (Dozing(s.procs[p]) || Asleep(s.procs[p]))
  }

  /** Killed between the test and `sleep`, and not woken since. */
  ghost predicate Overslept(run: seq<State>, events: seq<Event>, k: nat, p: nat, j: nat) {
    j < k < |run| && KilledDozing(run, events, j, p) && forall i :: j < i <= k ==> Drowsy(run[i], p)
  }

  lemma DrowsyStep(s: State, e: Event, s': State, p: nat)
    requires StepOk(s, e, s') && Drowsy(s', p) && p in s'.killed
    ensures Drowsy(s, p) && (p in s.killed || (e == Kill(p) && Dozing(s.procs[p])))
  {
  }

  lemma {:induction false} KilledBefore(run: seq<State>, events: seq<Event>, k: nat, p: nat) returns (j: nat)
    requires IsRun(run, events) && k < |run| && Drowsy(run[k], p) && p in run[k].killed
    ensures Overslept(run, events, k, p, j)
  {
    assert k > 0;
    assert StepOk(run[k - 1], events[k - 1], run[k]);
    DrowsyStep(run[k - 1], events[k - 1], run[k], p);
    if p in run[k - 1].killed { j := KilledBefore(run, events, k - 1, p); } else { j := k - 1; }
  }

  lemma {:induction false} StaysKilled(run: seq<State>, events: seq<Event>, j: nat, k: nat, p: nat)
    requires IsRun(run, events) && j < k < |run| && events[j] == Kill(p)
    ensures p in run[k].killed
    decreases k
  {
    assert StepOk(run[k - 1], events[k - 1], run[k]);
    if j < k - 1 { StaysKilled(run, events, j, k - 1, p); }
  }

  /**
   In every run a killed process is asleep in the pipe exactly when `kill` came after it had found itself not killed and
   before it slept, and nothing has woken it since.
   */
  lemma KilledAsleep(run: seq<State>, events: seq<Event>, k: nat, p: nat)
    requires IsRun(run, events) && k < |run| && p in run[k].procs && Asleep(run[k].procs[p])
    ensures p in run[k].killed <==> exists j :: Overslept(run, events, k, p, j)
  {
    if p in run[k].killed {
      var j := KilledBefore(run, events, k, p);
    }
    if j :| Overslept(run, events, k, p, j) { StaysKilled(run, events, j, k, p); }
  }

  /** And it does happen: a reader of an empty pipe that is killed at that point sleeps on. */
  lemma SleepsThroughKill() returns (run: seq<State>, events: seq<Event>)
    ensures IsRun(run, events)
    ensures var s := run[|events|]; 1 in s.procs && 1 in s.killed && s.procs[1].ReadAsleep?
  {
    var killed := Opening(3).(killed := {1});
    var asleep := Opening(4).(killed := {1});
    run := [Opening(0), Opening(1), Opening(2), Opening(3), killed, asleep];
    events := [Call(0), Call(1), Call(2), Kill(1), Act(1)];
    assert StepOk(Opening(0), Call(0), Opening(1)) by { OpeningReads(0); }
    assert StepOk(Opening(1), Call(1), Opening(2)) by { OpeningReads(1); }
    assert StepOk(Opening(2), Call(2), Opening(3)) by { OpeningReads(2); }
    assert StepOk(Opening(3), Kill(1), killed) by {
      assert Next(Opening(3), Kill(1)).procs == killed.procs && {} + {1} == {1};
    }
    assert StepOk(killed, Act(1), asleep) by { assert Next(killed, Act(1)).procs == asleep.procs; }
  }

  // ---------------------------------------------------------------- a reader left asleep

  /** Process 1 reads, process 2 writes 513 bytes and is killed; after `i` bytes. */
  ghost function Midway(i: nat): State {
    State(Ring(seq(SIZE, _ => 7), 0, i, true, true), Some(2), map[1 := ReadAsleep(1), 2 := Writing(Message(), i)], {2},
          seq(i, _ => 7), [])
  }

  ghost function Resting(): State {
    State(Ring(seq(SIZE, _ => 7), 0, 0, true, true), None, map[1 := Idle, 2 := Idle], {}, [], [])
  }

  lemma MidwayStep(i: nat)
    requires i < SIZE
    ensures StepOk(Midway(i), Act(2), Midway(i + 1))
  {
    var s, s' := Midway(i), Midway(i + 1);
    assert !Full(s.q);
    var a := s.procs[2];
    assert Put(s.q, 7).data == s.q.data;
    assert s.written + [a.data[i]] == s'.written;
    assert s.procs[2 := Writing(a.data, i + 1)] == s'.procs;
    assert Put(s.q, 7) == s'.q;
  }

  /** Consecutive states of some run. */
  ghost predicate Steps(run: seq<State>, events: seq<Event>) {
    |run| == |events| + 1 && forall k :: 0 <= k < |events| ==> StepOk(run[k], events[k], run[k + 1])
  }

  lemma StepsAdd(s: State, e: Event, run: seq<State>, events: seq<Event>)
    requires Steps(run, events) && StepOk(s, e, run[0])
    ensures Steps([s] + run, [e] + events)
  {
    hide StepOk;
    var run', events' := [s] + run, [e] + events;
    forall k | 0 <= k < |events'| ensures StepOk(run'[k], events'[k], run'[k + 1]) {
      if k > 0 { assert StepOk(run[k - 1], events[k - 1], run[k]); }
    }
  }

  /** From `i` bytes on, the writer comes to the killed return. */
  lemma {:induction false} MidwayRun(i: nat) returns (run: seq<State>, events: seq<Event>)
    requires i <= SIZE
    ensures Steps(run, events) && run[0] == Midway(i) && run[|events|] == Next(Midway(SIZE), Act(2))
    decreases SIZE - i
  {
    if i == SIZE {
      LastStep();
      run, events := [Midway(i), Next(Midway(SIZE), Act(2))], [Act(2)];
    } else {
      MidwayStep(i);
      var run1, events1 := MidwayRun(i + 1);
      StepsAdd(Midway(i), Act(2), run1, events1);
      run, events := [Midway(i)] + run1, [Act(2)] + events1;
    }
  }

  /** What process 2 writes: one byte more than fits. */
  ghost function Message(): seq<Byte> {
    seq(SIZE + 1, _ => 7)
  }

  /** The states that lead to the writer's first byte, and the calls between them. */
  ghost function Opening(k: nat): State {
    if k == 0 then Resting()
    else if k == 1 then Resting().(procs := map[1 := WantsRead(1), 2 := Idle])
    else if k == 2 then Resting().(procs := map[1 := Checking(1), 2 := Idle], lock := Some(1))
    else if k == 3 then Resting().(procs := map[1 := ReadDozing(1), 2 := Idle], lock := Some(1))
    else if k == 4 then Resting().(procs := map[1 := ReadAsleep(1), 2 := Idle])
    else if k == 5 then Resting().(procs := map[1 := ReadAsleep(1), 2 := WantsWrite(Message(), 0)])
    else if k == 6 then Resting().(procs := map[1 := ReadAsleep(1), 2 := Writing(Message(), 0)], lock := Some(2))
    else Midway(0)
  }

  ghost function Call(k: nat): Event {
    if k == 0 then StartRead(1, 1) else if k == 1 then Lock(1) else if k <= 3 then Act(1)
    else if k == 4 then StartWrite(2, Message()) else if k == 5 then Lock(2) else Kill(2)
  }

  lemma OpeningReads(k: nat)
    requires k < 4
    ensures StepOk(Opening(k), Call(k), Opening(k + 1))
  {
    assert Next(Opening(k), Call(k)).procs == Opening(k + 1).procs;
  }

  lemma OpeningWrites(k: nat)
    requires 4 <= k < 7
    ensures StepOk(Opening(k), Call(k), Opening(k + 1))
  {
    assert Next(Opening(k), Call(k)).procs == Opening(k + 1).procs;
    assert {} + {2} == {2};
    assert Midway(0).written == [];
  }

  lemma {:induction false} OpeningRun(k: nat) returns (run: seq<State>, events: seq<Event>)
    requires k <= 7
    ensures Steps(run, events) && run[0] == Opening(k) && run[|events|] == Next(Midway(SIZE), Act(2))
    decreases 7 - k
  {
    hide StepOk;
    hide Opening;
    hide Next;
    hide Call;
    if k == 7 {
      OpeningEnds();
      run, events := MidwayRun(0);
    } else {
      if k < 4 { OpeningReads(k); } else { OpeningWrites(k); }
      var run1, events1 := OpeningRun(k + 1);
      StepsAdd(Opening(k), Call(k), run1, events1);
      run, events := [Opening(k)] + run1, [Call(k)] + events1;
    }
  }

  lemma OpeningEnds()
    ensures Opening(7) == Midway(0) && Initial(Opening(0)) && Enabled(Midway(SIZE), Act(2)) &&
              |Midway(SIZE).q.data| == SIZE
  {
  }

  /** A run in which a killed writer leaves 512 bytes in the pipe and its only reader asleep. */
  lemma ReaderStranded() returns (run: seq<State>, events: seq<Event>)
    ensures IsRun(run, events)
    ensures var s := run[|events|];
            s.lock.None? && 1 in s.procs && s.procs[1].ReadAsleep? && |s.written| == |s.read| + SIZE && !Quiet(s)
  {
    hide Next;
    hide Opening;
    OpeningEnds();
    LastStep();
    run, events := OpeningRun(0);
  }

  lemma LastStep()
    ensures Enabled(Midway(SIZE), Act(2))
    ensures var s := Next(Midway(SIZE), Act(2));
            StepOk(Midway(SIZE), Act(2), s) && s.lock.None? && 1 in s.procs && s.procs[1].ReadAsleep? &&
              |s.written| == |s.read| + SIZE && !Quiet(s)
  {
    var s := Next(Midway(SIZE), Act(2));
    assert Full(Midway(SIZE).q);
    assert s.procs[1].ReadAsleep?;
  }

  // ---------------------------------------------------------------- the pipe in memory

  class Pipe {
    const data: array<Byte>
    var readCount: nat
    var writeCount: nat
    var readOpen: bool
    var writeOpen: bool

    ghost function View(): Ring
      reads this, data
    {
      Ring(data[..], readCount, writeCount, readOpen, writeOpen)
    }

    /** `pipealloc`. */
    constructor ()
      ensures RingOk(View()) && Contents(View()) == [] && readOpen && writeOpen && fresh(data)
    {
      data := new Byte[SIZE](_ => 0);
      readCount, writeCount := 0, 0;
      readOpen, writeOpen := true, true;
    }

    /** The loop of `pipewrite` up to where it is done or must wait: the bytes from `i` on go in, in order. */
    method Write(addr: seq<Byte>, i: nat) returns (j: nat)
      requires RingOk(View()) && i <= |addr|
      modifies this`writeCount, data
      ensures RingOk(View()) && i <= j <= |addr| && (j == |addr| || Full(View()))
      ensures Contents(View()) == old(Contents(View())) + addr[i..j]
    {
      hide RingOk;
      j := i;
      while j < |addr| && writeCount != (readCount + SIZE) % TWO_32
        invariant i <= j <= |addr| && RingOk(View())
        invariant Contents(View()) == old(Contents(View())) + addr[i..j]
      {
        PutContents(View(), addr[j]);
        ghost var before := View();
        RingLength(before);
        data[writeCount % SIZE] := addr[j];
        writeCount := (writeCount + 1) % TWO_32;
        assert View() == Put(before, addr[j]);
        assert addr[i..j] + [addr[j]] == addr[i..j + 1];
        j := j + 1;
      }
    }

    /** The second loop of `piperead`: as many bytes as there are, up to `n`, oldest first. */
    method Read(n: nat) returns (got: seq<Byte>)
      requires RingOk(View())
      modifies this`readCount
      ensures RingOk(View()) && |got| == (if n < |old(Contents(View()))| then n else |old(Contents(View()))|)
      ensures old(Contents(View())) == got + Contents(View())
    {
      hide RingOk;
      hide Contents;
      TestsExact(View());
      got := [];
      while |got| < n && readCount != writeCount
        invariant |got| <= n && RingOk(View())
        invariant old(Contents(View())) == got + Contents(View())
      {
        TakenContents(View());
        RingLength(View());
        ghost var before, b := got, data[readCount % SIZE];
        assert forall rest: seq<Byte> :: before + ([b] + rest) == (before + [b]) + rest;
        got := got + [data[readCount % SIZE]];
        readCount := (readCount + 1) % TWO_32;
      }
      TestsExact(View());
    }
  }

  lemma RingLength(q: Ring)
    requires RingOk(q)
    ensures |q.data| == SIZE
  {
  }
}
