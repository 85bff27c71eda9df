/**
 The disk buffer cache with its sleeping locks and the IDE request queue, as a
 transition system over all interleavings of processes and disk interrupts.

 Each step is one critical section of the code (or one store of the process that
 holds the buffer's sleeping lock).  Waiting is a step that is not enabled.
 */
module BufferCache {
  import opened Basics

  const SECTOR_BYTES: nat := 512

  function Filled(b: bv8): seq<bv8> {
    seq(SECTOR_BYTES, _ => b)
  }

  /** The contents of a sector. */
  type Data = d: seq<bv8> | |d| == SECTOR_BYTES witness Filled(0)

  datatype Key = Key(device: nat, sector: nat)
  datatype Buf = Buf(key: Key, valid: bool, dirty: bool, refs: nat, locked: bool, data: Data)

  /** Where a process stands in its use of the cache. */
  datatype Pc =
    | Idle
    | Locking(b: nat, key: Key)               // reference taken, sleeping lock not yet
    | Got(b: nat, key: Key)                   // diskBufferGet has returned
    | Reading(b: nat, key: Key)               // in ideReadWrite for a read
    | Using(b: nat, key: Key, changed: bool)  // diskBufferRead has returned
    | Marked(b: nat, key: Key)                // in diskBufferWrite, B_DIRTY set
    | Writing(b: nat, key: Key)               // in ideReadWrite for a write
    | Leaving(b: nat, key: Key)               // lock released, reference not yet

  /** What the controller was told by `ideStartRequest`. */
  datatype Command = Command(address: Key, payload: Option<Data>)

  datatype State = State(
    bufs: seq<Buf>,
    order: seq<nat>,          // the list through Next, from Head.Next
    queue: seq<nat>,          // the list from idequeue
    device: Option<Command>,  // the request the controller works on
    disk: map<Key, Data>,
    pc: seq<Pc>)

  datatype Event = Silent | ReadDone(key: Key, data: Data) | Write(key: Key, data: Data)

  const NBUF: nat := 30
  const SECTORS: nat := 0x1000_0000

  // ---------------------------------------------------------------- the disk

  /** The address bits that reach the controller: one device bit and 28 sector bits. */
  function Physical(l: Key): Key {
    Key(l.device % 2, l.sector % SECTORS)
  }

  function Fetch(m: map<Key, Data>, l: Key): Data {
    if l in m then m[l] else Filled(0)
  }

  function Start(buf: Buf): Command {
    Command(Physical(buf.key), if buf.dirty then Some(buf.data) else None)
  }

  // ---------------------------------------------------------------- list operations

  /** The first index at or after `i` whose buffer carries key `l`. */
  function FindKey(bufs: seq<Buf>, order: seq<nat>, l: Key, i: nat): (r: Option<nat>)
    requires i <= |order| && forall k :: 0 <= k < |order| ==> order[k] < |bufs|
    ensures r.Some? ==> i <= r.value < |order| && bufs[order[r.value]].key == l
                        && forall k :: i <= k < r.value ==> bufs[order[k]].key != l
    ensures r.None? ==> forall k :: i <= k < |order| ==> bufs[order[k]].key != l
    decreases |order| - i
  {
    if i == |order| then None
    else if bufs[order[i]].key == l then Some(i)
    else FindKey(bufs, order, l, i + 1)
  }

  predicate Recyclable(buf: Buf) {
    buf.refs == 0 && !buf.dirty
  }

  /** The last index below `i` whose buffer may be recycled. */
  function FindFree(bufs: seq<Buf>, order: seq<nat>, i: nat): (r: Option<nat>)
    requires i <= |order| && forall k :: 0 <= k < |order| ==> order[k] < |bufs|
    ensures r.Some? ==> r.value < i && Recyclable(bufs[order[r.value]])
                        && forall k :: r.value < k < i ==> !Recyclable(bufs[order[k]])
    ensures r.None? ==> forall k :: 0 <= k < i ==> !Recyclable(bufs[order[k]])
  {
    if i == 0 then None
    else if Recyclable(bufs[order[i - 1]]) then Some(i - 1)
    else FindFree(bufs, order, i - 1)
  }

  /** Position `i` moves to the front. */
  function ToFront(order: seq<nat>, i: nat): seq<nat>
    requires i < |order|
  {
    seq(|order|, k requires 0 <= k < |order| => if k == 0 then order[i] else if k <= i then order[k - 1] else order[k])
  }

  // ---------------------------------------------------------------- steps

  ghost predicate Shape(s: State) {
    && (forall k :: 0 <= k < |s.order| ==> s.order[k] < |s.bufs|)
    && (forall k :: 0 <= k < |s.queue| ==> s.queue[k] < |s.bufs|)
    && (forall p :: 0 <= p < |s.pc| && !s.pc[p].Idle? ==> s.pc[p].b < |s.bufs|)
  }

  function SetPc(s: State, p: nat, pc: Pc): State
    requires p < |s.pc|
  {
    s.(pc := s.pc[p := pc])
  }

  function SetBuf(s: State, b: nat, buf: Buf): State
    requires b < |s.bufs|
  {
    s.(bufs := s.bufs[b := buf])
  }

  /** Append to `idequeue`; the controller starts when the queue was empty. */
  function Enqueue(s: State, b: nat): State
    requires b < |s.bufs|
  {
    s.(queue := s.queue + [b], device := if s.queue == [] then Some(Start(s.bufs[b])) else s.device)
  }

  ghost predicate GetStep(s: State, s': State, p: nat, l: Key) {
    && Shape(s) && p < |s.pc| && s.pc[p].Idle?
    && match FindKey(s.bufs, s.order, l, 0)
       case Some(i) =>
         var b := s.order[i];
         s' == SetPc(SetBuf(s, b, s.bufs[b].(refs := s.bufs[b].refs + 1)), p, Locking(b, l))
       case None =>
         var free := FindFree(s.bufs, s.order, |s.order|);
         && free.Some?
         && var b := s.order[free.value];
            s' == SetPc(SetBuf(s, b, s.bufs[b].(key := l, valid := false, dirty := false, refs := 1)), p, Locking(b, l))
  }

  ghost predicate LockStep(s: State, s': State, p: nat) {
    && Shape(s) && p < |s.pc| && s.pc[p].Locking?
    && var b := s.pc[p].b;
       && !s.bufs[b].locked
       && s' == SetPc(SetBuf(s, b, s.bufs[b].(locked := true)), p, Got(b, s.pc[p].key))
  }

  ghost predicate CheckStep(s: State, s': State, p: nat, ev: Event) {
    && Shape(s) && p < |s.pc| && s.pc[p].Got?
    && var Got(b, l) := s.pc[p];
       if s.bufs[b].valid then
         s' == SetPc(s, p, Using(b, l, false)) && ev == ReadDone(l, s.bufs[b].data)
       else
         s' == SetPc(Enqueue(s, b), p, Reading(b, l)) && ev == Silent
  }

  ghost predicate IoDoneStep(s: State, s': State, p: nat, ev: Event) {
    && Shape(s) && p < |s.pc| && (s.pc[p].Reading? || s.pc[p].Writing?)
    && var b, l := s.pc[p].b, s.pc[p].key;
       && s.bufs[b].valid && !s.bufs[b].dirty
       && s' == SetPc(s, p, Using(b, l, false))
       && ev == if s.pc[p].Reading? then ReadDone(l, s.bufs[b].data) else Silent
  }

  ghost predicate ChangeStep(s: State, s': State, p: nat, d: Data) {
    && Shape(s) && p < |s.pc| && s.pc[p].Using?
    && var b, l := s.pc[p].b, s.pc[p].key;
       s' == SetPc(SetBuf(s, b, s.bufs[b].(data := d)), p, Using(b, l, true))
  }

  ghost predicate MarkStep(s: State, s': State, p: nat, ev: Event) {
    && Shape(s) && p < |s.pc| && s.pc[p].Using?
    && var b, l := s.pc[p].b, s.pc[p].key;
       && s' == SetPc(SetBuf(s, b, s.bufs[b].(dirty := true)), p, Marked(b, l))
       && ev == Write(l, s.bufs[b].data)
  }

  ghost predicate QueueStep(s: State, s': State, p: nat) {
    && Shape(s) && p < |s.pc| && s.pc[p].Marked?
    && s' == SetPc(Enqueue(s, s.pc[p].b), p, Writing(s.pc[p].b, s.pc[p].key))
  }

  /** `diskBufferRelease`, first half; the protocol forbids it while changes are unwritten. */
  ghost predicate UnlockStep(s: State, s': State, p: nat) {
    && Shape(s) && p < |s.pc| && s.pc[p].Using? && !s.pc[p].changed
    && var b := s.pc[p].b;
       s' == SetPc(SetBuf(s, b, s.bufs[b].(locked := false)), p, Leaving(b, s.pc[p].key))
  }

  /** `diskBufferRelease`, second half. */
  ghost predicate LeaveStep(s: State, s': State, p: nat, i: nat) {
    && Shape(s) && p < |s.pc| && s.pc[p].Leaving?
    && var b := s.pc[p].b;
       && s.bufs[b].refs > 0
       && i < |s.order| && s.order[i] == b
       && var s1 := SetPc(SetBuf(s, b, s.bufs[b].(refs := s.bufs[b].refs - 1)), p, Idle);
          s' == if s.bufs[b].refs == 1 then s1.(order := ToFront(s.order, i)) else s1
  }

  /** The controller finishes its command and `ideInterruptHandler` runs. */
  ghost predicate InterruptStep(s: State, s': State) {
    && Shape(s) && s.queue != [] && s.device.Some?
    && var b := s.queue[0];
       var buf := s.bufs[b];
       var cmd := s.device.value;
       var disk := if cmd.payload.Some? then s.disk[cmd.address := cmd.payload.value] else s.disk;
       var buf' := buf.(valid := true, dirty := false, data := if buf.dirty
         then buf.data else Fetch(disk, cmd.address));
       var rest := s.queue[1..];
       var bufs := s.bufs[b := buf'];
       s' == s.(bufs := bufs, disk := disk, queue := rest,
                device := if rest == [] then None else Some(Start(bufs[rest[0]])))
  }

  // ---------------------------------------------------------------- invariants

  /** A buffer that has been handed out at some time. */
  predicate Used(buf: Buf) {
    buf.refs > 0 || buf.valid
  }

  predicate Targets(pc: Pc, b: nat) {
    !pc.Idle? && pc.b == b
  }

  /** The process holds the sleeping lock of its buffer. */
  predicate Holds(pc: Pc) {
    pc.Got? || pc.Reading? || pc.Using? || pc.Marked? || pc.Writing?
  }

  /** The processes that hold, wait for, or are about to give up a reference to `b`. */
  function Referrers(pc: seq<Pc>, b: nat): set<nat> {
    set p | 0 <= p < |pc| && Targets(pc[p], b)
  }

  /** The list is a permutation of all buffers. */
  ghost predicate Permutation(order: seq<nat>, n: nat) {
    && |order| == n
    && (forall k :: 0 <= k < n ==> order[k] < n)
    && (forall j, k :: 0 <= j < k < n ==> order[j] != order[k])
    && (forall b :: 0 <= b < n ==> b in order)
  }

  ghost predicate RefsCounted(s: State) {
    forall b :: 0 <= b < |s.bufs| ==> s.bufs[b].refs == |Referrers(s.pc, b)|
  }

  predicate HeldBy(pc: Pc, b: nat) {
    Holds(pc) && pc.b == b
  }

  /** No two processes hold the same buffer, and a buffer is locked exactly while some process holds it. */
  ghost predicate Exclusive(s: State)
    requires Shape(s)
  {
    && (forall b, p, q :: 0 <= p < |s.pc| && 0 <= q < |s.pc| && HeldBy(s.pc[p], b) && HeldBy(s.pc[q], b) ==> p == q)
    && (forall p :: 0 <= p < |s.pc| && Holds(s.pc[p]) ==> s.bufs[s.pc[p].b].locked)
    && (forall b :: 0 <= b < |s.bufs| && s.bufs[b].locked ==> exists p :: 0 <= p < |s.pc| && HeldBy(s.pc[p], b))
  }

  /** The buffer's data is what the disk holds. */
  ghost predicate Clean(s: State, b: nat)
    requires b < |s.bufs|
  {
    s.bufs[b].data == Fetch(s.disk, Physical(s.bufs[b].key))
  }

  /** What a process at `pc` may rely on about its buffer. */
  ghost predicate ProcessOk(s: State, p: nat)
    requires p < |s.pc|
  {
    var pc := s.pc[p];
    pc.Idle? ||
    (&& pc.b < |s.bufs|
     && var buf := s.bufs[pc.b];
        && buf.key == pc.key && buf.refs > 0
        && match pc
           case Locking(_, _) => true
           case Got(b, _) => !buf.dirty && b !in s.queue && (buf.valid ==> Clean(s, b))
           case Reading(b, _) => !buf.dirty && (buf.valid <==> b !in s.queue) && (buf.valid ==> Clean(s, b))
           case Using(b, _, changed) => buf.valid && !buf.dirty && b !in s.queue && (!changed ==> Clean(s, b))
           case Marked(b, _) => buf.valid && buf.dirty && b !in s.queue
           case Writing(b, _) => buf.valid && (buf.dirty <==> b in s.queue) && (!buf.dirty ==> Clean(s, b))
           case Leaving(_, _) => buf.valid)
  }

  ghost predicate ProcessesOk(s: State) {
    forall p :: 0 <= p < |s.pc| ==> ProcessOk(s, p)
  }

  /** An unlocked buffer is at rest. */
  ghost predicate BuffersOk(s: State) {
    forall b :: 0 <= b < |s.bufs| && !s.bufs[b].locked ==>
      !s.bufs[b].dirty && b !in s.queue && (s.bufs[b].valid ==> Clean(s, b))
  }

  /** The controller works on the head of the queue. */
  ghost predicate QueueOk(s: State)
    requires Shape(s)
  {
    && (forall j, k :: 0 <= j < k < |s.queue| ==> s.queue[j] != s.queue[k])
    && s.device == if s.queue == [] then None else Some(Start(s.bufs[s.queue[0]]))
  }

  /** Used buffers carry different keys; the others are as `diskBufferCacheInitialise` left them. */
  ghost predicate KeysOk(bufs: seq<Buf>, keys: set<Key>) {
    && (forall b :: 0 <= b < |bufs| && Used(bufs[b]) ==> bufs[b].key in keys)
    && (forall b, c :: 0 <= b < c < |bufs| && Used(bufs[b]) && Used(bufs[c]) ==> bufs[b].key != bufs[c].key)
    && (forall b :: 0 <= b < |bufs| && !Used(bufs[b]) ==> bufs[b].key == Key(0, 0))
  }

  /** No unused buffer precedes a used one that carries the initial key. */
  ghost predicate FrontOk(bufs: seq<Buf>, order: seq<nat>)
    requires forall k :: 0 <= k < |order| ==> order[k] < |bufs|
  {
    forall j, k :: 0 <= j < k < |order| && Used(bufs[order[k]]) && bufs[order[k]].key == Key(0, 0) ==>
      Used(bufs[order[j]])
  }

  /** The keys in use reach different places on the disk. */
  ghost predicate Separate(keys: set<Key>) {
    forall k, l :: k in keys && l in keys && Physical(k) == Physical(l) ==> k == l
  }

  ghost predicate Inv(s: State, keys: set<Key>) {
    && Shape(s)
    && Permutation(s.order, |s.bufs|)
    && RefsCounted(s)
    && Exclusive(s)
    && ProcessesOk(s)
    && BuffersOk(s)
    && QueueOk(s)
    && KeysOk(s.bufs, keys)
    && FrontOk(s.bufs, s.order)
  }

  // ---------------------------------------------------------------- steps of one process on its own buffer

  /** Only buffer `b` and process `p` change; keys, references and targets stay. */
  ghost predicate Local(s: State, s': State, p: nat, b: nat) {
    && p < |s.pc| && b < |s.bufs| && Targets(s.pc[p], b)
    && |s'.bufs| == |s.bufs| && |s'.pc| == |s.pc| && s'.order == s.order && s'.disk == s.disk
    && (forall c :: 0 <= c < |s.bufs| && c != b ==> s'.bufs[c] == s.bufs[c])
    && (forall q :: 0 <= q < |s.pc| && q != p ==> s'.pc[q] == s.pc[q])
    && Targets(s'.pc[p], b) && s'.pc[p].key == s.pc[p].key
    && s'.bufs[b].key == s.bufs[b].key && s'.bufs[b].refs == s.bufs[b].refs && s'.bufs[b].valid == s.bufs[b].valid
    && (forall k :: 0 <= k < |s'.queue| ==> s'.queue[k] < |s.bufs|)
    && (forall c :: c != b ==> (c in s'.queue <==> c in s.queue))
  }

  lemma LocalFrame(s: State, s': State, p: nat, b: nat, keys: set<Key>)
    requires Inv(s, keys) && Local(s, s', p, b)
    ensures Shape(s') && Permutation(s'.order, |s'.bufs|) && RefsCounted(s') && KeysOk(s'.bufs, keys) &&
              FrontOk(s'.bufs, s'.order)
  {
    hide Exclusive;
    hide ProcessesOk;
    hide BuffersOk;
    hide QueueOk;
    assert forall c :: 0 <= c < |s.bufs| ==> Used(s'.bufs[c]) == Used(s.bufs[c]) && s'.bufs[c].key == s.bufs[c].key;
    forall c | 0 <= c < |s.bufs| ensures s'.bufs[c].refs == |Referrers(s'.pc, c)| {
      assert Referrers(s'.pc, c) == Referrers(s.pc, c);
    }
  }

  /** A process that does not hold the changed buffer keeps what it relies on. */
  lemma OthersKeep(s: State, s': State, p: nat, b: nat, q: nat)
    requires Local(s, s', p, b) && q < |s.pc| && q != p && ProcessOk(s, q) && !HeldBy(s.pc[q], b)
    ensures ProcessOk(s', q)
  {
  }

  /** The holder of a buffer is the only process that relies on its contents. */
  lemma LocalProcesses(s: State, s': State, p: nat, b: nat, keys: set<Key>)
    requires Inv(s, keys) && Local(s, s', p, b) && (Holds(s.pc[p]) || !s.bufs[b].locked)
    requires ProcessOk(s', p)
    ensures ProcessesOk(s')
  {
    assert forall q :: 0 <= q < |s.pc| && q != p ==> !HeldBy(s.pc[q], b);
    forall q | 0 <= q < |s.pc| ensures ProcessOk(s', q) {
      if q != p {
        assert ProcessOk(s, q);
        OthersKeep(s, s', p, b, q);
      }
    }
  }

  lemma LocalExclusive(s: State, s': State, p: nat, b: nat, keys: set<Key>)
    requires Inv(s, keys) && Local(s, s', p, b) && Shape(s') && (Holds(s.pc[p]) || !s.bufs[b].locked)
    requires s'.bufs[b].locked == Holds(s'.pc[p])
    ensures Exclusive(s')
  {
    hide ProcessesOk;
    hide BuffersOk;
    hide QueueOk;
    hide RefsCounted;
    hide KeysOk;
    hide FrontOk;
    assert forall q :: 0 <= q < |s.pc| && q != p ==> !HeldBy(s.pc[q], b);
    forall c | 0 <= c < |s.bufs| && s'.bufs[c].locked ensures exists q :: 0 <= q < |s'.pc| && HeldBy(s'.pc[q], c) {
      if c == b {
        assert HeldBy(s'.pc[p], b);
      } else {
        var q :| 0 <= q < |s.pc| && HeldBy(s.pc[q], c);
        assert HeldBy(s'.pc[q], c);
      }
    }
  }

  /** The invariant after a local step, given what is special about it. */
  lemma LocalInv(s: State, s': State, p: nat, b: nat, keys: set<Key>)
    requires Inv(s, keys) && Local(s, s', p, b) && (Holds(s.pc[p]) || !s.bufs[b].locked)
    requires ProcessOk(s', p) && s'.bufs[b].locked == Holds(s'.pc[p])
    requires !s'.bufs[b].locked ==> !s'.bufs[b].dirty && b !in s'.queue && (s'.bufs[b].valid ==> Clean(s', b))
    requires Shape(s') && QueueOk(s')
    ensures Inv(s', keys)
  {
    LocalFrame(s, s', p, b, keys);
    LocalProcesses(s, s', p, b, keys);
    LocalExclusive(s, s', p, b, keys);
    hide ProcessesOk;
    hide Exclusive;
    hide RefsCounted;
    hide KeysOk;
    hide FrontOk;
    hide QueueOk;
  }

  lemma LockKeeps(s: State, s': State, p: nat, keys: set<Key>)
    requires Inv(s, keys) && LockStep(s, s', p)
    ensures Inv(s', keys)
  {
    var b := s.pc[p].b;
    assert ProcessOk(s, p);
    assert Local(s, s', p, b);
    LocalInv(s, s', p, b, keys);
  }

  lemma EnqueueMembers(queue: seq<nat>, b: nat)
    ensures forall c :: c in queue + [b] <==> c in queue || c == b
  {
  }

  lemma CheckKeeps(s: State, s': State, p: nat, ev: Event, keys: set<Key>)
    requires Inv(s, keys) && CheckStep(s, s', p, ev)
    ensures Inv(s', keys)
  {
    var b := s.pc[p].b;
    assert ProcessOk(s, p);
    EnqueueMembers(s.queue, b);
    assert Local(s, s', p, b);
    LocalInv(s, s', p, b, keys);
  }

  lemma IoDoneKeeps(s: State, s': State, p: nat, ev: Event, keys: set<Key>)
    requires Inv(s, keys) && IoDoneStep(s, s', p, ev)
    ensures Inv(s', keys)
  {
    var b := s.pc[p].b;
    assert ProcessOk(s, p);
    assert Local(s, s', p, b);
    LocalInv(s, s', p, b, keys);
  }

  lemma ChangeKeeps(s: State, s': State, p: nat, d: Data, keys: set<Key>)
    requires Inv(s, keys) && ChangeStep(s, s', p, d)
    ensures Inv(s', keys)
  {
    var b := s.pc[p].b;
    assert ProcessOk(s, p);
    assert Local(s, s', p, b);
    LocalInv(s, s', p, b, keys);
  }

  lemma MarkKeeps(s: State, s': State, p: nat, ev: Event, keys: set<Key>)
    requires Inv(s, keys) && MarkStep(s, s', p, ev)
    ensures Inv(s', keys)
  {
    var b := s.pc[p].b;
    assert ProcessOk(s, p);
    assert Local(s, s', p, b);
    LocalInv(s, s', p, b, keys);
  }

  lemma QueueKeeps(s: State, s': State, p: nat, keys: set<Key>)
    requires Inv(s, keys) && QueueStep(s, s', p)
    ensures Inv(s', keys)
  {
    var b := s.pc[p].b;
    assert ProcessOk(s, p);
    EnqueueMembers(s.queue, b);
    assert Local(s, s', p, b);
    LocalInv(s, s', p, b, keys);
  }

  lemma UnlockKeeps(s: State, s': State, p: nat, keys: set<Key>)
    requires Inv(s, keys) && UnlockStep(s, s', p)
    ensures Inv(s', keys)
  {
    var b := s.pc[p].b;
    assert ProcessOk(s, p);
    assert Local(s, s', p, b);
    LocalInv(s, s', p, b, keys);
  }

  // ---------------------------------------------------------------- the interrupt

  /** The head of the queue has a reference, so its key differs from every other key in use. */
  lemma QueuedUsed(s: State, keys: set<Key>)
    requires Inv(s, keys) && s.queue != []
    ensures var b := s.queue[0]; s.bufs[b].refs > 0 && s.bufs[b].locked
  {
    var b := s.queue[0];
    assert b in s.queue;
    var p :| 0 <= p < |s.pc| && HeldBy(s.pc[p], b);
    assert ProcessOk(s, p);
  }

  /** A completed command leaves every other buffer in use as clean as it was. */
  lemma InterruptClean(s: State, s': State, c: nat, keys: set<Key>)
    requires Inv(s, keys) && Separate(keys) && InterruptStep(s, s')
    requires c < |s.bufs| && c != s.queue[0] && Used(s.bufs[c])
    ensures Clean(s', c) <==> Clean(s, c)
  {
    var b := s.queue[0];
    QueuedUsed(s, keys);
    assert s.device == Some(Start(s.bufs[b]));
    assert s.bufs[b].key != s.bufs[c].key;
    assert Physical(s.bufs[b].key) != Physical(s.bufs[c].key);
  }

  lemma InterruptHead(s: State, s': State, keys: set<Key>)
    requires Inv(s, keys) && InterruptStep(s, s')
    ensures Clean(s', s.queue[0])
  {
    assert s.device == Some(Start(s.bufs[s.queue[0]]));
  }

  lemma TailMembers(queue: seq<nat>)
    requires queue != [] && forall j, k :: 0 <= j < k < |queue| ==> queue[j] != queue[k]
    ensures forall c :: c in queue[1..] <==> c in queue && c != queue[0]
  {
    forall c | c in queue && c != queue[0] ensures c in queue[1..] {
      var k :| 0 <= k < |queue| && queue[k] == c;
      assert queue[1..][k - 1] == c;
    }
  }

  lemma InterruptProcess(s: State, s': State, p: nat, keys: set<Key>)
    requires Inv(s, keys) && Separate(keys) && InterruptStep(s, s') && p < |s.pc|
    ensures ProcessOk(s', p)
  {
    assert ProcessOk(s, p);
    TailMembers(s.queue);
    InterruptHead(s, s', keys);
    if !s.pc[p].Idle? && s.pc[p].b != s.queue[0] {
      InterruptClean(s, s', s.pc[p].b, keys);
    }
  }

  lemma InterruptFrame(s: State, s': State, keys: set<Key>)
    requires Inv(s, keys) && InterruptStep(s, s')
    ensures Shape(s') && Permutation(s'.order, |s'.bufs|) && RefsCounted(s') && KeysOk(s'.bufs, keys) &&
              FrontOk(s'.bufs, s'.order)
    ensures Exclusive(s') && QueueOk(s')
  {
    QueuedUsed(s, keys);
    assert forall c :: 0 <= c < |s.bufs| ==> Used(s'.bufs[c]) == Used(s.bufs[c]) && s'.bufs[c].key == s.bufs[c].key
                                             && s'.bufs[c].refs == s.bufs[c].refs &&
                                                  s'.bufs[c].locked == s.bufs[c].locked;
  }

  lemma InterruptKeeps(s: State, s': State, keys: set<Key>)
    requires Inv(s, keys) && Separate(keys) && InterruptStep(s, s')
    ensures Inv(s', keys)
  {
    InterruptFrame(s, s', keys);
    QueuedUsed(s, keys);
    TailMembers(s.queue);
    forall p | 0 <= p < |s.pc| ensures ProcessOk(s', p) {
      InterruptProcess(s, s', p, keys);
    }
    forall c | 0 <= c < |s.bufs| && !s'.bufs[c].locked
      ensures !s'.bufs[c].dirty && c !in s'.queue && (s'.bufs[c].valid ==> Clean(s', c))
    {
      assert c != s.queue[0];
      if s.bufs[c].valid { InterruptClean(s, s', c, keys); }
    }
  }

  // ---------------------------------------------------------------- taking and giving up a reference

  /** `p` starts or stops referring to `b`; the locks, the queue and the disk stay. */
  ghost predicate Refer(s: State, s': State, p: nat, b: nat) {
    && p < |s.pc| && b < |s.bufs| && |s'.bufs| == |s.bufs| && |s'.pc| == |s.pc|
    && !Holds(s.pc[p]) && !Holds(s'.pc[p]) && s'.disk == s.disk && s'.queue == s.queue && s'.device == s.device
    && (forall c :: 0 <= c < |s.bufs| && c != b ==> s'.bufs[c] == s.bufs[c])
    && (forall q :: 0 <= q < |s.pc| && q != p ==> s'.pc[q] == s.pc[q])
    && s'.bufs[b].locked == s.bufs[b].locked
  }

  lemma ReferExclusive(s: State, s': State, p: nat, b: nat, keys: set<Key>)
    requires Inv(s, keys) && Refer(s, s', p, b) && Shape(s')
    ensures Exclusive(s')
  {
    hide ProcessesOk;
    hide BuffersOk;
    hide QueueOk;
    hide RefsCounted;
    hide KeysOk;
    hide FrontOk;
    forall c | 0 <= c < |s.bufs| && s'.bufs[c].locked ensures exists q :: 0 <= q < |s'.pc| && HeldBy(s'.pc[q], c) {
      var q :| 0 <= q < |s.pc| && HeldBy(s.pc[q], c);
      assert HeldBy(s'.pc[q], c);
    }
  }

  lemma ReferOthers(s: State, s': State, p: nat, b: nat, q: nat, keys: set<Key>)
    requires Inv(s, keys) && Refer(s, s', p, b) && q < |s.pc| && q != p
    requires s'.bufs[b] == s.bufs[b].(refs := s'.bufs[b].refs) || !Targets(s.pc[q], b)
    requires s'.bufs[b].refs > 0 || !Targets(s.pc[q], b)
    ensures ProcessOk(s', q)
  {
    assert ProcessOk(s, q);
  }

  lemma InOrder(s: State, keys: set<Key>, b: nat) returns (i: nat)
    requires Inv(s, keys) && b < |s.bufs|
    ensures i < |s.order| && s.order[i] == b
  {
    assert b in s.order;
    i :| 0 <= i < |s.order| && s.order[i] == b;
  }

  /** A hit: the first buffer in list order with the key is the only one in use with it, if there is one. */
  lemma HitUnique(s: State, l: Key, keys: set<Key>, c: nat)
    requires Inv(s, keys) && FindKey(s.bufs, s.order, l, 0).Some?
    requires c < |s.bufs| && Used(s.bufs[c]) && s.bufs[c].key == l
    ensures c == s.order[FindKey(s.bufs, s.order, l, 0).value]
  {
    hide Exclusive;
    hide ProcessesOk;
    hide BuffersOk;
    hide QueueOk;
    hide RefsCounted;
    var j := InOrder(s, keys, c);
    assert FindKey(s.bufs, s.order, l, 0).value <= j;
  }

  /** Giving the only buffer with key `l` a reference keeps the keys apart. */
  lemma HitKeys(bufs: seq<Buf>, l: Key, b: nat, keys: set<Key>)
    requires KeysOk(bufs, keys) && l in keys && b < |bufs| && bufs[b].key == l
    requires forall c :: 0 <= c < |bufs| && Used(bufs[c]) && bufs[c].key == l ==> c == b
    ensures KeysOk(bufs[b := bufs[b].(refs := bufs[b].refs + 1)], keys)
  {
  }

  lemma HitFront(bufs: seq<Buf>, order: seq<nat>, i: nat, keys: set<Key>)
    requires Permutation(order, |bufs|) && KeysOk(bufs, keys) && FrontOk(bufs, order) && i < |order|
    requires forall j :: 0 <= j < i ==> bufs[order[j]].key != bufs[order[i]].key
    ensures FrontOk(bufs[order[i] := bufs[order[i]].(refs := bufs[order[i]].refs + 1)], order)
  {
    assert bufs[order[i]].key == Key(0, 0) ==> forall j :: 0 <= j < i ==> Used(bufs[order[j]]);
  }

  lemma Hit(s: State, l: Key, keys: set<Key>)
    requires Inv(s, keys) && l in keys && FindKey(s.bufs, s.order, l, 0).Some?
    ensures var b := s.order[FindKey(s.bufs, s.order, l, 0).value];
            var bufs' := s.bufs[b := s.bufs[b].(refs := s.bufs[b].refs + 1)];
            KeysOk(bufs', keys) && FrontOk(bufs', s.order)
  {
    hide KeysOk;
    hide Exclusive;
    hide ProcessesOk;
    hide BuffersOk;
    hide QueueOk;
    hide RefsCounted;
    var i := FindKey(s.bufs, s.order, l, 0).value;
    forall c | 0 <= c < |s.bufs| && Used(s.bufs[c]) && s.bufs[c].key == l ensures c == s.order[i] {
      HitUnique(s, l, keys, c);
    }
    HitKeys(s.bufs, l, s.order[i], keys);
    HitFront(s.bufs, s.order, i, keys);
  }

  /** A miss: no buffer carries the key, so the recycled one becomes the only one. */
  lemma MissKeys(s: State, l: Key, b: nat, keys: set<Key>)
    requires Inv(s, keys) && l in keys && FindKey(s.bufs, s.order, l, 0).None? && b < |s.bufs|
    ensures var bufs' := s.bufs[b := s.bufs[b].(key := l, valid := false, dirty := false, refs := 1)];
            KeysOk(bufs', keys) && FrontOk(bufs', s.order)
  {
    hide Exclusive;
    hide ProcessesOk;
    hide BuffersOk;
    hide QueueOk;
    hide RefsCounted;
    forall c | 0 <= c < |s.bufs| ensures s.bufs[c].key != l {
      var j := InOrder(s, keys, c);
    }
    assert l == Key(0, 0) ==> forall c :: 0 <= c < |s.bufs| ==> Used(s.bufs[c]);
  }

  lemma AddReferrer(s: State, s': State, p: nat, b: nat)
    requires RefsCounted(s) && Refer(s, s', p, b) && s.pc[p].Idle? && Targets(s'.pc[p], b)
    requires s'.bufs[b].refs == s.bufs[b].refs + 1
    ensures RefsCounted(s')
  {
    forall c | 0 <= c < |s'.bufs| ensures s'.bufs[c].refs == |Referrers(s'.pc, c)| {
      if c == b {
        assert Referrers(s'.pc, b) == Referrers(s.pc, b) + {p};
      } else {
        assert Referrers(s'.pc, c) == Referrers(s.pc, c);
      }
    }
  }

  /** A buffer with no reference has no process at it. */
  lemma NoReferrers(s: State, b: nat, q: nat)
    requires RefsCounted(s) && b < |s.bufs| && s.bufs[b].refs == 0 && q < |s.pc|
    ensures !Targets(s.pc[q], b)
  {
    assert q in Referrers(s.pc, b) <==> Targets(s.pc[q], b);
  }

  lemma GetProcesses(s: State, s': State, p: nat, l: Key, keys: set<Key>)
    requires Inv(s, keys) && GetStep(s, s', p, l)
    ensures ProcessesOk(s')
  {
    var b := s'.pc[p].b;
    forall q | 0 <= q < |s.pc| ensures ProcessOk(s', q) {
      if q != p {
        if FindKey(s.bufs, s.order, l, 0).None? { NoReferrers(s, b, q); }
        ReferOthers(s, s', p, b, q, keys);
      }
    }
  }

  lemma GetBuffers(s: State, s': State, p: nat, l: Key, keys: set<Key>)
    requires Inv(s, keys) && GetStep(s, s', p, l)
    ensures Shape(s') && BuffersOk(s') && QueueOk(s')
  {
    hide Exclusive;
    hide RefsCounted;
    hide KeysOk;
    hide FrontOk;
    hide ProcessesOk;
    if s.queue != [] { QueuedUsed(s, keys); }
  }

  lemma GetKeys(s: State, s': State, p: nat, l: Key, keys: set<Key>)
    requires Inv(s, keys) && l in keys && GetStep(s, s', p, l)
    ensures KeysOk(s'.bufs, keys) && FrontOk(s'.bufs, s'.order)
  {
    hide Inv;
    hide KeysOk;
    hide FrontOk;
    if FindKey(s.bufs, s.order, l, 0).Some? {
      Hit(s, l, keys);
    } else {
      MissKeys(s, l, s'.pc[p].b, keys);
    }
  }

  lemma GetKeeps(s: State, s': State, p: nat, l: Key, keys: set<Key>)
    requires Inv(s, keys) && l in keys && GetStep(s, s', p, l)
    ensures Inv(s', keys)
  {
    var b := s'.pc[p].b;
    hide BuffersOk;
    hide QueueOk;
    hide ProcessesOk;
    hide Exclusive;
    hide RefsCounted;
    hide KeysOk;
    hide FrontOk;
    hide Permutation;
    GetProcesses(s, s', p, l, keys);
    GetBuffers(s, s', p, l, keys);
    GetKeys(s, s', p, l, keys);
    AddReferrer(s, s', p, b);
    ReferExclusive(s, s', p, b, keys);
  }

  lemma DropReferrer(s: State, s': State, p: nat, b: nat)
    requires RefsCounted(s) && Refer(s, s', p, b) && s'.pc[p].Idle? && Targets(s.pc[p], b)
    requires s'.bufs[b].refs == s.bufs[b].refs - 1
    ensures RefsCounted(s')
    ensures s.bufs[b].refs == 1 ==> forall q :: 0 <= q < |s.pc| && q != p ==> !Targets(s.pc[q], b)
  {
    forall c | 0 <= c < |s'.bufs| ensures s'.bufs[c].refs == |Referrers(s'.pc, c)| {
      if c == b {
        assert Referrers(s'.pc, b) == Referrers(s.pc, b) - {p};
      } else {
        assert Referrers(s'.pc, c) == Referrers(s.pc, c);
      }
    }
    if s.bufs[b].refs == 1 {
      assert |Referrers(s'.pc, b)| == 0;
      forall q | 0 <= q < |s.pc| && q != p ensures !Targets(s.pc[q], b) {
        NoReferrers(s', b, q);
      }
    }
  }

  lemma ToFrontPermutes(order: seq<nat>, i: nat, n: nat)
    requires Permutation(order, n) && i < n
    ensures Permutation(ToFront(order, i), n)
  {
    var o := ToFront(order, i);
    forall b | 0 <= b < n ensures b in o {
      assert b in order;
      var k :| 0 <= k < |order| && order[k] == b;
      assert o[if k == i then 0 else if k < i then k + 1 else k] == b;
    }
  }

  /** Moving to the front keeps the order of the others. */
  lemma ToFrontOk(bufs: seq<Buf>, order: seq<nat>, i: nat)
    requires Permutation(order, |bufs|) && i < |order| && FrontOk(bufs, order) && Used(bufs[order[i]])
    ensures Permutation(ToFront(order, i), |bufs|) && FrontOk(bufs, ToFront(order, i))
  {
    ToFrontPermutes(order, i, |bufs|);
  }

  lemma LeaveProcesses(s: State, s': State, p: nat, i: nat, keys: set<Key>)
    requires Inv(s, keys) && LeaveStep(s, s', p, i)
    ensures ProcessesOk(s') && RefsCounted(s')
  {
    var b := s.pc[p].b;
    DropReferrer(s, s', p, b);
    forall q | 0 <= q < |s.pc| ensures ProcessOk(s', q) {
      if q != p {
        ReferOthers(s, s', p, b, q, keys);
      }
    }
  }

  lemma LeaveOrder(s: State, s': State, p: nat, i: nat, keys: set<Key>)
    requires Inv(s, keys) && LeaveStep(s, s', p, i)
    ensures Shape(s') && Permutation(s'.order, |s'.bufs|) && KeysOk(s'.bufs, keys) && FrontOk(s'.bufs, s'.order)
  {
    var b := s.pc[p].b;
    assert ProcessOk(s, p);
    hide Exclusive;
    hide RefsCounted;
    hide ProcessesOk;
    hide BuffersOk;
    hide QueueOk;
    assert forall c :: 0 <= c < |s.bufs| ==> Used(s'.bufs[c]) == Used(s.bufs[c]) && s'.bufs[c].key == s.bufs[c].key;
    assert FrontOk(s'.bufs, s.order);
    ToFrontOk(s'.bufs, s.order, i);
  }

  lemma LeaveKeeps(s: State, s': State, p: nat, i: nat, keys: set<Key>)
    requires Inv(s, keys) && LeaveStep(s, s', p, i)
    ensures Inv(s', keys)
  {
    hide RefsCounted;
    hide ProcessesOk;
    hide KeysOk;
    hide FrontOk;
    hide Permutation;
    hide Exclusive;
    LeaveProcesses(s, s', p, i, keys);
    LeaveOrder(s, s', p, i, keys);
    ReferExclusive(s, s', p, s.pc[p].b, keys);
  }

  // ---------------------------------------------------------------- runs

  /** One step of the system; every key asked for comes from `keys`. */
  ghost predicate Step(s: State, s': State, ev: Event, keys: set<Key>) {
    || (ev == Silent && exists p, l :: l in keys && GetStep(s, s', p, l))
    || (ev == Silent && exists p :: LockStep(s, s', p))
    || (exists p :: CheckStep(s, s', p, ev))
    || (exists p :: IoDoneStep(s, s', p, ev))
    || (ev == Silent && exists p, d :: ChangeStep(s, s', p, d))
    || (exists p :: MarkStep(s, s', p, ev))
    || (ev == Silent && exists p :: QueueStep(s, s', p))
    || (ev == Silent && exists p :: UnlockStep(s, s', p))
    || (ev == Silent && exists p, i :: LeaveStep(s, s', p, i))
    || (ev == Silent && InterruptStep(s, s'))
  }

  lemma StepKeeps(s: State, s': State, ev: Event, keys: set<Key>)
    requires Inv(s, keys) && Separate(keys) && Step(s, s', ev, keys)
    ensures Inv(s', keys)
  {
    hide Inv;
    hide GetStep;
    hide LockStep;
    hide CheckStep;
    hide IoDoneStep;
    hide ChangeStep;
    hide MarkStep;
    hide QueueStep;
    hide UnlockStep;
    hide LeaveStep;
    hide InterruptStep;
    if p, l :| l in keys && GetStep(s, s', p, l) { GetKeeps(s, s', p, l, keys); }
    else if p :| LockStep(s, s', p) { LockKeeps(s, s', p, keys); }
    else if p :| CheckStep(s, s', p, ev) { CheckKeeps(s, s', p, ev, keys); }
    else if p :| IoDoneStep(s, s', p, ev) { IoDoneKeeps(s, s', p, ev, keys); }
    else if p, d :| ChangeStep(s, s', p, d) { ChangeKeeps(s, s', p, d, keys); }
    else if p :| MarkStep(s, s', p, ev) { MarkKeeps(s, s', p, ev, keys); }
    else if p :| QueueStep(s, s', p) { QueueKeeps(s, s', p, keys); }
    else if p :| UnlockStep(s, s', p) { UnlockKeeps(s, s', p, keys); }
    else if p, i :| LeaveStep(s, s', p, i) { LeaveKeeps(s, s', p, i, keys); }
    else { InterruptKeeps(s, s', keys); }
  }

  /** The state after `diskBufferCacheInitialise`: every buffer blank, the last one first. */
  function InitialBuf(): Buf {
    Buf(Key(0, 0), false, false, 0, false, Filled(0))
  }

  function Initial(disk: map<Key, Data>, processes: nat): State {
    State(seq(NBUF, _ => InitialBuf()), seq(NBUF, i requires 0 <= i < NBUF => NBUF - 1 - i), [], None, disk,
      seq(processes, _ => Idle))
  }

  lemma InitialInv(disk: map<Key, Data>, processes: nat, keys: set<Key>)
    ensures Inv(Initial(disk, processes), keys)
  {
    var s := Initial(disk, processes);
    forall b | 0 <= b < NBUF ensures b in s.order {
      assert s.order[NBUF - 1 - b] == b;
    }
    forall b | 0 <= b < NBUF ensures |Referrers(s.pc, b)| == 0 {
      assert Referrers(s.pc, b) == {};
    }
  }

  // ---------------------------------------------------------------- refinement of a plain map

  /** The data last written under `k`, or `initial` if there is none. */
  function Latest(evs: seq<Event>, k: Key, initial: Data): Data {
    if evs == [] then initial
    else
      var ev := evs[|evs| - 1];
      if ev.Write? && ev.key == k then ev.data else Latest(evs[..|evs| - 1], k, initial)
  }

  ghost predicate DirtyKey(s: State, k: Key) {
    exists b :: 0 <= b < |s.bufs| && s.bufs[b].dirty && s.bufs[b].key == k
  }

  /** Every dirty buffer, and every sector without one, holds the data last written. */
  ghost predicate Agrees(s: State, evs: seq<Event>, disk0: map<Key, Data>, keys: set<Key>) {
    && (forall b :: 0 <= b < |s.bufs| && s.bufs[b].dirty ==>
          s.bufs[b].data == Latest(evs, s.bufs[b].key, Fetch(disk0, Physical(s.bufs[b].key))))
    && (forall k :: k in keys && !DirtyKey(s, k) ==>
         Fetch(s.disk, Physical(k)) == Latest(evs, k, Fetch(disk0, Physical(k))))
  }

  lemma LatestStep(evs: seq<Event>, ev: Event, k: Key, initial: Data)
    ensures Latest(evs + [ev], k, initial) == if ev.Write? && ev.key == k then ev.data else Latest(evs, k, initial)
  {
    assert (evs + [ev])[..|evs|] == evs;
  }

  /** A step that changes neither the disk nor a dirty buffer keeps the agreement. */
  lemma QuietAgrees(s: State, s': State, evs: seq<Event>, ev: Event, disk0: map<Key, Data>, keys: set<Key>)
    requires Agrees(s, evs, disk0, keys) && !ev.Write?
    requires s'.disk == s.disk && |s'.bufs| == |s.bufs|
    requires forall b :: 0 <= b < |s.bufs| ==> s'.bufs[b].dirty == s.bufs[b].dirty
    requires forall b :: 0 <= b < |s.bufs| && s.bufs[b].dirty ==>
               s'.bufs[b].data == s.bufs[b].data && s'.bufs[b].key == s.bufs[b].key
    ensures Agrees(s', evs + [ev], disk0, keys)
  {
    forall b | 0 <= b < |s'.bufs| && s'.bufs[b].dirty
      ensures s'.bufs[b].data == Latest(evs + [ev], s'.bufs[b].key, Fetch(disk0, Physical(s'.bufs[b].key)))
    {
      LatestStep(evs, ev, s'.bufs[b].key, Fetch(disk0, Physical(s'.bufs[b].key)));
    }
    forall k | k in keys && !DirtyKey(s', k)
      ensures Fetch(s'.disk, Physical(k)) == Latest(evs + [ev], k, Fetch(disk0, Physical(k)))
    {
      LatestStep(evs, ev, k, Fetch(disk0, Physical(k)));
      assert !DirtyKey(s, k);
    }
  }

  lemma DirtyUsed(s: State, b: nat, keys: set<Key>)
    requires Inv(s, keys) && b < |s.bufs| && s.bufs[b].dirty
    ensures s.bufs[b].refs > 0
  {
    var p :| 0 <= p < |s.pc| && HeldBy(s.pc[p], b);
    assert ProcessOk(s, p);
  }

  lemma MarkAgrees(s: State, s': State, p: nat, evs: seq<Event>, ev: Event, disk0: map<Key, Data>, keys: set<Key>)
    requires Inv(s, keys) && Agrees(s, evs, disk0, keys) && MarkStep(s, s', p, ev)
    ensures Agrees(s', evs + [ev], disk0, keys)
  {
    var b := s.pc[p].b;
    assert ProcessOk(s, p);
    forall c | 0 <= c < |s'.bufs| && s'.bufs[c].dirty
      ensures s'.bufs[c].data == Latest(evs + [ev], s'.bufs[c].key, Fetch(disk0, Physical(s'.bufs[c].key)))
    {
      LatestStep(evs, ev, s'.bufs[c].key, Fetch(disk0, Physical(s'.bufs[c].key)));
      if c != b { DirtyUsed(s, c, keys); }
    }
    assert s'.bufs[b].dirty;
    forall k | k in keys && !DirtyKey(s', k)
      ensures Fetch(s'.disk, Physical(k)) == Latest(evs + [ev], k, Fetch(disk0, Physical(k)))
    {
      LatestStep(evs, ev, k, Fetch(disk0, Physical(k)));
      assert k != ev.key;
      DirtyKeeps(s, s', k);
    }
  }

  lemma InterruptAgrees(s: State, s': State, evs: seq<Event>, disk0: map<Key, Data>, keys: set<Key>)
    requires Inv(s, keys) && Separate(keys) && Agrees(s, evs, disk0, keys) && InterruptStep(s, s')
    ensures Agrees(s', evs + [Silent], disk0, keys)
  {
    var b := s.queue[0];
    QueuedUsed(s, keys);
    var kb := s.bufs[b].key;
    assert s.device == Some(Start(s.bufs[b]));
    forall c | 0 <= c < |s'.bufs| && s'.bufs[c].dirty
      ensures s'.bufs[c].data == Latest(evs + [Silent], s'.bufs[c].key, Fetch(disk0, Physical(s'.bufs[c].key)))
    {
      LatestStep(evs, Silent, s'.bufs[c].key, Fetch(disk0, Physical(s'.bufs[c].key)));
    }
    forall k | k in keys && !DirtyKey(s', k)
      ensures Fetch(s'.disk, Physical(k)) == Latest(evs + [Silent], k, Fetch(disk0, Physical(k)))
    {
      LatestStep(evs, Silent, k, Fetch(disk0, Physical(k)));
      if k == kb {
        if !s.bufs[b].dirty { NoOtherDirty(s, b, keys); }
      } else {
        assert Physical(k) != Physical(kb);
        DirtyKeeps(s, s', k);
      }
    }
  }

  /** No buffer in use shares its key with a dirty one. */
  lemma NoOtherDirty(s: State, b: nat, keys: set<Key>)
    requires Inv(s, keys) && b < |s.bufs| && Used(s.bufs[b]) && !s.bufs[b].dirty
    ensures !DirtyKey(s, s.bufs[b].key)
  {
    forall c | 0 <= c < |s.bufs| && s.bufs[c].dirty ensures s.bufs[c].key != s.bufs[b].key {
      DirtyUsed(s, c, keys);
    }
  }

  lemma DirtyKeeps(s: State, s': State, k: Key)
    requires |s'.bufs| == |s.bufs|
    requires forall c :: 0 <= c < |s.bufs| && s.bufs[c].dirty && s.bufs[c].key == k ==>
               s'.bufs[c].dirty && s'.bufs[c].key == k
    ensures DirtyKey(s, k) ==> DirtyKey(s', k)
  {
  }

  /** `diskBufferRead` hands over the data last written. */
  lemma ReadLatest(s: State, b: nat, evs: seq<Event>, disk0: map<Key, Data>, keys: set<Key>)
    requires Inv(s, keys) && Agrees(s, evs, disk0, keys)
    requires b < |s.bufs| && s.bufs[b].valid && !s.bufs[b].dirty && Clean(s, b)
    ensures s.bufs[b].data == Latest(evs, s.bufs[b].key, Fetch(disk0, Physical(s.bufs[b].key)))
  {
    NoOtherDirty(s, b, keys);
  }

  /** The event of a step tells the truth about the history before it. */
  ghost predicate Truthful(ev: Event, evs: seq<Event>, disk0: map<Key, Data>) {
    ev.ReadDone? ==> ev.data == Latest(evs, ev.key, Fetch(disk0, Physical(ev.key)))
  }

  lemma CheckAgrees(s: State, s': State, p: nat, evs: seq<Event>, ev: Event, disk0: map<Key, Data>, keys: set<Key>)
    requires Inv(s, keys) && Agrees(s, evs, disk0, keys) && CheckStep(s, s', p, ev)
    ensures Agrees(s', evs + [ev], disk0, keys) && Truthful(ev, evs, disk0)
  {
    QuietAgrees(s, s', evs, ev, disk0, keys);
    hide Agrees;
    assert ProcessOk(s, p);
    if s.bufs[s.pc[p].b].valid { ReadLatest(s, s.pc[p].b, evs, disk0, keys); }
  }

  lemma IoDoneAgrees(s: State, s': State, p: nat, evs: seq<Event>, ev: Event, disk0: map<Key, Data>, keys: set<Key>)
    requires Inv(s, keys) && Agrees(s, evs, disk0, keys) && IoDoneStep(s, s', p, ev)
    ensures Agrees(s', evs + [ev], disk0, keys) && Truthful(ev, evs, disk0)
  {
    QuietAgrees(s, s', evs, ev, disk0, keys);
    hide Agrees;
    assert ProcessOk(s, p);
    ReadLatest(s, s.pc[p].b, evs, disk0, keys);
  }

  lemma ChangeAgrees(s: State, s': State, p: nat, d: Data, evs: seq<Event>, disk0: map<Key, Data>, keys: set<Key>)
    requires Inv(s, keys) && Agrees(s, evs, disk0, keys) && ChangeStep(s, s', p, d)
    ensures Agrees(s', evs + [Silent], disk0, keys)
  {
    assert ProcessOk(s, p);
    QuietAgrees(s, s', evs, Silent, disk0, keys);
  }

  lemma StepAgrees(s: State, s': State, ev: Event, evs: seq<Event>, disk0: map<Key, Data>, keys: set<Key>)
    requires Inv(s, keys) && Separate(keys) && Agrees(s, evs, disk0, keys) && Step(s, s', ev, keys)
    ensures Agrees(s', evs + [ev], disk0, keys) && Truthful(ev, evs, disk0)
  {
    hide Inv;
    hide Agrees;
    hide CheckStep;
    hide IoDoneStep;
    hide ChangeStep;
    hide MarkStep;
    hide InterruptStep;
    hide GetStep;
    hide LockStep;
    hide QueueStep;
    hide UnlockStep;
    hide LeaveStep;
    if p :| CheckStep(s, s', p, ev) { CheckAgrees(s, s', p, evs, ev, disk0, keys); }
    else if p :| IoDoneStep(s, s', p, ev) { IoDoneAgrees(s, s', p, evs, ev, disk0, keys); }
    else if p, d :| ev == Silent && ChangeStep(s, s', p, d) { ChangeAgrees(s, s', p, d, evs, disk0, keys); }
    else if p :| MarkStep(s, s', p, ev) { MarkAgrees(s, s', p, evs, ev, disk0, keys); MarkWrites(s, s', p, ev); }
    else if ev == Silent && InterruptStep(s, s') { InterruptAgrees(s, s', evs, disk0, keys); }
    else {
      QuietStep(s, s');
      QuietAgrees(s, s', evs, ev, disk0, keys);
    }
  }

  lemma QuietGet(s: State, s': State, p: nat, l: Key)
    requires GetStep(s, s', p, l)
    ensures s'.disk == s.disk && |s'.bufs| == |s.bufs|
    ensures forall b :: 0 <= b < |s.bufs| ==> s'.bufs[b].dirty == s.bufs[b].dirty
    ensures forall b :: 0 <= b < |s.bufs| && s.bufs[b].dirty ==>
              s'.bufs[b].data == s.bufs[b].data && s'.bufs[b].key == s.bufs[b].key
  {
  }

  /** The steps that leave the disk, and what is to be written to it, alone. */
  lemma QuietStep(s: State, s': State)
    requires (exists p, l :: GetStep(s, s', p, l)) || (exists p :: LockStep(s, s', p)) ||
             (exists p :: QueueStep(s, s', p)) || (exists p :: UnlockStep(s, s', p)) ||
             (exists p, i :: LeaveStep(s, s', p, i))
    ensures s'.disk == s.disk && |s'.bufs| == |s.bufs|
    ensures forall b :: 0 <= b < |s.bufs| ==> s'.bufs[b].dirty == s.bufs[b].dirty
    ensures forall b :: 0 <= b < |s.bufs| && s.bufs[b].dirty ==>
              s'.bufs[b].data == s.bufs[b].data && s'.bufs[b].key == s.bufs[b].key
  {
    hide GetStep;
    if p, l :| GetStep(s, s', p, l) { QuietGet(s, s', p, l); }
  }

  lemma MarkWrites(s: State, s': State, p: nat, ev: Event)
    requires MarkStep(s, s', p, ev)
    ensures ev.Write?
  {
  }

  /** A run: consecutive states linked by steps. */
  ghost predicate IsRun(run: seq<State>, evs: seq<Event>, keys: set<Key>) {
    && |run| == |evs| + 1
    && forall i :: 0 <= i < |evs| ==> Step(run[i], run[i + 1], evs[i], keys)
  }

  lemma {:induction false} RunInv(run: seq<State>, evs: seq<Event>, disk0: map<Key, Data>, n: nat, keys: set<Key>,
    i: nat)
    requires IsRun(run, evs, keys) && Separate(keys) && run[0] == Initial(disk0, n) && i <= |evs|
    ensures Inv(run[i], keys) && Agrees(run[i], evs[..i], disk0, keys)
  {
    hide Inv;
    hide Agrees;
    hide Step;
    if i == 0 {
      InitialInv(disk0, n, keys);
      InitialAgrees(disk0, n, keys);
    } else {
      RunInv(run, evs, disk0, n, keys, i - 1);
      assert Step(run[i - 1], run[i], evs[i - 1], keys);
      StepKeeps(run[i - 1], run[i], evs[i - 1], keys);
      StepAgrees(run[i - 1], run[i], evs[i - 1], evs[..i - 1], disk0, keys);
      assert evs[..i] == evs[..i - 1] + [evs[i - 1]];
    }
  }

  lemma InitialAgrees(disk0: map<Key, Data>, n: nat, keys: set<Key>)
    ensures Agrees(Initial(disk0, n), [], disk0, keys)
  {
  }

  /**
   The cache refines a plain map: whatever the interleaving, `diskBufferRead` returns the data
   last passed to `diskBufferWrite` for that sector, or what the disk held at the start.
   */
  lemma CacheIsMap(run: seq<State>, evs: seq<Event>, disk0: map<Key, Data>, n: nat, keys: set<Key>, i: nat)
    requires IsRun(run, evs, keys) && Separate(keys) && run[0] == Initial(disk0, n) && i < |evs|
    ensures Truthful(evs[i], evs[..i], disk0)
  {
    hide Inv;
    hide Agrees;
    hide Step;
    RunInv(run, evs, disk0, n, keys, i);
    assert Step(run[i], run[i + 1], evs[i], keys);
    StepAgrees(run[i], run[i + 1], evs[i], evs[..i], disk0, keys);
  }

  lemma GetKeepsKey(s: State, s': State, p: nat, l: Key, b: nat)
    requires GetStep(s, s', p, l) && b < |s.bufs| && s.bufs[b].refs > 0
    ensures |s'.bufs| == |s.bufs| && s'.bufs[b].key == s.bufs[b].key
  {
  }

  lemma RefsKeepKey(s: State, s': State, ev: Event, keys: set<Key>, b: nat)
    requires Shape(s) && Step(s, s', ev, keys) && b < |s.bufs| && s.bufs[b].refs > 0
    ensures |s'.bufs| == |s.bufs| && s'.bufs[b].key == s.bufs[b].key
  {
    hide GetStep;
    if p, l :| GetStep(s, s', p, l) { GetKeepsKey(s, s', p, l, b); }
  }

  /** A buffer with a holder, a waiter or a releaser is never given to another sector. */
  lemma NeverRelabelled(s: State, s': State, ev: Event, keys: set<Key>, p: nat)
    requires Inv(s, keys) && Step(s, s', ev, keys) && p < |s.pc| && !s.pc[p].Idle?
    ensures s.pc[p].b < |s'.bufs| && s'.bufs[s.pc[p].b].key == s.pc[p].key
  {
    hide Step;
    assert ProcessOk(s, p);
    RefsKeepKey(s, s', ev, keys, s.pc[p].b);
  }

  lemma GetKeepsUsed(s: State, s': State, p: nat, l: Key, b: nat)
    requires GetStep(s, s', p, l) && b < |s.bufs| && Used(s.bufs[b])
    ensures |s'.bufs| == |s.bufs| && Used(s'.bufs[b])
  {
  }

  lemma LeaveKeepsUsed(s: State, s': State, keys: set<Key>, p: nat, i: nat, b: nat)
    requires Inv(s, keys) && LeaveStep(s, s', p, i) && b < |s.bufs| && Used(s.bufs[b])
    ensures |s'.bufs| == |s.bufs| && Used(s'.bufs[b])
  {
    assert ProcessOk(s, p);
  }

  lemma HolderKeepsUsed(s: State, s': State, ev: Event, p: nat, d: Data, b: nat)
    requires Shape(s) && b < |s.bufs| && Used(s.bufs[b])
    requires LockStep(s, s', p) || CheckStep(s, s', p, ev) || IoDoneStep(s, s', p, ev) || ChangeStep(s, s', p, d) ||
             MarkStep(s, s', p, ev) || QueueStep(s, s', p) || UnlockStep(s, s', p)
    ensures |s'.bufs| == |s.bufs| && Used(s'.bufs[b])
  {
  }

  lemma InterruptKeepsUsed(s: State, s': State, b: nat)
    requires Shape(s) && InterruptStep(s, s') && b < |s.bufs| && Used(s.bufs[b])
    ensures |s'.bufs| == |s.bufs| && Used(s'.bufs[b])
  {
  }

  /** A buffer that has been handed out, once, counts as handed out ever after. */
  lemma StaysUsed(s: State, s': State, ev: Event, keys: set<Key>, b: nat)
    requires Inv(s, keys) && Step(s, s', ev, keys) && b < |s.bufs| && Used(s.bufs[b])
    ensures |s'.bufs| == |s.bufs| && Used(s'.bufs[b])
  {
    assert Shape(s);
    hide Inv;
    hide Shape;
    hide Used;
    hide GetStep;
    hide LockStep;
    hide CheckStep;
    hide IoDoneStep;
    hide ChangeStep;
    hide MarkStep;
    hide QueueStep;
    hide UnlockStep;
    hide LeaveStep;
    hide InterruptStep;
    var d := Filled(0);
    if p, l :| GetStep(s, s', p, l) { GetKeepsUsed(s, s', p, l, b); }
    else if p :| LockStep(s, s', p) { HolderKeepsUsed(s, s', ev, p, d, b); }
    else if p :| CheckStep(s, s', p, ev) { HolderKeepsUsed(s, s', ev, p, d, b); }
    else if p :| IoDoneStep(s, s', p, ev) { HolderKeepsUsed(s, s', ev, p, d, b); }
    else if p, e :| ChangeStep(s, s', p, e) { HolderKeepsUsed(s, s', ev, p, e, b); }
    else if p :| MarkStep(s, s', p, ev) { HolderKeepsUsed(s, s', ev, p, d, b); }
    else if p :| QueueStep(s, s', p) { HolderKeepsUsed(s, s', ev, p, d, b); }
    else if p :| UnlockStep(s, s', p) { HolderKeepsUsed(s, s', ev, p, d, b); }
    else if p, i :| LeaveStep(s, s', p, i) { LeaveKeepsUsed(s, s', keys, p, i, b); }
    else { InterruptKeepsUsed(s, s', b); }
  }

  lemma {:induction false} UsedEverAfter(run: seq<State>, evs: seq<Event>, disk0: map<Key, Data>, n: nat,
    keys: set<Key>, j: nat, i: nat, b: nat)
    requires IsRun(run, evs, keys) && Separate(keys) && run[0] == Initial(disk0, n) && j <= i <= |evs|
    requires b < |run[j].bufs| && Used(run[j].bufs[b])
    ensures b < |run[i].bufs| && Used(run[i].bufs[b])
    decreases i - j
  {
    hide Inv;
    hide Agrees;
    hide Step;
    if j < i {
      var k := i - 1;
      UsedEverAfter(run, evs, disk0, n, keys, j, k, b);
      RunInv(run, evs, disk0, n, keys, k);
      assert Step(run[k], run[k + 1], evs[k], keys);
      StaysUsed(run[k], run[k + 1], evs[k], keys, b);
    }
  }

  /**
   In every reachable state, of the buffers handed out at any time before, at most one carries a given key, and at most
   one process holds it; and the list is a permutation of all buffers.
   */
  lemma OneBufferPerKey(run: seq<State>, evs: seq<Event>, disk0: map<Key, Data>, n: nat, keys: set<Key>, i: nat,
    j: nat, b: nat, k: nat, c: nat)
    requires IsRun(run, evs, keys) && Separate(keys) && run[0] == Initial(disk0, n) && j <= i <= |evs| && k <= i
    requires b < |run[j].bufs| && Used(run[j].bufs[b]) && c < |run[k].bufs| && Used(run[k].bufs[c])
    ensures b < |run[i].bufs| && c < |run[i].bufs| && (run[i].bufs[b].key == run[i].bufs[c].key ==> b == c)
    ensures Permutation(run[i].order, |run[i].bufs|)
    ensures forall p, q ::
              0 <= p < |run[i].pc| && 0 <= q < |run[i].pc| && HeldBy(run[i].pc[p], b) && HeldBy(run[i].pc[q], b) ==>
                p == q
  {
    UsedEverAfter(run, evs, disk0, n, keys, j, i, b);
    UsedEverAfter(run, evs, disk0, n, keys, k, i, c);
    RunInv(run, evs, disk0, n, keys, i);
    hide Agrees;
    hide Step;
  }

  // ---------------------------------------------------------------- recency

  /** The last reference to buffer `b` is given up. */
  ghost predicate GivesUp(s: State, s': State, b: nat) {
    b < |s.bufs| && b < |s'.bufs| && s.bufs[b].refs > 0 && s'.bufs[b].refs == 0
  }

  /** The number of the step, among the first `k`, that last gave `b` up; 0 if none did. */
  ghost function LastUse(run: seq<State>, k: nat, b: nat): nat
    requires k < |run|
  {
    if k == 0 then 0 else if GivesUp(run[k - 1], run[k], b) then k else LastUse(run, k - 1, b)
  }

  lemma {:induction false} LastUseBefore(run: seq<State>, k: nat, b: nat)
    requires k < |run|
    ensures LastUse(run, k, b) <= k
  {
    if k > 0 { LastUseBefore(run, k - 1, b); }
  }

  /** The buffer at `i` is given up and goes to the front. */
  ghost predicate MovesUp(s: State, s': State, i: nat) {
    i < |s.order| && s'.order == ToFront(s.order, i) && forall b :: GivesUp(s, s', b) <==> b == s.order[i]
  }

  ghost predicate Moves(s: State, s': State) {
    exists i: nat :: MovesUp(s, s', i)
  }

  ghost predicate StaysPut(s: State, s': State) {
    s'.order == s.order && forall b :: !GivesUp(s, s', b)
  }

  lemma LeaveMoves(s: State, s': State, p: nat, i: nat)
    requires LeaveStep(s, s', p, i)
    ensures StaysPut(s, s') || MovesUp(s, s', i)
  {
  }

  lemma OthersStay(s: State, s': State, ev: Event, p: nat, d: Data)
    requires LockStep(s, s', p) || CheckStep(s, s', p, ev) || IoDoneStep(s, s', p, ev) || ChangeStep(s, s', p, d) ||
             MarkStep(s, s', p, ev) || QueueStep(s, s', p) || UnlockStep(s, s', p)
    ensures StaysPut(s, s')
  {
  }

  lemma GetStays(s: State, s': State, p: nat, l: Key)
    requires GetStep(s, s', p, l)
    ensures StaysPut(s, s')
  {
  }

  lemma InterruptStays(s: State, s': State)
    requires InterruptStep(s, s')
    ensures StaysPut(s, s')
  {
  }

  lemma OrderStep(s: State, s': State, ev: Event, keys: set<Key>)
    requires Step(s, s', ev, keys)
    ensures StaysPut(s, s') || Moves(s, s')
  {
    hide StaysPut;
    hide MovesUp;
    hide GetStep;
    hide LockStep;
    hide CheckStep;
    hide IoDoneStep;
    hide ChangeStep;
    hide MarkStep;
    hide QueueStep;
    hide UnlockStep;
    hide LeaveStep;
    hide InterruptStep;
    var d := Filled(0);
    if p, l :| GetStep(s, s', p, l) { GetStays(s, s', p, l); }
    else if p :| LockStep(s, s', p) { OthersStay(s, s', ev, p, d); }
    else if p :| CheckStep(s, s', p, ev) { OthersStay(s, s', ev, p, d); }
    else if p :| IoDoneStep(s, s', p, ev) { OthersStay(s, s', ev, p, d); }
    else if p, e :| ChangeStep(s, s', p, e) { OthersStay(s, s', ev, p, e); }
    else if p :| MarkStep(s, s', p, ev) { OthersStay(s, s', ev, p, d); }
    else if p :| QueueStep(s, s', p) { OthersStay(s, s', ev, p, d); }
    else if p :| UnlockStep(s, s', p) { OthersStay(s, s', ev, p, d); }
    else if p, i :| LeaveStep(s, s', p, i) { LeaveMoves(s, s', p, i); }
    else { InterruptStays(s, s'); }
  }

  /** Earlier in the list means given up later; those never given up come last. */
  ghost predicate ByRecency(run: seq<State>, k: nat)
    requires k < |run|
  {
    forall i, j :: 0 <= i < j < |run[k].order| ==> Later(run, k, run[k].order[i], run[k].order[j])
  }

  ghost predicate Later(run: seq<State>, k: nat, b: nat, c: nat)
    requires k < |run|
  {
    LastUse(run, k, b) > LastUse(run, k, c) || LastUse(run, k, c) == 0
  }

  lemma RecencyStep(run: seq<State>, k: nat, n: nat)
    requires k + 1 < |run| && ByRecency(run, k) && Permutation(run[k].order, n)
    requires StaysPut(run[k], run[k + 1]) || Moves(run[k], run[k + 1])
    ensures ByRecency(run, k + 1)
  {
    hide GivesUp;
    var s, s' := run[k], run[k + 1];
    if StaysPut(s, s') {
      forall i, j | 0 <= i < j < |s'.order| ensures Later(run, k + 1, s'.order[i], s'.order[j]) {
        assert Later(run, k, s.order[i], s.order[j]);
      }
    } else {
      var m: nat :| MovesUp(s, s', m);
      forall i, j | 0 <= i < j < |s'.order| ensures Later(run, k + 1, s'.order[i], s'.order[j]) {
        var j' := if j <= m then j - 1 else j;
        LastUseBefore(run, k, s.order[j']);
        if i > 0 { assert Later(run, k, s.order[if i <= m then i - 1 else i], s.order[j']); }
      }
    }
  }

  /** In every run the list of buffers is in order of last use, the latest first. */
  lemma {:induction false} Recency(run: seq<State>, evs: seq<Event>, disk0: map<Key, Data>, n: nat, keys: set<Key>,
    k: nat)
    requires IsRun(run, evs, keys) && Separate(keys) && run[0] == Initial(disk0, n) && k <= |evs|
    ensures ByRecency(run, k)
  {
    hide Step;
    hide Agrees;
    hide StaysPut;
    hide Moves;
    hide GivesUp;
    if k > 0 {
      Recency(run, evs, disk0, n, keys, k - 1);
      RunInv(run, evs, disk0, n, keys, k - 1);
      OrderStep(run[k - 1], run[k], evs[k - 1], keys);
      hide Permutation;
      RecencyStep(run, k - 1, |run[k - 1].bufs|);
    }
  }

  /**
   A sector that is not cached gets the least recently used buffer: of all those free and clean, none was given up
   before it.
   */
  lemma LeastRecent(run: seq<State>, evs: seq<Event>, disk0: map<Key, Data>, n: nat, keys: set<Key>, k: nat, p: nat,
    l: Key, c: nat)
    requires IsRun(run, evs, keys) && Separate(keys) && run[0] == Initial(disk0, n) && k < |evs|
    requires GetStep(run[k], run[k + 1], p, l) && forall b :: 0 <= b < |run[k].bufs| ==> run[k].bufs[b].key != l
    requires c < |run[k].bufs| && run[k].bufs[c].refs == 0 && !run[k].bufs[c].dirty
    ensures p < |run[k + 1].pc| && run[k + 1].pc[p].Locking?
    ensures var b := run[k + 1].pc[p].b;
            && b < |run[k].bufs| && run[k].bufs[b].refs == 0 && !run[k].bufs[b].dirty
            && LastUse(run, k, b) <= LastUse(run, k, c)
  {
    hide Step;
    Recency(run, evs, disk0, n, keys, k);
    RunInv(run, evs, disk0, n, keys, k);
    var s := run[k];
    assert c in s.order;
    var j :| 0 <= j < |s.order| && s.order[j] == c;
    var i := FindFree(s.bufs, s.order, |s.order|).value;
    if j != i { assert Later(run, k, s.order[j], s.order[i]); }
  }

  /** Devices 0 and 1 with 28-bit sector numbers are always told apart. */
  lemma InRangeSeparate(keys: set<Key>)
    requires forall k :: k in keys ==> k.device < 2 && k.sector < SECTORS
    ensures Separate(keys)
  {
  }

  // ---------------------------------------------------------------- keys that share a sector

  lemma Append(run: seq<State>, evs: seq<Event>, s: State, ev: Event, keys: set<Key>)
    returns (run': seq<State>, evs': seq<Event>)
    requires IsRun(run, evs, keys) && |run| == |evs| + 1 && Step(run[|evs|], s, ev, keys)
    ensures IsRun(run', evs', keys) && evs' == evs + [ev] && |run'| == |evs'| + 1 && run'[|evs'|] == s &&
              run'[0] == run[0]
  {
    hide Step;
    run', evs' := run + [s], evs + [ev];
    forall i | 0 <= i < |evs'| ensures Step(run'[i], run'[i + 1], evs'[i], keys) {
      if i < |evs| { assert Step(run[i], run[i + 1], evs[i], keys); }
    }
  }

  /** One process, doing nothing, and every buffer at rest. */
  ghost predicate AtRest(s: State) {
    && Shape(s) && s.pc == [Idle] && s.queue == [] && s.device == None && |s.order| > 0
    && forall b :: 0 <= b < |s.bufs| ==> s.bufs[b].refs == 0 && !s.bufs[b].dirty && !s.bufs[b].locked
  }

  /** The sole process works on buffer `b`, the rest as in `s`. */
  function Busy(s: State, b: nat, buf: Buf, pc: Pc): State
    requires b < |s.bufs|
  {
    s.(bufs := s.bufs[b := buf], pc := [pc])
  }

  lemma LoadGet(s: State, k: Key, keys: set<Key>) returns (b: nat)
    requires AtRest(s) && k in keys && forall c :: 0 <= c < |s.bufs| && s.bufs[c].key == k ==> !s.bufs[c].valid
    ensures b in s.order && b < |s.bufs|
    ensures Step(s, Busy(s, b, Buf(k, false, false, 1, false, s.bufs[b].data), Locking(b, k)), Silent, keys)
  {
    var hit := FindKey(s.bufs, s.order, k, 0);
    var i := if hit.Some? then hit.value else FindFree(s.bufs, s.order, |s.order|).value;
    b := s.order[i];
    assert GetStep(s, Busy(s, b, Buf(k, false, false, 1, false, s.bufs[b].data), Locking(b, k)), 0, k);
  }

  lemma LoadLock(s: State, k: Key, keys: set<Key>, b: nat, d: Data)
    requires AtRest(s) && b < |s.bufs|
    ensures Step(Busy(s, b, Buf(k, false, false, 1, false, d), Locking(b, k)),
                 Busy(s, b, Buf(k, false, false, 1, true, d), Got(b, k)), Silent, keys)
  {
    assert LockStep(Busy(s, b, Buf(k, false, false, 1, false, d), Locking(b, k)),
                    Busy(s, b, Buf(k, false, false, 1, true, d), Got(b, k)), 0);
  }

  lemma LoadCheck(s: State, k: Key, keys: set<Key>, b: nat, d: Data)
    requires AtRest(s) && b < |s.bufs|
    ensures var s3 := Busy(s, b, Buf(k, false, false, 1, true, d), Reading(b, k)).(queue := [b],
              device := Some(Command(Physical(k), None)));
            && Step(Busy(s, b, Buf(k, false, false, 1, true, d), Got(b, k)), s3, Silent, keys)
            && Step(s3, Busy(s, b, Buf(k, true, false, 1, true, Fetch(s.disk, Physical(k))), Reading(b, k)),
                 Silent, keys)
  {
    var s2 := Busy(s, b, Buf(k, false, false, 1, true, d), Got(b, k));
    var s3 := Busy(s, b, Buf(k, false, false, 1, true, d), Reading(b, k)).(queue := [b],
      device := Some(Command(Physical(k), None)));
    assert CheckStep(s2, s3, 0, Silent);
    assert InterruptStep(s3, Busy(s, b, Buf(k, true, false, 1, true, Fetch(s.disk, Physical(k))), Reading(b, k)));
  }

  lemma LoadDone(s: State, k: Key, keys: set<Key>, b: nat, d: Data)
    requires AtRest(s) && b < |s.bufs|
    ensures Step(Busy(s, b, Buf(k, true, false, 1, true, d), Reading(b, k)),
                 Busy(s, b, Buf(k, true, false, 1, true, d), Using(b, k, false)), ReadDone(k, d), keys)
  {
    assert IoDoneStep(Busy(s, b, Buf(k, true, false, 1, true, d), Reading(b, k)),
                      Busy(s, b, Buf(k, true, false, 1, true, d), Using(b, k, false)), 0, ReadDone(k, d));
  }

  /** From rest, reading a sector that is not cached returns what the disk holds there. */
  lemma Load(run: seq<State>, evs: seq<Event>, k: Key, keys: set<Key>)
    returns (run': seq<State>, evs': seq<Event>, b: nat)
    requires IsRun(run, evs, keys) && k in keys
    requires var s := run[|evs|];
             AtRest(s) && forall c :: 0 <= c < |s.bufs| && s.bufs[c].key == k ==> !s.bufs[c].valid
    ensures var s := run[|evs|];
            var d := Fetch(s.disk, Physical(k));
            && evs' == evs + [Silent] + [Silent] + [Silent] + [Silent] + [ReadDone(k, d)]
            && IsRun(run', evs', keys) && run'[0] == run[0]
            && b in s.order && b < |s.bufs|
            && run'[|evs'|] == Busy(s, b, Buf(k, true, false, 1, true, d), Using(b, k, false))
  {
    hide Step;
    hide AtRest;
    hide Physical;
    var s := run[|evs|];
    b := LoadGet(s, k, keys);
    var d, was := Fetch(s.disk, Physical(k)), s.bufs[b].data;
    var s1 := Busy(s, b, Buf(k, false, false, 1, false, was), Locking(b, k));
    var s2 := Busy(s, b, Buf(k, false, false, 1, true, was), Got(b, k));
    var s3 := Busy(s, b, Buf(k, false, false, 1, true, was), Reading(b, k)).(queue := [b],
      device := Some(Command(Physical(k), None)));
    var s4 := Busy(s, b, Buf(k, true, false, 1, true, d), Reading(b, k));
    var s5 := Busy(s, b, Buf(k, true, false, 1, true, d), Using(b, k, false));
    LoadLock(s, k, keys, b, was);
    LoadCheck(s, k, keys, b, was);
    LoadDone(s, k, keys, b, d);
    run', evs' := Append(run, evs, s1, Silent, keys);
    run', evs' := Append(run', evs', s2, Silent, keys);
    run', evs' := Append(run', evs', s3, Silent, keys);
    run', evs' := Append(run', evs', s4, Silent, keys);
    run', evs' := Append(run', evs', s5, ReadDone(k, d), keys);
  }

  lemma StoreMark(s: State, k: Key, keys: set<Key>, b: nat, was: Data, d: Data)
    requires AtRest(s) && b < |s.bufs|
    ensures Step(Busy(s, b, Buf(k, true, false, 1, true, was), Using(b, k, false)),
                 Busy(s, b, Buf(k, true, false, 1, true, d), Using(b, k, true)), Silent, keys)
    ensures Step(Busy(s, b, Buf(k, true, false, 1, true, d), Using(b, k, true)),
                 Busy(s, b, Buf(k, true, true, 1, true, d), Marked(b, k)), Write(k, d), keys)
  {
    assert ChangeStep(Busy(s, b, Buf(k, true, false, 1, true, was), Using(b, k, false)),
                      Busy(s, b, Buf(k, true, false, 1, true, d), Using(b, k, true)), 0, d);
    assert MarkStep(Busy(s, b, Buf(k, true, false, 1, true, d), Using(b, k, true)),
                    Busy(s, b, Buf(k, true, true, 1, true, d), Marked(b, k)), 0, Write(k, d));
  }

  lemma StoreFlush(s: State, k: Key, keys: set<Key>, b: nat, d: Data)
    requires AtRest(s) && b < |s.bufs|
    ensures var s3 := Busy(s, b, Buf(k, true, true, 1, true, d), Writing(b, k)).(queue := [b],
              device := Some(Command(Physical(k), Some(d))));
            var s4 := Busy(s, b, Buf(k, true, false, 1, true, d), Writing(b, k)).(disk := s.disk[Physical(k) := d]);
            && Step(Busy(s, b, Buf(k, true, true, 1, true, d), Marked(b, k)), s3, Silent, keys)
            && Step(s3, s4, Silent, keys)
  {
    var s2 := Busy(s, b, Buf(k, true, true, 1, true, d), Marked(b, k));
    var s3 := Busy(s, b, Buf(k, true, true, 1, true, d), Writing(b, k)).(queue := [b],
      device := Some(Command(Physical(k), Some(d))));
    var s4 := Busy(s, b, Buf(k, true, false, 1, true, d), Writing(b, k)).(disk := s.disk[Physical(k) := d]);
    assert QueueStep(s2, s3, 0);
    assert InterruptStep(s3, s4);
  }

  lemma StoreLeave(s: State, k: Key, keys: set<Key>, b: nat, d: Data, i: nat)
    requires AtRest(s) && b < |s.bufs| && i < |s.order| && s.order[i] == b
    ensures Step(Busy(s, b, Buf(k, true, false, 1, true, d), Writing(b, k)),
                 Busy(s, b, Buf(k, true, false, 1, true, d), Using(b, k, false)), Silent, keys)
    ensures Step(Busy(s, b, Buf(k, true, false, 1, true, d), Using(b, k, false)),
                 Busy(s, b, Buf(k, true, false, 1, false, d), Leaving(b, k)), Silent, keys)
    ensures Step(Busy(s, b, Buf(k, true, false, 1, false, d), Leaving(b, k)),
                 Busy(s, b, Buf(k, true, false, 0, false, d), Idle).(order := ToFront(s.order, i)), Silent, keys)
  {
    assert IoDoneStep(Busy(s, b, Buf(k, true, false, 1, true, d), Writing(b, k)),
                      Busy(s, b, Buf(k, true, false, 1, true, d), Using(b, k, false)), 0, Silent);
    assert UnlockStep(Busy(s, b, Buf(k, true, false, 1, true, d), Using(b, k, false)),
                      Busy(s, b, Buf(k, true, false, 1, false, d), Leaving(b, k)), 0);
    assert LeaveStep(Busy(s, b, Buf(k, true, false, 1, false, d), Leaving(b, k)),
                     Busy(s, b, Buf(k, true, false, 0, false, d), Idle).(order := ToFront(s.order, i)), 0, i);
  }

  /** The rest of a write, from the buffer in hand back to rest. */
  lemma Store(run: seq<State>, evs: seq<Event>, s: State, k: Key, b: nat, was: Data, d: Data, i: nat, keys: set<Key>)
    returns (run': seq<State>, evs': seq<Event>)
    requires IsRun(run, evs, keys) && AtRest(s) && b < |s.bufs| && i < |s.order| && s.order[i] == b
    requires run[|evs|] == Busy(s, b, Buf(k, true, false, 1, true, was), Using(b, k, false))
    ensures evs' == evs + [Silent] + [Write(k, d)] + [Silent] + [Silent] + [Silent] + [Silent] + [Silent]
    ensures IsRun(run', evs', keys) && run'[0] == run[0]
    ensures run'[|evs'|] ==
              Busy(s, b, Buf(k, true, false, 0, false, d), Idle).(disk := s.disk[Physical(k) := d],
                order := ToFront(s.order, i))
    ensures AtRest(run'[|evs'|])
  {
    hide Step;
    hide Physical;
    StoreMark(s, k, keys, b, was, d);
    StoreFlush(s, k, keys, b, d);
    var t := s.(disk := s.disk[Physical(k) := d]);
    StoreLeave(t, k, keys, b, d, i);
    run', evs' := Append(run, evs, Busy(s, b, Buf(k, true, false, 1, true, d), Using(b, k, true)), Silent, keys);
    run', evs' := Append(run', evs', Busy(s, b, Buf(k, true, true, 1, true, d), Marked(b, k)), Write(k, d), keys);
    run', evs' := Append(run', evs',
      Busy(s, b, Buf(k, true, true, 1, true, d), Writing(b, k)).(queue := [b],
        device := Some(Command(Physical(k), Some(d)))), Silent, keys);
    run', evs' := Append(run', evs', Busy(t, b, Buf(k, true, false, 1, true, d), Writing(b, k)), Silent, keys);
    run', evs' := Append(run', evs', Busy(t, b, Buf(k, true, false, 1, true, d), Using(b, k, false)), Silent, keys);
    run', evs' := Append(run', evs', Busy(t, b, Buf(k, true, false, 1, false, d), Leaving(b, k)), Silent, keys);
    run', evs' := Append(run', evs',
      Busy(t, b, Buf(k, true, false, 0, false, d), Idle).(order := ToFront(t.order, i)), Silent, keys);
  }

  /** From the start, one write under `k`. */
  lemma WriteOnce(k: Key, disk0: map<Key, Data>, d: Data, keys: set<Key>) returns (run: seq<State>, evs: seq<Event>)
    requires k in keys
    ensures IsRun(run, evs, keys) && run[0] == Initial(disk0, 1)
    ensures forall i :: 0 <= i < |evs| && evs[i].Write? ==> evs[i].key == k
    ensures var s := run[|evs|];
            && AtRest(s) && s.disk == disk0[Physical(k) := d]
            && forall c :: 0 <= c < |s.bufs| && s.bufs[c].valid ==> s.bufs[c].key == k
  {
    hide Step;
    hide Physical;
    var s := Initial(disk0, 1);
    assert AtRest(s);
    var run1, evs1, b := Load([s], [], k, keys);
    var i :| 0 <= i < |s.order| && s.order[i] == b;
    run, evs := Store(run1, evs1, s, k, b, Fetch(disk0, Physical(k)), d, i, keys);
  }

  /** Two keys that share a sector: a write under one shows up in a read under the other. */
  lemma SharedSector(k: Key, l: Key, disk0: map<Key, Data>, d: Data, keys: set<Key>)
    returns (run: seq<State>, evs: seq<Event>)
    requires k in keys && l in keys && k != l && Physical(k) == Physical(l) && d != Fetch(disk0, Physical(l))
    ensures IsRun(run, evs, keys) && run[0] == Initial(disk0, 1)
    ensures exists i :: 0 <= i < |evs| && !Truthful(evs[i], evs[..i], disk0)
  {
    hide Step;
    hide Physical;
    hide Initial;
    hide Busy;
    var run1, evs1 := WriteOnce(k, disk0, d, keys);
    var c;
    run, evs, c := Load(run1, evs1, l, keys);
    var n := |evs| - 1;
    NoWrites(evs[..n], l, Fetch(disk0, Physical(l)));
    assert !Truthful(evs[n], evs[..n], disk0);
  }

  lemma {:induction false} NoWrites(evs: seq<Event>, k: Key, initial: Data)
    requires forall i :: 0 <= i < |evs| && evs[i].Write? ==> evs[i].key != k
    ensures Latest(evs, k, initial) == initial
  {
    if evs != [] {
      NoWrites(evs[..|evs| - 1], k, initial);
    }
  }

  /** The cache refines the map exactly for the sets of keys that the controller tells apart. */
  lemma MapExactlyWhenSeparate(keys: set<Key>)
    ensures Separate(keys) <==>
            forall run, evs, disk0, n, i :: IsRun(run, evs, keys) && run[0] == Initial(disk0, n) && 0 <= i < |evs|
                                            ==> Truthful(evs[i], evs[..i], disk0)
  {
    if Separate(keys) {
      forall run, evs, disk0, n, i | IsRun(run, evs, keys) && run[0] == Initial(disk0, n) && 0 <= i < |evs|
        ensures Truthful(evs[i], evs[..i], disk0)
      {
        CacheIsMap(run, evs, disk0, n, keys, i);
      }
    } else {
      var k, l :| k in keys && l in keys && Physical(k) == Physical(l) && k != l;
      assert Filled(1)[0] != Filled(0)[0];
      var run, evs := SharedSector(k, l, map[], Filled(1), keys);
      var i :| 0 <= i < |evs| && !Truthful(evs[i], evs[..i], map[]);
    }
  }
}
