/**
 The argument block that `exec` builds on a new stack: copying bytes into an address space
 page by page, and the layout of strings, pointers and counts that the program then finds.
 */
module ExecStack {
  import opened Basics
  import opened PageTables
  import opened AddressSpaces
  import opened SpaceCopies

  const MAX_ARG: nat := 32

  // ---------------------------------------------------------------- user addresses

  /**
   What `mapVirtualAddressToKernelAddress` finds; `Wild` when it reads through a null pointer for want of a page
   table.
   */
  datatype Access = Granted | Denied | Wild

  function AccessTo(mem: Memory, d: nat, v: nat): Access {
    if TableFor(mem, d, v / ENTRIES).None? then Wild
    else if Accessible(mem, d, v) then Granted
    else Denied
  }

  predicate Accessible(mem: Memory, d: nat, v: nat) {
    Lookup(mem, d, v).Some? && Lookup(mem, d, v).value.flags.user
  }

  /** The byte at user address `x`, if its page is mapped. */
  ghost function Peek(mem: Memory, d: nat, x: nat): Option<Byte> {
    var e := Lookup(mem, d, x / PAGE_SIZE);
    if e.Some? && |Bytes(mem, e.value.frame)| == PAGE_SIZE then Some(Bytes(mem, e.value.frame)[x % PAGE_SIZE]) else None
  }

  /** An address space whose kernel half no program may touch. */
  ghost predicate Closed(vm: Vm, d: nat) {
    && Inv(vm) && HasRole(vm.owner, d, Dir)
    && forall v :: USER_PAGES <= v < PAGES ==> !Accessible(vm.mem, d, v)
  }

  // ---------------------------------------------------------------- copyToUserVirtualMemory

  /** How much of a copy of `len` bytes to address `va` goes to the first page. */
  function Chunk(va: nat, len: nat): nat {
    if len < PAGE_SIZE - va % PAGE_SIZE then len else PAGE_SIZE - va % PAGE_SIZE
  }

  /** `was` with `data` written at offset `off`. */
  function Patched(was: seq<Byte>, off: nat, data: seq<Byte>): seq<Byte>
    requires off + |data| <= |was|
  {
    seq(|was|, k requires 0 <= k < |was| => if off <= k < off + |data| then data[k - off] else was[k])
  }

  lemma PageBytes(vm: Vm, d: nat, v: nat)
    requires Closed(vm, d) && v < PAGES && Accessible(vm.mem, d, v)
    ensures v < USER_PAGES && |Bytes(vm.mem, Lookup(vm.mem, d, v).value.frame)| == PAGE_SIZE
  {
    PageRole(vm, d, v);
  }

  /** The first page's part of a copy. */
  ghost function Chunked(vm: Vm, d: nat, va: nat, data: seq<Byte>): Vm
    requires Closed(vm, d) && va < TWO_32 && Accessible(vm.mem, d, va / PAGE_SIZE)
  {
    PageBytes(vm, d, va / PAGE_SIZE);
    var was := Bytes(vm.mem, Lookup(vm.mem, d, va / PAGE_SIZE).value.frame);
    Stored(vm, d, va / PAGE_SIZE, Patched(was, va % PAGE_SIZE, data[..Chunk(va, |data|)]))
  }

  function NextPage(va: nat): nat {
    (va / PAGE_SIZE + 1) * PAGE_SIZE % TWO_32
  }

  /** `copyToUserVirtualMemory`; addresses wrap at 2^32. */
  ghost function CopyOut(vm: Vm, d: nat, va: nat, data: seq<Byte>): (Vm, Access)
    requires Closed(vm, d) && va < TWO_32
    decreases |data|
  {
    if data == [] then (vm, Granted)
    else if AccessTo(vm.mem, d, va / PAGE_SIZE) != Granted then (vm, AccessTo(vm.mem, d, va / PAGE_SIZE))
    else
      ChunkedOk(vm, d, va, data);
      CopyOut(Chunked(vm, d, va, data), d, NextPage(va), data[Chunk(va, |data|)..])
  }

  /** Same mapping, same roles, and the bytes of `data` at `va`; nothing else differs. */
  ghost predicate IsWritten(vm: Vm, vm': Vm, d: nat, va: nat, data: seq<Byte>) {
    && va + |data| <= KERNBASE
    && forall x :: 0 <= x < KERNBASE ==>
         Peek(vm'.mem, d, x) == if va <= x < va + |data| then Some(data[x - va]) else Peek(vm.mem, d, x)
  }

  ghost predicate SameMapping(vm: Vm, vm': Vm, d: nat) {
    && Closed(vm', d) && vm'.owner == vm.owner && OthersKept(vm, vm', d)
    && (forall v :: 0 <= v < PAGES ==> Lookup(vm'.mem, d, v) == Lookup(vm.mem, d, v))
    && (forall i :: 0 <= i < ENTRIES ==> TableFor(vm'.mem, d, i) == TableFor(vm.mem, d, i))
  }

  lemma SameMappingTrans(a: Vm, b: Vm, c: Vm, d: nat)
    requires SameMapping(a, b, d) && SameMapping(b, c, d)
    ensures SameMapping(a, c, d)
  {
    hide Inv;
    hide Lookup;
    hide TableFor;
    KeptTrans(a, b, c, d);
    hide OthersKept;
  }

  lemma StoreMapping(vm: Vm, d: nat, v: nat, bytes: seq<Byte>)
    requires Closed(vm, d) && v < USER_PAGES && Lookup(vm.mem, d, v).Some? && |bytes| == PAGE_SIZE
    ensures SameMapping(vm, Stored(vm, d, v, bytes), d)
  {
    PageRole(vm, d, v);
    DirFacts(vm, d);
    hide Inv;
    hide OthersKept;
    StoreStays(vm, d, v, bytes);
    hide Lookup;
    forall w | USER_PAGES <= w < PAGES ensures !Accessible(Stored(vm, d, v, bytes).mem, d, w) {
      assert !Accessible(vm.mem, d, w);
    }
  }

  lemma ChunkedOk(vm: Vm, d: nat, va: nat, data: seq<Byte>)
    requires Closed(vm, d) && va < TWO_32 && Accessible(vm.mem, d, va / PAGE_SIZE) && data != []
    ensures var n := Chunk(va, |data|);
            0 < n <= |data| && SameMapping(vm, Chunked(vm, d, va, data), d) &&
              IsWritten(vm, Chunked(vm, d, va, data), d, va, data[..n])
  {
    hide Inv;
    hide OthersKept;
    var v, n := va / PAGE_SIZE, Chunk(va, |data|);
    PageBytes(vm, d, v);
    var was := Bytes(vm.mem, Lookup(vm.mem, d, v).value.frame);
    var now := Patched(was, va % PAGE_SIZE, data[..n]);
    StoreStays(vm, d, v, now);
    StoreMapping(vm, d, v, now);
    hide SameMapping;
    hide Lookup;
    var vm' := Stored(vm, d, v, now);
    forall x | 0 <= x < KERNBASE
      ensures Peek(vm'.mem, d, x) == if va <= x < va + n then Some(data[..n][x - va]) else Peek(vm.mem, d, x) {
      ChunkPeek(vm, vm', d, va, data[..n], x);
    }
  }

  /** The page of `va` is patched, the others are as they were. */
  lemma ChunkPeek(vm: Vm, vm': Vm, d: nat, va: nat, part: seq<Byte>, x: nat)
    requires va / PAGE_SIZE < USER_PAGES && x < KERNBASE && va % PAGE_SIZE + |part| <= PAGE_SIZE
    requires forall v :: 0 <= v < PAGES ==> Lookup(vm'.mem, d, v) == Lookup(vm.mem, d, v)
    requires var e := Lookup(vm.mem, d, va / PAGE_SIZE);
             e.Some? && |Bytes(vm.mem, e.value.frame)| == PAGE_SIZE &&
               Bytes(vm'.mem, e.value.frame) == Patched(Bytes(vm.mem, e.value.frame), va % PAGE_SIZE, part)
    requires forall w :: 0 <= w < USER_PAGES && w != va / PAGE_SIZE && Lookup(vm.mem, d, w).Some? ==>
               Bytes(vm'.mem, Lookup(vm.mem, d, w).value.frame) == Bytes(vm.mem, Lookup(vm.mem, d, w).value.frame)
    ensures Peek(vm'.mem, d, x) == if va <= x < va + |part| then Some(part[x - va]) else Peek(vm.mem, d, x)
  {
    hide Lookup;
    hide Bytes;
    if x / PAGE_SIZE == va / PAGE_SIZE {
      assert x - va == x % PAGE_SIZE - va % PAGE_SIZE;
    }
  }

  /** Page `v` is one that a copy of `len` bytes to `va` goes through. */
  ghost predicate Touched(va: nat, len: nat, v: nat) {
    len > 0 && va / PAGE_SIZE <= v <= (va + len - 1) / PAGE_SIZE
  }

  /** What a copy of `data` to `va` comes to. */
  ghost predicate IsCopyOut(vm: Vm, vm': Vm, d: nat, va: nat, data: seq<Byte>, a: Access) {
    && SameMapping(vm, vm', d)
    && (a == Granted && data != [] ==> IsWritten(vm, vm', d, va, data))
    && (data == [] ==> vm' == vm && a == Granted)
    && (a == Granted ==> forall v :: Touched(va, |data|, v) ==> Accessible(vm.mem, d, v))
    && (a == Wild ==> exists v: nat :: Touched(va, |data|, v) && NoTable(vm.mem, d, v % PAGES))
  }

  ghost predicate NoTable(mem: Memory, d: nat, v: nat) {
    TableFor(mem, d, v / ENTRIES).None?
  }

  lemma MappingRefl(vm: Vm, d: nat)
    requires Closed(vm, d)
    ensures SameMapping(vm, vm, d)
  {
    KeptRefl(vm, d);
  }

  /** After the first page, the rest of a copy starts at the next one, which is at most KERNBASE. */
  lemma NextTouched(va: nat, len: nat, n: nat)
    requires va / PAGE_SIZE < USER_PAGES && n == Chunk(va, len) && n < len
    ensures NextPage(va) == va + n
    ensures forall v :: Touched(va, len, v) <==> v == va / PAGE_SIZE || Touched(va + n, len - n, v)
  {
    assert va == va / PAGE_SIZE * PAGE_SIZE + va % PAGE_SIZE;
  }

  lemma CopyOutLast(vm: Vm, vm1: Vm, d: nat, va: nat, data: seq<Byte>)
    requires data != [] && Chunk(va, |data|) == |data| && Accessible(vm.mem, d, va / PAGE_SIZE)
    requires SameMapping(vm, vm1, d) && IsWritten(vm, vm1, d, va, data)
    ensures IsCopyOut(vm, vm1, d, va, data, Granted)
  {
    hide SameMapping;
    hide IsWritten;
    hide Accessible;
    forall v | Touched(va, |data|, v) ensures v == va / PAGE_SIZE { }
  }

  lemma WrittenStep(vm: Vm, vm1: Vm, vm2: Vm, d: nat, va: nat, data: seq<Byte>, n: nat)
    requires n <= |data| && IsWritten(vm, vm1, d, va, data[..n]) && IsWritten(vm1, vm2, d, va + n, data[n..])
    ensures IsWritten(vm, vm2, d, va, data)
  {
    hide Peek;
    forall x | 0 <= x < KERNBASE
      ensures Peek(vm2.mem, d, x) == if va <= x < va + |data| then Some(data[x - va]) else Peek(vm.mem, d, x) {
      assert Peek(vm1.mem, d, x) == if va <= x < va + n then Some(data[..n][x - va]) else Peek(vm.mem, d, x);
    }
  }

  lemma TouchedUser(va: nat, len: nat, v: nat)
    requires Touched(va, len, v) && va + len <= KERNBASE
    ensures v < USER_PAGES
  {
  }

  lemma CopyOutStep(vm: Vm, vm1: Vm, vm2: Vm, d: nat, va: nat, data: seq<Byte>, n: nat, a: Access)
    requires Closed(vm, d) && va / PAGE_SIZE < USER_PAGES && n == Chunk(va, |data|) && n < |data| &&
               Accessible(vm.mem, d, va / PAGE_SIZE)
    requires SameMapping(vm, vm1, d) && IsWritten(vm, vm1, d, va, data[..n])
    requires IsCopyOut(vm1, vm2, d, NextPage(va), data[n..], a)
    ensures IsCopyOut(vm, vm2, d, va, data, a)
  {
    hide Inv;
    hide Lookup;
    hide OthersKept;
    hide TableFor;
    hide Touched;
    hide Peek;
    SameMappingTrans(vm, vm1, vm2, d);
    NextTouched(va, |data|, n);
    if a == Granted {
      WrittenStep(vm, vm1, vm2, d, va, data, n);
      hide IsWritten;
      forall v | Touched(va, |data|, v) ensures Accessible(vm.mem, d, v) {
        if v != va / PAGE_SIZE {
          assert Accessible(vm1.mem, d, v);
          TouchedUser(va + n, |data| - n, v);
        }
      }
    }
    if a == Wild {
      var v: nat :| Touched(va + n, |data| - n, v) && NoTable(vm1.mem, d, v % PAGES);
      assert Touched(va, |data|, v) && NoTable(vm.mem, d, v % PAGES);
    }
  }

  /**
   A copy that is granted wrote exactly `data` at `va`, in user memory, without wrapping, through pages
   all open to the program; a copy that is not granted changes no mapping.
   */
  lemma {:induction false} CopyOutOk(vm: Vm, d: nat, va: nat, data: seq<Byte>)
    requires Closed(vm, d) && va < TWO_32
    ensures var (vm', a) := CopyOut(vm, d, va, data); IsCopyOut(vm, vm', d, va, data, a)
    decreases |data|
  {
    hide Inv;
    hide Closed;
    hide Lookup;
    hide SameMapping;
    hide IsWritten;
    hide Chunked;
    if data == [] {
      MappingRefl(vm, d);
    } else if AccessTo(vm.mem, d, va / PAGE_SIZE) != Granted {
      MappingRefl(vm, d);
      assert Touched(va, |data|, va / PAGE_SIZE);
    } else {
      var n := Chunk(va, |data|);
      PageBytes(vm, d, va / PAGE_SIZE);
      ChunkedOk(vm, d, va, data);
      var vm1 := Chunked(vm, d, va, data);
      MappingClosed(vm, vm1, d);
      CopyOutOk(vm1, d, NextPage(va), data[n..]);
      hide IsCopyOut;
      if n == |data| {
        assert data[..n] == data;
        CopyOutLast(vm, vm1, d, va, data);
      } else {
        CopyOutStep(vm, vm1, CopyOut(vm1, d, NextPage(va), data[n..]).0, d, va, data, n,
          CopyOut(vm1, d, NextPage(va), data[n..]).1);
      }
    }
  }

  lemma MappingClosed(vm: Vm, vm': Vm, d: nat)
    requires SameMapping(vm, vm', d)
    ensures Closed(vm', d)
  {
  }

  // ---------------------------------------------------------------- words and strings in memory

  /** A 32-bit word as four bytes, least significant first. */
  function WordBytes(n: nat): (r: seq<Byte>)
    ensures |r| == 4
  {
    [n % 256, n / 0x100 % 256, n / 0x1_0000 % 256, n / 0x100_0000 % 256]
  }

  function WordsBytes(words: seq<nat>): (r: seq<Byte>)
    ensures |r| == 4 * |words|
  {
    if words == [] then [] else WordsBytes(words[..|words| - 1]) + WordBytes(words[|words| - 1])
  }

  lemma {:induction false} WordAt(words: seq<nat>, k: nat)
    requires k < |words|
    ensures WordsBytes(words)[4 * k..4 * k + 4] == WordBytes(words[k])
  {
    var init := words[..|words| - 1];
    if k < |words| - 1 {
      WordAt(init, k);
      assert WordsBytes(words)[4 * k..4 * k + 4] == WordsBytes(init)[4 * k..4 * k + 4];
    }
  }

  /** The word at `x` is `n`. */
  ghost predicate WordIs(mem: Memory, d: nat, x: nat, n: nat) {
    forall j :: 0 <= j < 4 ==> Peek(mem, d, x + j) == Some(WordBytes(n)[j])
  }

  /** Character `k` of a C string, NUL after the last. */
  ghost function CharAt(s: seq<Byte>, k: nat): Byte {
    if k < |s| then s[k] else 0
  }

  /** A NUL-terminated string at `x`. */
  ghost predicate StringIs(mem: Memory, d: nat, x: nat, s: seq<Byte>) {
    forall k :: 0 <= k <= |s| ==> Peek(mem, d, x + k) == Some(CharAt(s, k))
  }

  /** A C string, as the program that reads it knows it. */
  ghost predicate NoNul(s: seq<Byte>) {
    forall k :: 0 <= k < |s| ==> s[k] != 0
  }

  /** Reading a word gives one value. */
  lemma WordUnique(mem: Memory, d: nat, x: nat, m: nat, n: nat)
    requires WordIs(mem, d, x, m) && WordIs(mem, d, x, n) && m < TWO_32 && n < TWO_32
    ensures m == n
  {
    hide Peek;
    forall j | 0 <= j < 4 ensures WordBytes(m)[j] == WordBytes(n)[j] {
      assert Peek(mem, d, x + j) == Some(WordBytes(m)[j]);
    }
    assert WordBytes(m)[0] == WordBytes(n)[0] && WordBytes(m)[1] == WordBytes(n)[1];
    assert WordBytes(m)[2] == WordBytes(n)[2] && WordBytes(m)[3] == WordBytes(n)[3];
    WordValue(m);
    WordValue(n);
  }

  lemma WordValue(n: nat)
    requires n < TWO_32
    ensures n == n % 256 + 0x100 * (n / 0x100 % 256) + 0x1_0000 * (n / 0x1_0000 % 256) +
                 0x100_0000 * (n / 0x100_0000 % 256)
  {
    assert n / 0x1_0000 == n / 0x100 / 0x100;
    assert n / 0x100_0000 == n / 0x1_0000 / 0x100;
    assert n / 0x100_0000 < 256;
    assert n == n % 256 + 0x100 * (n / 0x100);
    assert n / 0x100 == n / 0x100 % 256 + 0x100 * (n / 0x1_0000);
    assert n / 0x1_0000 == n / 0x1_0000 % 256 + 0x100 * (n / 0x100_0000);
  }

  /** Reading a string gives one string. */
  lemma StringUnique(mem: Memory, d: nat, x: nat, s: seq<Byte>, t: seq<Byte>)
    requires StringIs(mem, d, x, s) && StringIs(mem, d, x, t) && NoNul(s) && NoNul(t)
    ensures s == t
  {
    hide Peek;
    var m := if |s| < |t| then |s| else |t|;
    assert CharAt(s, m) == CharAt(t, m);
    forall k | 0 <= k < m ensures s[k] == t[k] {
      assert CharAt(s, k) == CharAt(t, k);
    }
  }

  /** What a program is started with: the words at `sp` and the strings they lead to decode to `args`. */
  ghost predicate Decodes(mem: Memory, d: nat, sp: nat, args: seq<seq<Byte>>, ptrs: seq<nat>) {
    && |ptrs| == |args|
    && WordIs(mem, d, sp, 0xffff_ffff)
    && WordIs(mem, d, sp + 4, |args|)
    && WordIs(mem, d, sp + 8, sp + 12)
    && (forall k :: 0 <= k < |args| ==> WordIs(mem, d, sp + 12 + 4 * k, ptrs[k]) && StringIs(mem, d, ptrs[k], args[k]))
    && WordIs(mem, d, sp + 12 + 4 * |args|, 0)
  }

  // ---------------------------------------------------------------- the loop of exec

  /** The new stack: a page open to the program just below `top`, and a guard page below that. */
  ghost predicate StackReady(vm: Vm, d: nat, top: nat) {
    && Closed(vm, d) && top % PAGE_SIZE == 0 && 2 * PAGE_SIZE <= top <= KERNBASE
    && !Accessible(vm.mem, d, top / PAGE_SIZE - 2)
  }

  /** `sp` after room for `len` bytes, rounded down to a word; the subtraction is on 32 bits. */
  function Lowered(sp: nat, len: nat): (r: nat)
    ensures r < TWO_32
  {
    (sp - len) % TWO_32 / 4 * 4
  }

  /** Pushing the strings from number `k` on: memory, stack pointer and where the strings went, or how it failed. */
  ghost function Pushed(vm: Vm, d: nat, sp: nat, args: seq<seq<Byte>>, ptrs: seq<nat>): (Vm, nat, seq<nat>, Access)
    requires Closed(vm, d) && |ptrs| <= |args|
    decreases |args| - |ptrs|
  {
    if |ptrs| == |args| then (vm, sp, ptrs, Granted)
    else if |ptrs| >= MAX_ARG then (vm, sp, ptrs, Denied)
    else
      var s := args[|ptrs|] + [0];
      var sp1 := Lowered(sp, |s|);
      CopyOutOk(vm, d, sp1, s);
      var (vm1, a) := CopyOut(vm, d, sp1, s);
      if a == Granted then Pushed(vm1, d, sp1, args, ptrs + [sp1]) else (vm1, sp1, ptrs, a)
  }

  /** The words below the strings. */
  function Words(sp: nat, ptrs: seq<nat>): seq<nat> {
    [0xffff_ffff, |ptrs|, (sp - (|ptrs| + 1) * 4) % TWO_32] + ptrs + [0]
  }

  /** The whole block: strings, then words. */
  ghost function StackBuilt(vm: Vm, d: nat, top: nat, args: seq<seq<Byte>>): (Vm, nat, seq<nat>, Access)
    requires Closed(vm, d)
  {
    var (vm1, sp, ptrs, a) := Pushed(vm, d, top, args, []);
    if a != Granted then (vm1, sp, ptrs, a)
    else
      var sp1 := (sp - (4 + |ptrs|) * 4) % TWO_32;
      PushedClosed(vm, d, top, args, []);
      var (vm2, b) := CopyOut(vm1, d, sp1, WordsBytes(Words(sp, ptrs)));
      (vm2, sp1, ptrs, b)
  }

  lemma {:induction false} PushedClosed(vm: Vm, d: nat, sp: nat, args: seq<seq<Byte>>, ptrs: seq<nat>)
    requires Closed(vm, d) && |ptrs| <= |args|
    ensures SameMapping(vm, Pushed(vm, d, sp, args, ptrs).0, d)
    decreases |args| - |ptrs|
  {
    hide Closed;
    hide SameMapping;
    hide IsWritten;
    hide CopyOut;
    if |ptrs| == |args| || |ptrs| >= MAX_ARG {
      MappingRefl(vm, d);
    } else {
      var s := args[|ptrs|] + [0];
      var sp1 := Lowered(sp, |s|);
      CopyOutOk(vm, d, sp1, s);
      var (vm1, a) := CopyOut(vm, d, sp1, s);
      MappingClosed(vm, vm1, d);
      if a == Granted {
        PushedClosed(vm1, d, sp1, args, ptrs + [sp1]);
        SameMappingTrans(vm, vm1, Pushed(vm1, d, sp1, args, ptrs + [sp1]).0, d);
      }
    }
  }

  // ---------------------------------------------------------------- the block stays in the stack page

  /** A stack pointer into the stack page. */
  ghost predicate InStack(top: nat, sp: nat) {
    sp % 4 == 0 && PAGE_SIZE <= top && top - PAGE_SIZE <= sp <= top
  }

  /** A copy just below `sp` that is granted stays in the stack page: an overflow would touch the guard page or wrap. */
  lemma StaysInStack(vm: Vm, vm': Vm, d: nat, top: nat, sp: nat, sp': nat, data: seq<Byte>)
    requires StackReady(vm, d, top) && InStack(top, sp) && data != []
    requires sp' == Lowered(sp, |data|) && IsCopyOut(vm, vm', d, sp', data, Granted)
    ensures InStack(top, sp') && sp' + |data| <= sp && StackReady(vm', d, top)
  {
    hide Inv;
    hide Lookup;
    hide OthersKept;
    hide TableFor;
    var len, guard := |data|, top / PAGE_SIZE - 2;
    assert sp' + len <= KERNBASE;
    NoWrap(sp, len, sp');
    GuardTouched(top, sp, len, sp');
    assert Lookup(vm'.mem, d, guard) == Lookup(vm.mem, d, guard);
  }

  lemma NoWrap(sp: nat, len: nat, sp': nat)
    requires sp <= KERNBASE && sp % 4 == 0 && sp' == Lowered(sp, len) && sp' + len <= KERNBASE
    ensures len <= sp && sp - 4 < sp' + len <= sp && sp' % 4 == 0
  {
    ModUp(sp - len);
    assert len <= sp;
    assert (sp - len) % TWO_32 == sp - len;
  }

  lemma ModUp(x: int)
    ensures x < 0 ==> x % TWO_32 >= x + TWO_32
  {
  }

  lemma GuardTouched(top: nat, sp: nat, len: nat, sp': nat)
    requires top % PAGE_SIZE == 0 && 2 * PAGE_SIZE <= top && InStack(top, sp) && len > 0
    requires sp - 4 < sp' + len <= sp
    ensures sp' < top - PAGE_SIZE ==> Touched(sp', len, top / PAGE_SIZE - 2)
  {
  }

  /** Strings pushed so far, all above `sp` and below `top`; nothing outside that range has changed. */
  ghost predicate StringsAt(vm0: Vm, vm: Vm, d: nat, top: nat, sp: nat, args: seq<seq<Byte>>, ptrs: seq<nat>) {
    && StackReady(vm, d, top) && InStack(top, sp) && |ptrs| <= |args| && |ptrs| <= MAX_ARG
    && (forall k :: 0 <= k < |ptrs| ==> sp <= ptrs[k] && ptrs[k] + |args[k]| < top)
    && (forall k :: 0 <= k < |ptrs| ==> StringIs(vm.mem, d, ptrs[k], args[k]))
    && (forall x :: 0 <= x < KERNBASE && !(sp <= x < top) ==> Peek(vm.mem, d, x) == Peek(vm0.mem, d, x))
  }

  /** A write below `sp` leaves the strings above it alone. */
  lemma StringKept(vm: Vm, vm': Vm, d: nat, va: nat, data: seq<Byte>, x: nat, s: seq<Byte>)
    requires IsWritten(vm, vm', d, va, data) && StringIs(vm.mem, d, x, s) && va + |data| <= x && x + |s| < KERNBASE
    ensures StringIs(vm'.mem, d, x, s)
  {
    hide Peek;
  }

  lemma WrittenAt(vm: Vm, vm': Vm, d: nat, va: nat, data: seq<Byte>, k: nat)
    requires IsWritten(vm, vm', d, va, data) && k < |data|
    ensures Peek(vm'.mem, d, va + k) == Some(data[k])
  {
    hide Peek;
  }

  lemma StringWritten(vm: Vm, vm': Vm, d: nat, va: nat, s: seq<Byte>)
    requires IsWritten(vm, vm', d, va, s + [0])
    ensures StringIs(vm'.mem, d, va, s)
  {
    hide Peek;
    forall k | 0 <= k <= |s| ensures Peek(vm'.mem, d, va + k) == Some(CharAt(s, k)) {
      WrittenAt(vm, vm', d, va, s + [0], k);
    }
  }

  lemma PushStep(vm0: Vm, vm: Vm, vm': Vm, d: nat, top: nat, sp: nat, sp': nat, args: seq<seq<Byte>>, ptrs: seq<nat>)
    requires StringsAt(vm0, vm, d, top, sp, args, ptrs) && |ptrs| < |args| && |ptrs| < MAX_ARG
    requires sp' == Lowered(sp, |args[|ptrs|]| + 1) && IsCopyOut(vm, vm', d, sp', args[|ptrs|] + [0], Granted)
    ensures StringsAt(vm0, vm', d, top, sp', args, ptrs + [sp'])
  {
    hide Inv;
    hide Lookup;
    hide OthersKept;
    hide Peek;
    hide StringIs;
    var n, s := |ptrs|, args[|ptrs|];
    StaysInStack(vm, vm', d, top, sp, sp', s + [0]);
    hide SameMapping;
    hide StackReady;
    StringWritten(vm, vm', d, sp', s);
    forall k | 0 <= k < n + 1 ensures StringIs(vm'.mem, d, (ptrs + [sp'])[k], args[k]) {
      if k < n { StringKept(vm, vm', d, sp', s + [0], ptrs[k], args[k]); }
    }
  }

  lemma {:induction false} PushedOk(vm0: Vm, vm: Vm, d: nat, top: nat, sp: nat, args: seq<seq<Byte>>, ptrs: seq<nat>)
    requires StringsAt(vm0, vm, d, top, sp, args, ptrs)
    ensures var (vm', sp', ptrs', a) := Pushed(vm, d, sp, args, ptrs);
            a == Granted ==> StringsAt(vm0, vm', d, top, sp', args, ptrs') && |ptrs'| == |args|
    decreases |args| - |ptrs|
  {
    hide Inv;
    hide Lookup;
    hide IsCopyOut;
    hide CopyOut;
    hide Peek;
    hide StringIs;
    if |ptrs| < |args| && |ptrs| < MAX_ARG {
      var s := args[|ptrs|] + [0];
      var sp1 := Lowered(sp, |s|);
      CopyOutOk(vm, d, sp1, s);
      var (vm1, a) := CopyOut(vm, d, sp1, s);
      if a == Granted {
        PushStep(vm0, vm, vm1, d, top, sp, sp1, args, ptrs);
        PushedOk(vm0, vm1, d, top, sp1, args, ptrs + [sp1]);
      }
    }
  }

  /** The words lie below the strings, in the stack page, and can be read back. */
  lemma WordsStep(vm0: Vm, vm: Vm, vm': Vm, d: nat, top: nat, sp: nat, sp': nat, args: seq<seq<Byte>>, ptrs: seq<nat>)
    requires StringsAt(vm0, vm, d, top, sp, args, ptrs) && |ptrs| == |args|
    requires sp' == (sp - (4 + |ptrs|) * 4) % TWO_32 &&
               IsCopyOut(vm, vm', d, sp', WordsBytes(Words(sp, ptrs)), Granted)
    ensures InStack(top, sp') && StackReady(vm', d, top) && Decodes(vm'.mem, d, sp', args, ptrs)
    ensures forall x :: 0 <= x < KERNBASE && !(sp' <= x < top) ==> Peek(vm'.mem, d, x) == Peek(vm0.mem, d, x)
  {
    hide Inv;
    hide Lookup;
    hide OthersKept;
    hide Peek;
    hide StringIs;
    hide WordsBytes;
    hide Words;
    hide WordIs;
    var words := Words(sp, ptrs);
    WordsCount(sp, ptrs);
    StaysInStack(vm, vm', d, top, sp, sp', WordsBytes(words));
    hide SameMapping;
    hide StackReady;
    WordsFound(vm, vm', d, sp, sp', ptrs);
    forall k | 0 <= k < |args| ensures StringIs(vm'.mem, d, ptrs[k], args[k]) {
      StringKept(vm, vm', d, sp', WordsBytes(words), ptrs[k], args[k]);
    }
  }

  lemma WordsCount(sp: nat, ptrs: seq<nat>)
    ensures |WordsBytes(Words(sp, ptrs))| == 4 * (4 + |ptrs|)
    ensures sp % 4 == 0 ==> Lowered(sp, 4 * (4 + |ptrs|)) == (sp - (4 + |ptrs|) * 4) % TWO_32
  {
  }

  lemma WordFound(vm: Vm, vm': Vm, d: nat, va: nat, words: seq<nat>, k: nat)
    requires k < |words| && IsWritten(vm, vm', d, va, WordsBytes(words))
    ensures WordIs(vm'.mem, d, va + 4 * k, words[k])
  {
    hide Peek;
    hide IsWritten;
    hide WordsBytes;
    hide WordBytes;
    forall j: nat | j < 4 ensures Peek(vm'.mem, d, va + 4 * k + j) == Some(WordBytes(words[k])[j]) {
      WordByte(words, k, j);
      WrittenAt(vm, vm', d, va, WordsBytes(words), 4 * k + j);
    }
  }

  lemma WordByte(words: seq<nat>, k: nat, j: nat)
    requires k < |words| && j < 4
    ensures 4 * k + j < |WordsBytes(words)| && WordsBytes(words)[4 * k + j] == WordBytes(words[k])[j]
  {
    WordAt(words, k);
    hide WordsBytes;
    hide WordBytes;
    var b := WordsBytes(words);
    assert b[4 * k..4 * k + 4][j] == b[4 * k + j];
  }

  lemma WordsFound(vm: Vm, vm': Vm, d: nat, sp: nat, sp': nat, ptrs: seq<nat>)
    requires IsWritten(vm, vm', d, sp', WordsBytes(Words(sp, ptrs))) && sp' == sp - (4 + |ptrs|) * 4 && sp < TWO_32
    ensures WordIs(vm'.mem, d, sp', 0xffff_ffff) && WordIs(vm'.mem, d, sp' + 4, |ptrs|) &&
              WordIs(vm'.mem, d, sp' + 8, sp' + 12)
    ensures forall k :: 0 <= k < |ptrs| ==> WordIs(vm'.mem, d, sp' + 12 + 4 * k, ptrs[k])
    ensures WordIs(vm'.mem, d, sp' + 12 + 4 * |ptrs|, 0)
  {
    hide Peek;
    hide IsWritten;
    hide WordsBytes;
    hide WordIs;
    var words := Words(sp, ptrs);
    WordFound(vm, vm', d, sp', words, 0);
    WordFound(vm, vm', d, sp', words, 1);
    WordFound(vm, vm', d, sp', words, 2);
    WordFound(vm, vm', d, sp', words, 3 + |ptrs|);
    forall k | 0 <= k < |ptrs| ensures WordIs(vm'.mem, d, sp' + 12 + 4 * k, ptrs[k]) {
      WordFound(vm, vm', d, sp', words, 3 + k);
    }
  }

  /**
   If every copy is granted, the program finds its arguments, whatever they are; the block lies in the
   stack page, and no other byte of any address space and no mapping has changed.
   */
  lemma StackDecodes(vm: Vm, d: nat, top: nat, args: seq<seq<Byte>>)
    requires StackReady(vm, d, top)
    ensures var (vm', sp, ptrs, a) := StackBuilt(vm, d, top, args);
            && SameMapping(vm, vm', d)
            && (a == Granted ==> InStack(top, sp) && Decodes(vm'.mem, d, sp, args, ptrs) && |args| <= MAX_ARG)
            && (a == Granted ==> forall x :: 0 <= x < KERNBASE && !(sp <= x < top) ==>
                 Peek(vm'.mem, d, x) == Peek(vm.mem, d, x))
            && (|args| > MAX_ARG ==> a != Granted)
  {
    hide Inv;
    hide Lookup;
    hide IsCopyOut;
    hide CopyOut;
    hide Pushed;
    hide Peek;
    hide StringIs;
    hide Decodes;
    hide Closed;
    hide SameMapping;
    hide StringsAt;
    hide WordsBytes;
    ReadyClosed(vm, d, top, args);
    hide StackReady;
    PushedClosed(vm, d, top, args, []);
    PushedOk(vm, vm, d, top, top, args, []);
    var (vm1, sp, ptrs, a) := Pushed(vm, d, top, args, []);
    MappingClosed(vm, vm1, d);
    if a == Granted {
      StringsFacts(vm, vm1, d, top, sp, args, ptrs);
      var sp1 := (sp - (4 + |ptrs|) * 4) % TWO_32;
      CopyOutOk(vm1, d, sp1, WordsBytes(Words(sp, ptrs)));
      var (vm2, b) := CopyOut(vm1, d, sp1, WordsBytes(Words(sp, ptrs)));
      CopyOutMapping(vm1, vm2, d, sp1, WordsBytes(Words(sp, ptrs)), b);
      SameMappingTrans(vm, vm1, vm2, d);
      if b == Granted { WordsStep(vm, vm1, vm2, d, top, sp, sp1, args, ptrs); }
    }
  }

  lemma ReadyClosed(vm: Vm, d: nat, top: nat, args: seq<seq<Byte>>)
    requires StackReady(vm, d, top)
    ensures Closed(vm, d) && StringsAt(vm, vm, d, top, top, args, [])
  {
  }

  lemma StringsFacts(vm0: Vm, vm: Vm, d: nat, top: nat, sp: nat, args: seq<seq<Byte>>, ptrs: seq<nat>)
    requires StringsAt(vm0, vm, d, top, sp, args, ptrs)
    ensures |ptrs| <= MAX_ARG && InStack(top, sp) && StackReady(vm, d, top) && Closed(vm, d) && 2 * PAGE_SIZE <= top
  {
  }

  lemma CopyOutMapping(vm: Vm, vm': Vm, d: nat, va: nat, data: seq<Byte>, a: Access)
    requires IsCopyOut(vm, vm', d, va, data, a)
    ensures SameMapping(vm, vm', d)
  {
  }

  // ---------------------------------------------------------------- how the stack block ends

  /** Every page below `top` has a page table. */
  ghost predicate Tabled(vm: Vm, d: nat, top: nat) {
    forall v :: 0 <= v < top / PAGE_SIZE ==> !NoTable(vm.mem, d, v)
  }

  /** A new stack as `exec` makes it: the stack page is open, and there is a table for everything below. */
  ghost predicate StackOpen(vm: Vm, d: nat, top: nat) {
    StackReady(vm, d, top) && Accessible(vm.mem, d, top / PAGE_SIZE - 1) && Tabled(vm, d, top)
  }

  /** Where the stack pointer is after `k` strings, were they all to fit. */
  ghost function SpAfter(top: nat, args: seq<seq<Byte>>, k: nat): nat
    requires k <= |args|
  {
    if k == 0 then top else Lowered(SpAfter(top, args, k - 1), |args[k - 1]| + 1)
  }

  /** There is room for `len` bytes in the stack page below `sp`. */
  ghost predicate Room(top: nat, sp: nat, len: nat) {
    len <= sp - (top - PAGE_SIZE)
  }

  /** The first `k` strings fit in the stack page. */
  ghost predicate Fit(top: nat, args: seq<seq<Byte>>, k: nat)
    requires k <= |args|
  {
    forall i :: 0 <= i < k ==> Room(top, SpAfter(top, args, i), |args[i]| + 1)
  }

  /** String `k` is reached, is longer than all memory below the stack pointer, and wraps to where no page table is. */
  ghost predicate WildAt(mem: Memory, d: nat, top: nat, args: seq<seq<Byte>>, k: nat) {
    && k < |args| && k < MAX_ARG && Fit(top, args, k)
    && |args[k]| + 1 > SpAfter(top, args, k)
    && NoTable(mem, d, Lowered(SpAfter(top, args, k), |args[k]| + 1) / PAGE_SIZE)
  }

  lemma NotWildBelow(vm: Vm, vm': Vm, d: nat, top: nat, sp: nat, sp': nat, data: seq<Byte>, a: Access)
    requires StackReady(vm, d, top) && Tabled(vm, d, top) && InStack(top, sp) && data != [] && |data| <= sp
    requires sp' == Lowered(sp, |data|) && IsCopyOut(vm, vm', d, sp', data, a)
    ensures a != Wild
  {
    hide Inv;
    hide Lookup;
    hide OthersKept;
    hide TableFor;
    forall v: nat | Touched(sp', |data|, v) ensures v < top / PAGE_SIZE { }
  }

  lemma OpenKept(vm: Vm, vm': Vm, d: nat, top: nat)
    requires StackOpen(vm, d, top) && SameMapping(vm, vm', d)
    ensures StackOpen(vm', d, top)
    ensures forall v :: 0 <= v < PAGES ==> (NoTable(vm'.mem, d, v) <==> NoTable(vm.mem, d, v))
  {
    hide Inv;
    hide Lookup;
    hide OthersKept;
    hide TableFor;
    forall v | 0 <= v < PAGES ensures NoTable(vm'.mem, d, v) <==> NoTable(vm.mem, d, v) {
      assert TableFor(vm'.mem, d, v / ENTRIES) == TableFor(vm.mem, d, v / ENTRIES);
    }
  }

  /** A copy within one page that is open is granted. */
  lemma GrantedInPage(vm: Vm, d: nat, va: nat, data: seq<Byte>)
    requires Closed(vm, d) && va < TWO_32 && data != [] && va % PAGE_SIZE + |data| <= PAGE_SIZE
    requires Accessible(vm.mem, d, va / PAGE_SIZE)
    ensures CopyOut(vm, d, va, data).1 == Granted
  {
    hide Closed;
    hide Chunked;
    ChunkedOk(vm, d, va, data);
    var vm1 := Chunked(vm, d, va, data);
    MappingClosed(vm, vm1, d);
    hide SameMapping;
    hide IsWritten;
    assert AccessTo(vm.mem, d, va / PAGE_SIZE) == Granted;
    assert data[Chunk(va, |data|)..] == [];
    assert CopyOut(vm1, d, NextPage(va), []).1 == Granted;
  }

  lemma RoomPage(top: nat, sp: nat, len: nat)
    requires top % PAGE_SIZE == 0 && 2 * PAGE_SIZE <= top <= KERNBASE && InStack(top, sp)
    requires len > 0 && Room(top, sp, len)
    ensures var sp' := Lowered(sp, len);
            InStack(top, sp') && sp' / PAGE_SIZE == top / PAGE_SIZE - 1 && sp' % PAGE_SIZE + len <= PAGE_SIZE
  {
    assert (sp - len) % TWO_32 == sp - len;
  }

  /** A copy that wraps starts in the kernel half, and so ends with its first page. */
  lemma WrappedCopy(vm: Vm, d: nat, sp: nat, data: seq<Byte>)
    requires Closed(vm, d) && 4 <= sp < |data| <= KERNBASE && sp % 4 == 0
    ensures var sp' := Lowered(sp, |data|);
            && KERNBASE <= sp' < TWO_32
            && CopyOut(vm, d, sp', data).1 == if NoTable(vm.mem, d, sp' / PAGE_SIZE) then Wild else Denied
  {
    ModUp(sp - |data|);
    var sp' := Lowered(sp, |data|);
    hide Inv;
    assert !Accessible(vm.mem, d, sp' / PAGE_SIZE);
  }

  /** One string: what becomes of it, from sizes and tables alone. */
  lemma PushFate(vm: Vm, d: nat, top: nat, sp: nat, data: seq<Byte>)
    requires StackOpen(vm, d, top) && InStack(top, sp) && 0 < |data| <= KERNBASE
    ensures var sp' := Lowered(sp, |data|);
            var (vm', a) := CopyOut(vm, d, sp', data);
            && (a == Granted <==> Room(top, sp, |data|))
            && (a == Wild <==> |data| > sp && NoTable(vm.mem, d, sp' / PAGE_SIZE))
            && (a == Granted ==> InStack(top, sp'))
            && SameMapping(vm, vm', d)
  {
    hide Inv;
    hide Lookup;
    hide TableFor;
    hide CopyOut;
    hide SameMapping;
    hide Tabled;
    hide Accessible;
    hide Closed;
    hide IsWritten;
    var sp' := Lowered(sp, |data|);
    OpenFacts(vm, d, top);
    CopyOutOk(vm, d, sp', data);
    var (vm', a) := CopyOut(vm, d, sp', data);
    if Room(top, sp, |data|) {
      RoomPage(top, sp, |data|);
      GrantedInPage(vm, d, sp', data);
    } else {
      if a == Granted { StaysInStack(vm, vm', d, top, sp, sp', data); }
      if |data| > sp { WrappedCopy(vm, d, sp, data); } else { NotWildBelow(vm, vm', d, top, sp, sp', data, a); }
    }
  }

  lemma OpenFacts(vm: Vm, d: nat, top: nat)
    requires StackOpen(vm, d, top)
    ensures Closed(vm, d) && Accessible(vm.mem, d, top / PAGE_SIZE - 1) && Tabled(vm, d, top)
    ensures top % PAGE_SIZE == 0 && 2 * PAGE_SIZE <= top <= KERNBASE
  {
  }

  /** Arguments lie in user memory, and so are shorter than it. */
  ghost predicate Storable(args: seq<seq<Byte>>) {
    forall k :: 0 <= k < |args| ==> |args[k]| < KERNBASE
  }

  lemma FitStep(top: nat, args: seq<seq<Byte>>, k: nat)
    requires k < |args|
    ensures Fit(top, args, k + 1) <==> Fit(top, args, k) && Room(top, SpAfter(top, args, k), |args[k]| + 1)
  {
  }

  lemma FitNone(top: nat, args: seq<seq<Byte>>)
    requires top % PAGE_SIZE == 0 && PAGE_SIZE <= top
    ensures Fit(top, args, 0) && SpAfter(top, args, 0) == top && InStack(top, top)
  {
  }

  /** Some string from number `n` on goes astray. */
  ghost predicate WildFrom(mem: Memory, d: nat, top: nat, args: seq<seq<Byte>>, n: nat) {
    exists k :: n <= k && WildAt(mem, d, top, args, k)
  }

  /** Later strings are reached only if the earlier ones fit. */
  lemma NotReached(mem: Memory, d: nat, top: nat, args: seq<seq<Byte>>, n: nat)
    requires n < |args| && n < MAX_ARG && Fit(top, args, n) && !Room(top, SpAfter(top, args, n), |args[n]| + 1)
    ensures !Fit(top, args, |args|)
    ensures WildFrom(mem, d, top, args, n) <==>
              (|args[n]| + 1 > SpAfter(top, args, n) &&
               NoTable(mem, d, Lowered(SpAfter(top, args, n), |args[n]| + 1) / PAGE_SIZE))
  {
    hide SpAfter;
    hide Lowered;
    hide NoTable;
    assert WildAt(mem, d, top, args, n) ==> WildFrom(mem, d, top, args, n);
  }

  /** A string that fits is not one of those. */
  lemma WildLater(mem: Memory, d: nat, top: nat, args: seq<seq<Byte>>, n: nat)
    requires n < |args| && PAGE_SIZE <= top && Room(top, SpAfter(top, args, n), |args[n]| + 1)
    ensures WildFrom(mem, d, top, args, n) <==> WildFrom(mem, d, top, args, n + 1)
  {
    hide SpAfter;
    hide Lowered;
    hide NoTable;
    hide Fit;
    assert !WildAt(mem, d, top, args, n);
    hide WildAt;
  }

  lemma NoneWild(mem: Memory, d: nat, top: nat, args: seq<seq<Byte>>, n: nat)
    requires n >= |args| || n >= MAX_ARG
    ensures !WildFrom(mem, d, top, args, n)
  {
  }

  /** How pushing the strings from number `n` on ends. */
  ghost predicate PushEnds(vm: Vm, d: nat, top: nat, args: seq<seq<Byte>>, n: nat, r: (Vm, nat, seq<nat>, Access)) {
    && (r.3 == Granted <==> |args| <= MAX_ARG && Fit(top, args, |args|))
    && (r.3 == Wild <==> WildFrom(vm.mem, d, top, args, n))
    && (r.3 == Granted ==> r.1 == SpAfter(top, args, |args|) && InStack(top, r.1) && |r.2| == |args|)
    && SameMapping(vm, r.0, d)
  }

  /** A string that fits leaves the rest to decide. */
  lemma PushGoesOn(vm: Vm, vm1: Vm, d: nat, top: nat, args: seq<seq<Byte>>, n: nat, r: (Vm, nat, seq<nat>, Access))
    requires StackOpen(vm, d, top) && SameMapping(vm, vm1, d) && n < |args|
    requires Room(top, SpAfter(top, args, n), |args[n]| + 1) && PushEnds(vm1, d, top, args, n + 1, r)
    ensures PushEnds(vm, d, top, args, n, r)
  {
    hide Fit;
    hide SpAfter;
    hide WildFrom;
    hide NoTable;
    hide InStack;
    hide Room;
    OpenFacts(vm, d, top);
    OpenKept(vm, vm1, d, top);
    SameMappingTrans(vm, vm1, r.0, d);
    hide SameMapping;
    hide StackOpen;
    WildKept(vm, vm1, d, top, args, n + 1);
    WildLater(vm.mem, d, top, args, n);
  }

  /** A string that does not fit ends it. */
  lemma PushStops(vm: Vm, vm1: Vm, d: nat, top: nat, args: seq<seq<Byte>>, n: nat, r: (Vm, nat, seq<nat>, Access))
    requires SameMapping(vm, vm1, d) && n < |args| && n < MAX_ARG && Fit(top, args, n) && r.0 == vm1 && r.3 != Granted
    requires !Room(top, SpAfter(top, args, n), |args[n]| + 1)
    requires r.3 == Wild <==>
               (|args[n]| + 1 > SpAfter(top, args, n) &&
                NoTable(vm.mem, d, Lowered(SpAfter(top, args, n), |args[n]| + 1) / PAGE_SIZE))
    ensures PushEnds(vm, d, top, args, n, r)
  {
    hide Fit;
    hide SpAfter;
    hide WildFrom;
    hide NoTable;
    hide Room;
    hide Lowered;
    hide SameMapping;
    NotReached(vm.mem, d, top, args, n);
  }

  lemma PushedStep(vm: Vm, d: nat, sp: nat, args: seq<seq<Byte>>, ptrs: seq<nat>)
    requires Closed(vm, d) && |ptrs| < |args| && |ptrs| < MAX_ARG
    ensures var s := args[|ptrs|] + [0];
            var sp1 := Lowered(sp, |s|);
            var (vm1, a) := CopyOut(vm, d, sp1, s);
            && (a == Granted ==> Closed(vm1, d))
            && (a == Granted ==> Pushed(vm, d, sp, args, ptrs) == Pushed(vm1, d, sp1, args, ptrs + [sp1]))
            && (a != Granted ==> Pushed(vm, d, sp, args, ptrs) == (vm1, sp1, ptrs, a))
  {
    hide Lowered;
    var s := args[|ptrs|] + [0];
    var sp1 := Lowered(sp, |s|);
    CopyOutOk(vm, d, sp1, s);
    var (vm1, a) := CopyOut(vm, d, sp1, s);
    CopyOutMapping(vm, vm1, d, sp1, s, a);
    hide CopyOut;
    hide IsCopyOut;
    MappingClosed(vm, vm1, d);
    hide Closed;
    hide SameMapping;
  }

  lemma PushedEnd(vm: Vm, d: nat, top: nat, sp: nat, args: seq<seq<Byte>>, ptrs: seq<nat>)
    requires Closed(vm, d) && InStack(top, sp) && |ptrs| <= |args| && (|ptrs| == |args| || |ptrs| >= MAX_ARG)
    requires |ptrs| <= MAX_ARG && sp == SpAfter(top, args, |ptrs|) && Fit(top, args, |ptrs|)
    ensures PushEnds(vm, d, top, args, |ptrs|, Pushed(vm, d, sp, args, ptrs))
  {
    hide SameMapping;
    hide Fit;
    hide SpAfter;
    hide WildFrom;
    hide InStack;
    MappingRefl(vm, d);
    NoneWild(vm.mem, d, top, args, |ptrs|);
  }

  /** The strings from number |ptrs| on. */
  lemma {:induction false} PushedFate(vm: Vm, d: nat, top: nat, sp: nat, args: seq<seq<Byte>>, ptrs: seq<nat>)
    requires StackOpen(vm, d, top) && InStack(top, sp) && |ptrs| <= |args| && |ptrs| <= MAX_ARG && Storable(args)
    requires sp == SpAfter(top, args, |ptrs|) && Fit(top, args, |ptrs|)
    ensures Closed(vm, d) && PushEnds(vm, d, top, args, |ptrs|, Pushed(vm, d, sp, args, ptrs))
    decreases |args| - |ptrs|
  {
    hide CopyOut;
    hide SameMapping;
    hide StackOpen;
    hide Fit;
    hide SpAfter;
    hide NoTable;
    hide WildFrom;
    hide Room;
    hide Lowered;
    hide InStack;
    hide PushEnds;
    hide Pushed;
    OpenFacts(vm, d, top);
    hide Closed;
    var n := |ptrs|;
    if n == |args| || n >= MAX_ARG {
      PushedEnd(vm, d, top, sp, args, ptrs);
    } else {
      var s := args[n] + [0];
      var sp1 := Lowered(sp, |s|);
      PushFate(vm, d, top, sp, s);
      PushedStep(vm, d, sp, args, ptrs);
      var (vm1, a) := CopyOut(vm, d, sp1, s);
      if a == Granted {
        FitStep(top, args, n);
        SpStep(top, args, n);
        OpenKept(vm, vm1, d, top);
        PushedFate(vm1, d, top, sp1, args, ptrs + [sp1]);
        PushGoesOn(vm, vm1, d, top, args, n, Pushed(vm1, d, sp1, args, ptrs + [sp1]));
      } else {
        PushStops(vm, vm1, d, top, args, n, Pushed(vm, d, sp, args, ptrs));
      }
    }
  }

  lemma SpStep(top: nat, args: seq<seq<Byte>>, k: nat)
    requires k < |args|
    ensures SpAfter(top, args, k + 1) == Lowered(SpAfter(top, args, k), |args[k]| + 1)
  {
  }

  /** Which strings would go astray does not depend on the bytes in memory. */
  lemma WildKept(vm: Vm, vm': Vm, d: nat, top: nat, args: seq<seq<Byte>>, n: nat)
    requires forall v :: 0 <= v < PAGES ==> (NoTable(vm'.mem, d, v) <==> NoTable(vm.mem, d, v))
    ensures WildFrom(vm'.mem, d, top, args, n) <==> WildFrom(vm.mem, d, top, args, n)
  {
    hide NoTable;
    hide Fit;
    hide SpAfter;
    assert forall k :: WildAt(vm'.mem, d, top, args, k) <==> WildAt(vm.mem, d, top, args, k);
  }

  /**
   Laying out the arguments succeeds exactly when there are at most 32, and they and the words below them fit in the
   stack page.  It reads through a null page-table pointer exactly when some argument, after others that fit, is longer
   than all the memory below the stack pointer and wraps to an address that has no page table.
   */
  lemma StackExactly(vm: Vm, d: nat, top: nat, args: seq<seq<Byte>>)
    requires StackOpen(vm, d, top) && Storable(args)
    ensures Closed(vm, d)
    ensures var n, a := |args|, StackBuilt(vm, d, top, args).3;
            && (a == Granted <==>
                  n <= MAX_ARG && Fit(top, args, n) && Room(top, SpAfter(top, args, n), 4 * (4 + n)))
            && (a == Wild <==> exists k :: WildAt(vm.mem, d, top, args, k))
  {
    hide CopyOut;
    hide Pushed;
    hide SameMapping;
    hide Fit;
    hide StackOpen;
    hide WordsBytes;
    hide SpAfter;
    hide WildAt;
    OpenFacts(vm, d, top);
    hide Closed;
    FitNone(top, args);
    PushedFate(vm, d, top, top, args, []);
    var (vm1, sp, ptrs, a) := Pushed(vm, d, top, args, []);
    MappingClosed(vm, vm1, d);
    if a == Granted {
      OpenKept(vm, vm1, d, top);
      OpenFacts(vm1, d, top);
      var words := WordsBytes(Words(sp, ptrs));
      WordsCount(sp, ptrs);
      PushFate(vm1, d, top, sp, words);
    }
  }

  /** As long as no single argument is longer than all the memory below the stack, no copy goes astray. */
  lemma NeverWild(vm: Vm, d: nat, top: nat, args: seq<seq<Byte>>)
    requires StackOpen(vm, d, top)
    requires forall k :: 0 <= k < |args| ==> |args[k]| < top - PAGE_SIZE
    ensures Closed(vm, d) && StackBuilt(vm, d, top, args).3 != Wild
  {
    hide StackBuilt;
    hide Closed;
    hide StackOpen;
    hide WildAt;
    OpenFacts(vm, d, top);
    StackExactly(vm, d, top, args);
    forall k ensures !WildAt(vm.mem, d, top, args, k) { NotWild(vm.mem, d, top, args, k); }
  }

  lemma NotWild(mem: Memory, d: nat, top: nat, args: seq<seq<Byte>>, k: nat)
    requires top % PAGE_SIZE == 0 && 2 * PAGE_SIZE <= top <= KERNBASE
    requires forall i :: 0 <= i < |args| ==> |args[i]| < top - PAGE_SIZE
    ensures !WildAt(mem, d, top, args, k)
  {
    hide SpAfter;
    hide Lowered;
    hide NoTable;
    if k < |args| && Fit(top, args, k) { FitStays(top, args, k); }
  }

  lemma {:induction false} FitStays(top: nat, args: seq<seq<Byte>>, k: nat)
    requires k <= |args| && Fit(top, args, k) && top % PAGE_SIZE == 0 && 2 * PAGE_SIZE <= top <= KERNBASE
    ensures InStack(top, SpAfter(top, args, k))
  {
    hide Lowered;
    hide Fit;
    hide SpAfter;
    hide Room;
    hide InStack;
    if k == 0 {
      FitNone(top, args);
    } else {
      FitStep(top, args, k - 1);
      SpStep(top, args, k - 1);
      FitStays(top, args, k - 1);
      RoomPage(top, SpAfter(top, args, k - 1), |args[k - 1]| + 1);
    }
  }

  /** The kernel half as every directory has it: no table between the direct map and the devices. */
  ghost predicate KernelGap(mem: Memory, d: nat) {
    forall i :: 568 <= i < 1016 ==> TableFor(mem, d, i).None?
  }

  lemma WrapsTo(top: nat, len: nat)
    requires len == top + 0x200_1000 <= KERNBASE
    ensures Lowered(top, len) == 0xFDFF_F000
  {
    assert (top - len) % TWO_32 == 0xFDFF_F000;
  }

  /** An argument longer than all memory below the stack, and that wraps to the gap, is read through a null pointer. */
  lemma WildArgument(vm: Vm, d: nat, top: nat, s: seq<Byte>)
    requires StackOpen(vm, d, top) && KernelGap(vm.mem, d) && top < |s| + 1 <= KERNBASE
    requires 0x8E00_0000 <= Lowered(top, |s| + 1) < 0xFE00_0000
    ensures Closed(vm, d) && StackBuilt(vm, d, top, [s]).3 == Wild
  {
    hide StackBuilt;
    hide Closed;
    OpenFacts(vm, d, top);
    StackExactly(vm, d, top, [s]);
    hide StackOpen;
    hide TableFor;
    FitNone(top, [s]);
    hide SpAfter;
    hide Fit;
    assert NoTable(vm.mem, d, Lowered(top, |s| + 1) / PAGE_SIZE);
    hide Lowered;
    assert WildAt(vm.mem, d, top, [s], 0);
  }

  /** For every stack, one such length: 32 MB and a page more than all memory below it. */
  lemma WildLength(vm: Vm, d: nat, top: nat, s: seq<Byte>)
    requires StackOpen(vm, d, top) && KernelGap(vm.mem, d) && |s| + 1 == top + 0x200_1000 <= KERNBASE
    ensures Closed(vm, d) && StackBuilt(vm, d, top, [s]).3 == Wild
  {
    hide StackOpen;
    hide KernelGap;
    hide StackBuilt;
    WrapsTo(top, |s| + 1);
    WildArgument(vm, d, top, s);
  }
}
