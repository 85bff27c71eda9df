/**
 The user-level heap allocator (`malloc`, `free`, `morecore`).

 Memory is an array of header-sized units; a "pointer" is a unit index and 0 is
 the null pointer.  `base` is the static header of that name: it lies below every
 unit that `sbrk` hands out, because a process's data segment lies below its heap.
 */
module Heap {
  import opened Basics

  /** One header unit, as the allocator reads it. */
  datatype Header = Header(ptr: nat, size: nat)

  // ---------------------------------------------------------------- blocks

  predicate Inside(a: nat, n: nat, u: nat) {
    a <= u < a + n
  }

  /** The units of one block. */
  function Range(a: nat, n: nat): (r: set<nat>)
    ensures forall u: nat :: u in r <==> Inside(a, n, u)
  {
    set u: nat | u < a + n && Inside(a, n, u)
  }

  ghost predicate InBlock(blocks: map<nat, nat>, u: nat) {
    exists a :: a in blocks && Inside(a, blocks[a], u)
  }

  ghost predicate Disjoint(blocks: map<nat, nat>) {
    forall a, b :: a in blocks && b in blocks && a < b ==> a + blocks[a] <= b
  }

  /** The blocks (free and live together) are a partition of the units `owned`. */
  ghost predicate Tiles(blocks: map<nat, nat>, owned: set<nat>) {
    && (forall a :: a in blocks ==> blocks[a] > 0)
    && Disjoint(blocks)
    && (forall u: nat :: u in owned <==> InBlock(blocks, u))
  }

  lemma JoinCovers(blocks: map<nat, nat>, a: nat, b: nat, u: nat)
    requires a in blocks && b in blocks && a + blocks[a] == b && a != b
    ensures InBlock((blocks - {b})[a := blocks[a] + blocks[b]], u) <==> InBlock(blocks, u)
  {
    var blocks' := (blocks - {b})[a := blocks[a] + blocks[b]];
    if InBlock(blocks, u) {
      var c :| c in blocks && Inside(c, blocks[c], u);
      assert Inside(if c == b then a else c, blocks'[if c == b then a else c], u);
    }
    if InBlock(blocks', u) {
      var c :| c in blocks' && Inside(c, blocks'[c], u);
      assert Inside(c, blocks[c], u) || Inside(b, blocks[b], u);
    }
  }

  /** Joining two touching blocks keeps the partition. */
  lemma JoinTiles(blocks: map<nat, nat>, owned: set<nat>, a: nat, b: nat)
    requires Tiles(blocks, owned) && a in blocks && b in blocks && a + blocks[a] == b
    ensures Tiles((blocks - {b})[a := blocks[a] + blocks[b]], owned)
  {
    forall u: nat ensures InBlock((blocks - {b})[a := blocks[a] + blocks[b]], u) <==> u in owned {
      JoinCovers(blocks, a, b, u);
    }
  }

  lemma CutCovers(blocks: map<nat, nat>, a: nat, n: nat, u: nat)
    requires a in blocks && 0 < n < blocks[a] && a + blocks[a] - n !in blocks
    ensures InBlock(blocks[a := blocks[a] - n][a + blocks[a] - n := n], u) <==> InBlock(blocks, u)
  {
    var b := a + blocks[a] - n;
    var blocks' := blocks[a := blocks[a] - n][b := n];
    if InBlock(blocks, u) {
      var c :| c in blocks && Inside(c, blocks[c], u);
      assert Inside(c, blocks'[c], u) || Inside(b, blocks'[b], u);
    }
    if InBlock(blocks', u) {
      var c :| c in blocks' && Inside(c, blocks'[c], u);
      assert Inside(if c == b then a else c, blocks[if c == b then a else c], u);
    }
  }

  /** Cutting a block in two keeps the partition. */
  lemma CutTile(blocks: map<nat, nat>, owned: set<nat>, a: nat, n: nat)
    requires Tiles(blocks, owned) && a in blocks && 0 < n < blocks[a]
    ensures Tiles(blocks[a := blocks[a] - n][a + blocks[a] - n := n], owned)
  {
    assert a + blocks[a] - n !in blocks;
    forall u: nat ensures InBlock(blocks[a := blocks[a] - n][a + blocks[a] - n := n], u) <==> u in owned {
      CutCovers(blocks, a, n, u);
    }
  }

  /** A fresh region above every block extends the partition. */
  lemma AddTile(blocks: map<nat, nat>, owned: set<nat>, a: nat, n: nat)
    requires Tiles(blocks, owned) && n > 0 && forall b :: b in blocks ==> b + blocks[b] <= a
    ensures Tiles(blocks[a := n], owned + Range(a, n))
  {
    var blocks' := blocks[a := n];
    forall u: nat ensures u in owned + Range(a, n) <==> InBlock(blocks', u) {
      if u in owned {
        var c :| c in blocks && Inside(c, blocks[c], u);
        assert Inside(c, blocks'[c], u);
      } else if u in Range(a, n) {
        assert Inside(a, blocks'[a], u);
      }
      if InBlock(blocks', u) {
        var c :| c in blocks' && Inside(c, blocks'[c], u);
        assert c == a || Inside(c, blocks[c], u);
      }
    }
  }

  // ---------------------------------------------------------------- the circular list

  /** The successor of position `i` in the circular list `f`. */
  function Next(f: seq<nat>, i: nat): nat
    requires i < |f|
  {
    if i + 1 < |f| then f[i + 1] else f[0]
  }

  ghost predicate Sorted(f: seq<nat>) {
    forall i, j :: 0 <= i < j < |f| ==> f[i] < f[j]
  }

  /** The `ptr` fields form one cycle through `f`, in that order. */
  ghost predicate Linked(m: seq<Header>, f: seq<nat>) {
    && (forall i :: 0 <= i < |f| ==> f[i] < |m|)
    && (forall i {:trigger Next(f, i)} :: 0 <= i < |f| ==> m[f[i]].ptr == Next(f, i))
  }

  function InsertAfter(f: seq<nat>, k: nat, x: nat): seq<nat>
    requires k < |f|
  {
    seq(|f| + 1, i requires 0 <= i < |f| + 1 => if i <= k then f[i] else if i == k + 1 then x else f[i - 1])
  }

  function RemoveAt(f: seq<nat>, k: nat): seq<nat>
    requires k < |f|
  {
    seq(|f| - 1, i requires 0 <= i < |f| - 1 => if i < k then f[i] else f[i + 1])
  }

  lemma LinkInsert(m: seq<Header>, f: seq<nat>, k: nat, x: nat, n: nat)
    requires Linked(m, f) && Sorted(f) && k < |f| && x < |m|
    requires f[k] < x && (k + 1 < |f| ==> x < f[k + 1])
    ensures Sorted(InsertAfter(f, k, x))
    ensures Linked(m[x := Header(m[f[k]].ptr, n)][f[k] := m[f[k]].(ptr := x)], InsertAfter(f, k, x))
  {
    var g := InsertAfter(f, k, x);
    var m' := m[x := Header(m[f[k]].ptr, n)][f[k] := m[f[k]].(ptr := x)];
    forall i | 0 <= i < |g| ensures m'[g[i]].ptr == Next(g, i) {
      assert m[f[k]].ptr == Next(f, k);
      if i < k { assert m[f[i]].ptr == Next(f, i); }
      if i > k + 1 { assert m[f[i - 1]].ptr == Next(f, i - 1); }
    }
  }

  lemma LinkRemove(m: seq<Header>, f: seq<nat>, k: nat, n: nat)
    requires Linked(m, f) && Sorted(f) && k + 1 < |f|
    ensures Sorted(RemoveAt(f, k + 1))
    ensures Linked(m[f[k] := Header(m[f[k + 1]].ptr, n)], RemoveAt(f, k + 1))
  {
    var g := RemoveAt(f, k + 1);
    var m' := m[f[k] := Header(m[f[k + 1]].ptr, n)];
    forall i | 0 <= i < |g| ensures m'[g[i]].ptr == Next(g, i) {
      assert m[f[k + 1]].ptr == Next(f, k + 1);
      if i < k { assert m[f[i]].ptr == Next(f, i); }
      if i > k { assert m[f[i + 1]].ptr == Next(f, i + 1); }
    }
  }

  /** Only the `ptr` fields matter. */
  lemma LinkKept(m: seq<Header>, m': seq<Header>, f: seq<nat>)
    requires Linked(m, f) && |m'| == |m| && forall x :: 0 <= x < |m| ==> m'[x].ptr == m[x].ptr
    ensures Linked(m', f)
  {
  }

  // ---------------------------------------------------------------- the invariant

  /**
   Memory together with the book-keeping that explains it: `list` is the free list in
   address order from `base`, `blocks` gives the size of every block, free or live, and
   `owned` is the set of units obtained from `sbrk`.
   */
  datatype Arena = Arena(mem: seq<Header>, list: seq<nat>, blocks: map<nat, nat>, owned: set<nat>, base: nat, brk: nat)

  /** The blocks in the hands of the program. */
  function Live(a: Arena): map<nat, nat> {
    map b | b in a.blocks && b !in a.list :: a.blocks[b]
  }

  /** Every block's header records its size, and every block lies between `base` and the break. */
  ghost predicate Headers(a: Arena) {
    && 0 < a.base < a.brk <= |a.mem|
    && a.mem[a.base].size == 0
    && forall b :: b in a.blocks ==> a.base < b < b + a.blocks[b] <= a.brk && a.mem[b].size == a.blocks[b]
  }

  /** The invariant, up to coalescing. */
  ghost predicate Core(a: Arena) {
    && Tiles(a.blocks, a.owned)
    && Headers(a)
    && |a.list| > 0 && a.list[0] == a.base
    && Sorted(a.list)
    && Linked(a.mem, a.list)
    && (forall i :: 1 <= i < |a.list| ==> a.list[i] in a.blocks)
  }

  /** Members `i` and `i + 1` of the free list touch. */
  predicate Touch(a: Arena, i: nat) {
    1 <= i && i + 1 < |a.list| && a.list[i] in a.blocks && a.list[i] + a.blocks[a.list[i]] == a.list[i + 1]
  }

  /** The invariant: one sorted circular list from `base`, no two neighbours touching, blocks partitioning `owned`. */
  ghost predicate WellFormed(a: Arena) {
    Core(a) && forall i :: !Touch(a, i)
  }

  // ---------------------------------------------------------------- changes to an arena

  /** Block `bp` joins the list after member `k`. */
  function Inserted(a: Arena, bp: nat, k: nat): Arena
    requires k < |a.list| && a.list[k] < |a.mem| && bp < |a.mem| && bp in a.blocks
  {
    var p := a.list[k];
    a.(mem := a.mem[bp := Header(a.mem[p].ptr, a.blocks[bp])][p := a.mem[p].(ptr := bp)],
       list := InsertAfter(a.list, k, bp))
  }

  /** Member `k` absorbs the member after it. */
  function Joined(a: Arena, k: nat): Arena
    requires Touch(a, k) && a.list[k] < |a.mem| && a.list[k + 1] < |a.mem| && a.list[k + 1] in a.blocks
  {
    var p, q := a.list[k], a.list[k + 1];
    var n := a.blocks[p] + a.blocks[q];
    a.(mem := a.mem[p := Header(a.mem[q].ptr, n)], list := RemoveAt(a.list, k + 1), blocks := (a.blocks - {q})[p := n])
  }

  /** The member after `k` leaves the list. */
  function Taken(a: Arena, k: nat): Arena
    requires k + 1 < |a.list| && a.list[k] < |a.mem| && a.list[k + 1] < |a.mem|
  {
    var p, q := a.list[k], a.list[k + 1];
    a.(mem := a.mem[p := a.mem[p].(ptr := a.mem[q].ptr)], list := RemoveAt(a.list, k + 1))
  }

  /** The last `n` units of member `k` become a block outside the list. */
  function Cut(a: Arena, k: nat, n: nat): Arena
    requires k < |a.list| && a.list[k] in a.blocks && 0 < n < a.blocks[a.list[k]] &&
               a.list[k] + a.blocks[a.list[k]] <= |a.mem|
  {
    var p := a.list[k];
    var rest := a.blocks[p] - n;
    a.(mem := a.mem[p := a.mem[p].(size := rest)][p + rest := a.mem[p + rest].(size := n)],
       blocks := a.blocks[p := rest][p + rest := n])
  }

  /** `n` fresh units above the break become a block outside the list. */
  function Grown(a: Arena, n: nat): Arena
    requires a.brk + n <= |a.mem| && n > 0
  {
    a.(mem := a.mem[a.brk := a.mem[a.brk].(size := n)], blocks := a.blocks[a.brk := n],
       owned := a.owned + Range(a.brk, n), brk := a.brk + n)
  }

  lemma InsertedCore(a: Arena, bp: nat, k: nat)
    requires Core(a) && bp in a.blocks && k < |a.list| && a.list[k] < bp && (k + 1 < |a.list| ==> bp < a.list[k + 1])
    ensures Core(Inserted(a, bp, k))
  {
    LinkInsert(a.mem, a.list, k, bp, a.blocks[bp]);
  }

  lemma InsertedMembers(f: seq<nat>, k: nat, bp: nat)
    requires k < |f|
    ensures forall x :: x in InsertAfter(f, k, bp) <==> x in f || x == bp
  {
    var g := InsertAfter(f, k, bp);
    assert g[k + 1] == bp;
    forall x | x in f ensures x in g {
      var i :| 0 <= i < |f| && f[i] == x;
      assert g[if i <= k then i else i + 1] == x;
    }
  }

  lemma InsertedLive(a: Arena, bp: nat, k: nat)
    requires bp in a.blocks && k < |a.list| && a.list[k] < |a.mem| && bp < |a.mem|
    ensures Live(Inserted(a, bp, k)) == Live(a) - {bp}
  {
    InsertedMembers(a.list, k, bp);
  }

  lemma RemovedMembers(f: seq<nat>, k: nat)
    requires Sorted(f) && k < |f|
    ensures forall x :: x in RemoveAt(f, k) <==> x in f && x != f[k]
  {
    var g := RemoveAt(f, k);
    forall x | x in f && x != f[k] ensures x in g {
      var i :| 0 <= i < |f| && f[i] == x;
      assert g[if i < k then i else i - 1] == x;
    }
  }

  lemma JoinedHeaders(a: Arena, k: nat)
    requires Headers(a) && Touch(a, k) && a.list[k + 1] in a.blocks
    ensures Headers(Joined(a, k))
  {
  }

  lemma JoinedMembers(a: Arena, k: nat, i: nat)
    requires Sorted(a.list) && Touch(a, k) && a.list[k + 1] in a.blocks && a.list[k] < |a.mem| &&
               a.list[k + 1] < |a.mem|
    requires forall j :: 1 <= j < |a.list| ==> a.list[j] in a.blocks
    requires 1 <= i < |a.list| - 1
    ensures Joined(a, k).list[i] in Joined(a, k).blocks
  {
    assert Joined(a, k).list[i] == a.list[if i <= k then i else i + 1];
  }

  lemma JoinedCore(a: Arena, k: nat)
    requires Core(a) && Touch(a, k)
    ensures Core(Joined(a, k))
  {
    var p, q := a.list[k], a.list[k + 1];
    var a' := Joined(a, k);
    LinkRemove(a.mem, a.list, k, a.blocks[p] + a.blocks[q]);
    hide Linked;
    hide Sorted;
    JoinTiles(a.blocks, a.owned, p, q);
    hide Tiles;
    JoinedHeaders(a, k);
    forall i | 1 <= i < |a'.list| ensures a'.list[i] in a'.blocks {
      JoinedMembers(a, k, i);
    }
  }

  lemma JoinedLive(a: Arena, k: nat)
    requires Sorted(a.list) && Touch(a, k) && a.list[k + 1] in a.blocks
    requires a.list[k] < |a.mem| && a.list[k + 1] < |a.mem|
    ensures Live(Joined(a, k)) == Live(a)
  {
    RemovedMembers(a.list, k + 1);
  }

  lemma TakenCore(a: Arena, k: nat)
    requires Core(a) && k + 1 < |a.list|
    ensures Core(Taken(a, k))
  {
    LinkRemove(a.mem, a.list, k, a.mem[a.list[k]].size);
  }

  lemma TakenLive(a: Arena, k: nat)
    requires Sorted(a.list) && k + 1 < |a.list| && a.list[k + 1] in a.blocks
    requires a.list[k] < |a.mem| && a.list[k + 1] < |a.mem|
    ensures Live(Taken(a, k)) == Live(a)[a.list[k + 1] := a.blocks[a.list[k + 1]]]
  {
    RemovedMembers(a.list, k + 1);
  }

  lemma TakenApart(a: Arena, k: nat, i: nat)
    requires WellFormed(a) && k + 1 < |a.list|
    ensures !Touch(Taken(a, k), i)
  {
    if i == k {
      assert k + 2 < |a.list| ==> a.list[k] < a.list[k + 1] < a.list[k + 2];
    } else {
      assert !Touch(a, if i < k then i else i + 1);
    }
  }

  lemma CutHeaders(a: Arena, k: nat, n: nat)
    requires Headers(a) && Disjoint(a.blocks) && k < |a.list|
    requires a.list[k] in a.blocks && 0 < n < a.blocks[a.list[k]]
    ensures Headers(Cut(a, k, n))
  {
    assert a.list[k] + a.blocks[a.list[k]] - n !in a.blocks;
  }

  lemma CutCore(a: Arena, k: nat, n: nat)
    requires Core(a) && 1 <= k < |a.list| && 0 < n < a.blocks[a.list[k]]
    ensures Core(Cut(a, k, n))
  {
    hide Linked;
    hide Sorted;
    CutHeaders(a, k, n);
    CutTile(a.blocks, a.owned, a.list[k], n);
    hide Tiles;
    LinkKept(a.mem, Cut(a, k, n).mem, a.list);
  }

  lemma CutLive(a: Arena, k: nat, n: nat)
    requires Core(a) && 1 <= k < |a.list| && 0 < n < a.blocks[a.list[k]]
    ensures Live(Cut(a, k, n)) == Live(a)[a.list[k] + a.blocks[a.list[k]] - n := n]
  {
    var b := a.list[k] + a.blocks[a.list[k]] - n;
    assert b !in a.blocks;
    assert b !in a.list;
  }

  lemma CutApart(a: Arena, k: nat, n: nat, i: nat)
    requires WellFormed(a) && 1 <= k < |a.list| && 0 < n < a.blocks[a.list[k]]
    ensures !Touch(Cut(a, k, n), i)
  {
    assert !Touch(a, i);
    assert i == k && k + 1 < |a.list| ==> a.list[k] + a.blocks[a.list[k]] <= a.list[k + 1];
    assert a.list[k] + a.blocks[a.list[k]] - n !in a.blocks;
  }

  lemma GrownCore(a: Arena, n: nat)
    requires WellFormed(a) && a.brk + n <= |a.mem| && n > 0
    ensures WellFormed(Grown(a, n)) && Core(Grown(a, n))
  {
    AddTile(a.blocks, a.owned, a.brk, n);
    var a' := Grown(a, n);
    forall i: nat ensures !Touch(a', i) {
      assert !Touch(a, i);
    }
    LinkKept(a.mem, a'.mem, a.list);
  }

  lemma GrownLive(a: Arena, n: nat)
    requires WellFormed(a) && a.brk + n <= |a.mem| && n > 0
    ensures a.brk !in Live(a) && Live(Grown(a, n)) == Live(a)[a.brk := n]
  {
  }

  // ---------------------------------------------------------------- free

  /** The position after which `free` inserts `bp`, searching among the first `n` members. */
  ghost function Slot(f: seq<nat>, bp: nat, n: nat): (k: nat)
    requires 0 < n <= |f| && f[0] < bp
    ensures k < n && f[k] < bp && (k + 1 < n ==> bp <= f[k + 1])
    decreases n
  {
    if f[n - 1] < bp then n - 1 else Slot(f, bp, n - 1)
  }

  /** The member of the list after which block `bp` belongs. */
  ghost function Place(a: Arena, bp: nat): (k: nat)
    requires Core(a) && bp in Live(a)
    ensures k < |a.list| && a.list[k] < bp && (k + 1 < |a.list| ==> bp < a.list[k + 1])
  {
    Slot(a.list, bp, |a.list|)
  }

  /** Absorb the following member if it touches. */
  ghost function Merge(a: Arena, k: nat): (r: Arena)
    requires Core(a)
    ensures Core(r) && Live(r) == Live(a)
    ensures r.owned == a.owned && r.base == a.base && r.brk == a.brk && |r.mem| == |a.mem|
  {
    if Touch(a, k) then
      JoinedCore(a, k);
      JoinedLive(a, k);
      Joined(a, k)
    else a
  }

  /** The block joins the list at its place. */
  ghost function Spliced(a: Arena, bp: nat): (r: Arena)
    requires Core(a) && bp in Live(a)
    ensures Core(r) && Live(r) == Live(a) - {bp}
    ensures r.owned == a.owned && r.base == a.base && r.brk == a.brk && |r.mem| == |a.mem|
  {
    var k := Place(a, bp);
    InsertedCore(a, bp, k);
    InsertedLive(a, bp, k);
    Inserted(a, bp, k)
  }

  /** What `free` does: the block joins the list, then merges upward, then downward. */
  ghost function Freed(a: Arena, bp: nat): (r: Arena)
    requires Core(a) && bp in Live(a)
    ensures Core(r) && Live(r) == Live(a) - {bp}
    ensures r.owned == a.owned && r.base == a.base && r.brk == a.brk && |r.mem| == |a.mem|
  {
    var k := Place(a, bp);
    Merge(Merge(Spliced(a, bp), k + 1), k)
  }

  /** Joining members `k` and `k + 1` leaves every other pair as it was. */
  lemma JoinedTouch(a: Arena, k: nat, i: nat)
    requires Sorted(a.list) && Touch(a, k) && a.list[k + 1] in a.blocks && a.list[k] < |a.mem| &&
               a.list[k + 1] < |a.mem|
    requires Touch(Joined(a, k), i)
    ensures Touch(a, if i < k then i else i + 1)
  {
    if i < k {
      assert a.list[i] < a.list[k];
    } else if i > k {
      assert a.list[k + 1] < a.list[i + 1];
    }
  }

  /** A pair that still touches after `Merge` touched before it and is not the pair `k`. */
  lemma MergeTouch(a: Arena, k: nat, i: nat) returns (j: nat)
    requires Core(a) && Touch(Merge(a, k), i)
    ensures Touch(a, j) && j != k
    ensures j == i || (j == i + 1 && i >= k)
  {
    j := i;
    if Touch(a, k) {
      JoinedTouch(a, k, i);
      j := if i < k then i else i + 1;
    }
  }

  /** After insertion only the inserted block's own pairs can touch. */
  lemma InsertedTouch(a: Arena, bp: nat, k: nat, i: nat)
    requires k < |a.list| && a.list[k] < |a.mem| && bp < |a.mem| && bp in a.blocks
    requires Touch(Inserted(a, bp, k), i) && i != k && i != k + 1
    ensures Touch(a, if i < k then i else i - 1)
  {
  }

  lemma MergesApart(a: Arena, k: nat, i: nat) returns (j: nat)
    requires Core(a) && Touch(Merge(Merge(a, k + 1), k), i)
    ensures Touch(a, j) && j != k && j != k + 1
  {
    hide Core;
    var j' := MergeTouch(Merge(a, k + 1), k, i);
    j := MergeTouch(a, k + 1, j');
  }

  lemma SplicedTouch(a: Arena, bp: nat, i: nat)
    requires Core(a) && bp in Live(a) && Touch(Spliced(a, bp), i)
    requires var k := Place(a, bp); i != k && i != k + 1
    ensures Touch(a, i) || (i > 0 && Touch(a, i - 1))
  {
    InsertedTouch(a, bp, Place(a, bp), i);
  }

  /** Freeing restores the full invariant: no two neighbours touch. */
  lemma FreedApart(a: Arena, bp: nat, i: nat)
    requires WellFormed(a) && bp in Live(a)
    ensures !Touch(Freed(a, bp), i)
  {
    hide Core;
    if Touch(Freed(a, bp), i) {
      var j := MergesApart(Spliced(a, bp), Place(a, bp), i);
      SplicedTouch(a, bp, j);
    }
  }


  lemma FreedWellFormed(a: Arena, bp: nat)
    requires WellFormed(a) && bp in Live(a)
    ensures WellFormed(Freed(a, bp))
  {
    forall i: nat ensures !Touch(Freed(a, bp), i) {
      FreedApart(a, bp, i);
    }
  }

  // ---------------------------------------------------------------- the code's own writes

  /** The header `free` first writes for the block at `bp`, inserted after `p`. */
  function UpperHeader(m: seq<Header>, p: nat, bp: nat): Header
    requires p < |m| && bp < |m| && m[p].ptr < |m|
  {
    var next := m[p].ptr;
    if bp + m[bp].size == next then Header(m[next].ptr, m[bp].size + m[next].size) else m[bp].(ptr := next)
  }

  /** The two header writes of `free`, in the order of the code. */
  function FreeWrites(m: seq<Header>, p: nat, bp: nat): seq<Header>
    requires p < |m| && bp < |m| && m[p].ptr < |m|
  {
    var m1 := m[bp := UpperHeader(m, p, bp)];
    m1[p := if p + m1[p].size == bp then Header(m1[bp].ptr, m1[p].size + m1[bp].size) else m1[p].(ptr := bp)]
  }

  /** Member `k` of `a` is `p`, member `k + 1` is the block just freed with header `hb`, and otherwise memory is `m`. */
  ghost predicate Half(a: Arena, m: seq<Header>, k: nat, p: nat, bp: nat, hb: Header) {
    && k + 1 < |a.list| && a.list[k] == p && a.list[k + 1] == bp
    && p < |m| && bp < |m| && p != bp
    && a.mem == m[bp := hb][p := m[p].(ptr := bp)]
    && bp in a.blocks && a.blocks[bp] == hb.size
    && (k > 0 ==> p in a.blocks && a.blocks[p] == m[p].size)
  }

  lemma SplicedHalf(a: Arena, bp: nat)
    requires Core(a) && bp in Live(a)
    ensures var k := Place(a, bp);
            var a1 := Spliced(a, bp);
            && a.list[k] < |a.mem|
            && Half(a1, a.mem, k, a.list[k], bp, Header(a.mem[a.list[k]].ptr, a.mem[bp].size))
            && a.mem[bp].size == a.blocks[bp]
            && (k + 2 < |a1.list| ==> a1.list[k + 2] == a.mem[a.list[k]].ptr)
            && (k + 2 == |a1.list| ==> a.mem[a.list[k]].ptr == a.base)
  {
    var k := Place(a, bp);
    assert a.mem[a.list[k]].ptr == Next(a.list, k);
  }

  lemma UpperHalf(a1: Arena, m: seq<Header>, k: nat, p: nat, bp: nat)
    requires Core(a1) && |m| == |a1.mem| && p < |m| && bp < |m| && m[p].ptr < |m|
    requires Half(a1, m, k, p, bp, Header(m[p].ptr, m[bp].size))
    requires k + 2 < |a1.list| ==> a1.list[k + 2] == m[p].ptr
    requires k + 2 == |a1.list| ==> m[p].ptr == a1.base
    ensures Half(Merge(a1, k + 1), m, k, p, bp, UpperHeader(m, p, bp))
  {
    hide Tiles;
    hide Linked;
    if Touch(a1, k + 1) {
      var q := a1.list[k + 2];
      assert a1.list[k] < a1.list[k + 1] < q;
      assert a1.mem[q] == m[q] && q in a1.blocks;
    } else {
      assert a1.base < bp;
    }
  }

  lemma LowerHalf(a2: Arena, m: seq<Header>, k: nat, p: nat, bp: nat)
    requires Core(a2) && |m| == |a2.mem| && p < |m| && bp < |m| && m[p].ptr < |m|
    requires Half(a2, m, k, p, bp, UpperHeader(m, p, bp))
    requires k == 0 ==> m[p].size == 0
    ensures Merge(a2, k).mem == FreeWrites(m, p, bp)
    ensures p in Merge(a2, k).list
  {
    hide Tiles;
    hide Linked;
    assert a2.list[k] < a2.list[k + 1];
    assert k > 0 ==> p in a2.blocks;
    if Touch(a2, k) {
      assert Joined(a2, k).list[k] == p;
    }
  }

  /** The code of `free` computes `Freed`. */
  lemma FreedMem(a: Arena, bp: nat)
    requires Core(a) && bp in Live(a)
    ensures var p := a.list[Place(a, bp)];
            && p < |a.mem| && bp < |a.mem| && a.mem[p].ptr < |a.mem|
            && Freed(a, bp).mem == FreeWrites(a.mem, p, bp)
            && p in Freed(a, bp).list
  {
    SplicedHalf(a, bp);
    var k := Place(a, bp);
    var p := a.list[k];
    var a1 := Spliced(a, bp);
    assert a.mem[p].ptr < |a.mem| by { assert a.mem[p].ptr == Next(a.list, k); }
    assert k == 0 ==> a.mem[p].size == 0;
    hide Core;
    hide Half;
    hide Spliced;
    UpperHalf(a1, a.mem, k, p, bp);
    LowerHalf(Merge(a1, k + 1), a.mem, k, p, bp);
  }

  /** All that a call of `free` needs to know. */
  lemma FreeCorrect(a: Arena, bp: nat)
    requires WellFormed(a) && bp in Live(a)
    ensures Core(a) && WellFormed(Freed(a, bp))
    ensures var p := a.list[Place(a, bp)];
            && 0 < p < |a.mem| && bp < |a.mem| && a.mem[p].ptr < |a.mem|
            && Freed(a, bp).mem == FreeWrites(a.mem, p, bp)
            && p in Freed(a, bp).list
  {
    assert Core(a);
    assert 0 < a.list[Place(a, bp)];
    FreedMem(a, bp);
    hide Core;
    hide Freed;
    FreedWellFormed(a, bp);
  }

  // ---------------------------------------------------------------- requests

  /** Bytes in a header: a pointer and a 32-bit size. */
  const HEADER_BYTES: nat := 8

  /** The smallest request that `morecore` passes on to `sbrk`, in units. */
  const MIN_CORE: nat := 4096

  const INT32: nat := 0x8000_0000

  /** The number of units, header included, that `malloc` computes in 32-bit arithmetic. */
  function UnitsFor(nbytes: nat): (n: nat)
    ensures n > 0
  {
    ((nbytes + HEADER_BYTES - 1) % TWO_32) / HEADER_BYTES + 1
  }

  /** At least what is needed, and never less than the minimum. */
  function CoreUnits(nunits: nat): (n: nat)
    ensures n >= nunits && n >= MIN_CORE && (n == nunits || n == MIN_CORE)
  {
    if nunits < MIN_CORE then MIN_CORE else nunits
  }

  /** The `int` that reaches `sys_sbrk`. */
  function SbrkArgument(units: nat): int {
    var n := (units * HEADER_BYTES) % TWO_32;
    if n < INT32 then n else n - TWO_32
  }

  /** `sbrk` is asked for the bytes that `morecore` then takes. */
  predicate Asked(nunits: nat) {
    SbrkArgument(CoreUnits(nunits)) == CoreUnits(nunits) * HEADER_BYTES
  }

  /** A request is honest when its payload holds the bytes asked for and `sbrk` is asked for that many bytes. */
  ghost predicate Honest(nbytes: nat) {
    (UnitsFor(nbytes) - 1) * HEADER_BYTES >= nbytes && Asked(UnitsFor(nbytes))
  }

  /** The exact range of honest requests: everything up to sixteen bytes below 2^31. */
  lemma HonestRequests(nbytes: nat)
    requires nbytes < TWO_32
    ensures Honest(nbytes) <==> nbytes <= INT32 - 2 * HEADER_BYTES
  {
  }

  /** Between the honest requests and those that wrap around to one unit, `sbrk` is asked for nothing or to shrink. */
  lemma AskedRequests(nbytes: nat)
    requires nbytes < TWO_32
    ensures Asked(UnitsFor(nbytes)) <==> nbytes <= INT32 - 2 * HEADER_BYTES || nbytes > TWO_32 - HEADER_BYTES
    ensures !Asked(UnitsFor(nbytes)) ==> SbrkArgument(CoreUnits(UnitsFor(nbytes))) <= 0
  {
  }

  /** The payload is too short exactly when the rounding wraps around. */
  lemma ShortPayloads(nbytes: nat)
    requires nbytes < TWO_32
    ensures (UnitsFor(nbytes) - 1) * HEADER_BYTES < nbytes <==> nbytes > TWO_32 - HEADER_BYTES
    ensures nbytes > TWO_32 - HEADER_BYTES ==> UnitsFor(nbytes) == 1
  {
  }

  ghost predicate Fits(a: Arena, n: nat) {
    exists i :: 1 <= i < |a.list| && a.list[i] in a.blocks && a.blocks[a.list[i]] >= n
  }

  /** Merging at `k` keeps a long member `i`, or absorbs it into member `k`. */
  lemma MergeGrows(a: Arena, k: nat, i: nat, n: nat)
    requires Core(a) && 1 <= i < |a.list| && (i == k || i == k + 1) && a.blocks[a.list[i]] >= n
    ensures var r := Merge(a, k);
            var j := if Touch(a, k) then k else i;
            j < |r.list| && r.list[j] in r.blocks && r.blocks[r.list[j]] >= n && (j > 0)
  {
    hide Tiles;
    hide Linked;
    if Touch(a, k) {
      assert Joined(a, k).list[k] == a.list[k];
    }
  }

  /** A freed block, possibly merged, ends up in a free block at least as long. */
  lemma FreedFits(a: Arena, bp: nat)
    requires Core(a) && bp in Live(a)
    ensures Fits(Freed(a, bp), a.blocks[bp])
  {
    hide Core;
    SplicedHalf(a, bp);
    var k := Place(a, bp);
    var a1 := Spliced(a, bp);
    MergeGrows(a1, k + 1, k + 1, a.blocks[bp]);
    MergeGrows(Merge(a1, k + 1), k, k + 1, a.blocks[bp]);
  }

  /** All that `morecore` needs to know: growing and then freeing changes no live block and leaves a fit. */
  lemma GrowCorrect(a: Arena, n: nat)
    requires WellFormed(a) && a.brk + n <= |a.mem| && n > 0
    ensures WellFormed(Grown(a, n)) && Core(Grown(a, n)) && a.brk in Live(Grown(a, n))
    ensures Live(Freed(Grown(a, n), a.brk)) == Live(a)
    ensures Fits(Freed(Grown(a, n), a.brk), n)
  {
    hide WellFormed;
    hide Core;
    hide Freed;
    hide Live;
    GrownCore(a, n);
    GrownLive(a, n);
    FreedFits(Grown(a, n), a.brk);
  }

  /** A whole member handed out. */
  lemma TakeCorrect(a: Arena, k: nat)
    requires WellFormed(a) && k + 1 < |a.list|
    ensures var q := a.list[k + 1];
            && a.list[k] < |a.mem| && q < |a.mem| && q in a.blocks && q !in Live(a)
            && WellFormed(Taken(a, k)) && Live(Taken(a, k)) == Live(a)[q := a.blocks[q]]
            && a.list[k] in Taken(a, k).list
  {
    TakenCore(a, k);
    TakenLive(a, k);
    assert Taken(a, k).list[k] == a.list[k];
    hide Core;
    hide Taken;
    hide Touch;
    forall j: nat ensures !Touch(Taken(a, k), j) { TakenApart(a, k, j); }
  }

  /** The tail of a longer member handed out. */
  lemma CutCorrect(a: Arena, k: nat, n: nat)
    requires WellFormed(a) && 1 <= k < |a.list| && 0 < n < a.blocks[a.list[k]]
    ensures var p := a.list[k];
            var q := p + a.blocks[p] - n;
            && p + a.blocks[p] <= |a.mem| && q !in Live(a)
            && WellFormed(Cut(a, k, n)) && Live(Cut(a, k, n)) == Live(a)[q := n]
  {
    CutCore(a, k, n);
    CutLive(a, k, n);
    assert a.list[k] + a.blocks[a.list[k]] - n !in a.blocks;
    hide Core;
    hide Cut;
    hide Touch;
    forall j: nat ensures !Touch(Cut(a, k, n), j) { CutApart(a, k, n, j); }
  }

  /** The tests of `free` tell the place of the block from all others. */
  lemma PlaceTest(a: Arena, i: nat, bp: nat)
    requires WellFormed(a) && bp in Live(a) && i < |a.list|
    ensures a.list[i] < |a.mem| && a.mem[a.list[i]].ptr == Next(a.list, i)
    ensures var p, next := a.list[i], Next(a.list, i);
            i == Place(a, bp) <==> (bp > p && bp < next) || (p >= next && (bp > p || bp < next))
  {
    hide Tiles;
    hide Headers;
    hide Place;
    assert a.mem[a.list[i]].ptr == Next(a.list, i);
  }

  /** The list as the walk of `malloc` meets it. */
  lemma MemberFacts(a: Arena, i: nat)
    requires WellFormed(a) && i < |a.list|
    ensures 0 < a.list[i] < |a.mem| && a.mem[a.list[i]].ptr == Next(a.list, i)
    ensures a.mem[a.list[i]].size == if i == 0 then 0 else a.blocks[a.list[i]]
    ensures i > 0 ==> a.list[i] in a.blocks && a.list[i] + a.blocks[a.list[i]] <= |a.mem|
    ensures i > 0 ==> a.list[i - 1] != a.list[i]
  {
    assert a.mem[a.list[i]].ptr == Next(a.list, i);
  }

  /** Position `x` lies after `j` and up to `i`, going round the circle. */
  predicate Passed(j: nat, i: nat, x: nat) {
    if j <= i then j < x <= i else x > j || x <= i
  }

  /** No member that the walk from `j` to `i` has passed has `n` units. */
  ghost predicate NoneFit(a: Arena, j: nat, i: nat, n: nat) {
    forall x :: 0 <= x < |a.list| && Passed(j, i, x) && a.list[x] < |a.mem| ==> a.mem[a.list[x]].size < n
  }

  /** One more step of the walk; coming back to `j` means the whole circle has been passed. */
  lemma NoneFitStep(a: Arena, j: nat, i: nat, n: nat)
    requires i < |a.list| && j < |a.list| && NoneFit(a, j, i, n)
    requires var p := Next(a.list, i); p < |a.mem| && a.mem[p].size < n
    ensures var next := if i + 1 < |a.list| then i + 1 else 0;
            next != j ==> NoneFit(a, j, next, n)
  {
  }

  lemma NothingFits(a: Arena, j: nat, i: nat, n: nat)
    requires WellFormed(a) && i < |a.list| && j < |a.list| && NoneFit(a, j, i, n)
    requires var p := Next(a.list, i); p < |a.mem| && a.mem[p].size < n && p == a.list[j]
    ensures !Fits(a, n)
  {
    forall x | 1 <= x < |a.list| ensures a.blocks[a.list[x]] < n {
      MemberFacts(a, x);
      if x != j {
        assert Passed(j, i, x);
      }
    }
  }

  lemma SameMember(a: Arena, i: nat, j: nat)
    requires WellFormed(a) && i < |a.list| && j < |a.list| && a.list[i] == a.list[j]
    ensures i == j
  {
  }

  lemma FitsHere(a: Arena, i: nat, n: nat)
    requires WellFormed(a) && 0 < i < |a.list| && a.list[i] < |a.mem| && a.mem[a.list[i]].size >= n
    ensures Fits(a, n)
  {
    MemberFacts(a, i);
  }

  /** A write inside the payload of a live block touches no header and no link. */
  lemma StoreCore(a: Arena, b: nat, u: nat, h: Header)
    requires WellFormed(a) && b in Live(a) && b < u < b + a.blocks[b] && u < |a.mem|
    ensures WellFormed(a.(mem := a.mem[u := h]))
  {
    var a' := a.(mem := a.mem[u := h]);
    assert u !in a.blocks;
    forall i | 0 <= i < |a.list| ensures a.list[i] != u && a'.mem[a.list[i]].ptr == Next(a.list, i) {
      assert a.mem[a.list[i]].ptr == Next(a.list, i);
    }
    forall i: nat ensures !Touch(a', i) { assert !Touch(a, i); }
  }

  // ---------------------------------------------------------------- conservation

  ghost function Total(blocks: map<nat, nat>): nat {
    if blocks == map[] then 0 else
      var a :| a in blocks;
      blocks[a] + Total(blocks - {a})
  }

  lemma {:induction false} TotalRemove(blocks: map<nat, nat>, a: nat)
    requires a in blocks
    ensures Total(blocks) == blocks[a] + Total(blocks - {a})
    decreases blocks.Keys
  {
    var b :| b in blocks && Total(blocks) == blocks[b] + Total(blocks - {b});
    if a != b {
      TotalRemove(blocks - {b}, a);
      TotalRemove(blocks - {a}, b);
      assert blocks - {a} - {b} == blocks - {b} - {a};
    }
  }

  lemma {:induction false} RangeSize(a: nat, n: nat)
    ensures |Range(a, n)| == n
    decreases n
  {
    if n > 0 {
      RangeSize(a, n - 1);
      assert Range(a, n) == Range(a, n - 1) + {a + n - 1};
    } else {
      assert Range(a, 0) == {};
    }
  }

  lemma RemoveTile(blocks: map<nat, nat>, owned: set<nat>, a: nat)
    requires Tiles(blocks, owned) && a in blocks
    ensures Tiles(blocks - {a}, owned - Range(a, blocks[a])) && Range(a, blocks[a]) <= owned
  {
    var blocks' := blocks - {a};
    forall u: nat ensures u in owned - Range(a, blocks[a]) <==> InBlock(blocks', u) {
      if u in owned && u !in Range(a, blocks[a]) {
        var c :| c in blocks && Inside(c, blocks[c], u);
        assert c in blocks' && Inside(c, blocks'[c], u);
      }
      if InBlock(blocks', u) {
        var c :| c in blocks' && Inside(c, blocks'[c], u);
        assert c in blocks && Inside(c, blocks[c], u);
      }
    }
    forall u: nat | u in Range(a, blocks[a]) ensures u in owned {
      assert Inside(a, blocks[a], u);
    }
  }

  /** A partition has as many units as its blocks together. */
  lemma {:induction false} TilesCount(blocks: map<nat, nat>, owned: set<nat>)
    requires Tiles(blocks, owned)
    ensures Total(blocks) == |owned|
    decreases blocks.Keys
  {
    if blocks == map[] {
      assert owned == {};
    } else {
      var a :| a in blocks;
      RemoveTile(blocks, owned, a);
      TilesCount(blocks - {a}, owned - Range(a, blocks[a]));
      TotalRemove(blocks, a);
      RangeSize(a, blocks[a]);
    }
  }

  function FreeBlocks(a: Arena): map<nat, nat> {
    map b | b in a.blocks && b in a.list :: a.blocks[b]
  }

  lemma {:induction false} TotalSplit(blocks: map<nat, nat>, left: map<nat, nat>, right: map<nat, nat>)
    requires left.Keys !! right.Keys && blocks == left + right
    ensures Total(blocks) == Total(left) + Total(right)
    decreases left.Keys
  {
    if left == map[] {
      assert blocks == right;
    } else {
      var a :| a in left;
      TotalRemove(blocks, a);
      TotalRemove(left, a);
      assert blocks - {a} == (left - {a}) + right;
      TotalSplit(blocks - {a}, left - {a}, right);
    }
  }

  /** No unit is lost or counted twice: free and live units add up to what `sbrk` handed out. */
  lemma Conservation(a: Arena)
    requires WellFormed(a)
    ensures Total(FreeBlocks(a)) + Total(Live(a)) == |a.owned|
  {
    TilesCount(a.blocks, a.owned);
    TotalSplit(a.blocks, FreeBlocks(a), Live(a));
  }

  /** Two live blocks never overlap, and a live block never overlaps a free one. */
  lemma LiveApart(a: Arena, b: nat, c: nat)
    requires WellFormed(a) && b in Live(a) && c in a.blocks && c != b
    ensures Range(b, a.blocks[b]) !! Range(c, a.blocks[c])
    ensures Range(b, a.blocks[b]) <= a.owned
  {
    assert b < c || c < b;
    forall u: nat | u in Range(b, a.blocks[b]) ensures u in a.owned && u !in Range(c, a.blocks[c]) {
      assert Inside(b, a.blocks[b], u);
    }
  }

  // ---------------------------------------------------------------- the allocator

  datatype Call = Malloc(nbytes: nat, granted: bool) | Free(bp: nat) | Sbrk(n: nat)


  /** The list consisting of `base` alone. */
  lemma EmptyWellFormed(m: seq<Header>, base: nat, brk: nat)
    requires 0 < base < brk <= |m| && m[base] == Header(base, 0)
    ensures WellFormed(Arena(m, [base], map[], {}, base, brk))
  {
    assert forall u: nat :: !InBlock(map[], u);
  }

  class Allocator {
    const mem: array<Header>
    const base: nat
    var freep: nat
    var brk: nat
    ghost var list: seq<nat>
    ghost var blocks: map<nat, nat>
    ghost var owned: set<nat>

    ghost function View(): Arena
      reads this, mem
    {
      Arena(mem[..], list, blocks, owned, base, brk)
    }

    ghost predicate Valid()
      reads this, mem
    {
      if freep == 0 then
        0 < base < brk <= mem.Length && list == [] && blocks == map[] && owned == {}
      else
        WellFormed(View()) && freep in list
    }

    constructor (units: nat, base: nat, brk: nat)
      requires 0 < base < brk <= units
      ensures Valid() && fresh(mem) && mem.Length == units && Live(View()) == map[] && owned == {}
    {
      mem := new Header[units](_ => Header(0, 0));
      this.base, this.brk, freep := base, brk, 0;
      list, blocks, owned := [], map[], {};
    }

    /** The search loop of `free`: from `freep` round the circle to the place of `bp`. */
    method Search(bp: nat) returns (p: nat)
      requires Valid() && bp in Live(View())
      ensures p == list[Place(View(), bp)]
    {
      p := freep;
      ghost var k := Place(View(), bp);
      ghost var i :| 0 <= i < |list| && list[i] == p;
      hide WellFormed;
      hide Core;
      hide Live;
      hide Place;
      PlaceTest(View(), i, bp);
      while !(bp > p && bp < mem[p].ptr)
        invariant 0 <= i < |list| && p == list[i] && p < mem.Length
        decreases if i <= k then k - i else |list| - i + k
      {
        PlaceTest(View(), i, bp);
        if p >= mem[p].ptr && (bp > p || bp < mem[p].ptr) {
          break;
        }
        p := mem[p].ptr;
        i := if i + 1 < |list| then i + 1 else 0;
        PlaceTest(View(), i, bp);
      }
      PlaceTest(View(), i, bp);
    }

    /** The second half of `free`: merge upward, then downward. */
    method Splice(p: nat, bp: nat)
      requires p < mem.Length && bp < mem.Length && mem[p].ptr < mem.Length
      modifies mem
      ensures mem[..] == FreeWrites(old(mem[..]), p, bp)
    {
      if bp + mem[bp].size == mem[p].ptr {
        mem[bp] := Header(mem[mem[p].ptr].ptr, mem[bp].size + mem[mem[p].ptr].size);
      } else {
        mem[bp] := mem[bp].(ptr := mem[p].ptr);
      }
      if p + mem[p].size == bp {
        mem[p] := Header(mem[bp].ptr, mem[p].size + mem[bp].size);
      } else {
        mem[p] := mem[p].(ptr := bp);
      }
    }

    /** `free`: a block obtained from `malloc` goes back to the free list. */
    method Free(ap: nat)
      requires Valid() && ap > 0 && ap - 1 in Live(View())
      modifies this, mem
      ensures Valid() && freep != 0
      ensures View() == Freed(old(View()), ap - 1)
    {
      hide WellFormed;
      hide Core;
      hide Freed;
      hide FreeWrites;
      ghost var a := View();
      FreeCorrect(a, ap - 1);
      var p := Search(ap - 1);
      Splice(p, ap - 1);
      ghost var r := Freed(a, ap - 1);
      freep, list, blocks := p, r.list, r.blocks;
      assert View() == r;
    }

    /**
     `morecore`: obtain at least `nu` units from `sbrk` and free them into the list.
     `granted` says whether the kernel agrees to grow the process.
     */
    method MoreCore(nu: nat, granted: bool) returns (p: nat)
      requires Valid() && freep != 0 && nu > 0
      modifies this, mem
      ensures Valid() && freep != 0
      ensures p == 0 <==> !(granted && old(brk) + CoreUnits(nu) <= mem.Length)
      ensures p == 0 ==> View() == old(View()) && freep == old(freep)
      ensures p != 0 ==> p == freep && Fits(View(), nu)
      ensures Live(View()) == old(Live(View()))
      ensures p != 0 ==> owned == old(owned) + Range(old(brk), CoreUnits(nu)) && brk == old(brk) + CoreUnits(nu)
    {
      hide WellFormed;
      hide Core;
      hide Freed;
      var n := CoreUnits(nu);
      if !granted || brk + n > mem.Length {
        return 0;
      }
      ghost var a := View();
      GrowCorrect(a, n);
      var hp := brk;
      brk := brk + n;
      mem[hp] := mem[hp].(size := n);
      ghost var g := Grown(a, n);
      blocks, owned := g.blocks, g.owned;
      assert View() == g;
      Free(hp + 1);
      return freep;
    }

    /** The exit of `malloc`: hand out `n` units of the block at `p`, whose predecessor is `prevp`. */
    method Carve(prevp: nat, p: nat, n: nat, ghost i: nat) returns (r: nat)
      requires Valid() && freep != 0 && n > 0
      requires i + 1 < |list| && list[i] == prevp && list[i + 1] == p && p < mem.Length && mem[p].size >= n
      modifies this, mem
      ensures Valid() && freep != 0 && r > 0 && brk == old(brk) && owned == old(owned)
      ensures r - 1 !in old(Live(View())) && Live(View()) == old(Live(View()))[r - 1 := n]
    {
      hide Core;
      hide WellFormed;
      hide Live;
      ghost var a := View();
      MemberFacts(a, i);
      MemberFacts(a, i + 1);
      if mem[p].size == n {
        TakeCorrect(a, i);
        mem[prevp] := mem[prevp].(ptr := mem[p].ptr);
        r := p + 1;
        freep, list := prevp, Taken(a, i).list;
        assert View() == Taken(a, i);
      } else {
        CutCorrect(a, i + 1, n);
        mem[p] := mem[p].(size := mem[p].size - n);
        r := p + mem[p].size + 1;
        mem[r - 1] := mem[r - 1].(size := n);
        freep, blocks := prevp, Cut(a, i + 1, n).blocks;
        assert View() == Cut(a, i + 1, n);
      }
    }

    /** The first call of `malloc` makes the list consist of `base`. */
    method Start()
      requires Valid()
      modifies this, mem
      ensures Valid() && freep != 0 && brk == old(brk) && owned == old(owned)
      ensures Live(View()) == old(Live(View()))
      ensures forall n :: n > 0 ==> (Fits(View(), n) <==> old(Fits(View(), n)))
      ensures old(freep) != 0 ==> View() == old(View()) && freep == old(freep)
    {
      if freep == 0 {
        mem[base] := Header(base, 0);
        freep, list := base, [base];
        EmptyWellFormed(mem[..], base, brk);
        assert View() == Arena(mem[..], [base], map[], {}, base, brk);
      }
    }

    /**
     The walk of `malloc` from `freep` round the circle to the first block with `n` units,
     or back to `freep` when there is none.
     */
    method Walk(n: nat) returns (found: bool, prevp: nat, p: nat, ghost i: nat)
      requires Valid() && freep != 0 && n > 0
      ensures found <==> Fits(View(), n)
      ensures found ==> i + 1 < |list| && list[i] == prevp && list[i + 1] == p && p < mem.Length && mem[p].size >= n
    {
      hide WellFormed;
      prevp := freep;
      i :| 0 <= i < |list| && list[i] == prevp;
      ghost var j := i;
      MemberFacts(View(), i);
      p := mem[prevp].ptr;
      while true
        invariant 0 <= i < |list| && prevp == list[i] && p == Next(list, i)
        invariant NoneFit(View(), j, i, n)
        decreases if i < j then j - i else |list| - i + j
      {
        ghost var next := if i + 1 < |list| then i + 1 else 0;
        MemberFacts(View(), next);
        if mem[p].size >= n {
          FitsHere(View(), next, n);
          return true, prevp, p, i;
        }
        NoneFitStep(View(), j, i, n);
        if p == freep {
          SameMember(View(), next, j);
          NothingFits(View(), j, i, n);
          return false, prevp, p, i;
        }
        i := next;
        prevp, p := p, mem[p].ptr;
      }
    }

    /**
     `malloc`: first fit, growing the heap at most once.
     The result is null exactly when nothing fits and the kernel refuses to grow.  The call is not `safe` when
     `sbrk` would be asked for nothing or to shrink the process; the state is then the one in which that happens.
     */
    method Malloc(nbytes: nat, granted: bool) returns (r: nat, safe: bool)
      requires Valid() && nbytes < TWO_32
      modifies this, mem
      ensures Valid()
      ensures nbytes <= TWO_32 - HEADER_BYTES <==> (UnitsFor(nbytes) - 1) * HEADER_BYTES >= nbytes
      ensures safe <==> old(Fits(View(), UnitsFor(nbytes))) || Asked(UnitsFor(nbytes))
      ensures !safe ==> r == 0 && !Fits(View(), UnitsFor(nbytes))
      ensures var n := UnitsFor(nbytes);
              && (safe ==> (r == 0 <==>
                   !old(Fits(View(), n)) && !(granted && old(brk) + CoreUnits(n) <= mem.Length)))
              && (r == 0 ==> Live(View()) == old(Live(View())))
              && (r != 0 ==> r - 1 !in old(Live(View())) && Live(View()) == old(Live(View()))[r - 1 := n])
              && (r == 0 || old(Fits(View(), n)) ==> owned == old(owned) && brk == old(brk))
              && (r != 0 && !old(Fits(View(), n)) ==>
                    owned == old(owned) + Range(old(brk), CoreUnits(n)) && brk == old(brk) + CoreUnits(n))
    {
      hide WellFormed;
      hide Live;
      hide UnitsFor;
      hide CoreUnits;
      hide Fits;
      hide Range;
      ShortPayloads(nbytes);
      hide Asked;
      var n := UnitsFor(nbytes);
      Start();
      ghost var a := View();
      ghost var grown := false;
      while true
        invariant Valid() && freep != 0
        invariant Live(View()) == Live(a)
        invariant if grown then Asked(n) && !Fits(a, n) && granted && a.brk + CoreUnits(n) <= mem.Length
                                && Fits(View(), n) && owned == a.owned + Range(a.brk, CoreUnits(n))
                                && brk == a.brk + CoreUnits(n)
                  else View() == a
        decreases !grown
      {
        var found, prevp, p, i := Walk(n);
        if found {
          r := Carve(prevp, p, n, i);
          return r, true;
        }
        if !Asked(n) {
          return 0, false;
        }
        p := MoreCore(n, granted);
        if p == 0 {
          return 0, true;
        }
        grown := true;
      }
    }

    /** The program writes a unit of the payload of a live block; the allocator does not notice. */
    method Store(b: nat, u: nat, h: Header)
      requires Valid() && b in Live(View()) && b < u < b + Live(View())[b]
      modifies mem
      ensures Valid() && mem[..] == old(mem[..])[u := h]
    {
      assert WellFormed(View());
      ghost var a := View();
      mem[u] := h;
      StoreCore(a, b, u, h);
      assert View() == a.(mem := a.mem[u := h]);
    }

    /** The program moves the break itself. */
    method Sbrk(n: nat)
      requires Valid() && brk + n <= mem.Length
      modifies `brk
      ensures Valid() && brk == old(brk) + n && Live(View()) == old(Live(View()))
    {
      ghost var a := View();
      brk := brk + n;
      if freep != 0 {
        assert WellFormed(a);
        forall i: nat ensures !Touch(View(), i) { assert !Touch(a, i); }
      }
    }

    /**
     Any program: `malloc` calls of any size answered either way by the kernel, frees of any
     pointer still held, and breaks moved by the program, in any order.  It runs to its end, or to
     the first call that would ask `sbrk` for nothing or to shrink the process.
     */
    method Run(script: seq<Call>) returns (held: set<nat>, done: nat)
      requires Valid() && Live(View()) == map[]
      requires forall c :: c in script && c.Malloc? ==> c.nbytes < TWO_32
      modifies this, mem
      ensures Valid() && Live(View()).Keys == held && done <= |script|
      ensures done < |script| ==> script[done].Malloc? && !Asked(UnitsFor(script[done].nbytes)) &&
                                  !Fits(View(), UnitsFor(script[done].nbytes))
      ensures freep != 0 ==> Total(FreeBlocks(View())) + Total(Live(View())) == |owned|
    {
      hide WellFormed;
      hide Core;
      hide Freed;
      hide Asked;
      hide Fits;
      held, done := {}, 0;
      while done < |script|
        invariant Valid() && Live(View()).Keys == held && done <= |script|
        decreases |script| - done
      {
        match script[done] {
          case Malloc(nbytes, granted) =>
            var r, safe := Malloc(nbytes, granted);
            if !safe { break; }
            if r != 0 { held := held + {r - 1}; }
          case Free(bp) =>
            if bp in held {
              ghost var a := View();
              assert Core(a) by { FreeCorrect(a, bp); }
              Free(bp + 1);
              held := held - {bp};
            }
          case Sbrk(n) =>
            if brk + n <= mem.Length { Sbrk(n); }
        }
        done := done + 1;
      }
      if freep != 0 { Conservation(View()); }
    }
  }
}
