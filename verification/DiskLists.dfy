/**
 The two linked structures behind the buffer cache: the doubly linked list of all
 buffers in order of use, and the singly linked queue of disk requests.  Their
 methods perform exactly the list operations of the transition system in
 `BufferCache`.
 */
module DiskLists {
  import opened Basics
  import opened BufferCache

  // ---------------------------------------------------------------- circular doubly linked lists

  /** The members of `order` with `head` before the first and after the last. */
  function At(order: seq<nat>, head: nat, i: int): nat {
    if 0 <= i < |order| then order[i] else head
  }

  function Succ(order: seq<nat>, head: nat, i: int): nat {
    At(order, head, i + 1)
  }

  function Pred(order: seq<nat>, head: nat, i: int): nat {
    At(order, head, i - 1)
  }

  ghost predicate Members(order: seq<nat>, head: nat, n: nat) {
    && head < n
    && (forall i :: 0 <= i < |order| ==> order[i] < n && order[i] != head)
    && (forall i, j :: 0 <= i < j < |order| ==> order[i] != order[j])
  }

  /** `next` and `prev` thread `order` in both directions, closed through `head`. */
  ghost predicate Threads(next: seq<nat>, prev: seq<nat>, order: seq<nat>, head: nat) {
    && |next| == |prev| && Members(order, head, |next|)
    && (forall i {:trigger Succ(order, head, i)} :: -1 <= i < |order| ==>
         next[At(order, head, i)] == Succ(order, head, i))
    && (forall i {:trigger Pred(order, head, i)} :: 0 <= i <= |order| ==>
         prev[At(order, head, i)] == Pred(order, head, i))
  }

  function Dropped(order: seq<nat>, i: nat): seq<nat>
    requires i < |order|
  {
    seq(|order| - 1, k requires 0 <= k < |order| - 1 => if k < i then order[k] else order[k + 1])
  }

  function Fronted(order: seq<nat>, b: nat): seq<nat> {
    seq(|order| + 1, k requires 0 <= k < |order| + 1 => if k == 0 then b else order[k - 1])
  }

  lemma UnlinkNext(next: seq<nat>, order: seq<nat>, head: nat, i: nat, k: int)
    requires Members(order, head, |next|) && i < |order| && -1 <= k < |order| - 1
    requires forall j {:trigger Succ(order, head, j)} :: -1 <= j < |order| ==>
               next[At(order, head, j)] == Succ(order, head, j)
    ensures next[Pred(order, head, i) := Succ(order, head, i)][At(Dropped(order, i), head, k)] ==
              Succ(Dropped(order, i), head, k)
  {
    var j := if k < i then k else k + 1;
    assert next[At(order, head, j)] == Succ(order, head, j);
  }

  lemma UnlinkPrev(prev: seq<nat>, order: seq<nat>, head: nat, i: nat, k: int)
    requires Members(order, head, |prev|) && i < |order| && 0 <= k <= |order| - 1
    requires forall j {:trigger Pred(order, head, j)} :: 0 <= j <= |order| ==>
               prev[At(order, head, j)] == Pred(order, head, j)
    ensures prev[Succ(order, head, i) := Pred(order, head, i)][At(Dropped(order, i), head, k)] ==
              Pred(Dropped(order, i), head, k)
  {
    var j := if k < i then k else k + 1;
    assert prev[At(order, head, j)] == Pred(order, head, j);
  }

  lemma Unlink(next: seq<nat>, prev: seq<nat>, order: seq<nat>, head: nat, i: nat)
    requires Threads(next, prev, order, head) && i < |order|
    ensures var b := order[i];
            && next[b] < |next| && prev[b] < |prev|
            && Threads(next[prev[b] := next[b]], prev[next[b] := prev[b]], Dropped(order, i), head)
  {
    var b, o := order[i], Dropped(order, i);
    assert next[b] == Succ(order, head, i) && prev[b] == Pred(order, head, i);
    forall k | -1 <= k < |o| ensures next[prev[b] := next[b]][At(o, head, k)] == Succ(o, head, k) {
      UnlinkNext(next, order, head, i, k);
    }
    forall k | 0 <= k <= |o| ensures prev[next[b] := prev[b]][At(o, head, k)] == Pred(o, head, k) {
      UnlinkPrev(prev, order, head, i, k);
    }
  }

  lemma LinkFront(next: seq<nat>, prev: seq<nat>, order: seq<nat>, head: nat, b: nat)
    requires Threads(next, prev, order, head) && b < |next| && b != head && b !in order
    ensures next[head] < |next|
    ensures Threads(next[b := next[head]][head := b], prev[b := head][next[head] := b], Fronted(order, b), head)
  {
    var o := Fronted(order, b);
    assert next[head] == Succ(order, head, -1);
    var n, p := next[b := next[head]][head := b], prev[b := head][next[head] := b];
    forall k | -1 <= k < |o| ensures n[At(o, head, k)] == Succ(o, head, k) {
      if k >= 1 { assert next[At(order, head, k - 1)] == Succ(order, head, k - 1); }
    }
    forall k | 0 <= k <= |o| ensures p[At(o, head, k)] == Pred(o, head, k) {
      if k >= 1 { assert prev[At(order, head, k - 1)] == Pred(order, head, k - 1); }
    }
  }

  lemma DropThenFront(order: seq<nat>, i: nat)
    requires i < |order| && forall j, k :: 0 <= j < k < |order| ==> order[j] != order[k]
    ensures order[i] !in Dropped(order, i)
    ensures Fronted(Dropped(order, i), order[i]) == ToFront(order, i)
  {
  }

  /** `diskBufferCache`: the buffers, their links, and the head of the list at index `n`. */
  class Cache {
    const n: nat
    const bufs: array<Buf>
    const next: array<nat>
    const prev: array<nat>
    ghost var order: seq<nat>

    ghost predicate Valid()
      reads this, bufs, next, prev
    {
      && bufs.Length == n && next.Length == n + 1 && prev.Length == n + 1 && next != prev
      && Threads(next[..], prev[..], order, n)
      && Permutation(order, n)
    }

    /** `diskBufferCacheInitialise`. */
    constructor (size: nat)
      ensures n == size && Valid() && fresh(bufs) && fresh(next) && fresh(prev)
      ensures order == seq(size, i requires 0 <= i < size => size - 1 - i)
      ensures bufs[..] == seq(size, _ => InitialBuf())
    {
      n := size;
      bufs := new Buf[size](_ => InitialBuf());
      next := new nat[size + 1](_ => size);
      prev := new nat[size + 1](_ => size);
      order := [];
      new;
      assert Threads(next[..], prev[..], [], size);
      assert bufs[..] == seq(size, _ => InitialBuf());
      for b := 0 to size
        invariant next.Length == size + 1 && prev.Length == size + 1 && next != prev
        invariant Threads(next[..], prev[..], order, size)
        invariant order == seq(b, i requires 0 <= i < b => b - 1 - i)
        invariant bufs[..] == seq(size, _ => InitialBuf())
      {
        LinkFront(next[..], prev[..], order, size, b);
        ghost var nx: seq<nat>, pv: seq<nat> := next[..], prev[..];
        next[b] := next[size];
        prev[b] := size;
        prev[next[size]] := b;
        next[size] := b;
        assert next[..] == nx[b := nx[size]][size := b];
        assert prev[..] == pv[b := size][nx[size] := b];
        order := Fronted(order, b);
      }
      forall b | 0 <= b < size ensures b in order {
        assert order[size - 1 - b] == b;
      }
    }

    /** The first loop of `diskBufferGet`. */
    method FindCached(k: Key) returns (r: Option<nat>)
      requires Valid()
      ensures r.Some? <==> FindKey(bufs[..], order, k, 0).Some?
      ensures r.Some? ==> r.value == order[FindKey(bufs[..], order, k, 0).value]
    {
      var b := next[n];
      ghost var i := 0;
      assert next[..][At(order, n, -1)] == Succ(order, n, -1);
      while b != n
        invariant 0 <= i <= |order| && b == At(order, n, i)
        invariant FindKey(bufs[..], order, k, 0) == FindKey(bufs[..], order, k, i)
        decreases |order| - i
      {
        if bufs[b].key == k {
          return Some(b);
        }
        assert next[..][At(order, n, i)] == Succ(order, n, i);
        b := next[b];
        i := i + 1;
      }
      return None;
    }
  
    /** The second loop of `diskBufferGet`, from the least recently used end. */
    method FindRecyclable() returns (r: Option<nat>)
      requires Valid()
      ensures r.Some? <==> FindFree(bufs[..], order, |order|).Some?
      ensures r.Some? ==> r.value == order[FindFree(bufs[..], order, |order|).value]
    {
      var b := prev[n];
      ghost var i := |order|;
      assert prev[..][At(order, n, i)] == Pred(order, n, i);
      while b != n
        invariant 0 <= i <= |order| && b == At(order, n, i - 1)
        invariant FindFree(bufs[..], order, |order|) == FindFree(bufs[..], order, i)
        decreases i
      {
        if bufs[b].refs == 0 && !bufs[b].dirty {
          return Some(b);
        }
        assert prev[..][At(order, n, i - 1)] == Pred(order, n, i - 1);
        b := prev[b];
        i := i - 1;
      }
      return None;
    }

    /** `diskBufferGet` up to the sleeping lock; `None` is the panic "no buffers". */
    method Get(k: Key) returns (r: Option<nat>)
      requires Valid()
      modifies bufs
      ensures Valid()
      ensures match FindKey(old(bufs[..]), order, k, 0)
              case Some(i) =>
                var b := order[i];
                r == Some(b) && bufs[..] == old(bufs[..])[b := old(bufs[b]).(refs := old(bufs[b]).refs + 1)]
              case None =>
                match FindFree(old(bufs[..]), order, |order|)
                case Some(i) =>
                  var b := order[i];
                  r == Some(b) && bufs[..] ==
                    old(bufs[..])[b := old(bufs[b]).(key := k, valid := false, dirty := false, refs := 1)]
                case None => r == None && bufs[..] == old(bufs[..])
    {
      r := FindCached(k);
      if r.Some? {
        var b := r.value;
        bufs[b] := bufs[b].(refs := bufs[b].refs + 1);
        return;
      }
      r := FindRecyclable();
      if r.Some? {
        var b := r.value;
        bufs[b] := bufs[b].(key := k, valid := false, dirty := false, refs := 1);
      }
    }

    /** Unlink `b` and link it in again at the front. */
    method MoveToFront(b: nat, ghost i: nat)
      requires Valid() && b < n && i < |order| && order[i] == b
      modifies this, next, prev
      ensures Valid() && order == ToFront(old(order), i)
    {
      ghost var nx: seq<nat>, pv: seq<nat> := next[..], prev[..];
      Unlink(nx, pv, order, n, i);
      prev[next[b]] := prev[b];
      next[prev[b]] := next[b];
      ghost var nx1: seq<nat>, pv1: seq<nat> := nx[pv[b] := nx[b]], pv[nx[b] := pv[b]];
      assert next[..] == nx1 && prev[..] == pv1;
      DropThenFront(order, i);
      ToFrontPermutes(order, i, n);
      LinkFront(nx1, pv1, Dropped(order, i), n, b);
      next[b] := next[n];
      prev[b] := n;
      prev[next[n]] := b;
      next[n] := b;
      assert next[..] == nx1[b := nx1[n]][n := b];
      assert prev[..] == pv1[b := n][nx1[n] := b];
      order := ToFront(order, i);
    }

    /** The critical section of `diskBufferRelease`. */
    method Release(b: nat, ghost i: nat)
      requires Valid() && b < n && i < |order| && order[i] == b && bufs[b].refs > 0
      modifies this, bufs, next, prev
      ensures Valid()
      ensures bufs[..] == old(bufs[..])[b := old(bufs[b]).(refs := old(bufs[b]).refs - 1)]
      ensures order == if old(bufs[b]).refs == 1 then ToFront(old(order), i) else old(order)
    {
      bufs[b] := bufs[b].(refs := bufs[b].refs - 1);
      if bufs[b].refs == 0 {
        MoveToFront(b, i);
      }
    }
  }

  // ---------------------------------------------------------------- the request queue

  /** `QueueNext` threads `queue` from its first member to the end marker `n`. */
  ghost predicate Chain(link: seq<nat>, queue: seq<nat>, n: nat) {
    && |link| == n
    && (forall i :: 0 <= i < |queue| ==> queue[i] < n)
    && (forall i, j :: 0 <= i < j < |queue| ==> queue[i] != queue[j])
    && (forall i {:trigger Succ(queue, n, i)} :: 0 <= i < |queue| ==> link[queue[i]] == Succ(queue, n, i))
  }

  /** `idequeue` with the `QueueNext` links; `n` is the null pointer. */
  class RequestQueue {
    const n: nat
    const link: array<nat>
    var first: nat
    ghost var queue: seq<nat>

    ghost predicate Valid()
      reads this, link
    {
      Chain(link[..], queue, n) && first == At(queue, n, 0)
    }

    constructor (size: nat)
      ensures n == size && Valid() && queue == [] && fresh(link)
    {
      n := size;
      link := new nat[size](_ => size);
      first := size;
      queue := [];
    }

    /** The walk of `ideReadWrite` to the end of the queue. */
    method Last() returns (pp: nat)
      requires Valid() && queue != []
      ensures pp == queue[|queue| - 1]
    {
      pp := first;
      ghost var i := 0;
      assert link[..][queue[0]] == Succ(queue, n, 0);
      while link[pp] != n
        invariant 0 <= i < |queue| && pp == queue[i] && link[pp] == Succ(queue, n, i)
        decreases |queue| - i
      {
        pp := link[pp];
        i := i + 1;
        assert link[..][queue[i]] == Succ(queue, n, i);
      }
    }

    /** The append in `ideReadWrite`; the result says whether the disk must be started. */
    method Append(b: nat) returns (start: bool)
      requires Valid() && b < n && b !in queue
      modifies this, link
      ensures Valid() && queue == old(queue) + [b] && start == (old(queue) == [])
    {
      ghost var q := queue;
      start := first == n;
      if start {
        link[b] := n;
        first := b;
      } else {
        var pp := Last();
        link[b] := n;
        link[pp] := b;
      }
      queue := q + [b];
      forall j | 0 <= j < |queue| ensures link[..][queue[j]] == Succ(queue, n, j) {
        if j < |q| { assert old(link[..])[q[j]] == Succ(q, n, j); }
      }
    }

    /** The head of the queue leaves it in `ideInterruptHandler`. */
    method Pop() returns (b: nat)
      requires Valid() && queue != []
      modifies this
      ensures Valid() && b == old(queue)[0] && queue == old(queue)[1..]
    {
      b := first;
      ghost var q := queue;
      assert link[..][q[0]] == Succ(q, n, 0);
      first := link[b];
      queue := q[1..];
      forall j | 0 <= j < |queue| ensures link[..][queue[j]] == Succ(queue, n, j) {
        assert link[..][q[j + 1]] == Succ(q, n, j + 1);
      }
    }
  }
}
