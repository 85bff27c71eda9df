/** Slots of a ring of 128 or 512 bytes, addressed by 32-bit counters that wrap. */
module Counters {
  import opened Basics

  ghost predicate RingSize(size: nat) {
    size == 128 || size == 512
  }

  lemma ModAdd(x: nat, m: nat, size: nat)
    requires RingSize(size)
    ensures (x + m * size) % size == x % size
  {
    if size == 128 {
      assert (x + m * 128) / 128 == x / 128 + m;
    } else {
      assert (x + m * 512) / 512 == x / 512 + m;
    }
  }

  /** A counter that wraps still leads to the same slot, because the ring's size divides 2^32. */
  lemma WrapSlot(n: nat, size: nat)
    requires RingSize(size)
    ensures n % TWO_32 % size == n % size
  {
    assert n == n / TWO_32 * TWO_32 + n % TWO_32;
    if size == 128 {
      assert n / TWO_32 * TWO_32 == n / TWO_32 * 0x200_0000 * 128;
      ModAdd(n % TWO_32, n / TWO_32 * 0x200_0000, 128);
    } else {
      assert n / TWO_32 * TWO_32 == n / TWO_32 * 0x80_0000 * 512;
      ModAdd(n % TWO_32, n / TWO_32 * 0x80_0000, 512);
    }
  }

  lemma ModSum(x: nat, k: nat, size: nat)
    requires RingSize(size)
    ensures (x + k) % size == (x % size + k) % size
  {
    assert x == x % size + x / size * size;
    ModAdd(x % size + k, x / size, size);
  }

  /** Counting on from a wrapped counter or from the unwrapped one is the same. */
  lemma SameSlot(n: nat, k: nat, size: nat)
    requires RingSize(size)
    ensures (n % TWO_32 + k) % size == (n + k) % size
  {
    WrapSlot(n, size);
    ModSum(n % TWO_32, k, size);
    ModSum(n, k, size);
  }

  /** Slots less than a ring apart are different. */
  lemma OtherSlot(r: nat, j: nat, k: nat, size: nat)
    requires RingSize(size) && j < k < size
    ensures (r + j) % size != (r + k) % size
  {
    if size == 128 {
      assert (r + j) % 128 != (r + k) % 128;
    } else {
      assert (r + j) % 512 != (r + k) % 512;
    }
  }

  /** How far counter `b` is ahead of counter `a`. */
  function Ahead(a: nat, b: nat): nat {
    (b - a) % TWO_32
  }

  lemma AheadCases(a: nat, b: nat)
    requires a < TWO_32 && b < TWO_32
    ensures Ahead(a, b) == b - a + if b >= a then 0 else TWO_32
    ensures (a + Ahead(a, b)) % TWO_32 == b
  {
  }

  /** Moving the front counter on, or the back counter on, by one. */
  lemma AheadStep(a: nat, b: nat)
    requires a < TWO_32 && b < TWO_32
    ensures Ahead(a, b) < TWO_32 - 1 ==> Ahead(a, (b + 1) % TWO_32) == Ahead(a, b) + 1
    ensures a != b ==> Ahead((a + 1) % TWO_32, b) == Ahead(a, b) - 1 && Ahead(a, (b - 1) % TWO_32) == Ahead(a, b) - 1
  {
    AheadCases(a, b);
    AheadCases(a, (b + 1) % TWO_32);
    AheadCases((a + 1) % TWO_32, b);
    AheadCases(a, (b - 1) % TWO_32);
  }

  /** The `n` bytes of a ring from counter `r` on. */
  ghost function Window(data: seq<Byte>, r: nat, n: nat): seq<Byte>
    requires RingSize(|data|)
  {
    seq(n, k requires 0 <= k < n => data[(r + k) % |data|])
  }

  /** Writing at the front counter adds a byte at the end. */
  lemma WindowPut(data: seq<Byte>, r: nat, w: nat, b: Byte)
    requires RingSize(|data|) && r < TWO_32 && w < TWO_32 && Ahead(r, w) < |data|
    ensures Window(data[w % |data| := b], r, Ahead(r, w) + 1) == Window(data, r, Ahead(r, w)) + [b]
  {
    var n, size := Ahead(r, w), |data|;
    AheadCases(r, w);
    WrapSlot(r + n, size);
    hide Ahead;
    forall k | 0 <= k < n ensures Window(data[w % size := b], r, n + 1)[k] == Window(data, r, n)[k] {
      OtherSlot(r, k, n, size);
    }
  }

  /** Moving the back counter on drops the first byte. */
  lemma WindowTake(data: seq<Byte>, r: nat, n: nat)
    requires RingSize(|data|) && r < TWO_32 && n > 0
    ensures Window(data, r, n) == [data[r % |data|]] + Window(data, (r + 1) % TWO_32, n - 1)
  {
    var all, rest := Window(data, r, n), Window(data, (r + 1) % TWO_32, n - 1);
    forall k | 0 <= k < |rest| ensures rest[k] == all[k + 1] {
      SameSlot(r + 1, k, |data|);
    }
  }

  /** The last byte of a window is the one before the front counter. */
  lemma WindowLast(data: seq<Byte>, r: nat, w: nat)
    requires RingSize(|data|) && r < TWO_32 && w < TWO_32 && r != w
    ensures Ahead(r, w) > 0 && Window(data, r, Ahead(r, w))[Ahead(r, w) - 1] == data[(w - 1) % TWO_32 % |data|]
  {
    var n := Ahead(r, w);
    AheadCases(r, w);
    assert (r + (n - 1)) % TWO_32 == (w - 1) % TWO_32;
    WrapSlot(r + (n - 1), |data|);
  }
}
