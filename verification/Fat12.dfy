/**
 FAT12: the packed table of cluster links, reading within a cluster sector by sector, and
 reading a file along its chain of clusters.
 */
module Fat12 {
  import opened Basics

  const SECTOR: nat := 512
  const FAT_BYTES: nat := 5120      // the table in memory has room for ten sectors

  // ---------------------------------------------------------------- the table

  /** The table has a little-endian 16-bit word for cluster `k` at byte k * 1.5. */
  predicate InFat(fat: seq<Byte>, k: nat) {
    k + k / 2 + 1 < |fat|
  }

  /** The 12-bit entry for cluster `k`: the low bits of its word when `k` is even, the high bits when odd. */
  function Entry(fat: seq<Byte>, k: nat): (e: nat)
    requires InFat(fat, k)
    ensures e < 4096
  {
    var low: nat, high: nat := fat[k + k / 2], fat[k + k / 2 + 1];
    var word := low + 256 * high;
    if k % 2 == 1 then word / 16 else word % 4096
  }

  /** `fsFat12GetNextCluster`: 0 at the end of a chain, or where the table is corrupt. */
  function NextCluster(fat: seq<Byte>, k: nat): (e: nat)
    requires InFat(fat, k)
  {
    if Entry(fat, k) >= 0xff8 then 0 else Entry(fat, k)
  }

  /** Two 12-bit entries in three bytes. */
  function PackPair(a: nat, b: nat): (r: seq<Byte>)
    requires a < 4096 && b < 4096
    ensures |r| == 3
  {
    [a % 256, a / 256 + 16 * (b % 16), b / 16]
  }

  ghost predicate Entries(s: seq<nat>) {
    forall k :: 0 <= k < |s| ==> s[k] < 4096
  }

  /** A table of entries, packed. */
  function Pack(s: seq<nat>): (r: seq<Byte>)
    requires |s| % 2 == 0 && Entries(s)
    ensures |r| == |s| / 2 * 3
    decreases |s|
  {
    if s == [] then [] else PackPair(s[0], s[1]) + Pack(s[2..])
  }

  lemma PairEntries(a: nat, b: nat, rest: seq<Byte>)
    requires a < 4096 && b < 4096
    ensures Entry(PackPair(a, b) + rest, 0) == a && Entry(PackPair(a, b) + rest, 1) == b
  {
  }

  /** Dropping a pair from the front moves every entry down by two. */
  lemma EntryShift(three: seq<Byte>, rest: seq<Byte>, k: nat)
    requires |three| == 3 && k >= 2 && InFat(three + rest, k)
    ensures InFat(rest, k - 2) && Entry(three + rest, k) == Entry(rest, k - 2)
  {
    assert k + k / 2 == 3 + (k - 2) + (k - 2) / 2;
  }

  /** Decoding inverts packing, for every table. */
  lemma {:induction false} DecodePack(s: seq<nat>, k: nat)
    requires |s| % 2 == 0 && Entries(s) && k < |s|
    ensures InFat(Pack(s), k) && Entry(Pack(s), k) == s[k]
    decreases |s|
  {
    hide Entry;
    hide PackPair;
    if k < 2 {
      PairEntries(s[0], s[1], Pack(s[2..]));
    } else {
      DecodePack(s[2..], k - 2);
      EntryShift(PackPair(s[0], s[1]), Pack(s[2..]), k);
    }
  }

  ghost function Decoded(fat: seq<Byte>): seq<nat>
    requires |fat| % 3 == 0
  {
    seq(|fat| / 3 * 2, k requires 0 <= k < |fat| / 3 * 2 => Entry(fat, k))
  }

  lemma PairArithmetic(x: nat, y: nat, z: nat)
    requires x < 256 && y < 256 && z < 256
    ensures var a, b := (x + 256 * y) % 4096, (y + 256 * z) / 16;
            a < 4096 && b < 4096 && a % 256 == x && a / 256 + 16 * (b % 16) == y && b / 16 == z
  {
    Parts(y / 16, x + 256 * (y % 16), 4096);
    Parts(y / 16 + 16 * z, y % 16, 16);
    Parts(y % 16, x, 256);
    Parts(z, y / 16, 16);
  }

  lemma Parts(q: nat, r: nat, m: nat)
    requires r < m && (m == 16 || m == 256 || m == 4096)
    ensures (m * q + r) / m == q && (m * q + r) % m == r
  {
  }

  lemma PairBytes(fat: seq<Byte>)
    requires |fat| >= 3
    ensures PackPair(Entry(fat, 0), Entry(fat, 1)) == fat[..3]
  {
    PairArithmetic(fat[0], fat[1], fat[2]);
  }

  lemma DecodedShift(fat: seq<Byte>)
    requires |fat| % 3 == 0 && fat != []
    ensures |Decoded(fat)| == 2 + |Decoded(fat[3..])| && Decoded(fat)[2..] == Decoded(fat[3..])
  {
    var rest := fat[3..];
    assert fat == fat[..3] + rest;
    forall k | 2 <= k < |Decoded(fat)| ensures Decoded(fat)[k] == Decoded(rest)[k - 2] {
      EntryShift(fat[..3], rest, k);
    }
  }

  /** Packing inverts decoding, for every sequence of whole pairs. */
  lemma {:induction false} PackDecode(fat: seq<Byte>)
    requires |fat| % 3 == 0
    ensures |Decoded(fat)| % 2 == 0 && Entries(Decoded(fat)) && Pack(Decoded(fat)) == fat
    decreases |fat|
  {
    hide Entry;
    hide PackPair;
    if fat != [] {
      var rest := fat[3..];
      PackDecode(rest);
      PairBytes(fat);
      assert fat == fat[..3] + rest;
      DecodedShift(fat);
      var all := Decoded(fat);
      assert all[0] == Entry(fat, 0) && all[1] == Entry(fat, 1);
    }
  }

  /** Clusters from 3413 on have their entries outside the table in memory, though 12-bit numbers reach 4079. */
  lemma TableBound(fat: seq<Byte>, k: nat)
    requires |fat| == FAT_BYTES
    ensures InFat(fat, k) <==> k <= 3412
  {
  }

  // ---------------------------------------------------------------- sectors

  /** A sector's bytes, and the memory that lies behind them in the buffer cache when it is cached. */
  datatype Slot = Slot(data: seq<Byte>, behind: seq<Byte>)

  ghost predicate SlotOk(x: Slot) {
    |x.data| == SECTOR && |x.behind| == SECTOR
  }

  /** The disk, where its clusters start (`RootOffset + RootSize`), and sectors per cluster. */
  datatype Volume = Volume(fat: seq<Byte>, disk: seq<Slot>, base: nat, spc: nat)

  ghost predicate VolumeOk(v: Volume) {
    v.spc > 0 && forall k :: 0 <= k < |v.disk| ==> SlotOk(v.disk[k])
  }

  function ClusterSize(v: Volume): nat {
    v.spc * SECTOR
  }

  /** Sector `n`; nothing is said of sectors past the end of the disk, which read as zeros. */
  function SlotAt(v: Volume, n: nat): (x: Slot)
    ensures VolumeOk(v) ==> SlotOk(x)
  {
    if n < |v.disk| then v.disk[n] else Slot(seq(SECTOR, _ => 0), seq(SECTOR, _ => 0))
  }

  /** The first sector of a cluster; clusters are numbered from 2, and the arithmetic is on 32 bits. */
  function FirstSector(v: Volume, cluster: nat): nat {
    (v.base + (cluster - 2) * v.spc) % TWO_32
  }

  /** Byte `k` of the run of sectors that starts at `first`. */
  ghost function SectorByte(v: Volume, first: nat, k: nat): Byte
    requires VolumeOk(v)
  {
    SlotAt(v, first + k / SECTOR).data[k % SECTOR]
  }

  /** The bytes of a cluster. */
  ghost function Cluster(v: Volume, cluster: nat): seq<Byte>
    requires VolumeOk(v)
  {
    seq(ClusterSize(v), k requires 0 <= k < ClusterSize(v) => SectorByte(v, FirstSector(v, cluster), k))
  }

  // ---------------------------------------------------------------- reading within a cluster

  function Min(a: nat, b: nat): nat {
    if a < b then a else b
  }

  /** A read from the buffer of a sector; past 512 bytes it sees whatever lies behind. */
  function FromBuffer(x: Slot, offset: nat, n: nat): seq<Byte>
    requires |x.data| == SECTOR && |x.behind| == SECTOR && offset <= SECTOR && n <= SECTOR
  {
    (x.data + x.behind)[offset..offset + n]
  }

  /** The loop of `fsFat12ReadCluster`: chunks of up to 512 bytes, the first at `offset` into its sector. */
  ghost function Chunks(v: Volume, sector: nat, offset: nat, size: nat): seq<Byte>
    requires VolumeOk(v) && offset < SECTOR
    decreases size
  {
    if size == 0 then []
    else FromBuffer(SlotAt(v, sector), offset, Min(size, SECTOR)) + Chunks(v, sector + 1, 0, size - Min(size, SECTOR))
  }

  /** What a call asks for, after clamping: where in the cluster, and how much. */
  function StartOf(v: Volume, offset: nat): nat {
    if offset >= ClusterSize(v) then 0 else offset
  }

  function AmountOf(v: Volume, offset: nat, size: nat): nat
    requires v.spc > 0
  {
    Min(size, ClusterSize(v) - StartOf(v, offset))
  }

  ghost function ClusterRead(v: Volume, cluster: nat, offset: nat, size: nat): seq<Byte>
    requires VolumeOk(v)
  {
    var start := StartOf(v, offset);
    Chunks(v, FirstSector(v, cluster) + start / SECTOR, start % SECTOR, AmountOf(v, offset, size))
  }

  lemma {:induction false} ChunksLength(v: Volume, sector: nat, offset: nat, size: nat)
    requires VolumeOk(v) && offset < SECTOR
    ensures |Chunks(v, sector, offset, size)| == size
    decreases size
  {
    if size > 0 { ChunksLength(v, sector + 1, 0, size - Min(size, SECTOR)); }
  }

  /** Chunks that start on a sector boundary are the bytes of the sectors. */
  lemma {:induction false} AlignedChunks(v: Volume, sector: nat, size: nat, k: nat)
    requires VolumeOk(v) && k < size
    ensures |Chunks(v, sector, 0, size)| == size && Chunks(v, sector, 0, size)[k] == SectorByte(v, sector, k)
    decreases size
  {
    ChunksLength(v, sector, 0, size);
    if k >= SECTOR {
      AlignedChunks(v, sector + 1, size - SECTOR, k - SECTOR);
    }
  }

  /** The read stays inside its sectors' buffers. */
  predicate StaysInside(start: nat, amount: nat) {
    start % SECTOR == 0 || start % SECTOR + amount <= SECTOR
  }

  /** Then it gives the bytes that were asked for. */
  lemma InsideRead(v: Volume, cluster: nat, offset: nat, size: nat)
    requires VolumeOk(v) && StaysInside(StartOf(v, offset), AmountOf(v, offset, size))
    ensures var start, n := StartOf(v, offset), AmountOf(v, offset, size);
            start + n <= ClusterSize(v) &&
              ClusterRead(v, cluster, offset, size) == Cluster(v, cluster)[start..start + n]
  {
    hide SectorByte;
    hide Chunks;
    hide FirstSector;
    hide StaysInside;
    var start, n, first := StartOf(v, offset), AmountOf(v, offset, size), FirstSector(v, cluster);
    ChunksLength(v, first + start / SECTOR, start % SECTOR, n);
    var got, want := ClusterRead(v, cluster, offset, size), Cluster(v, cluster)[start..start + n];
    forall k | 0 <= k < n ensures got[k] == want[k] {
      InsideByte(v, first, start, n, k);
      assert want[k] == Cluster(v, cluster)[start + k];
    }
  }

  lemma InsideByte(v: Volume, first: nat, start: nat, n: nat, k: nat)
    requires VolumeOk(v) && StaysInside(start, n) && k < n
    ensures var got := Chunks(v, first + start / SECTOR, start % SECTOR, n);
            |got| == n && got[k] == SectorByte(v, first, start + k)
  {
    ChunksLength(v, first + start / SECTOR, start % SECTOR, n);
    if start % SECTOR == 0 {
      AlignedChunks(v, first + start / SECTOR, n, k);
    }
  }

  /** A disk of zeros whose buffers have ones behind them. */
  ghost function Telltale(fat: seq<Byte>, spc: nat, cluster: nat): Volume {
    var first := (cluster - 2) * spc % TWO_32;
    Volume(fat, seq(first + spc, _ => Slot(seq(SECTOR, _ => 0), seq(SECTOR, _ => 1))), 0, spc)
  }

  /** Otherwise the first chunk runs over the end of its buffer, and what it finds there ends up in the result. */
  lemma OutsideRead(fat: seq<Byte>, spc: nat, cluster: nat, offset: nat, size: nat)
    requires spc > 0
    ensures var v := Telltale(fat, spc, cluster);
            VolumeOk(v) && (!StaysInside(StartOf(v, offset), AmountOf(v, offset, size)) ==>
              !ReadRight(v, cluster, offset, size))
  {
    var v := Telltale(fat, spc, cluster);
    var start, n, first := StartOf(v, offset), AmountOf(v, offset, size), FirstSector(v, cluster);
    if !StaysInside(start, n) {
      var o := start % SECTOR;
      var k := SECTOR - o;
      ChunksLength(v, first + start / SECTOR, o, n);
      TelltaleByte(v, fat, spc, cluster, start, n);
      assert ClusterRead(v, cluster, offset, size)[k] == 1;
      TelltaleZero(v, fat, spc, cluster, start + k);
    }
  }

  /** The call gives what was asked for. */
  ghost predicate ReadRight(v: Volume, cluster: nat, offset: nat, size: nat)
    requires VolumeOk(v)
  {
    var start, n := StartOf(v, offset), AmountOf(v, offset, size);
    start + n <= ClusterSize(v) && ClusterRead(v, cluster, offset, size) == Cluster(v, cluster)[start..start + n]
  }

  lemma TelltaleByte(v: Volume, fat: seq<Byte>, spc: nat, cluster: nat, start: nat, n: nat)
    requires spc > 0 && v == Telltale(fat, spc, cluster) && VolumeOk(v) && start < ClusterSize(v) &&
               !StaysInside(start, n)
    ensures var got := Chunks(v, FirstSector(v, cluster) + start / SECTOR, start % SECTOR, n);
            SECTOR - start % SECTOR < |got| && got[SECTOR - start % SECTOR] == 1
  {
    var first := FirstSector(v, cluster);
    assert start / SECTOR < spc;
    assert first + start / SECTOR < |v.disk|;
  }

  lemma TelltaleZero(v: Volume, fat: seq<Byte>, spc: nat, cluster: nat, k: nat)
    requires spc > 0 && v == Telltale(fat, spc, cluster) && VolumeOk(v) && k < ClusterSize(v)
    ensures Cluster(v, cluster)[k] == 0
  {
  }

  /**
   A read within a cluster is right on every disk, whatever lies behind the buffers, exactly when it starts on
   a sector boundary or does not cross one.
   */
  lemma ReadRightExactly(spc: nat, cluster: nat, offset: nat, size: nat)
    requires spc > 0
    ensures (forall v: Volume :: VolumeOk(v) && v.spc == spc ==> ReadRight(v, cluster, offset, size))
            <==> (var start := if offset >= spc * SECTOR
              then 0 else offset; StaysInside(start, Min(size, spc * SECTOR - start)))
  {
    var start := if offset >= spc * SECTOR then 0 else offset;
    if StaysInside(start, Min(size, spc * SECTOR - start)) {
      forall v: Volume | VolumeOk(v) && v.spc == spc ensures ReadRight(v, cluster, offset, size) {
        InsideRead(v, cluster, offset, size);
      }
    } else {
      OutsideRead([], spc, cluster, offset, size);
    }
  }

  // ---------------------------------------------------------------- where clusters lie

  /** All sectors of cluster `c` are on the disk, whose sectors have 32-bit numbers. */
  ghost predicate OnDisk(v: Volume, c: nat) {
    c >= 2 && v.base + (c - 2) * v.spc + v.spc <= |v.disk| <= TWO_32
  }

  /** Byte `k` of cluster `c` in the layout of the disk: clusters follow each other from `base` on, from number 2. */
  ghost function DiskByte(v: Volume, c: nat, k: nat): Byte
    requires VolumeOk(v) && OnDisk(v, c) && k < v.spc * SECTOR
  {
    SectorIn(k, v.spc);
    v.disk[v.base + (c - 2) * v.spc + k / SECTOR].data[k % SECTOR]
  }

  lemma SectorIn(k: nat, spc: nat)
    requires k < spc * SECTOR
    ensures k / SECTOR < spc
  {
  }

  lemma ClusterLies(v: Volume, c: nat, k: nat)
    requires VolumeOk(v) && OnDisk(v, c) && k < v.spc * SECTOR
    ensures Cluster(v, c)[k] == DiskByte(v, c, k)
  {
    SectorIn(k, v.spc);
    var first := v.base + (c - 2) * v.spc;
    assert 0 <= first < TWO_32;
    assert FirstSector(v, c) == first;
  }

  /** Cluster 0 is where two clusters would lie before the first. */
  lemma ZeroLies(v: Volume, k: nat)
    requires VolumeOk(v) && 2 * v.spc <= v.base && v.base - v.spc <= |v.disk| <= TWO_32 && k < v.spc * SECTOR
    ensures Cluster(v, 0)[k] == v.disk[v.base - 2 * v.spc + k / SECTOR].data[k % SECTOR]
  {
    SectorIn(k, v.spc);
    assert FirstSector(v, 0) == v.base - 2 * v.spc;
  }

  // ---------------------------------------------------------------- chains

  /** What makes up a chain, in terms of the table's entries: each leads to the next, and the last to an end mark. */
  ghost predicate Follows(entries: seq<nat>, chain: seq<nat>) {
    && |chain| > 0
    && (forall k :: 0 <= k < |chain| ==> 0 < chain[k] < |entries|)
    && (forall k :: 0 < k < |chain| ==> entries[chain[k - 1]] == chain[k] < 0xff8)
    && (entries[chain[|chain| - 1]] == 0 || entries[chain[|chain| - 1]] >= 0xff8)
  }

  /** A chain in a packed table is followed as its entries say. */
  lemma ChainPacked(entries: seq<nat>, chain: seq<nat>)
    requires |entries| % 2 == 0 && Entries(entries)
    requires forall k :: 0 <= k < |chain| ==> chain[k] < |entries|
    ensures ChainOk(Pack(entries), chain) <==> Follows(entries, chain)
  {
    hide Entry;
    hide Pack;
    var fat := Pack(entries);
    forall c: nat | c < |entries|
      ensures InFat(fat, c) && NextCluster(fat, c) == if entries[c] >= 0xff8 then 0 else entries[c] {
      DecodePack(entries, c);
    }
    hide NextCluster;
    hide InFat;
    if Follows(entries, chain) {
      forall k | 0 < k < |chain| ensures chain[k] == NextCluster(fat, chain[k - 1]) {
        assert chain[k - 1] < |entries|;
      }
    } else if ChainOk(fat, chain) {
      forall k | 0 < k < |chain| ensures entries[chain[k - 1]] == chain[k] < 0xff8 {
        assert chain[k - 1] < |entries|;
      }
    }
  }

  /** The clusters from `chain[0]` on, up to the last; the table says so. */
  ghost predicate ChainOk(fat: seq<Byte>, chain: seq<nat>) {
    && |chain| > 0
    && (forall k :: 0 <= k < |chain| ==> InFat(fat, chain[k]) && chain[k] != 0)
    && (forall k :: 0 < k < |chain| ==> chain[k] == NextCluster(fat, chain[k - 1]))
    && NextCluster(fat, chain[|chain| - 1]) == 0
  }

  /** The contents of a chain: its clusters one after another. */
  ghost function ChainBytes(v: Volume, chain: seq<nat>): seq<Byte>
    requires VolumeOk(v)
  {
    if chain == [] then [] else Cluster(v, chain[0]) + ChainBytes(v, chain[1..])
  }

  lemma {:induction false} ChainLength(v: Volume, chain: seq<nat>)
    requires VolumeOk(v)
    ensures |ChainBytes(v, chain)| == |chain| * ClusterSize(v)
  {
    if chain != [] {
      ChainLength(v, chain[1..]);
      assert |chain| * ClusterSize(v) == ClusterSize(v) + (|chain| - 1) * ClusterSize(v);
    }
  }

  lemma ChainRest(fat: seq<Byte>, chain: seq<nat>)
    requires ChainOk(fat, chain) && |chain| > 1
    ensures ChainOk(fat, chain[1..]) && NextCluster(fat, chain[0]) == chain[1] != 0
  {
    var rest := chain[1..];
    assert rest[|rest| - 1] == chain[|chain| - 1];
    forall k | 0 < k < |rest| ensures rest[k] == NextCluster(fat, rest[k - 1]) {
      assert rest[k] == chain[k + 1] && rest[k - 1] == chain[k];
    }
  }

  lemma ChainNonempty(fat: seq<Byte>, chain: seq<nat>)
    requires ChainOk(fat, chain)
    ensures |chain| > 0
  {
  }

  /** The loop that follows the chain to where a read starts. */
  ghost function Hop(fat: seq<Byte>, chain: seq<nat>, hops: nat): nat
    requires ChainOk(fat, chain) && hops < |chain|
    decreases hops
  {
    if hops == 0 then chain[0]
    else
      ChainRest(fat, chain);
      Hop(fat, chain[1..], hops - 1)
  }

  lemma {:induction false} HopOk(v: Volume, chain: seq<nat>, hops: nat)
    requires VolumeOk(v) && ChainOk(v.fat, chain) && hops < |chain|
    ensures ChainOk(v.fat, chain[hops..]) && Hop(v.fat, chain, hops) == chain[hops..][0]
    ensures hops * ClusterSize(v) <= |ChainBytes(v, chain)| &&
              ChainBytes(v, chain[hops..]) == ChainBytes(v, chain)[hops * ClusterSize(v)..]
    decreases hops
  {
    hide ChainOk;
    hide ClusterSize;
    hide Cluster;
    ChainNonempty(v.fat, chain);
    ChainLength(v, chain);
    if hops == 0 {
      assert chain[0..] == chain;
    } else {
      ChainRest(v.fat, chain);
      HopOk(v, chain[1..], hops - 1);
      assert chain[1..][hops - 1..] == chain[hops..];
      Distribute(1, hops - 1, ClusterSize(v));
      ClusterLength(v, chain[0]);
      DropMore(Cluster(v, chain[0]), ChainBytes(v, chain[1..]), (hops - 1) * ClusterSize(v));
    }
  }

  lemma DropMore(a: seq<Byte>, b: seq<Byte>, n: nat)
    requires n <= |b|
    ensures (a + b)[|a| + n..] == b[n..]
  {
  }

  // ---------------------------------------------------------------- reading a file

  /** An open file: its first cluster, where it is, its size, and whether it is a file or a directory. */
  datatype File = File(first: nat, position: nat, size: nat, isFile: bool, eof: bool)

  /** The loop of `fsFat12Read`, with the clusters from the current one on. */
  ghost function ReadOn(v: Volume, f: File, chain: seq<nat>, offset: nat, length: nat): (seq<Byte>, File)
    requires VolumeOk(v) && ChainOk(v.fat, chain) && offset < ClusterSize(v)
    decreases length
  {
    if length == 0 then ([], f)
    else
      var part := ClusterRead(v, chain[0], offset, length);
      var n := AmountOf(v, offset, length);
      var f1 := f.(position := f.position + n);
      if f1.isFile && f1.position >= f1.size then (part, f1.(eof := true))
      else if offset + n == ClusterSize(v) then
        if NextCluster(v.fat, chain[0]) == 0 then (part, f1.(eof := true))
        else
          ChainMore(v.fat, chain);
          var (rest, f2) := ReadOn(v, f1, chain[1..], 0, length - n);
          (part + rest, f2)
      else (part, f1)
  }

  lemma ChainMore(fat: seq<Byte>, chain: seq<nat>)
    requires ChainOk(fat, chain)
    ensures NextCluster(fat, chain[0]) != 0 <==> |chain| > 1
    ensures |chain| > 1 ==> ChainOk(fat, chain[1..]) && chain[1..][0] == NextCluster(fat, chain[0])
  {
    if |chain| > 1 { ChainRest(fat, chain); }
  }

  /**
   Where reading stops, counted from the start of the first of `m` clusters: after the cluster in which a
   file's last byte lies (`want` is its size, counted from the same place), or after the last cluster.
   */
  ghost function Limit(m: nat, cs: nat, want: int, isFile: bool): nat {
    if m <= 1 || (isFile && want <= cs) then cs else cs + Limit(m - 1, cs, want - cs, isFile)
  }

  lemma {:induction false} LimitIs(m: nat, cs: nat, want: int, isFile: bool) returns (j: nat)
    requires m > 0
    ensures 1 <= j <= m && Limit(m, cs, want, isFile) == j * cs
    ensures j == m || (isFile && want <= j * cs)
    ensures j == 1 || !isFile || (j - 1) * cs < want
  {
    if m <= 1 || (isFile && want <= cs) {
      j := 1;
    } else {
      var i := LimitIs(m - 1, cs, want - cs, isFile);
      j := i + 1;
      assert j * cs == i * cs + cs;
      assert i > 1 ==> (i - 1) * cs + cs == (j - 1) * cs;
    }
  }

  /** How many bytes a read gives. */
  ghost function Amount(v: Volume, f: File, m: nat, offset: nat, length: nat): nat
    requires v.spc > 0 && offset < ClusterSize(v)
  {
    LimitAtLeast(m, ClusterSize(v), f.size - (f.position - offset), f.isFile);
    Min(length, Limit(m, ClusterSize(v), f.size - (f.position - offset), f.isFile) - offset)
  }

  lemma {:induction false} LimitAtLeast(m: nat, cs: nat, want: int, isFile: bool)
    ensures cs <= Limit(m, cs, want, isFile)
  {
  }

  ghost predicate IsRead(v: Volume, f: File, chain: seq<nat>, offset: nat, length: nat, bytes: seq<Byte>, f': File)
    requires VolumeOk(v) && offset < ClusterSize(v)
  {
    var n := Amount(v, f, |chain|, offset, length);
    && offset + n <= |ChainBytes(v, chain)| && bytes == ChainBytes(v, chain)[offset..offset + n]
    && f' == f.(position := f.position + n, eof := f'.eof)
    && (length > 0 ==> (f'.eof <==>
         f.eof || (f.isFile && f.position + n >= f.size) || offset + n == |chain| * ClusterSize(v)))
    && (length == 0 ==> f' == f)
  }

  lemma AtLeastOne(m: nat, cs: nat)
    requires m > 0
    ensures m * cs >= cs && (m > 1 && cs > 0 ==> m * cs > cs)
  {
    assert m * cs == cs + (m - 1) * cs;
  }

  /** The read ends in this cluster. */
  lemma ReadLast(v: Volume, f: File, chain: seq<nat>, offset: nat, length: nat, f1: File, part: seq<Byte>)
    requires VolumeOk(v) && ChainOk(v.fat, chain) && offset < ClusterSize(v) && length > 0
    requires var n := AmountOf(v, offset, length);
             && part == Cluster(v, chain[0])[offset..offset + n]
             && f1 == f.(position := f.position + n, eof := f1.eof)
             && (|| (f.isFile && f1.position >= f.size && f1.eof)
                 || (!(f.isFile && f1.position >= f.size) && offset + n == ClusterSize(v) && |chain| == 1 && f1.eof)
                 || (!(f.isFile && f1.position >= f.size) && offset + n < ClusterSize(v) && f1.eof == f.eof))
    ensures IsRead(v, f, chain, offset, length, part, f1)
  {
    hide Cluster;
    hide ChainOk;
    ChainNonempty(v.fat, chain);
    ChainLength(v, chain);
    AtLeastOne(|chain|, ClusterSize(v));
    LimitAtLeast(|chain|, ClusterSize(v), f.size - (f.position - offset), f.isFile);
    var n := AmountOf(v, offset, length);
    ClusterLength(v, chain[0]);
    assert ChainBytes(v, chain)[offset..offset + n] == Cluster(v, chain[0])[offset..offset + n];
  }

  lemma ClusterLength(v: Volume, cluster: nat)
    requires VolumeOk(v)
    ensures |Cluster(v, cluster)| == ClusterSize(v)
  {
  }

  /** The read goes on in the next cluster. */
  lemma ReadMore(v: Volume, f: File, chain: seq<nat>, offset: nat, length: nat, part: seq<Byte>, f1: File,
    rest: seq<Byte>, f2: File)
    requires VolumeOk(v) && ChainOk(v.fat, chain) && offset < ClusterSize(v) && |chain| > 1
    requires ClusterSize(v) - offset <= length
    requires part == Cluster(v, chain[0])[offset..]
    requires var n := ClusterSize(v) - offset;
             && f1 == f.(position := f.position + n) && !(f.isFile && f1.position >= f.size)
             && IsRead(v, f1, chain[1..], 0, length - n, rest, f2)
    ensures IsRead(v, f, chain, offset, length, part + rest, f2)
  {
    hide Cluster;
    hide ChainOk;
    hide ClusterSize;
    var cs, m := ClusterSize(v), |chain|;
    ChainLength(v, chain);
    ChainLength(v, chain[1..]);
    AtLeastOne(m, cs);
    Distribute(1, m - 1, cs);
    ClusterLength(v, chain[0]);
    var n1 := Amount(v, f1, m - 1, 0, length - (cs - offset));
    assert Amount(v, f, m, offset, length) == cs - offset + n1;
    JoinSlices(Cluster(v, chain[0]), ChainBytes(v, chain[1..]), offset, n1);
  }

  lemma JoinSlices(a: seq<Byte>, b: seq<Byte>, offset: nat, n: nat)
    requires offset <= |a| && n <= |b|
    ensures a[offset..] + b[0..n] == (a + b)[offset..|a| + n]
  {
  }

  lemma {:induction false} ReadOnOk(v: Volume, f: File, chain: seq<nat>, offset: nat, length: nat)
    requires VolumeOk(v) && ChainOk(v.fat, chain) && offset < ClusterSize(v) &&
               StaysInside(offset, AmountOf(v, offset, length))
    ensures var (bytes, f') := ReadOn(v, f, chain, offset, length); IsRead(v, f, chain, offset, length, bytes, f')
    decreases length
  {
    hide IsRead;
    hide ClusterRead;
    hide Cluster;
    hide ChainOk;
    hide StaysInside;
    ChainNonempty(v.fat, chain);
    if length == 0 {
      ReadNone(v, f, chain, offset);
    } else {
      var n := AmountOf(v, offset, length);
      InsideRead(v, chain[0], offset, length);
      var part := ClusterRead(v, chain[0], offset, length);
      var f1 := f.(position := f.position + n);
      ChainMore(v.fat, chain);
      if f1.isFile && f1.position >= f1.size {
        ReadLast(v, f, chain, offset, length, f1.(eof := true), part);
      } else if offset + n == ClusterSize(v) {
        if |chain| == 1 {
          ReadLast(v, f, chain, offset, length, f1.(eof := true), part);
        } else {
          Boundary(AmountOf(v, 0, length - n));
          ReadOnOk(v, f1, chain[1..], 0, length - n);
          var (rest, f2) := ReadOn(v, f1, chain[1..], 0, length - n);
          ClusterLength(v, chain[0]);
          assert part == Cluster(v, chain[0])[offset..];
          ReadMore(v, f, chain, offset, length, part, f1, rest, f2);
        }
      } else {
        ReadLast(v, f, chain, offset, length, f1, part);
      }
    }
  }

  lemma Boundary(n: nat)
    ensures StaysInside(0, n)
  {
  }

  lemma ReadNone(v: Volume, f: File, chain: seq<nat>, offset: nat)
    requires VolumeOk(v) && ChainOk(v.fat, chain) && offset < ClusterSize(v)
    ensures IsRead(v, f, chain, offset, 0, [], f)
  {
    ChainLength(v, chain);
    AtLeastOne(|chain|, ClusterSize(v));
    LimitAtLeast(|chain|, ClusterSize(v), f.size - (f.position - offset), f.isFile);
  }

  /** `fsFat12Read` on a file whose chain reaches its position. */
  ghost function FileRead(v: Volume, f: File, chain: seq<nat>, length: nat): (seq<Byte>, File)
    requires VolumeOk(v) && ChainOk(v.fat, chain) && f.position / ClusterSize(v) < |chain|
  {
    if f.eof then ([], f)
    else
      HopOk(v, chain, f.position / ClusterSize(v));
      ReadOn(v, f, chain[f.position / ClusterSize(v)..], f.position % ClusterSize(v), length)
  }

  /**
   How many bytes there are to read at a file's position: to the end of the cluster that holds its last byte, or of
   the chain.
   */
  ghost function Available(v: Volume, f: File, chain: seq<nat>, length: nat): nat
    requires v.spc > 0
  {
    var h := f.position / ClusterSize(v);
    if h < |chain| then Amount(v, f, |chain| - h, f.position % ClusterSize(v), length) else 0
  }

  /**
   A read that starts on a sector boundary, or stays inside one sector, gives exactly the bytes of the chain at the
   file's position, and moves the position on by as many; the file is at its end when its size or its chain is used up.
   */
  lemma FileReadExact(v: Volume, f: File, chain: seq<nat>, length: nat)
    requires VolumeOk(v) && ChainOk(v.fat, chain) && f.position / ClusterSize(v) < |chain| && !f.eof && length > 0
    requires StaysInside(f.position % ClusterSize(v), AmountOf(v, f.position % ClusterSize(v), length))
    ensures var (bytes, f') := FileRead(v, f, chain, length);
            var n := Available(v, f, chain, length);
            && 0 < n <= length && f.position + n <= |ChainBytes(v, chain)|
            && bytes == ChainBytes(v, chain)[f.position..f.position + n]
            && f'.position == f.position + n
            && (f'.eof <==> (f.isFile && f'.position >= f.size) || f'.position == |ChainBytes(v, chain)|)
            && (n < length ==> f'.eof)
  {
    hide ReadOn;
    hide Cluster;
    hide ChainOk;
    hide ChainBytes;
    hide StaysInside;
    var cs, h, o := ClusterSize(v), f.position / ClusterSize(v), f.position % ClusterSize(v);
    DivMod(f.position, cs);
    hide ClusterSize;
    HopOk(v, chain, h);
    ReadOnOk(v, f, chain[h..], o, length);
    ChainLength(v, chain);
    ChainLength(v, chain[h..]);
    Distribute(h, |chain| - h, cs);
    var n := Available(v, f, chain, length);
    SliceOf(ChainBytes(v, chain), h * cs, o, n);
    StopsEarly(v, f, |chain| - h, o, length);
  }

  lemma SliceOf(s: seq<Byte>, a: nat, o: nat, n: nat)
    requires a + o + n <= |s|
    ensures s[a..][o..o + n] == s[a + o..a + o + n]
  {
  }

  /** A read falls short only at the file's or the chain's end. */
  lemma StopsEarly(v: Volume, f: File, m: nat, offset: nat, length: nat)
    requires v.spc > 0 && offset < ClusterSize(v) && m > 0 && length > 0
    ensures var n := Amount(v, f, m, offset, length);
            n > 0 && (n < length ==> (f.isFile && f.position + n >= f.size) || offset + n == m * ClusterSize(v))
  {
    var j := LimitIs(m, ClusterSize(v), f.size - (f.position - offset), f.isFile);
    LimitAtLeast(m, ClusterSize(v), f.size - (f.position - offset), f.isFile);
  }

  // ---------------------------------------------------------------- reading past the end of a file

  lemma Monotone(a: nat, b: nat, cs: nat)
    requires cs > 0
    ensures a < b <==> a * cs < b * cs
    ensures a < b ==> (a + 1) * cs <= b * cs
  {
    if a < b {
      Distribute(a, b - a, cs);
      Distribute(a, 1, cs);
      AtLeastOne(b - a, cs);
    } else {
      Distribute(b, a - b, cs);
    }
  }

  /** A number between two neighbouring multiples is a multiple only at the lower end. */
  lemma Remainder(q: nat, r: nat, t: nat, cs: nat)
    requires r < cs && q * cs + r == t * cs
    ensures r == 0
  {
    Monotone(q, t, cs);
  }

  /**
   Reading that starts `h` clusters into a file of `size` bytes stops at or before the last byte exactly when the size
   is a whole number of clusters, or lies past the chain.
   */
  lemma LimitWithin(h: nat, m: nat, cs: nat, size: nat)
    requires m > 0 && cs > 0 && h * cs < size
    ensures h * cs + Limit(m, cs, size - h * cs, true) <= size <==> size % cs == 0 || size > (h + m) * cs
  {
    var j := LimitIs(m, cs, size - h * cs, true);
    hide Limit;
    DivMod(size, cs);
    var q, r := size / cs, size % cs;
    Distribute(h, j, cs);
    Distribute(h, j - 1, cs);
    Distribute(h, m, cs);
    if r == 0 {
      Monotone(h, q, cs);
      Monotone(h + (j - 1), q, cs);
    } else if size > (h + m) * cs {
      if j < m { Monotone(h + j, h + m, cs); }
    } else if (h + j) * cs == size {
      Remainder(q, r, h + j, cs);
    }
  }

  lemma Distribute(a: nat, b: nat, cs: nat)
    ensures (a + b) * cs == a * cs + b * cs
  {
  }

  /** How far such a read of a file moves the position. */
  lemma MovesBy(v: Volume, f: File, chain: seq<nat>, length: nat)
    requires VolumeOk(v) && ChainOk(v.fat, chain) && f.position / ClusterSize(v) < |chain| && !f.eof && length > 0
    requires StaysInside(f.position % ClusterSize(v), AmountOf(v, f.position % ClusterSize(v), length)) && f.isFile
    ensures var cs, h, o := ClusterSize(v), f.position / ClusterSize(v), f.position % ClusterSize(v);
            var limit := Limit(|chain| - h, cs, f.size - h * cs, true);
            && f.position == h * cs + o && |ChainBytes(v, chain)| == |chain| * cs && o < cs <= limit
            && FileRead(v, f, chain, length).1.position == f.position + Min(length, limit - o)
  {
    FileReadExact(v, f, chain, length);
    hide FileRead;
    hide ChainOk;
    hide StaysInside;
    ChainLength(v, chain);
    hide ChainBytes;
    hide Limit;
    SizePositive(v);
    var cs := ClusterSize(v);
    DivMod(f.position, cs);
    hide ClusterSize;
    var h := f.position / cs;
    LimitAtLeast(|chain| - h, cs, f.size - h * cs, true);
    assert f.size - (f.position - f.position % cs) == f.size - h * cs;
  }

  /**
   A read that is right stays within the file exactly when it starts there and asks for no more than is left, or the
   file is a whole number of clusters long, or its size lies past its chain.  Any other read gives bytes past the end.
   */
  lemma FileReadWithin(v: Volume, f: File, chain: seq<nat>, length: nat)
    requires VolumeOk(v) && ChainOk(v.fat, chain) && f.position / ClusterSize(v) < |chain| && !f.eof && length > 0
    requires StaysInside(f.position % ClusterSize(v), AmountOf(v, f.position % ClusterSize(v), length)) && f.isFile
    ensures FileRead(v, f, chain, length).1.position <= f.size <==>
              && f.position < f.size
              && (|| f.position + length <= f.size
                  || f.size % ClusterSize(v) == 0
                  || f.size > |ChainBytes(v, chain)|)
  {
    hide FileRead;
    hide ChainOk;
    hide ChainBytes;
    hide StaysInside;
    hide AmountOf;
    hide Limit;
    SizePositive(v);
    hide ClusterSize;
    MovesBy(v, f, chain, length);
    if f.position < f.size {
      var cs, h, o := ClusterSize(v), f.position / ClusterSize(v), f.position % ClusterSize(v);
      LimitWithin(h, |chain| - h, cs, f.size);
      WithinBy(h * cs, o, length, Limit(|chain| - h, cs, f.size - h * cs, true), f.size);
    }
  }

  /** A read of `length` bytes that is clamped at `limit` stays below `size` if it or the limit does. */
  lemma WithinBy(a: nat, o: nat, length: nat, limit: int, size: nat)
    requires a + o < size && o < limit
    ensures a + o + Min(length, limit - o) <= size <==> a + o + length <= size || a + limit <= size
  {
  }

  /** A file already at or past its end, but not marked so, still gives the rest of the cluster it stands in. */
  lemma FileReadPast(v: Volume, f: File, chain: seq<nat>, length: nat)
    requires VolumeOk(v) && ChainOk(v.fat, chain) && f.position / ClusterSize(v) < |chain| && !f.eof && length > 0
    requires StaysInside(f.position % ClusterSize(v), AmountOf(v, f.position % ClusterSize(v), length)) && f.isFile
    requires f.position >= f.size
    ensures var (bytes, f') := FileRead(v, f, chain, length);
            var n := Min(length, ClusterSize(v) - f.position % ClusterSize(v));
            && n > 0 && f.position + n <= |ChainBytes(v, chain)|
            && bytes == ChainBytes(v, chain)[f.position..f.position + n]
            && f'.position == f.position + n && f'.eof
  {
    FileReadExact(v, f, chain, length);
    hide FileRead;
    hide ChainOk;
    hide StaysInside;
    hide ChainBytes;
    SizePositive(v);
    DivMod(f.position, ClusterSize(v));
    hide ClusterSize;
  }

  /** A one-sector disk of sevens, whose table gives cluster 2 as a chain of its own. */
  ghost function OneCluster(): Volume {
    Volume([0, 0, 0, 0xff, 0x0f, 0], [Slot(seq(SECTOR, _ => 7), seq(SECTOR, _ => 0))], 0, 1)
  }

  /** A file of one byte, read into a buffer of 512: the buffer is filled, 511 bytes of it from past the end. */
  lemma PastTheEnd()
    ensures var v, f := OneCluster(), File(2, 0, 1, true, false);
            && VolumeOk(v) && ChainOk(v.fat, [2])
            && var (bytes, f') := FileRead(v, f, [2], SECTOR);
               |bytes| == SECTOR && bytes[1] == 7 && f'.position == SECTOR > f.size
  {
    var v, f := OneCluster(), File(2, 0, 1, true, false);
    OneChain();
    FileReadPast(v, f.(size := 0), [2], SECTOR);
    FileReadExact(v, f, [2], SECTOR);
    hide FileRead;
    assert Available(v, f, [2], SECTOR) == SECTOR;
    assert ChainBytes(v, [2])[1] == Cluster(v, 2)[1] == 7;
  }

  lemma OneChain()
    ensures VolumeOk(OneCluster()) && ChainOk(OneCluster().fat, [2])
  {
    var fat := OneCluster().fat;
    assert Entry(fat, 2) == 0xfff;
  }

  // ---------------------------------------------------------------- reads that run over a buffer

  /** The read gives the bytes of the chain at the file's position. */
  ghost predicate FileReadRight(v: Volume, f: File, chain: seq<nat>, length: nat)
    requires VolumeOk(v) && ChainOk(v.fat, chain) && f.position / ClusterSize(v) < |chain|
  {
    var bytes := FileRead(v, f, chain, length).0;
    f.position + |bytes| <= |ChainBytes(v, chain)| && bytes == ChainBytes(v, chain)[f.position..f.position + |bytes|]
  }

  /** A read begins with what its first cluster gives. */
  lemma StartsWith(v: Volume, f: File, chain: seq<nat>, offset: nat, length: nat, k: nat)
    requires VolumeOk(v) && ChainOk(v.fat, chain) && offset < ClusterSize(v) && k < AmountOf(v, offset, length)
    ensures var bytes, part := ReadOn(v, f, chain, offset, length).0, ClusterRead(v, chain[0], offset, length);
            k < |part| && k < |bytes| && bytes[k] == part[k]
  {
    ChunksLength(v, FirstSector(v, chain[0]) + offset / SECTOR, offset % SECTOR, AmountOf(v, offset, length));
    ChainMore(v.fat, chain);
  }

  lemma NotRight(v: Volume, f: File, chain: seq<nat>, length: nat, k: nat)
    requires VolumeOk(v) && ChainOk(v.fat, chain) && f.position / ClusterSize(v) < |chain|
    requires k < |FileRead(v, f, chain, length).0| && f.position + k < |ChainBytes(v, chain)|
    requires FileRead(v, f, chain, length).0[k] != ChainBytes(v, chain)[f.position + k]
    ensures !FileReadRight(v, f, chain, length)
  {
    hide FileRead;
    hide ChainBytes;
    hide ChainOk;
    hide VolumeOk;
    var bytes, all := FileRead(v, f, chain, length).0, ChainBytes(v, chain);
    if f.position + |bytes| <= |all| {
      assert all[f.position..f.position + |bytes|][k] == all[f.position + k];
    }
  }

  /** What a read that runs over the end of its first buffer finds there. */
  lemma FileReadOver(v: Volume, f: File, chain: seq<nat>, length: nat)
    requires VolumeOk(v) && ChainOk(v.fat, chain) && f.position / ClusterSize(v) < |chain| && !f.eof && length > 0
    requires v == Telltale(v.fat, v.spc, chain[f.position / ClusterSize(v)])
    requires !StaysInside(f.position % ClusterSize(v), AmountOf(v, f.position % ClusterSize(v), length))
    ensures var k := SECTOR - f.position % ClusterSize(v) % SECTOR;
            k < |FileRead(v, f, chain, length).0| && FileRead(v, f, chain, length).0[k] == 1
            && k + f.position % ClusterSize(v) < ClusterSize(v)
  {
    hide ReadOn;
    hide ChainOk;
    hide Chunks;
    hide Cluster;
    hide Telltale;
    hide ClusterSize;
    hide ChainBytes;
    hide FirstSector;
    SizePositive(v);
    DivMod(f.position, ClusterSize(v));
    var h, o := f.position / ClusterSize(v), f.position % ClusterSize(v);
    HopOk(v, chain, h);
    var n, k := AmountOf(v, o, length), SECTOR - o % SECTOR;
    TelltaleByte(v, v.fat, v.spc, chain[h], o, n);
    StartsWith(v, f, chain[h..], o, length, k);
    assert chain[h..][0] == chain[h];
  }

  lemma SizePositive(v: Volume)
    requires VolumeOk(v)
    ensures ClusterSize(v) > 0
  {
  }

  lemma DivMod(x: nat, m: nat)
    requires m > 0
    ensures x == x / m * m + x % m && x / m >= 0 && 0 <= x % m < m
  {
  }

  lemma ChainZero(v: Volume, chain: seq<nat>, position: nat, k: nat)
    requires VolumeOk(v) && ChainOk(v.fat, chain) && position / ClusterSize(v) < |chain| &&
               k + position % ClusterSize(v) < ClusterSize(v)
    requires v == Telltale(v.fat, v.spc, chain[position / ClusterSize(v)])
    ensures position + k < |ChainBytes(v, chain)| && ChainBytes(v, chain)[position + k] == 0
  {
    hide ChainOk;
    hide ChainBytes;
    hide Cluster;
    hide Telltale;
    hide ClusterSize;
    SizePositive(v);
    DivMod(position, ClusterSize(v));
    var h, o := position / ClusterSize(v), position % ClusterSize(v);
    TelltaleZero(v, v.fat, v.spc, chain[h], o + k);
    ClusterLength(v, chain[h]);
    ChainByte(v, chain, h, o + k);
  }

  /** A read that runs over the end of a buffer is wrong on some disk. */
  lemma FileReadWrong(fat: seq<Byte>, spc: nat, f: File, chain: seq<nat>, length: nat)
    requires spc > 0 && ChainOk(fat, chain) && f.position / (spc * SECTOR) < |chain| && !f.eof && length > 0
    requires !StaysInside(f.position % (spc * SECTOR), Min(length, spc * SECTOR - f.position % (spc * SECTOR)))
    ensures exists v: Volume :: VolumeOk(v) && v.fat == fat && v.spc == spc && !FileReadRight(v, f, chain, length)
  {
    hide ChainOk;
    hide FileRead;
    hide ChainBytes;
    hide FileReadRight;
    hide StaysInside;
    var v := Telltale(fat, spc, chain[f.position / (spc * SECTOR)]);
    TelltaleOk(fat, spc, chain[f.position / (spc * SECTOR)]);
    var o := f.position % ClusterSize(v);
    hide Telltale;
    hide VolumeOk;
    FileReadOver(v, f, chain, length);
    ChainZero(v, chain, f.position, SECTOR - o % SECTOR);
    NotRight(v, f, chain, length, SECTOR - o % SECTOR);
  }

  lemma TelltaleOk(fat: seq<Byte>, spc: nat, cluster: nat)
    requires spc > 0
    ensures var v := Telltale(fat, spc, cluster); VolumeOk(v) && v.fat == fat && v.spc == spc
  {
  }

  lemma ChainByte(v: Volume, chain: seq<nat>, h: nat, k: nat)
    requires VolumeOk(v) && ChainOk(v.fat, chain) && h < |chain| && k < ClusterSize(v)
    ensures h * ClusterSize(v) + k < |ChainBytes(v, chain)| &&
              ChainBytes(v, chain)[h * ClusterSize(v) + k] == Cluster(v, chain[h])[k]
  {
    hide Cluster;
    hide ChainOk;
    HopOk(v, chain, h);
    ClusterLength(v, chain[h]);
    var rest := ChainBytes(v, chain[h..]);
    assert chain[h..][0] == chain[h];
    assert rest[k] == Cluster(v, chain[h])[k];
    assert rest[k] == ChainBytes(v, chain)[h * ClusterSize(v)..][k];
  }

  /**
   A file is read right on every disk with its chain exactly when the read starts on a sector boundary or stays
   within the first sector.
   */
  lemma FileReadExactly(fat: seq<Byte>, spc: nat, f: File, chain: seq<nat>, length: nat)
    requires spc > 0 && ChainOk(fat, chain) && f.position / (spc * SECTOR) < |chain| && !f.eof && length > 0
    ensures (forall v: Volume :: VolumeOk(v) && v.fat == fat && v.spc == spc ==> FileReadRight(v, f, chain, length))
            <==> StaysInside(f.position % (spc * SECTOR), Min(length, spc * SECTOR - f.position % (spc * SECTOR)))
  {
    hide FileReadRight;
    hide ChainOk;
    if StaysInside(f.position % (spc * SECTOR), Min(length, spc * SECTOR - f.position % (spc * SECTOR))) {
      forall v: Volume | VolumeOk(v) && v.fat == fat && v.spc == spc ensures FileReadRight(v, f, chain, length) {
        FileReadFits(v, f, chain, length);
      }
    } else {
      FileReadWrong(fat, spc, f, chain, length);
    }
  }

  lemma FileReadFits(v: Volume, f: File, chain: seq<nat>, length: nat)
    requires VolumeOk(v) && ChainOk(v.fat, chain) && f.position / ClusterSize(v) < |chain| && !f.eof && length > 0
    requires StaysInside(f.position % ClusterSize(v), AmountOf(v, f.position % ClusterSize(v), length))
    ensures FileReadRight(v, f, chain, length)
  {
    FileReadExact(v, f, chain, length);
    hide FileRead;
    hide ChainBytes;
  }

  // ---------------------------------------------------------------- the loops

  /** `fsFat12ReadCluster`: the clamps, and then the sectors. */
  method ReadCluster(v: Volume, cluster: nat, offset: nat, size: nat) returns (buffer: seq<Byte>)
    requires VolumeOk(v)
    ensures buffer == ClusterRead(v, cluster, offset, size) && |buffer| == AmountOf(v, offset, size)
  {
    hide FirstSector;
    hide Chunks;
    var left: nat, o: nat := size, offset;
    if left > ClusterSize(v) { left := ClusterSize(v); }
    if o >= ClusterSize(v) { o := 0; }
    if o + left > ClusterSize(v) { left := ClusterSize(v) - o; }
    var sector: nat := FirstSector(v, cluster);
    assert o == StartOf(v, offset) && left == AmountOf(v, offset, size);
    if o > 0 {
      sector := sector + o / SECTOR;
      o := o % SECTOR;
    }
    buffer := ReadSectors(v, sector, o, left);
  }

  /** The loop over sectors. */
  method ReadSectors(v: Volume, first: nat, offset: nat, size: nat) returns (buffer: seq<Byte>)
    requires VolumeOk(v) && offset < SECTOR
    ensures buffer == Chunks(v, first, offset, size) && |buffer| == size
  {
    ChunksLength(v, first, offset, size);
    var sector: nat, o: nat, left: nat := first, offset, size;
    buffer := [];
    while left > 0
      invariant o < SECTOR && buffer + Chunks(v, sector, o, left) == Chunks(v, first, offset, size)
    {
      var n := if left < SECTOR then left else SECTOR;
      var part := FromBuffer(SlotAt(v, sector), o, n);
      ghost var before := buffer;
      assert forall rest: seq<Byte> :: before + (part + rest) == (before + part) + rest;
      buffer := buffer + part;
      o := 0;
      left := left - n;
      sector := sector + 1;
    }
  }

  /** Following the table one step; there is nothing to follow outside it. */
  function Follow(fat: seq<Byte>, cluster: nat): Option<nat> {
    if InFat(fat, cluster) then Some(NextCluster(fat, cluster)) else None
  }

  /** The loop that follows the table to where a read starts, wherever that leads. */
  ghost function Sought(fat: seq<Byte>, cluster: nat, hops: nat): Option<nat>
    decreases hops
  {
    if hops == 0 then Some(cluster)
    else if Follow(fat, cluster).None? then None
    else Sought(fat, Follow(fat, cluster).value, hops - 1)
  }

  /** What a call of `fsFat12Read` comes to; `Stray` when it looks up a cluster outside the table in memory. */
  datatype Outcome = Got(bytes: seq<Byte>, file: File) | Stray

  /** The loop of `fsFat12Read` from any cluster. */
  ghost function Loop(v: Volume, f: File, cluster: nat, offset: nat, length: nat): Outcome
    requires VolumeOk(v) && offset < ClusterSize(v)
    decreases length
  {
    if length == 0 then Got([], f)
    else
      var part, n := ClusterRead(v, cluster, offset, length), AmountOf(v, offset, length);
      var f1 := f.(position := f.position + n);
      if f1.isFile && f1.position >= f1.size then Got(part, f1.(eof := true))
      else if offset + n == ClusterSize(v) then
        if Follow(v.fat, cluster).None? then Stray
        else if Follow(v.fat, cluster).value == 0 then Got(part, f1.(eof := true))
        else
          match Loop(v, f1, Follow(v.fat, cluster).value, 0, length - n)
          case Got(rest, f2) => Got(part + rest, f2)
          case Stray => Stray
      else Got(part, if cluster == 0 then f1.(eof := true) else f1)
  }

  /** `fsFat12Read`, whatever the table holds. */
  ghost function AnyRead(v: Volume, f: File, length: nat): Outcome
    requires VolumeOk(v)
  {
    SizePositive(v);
    DivMod(f.position, ClusterSize(v));
    if f.eof then Got([], f)
    else
      var start := Sought(v.fat, f.first, f.position / ClusterSize(v));
      if start.None? then Stray else Loop(v, f, start.value, f.position % ClusterSize(v), length)
  }

  lemma {:induction false} SoughtChain(fat: seq<Byte>, chain: seq<nat>, hops: nat)
    requires ChainOk(fat, chain) && hops < |chain|
    ensures Sought(fat, chain[0], hops) == Some(chain[hops])
    decreases hops
  {
    if hops > 0 {
      ChainRest(fat, chain);
      SoughtChain(fat, chain[1..], hops - 1);
    }
  }

  lemma {:induction false} LoopChain(v: Volume, f: File, chain: seq<nat>, offset: nat, length: nat)
    requires VolumeOk(v) && ChainOk(v.fat, chain) && offset < ClusterSize(v)
    ensures var (bytes, f') := ReadOn(v, f, chain, offset, length);
            Loop(v, f, chain[0], offset, length) == Got(bytes, f')
    decreases length
  {
    hide ClusterRead;
    hide ChainOk;
    ChainMore(v.fat, chain);
    InTable(v.fat, chain);
    if length > 0 && |chain| > 1 {
      var n := AmountOf(v, offset, length);
      if offset + n == ClusterSize(v) { LoopChain(v, f.(position := f.position + n), chain[1..], 0, length - n); }
    }
  }

  /** On a file whose chain reaches its position, a read is the read along that chain. */
  lemma ReadAlongChain(v: Volume, f: File, chain: seq<nat>, length: nat)
    requires VolumeOk(v) && ChainOk(v.fat, chain) && f.first == chain[0] && f.position / ClusterSize(v) < |chain|
    ensures var (bytes, f') := FileRead(v, f, chain, length); AnyRead(v, f, length) == Got(bytes, f')
  {
    hide ReadOn;
    hide Loop;
    hide ChainOk;
    SizePositive(v);
    DivMod(f.position, ClusterSize(v));
    hide ClusterSize;
    var h := f.position / ClusterSize(v);
    SoughtChain(v.fat, chain, h);
    HopOk(v, chain, h);
    assert chain[h..][0] == chain[h];
    LoopChain(v, f, chain[h..], f.position % ClusterSize(v), length);
  }

  /** All clusters of the chain are on the disk. */
  ghost predicate ChainOnDisk(v: Volume, chain: seq<nat>) {
    forall k :: 0 <= k < |chain| ==> OnDisk(v, chain[k])
  }

  /** Byte `x` of a file in the layout of the disk. */
  ghost function FileByte(v: Volume, chain: seq<nat>, x: nat): Byte
    requires VolumeOk(v) && ChainOnDisk(v, chain) && x / (v.spc * SECTOR) < |chain|
  {
    DivMod(x, v.spc * SECTOR);
    DiskByte(v, chain[x / (v.spc * SECTOR)], x % (v.spc * SECTOR))
  }

  lemma DivShift(x: nat, cs: nat)
    requires cs > 0 && x >= cs
    ensures x / cs == (x - cs) / cs + 1 && x % cs == (x - cs) % cs
  {
    DivMod(x, cs);
    DivMod(x - cs, cs);
    Distribute(1, (x - cs) / cs, cs);
    SameParts(x / cs, x % cs, (x - cs) / cs + 1, (x - cs) % cs, cs);
  }

  lemma SameParts(q: nat, r: nat, q': nat, r': nat, cs: nat)
    requires r < cs && r' < cs && q * cs + r == q' * cs + r'
    ensures q == q' && r == r'
  {
    if q < q' {
      Monotone(q + 1, q', cs);
      Distribute(q, 1, cs);
    } else if q' < q {
      Monotone(q' + 1, q, cs);
      Distribute(q', 1, cs);
    }
  }

  lemma {:induction false} ChainLies(v: Volume, chain: seq<nat>, x: nat)
    requires VolumeOk(v) && ChainOnDisk(v, chain) && x < |ChainBytes(v, chain)|
    ensures x / (v.spc * SECTOR) < |chain| && ChainBytes(v, chain)[x] == FileByte(v, chain, x)
    decreases |chain|
  {
    hide DiskByte;
    hide Cluster;
    hide OnDisk;
    var cs := v.spc * SECTOR;
    ChainLength(v, chain);
    SizePositive(v);
    ClusterLength(v, chain[0]);
    assert ChainBytes(v, chain) == Cluster(v, chain[0]) + ChainBytes(v, chain[1..]);
    assert cs == ClusterSize(v) > 0;
    hide ClusterSize;
    hide ChainBytes;
    hide VolumeOk;
    DivMod(x, cs);
    if x < cs {
      SameParts(x / cs, x % cs, 0, x, cs);
      ClusterLies(v, chain[0], x);
    } else {
      DivShift(x, cs);
      assert forall k :: 0 <= k < |chain[1..]| ==> chain[1..][k] == chain[k + 1];
      ChainLies(v, chain[1..], x - cs);
    }
  }

  ghost predicate LiesAt(v: Volume, chain: seq<nat>, x: nat, b: Byte)
    requires VolumeOk(v) && ChainOnDisk(v, chain)
  {
    x / (v.spc * SECTOR) < |chain| && b == FileByte(v, chain, x)
  }

  /** The bytes are those of the disk from position `x` of the file on. */
  ghost predicate FromDisk(v: Volume, chain: seq<nat>, x: nat, bytes: seq<Byte>)
    requires VolumeOk(v) && ChainOnDisk(v, chain)
  {
    forall k :: 0 <= k < |bytes| ==> LiesAt(v, chain, x + k, bytes[k])
  }

  /** The read starts in the file's chain, which is on the disk, and stays inside its sectors' buffers. */
  ghost predicate Regular(v: Volume, f: File, chain: seq<nat>, length: nat)
    requires VolumeOk(v)
  {
    && ChainOk(v.fat, chain) && ChainOnDisk(v, chain) && f.first == chain[0] && !f.eof && length > 0
    && f.position / ClusterSize(v) < |chain|
    && StaysInside(f.position % ClusterSize(v), AmountOf(v, f.position % ClusterSize(v), length))
  }

  /** Then the bytes read are those that lie on the disk at the file's position, and the position moves past them. */
  lemma ReadLies(v: Volume, f: File, chain: seq<nat>, length: nat)
    requires VolumeOk(v) && Regular(v, f, chain, length)
    ensures var r := AnyRead(v, f, length);
            && r.Got? && 0 < |r.bytes| <= length && FromDisk(v, chain, f.position, r.bytes)
            && r.file.position == f.position + |r.bytes| && (|r.bytes| < length ==> r.file.eof)
  {
    hide ChainOk;
    hide AnyRead;
    hide ChainBytes;
    hide StaysInside;
    hide FileRead;
    hide ChainOnDisk;
    hide FileByte;
    hide Available;
    hide VolumeOk;
    FileReadExact(v, f, chain, length);
    ReadAlongChain(v, f, chain, length);
    hide FromDisk;
    SliceLies(v, chain, f.position, AnyRead(v, f, length).bytes);
  }

  lemma SliceLies(v: Volume, chain: seq<nat>, x: nat, bytes: seq<Byte>)
    requires VolumeOk(v) && ChainOnDisk(v, chain)
    requires x + |bytes| <= |ChainBytes(v, chain)| && bytes == ChainBytes(v, chain)[x..x + |bytes|]
    ensures FromDisk(v, chain, x, bytes)
  {
    hide ChainBytes;
    hide FileByte;
    hide ChainOnDisk;
    forall k | 0 <= k < |bytes| ensures LiesAt(v, chain, x + k, bytes[k]) {
      assert bytes[k] == ChainBytes(v, chain)[x + k];
      ChainLies(v, chain, x + k);
    }
  }

  /** The step past a chain's last cluster leads to cluster 0, and on from there by the table's first entry. */
  lemma PastTheChain(fat: seq<Byte>, chain: seq<nat>, hops: nat)
    requires ChainOk(fat, chain) && hops >= |chain|
    ensures Sought(fat, chain[0], hops) == Sought(fat, 0, hops - |chain|)
  {
    SoughtChain(fat, chain, |chain| - 1);
    SoughtMore(fat, chain[0], |chain| - 1, hops - |chain| + 1);
  }

  lemma {:induction false} SoughtMore(fat: seq<Byte>, cluster: nat, a: nat, b: nat)
    requires Sought(fat, cluster, a).Some?
    ensures Sought(fat, cluster, a + b) == Sought(fat, Sought(fat, cluster, a).value, b)
    decreases a
  {
    if a > 0 { SoughtMore(fat, Follow(fat, cluster).value, a - 1, b); }
  }

  /** The table's first entry, which belongs to no cluster, leads nowhere: it holds an end mark on a formatted disk. */
  predicate Formatted(fat: seq<Byte>) {
    InFat(fat, 0) && NextCluster(fat, 0) == 0
  }

  lemma {:induction false} SoughtZero(fat: seq<Byte>, hops: nat)
    requires Formatted(fat)
    ensures Sought(fat, 0, hops) == Some(0)
  {
    if hops > 0 { SoughtZero(fat, hops - 1); }
  }

  /** The walk to a file's position ends at cluster 0 exactly when the position lies past the file's chain. */
  lemma OffTheChain(fat: seq<Byte>, chain: seq<nat>, hops: nat)
    requires ChainOk(fat, chain) && Formatted(fat)
    ensures Sought(fat, chain[0], hops) == Some(0) <==> hops >= |chain|
  {
    if hops < |chain| {
      SoughtChain(fat, chain, hops);
    } else {
      PastTheChain(fat, chain, hops);
      SoughtZero(fat, hops - |chain|);
    }
  }

  /** A read that starts at cluster 0 gives bytes from there, once, and marks the file as at its end. */
  lemma ClusterZero(v: Volume, f: File, offset: nat, length: nat)
    requires VolumeOk(v) && Formatted(v.fat) && offset < ClusterSize(v) && length > 0
    ensures Loop(v, f, 0, offset, length) ==
              Got(ClusterRead(v, 0, offset, length),
                f.(position := f.position + AmountOf(v, offset, length), eof := true))
  {
    hide ClusterRead;
  }

  /**
   A read past a file's chain, exactly: it gives the bytes at the same offset of cluster 0, which is no cluster of the
   disk but the sectors that lie two clusters before the first, and no more of them than one cluster holds.
   */
  lemma ReadOffTheChain(v: Volume, f: File, chain: seq<nat>, length: nat)
    requires VolumeOk(v) && Formatted(v.fat) && ChainOk(v.fat, chain) && f.first == chain[0] && !f.eof && length > 0
    requires f.position / ClusterSize(v) >= |chain|
    ensures var n := Min(length, ClusterSize(v) - f.position % ClusterSize(v));
            AnyRead(v, f, length) ==
              Got(ClusterRead(v, 0, f.position % ClusterSize(v), length), f.(position := f.position + n, eof := true))
  {
    hide ClusterRead;
    hide Loop;
    SizePositive(v);
    DivMod(f.position, ClusterSize(v));
    OffTheChain(v.fat, chain, f.position / ClusterSize(v));
    ClusterZero(v, f, f.position % ClusterSize(v), length);
  }

  /** Which bytes of the disk these are, where the disk has them. */
  lemma ZeroBytes(v: Volume, offset: nat, length: nat, k: nat)
    requires VolumeOk(v) && 2 * v.spc <= v.base && v.base - v.spc <= |v.disk| <= TWO_32
    requires offset < ClusterSize(v) && StaysInside(offset, AmountOf(v, offset, length))
    requires k < AmountOf(v, offset, length)
    ensures offset + k < v.spc * SECTOR && k < |ClusterRead(v, 0, offset, length)|
    ensures ClusterRead(v, 0, offset, length)[k] ==
              v.disk[v.base - 2 * v.spc + (offset + k) / SECTOR].data[(offset + k) % SECTOR]
  {
    InsideRead(v, 0, offset, length);
    hide ClusterRead;
    ZeroLies(v, offset + k);
    hide Cluster;
  }

  /** An empty file has first cluster 0, and so gives bytes although it has none. */
  lemma ReadEmptyFile(v: Volume, f: File, length: nat)
    requires VolumeOk(v) && Formatted(v.fat) && f.first == 0 && !f.eof && length > 0
    ensures var n := Min(length, ClusterSize(v) - f.position % ClusterSize(v));
            n > 0 &&
            AnyRead(v, f, length) ==
              Got(ClusterRead(v, 0, f.position % ClusterSize(v), length), f.(position := f.position + n, eof := true))
  {
    hide ClusterRead;
    hide Loop;
    SizePositive(v);
    DivMod(f.position, ClusterSize(v));
    SoughtZero(v.fat, f.position / ClusterSize(v));
    ClusterZero(v, f, f.position % ClusterSize(v), length);
  }

  class OpenFile {
    const first: nat
    const size: nat
    const isFile: bool
    var position: nat
    var eof: bool

    ghost function View(): File
      reads this
    {
      File(first, position, size, isFile, eof)
    }

    constructor (first: nat, size: nat, isFile: bool)
      ensures View() == File(first, 0, size, isFile, false)
    {
      this.first, this.size, this.isFile := first, size, isFile;
      position, eof := 0, false;
    }

    /** `fsFat12Read`; `None` when it strays outside the table. */
    method Read(v: Volume, length: nat) returns (buffer: Option<seq<Byte>>)
      requires VolumeOk(v)
      modifies this
      ensures match AnyRead(v, old(View()), length)
              case Got(bytes, f) => buffer == Some(bytes) && View() == f
              case Stray => buffer == None
      ensures forall chain :: Regular(v, old(View()), chain, length) ==>
                buffer.Some? && FromDisk(v, chain, old(position), buffer.value)
    {
      forall chain | Regular(v, View(), chain, length)
        ensures AnyRead(v, View(), length).Got? &&
                FromDisk(v, chain, position, AnyRead(v, View(), length).bytes) {
        ReadLies(v, View(), chain, length);
      }
      hide Regular;
      hide FromDisk;
      if eof { return Some([]); }
      SizePositive(v);
      DivMod(position, ClusterSize(v));
      hide ClusterSize;
      hide Loop;
      var cluster := Seek(v.fat, first, position / ClusterSize(v));
      if cluster.None? { return None; }
      buffer := ReadFrom(v, cluster.value, position % ClusterSize(v), length);
    }

    /** The loop over clusters. */
    method ReadFrom(v: Volume, start: nat, at: nat, length: nat) returns (buffer: Option<seq<Byte>>)
      requires VolumeOk(v) && at < ClusterSize(v)
      modifies this
      ensures match Loop(v, old(View()), start, at, length)
              case Got(bytes, f) => buffer == Some(bytes) && View() == f
              case Stray => buffer == None
    {
      hide ClusterRead;
      hide Loop;
      var cluster: nat, offset: nat, left: nat := start, at, length;
      ghost var whole := Loop(v, View(), start, at, length);
      var got: seq<Byte> := [];
      Prefixed(whole);
      while left > 0
        invariant offset < ClusterSize(v) && Prefix(got, Loop(v, View(), cluster, offset, left)) == whole
      {
        ghost var f := View();
        var part := ReadCluster(v, cluster, offset, left);
        LoopStep(v, f, cluster, offset, left, got);
        got := got + part;
        left := left - |part|;
        position := position + |part|;
        if position >= size && isFile {
          eof := true;
          return Some(got);
        }
        if offset + |part| == ClusterSize(v) {
          if !InFat(v.fat, cluster) { return None; }
          cluster := NextCluster(v.fat, cluster);
        }
        offset := 0;
        if cluster == 0 {
          eof := true;
          return Some(got);
        }
        if left == 0 { LoopDone(v, View(), cluster, offset, got); }
      }
      LoopDone(v, View(), cluster, offset, got);
      return Some(got);
    }
  }

  /** An outcome with bytes read before. */
  ghost function Prefix(bytes: seq<Byte>, o: Outcome): Outcome {
    match o case Got(rest, f) => Got(bytes + rest, f) case Stray => Stray
  }

  lemma LoopDone(v: Volume, f: File, cluster: nat, offset: nat, got: seq<Byte>)
    requires VolumeOk(v) && offset < ClusterSize(v)
    ensures Prefix(got, Loop(v, f, cluster, offset, 0)) == Got(got, f)
  {
    assert got + [] == got;
  }

  lemma Prefixed(o: Outcome)
    ensures Prefix([], o) == o
  {
    if o.Got? { assert [] + o.bytes == o.bytes; }
  }

  /** One round of the loop. */
  lemma LoopStep(v: Volume, f: File, cluster: nat, offset: nat, left: nat, got: seq<Byte>)
    requires VolumeOk(v) && offset < ClusterSize(v) && left > 0
    ensures var part, n := ClusterRead(v, cluster, offset, left), AmountOf(v, offset, left);
            var f1, now := f.(position := f.position + n), Prefix(got, Loop(v, f, cluster, offset, left));
            && 0 < n <= left
            && (f1.isFile && f1.position >= f1.size ==> now == Got(got + part, f1.(eof := true)))
            && (!(f1.isFile && f1.position >= f1.size) && offset + n == ClusterSize(v) ==>
                  match Follow(v.fat, cluster)
                  case None => now == Stray
                  case Some(c) =>
                    now == if c == 0 then Got(got + part, f1.(eof := true))
                           else Prefix(got + part, Loop(v, f1, c, 0, left - n)))
            && (!(f1.isFile && f1.position >= f1.size) && offset + n < ClusterSize(v) ==>
                  n == left && now == Got(got + part, if cluster == 0 then f1.(eof := true) else f1))
  {
    hide ClusterRead;
    var part := ClusterRead(v, cluster, offset, left);
    assert forall rest: seq<Byte> :: got + (part + rest) == (got + part) + rest;
  }

  lemma InTable(fat: seq<Byte>, chain: seq<nat>)
    requires ChainOk(fat, chain)
    ensures InFat(fat, chain[0]) && chain[0] != 0
  {
  }

  /** The loop that follows the table for `hops` clusters. */
  method Seek(fat: seq<Byte>, first: nat, hops: nat) returns (cluster: Option<nat>)
    ensures cluster == Sought(fat, first, hops)
  {
    var c: nat, left: nat := first, hops;
    while left > 0
      invariant Sought(fat, c, left) == Sought(fat, first, hops)
    {
      if !InFat(fat, c) { return None; }
      c := NextCluster(fat, c);
      left := left - 1;
    }
    return Some(c);
  }
}
