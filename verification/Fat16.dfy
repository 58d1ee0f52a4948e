/** Reading bytes off the disk (src/kernel/drivers/ATA/ata.cpp) and files off a FAT16 volume
  * (src/kernel/filesystem/FAT16/fat16.cpp). */
module Fat16 {
  import opened Options

  const SECTOR_SIZE := 512
  const CLUSTER_BYTES := 0x80 * 512  // clusterSize in freadCallback
  const END_OF_CHAIN := 0xffff

  type Disk = seq<Byte>

  // ---------- readDisk ----------

  /** Sectors that `readDisk` fetches for a request. */
  function SectorCount(size: nat): nat
  {
    size / SECTOR_SIZE + 1
  }

  predicate OnDisk(disk: Disk, nail: nat, size: nat)
  {
    (nail / SECTOR_SIZE + SectorCount(size)) * SECTOR_SIZE <= |disk|
  }

  /** The sectors, in a heap buffer that other heap memory follows. */
  function Fetched(disk: Disk, nail: nat, size: nat, beyond: seq<Byte>): seq<Byte>
    requires OnDisk(disk, nail, size)
  {
    var lba := nail / SECTOR_SIZE;
    disk[lba * SECTOR_SIZE..(lba + SectorCount(size)) * SECTOR_SIZE] + beyond
  }

  /** What `readDisk` copies out of that memory. */
  function ReadResult(disk: Disk, nail: nat, size: nat, beyond: seq<Byte>): (r: seq<Byte>)
    requires OnDisk(disk, nail, size) && |beyond| >= SECTOR_SIZE
    ensures |r| == size
  {
    ReachIntoBeyond(disk, nail, size, beyond);
    Fetched(disk, nail, size, beyond)[nail % SECTOR_SIZE..nail % SECTOR_SIZE + size]
  }

  lemma ReachIntoBeyond(disk: Disk, nail: nat, size: nat, beyond: seq<Byte>)
    requires OnDisk(disk, nail, size) && |beyond| >= SECTOR_SIZE
    ensures nail % SECTOR_SIZE + size <= |Fetched(disk, nail, size, beyond)|
  {
  }

  /** The request ends inside the sectors that were fetched. */
  predicate WithinSectors(nail: nat, size: nat)
  {
    nail % SECTOR_SIZE + size % SECTOR_SIZE <= SECTOR_SIZE
  }

  lemma SectorArithmetic(nail: nat, size: nat)
    ensures WithinSectors(nail, size) <==> nail % SECTOR_SIZE + size <= SectorCount(size) * SECTOR_SIZE
    ensures nail == nail / SECTOR_SIZE * SECTOR_SIZE + nail % SECTOR_SIZE
  {
  }

  lemma ReadInside(disk: Disk, nail: nat, size: nat, beyond: seq<Byte>)
    requires OnDisk(disk, nail, size) && |beyond| >= SECTOR_SIZE && WithinSectors(nail, size)
    ensures nail + size <= |disk| && ReadResult(disk, nail, size, beyond) == disk[nail..nail + size]
  {
    SectorArithmetic(nail, size);
    var lo, n := nail / SECTOR_SIZE * SECTOR_SIZE, SectorCount(size) * SECTOR_SIZE;
    assert (nail / SECTOR_SIZE + SectorCount(size)) * SECTOR_SIZE == lo + n;
    Window(disk, lo, n, beyond, nail - lo, size);
  }

  lemma Window(disk: Disk, lo: nat, n: nat, beyond: seq<Byte>, off: nat, size: nat)
    requires lo + n <= |disk| && off + size <= n
    ensures (disk[lo..lo + n] + beyond)[off..off + size] == disk[lo + off..lo + off + size]
  {
    var a, b := (disk[lo..lo + n] + beyond)[off..off + size], disk[lo + off..lo + off + size];
    forall i | 0 <= i < size
      ensures a[i] == b[i]
    {
      assert a[i] == (disk[lo..lo + n] + beyond)[off + i] == disk[lo..lo + n][off + i];
    }
  }

  /** A request that runs past its sectors returns bytes that are not from the disk. */
  lemma ReadOutside(disk: Disk, nail: nat, size: nat) returns (beyond: seq<Byte>)
    requires OnDisk(disk, nail, size) && nail + size <= |disk| && !WithinSectors(nail, size)
    ensures |beyond| == SECTOR_SIZE && ReadResult(disk, nail, size, beyond) != disk[nail..nail + size]
  {
    SectorArithmetic(nail, size);
    var last := nail + size - 1;
    var other: Byte := if disk[last] == 0 then 1 else 0;
    beyond := seq(SECTOR_SIZE, _ => other);
    var lo, n := nail / SECTOR_SIZE * SECTOR_SIZE, SectorCount(size) * SECTOR_SIZE;
    assert (nail / SECTOR_SIZE + SectorCount(size)) * SECTOR_SIZE == lo + n;
    var all := disk[lo..lo + n] + beyond;
    var r := ReadResult(disk, nail, size, beyond);
    assert r[size - 1] == all[nail - lo + size - 1] == other;
    assert disk[nail..nail + size][size - 1] == disk[last];
  }

  /** `readDisk` returns exactly the requested bytes, whatever lies behind its buffer, if and
    * only if the offsets of both ends within a sector add up to at most one sector. */
  lemma ReadDiskExactIff(disk: Disk, nail: nat, size: nat)
    requires OnDisk(disk, nail, size) && nail + size <= |disk|
    ensures WithinSectors(nail, size) <==>
            forall beyond: seq<Byte> | |beyond| >= SECTOR_SIZE ::
              ReadResult(disk, nail, size, beyond) == disk[nail..nail + size]
  {
    if WithinSectors(nail, size) {
      forall beyond: seq<Byte> | |beyond| >= SECTOR_SIZE
        ensures ReadResult(disk, nail, size, beyond) == disk[nail..nail + size]
      {
        ReadInside(disk, nail, size, beyond);
      }
    } else {
      var beyond := ReadOutside(disk, nail, size);
    }
  }

  /** `readLBA`: one sector after the other. */
  method ReadLBA(disk: Disk, lba: nat, lbaNo: nat) returns (buffer: seq<Byte>)
    requires (lba + lbaNo) * SECTOR_SIZE <= |disk|
    ensures buffer == disk[lba * SECTOR_SIZE..(lba + lbaNo) * SECTOR_SIZE]
  {
    buffer := [];
    for count := 0 to lbaNo
      invariant buffer == disk[lba * SECTOR_SIZE..(lba + count) * SECTOR_SIZE]
    {
      var from := (lba + count) * SECTOR_SIZE;
      buffer := buffer + disk[from..from + SECTOR_SIZE];
    }
  }

  method ReadDisk(disk: Disk, nail: nat, size: nat, beyond: seq<Byte>) returns (buffer: seq<Byte>)
    requires OnDisk(disk, nail, size) && |beyond| >= SECTOR_SIZE
    ensures buffer == ReadResult(disk, nail, size, beyond)
  {
    var lba := nail / SECTOR_SIZE;
    var lbaNo := size / SECTOR_SIZE + 1;
    var buffer2 := ReadLBA(disk, lba, lbaNo);
    var lbaOffset := nail % SECTOR_SIZE;
    ReachIntoBeyond(disk, nail, size, beyond);
    buffer := (buffer2 + beyond)[lbaOffset..lbaOffset + size];
  }

  // ---------- The volume ----------

  /** The header fields the kernel uses. */
  datatype Volume = Volume(bytesPerSector: nat, sectorsPerCluster: nat, reservedSectorsCount: nat,
                           tableCount: nat, tableSize: nat, rootEntryCount: nat)

  function RootStart(v: Volume): nat
  {
    (v.tableCount * v.tableSize + v.reservedSectorsCount) * SECTOR_SIZE
  }

  function RootEnd(v: Volume): nat
  {
    RootStart(v) + v.rootEntryCount * 32
  }

  function ClusterSize(v: Volume): nat
  {
    v.sectorsPerCluster * v.bytesPerSector
  }

  function FindFATOffset(v: Volume, cluster: nat): nat
    requires cluster >= 2
  {
    RootEnd(v) + (cluster - 2) * v.sectorsPerCluster * v.bytesPerSector
  }

  function FatEntryNail(v: Volume, cluster: nat): nat
  {
    v.reservedSectorsCount * SECTOR_SIZE + cluster * 2
  }

  const HEADER_BYTES := 62  // sizeof(FAT::Header)
  const ITEM_BYTES := 32    // sizeof(FAT::ItemHeader16)

  /** Every read of the FAT16 code stays within its sectors: the header, directory items of
    * the root and of any cluster, FAT entries, and whole clusters, on every volume with
    * 512-byte sectors. */
  lemma AllReadsWithinSectors(v: Volume, cluster: nat, item: nat, nail: nat)
    requires v.bytesPerSector == SECTOR_SIZE && cluster >= 2
    ensures WithinSectors(0, HEADER_BYTES)
    ensures WithinSectors(RootStart(v) + ITEM_BYTES * item, ITEM_BYTES)
    ensures WithinSectors(FindFATOffset(v, cluster) + ITEM_BYTES * item, ITEM_BYTES)
    ensures WithinSectors(FatEntryNail(v, cluster), 2)
    ensures WithinSectors(nail, CLUSTER_BYTES)
  {
    var root := v.tableCount * v.tableSize + v.reservedSectorsCount;
    ItemAligned(16 * root + item);
    assert RootStart(v) + ITEM_BYTES * item == ITEM_BYTES * (16 * root + item);
    var k := (cluster - 2) * v.sectorsPerCluster;
    ItemAligned(16 * root + v.rootEntryCount + 16 * k + item);
    assert FindFATOffset(v, cluster) + ITEM_BYTES * item ==
           ITEM_BYTES * (16 * root + v.rootEntryCount + 16 * k + item);
    EvenAligned(256 * v.reservedSectorsCount + cluster);
  }

  lemma ItemAligned(n: nat)
    ensures WithinSectors(ITEM_BYTES * n, ITEM_BYTES)
  {
    assert ITEM_BYTES * n % SECTOR_SIZE == ITEM_BYTES * (n % 16);
  }

  lemma EvenAligned(n: nat)
    ensures WithinSectors(2 * n, 2)
  {
    assert 2 * n % SECTOR_SIZE == 2 * (n % 256);
  }

  /** Where things lie on a volume, in header fields: the reserved sectors, the tables, the
    * root directory with its 32-byte items, then the clusters, one behind the other. */
  lemma VolumeLayout(v: Volume, root: nat, cs: nat, c: nat, d: nat, item: nat)
    requires root == (v.reservedSectorsCount + v.tableCount * v.tableSize) * 512
    requires cs == v.sectorsPerCluster * v.bytesPerSector && 2 <= c < d && item < v.rootEntryCount
    ensures RootStart(v) == root && root + 32 * item + 32 <= FindFATOffset(v, c)
    ensures FindFATOffset(v, 2) == root + 32 * v.rootEntryCount
    ensures FindFATOffset(v, c + 1) == FindFATOffset(v, c) + cs
    ensures FindFATOffset(v, c) + cs <= FindFATOffset(v, d)
  {
    hide FindFATOffset, RootEnd;
    ClusterPlace(v, root, cs, 2);
    ClusterPlace(v, root, cs, c);
    ClusterPlace(v, root, cs, c + 1);
    ClusterPlace(v, root, cs, d);
    Multiples(cs, c - 2, d - 2);
  }

  lemma ClusterPlace(v: Volume, root: nat, cs: nat, c: nat)
    requires root == (v.reservedSectorsCount + v.tableCount * v.tableSize) * 512
    requires cs == v.sectorsPerCluster * v.bytesPerSector && c >= 2
    ensures FindFATOffset(v, c) == root + 32 * v.rootEntryCount + (c - 2) * cs
  {
  }

  lemma Multiples(cs: nat, a: nat, b: nat)
    requires a < b
    ensures (a + 1) * cs == a * cs + cs && 0 <= a * cs && (a + 1) * cs <= b * cs
  {
  }

  /** The entries of the first table: words of two bytes, low byte first, behind the reserved
    * sectors, 256 to a sector. */
  lemma TableLayout(disk: Disk, v: Volume, c: nat)
    requires c < 256 * v.tableSize && (v.reservedSectorsCount + v.tableSize) * 512 <= |disk|
    requires TableOnDisk(disk, v, c)
    ensures var place := v.reservedSectorsCount * 512 + 2 * c;
            && place + 2 <= (v.reservedSectorsCount + v.tableSize) * 512
            && FatEntryNail(v, c) == place
            && NextCluster(disk, v, c) == disk[place] as int + 256 * disk[place + 1] as int
  {
  }

  // ---------- Cluster chains ----------

  function Word16(disk: Disk, nail: nat): nat
    requires nail + 2 <= |disk|
  {
    disk[nail] as int + 256 * disk[nail + 1] as int
  }

  /** The table lies on the disk, with room for the sector after it. */
  predicate TableOnDisk(disk: Disk, v: Volume, cluster: nat)
  {
    OnDisk(disk, FatEntryNail(v, cluster), 2) && FatEntryNail(v, cluster) + 2 <= |disk|
  }

  /** The next cluster of a chain, as the table on the disk says. */
  function NextCluster(disk: Disk, v: Volume, cluster: nat): nat
    requires TableOnDisk(disk, v, cluster)
  {
    Word16(disk, FatEntryNail(v, cluster))
  }

  predicate ClusterOk(disk: Disk, v: Volume, c: nat)
  {
    2 <= c != END_OF_CHAIN && TableOnDisk(disk, v, c) && OnDisk(disk, FindFATOffset(v, c), CLUSTER_BYTES)
  }

  predicate Follows(disk: Disk, v: Volume, chain: seq<nat>, i: nat)
    requires i < |chain| && ClusterOk(disk, v, chain[i])
  {
    NextCluster(disk, v, chain[i]) == if i + 1 < |chain| then chain[i + 1] else END_OF_CHAIN
  }

  /** The clusters of a file, followed from the first until the end mark. */
  ghost predicate IsChain(disk: Disk, v: Volume, chain: seq<nat>)
  {
    && chain != []
    && (forall i | 0 <= i < |chain| :: ClusterOk(disk, v, chain[i]))
    && (forall i | 0 <= i < |chain| :: Follows(disk, v, chain, i))
  }

  /** A chain that reaches the end mark visits no cluster twice. */
  lemma {:induction false} ChainAcyclic(disk: Disk, v: Volume, chain: seq<nat>, i: nat, j: nat)
    requires IsChain(disk, v, chain) && i < j < |chain|
    ensures chain[i] != chain[j]
    decreases |chain| - j
  {
    hide NextCluster, TableOnDisk, OnDisk, FindFATOffset;
    assert Follows(disk, v, chain, i) && Follows(disk, v, chain, j) && ClusterOk(disk, v, chain[i + 1]);
    if j + 1 < |chain| {
      ChainAcyclic(disk, v, chain, i + 1, j + 1);
    }
  }

  /** The bytes of a cluster window. */
  function WindowAt(disk: Disk, v: Volume, cluster: nat, size: nat): seq<Byte>
    requires cluster >= 2
  {
    var nail := FindFATOffset(v, cluster);
    if nail + size <= |disk| then disk[nail..nail + size] else []
  }

  /** The clusters of a chain one after the other, `size` bytes of each. */
  function Concat(disk: Disk, v: Volume, chain: seq<nat>, size: nat): seq<Byte>
    requires forall i | 0 <= i < |chain| :: chain[i] >= 2
  {
    if chain == [] then []
    else Concat(disk, v, chain[..|chain| - 1], size) + WindowAt(disk, v, chain[|chain| - 1], size)
  }

  /** The contents of a file: its clusters, in chain order, at the volume's cluster size. */
  function FileBytes(disk: Disk, v: Volume, chain: seq<nat>): seq<Byte>
    requires forall i | 0 <= i < |chain| :: chain[i] >= 2
  {
    Concat(disk, v, chain, ClusterSize(v))
  }

  method GetFATEntry(disk: Disk, v: Volume, cluster: nat, beyond: seq<Byte>) returns (entry: nat)
    requires TableOnDisk(disk, v, cluster) && |beyond| >= SECTOR_SIZE
    ensures entry == NextCluster(disk, v, cluster)
  {
    var nail := v.reservedSectorsCount * SECTOR_SIZE + cluster * 2;
    EvenAligned(256 * v.reservedSectorsCount + cluster);
    var bytes := ReadDisk(disk, nail, 2, beyond);
    ReadInside(disk, nail, 2, beyond);
    entry := bytes[0] as int + 256 * bytes[1] as int;
  }

  lemma ConcatSnoc(disk: Disk, v: Volume, chain: seq<nat>, i: nat, size: nat)
    requires i < |chain| && forall k | 0 <= k < |chain| :: chain[k] >= 2
    ensures Concat(disk, v, chain[..i + 1], size) ==
            Concat(disk, v, chain[..i], size) + WindowAt(disk, v, chain[i], size)
  {
    assert chain[..i + 1][..i] == chain[..i];
  }

  /** With every window on the disk the concatenation has the expected length. */
  lemma {:induction false} ConcatLength(disk: Disk, v: Volume, chain: seq<nat>, size: nat)
    requires forall i | 0 <= i < |chain| :: chain[i] >= 2 && FindFATOffset(v, chain[i]) + size <= |disk|
    ensures |Concat(disk, v, chain, size)| == |chain| * size
    decreases |chain|
  {
    hide FindFATOffset;
    if chain != [] {
      ConcatLength(disk, v, chain[..|chain| - 1], size);
      assert |chain| * size == (|chain| - 1) * size + size;
    }
  }

  lemma ClusterWindow(disk: Disk, v: Volume, c: nat, beyond: seq<Byte>)
    requires ClusterOk(disk, v, c) && |beyond| >= SECTOR_SIZE
    ensures ReadResult(disk, FindFATOffset(v, c), CLUSTER_BYTES, beyond) == WindowAt(disk, v, c, CLUSTER_BYTES)
    ensures |WindowAt(disk, v, c, CLUSTER_BYTES)| == CLUSTER_BYTES
    ensures FindFATOffset(v, c) + CLUSTER_BYTES <= |disk|
  {
    hide FindFATOffset;
    ReadInside(disk, FindFATOffset(v, c), CLUSTER_BYTES, beyond);
  }

  /** `freadCallback`: follows the chain to its end and fills the buffer window by window. */
  method FreadCallback(disk: Disk, v: Volume, first: nat, nailStart: nat, buffer: array<Byte>, beyond: seq<Byte>,
                       ghost chain: seq<nat>)
    requires IsChain(disk, v, chain) && first == chain[0] && nailStart == FindFATOffset(v, first)
    requires |beyond| >= SECTOR_SIZE && |chain| * CLUSTER_BYTES <= buffer.Length
    modifies buffer
    ensures buffer[..|chain| * CLUSTER_BYTES] == Concat(disk, v, chain, CLUSTER_BYTES)
    ensures buffer[|chain| * CLUSTER_BYTES..] == old(buffer[|chain| * CLUSTER_BYTES..])
  {
    hide FindFATOffset, NextCluster, ReadResult, OnDisk, TableOnDisk, WindowAt, Concat;
    var entry, nail, i := first, nailStart, 0;
    ghost var k := 0;
    NoClusters(disk, v, chain);
    while entry != END_OF_CHAIN
      invariant k <= |chain| && i == k * CLUSTER_BYTES
      invariant entry == if k < |chain| then chain[k] else END_OF_CHAIN
      invariant k < |chain| ==> nail == FindFATOffset(v, entry)
      invariant buffer[..i] == Concat(disk, v, chain[..k], CLUSTER_BYTES)
      invariant buffer[i..] == old(buffer[i..])
      decreases |chain| - k
    {
      assert ClusterOk(disk, v, chain[k]) && Follows(disk, v, chain, k);
      ClusterWindow(disk, v, chain[k], beyond);
      var bytes := ReadDisk(disk, nail, CLUSTER_BYTES, beyond);
      CopyIn(buffer, i, bytes, |chain| - k);
      ConcatSnoc(disk, v, chain, k, CLUSTER_BYTES);
      entry := GetFATEntry(disk, v, entry, beyond);
      k := k + 1;
      if k < |chain| {
        assert ClusterOk(disk, v, chain[k]);
      }
      nail := FindFATOffset(v, entry);
      i := i + CLUSTER_BYTES;
    }
    assert chain[..k] == chain;
  }

  lemma NoClusters(disk: Disk, v: Volume, chain: seq<nat>)
    ensures Concat(disk, v, chain[..0], CLUSTER_BYTES) == []
  {
  }

  /** One window into the buffer. */
  method CopyIn(buffer: array<Byte>, i: nat, bytes: seq<Byte>, ghost left: nat)
    requires |bytes| == CLUSTER_BYTES && left > 0 && i + left * CLUSTER_BYTES <= buffer.Length
    modifies buffer
    ensures buffer[..i + CLUSTER_BYTES] == old(buffer[..i]) + bytes
    ensures buffer[i + CLUSTER_BYTES..] == old(buffer[i + CLUSTER_BYTES..])
  {
    forall l | 0 <= l < CLUSTER_BYTES {
      buffer[i + l] := bytes[l];
    }
    assert forall j | 0 <= j < i + CLUSTER_BYTES :: buffer[..i + CLUSTER_BYTES][j] == (old(buffer[..i]) + bytes)[j];
  }

  // ---------- What the caller gets ----------

  function CeilDiv(n: nat, d: nat): nat
    requires d > 0
  {
    (n + d - 1) / d
  }

  /** A file of `size` bytes: as many clusters as that takes, all of them on the disk, and
    * their table entries before the root directory. */
  ghost predicate FileOf(disk: Disk, v: Volume, chain: seq<nat>, size: nat)
  {
    && IsChain(disk, v, chain) && ClusterSize(v) > 0 && size > 0 && |chain| == CeilDiv(size, ClusterSize(v))
    && (forall i | 0 <= i < |chain| ::
          && FindFATOffset(v, chain[i]) + ClusterSize(v) <= |disk|
          && FatEntryNail(v, chain[i]) + 2 <= RootStart(v))
  }

  /** The first `size` bytes of what `freadCallback` writes are those of the file. */
  ghost predicate ReadsFile(disk: Disk, v: Volume, chain: seq<nat>, size: nat)
    requires forall i | 0 <= i < |chain| :: chain[i] >= 2
  {
    var got, want := Concat(disk, v, chain, CLUSTER_BYTES), FileBytes(disk, v, chain);
    size <= |got| && size <= |want| && got[..size] == want[..size]
  }

  /** The clusters follow each other on the disk. */
  predicate Consecutive(chain: seq<nat>)
  {
    forall i | 0 <= i < |chain| :: chain[i] == chain[0] + i
  }

  /** 64 KiB clusters, or a file that lies in one piece within the first window. */
  predicate ReadableLayout(v: Volume, chain: seq<nat>, size: nat)
  {
    ClusterSize(v) == CLUSTER_BYTES || (size <= CLUSTER_BYTES && Consecutive(chain))
  }

  lemma OffsetLinear(v: Volume, c: nat)
    requires c >= 2
    ensures FindFATOffset(v, c) == RootEnd(v) + (c - 2) * ClusterSize(v)
  {
  }

  /** Where on the disk byte p of the concatenated windows comes from. */
  function Source(v: Volume, chain: seq<nat>, window: nat, p: nat): nat
    requires window > 0 && p / window < |chain| && chain[p / window] >= 2
  {
    FindFATOffset(v, chain[p / window]) + p % window
  }

  lemma WindowOf(p: nat, window: nat, n: nat)
    requires window > 0 && p < n * window
    ensures p / window < n
  {
  }

  lemma {:induction false} ConcatAt(disk: Disk, v: Volume, chain: seq<nat>, window: nat, j: nat, r: nat, p: nat)
    requires j < |chain| && r < window && p == j * window + r
    requires forall i | 0 <= i < |chain| :: chain[i] >= 2 && FindFATOffset(v, chain[i]) + window <= |disk|
    ensures p < |Concat(disk, v, chain, window)| == |chain| * window
    ensures Concat(disk, v, chain, window)[p] == disk[FindFATOffset(v, chain[j]) + r]
    decreases |chain|
  {
    hide FindFATOffset, WindowAt;
    var n := |chain| - 1;
    var front := chain[..n];
    ConcatLength(disk, v, chain, window);
    ConcatLength(disk, v, front, window);
    BeforeLast(j, |chain|, window);
    Spread(n, 1, window);
    if j < n {
      ConcatAt(disk, v, front, window, j, r, p);
    } else {
      WindowByte(disk, v, chain[n], window, r);
    }
  }

  /** Byte p of s, a concatenation of windows, comes from its place in the data area. */
  ghost predicate ByteFrom(disk: Disk, s: seq<Byte>, v: Volume, chain: seq<nat>, window: nat, p: nat)
  {
    && window > 0 && p < |s| && p / window < |chain| && chain[p / window] >= 2
    && RootEnd(v) <= Source(v, chain, window, p) < |disk| && s[p] == disk[Source(v, chain, window, p)]
  }

  lemma ConcatByte(disk: Disk, v: Volume, chain: seq<nat>, window: nat, p: nat)
    requires window > 0 && p < |chain| * window
    requires forall i | 0 <= i < |chain| :: chain[i] >= 2 && FindFATOffset(v, chain[i]) + window <= |disk|
    ensures |Concat(disk, v, chain, window)| == |chain| * window
    ensures ByteFrom(disk, Concat(disk, v, chain, window), v, chain, window, p)
  {
    hide FindFATOffset, Concat, RootEnd;
    WindowOf(p, window, |chain|);
    var j, r := p / window, p % window;
    DivMod(p, window);
    ConcatAt(disk, v, chain, window, j, r, p);
    PastRoot(v, chain[j]);
  }

  lemma DivMod(p: nat, d: nat)
    requires d > 0
    ensures p == p / d * d + p % d
  {
  }

  lemma WindowByte(disk: Disk, v: Volume, c: nat, window: nat, i: nat)
    requires c >= 2 && FindFATOffset(v, c) + window <= |disk| && i < window
    ensures |WindowAt(disk, v, c, window)| == window && WindowAt(disk, v, c, window)[i] == disk[FindFATOffset(v, c) + i]
  {
    hide FindFATOffset;
  }

  lemma MultipleSize(d: int, w: int)
    requires w > 0
    ensures (d >= 1 ==> d * w >= w) && (d <= -1 ==> d * w <= -w)
  {
  }

  lemma LastWindow(p: nat, window: nat, n: nat)
    requires window > 0 && n * window <= p < n * window + window
    ensures p / window == n && p % window == p - n * window
  {
    var q := p / window;
    assert p == q * window + p % window;
    Spread(n, q - n, window);
    MultipleSize(q - n, window);
  }

  /** The first byte of cluster j, which lies inside the first window. */
  lemma ClusterStart(v: Volume, chain: seq<nat>, j: nat)
    requires ClusterSize(v) > 0 && j < |chain| && j * ClusterSize(v) < CLUSTER_BYTES
    requires forall i | 0 <= i < |chain| :: chain[i] >= 2
    ensures var p := j * ClusterSize(v);
            SameSource(v, chain, p) <==> chain[j] == chain[0] + j
  {
    hide FindFATOffset, ClusterSize;
    var cs := ClusterSize(v);
    LastWindow(j * cs, cs, j);
    OffsetLinear(v, chain[0]);
    OffsetLinear(v, chain[j]);
    SameProduct(chain[j] - 2, chain[0] - 2 + j, cs);
    assert (chain[0] - 2 + j) * cs == (chain[0] - 2) * cs + j * cs;
  }

  lemma SameProduct(a: int, b: int, c: nat)
    requires c > 0
    ensures a * c == b * c <==> a == b
  {
    Spread(b, a - b, c);
    MultipleSize(a - b, c);
  }

  /** The first byte of the second window, when the file reaches that far. */
  lemma SecondWindow(disk: Disk, v: Volume, chain: seq<nat>, size: nat)
    requires FileOf(disk, v, chain, size) && size > CLUSTER_BYTES && ClusterSize(v) != CLUSTER_BYTES && |chain| >= 2
    requires forall j | 0 <= j < |chain| && j * ClusterSize(v) < CLUSTER_BYTES :: chain[j] == chain[0] + j
    ensures (forall i | 0 <= i < |chain| :: chain[i] >= 2) && !SameSource(v, chain, CLUSTER_BYTES)
  {
    hide FindFATOffset, IsChain, ClusterSize;
    var cs := ClusterSize(v);
    ClustersCover(size, cs);
    WindowOf(CLUSTER_BYTES, cs, |chain|);
    var j := CLUSTER_BYTES / cs;
    ChainNumbers(disk, v, chain);
    OffsetLinear(v, chain[0]);
    OffsetLinear(v, chain[1]);
    OffsetLinear(v, chain[j]);
    SplitWindow(cs);
    if CLUSTER_BYTES % cs == 0 {
      ChainAcyclic(disk, v, chain, 1, j);
      SameProduct(chain[1] - 2, chain[j] - 2, cs);
    } else {
      assert chain[j] == chain[0] + j;
      var first: int, second: int := chain[0], chain[1];
      NoMultiple(second - first, cs, CLUSTER_BYTES);
      Spread(first - 2, j, cs);
      Spread(first - 2, second - first, cs);
    }
  }

  lemma Spread(a: int, b: int, c: int)
    ensures (a + b) * c == a * c + b * c
  {
  }

  lemma SplitWindow(cs: nat)
    requires cs > 0 && cs != CLUSTER_BYTES
    ensures CLUSTER_BYTES == CLUSTER_BYTES / cs * cs + CLUSTER_BYTES % cs
    ensures CLUSTER_BYTES % cs == 0 ==> CLUSTER_BYTES / cs > 1
    ensures CLUSTER_BYTES % cs != 0 ==> CLUSTER_BYTES / cs * cs < CLUSTER_BYTES
  {
    assert CLUSTER_BYTES == CLUSTER_BYTES / cs * cs + CLUSTER_BYTES % cs;
  }

  lemma NoMultiple(a: int, cs: nat, n: nat)
    requires cs > 0 && n % cs != 0
    ensures a * cs != n
  {
    MultipleSize(a, cs);
    if a >= 0 && a * cs == n {
      LastWindow(n, cs, a);
    }
  }

  lemma ClustersCover(size: nat, cs: nat)
    requires cs > 0
    ensures size <= CeilDiv(size, cs) * cs && (size > 0 ==> (CeilDiv(size, cs) - 1) * cs < size)
  {
    var n := size + cs - 1;
    assert n == n / cs * cs + n % cs;
  }

  lemma ChainNumbers(disk: Disk, v: Volume, chain: seq<nat>)
    requires IsChain(disk, v, chain)
    ensures forall i | 0 <= i < |chain| :: chain[i] >= 2 && FindFATOffset(v, chain[i]) + CLUSTER_BYTES <= |disk|
  {
    hide FindFATOffset, NextCluster, TableOnDisk;
    forall i | 0 <= i < |chain|
      ensures FindFATOffset(v, chain[i]) + CLUSTER_BYTES <= |disk|
    {
      ClusterWindow(disk, v, chain[i], seq(SECTOR_SIZE, _ => 0));
    }
  }

  /** The buffer and the file take every byte from the same place. */
  ghost predicate SourcesAgree(v: Volume, chain: seq<nat>, size: nat)
    requires ClusterSize(v) > 0 && forall i | 0 <= i < |chain| :: chain[i] >= 2
  {
    && size <= |chain| * CLUSTER_BYTES
    && forall p | 0 <= p < size :: SameSource(v, chain, p)
  }

  predicate SameSource(v: Volume, chain: seq<nat>, p: nat)
    requires ClusterSize(v) > 0 && forall i | 0 <= i < |chain| :: chain[i] >= 2
  {
    && p / CLUSTER_BYTES < |chain| && p / ClusterSize(v) < |chain|
    && Source(v, chain, CLUSTER_BYTES, p) == Source(v, chain, ClusterSize(v), p)
  }

  lemma ReadableAgrees(disk: Disk, v: Volume, chain: seq<nat>, size: nat)
    requires FileOf(disk, v, chain, size) && ReadableLayout(v, chain, size)
    ensures (forall i | 0 <= i < |chain| :: chain[i] >= 2) && SourcesAgree(v, chain, size)
  {
    hide FindFATOffset, IsChain, ClusterSize, SameSource, Source;
    ChainNumbers(disk, v, chain);
    ClustersCover(size, ClusterSize(v));
    forall p | 0 <= p < size
      ensures SameSource(v, chain, p)
    {
      WindowOf(p, ClusterSize(v), |chain|);
      ReadableByte(v, chain, size, p);
    }
  }

  lemma ReadableByte(v: Volume, chain: seq<nat>, size: nat, p: nat)
    requires ClusterSize(v) > 0 && p < size && p / ClusterSize(v) < |chain| && ReadableLayout(v, chain, size)
    requires forall i | 0 <= i < |chain| :: chain[i] >= 2
    ensures SameSource(v, chain, p)
  {
    hide FindFATOffset, ClusterSize, Consecutive, Source;
    if ClusterSize(v) != CLUSTER_BYTES {
      InFirstWindow(v, chain, p, ClusterSize(v), p / ClusterSize(v), p % ClusterSize(v));
    }
  }

  lemma InFirstWindow(v: Volume, chain: seq<nat>, p: nat, cs: nat, j: nat, r: nat)
    requires cs == ClusterSize(v) > 0 && j == p / cs && r == p % cs && p < CLUSTER_BYTES && j < |chain|
    requires Consecutive(chain) && forall i | 0 <= i < |chain| :: chain[i] >= 2
    ensures Source(v, chain, CLUSTER_BYTES, p) == Source(v, chain, cs, p)
  {
    hide FindFATOffset, ClusterSize, Consecutive;
    DivMod(p, cs);
    ConsecutivePlace(v, chain, j, r);
  }

  /** In a file that lies in one piece, byte j * cs + r is where the first window puts it. */
  lemma ConsecutivePlace(v: Volume, chain: seq<nat>, j: nat, r: nat)
    requires Consecutive(chain) && j < |chain| && forall i | 0 <= i < |chain| :: chain[i] >= 2
    ensures FindFATOffset(v, chain[0]) + (j * ClusterSize(v) + r) == FindFATOffset(v, chain[j]) + r
  {
    hide FindFATOffset, ClusterSize;
    var c0: int := chain[0];
    OffsetLinear(v, chain[0]);
    OffsetLinear(v, chain[j]);
    Spread(c0 - 2, j, ClusterSize(v));
  }

  lemma AgreeingIsReadable(disk: Disk, v: Volume, chain: seq<nat>, size: nat)
    requires FileOf(disk, v, chain, size) && forall i | 0 <= i < |chain| :: chain[i] >= 2
    requires SourcesAgree(v, chain, size)
    ensures ReadableLayout(v, chain, size)
  {
    hide FindFATOffset, IsChain, ClusterSize, Source;
    var cs := ClusterSize(v);
    ClustersCover(size, cs);
    if cs != CLUSTER_BYTES {
      forall j | 0 <= j < |chain| && j * cs < CLUSTER_BYTES
        ensures chain[j] == chain[0] + j
      {
        ClusterStart(v, chain, j);
        BeforeLast(j, |chain|, cs);
        assert SameSource(v, chain, j * cs);
      }
      if size > CLUSTER_BYTES {
        assert SameSource(v, chain, CLUSTER_BYTES);
        SecondWindow(disk, v, chain, size);
      }
      forall j | 0 <= j < |chain|
        ensures j * cs < size
      {
        BeforeLast(j, |chain|, cs);
      }
    }
  }

  lemma BeforeLast(j: nat, n: nat, cs: nat)
    requires j < n
    ensures j * cs <= (n - 1) * cs
  {
  }

  /** Data bytes may change without changing the chain. */
  lemma DataByteFree(disk: Disk, v: Volume, chain: seq<nat>, size: nat, q: nat, b: Byte)
    requires FileOf(disk, v, chain, size) && RootEnd(v) <= q < |disk|
    ensures FileOf(disk[q := b], v, chain, size)
  {
    hide FindFATOffset;
    var d: Disk := disk[q := b];
    assert forall i | 0 <= i < |chain| :: ClusterOk(disk, v, chain[i]) ==> ClusterOk(d, v, chain[i]);
    forall i | 0 <= i < |chain|
      ensures ClusterOk(d, v, chain[i]) && Follows(d, v, chain, i)
    {
      assert ClusterOk(disk, v, chain[i]) && Follows(disk, v, chain, i);
    }
  }

  lemma FileByte(disk: Disk, v: Volume, chain: seq<nat>, size: nat, p: nat)
    requires FileOf(disk, v, chain, size) && p < size <= |chain| * CLUSTER_BYTES
    requires forall i | 0 <= i < |chain| :: chain[i] >= 2
    ensures var got, want := Concat(disk, v, chain, CLUSTER_BYTES), FileBytes(disk, v, chain);
            && size <= |got| && size <= |want|
            && ByteFrom(disk, got, v, chain, CLUSTER_BYTES, p) && ByteFrom(disk, want, v, chain, ClusterSize(v), p)
  {
    hide FindFATOffset, IsChain, ClusterSize, Concat, RootEnd, ByteFrom;
    ChainNumbers(disk, v, chain);
    ClustersCover(size, ClusterSize(v));
    ConcatByte(disk, v, chain, CLUSTER_BYTES, p);
    ConcatByte(disk, v, chain, ClusterSize(v), p);
  }

  lemma PastRoot(v: Volume, c: nat)
    requires c >= 2
    ensures FindFATOffset(v, c) >= RootEnd(v)
  {
  }

  /** The fixed step of 65536 bytes gives the caller the file, whatever its bytes are, if and
    * only if clusters have that size or the file lies in one piece within the first window. */
  lemma FreadIsFileIff(disk: Disk, v: Volume, chain: seq<nat>, size: nat)
    requires FileOf(disk, v, chain, size)
    ensures (forall d: Disk | |d| == |disk| && FileOf(d, v, chain, size) :: ReadsFile(d, v, chain, size)) <==>
            ReadableLayout(v, chain, size)
  {
    hide FindFATOffset, IsChain, ClusterSize, Concat, FileBytes, RootEnd, Source;
    ChainNumbers(disk, v, chain);
    if ReadableLayout(v, chain, size) {
      ReadableAgrees(disk, v, chain, size);
      forall d: Disk | |d| == |disk| && FileOf(d, v, chain, size)
        ensures ReadsFile(d, v, chain, size)
      {
        AgreeingReads(d, v, chain, size);
      }
    } else if size <= |chain| * CLUSTER_BYTES && forall p | 0 <= p < size :: SameSource(v, chain, p) {
      AgreeingIsReadable(disk, v, chain, size);
    } else {
      var d := SpoiltDisk(disk, v, chain, size);
    }
  }

  lemma AgreeingReads(d: Disk, v: Volume, chain: seq<nat>, size: nat)
    requires FileOf(d, v, chain, size) && forall i | 0 <= i < |chain| :: chain[i] >= 2
    requires SourcesAgree(v, chain, size)
    ensures ReadsFile(d, v, chain, size)
  {
    hide FindFATOffset, IsChain, ClusterSize, Concat, FileBytes, RootEnd, Source;
    var got, want := Concat(d, v, chain, CLUSTER_BYTES), FileBytes(d, v, chain);
    FileByte(d, v, chain, size, 0);
    forall p | 0 <= p < size
      ensures size <= |got| && size <= |want| && got[p] == want[p]
    {
      FileByte(d, v, chain, size, p);
      assert SameSource(v, chain, p);
    }
  }

  /** Bytes for which the read goes wrong. */
  lemma SpoiltDisk(disk: Disk, v: Volume, chain: seq<nat>, size: nat) returns (d: Disk)
    requires FileOf(disk, v, chain, size) && forall i | 0 <= i < |chain| :: chain[i] >= 2
    requires !SourcesAgree(v, chain, size)
    ensures |d| == |disk| && FileOf(d, v, chain, size) && !ReadsFile(d, v, chain, size)
  {
    hide FindFATOffset, IsChain, ClusterSize, FileBytes, Concat, RootEnd, Source, SameSource;
    d := disk;
    ChainNumbers(disk, v, chain);
    if size > |chain| * CLUSTER_BYTES {
      ConcatLength(disk, v, chain, CLUSTER_BYTES);
    } else {
      var p :| 0 <= p < size && !SameSource(v, chain, p);
      d := SpoiltByte(disk, v, chain, size, p);
      FileByte(d, v, chain, size, p);
    }
  }

  lemma SpoiltByte(disk: Disk, v: Volume, chain: seq<nat>, size: nat, p: nat) returns (d: Disk)
    requires FileOf(disk, v, chain, size) && forall i | 0 <= i < |chain| :: chain[i] >= 2
    requires p < size <= |chain| * CLUSTER_BYTES && !SameSource(v, chain, p)
    ensures |d| == |disk| && FileOf(d, v, chain, size) && !ReadsFile(d, v, chain, size)
  {
    hide FindFATOffset, IsChain, ClusterSize, FileBytes, Concat, RootEnd, Source;
    FileByte(disk, v, chain, size, p);
    var q, r := Source(v, chain, CLUSTER_BYTES, p), Source(v, chain, ClusterSize(v), p);
    var b: Byte := if disk[r] == 0 then 1 else 0;
    d := disk[q := b];
    DataByteFree(disk, v, chain, size, q, b);
    FileByte(d, v, chain, size, p);
    var got, want := Concat(d, v, chain, CLUSTER_BYTES), FileBytes(d, v, chain);
    assert got[..size][p] == b && want[..size][p] == disk[r];
  }

  /** The windows of a file fit the size + 65535 bytes that `createTask` allocates for them if
    * and only if the file has no more clusters than 64 KiB windows: always with 64 KiB
    * clusters, and with clusters of up to 32 KiB exactly for files of one cluster. */
  lemma BufferFitsIff(disk: Disk, v: Volume, chain: seq<nat>, size: nat)
    requires FileOf(disk, v, chain, size)
    ensures var fits := |Concat(disk, v, chain, CLUSTER_BYTES)| <= size + 65535;
            && (fits <==> CeilDiv(size, ClusterSize(v)) <= CeilDiv(size, CLUSTER_BYTES))
            && (ClusterSize(v) == CLUSTER_BYTES ==> fits)
            && (ClusterSize(v) <= 0x8000 ==> (fits <==> |chain| == 1))
  {
    hide FindFATOffset, IsChain, ClusterSize, Concat;
    ChainNumbers(disk, v, chain);
    ConcatLength(disk, v, chain, CLUSTER_BYTES);
    ClustersCover(size, ClusterSize(v));
    if ClusterSize(v) <= 0x8000 {
      SmallClusters(|chain|, ClusterSize(v));
    }
  }

  lemma SmallClusters(n: nat, cs: nat)
    requires cs <= 0x8000
    ensures n * cs <= n * 0x8000
  {
  }

  /** So with the cluster sizes that occur, powers of two up to 64 KiB, loading a program is
    * right and stays within its buffer if and only if clusters are 64 KiB or it has only one. */
  lemma FreadSafeIff(disk: Disk, v: Volume, chain: seq<nat>, size: nat)
    requires FileOf(disk, v, chain, size) && (ClusterSize(v) <= 0x8000 || ClusterSize(v) == CLUSTER_BYTES)
    ensures |Concat(disk, v, chain, CLUSTER_BYTES)| <= size + 65535
            && (forall d: Disk | |d| == |disk| && FileOf(d, v, chain, size) :: ReadsFile(d, v, chain, size)) <==>
            ClusterSize(v) == CLUSTER_BYTES || |chain| == 1
  {
    hide FindFATOffset, IsChain, ClusterSize, Concat, FileOf, ReadsFile;
    FreadIsFileIff(disk, v, chain, size);
    BufferFitsIff(disk, v, chain, size);
    OneCluster(disk, v, chain, size);
  }

  lemma OneCluster(disk: Disk, v: Volume, chain: seq<nat>, size: nat)
    requires FileOf(disk, v, chain, size)
    ensures ClusterSize(v) > 0 && size <= |chain| * ClusterSize(v) && forall i | 0 <= i < |chain| :: chain[i] >= 2
  {
    hide FindFATOffset, ClusterSize;
    ClustersCover(size, ClusterSize(v));
  }

  /** Byte r of cluster j of a file, in header fields: it lies behind the tables, the root
    * directory and the clusters with lower numbers. */
  lemma FilePlace(disk: Disk, v: Volume, chain: seq<nat>, size: nat, j: nat, r: nat, p: nat, root: nat, cs: nat)
    requires root == (v.reservedSectorsCount + v.tableCount * v.tableSize) * 512
    requires cs == v.sectorsPerCluster * v.bytesPerSector && FileOf(disk, v, chain, size)
    requires j < |chain| && r < cs && p == j * cs + r && forall i | 0 <= i < |chain| :: chain[i] >= 2
    ensures p < |FileBytes(disk, v, chain)| == |chain| * cs
    ensures var q: int := root + 32 * v.rootEntryCount + (chain[j] - 2) * cs + r;
            0 <= q < |disk| && FileBytes(disk, v, chain)[p] == disk[q]
  {
    hide FindFATOffset, IsChain, Concat, TableOnDisk, RootEnd, CeilDiv;
    ConcatAt(disk, v, chain, cs, j, r, p);
    ClusterPlace(v, root, cs, chain[j]);
  }
}
