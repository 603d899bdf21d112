/** Volume geometry derived from a decoded FAT boot sector: where the data
    region starts, which sector holds a cluster, how many clusters there are,
    which FAT variant the volume is, and where the FAT32 root directory is.
    All arithmetic is C# `uint` arithmetic in an unchecked context, so every
    intermediate result wraps around modulo 2^32. */
module FatGeometry {
  import opened Uint
  import opened Wrappers
  import opened FatBootSector

  /** What the C# code throws: `GetClustersCount` divides by the sectors per
      cluster, which raises a DivideByZeroException when that byte is 0. */
  datatype GeometryError = DivideByZero

  /** The FAT size in sectors: the 16-bit field, or the FAT32 field when the
      16-bit one is 0. */
  function EffectiveFatSize(b: BootSector): uint32 {
    if b.bpb.fatSize16 == 0 then b.fatSize32 else b.bpb.fatSize16
  }

  /** `GetFirstDataSectorNumber`: reserved sectors plus the sectors of all
      FATs. The `catch` that returns 0 is never reached, since nothing in
      unchecked arithmetic throws. */
  function FirstDataSectorNumber(b: BootSector): (r: uint32)
    ensures r == (b.bpb.reservedSectorsCount + b.bpb.fatCount * EffectiveFatSize(b)) % TWO_TO_THE_32
    ensures b.bpb.reservedSectorsCount + b.bpb.fatCount * EffectiveFatSize(b) < TWO_TO_THE_32 ==>
              r == b.bpb.reservedSectorsCount + b.bpb.fatCount * EffectiveFatSize(b)
  {
    Add32(b.bpb.reservedSectorsCount, Mul32(b.bpb.fatCount, EffectiveFatSize(b)))
  }

  /** With a non-zero 16-bit FAT size the FAT32 size field plays no part. */
  lemma FirstDataSectorIgnoresFatSize32(b: BootSector, fatSize32: uint32)
    requires b.bpb.fatSize16 != 0
    ensures FirstDataSectorNumber(b.(fatSize32 := fatSize32)) == FirstDataSectorNumber(b)
  {
  }

  /** `GetFirstSectorNumber`: the first sector of a cluster. Data clusters are
      numbered from 2; clusters 0 and 1 wrap around like any other value. */
  function FirstSectorNumber(b: BootSector, cluster: uint32): (r: uint32)
    ensures r == ((cluster - 2) * b.bpb.sectorsPerCluster
                  + b.bpb.reservedSectorsCount + b.bpb.fatCount * EffectiveFatSize(b)) % TWO_TO_THE_32
    ensures cluster == 2 ==> r == FirstDataSectorNumber(b)
  {
    var offset := Mul32(Sub32(cluster, 2), b.bpb.sectorsPerCluster);
    var x := (cluster - 2) * b.bpb.sectorsPerCluster;
    var raw := b.bpb.reservedSectorsCount + b.bpb.fatCount * EffectiveFatSize(b);
    assert offset == x % TWO_TO_THE_32 by {
      MulMod32(cluster - 2, b.bpb.sectorsPerCluster);
    }
    assert FirstDataSectorNumber(b) == raw % TWO_TO_THE_32;
    AddMod32(x, raw);
    Add32(offset, FirstDataSectorNumber(b))
  }

  /** When nothing overflows, cluster c starts (c - 2) clusters after the
      reserved sectors and the FATs. */
  lemma FirstSectorNumberExact(b: BootSector, cluster: uint32)
    requires cluster >= 2
    requires (cluster - 2) * b.bpb.sectorsPerCluster + b.bpb.reservedSectorsCount
             + b.bpb.fatCount * EffectiveFatSize(b) < TWO_TO_THE_32
    ensures FirstSectorNumber(b, cluster) == (cluster - 2) * b.bpb.sectorsPerCluster + b.bpb.reservedSectorsCount
                                             + b.bpb.fatCount * EffectiveFatSize(b)
    ensures FirstSectorNumber(b, cluster) == (cluster - 2) * b.bpb.sectorsPerCluster + FirstDataSectorNumber(b)
  {
    var x := (cluster - 2) * b.bpb.sectorsPerCluster;
    var raw := b.bpb.reservedSectorsCount + b.bpb.fatCount * EffectiveFatSize(b);
    assert 0 <= x && 0 <= raw by {
      MulMonotone(0, 0, cluster - 2, b.bpb.sectorsPerCluster);
      MulMonotone(0, 0, b.bpb.fatCount, EffectiveFatSize(b));
    }
    assert FirstDataSectorNumber(b) == raw;
    AddModSmall32(x, raw);
  }

  /** When nothing overflows, consecutive clusters are exactly one cluster of
      sectors apart. */
  lemma ConsecutiveClusters(b: BootSector, cluster: uint32)
    requires 2 <= cluster && cluster + 1 < TWO_TO_THE_32
    requires (cluster - 1) * b.bpb.sectorsPerCluster + b.bpb.reservedSectorsCount
             + b.bpb.fatCount * EffectiveFatSize(b) < TWO_TO_THE_32
    ensures FirstSectorNumber(b, cluster + 1) == FirstSectorNumber(b, cluster) + b.bpb.sectorsPerCluster
  {
    var spc := b.bpb.sectorsPerCluster;
    assert (cluster - 2) * spc <= (cluster - 1) * spc;
    FirstSectorNumberExact(b, cluster);
    FirstSectorNumberExact(b, cluster + 1);
    assert (cluster + 1 - 2) * spc == (cluster - 2) * spc + spc;
  }

  /** The data-region size in sectors, as the cluster count computes it:
      only the 32-bit total and the FAT32 FAT size take part, and there is no
      root-directory term. */
  function DataSectorsCount(b: BootSector): (r: uint32)
    ensures r == (b.bpb.totalSectors32 - (b.bpb.reservedSectorsCount + b.bpb.fatCount * b.fatSize32)) % TWO_TO_THE_32
  {
    var r := Sub32(b.bpb.totalSectors32, Add32(b.bpb.reservedSectorsCount, Mul32(b.bpb.fatCount, b.fatSize32)));
    SubOfSumMod32(b.bpb.totalSectors32, b.bpb.reservedSectorsCount, b.bpb.fatCount * b.fatSize32);
    r
  }

  /** `GetClustersCount`: the data sectors divided by the sectors per cluster,
      rounded down; a zero sectors-per-cluster byte is a division by zero. */
  function ClustersCount(b: BootSector): (r: Result<uint32, GeometryError>)
    ensures r.Failure? <==> b.bpb.sectorsPerCluster == 0
    ensures r.Success? ==>
              r.value * b.bpb.sectorsPerCluster <= DataSectorsCount(b) < (r.value + 1) * b.bpb.sectorsPerCluster
  {
    if b.bpb.sectorsPerCluster == 0 then Failure(DivideByZero)
    else Success(DataSectorsCount(b) / b.bpb.sectorsPerCluster)
  }

  /** The count never reads the 16-bit total-sectors or FAT-size fields. */
  lemma ClustersCountIgnores16BitFields(b: BootSector, totalSectors16: uint16, fatSize16: uint16)
    ensures ClustersCount(b.(bpb := b.bpb.(totalSectors16 := totalSectors16, fatSize16 := fatSize16)))
            == ClustersCount(b)
  {
  }

  /** A volume whose 32-bit total is exactly its reserved and FAT sectors has
      no data clusters, and so counts as FAT12. */
  lemma NoDataSectors(b: BootSector)
    requires b.bpb.sectorsPerCluster != 0
    requires b.bpb.totalSectors32 == b.bpb.reservedSectorsCount + b.bpb.fatCount * b.fatSize32
    ensures ClustersCount(b) == Success(0)
    ensures FatType(b) == Success(12)
  {
  }

  const FAT12_MAX_CLUSTERS_EXCLUSIVE: int := 4085
  const FAT16_MAX_CLUSTERS_EXCLUSIVE: int := 65525

  /** The FAT variant of a volume with the given number of clusters, by the
      thresholds of the FAT type determination rule of the Microsoft FAT
      specification. */
  function FatTypeOfCount(count: uint32): (bits: int)
    ensures bits == 12 || bits == 16 || bits == 32
  {
    if count < FAT12_MAX_CLUSTERS_EXCLUSIVE then 12
    else if count < FAT16_MAX_CLUSTERS_EXCLUSIVE then 16
    else 32
  }

  /** Each variant holds exactly one interval of cluster counts. */
  lemma FatTypeIntervals(count: uint32)
    ensures FatTypeOfCount(count) == 12 <==> count < 4085
    ensures FatTypeOfCount(count) == 16 <==> 4085 <= count < 65525
    ensures FatTypeOfCount(count) == 32 <==> 65525 <= count
  {
  }

  /** More clusters never mean a narrower FAT. */
  lemma FatTypeMonotone(a: uint32, b: uint32)
    requires a <= b
    ensures FatTypeOfCount(a) <= FatTypeOfCount(b)
  {
  }

  lemma FatTypeBoundaries()
    ensures FatTypeOfCount(4084) == 12 && FatTypeOfCount(4085) == 16
    ensures FatTypeOfCount(65524) == 16 && FatTypeOfCount(65525) == 32
  {
  }

  /** `GetFatType()`: 12, 16 or 32 from the cluster count; the division by
      zero of the count propagates. */
  function FatType(b: BootSector): (r: Result<int, GeometryError>)
    ensures r.Failure? <==> b.bpb.sectorsPerCluster == 0
    ensures r.Success? ==> r.value == 12 || r.value == 16 || r.value == 32
  {
    match ClustersCount(b)
    case Failure(e) => Failure(e)
    case Success(count) => Success(FatTypeOfCount(count))
  }

  /** `GetRootDirOffset` as written: the sector of the root directory's first
      cluster times the bytes per sector, multiplied in 32 bits and only then
      widened to 64 bits, so the offset is below 4 GiB whatever the volume. */
  function RootDirOffset(b: BootSector): (r: uint64)
    ensures r < TWO_TO_THE_32
    ensures r == (FirstSectorNumber(b, b.rootDirFirstClusterNumber) * b.bpb.bytesPerSector) % TWO_TO_THE_32
  {
    Mul32(FirstSectorNumber(b, b.rootDirFirstClusterNumber), b.bpb.bytesPerSector)
  }

  /** The root-directory byte offset as a 64-bit value, the product taken
      without truncation. */
  function RootDirOffsetWide(b: BootSector): (r: uint64)
    ensures r == FirstSectorNumber(b, b.rootDirFirstClusterNumber) * b.bpb.bytesPerSector
  {
    WideMul(FirstSectorNumber(b, b.rootDirFirstClusterNumber), b.bpb.bytesPerSector)
  }

  /** The offset as written is the intended one reduced modulo 2^32 ... */
  lemma RootDirOffsetTruncatesWide(b: BootSector)
    ensures RootDirOffset(b) == RootDirOffsetWide(b) % TWO_TO_THE_32
  {
  }

  /** ... so the two agree exactly when the byte offset is below 4 GiB. */
  lemma RootDirOffsetBelow4GiB(b: BootSector)
    ensures RootDirOffset(b) == RootDirOffsetWide(b) <==> RootDirOffsetWide(b) < TWO_TO_THE_32
  {
  }

  /** A root directory beyond 4 GiB: 512-byte sectors, 8 sectors per
      cluster, 32 reserved sectors, two FATs of 8000 sectors and the root
      directory at cluster 0x100002 put it at byte 4303175680, but the 32-bit
      product wraps to 8208384. */
  lemma RootDirOffsetWraps(b: BootSector)
    requires b.bpb.bytesPerSector == 512 && b.bpb.sectorsPerCluster == 8
    requires b.bpb.reservedSectorsCount == 32 && b.bpb.fatCount == 2
    requires b.bpb.fatSize16 == 0 && b.fatSize32 == 8000
    requires b.rootDirFirstClusterNumber == 0x10_0002
    ensures RootDirOffsetWide(b) == 4303175680
    ensures RootDirOffset(b) == 8208384
  {
    FirstSectorNumberExact(b, b.rootDirFirstClusterNumber);
  }

  /** The worked example of a FAT32 volume: 4 sectors per cluster, 32
      reserved sectors, two FATs of 8000 sectors. */
  lemma WorkedExample(b: BootSector)
    requires b.bpb.bytesPerSector == 512 && b.bpb.sectorsPerCluster == 4
    requires b.bpb.reservedSectorsCount == 32 && b.bpb.fatCount == 2
    requires b.bpb.fatSize16 == 0 && b.fatSize32 == 8000
    ensures FirstDataSectorNumber(b) == 16032
    ensures FirstSectorNumber(b, 5) == 16044
  {
    FirstSectorNumberExact(b, 5);
  }
}
