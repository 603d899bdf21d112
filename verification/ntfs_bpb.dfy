/** The NTFS BIOS parameter block: nineteen little-endian fields at fixed
    offsets from 0x0b to 0x53 of the boot sector. Like the FAT block it is
    overlaid at offset 0 of the sector, so every offset is a sector offset.
    The reserved fields are read where the field offsets put them: Reserved2
    at 0x13 and Reserved5 at 0x24, whatever their documentation comments say. */
module NtfsBpb {
  import opened Uint
  import opened Layout
  import opened Media
  import opened Text
  import opened CommonRegion
  import FatBpb

  /** The decoded block. The documented "must be 0" reserved fields are
      exposed as read; nothing is validated. */
  datatype Bpb = Bpb(
    bytesPerSector: uint16,
    sectorsPerCluster: uint8,
    reservedSectorsCount: uint16,
    reserved1: Bytes3,
    reserved2: uint16,
    mediaDescriptor: MediaDescriptor,
    reserved3: uint16,
    sectorsPerTrack: uint16,
    numberOfHeads: uint16,
    hiddenSectors: uint32,
    reserved4: uint32,
    reserved5: uint32,
    totalSectors: uint64,
    mftClusterNumber: int64,
    mftMirrorClusterNumber: int64,
    clustersPerMftRecord: uint32,
    clustersPerIndexBuffer: uint32,
    rawVolumeSerialNumber: Bytes8,
    checksum: uint32)
  {
    /** The volume serial number as trimmed ASCII. */
    function VolumeSerialNumber(): (r: string)
      ensures |r| <= 8
      ensures r == [] || (!IsWhiteSpace(r[0]) && !IsWhiteSpace(r[|r| - 1]))
    {
      TrimmedAscii(rawVolumeSerialNumber)
    }
  }

  /** The offset and width of every field, in field order. */
  const NtfsLayout: seq<Field> := [
    Field(0x0b, 2),  // bytesPerSector
    Field(0x0d, 1),  // sectorsPerCluster
    Field(0x0e, 2),  // reservedSectorsCount
    Field(0x10, 3),  // reserved1
    Field(0x13, 2),  // reserved2
    Field(0x15, 1),  // mediaDescriptor
    Field(0x16, 2),  // reserved3
    Field(0x18, 2),  // sectorsPerTrack
    Field(0x1a, 2),  // numberOfHeads
    Field(0x1c, 4),  // hiddenSectors
    Field(0x20, 4),  // reserved4
    Field(0x24, 4),  // reserved5
    Field(0x28, 8),  // totalSectors
    Field(0x30, 8),  // mftClusterNumber
    Field(0x38, 8),  // mftMirrorClusterNumber
    Field(0x40, 4),  // clustersPerMftRecord
    Field(0x44, 4),  // clustersPerIndexBuffer
    Field(0x48, 8),  // volume serial number
    Field(0x50, 4)   // checksum
  ]

  const NTFS_BPB_START: nat := 0x0b
  const NTFS_BPB_END: nat := 0x54

  /** The fields from the total sector count on follow each other up to 0x54. */
  lemma NtfsLayoutTail()
    ensures ContiguousFrom(NtfsLayout, 10, 0x20, NTFS_BPB_END)
  {
    assert ContiguousFrom(NtfsLayout, 18, 0x50, NTFS_BPB_END);
    assert ContiguousFrom(NtfsLayout, 17, 0x48, NTFS_BPB_END);
    assert ContiguousFrom(NtfsLayout, 16, 0x44, NTFS_BPB_END);
    assert ContiguousFrom(NtfsLayout, 15, 0x40, NTFS_BPB_END);
    assert ContiguousFrom(NtfsLayout, 14, 0x38, NTFS_BPB_END);
    assert ContiguousFrom(NtfsLayout, 13, 0x30, NTFS_BPB_END);
    assert ContiguousFrom(NtfsLayout, 12, 0x28, NTFS_BPB_END);
    assert ContiguousFrom(NtfsLayout, 11, 0x24, NTFS_BPB_END);
  }

  /** The nineteen fields tile [0x0b, 0x54): no gap, no overlap. */
  lemma NtfsLayoutTiles()
    ensures Contiguous(NtfsLayout, NTFS_BPB_START, NTFS_BPB_END)
    ensures Fits(NtfsLayout, BOOT_SECTOR_SIZE)
  {
    NtfsLayoutTail();
    assert ContiguousFrom(NtfsLayout, 9, 0x1c, NTFS_BPB_END);
    assert ContiguousFrom(NtfsLayout, 8, 0x1a, NTFS_BPB_END);
    assert ContiguousFrom(NtfsLayout, 7, 0x18, NTFS_BPB_END);
    assert ContiguousFrom(NtfsLayout, 6, 0x16, NTFS_BPB_END);
    assert ContiguousFrom(NtfsLayout, 5, 0x15, NTFS_BPB_END);
    assert ContiguousFrom(NtfsLayout, 4, 0x13, NTFS_BPB_END);
    assert ContiguousFrom(NtfsLayout, 3, 0x10, NTFS_BPB_END);
    assert ContiguousFrom(NtfsLayout, 2, 0x0e, NTFS_BPB_END);
    assert ContiguousFrom(NtfsLayout, 1, 0x0d, NTFS_BPB_END);
    assert ContiguousFrom(NtfsLayout, 0, 0x0b, NTFS_BPB_END);
    ContiguousFromSuffix(NtfsLayout, 0, NTFS_BPB_START, NTFS_BPB_END);
    ContiguousBounds(NtfsLayout, NTFS_BPB_START, NTFS_BPB_END);
  }

  /** Every field lies inside the sector. */
  lemma NtfsLayoutFits()
    ensures Fits(NtfsLayout, BOOT_SECTOR_SIZE)
  {
    NtfsLayoutTiles();
  }

  /** The widths a sized field list has, field by field. */
  lemma NtfsWidths(fs: seq<seq<uint8>>)
    requires Sized(fs, NtfsLayout)
    ensures |fs[0]| == 2 && |fs[1]| == 1 && |fs[2]| == 2 && |fs[3]| == 3 && |fs[4]| == 2
    ensures |fs[5]| == 1 && |fs[6]| == 2 && |fs[7]| == 2 && |fs[8]| == 2 && |fs[9]| == 4
    ensures |fs[10]| == 4 && |fs[11]| == 4 && |fs[12]| == 8 && |fs[13]| == 8 && |fs[14]| == 8
    ensures |fs[15]| == 4 && |fs[16]| == 4 && |fs[17]| == 8 && |fs[18]| == 4
  {
    assert |fs[0]| == NtfsLayout[0].width;
    assert |fs[1]| == NtfsLayout[1].width;
    assert |fs[2]| == NtfsLayout[2].width;
    assert |fs[3]| == NtfsLayout[3].width;
    assert |fs[4]| == NtfsLayout[4].width;
    assert |fs[5]| == NtfsLayout[5].width;
    assert |fs[6]| == NtfsLayout[6].width;
    assert |fs[7]| == NtfsLayout[7].width;
    assert |fs[8]| == NtfsLayout[8].width;
    assert |fs[9]| == NtfsLayout[9].width;
    assert |fs[10]| == NtfsLayout[10].width;
    assert |fs[11]| == NtfsLayout[11].width;
    assert |fs[12]| == NtfsLayout[12].width;
    assert |fs[13]| == NtfsLayout[13].width;
    assert |fs[14]| == NtfsLayout[14].width;
    assert |fs[15]| == NtfsLayout[15].width;
    assert |fs[16]| == NtfsLayout[16].width;
    assert |fs[17]| == NtfsLayout[17].width;
    assert |fs[18]| == NtfsLayout[18].width;
  }

  /** The decoded block from its field byte strings, in layout order. */
  function FromFields(fs: seq<seq<uint8>>): Bpb
    requires Sized(fs, NtfsLayout)
  {
    NtfsWidths(fs);
    Bpb(
      LeU16(fs[0]), LeU8(fs[1]), LeU16(fs[2]), fs[3], LeU16(fs[4]),
      MediaDescriptor(LeU8(fs[5])), LeU16(fs[6]), LeU16(fs[7]), LeU16(fs[8]),
      LeU32(fs[9]), LeU32(fs[10]), LeU32(fs[11]), LeU64(fs[12]), LeI64(fs[13]),
      LeI64(fs[14]), LeU32(fs[15]), LeU32(fs[16]), fs[17], LeU32(fs[18]))
  }

  /** The field byte strings of a block, in layout order. */
  function ToFields(b: Bpb): (fs: seq<seq<uint8>>)
    ensures Sized(fs, NtfsLayout)
  {
    [
      U16Bytes(b.bytesPerSector), [b.sectorsPerCluster], U16Bytes(b.reservedSectorsCount), b.reserved1,
      U16Bytes(b.reserved2), [b.mediaDescriptor.code], U16Bytes(b.reserved3), U16Bytes(b.sectorsPerTrack),
      U16Bytes(b.numberOfHeads), U32Bytes(b.hiddenSectors), U32Bytes(b.reserved4), U32Bytes(b.reserved5),
      U64Bytes(b.totalSectors), I64Bytes(b.mftClusterNumber), I64Bytes(b.mftMirrorClusterNumber),
      U32Bytes(b.clustersPerMftRecord), U32Bytes(b.clustersPerIndexBuffer), b.rawVolumeSerialNumber,
      U32Bytes(b.checksum)
    ]
  }

  lemma FromToFields(b: Bpb)
    ensures FromFields(ToFields(b)) == b
  {
    U16RoundTrip(b.bytesPerSector);
    U16RoundTrip(b.reservedSectorsCount);
    U16RoundTrip(b.reserved2);
    U16RoundTrip(b.reserved3);
    U16RoundTrip(b.sectorsPerTrack);
    U16RoundTrip(b.numberOfHeads);
    U32RoundTrip(b.hiddenSectors);
    U32RoundTrip(b.reserved4);
    U32RoundTrip(b.reserved5);
    U64RoundTrip(b.totalSectors);
    I64RoundTrip(b.mftClusterNumber);
    I64RoundTrip(b.mftMirrorClusterNumber);
    U32RoundTrip(b.clustersPerMftRecord);
    U32RoundTrip(b.clustersPerIndexBuffer);
    U32RoundTrip(b.checksum);
  }

  lemma ToFromFields(fs: seq<seq<uint8>>)
    requires Sized(fs, NtfsLayout)
    ensures ToFields(FromFields(fs)) == fs
  {
    U16BytesRoundTrip(fs[0]);
    U16BytesRoundTrip(fs[2]);
    U16BytesRoundTrip(fs[4]);
    U16BytesRoundTrip(fs[6]);
    U16BytesRoundTrip(fs[7]);
    U16BytesRoundTrip(fs[8]);
    U32BytesRoundTrip(fs[9]);
    U32BytesRoundTrip(fs[10]);
    U32BytesRoundTrip(fs[11]);
    U64BytesRoundTrip(fs[12]);
    I64BytesRoundTrip(fs[13]);
    I64BytesRoundTrip(fs[14]);
    U32BytesRoundTrip(fs[15]);
    U32BytesRoundTrip(fs[16]);
    U32BytesRoundTrip(fs[18]);
    var gs := ToFields(FromFields(fs));
    assert gs[1] == fs[1] && gs[5] == fs[5];
  }

  /** Reads the parameter block of an NTFS boot sector. */
  function Decode(s: Sector): Bpb {
    NtfsLayoutFits();
    FromFields(Slices(s, NtfsLayout))
  }

  /** The fields from 0x0b to 0x14. */
  lemma DecodeOffsetsSizesOfUnits(s: Sector)
    ensures Decode(s).bytesPerSector == LeUint(s[0x0b..0x0d])
    ensures Decode(s).sectorsPerCluster == s[0x0d]
    ensures Decode(s).reservedSectorsCount == LeUint(s[0x0e..0x10])
    ensures Decode(s).reserved1 == s[0x10..0x13]
    ensures Decode(s).reserved2 == LeUint(s[0x13..0x15])
  {
    NtfsLayoutFits();
    var fs := Slices(s, NtfsLayout);
    assert Decode(s) == FromFields(fs);
    assert fs[0] == s[0x0b..0x0d];
    assert fs[1] == [s[0x0d]];
    assert fs[2] == s[0x0e..0x10];
    assert fs[3] == s[0x10..0x13];
    assert fs[4] == s[0x13..0x15];
  }

  /** The fields from 0x15 to 0x1b. */
  lemma DecodeOffsetsMedium(s: Sector)
    ensures Decode(s).mediaDescriptor.code == s[0x15]
    ensures Decode(s).reserved3 == LeUint(s[0x16..0x18])
    ensures Decode(s).sectorsPerTrack == LeUint(s[0x18..0x1a])
    ensures Decode(s).numberOfHeads == LeUint(s[0x1a..0x1c])
  {
    NtfsLayoutFits();
    var fs := Slices(s, NtfsLayout);
    assert Decode(s) == FromFields(fs);
    assert fs[5] == [s[0x15]];
    assert fs[6] == s[0x16..0x18];
    assert fs[7] == s[0x18..0x1a];
    assert fs[8] == s[0x1a..0x1c];
  }

  /** The fields from 0x1c to 0x2f. */
  lemma DecodeOffsetsSizes(s: Sector)
    ensures Decode(s).hiddenSectors == LeUint(s[0x1c..0x20])
    ensures Decode(s).reserved4 == LeUint(s[0x20..0x24])
    ensures Decode(s).reserved5 == LeUint(s[0x24..0x28])
    ensures Decode(s).totalSectors == LeUint(s[0x28..0x30])
  {
    NtfsLayoutFits();
    var fs := Slices(s, NtfsLayout);
    assert Decode(s) == FromFields(fs);
    assert fs[9] == s[0x1c..0x20];
    assert fs[10] == s[0x20..0x24];
    assert fs[11] == s[0x24..0x28];
    assert fs[12] == s[0x28..0x30];
  }

  /** The MFT fields from 0x30 to 0x47. */
  lemma DecodeOffsetsMft(s: Sector)
    ensures Decode(s).mftClusterNumber == ToInt64(LeUint(s[0x30..0x38]))
    ensures Decode(s).mftMirrorClusterNumber == ToInt64(LeUint(s[0x38..0x40]))
    ensures Decode(s).clustersPerMftRecord == LeUint(s[0x40..0x44])
    ensures Decode(s).clustersPerIndexBuffer == LeUint(s[0x44..0x48])
  {
    NtfsLayoutFits();
    var fs := Slices(s, NtfsLayout);
    assert Decode(s) == FromFields(fs);
    assert fs[13] == s[0x30..0x38];
    assert fs[14] == s[0x38..0x40];
    assert fs[15] == s[0x40..0x44];
    assert fs[16] == s[0x44..0x48];
  }

  /** The serial number and the checksum, 0x48 to 0x53. */
  lemma DecodeOffsetsSerial(s: Sector)
    ensures Decode(s).rawVolumeSerialNumber == s[0x48..0x50]
    ensures Decode(s).checksum == LeUint(s[0x50..0x54])
  {
    NtfsLayoutFits();
    var fs := Slices(s, NtfsLayout);
    assert Decode(s) == FromFields(fs);
    assert fs[17] == s[0x48..0x50];
    assert fs[18] == s[0x50..0x54];
  }

  /** Every field is read little-endian at its fixed sector offset; the two
      MFT cluster numbers are two's-complement signed. */
  lemma DecodeOffsets(s: Sector)
    ensures Decode(s).bytesPerSector == LeUint(s[0x0b..0x0d])
    ensures Decode(s).sectorsPerCluster == s[0x0d]
    ensures Decode(s).reservedSectorsCount == LeUint(s[0x0e..0x10])
    ensures Decode(s).reserved1 == s[0x10..0x13]
    ensures Decode(s).reserved2 == LeUint(s[0x13..0x15])
    ensures Decode(s).mediaDescriptor.code == s[0x15]
    ensures Decode(s).reserved3 == LeUint(s[0x16..0x18])
    ensures Decode(s).sectorsPerTrack == LeUint(s[0x18..0x1a])
    ensures Decode(s).numberOfHeads == LeUint(s[0x1a..0x1c])
    ensures Decode(s).hiddenSectors == LeUint(s[0x1c..0x20])
    ensures Decode(s).reserved4 == LeUint(s[0x20..0x24])
    ensures Decode(s).reserved5 == LeUint(s[0x24..0x28])
    ensures Decode(s).totalSectors == LeUint(s[0x28..0x30])
    ensures Decode(s).mftClusterNumber == ToInt64(LeUint(s[0x30..0x38]))
    ensures Decode(s).mftMirrorClusterNumber == ToInt64(LeUint(s[0x38..0x40]))
    ensures Decode(s).clustersPerMftRecord == LeUint(s[0x40..0x44])
    ensures Decode(s).clustersPerIndexBuffer == LeUint(s[0x44..0x48])
    ensures Decode(s).rawVolumeSerialNumber == s[0x48..0x50]
    ensures Decode(s).checksum == LeUint(s[0x50..0x54])
  {
    DecodeOffsetsSizesOfUnits(s);
    DecodeOffsetsMedium(s);
    DecodeOffsetsSizes(s);
    DecodeOffsetsMft(s);
    DecodeOffsetsSerial(s);
  }

  /** An MFT cluster number reads as negative exactly when the top bit of
      its last byte (0x37, or 0x3f for the mirror) is set. */
  lemma MftClusterNumberSign(s: Sector)
    ensures Decode(s).mftClusterNumber < 0 <==> s[0x37] >= 0x80
    ensures Decode(s).mftMirrorClusterNumber < 0 <==> s[0x3f] >= 0x80
  {
    DecodeOffsetsMft(s);
    LeI64Sign(s[0x30..0x38]);
    LeI64Sign(s[0x38..0x40]);
  }

  /** Both overlays read the same bytes for the fields they share, and each
      NTFS reserved field aliases a FAT field: Reserved1 starts with the FAT
      count, Reserved2 is totalSectors16, Reserved3 is fatSize16 and
      Reserved4 is totalSectors32. */
  lemma SharedWithFat(s: Sector)
    ensures Decode(s).bytesPerSector == FatBpb.Decode(s).bytesPerSector
    ensures Decode(s).sectorsPerCluster == FatBpb.Decode(s).sectorsPerCluster
    ensures Decode(s).reservedSectorsCount == FatBpb.Decode(s).reservedSectorsCount
    ensures Decode(s).mediaDescriptor == FatBpb.Decode(s).mediaDescriptor
    ensures Decode(s).sectorsPerTrack == FatBpb.Decode(s).sectorsPerTrack
    ensures Decode(s).numberOfHeads == FatBpb.Decode(s).numberOfHeads
    ensures Decode(s).hiddenSectors == FatBpb.Decode(s).hiddenSectors
    ensures Decode(s).reserved1[0] == FatBpb.Decode(s).fatCount
    ensures Decode(s).reserved2 == FatBpb.Decode(s).totalSectors16
    ensures Decode(s).reserved3 == FatBpb.Decode(s).fatSize16
    ensures Decode(s).reserved4 == FatBpb.Decode(s).totalSectors32
  {
    DecodeOffsets(s);
    FatBpb.DecodeOffsets(s);
    LeU16Bytes(s[0x0b..0x0d]);
    LeU16Bytes(s[0x0e..0x10]);
    LeU16Bytes(s[0x13..0x15]);
    LeU16Bytes(s[0x16..0x18]);
    LeU16Bytes(s[0x18..0x1a]);
    LeU16Bytes(s[0x1a..0x1c]);
    LeU32Bytes(s[0x1c..0x20]);
    LeU32Bytes(s[0x20..0x24]);
  }

  /** Writes the fields of b over their bytes in s. */
  function Encode(b: Bpb, s: Sector): Sector {
    NtfsLayoutFits();
    WriteAll(s, NtfsLayout, ToFields(b))
  }

  /** Writing a block leaves every byte outside 0x0b to 0x53 unchanged. */
  lemma EncodeFrame(b: Bpb, s: Sector)
    ensures forall p :: 0 <= p < BOOT_SECTOR_SIZE && !(NTFS_BPB_START <= p < NTFS_BPB_END) ==> Encode(b, s)[p] == s[p]
  {
    NtfsLayoutTiles();
    WriteAllFrame(s, NtfsLayout, ToFields(b), NTFS_BPB_START, NTFS_BPB_END);
  }

  /** Decoding an encoded block gives it back, whatever the rest of the sector holds. */
  lemma DecodeEncode(b: Bpb, s: Sector)
    ensures Decode(Encode(b, s)) == b
  {
    NtfsLayoutTiles();
    SlicesOfWriteAll(s, NtfsLayout, ToFields(b), NTFS_BPB_START, NTFS_BPB_END);
    FromToFields(b);
  }

  /** Writing back the block a sector holds leaves the sector unchanged. */
  lemma EncodeDecode(s: Sector)
    ensures Encode(Decode(s), s) == s
  {
    NtfsLayoutTiles();
    ToFromFields(Slices(s, NtfsLayout));
    WriteAllOfSlices(s, NtfsLayout);
  }

  /** The block depends on bytes 0x0b to 0x53 only. */
  lemma DecodeFrame(s: Sector, t: Sector)
    requires AgreeOn(s, t, NTFS_BPB_START, NTFS_BPB_END)
    ensures Decode(s) == Decode(t)
  {
    NtfsLayoutTiles();
    SlicesFrame(s, t, NtfsLayout, NTFS_BPB_START, NTFS_BPB_END);
  }
}
