/** The boot sector of a FAT12, FAT16 or FAT32 volume: the common region,
    the FAT parameter block overlaid at offset 0, and the FAT32 extended
    fields from 0x24 to 0x59. The extended fields are read for every FAT
    variant; on FAT12 and FAT16 volumes they hold whatever those bytes hold. */
module FatBootSector {
  import opened Uint
  import opened Layout
  import opened Text
  import opened CommonRegion
  import FatBpb

  datatype BootSector = BootSector(
    jumpBootInstructions: Bytes3,
    rawOemName: Bytes8,
    bpb: FatBpb.Bpb,
    fatSize32: uint32,
    extendedFlags: uint16,
    fileSystemVersion: Bytes2,
    rootDirFirstClusterNumber: uint32,
    fsInfoSectorNumber: uint16,
    backupBootSectorNumber: uint16,
    reserved: Bytes12,
    physicalDriveNumber: uint8,
    reserved1: uint8,
    extendedBootSignature: uint8,
    volumeId: uint32,
    rawVolumeLabel: Bytes11,
    rawFileSystemType: Bytes8)
  {
    /** The OEM name as trimmed ASCII. */
    function OemName(): (r: string)
      ensures |r| <= 8
      ensures r == [] || (!IsWhiteSpace(r[0]) && !IsWhiteSpace(r[|r| - 1]))
    {
      CommonRegion.OemName(rawOemName)
    }

    /** The volume label as trimmed ASCII. */
    function VolumeLabel(): (r: string)
      ensures |r| <= 11
      ensures r == [] || (!IsWhiteSpace(r[0]) && !IsWhiteSpace(r[|r| - 1]))
    {
      TrimmedAscii(rawVolumeLabel)
    }

    /** The file-system type tag (such as "FAT32") as trimmed ASCII. */
    function FileSystemType(): (r: string)
      ensures |r| <= 8
      ensures r == [] || (!IsWhiteSpace(r[0]) && !IsWhiteSpace(r[|r| - 1]))
    {
      TrimmedAscii(rawFileSystemType)
    }
  }

  /** The FAT32 extended fields, in field order. */
  const Fat32Layout: seq<Field> := [
    Field(0x24, 4),   // fatSize32
    Field(0x28, 2),   // extendedFlags
    Field(0x2a, 2),   // fileSystemVersion
    Field(0x2c, 4),   // rootDirFirstClusterNumber
    Field(0x30, 2),   // fsInfoSectorNumber
    Field(0x32, 2),   // backupBootSectorNumber
    Field(0x34, 12),  // reserved
    Field(0x40, 1),   // physicalDriveNumber
    Field(0x41, 1),   // reserved1
    Field(0x42, 1),   // extendedBootSignature
    Field(0x43, 4),   // volumeId
    Field(0x47, 11),  // volume label
    Field(0x52, 8)    // file-system type
  ]

  const FAT32_START: nat := 0x24
  const FAT32_END: nat := 0x5a

  lemma Fat32LayoutTiles()
    ensures Contiguous(Fat32Layout, FAT32_START, FAT32_END)
    ensures Fits(Fat32Layout, BOOT_SECTOR_SIZE)
  {
    assert ContiguousFrom(Fat32Layout, 0, FAT32_START, FAT32_END);
    ContiguousFromSuffix(Fat32Layout, 0, FAT32_START, FAT32_END);
    ContiguousBounds(Fat32Layout, FAT32_START, FAT32_END);
  }

  /** Every field lies inside the sector. */
  lemma Fat32LayoutFits()
    ensures Fits(Fat32Layout, BOOT_SECTOR_SIZE)
  {
    Fat32LayoutTiles();
  }

  /** Every field of the record, from the jump instructions to the file-system
      type, in order: together they tile bytes 0x00 to 0x59 with no gap and
      no overlap. */
  lemma SectorLayoutTiles()
    ensures Contiguous(CommonLayout + FatBpb.BpbLayout + Fat32Layout, 0, FAT32_END)
  {
    CommonLayoutTiles();
    FatBpb.BpbLayoutTiles();
    Fat32LayoutTiles();
    ContiguousAppend(CommonLayout, FatBpb.BpbLayout, 0, COMMON_END, FatBpb.BPB_END);
    ContiguousAppend(CommonLayout + FatBpb.BpbLayout, Fat32Layout, 0, FatBpb.BPB_END, FAT32_END);
  }

  /** The boot sector with its extended fields taken from their byte strings. */
  function WithFat32Fields(jump: Bytes3, oem: Bytes8, bpb: FatBpb.Bpb, fs: seq<seq<uint8>>): BootSector
    requires Sized(fs, Fat32Layout)
  {
    BootSector(
      jump, oem, bpb,
      LeU32(fs[0]), LeU16(fs[1]), fs[2], LeU32(fs[3]), LeU16(fs[4]), LeU16(fs[5]), fs[6],
      LeU8(fs[7]), LeU8(fs[8]), LeU8(fs[9]), LeU32(fs[10]), fs[11], fs[12])
  }

  /** The byte strings of the extended fields, in field order. */
  function Fat32Fields(b: BootSector): (fs: seq<seq<uint8>>)
    ensures Sized(fs, Fat32Layout)
  {
    [
      U32Bytes(b.fatSize32), U16Bytes(b.extendedFlags), b.fileSystemVersion, U32Bytes(b.rootDirFirstClusterNumber),
      U16Bytes(b.fsInfoSectorNumber), U16Bytes(b.backupBootSectorNumber), b.reserved,
      [b.physicalDriveNumber], [b.reserved1], [b.extendedBootSignature], U32Bytes(b.volumeId),
      b.rawVolumeLabel, b.rawFileSystemType
    ]
  }

  lemma WithFat32FieldsOfFields(b: BootSector)
    ensures WithFat32Fields(b.jumpBootInstructions, b.rawOemName, b.bpb, Fat32Fields(b)) == b
  {
    U32RoundTrip(b.fatSize32);
    U16RoundTrip(b.extendedFlags);
    U32RoundTrip(b.rootDirFirstClusterNumber);
    U16RoundTrip(b.fsInfoSectorNumber);
    U16RoundTrip(b.backupBootSectorNumber);
    U32RoundTrip(b.volumeId);
  }

  lemma Fat32FieldsOfWith(jump: Bytes3, oem: Bytes8, bpb: FatBpb.Bpb, fs: seq<seq<uint8>>)
    requires Sized(fs, Fat32Layout)
    ensures Fat32Fields(WithFat32Fields(jump, oem, bpb, fs)) == fs
  {
    U32BytesRoundTrip(fs[0]);
    U16BytesRoundTrip(fs[1]);
    U32BytesRoundTrip(fs[3]);
    U16BytesRoundTrip(fs[4]);
    U16BytesRoundTrip(fs[5]);
    U32BytesRoundTrip(fs[10]);
    var gs := Fat32Fields(WithFat32Fields(jump, oem, bpb, fs));
    assert gs[7] == fs[7] && gs[8] == fs[8] && gs[9] == fs[9];
  }

  /** Reads a FAT boot sector (`GetBootSector` once the device read is done). */
  function Decode(s: Sector): BootSector {
    Fat32LayoutFits();
    WithFat32Fields(Jump(s), RawOemName(s), FatBpb.Decode(s), Slices(s, Fat32Layout))
  }

  /** The FAT32 extended fields are read little-endian at their fixed offsets. */
  lemma DecodeOffsets(s: Sector)
    ensures Decode(s).jumpBootInstructions == s[0x00..0x03]
    ensures Decode(s).rawOemName == s[0x03..0x0b]
    ensures Decode(s).bpb == FatBpb.Decode(s)
    ensures Decode(s).fatSize32 == LeUint(s[0x24..0x28])
    ensures Decode(s).extendedFlags == LeUint(s[0x28..0x2a])
    ensures Decode(s).fileSystemVersion == s[0x2a..0x2c]
    ensures Decode(s).rootDirFirstClusterNumber == LeUint(s[0x2c..0x30])
    ensures Decode(s).fsInfoSectorNumber == LeUint(s[0x30..0x32])
    ensures Decode(s).backupBootSectorNumber == LeUint(s[0x32..0x34])
    ensures Decode(s).reserved == s[0x34..0x40]
    ensures Decode(s).physicalDriveNumber == s[0x40]
    ensures Decode(s).reserved1 == s[0x41]
    ensures Decode(s).extendedBootSignature == s[0x42]
    ensures Decode(s).volumeId == LeUint(s[0x43..0x47])
    ensures Decode(s).rawVolumeLabel == s[0x47..0x52]
    ensures Decode(s).rawFileSystemType == s[0x52..0x5a]
  {
    Fat32LayoutFits();
    var fs := Slices(s, Fat32Layout);
    var b := Decode(s);
    assert b == WithFat32Fields(Jump(s), RawOemName(s), FatBpb.Decode(s), fs);
    assert b.fatSize32 == LeUint(s[0x24..0x28]) by { assert fs[0] == s[0x24..0x28]; }
    assert b.extendedFlags == LeUint(s[0x28..0x2a]) by { assert fs[1] == s[0x28..0x2a]; }
    assert b.fileSystemVersion == s[0x2a..0x2c] by { assert fs[2] == s[0x2a..0x2c]; }
    assert b.rootDirFirstClusterNumber == LeUint(s[0x2c..0x30]) by { assert fs[3] == s[0x2c..0x30]; }
    assert b.fsInfoSectorNumber == LeUint(s[0x30..0x32]) by { assert fs[4] == s[0x30..0x32]; }
    assert b.backupBootSectorNumber == LeUint(s[0x32..0x34]) by { assert fs[5] == s[0x32..0x34]; }
    assert b.reserved == s[0x34..0x40] by { assert fs[6] == s[0x34..0x40]; }
    assert b.physicalDriveNumber == s[0x40] by { assert fs[7] == [s[0x40]]; }
    assert b.reserved1 == s[0x41] by { assert fs[8] == [s[0x41]]; }
    assert b.extendedBootSignature == s[0x42] by { assert fs[9] == [s[0x42]]; }
    assert b.volumeId == LeUint(s[0x43..0x47]) by { assert fs[10] == s[0x43..0x47]; }
    assert b.rawVolumeLabel == s[0x47..0x52] by { assert fs[11] == s[0x47..0x52]; }
    assert b.rawFileSystemType == s[0x52..0x5a] by { assert fs[12] == s[0x52..0x5a]; }
  }

  /** Writes every field of b over its bytes in s; bytes from 0x5a on are kept. */
  function Encode(b: BootSector, s: Sector): Sector {
    Fat32LayoutFits();
    var s1 := EncodeCommon(b.jumpBootInstructions, b.rawOemName, s);
    var s2 := FatBpb.Encode(b.bpb, s1);
    WriteAll(s2, Fat32Layout, Fat32Fields(b))
  }

  /** Writing a record leaves bytes from 0x5a on unchanged. */
  lemma EncodeFrame(b: BootSector, s: Sector)
    ensures forall p :: FAT32_END <= p < BOOT_SECTOR_SIZE ==> Encode(b, s)[p] == s[p]
  {
    Fat32LayoutTiles();
    var s1 := EncodeCommon(b.jumpBootInstructions, b.rawOemName, s);
    var s2 := FatBpb.Encode(b.bpb, s1);
    EncodeCommonFrame(b.jumpBootInstructions, b.rawOemName, s);
    FatBpb.EncodeFrame(b.bpb, s1);
    WriteAllFrame(s2, Fat32Layout, Fat32Fields(b), FAT32_START, FAT32_END);
  }

  /** Writing the FAT32 fields last leaves the common region and the
      parameter block as written before them. */
  lemma EncodeKeepsPrefix(b: BootSector, s: Sector)
    ensures Jump(Encode(b, s)) == b.jumpBootInstructions
    ensures RawOemName(Encode(b, s)) == b.rawOemName
    ensures FatBpb.Decode(Encode(b, s)) == b.bpb
  {
    Fat32LayoutTiles();
    var s1 := EncodeCommon(b.jumpBootInstructions, b.rawOemName, s);
    var s2 := FatBpb.Encode(b.bpb, s1);
    var t := Encode(b, s);
    assert AgreeOn(t, s2, 0, FAT32_START) by {
      forall p | 0 <= p < FAT32_START ensures t[p] == s2[p] {
        WriteAllOutside(s2, Fat32Layout, Fat32Fields(b), FAT32_START, FAT32_END, p);
      }
    }
    FatBpb.EncodeFrame(b.bpb, s1);
    FatBpb.DecodeFrame(t, s2);
    FatBpb.DecodeEncode(b.bpb, s1);
    CommonFrame(t, s1);
    DecodeEncodeCommon(b.jumpBootInstructions, b.rawOemName, s);
  }

  /** Decoding an encoded boot sector gives it back. */
  lemma DecodeEncode(b: BootSector, s: Sector)
    ensures Decode(Encode(b, s)) == b
  {
    Fat32LayoutTiles();
    var s2 := FatBpb.Encode(b.bpb, EncodeCommon(b.jumpBootInstructions, b.rawOemName, s));
    SlicesOfWriteAll(s2, Fat32Layout, Fat32Fields(b), FAT32_START, FAT32_END);
    EncodeKeepsPrefix(b, s);
    WithFat32FieldsOfFields(b);
  }

  /** Writing back the boot sector a sector holds leaves the sector unchanged. */
  lemma EncodeDecode(s: Sector)
    ensures Encode(Decode(s), s) == s
  {
    Fat32LayoutTiles();
    var b := Decode(s);
    EncodeDecodeCommon(s);
    FatBpb.EncodeDecode(s);
    Fat32FieldsOfWith(Jump(s), RawOemName(s), FatBpb.Decode(s), Slices(s, Fat32Layout));
    WriteAllOfSlices(s, Fat32Layout);
  }

  /** The record depends on bytes 0x00 to 0x59 only. */
  lemma DecodeFrame(s: Sector, t: Sector)
    requires AgreeOn(s, t, 0, FAT32_END)
    ensures Decode(s) == Decode(t)
  {
    Fat32LayoutTiles();
    CommonFrame(s, t);
    FatBpb.DecodeFrame(s, t);
    SlicesFrame(s, t, Fat32Layout, FAT32_START, FAT32_END);
  }

  /** An OEM name padded with spaces reads without its padding: the bytes
      of "MSDOS5  " at 0x03 give "MSDOS5". */
  lemma PaddedOemNameOfSector(s: Sector)
    requires s[0x03..0x0b] == [0x4D, 0x53, 0x44, 0x4F, 0x53, 0x35, 0x20, 0x20]
    ensures Decode(s).OemName() == "MSDOS5"
  {
    PaddedOemName();
  }
}
