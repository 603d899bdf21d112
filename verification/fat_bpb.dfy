/** The FAT BIOS parameter block: twelve little-endian fields at fixed
    offsets from 0x0b to 0x23 of the boot sector. The block is overlaid at
    offset 0 of the sector, so every offset here is a sector offset. */
module FatBpb {
  import opened Uint
  import opened Layout
  import opened Media
  import opened CommonRegion

  /** The decoded block. No field is validated: sectorsPerCluster is
      documented as a power of two from 1 to 128 and totalSectors16 == 0 as
      "use totalSectors32", but both raw values are exposed as read. */
  datatype Bpb = Bpb(
    bytesPerSector: uint16,
    sectorsPerCluster: uint8,
    reservedSectorsCount: uint16,
    fatCount: uint8,
    maxRootDirectoriesCount: uint16,
    totalSectors16: uint16,
    mediaDescriptor: MediaDescriptor,
    fatSize16: uint16,
    sectorsPerTrack: uint16,
    numberOfHeads: uint16,
    hiddenSectors: uint32,
    totalSectors32: uint32)

  /** The offset and width of every field, in field order. */
  const BpbLayout: seq<Field> := [
    Field(0x0b, 2),  // bytesPerSector
    Field(0x0d, 1),  // sectorsPerCluster
    Field(0x0e, 2),  // reservedSectorsCount
    Field(0x10, 1),  // fatCount
    Field(0x11, 2),  // maxRootDirectoriesCount
    Field(0x13, 2),  // totalSectors16
    Field(0x15, 1),  // mediaDescriptor
    Field(0x16, 2),  // fatSize16
    Field(0x18, 2),  // sectorsPerTrack
    Field(0x1a, 2),  // numberOfHeads
    Field(0x1c, 4),  // hiddenSectors
    Field(0x20, 4)   // totalSectors32
  ]

  const BPB_START: nat := 0x0b
  const BPB_END: nat := 0x24

  /** The twelve fields tile [0x0b, 0x24): no gap, no overlap. */
  lemma BpbLayoutTiles()
    ensures Contiguous(BpbLayout, BPB_START, BPB_END)
    ensures Fits(BpbLayout, BOOT_SECTOR_SIZE)
  {
    assert ContiguousFrom(BpbLayout, 0, BPB_START, BPB_END);
    ContiguousFromSuffix(BpbLayout, 0, BPB_START, BPB_END);
    ContiguousBounds(BpbLayout, BPB_START, BPB_END);
  }

  /** Every field lies inside the sector. */
  lemma BpbLayoutFits()
    ensures Fits(BpbLayout, BOOT_SECTOR_SIZE)
  {
    BpbLayoutTiles();
  }

  /** The decoded block from its field byte strings, in layout order. */
  function FromFields(fs: seq<seq<uint8>>): Bpb
    requires Sized(fs, BpbLayout)
  {
    Bpb(
      LeU16(fs[0]), LeU8(fs[1]), LeU16(fs[2]), LeU8(fs[3]),
      LeU16(fs[4]), LeU16(fs[5]), MediaDescriptor(LeU8(fs[6])), LeU16(fs[7]),
      LeU16(fs[8]), LeU16(fs[9]), LeU32(fs[10]), LeU32(fs[11]))
  }

  /** The field byte strings of a block, in layout order. */
  function ToFields(b: Bpb): (fs: seq<seq<uint8>>)
    ensures Sized(fs, BpbLayout)
  {
    [
      U16Bytes(b.bytesPerSector), [b.sectorsPerCluster], U16Bytes(b.reservedSectorsCount), [b.fatCount],
      U16Bytes(b.maxRootDirectoriesCount), U16Bytes(b.totalSectors16), [b.mediaDescriptor.code], U16Bytes(b.fatSize16),
      U16Bytes(b.sectorsPerTrack), U16Bytes(b.numberOfHeads), U32Bytes(b.hiddenSectors), U32Bytes(b.totalSectors32)
    ]
  }

  lemma FromToFields(b: Bpb)
    ensures FromFields(ToFields(b)) == b
  {
    U16RoundTrip(b.bytesPerSector);
    U16RoundTrip(b.reservedSectorsCount);
    U16RoundTrip(b.maxRootDirectoriesCount);
    U16RoundTrip(b.totalSectors16);
    U16RoundTrip(b.fatSize16);
    U16RoundTrip(b.sectorsPerTrack);
    U16RoundTrip(b.numberOfHeads);
    U32RoundTrip(b.hiddenSectors);
    U32RoundTrip(b.totalSectors32);
  }

  lemma ToFromFields(fs: seq<seq<uint8>>)
    requires Sized(fs, BpbLayout)
    ensures ToFields(FromFields(fs)) == fs
  {
    U16BytesRoundTrip(fs[0]);
    U16BytesRoundTrip(fs[2]);
    U16BytesRoundTrip(fs[4]);
    U16BytesRoundTrip(fs[5]);
    U16BytesRoundTrip(fs[7]);
    U16BytesRoundTrip(fs[8]);
    U16BytesRoundTrip(fs[9]);
    U32BytesRoundTrip(fs[10]);
    U32BytesRoundTrip(fs[11]);
    var gs := ToFields(FromFields(fs));
    assert gs[1] == fs[1] && gs[3] == fs[3] && gs[6] == fs[6];
  }

  /** Reads the parameter block of a boot sector. */
  function Decode(s: Sector): Bpb {
    BpbLayoutFits();
    FromFields(Slices(s, BpbLayout))
  }

  /** Every field is read little-endian at its fixed sector offset. */
  lemma DecodeOffsets(s: Sector)
    ensures Decode(s).bytesPerSector == (s[0x0b] as int) + 0x100 * (s[0x0c] as int)
    ensures Decode(s).sectorsPerCluster == s[0x0d]
    ensures Decode(s).reservedSectorsCount == (s[0x0e] as int) + 0x100 * (s[0x0f] as int)
    ensures Decode(s).fatCount == s[0x10]
    ensures Decode(s).maxRootDirectoriesCount == (s[0x11] as int) + 0x100 * (s[0x12] as int)
    ensures Decode(s).totalSectors16 == (s[0x13] as int) + 0x100 * (s[0x14] as int)
    ensures Decode(s).mediaDescriptor.code == s[0x15]
    ensures Decode(s).fatSize16 == (s[0x16] as int) + 0x100 * (s[0x17] as int)
    ensures Decode(s).sectorsPerTrack == (s[0x18] as int) + 0x100 * (s[0x19] as int)
    ensures Decode(s).numberOfHeads == (s[0x1a] as int) + 0x100 * (s[0x1b] as int)
    ensures Decode(s).hiddenSectors == (s[0x1c] as int) + 0x100 * (s[0x1d] as int) + 0x1_0000 * (s[0x1e] as int) + 0x100_0000 * (s[0x1f] as int)
    ensures Decode(s).totalSectors32 == (s[0x20] as int) + 0x100 * (s[0x21] as int) + 0x1_0000 * (s[0x22] as int) + 0x100_0000 * (s[0x23] as int)
  {
    BpbLayoutFits();
    var fs := Slices(s, BpbLayout);
    var b := Decode(s);
    assert b == FromFields(fs);
    assert b.bytesPerSector == (s[0x0b] as int) + 0x100 * (s[0x0c] as int) by { LeU16Bytes(fs[0]); }
    assert b.sectorsPerCluster == s[0x0d] by { assert fs[1] == [s[0x0d]]; }
    assert b.reservedSectorsCount == (s[0x0e] as int) + 0x100 * (s[0x0f] as int) by { LeU16Bytes(fs[2]); }
    assert b.fatCount == s[0x10] by { assert fs[3] == [s[0x10]]; }
    assert b.maxRootDirectoriesCount == (s[0x11] as int) + 0x100 * (s[0x12] as int) by { LeU16Bytes(fs[4]); }
    assert b.totalSectors16 == (s[0x13] as int) + 0x100 * (s[0x14] as int) by { LeU16Bytes(fs[5]); }
    assert b.mediaDescriptor.code == s[0x15] by { assert fs[6] == [s[0x15]]; }
    assert b.fatSize16 == (s[0x16] as int) + 0x100 * (s[0x17] as int) by { LeU16Bytes(fs[7]); }
    assert b.sectorsPerTrack == (s[0x18] as int) + 0x100 * (s[0x19] as int) by { LeU16Bytes(fs[8]); }
    assert b.numberOfHeads == (s[0x1a] as int) + 0x100 * (s[0x1b] as int) by { LeU16Bytes(fs[9]); }
    assert b.hiddenSectors == (s[0x1c] as int) + 0x100 * (s[0x1d] as int) + 0x1_0000 * (s[0x1e] as int) + 0x100_0000 * (s[0x1f] as int) by {
      LeU32Bytes(fs[10]);
    }
    assert b.totalSectors32 == (s[0x20] as int) + 0x100 * (s[0x21] as int) + 0x1_0000 * (s[0x22] as int) + 0x100_0000 * (s[0x23] as int) by {
      LeU32Bytes(fs[11]);
    }
  }

  /** A media byte without a name, such as 0x00, is read as it is and not rejected. */
  lemma UnnamedMediaDescriptor(s: Sector)
    requires s[0x15] == 0x00
    ensures Decode(s).mediaDescriptor.code == 0x00
    ensures Kind(Decode(s).mediaDescriptor).None?
  {
    DecodeOffsets(s);
  }

  /** Writes the fields of b over their bytes in s. */
  function Encode(b: Bpb, s: Sector): Sector {
    BpbLayoutFits();
    WriteAll(s, BpbLayout, ToFields(b))
  }

  /** Writing a block leaves every byte outside 0x0b to 0x23 unchanged. */
  lemma EncodeFrame(b: Bpb, s: Sector)
    ensures forall p :: 0 <= p < BOOT_SECTOR_SIZE && !(BPB_START <= p < BPB_END) ==> Encode(b, s)[p] == s[p]
  {
    BpbLayoutTiles();
    WriteAllFrame(s, BpbLayout, ToFields(b), BPB_START, BPB_END);
  }

  /** Decoding an encoded block gives it back, whatever the rest of the sector holds. */
  lemma DecodeEncode(b: Bpb, s: Sector)
    ensures Decode(Encode(b, s)) == b
  {
    BpbLayoutTiles();
    SlicesOfWriteAll(s, BpbLayout, ToFields(b), BPB_START, BPB_END);
    FromToFields(b);
  }

  /** Writing back the block a sector holds leaves the sector unchanged. */
  lemma EncodeDecode(s: Sector)
    ensures Encode(Decode(s), s) == s
  {
    BpbLayoutTiles();
    ToFromFields(Slices(s, BpbLayout));
    WriteAllOfSlices(s, BpbLayout);
  }

  /** The block depends on bytes 0x0b to 0x23 only. */
  lemma DecodeFrame(s: Sector, t: Sector)
    requires AgreeOn(s, t, BPB_START, BPB_END)
    ensures Decode(s) == Decode(t)
  {
    BpbLayoutTiles();
    SlicesFrame(s, t, BpbLayout, BPB_START, BPB_END);
  }

  /** In particular, changing one byte outside 0x0b to 0x23 changes nothing. */
  lemma DecodeIgnoresOtherBytes(s: Sector, p: nat, v: uint8)
    requires p < BOOT_SECTOR_SIZE && !(BPB_START <= p < BPB_END)
    ensures Decode(s[p := v]) == Decode(s)
  {
    DecodeFrame(s, s[p := v]);
  }
}
