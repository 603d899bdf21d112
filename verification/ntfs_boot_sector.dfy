/** The boot sector of an NTFS volume: the common region and the NTFS
    parameter block overlaid at offset 0, covering bytes 0x00 to 0x53. */
module NtfsBootSector {
  import opened Uint
  import opened Layout
  import opened Text
  import opened CommonRegion
  import NtfsBpb
  import FatBootSector

  datatype BootSector = BootSector(
    jumpBootInstructions: Bytes3,
    rawOemName: Bytes8,
    bpb: NtfsBpb.Bpb)
  {
    /** The OEM name (such as "NTFS") as trimmed ASCII. */
    function OemName(): (r: string)
      ensures |r| <= 8
      ensures r == [] || (!IsWhiteSpace(r[0]) && !IsWhiteSpace(r[|r| - 1]))
    {
      CommonRegion.OemName(rawOemName)
    }
  }

  /** Every field of the record, from the jump instructions to the checksum,
      in order: together they tile bytes 0x00 to 0x53 with no gap and no
      overlap. */
  lemma SectorLayoutTiles()
    ensures Contiguous(CommonLayout + NtfsBpb.NtfsLayout, 0, NtfsBpb.NTFS_BPB_END)
  {
    CommonLayoutTiles();
    NtfsBpb.NtfsLayoutTiles();
    ContiguousAppend(CommonLayout, NtfsBpb.NtfsLayout, 0, COMMON_END, NtfsBpb.NTFS_BPB_END);
  }

  /** Reads an NTFS boot sector (`GetBootSector` once the device read is done). */
  function Decode(s: Sector): BootSector {
    BootSector(Jump(s), RawOemName(s), NtfsBpb.Decode(s))
  }

  /** Writes every field of b over its bytes in s; bytes from 0x54 on are kept. */
  function Encode(b: BootSector, s: Sector): Sector {
    NtfsBpb.Encode(b.bpb, EncodeCommon(b.jumpBootInstructions, b.rawOemName, s))
  }

  /** Writing a record leaves bytes from 0x54 on unchanged. */
  lemma EncodeFrame(b: BootSector, s: Sector)
    ensures forall p :: NtfsBpb.NTFS_BPB_END <= p < BOOT_SECTOR_SIZE ==> Encode(b, s)[p] == s[p]
  {
    var s1 := EncodeCommon(b.jumpBootInstructions, b.rawOemName, s);
    EncodeCommonFrame(b.jumpBootInstructions, b.rawOemName, s);
    NtfsBpb.EncodeFrame(b.bpb, s1);
  }

  /** Writing the parameter block after the common region leaves the
      common region as written. */
  lemma EncodeKeepsCommon(b: BootSector, s: Sector)
    ensures Jump(Encode(b, s)) == b.jumpBootInstructions
    ensures RawOemName(Encode(b, s)) == b.rawOemName
  {
    var s1 := EncodeCommon(b.jumpBootInstructions, b.rawOemName, s);
    NtfsBpb.EncodeFrame(b.bpb, s1);
    CommonFrame(Encode(b, s), s1);
    DecodeEncodeCommon(b.jumpBootInstructions, b.rawOemName, s);
  }

  /** Decoding an encoded boot sector gives it back. */
  lemma DecodeEncode(b: BootSector, s: Sector)
    ensures Decode(Encode(b, s)) == b
  {
    NtfsBpb.DecodeEncode(b.bpb, EncodeCommon(b.jumpBootInstructions, b.rawOemName, s));
    EncodeKeepsCommon(b, s);
  }

  /** Writing back the boot sector a sector holds leaves the sector unchanged. */
  lemma EncodeDecode(s: Sector)
    ensures Encode(Decode(s), s) == s
  {
    EncodeDecodeCommon(s);
    NtfsBpb.EncodeDecode(s);
  }

  /** The record depends on bytes 0x00 to 0x53 only. */
  lemma DecodeFrame(s: Sector, t: Sector)
    requires AgreeOn(s, t, 0, NtfsBpb.NTFS_BPB_END)
    ensures Decode(s) == Decode(t)
  {
    CommonFrame(s, t);
    NtfsBpb.DecodeFrame(s, t);
  }

  /** The NTFS and FAT records read the same common region from a sector:
      the same jump bytes, and so the same OEM name. */
  lemma SameCommonRegionAsFat(s: Sector)
    ensures Decode(s).jumpBootInstructions == FatBootSector.Decode(s).jumpBootInstructions
    ensures Decode(s).OemName() == FatBootSector.Decode(s).OemName()
  {
  }

  /** An NTFS volume's OEM name: the bytes of "NTFS" followed by four spaces
      read as "NTFS". */
  lemma NtfsOemName(s: Sector)
    requires s[0x03..0x0b] == [0x4E, 0x54, 0x46, 0x53, 0x20, 0x20, 0x20, 0x20]
    ensures Decode(s).OemName() == "NTFS"
  {
    var cs := Ascii(s[0x03..0x0b]);
    assert cs == "NTFS    ";
    assert IsTrimWindow(cs, 0, 4);
    TrimIsTheWindow(cs, 0, 4);
  }
}
