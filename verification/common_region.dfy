/** The region every FAT and NTFS boot sector starts with: three bytes of
    jump instructions at 0x00 and an eight-byte OEM name at 0x03. Both
    boot-sector records also overlay their parameter block at offset 0, so
    all their field offsets are offsets into the 512-byte sector. */
module CommonRegion {
  import opened Uint
  import opened Layout
  import opened Text

  /** `BootSectorSize`: both decoders read exactly one 512-byte sector. */
  const BOOT_SECTOR_SIZE: nat := 512

  type Sector = s: seq<uint8> | |s| == BOOT_SECTOR_SIZE witness seq(BOOT_SECTOR_SIZE, _ => 0)

  const CommonLayout: seq<Field> := [
    Field(0x00, 3),  // jump instructions
    Field(0x03, 8)   // OEM name
  ]

  const COMMON_END: nat := 0x0b

  lemma CommonLayoutTiles()
    ensures Contiguous(CommonLayout, 0, COMMON_END)
    ensures Fits(CommonLayout, BOOT_SECTOR_SIZE)
  {
    assert ContiguousFrom(CommonLayout, 0, 0, COMMON_END);
    ContiguousFromSuffix(CommonLayout, 0, 0, COMMON_END);
    ContiguousBounds(CommonLayout, 0, COMMON_END);
  }

  function Jump(s: Sector): Bytes3 {
    CommonLayoutTiles();
    Slices(s, CommonLayout)[0]
  }

  function RawOemName(s: Sector): Bytes8 {
    CommonLayoutTiles();
    Slices(s, CommonLayout)[1]
  }

  /** The jump field is bytes 0x00 to 0x02, the raw OEM name bytes 0x03 to 0x0a. */
  lemma CommonOffsets(s: Sector)
    ensures Jump(s) == s[0x00..0x03]
    ensures RawOemName(s) == s[0x03..0x0b]
  {
  }

  /** The `OemName` property: the raw name as trimmed ASCII, at most eight
      characters, without white space at either end. */
  function OemName(raw: Bytes8): (r: string)
    ensures |r| <= 8
    ensures r == [] || (!IsWhiteSpace(r[0]) && !IsWhiteSpace(r[|r| - 1]))
  {
    TrimmedAscii(raw)
  }

  /** Writes a jump field and a raw OEM name over bytes 0x00 to 0x0a of s. */
  function EncodeCommon(jump: Bytes3, oem: Bytes8, s: Sector): Sector {
    CommonLayoutTiles();
    WriteAll(s, CommonLayout, [jump, oem])
  }

  /** Writing the common region leaves bytes from 0x0b on unchanged. */
  lemma EncodeCommonFrame(jump: Bytes3, oem: Bytes8, s: Sector)
    ensures forall p :: COMMON_END <= p < BOOT_SECTOR_SIZE ==> EncodeCommon(jump, oem, s)[p] == s[p]
  {
    CommonLayoutTiles();
    WriteAllFrame(s, CommonLayout, [jump, oem], 0, COMMON_END);
  }

  lemma DecodeEncodeCommon(jump: Bytes3, oem: Bytes8, s: Sector)
    ensures Jump(EncodeCommon(jump, oem, s)) == jump
    ensures RawOemName(EncodeCommon(jump, oem, s)) == oem
  {
    CommonLayoutTiles();
    SlicesOfWriteAll(s, CommonLayout, [jump, oem], 0, COMMON_END);
  }

  lemma EncodeDecodeCommon(s: Sector)
    ensures EncodeCommon(Jump(s), RawOemName(s), s) == s
  {
    CommonLayoutTiles();
    assert [Jump(s), RawOemName(s)] == Slices(s, CommonLayout);
    WriteAllOfSlices(s, CommonLayout);
  }

  /** The common region depends on bytes 0x00 to 0x0a only. */
  lemma CommonFrame(s: Sector, t: Sector)
    requires AgreeOn(s, t, 0, COMMON_END)
    ensures Jump(s) == Jump(t) && RawOemName(s) == RawOemName(t)
  {
    CommonLayoutTiles();
    SlicesFrame(s, t, CommonLayout, 0, COMMON_END);
  }
}
