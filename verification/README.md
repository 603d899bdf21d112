# FAT and NTFS boot sectors in Dafny

A model of the boot-sector core of the FileSystem library: decoding the
first 512-byte sector of a FAT12, FAT16, FAT32 or NTFS volume into typed
records, the trimmed-ASCII text properties of those records, the media
descriptor enumeration, and the FAT volume geometry computed from a decoded
record (first data sector, first sector of a cluster, cluster count, FAT
type, root-directory byte offset).

The C# code obtains its records by marshalling a pinned 512-byte buffer into
structs with explicit field offsets. Here every record is decoded from a
`Sector` (exactly 512 bytes) through a table of `(offset, width)` fields, and
each decoder has an encoder partner that writes a record back over a sector.
For every record the model proves:

- the offset table: each field is its bytes at its `FieldOffset`, read
  little-endian (two's-complement for the signed MFT cluster numbers); the
  NTFS record's table is the common region's (`CommonRegion.CommonOffsets`)
  followed by the NTFS block's (`NtfsBpb.DecodeOffsets`);
- the layout tiles its byte range with no gap and no overlap;
- both round trips (`Decode(Encode(b, s)) == b` and `Encode(Decode(s), s) == s`);
- a frame: the record depends on its byte range only.

Geometry follows the C# `uint` arithmetic, which is unchecked: every
intermediate sum, difference and product wraps around modulo 2^32
(`Uint.Add32`, `Uint.Sub32`, `Uint.Mul32`). The single exception the code can
raise, a division by a zero sectors-per-cluster byte, is a `Result` failure.

Modules, one per source type plus shared helpers:

| file | module | models |
|---|---|---|
| uint.dfy | `Uint` | fixed-width integers, little-endian encoding, unchecked `uint` arithmetic |
| wrappers.dfy | `Wrappers` | `Option` and `Result` |
| layout.dfy | `Layout` | explicit struct layouts: fields, reading, writing, tiling |
| text.dfy | `Text` | `Encoding.ASCII.GetString(...).Trim()` |
| media_descriptor.dfy | `Media` | `MediaDescriptor` |
| common_region.dfy | `CommonRegion` | jump instructions and OEM name shared by both boot sectors |
| fat_bpb.dfy | `FatBpb` | FAT `BiosParameterBlock` |
| fat_boot_sector.dfy | `FatBootSector` | FAT `BootSector` fields and text properties |
| fat_geometry.dfy | `FatGeometry` | FAT `BootSector` geometry methods |
| ntfs_bpb.dfy | `NtfsBpb` | NTFS `BiosParameterBlock` |
| ntfs_boot_sector.dfy | `NtfsBootSector` | NTFS `BootSector` |

## Model

| member | source | states |
|---|---|---|
| Uint.LeUint | FileSystem/FileSystem/Fat/BiosParameterBlock.cs:93-102 | an n-byte little-endian field holds a value below 256^n |
| Uint.LeUintOfLeBytes | FileSystem/FileSystem/Fat/BiosParameterBlock.cs:93-102 | reading the n-byte little-endian encoding of a value gives the value back |
| Uint.LeBytesOfLeUint | FileSystem/FileSystem/Fat/BiosParameterBlock.cs:93-102 | encoding the value read from n bytes gives the same n bytes back |
| Uint.LeUintSplitLast | FileSystem/Ntfs/BiosParameterBlock.cs:124-135 | the last byte of a little-endian field is its most significant byte |
| Uint.ToInt64 | FileSystem/Ntfs/BiosParameterBlock.cs:124-135 | the signed reading of a 64-bit pattern is congruent to it modulo 2^64 and is negative exactly when the pattern is at least 2^63 |
| Uint.FromInt64 | FileSystem/Ntfs/BiosParameterBlock.cs:124-135 | the 64-bit pattern of a signed value is congruent to it modulo 2^64 |
| Uint.Int64RoundTrip | FileSystem/Ntfs/BiosParameterBlock.cs:124-135 | signed and unsigned readings of 64 bits are inverse bijections |
| Uint.LeI64Sign | FileSystem/Ntfs/BiosParameterBlock.cs:124-135 | a signed 64-bit field is negative exactly when bit 7 of its last byte is set |
| Uint.Add32 | FileSystem/FileSystem/Fat/BootSector.cs:275 | unchecked uint addition: the exact sum, less 2^32 when it overflows |
| Uint.Sub32 | FileSystem/FileSystem/Fat/BootSector.cs:351 | unchecked uint subtraction: the exact difference, plus 2^32 when it underflows |
| Uint.Mul32 | FileSystem/FileSystem/Fat/BootSector.cs:291 | unchecked uint multiplication: congruent to the exact product modulo 2^32, and equal to it when it fits |
| Uint.U16RoundTrip | FileSystem/FileSystem/Fat/BiosParameterBlock.cs:13-14 | every ushort survives being written and read back |
| Uint.U32RoundTrip | FileSystem/FileSystem/Fat/BiosParameterBlock.cs:93-94 | every uint survives being written and read back |
| Uint.U64RoundTrip | FileSystem/Ntfs/BiosParameterBlock.cs:115-117 | every ulong survives being written and read back |
| Uint.I64RoundTrip | FileSystem/Ntfs/BiosParameterBlock.cs:124-126 | every long survives being written and read back |
| Uint.U16BytesRoundTrip | FileSystem/FileSystem/Fat/BiosParameterBlock.cs:13-14 | every 2-byte string survives being read as a ushort and written back |
| Uint.U32BytesRoundTrip | FileSystem/FileSystem/Fat/BiosParameterBlock.cs:93-94 | every 4-byte string survives being read as a uint and written back |
| Uint.U64BytesRoundTrip | FileSystem/Ntfs/BiosParameterBlock.cs:115-117 | every 8-byte string survives being read as a ulong and written back |
| Uint.I64BytesRoundTrip | FileSystem/Ntfs/BiosParameterBlock.cs:124-126 | every 8-byte string survives being read as a long and written back |
| Uint.LeU16Bytes | FileSystem/FileSystem/Fat/BiosParameterBlock.cs:13-14 | a ushort field is its first byte plus 256 times its second |
| Uint.LeU32Bytes | FileSystem/FileSystem/Fat/BiosParameterBlock.cs:93-94 | a uint field is its four bytes weighted 1, 2^8, 2^16, 2^24 |
| Layout.ContiguousFromSuffix | FileSystem/FileSystem/Fat/BootSector.cs:10 | the index-based and list-based statements of "the fields tile [lo, hi)" agree |
| Layout.ContiguousBounds | FileSystem/FileSystem/Fat/BootSector.cs:10 | every field of a tiling layout lies inside its range |
| Layout.ContiguousOrdered | FileSystem/FileSystem/Fat/BootSector.cs:10 | later fields of a tiling layout start after earlier ones end, so fields never overlap |
| Layout.ContiguousCovers | FileSystem/FileSystem/Fat/BootSector.cs:10 | every byte of the range belongs to some field |
| Layout.WriteAllOutside | FileSystem/FileSystem/Fat/BootSector.cs:10 | writing a record's fields leaves every byte outside its range unchanged |
| Layout.SlicesOfWriteAll | FileSystem/FileSystem/Fat/BootSector.cs:10 | reading the fields of a layout after writing them gives the written byte strings |
| Layout.WriteAllOfSlices | FileSystem/FileSystem/Fat/BootSector.cs:10 | writing back the byte strings read from a buffer leaves the buffer unchanged |
| Layout.SlicesFrame | FileSystem/FileSystem/Fat/BootSector.cs:10 | buffers that agree on a layout's range read the same fields |
| Layout.ContiguousAppend | FileSystem/FileSystem/Fat/BootSector.cs:10 | a layout tiling [lo, mid) followed by one tiling [mid, hi) tiles [lo, hi) |
| Layout.SlicesAppend | FileSystem/FileSystem/Fat/BootSector.cs:10 | reading a concatenated layout reads each part in turn |
| Text.Ascii | FileSystem/FileSystem/Fat/BootSector.cs:49-51 | ASCII decoding gives one character per byte, '?' for bytes above 0x7F |
| Text.TrimStart | FileSystem/FileSystem/Fat/BootSector.cs:52 | removes exactly the leading white space: what it drops is white space and what it keeps does not start with it |
| Text.TrimEnd | FileSystem/FileSystem/Fat/BootSector.cs:52 | removes exactly the trailing white space |
| Text.Trim | FileSystem/FileSystem/Fat/BootSector.cs:52 | the result is no longer than the input and neither starts nor ends with white space |
| Text.TrimWindow | FileSystem/FileSystem/Fat/BootSector.cs:52 | the trimmed text is a slice cs[i..j] with only white space outside it and non-white characters at both its ends |
| Text.TrimIsTheWindow | FileSystem/FileSystem/Fat/BootSector.cs:52 | that slice is unique, so any slice with those properties is the trimmed text |
| Text.TrimIdempotent | FileSystem/FileSystem/Fat/BootSector.cs:52 | trimming twice is trimming once |
| Text.TrimmedAscii | FileSystem/FileSystem/Fat/BootSector.cs:49-52 | a text property is no longer than its byte array and has no white space at either end |
| Text.TrimmedAsciiIsAscii | FileSystem/FileSystem/Fat/BootSector.cs:49-52 | every character of a text property is below 0x80 |
| Text.TrimKeepsNonWhiteEnds | FileSystem/FileSystem/Fat/BootSector.cs:49-52 | a byte array whose end characters are not white space reads in full, so NUL padding is kept |
| Text.NulIsNotTrimmed | FileSystem/FileSystem/Fat/BootSector.cs:49-52 | a lone NUL byte is not trimmed |
| Text.NulPaddingIsKept | FileSystem/FileSystem/Fat/BootSector.cs:49-52 | NUL padding is kept while a trailing space is removed |
| Text.HighBytesBecomeQuestionMarks | FileSystem/FileSystem/Fat/BootSector.cs:49-52 | a byte at or above 0x80 reads as '?' |
| Text.PaddedOemName | FileSystem/FileSystem/Fat/BootSector.cs:49-52 | "MSDOS5" padded with two spaces reads as "MSDOS5" |
| Media.Kind | FileSystem/MediaDescriptor.cs:23-69 | a named member is reported only for its own byte value |
| Media.KindOfKindCode | FileSystem/MediaDescriptor.cs:23-69 | every named member is recognised from its byte value |
| Media.NamedExactly | FileSystem/MediaDescriptor.cs:23-69 | a byte has a name exactly when it is 0xF0 or in 0xF8..0xFF |
| Media.NineNamedCodes | FileSystem/MediaDescriptor.cs:23-69 | the named values are exactly the nine codes 0xF0, 0xF8 to 0xFF |
| Media.FixedDiskCode | FileSystem/MediaDescriptor.cs:31-33 | the fixed-disk member is exactly the byte 0xF8 |
| CommonRegion.CommonLayoutTiles | FileSystem/FileSystem/Fat/BootSector.cs:21-29 | jump instructions and OEM name tile bytes 0x00 to 0x0a |
| CommonRegion.Jump | FileSystem/FileSystem/Fat/BootSector.cs:19-22 | the three jump bytes of a sector; its contract is carried by `CommonOffsets` (bytes 0x00..0x02), `DecodeEncodeCommon`, `EncodeDecodeCommon` and `CommonFrame` |
| CommonRegion.RawOemName | FileSystem/FileSystem/Fat/BootSector.cs:24-29 | the eight raw OEM-name bytes; its contract is carried by `CommonOffsets` (bytes 0x03..0x0a), `DecodeEncodeCommon`, `EncodeDecodeCommon` and `CommonFrame` |
| CommonRegion.CommonOffsets | FileSystem/FileSystem/Fat/BootSector.cs:21-29 | the jump instructions are bytes 0x00..0x02 and the raw OEM name bytes 0x03..0x0a |
| CommonRegion.OemName | FileSystem/FileSystem/Fat/BootSector.cs:34-55 | the OEM name has at most 8 characters and no white space at either end |
| CommonRegion.EncodeCommonFrame | FileSystem/FileSystem/Fat/BootSector.cs:21-29 | writing the common region leaves bytes from 0x0b on unchanged |
| CommonRegion.DecodeEncodeCommon | FileSystem/FileSystem/Fat/BootSector.cs:21-29 | the written jump bytes and OEM name are read back |
| CommonRegion.EncodeDecodeCommon | FileSystem/FileSystem/Fat/BootSector.cs:21-29 | writing back the common region a sector holds leaves it unchanged |
| CommonRegion.CommonFrame | FileSystem/FileSystem/Fat/BootSector.cs:21-29 | the common region depends on bytes 0x00 to 0x0a only |
| FatBpb.Decode | FileSystem/FileSystem/Fat/BiosParameterBlock.cs:13-102 | the parameter block overlaid on a sector; its contract is carried by `FatBpb.DecodeOffsets` (every field at its offset), `FatBpb.DecodeEncode`, `FatBpb.EncodeDecode` and `FatBpb.DecodeFrame` |
| FatBpb.BpbLayoutTiles | FileSystem/FileSystem/Fat/BiosParameterBlock.cs:13-102 | the twelve FAT parameter-block fields tile bytes 0x0b to 0x23 |
| FatBpb.FromToFields | FileSystem/FileSystem/Fat/BiosParameterBlock.cs:13-102 | a block survives conversion to field bytes and back |
| FatBpb.ToFromFields | FileSystem/FileSystem/Fat/BiosParameterBlock.cs:13-102 | field bytes survive conversion to a block and back |
| FatBpb.DecodeOffsets | FileSystem/FileSystem/Fat/BiosParameterBlock.cs:13-102 | each field is the little-endian value of its bytes at its FieldOffset |
| FatBpb.UnnamedMediaDescriptor | FileSystem/FileSystem/Fat/BiosParameterBlock.cs:61-62 | a media byte of 0x00 is decoded as 0x00 and has no name, without error |
| FatBpb.EncodeFrame | FileSystem/FileSystem/Fat/BiosParameterBlock.cs:13-102 | writing a block leaves every byte outside 0x0b..0x23 unchanged |
| FatBpb.DecodeEncode | FileSystem/FileSystem/Fat/BiosParameterBlock.cs:13-102 | a written block is read back, whatever the rest of the sector |
| FatBpb.EncodeDecode | FileSystem/FileSystem/Fat/BiosParameterBlock.cs:13-102 | writing back the block a sector holds leaves the sector unchanged |
| FatBpb.DecodeFrame | FileSystem/FileSystem/Fat/BiosParameterBlock.cs:13-102 | the block depends on bytes 0x0b to 0x23 only |
| FatBpb.DecodeIgnoresOtherBytes | FileSystem/FileSystem/Fat/BiosParameterBlock.cs:13-102 | changing one byte outside 0x0b..0x23 does not change the block |
| FatBootSector.BootSector.OemName | FileSystem/FileSystem/Fat/BootSector.cs:34-55 | at most 8 characters, no white space at either end |
| FatBootSector.BootSector.VolumeLabel | FileSystem/FileSystem/Fat/BootSector.cs:168-189 | at most 11 characters, no white space at either end |
| FatBootSector.BootSector.FileSystemType | FileSystem/FileSystem/Fat/BootSector.cs:201-222 | at most 8 characters, no white space at either end |
| FatBootSector.Fat32LayoutTiles | FileSystem/FileSystem/Fat/BootSector.cs:64-196 | the thirteen FAT32 extended fields tile bytes 0x24 to 0x59 |
| FatBootSector.Decode | FileSystem/FileSystem/Fat/BootSector.cs:15-196 | the FAT boot-sector struct overlaid on a sector; its contract is carried by `FatBootSector.DecodeOffsets`, `FatBootSector.DecodeEncode`, `FatBootSector.EncodeDecode` and `FatBootSector.DecodeFrame` |
| FatBootSector.SectorLayoutTiles | FileSystem/FileSystem/Fat/BootSector.cs:15-196 | common region, parameter block and extended fields together tile bytes 0x00 to 0x59 |
| FatBootSector.WithFat32FieldsOfFields | FileSystem/FileSystem/Fat/BootSector.cs:64-196 | a record survives conversion of its extended fields to bytes and back |
| FatBootSector.Fat32FieldsOfWith | FileSystem/FileSystem/Fat/BootSector.cs:64-196 | extended-field bytes survive conversion to a record and back |
| FatBootSector.DecodeOffsets | FileSystem/FileSystem/Fat/BootSector.cs:15-196 | each field of the FAT boot sector is its bytes at its FieldOffset, read little-endian |
| FatBootSector.EncodeFrame | FileSystem/FileSystem/Fat/BootSector.cs:15-196 | writing a record leaves bytes from 0x5a on unchanged |
| FatBootSector.EncodeKeepsPrefix | FileSystem/FileSystem/Fat/BootSector.cs:15-196 | writing the FAT32 fields leaves the jump bytes, OEM name and parameter block as written before them |
| FatBootSector.DecodeEncode | FileSystem/FileSystem/Fat/BootSector.cs:15-196 | a written record is read back |
| FatBootSector.EncodeDecode | FileSystem/FileSystem/Fat/BootSector.cs:15-196 | writing back the record a sector holds leaves the sector unchanged |
| FatBootSector.DecodeFrame | FileSystem/FileSystem/Fat/BootSector.cs:15-196 | the record depends on bytes 0x00 to 0x59 only |
| FatBootSector.PaddedOemNameOfSector | FileSystem/FileSystem/Fat/BootSector.cs:34-55 | a sector holding "MSDOS5  " at 0x03 has OEM name "MSDOS5" |
| FatGeometry.EffectiveFatSize | FileSystem/FileSystem/Fat/BootSector.cs:271-273 | the 16-bit FAT size, or the FAT32 size when the 16-bit one is 0; its contract is carried by `FatGeometry.FirstDataSectorNumber` and `FatGeometry.FirstDataSectorIgnoresFatSize32` |
| FatGeometry.FirstDataSectorNumber | FileSystem/FileSystem/Fat/BootSector.cs:267-282 | reserved sectors plus FAT count times the effective FAT size, modulo 2^32, and exactly that sum when it fits |
| FatGeometry.FirstDataSectorIgnoresFatSize32 | FileSystem/FileSystem/Fat/BootSector.cs:271-273 | with a non-zero 16-bit FAT size the 32-bit FAT size plays no part |
| FatGeometry.FirstSectorNumber | FileSystem/FileSystem/Fat/BootSector.cs:289-292 | (cluster - 2) * sectors per cluster + first data sector, modulo 2^32; cluster 2 starts the data region |
| FatGeometry.FirstSectorNumberExact | FileSystem/FileSystem/Fat/BootSector.cs:289-292 | when no step overflows, cluster c starts (c - 2) clusters of sectors after the reserved sectors and all FATs, that is after the first data sector |
| FatGeometry.ConsecutiveClusters | FileSystem/FileSystem/Fat/BootSector.cs:289-292 | when no step overflows, consecutive clusters start one cluster of sectors apart |
| FatGeometry.DataSectorsCount | FileSystem/FileSystem/Fat/BootSector.cs:351 | total sectors less reserved and FAT sectors, modulo 2^32, from the 32-bit fields only |
| FatGeometry.ClustersCount | FileSystem/FileSystem/Fat/BootSector.cs:349-356 | fails exactly when sectors per cluster is 0; otherwise the largest count of whole clusters that fit in the data sectors |
| FatGeometry.ClustersCountIgnores16BitFields | FileSystem/FileSystem/Fat/BootSector.cs:351 | the 16-bit total-sectors and FAT-size fields do not affect the count |
| FatGeometry.NoDataSectors | FileSystem/FileSystem/Fat/BootSector.cs:318-356 | a volume with no data sectors has 0 clusters and is FAT12 |
| FatGeometry.FatTypeOfCount | FileSystem/FileSystem/Fat/BootSector.cs:320-335 | the FAT type is 12, 16 or 32 |
| FatGeometry.FatTypeIntervals | FileSystem/FileSystem/Fat/BootSector.cs:320-335 | FAT12 exactly below 4085 clusters, FAT16 exactly from 4085 to 65524, FAT32 exactly from 65525 |
| FatGeometry.FatTypeMonotone | FileSystem/FileSystem/Fat/BootSector.cs:320-335 | more clusters never give a narrower FAT |
| FatGeometry.FatTypeBoundaries | FileSystem/FileSystem/Fat/BootSector.cs:320-335 | 4084 is FAT12, 4085 and 65524 are FAT16, 65525 is FAT32 |
| FatGeometry.FatType | FileSystem/FileSystem/Fat/BootSector.cs:318-336 | fails exactly when the cluster count divides by zero; otherwise 12, 16 or 32 |
| FatGeometry.RootDirOffset | FileSystem/FileSystem/Fat/BootSector.cs:341-344 | as written: the root directory's first sector times bytes per sector modulo 2^32, always below 4 GiB |
| FatGeometry.RootDirOffsetWide | FileSystem/FileSystem/Fat/BootSector.cs:341-344 | corrected: the untruncated 64-bit product of first sector and bytes per sector |
| FatGeometry.RootDirOffsetTruncatesWide | FileSystem/FileSystem/Fat/BootSector.cs:341-344 | the offset as written is the corrected offset modulo 2^32 |
| FatGeometry.RootDirOffsetBelow4GiB | FileSystem/FileSystem/Fat/BootSector.cs:341-344 | the two offsets agree exactly when the corrected one is below 4 GiB |
| FatGeometry.RootDirOffsetWraps | FileSystem/FileSystem/Fat/BootSector.cs:341-344 | a concrete volume whose root directory at byte 4303175680 is reported at byte 8208384 |
| FatGeometry.WorkedExample | FileSystem/FileSystem/Fat/BootSector.cs:267-292 | 32 reserved sectors and two FATs of 8000 sectors put the data region at 16032 and cluster 5 (4 sectors per cluster) at 16044 |
| NtfsBpb.Bpb.VolumeSerialNumber | FileSystem/Ntfs/BiosParameterBlock.cs:169-190 | at most 8 characters, no white space at either end |
| NtfsBpb.Decode | FileSystem/Ntfs/BiosParameterBlock.cs:20-198 | the NTFS parameter block overlaid on a sector; its contract is carried by `NtfsBpb.DecodeOffsets`, `NtfsBpb.DecodeEncode`, `NtfsBpb.EncodeDecode` and `NtfsBpb.DecodeFrame` |
| NtfsBpb.NtfsLayoutTiles | FileSystem/Ntfs/BiosParameterBlock.cs:20-198 | the nineteen NTFS parameter-block fields tile bytes 0x0b to 0x53 |
| NtfsBpb.NtfsWidths | FileSystem/Ntfs/BiosParameterBlock.cs:20-198 | the field widths are those of the declared field types |
| NtfsBpb.FromToFields | FileSystem/Ntfs/BiosParameterBlock.cs:20-198 | a block survives conversion to field bytes and back |
| NtfsBpb.ToFromFields | FileSystem/Ntfs/BiosParameterBlock.cs:20-198 | field bytes survive conversion to a block and back |
| NtfsBpb.DecodeOffsetsSizesOfUnits | FileSystem/Ntfs/BiosParameterBlock.cs:20-53 | the fields at 0x0b..0x14 are their bytes, read little-endian |
| NtfsBpb.DecodeOffsetsMedium | FileSystem/Ntfs/BiosParameterBlock.cs:59-85 | the fields at 0x15..0x1b are their bytes, read little-endian |
| NtfsBpb.DecodeOffsetsSizes | FileSystem/Ntfs/BiosParameterBlock.cs:91-117 | the fields at 0x1c..0x2f are their bytes, read little-endian |
| NtfsBpb.DecodeOffsetsMft | FileSystem/Ntfs/BiosParameterBlock.cs:124-157 | the MFT fields at 0x30..0x47, the cluster numbers read as signed |
| NtfsBpb.DecodeOffsetsSerial | FileSystem/Ntfs/BiosParameterBlock.cs:163-198 | the serial number bytes and the checksum at 0x48..0x53 |
| NtfsBpb.DecodeOffsets | FileSystem/Ntfs/BiosParameterBlock.cs:20-198 | each NTFS field is its bytes at its FieldOffset, Reserved2 at 0x13 and Reserved5 at 0x24 |
| NtfsBpb.MftClusterNumberSign | FileSystem/Ntfs/BiosParameterBlock.cs:124-135 | an MFT cluster number is negative exactly when the top bit of its last byte is set |
| NtfsBpb.SharedWithFat | FileSystem/Ntfs/BiosParameterBlock.cs:20-101 | NTFS and FAT blocks read the same values for their seven shared fields, and the NTFS reserved fields alias FAT count, totalSectors16, fatSize16 and totalSectors32 |
| NtfsBpb.EncodeFrame | FileSystem/Ntfs/BiosParameterBlock.cs:20-198 | writing a block leaves every byte outside 0x0b..0x53 unchanged |
| NtfsBpb.DecodeEncode | FileSystem/Ntfs/BiosParameterBlock.cs:20-198 | a written block is read back, whatever the rest of the sector |
| NtfsBpb.EncodeDecode | FileSystem/Ntfs/BiosParameterBlock.cs:20-198 | writing back the block a sector holds leaves the sector unchanged |
| NtfsBpb.DecodeFrame | FileSystem/Ntfs/BiosParameterBlock.cs:20-198 | the block depends on bytes 0x0b to 0x53 only |
| NtfsBootSector.BootSector.OemName | FileSystem/FileSystem/Ntfs/BootSector.cs:40-61 | at most 8 characters, no white space at either end |
| NtfsBootSector.Decode | FileSystem/FileSystem/Ntfs/BootSector.cs:21-66 | the NTFS boot-sector struct overlaid on a sector; its contract is carried by `CommonRegion.CommonOffsets` with `NtfsBpb.DecodeOffsets`, `NtfsBootSector.DecodeEncode`, `NtfsBootSector.EncodeDecode` and `NtfsBootSector.DecodeFrame` |
| NtfsBootSector.SectorLayoutTiles | FileSystem/FileSystem/Ntfs/BootSector.cs:21-66 | common region and NTFS parameter block together tile bytes 0x00 to 0x53 |
| NtfsBootSector.EncodeFrame | FileSystem/FileSystem/Ntfs/BootSector.cs:21-66 | writing a record leaves bytes from 0x54 on unchanged |
| NtfsBootSector.EncodeKeepsCommon | FileSystem/FileSystem/Ntfs/BootSector.cs:21-66 | writing the parameter block leaves the jump bytes and OEM name as written before it |
| NtfsBootSector.DecodeEncode | FileSystem/FileSystem/Ntfs/BootSector.cs:21-66 | a written record is read back |
| NtfsBootSector.EncodeDecode | FileSystem/FileSystem/Ntfs/BootSector.cs:21-66 | writing back the record a sector holds leaves the sector unchanged |
| NtfsBootSector.DecodeFrame | FileSystem/FileSystem/Ntfs/BootSector.cs:21-66 | the record depends on bytes 0x00 to 0x53 only |
| NtfsBootSector.SameCommonRegionAsFat | FileSystem/FileSystem/Ntfs/BootSector.cs:21-66 | the NTFS and FAT records of a sector have the same jump bytes and OEM name |
| NtfsBootSector.NtfsOemName | FileSystem/FileSystem/Ntfs/BootSector.cs:40-61 | "NTFS" padded with four spaces reads as "NTFS" |

## Left out

- Device access: `GetBootSector(driveLetter)` in both boot-sector types opens the
  drive, reads 512 bytes at offset 0 and closes it through `SystemIO`. The model
  starts from the 512 bytes; `SystemIO` is not part of this model.
- Marshalling and pinning (`GCHandle`, `Marshal.PtrToStructure`) are replaced by
  reading fields from the byte sequence at their offsets.
- The static `GetFatType(string driveLetter)` is the device read followed by
  `FatGeometry.FatType`; only the second part is modelled.
- The `catch` branch of `GetFirstDataSectorNumber` returning 0 is not modelled:
  arithmetic on `uint` in an unchecked context raises no exception there, so the
  branch cannot run.
- Sector length: the model takes exactly 512 bytes and has no error for other
  lengths. The code always allocates a 512-byte buffer and never checks a length,
  so a wrong-length failure cannot arise in it.
- Trimming: `string.Trim()` on ASCII output removes tab, line feed, vertical tab,
  form feed, carriage return and space. It does not remove NUL, so NUL padding
  stays in the text properties (`Text.NulIsNotTrimmed`).
- Field meanings given only in documentation comments are not modelled. This covers:
  the power-of-two rule for sectors per cluster, the "must be 0" reserved NTFS
  fields, the bit layout of `ExtendedFlags`, and the signed-byte encoding of
  clusters per MFT record. The decoders read these fields as raw values, as the code does.
- NTFS documentation comments put Reserved2 at 0x11 and Reserved5 at 0x20. The
  FieldOffset attributes put them at 0x13 and 0x24, and the model follows the attributes.
- Geometry for clusters 0 and 1: `FatGeometry.FirstSectorNumber` wraps around
  for them, as the code does; no separate error is modelled.
- Bytes are modelled as integers 0..255 rather than bit-vectors. No operation
  of the core uses bitwise operators.
- The sample reader program, which only prints fields, is not part of this model.

## Findings

| source | as written | input that shows it | evidently intended | confidence | as-written member | corrected member |
|---|---|---|---|---|---|---|
| FileSystem/FileSystem/Fat/BootSector.cs:341-344 | `GetRootDirOffset` multiplies the uint first sector by the ushort bytes per sector in 32-bit arithmetic and only then widens to ulong, so the offset wraps modulo 2^32 | 512 bytes per sector, 8 sectors per cluster, 32 reserved sectors, two FATs of 8000 sectors, FAT16 size 0, root directory at cluster 0x100002: first sector 8404640, true offset 4303175680, returned 8208384 | the 64-bit byte offset 4303175680 (widen before multiplying) | medium, not executed | FatGeometry.RootDirOffset (shown by FatGeometry.RootDirOffsetWraps) | FatGeometry.RootDirOffsetWide |
