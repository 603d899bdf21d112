/** The media descriptor byte of a parameter block: a byte-backed
    enumeration in which nine codes have a name and every other byte value
    is still a valid value of the type. */
module Media {
  import opened Uint
  import opened Wrappers

  /** Any byte is a media descriptor; the decoders never reject one. */
  datatype MediaDescriptor = MediaDescriptor(code: uint8)

  /** The named members of the enumeration, one per legacy media code. */
  datatype MediaKind =
    | F0  // 3.5" double sided, 18 or 36 sectors per track; 5.25" 1.2MB; other media
    | F8  // fixed disk
    | F9  // 3.5" 720K; 5.25" 1.2MB
    | FA  // 5.25" single sided, 80 tracks, 8 sectors per track
    | FB  // 3.5" double sided, 80 tracks, 8 sectors per track
    | FC  // 5.25" single sided, 40 tracks, 9 sectors per track
    | FD  // 5.25" double sided, 40 tracks, 9 sectors per track; 8"
    | FE  // 5.25" single sided, 40 tracks, 8 sectors per track; 8"
    | FF  // 5.25" double sided, 40 tracks, 8 sectors per track

  /** The byte value of each named member. */
  function KindCode(k: MediaKind): uint8 {
    match k
    case F0 => 0xF0
    case F8 => 0xF8
    case F9 => 0xF9
    case FA => 0xFA
    case FB => 0xFB
    case FC => 0xFC
    case FD => 0xFD
    case FE => 0xFE
    case FF => 0xFF
  }

  /** The named member whose value is the descriptor's byte, if there is one. */
  function Kind(m: MediaDescriptor): (r: Option<MediaKind>)
    ensures r.Some? ==> KindCode(r.value) == m.code
  {
    match m.code
    case 0xF0 => Some(F0)
    case 0xF8 => Some(F8)
    case 0xF9 => Some(F9)
    case 0xFA => Some(FA)
    case 0xFB => Some(FB)
    case 0xFC => Some(FC)
    case 0xFD => Some(FD)
    case 0xFE => Some(FE)
    case 0xFF => Some(FF)
    case _ => None
  }

  /** The set of byte values that have a name. */
  function NamedCodes(): set<uint8> {
    set k: MediaKind :: KindCode(k)
  }

  /** Every named member is found again from its byte value. */
  lemma KindOfKindCode(k: MediaKind)
    ensures Kind(MediaDescriptor(KindCode(k))) == Some(k)
  {
  }

  /** A byte has a name exactly when it is 0xF0 or one of 0xF8 to 0xFF:
      nothing below 0xF0 and nothing from 0xF1 to 0xF7 is named. */
  lemma NamedExactly(m: MediaDescriptor)
    ensures Kind(m).Some? <==> m.code == 0xF0 || 0xF8 <= m.code <= 0xFF
    ensures Kind(m).Some? <==> m.code in NamedCodes()
  {
    if Kind(m).Some? {
      assert m.code == KindCode(Kind(m).value);
    }
    if m.code in NamedCodes() {
      var k :| KindCode(k) == m.code;
      KindOfKindCode(k);
    }
  }

  /** Exactly nine codes are named. */
  lemma NineNamedCodes()
    ensures NamedCodes() == {0xF0, 0xF8, 0xF9, 0xFA, 0xFB, 0xFC, 0xFD, 0xFE, 0xFF}
    ensures |NamedCodes()| == 9
  {
    var expected: set<uint8> := {0xF0, 0xF8, 0xF9, 0xFA, 0xFB, 0xFC, 0xFD, 0xFE, 0xFF};
    assert KindCode(F0) in NamedCodes() && KindCode(F8) in NamedCodes() && KindCode(F9) in NamedCodes();
    assert KindCode(FA) in NamedCodes() && KindCode(FB) in NamedCodes() && KindCode(FC) in NamedCodes();
    assert KindCode(FD) in NamedCodes() && KindCode(FE) in NamedCodes() && KindCode(FF) in NamedCodes();
    assert NamedCodes() == expected;
  }

  /** 0xF8 is the descriptor of a fixed (hard) disk. */
  predicate IsFixedDisk(m: MediaDescriptor) {
    Kind(m) == Some(F8)
  }

  lemma FixedDiskCode(m: MediaDescriptor)
    ensures IsFixedDisk(m) <==> m.code == 0xF8
  {
  }
}
