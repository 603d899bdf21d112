/** The text fields of a boot sector: fixed-width byte arrays read as ASCII
    and trimmed of white space at both ends, as `Encoding.ASCII.GetString`
    followed by `string.Trim()` does. */
module Text {
  import opened Uint

  /** The characters `Trim()` removes that an ASCII decoding can produce:
      tab, line feed, vertical tab, form feed, carriage return and space. */
  predicate IsWhiteSpace(c: char) {
    '\t' <= c <= '\r' || c == ' '
  }

  /** ASCII decoding of one byte: bytes above 0x7F are not ASCII and become
      the replacement character '?'. */
  function AsciiChar(b: uint8): (c: char)
    ensures 0 <= c as int < 0x80
  {
    if b < 0x80 then b as char else '?'
  }

  /** ASCII decoding of a byte string, one character per byte. */
  function Ascii(bytes: seq<uint8>): (cs: string)
    ensures |cs| == |bytes|
    ensures forall i :: 0 <= i < |bytes| ==> cs[i] == AsciiChar(bytes[i])
  {
    seq(|bytes|, i requires 0 <= i < |bytes| => AsciiChar(bytes[i]))
  }

  /** cs without its leading white space. */
  function TrimStart(cs: string): (r: string)
    ensures |r| <= |cs| && r == cs[|cs| - |r|..]
    ensures forall k :: 0 <= k < |cs| - |r| ==> IsWhiteSpace(cs[k])
    ensures r == [] || !IsWhiteSpace(r[0])
  {
    if |cs| > 0 && IsWhiteSpace(cs[0]) then TrimStart(cs[1..]) else cs
  }

  /** cs without its trailing white space. */
  function TrimEnd(cs: string): (r: string)
    ensures |r| <= |cs| && r == cs[..|r|]
    ensures forall k :: |r| <= k < |cs| ==> IsWhiteSpace(cs[k])
    ensures r == [] || !IsWhiteSpace(r[|r| - 1])
  {
    if |cs| > 0 && IsWhiteSpace(cs[|cs| - 1]) then TrimEnd(cs[..|cs| - 1]) else cs
  }

  /** cs[i..j] is what trimming cs keeps: everything before i and from j on
      is white space, and the kept part neither starts nor ends with it. */
  ghost predicate IsTrimWindow(cs: string, i: int, j: int) {
    && 0 <= i <= j <= |cs|
    && (forall k :: 0 <= k < i ==> IsWhiteSpace(cs[k]))
    && (forall k :: j <= k < |cs| ==> IsWhiteSpace(cs[k]))
    && (i < j ==> !IsWhiteSpace(cs[i]) && !IsWhiteSpace(cs[j - 1]))
  }

  /** .NET `string.Trim()` restricted to the characters ASCII decoding yields. */
  function Trim(cs: string): (r: string)
    ensures |r| <= |cs|
    ensures r == [] || (!IsWhiteSpace(r[0]) && !IsWhiteSpace(r[|r| - 1]))
  {
    TrimEnd(TrimStart(cs))
  }

  /** What `Trim` keeps is a trim window of its input. */
  lemma TrimWindow(cs: string) returns (i: nat, j: nat)
    ensures IsTrimWindow(cs, i, j) && Trim(cs) == cs[i..j]
  {
    var s := TrimStart(cs);
    var r := TrimEnd(s);
    i := |cs| - |s|;
    j := i + |r|;
    assert r == cs[i..j];
    forall k | j <= k < |cs| ensures IsWhiteSpace(cs[k]) {
      assert cs[k] == s[k - i];
    }
    if |r| > 0 {
      assert r[0] == s[0];
    }
  }

  /** A trim window is unique, so `Trim` is the only function meeting its
      contract: every window of cs holds exactly `Trim(cs)`. */
  lemma TrimIsTheWindow(cs: string, i: int, j: int)
    requires IsTrimWindow(cs, i, j)
    ensures Trim(cs) == cs[i..j]
  {
    var i', j' := TrimWindow(cs);
    if i < j {
      assert !IsWhiteSpace(cs[i]) && !IsWhiteSpace(cs[j - 1]);
    }
    if i' < j' {
      assert !IsWhiteSpace(cs[i']) && !IsWhiteSpace(cs[j' - 1]);
    }
    assert i < j ==> i == i' && j == j';
    assert i' < j' ==> i == i' && j == j';
  }

  /** Trimming twice is trimming once. */
  lemma TrimIdempotent(cs: string)
    ensures Trim(Trim(cs)) == Trim(cs)
  {
    var r := Trim(cs);
    assert IsTrimWindow(r, 0, |r|);
    TrimIsTheWindow(r, 0, |r|);
  }

  /** The value of a text property of a boot sector: the field's bytes read
      as ASCII and trimmed. */
  function TrimmedAscii(bytes: seq<uint8>): (r: string)
    ensures |r| <= |bytes|
    ensures r == [] || (!IsWhiteSpace(r[0]) && !IsWhiteSpace(r[|r| - 1]))
  {
    Trim(Ascii(bytes))
  }

  /** Every character of a text property is ASCII: bytes at or above 0x80
      were replaced by '?' before trimming. */
  lemma TrimmedAsciiIsAscii(bytes: seq<uint8>)
    ensures forall k :: 0 <= k < |TrimmedAscii(bytes)| ==> TrimmedAscii(bytes)[k] as int < 0x80
  {
    var cs := Ascii(bytes);
    var i, j := TrimWindow(cs);
    forall k | 0 <= k < |TrimmedAscii(bytes)| ensures TrimmedAscii(bytes)[k] as int < 0x80 {
      assert TrimmedAscii(bytes)[k] == cs[i + k] == AsciiChar(bytes[i + k]);
    }
  }

  /** Bytes that are not white space survive trimming in place when they sit
      at both ends: in particular NUL (0x00) is kept, and a byte at or above
      0x80 shows up as '?'. */
  lemma TrimKeepsNonWhiteEnds(bytes: seq<uint8>)
    requires |bytes| > 0
    requires !IsWhiteSpace(AsciiChar(bytes[0])) && !IsWhiteSpace(AsciiChar(bytes[|bytes| - 1]))
    ensures TrimmedAscii(bytes) == Ascii(bytes)
  {
    var cs := Ascii(bytes);
    assert IsTrimWindow(cs, 0, |cs|);
    TrimIsTheWindow(cs, 0, |cs|);
  }

  lemma NulIsNotTrimmed()
    ensures TrimmedAscii([0x00]) == "\0"
  {
    var cs := Ascii([0x00]);
    assert cs[0] == AsciiChar(0x00) == '\0';
    assert cs == "\0";
    TrimKeepsNonWhiteEnds([0x00]);
  }

  /** NUL padding stays while a trailing space goes. */
  lemma NulPaddingIsKept()
    ensures TrimmedAscii([0x41, 0x00, 0x00, 0x20]) == "A\0\0"
  {
    var cs := Ascii([0x41, 0x00, 0x00, 0x20]);
    assert cs[0] == 'A' && cs[1] == '\0' && cs[2] == '\0' && cs[3] == ' ';
    assert IsTrimWindow(cs, 0, 3);
    TrimIsTheWindow(cs, 0, 3);
    assert cs[0..3] == "A\0\0";
  }

  lemma HighBytesBecomeQuestionMarks(b: uint8)
    requires b >= 0x80
    ensures TrimmedAscii([b]) == "?"
  {
    TrimKeepsNonWhiteEnds([b]);
  }

  /** An OEM name padded with spaces loses its padding: "MSDOS5  " reads as "MSDOS5". */
  lemma PaddedOemName()
    ensures TrimmedAscii([0x4D, 0x53, 0x44, 0x4F, 0x53, 0x35, 0x20, 0x20]) == "MSDOS5"
  {
    var cs := Ascii([0x4D, 0x53, 0x44, 0x4F, 0x53, 0x35, 0x20, 0x20]);
    assert cs == "MSDOS5  ";
    assert IsTrimWindow(cs, 0, 6);
    TrimIsTheWindow(cs, 0, 6);
  }
}
