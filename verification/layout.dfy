/** Byte layouts: a record stored at fixed offsets of a sector is a list of
    fields, each an offset and a width. Decoding reads every field's bytes
    (`Slices`), encoding writes them back over a sector (`WriteAll`). The
    lemmas here are proved once for every layout whose fields tile a byte
    range without gaps or overlap (`Contiguous`). */
module Layout {
  import opened Uint

  datatype Field = Field(offset: nat, width: nat) {
    /** One past the last byte of the field. */
    function End(): nat { offset + width }

    predicate Contains(p: int) { offset <= p < End() }
  }

  /** Every field lies inside a buffer of n bytes. */
  predicate Fits(layout: seq<Field>, n: nat) {
    forall i :: 0 <= i < |layout| ==> layout[i].End() <= n
  }

  /** The fields follow each other from lo to hi: the first starts at lo,
      each next one starts where the previous ends, the last ends at hi. */
  predicate Contiguous(layout: seq<Field>, lo: nat, hi: nat)
    decreases |layout|
  {
    if |layout| == 0 then lo == hi
    else layout[0].offset == lo && Contiguous(layout[1..], layout[0].End(), hi)
  }

  /** Contiguous, stated from index i on; on a layout written out as a
      literal the verifier can check this one by evaluation. */
  predicate ContiguousFrom(layout: seq<Field>, i: nat, lo: nat, hi: nat)
    requires i <= |layout|
    decreases |layout| - i
  {
    if i == |layout| then lo == hi
    else layout[i].offset == lo && ContiguousFrom(layout, i + 1, layout[i].End(), hi)
  }

  lemma {:induction false} ContiguousFromSuffix(layout: seq<Field>, i: nat, lo: nat, hi: nat)
    requires i <= |layout|
    ensures ContiguousFrom(layout, i, lo, hi) <==> Contiguous(layout[i..], lo, hi)
    decreases |layout| - i
  {
    if i < |layout| {
      assert layout[i..][1..] == layout[i + 1..];
      ContiguousFromSuffix(layout, i + 1, layout[i].End(), hi);
    }
  }

  /** Every field's byte string has the field's width. */
  predicate Sized(fields: seq<seq<uint8>>, layout: seq<Field>) {
    |fields| == |layout| && forall i :: 0 <= i < |layout| ==> |fields[i]| == layout[i].width
  }

  /** Two buffers hold the same bytes at every position of [lo, hi). */
  predicate AgreeOn(s: seq<uint8>, t: seq<uint8>, lo: nat, hi: nat)
    requires hi <= |s| && hi <= |t|
  {
    forall p :: lo <= p < hi ==> s[p] == t[p]
  }

  /** The bytes of one field. */
  function Read(s: seq<uint8>, f: Field): (r: seq<uint8>)
    requires f.End() <= |s|
    ensures |r| == f.width
  {
    s[f.offset..f.End()]
  }

  /** The bytes of every field of a layout, in layout order. */
  function Slices(s: seq<uint8>, layout: seq<Field>): (fields: seq<seq<uint8>>)
    requires Fits(layout, |s|)
    ensures Sized(fields, layout)
  {
    seq(|layout|, i requires 0 <= i < |layout| => Read(s, layout[i]))
  }

  /** s with the bytes of field f replaced by `bytes`. */
  function Write(s: seq<uint8>, f: Field, bytes: seq<uint8>): (r: seq<uint8>)
    requires f.End() <= |s| && |bytes| == f.width
    ensures |r| == |s|
    ensures forall p :: 0 <= p < |s| && !f.Contains(p) ==> r[p] == s[p]
    ensures forall p :: f.offset <= p < f.End() ==> r[p] == bytes[p - f.offset]
  {
    s[..f.offset] + bytes + s[f.End()..]
  }

  /** s with every field of the layout overwritten by the matching byte string. */
  function WriteAll(s: seq<uint8>, layout: seq<Field>, fields: seq<seq<uint8>>): (r: seq<uint8>)
    requires Fits(layout, |s|) && Sized(fields, layout)
    ensures |r| == |s|
    decreases |layout|
  {
    if |layout| == 0 then s
    else WriteAll(Write(s, layout[0], fields[0]), layout[1..], fields[1..])
  }

  /** A contiguous layout stays inside [lo, hi). */
  lemma {:induction false} ContiguousBounds(layout: seq<Field>, lo: nat, hi: nat)
    requires Contiguous(layout, lo, hi)
    ensures lo <= hi
    ensures forall i :: 0 <= i < |layout| ==> lo <= layout[i].offset && layout[i].End() <= hi
  {
    if |layout| > 0 {
      ContiguousBounds(layout[1..], layout[0].End(), hi);
      forall i | 0 <= i < |layout|
        ensures lo <= layout[i].offset && layout[i].End() <= hi
      {
        if i > 0 {
          assert layout[i] == layout[1..][i - 1];
        }
      }
    }
  }

  /** In a contiguous layout every field ends before a later one starts, so
      no two fields share a byte. */
  lemma {:induction false} ContiguousOrdered(layout: seq<Field>, lo: nat, hi: nat)
    requires Contiguous(layout, lo, hi)
    ensures forall i, j :: 0 <= i < j < |layout| ==> layout[i].End() <= layout[j].offset
  {
    if |layout| > 0 {
      var rest := layout[1..];
      ContiguousOrdered(rest, layout[0].End(), hi);
      ContiguousBounds(rest, layout[0].End(), hi);
      forall i, j | 0 <= i < j < |layout|
        ensures layout[i].End() <= layout[j].offset
      {
        assert layout[j] == rest[j - 1];
        if i > 0 {
          assert layout[i] == rest[i - 1];
        }
      }
    }
  }

  /** A contiguous layout covers every byte of [lo, hi). */
  lemma {:induction false} ContiguousCovers(layout: seq<Field>, lo: nat, hi: nat, p: nat)
    requires Contiguous(layout, lo, hi)
    requires lo <= p < hi
    ensures exists i :: 0 <= i < |layout| && layout[i].Contains(p)
  {
    if !layout[0].Contains(p) {
      var rest := layout[1..];
      ContiguousCovers(rest, layout[0].End(), hi, p);
      var i :| 0 <= i < |rest| && rest[i].Contains(p);
      assert layout[i + 1] == rest[i];
    }
  }

  /** Writing the fields of a contiguous layout leaves every byte outside
      [lo, hi) as it was. */
  lemma {:induction false} WriteAllOutside(s: seq<uint8>, layout: seq<Field>, fields: seq<seq<uint8>>,
                                           lo: nat, hi: nat, p: nat)
    requires Contiguous(layout, lo, hi) && Fits(layout, |s|) && Sized(fields, layout)
    requires p < |s| && !(lo <= p < hi)
    ensures WriteAll(s, layout, fields)[p] == s[p]
    decreases |layout|
  {
    if |layout| > 0 {
      var s' := Write(s, layout[0], fields[0]);
      var rest := layout[1..];
      assert Fits(rest, |s'|) by {
        forall i | 0 <= i < |rest| ensures rest[i].End() <= |s'| {
          assert rest[i] == layout[i + 1];
        }
      }
      assert Sized(fields[1..], rest) by {
        forall i | 0 <= i < |rest| ensures |fields[1..][i]| == rest[i].width {
          assert rest[i] == layout[i + 1];
        }
      }
      ContiguousBounds(rest, layout[0].End(), hi);
      WriteAllOutside(s', rest, fields[1..], layout[0].End(), hi, p);
    }
  }

  /** The same for every byte outside [lo, hi) at once. */
  lemma WriteAllFrame(s: seq<uint8>, layout: seq<Field>, fields: seq<seq<uint8>>, lo: nat, hi: nat)
    requires Contiguous(layout, lo, hi) && Fits(layout, |s|) && Sized(fields, layout)
    ensures forall p :: 0 <= p < |s| && !(lo <= p < hi) ==> WriteAll(s, layout, fields)[p] == s[p]
  {
    forall p | 0 <= p < |s| && !(lo <= p < hi) ensures WriteAll(s, layout, fields)[p] == s[p] {
      WriteAllOutside(s, layout, fields, lo, hi, p);
    }
  }

  /** Decoding what was just encoded gives the written fields back. */
  lemma {:induction false} SlicesOfWriteAll(s: seq<uint8>, layout: seq<Field>, fields: seq<seq<uint8>>,
                                            lo: nat, hi: nat)
    requires Contiguous(layout, lo, hi) && Fits(layout, |s|) && Sized(fields, layout)
    ensures Slices(WriteAll(s, layout, fields), layout) == fields
    decreases |layout|
  {
    if |layout| > 0 {
      var s' := Write(s, layout[0], fields[0]);
      var rest := layout[1..];
      assert Fits(rest, |s'|) by {
        forall i | 0 <= i < |rest| ensures rest[i].End() <= |s'| {
          assert rest[i] == layout[i + 1];
        }
      }
      assert Sized(fields[1..], rest) by {
        forall i | 0 <= i < |rest| ensures |fields[1..][i]| == rest[i].width {
          assert rest[i] == layout[i + 1];
        }
      }
      var r := WriteAll(s, layout, fields);
      assert r == WriteAll(s', rest, fields[1..]);
      SlicesOfWriteAll(s', rest, fields[1..], layout[0].End(), hi);
      ContiguousBounds(layout, lo, hi);
      forall p | layout[0].offset <= p < layout[0].End()
        ensures r[p] == s'[p]
      {
        WriteAllOutside(s', rest, fields[1..], layout[0].End(), hi, p);
      }
      var sl := Slices(r, layout);
      assert sl[0] == fields[0] by {
        var f := layout[0];
        assert sl[0] == Read(r, f) && |sl[0]| == |fields[0]| == f.width;
        forall k | 0 <= k < f.width ensures sl[0][k] == fields[0][k] {
          assert sl[0][k] == r[f.offset + k];
          assert r[f.offset + k] == s'[f.offset + k];
        }
      }
      forall i | 0 <= i < |layout|
        ensures sl[i] == fields[i]
      {
        if i > 0 {
          assert sl[i] == Slices(r, rest)[i - 1];
        }
      }
    }
  }

  /** Encoding the fields a buffer already holds gives the buffer back. */
  lemma {:induction false} WriteAllOfSlices(s: seq<uint8>, layout: seq<Field>)
    requires Fits(layout, |s|)
    ensures WriteAll(s, layout, Slices(s, layout)) == s
  {
    if |layout| > 0 {
      var fields := Slices(s, layout);
      var s' := Write(s, layout[0], fields[0]);
      assert s' == s;
      var rest := layout[1..];
      assert Fits(rest, |s|) by {
        forall i | 0 <= i < |rest| ensures rest[i].End() <= |s| {
          assert rest[i] == layout[i + 1];
        }
      }
      assert fields[1..] == Slices(s, rest);
      WriteAllOfSlices(s, rest);
    }
  }

  /** The decoded fields of a layout inside [lo, hi) depend on no byte
      outside [lo, hi). */
  lemma SlicesFrame(s: seq<uint8>, t: seq<uint8>, layout: seq<Field>, lo: nat, hi: nat)
    requires Contiguous(layout, lo, hi) && hi <= |s| && hi <= |t|
    requires AgreeOn(s, t, lo, hi)
    ensures Fits(layout, |s|) && Fits(layout, |t|)
    ensures Slices(s, layout) == Slices(t, layout)
  {
    ContiguousBounds(layout, lo, hi);
    forall i | 0 <= i < |layout|
      ensures Read(s, layout[i]) == Read(t, layout[i])
    {
      var f := layout[i];
      assert forall k :: 0 <= k < f.width ==> Read(s, f)[k] == s[f.offset + k];
    }
  }

  /** Two contiguous layouts, one after the other, form a contiguous layout. */
  lemma {:induction false} ContiguousAppend(a: seq<Field>, b: seq<Field>, lo: nat, mid: nat, hi: nat)
    requires Contiguous(a, lo, mid) && Contiguous(b, mid, hi)
    ensures Contiguous(a + b, lo, hi)
  {
    if |a| > 0 {
      assert (a + b)[1..] == a[1..] + b;
      ContiguousAppend(a[1..], b, a[0].End(), mid, hi);
    } else {
      assert a + b == b;
    }
  }

  /** Reading an appended layout reads both parts. */
  lemma SlicesAppend(s: seq<uint8>, a: seq<Field>, b: seq<Field>)
    requires Fits(a, |s|) && Fits(b, |s|)
    ensures Fits(a + b, |s|)
    ensures Slices(s, a + b) == Slices(s, a) + Slices(s, b)
  {
  }
}
