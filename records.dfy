/** The binary record store of a scene (TenkiConv/Program.cs:515-589): a
    count-prefixed array of fixed 8-field records, every field a 32-bit
    integer. The file itself is a stream of little-endian int32 values; the
    model encodes and decodes that stream of values. */
module Records {
  import opened Wrappers

  /** One record: a type tag and seven opaque fields, of which Field10 is the
      line offset and Field14 the line count of a text command. */
  datatype SptEntry = SptEntry(
    entryType: int,
    field04: int,
    field08: int,
    field0C: int,
    field10: int,
    field14: int,
    field18: int,
    field1C: int)

  // The named values of SptEntryType (Program.cs:526-539).
  const TextEntry: int := 0x01
  const BgInEntry: int := 0x07
  const BgOutEntry: int := 0x08
  const SeEntry: int := 0x0A
  const EfBEntry: int := 0x13
  const EfCEntry: int := 0x14
  const EfWaitEntry: int := 0x1D
  const EfFlagEntry: int := 0x21
  const EfSkipEntry: int := 0x24
  const BgCvEntry: int := 0x29

  const FieldsPerEntry: nat := 8

  /** The fields of one record in the order Save writes them. */
  function EntryFields(e: SptEntry): (xs: seq<int>)
    ensures |xs| == FieldsPerEntry
  {
    [e.entryType, e.field04, e.field08, e.field0C, e.field10, e.field14, e.field18, e.field1C]
  }

  function EncodeBody(es: seq<SptEntry>): (xs: seq<int>)
    ensures |xs| == FieldsPerEntry * |es|
  {
    if |es| == 0 then [] else EntryFields(es[0]) + EncodeBody(es[1..])
  }

  /** ScriptSection.Save: the record count, then every record's fields. */
  function EncodeEntries(es: seq<SptEntry>): (xs: seq<int>)
    ensures |xs| == 1 + FieldsPerEntry * |es| && xs[0] == |es|
  {
    [|es|] + EncodeBody(es)
  }

  /** The record whose eight fields start at `xs[at]`, read in the order of
      the ScriptSection constructor. */
  function DecodeEntry(xs: seq<int>, at: nat): (e: SptEntry)
    requires at + FieldsPerEntry <= |xs|
    ensures EntryFields(e) == xs[at..at + FieldsPerEntry]
  {
    SptEntry(xs[at], xs[at + 1], xs[at + 2], xs[at + 3], xs[at + 4], xs[at + 5], xs[at + 6], xs[at + 7])
  }

  /** `count` records read from `xs`; None when the stream ends first (the
      reader's EndOfStreamException). */
  function DecodeBody(xs: seq<int>, count: nat): (r: Option<seq<SptEntry>>)
    ensures r.Some? <==> FieldsPerEntry * count <= |xs|
    ensures r.Some? ==> |r.value| == count
  {
    if count == 0 then Some([])
    else if |xs| < FieldsPerEntry then None
    else
      match DecodeBody(xs[FieldsPerEntry..], count - 1)
      case Some(rest) => Some([DecodeEntry(xs, 0)] + rest)
      case None => None
  }

  /** The ScriptSection constructor's read: a count, then that many records.
      None when the stream is empty, the count is negative (the array
      allocation throws) or the stream is too short. Data after the last
      record is ignored. */
  function DecodeEntries(xs: seq<int>): (r: Option<seq<SptEntry>>)
    ensures r.Some? <==> |xs| > 0 && xs[0] >= 0 && 1 + FieldsPerEntry * xs[0] <= |xs|
    ensures r.Some? ==> |r.value| == xs[0]
  {
    if |xs| == 0 || xs[0] < 0 then None else DecodeBody(xs[1..], xs[0])
  }

  lemma {:induction false} DecodeEncodeBody(es: seq<SptEntry>, tail: seq<int>)
    ensures DecodeBody(EncodeBody(es) + tail, |es|) == Some(es)
  {
    if |es| > 0 {
      var xs := EncodeBody(es) + tail;
      assert xs[FieldsPerEntry..] == EncodeBody(es[1..]) + tail;
      DecodeEncodeBody(es[1..], tail);
      assert DecodeEntry(xs, 0) == es[0];
      assert [es[0]] + es[1..] == es;
    }
  }

  /** Reading back what Save wrote gives the same records. */
  lemma DecodeEncode(es: seq<SptEntry>)
    ensures DecodeEntries(EncodeEntries(es)) == Some(es)
  {
    assert EncodeEntries(es)[1..] == EncodeBody(es) + [];
    DecodeEncodeBody(es, []);
  }

  lemma {:induction false} EncodeDecodeBody(xs: seq<int>, count: nat)
    requires DecodeBody(xs, count).Some?
    ensures EncodeBody(DecodeBody(xs, count).value) == xs[..FieldsPerEntry * count]
  {
    if count > 0 {
      EncodeDecodeBody(xs[FieldsPerEntry..], count - 1);
      var rest := DecodeBody(xs[FieldsPerEntry..], count - 1).value;
      var es := [DecodeEntry(xs, 0)] + rest;
      assert es[1..] == rest;
      assert xs[..FieldsPerEntry * count]
          == xs[..FieldsPerEntry] + xs[FieldsPerEntry..][..FieldsPerEntry * (count - 1)];
    }
  }

  /** Saving what was read writes back the count and the records read:
      the values Save writes are the start of the stream it read. */
  lemma EncodeDecode(xs: seq<int>)
    requires DecodeEntries(xs).Some?
    ensures EncodeEntries(DecodeEntries(xs).value) == xs[..1 + FieldsPerEntry * xs[0]]
  {
    EncodeDecodeBody(xs[1..], xs[0]);
    assert xs[..1 + FieldsPerEntry * xs[0]] == [xs[0]] + xs[1..][..FieldsPerEntry * xs[0]];
  }

  /** The stored stream after Save. `File.OpenWrite` does not truncate the
      file, so the values Save writes replace the start of the old stream
      and whatever lies beyond them stays. */
  function SaveOver(stored: seq<int>, es: seq<SptEntry>): (r: seq<int>)
    ensures |r| == if |stored| > |EncodeEntries(es)| then |stored| else |EncodeEntries(es)|
    ensures DecodeEntries(r) == Some(es)
    ensures forall i :: |EncodeEntries(es)| <= i < |stored| ==> r[i] == stored[i]
  {
    var w := EncodeEntries(es);
    var r := if |stored| > |w| then w + stored[|w|..] else w;
    assert r[1..] == EncodeBody(es) + r[|w|..];
    DecodeEncodeBody(es, r[|w|..]);
    r
  }

  /** Saving what was read leaves the stored stream as it was. */
  lemma SaveAfterRead(xs: seq<int>)
    requires DecodeEntries(xs).Some?
    ensures SaveOver(xs, DecodeEntries(xs).value) == xs
  {
    EncodeDecode(xs);
    var w := EncodeEntries(DecodeEntries(xs).value);
    assert xs == xs[..|w|] + xs[|w|..];
  }
}
