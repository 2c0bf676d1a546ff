/**
 * SeqHeader (norpix.py:130-157): the sixteen fields at the start of a Norpix .seq
 * file, read in one segment from offset 0, then checked.
 */
module Header {
  import opened Results
  import opened Bytes
  import opened Fields
  import opened Parser

  /** The header schema, in file order. */
  const Schema: seq<Datum> := [
    Scalar("Magic", DWord, []),
    FixedString("Name", 24, []),
    Scalar("Version", Long, []),
    Scalar("HeaderSize", Long, []),
    FixedString("Description", 512, []),
    Scalar("Width", DWord, []),
    Scalar("Height", DWord, []),
    Scalar("BitDepth", DWord, []),
    Scalar("BitDepthReal", DWord, []),
    Scalar("ImageSizeBytes", DWord, []),
    Scalar("ImageFormat", DWord, []),
    Scalar("AllocatedFrames", DWord, []),
    Scalar("Origin", DWord, []),
    Scalar("TrueImageSize", DWord, []),
    Scalar("SuggestedFrameRate", Double, []),
    Scalar("DescriptionFormat", Long, [])
  ]

  /** Where the fields end: the offset `checkoffset` compares against. */
  const HeaderBytes := 596

  /** The little-endian unsigned 32-bit integer at `at`. */
  function U32(bs: seq<byte>, at: nat): nat
    requires at + 4 <= |bs|
  {
    Unsigned(bs[at..at + 4])
  }

  /** The little-endian signed 32-bit integer at `at`. */
  function I32(bs: seq<byte>, at: nat): int
    requires at + 4 <= |bs|
  {
    Signed(bs[at..at + 4])
  }

  /** The start of field k: the summed widths of the fields before it. */
  function StartOf(fs: seq<Datum>, k: nat): nat
    requires k <= |fs|
  {
    WidthOf(fs[..k])
  }

  /** Field k + 1 starts where field k ends. */
  lemma {:induction false} StartStep(fs: seq<Datum>, k: nat)
    requires k < |fs|
    ensures StartOf(fs, k + 1) == StartOf(fs, k) + fs[k].Width()
  {
    assert fs[..k + 1] == fs[..k] + [fs[k]];
    WidthOfAppend(fs[..k], [fs[k]]);
  }

  /** The widths of the header fields, in order. */
  const Widths: seq<nat> := [4, 24, 4, 4, 512, 4, 4, 4, 4, 4, 4, 4, 4, 4, 8, 4]

  /** The sum of the first k widths. */
  function SumTo(ws: seq<nat>, k: nat): nat
    requires k <= |ws|
  {
    if k == 0 then 0 else SumTo(ws, k - 1) + ws[k - 1]
  }

  /** Fields of the given widths start at the running sums of those widths. */
  lemma {:induction false} StartsAreSums(fs: seq<Datum>, ws: seq<nat>, k: nat)
    requires |fs| == |ws| && k <= |fs|
    requires forall j :: 0 <= j < |fs| ==> fs[j].Width() == ws[j]
    ensures StartOf(fs, k) == SumTo(ws, k)
  {
    if k == 0 {
      assert fs[..0] == [];
    } else {
      StartsAreSums(fs, ws, k - 1);
      StartStep(fs, k - 1);
    }
  }

  lemma {:induction false} SchemaWidths()
    ensures |Schema| == |Widths|
    ensures forall k :: 0 <= k < |Schema| ==> Schema[k].Width() == Widths[k]
  {
  }

  /**
   * Where the header fields start: Magic at 0, Name at 4, Version at 28, HeaderSize
   * at 32, Description at 36, Width at 548 and the other 32-bit fields every 4 bytes
   * up to TrueImageSize at 580, SuggestedFrameRate at 584, DescriptionFormat at 592;
   * the schema ends at byte 596.
   */
  lemma {:induction false} SchemaOffsets()
    ensures SumTo(Widths, 0) == 0
    ensures SumTo(Widths, 1) == 4
    ensures SumTo(Widths, 2) == 28
    ensures SumTo(Widths, 3) == 32
    ensures SumTo(Widths, 4) == 36
    ensures SumTo(Widths, 5) == 548
    ensures SumTo(Widths, 6) == 552
    ensures SumTo(Widths, 7) == 556
    ensures SumTo(Widths, 8) == 560
    ensures SumTo(Widths, 9) == 564
    ensures SumTo(Widths, 10) == 568
    ensures SumTo(Widths, 11) == 572
    ensures SumTo(Widths, 12) == 576
    ensures SumTo(Widths, 13) == 580
    ensures SumTo(Widths, 14) == 584
    ensures SumTo(Widths, 15) == 592
    ensures SumTo(Widths, 16) == 596
  {
  }

  /** The schema is 596 bytes wide, and so is its joined format. */
  lemma {:induction false} SchemaLayout()
    ensures WidthOf(Schema) == HeaderBytes
    ensures LayoutWidth(LayoutOf(Schema)) == HeaderBytes
  {
    SchemaWidths();
    StartsAreSums(Schema, Widths, |Schema|);
    SchemaOffsets();
    assert Schema[..|Schema|] == Schema;
    LayoutOfWidth(Schema);
  }

  /** Every header field is a single scalar or string: none is a composite or padding. */
  lemma {:induction false} SchemaSimple()
    ensures forall k :: 0 <= k < |Schema| ==> Simple(Schema[k])
    ensures AllReducible(Schema)
  {
  }

  /** No two header fields share a name, so no entry of the record is overwritten. */
  lemma {:induction false} SchemaNamesDistinct()
    ensures forall i, j :: 0 <= i < j < |Schema| ==> Schema[i].Name() != Schema[j].Name()
  {
  }

  /** The record the schema decodes from the bytes of a file at least a header long. */
  function Record(bs: seq<byte>): map<string, Value>
    requires |bs| >= HeaderBytes
  {
    SchemaLayout();
    Stored(FieldsAt(Schema, bs, 0))
  }

  /** The entry of header field k is what that field decodes from its own bytes. */
  lemma {:induction false} SchemaEntry(bs: seq<byte>, k: nat)
    requires |bs| >= HeaderBytes && k < |Schema|
    ensures Simple(Schema[k]) && SumTo(Widths, k) + Schema[k].Width() <= |bs|
    ensures Schema[k].Name() in Record(bs)
    ensures Record(bs)[Schema[k].Name()] == SimpleValue(Schema[k], bs, SumTo(Widths, k))
  {
    SchemaLayout();
    SchemaWidths();
    SchemaSimple();
    SchemaNamesDistinct();
    StartsAreSums(Schema, Widths, k);
    FieldsAtLookup(Schema, bs, 0, k, Schema[k].Name(), SumTo(Widths, k));
  }

  /** A DWord field stores the unsigned little-endian integer at its start. */
  lemma {:induction false} DWordValue(d: Datum, bs: seq<byte>, at: nat)
    requires d.Scalar? && d.kind == DWord && at + 4 <= |bs|
    ensures d.Width() == 4 && SimpleValue(d, bs, at) == IntVal(U32(bs, at))
  {
  }

  /** A Long field stores the signed little-endian integer at its start. */
  lemma {:induction false} LongValue(d: Datum, bs: seq<byte>, at: nat)
    requires d.Scalar? && d.kind == Long && at + 4 <= |bs|
    ensures d.Width() == 4 && SimpleValue(d, bs, at) == IntVal(I32(bs, at))
  {
  }

  /** A Double field keeps its eight raw bytes. */
  lemma {:induction false} DoubleValue(d: Datum, bs: seq<byte>, at: nat)
    requires d.Scalar? && d.kind == Double && at + 8 <= |bs|
    ensures d.Width() == 8 && SimpleValue(d, bs, at) == FloatVal(bs[at..at + 8])
  {
  }

  /** A string field stores its bytes up to the first NUL. */
  lemma {:induction false} StringValue(d: Datum, bs: seq<byte>, at: nat)
    requires d.FixedString? && at + d.bytes <= |bs|
    ensures d.Width() == d.bytes
    ensures SimpleValue(d, bs, at) == BytesVal(Truncated(bs[at..at + d.bytes]))
  {
    assert d.Layout() == Cons(Chars(d.bytes), Nil);
    assert LayoutWidth(d.Layout()) == d.bytes;
  }

  /** Header fields 0 to 3, as HeaderRecord states them. */
  lemma {:induction false} HeaderRecord4(bs: seq<byte>)
    requires |bs| >= HeaderBytes
    ensures "Magic" in Record(bs) && Record(bs)["Magic"] == IntVal(U32(bs, 0))
    ensures "Name" in Record(bs) && Record(bs)["Name"] == BytesVal(Truncated(bs[4..28]))
    ensures "Version" in Record(bs) && Record(bs)["Version"] == IntVal(I32(bs, 28))
    ensures "HeaderSize" in Record(bs) && Record(bs)["HeaderSize"] == IntVal(I32(bs, 32))
  {
    SchemaOffsets();
    SchemaEntry(bs, 0);
    DWordValue(Schema[0], bs, 0);
    SchemaEntry(bs, 1);
    StringValue(Schema[1], bs, 4);
    SchemaEntry(bs, 2);
    LongValue(Schema[2], bs, 28);
    SchemaEntry(bs, 3);
    LongValue(Schema[3], bs, 32);
  }

  /** Header fields 4 to 7, as HeaderRecord states them. */
  lemma {:induction false} HeaderRecord8(bs: seq<byte>)
    requires |bs| >= HeaderBytes
    ensures "Description" in Record(bs) && Record(bs)["Description"] == BytesVal(Truncated(bs[36..548]))
    ensures "Width" in Record(bs) && Record(bs)["Width"] == IntVal(U32(bs, 548))
    ensures "Height" in Record(bs) && Record(bs)["Height"] == IntVal(U32(bs, 552))
    ensures "BitDepth" in Record(bs) && Record(bs)["BitDepth"] == IntVal(U32(bs, 556))
  {
    SchemaOffsets();
    SchemaEntry(bs, 4);
    StringValue(Schema[4], bs, 36);
    SchemaEntry(bs, 5);
    DWordValue(Schema[5], bs, 548);
    SchemaEntry(bs, 6);
    DWordValue(Schema[6], bs, 552);
    SchemaEntry(bs, 7);
    DWordValue(Schema[7], bs, 556);
  }

  /** Header fields 8 to 11, as HeaderRecord states them. */
  lemma {:induction false} HeaderRecord12(bs: seq<byte>)
    requires |bs| >= HeaderBytes
    ensures "BitDepthReal" in Record(bs) && Record(bs)["BitDepthReal"] == IntVal(U32(bs, 560))
    ensures "ImageSizeBytes" in Record(bs) && Record(bs)["ImageSizeBytes"] == IntVal(U32(bs, 564))
    ensures "ImageFormat" in Record(bs) && Record(bs)["ImageFormat"] == IntVal(U32(bs, 568))
    ensures "AllocatedFrames" in Record(bs) && Record(bs)["AllocatedFrames"] == IntVal(U32(bs, 572))
  {
    SchemaOffsets();
    SchemaEntry(bs, 8);
    DWordValue(Schema[8], bs, 560);
    SchemaEntry(bs, 9);
    DWordValue(Schema[9], bs, 564);
    SchemaEntry(bs, 10);
    DWordValue(Schema[10], bs, 568);
    SchemaEntry(bs, 11);
    DWordValue(Schema[11], bs, 572);
  }

  /** Header fields 12 to 15, as HeaderRecord states them. */
  lemma {:induction false} HeaderRecord16(bs: seq<byte>)
    requires |bs| >= HeaderBytes
    ensures "Origin" in Record(bs) && Record(bs)["Origin"] == IntVal(U32(bs, 576))
    ensures "TrueImageSize" in Record(bs) && Record(bs)["TrueImageSize"] == IntVal(U32(bs, 580))
    ensures "SuggestedFrameRate" in Record(bs) && Record(bs)["SuggestedFrameRate"] == FloatVal(bs[584..592])
    ensures "DescriptionFormat" in Record(bs) && Record(bs)["DescriptionFormat"] == IntVal(I32(bs, 592))
  {
    SchemaOffsets();
    SchemaEntry(bs, 12);
    DWordValue(Schema[12], bs, 576);
    SchemaEntry(bs, 13);
    DWordValue(Schema[13], bs, 580);
    SchemaEntry(bs, 14);
    DoubleValue(Schema[14], bs, 584);
    SchemaEntry(bs, 15);
    LongValue(Schema[15], bs, 592);
  }

  /**
   * The header record field by field: the 32-bit integers are read little-endian at
   * their offsets (Version, HeaderSize and DescriptionFormat signed, the others
   * unsigned), the two strings are cut at their first NUL, and the frame rate keeps
   * its eight raw bytes.
   */
  lemma {:induction false} HeaderRecord(bs: seq<byte>)
    requires |bs| >= HeaderBytes
    ensures "Magic" in Record(bs) && Record(bs)["Magic"] == IntVal(U32(bs, 0))
    ensures "Name" in Record(bs) && Record(bs)["Name"] == BytesVal(Truncated(bs[4..28]))
    ensures "Version" in Record(bs) && Record(bs)["Version"] == IntVal(I32(bs, 28))
    ensures "HeaderSize" in Record(bs) && Record(bs)["HeaderSize"] == IntVal(I32(bs, 32))
    ensures "Description" in Record(bs) && Record(bs)["Description"] == BytesVal(Truncated(bs[36..548]))
    ensures "Width" in Record(bs) && Record(bs)["Width"] == IntVal(U32(bs, 548))
    ensures "Height" in Record(bs) && Record(bs)["Height"] == IntVal(U32(bs, 552))
    ensures "BitDepth" in Record(bs) && Record(bs)["BitDepth"] == IntVal(U32(bs, 556))
    ensures "BitDepthReal" in Record(bs) && Record(bs)["BitDepthReal"] == IntVal(U32(bs, 560))
    ensures "ImageSizeBytes" in Record(bs) && Record(bs)["ImageSizeBytes"] == IntVal(U32(bs, 564))
    ensures "ImageFormat" in Record(bs) && Record(bs)["ImageFormat"] == IntVal(U32(bs, 568))
    ensures "AllocatedFrames" in Record(bs) && Record(bs)["AllocatedFrames"] == IntVal(U32(bs, 572))
    ensures "Origin" in Record(bs) && Record(bs)["Origin"] == IntVal(U32(bs, 576))
    ensures "TrueImageSize" in Record(bs) && Record(bs)["TrueImageSize"] == IntVal(U32(bs, 580))
    ensures "SuggestedFrameRate" in Record(bs) && Record(bs)["SuggestedFrameRate"] == FloatVal(bs[584..592])
    ensures "DescriptionFormat" in Record(bs) && Record(bs)["DescriptionFormat"] == IntVal(I32(bs, 592))
  {
    HeaderRecord4(bs);
    HeaderRecord8(bs);
    HeaderRecord12(bs);
    HeaderRecord16(bs);
  }

  /** Why opening the header fails. */
  datatype HeaderError =
    | ReadFailed(error: ReadError)  // the fields could not be read (struct.error: file too short)
    | WrongHeaderSize               // AssertionError: HeaderSize is not 1024
    | NotMono                       // IOError "Only uncompressed mono images are supported"

  /**
   * What SeqHeader makes of a file: the header record when the file holds all 596
   * header bytes, declares a 1024-byte header and uncompressed mono images (image
   * format 100); otherwise the first of those checks that fails.
   */
  function HeaderSpec(file: seq<byte>): Result<map<string, Value>, HeaderError>
  {
    if |file| < HeaderBytes then Failure(ReadFailed(ShortRead))
    else if I32(file, 32) != 1024 then Failure(WrongHeaderSize)
    else if U32(file, 568) != 100 then Failure(NotMono)
    else Success(Record(file))
  }

  /**
   * The checks of HeaderSpec, made on the record's own entries as `__init__` makes
   * them (norpix.py:155-157).
   */
  lemma {:induction false} CheckedEntries(file: seq<byte>)
    requires |file| >= HeaderBytes
    ensures "HeaderSize" in Record(file) && "ImageFormat" in Record(file)
    ensures HeaderSpec(file) ==
              if Record(file)["HeaderSize"] != IntVal(1024) then Failure(WrongHeaderSize)
              else if Record(file)["ImageFormat"] != IntVal(100) then Failure(NotMono)
              else Success(Record(file))
  {
    HeaderRecord(file);
  }

  /** An accepted header records a 1024-byte header and image format 100. */
  lemma {:induction false} AcceptedHeader(file: seq<byte>)
    requires HeaderSpec(file).Success?
    ensures "HeaderSize" in HeaderSpec(file).value && HeaderSpec(file).value["HeaderSize"] == IntVal(1024)
    ensures "ImageFormat" in HeaderSpec(file).value && HeaderSpec(file).value["ImageFormat"] == IntVal(100)
  {
    HeaderRecord(file);
  }

  /** Reading the whole schema from offset 0 of a file that holds it. */
  lemma {:induction false} ReadHeaderInFile(file: seq<byte>)
    requires |file| >= HeaderBytes
    ensures ReadSegment(file, Schema, 0, map[]) == Step(Record(file), HeaderBytes, None)
  {
    SchemaLayout();
    SchemaSimple();
    ReadSegmentFromStart(file, Schema);
  }

  /** Reading the whole schema from offset 0 of a file shorter than the header. */
  lemma {:induction false} ReadHeaderShort(file: seq<byte>)
    requires |file| < HeaderBytes
    ensures ReadSegment(file, Schema, 0, map[]) == Step(map[], 0, Some(ShortRead))
  {
    SchemaLayout();
    SchemaSimple();
    ReadSegmentPastEnd(file, Schema, 0, map[]);
  }

  /** What the one readTo call of SeqHeader leaves behind. */
  lemma {:induction false} HeaderStep(file: seq<byte>, data: map<string, Value>, offset: nat, err: Option<ReadError>)
    requires ReadSegment(file, Schema, 0, map[]) == Step(data, offset, err)
    ensures err.None? <==> |file| >= HeaderBytes
    ensures err.Some? ==> err == Some(ShortRead)
    ensures err.None? ==> data == Record(file) && offset == HeaderBytes
  {
    if |file| < HeaderBytes {
      ReadHeaderShort(file);
    } else {
      ReadHeaderInFile(file);
    }
  }

  /**
   * SeqHeader.__init__ (norpix.py:132-157): queue the schema, read all of it from
   * offset 0, compare the offset reached with 596, then check the header size and
   * the image format. `warned` is whether checkoffset printed its warning.
   */
  method ParseHeader(file: seq<byte>) returns (r: Result<map<string, Value>, HeaderError>, warned: bool)
    ensures r == HeaderSpec(file)
    ensures !warned
  {
    assert Schema != [];
    var parser, err := ReadAll(file, Schema);
    HeaderStep(file, parser.data, parser.offset, err);
    if err.Some? {
      return Failure(ReadFailed(err.value)), false;
    }
    warned := parser.CheckOffset(HeaderBytes, []);
    assert !warned;
    var d := parser.data;
    CheckedEntries(file);
    if d["HeaderSize"] != IntVal(1024) {
      return Failure(WrongHeaderSize), warned;
    }
    if d["ImageFormat"] != IntVal(100) {
      return Failure(NotMono), warned;
    }
    return Success(d), warned;
  }
}
