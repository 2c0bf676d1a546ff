/**
 * BinParser (norpix.py:74-129): reads a list of field descriptors from a file in
 * segments. `marker` is the position in the descriptor list, `offset` the byte
 * position in the file and `data` the record decoded so far.
 */
module Parser {
  import opened Results
  import opened Bytes
  import opened Fields

  /** The exceptions `readTo` raises. */
  datatype ReadError =
    | Stalled        // UserWarning "Unable to proceed in parsing.": nothing left to read
    | EmptyReduce    // TypeError: `reduce` over a composite without children
    | ShortRead      // struct.error: the file ends before the segment does
    | NotEnoughData  // IndexError "Not enough structure data to fill format callbacks."
    | UnclaimedData  // IndexError "Unclaimed structure data."

  /**
   * The fields one `readTo(place)` call reads from `remaining`: every field up to and
   * including the first one named `place`, or all of them when none is. The
   * dependency check of norpix.py:97-98 leaves only its inner loop, so it never
   * shortens the segment.
   */
  function Segment(remaining: seq<Datum>, place: Option<string>): (seg: seq<Datum>)
    ensures |seg| <= |remaining| && seg == remaining[..|seg|]
    ensures seg == [] <==> remaining == []
    ensures forall j :: 0 <= j < |seg| - 1 ==> Some(seg[j].Name()) != place
    ensures |seg| == |remaining| || Some(seg[|seg| - 1].Name()) == place
  {
    if remaining == [] then []
    else if Some(remaining[0].Name()) == place then [remaining[0]]
    else [remaining[0]] + Segment(remaining[1..], place)
  }

  /** Without a place to stop at, the segment is everything that remains. */
  lemma {:induction false} SegmentToEnd(remaining: seq<Datum>)
    ensures Segment(remaining, None) == remaining
  {
    if remaining != [] {
      SegmentToEnd(remaining[1..]);
    }
  }

  /** Queued behind an empty format, the next segment without a place is all of `fs`. */
  lemma {:induction false} QueuedSegment(format: seq<Datum>, fs: seq<Datum>)
    requires format == fs
    ensures Segment(format[0..], None) == fs
  {
    assert format[0..] == fs;
    SegmentToEnd(fs);
  }

  /** Every name `d` depends on is already in the record. */
  predicate Met(d: Datum, data: map<string, Value>)
  {
    forall x :: x in d.Depends() ==> x in data
  }

  /**
   * The segment as the docstring of `readTo` describes it (norpix.py:85-88): reading
   * also stops before the first field with an unmet dependency.
   */
  function DocumentedSegment(remaining: seq<Datum>, place: Option<string>, data: map<string, Value>): (seg: seq<Datum>)
    ensures |seg| <= |remaining| && seg == remaining[..|seg|]
    ensures forall j :: 0 <= j < |seg| ==> Met(seg[j], data)
  {
    if remaining == [] || !Met(remaining[0], data) then []
    else if Some(remaining[0].Name()) == place then [remaining[0]]
    else [remaining[0]] + DocumentedSegment(remaining[1..], place, data)
  }

  /** When every dependency is met, the code and its docstring select the same fields. */
  lemma {:induction false} SegmentWhenMet(remaining: seq<Datum>, place: Option<string>, data: map<string, Value>)
    requires forall j :: 0 <= j < |remaining| ==> Met(remaining[j], data)
    ensures Segment(remaining, place) == DocumentedSegment(remaining, place, data)
  {
    if remaining != [] && Some(remaining[0].Name()) != place {
      SegmentWhenMet(remaining[1..], place, data);
    }
  }

  /**
   * A field whose dependency is missing is read anyway: the code reads it where the
   * docstring says reading stops.
   */
  lemma {:induction false} SegmentIgnoresDepends()
    ensures var fs := [Scalar("Count", DWord, ["Missing"])];
            Segment(fs, None) == fs && DocumentedSegment(fs, None, map[]) == []
  {
    var fs := [Scalar("Count", DWord, ["Missing"])];
    assert "Missing" in fs[0].Depends();
  }

  /** What the dispatch loop (norpix.py:110-117) leaves: the record and the error, if any. */
  datatype Dispatched = Dispatched(data: map<string, Value>, error: Option<ReadError>)

  /**
   * The dispatch loop: each field in turn takes the next `count()` values and writes
   * its entries into the record; values running out, or values left over, is an error.
   * Entries written before an error stay written.
   */
  function Dispatch(fs: seq<Datum>, vs: seq<Value>, data: map<string, Value>): Dispatched
  {
    if fs == [] then Dispatched(data, if vs == [] then None else Some(UnclaimedData))
    else
      var c := fs[0].Count();
      if |vs| < c then Dispatched(data, Some(NotEnoughData))
      else Dispatch(fs[1..], vs[c..], data + Stored(Decode(fs[0], vs[..c])))
  }

  /**
   * Dispatch fails exactly when the number of values differs from the summed counts:
   * too few is "Not enough structure data", too many "Unclaimed structure data".
   */
  lemma {:induction false} DispatchError(fs: seq<Datum>, vs: seq<Value>, data: map<string, Value>)
    ensures Dispatch(fs, vs, data).error ==
              if |vs| < CountOf(fs) then Some(NotEnoughData)
              else if |vs| > CountOf(fs) then Some(UnclaimedData)
              else None
  {
    if fs != [] {
      var c := fs[0].Count();
      if |vs| >= c {
        DispatchError(fs[1..], vs[c..], data + Stored(Decode(fs[0], vs[..c])));
      }
    }
  }

  /** With exactly the right number of values, dispatch writes the fields' decodings in order. */
  lemma {:induction false} DispatchCounted(fs: seq<Datum>, vs: seq<Value>, data: map<string, Value>)
    requires |vs| == CountOf(fs)
    ensures Dispatch(fs, vs, data) == Dispatched(data + Stored(DecodeOf(fs, vs)), None)
  {
    if fs != [] {
      var c := fs[0].Count();
      var first, rest := Decode(fs[0], vs[..c]), DecodeOf(fs[1..], vs[c..]);
      DispatchCounted(fs[1..], vs[c..], data + Stored(first));
      StoredAfter(data, first, rest);
    }
  }

  /** The state a `readTo` call leaves once its segment is chosen and `marker` advanced. */
  datatype Step = Step(data: map<string, Value>, offset: nat, error: Option<ReadError>)

  /**
   * Reading the segment `seg` at byte `start` (norpix.py:104-117): build the joined
   * format, read that many bytes, unpack them, advance the offset, dispatch.
   */
  function ReadSegment(file: seq<byte>, seg: seq<Datum>, start: nat, data: map<string, Value>): Step
  {
    if !AllReducible(seg) then Step(data, start, Some(EmptyReduce))
    else
      var codes := LayoutOf(seg);
      var size := LayoutWidth(codes);
      var bytes := Read(file, start, size);
      if |bytes| != size then Step(data, start, Some(ShortRead))
      else
        var d := Dispatch(seg, Unpack(codes, bytes, 0), data);
        Step(d.data, start + size, d.error)
  }

  /**
   * A segment whose bytes are all in the file is read without error: the offset moves
   * by the summed width of its fields and each field decodes its own bytes.
   */
  lemma {:induction false} ReadSegmentInFile(file: seq<byte>, seg: seq<Datum>, start: nat, data: map<string, Value>)
    requires AllReducible(seg) && start + WidthOf(seg) <= |file|
    ensures ReadSegment(file, seg, start, data) == Step(data + Stored(FieldsAt(seg, file, start)), start + WidthOf(seg), None)
  {
    LayoutOfWidth(seg);
    var codes, size := LayoutOf(seg), WidthOf(seg);
    var bytes := file[start..start + size];
    UnpackValuesWindow(codes, file, start, start + size, 0);
    var vs := Unpack(codes, bytes, 0);
    assert vs == Unpack(codes, file, start);
    DecodeOfUnpack(seg, file, start);
    var fields := FieldsAt(seg, file, start);
    assert DecodeOf(seg, vs) == fields;
    DispatchCounted(seg, vs, data);
    var d := Dispatch(seg, vs, data);
    assert d.data == data + Stored(fields);
    assert d.error == None;
    assert Read(file, start, size) == bytes;
  }

  /** Reading a segment into an empty record from the start of the file. */
  lemma {:induction false} ReadSegmentFromStart(file: seq<byte>, seg: seq<Datum>)
    requires AllReducible(seg) && WidthOf(seg) <= |file|
    ensures ReadSegment(file, seg, 0, map[]) == Step(Stored(FieldsAt(seg, file, 0)), WidthOf(seg), None)
  {
    ReadSegmentInFile(file, seg, 0, map[]);
    var fields := Stored(FieldsAt(seg, file, 0));
    assert map[] + fields == fields;
  }

  /** A segment that runs past the end of the file fails to unpack; nothing is decoded. */
  lemma {:induction false} ReadSegmentPastEnd(file: seq<byte>, seg: seq<Datum>, start: nat, data: map<string, Value>)
    requires AllReducible(seg) && start + WidthOf(seg) > |file| && WidthOf(seg) > 0
    ensures ReadSegment(file, seg, start, data) == Step(data, start, Some(ShortRead))
  {
    LayoutOfWidth(seg);
  }

  /**
   * The segment loop of `readTo` (norpix.py:91-100): append each remaining field and
   * stop after the one named `place`.
   */
  method SelectSegment(remaining: seq<Datum>, place: Option<string>) returns (segment: seq<Datum>)
    ensures segment == Segment(remaining, place)
  {
    segment := [];
    var k := 0;
    while k < |remaining|
      invariant 0 <= k <= |remaining|
      invariant segment == remaining[..k]
      invariant forall j :: 0 <= j < k ==> Some(remaining[j].Name()) != place
    {
      var f := remaining[k];
      // The dependency scan of norpix.py:97-98 belongs here; its `break` only ends
      // that scan, so it changes nothing.
      segment := segment + [f];
      k := k + 1;
      if Some(f.Name()) == place {
        SegmentIs(remaining, place, k);
        return;
      }
    }
    SegmentIs(remaining, place, k);
  }

  /** The segment is the shortest prefix that ends with a field named `place`, else everything. */
  lemma {:induction false} SegmentIs(remaining: seq<Datum>, place: Option<string>, n: nat)
    requires n <= |remaining| && (n == 0 ==> remaining == [])
    requires forall j :: 0 <= j < n - 1 ==> Some(remaining[j].Name()) != place
    requires n == |remaining| || Some(remaining[n - 1].Name()) == place
    ensures Segment(remaining, place) == remaining[..n]
  {
    if remaining != [] && Some(remaining[0].Name()) != place {
      SegmentIs(remaining[1..], place, n - 1);
      assert remaining[..n] == [remaining[0]] + remaining[1..][..n - 1];
    }
  }

  class BinParser {
    const file: seq<byte>
    var format: seq<Datum>
    var data: map<string, Value>
    var marker: nat
    var offset: nat

    ghost predicate Valid()
      reads this
    {
      marker <= |format|
    }

    constructor (file: seq<byte>)
      ensures Valid()
      ensures this.file == file && format == [] && data == map[] && marker == 0 && offset == 0
    {
      this.file := file;
      format := [];
      data := map[];
      marker := 0;
      offset := 0;
    }

    method ExtendFormat(fs: seq<Datum>)
      requires Valid()
      modifies this`format
      ensures Valid()
      ensures format == old(format) + fs
    {
      format := format + fs;
    }

    /**
     * `readTo(place, offset)`: read the next segment. Without a segment nothing moves
     * but the offset override; otherwise `marker` passes the segment before anything
     * can fail, and the rest is ReadSegment.
     */
    method ReadTo(place: Option<string>, at: Option<nat>) returns (err: Option<ReadError>)
      requires Valid()
      modifies this`data, this`marker, this`offset
      ensures Valid()
      ensures var start := if at.Some? then at.value else old(offset);
              var seg := Segment(format[old(marker)..], place);
              if seg == [] then
                err == Some(Stalled) && marker == old(marker) && offset == start && data == old(data)
              else
                marker == old(marker) + |seg| &&
                ReadSegment(file, seg, start, old(data)) == Step(data, offset, err)
    {
      if at.Some? {
        offset := at.value;
      }
      var segment := SelectSegment(format[marker..], place);
      if segment == [] {
        return Some(Stalled);
      }
      marker := marker + |segment|;
      if !AllReducible(segment) {
        return Some(EmptyReduce);
      }
      var codes := LayoutOf(segment);
      var size := LayoutWidth(codes);
      var bytes := Read(file, offset, size);
      if |bytes| != size {
        return Some(ShortRead);
      }
      offset := offset + size;
      err := DispatchValues(segment, Unpack(codes, bytes, 0));
    }

    /**
     * The dispatch loop of `readTo` (norpix.py:110-117): each field takes the next
     * `count()` values and writes its entries into `data`.
     */
    method DispatchValues(segment: seq<Datum>, values: seq<Value>) returns (err: Option<ReadError>)
      modifies this`data
      ensures Dispatched(data, err) == Dispatch(segment, values, old(data))
    {
      var result := values;
      var i := 0;
      while i < |segment|
        invariant 0 <= i <= |segment|
        invariant Dispatch(segment[i..], result, data) == Dispatch(segment, values, old(data))
      {
        var f := segment[i];
        var count := f.Count();
        if |result| < count {
          return Some(NotEnoughData);
        }
        data := data + Stored(Decode(f, result[..count]));
        result := result[count..];
        assert segment[i..][1..] == segment[i + 1..];
        i := i + 1;
      }
      if result != [] {
        return Some(UnclaimedData);
      }
      return None;
    }

    /**
     * `checkoffset(target, ignore=...)`: whether the distance warning is printed. It is
     * printed only off target, and never for a distance listed in `ignore`.
     */
    function CheckOffset(target: int, ignore: seq<int>): (warn: bool)
      reads this
      ensures warn ==> offset != target
      ensures offset == target || offset - target in ignore ==> !warn
      ensures offset != target && offset - target !in ignore ==> warn
    {
      offset - target != 0 && offset - target !in ignore
    }
  }

  /**
   * A new parser that queues `fs` and reads all of it from offset 0, the way
   * SeqHeader.__init__ drives BinParser (norpix.py:132-152).
   */
  method ReadAll(file: seq<byte>, fs: seq<Datum>) returns (parser: BinParser, err: Option<ReadError>)
    requires fs != []
    ensures fresh(parser) && parser.Valid() && parser.file == file
    ensures parser.format == fs && parser.marker == |fs|
    ensures ReadSegment(file, fs, 0, map[]) == Step(parser.data, parser.offset, err)
  {
    parser := new BinParser(file);
    parser.ExtendFormat(fs);
    assert parser.format == fs;
    QueuedSegment(parser.format, fs);
    err := parser.ReadTo(None, None);
  }
}
