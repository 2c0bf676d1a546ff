# Norpix .seq reader, modelled in Dafny

This project models `norpix.py`, a reader for Norpix StreamPix `.seq` movie files.
A `.seq` file starts with a fixed binary header. Then come frames of raw pixels, each
followed by a 6-byte timestamp. The model covers the reader's four layers:

- **Field descriptors** (`fields.dfy`, module `Fields`): the `BinDatum` family.
  - Each descriptor has a little-endian `struct` layout (`fstr()`) and a number of
    values it consumes (`count()`).
  - Each one also has a decoding of those values into named record entries (`fcb()`).
  - Scalars, NUL-terminated strings, padding (`BinPad`, `BinNull`, `BinIgnore`),
    composites (`BinMeta`) and arrays (`BinArray`) are covered.
  - A decoding is an `Entries` list of writes, in order. `Stored` turns it into the
    dictionary the code fills, where the last write to a key wins.
- **The binary parser** (`parser.dfy`, module `Parser`): `BinParser`, a class whose
  `format`, `data`, `marker` and `offset` fields are updated in place.
  - `readTo` selects a segment of descriptors, reads and unpacks their joined format,
    and hands each descriptor its values.
  - `checkoffset` decides whether to warn.
- **The header** (`header.dfy`, module `Header`): `SeqHeader`. It defines the
  sixteen-field schema, the 596 bytes it occupies, the entry each field stores, and
  the checks on the header size and the image format.
- **Frames** (`frames.dfy`, module `Frames`): `SeqFile`, `FilterILI` and
  `SeqImageFloat`.
  - It covers the image offset chosen by the version and the frame count computed
    from the file size.
  - It covers indexing (the `fromfile` read, the reshape check and the `<LH`
    timestamp), `len` and iteration.
  - It covers the pass-through and normalising views.
- `bytes.dfy` holds little-endian integer decoding and the bytes a `seek` and `read`
  return. `native.dfy` models `struct.calcsize` without the `<` prefix, which two
  descriptors use to size their padding.

Each source function has a definition in the model, and the lemmas in the table below state its properties:
- `fstr` and `count` are `Fields.Datum.Layout` and `Fields.Datum.Count`. `length` is `Native.CalcSize` of that layout, native alignment included. The model reads each field by its standard size `Fields.Datum.Width` instead (see Left out). `fcb` is `Fields.Decode`. `struct.unpack` is `Fields.Unpack`.
- The body of `readTo` is `Parser.Segment`, `Parser.ReadSegment` and `Parser.Dispatch`. `checkoffset` is `Parser.BinParser.CheckOffset`.
- `SeqHeader` is `Header.HeaderSpec`.
- `SeqFile.__init__` is `Frames.OpenCheck`, `Frames.ImageOffset` and `Frames.ImageCount`. `__getitem__` is `Frames.SeqFile.Get` over `Frames.FrameStart`, `Frames.FromFile` and `Frames.ReadFrame`, and `__len__` is `Frames.SeqFile.Len`.
- `SeqImageFloat.filter` is `Frames.Normalise` over `Frames.Scale`.
- Unprefixed `struct.calcsize` is `Native.CalcSize`, and the padding it gives is `Native.PadWidthAsWritten`.

`SeqFile`, its iteration and the two views run on the code as written. `Frames.SeqFile.Get` hands `fromfile` a byte count, and `imfloat` divides by 255. The evidently intended forms are separate members, each with its property proved: `Frames.SeqFile.GetCorrected` and a float view built with the file's own full scale (see Findings). The field engine uses standard padding widths, as the Left out section notes.

The model follows the code where the code and its documentation differ:

- `readTo`'s docstring says reading stops at an unmet dependency. The `break` at
  norpix.py:98 only leaves the inner loop over dependencies, so the code reads the
  field anyway. `Parser.Segment` models the code. `Parser.DocumentedSegment` models
  the docstring. `Parser.SegmentWhenMet` proves the two agree when every dependency is
  met, and `Parser.SegmentIgnoresDepends` shows where they part.
- `__getitem__` does not reject a negative index (`Frames.NegativeIndexReadsBeforeFrames`).
- `imageCount` subtracts the header size even for version 5 files, whose frames start
  at 8192 (`Frames.Version5Count`, `Frames.Version5LastFrameOverruns`).
- Integer division is Python 2's, which floors. Dafny's `/` agrees for a positive
  divisor.

## Model

| member | source | states |
|---|---|---|
| Bytes.Unsigned | norpix.py:220-222 | the little-endian unsigned value of n bytes is below 256^n |
| Bytes.Signed | norpix.py:227-229 | the two's-complement value of n bytes lies in [-256^n/2, 256^n/2) and is the unsigned value, or that minus 256^n |
| Bytes.UnsignedOfEncode | norpix.py:220-222 | decoding the w-byte little-endian encoding of any n < 256^w gives back n |
| Bytes.EncodeOfUnsigned | norpix.py:220-222 | encoding the decoded value of any bytes in as many bytes gives back those bytes |
| Bytes.Read | norpix.py:106-107 | `seek(at)` then `read(n)` returns at most n bytes. It returns exactly n iff n is 0 or the file holds them, and then they are the file's bytes from `at` |
| Fields.JoinSizes | norpix.py:104-105 | the width and the value count of a concatenated format are the sums of its parts' |
| Fields.UnpackValuesJoin | norpix.py:104-108 | unpacking a concatenated format unpacks the first part, then the second part from where the first ends |
| Fields.UnpackJoin | norpix.py:104-108 | the same, on the sequence of values `struct.unpack` returns |
| Fields.RepeatSizes | norpix.py:308-312 | n copies of one code are n times its width, and give n values unless they are pad bytes |
| Fields.LayoutCount | norpix.py:191-200 | every descriptor's `count()` is the number of values its `fstr()` yields, so `fcb` is handed exactly its values |
| Fields.LayoutOfWidth | norpix.py:104-105 | the width of a segment's joined format is the sum of its descriptors' widths |
| Fields.FirstNulIsFirst | norpix.py:264-266 | the cut position is the index of the first NUL, or the length when there is none. No byte before it is NUL |
| Fields.TruncatedIsPrefix | norpix.py:264-267 | a string field stores a NUL-free prefix of its bytes. That prefix is all of them, or is followed by a NUL |
| Fields.StoredConcat | norpix.py:110-117 | writing two runs of entries in order gives the union of their dictionaries, the later run winning |
| Fields.StoredLookup | norpix.py:204-205 | a key is in the dictionary iff some write names it, and its value is the last such write's |
| Fields.StoredAfter | norpix.py:110-117 | writing one run of entries after another into a dictionary equals writing their concatenation |
| Fields.PrefixedEntries | norpix.py:306-307 | a composite stores each entry k of its members under "name.k" with the same value, and nothing else |
| Fields.Elements | norpix.py:318-321 | an array's list has one element per value |
| Fields.ElementsAt | norpix.py:313-321 | element k of an array's list is value k decoded by the element class |
| Fields.DecodeOfUnpack | norpix.py:104-117 | unpacking a segment's joined format once and handing each descriptor the next `count()` values gives every descriptor exactly the values of its own bytes |
| Fields.DecodeSimple | norpix.py:201-205 | a scalar or string descriptor writes exactly one entry, under its own name, read from its own bytes |
| Fields.FieldsAtMissing | norpix.py:204-205 | scalar and string descriptors none of which is named `key` store nothing under `key` |
| Fields.FieldsAtLast | norpix.py:110-117 | what a run of scalar and string descriptors stores under `key` is what its last descriptor of that name writes |
| Fields.FieldsAtLookup | norpix.py:110-117 | in a run of scalar and string descriptors, the entry under `key` is the value the last descriptor named `key` reads from its own bytes, which start after the widths of the descriptors before it |
| Fields.PaddingStoresNothing | norpix.py:244-249 | padding consumes no values and stores nothing |
| Fields.IgnoreKeepsWidth | norpix.py:268-278 | `BinIgnore` is as wide as the datum it wraps and has its dependencies. It consumes no values and is named `_PAD` |
| Fields.NullKeepsWidth | norpix.py:250-256 | `BinNull(cls)` is as wide as one `cls` field, has no dependencies and consumes no values |
| Fields.MetaSizes | norpix.py:294-297 | a composite's count and width are the sums over its members |
| Fields.MetaQualifies | norpix.py:300-307 | a composite stores each member entry k under "name.k", and every key it stores has that form |
| Fields.ArrayList | norpix.py:308-321 | an array stores one list under its name. The list holds n elements, element k being value k decoded, and the array is n elements wide |
| Native.AlignUp | norpix.py:193-194 | native alignment moves an item to the first multiple of its alignment at or after the current offset: never back, by less than the alignment, onto a multiple of it |
| Native.NativeMatchesStandard | norpix.py:193-194 | for layouts of bytes, characters and strings, native `calcsize` equals the standard width |
| Native.PadWidthAgreesWhenUnaligned | norpix.py:276-277 | `BinIgnore` of such a layout pads exactly the datum's width |
| Native.IgnoreOfByteWord | norpix.py:276-277 | `BinIgnore` of a byte and a word pads 4 bytes where the datum is 3 wide, on every platform |
| Native.DWordPadOnLP64 | norpix.py:250-256 | on 64-bit Linux, `BinNull(BinDWord)` and `BinIgnore` of a DWord pad 8 bytes where the field is 4 wide |
| Parser.Segment | norpix.py:91-100 | a segment is a prefix of the remaining descriptors. It is empty only when nothing remains. No descriptor before its last is named `place`, and it is everything or ends at `place` |
| Parser.SegmentToEnd | norpix.py:84-88 | without `place`, the segment is everything that remains |
| Parser.DocumentedSegment | norpix.py:85-88 | the documented segment is a prefix, and every dependency of its descriptors is met |
| Parser.SegmentWhenMet | norpix.py:85-100 | when every dependency is met, the code and its docstring select the same segment |
| Parser.SegmentIgnoresDepends | norpix.py:96-99 | a descriptor with a missing dependency is read, though the docstring says reading stops there |
| Parser.DispatchError | norpix.py:110-117 | dispatch fails iff the value count differs from the summed `count()`s: too few is "Not enough structure data", too many "Unclaimed structure data" |
| Parser.DispatchCounted | norpix.py:110-117 | with exactly the right number of values, dispatch succeeds and writes the descriptors' decodings in order |
| Parser.ReadSegmentInFile | norpix.py:104-117 | a segment that lies inside the file is read without error. The offset moves by its width and each descriptor decodes its own bytes |
| Parser.ReadSegmentFromStart | norpix.py:104-117 | the same, from offset 0 into an empty record |
| Parser.ReadSegmentPastEnd | norpix.py:106-108 | a segment running past the end of the file fails to unpack. Nothing is decoded and the offset stays |
| Parser.SelectSegment | norpix.py:91-100 | the segment loop returns `Segment` |
| Parser.BinParser.constructor | norpix.py:76-81 | a new parser has an empty format and record, marker 0 and offset 0 |
| Parser.BinParser.ExtendFormat | norpix.py:82-83 | the descriptors are appended to the format |
| Parser.BinParser.ReadTo | norpix.py:84-117 | with nothing to read it raises "Unable to proceed", applying only the offset override. Otherwise the marker passes the segment and the record, offset and error are those of reading the segment at the offset |
| Parser.BinParser.DispatchValues | norpix.py:110-117 | the dispatch loop leaves the record and the error `Dispatch` defines |
| Parser.ReadAll | norpix.py:132-153 | a new parser that queues the descriptors and reads them all from offset 0 ends with those descriptors as its format, its marker past all of them, and the record, offset and error `ReadSegment` gives |
| Header.SchemaWidths | norpix.py:135-152 | the header fields are 4, 24, 4, 4, 512, eight times 4, then 4, 8 and 4 bytes wide |
| Header.SchemaOffsets | norpix.py:135-152 | the header fields start at 0, 4, 28, 32, 36, 548, ..., 580, 584 and 592, and end at 596 |
| Header.SchemaLayout | norpix.py:135-154 | the schema and its joined format are 596 bytes wide, the offset `checkoffset` expects |
| Header.SchemaSimple | norpix.py:135-152 | every header field is a scalar or a string |
| Header.SchemaNamesDistinct | norpix.py:135-152 | no two header fields share a name |
| Header.SchemaEntry | norpix.py:135-153 | header field k's entry is what it reads from its own bytes at its offset |
| Header.DWordValue | norpix.py:220-222 | a DWord field stores the unsigned 32-bit integer at its offset |
| Header.LongValue | norpix.py:227-229 | a Long field stores the signed 32-bit integer at its offset |
| Header.DoubleValue | norpix.py:234-236 | a Double field stores its 8 bytes |
| Header.StringValue | norpix.py:257-267 | a string field stores its bytes up to the first NUL |
| Header.HeaderRecord | norpix.py:135-153 | each of the sixteen header entries is the integer, string or raw double at its offset |
| Header.CheckedEntries | norpix.py:155-157 | the header is rejected iff HeaderSize is not 1024 (AssertionError) or ImageFormat is not 100 (IOError), checked in that order |
| Header.AcceptedHeader | norpix.py:155-157 | an accepted header records HeaderSize 1024 and ImageFormat 100 |
| Header.ReadHeaderInFile | norpix.py:153 | reading the schema from a file of at least 596 bytes succeeds, yields the header record and ends at offset 596 |
| Header.ReadHeaderShort | norpix.py:153 | reading the schema from a shorter file fails to unpack and decodes nothing |
| Header.HeaderStep | norpix.py:153-154 | the header read succeeds iff the file holds 596 bytes. Failure is always the short read |
| Header.ParseHeader | norpix.py:132-157 | `SeqHeader` returns the header record or the first failing check. `checkoffset(596)` never warns: a read that succeeds ends at 596, and a read that fails raises before the check |
| Frames.ImageCountBounds | norpix.py:52 | the frame count is the number of whole frame blocks after the header size, rounded down |
| Frames.ImageCountOfFrames | norpix.py:52 | a file of exactly k blocks after the header counts k frames, and with one byte fewer it counts k - 1 |
| Frames.FromFileCount | norpix.py:66 | `fromfile` reads the requested number of items, or as many whole items as the file still holds |
| Frames.FromFileItem | norpix.py:66 | item k that `fromfile` reads is the little-endian integer at pos + k * itemsize |
| Frames.FromFileComplete | norpix.py:66 | when the file holds all n items, `fromfile` reads n |
| Frames.Seconds | norpix.py:68 | the timestamp in seconds lies within a second of its whole seconds when the milliseconds are below 1000 |
| Frames.ReadFrameInFile | norpix.py:65-68 | a frame inside the file is read. Pixel k is the item at k * itemsize from the frame's start, then come the u32 seconds and u16 milliseconds |
| Frames.SeqFile.constructor | norpix.py:31-56 | the attributes are read from the accepted header and the frame layout invariant holds. The float view `imfloat` is a new view of this file with the default full scale 255 |
| Frames.SeqFile.Iterate | norpix.py:69-73 | `len` fails when `imageCount` is negative. Otherwise iteration yields what indexing, as written, returns for frames 0, 1, ... in order. It yields all `imageCount` of them, or stops where indexing first fails with that error |
| Frames.AttributesFromHeader | norpix.py:37-52 | height, width, bit depths, version, block size and pixel byte count are the header's entries, and the header size is 1024 |
| Frames.Open | norpix.py:31-56 | opening fails iff the header fails, TrueImageSize is 0 or the bit depth has no numpy dtype, and it reports the first such failure. Otherwise the file is a new object, open on the header record, whose `imfloat` is a new float view of it with full scale 255 |
| Frames.GetRejects | norpix.py:57-66 | indexing rejects a fractional index with "Frame numbers can only be integers" before anything else, then an index at or past the frame count with "Frame number is out of range". Every other index reads ImageSizeBytes items at its frame's start |
| Frames.FramesInFile | norpix.py:46-52 | outside version 5, every frame the count admits lies inside the file |
| Frames.Version5Count | norpix.py:46-52 | a version 5 file with k frames after offset 8192 counts k + 7168 / TrueImageSize frames |
| Frames.Version5LastFrameOverruns | norpix.py:46-52 | in a version 5 file with frames of at most 7168 bytes, the last counted frame runs past the end of the file |
| Frames.NegativeIndexReadsBeforeFrames | norpix.py:61-66 | a negative index passes the checks and reads a block that ends before the first frame |
| Frames.GetReadsFrame | norpix.py:57-68 | with the corrected item count, indexing frame i of a well-formed file, whose block lies inside the file, returns height * width pixels. Pixel k is the item at k * itemsize from the frame's start, and the timestamp follows them |
| Frames.ByteCountOverreads | norpix.py:66 | handed the byte count as item count, `fromfile` reads more than height * width items of 2 or more bytes whenever the file holds at least one more item after the pixels, so reshape fails |
| Frames.ByteCountAlwaysFails | norpix.py:66-67 | handed the byte count as item count, reading a frame of items 2 or more bytes wide always fails, wherever it lies. Either reshape fails, or `fromfile` found exactly height * width items only because it stopped at the end of the file, and the 6-byte timestamp read that follows comes back short |
| Frames.GetAsWrittenRejectsWidePixels | norpix.py:55-67 | as written, every in-range frame of a well-formed file with 2 or more bytes per pixel fails, in reshape or in the timestamp read. When the frame's block lies inside the file and holds the pixels and timestamp, the corrected read succeeds |
| Frames.GetAsWrittenAgreesOnBytePixels | norpix.py:66 | with one byte per pixel, the code as written reads the same frames as the corrected read |
| Frames.ScaleUnit | norpix.py:178-179 | dividing by a positive full scale maps a pixel into [0, 1] iff it is at most the full scale, and maps the full scale to 1 |
| Frames.FilterILI.constructor | norpix.py:162-163 | the view wraps its source |
| Frames.FilterILI.Iterate | norpix.py:170-171 | iteration yields the view's frames 0, 1, ... in order: what the source's indexing returns, as written, filtered. It runs up to `len` or up to the first failure |
| Frames.FilterPassesThrough | norpix.py:164-169 | the pass-through view indexes and measures exactly as its source |
| Frames.SeqImageFloat.constructor | norpix.py:175-177 | the float view wraps its source with the given full scale |
| Frames.SeqImageFloat.Iterate | norpix.py:170-179 | iteration yields the source's frames 0, 1, ... in order, as its indexing returns them as written, each divided by the view's full scale. It runs up to `len` or up to the first failure |
| Frames.FloatViewNormalised | norpix.py:40-43 | a float view built with the file's full scale 2^BitDepthReal - 1 maps the frames of the corrected read as follows. Every pixel within the real bit depth lands in [0, 1], full scale lands on 1, and timestamps are kept |
| Frames.DefaultFullscaleOverflows | norpix.py:175-179 | dividing by the default 255, any pixel above 255 lands above 1, and a full 16-bit pixel lands on 257 |
| Frames.FullscaleAboveDefault | norpix.py:40 | a real bit depth above 8 gives a full scale above 255 |
| Frames.ImfloatOverflows | norpix.py:43 | in the float view `__init__` attaches, every pixel above 255 of a frame that indexing returns lands above 1. With a real bit depth above 8, such pixels are within the file's full scale |

## Left out

- File handles, `os.stat` and `open` are not modelled. The file is a byte sequence, and its size is the sequence's length.
- `Fields.Value` does not interpret floating-point fields: `f` and `d` fields keep their raw bytes. Timestamps in seconds and scaled pixels are exact reals, not doubles.
- numpy arrays: a frame's pixels are a flat row-major sequence. `reshape` is modelled as the check that `fromfile` read height * width items.
- The model assumes a little-endian host, as the code does without checking (norpix.py:53).
- Dividing by a full scale of 0, which happens when BitDepthReal is 0, gives numpy's inf or nan. The model marks it `NotFinite` and does not tell the two apart.
- `np.dtype('uint%i' % bpp)` is modelled as accepting 8, 16, 32 and 64 bits and raising otherwise. Older numpy aliases such as `uint0` are not modelled.
- `attach` points each field at the dictionary its writes go to: the record, or the composite's own dictionary inside `BinMeta` and `BinArray`. The model does not keep that pointer. `Fields.Decode` returns a field's writes, and `Fields.Prefixed` files a composite's under its name, which gives the same routing. `formatHook` and `extraValuesHook` do nothing in this file and are left out.
- `BinMeta` keeps a per-instance `data` dictionary across calls. The model decodes each call into a fresh one, so stale entries from an earlier call are not modelled.
- `BinArray` builds its elements by calling the element class with extra `args`. The model decodes each value with the element's class directly.
- `alphaitems`, `ts2dt` and the `UserDict` interface of `BinParser` are left out: they are conveniences outside the reading path.
- The text `checkoffset` prints and its `desc` argument are not modelled. The model returns whether the warning is printed.
- Running with `python -O` drops the `assert` of norpix.py:155. The model always makes that check.
- Iteration is lazy in the code. The model returns the frames produced up to the first failure, as a list.
- `Fields.FieldsAtLookup` is stated for runs of scalar and string descriptors only, which is what the header uses. For composites and arrays, `Fields.MetaQualifies` and `Fields.ArrayList` state the entries one descriptor writes.
- Fields.Datum.Layout: `BinNull` and `BinIgnore` pad the wrapped field's standard width, which is the corrected half of the first finding. So `Parser.BinParser.ReadTo` and the `ReadSegment` lemmas advance 4 bytes past `BinNull(BinDWord)` or `BinIgnore(BinDWord(..))`, where the code advances 8 on 64-bit Linux. The native widths the code uses are modelled only in `Native.PadWidthAsWritten`.
- Parser.BinParser.ReadTo: the offset override is a natural number. The code also accepts a negative override (norpix.py:89-90), then fails in `seek` (norpix.py:106); that path is not modelled.
- norpix-demo.py is not part of this model.

## Findings

| source | as written | input that shows it | evidently intended | confidence | as-written member | corrected member |
|---|---|---|---|---|---|---|
| norpix.py:193-194, 276-277 | `BinNull` and `BinIgnore` size their padding with `struct.calcsize` of a format without `<`, so native sizes and alignment apply, while `readTo` reads with `<` | `BinIgnore(BinMeta('m', [BinByte('a'), BinWord('b')]))` pads 4 bytes on every platform, and `BinNull(BinDWord)` pads 8 on 64-bit Linux, where the fields are 3 and 4 bytes | pad exactly the wrapped field's standard width | not executed | Native.IgnoreOfByteWord | Fields.IgnoreKeepsWidth |
| norpix.py:55-67 | `fromfile` is handed `ImageSizeBytes`, a byte count, as its item count | a 16-bit file of 2 x 2 frames with ImageSizeBytes 8: `fromfile` asks for 8 items. If the file holds 5 or more, reshape to (2, 2) fails. If it holds only 4, the file is exhausted and the timestamp read fails | read ImageSizeBytes / itemsize items | not executed | Frames.GetAsWrittenRejectsWidePixels | Frames.GetReadsFrame |
| norpix.py:40-43, 175 | `imfloat` is built with the default full scale 255 although `fullscale` is 2^BitDepthReal - 1 | a file with BitDepth 16 and BitDepthReal 12: once a frame is read (by the corrected count, or as written when ImageSizeBytes is height * width), a pixel of 4095 becomes 4095 / 255, about 16.06, not a value in [0, 1] | `SeqImageFloat(self, self.fullscale)` | not executed | Frames.ImfloatOverflows | Frames.FloatViewNormalised |
