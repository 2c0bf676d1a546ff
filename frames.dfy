/**
 * SeqFile (norpix.py:16-73): the frames of a .seq file after its header. Frames are
 * `TrueImageSize` bytes apart, starting at an offset chosen by the header's version;
 * each holds `ImageSizeBytes` bytes of pixels followed by a 6-byte timestamp.
 */
module Frames {
  import opened Results
  import opened Bytes
  import Fields
  import opened Header

  /** Where frame 0 starts (norpix.py:46-49): 8192 bytes for StreamPix 6 files (Version 5), else 1024. */
  function ImageOffset(version: int): (offset: nat)
    ensures offset == 8192 <==> version == 5
    ensures offset == 1024 <==> version != 5
  {
    if version == 5 then 8192 else 1024
  }

  /**
   * `imageCount` (norpix.py:52): the bytes after the header divided by the frame size,
   * rounded down (Python 2 integer division, which floors). The count is the largest
   * number of whole frames that fit in those bytes; it is negative when the file is
   * shorter than the header size.
   */
  function ImageCount(fileSize: nat, headerSize: int, blockSize: nat): int
    requires blockSize > 0
  {
    (fileSize - headerSize) / blockSize
  }

  /** The count is the number of whole blocks in the bytes after the header, rounded down. */
  lemma {:induction false} ImageCountBounds(fileSize: nat, headerSize: int, blockSize: nat)
    requires blockSize > 0
    ensures var count := ImageCount(fileSize, headerSize, blockSize);
            count * blockSize <= fileSize - headerSize < (count + 1) * blockSize
  {
  }

  /** Floor division is pinned down by the bounds ImageCountBounds states. */
  lemma {:induction false} FloorUnique(a: int, b: nat, q: int, r: int)
    requires b > 0
    requires q * b <= a < (q + 1) * b
    requires r * b <= a < (r + 1) * b
    ensures q == r
  {
    if q < r {
      assert (q + 1) * b <= r * b by { MulMonotone(q + 1, r, b); }
    } else if r < q {
      assert (r + 1) * b <= q * b by { MulMonotone(r + 1, q, b); }
    }
  }

  lemma {:induction false} Distribute(x: int, y: int, b: int)
    ensures (x + y) * b == x * b + y * b
  {
  }

  lemma {:induction false} MulMonotone(x: int, y: int, b: nat)
    requires x <= y
    ensures x * b <= y * b
  {
    assert y * b - x * b == (y - x) * b;
  }

  /**
   * A file of exactly `k` frames after the header has `k` frames; one byte fewer
   * and the last frame no longer counts.
   */
  lemma {:induction false} ImageCountOfFrames(k: nat, headerSize: nat, blockSize: nat)
    requires blockSize > 0 && headerSize + k * blockSize > 0
    ensures ImageCount(headerSize + k * blockSize, headerSize, blockSize) == k
    ensures ImageCount(headerSize + k * blockSize - 1, headerSize, blockSize) == k - 1
  {
    var n := headerSize + k * blockSize;
    ImageCountBounds(n, headerSize, blockSize);
    ImageCountBounds(n - 1, headerSize, blockSize);
    FloorUnique(n - headerSize, blockSize, ImageCount(n, headerSize, blockSize), k);
    assert (k - 1) * blockSize <= n - 1 - headerSize < k * blockSize;
    FloorUnique(n - 1 - headerSize, blockSize, ImageCount(n - 1, headerSize, blockSize), k - 1);
  }

  /** Where frame i starts (norpix.py:65). Nothing keeps a negative i from reaching here. */
  function FrameStart(imageOffset: nat, blockSize: nat, i: int): int
  {
    imageOffset + blockSize * i
  }

  /**
   * What `np.fromfile(file, dtype, n)` reads at `pos`: up to n items of `itemBytes`
   * bytes each, each a little-endian unsigned integer, stopping early where the file
   * has no whole item left.
   */
  function FromFile(file: seq<byte>, pos: nat, n: nat, itemBytes: nat): seq<nat>
    requires itemBytes > 0
    decreases n
  {
    if n == 0 || pos + itemBytes > |file| then []
    else [Unsigned(file[pos..pos + itemBytes])] + FromFile(file, pos + itemBytes, n - 1, itemBytes)
  }

  /** The item of `itemBytes` bytes at `at`. */
  function ItemAt(file: seq<byte>, at: nat, itemBytes: nat): nat
  {
    Unsigned(Read(file, at, itemBytes))
  }

  /** Where item k of a run of `itemBytes`-byte items that starts at `pos` begins. */
  function ItemStart(pos: nat, k: nat, itemBytes: nat): nat
  {
    pos + k * itemBytes
  }

  /**
   * `fromfile` reads the first n items at `pos`, or as many whole items as the file
   * still holds when that is fewer.
   */
  lemma {:induction false} FromFileCount(file: seq<byte>, pos: nat, n: nat, itemBytes: nat)
    requires itemBytes > 0
    decreases n
    ensures var m := |FromFile(file, pos, n, itemBytes)|;
            m <= n && (m > 0 ==> pos + m * itemBytes <= |file|) &&
            (m < n ==> pos + (m + 1) * itemBytes > |file|)
  {
    if n > 0 && pos + itemBytes <= |file| {
      var next := pos + itemBytes;
      FromFileCount(file, next, n - 1, itemBytes);
      var m := |FromFile(file, next, n - 1, itemBytes)|;
      assert |FromFile(file, pos, n, itemBytes)| == m + 1;
      NextItem(m, itemBytes);
      NextItem(m + 1, itemBytes);
    }
  }

  lemma {:induction false} NextItem(m: nat, itemBytes: nat)
    ensures (m + 1) * itemBytes == m * itemBytes + itemBytes
  {
  }

  /** Item k that `fromfile` reads is the integer in the bytes at pos + k * itemBytes. */
  lemma {:induction false} FromFileItem(file: seq<byte>, pos: nat, n: nat, itemBytes: nat, k: nat)
    requires itemBytes > 0 && k < |FromFile(file, pos, n, itemBytes)|
    decreases k
    ensures ItemStart(pos, k, itemBytes) + itemBytes <= |file|
    ensures FromFile(file, pos, n, itemBytes)[k] == ItemAt(file, ItemStart(pos, k, itemBytes), itemBytes)
  {
    var next := pos + itemBytes;
    assert n > 0 && next <= |file|;
    if k == 0 {
      assert ItemStart(pos, 0, itemBytes) == pos;
      assert Read(file, pos, itemBytes) == file[pos..next];
    } else {
      FromFileItem(file, next, n - 1, itemBytes, k - 1);
      NextItem(k - 1, itemBytes);
      assert ItemStart(next, k - 1, itemBytes) == ItemStart(pos, k, itemBytes);
      assert FromFile(file, pos, n, itemBytes) == [Unsigned(file[pos..next])] + FromFile(file, next, n - 1, itemBytes);
    }
  }

  /** When all n items are in the file, `fromfile` reads all of them. */
  lemma {:induction false} FromFileComplete(file: seq<byte>, pos: nat, n: nat, itemBytes: nat)
    requires itemBytes > 0 && pos + n * itemBytes <= |file|
    ensures |FromFile(file, pos, n, itemBytes)| == n
  {
    FromFileCount(file, pos, n, itemBytes);
    var m := |FromFile(file, pos, n, itemBytes)|;
    if m < n {
      MulMonotone(m + 1, n, itemBytes);
    }
  }

  /** A frame's timestamp (norpix.py:56, 67-68): whole seconds, then milliseconds. */
  datatype Timestamp = Timestamp(seconds: nat, millis: nat)

  /** The timestamp as seconds (norpix.py:68), as an exact rather than a floating-point number. */
  function Seconds(t: Timestamp): (s: real)
    ensures t.millis < 1000 ==> t.seconds as real <= s < t.seconds as real + 1.0
  {
    t.seconds as real + t.millis as real / 1000.0
  }

  /** What indexing a SeqFile returns: the pixels in row-major order and the timestamp. */
  datatype Frame = Frame(pixels: seq<nat>, time: Timestamp)

  /** The exceptions `__getitem__` raises. */
  datatype FrameError =
    | NotInteger         // ValueError "Frame numbers can only be integers"
    | OutOfRange         // ValueError "Frame number is out of range"
    | NegativeSeek       // IOError: seek to a negative position
    | ShapeMismatch      // ValueError from reshape: fromfile did not read height * width items
    | ShortTimestamp     // struct.error: fewer than 6 bytes left for the timestamp

  /**
   * Reading one frame at `pos` (norpix.py:65-68): `count` items through fromfile,
   * which must be exactly height * width of them, then the 6-byte '<LH' timestamp.
   * fromfile asks the stream for `count` whole items, so the cursor moves to
   * pos + count * itemBytes, or to the end of the file when fewer bytes are left;
   * in either case the timestamp is read from pos + count * itemBytes, since a read
   * at or past the end of the file comes back short.
   */
  function ReadFrame(file: seq<byte>, pos: int, count: nat, itemBytes: nat, height: nat, width: nat): Result<Frame, FrameError>
    requires itemBytes > 0
  {
    if pos < 0 then Failure(NegativeSeek)
    else
      var items := FromFile(file, pos, count, itemBytes);
      if |items| != height * width then Failure(ShapeMismatch)
      else
        var stamp := Read(file, pos + count * itemBytes, 6);
        if |stamp| != 6 then Failure(ShortTimestamp)
        else Success(Frame(items, Timestamp(Unsigned(stamp[..4]), Unsigned(stamp[4..]))))
  }

  /**
   * A frame whose pixels and timestamp lie inside the file is read: pixel k is the
   * item at pos + k * itemBytes, and the timestamp is the little-endian u32 seconds
   * and u16 milliseconds that follow the pixels.
   */
  lemma {:induction false} ReadFrameInFile(file: seq<byte>, pos: nat, itemBytes: nat, height: nat, width: nat)
    requires itemBytes > 0
    requires pos + height * width * itemBytes + 6 <= |file|
    ensures ReadFrame(file, pos, height * width, itemBytes, height, width).Success?
    ensures var frame := ReadFrame(file, pos, height * width, itemBytes, height, width).value;
            |frame.pixels| == height * width &&
            forall k :: 0 <= k < |frame.pixels| ==> frame.pixels[k] == ItemAt(file, ItemStart(pos, k, itemBytes), itemBytes)
    ensures var frame := ReadFrame(file, pos, height * width, itemBytes, height, width).value;
            var t := ItemStart(pos, height * width, itemBytes);
            frame.time == Timestamp(ItemAt(file, t, 4), ItemAt(file, t + 4, 2))
  {
    var n := height * width;
    FromFileComplete(file, pos, n, itemBytes);
    forall k | 0 <= k < n
      ensures FromFile(file, pos, n, itemBytes)[k] == ItemAt(file, ItemStart(pos, k, itemBytes), itemBytes)
    {
      FromFileItem(file, pos, n, itemBytes, k);
    }
    var t := pos + n * itemBytes;
    var stamp := Read(file, t, 6);
    assert stamp == file[t..t + 6];
    assert stamp[..4] == Read(file, t, 4);
    assert stamp[4..] == Read(file, t + 4, 2);
  }

  /** The pixel depths numpy has an unsigned dtype for (`'uint%i' % bpp`, norpix.py:54). */
  predicate SupportedDepth(bpp: nat)
  {
    bpp == 8 || bpp == 16 || bpp == 32 || bpp == 64
  }

  /** 2 to the power n. */
  function Pow2(n: nat): (r: nat)
    ensures r > 0
  {
    if n == 0 then 1 else 2 * Pow2(n - 1)
  }

  /** Why opening a file fails, in the order `__init__` meets the problems. */
  datatype OpenError =
    | HeaderFailed(error: HeaderError)  // SeqHeader raised
    | ZeroFrameSize                     // ZeroDivisionError: TrueImageSize is 0 (norpix.py:52)
    | UnsupportedDepth(bpp: nat)        // TypeError from np.dtype (norpix.py:54)

  /** Which check of `__init__` fails for a file, if any. */
  function OpenCheck(file: seq<byte>): Option<OpenError>
  {
    match HeaderSpec(file)
    case Failure(e) => Some(HeaderFailed(e))
    case Success(_) =>
      if U32(file, 580) == 0 then Some(ZeroFrameSize)
      else if !SupportedDepth(U32(file, 556)) then Some(UnsupportedDepth(U32(file, 556)))
      else None
  }

  /** The exceptions iterating a SeqFile raises. */
  datatype IterError =
    | NegativeLength            // ValueError: __len__ returned a negative count
    | FrameFailed(error: FrameError)

  /** An open .seq file: the attributes `__init__` sets (norpix.py:31-56). */
  class SeqFile {
    const file: seq<byte>
    const header: map<string, Fields.Value>
    const height: nat
    const width: nat
    const realBpp: nat
    const fullscale: nat
    const bpp: nat
    const version: int
    const headerSize: int
    const imageOffset: nat
    const blockSize: nat
    const fileSize: nat
    const imageCount: int
    const itemBytes: nat
    const pixLen: nat
    /** The normalised view of the same frames (norpix.py:43). */
    var imfloat: SeqImageFloat?

    /**
     * The frame layout `__init__` derives: a non-zero block size, a supported pixel
     * depth, the image offset the version selects and the count of whole blocks after
     * the 1024-byte header.
     */
    ghost predicate Valid()
    {
      blockSize > 0 && SupportedDepth(bpp) && itemBytes == bpp / 8 &&
      fullscale == Pow2(realBpp) - 1 && imageOffset == ImageOffset(version) &&
      headerSize == 1024 && fileSize == |file| &&
      imageCount == ImageCount(fileSize, headerSize, blockSize)
    }

    /** The attributes are read from the file's accepted header (norpix.py:34-55). */
    ghost predicate FromHeader()
    {
      |file| >= HeaderBytes && HeaderSpec(file) == Success(header) &&
      height == U32(file, 552) && width == U32(file, 548) && realBpp == U32(file, 560) &&
      bpp == U32(file, 556) && version == I32(file, 28) && headerSize == I32(file, 32) &&
      blockSize == U32(file, 580) && pixLen == U32(file, 564)
    }

    /** `__init__` once the header has been read and the checks have passed. */
    constructor (file: seq<byte>, header: map<string, Fields.Value>)
      requires HeaderSpec(file) == Success(header) && OpenCheck(file) == None
      ensures Valid() && FromHeader() && this.file == file && this.header == header
      ensures imfloat != null && fresh(imfloat) && imfloat.source == this && imfloat.fullscale == DefaultFullscale
    {
      this.file := file;
      this.header := header;
      height := U32(file, 552);
      width := U32(file, 548);
      realBpp := U32(file, 560);
      fullscale := Pow2(U32(file, 560)) - 1;
      bpp := U32(file, 556);
      version := I32(file, 28);
      headerSize := I32(file, 32);
      imageOffset := ImageOffset(I32(file, 28));
      blockSize := U32(file, 580);
      fileSize := |file|;
      imageCount := ImageCount(|file|, I32(file, 32), U32(file, 580));
      itemBytes := U32(file, 556) / 8;
      pixLen := U32(file, 564);
      new;
      imfloat := new SeqImageFloat(this, DefaultFullscale);
    }

    /**
     * `__getitem__(i)` (norpix.py:57-68): reject a fractional or too large index, then
     * read the frame at FrameStart. As written, fromfile is handed ImageSizeBytes, a
     * byte count, as its item count, so frames of more than one byte per pixel read
     * too many items.
     */
    function Get(i: real): Result<Frame, FrameError>
      requires Valid()
    {
      if i.Floor as real != i then Failure(NotInteger)
      else if i.Floor >= imageCount then Failure(OutOfRange)
      else ReadFrame(file, FrameStart(imageOffset, blockSize, i.Floor), pixLen, itemBytes, height, width)
    }

    /**
     * `__getitem__` with the item count it evidently intends: the frame's byte size
     * over the item size.
     */
    function GetCorrected(i: real): Result<Frame, FrameError>
      requires Valid()
    {
      if i.Floor as real != i then Failure(NotInteger)
      else if i.Floor >= imageCount then Failure(OutOfRange)
      else ReadFrame(file, FrameStart(imageOffset, blockSize, i.Floor), pixLen / itemBytes, itemBytes, height, width)
    }

    /** `len()` of the file: `__len__` returns imageCount, which Python rejects when negative. */
    function Len(): (r: Result<nat, IterError>)
      requires Valid()
      ensures r.Success? <==> imageCount >= 0
      ensures r.Success? ==> r.value == imageCount
    {
      if imageCount < 0 then Failure(NegativeLength) else Success(imageCount)
    }

    /**
     * `__iter__` (norpix.py:71-73): the frames 0, 1, ... len - 1 in order, stopping at
     * the first one that raises.
     */
    method Iterate() returns (frames: seq<Frame>, err: Option<IterError>)
      requires Valid()
      ensures Len().Failure? ==> frames == [] && err == Some(NegativeLength)
      ensures Len().Success? ==>
                |frames| <= Len().value &&
                (forall k :: 0 <= k < |frames| ==> Get(k as real) == Success(frames[k])) &&
                (err == None <==> |frames| == Len().value) &&
                (err != None ==> Get(|frames| as real).Failure? && err == Some(FrameFailed(Get(|frames| as real).error)))
    {
      var n := Len();
      if n.Failure? {
        return [], Some(n.error);
      }
      frames := [];
      var i := 0;
      while i < n.value
        invariant 0 <= i <= n.value && |frames| == i
        invariant forall k :: 0 <= k < i ==> Get(k as real) == Success(frames[k])
      {
        var r := Get(i as real);
        if r.Failure? {
          return frames, Some(FrameFailed(r.error));
        }
        frames := frames + [r.value];
        i := i + 1;
      }
      return frames, None;
    }
  }

  /**
   * The attributes of an open file are the header's entries (norpix.py:37-52), and
   * the frame count uses the header size the header check pinned at 1024.
   */
  lemma {:induction false} AttributesFromHeader(f: SeqFile)
    requires f.FromHeader()
    ensures "Height" in f.header && f.header["Height"] == Fields.IntVal(f.height)
    ensures "Width" in f.header && f.header["Width"] == Fields.IntVal(f.width)
    ensures "BitDepth" in f.header && f.header["BitDepth"] == Fields.IntVal(f.bpp)
    ensures "BitDepthReal" in f.header && f.header["BitDepthReal"] == Fields.IntVal(f.realBpp)
    ensures "Version" in f.header && f.header["Version"] == Fields.IntVal(f.version)
    ensures "TrueImageSize" in f.header && f.header["TrueImageSize"] == Fields.IntVal(f.blockSize)
    ensures "ImageSizeBytes" in f.header && f.header["ImageSizeBytes"] == Fields.IntVal(f.pixLen)
    ensures f.headerSize == 1024
  {
    HeaderRecord(f.file);
  }

  /**
   * `SeqFile(filename)` (norpix.py:31-56): read and check the header, then derive the
   * frame layout; the first failing check is reported.
   */
  method Open(file: seq<byte>) returns (r: Result<SeqFile, OpenError>)
    ensures r.Failure? <==> OpenCheck(file).Some?
    ensures r.Failure? ==> OpenCheck(file) == Some(r.error)
    ensures r.Success? ==> r.value.Valid() && r.value.FromHeader() && r.value.file == file && r.value.header == Record(file)
    ensures r.Success? ==> fresh(r.value) && r.value.imfloat != null && fresh(r.value.imfloat) &&
                           r.value.imfloat.source == r.value && r.value.imfloat.fullscale == DefaultFullscale
  {
    var h, warned := ParseHeader(file);
    if h.Failure? {
      return Failure(HeaderFailed(h.error));
    }
    HeaderRecord(file);
    var d := h.value;
    if d["TrueImageSize"] == Fields.IntVal(0) {
      return Failure(ZeroFrameSize);
    }
    var bpp := U32(file, 556);
    assert d["BitDepth"] == Fields.IntVal(bpp);
    if !SupportedDepth(bpp) {
      return Failure(UnsupportedDepth(bpp));
    }
    var f := new SeqFile(file, d);
    return Success(f);
  }

  lemma {:induction false} DivExact(x: nat, b: nat)
    requires b > 0
    ensures (x * b) / b == x
  {
    var q := ImageCount(x * b, 0, b);
    ImageCountBounds(x * b, 0, b);
    FloorUnique(x * b, b, q, x);
  }

  /**
   * In a file whose frames start right after the 1024-byte header (any version but
   * 5), every frame the count admits lies wholly inside the file.
   */
  lemma {:induction false} FramesInFile(f: SeqFile, i: int)
    requires f.Valid() && f.version != 5 && 0 <= i < f.imageCount
    ensures 0 <= FrameStart(f.imageOffset, f.blockSize, i)
    ensures FrameStart(f.imageOffset, f.blockSize, i) + f.blockSize <= f.fileSize
  {
    ImageCountBounds(f.fileSize, f.headerSize, f.blockSize);
    MulMonotone(i + 1, f.imageCount, f.blockSize);
    assert f.blockSize * i + f.blockSize == (i + 1) * f.blockSize;
  }

  /**
   * Version 5 frames start at 8192, but the count still subtracts the 1024-byte
   * header size (norpix.py:46-52): a file holding k frames after offset 8192 counts
   * 7168 / TrueImageSize frames more than it has.
   */
  lemma {:induction false} Version5Count(k: nat, blockSize: nat)
    requires blockSize > 0
    ensures ImageCount(8192 + k * blockSize, 1024, blockSize) == k + 7168 / blockSize
  {
    var q := ImageCount(7168, 0, blockSize);
    ImageCountBounds(7168, 0, blockSize);
    ImageCountBounds(8192 + k * blockSize, 1024, blockSize);
    Distribute(k, q, blockSize);
    Distribute(k, q + 1, blockSize);
    FloorUnique(7168 + k * blockSize, blockSize, ImageCount(8192 + k * blockSize, 1024, blockSize), k + q);
  }

  /**
   * In a version 5 file whose frames are at most 7168 bytes, the last frame the
   * count admits ends past the end of the file.
   */
  lemma {:induction false} Version5LastFrameOverruns(f: SeqFile)
    requires f.Valid() && f.version == 5 && f.imageCount >= 1 && f.blockSize <= 7168
    ensures FrameStart(f.imageOffset, f.blockSize, f.imageCount - 1) + f.blockSize > f.fileSize
  {
    ImageCountBounds(f.fileSize, f.headerSize, f.blockSize);
    assert f.blockSize * (f.imageCount - 1) + f.blockSize == (f.imageCount + 1) * f.blockSize - f.blockSize;
  }

  /**
   * `__getitem__` rejects a fractional index first (norpix.py:61-62), then an index at
   * or past the frame count (norpix.py:63-64); every other index goes on to the read.
   */
  lemma {:induction false} GetRejects(f: SeqFile, i: real)
    requires f.Valid()
    ensures i.Floor as real != i ==> f.Get(i) == Failure(NotInteger)
    ensures i.Floor as real == i && i.Floor >= f.imageCount ==> f.Get(i) == Failure(OutOfRange)
    ensures i.Floor as real == i && i.Floor < f.imageCount ==>
              f.Get(i) == ReadFrame(f.file, FrameStart(f.imageOffset, f.blockSize, i.Floor), f.pixLen, f.itemBytes, f.height, f.width)
    ensures f.Get(i) == Failure(NotInteger) <==> i.Floor as real != i
  {
    if i.Floor as real == i && i.Floor < f.imageCount {
      var pos := FrameStart(f.imageOffset, f.blockSize, i.Floor);
      assert ReadFrame(f.file, pos, f.pixLen, f.itemBytes, f.height, f.width) != Failure(NotInteger);
    }
  }

  /**
   * A negative index is not rejected (norpix.py:61-65): it reads a frame's worth of
   * bytes before the first frame, in the header area when it reads anything.
   */
  lemma {:induction false} NegativeIndexReadsBeforeFrames(f: SeqFile, i: int)
    requires f.Valid() && i < 0 && i < f.imageCount
    ensures f.Get(i as real) == ReadFrame(f.file, FrameStart(f.imageOffset, f.blockSize, i), f.pixLen, f.itemBytes, f.height, f.width)
    ensures FrameStart(f.imageOffset, f.blockSize, i) + f.blockSize <= f.imageOffset
  {
    assert (i as real).Floor == i;
    MulMonotone(i + 1, 0, f.blockSize);
    assert f.blockSize * i + f.blockSize == (i + 1) * f.blockSize;
  }

  /**
   * With the corrected item count, indexing a well-formed file (ImageSizeBytes equal
   * to height * width items, room for the timestamp in each block) returns frame i
   * whenever its block lies inside the file: pixel k is the item at k * itemBytes
   * from the frame's start, and the timestamp follows the pixels.
   */
  lemma {:induction false} GetReadsFrame(f: SeqFile, i: int)
    requires f.Valid() && 0 <= i < f.imageCount && FrameStart(f.imageOffset, f.blockSize, i) + f.blockSize <= f.fileSize
    requires f.pixLen == f.height * f.width * f.itemBytes && f.pixLen + 6 <= f.blockSize
    ensures f.GetCorrected(i as real).Success?
    ensures var start := FrameStart(f.imageOffset, f.blockSize, i);
            var frame := f.GetCorrected(i as real).value;
            |frame.pixels| == f.height * f.width &&
            (forall k :: 0 <= k < |frame.pixels| ==> frame.pixels[k] == ItemAt(f.file, ItemStart(start, k, f.itemBytes), f.itemBytes)) &&
            frame.time == Timestamp(ItemAt(f.file, start + f.pixLen, 4), ItemAt(f.file, start + f.pixLen + 4, 2))
  {
    assert (i as real).Floor == i;
    DivExact(f.height * f.width, f.itemBytes);
    var start: nat := FrameStart(f.imageOffset, f.blockSize, i);
    ReadFrameInFile(f.file, start, f.itemBytes, f.height, f.width);
  }

  /**
   * Handed the frame's byte count as its item count, fromfile reads more than
   * height * width items whenever items are two or more bytes wide and the file
   * holds one item past the frame, so reshape fails.
   */
  lemma {:induction false} ByteCountOverreads(file: seq<byte>, pos: nat, itemBytes: nat, height: nat, width: nat)
    requires itemBytes >= 2 && height * width > 0
    requires pos + (height * width + 1) * itemBytes <= |file|
    ensures ReadFrame(file, pos, height * width * itemBytes, itemBytes, height, width) == Failure(ShapeMismatch)
  {
    var cells := height * width;
    var count := cells * itemBytes;
    FromFileCount(file, pos, count, itemBytes);
    var m := |FromFile(file, pos, count, itemBytes)|;
    if m < count {
      if m + 1 <= cells + 1 {
        MulMonotone(m + 1, cells + 1, itemBytes);
      }
    } else {
      MulMonotone(2, itemBytes, cells);
    }
    assert m != cells;
  }

  /**
   * Handed the frame's byte count as its item count, the read fails whenever items
   * are two or more bytes wide, wherever the frame lies: either fromfile finds more
   * than height * width items and reshape fails, or it finds exactly height * width,
   * which means it stopped short at the end of the file and the timestamp read that
   * follows comes back short.
   */
  lemma {:induction false} ByteCountAlwaysFails(file: seq<byte>, pos: nat, itemBytes: nat, height: nat, width: nat)
    requires itemBytes >= 2 && height * width > 0
    ensures var r := ReadFrame(file, pos, height * width * itemBytes, itemBytes, height, width);
            r == Failure(ShapeMismatch) || r == Failure(ShortTimestamp)
  {
    var cells := height * width;
    var count := cells * itemBytes;
    MulMonotone(2, itemBytes, cells);
    FromFileCount(file, pos, count, itemBytes);
    var m := |FromFile(file, pos, count, itemBytes)|;
    if m == cells {
      MulMonotone(m + 1, count, itemBytes);
      assert pos + count * itemBytes + 6 > |file|;
    }
  }

  /**
   * As written, every frame of a well-formed file with two or more bytes per pixel
   * fails, in reshape or in the timestamp read; when the frame's block lies inside
   * the file and holds the pixels and timestamp, the corrected count reads it.
   */
  lemma {:induction false} GetAsWrittenRejectsWidePixels(f: SeqFile, i: int)
    requires f.Valid() && 0 <= i < f.imageCount
    requires f.pixLen == f.height * f.width * f.itemBytes
    requires f.itemBytes >= 2 && f.height * f.width > 0
    ensures f.Get(i as real) == Failure(ShapeMismatch) || f.Get(i as real) == Failure(ShortTimestamp)
    ensures FrameStart(f.imageOffset, f.blockSize, i) + f.blockSize <= f.fileSize && f.pixLen + 6 <= f.blockSize ==>
              f.GetCorrected(i as real).Success?
  {
    assert (i as real).Floor == i;
    var start: nat := FrameStart(f.imageOffset, f.blockSize, i);
    ByteCountAlwaysFails(f.file, start, f.itemBytes, f.height, f.width);
    if start + f.blockSize <= f.fileSize && f.pixLen + 6 <= f.blockSize {
      GetReadsFrame(f, i);
    }
  }

  /** With one byte per pixel the item count and the byte count agree, so the code as written reads the frame. */
  lemma {:induction false} GetAsWrittenAgreesOnBytePixels(f: SeqFile, i: real)
    requires f.Valid() && f.itemBytes == 1
    ensures f.Get(i) == f.GetCorrected(i)
  {
  }

  /** A pixel of the normalised view: numpy yields inf or nan when dividing by a zero full scale. */
  datatype FloatPixel = Finite(value: real) | NotFinite

  /** What `SeqImageFloat.__getitem__` returns: the scaled image and the timestamp. */
  datatype FloatFrame = FloatFrame(pixels: seq<FloatPixel>, time: Timestamp)

  /** `pixel / float(fullscale)` (norpix.py:178-179), exactly. */
  function Scale(p: nat, fullscale: nat): FloatPixel
  {
    if fullscale == 0 then NotFinite else Finite(p as real / fullscale as real)
  }

  /** A pixel scales into [0, 1] exactly when it is at most the full scale, which scales to 1. */
  lemma {:induction false} ScaleUnit(p: nat, fullscale: nat)
    requires fullscale > 0
    ensures Scale(p, fullscale).Finite?
    ensures 0.0 <= Scale(p, fullscale).value
    ensures Scale(p, fullscale).value <= 1.0 <==> p <= fullscale
    ensures p == fullscale ==> Scale(p, fullscale).value == 1.0
  {
    var v := Scale(p, fullscale).value;
    assert v * fullscale as real == p as real;
  }

  /** `SeqImageFloat.filter`: every pixel divided by the full scale, the timestamp kept. */
  function Normalise(frame: Frame, fullscale: nat): FloatFrame
  {
    FloatFrame(seq(|frame.pixels|, k requires 0 <= k < |frame.pixels| => Scale(frame.pixels[k], fullscale)), frame.time)
  }

  /** `itertools.imap(filter, frames)` as both views' `__iter__` uses it (norpix.py:171): each frame, filtered. */
  function Imap<T>(filter: Frame -> T, frames: seq<Frame>): (out: seq<T>)
    ensures |out| == |frames| && forall k :: 0 <= k < |frames| ==> out[k] == filter(frames[k])
  {
    seq(|frames|, k requires 0 <= k < |frames| => filter(frames[k]))
  }

  /** FilterILI (norpix.py:158-171): a view of a SeqFile whose filter passes frames through unchanged. */
  class FilterILI {
    const source: SeqFile

    constructor (source: SeqFile)
      ensures this.source == source
    {
      this.source := source;
    }

    /** `filter`: the identity. */
    function Filter(frame: Frame): Frame
    {
      frame
    }

    /** `__getitem__`: the source's frame, filtered. */
    function Get(i: real): Result<Frame, FrameError>
      requires source.Valid()
    {
      match source.Get(i)
      case Success(frame) => Success(Filter(frame))
      case Failure(e) => Failure(e)
    }

    /** `__len__`: the source's length. */
    function Len(): Result<nat, IterError>
      requires source.Valid()
    {
      source.Len()
    }

    /** `__iter__`: the source's frames, each filtered, stopping where the source stops. */
    method Iterate() returns (frames: seq<Frame>, err: Option<IterError>)
      requires source.Valid()
      ensures Len().Failure? ==> frames == [] && err == Some(NegativeLength)
      ensures Len().Success? ==>
                |frames| <= Len().value &&
                (forall k :: 0 <= k < |frames| ==> Get(k as real) == Success(frames[k])) &&
                (err == None <==> |frames| == Len().value) &&
                (err != None ==> Get(|frames| as real).Failure? && err == Some(FrameFailed(Get(|frames| as real).error)))
    {
      var raw;
      raw, err := source.Iterate();
      frames := Imap(Filter, raw);
    }
  }

  /** The pass-through filter changes nothing: indexing, length and iteration are the source's. */
  lemma {:induction false} FilterPassesThrough(v: FilterILI, i: real)
    requires v.source.Valid()
    ensures v.Get(i) == v.source.Get(i)
    ensures v.Len() == v.source.Len()
  {
  }

  /** SeqImageFloat (norpix.py:172-179): a view of a SeqFile whose frames are divided by a full scale. */
  class SeqImageFloat {
    const source: SeqFile
    const fullscale: nat

    constructor (source: SeqFile, fullscale: nat)
      ensures this.source == source && this.fullscale == fullscale
    {
      this.source := source;
      this.fullscale := fullscale;
    }

    /** `filter`: the image divided by the full scale, the timestamp unchanged. */
    function Filter(frame: Frame): FloatFrame
    {
      Normalise(frame, fullscale)
    }

    /** `__getitem__`: the source's frame, filtered. */
    function Get(i: real): Result<FloatFrame, FrameError>
      requires source.Valid()
    {
      match source.Get(i)
      case Success(frame) => Success(Filter(frame))
      case Failure(e) => Failure(e)
    }

    /** `__len__`: the source's length. */
    function Len(): Result<nat, IterError>
      requires source.Valid()
    {
      source.Len()
    }

    /** `__iter__`: the source's frames, each filtered, stopping where the source stops. */
    method Iterate() returns (frames: seq<FloatFrame>, err: Option<IterError>)
      requires source.Valid()
      ensures Len().Failure? ==> frames == [] && err == Some(NegativeLength)
      ensures Len().Success? ==>
                |frames| <= Len().value &&
                (forall k :: 0 <= k < |frames| ==> Get(k as real) == Success(frames[k])) &&
                (err == None <==> |frames| == Len().value) &&
                (err != None ==> Get(|frames| as real).Failure? && err == Some(FrameFailed(Get(|frames| as real).error)))
    {
      var raw;
      raw, err := source.Iterate();
      frames := Imap(Filter, raw);
    }
  }

  /**
   * A float view built with the file's own full scale 2^BitDepthReal - 1, as
   * `SeqImageFloat(self, self.fullscale)` would be, over the frames the corrected
   * read returns: every pixel within the real bit depth lands in [0, 1], a full-scale
   * pixel lands on 1, and the timestamp is kept.
   */
  lemma {:induction false} FloatViewNormalised(f: SeqFile, v: SeqImageFloat, i: real)
    requires f.Valid() && f.realBpp > 0 && v.source == f && v.fullscale == f.fullscale
    requires f.GetCorrected(i).Success?
    ensures var frame := f.GetCorrected(i).value;
            var scaled := v.Filter(frame);
            |scaled.pixels| == |frame.pixels| && scaled.time == frame.time &&
            forall k :: 0 <= k < |frame.pixels| ==>
              scaled.pixels[k].Finite? && 0.0 <= scaled.pixels[k].value &&
              (scaled.pixels[k].value <= 1.0 <==> frame.pixels[k] <= f.fullscale) &&
              (frame.pixels[k] == f.fullscale ==> scaled.pixels[k].value == 1.0)
  {
    assert f.fullscale > 0 by { assert Pow2(f.realBpp) == 2 * Pow2(f.realBpp - 1); }
    var frame := f.GetCorrected(i).value;
    forall k | 0 <= k < |frame.pixels|
      ensures Scale(frame.pixels[k], f.fullscale).Finite?
      ensures 0.0 <= Scale(frame.pixels[k], f.fullscale).value
      ensures Scale(frame.pixels[k], f.fullscale).value <= 1.0 <==> frame.pixels[k] <= f.fullscale
      ensures frame.pixels[k] == f.fullscale ==> Scale(frame.pixels[k], f.fullscale).value == 1.0
    {
      ScaleUnit(frame.pixels[k], f.fullscale);
    }
  }

  /** The real bit depth above 8 gives a full scale above the default 255. */
  lemma {:induction false} FullscaleAboveDefault(n: nat)
    requires n > 8
    ensures Pow2(n) - 1 > DefaultFullscale
  {
    if n > 9 {
      FullscaleAboveDefault(n - 1);
    } else {
      assert Pow2(9) == 512 by { assert Pow2(8) == 256; }
    }
  }

  /**
   * The float view `__init__` attaches (norpix.py:43) divides by 255 whatever the bit
   * depth: every pixel above 255 of a frame indexing returns lands above 1, though
   * with a real bit depth above 8 such pixels lie within the file's full scale.
   */
  lemma {:induction false} ImfloatOverflows(f: SeqFile, i: real, k: nat)
    requires f.Valid() && f.imfloat != null && f.imfloat.source == f && f.imfloat.fullscale == DefaultFullscale
    requires f.Get(i).Success? && k < |f.Get(i).value.pixels| && f.Get(i).value.pixels[k] > DefaultFullscale
    ensures f.imfloat.Get(i).Success? && |f.imfloat.Get(i).value.pixels| == |f.Get(i).value.pixels|
    ensures f.imfloat.Get(i).value.pixels[k].Finite? && f.imfloat.Get(i).value.pixels[k].value > 1.0
    ensures f.realBpp > 8 ==> f.fullscale > DefaultFullscale
  {
    DefaultFullscaleOverflows(f.Get(i).value.pixels[k]);
    if f.realBpp > 8 {
      FullscaleAboveDefault(f.realBpp);
    }
  }

  /** The full scale `SeqImageFloat` takes when none is passed, as the SeqFile constructor does (norpix.py:43, 175). */
  const DefaultFullscale: nat := 255

  /**
   * As written, the float view of a file divides by 255 whatever its bit depth: a
   * full-scale 16-bit pixel becomes 257, far outside [0, 1], and so does any pixel
   * above 255.
   */
  lemma {:induction false} DefaultFullscaleOverflows(p: nat)
    requires p > DefaultFullscale
    ensures Scale(p, DefaultFullscale).value > 1.0
    ensures Scale(65535, DefaultFullscale) == Finite(257.0)
  {
    ScaleUnit(p, DefaultFullscale);
  }
}
