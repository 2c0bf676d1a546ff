/**
 * The field descriptors of the binary-structure engine (the BinDatum family of
 * norpix.py). Each descriptor has a little-endian layout (its `fstr()`), a number
 * of raw values it consumes (its `count()`) and a decoding of those values into
 * named entries of the record (its `fcb()`).
 */
module Fields {
  import opened Results
  import opened Bytes

  /**
   * The single-valued scalar classes BinByte, BinChar, BinWord, BinShort, BinDWord,
   * BinBool, BinLong, BinFloat, BinDouble and BinUInt64 (BinInt16, BinUInt and BinInt
   * are other names for Short, DWord and Long).
   */
  datatype ScalarKind = Byte | Char | Word | Short | DWord | Bool | Long | Float | Double | UInt64

  /** One item of a `struct` format string read with standard sizes ("<" prefix). */
  datatype Code =
    | U8 | I8       // "B", "b"
    | U16 | I16     // "H", "h"
    | U32 | I32     // "L", "l"
    | F32 | F64     // "f", "d"
    | U64           // "Q"
    | Chars(n: nat) // "Ns": one string of n bytes
    | Skip(n: nat)  // "Nx": n pad bytes, no value

  function KindCode(k: ScalarKind): Code
  {
    match k
    case Byte => U8
    case Char => I8
    case Word => U16
    case Short => I16
    case DWord => U32
    case Bool => U32
    case Long => I32
    case Float => F32
    case Double => F64
    case UInt64 => U64
  }

  /** Standard size of one code, in bytes. */
  function CodeWidth(c: Code): nat
  {
    match c
    case U8 => 1
    case I8 => 1
    case U16 => 2
    case I16 => 2
    case U32 => 4
    case I32 => 4
    case F32 => 4
    case F64 => 8
    case U64 => 8
    case Chars(n) => n
    case Skip(n) => n
  }

  /** A format string, code by code; `Join` is Python's string concatenation of formats. */
  datatype Codes = Nil | Cons(head: Code, tail: Codes)

  function Join(a: Codes, b: Codes): Codes
  {
    if a.Nil? then b else Cons(a.head, Join(a.tail, b))
  }

  /** `struct.calcsize("<" + codes)`: standard sizes have no alignment padding. */
  function LayoutWidth(codes: Codes): nat
  {
    if codes.Nil? then 0 else CodeWidth(codes.head) + LayoutWidth(codes.tail)
  }

  /** How many values `struct.unpack` yields for the codes: one per code except pad bytes. */
  function LayoutValues(codes: Codes): nat
  {
    if codes.Nil? then 0 else (if codes.head.Skip? then 0 else 1) + LayoutValues(codes.tail)
  }

  /** Joining two formats adds their widths and their value counts. */
  lemma {:induction false} JoinSizes(a: Codes, b: Codes)
    ensures LayoutWidth(Join(a, b)) == LayoutWidth(a) + LayoutWidth(b)
    ensures LayoutValues(Join(a, b)) == LayoutValues(a) + LayoutValues(b)
  {
    if a.Cons? {
      JoinSizes(a.tail, b);
    }
  }

  /**
   * A value as the record holds it. Floating-point values are kept as their raw
   * bytes: the model does not interpret them.
   */
  datatype Value =
    | IntVal(i: int)
    | BoolVal(b: bool)
    | FloatVal(bits: seq<byte>)
    | BytesVal(bytes: seq<byte>)
    | ListVal(items: seq<Value>)

  /** The value `struct.unpack` produces for one value-bearing code from its bytes. */
  function UnpackCode(c: Code, bs: seq<byte>): Value
    requires !c.Skip? && |bs| == CodeWidth(c)
  {
    match c
    case U8 => IntVal(Unsigned(bs))
    case U16 => IntVal(Unsigned(bs))
    case U32 => IntVal(Unsigned(bs))
    case U64 => IntVal(Unsigned(bs))
    case I8 => IntVal(Signed(bs))
    case I16 => IntVal(Signed(bs))
    case I32 => IntVal(Signed(bs))
    case F32 => FloatVal(bs)
    case F64 => FloatVal(bs)
    case Chars(_) => BytesVal(bs)
  }

  /** The tuple `struct.unpack` returns, value by value. */
  datatype Values = Done | Then(first: Value, more: Values)

  /** Tuple concatenation. */
  function Append(x: Values, y: Values): Values
  {
    if x.Done? then y else Then(x.first, Append(x.more, y))
  }

  /** The tuple as a sequence, the form `readTo` slices. */
  function ToSeq(x: Values): seq<Value>
  {
    if x.Done? then [] else [x.first] + ToSeq(x.more)
  }

  lemma {:induction false} ToSeqAppend(x: Values, y: Values)
    ensures ToSeq(Append(x, y)) == ToSeq(x) + ToSeq(y)
  {
    if x.Then? {
      ToSeqAppend(x.more, y);
      assert [x.first] + (ToSeq(x.more) + ToSeq(y)) == ([x.first] + ToSeq(x.more)) + ToSeq(y);
    }
  }

  lemma {:induction false} AppendAssoc(x: Values, y: Values, z: Values)
    ensures Append(Append(x, y), z) == Append(x, Append(y, z))
  {
    if x.Then? {
      AppendAssoc(x.more, y, z);
    }
  }

  /**
   * The values of the code `c` read at `at`: none for pad bytes, else the one
   * `UnpackCode` gives for its bytes.
   */
  function CodeValues(c: Code, bs: seq<byte>, at: nat): Values
    requires at + CodeWidth(c) <= |bs|
  {
    if c.Skip? then Done else Then(UnpackCode(c, bs[at..at + CodeWidth(c)]), Done)
  }

  /**
   * The tuple of `struct.unpack("<" + codes, ...)` applied to the LayoutWidth(codes)
   * bytes of `bs` that start at `at`: each code reads the bytes that follow the
   * previous one's.
   */
  function UnpackValues(codes: Codes, bs: seq<byte>, at: nat): Values
    requires at + LayoutWidth(codes) <= |bs|
  {
    if codes.Nil? then Done
    else Append(CodeValues(codes.head, bs, at), UnpackValues(codes.tail, bs, at + CodeWidth(codes.head)))
  }

  lemma {:induction false} UnpackValuesJoin(a: Codes, b: Codes, bs: seq<byte>, at: nat)
    requires at + LayoutWidth(a) + LayoutWidth(b) <= |bs|
    ensures LayoutWidth(Join(a, b)) == LayoutWidth(a) + LayoutWidth(b)
    ensures UnpackValues(Join(a, b), bs, at) == Append(UnpackValues(a, bs, at), UnpackValues(b, bs, at + LayoutWidth(a)))
  {
    JoinSizes(a, b);
    if a.Cons? {
      var w := CodeWidth(a.head);
      UnpackValuesJoin(a.tail, b, bs, at + w);
      AppendAssoc(CodeValues(a.head, bs, at), UnpackValues(a.tail, bs, at + w), UnpackValues(b, bs, at + LayoutWidth(a)));
    }
  }

  lemma {:induction false} UnpackValuesCount(codes: Codes, bs: seq<byte>, at: nat)
    requires at + LayoutWidth(codes) <= |bs|
    ensures |ToSeq(UnpackValues(codes, bs, at))| == LayoutValues(codes)
  {
    if codes.Cons? {
      var w := CodeWidth(codes.head);
      UnpackValuesCount(codes.tail, bs, at + w);
      ToSeqAppend(CodeValues(codes.head, bs, at), UnpackValues(codes.tail, bs, at + w));
    }
  }

  /**
   * `struct.unpack("<" + codes, bs[at..])` as the sequence of its values: one value
   * per code that is not pad bytes.
   */
  function Unpack(codes: Codes, bs: seq<byte>, at: nat): (vs: seq<Value>)
    requires at + LayoutWidth(codes) <= |bs|
    ensures |vs| == LayoutValues(codes)
  {
    UnpackValuesCount(codes, bs, at);
    ToSeq(UnpackValues(codes, bs, at))
  }

  /** Unpacking a joined format is unpacking the second part where the first one ends. */
  lemma {:induction false} UnpackJoin(a: Codes, b: Codes, bs: seq<byte>, at: nat)
    requires at + LayoutWidth(a) + LayoutWidth(b) <= |bs|
    ensures LayoutWidth(Join(a, b)) == LayoutWidth(a) + LayoutWidth(b)
    ensures Unpack(Join(a, b), bs, at) == Unpack(a, bs, at) + Unpack(b, bs, at + LayoutWidth(a))
  {
    UnpackValuesJoin(a, b, bs, at);
    var x, y := UnpackValues(a, bs, at), UnpackValues(b, bs, at + LayoutWidth(a));
    ToSeqAppend(x, y);
  }

  /** The index of the first NUL byte of `s`, or |s| when there is none (`find("\0")`). */
  function FirstNul(s: seq<byte>): (i: nat)
    ensures i <= |s|
  {
    if s == [] then 0 else if s[0] == 0 then 0 else 1 + FirstNul(s[1..])
  }

  /** FirstNul finds a NUL byte, and no byte before it is one. */
  lemma {:induction false} FirstNulIsFirst(s: seq<byte>)
    ensures FirstNul(s) < |s| ==> s[FirstNul(s)] == 0
    ensures forall j :: 0 <= j < FirstNul(s) ==> s[j] != 0
  {
    if s != [] && s[0] != 0 {
      FirstNulIsFirst(s[1..]);
      assert forall j :: 1 <= j < FirstNul(s) ==> s[j] == s[1..][j - 1];
    }
  }

  /** BinString's decoding: the bytes before the first NUL, or all of them when there is none. */
  function Truncated(s: seq<byte>): seq<byte>
  {
    s[..FirstNul(s)]
  }

  /** The decoded string is a NUL-free prefix of the field that stops only at a NUL or the end. */
  lemma {:induction false} TruncatedIsPrefix(s: seq<byte>)
    ensures var r := Truncated(s);
            r <= s && (forall j :: 0 <= j < |r| ==> r[j] != 0) && (r == s || s[|r|] == 0)
  {
    FirstNulIsFirst(s);
  }

  /**
   * Python's `bool(val)` for the raw value a BinBool field receives; its code is "L",
   * so that value is always an integer.
   */
  predicate Truthy(v: Value)
  {
    v != IntVal(0)
  }

  /** The bytes of a string value; a string field only ever receives a string value. */
  function AsBytes(v: Value): seq<byte>
  {
    if v.BytesVal? then v.bytes else []
  }

  /** Name under which the padding family stores nothing. */
  const PadName := "_PAD"

  /** A single-valued field class as BinNull and BinArray receive it (`cls`, `element`). */
  datatype FieldClass = ScalarClass(kind: ScalarKind) | StringClass

  /** The code of `cls(name, *args)`; `bytes` is a string's length argument. */
  function ClassCode(cls: FieldClass, bytes: nat): Code
  {
    match cls
    case ScalarClass(k) => KindCode(k)
    case StringClass => Chars(bytes)
  }

  /** What a single-valued field stores under its name for its one raw value. */
  function FieldValue(cls: FieldClass, v: Value): Value
  {
    match cls
    case ScalarClass(k) => if k == Bool then BoolVal(Truthy(v)) else v
    case StringClass => BytesVal(Truncated(AsBytes(v)))
  }

  /** A field descriptor: one member of the BinDatum family. */
  datatype Datum =
      /** A BinSimple scalar: one value stored under `name`. */
    | Scalar(name: string, kind: ScalarKind, depends: seq<string>)
      /** BinString: `bytes` bytes, stored NUL-truncated under `name`. */
    | FixedString(name: string, bytes: nat, depends: seq<string>)
      /** BinPad: `bytes` pad bytes, nothing stored. */
    | Padding(name: string, bytes: nat, depends: seq<string>)
      /** BinNull(cls, name): pad bytes as wide as `cls(name)`, nothing stored. */
    | Null(name: string, cls: FieldClass)
      /** BinIgnore(datum): pad bytes as wide as `datum`, nothing stored. */
    | Ignore(datum: Datum)
      /** BinMeta: the children in order, their entries stored as "name.key". */
    | Meta(name: string, format: seq<Datum>, depends: seq<string>)
      /** BinArray: `size` elements `element(i, *args)`, stored as one list under `name`. */
    | Array(name: string, element: FieldClass, elementBytes: nat, size: nat, depends: seq<string>)
  {
    function Name(): string
    {
      if Ignore? then PadName else name
    }

    /** The names that must already be decoded before this field (`depends`). */
    function Depends(): seq<string>
      decreases this
    {
      match this
      case Scalar(_, _, deps) => deps
      case FixedString(_, _, deps) => deps
      case Padding(_, _, deps) => deps
      case Null(_, _) => []
      case Ignore(d) => d.Depends()
      case Meta(_, _, deps) => deps
      case Array(_, _, _, _, deps) => deps
    }

    /** The field's format codes (its `fstr()`). */
    function Layout(): Codes
      decreases this, 1
    {
      match this
      case Scalar(_, k, _) => Cons(KindCode(k), Nil)
      case FixedString(_, n, _) => Cons(Chars(n), Nil)
      case Padding(_, n, _) => Cons(Skip(n), Nil)
      case Null(_, cls) => Cons(Skip(CodeWidth(ClassCode(cls, 1))), Nil)
      case Ignore(d) => Cons(Skip(LayoutWidth(d.Layout())), Nil)
      case Meta(_, fs, _) => LayoutOf(fs)
      case Array(_, cls, b, n, _) => Repeat(ClassCode(cls, b), n)
    }

    /** The field's width in bytes (`struct.calcsize` of its little-endian layout). */
    function Width(): nat
    {
      LayoutWidth(Layout())
    }

    /** How many raw values the field consumes (its `count()`). */
    function Count(): nat
      decreases this, 0
    {
      match this
      case Scalar(_, _, _) => 1
      case FixedString(_, _, _) => 1
      case Padding(_, _, _) => 0
      case Null(_, _) => 0
      case Ignore(_) => 0
      case Meta(_, fs, _) => CountOf(fs)
      case Array(_, _, _, n, _) => n
    }

    /**
     * False when computing the field's layout folds an empty list of children with
     * `reduce`, which raises TypeError.
     */
    predicate Reducible()
      decreases this
    {
      match this
      case Ignore(d) => d.Reducible()
      case Meta(_, fs, _) => |fs| > 0 && AllReducible(fs)
      case Array(_, _, _, n, _) => n > 0
      case _ => true
    }
  }

  /** `n` copies of the code `c`. */
  function Repeat(c: Code, n: nat): Codes
  {
    if n == 0 then Nil else Cons(c, Repeat(c, n - 1))
  }

  /** n copies of a code are n times as wide and yield n values unless they are pad bytes. */
  lemma {:induction false} RepeatSizes(c: Code, n: nat)
    ensures LayoutWidth(Repeat(c, n)) == n * CodeWidth(c)
    ensures LayoutValues(Repeat(c, n)) == (if c.Skip? then 0 else n)
  {
    if n > 0 {
      var w := CodeWidth(c);
      RepeatSizes(c, n - 1);
      assert LayoutWidth(Repeat(c, n)) == w + LayoutWidth(Repeat(c, n - 1));
      assert n * w == (n - 1) * w + w;
    }
  }

  /** The concatenated layout of a sequence of fields, in order. */
  function LayoutOf(fs: seq<Datum>): Codes
    decreases fs, 1
  {
    if fs == [] then Nil else Join(fs[0].Layout(), LayoutOf(fs[1..]))
  }

  /** A field unpacks exactly as many values as it consumes. */
  lemma {:induction false} LayoutCount(d: Datum)
    ensures LayoutValues(d.Layout()) == d.Count()
    decreases d
  {
    match d
    case Meta(_, fs, _) => LayoutOfCount(fs);
    case Array(_, cls, b, n, _) => RepeatSizes(ClassCode(cls, b), n);
    case Ignore(_) =>
    case Null(_, _) =>
    case _ =>
  }

  /** A run of fields unpacks exactly as many values as its fields consume together. */
  lemma {:induction false} LayoutOfCount(fs: seq<Datum>)
    ensures LayoutValues(LayoutOf(fs)) == CountOf(fs)
    decreases fs
  {
    if fs != [] {
      LayoutCount(fs[0]);
      LayoutOfCount(fs[1..]);
      JoinSizes(fs[0].Layout(), LayoutOf(fs[1..]));
    }
  }

  /** The summed count of a sequence of fields. */
  function CountOf(fs: seq<Datum>): nat
    decreases fs, 0
  {
    if fs == [] then 0 else fs[0].Count() + CountOf(fs[1..])
  }

  /** The summed width of a sequence of fields. */
  function WidthOf(fs: seq<Datum>): nat
  {
    if fs == [] then 0 else fs[0].Width() + WidthOf(fs[1..])
  }

  predicate AllReducible(fs: seq<Datum>)
    decreases fs
  {
    forall i :: 0 <= i < |fs| ==> fs[i].Reducible()
  }

  /** The width of a concatenated layout is the sum of the fields' widths. */
  lemma {:induction false} LayoutOfWidth(fs: seq<Datum>)
    ensures LayoutWidth(LayoutOf(fs)) == WidthOf(fs)
  {
    if fs != [] {
      JoinSizes(fs[0].Layout(), LayoutOf(fs[1..]));
      LayoutOfWidth(fs[1..]);
    }
  }

  /**
   * The entries a field writes into a record (`fd[name] = val`), in the order it writes
   * them; an entry overwrites an earlier one with the same key.
   */
  datatype Entries = Empty | Put(key: string, value: Value, later: Entries)

  /** The entries of `a`, then those of `b`. */
  function Concat(a: Entries, b: Entries): Entries
  {
    if a.Empty? then b else Put(a.key, a.value, Concat(a.later, b))
  }

  /** The entries of `e` renamed "prefix.key", as BinMeta copies its children's entries upwards. */
  function Prefixed(prefix: string, e: Entries): Entries
  {
    if e.Empty? then Empty else Put(prefix + "." + e.key, e.value, Prefixed(prefix, e.later))
  }

  /** The record the entries leave when written one after the other into an empty record. */
  function Stored(e: Entries): map<string, Value>
  {
    if e.Empty? then map[]
    else
      var m := Stored(e.later);
      if e.key in m then m else m[e.key := e.value]
  }

  /** Writing `a` and then `b` into a record is merging the records each leaves, `b`'s winning. */
  lemma {:induction false} StoredConcat(a: Entries, b: Entries)
    ensures Stored(Concat(a, b)) == Stored(a) + Stored(b)
  {
    if a.Put? {
      StoredConcat(a.later, b);
    }
  }

  /** The value of the last entry written under `key`, if there is one. */
  function Lookup(e: Entries, key: string): Option<Value>
  {
    if e.Empty? then None
    else
      var found := Lookup(e.later, key);
      if found.Some? then found else if e.key == key then Some(e.value) else None
  }

  /** The record the entries leave holds a key exactly when some entry writes it, with the last value written. */
  lemma {:induction false} StoredLookup(e: Entries, key: string)
    ensures key in Stored(e) <==> Lookup(e, key).Some?
    ensures key in Stored(e) ==> Stored(e)[key] == Lookup(e, key).value
  {
    if e.Put? {
      StoredLookup(e.later, key);
    }
  }

  /** Writing `a` and then `b` into a record is writing the entries of both, in order. */
  lemma {:induction false} StoredAfter(data: map<string, Value>, a: Entries, b: Entries)
    ensures (data + Stored(a)) + Stored(b) == data + Stored(Concat(a, b))
  {
    StoredConcat(a, b);
    var x, y := Stored(a), Stored(b);
    assert (data + x) + y == data + (x + y);
  }

  /** Only the prefix tells qualified keys apart. */
  lemma {:induction false} QualifiedKeysDiffer(prefix: string, k: string, j: string)
    ensures prefix + "." + k == prefix + "." + j <==> k == j
  {
    assert (prefix + "." + k)[|prefix| + 1..] == k;
    assert (prefix + "." + j)[|prefix| + 1..] == j;
  }

  /** Every stored entry k reappears under "prefix.k", and no other key is stored. */
  lemma {:induction false} PrefixedEntries(prefix: string, e: Entries)
    ensures var q, m := Stored(Prefixed(prefix, e)), Stored(e);
            (forall k :: k in m ==> prefix + "." + k in q && q[prefix + "." + k] == m[k]) &&
            (forall key :: key in q ==> exists k :: k in m && key == prefix + "." + k)
  {
    if e.Put? {
      PrefixedEntries(prefix, e.later);
      forall k | k in Stored(e.later)
        ensures prefix + "." + k == prefix + "." + e.key <==> k == e.key
      {
        QualifiedKeysDiffer(prefix, k, e.key);
      }
    }
  }

  /**
   * The entries a field writes for its raw values (its `fcb()`). A composite's
   * children write into the composite's own dictionary, which it then copies upwards.
   */
  function Decode(d: Datum, vs: seq<Value>): Entries
    requires |vs| == d.Count()
    decreases d
  {
    match d
    case Scalar(name, k, _) => Put(name, FieldValue(ScalarClass(k), vs[0]), Empty)
    case FixedString(name, _, _) => Put(name, FieldValue(StringClass, vs[0]), Empty)
    case Padding(_, _, _) => Empty
    case Null(_, _) => Empty
    case Ignore(_) => Empty
    case Meta(name, fs, _) => Prefixed(name, DecodeOf(fs, vs))
    case Array(name, cls, _, _, _) => Put(name, ListVal(Elements(cls, vs)), Empty)
  }

  /** BinArray's list: every value of the tuple decoded as one element of class `cls`. */
  function Elements(cls: FieldClass, vs: seq<Value>): (items: seq<Value>)
    ensures |items| == |vs|
  {
    if vs == [] then [] else [FieldValue(cls, vs[0])] + Elements(cls, vs[1..])
  }

  /** Element k of the list is value k decoded. */
  lemma {:induction false} ElementsAt(cls: FieldClass, vs: seq<Value>, k: nat)
    requires k < |vs|
    ensures Elements(cls, vs)[k] == FieldValue(cls, vs[k])
  {
    if k > 0 {
      ElementsAt(cls, vs[1..], k - 1);
    }
  }

  /** The fields decode in order, each from the next `count()` values. */
  function DecodeOf(fs: seq<Datum>, vs: seq<Value>): Entries
    requires |vs| == CountOf(fs)
    decreases fs
  {
    if fs == [] then Empty
    else
      var c := fs[0].Count();
      Concat(Decode(fs[0], vs[..c]), DecodeOf(fs[1..], vs[c..]))
  }

  /**
   * The reference reading of a run of fields: each field decodes the values of its
   * own layout unpacked at its own start, and starts where the previous one ends.
   */
  function FieldsAt(fs: seq<Datum>, bs: seq<byte>, at: nat): Entries
    requires at + WidthOf(fs) <= |bs|
  {
    if fs == [] then Empty
    else
      var d := fs[0];
      LayoutCount(d);
      Concat(Decode(d, Unpack(d.Layout(), bs, at)), FieldsAt(fs[1..], bs, at + d.Width()))
  }

  /**
   * Unpacking the joined layout of the fields once and handing each field the next
   * `count()` values gives every field exactly the values of its own bytes.
   */
  lemma {:induction false} DecodeOfUnpack(fs: seq<Datum>, bs: seq<byte>, at: nat)
    requires at + WidthOf(fs) <= |bs|
    ensures LayoutWidth(LayoutOf(fs)) == WidthOf(fs) && LayoutValues(LayoutOf(fs)) == CountOf(fs)
    ensures DecodeOf(fs, Unpack(LayoutOf(fs), bs, at)) == FieldsAt(fs, bs, at)
  {
    if fs != [] {
      DecodeOfUnpack(fs[1..], bs, at + fs[0].Width());
      DecodeOfUnpackStep(fs, bs, at);
    }
  }

  /** DecodeOfUnpack for a run, from DecodeOfUnpack for the run without its first field. */
  lemma {:induction false} DecodeOfUnpackStep(fs: seq<Datum>, bs: seq<byte>, at: nat)
    requires fs != [] && at + WidthOf(fs) <= |bs|
    requires LayoutWidth(LayoutOf(fs[1..])) == WidthOf(fs[1..]) && LayoutValues(LayoutOf(fs[1..])) == CountOf(fs[1..])
    requires DecodeOf(fs[1..], Unpack(LayoutOf(fs[1..]), bs, at + fs[0].Width())) == FieldsAt(fs[1..], bs, at + fs[0].Width())
    ensures LayoutWidth(LayoutOf(fs)) == WidthOf(fs) && LayoutValues(LayoutOf(fs)) == CountOf(fs)
    ensures DecodeOf(fs, Unpack(LayoutOf(fs), bs, at)) == FieldsAt(fs, bs, at)
  {
    DecodeOfJoin(fs, bs, at, LayoutOf(fs), LayoutOf(fs[1..]));
    FieldsAtStep(fs, bs, at);
  }

  /** Decoding the values of a run of fields: the first field's values, then the rest's. */
  lemma {:induction false} DecodeOfJoin(fs: seq<Datum>, bs: seq<byte>, at: nat, whole: Codes, tail: Codes)
    requires fs != [] && at + WidthOf(fs) <= |bs| && whole == LayoutOf(fs) && tail == LayoutOf(fs[1..])
    ensures LayoutWidth(whole) == WidthOf(fs) && LayoutValues(whole) == CountOf(fs)
    ensures LayoutWidth(tail) == WidthOf(fs[1..]) && LayoutValues(tail) == CountOf(fs[1..])
    ensures LayoutValues(fs[0].Layout()) == fs[0].Count()
    ensures DecodeOf(fs, Unpack(whole, bs, at)) ==
            Concat(Decode(fs[0], Unpack(fs[0].Layout(), bs, at)), DecodeOf(fs[1..], Unpack(tail, bs, at + fs[0].Width())))
  {
    var d, rest, next := fs[0], fs[1..], at + fs[0].Width();
    LayoutOfCount(fs);
    LayoutOfCount(rest);
    LayoutCount(d);
    UnpackValuesSplits(fs, bs, at);
    UnpackValuesCount(d.Layout(), bs, at);
    UnpackValuesCount(tail, bs, next);
    DecodeOfAppend(fs, UnpackValues(d.Layout(), bs, at), UnpackValues(tail, bs, next));
  }

  /** The tuple of a run of fields is the first field's tuple followed by the rest's. */
  lemma {:induction false} UnpackValuesSplits(fs: seq<Datum>, bs: seq<byte>, at: nat)
    requires fs != [] && at + WidthOf(fs) <= |bs|
    ensures LayoutWidth(LayoutOf(fs)) == WidthOf(fs) && LayoutWidth(LayoutOf(fs[1..])) == WidthOf(fs[1..])
    ensures UnpackValues(LayoutOf(fs), bs, at) ==
            Append(UnpackValues(fs[0].Layout(), bs, at), UnpackValues(LayoutOf(fs[1..]), bs, at + fs[0].Width()))
  {
    var a, b := fs[0].Layout(), LayoutOf(fs[1..]);
    LayoutOfWidth(fs);
    LayoutOfWidth(fs[1..]);
    assert LayoutOf(fs) == Join(a, b);
    UnpackValuesJoin(a, b, bs, at);
  }

  /** DecodeOf, one field at a time: the first field decodes the first `count()` values. */
  lemma {:induction false} DecodeOfAppend(fs: seq<Datum>, x: Values, y: Values)
    requires fs != [] && |ToSeq(x)| == fs[0].Count() && |ToSeq(y)| == CountOf(fs[1..])
    ensures |ToSeq(Append(x, y))| == CountOf(fs)
    ensures DecodeOf(fs, ToSeq(Append(x, y))) == Concat(Decode(fs[0], ToSeq(x)), DecodeOf(fs[1..], ToSeq(y)))
  {
    ToSeqAppend(x, y);
    var a, b := ToSeq(x), ToSeq(y);
    assert (a + b)[..|a|] == a;
    assert (a + b)[|a|..] == b;
  }

  /** FieldsAt, one field at a time. */
  lemma {:induction false} FieldsAtStep(fs: seq<Datum>, bs: seq<byte>, at: nat)
    requires fs != [] && at + WidthOf(fs) <= |bs|
    ensures at + fs[0].Width() + WidthOf(fs[1..]) <= |bs|
    ensures LayoutValues(fs[0].Layout()) == fs[0].Count()
    ensures FieldsAt(fs, bs, at) == Concat(Decode(fs[0], Unpack(fs[0].Layout(), bs, at)), FieldsAt(fs[1..], bs, at + fs[0].Width()))
   {
    LayoutCount(fs[0]);
  }

  /** Unpacking inside a window of the bytes is unpacking the same bytes in place. */
  lemma {:induction false} UnpackValuesWindow(codes: Codes, bs: seq<byte>, lo: nat, hi: nat, at: nat)
    requires lo + at + LayoutWidth(codes) <= hi <= |bs|
    ensures UnpackValues(codes, bs[lo..hi], at) == UnpackValues(codes, bs, lo + at)
  {
    if codes.Cons? {
      var w := CodeWidth(codes.head);
      SliceOfSlice(bs, lo, hi, at, w);
      UnpackValuesWindow(codes.tail, bs, lo, hi, at + w);
    }
  }

  /** A field that stores exactly one entry, under its own name (BinSimple and BinString). */
  predicate Simple(d: Datum)
  {
    d.Scalar? || d.FixedString?
  }

  /** The one entry a simple field stores when its bytes start at `at`. */
  function SimpleValue(d: Datum, bs: seq<byte>, at: nat): Value
    requires Simple(d) && at + d.Width() <= |bs|
  {
    match d
    case Scalar(_, k, _) =>
      var c := KindCode(k);
      FieldValue(ScalarClass(k), UnpackCode(c, bs[at..at + CodeWidth(c)]))
    case FixedString(_, n, _) => FieldValue(StringClass, BytesVal(bs[at..at + n]))
  }

  /** A simple field reads one value from its bytes and writes it under its name, only. */
  lemma {:induction false} DecodeSimple(d: Datum, bs: seq<byte>, at: nat)
    requires Simple(d) && at + d.Width() <= |bs|
    ensures LayoutValues(d.Layout()) == d.Count()
    ensures Decode(d, Unpack(d.Layout(), bs, at)) == Put(d.name, SimpleValue(d, bs, at), Empty)
  {
    if d.Scalar? {
      DecodeScalar(d, bs, at);
    } else {
      DecodeString(d, bs, at);
    }
  }

  lemma {:induction false} DecodeScalar(d: Datum, bs: seq<byte>, at: nat)
    requires d.Scalar? && at + d.Width() <= |bs|
    ensures LayoutValues(d.Layout()) == d.Count()
    ensures Decode(d, Unpack(d.Layout(), bs, at)) == Put(d.name, SimpleValue(d, bs, at), Empty)
  {
    LayoutCount(d);
    var c := KindCode(d.kind);
    assert d.Layout() == Cons(c, Nil);
    UnpackSingle(c, bs, at);
  }

  lemma {:induction false} DecodeString(d: Datum, bs: seq<byte>, at: nat)
    requires d.FixedString? && at + d.Width() <= |bs|
    ensures LayoutValues(d.Layout()) == d.Count()
    ensures Decode(d, Unpack(d.Layout(), bs, at)) == Put(d.name, SimpleValue(d, bs, at), Empty)
  {
    LayoutCount(d);
    var c := Chars(d.bytes);
    assert d.Layout() == Cons(c, Nil);
    UnpackSingle(c, bs, at);
  }

  /** A one-code layout unpacks to the one value of its bytes. */
  lemma {:induction false} UnpackSingle(c: Code, bs: seq<byte>, at: nat)
    requires !c.Skip? && at + CodeWidth(c) <= |bs|
    ensures at + LayoutWidth(Cons(c, Nil)) <= |bs|
    ensures Unpack(Cons(c, Nil), bs, at) == [UnpackCode(c, bs[at..at + CodeWidth(c)])]
  {
    var v := UnpackCode(c, bs[at..at + CodeWidth(c)]);
    assert CodeValues(c, bs, at) == Then(v, Done);
    assert UnpackValues(Nil, bs, at + CodeWidth(c)) == Done;
    assert Append(Then(v, Done), Done) == Then(v, Append(Done, Done)) == Then(v, Done);
    assert UnpackValues(Cons(c, Nil), bs, at) == Then(v, Done);
    assert ToSeq(Then(v, Done)) == [v] + ToSeq(Done) == [v];
  }

  /** Every field of the run is simple. */
  predicate AllSimple(fs: seq<Datum>)
  {
    forall j :: 0 <= j < |fs| ==> Simple(fs[j])
  }

  /** Looking a key up in two runs of entries: the later run wins. */
  lemma {:induction false} LookupConcat(a: Entries, b: Entries, key: string)
    ensures Lookup(Concat(a, b), key) == if Lookup(b, key).Some? then Lookup(b, key) else Lookup(a, key)
  {
    if a.Put? {
      LookupConcat(a.later, b, key);
    }
  }

  /** A simple field finds its value under its own name. */
  lemma {:induction false} DecodeFound(d: Datum, bs: seq<byte>, at: nat)
    requires Simple(d) && at + d.Width() <= |bs|
    ensures LayoutValues(d.Layout()) == d.Count()
    ensures Lookup(Decode(d, Unpack(d.Layout(), bs, at)), d.Name()) == Some(SimpleValue(d, bs, at))
  {
    DecodeSimple(d, bs, at);
  }

  /** A simple field stores something under its own name. */
  lemma {:induction false} DecodeFinds(d: Datum, bs: seq<byte>, at: nat)
    requires Simple(d) && at + d.Width() <= |bs|
    ensures LayoutValues(d.Layout()) == d.Count()
    ensures Lookup(Decode(d, Unpack(d.Layout(), bs, at)), d.Name()).Some?
  {
    DecodeFound(d, bs, at);
  }

  /** A simple field stores nothing under any other name. */
  lemma {:induction false} DecodeMissing(d: Datum, bs: seq<byte>, at: nat, key: string)
    requires Simple(d) && at + d.Width() <= |bs| && d.Name() != key
    ensures LayoutValues(d.Layout()) == d.Count()
    ensures Lookup(Decode(d, Unpack(d.Layout(), bs, at)), key) == None
  {
    DecodeSimple(d, bs, at);
  }

  /** Simple fields none of which is named `key` store nothing under it. */
  lemma {:induction false} FieldsAtMissing(fs: seq<Datum>, bs: seq<byte>, at: nat, key: string)
    requires at + WidthOf(fs) <= |bs| && AllSimple(fs)
    requires forall j :: 0 <= j < |fs| ==> fs[j].Name() != key
    ensures Lookup(FieldsAt(fs, bs, at), key) == None
  {
    if fs != [] {
      var rest := fs[1..];
      assert forall j :: 0 <= j < |rest| ==> rest[j] == fs[j + 1];
      FieldsAtMissing(rest, bs, at + fs[0].Width(), key);
      FieldsAtSkips(fs, bs, at, key);
    }
  }

  /** A simple first field not named `key` leaves the lookup of `key` to the fields after it. */
  lemma {:induction false} FieldsAtSkips(fs: seq<Datum>, bs: seq<byte>, at: nat, key: string)
    requires fs != [] && at + WidthOf(fs) <= |bs| && Simple(fs[0]) && fs[0].Name() != key
    ensures Lookup(FieldsAt(fs, bs, at), key) == Lookup(FieldsAt(fs[1..], bs, at + fs[0].Width()), key)
  {
    FieldsAtStep(fs, bs, at);
    DecodeMissing(fs[0], bs, at, key);
    LookupConcat(Decode(fs[0], Unpack(fs[0].Layout(), bs, at)), FieldsAt(fs[1..], bs, at + fs[0].Width()), key);
  }

  /** The width of the first k fields is the first one's and that of the next k - 1. */
  lemma {:induction false} WidthOfPrefixStep(fs: seq<Datum>, k: nat)
    requires 0 < k <= |fs|
    ensures WidthOf(fs[..k]) == fs[0].Width() + WidthOf(fs[1..][..k - 1])
  {
    assert fs[..k][1..] == fs[1..][..k - 1];
  }

  /**
   * Field k of a run of simple fields laid out from `at` is the last one named `key`,
   * and its bytes start at `start`, after the widths of the fields before it.
   */
  predicate LastNamed(fs: seq<Datum>, bs: seq<byte>, at: nat, k: nat, key: string, start: nat)
  {
    at + WidthOf(fs) <= |bs| && k < |fs| && AllSimple(fs) &&
    fs[k].Name() == key && (forall j :: k < j < |fs| ==> fs[j].Name() != key) &&
    start == at + WidthOf(fs[..k])
  }

  /** What a run of simple fields stores under `key` is what its last field of that name stores. */
  lemma {:induction false} FieldsAtLast(fs: seq<Datum>, bs: seq<byte>, at: nat, k: nat, key: string, start: nat)
    requires LastNamed(fs, bs, at, k, key, start)
    ensures start + fs[k].Width() <= |bs| && LayoutValues(fs[k].Layout()) == fs[k].Count()
    ensures Lookup(FieldsAt(fs, bs, at), key) == Lookup(Decode(fs[k], Unpack(fs[k].Layout(), bs, start)), key)
    ensures Lookup(FieldsAt(fs, bs, at), key).Some?
  {
    if k == 0 {
      assert fs[..0] == [];
      FieldsAtLastHere(fs, bs, at, key);
    } else {
      LastNamedTail(fs, bs, at, k, key, start);
      FieldsAtLast(fs[1..], bs, at + fs[0].Width(), k - 1, key, start);
      FieldsAtLastLater(fs, bs, at, k, key, start);
    }
  }

  /** The fields after the first one still have field k - 1 as the last one named `key`. */
  lemma {:induction false} LastNamedTail(fs: seq<Datum>, bs: seq<byte>, at: nat, k: nat, key: string, start: nat)
    requires LastNamed(fs, bs, at, k, key, start) && k > 0
    ensures LastNamed(fs[1..], bs, at + fs[0].Width(), k - 1, key, start)
  {
    var rest := fs[1..];
    assert forall j :: 0 <= j < |rest| ==> rest[j] == fs[j + 1];
    WidthOfPrefixStep(fs, k);
  }

  /** FieldsAtLast when the first field is the last one named `key`. */
  lemma {:induction false} FieldsAtLastHere(fs: seq<Datum>, bs: seq<byte>, at: nat, key: string)
    requires LastNamed(fs, bs, at, 0, key, at)
    ensures at + fs[0].Width() <= |bs| && LayoutValues(fs[0].Layout()) == fs[0].Count()
    ensures Lookup(FieldsAt(fs, bs, at), key) == Lookup(Decode(fs[0], Unpack(fs[0].Layout(), bs, at)), key)
    ensures Lookup(FieldsAt(fs, bs, at), key).Some?
  {
    LaterMissing(fs, bs, at, key);
    FieldsAtStep(fs, bs, at);
    DecodeFinds(fs[0], bs, at);
    LookupConcat(Decode(fs[0], Unpack(fs[0].Layout(), bs, at)), FieldsAt(fs[1..], bs, at + fs[0].Width()), key);
  }

  /** When the first field is the last one named `key`, the fields after it store nothing under it. */
  lemma {:induction false} LaterMissing(fs: seq<Datum>, bs: seq<byte>, at: nat, key: string)
    requires LastNamed(fs, bs, at, 0, key, at)
    ensures at + fs[0].Width() + WidthOf(fs[1..]) <= |bs|
    ensures Lookup(FieldsAt(fs[1..], bs, at + fs[0].Width()), key) == None
  {
    var rest := fs[1..];
    assert forall j :: 0 <= j < |rest| ==> rest[j] == fs[j + 1];
    FieldsAtMissing(rest, bs, at + fs[0].Width(), key);
  }

  /** FieldsAtLast when a later field is the last one named `key`, given it for the later fields. */
  lemma {:induction false} FieldsAtLastLater(fs: seq<Datum>, bs: seq<byte>, at: nat, k: nat, key: string, start: nat)
    requires LastNamed(fs, bs, at, k, key, start) && k > 0
    requires start + fs[k].Width() <= |bs| && LayoutValues(fs[k].Layout()) == fs[k].Count()
    requires var tail := FieldsAt(fs[1..], bs, at + fs[0].Width());
             Lookup(tail, key) == Lookup(Decode(fs[k], Unpack(fs[k].Layout(), bs, start)), key) && Lookup(tail, key).Some?
    ensures Lookup(FieldsAt(fs, bs, at), key) == Lookup(Decode(fs[k], Unpack(fs[k].Layout(), bs, start)), key)
    ensures Lookup(FieldsAt(fs, bs, at), key).Some?
  {
    FieldsAtStep(fs, bs, at);
    LookupConcat(Decode(fs[0], Unpack(fs[0].Layout(), bs, at)), FieldsAt(fs[1..], bs, at + fs[0].Width()), key);
  }

  /**
   * In a run of simple fields, the entry stored under `key` is the one field k decodes
   * from its own bytes, which start after the widths of the fields before it, as long
   * as no later field has the same name.
   */
  lemma {:induction false} FieldsAtLookup(fs: seq<Datum>, bs: seq<byte>, at: nat, k: nat, key: string, start: nat)
    requires LastNamed(fs, bs, at, k, key, start)
    ensures start + fs[k].Width() <= |bs|
    ensures key in Stored(FieldsAt(fs, bs, at)) && Stored(FieldsAt(fs, bs, at))[key] == SimpleValue(fs[k], bs, start)
  {
    FieldsAtLast(fs, bs, at, k, key, start);
    DecodeFound(fs[k], bs, start);
    StoredLookup(FieldsAt(fs, bs, at), key);
  }

  /** The width of consecutive runs of fields adds up. */
  lemma {:induction false} WidthOfAppend(a: seq<Datum>, b: seq<Datum>)
    ensures WidthOf(a + b) == WidthOf(a) + WidthOf(b)
  {
    if a != [] {
      assert (a + b)[1..] == a[1..] + b;
      WidthOfAppend(a[1..], b);
    } else {
      assert a + b == b;
    }
  }

  /** BinPad, BinNull and BinIgnore consume no values and store nothing. */
  lemma {:induction false} PaddingStoresNothing(d: Datum, vs: seq<Value>)
    requires d.Padding? || d.Null? || d.Ignore?
    requires |vs| == d.Count()
    ensures d.Count() == 0 && vs == []
    ensures Decode(d, vs) == Empty
  {
  }

  /**
   * BinIgnore is as wide as the datum it wraps, waits for the same fields, and
   * consumes none of its values.
   */
  lemma {:induction false} IgnoreKeepsWidth(d: Datum)
    ensures Ignore(d).Width() == d.Width()
    ensures Ignore(d).Depends() == d.Depends()
    ensures Ignore(d).Count() == 0 && Ignore(d).Name() == PadName
  {
    var w := LayoutWidth(d.Layout());
    assert Ignore(d).Layout() == Cons(Skip(w), Nil);
    assert LayoutWidth(Cons(Skip(w), Nil)) == CodeWidth(Skip(w)) + LayoutWidth(Nil) == w;
  }

  /** BinNull(cls, name) is as wide as the field `cls(name)` and has no dependencies. */
  lemma {:induction false} NullKeepsWidth(name: string, cls: FieldClass)
    ensures cls.ScalarClass? ==> Null(name, cls).Width() == Scalar(name, cls.kind, []).Width()
    ensures cls.StringClass? ==> Null(name, cls).Width() == FixedString(name, 1, []).Width()
    ensures Null(name, cls).Depends() == [] && Null(name, cls).Count() == 0
  {
  }

  /** A BinMeta consumes the sum of its children's counts and is as wide as all of them together. */
  lemma {:induction false} MetaSizes(name: string, fs: seq<Datum>, deps: seq<string>)
    ensures Meta(name, fs, deps).Count() == CountOf(fs)
    ensures Meta(name, fs, deps).Width() == WidthOf(fs)
  {
    LayoutOfWidth(fs);
  }

  /**
   * A BinMeta stores every entry k its children store as "name.k" with the same value,
   * and stores no other key.
   */
  lemma {:induction false} MetaQualifies(name: string, fs: seq<Datum>, deps: seq<string>, vs: seq<Value>)
    requires |vs| == CountOf(fs)
    ensures var out, inner := Stored(Decode(Meta(name, fs, deps), vs)), Stored(DecodeOf(fs, vs));
            (forall k :: k in inner ==> name + "." + k in out && out[name + "." + k] == inner[k]) &&
            (forall key :: key in out ==> exists k :: k in inner && key == name + "." + k)
  {
    PrefixedEntries(name, DecodeOf(fs, vs));
  }

  /**
   * A BinArray writes one entry, under its own name: the list of its `size` element
   * values in index order; it is `size` elements wide.
   */
  lemma {:induction false} ArrayList(name: string, cls: FieldClass, b: nat, n: nat, deps: seq<string>, vs: seq<Value>)
    requires |vs| == n
    ensures var out := Decode(Array(name, cls, b, n, deps), vs);
            out.Put? && out.key == name && out.later == Empty && out.value.ListVal? &&
            |out.value.items| == n && forall k :: 0 <= k < n ==> out.value.items[k] == FieldValue(cls, vs[k])
    ensures Array(name, cls, b, n, deps).Width() == n * CodeWidth(ClassCode(cls, b))
  {
    RepeatSizes(ClassCode(cls, b), n);
    forall k | 0 <= k < n
      ensures Elements(cls, vs)[k] == FieldValue(cls, vs[k])
    {
      ElementsAt(cls, vs, k);
    }
  }
}
