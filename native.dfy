/**
 * `struct.calcsize` of a format string WITHOUT the "<" prefix, as BinDatum.length
 * (norpix.py:193-194) and BinIgnore.fstr (norpix.py:276-277) call it: native sizes
 * and native alignment, where every item starts at a multiple of its own alignment.
 * BinNull and BinIgnore size their padding this way, while BinParser reads the
 * padding with "<", standard sizes and no alignment.
 */
module Native {
  import opened Fields

  /**
   * What the platform's C compiler decides: the size of a C long (8 on 64-bit Linux
   * and macOS, 4 on Windows and 32-bit systems) and the alignment of the 8-byte items
   * double and long long (8 on 64-bit systems, 4 on 32-bit x86 Linux).
   */
  datatype Platform = Platform(longBytes: nat, wideAlign: nat)

  /** 64-bit Linux and macOS. */
  const LP64 := Platform(8, 8)

  /** Native size of one code. */
  function NativeSize(c: Code, p: Platform): nat
  {
    match c
    case U32 => p.longBytes
    case I32 => p.longBytes
    case _ => CodeWidth(c)
  }

  /** Native alignment of one code; strings and pad bytes need none. */
  function NativeAlign(c: Code, p: Platform): nat
  {
    match c
    case U16 => 2
    case I16 => 2
    case U32 => p.longBytes
    case I32 => p.longBytes
    case F32 => 4
    case F64 => p.wideAlign
    case U64 => p.wideAlign
    case _ => 1
  }

  /** The first multiple of `align` at or after `at`. */
  function AlignUp(at: nat, align: nat): (r: nat)
    ensures at <= r
    ensures align > 0 ==> r < at + align && r % align == 0
  {
    if align == 0 || at % align == 0 then at
    else
      var q := at / align;
      assert at + (align - at % align) == (q + 1) * align;
      MultipleMod(q + 1, align);
      at + (align - at % align)
  }

  /** A multiple of b leaves no remainder. */
  lemma {:induction false} MultipleMod(q: nat, b: nat)
    requires b > 0
    ensures (q * b) % b == 0
  {
    var x := q * b;
    var m, rem := x / b, x % b;
    assert x == m * b + rem && 0 <= rem < b;
    var d := q - m;
    assert d * b == rem;
    if d >= 1 {
      assert d * b == (d - 1) * b + b;
    } else if d <= -1 {
      assert d * b == (d + 1) * b - b;
    }
  }

  /** Where a layout laid out natively from `at` ends. */
  function NativeEnd(codes: Codes, p: Platform, at: nat): (r: nat)
    ensures at <= r
  {
    if codes.Nil? then at
    else NativeEnd(codes.tail, p, AlignUp(at, NativeAlign(codes.head, p)) + NativeSize(codes.head, p))
  }

  /** `struct.calcsize` of a layout without "<". */
  function CalcSize(codes: Codes, p: Platform): nat
  {
    NativeEnd(codes, p, 0)
  }

  /**
   * The pad width the code gives BinNull and BinIgnore: the native size of `cls(name)`,
   * and of the wrapped datum's layout.
   */
  function PadWidthAsWritten(d: Datum, p: Platform): nat
    requires d.Null? || d.Ignore?
  {
    match d
    case Null(_, cls) => CalcSize(Cons(ClassCode(cls, 1), Nil), p)
    case Ignore(inner) => CalcSize(inner.Layout(), p)
  }

  /** A layout whose items need no alignment and keep their standard sizes. */
  predicate Unaligned(codes: Codes)
  {
    codes.Cons? ==>
      (codes.head.U8? || codes.head.I8? || codes.head.Chars? || codes.head.Skip?) && Unaligned(codes.tail)
  }

  /** Without items that need alignment, native and standard sizes agree. */
  lemma {:induction false} NativeMatchesStandard(codes: Codes, p: Platform, at: nat)
    requires Unaligned(codes)
    ensures NativeEnd(codes, p, at) == at + LayoutWidth(codes)
  {
    if codes.Cons? {
      NativeMatchesStandard(codes.tail, p, at + CodeWidth(codes.head));
    }
  }

  /**
   * On every platform, ignoring a composite of a byte and a word pads 4 bytes in
   * the code (the word is aligned to offset 2) though the composite is 3 bytes wide;
   * the pad the model uses is the composite's own width.
   */
  lemma {:induction false} IgnoreOfByteWord(p: Platform)
    ensures var d := Ignore(Meta("m", [Scalar("a", Byte, []), Scalar("b", Word, [])], []));
            PadWidthAsWritten(d, p) == 4 && d.Width() == 3
  {
    var m := Meta("m", [Scalar("a", Byte, []), Scalar("b", Word, [])], []);
    assert m.Layout() == Cons(U8, Cons(U16, Nil));
    assert AlignUp(1, 2) == 2;
    assert NativeEnd(Cons(U16, Nil), p, 1) == 4;
    assert NativeEnd(m.Layout(), p, 0) == NativeEnd(Cons(U16, Nil), p, 1);
  }

  /**
   * On a 64-bit Linux host, BinNull(BinDWord) and BinIgnore of a BinDWord pad 8 bytes
   * in the code where the field is 4 bytes wide.
   */
  lemma {:induction false} DWordPadOnLP64(name: string)
    ensures PadWidthAsWritten(Null(name, ScalarClass(DWord)), LP64) == 8
    ensures PadWidthAsWritten(Ignore(Scalar(name, DWord, [])), LP64) == 8
    ensures Null(name, ScalarClass(DWord)).Width() == 4 && Ignore(Scalar(name, DWord, [])).Width() == 4
  {
  }

  /**
   * The padding of a field made only of bytes, characters and strings is the same
   * natively and in the standard sizes, so there the code's width and the model's agree.
   */
  lemma {:induction false} PadWidthAgreesWhenUnaligned(d: Datum, p: Platform)
    requires d.Ignore? && Unaligned(d.datum.Layout())
    ensures PadWidthAsWritten(d, p) == d.Width()
  {
    var inner := d.datum;
    NativeMatchesStandard(inner.Layout(), p, 0);
    assert d == Ignore(inner);
    assert PadWidthAsWritten(d, p) == NativeEnd(inner.Layout(), p, 0);
    var w := LayoutWidth(inner.Layout());
    assert d.Layout() == Cons(Skip(w), Nil);
    assert LayoutWidth(Cons(Skip(w), Nil)) == CodeWidth(Skip(w)) + LayoutWidth(Nil) == w;
  }
}
