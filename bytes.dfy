/** Option and Result: how the model reports the exceptions the reader raises. */
module Results {
  datatype Option<+T> = None | Some(value: T)

  datatype Result<+T, +E> = Success(value: T) | Failure(error: E)
}

/**
 * Bytes of a file and the little-endian integers the `struct` module reads from
 * them with its standard sizes (format strings that start with "<").
 */
module Bytes {

  /** One byte of a file. */
  newtype byte = b: int | 0 <= b < 256

  /** 256 to the power n: the number of distinct values an n-byte field holds. */
  function Pow256(n: nat): (r: nat)
    ensures r > 0
  {
    if n == 0 then 1 else 256 * Pow256(n - 1)
  }

  /** The unsigned integer whose little-endian encoding is `bs` (bs[0] is least significant). */
  function Unsigned(bs: seq<byte>): (r: nat)
    ensures r < Pow256(|bs|)
  {
    if bs == [] then 0 else bs[0] as nat + 256 * Unsigned(bs[1..])
  }

  /**
   * The two's-complement reading of the same bytes (struct codes "b", "h", "l"):
   * the one value of the signed range that differs from the unsigned reading by a
   * multiple of 256^|bs| (zero or one of them).
   */
  function Signed(bs: seq<byte>): (r: int)
    requires |bs| > 0
    ensures -(Pow256(|bs|) / 2) <= r < Pow256(|bs|) / 2
    ensures r == Unsigned(bs) || r == Unsigned(bs) - Pow256(|bs|)
  {
    var u, p, half := Unsigned(bs), Pow256(|bs|), 128 * Pow256(|bs| - 1);
    assert p == 2 * half && p / 2 == half;
    if u < half then u else u - p
  }

  /** The w-byte little-endian encoding of n modulo 256^w: the inverse of Unsigned. */
  function Encode(n: nat, w: nat): (bs: seq<byte>)
    ensures |bs| == w
  {
    if w == 0 then [] else [(n % 256) as byte] + Encode(n / 256, w - 1)
  }

  lemma {:induction false} UnsignedOfEncode(n: nat, w: nat)
    requires n < Pow256(w)
    ensures Unsigned(Encode(n, w)) == n
  {
    if w > 0 {
      var q, r := n / 256, n % 256;
      assert n == 256 * q + r && 0 <= r < 256;
      assert q < Pow256(w - 1);
      UnsignedOfEncode(q, w - 1);
      var bs := Encode(n, w);
      assert bs[0] as nat == r;
      assert bs[1..] == Encode(q, w - 1);
      assert Unsigned(bs) == r + 256 * q;
    }
  }

  lemma {:induction false} EncodeOfUnsigned(bs: seq<byte>)
    ensures Encode(Unsigned(bs), |bs|) == bs
  {
    if bs != [] {
      var b, u := bs[0] as nat, Unsigned(bs[1..]);
      EncodeOfUnsigned(bs[1..]);
      var n := Unsigned(bs);
      assert n == b + 256 * u && b < 256;
      assert n % 256 == b && n / 256 == u;
      assert (b as byte) == bs[0];
      assert Encode(n, |bs|) == [bs[0]] + bs[1..];
    }
  }

  /**
   * What `seek(at)` followed by `read(n)` returns: at most n bytes starting at `at`,
   * fewer when the file ends first, none when `at` lies past its end.
   */
  function Read(file: seq<byte>, at: nat, n: nat): (r: seq<byte>)
    ensures |r| <= n
    ensures |r| == n <==> n == 0 || at + n <= |file|
    ensures at + n <= |file| ==> r == file[at..at + n]
  {
    if at >= |file| then []
    else if at + n <= |file| then file[at..at + n]
    else file[at..]
  }

  /** A slice of a slice is a slice of the whole. */
  lemma {:induction false} SliceOfSlice(bs: seq<byte>, lo: nat, hi: nat, at: nat, w: nat)
    requires lo + at + w <= hi <= |bs|
    ensures bs[lo..hi][at..at + w] == bs[lo + at..lo + at + w]
  {
    var a, b := bs[lo..hi][at..at + w], bs[lo + at..lo + at + w];
    forall j | 0 <= j < w
      ensures a[j] == b[j]
    {
      assert a[j] == bs[lo..hi][at + j];
    }
  }
}
