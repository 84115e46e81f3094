/** The part of CBOR (section 3 of RFC 8949) that bundles are written in: heads, unsigned integers, byte and text
    strings, and arrays. */
module Cbor {
  import opened Bytes

  const UINT := 0
  const BYTES := 2
  const TEXT := 3
  const ARRAY := 4

  /** Number of bytes of the shortest head with argument v. */
  function HeadSize(v: u64): (n: nat)
    ensures 1 <= n <= 9
  {
    if v < 24 then 1 else if v < 0x100 then 2 else if v < 0x1_0000 then 3 else if v < 0x1_0000_0000 then 5 else 9
  }

  lemma HeadSizeMonotone(v: u64, w: u64)
    requires v <= w
    ensures HeadSize(v) <= HeadSize(w)
  {
  }

  /** The shortest head. */
  function Head(major: nat, v: u64): (s: bytes)
    requires major < 8
    ensures |s| == HeadSize(v)
  {
    if v < 24 then [0x20 * major + v]
    else if v < 0x100 then [0x20 * major + 24, v]
    else if v < 0x1_0000 then [0x20 * major + 25] + Be16(v)
    else if v < 0x1_0000_0000 then [0x20 * major + 26] + Be32(v)
    else [0x20 * major + 27] + Be64(v)
  }

  datatype HeadRead =
    | Definite(major: nat, value: u64, next: nat)
    | Indefinite(major: nat, next: nat)
    | NoHead

  /** Reads a head at position i, of any length that holds its argument. */
  function ReadHead(s: bytes, i: nat): (h: HeadRead)
    ensures h.Definite? ==> i < h.next <= |s| && h.major < 8
    ensures h.Indefinite? ==> i < h.next <= |s|
  {
    if i >= |s| then NoHead else
    var major, info := s[i] / 0x20, s[i] % 0x20;
    if info < 24 then Definite(major, info, i + 1)
    else if info == 24 then if i + 2 <= |s| then Definite(major, s[i + 1], i + 2) else NoHead
    else if info == 25 then if i + 3 <= |s| then Definite(major, U16(s, i + 1), i + 3) else NoHead
    else if info == 26 then if i + 5 <= |s| then Definite(major, U32(s, i + 1), i + 5) else NoHead
    else if info == 27 then if i + 9 <= |s| then Definite(major, U64(s, i + 1), i + 9) else NoHead
    else if info == 31 then Indefinite(major, i + 1)
    else NoHead
  }

  /** s holds e at position i. */
  predicate At(s: bytes, i: nat, e: bytes) {
    i + |e| <= |s| && s[i..i + |e|] == e
  }

  lemma AtSplit(s: bytes, i: nat, a: bytes, b: bytes)
    requires At(s, i, a + b)
    ensures At(s, i, a) && At(s, i + |a|, b)
  {
    assert s[i..i + |a|] == (a + b)[..|a|];
    assert s[i + |a|..i + |a| + |b|] == (a + b)[|a|..];
  }

  lemma AtByte(s: bytes, i: nat, e: bytes, k: nat)
    requires At(s, i, e) && k < |e|
    ensures s[i + k] == e[k]
  {
    assert s[i..i + |e|][k] == e[k];
  }

  /** Reading what was written gives it back and stops right behind it. */
  lemma HeadRoundTrip(s: bytes, i: nat, major: nat, v: u64)
    requires major < 8 && At(s, i, Head(major, v))
    ensures ReadHead(s, i) == Definite(major, v, i + HeadSize(v))
  {
    hide FromBE, Pow256;
    var e := Head(major, v);
    AtByte(s, i, e, 0);
    if 24 <= v < 0x100 {
      AtByte(s, i, e, 1);
    } else if 0x100 <= v < 0x1_0000 {
      AtSplit(s, i, [0x20 * major + 25], Be16(v));
    } else if 0x1_0000 <= v < 0x1_0000_0000 {
      AtSplit(s, i, [0x20 * major + 26], Be32(v));
    } else if 0x1_0000_0000 <= v {
      AtSplit(s, i, [0x20 * major + 27], Be64(v));
    }
  }

  // ----- values

  /** `Unmodelled`: the original would go on to read a value this model does not cover. */
  datatype Parsed<+T> = Parsed(value: T, next: nat) | Malformed | Panics | Unmodelled {
    predicate IsFailure() {
      !Parsed?
    }

    function PropagateFailure<U>(): (r: Parsed<U>)
      requires IsFailure()
      ensures r.IsFailure()
    {
      match this
      case Malformed => Malformed
      case Panics => Panics
      case Unmodelled => Unmodelled
    }

    function Extract(): (r: Parsed<T>)
      requires !IsFailure()
      ensures r.Parsed? && r == this
    {
      this
    }
  }

  function Uint(v: u64): (s: bytes)
    ensures |s| == HeadSize(v)
  {
    Head(UINT, v)
  }

  function ReadUint(s: bytes, i: nat): (r: Parsed<u64>)
    ensures r.Parsed? ==> i < r.next <= |s|
  {
    var h := ReadHead(s, i);
    if h.Definite? && h.major == UINT then Parsed(h.value, h.next) else Malformed
  }

  lemma UintRoundTrip(s: bytes, i: nat, v: u64)
    requires At(s, i, Uint(v))
    ensures ReadUint(s, i) == Parsed(v, i + HeadSize(v))
  {
    hide Head, ReadHead;
    HeadRoundTrip(s, i, UINT, v);
  }

  function Text(t: bytes): (s: bytes)
    requires |t| < 0x1_0000_0000_0000_0000
    ensures |s| == HeadSize(|t|) + |t|
  {
    Head(TEXT, |t|) + t
  }

  function ByteString(t: bytes): (s: bytes)
    requires |t| < 0x1_0000_0000_0000_0000
    ensures |s| == HeadSize(|t|) + |t|
  {
    Head(BYTES, |t|) + t
  }

  /** A borrowed byte string; a text string will do as well. */
  function ReadBytes(s: bytes, i: nat): (r: Parsed<bytes>)
    ensures r.Parsed? ==> i < r.next <= |s| && |r.value| <= |s|
  {
    var h := ReadHead(s, i);
    if h.Definite? && (h.major == BYTES || h.major == TEXT) && h.next + h.value <= |s| then
      var t := s[h.next..h.next + h.value];
      if h.major == BYTES || Utf8Valid(t) then Parsed(t, h.next + h.value) else Malformed
    else Malformed
  }

  lemma BytesRoundTrip(s: bytes, i: nat, t: bytes)
    requires |t| < 0x1_0000_0000_0000_0000 && At(s, i, ByteString(t))
    ensures ReadBytes(s, i) == Parsed(t, i + |ByteString(t)|)
  {
    hide Head, ReadHead, Utf8Valid;
    AtSplit(s, i, Head(BYTES, |t|), t);
    HeadRoundTrip(s, i, BYTES, |t|);
  }

  function ArrayHead(n: u64): (s: bytes)
    ensures |s| == HeadSize(n)
  {
    Head(ARRAY, n)
  }

  /** The start of an array: its number of elements, `None` if it is closed by a break instead. */
  function ReadArray(s: bytes, i: nat): (r: Parsed<Option<u64>>)
    ensures r.Parsed? ==> i < r.next <= |s|
  {
    match ReadHead(s, i)
    case Definite(major, n, next) => if major == ARRAY then Parsed(Some(n), next) else Malformed
    case Indefinite(major, next) => if major == ARRAY then Parsed(None, next) else Malformed
    case NoHead => Malformed
  }

  lemma ArrayRoundTrip(s: bytes, i: nat, n: u64)
    requires At(s, i, ArrayHead(n))
    ensures ReadArray(s, i) == Parsed(Some(n), i + HeadSize(n))
  {
    hide Head, ReadHead;
    HeadRoundTrip(s, i, ARRAY, n);
  }
}
