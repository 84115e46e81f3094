/** Bytes, fixed-width big-endian integers and UTF-8 validity, shared by the wire formats. */
module Bytes {

  type u8 = x: int | 0 <= x < 0x100
  type u16 = x: int | 0 <= x < 0x1_0000
  type u32 = x: int | 0 <= x < 0x1_0000_0000
  type u64 = x: int | 0 <= x < 0x1_0000_0000_0000_0000

  type bytes = seq<u8>

  datatype Option<+T> = None | Some(value: T)

  function Min(a: int, b: int): int {
    if a <= b then a else b
  }

  function Max(a: int, b: int): int {
    if a >= b then a else b
  }

  function Pow256(k: nat): (p: nat)
    ensures p >= 1
  {
    if k == 0 then 1 else 0x100 * Pow256(k - 1)
  }

  lemma WidthBounds()
    ensures Pow256(1) == 0x100
    ensures Pow256(2) == 0x1_0000
    ensures Pow256(4) == 0x1_0000_0000
    ensures Pow256(8) == 0x1_0000_0000_0000_0000
  {
    assert Pow256(2) == 0x100 * Pow256(1);
    assert Pow256(3) == 0x100 * Pow256(2);
    assert Pow256(4) == 0x100 * Pow256(3);
    assert Pow256(5) == 0x100 * Pow256(4);
    assert Pow256(6) == 0x100 * Pow256(5);
    assert Pow256(7) == 0x100 * Pow256(6);
    assert Pow256(8) == 0x100 * Pow256(7);
  }

  /** The number a big-endian byte string stands for. */
  function FromBE(s: bytes): (v: nat)
    ensures v < Pow256(|s|)
  {
    if s == [] then 0 else 0x100 * FromBE(s[..|s| - 1]) + s[|s| - 1]
  }

  /** The k-byte big-endian form of v; reading it back gives v. */
  function ToBE(v: nat, k: nat): (s: bytes)
    requires v < Pow256(k)
    ensures |s| == k && FromBE(s) == v
  {
    if k == 0 then [] else
      var high := ToBE(v / 0x100, k - 1);
      assert (high + [v % 0x100])[..k - 1] == high;
      high + [v % 0x100]
  }

  function Be16(v: u16): (s: bytes)
    ensures |s| == 2 && FromBE(s) == v
  {
    WidthBounds(); ToBE(v, 2)
  }

  function Be32(v: u32): (s: bytes)
    ensures |s| == 4 && FromBE(s) == v
  {
    WidthBounds(); ToBE(v, 4)
  }

  function Be64(v: u64): (s: bytes)
    ensures |s| == 8 && FromBE(s) == v
  {
    WidthBounds(); ToBE(v, 8)
  }

  /** The big-endian number in s at position i. */
  function U16(s: bytes, i: nat): (v: u16)
    requires i + 2 <= |s|
  {
    WidthBounds(); FromBE(s[i..i + 2])
  }

  function U32(s: bytes, i: nat): (v: u32)
    requires i + 4 <= |s|
  {
    WidthBounds(); FromBE(s[i..i + 4])
  }

  function U64(s: bytes, i: nat): (v: u64)
    requires i + 8 <= |s|
  {
    WidthBounds(); FromBE(s[i..i + 8])
  }

  function Zeros(n: nat): (s: bytes)
    ensures |s| == n
  {
    seq(n, _ => 0)
  }

  // ----- slices of concatenations

  lemma SliceOfPrefix(s: bytes, more: bytes, i: nat, j: nat)
    requires i <= j <= |s|
    ensures (s + more)[i..j] == s[i..j]
  {
  }

  /** If a part of s starts with a, then that slice of s is a, and the part behind it follows. */
  lemma Field(s: bytes, i: nat, a: bytes, tail: bytes)
    requires i <= |s| && s[i..] == a + tail
    ensures i + |a| <= |s| && s[i..i + |a|] == a && s[i + |a|..] == tail
  {
    assert s[i..i + |a|] == s[i..][..|a|];
    assert s[i + |a|..] == s[i..][|a|..];
  }

  lemma Assoc(a: bytes, b: bytes, c: bytes)
    ensures (a + b) + c == a + (b + c)
  {
  }

  /** Is s well-formed UTF-8 (section 4 of RFC 3629)? */
  predicate Utf8Valid(s: bytes) {
    s == [] ||
    var n := Utf8SequenceLength(s);
    1 <= n <= |s| && Utf8Valid(s[n..])
  }

  predicate Continuation(b: u8) {
    0x80 <= b < 0xC0
  }

  /** Length of the well-formed UTF-8 sequence s starts with, 0 if there is none. */
  function Utf8SequenceLength(s: bytes): (n: nat)
    requires s != []
    ensures n <= |s|
  {
    var b := s[0];
    if b < 0x80 then 1
    else if 0xC2 <= b < 0xE0 && |s| >= 2 && Continuation(s[1]) then 2
    else if 0xE0 <= b < 0xF0 && |s| >= 3 && Continuation(s[1]) && Continuation(s[2])
            && (b == 0xE0 ==> s[1] >= 0xA0) && (b == 0xED ==> s[1] < 0xA0) then 3
    else if 0xF0 <= b < 0xF5 && |s| >= 4 && Continuation(s[1]) && Continuation(s[2]) && Continuation(s[3])
            && (b == 0xF0 ==> s[1] >= 0x90) && (b == 0xF4 ==> s[1] < 0x90) then 4
    else 0
  }
}
