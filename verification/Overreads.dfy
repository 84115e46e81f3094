/** Which bytes make a message decoder read beyond the end of its buffer, told from the bytes alone. */
module Overreads {
  import opened Bytes
  import opened Messages
  import opened Codec

  /** How a walk over the lengths of extension items ends: at a position, at a critical item, or beyond the buffer. */
  datatype Walk = Ends(at: nat) | Critical | PastEnd

  function WalkItems(s: bytes, p: nat, end: nat): (w: Walk)
    requires p <= |s|
    ensures w.Ends? ==> p <= w.at <= |s|
    decreases |s| - p
  {
    if p >= end then Ends(p)
    else if |s| < p + 5 || |s| < p + 5 + U16(s, p + 3) then PastEnd
    else if s[p] % 2 == 1 then Critical
    else WalkItems(s, p + 5 + U16(s, p + 3), end)
  }

  lemma ItemFollowsDecoder(s: bytes, p: nat, transfer: bool)
    ensures var d := DecodeExtension(s, p, transfer);
            if |s| < p + 5 || |s| < p + 5 + U16(s, p + 3) then d.Panics?
            else d.Got? && d.used == p + 5 + U16(s, p + 3) && (d.value.critical <==> s[p] % 2 == 1)
  {
    hide FromBE, Pow256;
  }

  lemma {:induction false} WalkFollowsDecoder(s: bytes, p: nat, end: nat, transfer: bool)
    requires p <= |s|
    ensures var d, w := DecodeExtensions(s, p, end, transfer), WalkItems(s, p, end);
            (d.Got? <==> w.Ends?) && (d.Panics? <==> w.PastEnd?) && (d.Got? ==> d.used == w.at) && !d.NeedMore?
    decreases |s| - p
  {
    hide FromBE, Pow256, DecodeExtension;
    ItemFollowsDecoder(s, p, transfer);
    if p < end && !(|s| < p + 5 || |s| < p + 5 + U16(s, p + 3)) && s[p] % 2 == 0 {
      WalkFollowsDecoder(s, p + 5 + U16(s, p + 3), end, transfer);
    }
  }

  /** SESS_INIT: a node id that is not all there, or an extension item beyond the end of a frame that seems complete. */
  predicate SessInitOverreads(s: bytes) {
    |s| >= 24 &&
    var n := U16(s, 18);
    |s| < 24 + n ||
    var end := 24 + n + U32(s, 20 + n);
    |s| >= end && Utf8Valid(s[20..20 + n]) && WalkItems(s, 24 + n, end).PastEnd?
  }

  /** XFER_SEGMENT without START: the data length is not all there.  With START: the length of the extension list is not
      all there; or the frame seems complete, but an item, or the data behind the items, is beyond its end. */
  predicate SegmentOverreads(s: bytes) {
    |s| >= 10 &&
    if !FlagsOfBits(s[0]).start then |s| < 17
    else
      |s| < 13 ||
      var listEnd: nat := 13 + U32(s, 9);
      |s| >= listEnd + 8 &&
      var n := U64(s, listEnd);
      && n <= MAX_SEGMENT_MRU && |s| >= listEnd + 8 + n
      && var w := WalkItems(s, 13, listEnd);
         w.PastEnd? || (w.Ends? && |s| < w.at + 8 + n)
  }

  /** The decoder for t reads beyond the end of s. */
  predicate Overreads(t: MessageType, s: bytes) {
    match t
    case TSessInit => SessInitOverreads(s)
    case TXferSegment => SegmentOverreads(s)
    case TXferAck => 9 <= |s| < 17
    case TXferRefuse => 5 <= |s| < 9
    case _ => false
  }

  lemma SessInitPanicsIff(s: bytes)
    ensures DecodeSessInit(s).Panics? <==> SessInitOverreads(s)
  {
    hide FromBE, Pow256, DecodeExtensions, WalkItems, Utf8Valid;
    if |s| >= 24 && |s| >= 24 + U16(s, 18) {
      var n: nat := U16(s, 18);
      WalkFollowsDecoder(s, 24 + n, 24 + n + U32(s, 20 + n), false);
    }
  }

  lemma SegmentPanicsIff(s: bytes)
    ensures DecodeXferSegment(s).Panics? <==> SegmentOverreads(s)
  {
    hide FromBE, Pow256, DecodeExtensions, WalkItems;
    if |s| >= 13 {
      WalkFollowsDecoder(s, 13, 13 + U32(s, 9), true);
    }
  }

  /** A decoder panics if and only if the bytes make it read beyond their end. */
  lemma BodyPanicsIff(t: MessageType, s: bytes)
    ensures DecodeBody(t, s).Panics? <==> Overreads(t, s)
  {
    hide FromBE, Pow256, DecodeSessInit, DecodeXferSegment, SessInitOverreads, SegmentOverreads;
    SessInitPanicsIff(s);
    SegmentPanicsIff(s);
  }

  /** The next call of the codec reads beyond the end of the buffer. */
  predicate CallOverreads(c: CodecState, s: bytes) {
    && c.headerDone && s != []
    && if c.current.Some? then Overreads(c.current.value, s)
       else TypeOfCode(s[0]).Some? && Overreads(TypeOfCode(s[0]).value, s[1..])
  }

  lemma CallPanicsIff(c: CodecState, s: bytes)
    ensures DecodeCall(c, s).Panicked? <==> CallOverreads(c, s)
  {
    hide DecodeBody, Overreads, TypeOfCode;
    assert s[0..] == s;
    if c.headerDone && s != [] {
      if c.current.Some? {
        BodyPanicsIff(c.current.value, s);
      } else if TypeOfCode(s[0]).Some? {
        BodyPanicsIff(TypeOfCode(s[0]).value, s[1..]);
      }
    }
  }

  /** A SESS_INIT body with an empty node id and an extension list of a single byte. */
  const ONE_BYTE_LIST: bytes := [0, 0, 0, 0, 0, 0, 0, 0, 0, 0, 0, 0, 0, 0, 0, 0, 0, 0, 0, 0, 0, 0, 0, 1, 0]

  /** It is complete, no cut is to blame, and still the decoder panics. */
  lemma ShortExtensionList()
    ensures |ONE_BYTE_LIST| == 24 + U16(ONE_BYTE_LIST, 18) + U32(ONE_BYTE_LIST, 20)
    ensures Overreads(TSessInit, ONE_BYTE_LIST) && DecodeBody(TSessInit, ONE_BYTE_LIST).Panics?
  {
    var s := ONE_BYTE_LIST;
    assert s[18..20] == [0, 0] && s[20..24] == [0, 0, 0, 1] && s[20..20] == [];
    assert FromBE([0, 0]) == 0 by {
      assert [0, 0][..1] == [0];
    }
    assert FromBE([0, 0, 0, 1]) == 1 by {
      assert [0, 0, 0, 1][..3] == [0, 0, 0] && [0, 0, 0][..2] == [0, 0] && [0, 0][..1] == [0];
    }
    BodyPanicsIff(TSessInit, s);
  }
}
