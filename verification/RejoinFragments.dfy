/** Reassembly inverts fragmentation: any covering list of pieces, however they came about, gives the bundle back. */
module RejoinFragments {
  import opened Bytes
  import opened Cbor
  import opened Bundle
  import opened BundleRoundTrip
  import opened Fragmentation
  import opened FragmentSize
  import opened Reassembly

  /** A bundle that is not a fragment, with one payload. */
  predicate Original(o: Bundle)
    ensures Original(o) ==> BundleFits(o) && HasPayload(o)
  {
    && BundleFits(o) && OnePayload(o.blocks)
    && !o.primary.flags.fragment && o.primary.fragmentOffset.None? && o.primary.totalDataLength.None?
  }

  /** f is a fragment of o: a non-empty slice of its payload under its primary block; the one at offset 0 has all its
      other blocks. */
  predicate IsPiece(f: Bundle, o: Bundle)
    requires Original(o)
  {
    && BundleFits(f) && OnePayload(f.blocks) && f.blocks == NonPayload(f.blocks) + [PayloadBlock(f.blocks).value]
    && f.primary.fragmentOffset.Some?
    && f.primary == o.primary.(flags := o.primary.flags.(fragment := true), fragmentOffset := f.primary.fragmentOffset,
                               totalDataLength := Some(TotalLength(o)))
    && var k, n := GlobalOffset(f), |PayloadData(f)|;
       && n >= 1 && k + n <= |PayloadData(o)|
       && PayloadBlock(f.blocks).value == PayloadBlock(o.blocks).value.(block := Payload(PayloadData(o)[k..k + n]))
       && (k == 0 ==> NonPayload(f.blocks) == NonPayload(o.blocks))
  }

  // ----- pieces of pieces

  lemma PieceOfOriginal(o: Bundle, at: nat, n: nat)
    requires Original(o) && n >= 1 && at + n <= |PayloadData(o)| && GlobalOffset(o) + at < 0x1_0000_0000_0000_0000
    ensures IsPiece(Piece(o, at, n), o)
  {
    hide BundleFits, NonPayload, Copied, PayloadBlock;
    PiecePayload(o, at, n);
  }

  lemma PiecePrimary(f: Bundle, o: Bundle, at: nat, n: nat)
    requires Original(o) && IsPiece(f, o) && at + n <= |PayloadData(f)|
    requires GlobalOffset(f) + at < 0x1_0000_0000_0000_0000
    ensures Piece(f, at, n).primary
            == o.primary.(flags := o.primary.flags.(fragment := true), fragmentOffset := Some(GlobalOffset(f) + at),
                          totalDataLength := Some(TotalLength(o)))
  {
    hide BundleFits, NonPayload, Copied, PayloadBlock, OnePayload;
  }

  lemma PieceBlock(f: Bundle, o: Bundle, at: nat, n: nat)
    requires Original(o) && IsPiece(f, o) && at + n <= |PayloadData(f)|
    requires GlobalOffset(f) + at < 0x1_0000_0000_0000_0000
    ensures var g, k := Piece(f, at, n), GlobalOffset(f) + at;
            && HasPayload(g) && k + n <= |PayloadData(o)| && |PayloadData(g)| == n
            && PayloadBlock(g.blocks).value == PayloadBlock(o.blocks).value.(block := Payload(PayloadData(o)[k..k + n]))
  {
    hide BundleFits, NonPayload, Copied, PayloadBlock, Piece, OnePayload;
    PiecePayload(f, at, n);
    SliceOfSlice(PayloadData(o), GlobalOffset(f), |PayloadData(f)|, at, n);
  }

  lemma PieceOfPiece(f: Bundle, o: Bundle, at: nat, n: nat)
    requires Original(o) && IsPiece(f, o) && n >= 1 && at + n <= |PayloadData(f)|
    requires GlobalOffset(f) + at < 0x1_0000_0000_0000_0000
    ensures IsPiece(Piece(f, at, n), o)
  {
    hide BundleFits, NonPayload, Copied, PayloadBlock, Piece, OnePayload, PayloadData;
    PiecePayload(f, at, n);
    PiecePrimary(f, o, at, n);
    PieceBlock(f, o, at, n);
  }

  lemma SliceOfSlice(data: bytes, k: nat, m: nat, at: nat, n: nat)
    requires at + n <= m && k + m <= |data|
    ensures data[k..k + m][at..at + n] == data[k + at..k + at + n]
  {
    var part, x, y := data[k..k + m], data[k..k + m][at..at + n], data[k + at..k + at + n];
    assert |x| == |y| == n;
    forall i | 0 <= i < n
      ensures x[i] == y[i]
    {
      assert x[i] == part[at + i] == data[k + (at + i)] == y[i];
    }
  }

  lemma {:induction false} TileIsPiece(b: Bundle, o: Bundle, maxSize: nat, fs: seq<Bundle>, at: nat, k: nat)
    requires Original(o) && (b == o || IsPiece(b, o)) && Tiles(b, maxSize, fs, at) && k < |fs|
    ensures IsPiece(fs[k], o)
    decreases k
  {
    hide Piece, PayloadBlock, BundleFits, EncodeBundle, IsPiece, NonPayload;
    if k == 0 {
      if b == o {
        PieceOfOriginal(o, at, |PayloadData(fs[0])|);
      } else {
        PieceOfPiece(b, o, at, |PayloadData(fs[0])|);
      }
    } else {
      TileIsPiece(b, o, maxSize, fs[1..], at + |PayloadData(fs[0])|, k - 1);
    }
  }

  /** One way down a tree of fragmentations: at each step a size limit, and which of the fragments to go on with. */
  function Descend(b: Bundle, path: seq<(nat, nat)>): Option<Bundle>
    decreases |path|
  {
    if path == [] then Some(b)
    else match Fragment(b, path[0].0)
         case Fragments(fs, _, _) => if path[0].1 < |fs| then Descend(fs[path[0].1], path[1..]) else None
         case _ => None
  }

  lemma {:induction false} DescendantIsPiece(b: Bundle, o: Bundle, path: seq<(nat, nat)>)
    requires Original(o) && (b == o || IsPiece(b, o)) && Descend(b, path).Some?
    ensures var f := Descend(b, path).value; (f == b && path == []) || IsPiece(f, o)
    decreases |path|
  {
    hide IsPiece, BundleFits, NonPayload, PayloadBlock;
    if path != [] {
      var fs := Fragment(b, path[0].0).fragments;
      FragmentTiles(b, path[0].0);
      TileIsPiece(b, o, path[0].0, fs, 0, path[0].1);
      DescendantIsPiece(fs[path[0].1], o, path[1..]);
    }
  }

  lemma FragmentTiles(b: Bundle, maxSize: nat)
    requires Fragment(b, maxSize).Fragments?
    ensures BundleFits(b) && HasPayload(b) && Tiles(b, maxSize, Fragment(b, maxSize).fragments, 0)
  {
    hide BundleFits, EncodeBundle, Cut, FirstMinimum, Minimum, PayloadBlock, Tiles;
    CutTiles(b, maxSize, 0);
  }

  // ----- putting pieces together

  ghost predicate AllPieces(fs: seq<Bundle>, o: Bundle)
    requires Original(o)
  {
    forall k :: 0 <= k < |fs| ==> IsPiece(fs[k], o)
  }

  lemma PieceIsWithin(f: Bundle, o: Bundle)
    requires Original(o) && IsPiece(f, o)
    ensures Within(f, TotalLength(o)) && f.primary.flags.fragment
    ensures f.primary.totalDataLength == Some(TotalLength(o)) && TotalLength(o) == |PayloadData(o)|
  {
    hide BundleFits, NonPayload, PayloadBlock;
  }

  lemma PiecesShareAPrimary(f: Bundle, g: Bundle, o: Bundle)
    requires Original(o) && IsPiece(f, o) && IsPiece(g, o)
    ensures EqualsIgnoringFragmentOffset(f.primary, g.primary)
  {
    hide BundleFits, NonPayload, PayloadBlock;
  }

  lemma PiecesAreConsistent(fs: seq<Bundle>, o: Bundle)
    requires Original(o) && fs != [] && AllPieces(fs, o)
    ensures Consistent(fs, TotalLength(o))
  {
    hide IsPiece, Original, EqualsIgnoringFragmentOffset, Within;
    PieceIsWithin(fs[0], o);
    forall k | 0 <= k < |fs|
      ensures Within(fs[k], TotalLength(o)) && EqualsIgnoringFragmentOffset(fs[0].primary, fs[k].primary)
    {
      PieceIsWithin(fs[k], o);
      PiecesShareAPrimary(fs[0], fs[k], o);
    }
  }

  lemma PieceSlice(f: Bundle, o: Bundle)
    requires Original(o) && IsPiece(f, o)
    ensures HasPayload(f) && GlobalOffset(f) + |PayloadData(f)| <= |PayloadData(o)|
    ensures PayloadData(f) == PayloadData(o)[GlobalOffset(f)..GlobalOffset(f) + |PayloadData(f)|]
  {
    hide BundleFits, NonPayload, PayloadBlock;
  }

  /** Whatever the overlaps, the builder only ever holds a prefix of the payload. */
  lemma {:induction false} BuilderBuildsPrefixes(fs: seq<Bundle>, o: Bundle, data: bytes)
    requires Original(o) && AllPieces(fs, o) && data <= PayloadData(o) && Build(fs, data).Some?
    ensures Build(fs, data).value <= PayloadData(o)
    decreases |fs|
  {
    hide IsPiece, Original, PayloadBlock;
    if fs != [] {
      PieceSlice(fs[0], o);
      var whole, k, piece := PayloadData(o), GlobalOffset(fs[0]), PayloadData(fs[0]);
      assert AllPieces(fs[1..], o);
      if k + |piece| < |data| {
        BuilderBuildsPrefixes(fs[1..], o, data);
      } else {
        assert piece[|data| - k..] == whole[|data|..k + |piece|];
        assert data + whole[|data|..k + |piece|] == whole[..k + |piece|];
        BuilderBuildsPrefixes(fs[1..], o, data + piece[|data| - k..]);
      }
    }
  }

  /** The original with its payload block moved to the end. */
  function PayloadAtEnd(o: Bundle): Bundle
    requires HasPayload(o)
  {
    o.(blocks := NonPayload(o.blocks) + [PayloadBlock(o.blocks).value])
  }

  lemma FillLast(bs: seq<CanonicalBlock>, p: CanonicalBlock, data: bytes)
    requires IsPayload(p) && forall k :: 0 <= k < |bs| ==> !IsPayload(bs[k])
    ensures FillPayload(bs + [p], data) == bs + [p.(block := Payload(data))]
  {
  }

  lemma JoinedIsOriginal(f: Bundle, o: Bundle)
    requires Original(o) && IsPiece(f, o) && GlobalOffset(f) == 0
    ensures JoinedBundle(f, PayloadData(o)) == PayloadAtEnd(o)
  {
    hide BundleFits, NonPayload, PayloadBlock;
    FillLast(NonPayload(f.blocks), PayloadBlock(f.blocks).value, PayloadData(o));
    assert f.primary.flags.(fragment := false) == o.primary.flags;
  }

  lemma PayloadAtEndFits(o: Bundle)
    requires Original(o)
    ensures BundleFits(PayloadAtEnd(o))
  {
    hide PrimaryFits, CanonicalFits;
  }

  lemma AllPiecesSorted(fs: seq<Bundle>, o: Bundle)
    requires Original(o) && AllPieces(fs, o)
    ensures AllPieces(SortByOffset(fs), o)
  {
    hide IsPiece, Original, SortByOffset;
    var s := SortByOffset(fs);
    SameElements(s, fs);
    forall k | 0 <= k < |s|
      ensures IsPiece(s[k], o)
    {
      assert s[k] in fs;
    }
  }

  /** The data the builder ends with, for an accepted list. */
  lemma AcceptedBuilds(s: seq<Bundle>, o: Bundle)
    requires Original(o) && s != [] && AllPieces(s, o) && GlobalOffset(s[0]) == 0
    requires Fold(s, 0) == Reached(|PayloadData(o)|)
    ensures HasPayload(s[0]) && Build(s[1..], PayloadData(s[0])) == Some(PayloadData(o))
  {
    hide IsPiece, Original, PayloadBlock, Build;
    PieceSlice(s[0], o);
    var start := PayloadData(s[0]);
    assert AllPieces(s[1..], o);
    assert start <= PayloadData(o);
    assert s[1..][..|s[1..]|] == s[1..];
    BuilderFollowsFold(s[1..], start, |s[1..]|);
    BuilderBuildsPrefixes(s[1..], o, start);
    var data := Build(s[1..], start).value;
    assert data == PayloadData(o)[..|data|] == PayloadData(o);
  }

  lemma AcceptedReaches(bs: seq<Bundle>, total: u64)
    requires Consistent(bs, total) && Check(bs).Checked? && Check(bs).ok
    ensures var s := SortByOffset(bs); s != [] && GlobalOffset(s[0]) == 0 && Fold(s, 0) == Reached(total)
  {
    hide Fold, SortByOffset, SamePrimary, AllWithin;
  }

  /** Pieces of one bundle, in any order, with duplicates and overlaps: if they cover the payload, reassembly gives
      the encoding of the original with its payload block last; if not, it hands the pieces back. */
  lemma PiecesRejoin(fs: seq<Bundle>, o: Bundle)
    requires Original(o) && fs != [] && AllPieces(fs, o)
    ensures BundleFits(PayloadAtEnd(o))
    ensures Reassemble(fs) == if Covers(fs, |PayloadData(o)|) then Rejoined(EncodeBundle(PayloadAtEnd(o)))
                              else NotComplete(SortByOffset(fs))
  {
    hide IsPiece, Original, PayloadBlock, Build, Fold, Check, SortByOffset, EncodeBundle, BundleFits, Covers, Consistent;
    var s := SortByOffset(fs);
    PayloadAtEndFits(o);
    PieceIsWithin(fs[0], o);
    PiecesAreConsistent(fs, o);
    CheckIffCovers(fs, TotalLength(o));
    AllPiecesSorted(fs, o);
    if Covers(fs, |PayloadData(o)|) {
      AcceptedReaches(fs, TotalLength(o));
      AcceptedBuilds(s, o);
      JoinedIsOriginal(s[0], o);
    }
  }

  /** Every element of fs comes from o by some way down a tree of fragmentations. */
  ghost predicate Descended(fs: seq<Bundle>, o: Bundle) {
    forall k :: 0 <= k < |fs| ==> DescendsFrom(fs[k], o)
  }

  ghost predicate DescendsFrom(f: Bundle, o: Bundle) {
    exists path :: path != [] && Descend(o, path) == Some(f)
  }

  lemma DescendsIsPiece(f: Bundle, o: Bundle)
    requires Original(o) && DescendsFrom(f, o)
    ensures IsPiece(f, o)
  {
    hide IsPiece, Original;
    var path :| path != [] && Descend(o, path) == Some(f);
    DescendantIsPiece(o, o, path);
  }

  /** Reassembly inverts fragmentation: any list of pieces from any tree of fragmentations of o, in any order, with
      duplicates and overlaps.  For a well-formed o the result decodes to its primary block, its other blocks in order,
      and its payload block. */
  lemma ReassemblyInvertsFragmentation(fs: seq<Bundle>, o: Bundle)
    requires Original(o) && fs != [] && Descended(fs, o)
    ensures BundleFits(PayloadAtEnd(o))
    ensures Reassemble(fs) == if Covers(fs, |PayloadData(o)|) then Rejoined(EncodeBundle(PayloadAtEnd(o)))
                              else NotComplete(SortByOffset(fs))
    ensures WellFormed(o) ==>
              DecodeBundle(EncodeBundle(PayloadAtEnd(o)))
              == Parsed(PayloadAtEnd(o), |EncodeBundle(PayloadAtEnd(o))|)
  {
    hide IsPiece, Original, PayloadBlock, Reassemble, SortByOffset, EncodeBundle, DecodeBundle, BundleFits, Covers, DescendsFrom;
    forall k | 0 <= k < |fs|
      ensures IsPiece(fs[k], o)
    {
      DescendsIsPiece(fs[k], o);
    }
    PiecesRejoin(fs, o);
    if WellFormed(o) {
      WellFormedAtEnd(o);
      BundleRoundTripIff(PayloadAtEnd(o));
    }
  }

  lemma WellFormedAtEnd(o: Bundle)
    requires HasPayload(o) && WellFormed(o)
    ensures WellFormed(PayloadAtEnd(o))
  {
    hide PlainBlock;
  }
}
