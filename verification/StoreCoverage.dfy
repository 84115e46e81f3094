/** The payload bytes held for each bundle do not change over fragment requests and defragmentation attempts. */
module StoreCoverage {
  import opened Bytes
  import opened Cbor
  import opened Bundle
  import opened BundleRoundTrip
  import opened Fragmentation
  import opened FragmentSize
  import opened Reassembly
  import opened RejoinFragments
  import opened Storage

  /** What a bundle and all its fragments have in common. */
  function Key(p: PrimaryBlock): PrimaryBlock {
    p.(flags := p.flags.(fragment := false), fragmentOffset := None, totalDataLength := None)
  }

  predicate SoundBundle(b: Bundle)
    ensures SoundBundle(b) ==> BundleFits(b) && HasPayload(b)
  {
    && BundleFits(b) && WellFormed(b) && OnePayload(b.blocks) && InRange(b)
    && (b.primary.flags.fragment <==> b.primary.fragmentOffset.Some?)
  }

  predicate Sound(sb: StoredBundle) {
    GetBundle(sb.data).Some? && SoundBundle(GetBundle(sb.data).value) && GetBundle(sb.data).value.primary == sb.primary
  }

  predicate AllSound(bs: seq<StoredBundle>) {
    forall k :: 0 <= k < |bs| ==> Sound(bs[k])
  }

  /** Payload byte x of the bundle `key` is in b, and is v. */
  predicate BundleCarries(b: Bundle, key: PrimaryBlock, x: int, v: u8) {
    Holds(b, x) && Key(b.primary) == key && PayloadData(b)[x - GlobalOffset(b)] == v
  }

  predicate Carries(sb: StoredBundle, key: PrimaryBlock, x: int, v: u8) {
    GetBundle(sb.data).Some? && BundleCarries(GetBundle(sb.data).value, key, x, v)
  }

  predicate Stored(bs: seq<StoredBundle>, key: PrimaryBlock, x: int, v: u8) {
    exists k :: 0 <= k < |bs| && Carries(bs[k], key, x, v)
  }

  /** Both hold the same bytes of the same bundles. */
  ghost predicate SameCoverage(bs: seq<StoredBundle>, bs': seq<StoredBundle>) {
    forall key, x, v :: Stored(bs, key, x, v) <==> Stored(bs', key, x, v)
  }

  /** Where fragments overlap, they agree. */
  ghost predicate Agree(bs: seq<StoredBundle>) {
    forall key, x, v, w :: Stored(bs, key, x, v) && Stored(bs, key, x, w) ==> v == w
  }

  /** Total payload length of the bundle that sb is, or is a fragment of. */
  function Total(sb: StoredBundle): u64
    requires Sound(sb)
  {
    TotalLength(GetBundle(sb.data).value)
  }

  ghost predicate SameTotals(bs: seq<StoredBundle>)
    requires AllSound(bs)
  {
    forall i, j :: 0 <= i < |bs| && 0 <= j < |bs| && Key(bs[i].primary) == Key(bs[j].primary) ==>
      Total(bs[i]) == Total(bs[j])
  }

  /** Consistent: every stored bundle can be decoded and re-encoded, and those of one bundle fit together. */
  ghost predicate StoreInv(bs: seq<StoredBundle>) {
    AllSound(bs) && SameTotals(bs) && Agree(bs)
  }

  // ----- coverage of lists

  lemma StoredConcat(a: seq<StoredBundle>, b: seq<StoredBundle>, key: PrimaryBlock, x: int, v: u8)
    ensures Stored(a + b, key, x, v) <==> Stored(a, key, x, v) || Stored(b, key, x, v)
  {
    hide Carries;
    if Stored(a, key, x, v) {
      var k :| 0 <= k < |a| && Carries(a[k], key, x, v);
      assert (a + b)[k] == a[k];
    }
    if Stored(b, key, x, v) {
      var k :| 0 <= k < |b| && Carries(b[k], key, x, v);
      assert (a + b)[|a| + k] == b[k];
    }
    if Stored(a + b, key, x, v) {
      var k :| 0 <= k < |a + b| && Carries((a + b)[k], key, x, v);
      assert (a + b)[k] == if k < |a| then a[k] else b[k - |a|];
    }
  }

  lemma StoredOne(sb: StoredBundle, key: PrimaryBlock, x: int, v: u8)
    ensures Stored([sb], key, x, v) <==> Carries(sb, key, x, v)
  {
    hide Carries;
    if Carries(sb, key, x, v) {
      assert Carries([sb][0], key, x, v);
    }
  }

  /** Taking a bundle out takes out what it carries. */
  lemma StoredWithout(bs: seq<StoredBundle>, i: nat, key: PrimaryBlock, x: int, v: u8)
    requires i < |bs|
    ensures Stored(bs, key, x, v) <==> Stored(Without(bs, i), key, x, v) || Carries(bs[i], key, x, v)
  {
    hide Stored, Carries;
    assert bs == bs[..i] + ([bs[i]] + bs[i + 1..]);
    StoredConcat(bs[..i], [bs[i]] + bs[i + 1..], key, x, v);
    StoredConcat([bs[i]], bs[i + 1..], key, x, v);
    StoredConcat(bs[..i], bs[i + 1..], key, x, v);
    StoredOne(bs[i], key, x, v);
  }

  /** Putting back something that carries the same. */
  lemma Exchanged(bs: seq<StoredBundle>, i: nat, news: seq<StoredBundle>)
    requires i < |bs|
    requires forall key, x, v :: Stored(news, key, x, v) <==> Carries(bs[i], key, x, v)
    ensures SameCoverage(bs, Without(bs, i) + news)
  {
    hide Stored, Carries, Without;
    forall key, x, v
      ensures Stored(bs, key, x, v) <==> Stored(Without(bs, i) + news, key, x, v)
    {
      StoredWithout(bs, i, key, x, v);
      StoredConcat(Without(bs, i), news, key, x, v);
    }
  }

  lemma AgreeAgain(bs: seq<StoredBundle>, bs': seq<StoredBundle>)
    requires Agree(bs) && SameCoverage(bs, bs')
    ensures Agree(bs')
  {
    hide Stored;
  }

  /** Every bundle of bs' has the key and the total of one in bs. */
  ghost predicate TotalsFrom(bs: seq<StoredBundle>, bs': seq<StoredBundle>)
    requires AllSound(bs) && AllSound(bs')
  {
    forall j :: 0 <= j < |bs'| ==> HasLike(bs, bs'[j])
  }

  ghost predicate HasLike(bs: seq<StoredBundle>, sb: StoredBundle)
    requires AllSound(bs) && Sound(sb)
  {
    exists i :: 0 <= i < |bs| && Key(bs[i].primary) == Key(sb.primary) && Total(bs[i]) == Total(sb)
  }

  lemma TotalsAgain(bs: seq<StoredBundle>, bs': seq<StoredBundle>)
    requires AllSound(bs) && AllSound(bs') && SameTotals(bs) && TotalsFrom(bs, bs')
    ensures SameTotals(bs')
  {
    hide Sound, Total;
    forall i, j | 0 <= i < |bs'| && 0 <= j < |bs'| && Key(bs'[i].primary) == Key(bs'[j].primary)
      ensures Total(bs'[i]) == Total(bs'[j])
    {
      assert HasLike(bs, bs'[i]) && HasLike(bs, bs'[j]);
      var i1 :| 0 <= i1 < |bs| && Key(bs[i1].primary) == Key(bs'[i].primary) && Total(bs[i1]) == Total(bs'[i]);
      var j1 :| 0 <= j1 < |bs| && Key(bs[j1].primary) == Key(bs'[j].primary) && Total(bs[j1]) == Total(bs'[j]);
    }
  }

  /** All that has to be shown of a step. */
  lemma InvAgain(bs: seq<StoredBundle>, bs': seq<StoredBundle>)
    requires StoreInv(bs) && AllSound(bs') && TotalsFrom(bs, bs') && SameCoverage(bs, bs')
    ensures StoreInv(bs')
  {
    hide AllSound, TotalsFrom, SameTotals, Agree, SameCoverage;
    TotalsAgain(bs, bs');
    AgreeAgain(bs, bs');
  }

  // ----- fragments

  lemma PieceIsSound(b: Bundle, at: nat, n: nat)
    requires SoundBundle(b) && at + n <= |PayloadData(b)| && GlobalOffset(b) + at < 0x1_0000_0000_0000_0000
    ensures var f := Piece(b, at, n);
            SoundBundle(f) && Key(f.primary) == Key(b.primary) && TotalLength(f) == TotalLength(b)
  {
    hide BundleFits, NonPayload, Copied, PayloadBlock;
    PiecePayload(b, at, n);
    PieceIsPlain(b, at, n);
  }

  lemma PieceIsPlain(b: Bundle, at: nat, n: nat)
    requires BundleFits(b) && HasPayload(b) && WellFormed(b) && at + n <= |PayloadData(b)|
    requires GlobalOffset(b) + at < 0x1_0000_0000_0000_0000
    ensures WellFormed(Piece(b, at, n))
  {
    hide BundleFits;
    var f := Piece(b, at, n);
    forall k | 0 <= k < |f.blocks|
      ensures PlainBlock(f.blocks[k])
    {
      if k < |f.blocks| - 1 {
        assert f.blocks[k] in b.blocks;
      }
    }
  }

  lemma PieceCarries(b: Bundle, at: nat, n: nat, key: PrimaryBlock, x: int, v: u8)
    requires SoundBundle(b) && at + n <= |PayloadData(b)| && GlobalOffset(b) + at < 0x1_0000_0000_0000_0000
    ensures BundleCarries(Piece(b, at, n), key, x, v) <==>
            BundleCarries(b, key, x, v) && GlobalOffset(b) + at <= x < GlobalOffset(b) + at + n
  {
    hide SoundBundle, NonPayload, Copied, PayloadBlock;
    PiecePayload(b, at, n);
  }

  predicate AnyCarries(fs: seq<Bundle>, key: PrimaryBlock, x: int, v: u8) {
    exists k :: 0 <= k < |fs| && BundleCarries(fs[k], key, x, v)
  }

  lemma AnyCarriesCons(fs: seq<Bundle>, key: PrimaryBlock, x: int, v: u8)
    requires fs != []
    ensures AnyCarries(fs, key, x, v) <==> BundleCarries(fs[0], key, x, v) || AnyCarries(fs[1..], key, x, v)
  {
    hide BundleCarries;
    if AnyCarries(fs, key, x, v) {
      var k :| 0 <= k < |fs| && BundleCarries(fs[k], key, x, v);
      assert k > 0 ==> fs[1..][k - 1] == fs[k];
    }
    if AnyCarries(fs[1..], key, x, v) {
      var k :| 0 <= k < |fs[1..]| && BundleCarries(fs[1..][k], key, x, v);
      assert fs[k + 1] == fs[1..][k];
    }
  }

  /** The fragments carry exactly what the bundle carries. */
  lemma {:induction false} TilesCarry(b: Bundle, maxSize: nat, fs: seq<Bundle>, at: nat, key: PrimaryBlock, x: int, v: u8)
    requires SoundBundle(b) && Tiles(b, maxSize, fs, at)
    ensures AnyCarries(fs, key, x, v) <==> BundleCarries(b, key, x, v) && x >= GlobalOffset(b) + at
    decreases |fs|
  {
    hide SoundBundle, PayloadBlock, Piece, EncodeBundle, Key;
    if fs != [] {
      var n := |PayloadData(fs[0])|;
      AnyCarriesCons(fs, key, x, v);
      PieceCarries(b, at, n, key, x, v);
      TilesCarry(b, maxSize, fs[1..], at + n, key, x, v);
    }
  }

  lemma {:induction false} TilesAreSound(b: Bundle, maxSize: nat, fs: seq<Bundle>, at: nat, k: nat)
    requires SoundBundle(b) && Tiles(b, maxSize, fs, at) && k < |fs|
    ensures SoundBundle(fs[k]) && Key(fs[k].primary) == Key(b.primary) && TotalLength(fs[k]) == TotalLength(b)
    decreases k
  {
    hide SoundBundle, PayloadBlock, Piece, EncodeBundle, Key, TotalLength;
    if k == 0 {
      PieceIsSound(b, at, |PayloadData(fs[0])|);
    } else {
      TilesAreSound(b, maxSize, fs[1..], at + |PayloadData(fs[0])|, k - 1);
    }
  }

  /** Storing a sound bundle keeps it as it is. */
  lemma SoundIsStored(b: Bundle)
    requires SoundBundle(b)
    ensures GetBundle(EncodeBundle(b)) == Some(b)
  {
    hide DecodeBundle, EncodeBundle;
    BundleRoundTripIff(b);
  }

  ghost predicate StoresBundle(sb: StoredBundle, b: Bundle) {
    GetBundle(sb.data) == Some(b) && sb.primary == b.primary
  }

  lemma StoreAppends(s: StoreState, b: Bundle, minSize: Option<nat>, state: State)
    requires SoundBundle(b)
    ensures Store(s, EncodeBundle(b), minSize, state).Some?
    ensures var bs' := Store(s, EncodeBundle(b), minSize, state).value.bundles;
            |bs'| == |s.bundles| + 1 && bs'[..|s.bundles|] == s.bundles && StoresBundle(bs'[|s.bundles|], b)
  {
    hide SoundBundle, EncodeBundle, GetBundle;
    SoundIsStored(b);
  }

  lemma {:induction false} StoreFragmentsAppends(s: StoreState, fs: seq<Bundle>, m: nat, m': nat)
    requires (forall k :: 0 <= k < |fs| ==> SoundBundle(fs[k])) && StoreFragments(s, fs, m, m').Some?
    ensures var bs' := StoreFragments(s, fs, m, m').value.bundles;
            && |bs'| == |s.bundles| + |fs| && bs'[..|s.bundles|] == s.bundles
            && forall k :: 0 <= k < |fs| ==> StoresBundle(bs'[|s.bundles| + k], fs[k])
    decreases |fs|
  {
    hide SoundBundle, EncodeBundle, Store, StoresBundle;
    if fs != [] {
      StoreAppends(s, fs[0], Some(m), Valid);
      var s1 := Store(s, EncodeBundle(fs[0]), Some(m), Valid).value;
      StoreFragmentsAppends(s1, fs[1..], m', m');
      var bs' := StoreFragments(s, fs, m, m').value.bundles;
      assert bs'[..|s.bundles|] == bs'[..|s1.bundles|][..|s.bundles|];
      assert bs'[|s.bundles|] == bs'[..|s1.bundles|][|s.bundles|];
      forall k | 0 <= k < |fs|
        ensures StoresBundle(bs'[|s.bundles| + k], fs[k])
      {
        if k > 0 {
          assert fs[k] == fs[1..][k - 1];
        }
      }
    }
  }

  lemma StoredAsCarried(news: seq<StoredBundle>, fs: seq<Bundle>, key: PrimaryBlock, x: int, v: u8)
    requires |news| == |fs| && forall k :: 0 <= k < |fs| ==> StoresBundle(news[k], fs[k])
    ensures Stored(news, key, x, v) <==> AnyCarries(fs, key, x, v)
  {
    hide BundleCarries, GetBundle;
    if Stored(news, key, x, v) {
      var k :| 0 <= k < |news| && Carries(news[k], key, x, v);
      assert StoresBundle(news[k], fs[k]);
    }
    if AnyCarries(fs, key, x, v) {
      var k :| 0 <= k < |fs| && BundleCarries(fs[k], key, x, v);
      assert StoresBundle(news[k], fs[k]) && Carries(news[k], key, x, v);
    }
  }

  // ----- one step: fragmenting

  lemma StoredIsSound(sb: StoredBundle, b: Bundle)
    requires StoresBundle(sb, b) && SoundBundle(b)
    ensures Sound(sb) && Total(sb) == TotalLength(b)
  {
    hide SoundBundle, GetBundle;
  }

  /** A bundle exchanged for others of the same key and total that carry the same. */
  lemma ExchangeKeepsInv(bs: seq<StoredBundle>, i: nat, news: seq<StoredBundle>)
    requires StoreInv(bs) && i < |bs|
    requires forall k :: 0 <= k < |news| ==>
               Sound(news[k]) && Key(news[k].primary) == Key(bs[i].primary) && Total(news[k]) == Total(bs[i])
    requires forall key, x, v :: Stored(news, key, x, v) <==> Carries(bs[i], key, x, v)
    ensures StoreInv(Without(bs, i) + news) && SameCoverage(bs, Without(bs, i) + news)
  {
    hide Sound, Total, Stored, Carries, SameTotals, Agree, SameCoverage, Key;
    var bs' := Without(bs, i) + news;
    Exchanged(bs, i, news);
    forall j | 0 <= j < |bs'|
      ensures Sound(bs'[j]) && HasLike(bs, bs'[j])
    {
      if j < i {
        assert bs'[j] == bs[j];
      } else if j < |bs| - 1 {
        assert bs'[j] == bs[j + 1];
      } else {
        assert bs'[j] == news[j - |bs| + 1];
      }
    }
    InvAgain(bs, bs');
  }

  lemma FragmentsKeepCoverage(s: StoreState, i: nat, b: Bundle, maxSize: nat)
    requires StoreInv(s.bundles) && i < |s.bundles| && GetBundle(s.bundles[i].data) == Some(b)
    requires Fragment(b, maxSize).Fragments?
    requires var o := Fragment(b, maxSize);
             StoreFragments(s.(bundles := Without(s.bundles, i)), o.fragments, o.firstMinimum, o.minimum).Some?
    ensures var o := Fragment(b, maxSize);
            var bs' := StoreFragments(s.(bundles := Without(s.bundles, i)), o.fragments, o.firstMinimum,
                                      o.minimum).value.bundles;
            StoreInv(bs') && SameCoverage(s.bundles, bs')
  {
    hide Fragment, StoreFragments, SoundBundle, GetBundle, Tiles, SameCoverage, SameTotals, Agree, Key, TotalLength;
    hide BundleCarries, Stored, AnyCarries;
    var bs, o := s.bundles, Fragment(b, maxSize);
    var fs, s0 := o.fragments, s.(bundles := Without(bs, i));
    assert Sound(bs[i]);
    FragmentTiles(b, maxSize);
    forall k | 0 <= k < |fs|
      ensures SoundBundle(fs[k]) && Key(fs[k].primary) == Key(b.primary) && TotalLength(fs[k]) == TotalLength(b)
    {
      TilesAreSound(b, maxSize, fs, 0, k);
    }
    StoreFragmentsAppends(s0, fs, o.firstMinimum, o.minimum);
    var bs' := StoreFragments(s0, fs, o.firstMinimum, o.minimum).value.bundles;
    var news := bs'[|s0.bundles|..];
    assert bs' == s0.bundles + news;
    forall k | 0 <= k < |news|
      ensures StoresBundle(news[k], fs[k]) && Sound(news[k]) && Total(news[k]) == TotalLength(fs[k])
    {
      assert news[k] == bs'[|s0.bundles| + k];
      StoredIsSound(news[k], fs[k]);
    }
    forall key, x, v
      ensures Stored(news, key, x, v) <==> Carries(bs[i], key, x, v)
    {
      StoredAsCarried(news, fs, key, x, v);
      TilesCarry(b, maxSize, fs, 0, key, x, v);
      CarriedFrom(b, key, x, v);
    }
    ExchangeKeepsInv(bs, i, news);
  }

  lemma CarriedFrom(b: Bundle, key: PrimaryBlock, x: int, v: u8)
    ensures BundleCarries(b, key, x, v) ==> x >= GlobalOffset(b)
  {
    hide PayloadBlock;
  }

  /** A bundle put back with other metadata, or other data for the same payload. */
  predicate Renewed(sb: StoredBundle, sb': StoredBundle) {
    && Sound(sb) && Sound(sb') && sb'.primary == sb.primary
    && PayloadData(GetBundle(sb'.data).value) == PayloadData(GetBundle(sb.data).value)
  }

  lemma RenewedCarries(sb: StoredBundle, sb': StoredBundle, key: PrimaryBlock, x: int, v: u8)
    requires Renewed(sb, sb')
    ensures Carries(sb', key, x, v) <==> Carries(sb, key, x, v)
    ensures Total(sb') == Total(sb)
  {
    hide GetBundle, WellFormed, OnePayload, PayloadBlock, BundleFits;
  }

  lemma RenewKeepsInv(bs: seq<StoredBundle>, i: nat, sb': StoredBundle)
    requires StoreInv(bs) && i < |bs| && Renewed(bs[i], sb')
    ensures StoreInv(Without(bs, i) + [sb']) && SameCoverage(bs, Without(bs, i) + [sb'])
  {
    hide Sound, Carries, Stored, Total, SameTotals, Agree, SameCoverage, Renewed;
    forall key, x, v
      ensures Stored([sb'], key, x, v) <==> Carries(bs[i], key, x, v)
    {
      StoredOne(sb', key, x, v);
      RenewedCarries(bs[i], sb', key, x, v);
    }
    RenewedCarries(bs[i], sb', bs[i].primary, 0, 0);
    RenewedIs(bs[i], sb');
    ExchangeKeepsInv(bs, i, [sb']);
  }

  lemma RenewedIs(sb: StoredBundle, sb': StoredBundle)
    requires Renewed(sb, sb')
    ensures Sound(sb') && sb'.primary == sb.primary
  {
    hide Sound;
  }

  lemma Unchanged(sb: StoredBundle, minSize: Option<nat>, state: State)
    requires Sound(sb)
    ensures Renewed(sb, sb.(minSize := minSize)) && Renewed(sb, sb.(state := state)) && Renewed(sb, sb)
  {
    hide SoundBundle, GetBundle;
  }

  /** A fragment request the storage agent survives: the bundle is over the target, may be fragmented, and the target
      is below the minimum, and so refused, or above it with room for the later fragments. */
  predicate CanHandle(b: Bundle, targetSize: nat)
    requires SoundBundle(b)
  {
    && |EncodeBundle(b)| > targetSize && !b.primary.flags.mustNotFragment
    && (targetSize < FirstMinimum(b)
        || (targetSize > FirstMinimum(b) && targetSize - FirstMinimum(b) <= |PayloadData(b)|
            && LaterFit(b, targetSize, targetSize - FirstMinimum(b))))
  }

  lemma SoundIsFragmentable(b: Bundle)
    requires SoundBundle(b) && !b.primary.flags.mustNotFragment
    ensures Fragmentable(b)
  {
    hide BundleFits, OnePayload, InRange, PlainBlock;
  }

  lemma HandledIff(b: Bundle, targetSize: nat)
    requires SoundBundle(b)
    ensures var o := Fragment(b, targetSize);
            && (CanHandle(b, targetSize) <==>
                (o.Fragments? && o.fragments != []) || (o.Refused? && o.error.CanNotFragmentThatSmall?))
            && (o.Refused? && o.error.CanNotFragmentThatSmall? ==> targetSize < FirstMinimum(b))
  {
    hide SoundBundle, EncodeBundle, LaterFit, FirstMinimum, Minimum, Cut, PayloadBlock, Tiles, Fragmentable, NextPiece;
    FlagsFit(b);
    if |EncodeBundle(b)| > targetSize && !b.primary.flags.mustNotFragment {
      SoundIsFragmentable(b);
      if targetSize == FirstMinimum(b) {
        MinimumPanics(b);
      } else if targetSize > FirstMinimum(b) {
        FragmentSizeBound(b, targetSize);
      }
    }
  }

  lemma FlagsFit(b: Bundle)
    requires SoundBundle(b)
    ensures b.primary.flags.fragment ==> b.primary.fragmentOffset.Some? && b.primary.totalDataLength.Some?
  {
    hide BundleFits, OnePayload, InRange, PlainBlock;
  }

  lemma {:induction false} StoreFragmentsSucceeds(s: StoreState, fs: seq<Bundle>, m: nat, m': nat)
    requires forall k :: 0 <= k < |fs| ==> SoundBundle(fs[k])
    ensures StoreFragments(s, fs, m, m').Some?
    decreases |fs|
  {
    hide SoundBundle, EncodeBundle, Store;
    if fs != [] {
      StoreAppends(s, fs[0], Some(m), Valid);
      StoreFragmentsSucceeds(Store(s, EncodeBundle(fs[0]), Some(m), Valid).value, fs[1..], m', m');
    }
  }

  lemma FragmentsAreStored(s: StoreState, b: Bundle, targetSize: nat)
    requires SoundBundle(b) && Fragment(b, targetSize).Fragments?
    ensures var o := Fragment(b, targetSize); StoreFragments(s, o.fragments, o.firstMinimum, o.minimum).Some?
  {
    hide SoundBundle, Fragment, StoreFragments, Tiles, Key, TotalLength;
    FragmentTiles(b, targetSize);
    var o := Fragment(b, targetSize);
    forall k | 0 <= k < |o.fragments|
      ensures SoundBundle(o.fragments[k])
    {
      TilesAreSound(b, targetSize, o.fragments, 0, k);
    }
    StoreFragmentsSucceeds(s, o.fragments, o.firstMinimum, o.minimum);
  }

  /** What a fragment request asks of the bundle it finds. */
  predicate RequestFits(bs: seq<StoredBundle>, primary: PrimaryBlock, targetSize: nat) {
    var i := Position(bs, primary);
    i < |bs| && Sound(bs[i]) ==> CanHandle(GetBundle(bs[i].data).value, targetSize)
  }

  /** On a consistent store the handler goes through if and only if the request fits; else it panics, with the bundle
      already taken out of the store. */
  lemma FragmentRequestSucceedsIff(s: StoreState, primary: PrimaryBlock, targetSize: nat)
    requires AllSound(s.bundles)
    ensures FragmentRequest(s, primary, targetSize).Some? <==> RequestFits(s.bundles, primary, targetSize)
  {
    hide Fragment, StoreFragments, Position, SoundBundle, GetBundle, CanHandle, FirstMinimum;
    var bs := s.bundles;
    var i := Position(bs, primary);
    if i < |bs| {
      assert Sound(bs[i]);
      var b := GetBundle(bs[i].data).value;
      HandledIff(b, targetSize);
      if Fragment(b, targetSize).Fragments? {
        FragmentsAreStored(s.(bundles := Without(bs, i)), b, targetSize);
      }
    }
  }

  /** A fragment request that fits goes through and keeps the coverage, also when it is refused as too small. */
  lemma FragmentRequestKeepsCoverage(s: StoreState, primary: PrimaryBlock, targetSize: nat)
    requires StoreInv(s.bundles) && RequestFits(s.bundles, primary, targetSize)
    ensures FragmentRequest(s, primary, targetSize).Some?
    ensures var bs' := FragmentRequest(s, primary, targetSize).value.bundles;
            StoreInv(bs') && SameCoverage(s.bundles, bs')
  {
    hide Fragment, StoreFragments, Position, SameTotals, Agree, Stored, Sound, Renewed, RequestFits;
    FragmentRequestSucceedsIff(s, primary, targetSize);
    var i := Position(s.bundles, primary);
    if i < |s.bundles| {
      assert Sound(s.bundles[i]);
      var b := GetBundle(s.bundles[i].data).value;
      var o := Fragment(b, targetSize);
      if o.Fragments? {
        FragmentsKeepCoverage(s, i, b, targetSize);
      } else {
        Unchanged(s.bundles[i], Some(o.error.minimum), Valid);
        RenewKeepsInv(s.bundles, i, s.bundles[i].(minSize := Some(o.error.minimum)));
      }
    }
  }

  // ----- a request that loses a bundle

  lemma LargeBlockIsSound()
    ensures SoundBundle(WithLargeBlock()) && !WithLargeBlock().primary.flags.mustNotFragment
  {
    hide BundleFits, OnePayload, InRange, Fragment, FirstMinimum, EncodeBundle;
    LaterFragmentTooLarge();
  }

  lemma OneIsConsistent(sb: StoredBundle)
    requires Sound(sb)
    ensures StoreInv([sb])
  {
    hide Sound, Total, BundleCarries;
    forall key, x, v, w | Stored([sb], key, x, v) && Stored([sb], key, x, w)
      ensures v == w
    {
      OneByteEach(sb, key, x, v, w);
    }
  }

  lemma OneByteEach(sb: StoredBundle, key: PrimaryBlock, x: int, v: u8, w: u8)
    requires Stored([sb], key, x, v) && Stored([sb], key, x, w)
    ensures v == w
  {
    hide Holds, GetBundle, Key;
    StoredOne(sb, key, x, v);
    StoredOne(sb, key, x, w);
  }

  lemma OneRequestPanics(sb: StoredBundle, b: Bundle, targetSize: nat)
    requires GetBundle(sb.data) == Some(b) && sb.primary == b.primary && Fragment(b, targetSize).FragmentPanics?
    ensures FragmentRequest(StoreState([sb], []), b.primary, targetSize).None?
  {
    hide Fragment, GetBundle;
    assert [sb][0] == sb;
  }

  lemma PanickingRequest(b: Bundle, targetSize: nat) returns (s: StoreState)
    requires SoundBundle(b) && Fragment(b, targetSize).FragmentPanics?
    ensures StoreInv(s.bundles) && |s.bundles| == 1 && GetBundle(s.bundles[0].data) == Some(b)
    ensures FragmentRequest(s, b.primary, targetSize).None?
  {
    hide SoundBundle, EncodeBundle, GetBundle, Fragment, StoreInv, FragmentRequest, Sound;
    SoundIsStored(b);
    var sb := NewStored(EncodeBundle(b)).value;
    StoredIsSound(sb, b);
    OneIsConsistent(sb);
    s := StoreState([sb], []);
    OneRequestPanics(sb, b, targetSize);
  }

  /** A consistent store with one bundle, and a request for a size above its minimum, on which the handler panics. */
  lemma RequestThatPanics() returns (s: StoreState, targetSize: nat)
    ensures StoreInv(s.bundles) && |s.bundles| == 1 && GetBundle(s.bundles[0].data) == Some(WithLargeBlock())
    ensures FragmentRequest(s, WithLargeBlock().primary, targetSize).None?
  {
    hide SoundBundle, EncodeBundle, GetBundle, Fragment, FirstMinimum, WithLargeBlock, StoreInv, FragmentRequest, Fragmentable;
    var b := WithLargeBlock();
    LargeBlockIsSound();
    LaterFragmentTooLarge();
    targetSize := FirstMinimum(b) + 100;
    s := PanickingRequest(b, targetSize);
  }

  // ----- one step: defragmenting

  lemma {:induction false} FilterCoverage(bs: seq<StoredBundle>, primary: PrimaryBlock, key: PrimaryBlock, x: int, v: u8)
    ensures Stored(bs, key, x, v) <==>
            Stored(Others(bs, primary), key, x, v) || Stored(Matching(bs, primary), key, x, v)
  {
    hide Carries, Matches, Stored;
    if bs == [] {
      assert Others(bs, primary) == bs && Matching(bs, primary) == bs;
    } else {
      FilterCoverage(bs[1..], primary, key, x, v);
      assert bs == [bs[0]] + bs[1..];
      StoredConcat([bs[0]], bs[1..], key, x, v);
      StoredConcat([bs[0]], Others(bs[1..], primary), key, x, v);
      StoredConcat([bs[0]], Matching(bs[1..], primary), key, x, v);
      assert Others(bs[1..], primary) == [] + Others(bs[1..], primary);
      assert Matching(bs[1..], primary) == [] + Matching(bs[1..], primary);
    }
  }

  lemma SameInfoSameKey(p: PrimaryBlock, q: PrimaryBlock)
    requires EqualsIgnoringFragmentInfo(p, q)
    ensures Key(p) == Key(q) && p.flags == q.flags
    ensures p.totalDataLength == q.totalDataLength ==> EqualsIgnoringFragmentOffset(p, q)
  {
    var p', q' := p.(fragmentOffset := None, totalDataLength := None), q.(fragmentOffset := None, totalDataLength := None);
    assert p'.flags == q'.flags;
  }

  /** A stored fragment that matches. */
  lemma MatchFacts(sb: StoredBundle, primary: PrimaryBlock)
    requires Sound(sb) && Matches(sb, primary) && primary.flags.fragment
    ensures var c := GetBundle(sb.data).value;
            && c.primary.flags.fragment && c.primary.totalDataLength == Some(Total(sb)) && Within(c, Total(sb))
            && EqualsIgnoringFragmentInfo(c.primary, primary) && Key(c.primary) == Key(primary) && c.primary == sb.primary
  {
    hide GetBundle, BundleFits, OnePayload, PayloadBlock;
    SameInfoSameKey(GetBundle(sb.data).value.primary, primary);
  }

  lemma AllDecodable(bs: seq<StoredBundle>)
    requires AllSound(bs)
    ensures Decodable(bs)
  {
    hide GetBundle, SoundBundle;
    forall k | 0 <= k < |bs|
      ensures GetBundle(bs[k].data).Some?
    {
      assert Sound(bs[k]);
    }
  }

  lemma MatchingIsSound(bs: seq<StoredBundle>, primary: PrimaryBlock)
    requires AllSound(bs)
    ensures AllSound(Matching(bs, primary)) && AllSound(Others(bs, primary))
  {
    hide Sound, Matches;
  }

  lemma MatchingTotals(bs: seq<StoredBundle>, primary: PrimaryBlock, k: nat)
    requires AllSound(bs) && SameTotals(bs) && primary.flags.fragment && k < |Matching(bs, primary)|
    ensures AllSound(Matching(bs, primary))
    ensures Total(Matching(bs, primary)[k]) == Total(Matching(bs, primary)[0])
  {
    hide Sound, Matches, Total, Matching, Key;
    MatchingIsSound(bs, primary);
    var f, g := Matching(bs, primary)[k], Matching(bs, primary)[0];
    MatchFacts(f, primary);
    MatchFacts(g, primary);
    var i :| 0 <= i < |bs| && bs[i] == f;
    var j :| 0 <= j < |bs| && bs[j] == g;
  }

  /** The matching fragments can be checked together. */
  lemma MatchingIsConsistent(bs: seq<StoredBundle>, primary: PrimaryBlock)
    requires AllSound(bs) && SameTotals(bs) && primary.flags.fragment && Matching(bs, primary) != []
    ensures AllSound(Matching(bs, primary)) && Decodable(Matching(bs, primary))
    ensures Consistent(Contents(Matching(bs, primary)), Total(Matching(bs, primary)[0]))
  {
    hide Sound, Matches, Matching, GetBundle, Total, SameTotals, Within, Key;
    var ms := Matching(bs, primary);
    MatchingIsSound(bs, primary);
    AllDecodable(ms);
    var cs := Contents(ms);
    MatchFacts(ms[0], primary);
    forall k | 0 <= k < |cs|
      ensures Within(cs[k], Total(ms[0])) && EqualsIgnoringFragmentOffset(cs[0].primary, cs[k].primary)
    {
      MatchFacts(ms[k], primary);
      MatchingTotals(bs, primary, k);
      SameInfoSameKey(cs[0].primary, cs[k].primary);
    }
  }

  // ----- what reassembly makes of agreeing fragments

  predicate ByteAt(b: Bundle, x: int, v: u8) {
    Holds(b, x) && PayloadData(b)[x - GlobalOffset(b)] == v
  }

  predicate AnyByte(bs: seq<Bundle>, x: int, v: u8) {
    exists k :: 0 <= k < |bs| && ByteAt(bs[k], x, v)
  }

  lemma AnyByteLater(bs: seq<Bundle>, x: int, v: u8)
    requires bs != [] && AnyByte(bs[1..], x, v)
    ensures AnyByte(bs, x, v)
  {
    hide ByteAt;
    var k :| 0 <= k < |bs[1..]| && ByteAt(bs[1..][k], x, v);
    assert ByteAt(bs[k + 1], x, v);
  }

  lemma AnyByteSame(r: seq<Bundle>, bs: seq<Bundle>, x: int, v: u8)
    requires (forall b :: b in r <==> b in bs) && AnyByte(r, x, v)
    ensures AnyByte(bs, x, v)
  {
    hide ByteAt;
    var k :| 0 <= k < |r| && ByteAt(r[k], x, v);
    assert r[k] in bs;
  }

  /** The builder keeps what it has, and every byte it adds comes from its place in a fragment. */
  lemma {:induction false} BuilderBytes(bs: seq<Bundle>, data: bytes, x: nat)
    requires Build(bs, data).Some? && x < |Build(bs, data).value|
    ensures if x < |data| then Build(bs, data).value[x] == data[x] else AnyByte(bs, x, Build(bs, data).value[x])
    decreases |bs|
  {
    hide PayloadBlock;
    if bs != [] {
      var offset, piece := GlobalOffset(bs[0]), PayloadData(bs[0]);
      var data' := if offset + |piece| < |data| then data else data + piece[|data| - offset..];
      BuilderBytes(bs[1..], data', x);
      if |data| <= x < |data'| {
        assert data'[x] == piece[x - offset];
        assert ByteAt(bs[0], x, data'[x]);
      } else if x >= |data'| {
        AnyByteLater(bs, x, Build(bs, data).value[x]);
      }
    }
  }

  /** Reassembly of consistent fragments that cover the payload: the data has the total length, and each byte is held
      by a fragment. */
  lemma RejoinedBytes(cs: seq<Bundle>, total: u64) returns (main: Bundle, data: bytes)
    requires Consistent(cs, total) && Covers(cs, total)
    ensures main in cs && |data| == total && forall x :: 0 <= x < total ==> AnyByte(cs, x, data[x])
    ensures Reassemble(cs) == if BundleFits(JoinedBundle(main, data)) then Rejoined(EncodeBundle(JoinedBundle(main, data)))
                              else ReassemblePanics
  {
    hide Consistent, Check, SortByOffset, Build, PayloadBlock, EncodeBundle, BundleFits, Covers, AnyByte, JoinedBundle;
    CheckIffCovers(cs, total);
    AcceptedReaches(cs, total);
    var s := SortByOffset(cs);
    SameElements(s, cs);
    main := s[0];
    assert s[0] in s;
    var start := PayloadData(s[0]);
    assert s[1..][..|s[1..]|] == s[1..];
    BuilderFollowsFold(s[1..], start, |s[1..]|);
    data := Build(s[1..], start).value;
    forall x | 0 <= x < total
      ensures AnyByte(cs, x, data[x])
    {
      BuilderBytes(s[1..], start, x);
      if x < |start| {
        StartByte(s, x);
      } else {
        AnyByteLater(s, x, data[x]);
      }
      AnyByteSame(s, cs, x, data[x]);
    }
  }

  lemma StartByte(s: seq<Bundle>, x: nat)
    requires s != [] && HasPayload(s[0]) && GlobalOffset(s[0]) == 0 && x < |PayloadData(s[0])|
    ensures AnyByte(s, x, PayloadData(s[0])[x])
  {
    assert ByteAt(s[0], x, PayloadData(s[0])[x]);
  }

  lemma {:induction false} FillFacts(bs: seq<CanonicalBlock>, data: bytes)
    ensures |NonPayload(FillPayload(bs, data))| == |NonPayload(bs)|
    ensures PayloadBlock(FillPayload(bs, data))
            == if PayloadBlock(bs).Some? then Some(PayloadBlock(bs).value.(block := Payload(data))) else None
  {
    if bs != [] {
      var r := FillPayload(bs, data);
      assert r[1..] == FillPayload(bs[1..], data);
      FillFacts(bs[1..], data);
    }
  }

  lemma FillFits(b: Bundle, data: bytes)
    requires BundleFits(b) && WellFormed(b) && |data| < 0x1_0000_0000_0000_0000
    ensures BundleFits(JoinedBundle(b, data)) && WellFormed(JoinedBundle(b, data))
  {
    var j := JoinedBundle(b, data);
    forall k | 0 <= k < |j.blocks|
      ensures CanonicalFits(j.blocks[k]) && PlainBlock(j.blocks[k])
    {
      assert CanonicalFits(b.blocks[k]) && PlainBlock(b.blocks[k]);
    }
  }

  lemma JoinedIsSound(main: Bundle, data: bytes)
    requires SoundBundle(main) && |data| < 0x1_0000_0000_0000_0000
    ensures var j := JoinedBundle(main, data);
            && SoundBundle(j) && Key(j.primary) == Key(main.primary) && TotalLength(j) == |data|
            && PayloadData(j) == data && GlobalOffset(j) == 0
  {
    hide NonPayload, PayloadBlock, BundleFits, PlainBlock;
    FillFits(main, data);
    FillFacts(main.blocks, data);
  }

  // ----- the defragmentation step

  lemma MatchingBytes(ms: seq<StoredBundle>, primary: PrimaryBlock, x: int, v: u8)
    requires AllSound(ms) && Decodable(ms) && primary.flags.fragment
    requires forall k :: 0 <= k < |ms| ==> Matches(ms[k], primary)
    ensures AnyByte(Contents(ms), x, v) <==> Stored(ms, Key(primary), x, v)
  {
    hide Sound, Matches, GetBundle, Key, Holds;
    var cs := Contents(ms);
    if AnyByte(cs, x, v) {
      var k :| 0 <= k < |cs| && ByteAt(cs[k], x, v);
      MatchFacts(ms[k], primary);
      assert Carries(ms[k], Key(primary), x, v);
    }
    if Stored(ms, Key(primary), x, v) {
      var k :| 0 <= k < |ms| && Carries(ms[k], Key(primary), x, v);
      assert ByteAt(cs[k], x, v);
    }
  }

  lemma MatchingHasKey(ms: seq<StoredBundle>, primary: PrimaryBlock, key: PrimaryBlock, x: int, v: u8)
    requires AllSound(ms) && primary.flags.fragment && forall k :: 0 <= k < |ms| ==> Matches(ms[k], primary)
    ensures Stored(ms, key, x, v) ==> key == Key(primary)
  {
    hide Sound, Matches, GetBundle, Key, Holds;
    if Stored(ms, key, x, v) {
      var k :| 0 <= k < |ms| && Carries(ms[k], key, x, v);
      MatchFacts(ms[k], primary);
    }
  }

  lemma AgreeWithin(bs: seq<StoredBundle>, primary: PrimaryBlock, key: PrimaryBlock, x: int, v: u8, w: u8)
    requires Agree(bs) && Stored(Matching(bs, primary), key, x, v) && Stored(Matching(bs, primary), key, x, w)
    ensures v == w
  {
    hide Stored;
    FilterCoverage(bs, primary, key, x, v);
    FilterCoverage(bs, primary, key, x, w);
  }

  lemma WithinTotal(cs: seq<Bundle>, total: nat, x: int, v: u8)
    requires AllWithin(cs, total) && AnyByte(cs, x, v)
    ensures 0 <= x < total
  {
    hide PayloadBlock;
    var k :| 0 <= k < |cs| && ByteAt(cs[k], x, v);
    assert Within(cs[k], total);
  }

  /** The reassembled bundle carries exactly what the fragments carried. */
  lemma JoinedCarries(bs: seq<StoredBundle>, primary: PrimaryBlock, j: Bundle, data: bytes, key: PrimaryBlock, x: int, v: u8)
    requires StoreInv(bs) && primary.flags.fragment
    requires HasPayload(j) && Key(j.primary) == Key(primary) && PayloadData(j) == data && GlobalOffset(j) == 0
    requires AllSound(Matching(bs, primary)) && Decodable(Matching(bs, primary))
    requires AllWithin(Contents(Matching(bs, primary)), |data|)
    requires forall y :: 0 <= y < |data| ==> AnyByte(Contents(Matching(bs, primary)), y, data[y])
    ensures BundleCarries(j, key, x, v) <==> Stored(Matching(bs, primary), key, x, v)
  {
    hide Sound, Matches, Matching, Contents, Stored, Key, AnyByte, SameTotals, Agree, PayloadBlock;
    var ms := Matching(bs, primary);
    if BundleCarries(j, key, x, v) {
      MatchingBytes(ms, primary, x, v);
    }
    if Stored(ms, key, x, v) {
      MatchingHasKey(ms, primary, key, x, v);
      MatchingBytes(ms, primary, x, v);
      WithinTotal(Contents(ms), |data|, x, v);
      MatchingBytes(ms, primary, x, data[x]);
      AgreeWithin(bs, primary, key, x, v, data[x]);
    }
  }

  lemma {:induction false} OthersAre(bs: seq<StoredBundle>, primary: PrimaryBlock, news: seq<StoredBundle>)
    requires StoreInv(bs) && AllSound(news)
    requires forall k :: 0 <= k < |news| ==> HasLike(bs, news[k])
    requires forall key, x, v :: Stored(news, key, x, v) <==> Stored(Matching(bs, primary), key, x, v)
    ensures StoreInv(Others(bs, primary) + news) && SameCoverage(bs, Others(bs, primary) + news)
  {
    hide Sound, Total, Stored, Carries, SameTotals, Agree, Key, Matches, Others, Matching;
    var os := Others(bs, primary);
    MatchingIsSound(bs, primary);
    forall key, x, v
      ensures Stored(bs, key, x, v) <==> Stored(os + news, key, x, v)
    {
      FilterCoverage(bs, primary, key, x, v);
      StoredConcat(os, news, key, x, v);
    }
    forall j | 0 <= j < |os + news|
      ensures Sound((os + news)[j]) && HasLike(bs, (os + news)[j])
    {
      if j < |os| {
        assert (os + news)[j] == os[j] && os[j] in bs;
      } else {
        assert (os + news)[j] == news[j - |os|];
      }
    }
    InvAgain(bs, os + news);
  }

  /** Defragmentation on a consistent store never panics and keeps the coverage, whether it succeeds or not. */
  lemma DefragmentKeepsCoverage(s: StoreState, primary: PrimaryBlock)
    requires StoreInv(s.bundles) && primary.flags.fragment && Matching(s.bundles, primary) != []
    ensures Defragment(s, primary).Some?
    ensures var bs' := Defragment(s, primary).value.bundles; StoreInv(bs') && SameCoverage(s.bundles, bs')
  {
    hide StoreInv, SameCoverage, Matching, Others, Contents, Reassemble, Consistent, Sound, Store, Total, Covers, Stored;
    var bs := s.bundles;
    InvParts(bs);
    AllDecodable(bs);
    MatchingIsConsistent(bs, primary);
    var ms := Matching(bs, primary);
    var cs, total := Contents(ms), Total(ms[0]);
    if Covers(cs, total) {
      DefragmentSucceeds(s, primary);
    } else {
      PiecesStay(cs, total);
      MatchingLike(bs, primary);
      OthersAre(bs, primary, ms);
    }
  }

  lemma InvParts(bs: seq<StoredBundle>)
    requires StoreInv(bs)
    ensures AllSound(bs) && SameTotals(bs) && Agree(bs)
  {
  }

  lemma PiecesStay(cs: seq<Bundle>, total: u64)
    requires Consistent(cs, total) && !Covers(cs, total)
    ensures Reassemble(cs) == NotComplete(SortByOffset(cs))
  {
    hide Consistent, Check, SortByOffset, Build, Covers;
    CheckIffCovers(cs, total);
  }

  lemma MatchingLike(bs: seq<StoredBundle>, primary: PrimaryBlock)
    requires AllSound(bs)
    ensures AllSound(Matching(bs, primary))
    ensures forall k :: 0 <= k < |Matching(bs, primary)| ==> HasLike(bs, Matching(bs, primary)[k])
  {
    hide Sound, Total, Key, Matches, Matching;
    MatchingIsSound(bs, primary);
    var ms := Matching(bs, primary);
    forall k | 0 <= k < |ms|
      ensures HasLike(bs, ms[k])
    {
      assert ms[k] in bs;
    }
  }

  lemma DefragmentSucceeds(s: StoreState, primary: PrimaryBlock)
    requires StoreInv(s.bundles) && primary.flags.fragment && Matching(s.bundles, primary) != []
    requires Decodable(s.bundles) && AllSound(Matching(s.bundles, primary)) && Decodable(Matching(s.bundles, primary))
    requires var cs, total := Contents(Matching(s.bundles, primary)), Total(Matching(s.bundles, primary)[0]);
             Consistent(cs, total) && Covers(cs, total)
    ensures Defragment(s, primary).Some?
    ensures var bs' := Defragment(s, primary).value.bundles; StoreInv(bs') && SameCoverage(s.bundles, bs')
  {
    hide StoreInv, SameCoverage, Matching, Others, Contents, Reassemble, SamePrimary, Sound, Store, Total, Covers, Stored;
    hide SoundBundle, Key, JoinedBundle, EncodeBundle, AnyByte, TotalLength, PayloadBlock, BundleCarries, HasLike, GetBundle;
    var bs, ms := s.bundles, Matching(s.bundles, primary);
    var cs, total := Contents(ms), Total(ms[0]);
    var main, data := RejoinedBytes(cs, total);
    var k := MainIsStored(ms, main);
    MatchFacts(ms[k], primary);
    JoinedIsSound(main, data);
    var j := JoinedBundle(main, data);
    var s0 := s.(bundles := Others(bs, primary));
    StoreAppends(s0, j, None, Valid);
    var bs' := Store(s0, EncodeBundle(j), None, Valid).value.bundles;
    var news := bs'[|s0.bundles|..];
    assert bs' == s0.bundles + news && |news| == 1 && news[0] == bs'[|s0.bundles|];
    assert news == [news[0]];
    StoredIsSound(news[0], j);
    forall key, x, v
      ensures Stored(news, key, x, v) <==> Stored(ms, key, x, v)
    {
      JoinedCarries(bs, primary, j, data, key, x, v);
      StoredAsCarried(news, [j], key, x, v);
      OneCarries(j, key, x, v);
    }
    InvParts(bs);
    MatchingLike(bs, primary);
    LikeThat(bs, ms[0], primary, news[0], j);
    OthersAre(bs, primary, news);
  }

  lemma MainIsStored(ms: seq<StoredBundle>, main: Bundle) returns (k: nat)
    requires AllSound(ms) && Decodable(ms) && main in Contents(ms)
    ensures k < |ms| && main == GetBundle(ms[k].data).value && SoundBundle(main)
  {
    hide SoundBundle, GetBundle;
    k :| 0 <= k < |ms| && Contents(ms)[k] == main;
    assert Sound(ms[k]);
  }

  lemma OneCarries(b: Bundle, key: PrimaryBlock, x: int, v: u8)
    ensures AnyCarries([b], key, x, v) <==> BundleCarries(b, key, x, v)
  {
    hide BundleCarries;
    AnyCarriesCons([b], key, x, v);
  }

  lemma LikeThat(bs: seq<StoredBundle>, sb: StoredBundle, primary: PrimaryBlock, whole: StoredBundle, j: Bundle)
    requires AllSound(bs) && Sound(sb) && Sound(whole) && HasLike(bs, sb)
    requires Matches(sb, primary) && primary.flags.fragment && Key(j.primary) == Key(primary)
    requires StoresBundle(whole, j) && Total(whole) == Total(sb)
    ensures HasLike(bs, whole)
  {
    hide Sound, Total, Key, Matches, GetBundle;
    MatchFacts(sb, primary);
  }

  // ----- whole runs

  /** Requests that leave a bundle in the store: fragmenting it, trying to defragment it, or queueing it again, possibly
      with new data. */
  datatype Request =
    | FragmentIt(primary: PrimaryBlock, targetSize: nat)
    | DefragmentIt(primary: PrimaryBlock)
    | QueueIt(primary: PrimaryBlock, state: State, newData: Option<bytes>)

  function Handle(s: StoreState, r: Request): Option<StoreState> {
    match r
    case FragmentIt(primary, targetSize) => FragmentRequest(s, primary, targetSize)
    case DefragmentIt(primary) => Update(s, primary, DefragmentationPending, None)
    case QueueIt(primary, state, newData) => Update(s, primary, state, newData)
  }

  /** What each request asks: a fragment request fits; only fragments are defragmented, as the protocol agent sees to;
      and new data is the same bundle with the same payload. */
  predicate Proper(s: StoreState, r: Request) {
    match r
    case FragmentIt(primary, targetSize) => RequestFits(s.bundles, primary, targetSize)
    case DefragmentIt(primary) => primary.flags.fragment
    case QueueIt(primary, state, newData) =>
      && (state.Valid? || state.DeliveryQueued? || state.ForwardingQueued?)
      && var i := Position(s.bundles, primary);
         i < |s.bundles| && newData.Some? ==> Renewed(s.bundles[i], s.bundles[i].(data := newData.value, state := state))
  }

  predicate ProperRun(s: StoreState, rs: seq<Request>)
    decreases |rs|
  {
    rs == [] || (Proper(s, rs[0]) && (Handle(s, rs[0]).Some? ==> ProperRun(Handle(s, rs[0]).value, rs[1..])))
  }

  function RunRequests(s: StoreState, rs: seq<Request>): Option<StoreState>
    decreases |rs|
  {
    if rs == [] then Some(s)
    else match Handle(s, rs[0])
         case None => None
         case Some(s') => RunRequests(s', rs[1..])
  }

  lemma {:induction false} MatchingFinds(bs: seq<StoredBundle>, k: nat, primary: PrimaryBlock)
    requires k < |bs| && Matches(bs[k], primary)
    ensures Matching(bs, primary) != []
  {
    hide Matches;
    if k > 0 {
      MatchingFinds(bs[1..], k - 1, primary);
    }
  }

  lemma MatchesItself(sb: StoredBundle)
    requires Sound(sb)
    ensures Matches(sb, sb.primary)
  {
    hide GetBundle, SoundBundle;
  }

  lemma CoverageTrans(a: seq<StoredBundle>, b: seq<StoredBundle>, c: seq<StoredBundle>)
    requires SameCoverage(a, b) && SameCoverage(b, c)
    ensures SameCoverage(a, c)
  {
    hide Stored;
  }

  /** Asking for defragmentation of a stored fragment never panics and keeps the coverage. */
  lemma DefragmentItKeepsCoverage(s: StoreState, primary: PrimaryBlock)
    requires StoreInv(s.bundles) && primary.flags.fragment
    ensures Update(s, primary, DefragmentationPending, None).Some?
    ensures var bs' := Update(s, primary, DefragmentationPending, None).value.bundles;
            StoreInv(bs') && SameCoverage(s.bundles, bs')
  {
    hide StoreInv, SameCoverage, Position, Sound, Renewed, Defragment, Matches, Matching;
    var bs := s.bundles;
    var i := Position(bs, primary);
    CoverageRefl(bs);
    if i < |bs| {
      InvParts(bs);
      assert Sound(bs[i]);
      Unchanged(bs[i], None, Valid);
      RenewKeepsInv(bs, i, bs[i]);
      var bs1 := Without(bs, i) + [bs[i]];
      MatchesItself(bs[i]);
      assert bs1[|bs1| - 1] == bs[i];
      MatchingFinds(bs1, |bs1| - 1, primary);
      DefragmentKeepsCoverage(s.(bundles := bs1), primary);
      CoverageTrans(bs, bs1, Defragment(s.(bundles := bs1), primary).value.bundles);
    }
  }

  lemma CoverageRefl(bs: seq<StoredBundle>)
    ensures SameCoverage(bs, bs)
  {
  }

  lemma QueueItKeepsCoverage(s: StoreState, primary: PrimaryBlock, state: State, newData: Option<bytes>)
    requires StoreInv(s.bundles) && Proper(s, QueueIt(primary, state, newData))
    ensures Update(s, primary, state, newData).Some?
    ensures var bs' := Update(s, primary, state, newData).value.bundles; StoreInv(bs') && SameCoverage(s.bundles, bs')
  {
    hide StoreInv, SameCoverage, Position, Sound, Renewed, Defragment;
    var bs := s.bundles;
    var i := Position(bs, primary);
    CoverageRefl(bs);
    if i < |bs| {
      InvParts(bs);
      assert Sound(bs[i]);
      Unchanged(bs[i], None, state);
      assert bs[i].(data := bs[i].data, state := state) == bs[i].(state := state);
      RenewKeepsInv(bs, i, bs[i].(data := if newData.Some? then newData.value else bs[i].data, state := state));
    }
  }

  lemma HandleKeepsCoverage(s: StoreState, r: Request)
    requires StoreInv(s.bundles) && Proper(s, r)
    ensures Handle(s, r).Some?
    ensures StoreInv(Handle(s, r).value.bundles) && SameCoverage(s.bundles, Handle(s, r).value.bundles)
  {
    hide StoreInv, SameCoverage, Update, FragmentRequest, RequestFits;
    InvParts(s.bundles);
    match r {
      case FragmentIt(primary, targetSize) => FragmentRequestKeepsCoverage(s, primary, targetSize);
      case DefragmentIt(primary) => DefragmentItKeepsCoverage(s, primary);
      case QueueIt(primary, state, newData) => QueueItKeepsCoverage(s, primary, state, newData);
    }
  }

  /** Over every run of fragment requests, defragmentation attempts and requeueing on a consistent store, whether they
      succeed, fail or are refused as too small: nothing panics, for each bundle exactly the same payload bytes are
      held at the end as at the start, and the store stays consistent. */
  lemma {:induction false} CoverageIsConserved(s: StoreState, rs: seq<Request>)
    requires StoreInv(s.bundles) && ProperRun(s, rs)
    ensures RunRequests(s, rs).Some? && StoreInv(RunRequests(s, rs).value.bundles)
    ensures SameCoverage(s.bundles, RunRequests(s, rs).value.bundles)
    decreases |rs|
  {
    hide StoreInv, SameCoverage, Handle, Proper;
    CoverageRefl(s.bundles);
    if rs != [] {
      HandleKeepsCoverage(s, rs[0]);
      var s' := Handle(s, rs[0]).value;
      CoverageIsConserved(s', rs[1..]);
      CoverageTrans(s.bundles, s'.bundles, RunRequests(s', rs[1..]).value.bundles);
    }
  }

  /** New data leaves the recorded size as it was, so it is right afterwards exactly if the length is the same. */
  lemma SizeIsNotRecomputed(s: StoreState, primary: PrimaryBlock, state: State, data: bytes)
    requires var i := Position(s.bundles, primary); i < |s.bundles| && s.bundles[i].size == |s.bundles[i].data|
    requires state.Valid? || state.DeliveryQueued? || state.ForwardingQueued?
    ensures var i, s' := Position(s.bundles, primary), Update(s, primary, state, Some(data));
            && s'.Some? && |s'.value.bundles| == |s.bundles|
            && var sb := s'.value.bundles[|s.bundles| - 1];
               sb.data == data && (sb.size == |sb.data| <==> |data| == |s.bundles[i].data|)
  {
    hide Defragment, Position;
  }
}
