/** What each request does to the stored bundles and to what the protocol agent is told, position by position. */
module StoreEffects {
  import opened Bytes
  import opened Cbor
  import opened Bundle
  import opened Fragmentation
  import opened Reassembly
  import opened Storage

  /** The first bundle with this primary block is the one at i. */
  predicate FirstAt(bs: seq<StoredBundle>, primary: PrimaryBlock, i: nat) {
    i < |bs| && bs[i].primary == primary && forall k :: 0 <= k < i ==> bs[k].primary != primary
  }

  /** The bundles but that at i, in order, and then these. */
  predicate Exchanged(bs: seq<StoredBundle>, bs': seq<StoredBundle>, i: nat, news: seq<StoredBundle>)
    requires i < |bs|
  {
    && |bs'| == |bs| - 1 + |news|
    && (forall k :: 0 <= k < i ==> bs'[k] == bs[k])
    && (forall k :: i < k < |bs| ==> bs'[k - 1] == bs[k])
    && (forall k :: 0 <= k < |news| ==> bs'[|bs| - 1 + k] == news[k])
  }

  lemma WithoutExchanges(bs: seq<StoredBundle>, i: nat, news: seq<StoredBundle>)
    requires i < |bs|
    ensures Exchanged(bs, Without(bs, i) + news, i, news)
  {
  }

  lemma FoundFirst(bs: seq<StoredBundle>, primary: PrimaryBlock, i: nat)
    requires FirstAt(bs, primary, i)
    ensures Position(bs, primary) == i
  {
    hide Position;
    var p := Position(bs, primary);
    assert p <= i && i <= p;
  }

  // ----- updates

  /** A bundle that goes on: it has exactly the new state, and the new data if there is any; its sizes and its primary
      block stay, all other bundles stay as they are, and the protocol agent is told about it and nothing else. */
  lemma UpdateMovesOn(s: StoreState, primary: PrimaryBlock, i: nat, newState: State, newData: Option<bytes>)
    requires FirstAt(s.bundles, primary, i) && (newState.Valid? || newState.DeliveryQueued? || newState.ForwardingQueued?)
    ensures var o, sb := Update(s, primary, newState, newData), s.bundles[i];
            var data := if newData.Some? then newData.value else sb.data;
            var sb' := StoredBundle(data, newState, sb.size, sb.payloadSize, sb.minSize, primary);
            && o.Some? && Exchanged(s.bundles, o.value.bundles, i, [sb'])
            && o.value.notified == s.notified + [Ref(newState, sb.size, sb.payloadSize, sb.minSize, primary)]
  {
    hide Position, Without;
    FoundFirst(s.bundles, primary, i);
    var o := Update(s, primary, newState, newData);
    WithoutExchanges(s.bundles, i, [o.value.bundles[|o.value.bundles| - 1]]);
  }

  /** A bundle that is done: it is gone, all others stay as they are, and nobody is told. */
  lemma UpdateRemoves(s: StoreState, primary: PrimaryBlock, i: nat, newState: State, newData: Option<bytes>)
    requires FirstAt(s.bundles, primary, i) && (newState.Delivered? || newState.ForwardDone? || newState.Invalid?)
    ensures var o := Update(s, primary, newState, newData);
            o.Some? && Exchanged(s.bundles, o.value.bundles, i, []) && o.value.notified == s.notified
  {
    hide Position, Without;
    FoundFirst(s.bundles, primary, i);
    WithoutExchanges(s.bundles, i, []);
    assert Without(s.bundles, i) + [] == Without(s.bundles, i);
  }

  /** A request about a bundle that is not stored changes nothing. */
  lemma UnknownIsIgnored(s: StoreState, primary: PrimaryBlock, newState: State, newData: Option<bytes>, targetSize: nat)
    requires forall k :: 0 <= k < |s.bundles| ==> s.bundles[k].primary != primary
    ensures Update(s, primary, newState, newData) == Some(s) && FragmentRequest(s, primary, targetSize) == Some(s)
  {
    hide Position;
    assert Position(s.bundles, primary) == |s.bundles|;
  }

  // ----- fragments

  /** A bundle stored as new: from these bytes, with this state and minimum size. */
  predicate StoredAs(sb: StoredBundle, data: bytes, state: State, minSize: Option<nat>) {
    && sb.data == data && sb.size == |data| && sb.state == state && sb.minSize == minSize
    && DecodeBundle(data).Parsed? && HasPayload(DecodeBundle(data).value)
    && sb.primary == DecodeBundle(data).value.primary
    && sb.payloadSize == |PayloadData(DecodeBundle(data).value)|
  }

  /** The protocol agent has been told about these, in order. */
  predicate Told(notified: seq<Ref>, notified': seq<Ref>, news: seq<StoredBundle>) {
    && |notified'| == |notified| + |news|
    && (forall k :: 0 <= k < |notified| ==> notified'[k] == notified[k])
    && (forall k :: 0 <= k < |news| ==>
          notified'[|notified| + k]
          == Ref(news[k].state, news[k].size, news[k].payloadSize, news[k].minSize, news[k].primary))
  }

  /** Storing appends the bundle and tells the protocol agent. */
  lemma StoreTells(s: StoreState, data: bytes, minSize: Option<nat>, state: State) returns (sb: StoredBundle)
    requires Store(s, data, minSize, state).Some?
    ensures var s' := Store(s, data, minSize, state).value;
            StoredAs(sb, data, state, minSize) && s'.bundles == s.bundles + [sb] && Told(s.notified, s'.notified, [sb])
  {
    hide DecodeBundle;
    sb := NewStored(data).value.(minSize := minSize, state := state);
  }

  /** Fragments are stored in order, valid, the first with its own minimum size. */
  lemma {:induction false} FragmentsAreTold(s: StoreState, fs: seq<Bundle>, first: nat, later: nat)
      returns (news: seq<StoredBundle>)
    requires StoreFragments(s, fs, first, later).Some?
    ensures var s' := StoreFragments(s, fs, first, later).value;
            && |news| == |fs| && s'.bundles == s.bundles + news && Told(s.notified, s'.notified, news)
            && forall k :: 0 <= k < |fs| ==>
                 BundleFits(fs[k]) && StoredAs(news[k], EncodeBundle(fs[k]), Valid, Some(if k == 0 then first else later))
    decreases |fs|
  {
    hide Store, EncodeBundle, BundleFits, StoredAs;
    if fs == [] {
      news := [];
      assert s.bundles + news == s.bundles;
    } else {
      var sb := StoreTells(s, EncodeBundle(fs[0]), Some(first), Valid);
      var s1 := Store(s, EncodeBundle(fs[0]), Some(first), Valid).value;
      var rest := FragmentsAreTold(s1, fs[1..], later, later);
      news := [sb] + rest;
      assert s.bundles + [sb] + rest == s.bundles + news;
      assert forall k :: 0 < k < |fs| ==> fs[k] == fs[1..][k - 1] && news[k] == rest[k - 1];
    }
  }

  /** A bundle that can be fragmented is replaced by its fragments, and the protocol agent is told about each. */
  lemma FragmentingReplaces(s: StoreState, primary: PrimaryBlock, i: nat, targetSize: nat) returns (news: seq<StoredBundle>)
    requires FirstAt(s.bundles, primary, i) && GetBundle(s.bundles[i].data).Some?
    requires Fragment(GetBundle(s.bundles[i].data).value, targetSize).Fragments?
    requires FragmentRequest(s, primary, targetSize).Some?
    ensures var o, s' := Fragment(GetBundle(s.bundles[i].data).value, targetSize),
                         FragmentRequest(s, primary, targetSize).value;
            && |news| == |o.fragments| > 0
            && Exchanged(s.bundles, s'.bundles, i, news) && Told(s.notified, s'.notified, news)
            && forall k :: 0 <= k < |news| ==>
                 && BundleFits(o.fragments[k])
                 && StoredAs(news[k], EncodeBundle(o.fragments[k]), Valid, Some(if k == 0 then o.firstMinimum else o.minimum))
  {
    hide Fragment, GetBundle, Position, Without, StoreFragments, EncodeBundle, BundleFits, StoredAs;
    FoundFirst(s.bundles, primary, i);
    var o := Fragment(GetBundle(s.bundles[i].data).value, targetSize);
    news := FragmentsAreTold(s.(bundles := Without(s.bundles, i)), o.fragments, o.firstMinimum, o.minimum);
    WithoutExchanges(s.bundles, i, news);
  }

  /** A bundle that cannot become small enough stays, with the size below which it cannot go. */
  lemma RefusalRecordsMinimum(s: StoreState, primary: PrimaryBlock, i: nat, targetSize: nat, minimum: nat)
    requires FirstAt(s.bundles, primary, i) && GetBundle(s.bundles[i].data).Some?
    requires Fragment(GetBundle(s.bundles[i].data).value, targetSize) == Refused(CanNotFragmentThatSmall(minimum))
    ensures var o, sb' := FragmentRequest(s, primary, targetSize), s.bundles[i].(minSize := Some(minimum));
            && o.Some? && Exchanged(s.bundles, o.value.bundles, i, [sb']) && Told(s.notified, o.value.notified, [sb'])
  {
    hide Fragment, GetBundle, Position, Without;
    FoundFirst(s.bundles, primary, i);
    WithoutExchanges(s.bundles, i, [s.bundles[i].(minSize := Some(minimum))]);
  }

  // ----- defragmentation

  /** Does this stored bundle belong to the same bundle, whole or as a fragment? */
  predicate SameBundle(sb: StoredBundle, primary: PrimaryBlock) {
    && DecodeBundle(sb.data).Parsed? && HasPayload(DecodeBundle(sb.data).value)
    && DecodeBundle(sb.data).value.primary.(fragmentOffset := None, totalDataLength := None)
       == primary.(fragmentOffset := None, totalDataLength := None)
  }

  lemma MatchIsSame(sb: StoredBundle, primary: PrimaryBlock)
    ensures Matches(sb, primary) <==> SameBundle(sb, primary)
  {
    hide DecodeBundle;
  }

  lemma {:induction false} FilterSplits(bs: seq<StoredBundle>, primary: PrimaryBlock)
    ensures multiset(bs) == multiset(Others(bs, primary)) + multiset(Matching(bs, primary))
  {
    hide Matches;
    if bs != [] {
      FilterSplits(bs[1..], primary);
      assert bs == [bs[0]] + bs[1..];
    }
  }

  lemma ExchangeIsMove(bs: seq<StoredBundle>, i: nat)
    requires i < |bs|
    ensures multiset(Without(bs, i) + [bs[i]]) == multiset(bs)
  {
    assert bs == bs[..i] + [bs[i]] + bs[i + 1..];
  }

  /** The pieces of a bundle: if they complete it, they are replaced by the whole, which is valid and without a minimum
      size, and the protocol agent is told about it; otherwise all bundles stay, and nobody is told. */
  lemma DefragmentingReplaces(s: StoreState, primary: PrimaryBlock, i: nat, newData: Option<bytes>)
      returns (pieces: seq<StoredBundle>, others: seq<StoredBundle>)
    requires FirstAt(s.bundles, primary, i) && Update(s, primary, DefragmentationPending, newData).Some?
    ensures forall k :: 0 <= k < |pieces| ==> SameBundle(pieces[k], primary)
    ensures forall k :: 0 <= k < |others| ==> !SameBundle(others[k], primary)
    ensures multiset(pieces) + multiset(others) == multiset(s.bundles) && Decodable(pieces) && pieces != []
    ensures var s', o := Update(s, primary, DefragmentationPending, newData).value, Reassemble(Contents(pieces));
            if o.Rejoined? then
              && |s'.bundles| == |others| + 1 && s'.bundles[..|others|] == others
              && StoredAs(s'.bundles[|others|], o.encoded, Valid, None) && Told(s.notified, s'.notified, s'.bundles[|others|..])
            else o.NotComplete? && multiset(s'.bundles) == multiset(s.bundles) && s'.notified == s.notified
  {
    hide Position, Without, Reassemble, Store, GetBundle, Matching, Others, StoredAs, SameBundle, Matches;
    FoundFirst(s.bundles, primary, i);
    var bs := Without(s.bundles, i) + [s.bundles[i]];
    ExchangeIsMove(s.bundles, i);
    pieces, others := Matching(bs, primary), Others(bs, primary);
    FilterSplits(bs, primary);
    forall sb
      ensures Matches(sb, primary) <==> SameBundle(sb, primary)
    {
      MatchIsSame(sb, primary);
    }
    var o := Reassemble(Contents(pieces));
    if o.Rejoined? {
      var s1 := s.(bundles := others);
      var sb := StoreTells(s1, o.encoded, None, Valid);
      var s' := Store(s1, o.encoded, None, Valid).value;
      assert s'.bundles[..|others|] == others && s'.bundles[|others|..] == [sb];
    }
  }
}
