/** The bundle storage agent: stored bundles, fragment requests, updates and defragmentation.

    Bundle files are not modelled; a notification to the protocol agent is an entry of `notified`. */
module Storage {
  import opened Bytes
  import opened Cbor
  import opened Bundle
  import opened Fragmentation
  import opened Reassembly

  datatype State =
    | Received | Valid | DefragmentationPending | DeliveryQueued | Delivered | ForwardingQueued | ForwardDone | Invalid

  datatype StoredBundle = StoredBundle(
    data: bytes, state: State, size: nat, payloadSize: nat, minSize: Option<nat>, primary: PrimaryBlock)

  /** A reference to a stored bundle, as the other agents hold it. */
  datatype Ref = Ref(state: State, size: nat, payloadSize: nat, minSize: Option<nat>, primary: PrimaryBlock)

  datatype StoreState = StoreState(bundles: seq<StoredBundle>, notified: seq<Ref>)

  function RefOf(sb: StoredBundle): Ref {
    Ref(sb.state, sb.size, sb.payloadSize, sb.minSize, sb.primary)
  }

  /** Decoding; `None` is the panic on data that is no bundle with a payload. */
  function GetBundle(data: bytes): (b: Option<Bundle>)
    ensures b.Some? ==> HasPayload(b.value)
  {
    var r := DecodeBundle(data);
    if r.Parsed? && HasPayload(r.value) then Some(r.value) else None
  }

  function NewStored(data: bytes): Option<StoredBundle> {
    match GetBundle(data)
    case None => None
    case Some(b) => Some(StoredBundle(data, Received, |data|, |PayloadData(b)|, None, b.primary))
  }

  /** `store_bundle`; in this and the following functions `None` is a panic. */
  function Store(s: StoreState, data: bytes, minSize: Option<nat>, state: State): Option<StoreState> {
    match NewStored(data)
    case None => None
    case Some(stored) =>
      var sb := stored.(minSize := minSize, state := state);
      Some(StoreState(s.bundles + [sb], s.notified + [RefOf(sb)]))
  }

  /** Fragments are stored one by one: the first with its own minimum size. */
  function StoreFragments(s: StoreState, fs: seq<Bundle>, minSize: nat, laterMinSize: nat): Option<StoreState>
    decreases |fs|
  {
    if fs == [] then Some(s)
    else if !BundleFits(fs[0]) then None
    else match Store(s, EncodeBundle(fs[0]), Some(minSize), Valid)
         case None => None
         case Some(s') => StoreFragments(s', fs[1..], laterMinSize, laterMinSize)
  }

  /** Index of the first stored bundle with this primary block, the length if there is none. */
  function Position(bs: seq<StoredBundle>, primary: PrimaryBlock): (i: nat)
    ensures i <= |bs| && (i < |bs| ==> bs[i].primary == primary)
    ensures forall k :: 0 <= k < i ==> bs[k].primary != primary
  {
    if bs == [] || bs[0].primary == primary then 0 else 1 + Position(bs[1..], primary)
  }

  function Without(bs: seq<StoredBundle>, i: nat): seq<StoredBundle>
    requires i < |bs|
  {
    bs[..i] + bs[i + 1..]
  }

  /** What a fragmentation result does to a store the bundle has been taken out of. */
  function Fragmented(s: StoreState, sb: StoredBundle, o: FragmentOutcome): Option<StoreState> {
    match o
    case Fragments(fs, firstMinimum, minimum) => if fs == [] then None else StoreFragments(s, fs, firstMinimum, minimum)
    case Refused(CanNotFragmentThatSmall(m)) =>
      var sb' := sb.(minSize := Some(m));
      Some(StoreState(s.bundles + [sb'], s.notified + [RefOf(sb')]))
    case _ => None
  }

  /** The handler of `FragmentBundle`. */
  function FragmentRequest(s: StoreState, primary: PrimaryBlock, targetSize: nat): Option<StoreState> {
    var i := Position(s.bundles, primary);
    if i == |s.bundles| then Some(s)
    else match GetBundle(s.bundles[i].data)
         case None => None
         case Some(b) => Fragmented(s.(bundles := Without(s.bundles, i)), s.bundles[i], Fragment(b, targetSize))
  }

  // ----- defragmentation

  predicate Decodable(bs: seq<StoredBundle>) {
    forall k :: 0 <= k < |bs| ==> GetBundle(bs[k].data).Some?
  }

  predicate Matches(sb: StoredBundle, primary: PrimaryBlock) {
    GetBundle(sb.data).Some? && EqualsIgnoringFragmentInfo(GetBundle(sb.data).value.primary, primary)
  }

  function Matching(bs: seq<StoredBundle>, primary: PrimaryBlock): (r: seq<StoredBundle>)
    ensures forall k :: 0 <= k < |r| ==> r[k] in bs && Matches(r[k], primary)
  {
    if bs == [] then [] else (if Matches(bs[0], primary) then [bs[0]] else []) + Matching(bs[1..], primary)
  }

  function Others(bs: seq<StoredBundle>, primary: PrimaryBlock): (r: seq<StoredBundle>)
    ensures forall k :: 0 <= k < |r| ==> r[k] in bs && !Matches(r[k], primary)
  {
    if bs == [] then [] else (if Matches(bs[0], primary) then [] else [bs[0]]) + Others(bs[1..], primary)
  }

  lemma FilterFrom(bs: seq<StoredBundle>, i: nat, primary: PrimaryBlock)
    requires i <= |bs|
    ensures i == |bs| ==> Matching(bs[i..], primary) == [] && Others(bs[i..], primary) == []
    ensures i < |bs| && Matches(bs[i], primary) ==>
              && Matching(bs[i..], primary) == [bs[i]] + Matching(bs[i + 1..], primary)
              && Others(bs[i..], primary) == Others(bs[i + 1..], primary)
    ensures i < |bs| && !Matches(bs[i], primary) ==>
              && Matching(bs[i..], primary) == Matching(bs[i + 1..], primary)
              && Others(bs[i..], primary) == [bs[i]] + Others(bs[i + 1..], primary)
  {
    hide Matches;
    if i < |bs| {
      assert bs[i..][0] == bs[i] && bs[i..][1..] == bs[i + 1..];
    }
  }

  function Contents(bs: seq<StoredBundle>): (r: seq<Bundle>)
    requires Decodable(bs)
    ensures |r| == |bs| && forall k :: 0 <= k < |bs| ==> r[k] == GetBundle(bs[k].data).value
  {
    seq(|bs|, k requires 0 <= k < |bs| => GetBundle(bs[k].data).value)
  }

  /** `try_defragment_bundle`. */
  function Defragment(s: StoreState, primary: PrimaryBlock): Option<StoreState> {
    if !Decodable(s.bundles) then None else
    var fragments := Matching(s.bundles, primary);
    if fragments == [] then None
    else
      assert Decodable(fragments);
      match Reassemble(Contents(fragments))
      case ReassemblePanics => None
      case Rejoined(data) => Store(s.(bundles := Others(s.bundles, primary)), data, None, Valid)
      case NotComplete(_) => Some(s.(bundles := Others(s.bundles, primary) + fragments))
  }

  /** The handler of `UpdateBundle`.  New data replaces the old; the recorded sizes stay. */
  function Update(s: StoreState, primary: PrimaryBlock, newState: State, newData: Option<bytes>): Option<StoreState> {
    var i := Position(s.bundles, primary);
    if i == |s.bundles| then Some(s)
    else
      var sb, rest := s.bundles[i], Without(s.bundles, i);
      match newState
      case Valid | DeliveryQueued | ForwardingQueued =>
        var sb' := sb.(state := newState, data := if newData.Some? then newData.value else sb.data);
        Some(StoreState(rest + [sb'], s.notified + [RefOf(sb')]))
      case DefragmentationPending => Defragment(s.(bundles := rest + [sb]), primary)
      case Delivered | ForwardDone | Invalid => Some(s.(bundles := rest))
      case Received => None
  }

  // ----- the object

  class BundleStore {
    var bundles: seq<StoredBundle>
    var notified: seq<Ref>

    function Value(): StoreState
      reads this
    {
      StoreState(bundles, notified)
    }

    constructor ()
      ensures Value() == StoreState([], [])
    {
      bundles, notified := [], [];
    }

    method Find(primary: PrimaryBlock) returns (i: nat)
      ensures i == Position(bundles, primary)
    {
      i := 0;
      while i < |bundles| && bundles[i].primary != primary
        invariant i <= |bundles| && Position(bundles, primary) == i + Position(bundles[i..], primary)
      {
        assert bundles[i..][1..] == bundles[i + 1..];
        i := i + 1;
      }
    }

    method StoreBundle(data: bytes, minSize: Option<nat>, state: State)
      requires Store(Value(), data, minSize, state).Some?
      modifies this
      ensures Store(old(Value()), data, minSize, state) == Some(Value())
    {
      hide GetBundle;
      var sb := NewStored(data).value;
      sb := sb.(minSize := minSize, state := state);
      bundles := bundles + [sb];
      notified := notified + [RefOf(sb)];
    }

    method StoreAll(fs: seq<Bundle>, firstMinimum: nat, minimum: nat)
      requires StoreFragments(Value(), fs, firstMinimum, minimum).Some?
      modifies this
      ensures StoreFragments(old(Value()), fs, firstMinimum, minimum) == Some(Value())
    {
      hide Store, EncodeBundle, BundleFits;
      for i := 0 to |fs|
        invariant StoreFragments(old(Value()), fs, firstMinimum, minimum)
                  == StoreFragments(Value(), fs[i..], if i == 0 then firstMinimum else minimum, minimum)
      {
        assert fs[i..][0] == fs[i] && fs[i..][1..] == fs[i + 1..];
        StoreBundle(EncodeBundle(fs[i]), Some(if i == 0 then firstMinimum else minimum), Valid);
      }
    }

    method FragmentBundle(primary: PrimaryBlock, targetSize: nat)
      requires FragmentRequest(Value(), primary, targetSize).Some?
      modifies this
      ensures FragmentRequest(old(Value()), primary, targetSize) == Some(Value())
    {
      hide Fragment, StoreFragments, GetBundle, Position;
      var i := Find(primary);
      if i == |bundles| {
        return;
      }
      var sb := bundles[i];
      bundles := bundles[..i] + bundles[i + 1..];
      var o := Fragmentation.FragmentBundle(GetBundle(sb.data).value, targetSize);
      match o {
        case Fragments(fs, firstMinimum, minimum) => StoreAll(fs, firstMinimum, minimum);
        case Refused(e) =>
          sb := sb.(minSize := Some(e.minimum));
          bundles := bundles + [sb];
          notified := notified + [RefOf(sb)];
      }
    }

    /** Takes the matching bundles out, one by one. */
    method TakeMatching(primary: PrimaryBlock) returns (fragments: seq<StoredBundle>)
      modifies this`bundles
      ensures bundles == Others(old(bundles), primary) && fragments == Matching(old(bundles), primary)
    {
      hide Matches, Matching, Others;
      fragments := [];
      var i := 0;
      ghost var all := bundles;
      assert bundles[0..] == bundles;
      while i < |bundles|
        invariant i <= |bundles| <= |all|
        invariant Others(all, primary) == bundles[..i] + Others(bundles[i..], primary)
        invariant Matching(all, primary) == fragments + Matching(bundles[i..], primary)
        decreases |bundles| - i
      {
        ghost var before, tail, others := bundles, Matching(bundles[i + 1..], primary), Others(bundles[i + 1..], primary);
        FilterFrom(bundles, i, primary);
        if Matches(bundles[i], primary) {
          assert fragments + ([bundles[i]] + tail) == fragments + [bundles[i]] + tail;
          fragments := fragments + [bundles[i]];
          bundles := bundles[..i] + bundles[i + 1..];
          assert bundles[i..] == before[i + 1..] && bundles[..i] == before[..i];
        } else {
          assert bundles[..i] + ([bundles[i]] + others) == bundles[..i + 1] + others;
          i := i + 1;
        }
      }
      FilterFrom(bundles, i, primary);
      assert bundles[..i] == bundles && bundles + [] == bundles && fragments + [] == fragments;
    }

    method TryDefragment(primary: PrimaryBlock)
      requires Defragment(Value(), primary).Some?
      modifies this
      ensures Defragment(old(Value()), primary) == Some(Value())
    {
      hide Reassemble, GetBundle, Matching, Others, Store;
      var fragments := TakeMatching(primary);
      var o := ReassembleBundles(Contents(fragments));
      match o {
        case Rejoined(data) => StoreBundle(data, None, Valid);
        case NotComplete(_) => bundles := bundles + fragments;
      }
    }

    method UpdateBundle(primary: PrimaryBlock, newState: State, newData: Option<bytes>)
      requires Update(Value(), primary, newState, newData).Some?
      modifies this
      ensures Update(old(Value()), primary, newState, newData) == Some(Value())
    {
      hide Defragment, Position;
      var i := Find(primary);
      if i == |bundles| {
        return;
      }
      var sb := bundles[i];
      bundles := bundles[..i] + bundles[i + 1..];
      match newState {
        case Valid | DeliveryQueued | ForwardingQueued =>
          sb := sb.(state := newState);
          if newData.Some? {
            sb := sb.(data := newData.value);
          }
          bundles := bundles + [sb];
          notified := notified + [RefOf(sb)];
        case DefragmentationPending =>
          bundles := bundles + [sb];
          TryDefragment(primary);
        case Delivered | ForwardDone | Invalid =>
      }
    }
  }
}
