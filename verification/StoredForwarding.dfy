/** `forward_bundle` on stored data, and why the storage agent may replace a bundle by its result. */
module StoredForwarding {
  import opened Bytes
  import opened Cbor
  import opened Bundle
  import opened BundleRoundTrip
  import opened Fragmentation
  import opened FragmentSize
  import opened Forwarding
  import opened Storage
  import opened StoreCoverage
  import ProtocolAgent

  datatype ForwardedData = NewData(data: bytes) | LimitExceeded | DataPanics

  /** Does the bundle come from another node than this one? */
  predicate Foreign(b: Bundle, me: Endpoint) {
    ProtocolAgent.NodeOf(me) != ProtocolAgent.NodeOf(b.primary.source)
  }

  /** Decode, set the previous node if the bundle is foreign, count the hop, encode. */
  function ForwardData(data: bytes, me: Endpoint, checks: bool): ForwardedData {
    var r := DecodeBundle(data);
    if !r.Parsed? then DataPanics else
    match Forward(r.value.blocks, me, Foreign(r.value, me), checks)
    case ForwardPanics => DataPanics
    case HopLimitExceeded => LimitExceeded
    case Forwarded(bs) =>
      var b := r.value.(blocks := bs);
      if BundleFits(b) then NewData(EncodeBundle(b)) else DataPanics
  }

  method ForwardBundle(data: bytes, me: Endpoint, checks: bool) returns (r: ForwardedData)
    requires !ForwardData(data, me, checks).DataPanics?
    ensures r == ForwardData(data, me, checks)
  {
    hide DecodeBundle, EncodeBundle, Forward, Foreign, BundleFits;
    var bundle := DecodeBundle(data).value;
    var owned := new OwnedBundle(bundle, checks);
    var ok := owned.Pass(me, Foreign(bundle, me));
    if !ok {
      return LimitExceeded;
    }
    r := NewData(EncodeBundle(bundle.(blocks := owned.blocks)));
  }

  // ----- forwarding keeps a bundle sound

  predicate GoodBlocks(bs: seq<CanonicalBlock>) {
    forall k :: 0 <= k < |bs| ==> CanonicalFits(bs[k]) && PlainBlock(bs[k])
  }

  lemma NewBlockIsGood(bs: seq<CanonicalBlock>, block: Block, checks: bool)
    requires GoodBlocks(bs) && WithNewBlock(bs, block, checks).Some? && BlockFits(block)
    requires block.PreviousNode? || block.HopCount?
    ensures var bs' := WithNewBlock(bs, block, checks).value; GoodBlocks(bs') && Untouched(bs') == Untouched(bs)
  {
    hide BlockFits, MaxNumber;
    var bs' := WithNewBlock(bs, block, checks).value;
    var b := bs'[|bs|];
    AppendKeeps(bs, b);
    assert Untouched([b]) == [] && Untouched(bs) + [] == Untouched(bs);
  }

  lemma ReplacedIsGood(bs: seq<CanonicalBlock>, i: nat, block: Block)
    requires GoodBlocks(bs) && i < |bs| && BlockFits(block)
    requires (bs[i].block.HopCount? && block.HopCount?) || (bs[i].block.PreviousNode? && block.PreviousNode?)
    ensures var bs' := bs[i := bs[i].(block := block)]; GoodBlocks(bs') && Untouched(bs') == Untouched(bs)
  {
    hide BlockFits;
    ReplaceFacts(bs, i, block);
  }

  lemma ForwardIsGood(bs: seq<CanonicalBlock>, me: Endpoint, foreign: bool, checks: bool)
    requires GoodBlocks(bs) && BlockFits(PreviousNode(me)) && Forward(bs, me, foreign, checks).Forwarded?
    ensures var bs' := Forward(bs, me, foreign, checks).blocks; GoodBlocks(bs') && Untouched(bs') == Untouched(bs)
  {
    hide GoodBlocks, Untouched, WithNewBlock, PreviousNodeAt, HopCountAt, EndpointFits;
    var bs1 := bs;
    if foreign {
      bs1 := SetPreviousNode(bs, me, checks).value;
      var i := PreviousNodeAt(bs);
      if i < |bs| {
        ReplacedIsGood(bs, i, PreviousNode(me));
      } else {
        NewBlockIsGood(bs, PreviousNode(me), checks);
      }
    }
    var i := HopCountAt(bs1);
    if i < |bs1| {
      var c: u8 := Increment(bs1[i].block.count, 0x100, checks).value;
      ReplacedIsGood(bs1, i, HopCount(bs1[i].block.limit, c));
    } else {
      NewBlockIsGood(bs1, HopCount(HOP_LIMIT_DEFAULT, 0), checks);
    }
  }

  /** The payload is among the untouched blocks. */
  lemma {:induction false} UntouchedPayload(bs: seq<CanonicalBlock>)
    ensures PayloadBlock(bs) == PayloadBlock(Untouched(bs))
    ensures |bs| - |NonPayload(bs)| == |Untouched(bs)| - |NonPayload(Untouched(bs))|
  {
    if bs != [] {
      UntouchedPayload(bs[1..]);
      if bs[0].block.PreviousNode? || bs[0].block.HopCount? {
        assert Untouched(bs) == Untouched(bs[1..]);
      } else {
        assert Untouched(bs) == [bs[0]] + Untouched(bs[1..]);
        assert Untouched(bs)[1..] == Untouched(bs[1..]);
      }
    }
  }

  lemma ForwardedIsSound(b: Bundle, me: Endpoint, foreign: bool, checks: bool)
    requires SoundBundle(b) && BlockFits(PreviousNode(me)) && Forward(b.blocks, me, foreign, checks).Forwarded?
    ensures var b' := b.(blocks := Forward(b.blocks, me, foreign, checks).blocks);
            SoundBundle(b') && PayloadData(b') == PayloadData(b)
  {
    hide Forward, Untouched, PayloadBlock, NonPayload, PrimaryFits, CanonicalFits, PlainBlock, EndpointFits;
    var bs' := Forward(b.blocks, me, foreign, checks).blocks;
    ForwardIsGood(b.blocks, me, foreign, checks);
    UntouchedPayload(b.blocks);
    UntouchedPayload(bs');
    PayloadAmong(bs');
  }

  lemma PayloadAmong(bs: seq<CanonicalBlock>)
    requires PayloadBlock(bs).Some?
    ensures bs != []
  {
  }

  /** What forwarding makes of a sound stored bundle is the same bundle with the same payload. */
  lemma ForwardedIsRenewed(sb: StoredBundle, me: Endpoint, checks: bool, state: State)
    requires Sound(sb) && BlockFits(PreviousNode(me)) && ForwardData(sb.data, me, checks).NewData?
    ensures Renewed(sb, sb.(data := ForwardData(sb.data, me, checks).data, state := state))
  {
    hide SoundBundle, DecodeBundle, EncodeBundle, Forward, Foreign, BundleFits, PayloadBlock, EndpointFits;
    var b := GetBundle(sb.data).value;
    ForwardedIsSound(b, me, Foreign(b, me), checks);
    SoundIsStored(b.(blocks := Forward(b.blocks, me, Foreign(b, me), checks).blocks));
  }

  /** The new bytes are those of the same bundle, which names this node as the previous one if and only if its source is
      on another node; all blocks but that and hop counts are as they were. */
  lemma ForwardedNamesThisNode(sb: StoredBundle, me: Endpoint, checks: bool) returns (b': Bundle, j: nat)
    requires Sound(sb) && BlockFits(PreviousNode(me)) && ForwardData(sb.data, me, checks).NewData?
    ensures var b := GetBundle(sb.data).value;
            var foreign := ProtocolAgent.NodeOf(me) != ProtocolAgent.NodeOf(b.primary.source);
            && GetBundle(ForwardData(sb.data, me, checks).data) == Some(b')
            && b'.primary == b.primary && |b.blocks| <= |b'.blocks|
            && (foreign ==> j < |b'.blocks| && b'.blocks[j].block == PreviousNode(me)
                            && forall k :: 0 <= k < j ==> !b'.blocks[k].block.PreviousNode?)
            && (forall k :: 0 <= k < |b.blocks| && !b.blocks[k].block.HopCount? && !(foreign && k == j) ==>
                  b'.blocks[k] == b.blocks[k])
  {
    hide SoundBundle, DecodeBundle, EncodeBundle, Forward, BundleFits, PayloadBlock, EndpointFits;
    var b := GetBundle(sb.data).value;
    ForwardedIsSound(b, me, Foreign(b, me), checks);
    b' := b.(blocks := Forward(b.blocks, me, Foreign(b, me), checks).blocks);
    SoundIsStored(b');
    j := PreviousNodeIsThisNode(b.blocks, me, Foreign(b, me), checks);
  }

  /** So the update with which the protocol agent queues a bundle for forwarding is one the storage result covers. */
  lemma ForwardingIsProper(s: StoreState, primary: PrimaryBlock, me: Endpoint, checks: bool)
    requires AllSound(s.bundles) && BlockFits(PreviousNode(me))
    requires var i := Position(s.bundles, primary);
             i < |s.bundles| && ForwardData(s.bundles[i].data, me, checks).NewData?
    ensures var data := ForwardData(s.bundles[Position(s.bundles, primary)].data, me, checks).data;
            Proper(s, QueueIt(primary, ForwardingQueued, Some(data)))
  {
    hide Sound, Renewed, ForwardData, Position, BlockFits;
    var i := Position(s.bundles, primary);
    assert Sound(s.bundles[i]);
    ForwardedIsRenewed(s.bundles[i], me, checks, ForwardingQueued);
  }
}
