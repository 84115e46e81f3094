/** Forwarding a bundle: `set_previous_node`, `inc_hop_count` and `forward_bundle` (section 4.4.3 of RFC 9171).

    `checks` says whether the program is built with overflow checks: an overflow then is a panic, and else wraps. */
module Forwarding {
  import opened Bytes
  import opened Bundle

  const HOP_LIMIT_DEFAULT: u8 := 16

  /** v + 1 in an unsigned type with `width` values. */
  function Increment(v: nat, width: nat, checks: bool): (r: Option<nat>)
    requires v < width
    ensures r.Some? ==> r.value < width
  {
    if v + 1 < width then Some(v + 1) else if checks then None else Some(0)
  }

  function MaxNumber(bs: seq<CanonicalBlock>): (n: u64)
    ensures forall k :: 0 <= k < |bs| ==> bs[k].number <= n
  {
    if bs == [] then 0 else Max(bs[0].number, MaxNumber(bs[1..]))
  }

  function NextBlockNumber(bs: seq<CanonicalBlock>, checks: bool): Option<nat> {
    Increment(MaxNumber(bs), 0x1_0000_0000_0000_0000, checks)
  }

  /** Index of the first block the previous node is in, |bs| if there is none. */
  function PreviousNodeAt(bs: seq<CanonicalBlock>): (i: nat)
    ensures i <= |bs| && (i < |bs| ==> bs[i].block.PreviousNode?)
    ensures forall k :: 0 <= k < i ==> !bs[k].block.PreviousNode?
  {
    if bs == [] || bs[0].block.PreviousNode? then 0 else 1 + PreviousNodeAt(bs[1..])
  }

  /** Index of the first hop count block, |bs| if there is none. */
  function HopCountAt(bs: seq<CanonicalBlock>): (i: nat)
    ensures i <= |bs| && (i < |bs| ==> bs[i].block.HopCount?)
    ensures forall k :: 0 <= k < i ==> !bs[k].block.HopCount?
  {
    if bs == [] || bs[0].block.HopCount? then 0 else 1 + HopCountAt(bs[1..])
  }

  function WithNewBlock(bs: seq<CanonicalBlock>, block: Block, checks: bool): Option<seq<CanonicalBlock>> {
    match NextBlockNumber(bs, checks)
    case None => None
    case Some(n) => Some(bs + [CanonicalBlock(block, n, NO_BLOCK_FLAGS, NoCrc)])
  }

  function SetPreviousNode(bs: seq<CanonicalBlock>, node: Endpoint, checks: bool): Option<seq<CanonicalBlock>> {
    var i := PreviousNodeAt(bs);
    if i < |bs| then Some(bs[i := bs[i].(block := PreviousNode(node))]) else WithNewBlock(bs, PreviousNode(node), checks)
  }

  datatype CountOutcome = Counted(blocks: seq<CanonicalBlock>, ok: bool) | CountPanics

  function IncHopCount(bs: seq<CanonicalBlock>, hopLimit: u8, checks: bool): CountOutcome {
    var i := HopCountAt(bs);
    if i < |bs| then
      var limit := bs[i].block.limit;
      match Increment(bs[i].block.count, 0x100, checks)
      case None => CountPanics
      case Some(c) => Counted(bs[i := bs[i].(block := HopCount(limit, c))], c <= limit)
    else match WithNewBlock(bs, HopCount(hopLimit, 0), checks)
         case None => CountPanics
         case Some(bs') => Counted(bs', true)
  }

  datatype ForwardOutcome = Forwarded(blocks: seq<CanonicalBlock>) | HopLimitExceeded | ForwardPanics

  /** `forward_bundle` on the blocks of a bundle; `foreign`: its source is not this node. */
  function Forward(bs: seq<CanonicalBlock>, me: Endpoint, foreign: bool, checks: bool): ForwardOutcome {
    match (if foreign then SetPreviousNode(bs, me, checks) else Some(bs))
    case None => ForwardPanics
    case Some(bs1) =>
      match IncHopCount(bs1, HOP_LIMIT_DEFAULT, checks)
      case CountPanics => ForwardPanics
      case Counted(bs2, ok) => if ok then Forwarded(bs2) else HopLimitExceeded
  }

  // ----- the object

  class OwnedBundle {
    const primary: PrimaryBlock
    const checks: bool
    var blocks: seq<CanonicalBlock>

    constructor (b: Bundle, checks: bool)
      ensures primary == b.primary && blocks == b.blocks && this.checks == checks
    {
      primary, blocks, this.checks := b.primary, b.blocks, checks;
    }

    method HighestNumber() returns (n: u64)
      ensures n == MaxNumber(blocks)
    {
      n := 0;
      for i := |blocks| downto 0
        invariant n == MaxNumber(blocks[i..])
      {
        assert blocks[i..][0] == blocks[i] && blocks[i..][1..] == blocks[i + 1..];
        n := Max(blocks[i].number, n);
      }
      assert blocks[0..] == blocks;
    }

    method Append(block: Block)
      requires WithNewBlock(blocks, block, checks).Some?
      modifies this`blocks
      ensures Some(blocks) == WithNewBlock(old(blocks), block, checks)
    {
      var highest := HighestNumber();
      var number: u64 := if highest < 0xFFFF_FFFF_FFFF_FFFF then highest + 1 else 0;
      blocks := blocks + [CanonicalBlock(block, number, NO_BLOCK_FLAGS, NoCrc)];
    }

    method SetNode(node: Endpoint)
      requires SetPreviousNode(blocks, node, checks).Some?
      modifies this`blocks
      ensures Some(blocks) == SetPreviousNode(old(blocks), node, checks)
    {
      hide WithNewBlock;
      for i := 0 to |blocks|
        invariant blocks == old(blocks)
        invariant PreviousNodeAt(blocks) == i + PreviousNodeAt(blocks[i..])
      {
        assert blocks[i..][1..] == blocks[i + 1..];
        if blocks[i].block.PreviousNode? {
          blocks := blocks[i := blocks[i].(block := PreviousNode(node))];
          return;
        }
      }
      Append(PreviousNode(node));
    }

    method CountHop(hopLimit: u8) returns (ok: bool)
      requires IncHopCount(blocks, hopLimit, checks).Counted?
      modifies this`blocks
      ensures IncHopCount(old(blocks), hopLimit, checks) == Counted(blocks, ok)
    {
      hide WithNewBlock;
      for i := 0 to |blocks|
        invariant blocks == old(blocks)
        invariant HopCountAt(blocks) == i + HopCountAt(blocks[i..])
      {
        assert blocks[i..][1..] == blocks[i + 1..];
        if blocks[i].block.HopCount? {
          var limit, count := blocks[i].block.limit, blocks[i].block.count;
          count := if count < 0xFF then count + 1 else 0;
          blocks := blocks[i := blocks[i].(block := HopCount(limit, count))];
          return count <= limit;
        }
      }
      Append(HopCount(hopLimit, 0));
      ok := true;
    }

    /** `forward_bundle`. */
    method Pass(me: Endpoint, foreign: bool) returns (ok: bool)
      requires !Forward(blocks, me, foreign, checks).ForwardPanics?
      modifies this`blocks
      ensures Forward(old(blocks), me, foreign, checks) == if ok then Forwarded(blocks) else HopLimitExceeded
    {
      hide SetPreviousNode, IncHopCount;
      if foreign {
        SetNode(me);
      }
      ok := CountHop(HOP_LIMIT_DEFAULT);
    }
  }

  // ----- what forwarding keeps

  /** The blocks forwarding does not touch, in order: among them the payload. */
  function Untouched(bs: seq<CanonicalBlock>): seq<CanonicalBlock> {
    if bs == [] then []
    else (if bs[0].block.PreviousNode? || bs[0].block.HopCount? then [] else [bs[0]]) + Untouched(bs[1..])
  }

  predicate DistinctNumbers(bs: seq<CanonicalBlock>) {
    forall i, j :: 0 <= i < j < |bs| ==> bs[i].number != bs[j].number
  }

  /** Hops the bundle may still take: what its first hop count block leaves, or 16 and the hop that adds the block. */
  function HopsLeft(bs: seq<CanonicalBlock>): nat {
    var i := HopCountAt(bs);
    if i == |bs| then 17
    else Max(bs[i].block.limit - bs[i].block.count, 0)
  }

  /** Counting does not overflow before the limit refuses the bundle. */
  predicate Countable(bs: seq<CanonicalBlock>) {
    var i := HopCountAt(bs);
    i < |bs| ==> bs[i].block.limit <= 254 && bs[i].block.count <= 254
  }

  function Lacking(bs: seq<CanonicalBlock>): nat {
    (if PreviousNodeAt(bs) == |bs| then 1 else 0) + (if HopCountAt(bs) == |bs| then 1 else 0)
  }

  /** The numbers of blocks that may still be added stay within 64 bits. */
  predicate RoomForNumbers(bs: seq<CanonicalBlock>) {
    MaxNumber(bs) + Lacking(bs) < 0x1_0000_0000_0000_0000
  }

  lemma {:induction false} AppendKeeps(bs: seq<CanonicalBlock>, b: CanonicalBlock)
    ensures MaxNumber(bs + [b]) == Max(MaxNumber(bs), b.number)
    ensures Untouched(bs + [b]) == Untouched(bs) + Untouched([b])
  {
    if bs == [] {
      assert bs + [b] == [b];
    } else {
      assert (bs + [b])[1..] == bs[1..] + [b];
      AppendKeeps(bs[1..], b);
    }
  }

  lemma {:induction false} AppendFacts(bs: seq<CanonicalBlock>, b: CanonicalBlock)
    ensures HopCountAt(bs + [b])
            == if HopCountAt(bs) < |bs| then HopCountAt(bs) else if b.block.HopCount? then |bs| else |bs| + 1
    ensures PreviousNodeAt(bs + [b])
            == if PreviousNodeAt(bs) < |bs| then PreviousNodeAt(bs)
               else if b.block.PreviousNode? then |bs| else |bs| + 1
  {
    if bs == [] {
      assert bs + [b] == [b];
    } else {
      assert (bs + [b])[1..] == bs[1..] + [b];
      AppendFacts(bs[1..], b);
    }
  }

  lemma {:induction false} ReplaceFacts(bs: seq<CanonicalBlock>, i: nat, block: Block)
    requires i < |bs|
    requires (bs[i].block.HopCount? && block.HopCount?) || (bs[i].block.PreviousNode? && block.PreviousNode?)
    ensures var bs' := bs[i := bs[i].(block := block)];
            && MaxNumber(bs') == MaxNumber(bs) && Untouched(bs') == Untouched(bs)
            && HopCountAt(bs') == HopCountAt(bs) && PreviousNodeAt(bs') == PreviousNodeAt(bs)
  {
    var bs' := bs[i := bs[i].(block := block)];
    if i > 0 {
      assert bs'[1..] == bs[1..][i - 1 := bs[i].(block := block)];
      ReplaceFacts(bs[1..], i - 1, block);
    } else {
      assert bs'[1..] == bs[1..];
    }
  }

  lemma NewBlockFacts(bs: seq<CanonicalBlock>, block: Block, checks: bool)
    requires MaxNumber(bs) + 1 < 0x1_0000_0000_0000_0000 && (block.HopCount? || block.PreviousNode?)
    ensures WithNewBlock(bs, block, checks).Some?
    ensures var bs' := WithNewBlock(bs, block, checks).value;
            && bs' == bs + [bs'[|bs|]] && |bs'| == |bs| + 1 && bs'[|bs|].block == block
            && MaxNumber(bs') == MaxNumber(bs) + 1 && Untouched(bs') == Untouched(bs)
            && (DistinctNumbers(bs) ==> DistinctNumbers(bs'))
  {
    var b := CanonicalBlock(block, MaxNumber(bs) + 1, NO_BLOCK_FLAGS, NoCrc);
    AppendKeeps(bs, b);
    assert Untouched([b]) == [] && Untouched(bs) + [] == Untouched(bs);
  }

  /** Setting the previous node leaves the hop count alone. */
  lemma NodeKeepsHops(bs: seq<CanonicalBlock>, node: Endpoint, checks: bool)
    requires RoomForNumbers(bs)
    ensures SetPreviousNode(bs, node, checks).Some?
    ensures var bs' := SetPreviousNode(bs, node, checks).value;
            && RoomForNumbers(bs') && Untouched(bs') == Untouched(bs) && (DistinctNumbers(bs) ==> DistinctNumbers(bs'))
            && HopsLeft(bs') == HopsLeft(bs) && (Countable(bs') <==> Countable(bs)) && (Unlimited(bs') <==> Unlimited(bs))
  {
    hide MaxNumber, Untouched, HopCountAt, PreviousNodeAt, WithNewBlock;
    var i := PreviousNodeAt(bs);
    if i < |bs| {
      ReplaceFacts(bs, i, PreviousNode(node));
    } else {
      NewBlockFacts(bs, PreviousNode(node), checks);
      AppendFacts(bs, WithNewBlock(bs, PreviousNode(node), checks).value[|bs|]);
    }
  }

  /** Counting a hop takes one from the hops left, or refuses when there is none. */
  lemma HopTakesOne(bs: seq<CanonicalBlock>, checks: bool)
    requires RoomForNumbers(bs) && Countable(bs)
    ensures var o := IncHopCount(bs, HOP_LIMIT_DEFAULT, checks);
            && o.Counted? && (o.ok <==> HopsLeft(bs) >= 1)
            && (o.ok ==>
                  && HopsLeft(o.blocks) == HopsLeft(bs) - 1 && Countable(o.blocks) && RoomForNumbers(o.blocks)
                  && Untouched(o.blocks) == Untouched(bs) && (DistinctNumbers(bs) ==> DistinctNumbers(o.blocks)))
  {
    hide MaxNumber, Untouched, HopCountAt, PreviousNodeAt, WithNewBlock;
    var i := HopCountAt(bs);
    if i < |bs| {
      ReplaceFacts(bs, i, HopCount(bs[i].block.limit, bs[i].block.count + 1));
    } else {
      NewBlockFacts(bs, HopCount(HOP_LIMIT_DEFAULT, 0), checks);
      AppendFacts(bs, WithNewBlock(bs, HopCount(HOP_LIMIT_DEFAULT, 0), checks).value[|bs|]);
    }
  }

  // ----- chains of hops

  datatype Hop = Hop(me: Endpoint, foreign: bool)

  /** `Dropped(n)`: refused by the node behind n that accepted. */
  datatype HopChainOutcome = Arrived(blocks: seq<CanonicalBlock>) | Dropped(after: nat) | ChainPanics

  /** Forwarding by one node after the other. */
  function HopChain(bs: seq<CanonicalBlock>, hops: seq<Hop>, checks: bool): HopChainOutcome
    decreases |hops|
  {
    if hops == [] then Arrived(bs)
    else match Forward(bs, hops[0].me, hops[0].foreign, checks)
         case ForwardPanics => ChainPanics
         case HopLimitExceeded => Dropped(0)
         case Forwarded(bs') =>
           match HopChain(bs', hops[1..], checks)
           case Dropped(n) => Dropped(n + 1)
           case other => other
  }

  lemma ForwardTakesOne(bs: seq<CanonicalBlock>, hop: Hop, checks: bool)
    requires RoomForNumbers(bs) && Countable(bs)
    ensures var o := Forward(bs, hop.me, hop.foreign, checks);
            if HopsLeft(bs) == 0 then o.HopLimitExceeded?
            else o.Forwarded? && HopsLeft(o.blocks) == HopsLeft(bs) - 1 && Countable(o.blocks) && RoomForNumbers(o.blocks)
                 && Untouched(o.blocks) == Untouched(bs) && (DistinctNumbers(bs) ==> DistinctNumbers(o.blocks))
  {
    hide SetPreviousNode, IncHopCount, RoomForNumbers, Countable, HopsLeft, Untouched, DistinctNumbers;
    NodeKeepsHops(bs, hop.me, checks);
    if hop.foreign {
      HopTakesOne(SetPreviousNode(bs, hop.me, checks).value, checks);
    } else {
      HopTakesOne(bs, checks);
    }
  }

  /** Over every chain of nodes: exactly the hops left are accepted (17 for a bundle without a hop count, limit - count
      for one with), and the next node drops the bundle; on the way the payload and all other blocks but the previous
      node and the hop count stay as they are, and block numbers stay distinct. */
  lemma {:induction false} HopLimitBoundsChains(bs: seq<CanonicalBlock>, hops: seq<Hop>, checks: bool)
    requires RoomForNumbers(bs) && Countable(bs)
    ensures var o := HopChain(bs, hops, checks);
            if |hops| <= HopsLeft(bs)
            then o.Arrived? && Untouched(o.blocks) == Untouched(bs) && (DistinctNumbers(bs) ==> DistinctNumbers(o.blocks))
            else o == Dropped(HopsLeft(bs))
    decreases |hops|
  {
    hide Forward, RoomForNumbers, Countable, HopsLeft, Untouched, DistinctNumbers;
    if hops != [] {
      ForwardTakesOne(bs, hops[0], checks);
      if HopsLeft(bs) > 0 {
        HopLimitBoundsChains(Forward(bs, hops[0].me, hops[0].foreign, checks).blocks, hops[1..], checks);
      }
    }
  }

  // ----- where the 8-bit count overflows

  predicate Unlimited(bs: seq<CanonicalBlock>) {
    var i := HopCountAt(bs);
    i < |bs| && bs[i].block.limit == 255
  }

  /** Without overflow checks the largest limit is none at all: every node accepts. */
  lemma {:induction false} LargestLimitIsNone(bs: seq<CanonicalBlock>, hops: seq<Hop>)
    requires RoomForNumbers(bs) && Unlimited(bs)
    ensures HopChain(bs, hops, false).Arrived?
    decreases |hops|
  {
    hide MaxNumber, Untouched, HopCountAt, PreviousNodeAt, SetPreviousNode, RoomForNumbers, DistinctNumbers;
    if hops != [] {
      NodeKeepsHops(bs, hops[0].me, false);
      var bs1 := if hops[0].foreign then SetPreviousNode(bs, hops[0].me, false).value else bs;
      StillUnlimited(bs1);
      LargestLimitIsNone(IncHopCount(bs1, HOP_LIMIT_DEFAULT, false).blocks, hops[1..]);
    }
  }

  lemma StillUnlimited(bs: seq<CanonicalBlock>)
    requires RoomForNumbers(bs) && Unlimited(bs)
    ensures var o := IncHopCount(bs, HOP_LIMIT_DEFAULT, false);
            o.Counted? && o.ok && RoomForNumbers(o.blocks) && Unlimited(o.blocks)
  {
    hide MaxNumber, Untouched, HopCountAt, PreviousNodeAt;
    var i := HopCountAt(bs);
    ReplaceFacts(bs, i, HopCount(255, if bs[i].block.count < 255 then bs[i].block.count + 1 else 0));
  }

  /** With overflow checks the hops left are accepted there too, and the next node panics instead of dropping. */
  lemma {:induction false} OverflowPanics(bs: seq<CanonicalBlock>, hops: seq<Hop>)
    requires RoomForNumbers(bs) && !Countable(bs)
    ensures if |hops| <= HopsLeft(bs) then HopChain(bs, hops, true).Arrived? else HopChain(bs, hops, true).ChainPanics?
    decreases |hops|
  {
    hide MaxNumber, Untouched, HopCountAt, PreviousNodeAt, SetPreviousNode, RoomForNumbers, DistinctNumbers;
    if hops != [] {
      NodeKeepsHops(bs, hops[0].me, true);
      var bs1 := if hops[0].foreign then SetPreviousNode(bs, hops[0].me, true).value else bs;
      OverflowStep(bs1);
      if HopsLeft(bs) >= 1 {
        OverflowPanics(IncHopCount(bs1, HOP_LIMIT_DEFAULT, true).blocks, hops[1..]);
      }
    }
  }

  lemma OverflowStep(bs: seq<CanonicalBlock>)
    requires RoomForNumbers(bs) && !Countable(bs)
    ensures var o := IncHopCount(bs, HOP_LIMIT_DEFAULT, true);
            if HopsLeft(bs) == 0 then o.CountPanics?
            else o.Counted? && o.ok && RoomForNumbers(o.blocks) && !Countable(o.blocks)
                 && HopsLeft(o.blocks) == HopsLeft(bs) - 1
  {
    hide MaxNumber, Untouched, HopCountAt, PreviousNodeAt;
    var i := HopCountAt(bs);
    if HopsLeft(bs) >= 1 {
      ReplaceFacts(bs, i, HopCount(255, bs[i].block.count + 1));
    }
  }

  /** With overflow checks a chain panics if and only if limit or count is 255 and it is longer than the hops left. */
  lemma ChainPanicsIff(bs: seq<CanonicalBlock>, hops: seq<Hop>)
    requires RoomForNumbers(bs)
    ensures HopChain(bs, hops, true).ChainPanics? <==> !Countable(bs) && |hops| > HopsLeft(bs)
  {
    hide RoomForNumbers, Countable, HopsLeft, HopChain;
    if Countable(bs) {
      HopLimitBoundsChains(bs, hops, true);
    } else {
      OverflowPanics(bs, hops);
    }
  }

  function Stay(n: nat): (hops: seq<Hop>)
    ensures |hops| == n
  {
    seq(n, _ => Hop(Endpoint(NONE), false))
  }

  /** Without overflow checks the hop limit bounds every chain if and only if both the limit and the count are at
      most 254. */
  lemma BoundHoldsIffCountable(bs: seq<CanonicalBlock>)
    requires RoomForNumbers(bs)
    ensures Countable(bs) <==> forall hops :: HopChain(bs, hops, false).Arrived? ==> |hops| <= HopsLeft(bs)
  {
    hide RoomForNumbers;
    if Countable(bs) {
      forall hops | HopChain(bs, hops, false).Arrived?
        ensures |hops| <= HopsLeft(bs)
      {
        HopLimitBoundsChains(bs, hops, false);
      }
    } else if Unlimited(bs) {
      LargestLimitIsNone(bs, Stay(HopsLeft(bs) + 1));
    } else {
      var hops := Stay(1);
      assert HopsLeft(bs) == 0 && hops[1..] == [];
      assert HopChain(bs, hops, false).Arrived?;
    }
  }

  // ----- the previous node

  lemma NodeIsSet(bs: seq<CanonicalBlock>, node: Endpoint, checks: bool) returns (j: nat)
    requires SetPreviousNode(bs, node, checks).Some?
    ensures var bs' := SetPreviousNode(bs, node, checks).value;
            && j < |bs'| && bs'[j].block == PreviousNode(node) && (forall k :: 0 <= k < j ==> !bs'[k].block.PreviousNode?)
            && |bs| <= |bs'| && forall k :: 0 <= k < |bs| && k != j ==> bs'[k] == bs[k]
  {
    hide MaxNumber, PreviousNodeAt;
    j := PreviousNodeAt(bs);
  }

  lemma CountKeepsOthers(bs: seq<CanonicalBlock>, hopLimit: u8, checks: bool)
    requires IncHopCount(bs, hopLimit, checks).Counted?
    ensures var bs' := IncHopCount(bs, hopLimit, checks).blocks;
            && |bs| <= |bs'|
            && (forall k :: 0 <= k < |bs| && !bs[k].block.HopCount? ==> bs'[k] == bs[k])
            && (forall k :: 0 <= k < |bs| && bs[k].block.HopCount? ==> bs'[k].block.HopCount?)
  {
    hide MaxNumber, HopCountAt;
  }

  /** After a hop of a foreign bundle the first previous node block names this node; other blocks than that and hop
      counts are what they were, and a bundle of this node keeps its previous node blocks. */
  lemma PreviousNodeIsThisNode(bs: seq<CanonicalBlock>, me: Endpoint, foreign: bool, checks: bool) returns (j: nat)
    requires Forward(bs, me, foreign, checks).Forwarded?
    ensures var bs' := Forward(bs, me, foreign, checks).blocks;
            && |bs| <= |bs'|
            && (foreign ==> j < |bs'| && bs'[j].block == PreviousNode(me)
                            && forall k :: 0 <= k < j ==> !bs'[k].block.PreviousNode?)
            && (forall k :: 0 <= k < |bs| && !bs[k].block.HopCount? && !(foreign && k == j) ==> bs'[k] == bs[k])
  {
    hide SetPreviousNode, IncHopCount;
    j := 0;
    if foreign {
      j := NodeIsSet(bs, me, checks);
    }
    var bs1 := if foreign then SetPreviousNode(bs, me, checks).value else bs;
    CountKeepsOthers(bs1, HOP_LIMIT_DEFAULT, checks);
  }
}
