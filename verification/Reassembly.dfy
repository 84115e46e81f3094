/** `can_reassemble_bundles` and `reassemble_bundles` (section 5.9 of RFC 9171). */
module Reassembly {
  import opened Bytes
  import opened Bundle
  import opened Fragmentation

  predicate EqualsIgnoringFragmentOffset(p: PrimaryBlock, q: PrimaryBlock) {
    p.(fragmentOffset := None) == q.(fragmentOffset := None)
  }

  predicate EqualsIgnoringFragmentInfo(p: PrimaryBlock, q: PrimaryBlock) {
    p.(fragmentOffset := None, totalDataLength := None) == q.(fragmentOffset := None, totalDataLength := None)
  }

  // ----- sorting by offset

  predicate SortedByOffset(bs: seq<Bundle>) {
    forall i, j :: 0 <= i < j < |bs| ==> GlobalOffset(bs[i]) <= GlobalOffset(bs[j])
  }

  function Insert(b: Bundle, bs: seq<Bundle>): (r: seq<Bundle>)
    ensures multiset(r) == multiset([b]) + multiset(bs)
  {
    if bs == [] || GlobalOffset(b) <= GlobalOffset(bs[0]) then [b] + bs
    else
      assert bs == [bs[0]] + bs[1..];
      [bs[0]] + Insert(b, bs[1..])
  }

  /** The stable sort by offset. */
  function SortByOffset(bs: seq<Bundle>): (r: seq<Bundle>)
    ensures multiset(r) == multiset(bs) && |r| == |bs|
  {
    if bs == [] then []
    else
      assert bs == [bs[0]] + bs[1..];
      var r := Insert(bs[0], SortByOffset(bs[1..]));
      SameLength(r, bs);
      r
  }

  lemma SameLength(r: seq<Bundle>, bs: seq<Bundle>)
    requires multiset(r) == multiset(bs)
    ensures |r| == |bs|
  {
    assert |r| == |multiset(r)| && |bs| == |multiset(bs)|;
  }

  lemma {:induction false} InsertSorted(b: Bundle, bs: seq<Bundle>)
    requires SortedByOffset(bs)
    ensures SortedByOffset(Insert(b, bs))
  {
    if bs != [] && GlobalOffset(b) > GlobalOffset(bs[0]) {
      var r := Insert(b, bs[1..]);
      InsertSorted(b, bs[1..]);
      forall x | x in r
        ensures GlobalOffset(bs[0]) <= GlobalOffset(x)
      {
        assert x in multiset(r);
        assert x == b || x in bs[1..];
      }
      forall j | 0 <= j < |r|
        ensures GlobalOffset(bs[0]) <= GlobalOffset(r[j])
      {
        assert r[j] in r;
      }
    }
  }

  lemma {:induction false} SortSorts(bs: seq<Bundle>)
    ensures SortedByOffset(SortByOffset(bs))
  {
    if bs != [] {
      SortSorts(bs[1..]);
      InsertSorted(bs[0], SortByOffset(bs[1..]));
    }
  }

  /** The fragments at one offset, in order. */
  function AtOffset(bs: seq<Bundle>, offset: u64): seq<Bundle> {
    if bs == [] then []
    else (if GlobalOffset(bs[0]) == offset then [bs[0]] else []) + AtOffset(bs[1..], offset)
  }

  function Only(b: Bundle, offset: u64): seq<Bundle> {
    if GlobalOffset(b) == offset then [b] else []
  }

  lemma AtOffsetCons(b: Bundle, bs: seq<Bundle>, offset: u64)
    ensures AtOffset([b] + bs, offset) == Only(b, offset) + AtOffset(bs, offset)
  {
    assert ([b] + bs)[1..] == bs;
  }

  lemma {:induction false} InsertIsStable(b: Bundle, bs: seq<Bundle>, offset: u64)
    ensures AtOffset(Insert(b, bs), offset) == AtOffset([b] + bs, offset)
  {
    hide AtOffset;
    if bs != [] && GlobalOffset(b) > GlobalOffset(bs[0]) {
      var x, xs := bs[0], bs[1..];
      InsertIsStable(b, xs, offset);
      AtOffsetCons(x, Insert(b, xs), offset);
      AtOffsetCons(b, xs, offset);
      AtOffsetCons(b, bs, offset);
      AtOffsetCons(x, xs, offset);
      assert bs == [x] + xs;
      var tail := AtOffset(xs, offset);
      assert Only(x, offset) + (Only(b, offset) + tail) == Only(b, offset) + (Only(x, offset) + tail);
    }
  }

  /** Fragments at the same offset keep their order. */
  lemma {:induction false} SortIsStable(bs: seq<Bundle>, offset: u64)
    ensures AtOffset(SortByOffset(bs), offset) == AtOffset(bs, offset)
  {
    if bs != [] {
      var s := SortByOffset(bs[1..]);
      SortIsStable(bs[1..], offset);
      InsertIsStable(bs[0], s, offset);
      assert ([bs[0]] + s)[1..] == s;
    }
  }

  // ----- the check

  datatype FoldOutcome = Reached(n: u64) | Gap | FoldPanics

  /** Walks over the fragments in order; `acc` is how far they reach without a gap.  An end beyond 64 bits and a
      missing payload are panics. */
  function Fold(bs: seq<Bundle>, acc: u64): FoldOutcome
    decreases |bs|
  {
    if bs == [] then Reached(acc)
    else if !HasPayload(bs[0]) then FoldPanics
    else
      var end := GlobalOffset(bs[0]) + |PayloadData(bs[0])|;
      if GlobalOffset(bs[0]) > acc then Gap
      else if end >= 0x1_0000_0000_0000_0000 then FoldPanics
      else Fold(bs[1..], if GlobalOffset(bs[0]) < acc then Max(acc, end) else end)
  }

  datatype CheckOutcome = Checked(ok: bool, sorted: seq<Bundle>) | CheckPanics

  predicate SamePrimary(bs: seq<Bundle>)
    requires bs != []
  {
    forall k :: 0 <= k < |bs| ==> EqualsIgnoringFragmentOffset(bs[0].primary, bs[k].primary)
  }

  predicate AllOffsets(bs: seq<Bundle>) {
    forall k :: 0 <= k < |bs| ==> bs[k].primary.fragmentOffset.Some?
  }

  /** `can_reassemble_bundles`: the answer, and the list it leaves behind. */
  function Check(bs: seq<Bundle>): CheckOutcome {
    if bs == [] then Checked(false, [])
    else if !bs[0].primary.flags.fragment || !SamePrimary(bs) || bs[0].primary.totalDataLength.None?
            || !AllOffsets(bs) then CheckPanics
    else
      var s := SortByOffset(bs);
      if GlobalOffset(s[0]) != 0 then Checked(false, s)
      else match Fold(s, 0)
           case FoldPanics => CheckPanics
           case Gap => Checked(false, s)
           case Reached(n) => Checked(n == bs[0].primary.totalDataLength.value, s)
  }

  /** The fold as a loop. */
  method Reach(bs: seq<Bundle>) returns (n: Option<u64>)
    requires !Fold(bs, 0).FoldPanics?
    ensures Fold(bs, 0) == if n.Some? then Reached(n.value) else Gap
  {
    hide PayloadBlock;
    var acc: u64 := 0;
    for i := 0 to |bs|
      invariant Fold(bs, 0) == Fold(bs[i..], acc)
    {
      assert bs[i..][0] == bs[i] && bs[i..][1..] == bs[i + 1..];
      var offset, length := GlobalOffset(bs[i]), |PayloadData(bs[i])|;
      if offset < acc {
        acc := Max(acc, offset + length);
      } else if offset == acc {
        acc := offset + length;
      } else {
        return None;
      }
    }
    n := Some(acc);
  }

  method CanReassembleBundles(bs: seq<Bundle>) returns (ok: bool, sorted: seq<Bundle>)
    requires Check(bs).Checked?
    ensures Check(bs) == Checked(ok, sorted)
  {
    hide Fold, SortByOffset, SamePrimary, AllOffsets;
    if bs == [] {
      return false, [];
    }
    var total := bs[0].primary.totalDataLength.value;
    sorted := SortByOffset(bs);
    if GlobalOffset(sorted[0]) != 0 {
      return false, sorted;
    }
    var n := Reach(sorted);
    ok := n == Some(total);
  }

  // ----- the builder

  /** Appends what each fragment adds to the data so far; `None` is an index out of range. */
  function Build(bs: seq<Bundle>, data: bytes): Option<bytes>
    decreases |bs|
  {
    if bs == [] then Some(data)
    else if !HasPayload(bs[0]) then None
    else
      var offset, piece := GlobalOffset(bs[0]), PayloadData(bs[0]);
      if offset + |piece| < |data| then Build(bs[1..], data)
      else if offset > |data| then None
      else Build(bs[1..], data + piece[|data| - offset..])
  }

  function FillPayload(bs: seq<CanonicalBlock>, data: bytes): (r: seq<CanonicalBlock>)
    ensures |r| == |bs|
    ensures forall k :: 0 <= k < |bs| ==> r[k] == if IsPayload(bs[k]) then bs[k].(block := Payload(data)) else bs[k]
  {
    if bs == [] then []
    else [if IsPayload(bs[0]) then bs[0].(block := Payload(data)) else bs[0]] + FillPayload(bs[1..], data)
  }

  datatype ReassembleOutcome = Rejoined(encoded: bytes) | NotComplete(bundles: seq<Bundle>) | ReassemblePanics

  /** The first fragment with the fragment fields removed and the whole payload put in. */
  function JoinedBundle(main: Bundle, data: bytes): Bundle {
    Bundle(main.primary.(flags := main.primary.flags.(fragment := false), fragmentOffset := None,
                         totalDataLength := None),
           FillPayload(main.blocks, data))
  }

  /** `reassemble_bundles`. */
  function Reassemble(bs: seq<Bundle>): ReassembleOutcome {
    match Check(bs)
    case CheckPanics => ReassemblePanics
    case Checked(ok, s) =>
      if !ok || s == [] then NotComplete(s)
      else if !HasPayload(s[0]) then ReassemblePanics
      else match Build(s[1..], PayloadData(s[0]))
           case None => ReassemblePanics
           case Some(data) =>
             if BundleFits(JoinedBundle(s[0], data)) then Rejoined(EncodeBundle(JoinedBundle(s[0], data))) else ReassemblePanics
  }

  /** The builder as a loop. */
  method BuildData(bs: seq<Bundle>, start: bytes) returns (data: bytes)
    requires Build(bs, start).Some?
    ensures Build(bs, start) == Some(data)
  {
    hide PayloadBlock;
    data := start;
    var currentLength := |data|;
    for i := 0 to |bs|
      invariant currentLength == |data| && Build(bs, start) == Build(bs[i..], data)
    {
      assert bs[i..][0] == bs[i] && bs[i..][1..] == bs[i + 1..];
      var offset, piece := GlobalOffset(bs[i]), PayloadData(bs[i]);
      if offset + |piece| >= currentLength {
        data := data + piece[currentLength - offset..];
        currentLength := |data|;
      }
    }
  }

  method ReassembleBundles(bs: seq<Bundle>) returns (o: ReassembleOutcome)
    requires !Reassemble(bs).ReassemblePanics?
    ensures o == Reassemble(bs)
  {
    hide Check, Build, EncodeBundle, PayloadBlock, BundleFits;
    var ok, sorted := CanReassembleBundles(bs);
    if !ok || sorted == [] {
      return NotComplete(sorted);
    }
    var data := BuildData(sorted[1..], PayloadData(sorted[0]));
    o := Rejoined(EncodeBundle(JoinedBundle(sorted[0], data)));
  }

  // ----- the check accepts exactly the covers

  /** Payload byte x of the original is in b. */
  predicate Holds(b: Bundle, x: int) {
    HasPayload(b) && GlobalOffset(b) <= x < GlobalOffset(b) + |PayloadData(b)|
  }

  predicate Held(bs: seq<Bundle>, x: int) {
    exists k :: 0 <= k < |bs| && Holds(bs[k], x)
  }

  ghost predicate Covers(bs: seq<Bundle>, total: nat) {
    forall x :: 0 <= x < total ==> Held(bs, x)
  }

  predicate Within(b: Bundle, total: nat) {
    b.primary.fragmentOffset.Some? && HasPayload(b) && GlobalOffset(b) + |PayloadData(b)| <= total
  }

  predicate AllWithin(bs: seq<Bundle>, total: nat) {
    forall k :: 0 <= k < |bs| ==> Within(bs[k], total)
  }

  /** If the fold does not get to the end, some byte is in none of the fragments; if it does, all bytes are. */
  lemma {:induction false} FoldCovers(bs: seq<Bundle>, acc: u64, total: u64) returns (x: int)
    requires SortedByOffset(bs) && AllWithin(bs, total) && acc <= total
    ensures !Fold(bs, acc).FoldPanics?
    ensures Fold(bs, acc) == Reached(total) ==> forall y :: acc <= y < total ==> Held(bs, y)
    ensures Fold(bs, acc) != Reached(total) ==> acc <= x < total && !Held(bs, x)
    decreases |bs|
  {
    hide PayloadBlock;
    x := acc;
    if bs != [] {
      var b := bs[0];
      assert Within(b, total);
      if GlobalOffset(b) > acc {
        assert forall k :: 0 <= k < |bs| ==> GlobalOffset(bs[k]) > acc;
      } else {
        var end := GlobalOffset(b) + |PayloadData(b)|;
        var acc' := if GlobalOffset(b) < acc then Max(acc, end) else end;
        x := FoldCovers(bs[1..], acc', total);
        forall y | acc <= y < total && (y < acc' || Held(bs[1..], y))
          ensures Held(bs, y)
        {
          if y < acc' {
            assert Holds(bs[0], y);
          } else {
            var k :| 0 <= k < |bs[1..]| && Holds(bs[1..][k], y);
            assert Holds(bs[k + 1], y);
          }
        }
        if Held(bs, x) && Fold(bs, acc) != Reached(total) {
          var k :| 0 <= k < |bs| && Holds(bs[k], x);
          assert k > 0 ==> Holds(bs[1..][k - 1], x);
        }
      }
    }
  }

  /** Fragments of one bundle that may be checked together. */
  predicate Consistent(bs: seq<Bundle>, total: u64) {
    && bs != [] && SamePrimary(bs) && AllWithin(bs, total)
    && bs[0].primary.flags.fragment && bs[0].primary.totalDataLength == Some(total)
  }

  lemma SameElements(r: seq<Bundle>, bs: seq<Bundle>)
    requires multiset(r) == multiset(bs)
    ensures forall x :: x in r <==> x in bs
  {
    forall x
      ensures x in r <==> x in bs
    {
      assert x in r <==> x in multiset(r);
      assert x in bs <==> x in multiset(bs);
    }
  }

  lemma HeldAny(r: seq<Bundle>, bs: seq<Bundle>, x: int)
    requires forall b :: b in r <==> b in bs
    ensures Held(r, x) <==> Held(bs, x)
  {
    hide Holds;
    if Held(r, x) {
      var k :| 0 <= k < |r| && Holds(r[k], x);
      assert r[k] in bs;
    }
    if Held(bs, x) {
      var k :| 0 <= k < |bs| && Holds(bs[k], x);
      assert bs[k] in r;
    }
  }

  lemma SortedWithin(bs: seq<Bundle>, total: nat)
    requires AllWithin(bs, total)
    ensures AllWithin(SortByOffset(bs), total)
  {
    hide Within, SortByOffset;
    var s := SortByOffset(bs);
    SameElements(s, bs);
    forall k | 0 <= k < |s|
      ensures Within(s[k], total)
    {
      assert s[k] in bs;
    }
  }

  /** For consistent fragments the check never panics, and accepts if and only if they cover the payload. */
  lemma CheckIffCovers(bs: seq<Bundle>, total: u64)
    requires Consistent(bs, total)
    ensures Check(bs).Checked? && Check(bs).sorted == SortByOffset(bs)
    ensures Check(bs).ok <==> Covers(bs, total)
  {
    hide Fold, SortByOffset, SamePrimary, Holds, Held;
    var s := SortByOffset(bs);
    assert AllOffsets(bs);
    SortSorts(bs);
    SortedWithin(bs, total);
    SameElements(s, bs);
    forall x
      ensures Held(s, x) <==> Held(bs, x)
    {
      HeldAny(s, bs, x);
    }
    var x := FoldCovers(s, 0, total);
    if GlobalOffset(s[0]) != 0 {
      assert Within(s[0], total);
      NothingAtZero(s);
    }
  }

  lemma NothingAtZero(bs: seq<Bundle>)
    requires bs != [] && SortedByOffset(bs) && GlobalOffset(bs[0]) > 0
    ensures !Held(bs, 0)
  {
    assert forall k :: 0 <= k < |bs| ==> GlobalOffset(bs[k]) > 0;
  }

  // ----- check and builder agree

  /** At every fragment of an accepted list the fold's accumulator is the length of what the builder has built, and
      the builder stays within range. */
  lemma {:induction false} BuilderFollowsFold(bs: seq<Bundle>, data: bytes, k: nat)
    requires |data| < 0x1_0000_0000_0000_0000 && Fold(bs, |data|).Reached? && k <= |bs|
    ensures Build(bs[..k], data).Some? && Fold(bs[..k], |data|).Reached?
    ensures Fold(bs[..k], |data|).n == |Build(bs[..k], data).value|
    decreases |bs|
  {
    hide PayloadBlock;
    if k > 0 {
      assert bs[..k][0] == bs[0] && bs[..k][1..] == bs[1..][..k - 1];
      var offset, piece := GlobalOffset(bs[0]), PayloadData(bs[0]);
      if offset + |piece| < |data| {
        BuilderFollowsFold(bs[1..], data, k - 1);
      } else {
        BuilderFollowsFold(bs[1..], data + piece[|data| - offset..], k - 1);
      }
    } else {
      assert bs[..0] == [];
    }
  }

  /** Check and builder agree: for every list the check accepts, whatever is in it, the builder goes through without an
      index out of range and builds exactly the total length. */
  lemma AcceptedListsBuild(bs: seq<Bundle>)
    requires Check(bs).Checked? && Check(bs).ok
    ensures var s := Check(bs).sorted;
            && s != [] && HasPayload(s[0]) && Build(s[1..], PayloadData(s[0])).Some?
            && Some(|Build(s[1..], PayloadData(s[0])).value|) == bs[0].primary.totalDataLength
  {
    hide PayloadBlock, Build, SortByOffset, SamePrimary, AllOffsets;
    var s := Check(bs).sorted;
    assert s[1..][..|s[1..]|] == s[1..];
    BuilderFollowsFold(s[1..], PayloadData(s[0]), |s[1..]|);
  }
}
