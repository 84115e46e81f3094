/** What a byte stream decodes to: the round trip of whole conversations, and independence of how the bytes are cut
    into reads. */
module Stream {
  import opened Bytes
  import opened Messages
  import opened Codec
  import opened Overreads

  /** Where decoding stands when it stops: waiting for bytes, stopped by an error, or dead in a panic. */
  datatype End = Waiting(state: CodecState, buffer: bytes) | Broken(error: CodecError) | Dead

  datatype Decoding = Decoding(messages: seq<Message>, end: End)

  const START := CodecState(false, None)

  /** Messages already decoded, followed by what comes next. */
  function Glue(ms: seq<Message>, d: Decoding): Decoding {
    Decoding(ms + d.messages, d.end)
  }

  /** Calls the decoder until it has nothing more to give. */
  function Drain(c: CodecState, s: bytes): Decoding
    decreases |s|, c.current.Some?
  {
    match DecodeCall(c, s)
    case Panicked => Decoding([], Dead)
    case Answered(Error(e), _, _) => Decoding([], Broken(e))
    case Answered(Nothing, c', used) => Decoding([], Waiting(c', s[used..]))
    case Answered(Item(m), c', used) =>
      ItemMakesProgress(c, s);
      Glue([m], Drain(c', s[used..]))
  }

  lemma ItemMakesProgress(c: CodecState, s: bytes)
    requires DecodeCall(c, s).Answered? && DecodeCall(c, s).answer.Item?
    ensures DecodeCall(c, s).used > 0 || (c.current.Some? && DecodeCall(c, s).state.current.None?)
  {
    hide FromBE, Pow256, DecodeSessInit, DecodeXferSegment, DecodeXferAck, DecodeXferRefuse;
  }

  /** The reader: every chunk that arrives is appended to what is buffered, and then drained. */
  function Feed(c: CodecState, buffer: bytes, chunks: seq<bytes>): Decoding
    decreases |chunks|
  {
    if chunks == [] then Decoding([], Waiting(c, buffer)) else
    var d := Drain(c, buffer + chunks[0]);
    if d.end.Waiting? then Glue(d.messages, Feed(d.end.state, d.end.buffer, chunks[1..])) else d
  }

  function Flatten(chunks: seq<bytes>): bytes {
    if chunks == [] then [] else chunks[0] + Flatten(chunks[1..])
  }

  // ----- the cuts do not matter

  lemma GlueAssoc(a: seq<Message>, b: seq<Message>, d: Decoding)
    ensures Glue(a, Glue(b, d)) == Glue(a + b, d)
  {
    assert a + (b + d.messages) == a + b + d.messages;
  }

  /** An item or an error stays the same however many bytes follow. */
  lemma AnswerStable(c: CodecState, s: bytes, more: bytes)
    requires DecodeCall(c, s).Answered? && !DecodeCall(c, s).answer.Nothing?
    ensures DecodeCall(c, s + more) == DecodeCall(c, s)
  {
    hide FromBE, Pow256, DecodeBody;
    if !c.headerDone {
      DecodeContactHeaderStable(s, more);
    } else {
      assert (s + more)[0] == s[0];
      var skip := if c.current.None? then 1 else 0;
      assert (s + more)[skip..] == s[skip..] + more;
      if c.current.Some? || TypeOfCode(s[0]).Some? {
        DecodeBodyStable(if c.current.None? then TypeOfCode(s[0]).value else c.current.value, s[skip..], more);
      }
    }
  }

  /** "Need more" keeps everything but the type byte, which the codec remembers: decoding resumes from the kept
      bytes as if they had arrived together with the new ones. */
  lemma NeedMoreResumes(c: CodecState, s: bytes, more: bytes)
    requires DecodeCall(c, s).Answered? && DecodeCall(c, s).answer.Nothing?
    ensures DecodeCall(c, s).used <= 1
    ensures var o := DecodeCall(c, s); Drain(o.state, s[o.used..] + more) == Drain(c, s + more)
  {
    hide Drain;
    var o := DecodeCall(c, s);
    NothingUsed(c, s);
    if o.used == 0 {
      assert s[0..] == s;
    } else if s[1..] + more == [] {
      assert s + more == s && s[1..] + more == s[1..];
      NothingIsQuiet(c, s);
      DrainQuiet(c, s);
      DrainQuiet(o.state, s[1..]);
    } else {
      ResumedCall(c, s, more);
      DrainSame(o.state, s[1..] + more, c, s + more);
    }
  }

  lemma NothingUsed(c: CodecState, s: bytes)
    requires DecodeCall(c, s).Answered? && DecodeCall(c, s).answer.Nothing?
    ensures var o := DecodeCall(c, s);
            if o.used == 0 then o.state == c
            else o.used == 1 && c.headerDone && c.current.None? && s != [] && TypeOfCode(s[0]).Some?
                 && o.state == CodecState(true, TypeOfCode(s[0]))
  {
    hide DecodeBody, DecodeContactHeader, TypeOfCode;
  }

  /** A call that has remembered the type byte gives what the call with the type byte gives. */
  lemma ResumedCall(c: CodecState, s: bytes, more: bytes)
    requires c.headerDone && c.current.None? && s != [] && TypeOfCode(s[0]).Some? && s[1..] + more != []
    ensures var x, y := DecodeCall(CodecState(true, TypeOfCode(s[0])), s[1..] + more), DecodeCall(c, s + more);
            if x.Panicked? then y.Panicked?
            else y == Answered(x.answer, x.state, x.used + 1) && (s + more)[x.used + 1..] == (s[1..] + more)[x.used..]
  {
    hide DecodeBody, TypeOfCode;
    assert (s + more)[1..] == s[1..] + more && (s[1..] + more)[0..] == s[1..] + more;
  }

  /** Draining depends only on what the first call answers and leaves. */
  lemma DrainSame(c: CodecState, s: bytes, c': CodecState, s': bytes)
    requires var x, y := DecodeCall(c, s), DecodeCall(c', s');
             if x.Panicked? then y.Panicked?
             else y.Answered? && y.answer == x.answer && y.state == x.state && s'[y.used..] == s[x.used..]
    ensures Drain(c, s) == Drain(c', s')
  {
    hide DecodeCall;
  }

  lemma DrainQuiet(c: CodecState, s: bytes)
    requires DecodeCall(c, s).Answered? && DecodeCall(c, s).answer.Nothing?
    ensures Drain(c, s) == Decoding([], Waiting(DecodeCall(c, s).state, s[DecodeCall(c, s).used..]))
  {
    hide DecodeCall;
  }

  /** What was drained stays drained: later bytes only continue from where decoding stopped. */
  lemma {:induction false} DrainThenMore(c: CodecState, s: bytes, more: bytes)
    ensures var d := Drain(c, s);
            && (d.end.Waiting? ==> Drain(c, s + more) == Glue(d.messages, Drain(d.end.state, d.end.buffer + more)))
            && (d.end.Broken? ==> Drain(c, s + more) == d)
    decreases |s|, c.current.Some?
  {
    hide DecodeCall;
    var o := DecodeCall(c, s);
    if o.Answered? {
      if o.answer.Nothing? {
        NeedMoreResumes(c, s, more);
        assert Glue([], Drain(c, s + more)) == Drain(c, s + more);
      } else {
        AnswerStable(c, s, more);
        if o.answer.Item? {
          ItemMakesProgress(c, s);
          assert (s + more)[o.used..] == s[o.used..] + more;
          DrainThenMore(o.state, s[o.used..], more);
          var d := Drain(o.state, s[o.used..]);
          if d.end.Waiting? {
            GlueAssoc([o.answer.message], d.messages, Drain(d.end.state, d.end.buffer + more));
          }
        }
      }
    }
  }

  /** The last call of a drain: the state of the codec, and the bytes left in front of it. */
  function LastCall(c: CodecState, s: bytes): (CodecState, bytes)
    decreases |s|, c.current.Some?
  {
    match DecodeCall(c, s)
    case Answered(Item(_), c', used) =>
      ItemMakesProgress(c, s);
      LastCall(c', s[used..])
    case _ => (c, s)
  }

  /** Behind the messages that are complete, the bytes make the decoder read beyond their end. */
  predicate Overruns(c: CodecState, s: bytes) {
    CallOverreads(LastCall(c, s).0, LastCall(c, s).1)
  }

  lemma {:induction false} DrainDiesIff(c: CodecState, s: bytes)
    ensures Drain(c, s).end.Dead? <==> Overruns(c, s)
    decreases |s|, c.current.Some?
  {
    hide DecodeCall, CallOverreads;
    CallPanicsIff(c, s);
    var o := DecodeCall(c, s);
    if o.Answered? && o.answer.Item? {
      ItemMakesProgress(c, s);
      DrainDiesIff(o.state, s[o.used..]);
    }
  }

  /** The bytes that have arrived with the first k chunks overrun. */
  predicate OverrunsAt(c: CodecState, buffer: bytes, chunks: seq<bytes>, k: nat)
    requires k <= |chunks|
  {
    Overruns(c, buffer + Flatten(chunks[..k]))
  }

  lemma FlattenFirst(chunks: seq<bytes>, k: nat)
    requires 0 < k <= |chunks|
    ensures Flatten(chunks[..k]) == chunks[0] + Flatten(chunks[1..][..k - 1])
  {
    assert chunks[..k][0] == chunks[0] && chunks[..k][1..] == chunks[1..][..k - 1];
  }

  /** Past a first chunk that decodes, the rest overruns where the whole does. */
  lemma OverrunsLater(c: CodecState, buffer: bytes, chunks: seq<bytes>, k: nat)
    requires 0 < k <= |chunks|
    ensures var d := Drain(c, buffer + chunks[0]);
            && (d.end.Waiting? ==>
                  (OverrunsAt(c, buffer, chunks, k) <==> OverrunsAt(d.end.state, d.end.buffer, chunks[1..], k - 1)))
            && (d.end.Broken? ==> !OverrunsAt(c, buffer, chunks, k))
            && (k == 1 ==> (OverrunsAt(c, buffer, chunks, k) <==> d.end.Dead?))
  {
    hide Drain, Overruns;
    var first, rest := buffer + chunks[0], Flatten(chunks[1..][..k - 1]);
    var d := Drain(c, first);
    FlattenFirst(chunks, k);
    Assoc(buffer, chunks[0], rest);
    DrainThenMore(c, first, rest);
    DrainDiesIff(c, first + rest);
    if d.end.Waiting? {
      DrainDiesIff(d.end.state, d.end.buffer + rest);
    }
    if k == 1 {
      assert first + [] == first;
    }
  }

  /** Reading chunk by chunk panics if and only if what has arrived with some chunk overruns. */
  lemma {:induction false} FeedDiesIff(c: CodecState, buffer: bytes, chunks: seq<bytes>)
    ensures Feed(c, buffer, chunks).end.Dead? <==> exists k :: 0 < k <= |chunks| && OverrunsAt(c, buffer, chunks, k)
    decreases |chunks|
  {
    hide Drain, OverrunsAt;
    if chunks != [] {
      var d := Drain(c, buffer + chunks[0]);
      OverrunsLater(c, buffer, chunks, 1);
      if d.end.Waiting? {
        FeedDiesIff(d.end.state, d.end.buffer, chunks[1..]);
        if Feed(c, buffer, chunks).end.Dead? {
          var k :| 0 < k <= |chunks[1..]| && OverrunsAt(d.end.state, d.end.buffer, chunks[1..], k);
          OverrunsLater(c, buffer, chunks, k + 1);
        }
      }
      forall k | 0 < k <= |chunks| && OverrunsAt(c, buffer, chunks, k)
        ensures Feed(c, buffer, chunks).end.Dead?
      {
        OverrunsLater(c, buffer, chunks, k);
      }
    }
  }

  /** Any bytes in any chunks: the same messages, the same end and the same leftover as in one piece, if no cut between
      two chunks overruns; and for bytes that do not overrun as a whole, only if. */
  lemma ChunkingDoesNotMatter(c: CodecState, buffer: bytes, chunks: seq<bytes>)
    requires DecodeCall(c, buffer) == Answered(Nothing, c, 0)
    ensures (forall k :: 0 < k < |chunks| ==> !OverrunsAt(c, buffer, chunks, k)) ==>
              Feed(c, buffer, chunks) == Drain(c, buffer + Flatten(chunks))
    ensures !Overruns(c, buffer + Flatten(chunks)) ==>
              (Feed(c, buffer, chunks) == Drain(c, buffer + Flatten(chunks)) <==>
               forall k :: 0 < k < |chunks| ==> !OverrunsAt(c, buffer, chunks, k))
    ensures Feed(c, buffer, chunks).end.Dead? <==> exists k :: 0 < k <= |chunks| && OverrunsAt(c, buffer, chunks, k)
  {
    hide DecodeCall, Drain, Feed, OverrunsAt;
    if forall k :: 0 < k < |chunks| ==> !OverrunsAt(c, buffer, chunks, k) {
      GoodCuts(c, buffer, chunks);
    }
    FeedDiesIff(c, buffer, chunks);
    DrainDiesIff(c, buffer + Flatten(chunks));
  }

  lemma {:induction false} GoodCuts(c: CodecState, buffer: bytes, chunks: seq<bytes>)
    requires DecodeCall(c, buffer) == Answered(Nothing, c, 0)
    requires forall k :: 0 < k < |chunks| ==> !OverrunsAt(c, buffer, chunks, k)
    ensures Feed(c, buffer, chunks) == Drain(c, buffer + Flatten(chunks))
    decreases |chunks|
  {
    hide DecodeCall, OverrunsAt, Drain;
    if chunks == [] {
      assert buffer + [] == buffer && buffer[0..] == buffer;
      DrainQuiet(c, buffer);
    } else {
      var d := Drain(c, buffer + chunks[0]);
      Assoc(buffer, chunks[0], Flatten(chunks[1..]));
      DrainThenMore(c, buffer + chunks[0], Flatten(chunks[1..]));
      OverrunsLater(c, buffer, chunks, 1);
      if |chunks| == 1 {
        assert chunks[1..] == [] && buffer + chunks[0] + [] == buffer + chunks[0];
        assert d.end.Waiting? ==> Glue(d.messages, Decoding([], d.end)) == d;
      } else if d.end.Waiting? {
        DrainStopsQuiet(c, buffer + chunks[0]);
        forall k | 0 < k < |chunks[1..]|
          ensures !OverrunsAt(d.end.state, d.end.buffer, chunks[1..], k)
        {
          OverrunsLater(c, buffer, chunks, k + 1);
        }
        GoodCuts(d.end.state, d.end.buffer, chunks[1..]);
      }
    }
  }

  /** A cut can matter: an acknowledgement behind the contact header, cut inside its length field. */
  lemma CutAcknowledgement(ack: XferAck)
    ensures var s := Encode(MXferAck(ack)); var c := CodecState(true, None);
            && |s| == 18 && OverrunsAt(c, [], [s[..10], s[10..]], 1)
            && Feed(c, [], [s[..10], s[10..]]).end.Dead?
            && Drain(c, s) == Decoding([MXferAck(ack)], Waiting(c, []))
  {
    hide FromBE, Pow256, Be64, Overruns, Drain, DecodeBody;
    var s, c, m := Encode(MXferAck(ack)), CodecState(true, None), MXferAck(ack);
    var chunks := [s[..10], s[10..]];
    assert chunks[..1] == [s[..10]] && [s[..10]][1..] == [];
    assert [] + Flatten(chunks[..1]) == s[..10] == [] + chunks[0];
    PartialMessageCall(m, true, 10);
    DrainPanics(c, s[..10]);
    DrainDiesIff(c, s[..10]);
    FeedDiesIff(c, [], chunks);
    WholeMessageCall(m, true, []);
    assert s + [] == s && s[18..] == [];
    EmptyBufferCall(true);
    DrainQuiet(c, []);
    DrainOne(c, s, m);
  }

  lemma DrainPanics(c: CodecState, s: bytes)
    requires DecodeCall(c, s).Panicked?
    ensures Drain(c, s).end.Dead?
  {
    hide DecodeCall;
  }

  lemma DrainOne(c: CodecState, s: bytes, m: Message)
    requires DecodeCall(c, s) == Answered(Item(m), c, |s|) && Drain(c, []) == Decoding([], Waiting(c, []))
    ensures Drain(c, s) == Decoding([m], Waiting(c, []))
  {
    hide DecodeCall;
    assert s[|s|..] == [] && [m] + [] == [m];
  }

  /** After draining, another call would again ask for more, and change nothing. */
  lemma {:induction false} DrainStopsQuiet(c: CodecState, s: bytes)
    requires Drain(c, s).end.Waiting?
    ensures var e := Drain(c, s).end; DecodeCall(e.state, e.buffer) == Answered(Nothing, e.state, 0)
    decreases |s|, c.current.Some?
  {
    var o := DecodeCall(c, s);
    if o.answer.Item? {
      ItemMakesProgress(c, s);
      DrainStopsQuiet(o.state, s[o.used..]);
    } else {
      NothingIsQuiet(c, s);
    }
  }

  lemma NothingIsQuiet(c: CodecState, s: bytes)
    requires DecodeCall(c, s).Answered? && DecodeCall(c, s).answer.Nothing?
    ensures var o := DecodeCall(c, s); DecodeCall(o.state, s[o.used..]) == Answered(Nothing, o.state, 0)
  {
    hide FromBE, Pow256, DecodeSessInit, DecodeXferSegment, DecodeXferAck, DecodeXferRefuse, DecodeContactHeader;
    assert s[0..] == s;
    if |s| >= 1 {
      assert s[1..][0..] == s[1..];
    }
  }

  // ----- conforming conversations

  /** A list of messages a conforming sender may write: the contact header first, and only there. */
  predicate Conforming(ms: seq<Message>, headerDone: bool) {
    && (forall i :: 0 <= i < |ms| ==> Sendable(ms[i]))
    && (forall i :: 0 <= i < |ms| ==> (ms[i].MContactHeader? <==> !headerDone && i == 0))
  }

  function EncodeAll(ms: seq<Message>): bytes
    requires forall i :: 0 <= i < |ms| ==> Encodable(ms[i])
  {
    if ms == [] then [] else Encode(ms[0]) + EncodeAll(ms[1..])
  }

  /** Is byte position p of the stream inside the panic zone of the message it cuts in two? */
  predicate BadCut(ms: seq<Message>, p: nat)
    requires forall i :: 0 <= i < |ms| ==> Encodable(ms[i])
  {
    if ms == [] then false
    else if p >= |Encode(ms[0])| then BadCut(ms[1..], p - |Encode(ms[0])|)
    else !ms[0].MContactHeader? && p >= 1 && PanicZone(ms[0], p - 1)
  }

  /** The messages that lie wholly within the first p bytes. */
  function Complete(ms: seq<Message>, p: nat): seq<Message>
    requires forall i :: 0 <= i < |ms| ==> Encodable(ms[i])
  {
    if ms == [] || p < |Encode(ms[0])| then []
    else [ms[0]] + Complete(ms[1..], p - |Encode(ms[0])|)
  }

  /** With the whole of a message buffered, one call yields it and consumes exactly its bytes. */
  lemma WholeMessageCall(m: Message, headerDone: bool, rest: bytes)
    requires Sendable(m) && (m.MContactHeader? <==> !headerDone)
    ensures DecodeCall(CodecState(headerDone, None), Encode(m) + rest)
         == Answered(Item(m), CodecState(true, None), |Encode(m)|)
  {
    hide FromBE, Pow256, DecodeBody, DecodeContactHeader, EncodeBody;
    if m.MContactHeader? {
      ContactHeaderRoundTrip(m, rest);
    } else {
      var s := Encode(m) + rest;
      BodyRoundTrip(m, rest);
      assert s[1..] == EncodeBody(m) + rest;
      assert s[0] == TypeCode(TypeOf(m)) && TypeOfCode(s[0]) == Some(TypeOf(m));
    }
  }

  /** With only a part of a message buffered, the call asks for more, or panics exactly on a bad cut. */
  lemma PartialMessageCall(m: Message, headerDone: bool, p: nat)
    requires Sendable(m) && (m.MContactHeader? <==> !headerDone) && p < |Encode(m)|
    ensures var o := DecodeCall(CodecState(headerDone, None), Encode(m)[..p]);
            if !m.MContactHeader? && p >= 1 && PanicZone(m, p - 1) then o.Panicked?
            else o.Answered? && o.answer.Nothing?
  {
    hide FromBE, Pow256, DecodeBody, EncodeSessInit, EncodeXferSegment, EncodeXferAck;
    if !m.MContactHeader? && p >= 1 {
      var s := Encode(m)[..p];
      assert s[1..] == EncodeBody(m)[..p - 1];
      assert s[0] == TypeCode(TypeOf(m)) && TypeOfCode(s[0]) == Some(TypeOf(m));
      IncompleteBody(m, p - 1);
    }
  }

  /** The first p bytes of a conforming stream decode to its complete messages, or panic on a bad cut. */
  lemma {:induction false} DrainPrefix(ms: seq<Message>, headerDone: bool, p: nat)
    requires Conforming(ms, headerDone) && p <= |EncodeAll(ms)|
    ensures var d := Drain(CodecState(headerDone, None), EncodeAll(ms)[..p]);
            if BadCut(ms, p) then d.end.Dead?
            else d.messages == Complete(ms, p) && d.end.Waiting?
                 && (p == |EncodeAll(ms)| ==> d.end == Waiting(CodecState(headerDone || ms != [], None), []))
    decreases |ms|
  {
    hide FromBE, Pow256, DecodeCall, Encode, Sendable, Encodable, PanicZone;
    var c, s := CodecState(headerDone, None), EncodeAll(ms)[..p];
    if ms == [] {
      EmptyBufferCall(headerDone);
    } else {
      var e, tail := Encode(ms[0]), EncodeAll(ms[1..]);
      assert Conforming(ms[1..], true) by {
        assert forall i :: 0 <= i < |ms[1..]| ==> ms[1..][i] == ms[i + 1];
      }
      if p >= |e| {
        assert s == e + tail[..p - |e|];
        WholeMessageCall(ms[0], headerDone, tail[..p - |e|]);
        assert s[|e|..] == tail[..p - |e|];
        EncodeNotEmpty(ms[0]);
        DrainPrefix(ms[1..], true, p - |e|);
      } else {
        assert s == e[..p];
        PartialMessageCall(ms[0], headerDone, p);
      }
    }
  }

  lemma EmptyBufferCall(headerDone: bool)
    ensures DecodeCall(CodecState(headerDone, None), []) == Answered(Nothing, CodecState(headerDone, None), 0)
  {
  }

  lemma EncodeNotEmpty(m: Message)
    requires Encodable(m)
    ensures |Encode(m)| >= 1
  {
  }

  /** Stream round trip: decoding the concatenated encodings of any conforming conversation gives exactly that
      conversation and leaves no byte over. */
  lemma StreamRoundTrip(ms: seq<Message>)
    requires Conforming(ms, false)
    ensures Drain(START, EncodeAll(ms)) == Decoding(ms, Waiting(CodecState(ms != [], None), []))
  {
    hide FromBE, Pow256, DecodeCall, Encode, Sendable, Encodable, PanicZone;
    assert EncodeAll(ms)[..|EncodeAll(ms)|] == EncodeAll(ms);
    DrainPrefix(ms, false, |EncodeAll(ms)|);
    WholeStream(ms);
  }

  lemma {:induction false} WholeStream(ms: seq<Message>)
    requires forall i :: 0 <= i < |ms| ==> Encodable(ms[i])
    ensures Complete(ms, |EncodeAll(ms)|) == ms && !BadCut(ms, |EncodeAll(ms)|)
  {
    hide Encode, Encodable, PanicZone;
    if ms != [] {
      WholeStream(ms[1..]);
    }
  }

  /** Does some chunk of the stream, read from byte q on, end in a panic zone? */
  predicate BadCuts(ms: seq<Message>, q: nat, chunks: seq<bytes>)
    requires forall i :: 0 <= i < |ms| ==> Encodable(ms[i])
    decreases |chunks|
  {
    chunks != [] && (BadCut(ms, q + |chunks[0]|) || BadCuts(ms, q + |chunks[0]|, chunks[1..]))
  }

  /** A reader of a conforming stream sees the whole conversation if no chunk ends in a panic zone, and dies in a
      panic if one does: the cuts alone decide. */
  lemma ConformingFeed(ms: seq<Message>, chunks: seq<bytes>)
    requires Conforming(ms, false) && ms != [] && Flatten(chunks) == EncodeAll(ms)
    ensures !BadCuts(ms, 0, chunks) <==>
            Feed(START, [], chunks) == Decoding(ms, Waiting(CodecState(true, None), []))
    ensures BadCuts(ms, 0, chunks) <==> Feed(START, [], chunks).end.Dead?
  {
    hide FromBE, Pow256, DecodeCall, Encode, Sendable, Encodable, PanicZone;
    var s := EncodeAll(ms);
    assert s[..0] == [] && s[0..] == s;
    EmptyBufferCall(false);
    assert Drain(START, []) == Decoding([], Waiting(START, []));
    FeedFrom(ms, 0, chunks, Drain(START, s[..0]));
    WholeStream(ms);
    assert [] + ms == ms;
    if Feed(START, [], chunks) == Decoding(ms, Waiting(CodecState(true, None), [])) {
      assert !BadCuts(ms, 0, chunks);
    }
    assert Glue([], Feed(START, [], chunks)) == Feed(START, [], chunks);
  }

  lemma {:induction false} FeedFrom(ms: seq<Message>, q: nat, chunks: seq<bytes>, d: Decoding)
    requires Conforming(ms, false) && ms != [] && q <= |EncodeAll(ms)| && EncodeAll(ms)[q..] == Flatten(chunks)
    requires d == Drain(START, EncodeAll(ms)[..q]) && d.end.Waiting?
    ensures var f := Glue(d.messages, Feed(d.end.state, d.end.buffer, chunks));
            if BadCuts(ms, q, chunks) then f.end.Dead?
            else f == Decoding(Complete(ms, |EncodeAll(ms)|), Waiting(CodecState(true, None), []))
    decreases |chunks|
  {
    hide FromBE, Pow256, DecodeCall, Encode, Sendable, Encodable, PanicZone, Drain, Complete, BadCut;
    var s := EncodeAll(ms);
    if chunks == [] {
      assert s[..q] == s[..|s|];
      DrainPrefix(ms, false, |s|);
      WholeStream(ms);
      assert d.messages + [] == d.messages;
    } else {
      var k := |chunks[0]|;
      assert s[q..] == chunks[0] + Flatten(chunks[1..]);
      Field(s, q, chunks[0], Flatten(chunks[1..]));
      assert s[..q] + chunks[0] == s[..q + k];
      DrainThenMore(START, s[..q], chunks[0]);
      DrainPrefix(ms, false, q + k);
      var next := Drain(d.end.state, d.end.buffer + chunks[0]);
      var d' := Drain(START, s[..q + k]);
      assert d' == Glue(d.messages, next);
      if !BadCut(ms, q + k) {
        FeedFrom(ms, q + k, chunks[1..], d');
        GlueAssoc(d.messages, next.messages, Feed(d'.end.state, d'.end.buffer, chunks[1..]));
      }
    }
  }
}
