/** What the rules say of single messages and events, over every run of a session against any peer. */
module Answers {
  import opened Bytes
  import opened Messages
  import opened StateMachine
  import opened Session
  import opened SessionSafety
  import opened SessionTermination
  import opened Rulebook
  import opened RuledSessions

  // ----- the book and the log

  predicate InitIn(e: Entry) {
    e.In? && e.message.MSessInit?
  }

  predicate InitOut(e: Entry) {
    e.Out? && e.message.MSessInit?
  }

  /** Both SESS_INIT messages have been exchanged. */
  ghost predicate Exchanged(log: seq<Entry>) {
    && (exists k :: 0 <= k < |log| && InitIn(log[k]))
    && (exists k :: 0 <= k < |log| && InitOut(log[k]))
  }

  /** Sessions are ended only after both introductions, and a SESS_TERM that was read is answered or ends the log. */
  predicate TermsInOrder(b: Book) {
    && (b.termIn ==> b.over || (b.owed.Some? && b.owed.value.MSessTerm?))
    && (b.termOut || (b.owed.Some? && b.owed.value.MSessTerm?) ==> b.initIn.Some? && b.initOut)
  }

  predicate Tells(b: Book, b': Book, e: Entry) {
    && (b'.initIn.Some? <==> b.initIn.Some? || InitIn(e)) && (b'.initOut <==> b.initOut || InitOut(e))
    && (b'.termOut <==> b.termOut || OutTerm(e)) && (TermsInOrder(b) ==> TermsInOrder(b'))
  }

  lemma SegmentFrame(b: Book, x: XferSegment)
    ensures var b' := ReadSegment(b, x);
            && b' == b.(owed := b'.owed, arriving := b'.arriving, passedUp := b'.passedUp)
            && (b'.owed == b.owed || (b'.owed.Some? && b'.owed.value.MXferAck?))
  {
    hide Low64;
    if b.arriving.Some? && b.arriving.value.id != x.id {
      assert ReadSegment(b, x) == b;
    } else if x.flags.end {
      assert ReadSegment(b, x).owed.value.MXferAck?;
    } else {
      assert ReadSegment(b, x).owed.value.MXferAck?;
    }
  }

  lemma AckFrame(b: Book, a: XferAck)
    ensures var b' := ReadAck(b, a);
            && b'.owed == b.owed && b'.initIn == b.initIn && b'.initOut == b.initOut && b'.termIn == b.termIn
            && b'.termOut == b.termOut && (b.over ==> b'.over)
  {
    if b.sending.None? {
      assert ReadAck(b, a) == b.(disputed := true);
    } else if a.length > b.sending.value.pos {
      assert ReadAck(b, a) == b.(over := true);
    } else if b.sending.value.end && a.length == b.sending.value.pos {
      assert ReadAck(b, a) == b.(sending := None);
    } else {
      assert ReadAck(b, a) == b;
    }
  }

  lemma ReadTells(me: Me, b: Book, e: Entry)
    requires e.In? && Next(me, b, e).Some?
    ensures Tells(b, Next(me, b, e).value, e)
  {
    hide ReadSegment, ReadAck, WriteNext;
    if e.message.MXferSegment? {
      hide OwnInit, OwnHeader;
      SegmentFrame(b.(disputed := false), e.message.segment);
    } else if e.message.MXferAck? {
      hide OwnInit, OwnHeader;
      AckFrame(b.(disputed := false), e.message.ack);
    }
  }

  lemma WriteTells(me: Me, b: Book, e: Entry)
    requires e.Out? && Next(me, b, e).Some?
    ensures TermsInOrder(b) ==> Tells(b, Next(me, b, e).value, e)
  {
    hide ReadNext, WriteSegment;
    if e == Out(MKeepalive) {
      hide WriteNext;
    } else if b.owed.Some? {
      hide Volunteer;
    } else if e.message.MXferSegment? {
      SegmentOutFrame(b, e.message.segment);
    } else {
      hide Discharged;
    }
  }

  lemma SegmentOutFrame(b: Book, x: XferSegment)
    requires WriteSegment(b, x).Some?
    ensures WriteSegment(b, x).value == b.(sending := WriteSegment(b, x).value.sending)
  {
  }

  lemma {:induction false} BookTells(me: Me, log: seq<Entry>)
    requires After(me, log).Some?
    ensures var b := After(me, log).value;
            && (b.initIn.Some? <==> exists k :: 0 <= k < |log| && InitIn(log[k]))
            && (b.initOut <==> exists k :: 0 <= k < |log| && InitOut(log[k]))
            && (b.termOut <==> TermSent(log)) && TermsInOrder(b)
  {
    hide Next, InitIn, InitOut, OutTerm, TermsInOrder;
    if log != [] {
      var n := |log| - 1;
      var log' := log[..n];
      BookTells(me, log');
      if log[n].In? {
        ReadTells(me, After(me, log').value, log[n]);
      } else {
        WriteTells(me, After(me, log').value, log[n]);
      }
      assert forall k :: 0 <= k < n ==> log[k] == log'[k];
      assert log == log' + [log[n]];
    } else {
      BeginInOrder(me);
    }
  }

  lemma BeginInOrder(me: Me)
    ensures TermsInOrder(Begin(me))
  {
  }

  /** The rest of a log that keeps the rules starts with a message that may follow. */
  lemma NextInLog(me: Me, log: seq<Entry>, i: nat)
    requires After(me, log).Some? && i < |log|
    ensures After(me, log[..i]).Some? && After(me, log[..i + 1]) == Next(me, After(me, log[..i]).value, log[i])
    ensures After(me, log[..i + 1]).Some?
  {
    hide Next;
    AfterPrefix(me, log, i);
    AfterPrefix(me, log, i + 1);
    assert log[..i + 1] == log[..i] + [log[i]];
    AfterOneMore(me, log[..i], log[i]);
  }

  // ----- single messages

  /** A SESS_TERM read while the session is open makes the reply owed. */
  lemma TermOwed(me: Me, b: Book, msg: Message)
    requires Next(me, b, In(msg)).Some? && msg.MSessTerm? && b.initIn.Some? && b.initOut && !b.termOut
    requires b.termIn ==> b.over || b.owed.Some?
    ensures Next(me, b, In(msg)).value.owed == Some(MSessTerm(true, msg.reason))
  {
    hide OwnInit, OwnHeader;
  }

  /** Every SESS_TERM read before one was sent, and after both SESS_INIT messages, is answered with the REPLY flag and
      the reason it gave; only keepalives may come before the answer, and a session that has not answered yet and has
      not ended can write, and does not read. */
  lemma SessTermIsAnswered(me: Me, evs: seq<Event>, i: nat)
    requires Run(Fresh(me), evs).Ran? && i < |Run(Fresh(me), evs).session.log|
    requires var log := Run(Fresh(me), evs).session.log;
             log[i].In? && log[i].message.MSessTerm? && Exchanged(log[..i]) && !TermSent(log[..i])
    ensures var s := Run(Fresh(me), evs).session;
            && AnsweredWith(s.log, i, MSessTerm(true, s.log[i].message.reason))
            && (OnlyKeepalives(s.log, i + 1, |s.log|) && !s.ended ==> Enabled(s, Write) && !Readable(s.m.state))
  {
    hide Run, Fresh, Next, After, Enabled, GetInterests, AnsweredWith, OnlyKeepalives;
    SessionsKeepTheRules(me, evs);
    var s := Run(Fresh(me), evs).session;
    NextInLog(me, s.log, i);
    BookTells(me, s.log[..i]);
    TermOwed(me, After(me, s.log[..i]).value, s.log[i].message);
    OwedIsWritten(me, s.log, i, MSessTerm(true, s.log[i].message.reason));
  }

  lemma SegmentOwed(me: Me, b: Book, x: XferSegment)
    requires Next(me, b, In(MXferSegment(x))).Some? && Open(b) && (b.arriving.Some? ==> b.arriving.value.id == x.id)
    ensures Next(me, b, In(MXferSegment(x))).value.owed
            == Some(MXferAck(XferAck(x.flags, x.id,
                                     Low64((if b.arriving.Some? then |b.arriving.value.data| else 0) + |x.data|))))
  {
    hide OwnInit, OwnHeader, Low64;
  }

  /** Every segment of an open session that belongs to the transfer arriving, or starts one, is acknowledged with its
      own flags and id and the length of the transfer so far. */
  lemma SegmentIsAcknowledged(me: Me, evs: seq<Event>, i: nat, x: XferSegment)
    requires Run(Fresh(me), evs).Ran? && i < |Run(Fresh(me), evs).session.log|
    requires var log := Run(Fresh(me), evs).session.log;
             && log[i] == In(MXferSegment(x)) && Exchanged(log[..i]) && !TermSent(log[..i])
             && After(me, log[..i]).Some?
             && var arriving := After(me, log[..i]).value.arriving;
             arriving.Some? ==> arriving.value.id == x.id
    ensures var log := Run(Fresh(me), evs).session.log;
            var arriving := After(me, log[..i]).value.arriving;
            AnsweredWith(log, i, MXferAck(XferAck(x.flags, x.id,
              Low64((if arriving.Some? then |arriving.value.data| else 0) + |x.data|))))
  {
    hide Run, Fresh, Next, After, Enabled, GetInterests, AnsweredWith, OnlyKeepalives, Low64;
    SessionsKeepTheRules(me, evs);
    var log := Run(Fresh(me), evs).session.log;
    NextInLog(me, log, i);
    BookTells(me, log[..i]);
    var b := After(me, log[..i]).value;
    NothingOwed(me, b, MXferSegment(x));
    SegmentOwed(me, b, x);
    OwedIsWritten(me, log, i, After(me, log[..i + 1]).value.owed.value);
  }

  lemma NothingOwed(me: Me, b: Book, msg: Message)
    requires Next(me, b, In(msg)).Some?
    ensures b.owed.None? && !b.over
  {
    hide OwnInit, OwnHeader, ReadSegment, ReadAck;
  }

  /** What is out of place whatever was read before: a transfer refusal at any time, and a second SESS_INIT, an
      acknowledgement, a segment or a SESS_TERM while the session is not open. */
  ghost predicate OutOfPlace(log: seq<Entry>, msg: Message) {
    || msg.MXferRefuse?
    || (msg.MSessInit? && exists k :: 0 <= k < |log| && InitIn(log[k]))
    || ((msg.MXferSegment? || msg.MXferAck?) && (!Exchanged(log) || TermSent(log)))
    || (msg.MSessTerm? && !Exchanged(log))
  }

  function MessageNumber(msg: Message): u8
    requires !msg.MContactHeader?
  {
    match msg
    case MXferSegment(_) => 1
    case MXferAck(_) => 2
    case MXferRefuse(_, _) => 3
    case MKeepalive => 4
    case MSessTerm(_, _) => 5
    case MMsgReject(_, _) => 6
    case MSessInit(_) => 7
  }

  lemma RejectOwed(me: Me, b: Book, msg: Message)
    requires Next(me, b, In(msg)).Some?
    requires || msg.MXferRefuse? || (msg.MSessInit? && b.initIn.Some?)
             || ((msg.MXferSegment? || msg.MXferAck?) && !Open(b))
             || (msg.MSessTerm? && !(b.initIn.Some? && b.initOut) && !b.termOut)
    ensures Next(me, b, In(msg)).value.owed == Some(MMsgReject(3, MessageNumber(msg)))
  {
    hide OwnInit, OwnHeader, ReadSegment, ReadAck;
  }

  /** Every message out of place is rejected as unexpected, by its own type number. */
  lemma OutOfPlaceIsRejected(me: Me, evs: seq<Event>, i: nat)
    requires Run(Fresh(me), evs).Ran? && i < |Run(Fresh(me), evs).session.log|
    requires var log := Run(Fresh(me), evs).session.log; log[i].In? && OutOfPlace(log[..i], log[i].message)
    ensures var log := Run(Fresh(me), evs).session.log;
            AnsweredWith(log, i, MMsgReject(3, MessageNumber(log[i].message)))
  {
    hide Run, Fresh, Next, After, Enabled, GetInterests, AnsweredWith, OnlyKeepalives;
    SessionsKeepTheRules(me, evs);
    var log := Run(Fresh(me), evs).session.log;
    NextInLog(me, log, i);
    BookTells(me, log[..i]);
    RejectOwed(me, After(me, log[..i]).value, log[i].message);
    OwedIsWritten(me, log, i, MMsgReject(3, MessageNumber(log[i].message)));
  }
}
