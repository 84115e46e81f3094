/** What one endpoint of a TCPCLv4 session may say, and what it must answer, told from the messages read and written
    alone (sections 4 to 6 of RFC 9174): no state machine appears in these rules. */
module Rulebook {
  import opened Bytes
  import opened Messages
  import opened StateMachine
  import opened Session

  /** Who is talking: the active end connected, the passive end accepted. */
  datatype Me = Me(active: bool, nodeId: bytes, canTls: bool)

  /** How much of a transfer has been written, and whether its last segment has. */
  datatype Sending = Sending(pos: nat, end: bool)

  /** What a reader of the log knows.  `owed` is the message that has to be written next, `disputed` says that an
      acknowledgement came although no segment had been written, `over` that nothing may follow. */
  datatype Book = Book(
    owed: Option<Message>, headerIn: bool, peerTls: bool, initIn: Option<SessInit>, initOut: bool, termIn: bool,
    termOut: bool, arriving: Option<Transfer>, passedUp: seq<Transfer>, sending: Option<Sending>, disputed: bool,
    over: bool)

  function OwnHeader(me: Me): Message {
    MContactHeader(4, me.canTls)
  }

  /** A keepalive every minute, segments of 100 KiB, transfers of 1 MiB, no extensions. */
  function OwnInit(me: Me): Message {
    MSessInit(SessInit(60, 102400, 1048576, me.nodeId, []))
  }

  /** The active end speaks first. */
  function Begin(me: Me): Book {
    Book(if me.active then Some(OwnHeader(me)) else None, false, false, None, false, false, false, None, [], None, false,
         false)
  }

  /** Both sides have introduced themselves, and neither has asked to end the session. */
  predicate Open(b: Book) {
    b.initIn.Some? && b.initOut && !b.termIn && !b.termOut
  }

  /** "Message unexpected" (reason 3), naming the type of the message. */
  function MustReject(b: Book, code: u8): Book {
    b.(owed := Some(MMsgReject(3, code)))
  }

  /** A length in 64 bits. */
  function Low64(n: nat): u64 {
    n % 0x1_0000_0000_0000_0000
  }

  /** A segment extends the transfer that is arriving, unless it names another one; the acknowledgement counts all
      the bytes of the transfer so far. */
  function ReadSegment(b: Book, x: XferSegment): Book {
    if b.arriving.Some? && b.arriving.value.id != x.id then b else
    var data := (if b.arriving.Some? then b.arriving.value.data else []) + x.data;
    var ack := MXferAck(XferAck(x.flags, x.id, Low64(|data|)));
    if x.flags.end then b.(owed := Some(ack), arriving := None, passedUp := b.passedUp + [Transfer(x.id, data)])
    else b.(owed := Some(ack), arriving := Some(Transfer(x.id, data)))
  }

  /** An acknowledgement may not run ahead of what was written; the last one ends the transfer. */
  function ReadAck(b: Book, a: XferAck): Book {
    if b.sending.None? then b.(disputed := true)
    else if a.length > b.sending.value.pos then b.(over := true)
    else if b.sending.value.end && a.length == b.sending.value.pos then b.(sending := None)
    else b
  }

  /** Nothing is read while an answer is owed. */
  function ReadNext(me: Me, b: Book, msg: Message): Option<Book> {
    if b.owed.Some? || msg.MContactHeader? == b.headerIn then None else
    match msg
    case MContactHeader(_, tls) =>
      Some(b.(headerIn := true, peerTls := tls, owed := Some(if me.active then OwnInit(me) else OwnHeader(me))))
    case MSessInit(si) =>
      if b.initIn.Some? then Some(MustReject(b, 7))
      else Some(b.(initIn := Some(si), owed := if me.active then None else Some(OwnInit(me))))
    case MSessTerm(_, reason) =>
      if b.termOut then Some(b.(termIn := true, over := true))
      else if Open(b) then Some(b.(termIn := true, owed := Some(MSessTerm(true, reason))))
      else Some(MustReject(b, 5))
    case MXferSegment(x) => if Open(b) then Some(ReadSegment(b, x)) else Some(MustReject(b, 1))
    case MXferAck(a) => if Open(b) then Some(ReadAck(b, a)) else Some(MustReject(b, 2))
    case MXferRefuse(_, _) => Some(MustReject(b, 3))
    case MKeepalive => Some(b)
    case MMsgReject(_, _) => Some(b.(over := true))
  }

  /** A segment of an own transfer: the first one and no other carries START, none follows END before the transfer is
      acknowledged, and the peer's segment limit holds. */
  function WriteSegment(b: Book, x: XferSegment): Option<Book> {
    var pos := if b.sending.Some? then b.sending.value.pos else 0;
    if Open(b) && x.extensions == [] && x.flags.start == (pos == 0) && (b.sending.Some? ==> !b.sending.value.end)
       && |x.data| <= b.initIn.value.segmentMru
    then Some(b.(sending := Some(Sending(pos + |x.data|, x.flags.end)))) else None
  }

  /** What may be written although it is not owed: keepalives, segments, the request to end the session because it
      idles (reason 1) or because resources are short (reason 5), and the rejection of an unknown message type (reason
      1) or of an acknowledgement out of the blue. */
  function Volunteer(b: Book, msg: Message): Option<Book> {
    match msg
    case MXferSegment(x) => WriteSegment(b, x)
    case MSessTerm(reply, reason) =>
      if Open(b) && !reply && (reason == 1 || reason == 5) then Some(b.(termOut := true)) else None
    case MMsgReject(reason, code) =>
      if (reason == 1 && b.headerIn && (code < 1 || code > 7)) || (reason == 3 && code == 2 && b.disputed)
      then Some(b.(over := true)) else None
    case _ => None
  }

  /** The owed message has been written; the reply to a SESS_TERM and a rejection end the session. */
  function Discharged(b: Book, msg: Message): Book {
    b.(owed := None, initOut := b.initOut || msg.MSessInit?, termOut := b.termOut || msg.MSessTerm?,
       over := msg.MSessTerm? || msg.MMsgReject?)
  }

  function WriteNext(b: Book, msg: Message): Option<Book> {
    if b.owed == Some(msg) then Some(Discharged(b, msg))
    else if b.owed.None? then Volunteer(b, msg)
    else None
  }

  /** The book after one more message, unless that breaks a rule. */
  function Next(me: Me, b: Book, e: Entry): Option<Book> {
    if b.over then None
    else if e == Out(MKeepalive) then if b.initIn.Some? && b.initOut then Some(b) else None
    else if e.In? then ReadNext(me, b.(disputed := false), e.message)
    else
      var b' := WriteNext(b, e.message);
      if b'.Some? then Some(b'.value.(disputed := false)) else None
  }

  /** The book of a whole log; `None` if the log breaks a rule. */
  function After(me: Me, log: seq<Entry>): Option<Book> {
    if log == [] then Some(Begin(me)) else
    var b := After(me, log[..|log| - 1]);
    if b.None? then None else Next(me, b.value, log[|log| - 1])
  }

  lemma AfterOneMore(me: Me, log: seq<Entry>, e: Entry)
    ensures After(me, log + [e]) == if After(me, log).None? then None else Next(me, After(me, log).value, e)
  {
    hide Next;
    assert (log + [e])[..|log|] == log;
  }

  /** A log that keeps the rules kept them all along. */
  lemma {:induction false} AfterPrefix(me: Me, log: seq<Entry>, n: nat)
    requires After(me, log).Some? && n <= |log|
    ensures After(me, log[..n]).Some?
  {
    hide Next;
    if n == |log| {
      assert log[..n] == log;
    } else {
      AfterPrefix(me, log[..|log| - 1], n);
      assert log[..|log| - 1][..n] == log[..n];
    }
  }

  // ----- what the rules mean for a log

  /** Only keepalives were written from i on, up to j. */
  predicate OnlyKeepalives(log: seq<Entry>, i: nat, j: nat) {
    forall k :: i <= k < j && k < |log| ==> log[k] == Out(MKeepalive)
  }

  /** The message behind position i, but for keepalives, is this one, or there is none yet. */
  ghost predicate AnsweredWith(log: seq<Entry>, i: nat, msg: Message) {
    || OnlyKeepalives(log, i + 1, |log|)
    || exists j :: i < j < |log| && log[j] == Out(msg) && OnlyKeepalives(log, i + 1, j)
  }

  /** An owed message is what is written next. */
  lemma {:induction false} OwedIsWritten(me: Me, log: seq<Entry>, i: nat, msg: Message)
    requires After(me, log).Some? && i < |log| && msg != MKeepalive
    requires After(me, log[..i + 1]).Some? && After(me, log[..i + 1]).value.owed == Some(msg)
    ensures AnsweredWith(log, i, msg)
    ensures OnlyKeepalives(log, i + 1, |log|) ==> After(me, log).value.owed == Some(msg)
  {
    if i + 1 == |log| {
      assert log[..i + 1] == log;
    } else {
      var n := |log| - 1;
      var log' := log[..n];
      AfterPrefix(me, log, n);
      assert log'[..i + 1] == log[..i + 1];
      OwedIsWritten(me, log', i, msg);
      OwedStep(me, log, i, msg);
    }
  }

  lemma OwedNext(me: Me, b: Book, e: Entry, msg: Message)
    requires b.owed == Some(msg) && Next(me, b, e).Some?
    ensures e == Out(msg) || (e == Out(MKeepalive) && Next(me, b, e).value.owed == Some(msg))
  {
  }

  lemma AnsweredStep(log: seq<Entry>, i: nat, msg: Message)
    requires i + 1 < |log| && msg != MKeepalive && AnsweredWith(log[..|log| - 1], i, msg)
    ensures var n := |log| - 1;
            && (!OnlyKeepalives(log[..n], i + 1, n) || log[n] == Out(msg) ==>
                  AnsweredWith(log, i, msg) && !OnlyKeepalives(log, i + 1, |log|))
            && (OnlyKeepalives(log[..n], i + 1, n) && log[n] == Out(MKeepalive) ==> OnlyKeepalives(log, i + 1, |log|))
  {
    var n := |log| - 1;
    var log' := log[..n];
    assert forall k :: 0 <= k < n ==> log[k] == log'[k];
    if OnlyKeepalives(log', i + 1, n) {
      assert OnlyKeepalives(log, i + 1, n);
    } else {
      var j :| i < j < n && log'[j] == Out(msg) && OnlyKeepalives(log', i + 1, j);
      assert log[j] == Out(msg) && OnlyKeepalives(log, i + 1, j);
    }
  }

  lemma OwedStep(me: Me, log: seq<Entry>, i: nat, msg: Message)
    requires i + 1 < |log| && msg != MKeepalive && After(me, log).Some?
    requires After(me, log[..|log| - 1]).Some? && AnsweredWith(log[..|log| - 1], i, msg)
    requires OnlyKeepalives(log[..|log| - 1], i + 1, |log| - 1) ==> After(me, log[..|log| - 1]).value.owed == Some(msg)
    ensures AnsweredWith(log, i, msg)
    ensures OnlyKeepalives(log, i + 1, |log|) ==> After(me, log).value.owed == Some(msg)
  {
    hide Next, OnlyKeepalives;
    var n := |log| - 1;
    AnsweredStep(log, i, msg);
    if OnlyKeepalives(log[..n], i + 1, n) {
      OwedNext(me, After(me, log[..n]).value, log[n], msg);
    }
  }
}
