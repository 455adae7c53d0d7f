/**
  What a session's history alone tells: a fold over the events of a run, which looks at no
  state, gives the plaintext a session has received, how much of it still waits in the TLS
  library, how much ciphertext was produced and taken by the kernel, and how much of it the TLS
  library holds back. With it, what is dispatched and what is queued at any time is known
  exactly.
 */
module Accounts {
  import opened Framing
  import opened Buffers
  import opened Protocol
  import opened Receiving
  import Shutdown
  import Delivery

  datatype Account = Account(
    handshaking: bool, stream: seq<Byte>, waiting: nat,
    produced: nat, backlog: nat, taken: nat)

  const OPENED := Account(true, [], 0, 0, 0, 0)

  /** What one buffer leaves of `n` bytes. */
  function Left(n: nat): nat {
    if n <= BUF_SIZE then 0 else n - BUF_SIZE
  }

  function Note(a: Account, e: Event, sid: nat): Account {
    match e
    case Accept(k) => if k == sid then OPENED else a
    case SendMessage(k, cipher, ok) =>
      if k != sid then a
      else if ok then Wrote(a, |cipher|, Left(a.backlog + |cipher|))
      else Wrote(a, |cipher|, a.backlog + |cipher|)
    case Complete(Recv(k), res, arr) =>
      if k != sid || res <= 0 || !arr.bioOk then a
      else if a.handshaking && arr.handshake != Done then Shake(a, arr)
      else if a.handshaking then NoteRead(Shake(a, arr).(handshaking := false), arr)
      else NoteRead(a, arr)
    case Complete(Send(k, _), res, _) => if k != sid || res <= 0 then a else a.(taken := a.taken + res)
    case _ => a
  }

  /** The TLS library wrote `n` bytes, and now holds `backlog` back. */
  function Wrote(a: Account, n: nat, backlog: nat): Account {
    a.(produced := a.produced + n, backlog := backlog)
  }

  function Shake(a: Account, arr: Arrival): Account {
    Wrote(a, |arr.handshakeCipher|, Shaken(a.backlog, arr))
  }

  /** One flush, or two if the TLS library still wants to write. */
  function Shaken(backlog: nat, arr: Arrival): nat {
    var first := Left(backlog + |arr.handshakeCipher|);
    if arr.handshake == NeedsWrite then Left(first) else first
  }

  /** One buffer of plaintext is read; ciphertext is flushed only if the library asks for it. */
  function NoteRead(a: Account, arr: Arrival): Account {
    var got, owed := a.waiting + |arr.plain|, a.backlog + |arr.readCipher|;
    Wrote(a.(stream := a.stream + arr.plain, waiting := Left(got)), |arr.readCipher|,
          if got < BUF_SIZE && arr.end == WantWrite then Left(owed) else owed)
  }

  function NoteAll(a: Account, es: seq<Event>, sid: nat): Account
    decreases |es|
  {
    if es == [] then a else NoteAll(Note(a, es[0], sid), es[1..], sid)
  }

  predicate Agrees(x: Session, a: Account) {
    RxAgrees(x.rx, a) && TxAgrees(x.tx, a)
  }

  predicate RxAgrees(r: Rx, a: Account) {
    r.handshaking == a.handshaking && r.stream == a.stream && |r.avail| == a.waiting
  }

  predicate TxAgrees(t: Tx, a: Account) {
    |t.produced| == a.produced && |t.wbio| == a.backlog && |t.accepted| == a.taken
  }

  // ----- the sending half -----

  /** Only the queue and the flags changed. */
  predicate SameBytes(t: Tx, t': Tx) {
    t'.wbio == t.wbio && t'.produced == t.produced && t'.accepted == t.accepted
  }

  lemma FlushLeaves(sid: nat, t: Tx)
    ensures var t' := Flush(sid, t).tx;
            |t'.wbio| == Left(|t.wbio|) && t'.produced == t.produced && t'.accepted == t.accepted
  {
  }

  lemma CloseKeeps(sid: nat, t: Tx, additionalCheck: bool)
    ensures SameBytes(t, Close(sid, t, additionalCheck).tx)
  {
  }

  /** A handshake call leaves what its one or two flushes could not take. */
  lemma HandshakeLeaves(sid: nat, t: Tx, arr: Arrival)
    ensures var t' := TlsHandshake(sid, t, arr).tx;
            && |t'.wbio| == Shaken(|t.wbio|, arr)
            && t'.produced == t.produced + arr.handshakeCipher && t'.accepted == t.accepted
  {
    hide Flush, Close;
    var t1 := Cipher(t, arr.handshakeCipher);
    var first := Flush(sid, t1).tx;
    FlushLeaves(sid, t1);
    FlushLeaves(sid, first);
    CloseKeeps(sid, first, false);
  }

  /** After a read only a library that wants to write is flushed. */
  lemma ReadLeaves(sid: nat, t: Tx, full: bool, arr: Arrival)
    ensures var t', owed := AfterRead(sid, t, full, arr).tx, |t.wbio| + |arr.readCipher|;
            && |t'.wbio| == (if !full && arr.end == WantWrite then Left(owed) else owed)
            && t'.produced == t.produced + arr.readCipher && t'.accepted == t.accepted
  {
    hide Flush, Close;
    var t1 := Cipher(t, arr.readCipher);
    FlushLeaves(sid, t1);
    CloseKeeps(sid, t1, false);
  }

  lemma SentLeaves(sid: nat, t: Tx, cipher: seq<Byte>, ok: bool)
    ensures var t', owed := SendCipher(sid, t, cipher, ok).tx, |t.wbio| + |cipher|;
            && |t'.wbio| == (if ok then Left(owed) else owed)
            && t'.produced == t.produced + cipher && t'.accepted == t.accepted
  {
    hide Flush, Close;
    FlushLeaves(sid, Cipher(t, cipher));
    CloseKeeps(sid, Cipher(t, cipher), false);
  }

  lemma AdvanceKeeps(t: Tx, bytes: nat)
    ensures SameBytes(t, Advance(t, bytes))
  {
  }

  lemma ResumeKeeps(sid: nat, t: Tx)
    ensures SameBytes(t, Resume(sid, t).tx)
  {
  }

  lemma OnSendLeaves(sid: nat, t: Tx, copy: seq<Byte>, res: int)
    requires res <= |copy|
    ensures var t' := OnSend(sid, Observe(t, copy, res), res).tx;
            && t'.wbio == t.wbio && t'.produced == t.produced
            && t'.accepted == if res > 0 then t.accepted + copy[..res] else t.accepted
  {
    hide Advance, Resume, Close;
    var t0 := CountDown(Observe(t, copy, res));
    if res > 0 {
      AdvanceKeeps(t0, res);
      ResumeKeeps(sid, Advance(t0, res));
    } else {
      CloseKeeps(sid, t0, false);
    }
  }

  // ----- one step -----

  lemma RecvTxAgrees(sid: nat, x: Session, a: Account, res: int, arr: Arrival)
    requires Agrees(x, a)
    ensures TxAgrees(OnRecvTx(sid, x, res, arr).tx, Note(a, Complete(Recv(sid), res, arr), sid))
  {
    hide TlsHandshake, AfterRead, Close;
    var full := |x.rx.avail + arr.plain| >= BUF_SIZE;
    CloseKeeps(sid, x.tx, false);
    HandshakeLeaves(sid, x.tx, arr);
    ReadLeaves(sid, x.tx, full, arr);
    ReadLeaves(sid, TlsHandshake(sid, x.tx, arr).tx, full, arr);
  }

  lemma RecvRxAgrees(sid: nat, p: Pool, x: Session, a: Account, res: int, arr: Arrival)
    requires Agrees(x, a)
    ensures RxAgrees(OnRecvRx(p, x.rx, res, arr).rx, Note(a, Complete(Recv(sid), res, arr), sid))
  {
    hide Parse;
  }

  lemma StepAgrees(s: State, e: Event, sid: nat, a: Account)
    requires Enabled(s, e) && sid in s.live && Agrees(s.live[sid], a) && sid in Step(s, e).live
    requires e.Accept? ==> e.sid != sid
    ensures Agrees(Step(s, e).live[sid], Note(a, e, sid))
  {
    hide Handle, SendCipher, Agrees;
    match e
    case Accept(_) =>
    case SendMessage(_, _, _) => MessageAgrees(s, e, sid, a);
    case ClearRunning =>
    case Stop => StopAgrees(s, sid, a);
    case Complete(req, res, arr) => HandleAgrees(s, req, res, arr, sid, a);
  }

  lemma MessageAgrees(s: State, e: Event, sid: nat, a: Account)
    requires Enabled(s, e) && sid in s.live && Agrees(s.live[sid], a) && e.SendMessage?
    ensures Agrees(Step(s, e).live[sid], Note(a, e, sid))
  {
    hide SendCipher;
    SentLeaves(e.sid, s.live[e.sid].tx, e.cipher, e.ok);
  }

  lemma StopAgrees(s: State, sid: nat, a: Account)
    requires Enabled(s, Stop) && sid in s.live && Agrees(s.live[sid], a)
    ensures sid in Step(s, Stop).live && Agrees(Step(s, Stop).live[sid], a)
  {
    assert SameBytes(s.live[sid].tx, StartClose(sid, s.live[sid].tx).tx);
  }

  lemma HandleAgrees(s: State, req: Request, res: int, arr: Arrival, sid: nat, a: Account)
    requires Enabled(s, Complete(req, res, arr)) && sid in s.live && Agrees(s.live[sid], a)
    requires sid in Handle(s, req, res, arr).live
    ensures Agrees(Handle(s, req, res, arr).live[sid], Note(a, Complete(req, res, arr), sid))
  {
    hide OnRecvTx, OnRecvRx, OnSend, Observe, Close;
    if req.WorkerStop? || req.sid != sid {
      Shutdown.HandleOthers(s, req, res, arr, sid);
    } else {
      match req
      case Recv(_) =>
        RecvTxAgrees(sid, s.live[sid], a, res, arr);
        RecvRxAgrees(sid, s.pool, s.live[sid], a, res, arr);
      case RecvCancel(_) => CloseKeeps(sid, s.live[sid].tx, true);
      case Send(_, copy) => OnSendLeaves(sid, s.live[sid].tx, copy, res);
      case SessionClose(_) =>
    }
  }

  // ----- every run -----

  lemma {:induction false} RunAgrees(s: State, es: seq<Event>, sid: nat, a: Account)
    requires Possible(s, es) && s.live.Keys <= s.used
    requires sid in s.live ==> Agrees(s.live[sid], a)
    ensures sid in After(s, es).live ==> Agrees(After(s, es).live[sid], NoteAll(a, es, sid))
    decreases |es|
  {
    if es != [] {
      var s1 := Step(s, es[0]);
      KeysStep(s, es[0]);
      if sid in s1.live {
        if sid in s.live {
          StepAgrees(s, es[0], sid, a);
        } else {
          OnlyAccepted(s, es[0], sid);
        }
      }
      RunAgrees(s1, es[1..], sid, Note(a, es[0], sid));
    }
  }

  lemma OnlyAccepted(s: State, e: Event, sid: nat)
    requires Enabled(s, e) && sid !in s.live && sid in Step(s, e).live
    ensures e == Accept(sid) && Agrees(Step(s, e).live[sid], OPENED)
  {
  }

  /** The account of session `sid` over a run. */
  function AccountOf(es: seq<Event>, sid: nat): Account {
    NoteAll(OPENED, es, sid)
  }

  lemma {:induction false} NoteOneMore(a: Account, es: seq<Event>, e: Event, sid: nat)
    ensures NoteAll(a, es + [e], sid) == Note(NoteAll(a, es, sid), e, sid)
    decreases |es|
  {
    hide Note;
    if es == [] {
      assert es + [e] == [e] && [e][1..] == [];
      assert NoteAll(Note(a, e, sid), [], sid) == Note(a, e, sid);
    } else {
      assert (es + [e])[1..] == es[1..] + [e];
      NoteOneMore(Note(a, es[0], sid), es[1..], e, sid);
    }
  }

  lemma AccountKept(es: seq<Event>, sid: nat)
    requires Possible(Init(), es) && sid in After(Init(), es).live
    ensures Agrees(After(Init(), es).live[sid], AccountOf(es, sid))
  {
    RunAgrees(Init(), es, sid, OPENED);
  }

  /** What a session has queued at any time, also just before it is removed, is known from the
      events alone: what was produced less what was taken and what is held back. Nothing is
      queued exactly when there is no such rest. */
  lemma BooksBalance(es: seq<Event>, sid: nat)
    requires Possible(Init(), es) && sid in After(Init(), es).live
    ensures var t, a := After(Init(), es).live[sid].tx, AccountOf(es, sid);
            && a.produced == a.taken + |Flat(t.queue)| + a.backlog
            && (t.queue == [] <==> a.produced == a.taken + a.backlog)
            && t.accepted <= t.produced && |t.produced| == a.produced && |t.accepted| == a.taken
  {
    AccountKept(es, sid);
    Shutdown.OutgoingEveryRun(es, sid);
    FlatEmpty(After(Init(), es).live[sid].tx.queue);
  }

  lemma FlatEmpty(q: seq<seq<Byte>>)
    requires forall i :: 0 <= i < |q| ==> q[i] != []
    ensures q == [] <==> |Flat(q)| == 0
  {
    if q != [] {
      assert |q[0]| > 0;
    }
  }

  /** What a session has dispatched and kept back is known from the events alone: the greedy
      parse of what it received less what waits. Every frame received has been dispatched
      exactly when no more waits than the incomplete end of the stream. */
  lemma DispatchedExactly(es: seq<Event>, sid: nat)
    requires Possible(Init(), es) && sid in After(Init(), es).live
    ensures var r, a := After(Init(), es).live[sid].rx, AccountOf(es, sid);
            && a.waiting <= |a.stream|
            && Parsed(r.dispatched, r.tail) == Parse(a.stream[..|a.stream| - a.waiting])
            && (r.dispatched == Parse(a.stream).frames <==> a.waiting <= |Parse(a.stream).tail|)
  {
    AccountKept(es, sid);
    Delivery.DispatchIsParse(es, sid);
    var r := After(Init(), es).live[sid].rx;
    assert r.stream[..|r.drained|] == r.drained;
    ReadSoFar(r.drained, r.avail);
  }

  /** Reading a stream in part yields all its frames exactly when what is left is no longer
      than its incomplete end. */
  lemma ReadSoFar(read: seq<Byte>, rest: seq<Byte>)
    ensures Parse(read).frames == Parse(read + rest).frames <==> |rest| <= |Parse(read + rest).tail|
  {
    var p, whole := Parse(read), Parse(read + rest);
    ParseSplit(read, rest);
    ParseSound(read);
    var later := Parse(p.tail + rest);
    ParseSound(p.tail + rest);
    if later.frames == [] {
      assert whole.frames == p.frames + [] == p.frames;
      assert later.tail == p.tail + rest;
    } else {
      assert |whole.frames| > |p.frames|;
      var n := 2 + U16(p.tail + rest);
      ParseTailBound((p.tail + rest)[n..]);
    }
  }
}
