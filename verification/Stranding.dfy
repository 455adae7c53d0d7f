/**
  What a close leaves unsent. One flush moves at most one buffer of ciphertext into the send
  queue, and nothing flushes again on its own; and a receive that ends, as the cancelled one
  does, closes a session without waiting for its queue.
 */
module Stranding {
  import opened Numbers
  import opened Framing
  import opened Buffers
  import opened Protocol
  import opened Sending
  import opened Shutdown
  import Accounts
  import Greeting

  /** A flush empties the TLS library's write side exactly when it held one buffer at most. */
  lemma FlushDrains(sid: nat, t: Tx)
    ensures Flush(sid, t).tx.wbio == [] <==> |t.wbio| <= 4096
  {
    var n := Min(BUF_SIZE, |t.wbio|);
    assert |t.wbio[n..]| == |t.wbio| - n;
  }

  /** The step that closes a session in turn: its cancel completed, or its last send. */
  predicate GracefulStep(s: State, e: Event, sid: nat)
    requires Enabled(s, e)
  {
    && e.Complete? && sid in s.live && (s.running || s.live != map[])
    && (e.req == RecvCancel(sid) || (e.req.Send? && e.req.sid == sid && e.res > 0))
    && !s.live[sid].tx.closing && Step(s, e).live[sid].tx.closing
  }

  lemma CloseIssues(sid: nat, t: Tx)
    requires !t.closing && Close(sid, t, true).tx.closing
    ensures t.canceling && !t.isSending && t.sendCount == 0
    ensures Close(sid, t, true).tx == t.(closing := true, closes := t.closes + 1)
  {
  }

  lemma OnSendCloses(sid: nat, t: Tx, out: multiset<Request>, copy: seq<Byte>, res: int)
    requires TxOk(sid, t, out) && Send(sid, copy) in out && 0 < res <= |copy|
    requires !t.closing && OnSend(sid, Observe(t, copy, res), res).tx.closing
    ensures var t' := OnSend(sid, Observe(t, copy, res), res).tx; t'.queue == [] && t'.canceling
  {
    SendTookOk(sid, t, out, copy, res);
    assert t.sendCount == 1 by {
      assert out[Send(sid, copy)] >= 1;
    }
    OnSendUnfolds(sid, t, copy, res);
    CloseIssues(sid, SendInternal(sid, Sending.Taken(t, copy, res)).tx);
  }

  /** All that was queued has been accepted by then, and no send is in flight; all that was
      produced has been exactly when the TLS library holds nothing back. */
  lemma GracefulStepSentQueue(s: State, e: Event, sid: nat)
    requires TxInv(s) && Enabled(s, e) && GracefulStep(s, e, sid)
    ensures var s' := Step(s, e); var t := s'.live[sid].tx;
            && t.canceling && t.queue == [] && (forall c :: Send(sid, c) !in s'.out)
            && t.produced == t.accepted + t.wbio
            && (t.accepted == t.produced <==> t.wbio == [])
            && s'.out[SessionClose(sid)] == 1 && s.out[SessionClose(sid)] == 0
  {
    var t := s.live[sid].tx;
    if e.req.Send? {
      OnSendCloses(sid, t, s.out, e.req.copy, e.res);
    } else {
      CloseIssues(sid, t);
    }
    StepKeeps(s, e);
    QueueSent(sid, Step(s, e).live[sid].tx, Step(s, e).out);
  }

  lemma QueueSent(sid: nat, t: Tx, out: multiset<Request>)
    requires TxOk(sid, t, out) && t.queue == [] && t.closing
    ensures forall c :: Send(sid, c) !in out
    ensures t.produced == t.accepted + t.wbio && (t.accepted == t.produced <==> t.wbio == [])
    ensures out[SessionClose(sid)] == 1
  {
    assert forall c :: out[Send(sid, c)] == 0;
    assert t.accepted + [] + t.wbio == t.accepted + t.wbio;
  }

  // ----- what the TLS library holds back -----

  lemma GracefulStepKeepsWbio(s: State, e: Event, sid: nat)
    requires Enabled(s, e) && GracefulStep(s, e, sid)
    ensures Step(s, e).live[sid].tx.wbio == s.live[sid].tx.wbio
  {
    if e.req.Send? {
      Accounts.OnSendLeaves(sid, s.live[sid].tx, e.req.copy, e.res);
    } else {
      CloseIssues(sid, s.live[sid].tx);
    }
  }

  /** At a graceful close, after any run, what has been accepted is all that was produced but
      its last bytes, as many as the account of the session's events says are held back: all of
      it exactly when that is none. */
  lemma GracefulCloseLoses(es: seq<Event>, e: Event, sid: nat)
    requires Possible(Init(), es) && Enabled(After(Init(), es), e)
    requires GracefulStep(After(Init(), es), e, sid)
    ensures var t := Step(After(Init(), es), e).live[sid].tx; var n := Accounts.AccountOf(es, sid).backlog;
            && t.accepted <= t.produced && |t.produced| == |t.accepted| + n
            && (t.accepted == t.produced <==> n == 0)
  {
    InitOk();
    RunKeeps(Init(), es);
    Accounts.AccountKept(es, sid);
    GracefulStepSentQueue(After(Init(), es), e, sid);
    GracefulStepKeepsWbio(After(Init(), es), e, sid);
  }

  /** One ciphertext is sent, its first buffer accepted, and the server stopped. */
  function SendThenStop(sid: nat, c: seq<Byte>): seq<Event>
    requires |c| > BUF_SIZE
  {
    [SendMessage(sid, c, true), Complete(Send(sid, c[..BUF_SIZE]), BUF_SIZE, NoArrival()), ClearRunning, Stop]
  }

  /** From any state of any run before `Stop`, with a session that has nothing queued or held
      back: a ciphertext longer than one buffer, sent without an error, is cut short by a
      graceful close, and exactly what is longer than one buffer is lost. */
  lemma LongCiphertextCut(s: State, sid: nat, c: seq<Byte>)
    requires TxInv(s) && !s.stopped && !s.exited && sid in s.live && |c| > BUF_SIZE
    requires s.live[sid].tx.queue == [] && s.live[sid].tx.wbio == [] && !s.live[sid].tx.closing
    ensures Possible(s, SendThenStop(sid, c))
    ensures var t := After(s, SendThenStop(sid, c)); var e := Complete(RecvCancel(sid), 0, NoArrival());
            && Enabled(t, e) && GracefulStep(t, e, sid)
            && var tx := Step(t, e).live[sid].tx;
            && tx.produced == s.live[sid].tx.produced + c
            && tx.accepted == s.live[sid].tx.produced + c[..BUF_SIZE]
  {
    var before, es := s.live[sid].tx, SendThenStop(sid, c);
    assert before.accepted + [] + [] == before.accepted;
    assert before == Empty(before);
    var s1 := Step(s, es[0]);
    MessageQueued(s, sid, c, before);
    var s2 := Step(s1, es[1]);
    FirstTaken(s1, sid, c, before);
    var s3 := Step(s2, es[2]);
    StopCancels(s3, sid);
    var s4 := Step(s3, es[3]);
    CancelCloses(s4, sid, Cut(before, c).(canceling := true));
    FourSteps(s, es, s1, s2, s3, s4);
  }

  /** A sending half that has nothing to send. */
  function Empty(t: Tx): Tx {
    Tx([], [], false, 0, false, false, t.produced, t.produced, false, 0)
  }

  /** Its first buffer has been accepted, and the rest is held back. */
  function Cut(t: Tx, c: seq<Byte>): Tx
    requires |c| > BUF_SIZE
  {
    Tx(c[BUF_SIZE..], [], false, 0, false, false, t.produced + c, t.produced + c[..BUF_SIZE], false, 0)
  }

  lemma MessageQueued(s: State, sid: nat, c: seq<Byte>, t: Tx)
    requires |c| > BUF_SIZE && !s.exited && sid in s.live && s.live[sid].tx == Empty(t)
    ensures Enabled(s, SendMessage(sid, c, true))
    ensures var s' := Step(s, SendMessage(sid, c, true));
            && s'.stopped == s.stopped && !s'.exited && sid in s'.live && Send(sid, c[..BUF_SIZE]) in s'.out
            && s'.live[sid].tx == Tx(c[BUF_SIZE..], [c[..BUF_SIZE]], true, 1, false, false, t.produced + c, t.produced, false, 0)
  {
    assert [] + c == c && [] + [c[..BUF_SIZE]] == [c[..BUF_SIZE]];
  }

  lemma FirstTaken(s: State, sid: nat, c: seq<Byte>, t: Tx)
    requires |c| > BUF_SIZE && !s.exited && sid in s.live && Send(sid, c[..BUF_SIZE]) in s.out
    requires s.live[sid].tx == Tx(c[BUF_SIZE..], [c[..BUF_SIZE]], true, 1, false, false, t.produced + c, t.produced, false, 0)
    ensures var e := Complete(Send(sid, c[..BUF_SIZE]), BUF_SIZE, NoArrival());
            && Enabled(s, e) && var s' := Step(s, e);
            && s'.stopped == s.stopped && !s'.exited && sid in s'.live && s'.live[sid].tx == Cut(t, c)
  {
    FrontTaken(s.live[sid].tx, sid, c, t);
  }

  lemma FrontTaken(tx: Tx, sid: nat, c: seq<Byte>, t: Tx)
    requires |c| > BUF_SIZE
    requires tx == Tx(c[BUF_SIZE..], [c[..BUF_SIZE]], true, 1, false, false, t.produced + c, t.produced, false, 0)
    ensures OnSend(sid, Observe(tx, c[..BUF_SIZE], BUF_SIZE), BUF_SIZE) == Issue(Cut(t, c), multiset{})
  {
    assert c[..BUF_SIZE][BUF_SIZE..] == [] && c[..BUF_SIZE][..BUF_SIZE] == c[..BUF_SIZE];
    assert tx.queue[1..] == [];
  }

  lemma StopCancels(s: State, sid: nat)
    requires Enabled(s, Stop) && sid in s.live && !s.live[sid].tx.canceling
    ensures var s' := Step(s, Stop);
            && !s'.exited && sid in s'.live && s'.live[sid].tx == s.live[sid].tx.(canceling := true)
            && RecvCancel(sid) in s'.out
  {
    assert RecvCancel(sid) in ToCancel(s);
    assert CloseAll(s).out == s.out + multiset(ToCancel(s));
  }

  lemma CancelCloses(s: State, sid: nat, t: Tx)
    requires !s.exited && sid in s.live && s.live[sid].tx == t && RecvCancel(sid) in s.out
    requires t.canceling && !t.isSending && t.sendCount == 0 && !t.closing
    ensures var e := Complete(RecvCancel(sid), 0, NoArrival());
            && Enabled(s, e) && GracefulStep(s, e, sid)
            && Step(s, e).live[sid].tx.produced == t.produced && Step(s, e).live[sid].tx.accepted == t.accepted
  {
  }

  lemma FourSteps(s: State, es: seq<Event>, s1: State, s2: State, s3: State, s4: State)
    requires |es| == 4
    requires Enabled(s, es[0]) && s1 == Step(s, es[0]) && Enabled(s1, es[1]) && s2 == Step(s1, es[1])
    requires Enabled(s2, es[2]) && s3 == Step(s2, es[2]) && Enabled(s3, es[3]) && s4 == Step(s3, es[3])
    ensures Possible(s, es) && After(s, es) == s4
  {
    hide Step, Enabled;
    assert es[1..][1..] == es[2..] && es[2..][1..] == es[3..] && es[3..][1..] == [];
    assert Possible(s4, []) && After(s4, []) == s4;
    assert Possible(s3, es[3..]) && After(s3, es[3..]) == s4;
    assert Possible(s2, es[2..]) && After(s2, es[2..]) == s4;
    assert Possible(s1, es[1..]) && After(s1, es[1..]) == s4;
  }

  /** Such a run from the start: after the handshake and a request, the answer is a ciphertext
      of more than one buffer. */
  lemma MessageCutShort(es: seq<Event>, flight: seq<Byte>, last: seq<Byte>, c: seq<Byte>)
    requires 0 < |flight| <= BUF_SIZE && 0 < |last| <= BUF_SIZE && |c| > BUF_SIZE
    requires es == Greeting.Hello(flight, last) + SendThenStop(1, c)
    ensures Possible(Init(), es)
    ensures var t := After(Init(), es); var e := Complete(RecvCancel(1), 0, NoArrival());
            && Enabled(t, e) && GracefulStep(t, e, 1)
            && var tx := Step(t, e).live[1].tx;
            && tx.produced == flight + last + c && tx.accepted == flight + last + c[..BUF_SIZE]
  {
    hide Greeting.Hello, SendThenStop, Step, Enabled, TxInv;
    Greeting.HelloRun(flight, last);
    InitOk();
    RunKeeps(Init(), Greeting.Hello(flight, last));
    LongCiphertextCut(Greeting.Greeted(flight, last), 1, c);
    Greeting.RunsJoin(Init(), Greeting.Hello(flight, last), SendThenStop(1, c));
  }

  // ----- what the send queue still holds -----

  /** A step that asks for the close of a session. */
  predicate Closes(s: State, e: Event, sid: nat)
    requires Enabled(s, e)
  {
    && sid in s.live && !s.live[sid].tx.closing
    && sid in Step(s, e).live && Step(s, e).live[sid].tx.closing
  }

  /** The events that close a session at once, whatever it has queued: a message the TLS library
      fails to write, a receive that ends or fails, a send that fails. */
  predicate Forced(r: Rx, e: Event, sid: nat) {
    match e
    case SendMessage(k, _, ok) => k == sid && !ok
    case Complete(Recv(k), res, arr) => k == sid && (res <= 0 || !arr.bioOk || Fails(r, arr))
    case Complete(Send(k, _), res, _) => k == sid && res <= 0
    case _ => false
  }

  /** The handshake breaks, or the read ends in an error, as at the peer's own end of the
      connection. */
  predicate Fails(r: Rx, arr: Arrival) {
    if r.handshaking && arr.handshake != Done then arr.handshake == Broken
    else |r.avail + arr.plain| < BUF_SIZE && arr.end == Fatal
  }

  lemma FlushStays(sid: nat, t: Tx)
    ensures var t' := Flush(sid, t).tx;
            t'.closing == t.closing && t.queue <= t'.queue && t'.accepted == t.accepted
  {
  }

  lemma CloseNow(sid: nat, t: Tx)
    ensures var t' := Close(sid, t, false).tx; t'.closing && t'.queue == t.queue && t'.accepted == t.accepted
  {
  }

  lemma HandshakeCloses(sid: nat, t: Tx, arr: Arrival)
    ensures var t' := TlsHandshake(sid, t, arr).tx;
            && (t'.closing <==> t.closing || arr.handshake == Broken)
            && t.queue <= t'.queue && t'.accepted == t.accepted
  {
    hide Flush, Close;
    var t1 := Cipher(t, arr.handshakeCipher);
    var first := Flush(sid, t1).tx;
    FlushStays(sid, t1);
    FlushStays(sid, first);
    CloseNow(sid, first);
  }

  lemma ReadCloses(sid: nat, t: Tx, full: bool, arr: Arrival)
    ensures var t' := AfterRead(sid, t, full, arr).tx;
            && (t'.closing <==> t.closing || (!full && arr.end == Fatal))
            && t.queue <= t'.queue && t'.accepted == t.accepted
  {
    hide Flush, Close;
    var t1 := Cipher(t, arr.readCipher);
    FlushStays(sid, t1);
    CloseNow(sid, t1);
  }

  lemma RecvCloses(sid: nat, x: Session, res: int, arr: Arrival)
    ensures var t' := OnRecvTx(sid, x, res, arr).tx;
            && (t'.closing <==> x.tx.closing || Forced(x.rx, Complete(Recv(sid), res, arr), sid))
            && x.tx.queue <= t'.queue && t'.accepted == x.tx.accepted
  {
    hide TlsHandshake, AfterRead, Close;
    var full := |x.rx.avail + arr.plain| >= BUF_SIZE;
    CloseNow(sid, x.tx);
    HandshakeCloses(sid, x.tx, arr);
    ReadCloses(sid, x.tx, full, arr);
    ReadCloses(sid, TlsHandshake(sid, x.tx, arr).tx, full, arr);
  }

  lemma MessageCloses(sid: nat, t: Tx, cipher: seq<Byte>, ok: bool)
    ensures var t' := SendCipher(sid, t, cipher, ok).tx;
            && (t'.closing <==> t.closing || !ok) && t.queue <= t'.queue && t'.accepted == t.accepted
  {
    hide Flush, Close;
    FlushStays(sid, Cipher(t, cipher));
    CloseNow(sid, Cipher(t, cipher));
  }

  lemma FailedSendCloses(sid: nat, t: Tx, copy: seq<Byte>, res: int)
    requires res <= 0
    ensures var t' := OnSend(sid, Observe(t, copy, res), res).tx;
            t'.closing && t'.queue == t.queue && t'.accepted == t.accepted
  {
  }

  /** The close completion of a session that is not closing cannot come. */
  lemma NotByRemoval(s: State, req: Request, sid: nat)
    requires TxInv(s) && req in s.out && sid in s.live && !s.live[sid].tx.closing
    ensures req != SessionClose(sid)
  {
  }

  lemma AcceptOpen(s: State, e: Event, sid: nat)
    requires TxInv(s) && Enabled(s, e) && e.Accept? && sid in s.live
    ensures sid in Step(s, e).live && Step(s, e).live[sid] == s.live[sid]
  {
    hide TxOk;
    assert e.sid != sid;
  }

  lemma StopOpen(s: State, sid: nat)
    requires Enabled(s, Stop) && sid in s.live
    ensures sid in Step(s, Stop).live
    ensures var t := Step(s, Stop).live[sid].tx; t.closing == s.live[sid].tx.closing && t.queue == s.live[sid].tx.queue
  {
  }

  /** A session that is not closing is asked to close exactly by a graceful step or at once by
      one of the events above; those take nothing from its queue. */
  lemma ClosesHow(s: State, e: Event, sid: nat)
    requires TxInv(s) && Enabled(s, e) && sid in s.live && !s.live[sid].tx.closing
    ensures Closes(s, e, sid) <==> GracefulStep(s, e, sid) || Forced(s.live[sid].rx, e, sid)
    ensures Forced(s.live[sid].rx, e, sid) ==>
              var t, t' := s.live[sid].tx, Step(s, e).live[sid].tx;
              t.queue <= t'.queue && t'.accepted == t.accepted
  {
    hide TxInv, Handle, SendCipher, Fails;
    match e
    case Accept(_) =>
      hide Step;
      AcceptOpen(s, e, sid);
    case SendMessage(k, cipher, ok) => MessageCloses(k, s.live[k].tx, cipher, ok);
    case ClearRunning =>
    case Stop =>
      hide Step;
      StopOpen(s, sid);
    case Complete(req, res, arr) =>
      if req.WorkerStop? || req.sid != sid {
        HandleOthers(s, req, res, arr, sid);
      } else {
        NotByRemoval(s, req, sid);
        OwnCloses(s, req, res, arr, sid);
      }
  }

  lemma OwnCloses(s: State, req: Request, res: int, arr: Arrival, sid: nat)
    requires Enabled(s, Complete(req, res, arr)) && sid in s.live
    requires !req.WorkerStop? && req.sid == sid && req != SessionClose(sid)
    ensures sid in Handle(s, req, res, arr).live
    ensures var t, t' := s.live[sid].tx, Handle(s, req, res, arr).live[sid].tx;
            var forced := Forced(s.live[sid].rx, Complete(req, res, arr), sid);
            && (forced ==> t'.closing && t.queue <= t'.queue && t'.accepted == t.accepted)
            && (req.Recv? && t'.closing ==> t.closing || forced)
  {
    hide OnRecvTx, OnRecvRx, OnSend, Observe, Close, Fails;
    match req
    case Recv(_) => RecvCloses(sid, s.live[sid], res, arr);
    case RecvCancel(_) =>
    case Send(_, copy) =>
      if res <= 0 {
        FailedSendCloses(sid, s.live[sid].tx, copy, res);
      }
  }

  /** When the close of a session is asked for, in any run and by any event, all it had queued
      has been accepted exactly if, by the account of its events, no more was produced than was
      taken and is held back; a graceful close always finds it so. */
  lemma QueueAtClose(es: seq<Event>, e: Event, sid: nat)
    requires Possible(Init(), es) && Enabled(After(Init(), es), e) && Closes(After(Init(), es), e, sid)
    ensures var t, a := Step(After(Init(), es), e), Accounts.Note(Accounts.AccountOf(es, sid), e, sid);
            && SessionClose(sid) in t.out
            && a.produced == a.taken + |Flat(t.live[sid].tx.queue)| + a.backlog
            && (t.live[sid].tx.queue == [] <==> a.produced == a.taken + a.backlog)
            && (GracefulStep(After(Init(), es), e, sid) ==> t.live[sid].tx.queue == [])
  {
    hide TxInv, Step, Flat, GracefulStep, Enabled;
    InitOk();
    RunKeeps(Init(), es);
    Greeting.OneMore(Init(), es, e);
    Accounts.NoteOneMore(Accounts.OPENED, es, e, sid);
    Accounts.BooksBalance(es + [e], sid);
    StepKeeps(After(Init(), es), e);
    ClosingAsked(Step(After(Init(), es), e), sid);
    if GracefulStep(After(Init(), es), e, sid) {
      GracefulStepSentQueue(After(Init(), es), e, sid);
    }
  }

  lemma ClosingAsked(s: State, sid: nat)
    requires TxInv(s) && sid in s.live && s.live[sid].tx.closing
    ensures SessionClose(sid) in s.out
  {
  }

  /** So the receive that `StartClose` cancels cuts off whatever is queued when it completes:
      the close is asked for, and the queue stays as it is. */
  lemma CancelledReceiveCuts(s: State, sid: nat, res: int)
    requires TxInv(s) && s.stopped && !s.exited && sid in s.live && !s.live[sid].tx.closing
    requires Recv(sid) in s.out && res < 0
    ensures var e := Complete(Recv(sid), res, NoArrival());
            && Enabled(s, e) && Closes(s, e, sid) && SessionClose(sid) in Step(s, e).out
            && Step(s, e).live[sid].tx.queue == s.live[sid].tx.queue
            && Step(s, e).live[sid].tx.accepted == s.live[sid].tx.accepted
  {
    hide TxOk;
  }

  /** Such a run from the start: an answer is queued and its send posted, the server stops, and
      the cancelled receive completes first. */
  lemma AnswerCutByCancel(es: seq<Event>, flight: seq<Byte>, last: seq<Byte>, c: seq<Byte>, res: int)
    requires 0 < |flight| <= BUF_SIZE && 0 < |last| <= BUF_SIZE && 0 < |c| <= BUF_SIZE && res < 0
    requires es == Greeting.Hello(flight, last) + [SendMessage(1, c, true), ClearRunning, Stop]
    ensures Possible(Init(), es)
    ensures var t := After(Init(), es); var e := Complete(Recv(1), res, NoArrival());
            && Enabled(t, e) && Closes(t, e, 1) && SessionClose(1) in Step(t, e).out
            && Step(t, e).live[1].tx.queue == [c] && Step(t, e).live[1].tx.accepted == flight + last
  {
    hide Greeting.Hello, Greeting.HelloPool, TxInv, Step, Enabled, Closes;
    var hello, sent := Greeting.Hello(flight, last), flight + last;
    Greeting.HelloRun(flight, last);
    AnswerQueued(sent, c);
    Greeting.OneMore(Init(), hello, SendMessage(1, c, true));
    Greeting.OneMore(Init(), hello + [SendMessage(1, c, true)], ClearRunning);
    Greeting.OneMore(Init(), hello + [SendMessage(1, c, true)] + [ClearRunning], Stop);
    assert hello + [SendMessage(1, c, true)] + [ClearRunning] + [Stop] == es;
    InitOk();
    RunKeeps(Init(), es);
    CancelledReceiveCuts(After(Init(), es), 1, res);
  }

  lemma AnswerQueued(sent: seq<Byte>, c: seq<Byte>)
    requires 0 < |c| <= BUF_SIZE
    ensures var s := Greeting.Only(Greeting.Asked(), Greeting.Idle(sent), multiset{Recv(1)}, Greeting.HelloPool());
            && Enabled(s, SendMessage(1, c, true))
            && var s1 := Step(s, SendMessage(1, c, true));
            && Enabled(s1, ClearRunning) && var s2 := Step(s1, ClearRunning);
            && Enabled(s2, Stop) && var s3 := Step(s2, Stop);
            && s3.stopped && !s3.exited && 1 in s3.live && Recv(1) in s3.out
            && s3.live[1].tx == Greeting.Busy(sent, c).(canceling := true)
  {
    hide Greeting.HelloPool, Flush;
    var s := Greeting.Only(Greeting.Asked(), Greeting.Idle(sent), multiset{Recv(1)}, Greeting.HelloPool());
    Greeting.FlushOnce(1, sent, c);
    var s2 := Step(Step(s, SendMessage(1, c, true)), ClearRunning);
    StopCancels(s2, 1);
    assert CloseAll(s2).out == s2.out + multiset(ToCancel(s2));
  }
}
