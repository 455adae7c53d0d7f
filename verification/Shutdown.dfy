/**
  The worker as a whole: what every step keeps about its sessions and requests, why the
  loop can always go on after `Stop`, and why it ends.
 */
module Shutdown {
  import opened Numbers
  import opened Framing
  import opened Buffers
  import opened Protocol
  import opened Sending

  ghost predicate Settled(s: State) {
    && (forall sid :: sid in s.live ==> TxOk(sid, s.live[sid].tx, s.out))
    && s.live.Keys <= s.used
    && (forall r :: r in s.out && !r.WorkerStop? ==> r.sid in s.used)
    && (forall sid :: sid !in s.live ==> SessionClose(sid) !in s.out)
    && (forall sid :: sid in s.live ==> (s.live[sid].tx.canceling <==> s.stopped))
    && (s.stopped ==> !s.running)
    && (s.exited ==> !s.running && s.live == map[])
  }

  ghost predicate TxInv(s: State) {
    Settled(s) && (s.stopped && s.live == map[] ==> WorkerStop in s.out)
  }

  /** The counts of every request that is not about `sid` are the same. */
  ghost predicate SameBut(sid: nat, out: multiset<Request>, out': multiset<Request>) {
    forall r: Request :: r.WorkerStop? || r.sid != sid ==> out'[r] == out[r]
  }

  lemma TxFrame(sid: nat, t: Tx, out: multiset<Request>, out': multiset<Request>)
    requires TxOk(sid, t, out)
    requires forall r: Request :: !r.WorkerStop? && r.sid == sid ==> out'[r] == out[r]
    ensures TxOk(sid, t, out')
  {
    assert forall c :: out'[Send(sid, c)] == out[Send(sid, c)];
    assert out'[RecvCancel(sid)] == out[RecvCancel(sid)];
    assert out'[SessionClose(sid)] == out[SessionClose(sid)];
    assert out'[Recv(sid)] == out[Recv(sid)];
  }

  /** One live session acts: its own clause is enough. */
  lemma SessionActs(s: State, s': State, sid: nat)
    requires TxInv(s) && sid in s.live && sid in s'.live
    requires s' == s.(live := s.live[sid := s'.live[sid]], out := s'.out, pool := s'.pool)
    requires SameBut(sid, s.out, s'.out)
    requires TxOk(sid, s'.live[sid].tx, s'.out)
    requires s'.live[sid].tx.canceling == s.live[sid].tx.canceling
    ensures TxInv(s')
  {
    forall other | other in s'.live
      ensures TxOk(other, s'.live[other].tx, s'.out)
    {
      if other != sid {
        TxFrame(other, s.live[other].tx, s.out, s'.out);
      }
    }
    forall r | r in s'.out && !r.WorkerStop?
      ensures r.sid in s'.used
    {
      if r.sid != sid {
        assert s'.out[r] == s.out[r];
      }
    }
    forall other | other !in s'.live
      ensures SessionClose(other) !in s'.out
    {
      assert s'.out[SessionClose(other)] == s.out[SessionClose(other)];
    }
    assert s'.out[WorkerStop] == s.out[WorkerStop];
  }

  lemma SendCipherOk(sid: nat, t: Tx, out: multiset<Request>, cipher: seq<Byte>, ok: bool)
    requires TxOk(sid, t, out)
    ensures var i := SendCipher(sid, t, cipher, ok);
            && TxOk(sid, i.tx, out + i.reqs) && Owned(sid, i.reqs) && i.tx.canceling == t.canceling
            && i.tx.failed == t.failed && i.tx.accepted == t.accepted
  {
    hide Flush, Close, Core, Draining;
    CipherOk(sid, t, out, cipher);
    FlushOk(sid, Cipher(t, cipher), out);
    CloseOk(sid, Cipher(t, cipher), out, false);
  }

  lemma HandshakeOk(sid: nat, t: Tx, out: multiset<Request>, arr: Arrival)
    requires TxOk(sid, t, out)
    ensures var i := TlsHandshake(sid, t, arr);
            && TxOk(sid, i.tx, out + i.reqs) && Owned(sid, i.reqs) && i.tx.canceling == t.canceling
            && i.tx.failed == t.failed && i.tx.accepted == t.accepted
  {
    hide Flush, Close, Core, Draining;
    CipherOk(sid, t, out, arr.handshakeCipher);
    var t1 := Cipher(t, arr.handshakeCipher);
    FlushOk(sid, t1, out);
    var first := Flush(sid, t1);
    FlushOk(sid, first.tx, out + first.reqs);
    CloseOk(sid, first.tx, out + first.reqs, false);
    var again, close := Flush(sid, first.tx), Close(sid, first.tx, false);
    assert out + first.reqs + again.reqs == out + (first.reqs + again.reqs);
    assert out + first.reqs + close.reqs == out + (first.reqs + close.reqs);
  }

  lemma AfterReadOk(sid: nat, t: Tx, out: multiset<Request>, full: bool, arr: Arrival)
    requires TxOk(sid, t, out)
    ensures var i := AfterRead(sid, t, full, arr);
            && TxOk(sid, i.tx, out + i.reqs) && Owned(sid, i.reqs) && i.tx.canceling == t.canceling
            && i.tx.failed == t.failed && i.tx.accepted == t.accepted
  {
    hide Flush, Close, Core, Draining;
    assert out + multiset{} == out;
    CipherOk(sid, t, out, arr.readCipher);
    FlushOk(sid, Cipher(t, arr.readCipher), out);
    CloseOk(sid, Cipher(t, arr.readCipher), out, false);
  }

  lemma OnRecvOk(sid: nat, s: Session, out: multiset<Request>, res: int, arr: Arrival)
    requires TxOk(sid, s.tx, out)
    ensures var i := OnRecvTx(sid, s, res, arr);
            && TxOk(sid, i.tx, out + i.reqs) && Owned(sid, i.reqs) && i.tx.canceling == s.tx.canceling
            && i.tx.failed == s.tx.failed && i.tx.accepted == s.tx.accepted
  {
    if res <= 0 || !arr.bioOk {
      CloseOk(sid, s.tx, out, false);
    } else {
      var full := |s.rx.avail + arr.plain| >= BUF_SIZE;
      if s.rx.handshaking {
        HandshakeOk(sid, s.tx, out, arr);
        var hs := TlsHandshake(sid, s.tx, arr);
        AfterReadOk(sid, hs.tx, out + hs.reqs, full, arr);
        var read := AfterRead(sid, hs.tx, full, arr);
        assert out + hs.reqs + read.reqs == out + (hs.reqs + read.reqs);
      } else {
        AfterReadOk(sid, s.tx, out, full, arr);
      }
    }
  }

  /** Taking a completion of `sid` other than a send or a pending cancel off the ring. */
  lemma TakeOk(sid: nat, t: Tx, out: multiset<Request>, req: Request)
    requires TxOk(sid, t, out)
    requires req == Recv(sid) || (req == RecvCancel(sid) && RecvCancel(sid) in out)
    ensures Core(sid, t, out - multiset{req})
    ensures req.Recv? ==> TxOk(sid, t, out - multiset{req})
  {
  }

  lemma OwnedSame(sid: nat, out: multiset<Request>, req: Request, reqs: multiset<Request>)
    requires !req.WorkerStop? && req.sid == sid && Owned(sid, reqs)
    ensures SameBut(sid, out, out - multiset{req} + reqs) && SameBut(sid, out, out + reqs)
  {
  }

  lemma RecvKeeps(s: State, sid: nat, res: int, arr: Arrival)
    requires TxInv(s) && Enabled(s, Complete(Recv(sid), res, arr)) && sid in s.live
    ensures TxInv(Handle(s, Recv(sid), res, arr))
  {
    var out := if res > 0 && arr.more then s.out else s.out - multiset{Recv(sid)};
    TakeOk(sid, s.live[sid].tx, s.out, Recv(sid));
    OnRecvOk(sid, s.live[sid], out, res, arr);
    OwnedSame(sid, s.out, Recv(sid), OnRecvTx(sid, s.live[sid], res, arr).reqs);
    SessionActs(s, Handle(s, Recv(sid), res, arr), sid);
  }

  lemma CancelKeeps(s: State, sid: nat, res: int, arr: Arrival)
    requires TxInv(s) && Enabled(s, Complete(RecvCancel(sid), res, arr)) && sid in s.live
    ensures TxInv(Handle(s, RecvCancel(sid), res, arr))
  {
    TakeOk(sid, s.live[sid].tx, s.out, RecvCancel(sid));
    CloseOk(sid, s.live[sid].tx, s.out - multiset{RecvCancel(sid)}, true);
    OwnedSame(sid, s.out, RecvCancel(sid), Close(sid, s.live[sid].tx, true).reqs);
    SessionActs(s, Handle(s, RecvCancel(sid), res, arr), sid);
  }

  lemma SendKeeps(s: State, sid: nat, copy: seq<Byte>, res: int, arr: Arrival)
    requires TxInv(s) && Enabled(s, Complete(Send(sid, copy), res, arr)) && sid in s.live
    ensures TxInv(Handle(s, Send(sid, copy), res, arr))
  {
    var t := s.live[sid].tx;
    if res <= 0 {
      SendFailedOk(sid, t, s.out, copy, res);
    } else {
      SendTookOk(sid, t, s.out, copy, res);
    }
    OwnedSame(sid, s.out, Send(sid, copy), OnSend(sid, Observe(t, copy, res), res).reqs);
    SessionActs(s, Handle(s, Send(sid, copy), res, arr), sid);
  }

  lemma StopSqeOk(s: State)
    requires Settled(s)
    ensures Settled(StopSqe(s))
    ensures !s.running && s.live == map[] ==> WorkerStop in StopSqe(s).out
  {
    var s' := StopSqe(s);
    forall sid | sid in s'.live
      ensures TxOk(sid, s'.live[sid].tx, s'.out)
    {
      TxFrame(sid, s.live[sid].tx, s.out, s'.out);
    }
  }

  lemma RemoveSettled(s: State, sid: nat)
    requires Settled(s) && SessionClose(sid) in s.out && !s.exited
    ensures Settled(RemoveSession(s.(out := s.out - multiset{SessionClose(sid)}), sid))
  {
    var out := s.out - multiset{SessionClose(sid)};
    var s' := RemoveSession(s.(out := out), sid);
    assert sid in s.live;
    assert s.out[SessionClose(sid)] == 1;
    forall other | other in s'.live
      ensures TxOk(other, s'.live[other].tx, s'.out)
    {
      TxFrame(other, s.live[other].tx, s.out, s'.out);
    }
  }

  lemma RemoveKeeps(s: State, sid: nat, res: int, arr: Arrival)
    requires TxInv(s) && Enabled(s, Complete(SessionClose(sid), res, arr))
    ensures TxInv(Handle(s, SessionClose(sid), res, arr))
  {
    hide TxOk, RemoveSession;
    RemoveSettled(s, sid);
    StopSqeOk(RemoveSession(s.(out := s.out - multiset{SessionClose(sid)}), sid));
  }

  /** A completion of a removed session, or the stop request, changes no session. */
  lemma StaleKeeps(s: State, s': State, req: Request)
    requires TxInv(s) && !s.exited && req in s.out
    requires req.WorkerStop? || (req.sid !in s.live && !req.SessionClose?)
    requires s.running || s.live != map[]
    requires s' == s.(out := s'.out, pool := s'.pool)
    requires s'.out == s.out || s'.out == s.out - multiset{req}
    ensures TxInv(s')
  {
    forall other | other in s'.live
      ensures TxOk(other, s'.live[other].tx, s'.out)
    {
      TxFrame(other, s.live[other].tx, s.out, s'.out);
    }
  }

  /** The start of the close of one session, seen from the ring before and after. */
  lemma CancelStarted(sid: nat, t: Tx, out: multiset<Request>, out': multiset<Request>)
    requires TxOk(sid, t, out) && !t.canceling
    requires forall r: Request :: !r.WorkerStop? && r.sid == sid ==> out'[r] == out[r] + if r == RecvCancel(sid) then 1 else 0
    ensures TxOk(sid, StartClose(sid, t).tx, out')
  {
    assert forall c :: out'[Send(sid, c)] == out[Send(sid, c)];
    assert out'[RecvCancel(sid)] == out[RecvCancel(sid)] + 1;
    assert out'[SessionClose(sid)] == out[SessionClose(sid)];
    assert out'[Recv(sid)] == out[Recv(sid)];
  }

  function ToCancel(s: State): set<Request> {
    set sid | sid in s.live && !s.live[sid].tx.canceling :: RecvCancel(sid)
  }

  lemma CloseAllTx(s: State, sid: nat)
    requires Settled(s) && !s.stopped && !s.running && sid in s.live
    ensures TxOk(sid, CloseAll(s).live[sid].tx, CloseAll(s).out)
  {
    hide TxOk, StartClose;
    assert RecvCancel(sid) in ToCancel(s);
    assert CloseAll(s).out == s.out + multiset(ToCancel(s));
    CancelStarted(sid, s.live[sid].tx, s.out, CloseAll(s).out);
  }

  lemma CloseAllSettled(s: State)
    requires Settled(s) && !s.stopped && !s.running && !s.exited
    ensures Settled(CloseAll(s).(stopped := true))
  {
    hide TxOk;
    var s' := CloseAll(s).(stopped := true);
    assert s'.out == s.out + multiset(ToCancel(s));
    forall sid | sid in s'.live
      ensures TxOk(sid, s'.live[sid].tx, s'.out) && s'.live[sid].tx.canceling
    {
      CloseAllTx(s, sid);
    }
    forall sid | sid !in s'.live
      ensures SessionClose(sid) !in s'.out
    {
      assert SessionClose(sid) !in ToCancel(s);
    }
  }

  lemma StopKeeps(s: State)
    requires TxInv(s) && Enabled(s, Stop)
    ensures TxInv(Step(s, Stop))
  {
    CloseAllSettled(s);
    StopSqeOk(CloseAll(s).(stopped := true));
    assert Step(s, Stop) == StopSqe(CloseAll(s).(stopped := true));
  }

  lemma AcceptKeeps(s: State, sid: nat)
    requires TxInv(s) && Enabled(s, Accept(sid))
    ensures TxInv(Step(s, Accept(sid)))
  {
    var s' := Step(s, Accept(sid));
    assert SameBut(sid, s.out, s'.out);
    forall other | other in s'.live
      ensures TxOk(other, s'.live[other].tx, s'.out)
    {
      if other != sid {
        TxFrame(other, s.live[other].tx, s.out, s'.out);
      }
    }
  }

  lemma CompleteKeeps(s: State, req: Request, res: int, arr: Arrival)
    requires TxInv(s) && Enabled(s, Complete(req, res, arr)) && (s.running || s.live != map[])
    ensures TxInv(Handle(s, req, res, arr))
  {
    if req.WorkerStop? || (req.sid !in s.live && !req.SessionClose?) {
      StaleKeeps(s, Handle(s, req, res, arr), req);
    } else {
      match req
      case Recv(sid) => RecvKeeps(s, sid, res, arr);
      case RecvCancel(sid) => CancelKeeps(s, sid, res, arr);
      case SessionClose(sid) => RemoveKeeps(s, sid, res, arr);
      case Send(sid, copy) => SendKeeps(s, sid, copy, res, arr);
    }
  }

  lemma StepKeeps(s: State, e: Event)
    requires TxInv(s) && Enabled(s, e)
    ensures TxInv(Step(s, e))
  {
    match e
    case Accept(sid) => AcceptKeeps(s, sid);
    case SendMessage(sid, cipher, ok) =>
      SendCipherOk(sid, s.live[sid].tx, s.out, cipher, ok);
      SessionActs(s, Step(s, e), sid);
    case ClearRunning =>
    case Stop => StopKeeps(s);
    case Complete(req, res, arr) =>
      if s.running || s.live != map[] {
        CompleteKeeps(s, req, res, arr);
      }
  }

  /** Every run, of any events in any order, keeps the invariant. */
  lemma {:induction false} RunKeeps(s: State, es: seq<Event>)
    requires TxInv(s) && Possible(s, es)
    ensures TxInv(After(s, es))
    decreases |es|
  {
    if es != [] {
      StepKeeps(s, es[0]);
      RunKeeps(Step(s, es[0]), es[1..]);
    }
  }

  lemma InitOk()
    ensures TxInv(Init())
  {
  }

  // ----- what the invariant means for the bytes and requests of a session -----

  /** Over every run from the start: nothing is lost, repeated or reordered between the TLS
      library and the kernel, one send at most is in flight and it carries the queue front,
      and at most one close has been asked for. */
  lemma OutgoingEveryRun(es: seq<Event>, sid: nat)
    requires Possible(Init(), es) && sid in After(Init(), es).live
    ensures var s := After(Init(), es); var t := s.live[sid].tx;
            && t.produced == t.accepted + Flat(t.queue) + t.wbio
            && (forall i :: 0 <= i < |t.queue| ==> t.queue[i] != [])
            && (t.isSending <==> t.queue != [])
            && t.sendCount <= 1
            && (forall c :: Send(sid, c) in s.out ==> s.out[Send(sid, c)] == 1 && t.queue != [] && c == t.queue[0])
            && (t.sendCount == 1 <==> t.queue != [] && Send(sid, t.queue[0]) in s.out)
            && t.closes <= 1 && s.out[SessionClose(sid)] == t.closes
  {
    InitOk();
    RunKeeps(Init(), es);
    var s := After(Init(), es);
    var t := s.live[sid].tx;
    if t.queue != [] {
      assert s.out[Send(sid, t.queue[0])] == t.sendCount;
    }
  }

  lemma HandleFailed(s: State, req: Request, res: int, arr: Arrival, sid: nat)
    requires TxInv(s) && Enabled(s, Complete(req, res, arr)) && sid in s.live && s.live[sid].tx.failed
    requires !req.SessionClose? && req != WorkerStop && req.sid == sid
    ensures var t := Handle(s, req, res, arr).live[sid].tx; t.failed && t.accepted == s.live[sid].tx.accepted
  {
    assert forall c :: s.out[Send(sid, c)] == 0;
    match req
    case Recv(_) => OnRecvOk(sid, s.live[sid], s.out, res, arr);
    case RecvCancel(_) => CloseOk(sid, s.live[sid].tx, s.out, true);
    case Send(_, _) => assert false;
  }

  /** A completion changes no session but the one it names. */
  lemma HandleOthers(s: State, req: Request, res: int, arr: Arrival, sid: nat)
    requires Enabled(s, Complete(req, res, arr)) && sid in s.live
    requires req == WorkerStop || req.sid != sid
    ensures sid in Handle(s, req, res, arr).live && Handle(s, req, res, arr).live[sid] == s.live[sid]
  {
    hide OnRecvTx, OnRecvRx, OnSend, Observe, Close;
  }

  lemma MessageFailed(s: State, e: Event, sid: nat)
    requires TxInv(s) && Enabled(s, e) && sid in s.live && s.live[sid].tx.failed && e.SendMessage?
    ensures var t := Step(s, e).live[sid].tx; t.failed && t.accepted == s.live[sid].tx.accepted
  {
    hide TxOk, SendCipher;
    if e.sid == sid {
      SendCipherOk(sid, s.live[sid].tx, s.out, e.cipher, e.ok);
    }
  }

  lemma StopFailed(s: State, sid: nat)
    requires Enabled(s, Stop) && sid in s.live
    ensures sid in Step(s, Stop).live
    ensures var t := Step(s, Stop).live[sid].tx; t.failed == s.live[sid].tx.failed && t.accepted == s.live[sid].tx.accepted
  {
  }

  lemma CompletionFailed(s: State, req: Request, res: int, arr: Arrival, sid: nat)
    requires TxInv(s) && Enabled(s, Complete(req, res, arr)) && sid in s.live && s.live[sid].tx.failed
    requires sid in Handle(s, req, res, arr).live
    ensures var t := Handle(s, req, res, arr).live[sid].tx; t.failed && t.accepted == s.live[sid].tx.accepted
  {
    hide OnRecvTx, OnRecvRx, OnSend, Observe, Close, TxOk, TxInv;
    if req == WorkerStop || req.sid != sid {
      hide Handle;
      HandleOthers(s, req, res, arr, sid);
    } else if !req.SessionClose? {
      hide Handle;
      HandleFailed(s, req, res, arr, sid);
    }
  }

  lemma StepFailed(s: State, e: Event, sid: nat)
    requires TxInv(s) && Enabled(s, e) && sid in s.live && s.live[sid].tx.failed
    requires sid in Step(s, e).live
    ensures Step(s, e).live[sid].tx.failed
    ensures Step(s, e).live[sid].tx.accepted == s.live[sid].tx.accepted
  {
    match e
    case Accept(k) =>
      hide TxOk;
      assert k != sid;
    case SendMessage(_, _, _) =>
      hide Step, TxInv;
      MessageFailed(s, e, sid);
    case ClearRunning => hide TxInv;
    case Stop =>
      hide Step, TxInv;
      StopFailed(s, sid);
    case Complete(req, res, arr) =>
      hide Handle, TxInv;
      CompletionFailed(s, req, res, arr, sid);
  }

  lemma StepIds(s: State, e: Event, sid: nat)
    requires Enabled(s, e) && sid in s.used && sid !in s.live
    ensures sid in Step(s, e).used && sid !in Step(s, e).live
  {
    hide OnRecvTx, OnRecvRx, OnSend, Observe, Close, SendCipher, StartClose;
  }

  lemma StepFlags(s: State, e: Event)
    requires Enabled(s, e)
    ensures s.stopped ==> Step(s, e).stopped
    ensures s.used <= Step(s, e).used
  {
  }

  /** Session ids are not used twice. */
  lemma {:induction false} RemovedForGood(s: State, es: seq<Event>, sid: nat)
    requires Possible(s, es) && sid in s.used && sid !in s.live
    ensures sid !in After(s, es).live
    decreases |es|
  {
    if es != [] {
      StepIds(s, es[0], sid);
      RemovedForGood(Step(s, es[0]), es[1..], sid);
    }
  }

  /** After a failed send nothing more of that session reaches the wire, however long it
      lives on: no send is outstanding and the accepted bytes stay as they are. */
  lemma {:induction false} FailedSendIsFinal(s: State, es: seq<Event>, sid: nat)
    requires TxInv(s) && Possible(s, es) && sid in s.live && s.live[sid].tx.failed
    requires sid in After(s, es).live
    ensures var t := After(s, es).live[sid].tx; t.failed && t.accepted == s.live[sid].tx.accepted
    ensures forall c :: Send(sid, c) !in After(s, es).out
    decreases |es|
  {
    if es == [] {
      assert forall c :: s.out[Send(sid, c)] == 0;
    } else {
      var s1 := Step(s, es[0]);
      StepKeeps(s, es[0]);
      if sid !in s1.live {
        StepFlags(s, es[0]);
        RemovedForGood(s1, es[1..], sid);
      }
      StepFailed(s, es[0], sid);
      FailedSendIsFinal(s1, es[1..], sid);
    }
  }

  /** A close that waits for its turn is asked for only when cancelled with an empty queue
      and no send in flight, so all that was queued has been accepted; all that was ever
      produced has been accepted exactly when the TLS library holds nothing back. */
  lemma GracefulClose(sid: nat, t: Tx, out: multiset<Request>)
    requires Core(sid, t, out) && !t.closing && Close(sid, t, true).tx.closing
    ensures t.canceling && t.queue == [] && (forall c :: Send(sid, c) !in out)
    ensures t.produced == t.accepted + t.wbio
    ensures t.accepted == t.produced <==> t.wbio == []
  {
    assert forall c :: out[Send(sid, c)] == 0;
    assert t.accepted + [] + t.wbio == t.accepted + t.wbio;
  }

  // ----- the loop goes on until no session is left, and then ends -----

  predicate IsShutdownEvent(e: Event) {
    e.Complete? && (e.req.Recv? ==> e.res <= 0)
  }

  ghost predicate CanProceed(s: State) {
    exists e :: IsShutdownEvent(e) && Enabled(s, e)
  }

  /** After `Stop` a completion that carries a context is outstanding until the loop has
      exited: the stop request when no session is left, otherwise for every session its
      close, or its cancel or a send. */
  lemma NeverStuck(s: State)
    requires TxInv(s) && s.stopped && !s.exited
    ensures s.live == map[] ==> WorkerStop in s.out
    ensures forall sid :: sid in s.live ==>
              var t := s.live[sid].tx;
              if t.closing then SessionClose(sid) in s.out
              else t.canceling && (RecvCancel(sid) in s.out || (t.queue != [] && Send(sid, t.queue[0]) in s.out))
    ensures CanProceed(s)
  {
    forall sid | sid in s.live
      ensures var t := s.live[sid].tx;
              if t.closing then SessionClose(sid) in s.out
              else t.canceling && (RecvCancel(sid) in s.out || (t.queue != [] && Send(sid, t.queue[0]) in s.out))
    {
      var t := s.live[sid].tx;
      if t.queue != [] {
        assert s.out[Send(sid, t.queue[0])] == t.sendCount;
      }
    }
    var req: Request;
    if s.live == map[] {
      req := WorkerStop;
    } else {
      var sid :| sid in s.live;
      var t := s.live[sid].tx;
      req := if t.closing then SessionClose(sid) else if RecvCancel(sid) in s.out then RecvCancel(sid) else Send(sid, t.queue[0]);
    }
    assert IsShutdownEvent(Complete(req, 0, NoArrival())) && Enabled(s, Complete(req, 0, NoArrival()));
  }

  /** So no run, whatever came before and after `Stop`, reaches a state where the loop waits
      for a completion that cannot come. */
  lemma NeverStuckEveryRun(es: seq<Event>)
    requires Possible(Init(), es)
    ensures var s := After(Init(), es);
            s.stopped && !s.exited ==> CanProceed(s) && (s.live == map[] ==> WorkerStop in s.out)
    ensures After(Init(), es).exited ==> After(Init(), es).live == map[]
  {
    InitOk();
    RunKeeps(Init(), es);
    var s := After(Init(), es);
    if s.stopped && !s.exited {
      NeverStuck(s);
    }
  }

  /** How many more completions a session can cause: one for each queued byte, one for its
      close, and one for the stop request its removal may post. */
  function Weight(t: Tx): nat {
    |Flat(t.queue)| + (if t.closing then 0 else 2) + 2
  }

  ghost function Total(m: map<nat, Session>): nat
    decreases |m|
  {
    if m == map[] then 0
    else
      var k :| k in m;
      assert |m - {k}| < |m| by { assert (m - {k}).Keys == m.Keys - {k}; assert |m - {k}| == |(m - {k}).Keys|; }
      Weight(m[k].tx) + Total(m - {k})
  }

  lemma {:induction false} TotalRemove(m: map<nat, Session>, k: nat)
    requires k in m
    ensures Total(m) == Weight(m[k].tx) + Total(m - {k})
    decreases |m|
  {
    var j :| j in m && Total(m) == Weight(m[j].tx) + Total(m - {j});
    if j != k {
      assert (m - {j}).Keys == m.Keys - {j};
      assert |m - {j}| == |(m - {j}).Keys|;
      TotalRemove(m - {j}, k);
      assert (m - {k}).Keys == m.Keys - {k};
      assert |m - {k}| == |(m - {k}).Keys|;
      TotalRemove(m - {k}, j);
      assert m - {j} - {k} == m - {k} - {j};
    }
  }

  lemma TotalUpdate(m: map<nat, Session>, k: nat, x: Session)
    requires k in m
    ensures Total(m[k := x]) + Weight(m[k].tx) == Total(m) + Weight(x.tx)
  {
    TotalRemove(m, k);
    TotalRemove(m[k := x], k);
    assert m[k := x] - {k} == m - {k};
  }

  ghost function Measure(s: State): nat {
    |s.out| + Total(s.live) + if s.exited then 0 else 1
  }

  lemma OnSendWeight(sid: nat, t: Tx, out: multiset<Request>, copy: seq<Byte>, res: int)
    requires TxOk(sid, t, out) && Send(sid, copy) in out && res <= |copy|
    ensures var i := OnSend(sid, Observe(t, copy, res), res);
            |i.reqs| + Weight(i.tx) <= Weight(t)
  {
    if res > 0 {
      assert out[Send(sid, copy)] == 1 && copy == t.queue[0];
      SendTookOk(sid, t, out, copy, res);
      OnSendUnfolds(sid, t, copy, res);
    }
  }

  lemma ActsMeasure(s: State, sid: nat, req: Request, i: Issue, rx: Rx)
    requires req in s.out && sid in s.live && !s.exited
    requires |i.reqs| + Weight(i.tx) <= Weight(s.live[sid].tx)
    ensures Measure(Apply(s.(out := s.out - multiset{req}), sid, rx, i)) < Measure(s)
  {
    TotalUpdate(s.live, sid, Session(rx, i.tx));
  }

  lemma CloseWeight(sid: nat, t: Tx, additionalCheck: bool)
    ensures var i := Close(sid, t, additionalCheck); |i.reqs| + Weight(i.tx) <= Weight(t)
  {
  }

  lemma RemoveMeasure(s: State, sid: nat)
    requires SessionClose(sid) in s.out && !s.exited && (s.running || s.live != map[])
    ensures Measure(StopSqe(RemoveSession(s.(out := s.out - multiset{SessionClose(sid)}), sid))) < Measure(s) || sid !in s.live
  {
    if sid in s.live {
      TotalRemove(s.live, sid);
    }
  }

  lemma SessionDecreases(s: State, req: Request, res: int, arr: Arrival)
    requires TxInv(s) && Enabled(s, Complete(req, res, arr)) && IsShutdownEvent(Complete(req, res, arr))
    requires !req.WorkerStop? && !req.SessionClose? && req.sid in s.live
    ensures Measure(Handle(s, req, res, arr)) < Measure(s)
  {
    hide TxOk, Measure, Weight, Close, OnSend, Observe;
    var sid := req.sid;
    var t := s.live[sid].tx;
    match req
    case Recv(_) =>
      CloseWeight(sid, t, false);
      ActsMeasure(s, sid, req, Close(sid, t, false), s.live[sid].rx);
    case RecvCancel(_) =>
      CloseWeight(sid, t, true);
      ActsMeasure(s, sid, req, Close(sid, t, true), s.live[sid].rx);
    case Send(_, copy) =>
      OnSendWeight(sid, t, s.out, copy, res);
      ActsMeasure(s, sid, req, OnSend(sid, Observe(t, copy, res), res), s.live[sid].rx);
  }

  lemma StepDecreases(s: State, e: Event)
    requires TxInv(s) && Enabled(s, e) && IsShutdownEvent(e)
    ensures Measure(Step(s, e)) < Measure(s)
  {
    hide TxOk, OnRecvRx, OnRecvTx, OnSend, Observe, Close, Weight, Total;
    var Complete(req, res, arr) := e;
    if s.running || s.live != map[] {
      match req
      case WorkerStop =>
      case SessionClose(sid) =>
        RemoveMeasure(s, sid);
      case _ =>
        if req.sid in s.live {
          SessionDecreases(s, req, res, arr);
        }
    }
  }

  /** Without new data, at most `Measure(s)` more completions can be handled. */
  lemma {:induction false} RunTerminates(s: State, es: seq<Event>)
    requires TxInv(s) && Possible(s, es)
    requires forall i :: 0 <= i < |es| ==> IsShutdownEvent(es[i])
    ensures |es| + Measure(After(s, es)) <= Measure(s)
    ensures s.stopped ==> After(s, es).stopped
    decreases |es|
  {
    if es != [] {
      StepKeeps(s, es[0]);
      StepDecreases(s, es[0]);
      StepFlags(s, es[0]);
      RunTerminates(Step(s, es[0]), es[1..]);
    }
  }

  // ----- new data after `Stop` -----

  /** What one event that is no such completion can add: three flushes, each with a send. */
  const GROWTH := 3 * (BUF_SIZE + 1)

  lemma FlushGrows(sid: nat, t: Tx)
    ensures var i := Flush(sid, t); |i.reqs| + Weight(i.tx) <= Weight(t) + BUF_SIZE + 1
  {
    FlatAppend(t.queue, t.wbio[..Min(BUF_SIZE, |t.wbio|)]);
  }

  lemma CipherWeighsNothing(t: Tx, bytes: seq<Byte>)
    ensures Weight(Cipher(t, bytes)) == Weight(t)
  {
  }

  lemma SendGrows(sid: nat, t: Tx, cipher: seq<Byte>, ok: bool)
    ensures var i := SendCipher(sid, t, cipher, ok); |i.reqs| + Weight(i.tx) <= Weight(t) + GROWTH
  {
    hide Flush, Close, Cipher, Weight;
    CipherWeighsNothing(t, cipher);
    FlushGrows(sid, Cipher(t, cipher));
    CloseWeight(sid, Cipher(t, cipher), false);
  }

  lemma HandshakeGrows(sid: nat, t: Tx, arr: Arrival)
    ensures var i := TlsHandshake(sid, t, arr); |i.reqs| + Weight(i.tx) <= Weight(t) + 2 * (BUF_SIZE + 1)
  {
    hide Flush, Close, Cipher, Weight;
    var t1 := Cipher(t, arr.handshakeCipher);
    var first := Flush(sid, t1);
    CipherWeighsNothing(t, arr.handshakeCipher);
    FlushGrows(sid, t1);
    FlushGrows(sid, first.tx);
    CloseWeight(sid, first.tx, false);
  }

  lemma ReadGrows(sid: nat, t: Tx, full: bool, arr: Arrival)
    ensures var i := AfterRead(sid, t, full, arr); |i.reqs| + Weight(i.tx) <= Weight(t) + BUF_SIZE + 1
  {
    hide Flush, Close, Cipher, Weight;
    var t1 := Cipher(t, arr.readCipher);
    CipherWeighsNothing(t, arr.readCipher);
    FlushGrows(sid, t1);
    CloseWeight(sid, t1, false);
  }

  lemma RecvGrows(sid: nat, x: Session, res: int, arr: Arrival)
    ensures var i := OnRecvTx(sid, x, res, arr); |i.reqs| + Weight(i.tx) <= Weight(x.tx) + GROWTH
  {
    hide TlsHandshake, AfterRead, Close, Weight;
    var full := |x.rx.avail + arr.plain| >= BUF_SIZE;
    CloseWeight(sid, x.tx, false);
    HandshakeGrows(sid, x.tx, arr);
    ReadGrows(sid, x.tx, full, arr);
    ReadGrows(sid, TlsHandshake(sid, x.tx, arr).tx, full, arr);
  }

  lemma ActsGrow(s: State, sid: nat, out: multiset<Request>, pool: Pool, i: Issue, rx: Rx)
    requires sid in s.live && !s.exited && |out| <= |s.out|
    requires |i.reqs| + Weight(i.tx) <= Weight(s.live[sid].tx) + GROWTH
    ensures Measure(Apply(s.(out := out, pool := pool), sid, rx, i)) <= Measure(s) + GROWTH
  {
    TotalUpdate(s.live, sid, Session(rx, i.tx));
  }

  lemma StepGrows(s: State, e: Event)
    requires TxInv(s) && s.stopped && Enabled(s, e) && !IsShutdownEvent(e)
    ensures Measure(Step(s, e)) <= Measure(s) + GROWTH
  {
    hide TxInv, OnRecvRx, OnRecvTx, SendCipher, Weight, Total, Handle;
    match e
    case SendMessage(sid, cipher, ok) =>
      SendGrows(sid, s.live[sid].tx, cipher, ok);
      ActsGrow(s, sid, s.out, s.pool, SendCipher(sid, s.live[sid].tx, cipher, ok), s.live[sid].rx);
    case ClearRunning =>
    case Complete(req, res, arr) =>
      if s.running || s.live != map[] {
        DataGrows(s, req.sid, res, arr);
      }
    case _ =>
  }

  lemma DataGrows(s: State, sid: nat, res: int, arr: Arrival)
    requires Enabled(s, Complete(Recv(sid), res, arr))
    ensures Measure(Handle(s, Recv(sid), res, arr)) <= Measure(s) + GROWTH
  {
    hide OnRecvRx, OnRecvTx, Weight, Total;
    if sid in s.live {
      var out := if res > 0 && arr.more then s.out else s.out - multiset{Recv(sid)};
      var r := OnRecvRx(s.pool, s.live[sid].rx, res, arr);
      RecvGrows(sid, s.live[sid], res, arr);
      ActsGrow(s, sid, out, r.pool, OnRecvTx(sid, s.live[sid], res, arr), r.rx);
    }
  }

  /** The completions of a run that carry no new data. */
  function Quiet(es: seq<Event>): (n: nat)
    ensures n <= |es|
    decreases |es|
  {
    if es == [] then 0 else (if IsShutdownEvent(es[0]) then 1 else 0) + Quiet(es[1..])
  }

  /** What all the others may add. */
  function Added(es: seq<Event>): (n: nat)
    ensures n == (|es| - Quiet(es)) * GROWTH
    decreases |es|
  {
    if es == [] then 0 else (if IsShutdownEvent(es[0]) then 0 else GROWTH) + Added(es[1..])
  }

  lemma StepBounded(s: State, e: Event)
    requires TxInv(s) && s.stopped && Enabled(s, e)
    ensures (if IsShutdownEvent(e) then 1 else 0) + Measure(Step(s, e))
         <= Measure(s) + if IsShutdownEvent(e) then 0 else GROWTH
  {
    hide Measure, Step, TxInv, Enabled;
    if IsShutdownEvent(e) {
      StepDecreases(s, e);
    } else {
      StepGrows(s, e);
    }
  }

  /** After `Stop`, whatever new data and messages still come, every one of them adds a bounded
      number of completions. */
  lemma {:induction false} RunBounded(s: State, es: seq<Event>)
    requires TxInv(s) && s.stopped && Possible(s, es)
    ensures After(s, es).stopped
    ensures Quiet(es) + Measure(After(s, es)) <= Measure(s) + Added(es)
    decreases |es|
  {
    if es != [] {
      hide Measure, Step, TxInv, Enabled, IsShutdownEvent;
      StepKeeps(s, es[0]);
      StepFlags(s, es[0]);
      StepBounded(s, es[0]);
      RunBounded(Step(s, es[0]), es[1..]);
    }
  }

  /** Shutdown is complete: over any run after `Stop`, in whatever order completions, data and
      messages come, the completions without new data are bounded by the measure and what each
      of the others adds, so finitely much new data cannot keep the loop going; and when none is
      left to handle, and only then, the loop has exited, with no session left. */
  lemma ShutdownCompletes(s: State, es: seq<Event>)
    requires TxInv(s) && s.stopped && Possible(s, es)
    ensures Quiet(es) <= Measure(s) + (|es| - Quiet(es)) * GROWTH
    ensures !CanProceed(After(s, es)) <==> After(s, es).exited
    ensures After(s, es).exited ==> After(s, es).live == map[]
  {
    RunKeeps(s, es);
    RunBounded(s, es);
    assert Added(es) == (|es| - Quiet(es)) * GROWTH;
    if !After(s, es).exited {
      NeverStuck(After(s, es));
    }
  }
}
