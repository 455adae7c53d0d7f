/**
  Which requests a worker posts: every step adds and answers exactly the receives, cancels and
  stop requests it should, and none is posted twice. And what a step leaves alone.
 */
module Requests {
  import opened Protocol
  import opened Framing
  import opened Shutdown

  /** What a session posts while it sends and receives: sends, and its close. */
  ghost predicate OwnWork(reqs: multiset<Request>) {
    forall r :: r in reqs ==> r.Send? || r.SessionClose?
  }

  lemma QueueOwn(sid: nat)
    ensures forall t: Tx :: OwnWork(SendInternal(sid, t).reqs) && OwnWork(Flush(sid, t).reqs)
    ensures forall t: Tx, b: bool :: OwnWork(Close(sid, t, b).reqs)
  {
  }

  lemma CloseOwn(sid: nat, t: Tx)
    ensures OwnWork(Close(sid, t, true).reqs)
  {
  }

  lemma SendsOwn(sid: nat, t: Tx, cipher: seq<Byte>, ok: bool, res: int)
    ensures OwnWork(SendCipher(sid, t, cipher, ok).reqs) && OwnWork(OnSend(sid, t, res).reqs)
  {
    hide SendInternal, Flush, Close, Cipher, Advance, CountDown;
    QueueOwn(sid);
  }

  lemma RecvOwn(sid: nat, x: Session, res: int, arr: Arrival)
    ensures OwnWork(OnRecvTx(sid, x, res, arr).reqs)
  {
    hide SendInternal, Flush, Close, Cipher;
    QueueOwn(sid);
  }

  /** The call of `Stop`: every session is told to cancel its receive, once, and without any
      session the stop request is posted; nothing else happens. */
  lemma StopEffect(s: State)
    requires TxInv(s) && Enabled(s, Stop)
    ensures var t := Step(s, Stop);
            && t == s.(stopped := true, live := t.live, out := t.out) && t.live.Keys == s.live.Keys
            && (forall sid :: sid in s.live ==> t.live[sid] == s.live[sid].(tx := s.live[sid].tx.(canceling := true)))
            && forall r: Request ::
                 t.out[r] == s.out[r] + if (r.RecvCancel? && r.sid in s.live) || (r.WorkerStop? && s.live == map[]) then 1 else 0
  {
    NotCanceling(s);
    hide TxInv, Enabled, CloseAll;
    forall r: Request
      ensures Step(s, Stop).out[r] == s.out[r] + if (r.RecvCancel? && r.sid in s.live) || (r.WorkerStop? && s.live == map[]) then 1 else 0
    {
      CancelsOut(s, r);
    }
    CancelsLive(s);
  }

  lemma NotCanceling(s: State)
    requires TxInv(s) && Enabled(s, Stop)
    ensures !s.running && forall sid :: sid in s.live ==> !s.live[sid].tx.canceling
  {
  }

  lemma CancelsLive(s: State)
    requires forall sid :: sid in s.live ==> !s.live[sid].tx.canceling
    ensures var t := CloseAll(s);
            && t == s.(live := t.live, out := t.out) && t.live.Keys == s.live.Keys && (t.live == map[] <==> s.live == map[])
            && forall sid :: sid in s.live ==> t.live[sid] == s.live[sid].(tx := s.live[sid].tx.(canceling := true))
  {
    assert CloseAll(s).live.Keys == s.live.Keys;
  }

  lemma CancelsOut(s: State, r: Request)
    requires forall sid :: sid in s.live ==> !s.live[sid].tx.canceling
    ensures CloseAll(s).out[r] == s.out[r] + if r.RecvCancel? && r.sid in s.live then 1 else 0
    ensures CloseAll(s).live == map[] <==> s.live == map[]
  {
    var cancels := set sid | sid in s.live && !s.live[sid].tx.canceling :: RecvCancel(sid);
    assert r in cancels <==> r.RecvCancel? && r.sid in s.live;
    assert CloseAll(s).out == s.out + multiset(cancels);
    assert CloseAll(s).live.Keys == s.live.Keys;
  }

  /** Whether the event takes request `r` off the ring for good. */
  function Answered(e: Event, ended: bool, r: Request): nat {
    if e.Complete? && e.req == r && !ended && !(r.Recv? && e.res > 0 && e.arr.more) then 1 else 0
  }

  /** What is posted and what is answered, exactly: a receive by `Accept` alone, which goes on
      as long as the kernel says; a cancel by `Stop` alone, for every session; the stop request
      by the call of `Stop`, or by the close of a session, that finds the server not running and
      leaves no session. */
  lemma StepRequests(s: State, e: Event, k: nat)
    requires TxInv(s) && Enabled(s, e)
    ensures var t := Step(s, e);
            && t.out[Recv(k)] == s.out[Recv(k)] + (if e == Accept(k) then 1 else 0) - Answered(e, t.exited, Recv(k))
            && t.out[RecvCancel(k)]
                 == s.out[RecvCancel(k)] + (if e.Stop? && k in s.live then 1 else 0) - Answered(e, t.exited, RecvCancel(k))
            && t.out[WorkerStop]
                 == s.out[WorkerStop] + (if MayEnd(e) && !t.exited && !t.running && t.live == map[] then 1 else 0)
                      - Answered(e, t.exited, WorkerStop)
  {
    hide SendCipher, Handle, TxInv, CloseAll, StopSqe;
    match e
    case SendMessage(sid, cipher, ok) =>
      SendsOwn(sid, s.live[sid].tx, cipher, ok, 0);
      NotAsked(SendCipher(sid, s.live[sid].tx, cipher, ok).reqs, k);
    case Stop => StopEffect(s);
    case Complete(req, res, arr) =>
      if s.running || s.live != map[] {
        HandleRequests(s, req, res, arr, k);
        HandleFrame(s, req, res, arr);
      }
    case _ =>
  }

  /** The steps that may ask for the end of the loop. */
  predicate MayEnd(e: Event) {
    e.Stop? || (e.Complete? && e.req.SessionClose?)
  }

  /** What is outstanding once a completion was taken off the ring. */
  function Taken(s: State, req: Request, res: int, arr: Arrival): multiset<Request> {
    if req.Recv? && res > 0 && arr.more then s.out else s.out - multiset{req}
  }

  lemma HandleRequests(s: State, req: Request, res: int, arr: Arrival, k: nat)
    requires Enabled(s, Complete(req, res, arr)) && (s.running || s.live != map[])
    ensures var t, e := Handle(s, req, res, arr), Complete(req, res, arr);
            && t.out[Recv(k)] == s.out[Recv(k)] - Answered(e, false, Recv(k))
            && t.out[RecvCancel(k)] == s.out[RecvCancel(k)] - Answered(e, false, RecvCancel(k))
            && t.out[WorkerStop]
                 == s.out[WorkerStop] + (if req.SessionClose? && !t.running && t.live == map[] then 1 else 0)
                      - Answered(e, false, WorkerStop)
  {
    var asked := HandleOut(s, req, res, arr);
    TakenOut(s, req, res, arr, Recv(k));
    TakenOut(s, req, res, arr, RecvCancel(k));
    TakenOut(s, req, res, arr, WorkerStop);
    NotAsked(asked, k);
    hide Handle, Enabled, OwnWork, Answered, Taken;
  }

  lemma TakenOut(s: State, req: Request, res: int, arr: Arrival, r: Request)
    requires Enabled(s, Complete(req, res, arr))
    ensures Taken(s, req, res, arr)[r] == s.out[r] - Answered(Complete(req, res, arr), false, r)
  {
  }

  lemma NotAsked(reqs: multiset<Request>, k: nat)
    requires OwnWork(reqs)
    ensures reqs[Recv(k)] == reqs[RecvCancel(k)] == reqs[WorkerStop] == 0
  {
  }

  lemma HandleOut(s: State, req: Request, res: int, arr: Arrival) returns (asked: multiset<Request>)
    requires Enabled(s, Complete(req, res, arr))
    ensures OwnWork(asked)
    ensures var t := Handle(s, req, res, arr);
            t.out == Taken(s, req, res, arr) + asked
                     + if req.SessionClose? && !t.running && t.live == map[] then multiset{WorkerStop} else multiset{}
  {
    hide OnRecvRx, OnRecvTx, Close, OnSend, Observe;
    asked := multiset{};
    if req.SessionClose? {
      hide RemoveSession;
      RemoveOut(s.(out := Taken(s, req, res, arr)), req.sid);
    } else if !req.WorkerStop? && req.sid in s.live {
      asked := SessionAsks(s.live[req.sid], req, res, arr);
    }
  }

  /** What the session of a completion posts. */
  lemma SessionAsks(x: Session, req: Request, res: int, arr: Arrival) returns (asked: multiset<Request>)
    requires (req.Send? ==> res <= |req.copy|) && !req.SessionClose? && !req.WorkerStop?
    ensures OwnWork(asked)
    ensures asked == match req
                     case Recv(sid) => OnRecvTx(sid, x, res, arr).reqs
                     case RecvCancel(sid) => Close(sid, x.tx, true).reqs
                     case Send(sid, copy) => OnSend(sid, Observe(x.tx, copy, res), res).reqs
                     case _ => multiset{}
  {
    hide OnRecvTx, Close, OnSend, Observe;
    asked := multiset{};
    match req
    case Recv(sid) =>
      RecvOwn(sid, x, res, arr);
      asked := OnRecvTx(sid, x, res, arr).reqs;
    case RecvCancel(sid) =>
      CloseOwn(sid, x.tx);
      asked := Close(sid, x.tx, true).reqs;
    case Send(sid, copy) =>
      SendsOwn(sid, Observe(x.tx, copy, res), [], true, res);
      asked := OnSend(sid, Observe(x.tx, copy, res), res).reqs;
    case _ =>
  }

  lemma RemoveOut(s: State, sid: nat)
    ensures RemoveSession(s, sid).out == s.out && RemoveSession(s, sid).running == s.running
  {
  }

  /** At most one receive and one cancel of a session are outstanding, the cancel only after
      `Stop`. */
  ghost predicate Once(s: State) {
    forall k: nat ::
      && s.out[Recv(k)] <= (if k in s.used then 1 else 0)
      && s.out[RecvCancel(k)] <= if s.stopped && k in s.used then 1 else 0
  }

  lemma StepOnce(s: State, e: Event)
    requires TxInv(s) && Once(s) && Enabled(s, e)
    ensures Once(Step(s, e))
  {
    hide Step, Enabled, TxInv;
    forall k: nat
      ensures var t := Step(s, e);
              && t.out[Recv(k)] <= (if k in t.used then 1 else 0)
              && t.out[RecvCancel(k)] <= if t.stopped && k in t.used then 1 else 0
    {
      StepRequests(s, e, k);
      StepFlags(s, e);
      StepMarks(s, e);
    }
  }

  lemma StepMarks(s: State, e: Event)
    requires TxInv(s) && Enabled(s, e)
    ensures e.Stop? ==> !s.stopped && Step(s, e).stopped && s.live.Keys <= s.used
    ensures e.Accept? ==> e.sid !in s.used && e.sid in Step(s, e).used
  {
  }

  lemma {:induction false} RunOnce(s: State, es: seq<Event>)
    requires TxInv(s) && Once(s) && Possible(s, es)
    ensures Once(After(s, es))
    decreases |es|
  {
    if es != [] {
      hide Step, Enabled, TxInv, Once;
      StepKeeps(s, es[0]);
      StepOnce(s, es[0]);
      RunOnce(Step(s, es[0]), es[1..]);
    }
  }

  /** Over every run a session has at most one receive and one cancel outstanding, and no cancel
      before `Stop`. */
  lemma OnceEveryRun(es: seq<Event>, k: nat)
    requires Possible(Init(), es)
    ensures var s := After(Init(), es);
            s.out[Recv(k)] <= 1 && s.out[RecvCancel(k)] <= 1 && (!s.stopped ==> RecvCancel(k) !in s.out)
  {
    InitOk();
    RunOnce(Init(), es);
  }

  /** The loop ends exactly on a completion that finds the server not running and no session. */
  lemma LoopEnds(s: State, e: Event)
    requires Enabled(s, e)
    ensures Step(s, e).exited <==> e.Complete? && !s.running && s.live == map[]
  {
    hide OnRecvRx, OnRecvTx, SendCipher, Close, OnSend, Observe;
  }

  // ----- what a step leaves alone -----

  /** The session an event is about, if there is one. */
  predicate Concerns(e: Event, k: nat) {
    match e
    case Accept(sid) => sid == k
    case SendMessage(sid, _, _) => sid == k
    case ClearRunning => false
    case Stop => true
    case Complete(req, _, _) => !req.WorkerStop? && req.sid == k
  }

  /** Sessions come by `Accept` and go by the completion of their close. */
  function LiveAfter(live: set<nat>, e: Event, ended: bool): set<nat> {
    match e
    case Accept(sid) => live + {sid}
    case Complete(SessionClose(sid), _, _) => if ended then live else live - {sid}
    case _ => live
  }

  /** The flags change only as their events say, sessions come and go, and no event touches a
      session it is not about. */
  ghost predicate Framed(s: State, e: Event, t: State) {
    && t.running == (s.running && !e.ClearRunning?) && t.stopped == (s.stopped || e.Stop?)
    && t.used == s.used + (if e.Accept? then {e.sid} else {})
    && t.live.Keys == LiveAfter(s.live.Keys, e, t.exited)
    && forall k :: k in s.live && !Concerns(e, k) ==> k in t.live && t.live[k] == s.live[k]
  }

  lemma StepFrame(s: State, e: Event)
    requires TxInv(s) && Enabled(s, e)
    ensures Framed(s, e, Step(s, e))
  {
    hide OnRecvRx, OnRecvTx, SendCipher, Handle, CloseAll, Framed, Apply, TxInv;
    match e
    case Accept(sid) => AcceptFrame(s, sid);
    case SendMessage(sid, cipher, ok) =>
      ApplyOne(s, sid, s.live[sid].rx, SendCipher(sid, s.live[sid].tx, cipher, ok), s.out, s.pool);
      MessageFrame(s, e, Step(s, e));
    case ClearRunning => FlagFrame(s, e);
    case Stop =>
      StopEffect(s);
      FlagFrame(s, e);
    case Complete(req, res, arr) => CompleteFrame(s, req, res, arr);
  }

  lemma AcceptFrame(s: State, sid: nat)
    requires TxInv(s) && Enabled(s, Accept(sid))
    ensures Framed(s, Accept(sid), Step(s, Accept(sid)))
  {
    AcceptEffect(s, sid);
  }

  lemma MessageFrame(s: State, e: Event, t: State)
    requires e.SendMessage? && OnlyOne(s, t, e.sid, false)
    ensures Framed(s, e, t)
  {
  }

  lemma FlagFrame(s: State, e: Event)
    requires e.ClearRunning? || e.Stop?
    requires Enabled(s, e) && Step(s, e) == s.(running := s.running && e.Stop?, stopped := s.stopped || e.Stop?,
                                               live := Step(s, e).live, out := Step(s, e).out)
    requires Step(s, e).live.Keys == s.live.Keys && (e.ClearRunning? ==> Step(s, e).live == s.live)
    ensures Framed(s, e, Step(s, e))
  {
  }

  lemma CompleteFrame(s: State, req: Request, res: int, arr: Arrival)
    requires Enabled(s, Complete(req, res, arr))
    ensures Framed(s, Complete(req, res, arr), Step(s, Complete(req, res, arr)))
  {
    hide Handle;
    if s.running || s.live != map[] {
      HandleFrame(s, req, res, arr);
    }
  }

  /** Only session `sid`, if any, is another, and none has come; it is gone exactly if `gone`. */
  ghost predicate OnlyOne(s: State, t: State, sid: nat, gone: bool) {
    && t.running == s.running && t.stopped == s.stopped && t.exited == s.exited && t.used == s.used
    && t.live.Keys == s.live.Keys - (if gone then {sid} else {})
    && forall k :: k in s.live && k != sid ==> k in t.live && t.live[k] == s.live[k]
  }

  lemma ApplyOne(s: State, sid: nat, rx: Rx, i: Issue, out: multiset<Request>, pool: Pool)
    requires sid in s.live
    ensures OnlyOne(s, Apply(s.(out := out, pool := pool), sid, rx, i), sid, false)
  {
  }

  lemma RemoveOne(s: State, sid: nat)
    ensures OnlyOne(s, RemoveSession(s, sid), sid, true)
  {
  }

  lemma HandleFrame(s: State, req: Request, res: int, arr: Arrival)
    requires Enabled(s, Complete(req, res, arr))
    ensures OnlyOne(s, Handle(s, req, res, arr), if req.WorkerStop? then 0 else req.sid, req.SessionClose?) || req.WorkerStop?
    ensures req.WorkerStop? ==> Handle(s, req, res, arr) == s.(out := s.out - multiset{req})
  {
    hide OnRecvRx, OnRecvTx, Close, OnSend, Observe, Apply, RemoveSession, OnlyOne;
    var out := Taken(s, req, res, arr);
    match req
    case Recv(sid) =>
      if sid in s.live {
        var r := OnRecvRx(s.pool, s.live[sid].rx, res, arr);
        ApplyOne(s, sid, r.rx, OnRecvTx(sid, s.live[sid], res, arr), out, r.pool);
      } else {
        NoneOther(s, sid, out, Handle(s, req, res, arr).pool);
      }
    case RecvCancel(sid) =>
      if sid in s.live {
        ApplyOne(s, sid, s.live[sid].rx, Close(sid, s.live[sid].tx, true), out, s.pool);
      } else {
        NoneOther(s, sid, out, s.pool);
      }
    case SessionClose(sid) =>
      RemoveOne(s.(out := out), sid);
      EndOne(s, s.(out := out), RemoveSession(s.(out := out), sid), sid);
    case Send(sid, copy) =>
      if sid in s.live {
        ApplyOne(s, sid, s.live[sid].rx, OnSend(sid, Observe(s.live[sid].tx, copy, res), res), out, s.pool);
      } else {
        NoneOther(s, sid, out, s.pool);
      }
    case WorkerStop =>
  }

  lemma NoneOther(s: State, sid: nat, out: multiset<Request>, pool: Pool)
    ensures OnlyOne(s, s.(out := out, pool := pool), sid, false)
  {
  }

  lemma EndOne(s: State, s1: State, t: State, sid: nat)
    requires OnlyOne(s1, t, sid, true) && s1 == s.(out := s1.out)
    ensures OnlyOne(s, StopSqe(t), sid, true)
  {
  }

  /** A new session is in its handshake, and nothing is queued, held or posted but its receive. */
  lemma AcceptEffect(s: State, sid: nat)
    requires TxInv(s) && Enabled(s, Accept(sid))
    ensures sid !in s.live
    ensures Step(s, Accept(sid))
         == s.(live := s.live[sid := Session(Rx(true, [], [], -1, [], [], []),
                                             Tx([], [], false, 0, false, false, [], [], false, 0))],
               used := s.used + {sid}, out := s.out + multiset{Recv(sid)})
  {
  }
}
