/**
  What the receive pipeline promises over whole runs: chunking invariance, delivery of
  framed messages, the memory bound, and the books of the buffer pool.
 */
module Delivery {
  import opened Numbers
  import opened Framing
  import opened Buffers
  import opened Protocol
  import opened Receiving
  import Greeting

  lemma Reached(es: seq<Event>)
    requires Possible(Init(), es)
    ensures RxInv(After(Init(), es))
  {
    InitRx();
    RxRun(Init(), es);
  }

  /** After any run, what a session dispatched is the greedy parse of the plaintext drained
      so far, its pending buffer holds exactly the unparsed tail, and there is no pending
      buffer exactly when that tail is empty; with nothing left in the TLS library this is
      the greedy parse of the whole stream. */
  lemma DispatchIsParse(es: seq<Event>, sid: nat)
    requires Possible(Init(), es) && sid in After(Init(), es).live
    ensures var r := After(Init(), es).live[sid].rx;
            && Parse(r.drained) == Parsed(r.dispatched, r.tail)
            && (r.pending == -1 <==> r.tail == [])
            && |r.tail| <= MAX_BODY + 1
            && r.drained + r.avail == r.stream
            && (r.avail == [] ==> Parse(r.stream) == Parsed(r.dispatched, r.tail))
  {
    Reached(es);
    var r := After(Init(), es).live[sid].rx;
    ParseTailBound(r.drained);
    assert r.avail == [] ==> r.drained + r.avail == r.drained;
  }

  /** Chunking invariance: two runs, with any number of other sessions and any pool history,
      in which a session received the same stream in any pieces, end with the same messages
      dispatched and the same bytes kept back. */
  lemma ChunkingInvariance(es1: seq<Event>, es2: seq<Event>, sid1: nat, sid2: nat)
    requires Possible(Init(), es1) && sid1 in After(Init(), es1).live
    requires Possible(Init(), es2) && sid2 in After(Init(), es2).live
    requires After(Init(), es1).live[sid1].rx.stream == After(Init(), es2).live[sid2].rx.stream
    requires After(Init(), es1).live[sid1].rx.avail == After(Init(), es2).live[sid2].rx.avail == []
    ensures After(Init(), es1).live[sid1].rx.dispatched == After(Init(), es2).live[sid2].rx.dispatched
    ensures After(Init(), es1).live[sid1].rx.tail == After(Init(), es2).live[sid2].rx.tail
    ensures After(Init(), es1).live[sid1].rx.pending == -1 <==> After(Init(), es2).live[sid2].rx.pending == -1
  {
    DispatchIsParse(es1, sid1);
    DispatchIsParse(es2, sid2);
  }

  /** The stream of a client that sends framed messages, cut off anywhere: the bodies
      dispatched are those of the first messages, and what is kept and what waits, put
      together, is the beginning of the frames of the others. */
  lemma PrefixDelivered(r: Rx, ms: seq<Message>)
    requires RxOk(r) && r.stream <= FrameAll(Bodies(ms))
    requires forall i :: 0 <= i < |ms| ==> |ms[i].payload| <= MAX_PAYLOAD
    ensures var n := |r.dispatched|;
            && n <= |ms| && r.dispatched == Bodies(ms)[..n]
            && FrameAll(Bodies(ms)[..n]) + r.tail + r.avail == r.stream
            && r.tail + r.avail <= FrameAll(Bodies(ms)[n..])
  {
    hide Parse, FrameAll;
    var bodies, n := Bodies(ms), |r.dispatched|;
    var missing := FrameAll(bodies)[|r.stream|..];
    assert Fits(bodies);
    assert r.drained + (r.avail + missing) == r.stream + missing == FrameAll(bodies);
    ParsePrefix(r.drained, r.avail + missing, bodies);
    assert r.tail + (r.avail + missing) == r.tail + r.avail + missing;
  }

  /** A client that sends framed messages: at any time, also inside a frame, exactly its first
      messages have been dispatched, and all that arrived is accounted for; once all has
      arrived and the TLS library is drained, all have been, with no buffer pending. */
  lemma MessagesDelivered(es: seq<Event>, sid: nat, ms: seq<Message>)
    requires Possible(Init(), es) && sid in After(Init(), es).live
    requires forall i :: 0 <= i < |ms| ==> |ms[i].payload| <= MAX_PAYLOAD
    requires After(Init(), es).live[sid].rx.stream <= FrameAll(Bodies(ms))
    ensures var r := After(Init(), es).live[sid].rx; var n := |r.dispatched|;
            && n <= |ms| && r.dispatched == Bodies(ms)[..n]
            && FrameAll(Bodies(ms)[..n]) + r.tail + r.avail == r.stream
            && r.tail + r.avail <= FrameAll(Bodies(ms)[n..])
            && (r.stream == FrameAll(Bodies(ms)) && r.avail == [] ==> n == |ms| && r.pending == -1)
  {
    Reached(es);
    var r := After(Init(), es).live[sid].rx;
    PrefixDelivered(r, ms);
    if r.stream == FrameAll(Bodies(ms)) && r.avail == [] {
      RoundTripExact(ms);
      assert r.drained + [] == r.drained;
    }
  }

  // ----- plaintext that waits in the TLS library -----

  /** One receive takes at most one buffer of plaintext out of the TLS library; the rest
      waits for the next receive. It takes all of it exactly when it is that short. */
  lemma ReadTakesAll(p: Pool, r: Rx, id: BufId, plain: seq<Byte>)
    ensures ReadText(p, r, id, plain).rx.avail == [] <==> |r.avail| + |plain| <= 4096
  {
    var avail := r.avail + plain;
    var n := Min(BUF_SIZE, |avail|);
    assert |avail[n..]| == |avail| - n;
  }

  /** Every frame received so far has been dispatched exactly when what waits in the TLS
      library does not complete one. */
  lemma DispatchUpToDate(r: Rx)
    requires RxOk(r)
    ensures r.dispatched == Parse(r.stream).frames <==> Parse(r.tail + r.avail).frames == []
  {
    ParseSplit(r.drained, r.avail);
    var later := Parse(r.tail + r.avail).frames;
    assert Parse(r.stream).frames == r.dispatched + later;
    if later != [] {
      assert |Parse(r.stream).frames| > |r.dispatched|;
    }
  }

  /** So it has not whenever a frame longer than one buffer arrives at once, at any session past
      its handshake that had nothing kept or waiting: the frame waits for another receive. */
  lemma LongFrameWaits(p: Pool, r: Rx, res: int, arr: Arrival, body: seq<Byte>)
    requires RxOk(r) && !r.handshaking && r.tail == [] && r.avail == []
    requires res > 0 && arr.bioOk && arr.plain == Frame(body) && BUF_SIZE - 2 < |body| <= MAX_BODY
    ensures var o := OnRecvRx(p, r, res, arr).rx;
            && o.stream == r.stream + Frame(body) && o.dispatched == r.dispatched
            && Parse(o.stream).frames == r.dispatched + [body]
  {
    hide Frame, Parse;
    Greeting.FrameLength(body);
    LongFrameParse(body);
    var chunk := Frame(body)[..BUF_SIZE];
    assert [] + Frame(body) == Frame(body);
    assert r.drained + [] == r.drained;
    ParseSplit(r.stream, Frame(body));
    assert r.dispatched + [] == r.dispatched;
  }

  lemma LongFrameParse(body: seq<Byte>)
    requires BUF_SIZE - 2 < |body| <= MAX_BODY
    ensures Parse(Frame(body)) == Parsed([body], [])
    ensures Parse(Frame(body)[..BUF_SIZE]) == Parsed([], Frame(body)[..BUF_SIZE])
  {
    ParseFrame(body, []);
    assert Frame(body) + [] == Frame(body);
    BigEndianU16(|body|, body);
    assert U16(Frame(body)[..BUF_SIZE]) == U16(Frame(body));
  }

  /** A run in which it has not: after the handshake and a request, a frame of 5000 bytes comes
      in two receives, the first of which completes no TLS record. The frame has then arrived
      and is not dispatched, and one more buffer is lost. */
  lemma FrameLeftWaiting(es: seq<Event>, flight: seq<Byte>, last: seq<Byte>, body: seq<Byte>)
    requires 0 < |flight| <= BUF_SIZE && 0 < |last| <= BUF_SIZE && |body| == 5000
    requires es == Greeting.Hello(flight, last)
                   + [Greeting.Data(1, 4096, Done, [], []), Greeting.Data(2, 1000, Done, [], Frame(body))]
    ensures Possible(Init(), es) && 1 in After(Init(), es).live
    ensures var r := After(Init(), es).live[1].rx;
            Parse(r.stream).frames == [Greeting.Query(), body] && r.dispatched == [Greeting.Query()]
  {
    hide Greeting.Hello, Greeting.Greeted, Frame, Step, Enabled;
    var hello := Greeting.Hello(flight, last);
    var first, second := Greeting.Data(1, 4096, Done, [], []), Greeting.Data(2, 1000, Done, [], Frame(body));
    Greeting.HelloRun(flight, last);
    var sent := flight + last;
    RecordBegun(flight, last);
    Greeting.OneMore(Init(), hello, first);
    RecordEnded(sent, body);
    Greeting.OneMore(Init(), hello + [first], second);
    assert hello + [first] + [second] == es;
  }

  /** The pool between the two receives. */
  function WaitingPool(): Pool {
    Greeting.HelloPool().(leases := Greeting.HelloPool().leases - multiset{Lease(1, BUF_SIZE)}, dropped := {0, 1})
  }

  lemma RecordBegun(flight: seq<Byte>, last: seq<Byte>)
    ensures var s, e := Greeting.Greeted(flight, last), Greeting.Data(1, 4096, Done, [], []);
            && Enabled(s, e)
            && Step(s, e) == Greeting.Only(Greeting.Asked(), Greeting.Idle(flight + last), multiset{Recv(1)}, WaitingPool())
  {
    hide OnRecvRx, AfterRead, Step, Enabled, Greeting.Only;
    Greeting.QueryLease();
    NoRecordRead();
    Greeting.NothingRead(Greeting.Idle(flight + last), 1, 4096, [], []);
    var none: multiset<Request> := multiset{};
    Greeting.DataArrives(Greeting.Asked(), Greeting.Idle(flight + last), Greeting.HelloPool(), Greeting.Data(1, 4096, Done, [], []),
                         Greeting.Asked(), Greeting.Idle(flight + last), none, WaitingPool());
    assert multiset{Recv(1)} + none == multiset{Recv(1)};
  }

  lemma NoRecordRead()
    ensures OnRecvRx(Greeting.HelloPool(), Greeting.Asked(), 4096, Greeting.Data(1, 4096, Done, [], []).arr)
         == Protocol.Received(WaitingPool(), Greeting.Asked())
  {
    hide Greeting.FreshPool, Frame;
    var f := Frame(Greeting.Query());
    assert f + [] == f;
  }

  lemma WaitingLease()
    ensures Lease(2, BUF_SIZE) in WaitingPool().leases
  {
  }

  lemma AskedOk()
    ensures RxOk(Greeting.Asked())
  {
    hide Frame, Parse;
    Greeting.QueryDispatched();
    var f := Frame(Greeting.Query());
    assert f + [] == f;
  }

  lemma RecordEnded(sent: seq<Byte>, body: seq<Byte>)
    requires |body| == 5000
    ensures var s := Greeting.Only(Greeting.Asked(), Greeting.Idle(sent), multiset{Recv(1)}, WaitingPool());
            var e := Greeting.Data(2, 1000, Done, [], Frame(body));
            && Enabled(s, e) && 1 in Step(s, e).live
            && Parse(Step(s, e).live[1].rx.stream).frames == [Greeting.Query(), body]
            && Step(s, e).live[1].rx.dispatched == [Greeting.Query()]
  {
    hide OnRecvRx, Handle, Frame, Parse, WaitingPool, RxOk;
    var s := Greeting.Only(Greeting.Asked(), Greeting.Idle(sent), multiset{Recv(1)}, WaitingPool());
    var e := Greeting.Data(2, 1000, Done, [], Frame(body));
    WaitingLease();
    AskedOk();
    RecvShape(s, 1, 1000, e.arr);
    LongFrameWaits(s.pool, Greeting.Asked(), 1000, e.arr, body);
    assert [Greeting.Query()] + [body] == [Greeting.Query(), body];
  }

  // ----- before the handshake is complete -----

  predicate NothingRead(r: Rx) {
    r.handshaking ==> r.stream == [] && r.pending == -1 && r.dispatched == []
  }

  ghost predicate HandshakesFirst(s: State) {
    forall sid :: sid in s.live ==> NothingRead(s.live[sid].rx)
  }

  lemma RecvReads(p: Pool, r: Rx, res: int, arr: Arrival)
    requires NothingRead(r)
    ensures NothingRead(OnRecvRx(p, r, res, arr).rx)
    ensures OnRecvRx(p, r, res, arr).rx.handshaking
        <==> r.handshaking && (res <= 0 || !arr.bioOk || arr.handshake != Done)
  {
    hide Parse;
  }

  lemma HandleHandshake(s: State, req: Request, res: int, arr: Arrival)
    requires HandshakesFirst(s) && Enabled(s, Complete(req, res, arr)) && !req.SessionClose?
    requires req.Recv? ==> req.sid in s.live
    ensures HandshakesFirst(Handle(s, req, res, arr))
  {
    hide Handle, OnRecvRx, NothingRead, Enabled;
    if req.Recv? {
      RecvShape(s, req.sid, res, arr);
      RecvReads(s.pool, s.live[req.sid].rx, res, arr);
    } else {
      OtherShape(s, req, res, arr);
    }
  }

  lemma StaleHandshake(s: State, req: Request, res: int, arr: Arrival)
    requires HandshakesFirst(s) && Enabled(s, Complete(req, res, arr))
    requires req.SessionClose? || (req.Recv? && req.sid !in s.live)
    ensures HandshakesFirst(Handle(s, req, res, arr))
  {
    hide NothingRead, Enabled;
  }

  lemma StepHandshake(s: State, e: Event)
    requires HandshakesFirst(s) && Enabled(s, e)
    ensures HandshakesFirst(Step(s, e))
  {
    hide Handle, SendCipher, StartClose, NothingRead;
    match e
    case Complete(req, res, arr) =>
      if s.running || s.live != map[] {
        if req.SessionClose? || (req.Recv? && req.sid !in s.live) {
          StaleHandshake(s, req, res, arr);
        } else {
          HandleHandshake(s, req, res, arr);
        }
      }
    case Accept(_) => FreshReadsNothing();
    case _ =>
  }

  lemma FreshReadsNothing()
    ensures NothingRead(NewRx())
  {
  }

  lemma {:induction false} RunHandshake(s: State, es: seq<Event>)
    requires HandshakesFirst(s) && Possible(s, es)
    ensures HandshakesFirst(After(s, es))
    decreases |es|
  {
    if es != [] {
      StepHandshake(s, es[0]);
      RunHandshake(Step(s, es[0]), es[1..]);
    }
  }

  /** No plaintext is read, no buffer kept and no frame dispatched before the handshake of a
      session is complete. */
  lemma NothingBeforeHandshake(es: seq<Event>, sid: nat)
    requires Possible(Init(), es) && sid in After(Init(), es).live
    ensures var r := After(Init(), es).live[sid].rx;
            r.handshaking ==> r.stream == [] && r.drained == [] && r.pending == -1 && r.dispatched == []
  {
    RunHandshake(Init(), es);
    DispatchIsParse(es, sid);
    assert NothingRead(After(Init(), es).live[sid].rx);
  }

  // ----- the pool -----

  /** Every pool buffer has exactly one owner after every run, and never more bytes than the
      bound; so a receive completion never names a pending buffer, `Append` never gets the
      buffer it is called on, and the chunk just read always fits without a resize. */
  lemma OneOwner(es: seq<Event>, id: BufId)
    requires Possible(Init(), es)
    ensures var s := After(Init(), es);
            && (Lent(s.pool, id) || Held(s.live, id) || id in s.pool.dropped)
            && !(Lent(s.pool, id) && Held(s.live, id))
            && !(Lent(s.pool, id) && id in s.pool.dropped)
            && !(Held(s.live, id) && id in s.pool.dropped)
            && BUF_SIZE <= s.pool.caps[id] <= MAX_CAP
    ensures var s := After(Init(), es);
            forall l :: l in s.pool.leases ==>
              s.pool.leases[l] == 1 && l.len == s.pool.caps[l.id] && !Held(s.live, l.id)
    ensures var s := After(Init(), es);
            forall a, b :: a in s.live && b in s.live && a != b && s.live[a].rx.pending == id ==>
              s.live[b].rx.pending != id
  {
    Reached(es);
    var s := After(Init(), es);
    forall l | l in s.pool.leases
      ensures !Held(s.live, l.id)
    {
      assert l == Lease(l.id, s.pool.caps[l.id]);
    }
  }

  /** The buffer that the code hands back to nobody in this step, if any: the TLS library
      refused the bytes, or had no plaintext to give, or the session was removed. */
  function LostBuffer(s: State, e: Event): (lost: set<BufId>)
    requires Enabled(s, e)
    ensures |lost| <= 1
  {
    if !e.Complete? || (!s.running && s.live == map[]) then {}
    else
      match e.req
      case Recv(sid) =>
        if e.res > 0 && (sid in s.live && e.arr.bioOk ==> YieldsNothing(s.live[sid].rx, e.arr))
        then {e.arr.lease.id} else {}
      case SessionClose(sid) =>
        if sid in s.live && s.live[sid].rx.pending != -1 then {s.live[sid].rx.pending} else {}
      case _ => {}
  }

  /** The handshake is over and there is no plaintext to read. */
  predicate YieldsNothing(r: Rx, arr: Arrival) {
    (r.handshaking ==> arr.handshake == Done) && r.avail + arr.plain == []
  }

  /** All buffers lost on the way. */
  function LostOver(s: State, es: seq<Event>): set<BufId>
    requires Possible(s, es)
    decreases |es|
  {
    if es == [] then {} else LostBuffer(s, es[0]) + LostOver(Step(s, es[0]), es[1..])
  }

  /** The number of steps that lost one. */
  function Losses(s: State, es: seq<Event>): nat
    requires Possible(s, es)
    decreases |es|
  {
    if es == [] then 0 else |LostBuffer(s, es[0])| + Losses(Step(s, es[0]), es[1..])
  }

  lemma DeliverDropsNone(p: Pool, r: Rx, id: BufId, chunk: seq<Byte>)
    ensures Deliver(p, r, id, chunk).pool.dropped == p.dropped
  {
  }

  lemma TakenDrops(p: Pool, r: Rx, res: int, arr: Arrival)
    ensures OnRecvRx(p, r, res, arr).pool.dropped
         == p.dropped + if res > 0 && (arr.bioOk ==> YieldsNothing(r, arr)) then {arr.lease.id} else {}
  {
    hide Deliver;
    var avail := r.avail + arr.plain;
    var n := Min(BUF_SIZE, |avail|);
    var r1 := r.(handshaking := false, stream := r.stream + arr.plain, avail := avail[n..], drained := r.drained + avail[..n]);
    DeliverDropsNone(Receiving.Taken(p, arr.lease), r1, arr.lease.id, avail[..n]);
  }

  lemma LeasedNotDropped(s: State, l: Lease)
    requires RxInv(s) && l in s.pool.leases
    ensures l.id !in s.pool.dropped
  {
  }

  lemma PendingNotDropped(s: State, sid: nat)
    requires RxInv(s) && sid in s.live && s.live[sid].rx.pending != -1
    ensures s.live[sid].rx.pending !in s.pool.dropped
  {
  }

  lemma RecvLoses(s: State, sid: nat, res: int, arr: Arrival)
    requires Enabled(s, Complete(Recv(sid), res, arr)) && (s.running || s.live != map[])
    ensures Handle(s, Recv(sid), res, arr).pool.dropped == s.pool.dropped + LostBuffer(s, Complete(Recv(sid), res, arr))
  {
    if sid in s.live {
      hide Handle, YieldsNothing, OnRecvRx;
      RecvShape(s, sid, res, arr);
      TakenDrops(s.pool, s.live[sid].rx, res, arr);
    }
  }

  lemma CloseLoses(s: State, sid: nat, res: int, arr: Arrival)
    requires Enabled(s, Complete(SessionClose(sid), res, arr)) && (s.running || s.live != map[])
    ensures Handle(s, SessionClose(sid), res, arr).pool.dropped
         == s.pool.dropped + LostBuffer(s, Complete(SessionClose(sid), res, arr))
  {
  }

  /** A step drops exactly the buffer it loses, and it was not dropped before. */
  lemma StepLoses(s: State, e: Event)
    requires RxInv(s) && Enabled(s, e)
    ensures Step(s, e).pool.dropped == s.pool.dropped + LostBuffer(s, e)
    ensures LostBuffer(s, e) !! s.pool.dropped
  {
    hide RxInv, YieldsNothing;
    if e.Complete? && (s.running || s.live != map[]) {
      hide Handle;
      if e.req.Recv? {
        RecvLoses(s, e.req.sid, e.res, e.arr);
        if e.res > 0 {
          LeasedNotDropped(s, e.arr.lease);
        }
      } else if e.req.SessionClose? {
        CloseLoses(s, e.req.sid, e.res, e.arr);
        if e.req.sid in s.live && s.live[e.req.sid].rx.pending != -1 {
          PendingNotDropped(s, e.req.sid);
        }
      } else {
        OtherShape(s, e.req, e.res, e.arr);
      }
    }
  }

  /** Over any run the dropped buffers are those dropped before and those lost on the way, and
      no buffer is lost twice. */
  lemma {:induction false} RunLoses(s: State, es: seq<Event>)
    requires RxInv(s) && Possible(s, es) && s.live.Keys <= s.used
    ensures After(s, es).pool.dropped == s.pool.dropped + LostOver(s, es)
    ensures LostOver(s, es) !! s.pool.dropped && |LostOver(s, es)| == Losses(s, es)
    decreases |es|
  {
    if es != [] {
      hide RxInv, LostBuffer, Step, Enabled;
      var s1 := Step(s, es[0]);
      StepLoses(s, es[0]);
      RxStep(s, es[0]);
      RunLoses(s1, es[1..]);
      LostThenLost(s.pool.dropped, LostBuffer(s, es[0]), LostOver(s1, es[1..]));
    }
  }

  lemma LostThenLost(before: set<BufId>, now: set<BufId>, later: set<BufId>)
    requires now !! before && later !! before + now
    ensures before + now + later == before + (now + later)
    ensures now + later !! before && |now + later| == |now| + |later|
  {
  }

  function Below(n: nat): (ids: set<int>)
    ensures |ids| == n && forall i :: i in ids <==> 0 <= i < n
  {
    if n == 0 then {} else Below(n - 1) + {n - 1}
  }

  lemma IdsBelow(n: nat, ids: set<int>)
    requires ids <= Below(n)
    ensures |ids| <= n
    ensures |ids| == n ==> ids == Below(n)
  {
    assert Below(n) == ids + (Below(n) - ids);
  }

  /** A pool whose buffers are all dropped has none for the kernel. */
  lemma DroppedBound(s: State, n: nat)
    requires RxInv(s) && n == BUF_COUNT
    ensures |s.pool.dropped| <= n
    ensures |s.pool.dropped| == n ==> s.pool.leases == multiset{}
  {
    IdsBelow(n, s.pool.dropped);
    assert forall l :: l in s.pool.leases ==> l.id in Below(n);
    if |s.pool.dropped| == n {
      assert forall l :: l !in s.pool.leases;
    }
  }

  /** A lost buffer never comes back: over any run, however long, the dropped buffers are those
      lost on the way, each lost once; at most 128 steps can lose one, and when they have, no
      receive can complete with data any more. */
  lemma LossesBounded(es: seq<Event>)
    requires Possible(Init(), es)
    ensures After(Init(), es).pool.dropped == LostOver(Init(), es)
    ensures Losses(Init(), es) == |LostOver(Init(), es)| <= BUF_COUNT
    ensures Losses(Init(), es) == BUF_COUNT ==>
              forall sid: nat, res, arr :: res > 0 ==> !Enabled(After(Init(), es), Complete(Recv(sid), res, arr))
  {
    InitRx();
    hide RxInv, Enabled, LostBuffer;
    RunLoses(Init(), es);
    Reached(es);
    DroppedBound(After(Init(), es), BUF_COUNT);
    if Losses(Init(), es) == BUF_COUNT {
      NoneLeft(After(Init(), es));
    }
  }

  lemma NoneLeft(s: State)
    requires s.pool.leases == multiset{}
    ensures forall sid: nat, res, arr :: res > 0 ==> !Enabled(s, Complete(Recv(sid), res, arr))
  {
  }
}
