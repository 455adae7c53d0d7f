/**
  Runs put together, and the beginning of an ordinary connection: the handshake, and a first
  request. The failures shown elsewhere happen after it.
 */
module Greeting {
  import opened Framing
  import opened Buffers
  import opened Protocol

  lemma {:induction false} RunsJoin(s: State, first: seq<Event>, second: seq<Event>)
    requires Possible(s, first) && Possible(After(s, first), second)
    ensures Possible(s, first + second) && After(s, first + second) == After(After(s, first), second)
    decreases |first|
  {
    if first == [] {
      assert first + second == second;
    } else {
      assert (first + second)[1..] == first[1..] + second;
      RunsJoin(Step(s, first[0]), first[1..], second);
    }
  }

  lemma OneMore(s: State, es: seq<Event>, e: Event)
    requires Possible(s, es) && Enabled(After(s, es), e)
    ensures Possible(s, es + [e]) && After(s, es + [e]) == Step(After(s, es), e)
  {
    var t := After(s, es);
    assert [e][1..] == [];
    assert Possible(Step(t, e), []) && After(Step(t, e), []) == Step(t, e);
    assert Possible(t, [e]) && After(t, [e]) == Step(t, e);
    RunsJoin(s, es, [e]);
  }

  function Data(id: BufId, res: int, handshake: Handshake, cipher: seq<Byte>, plain: seq<Byte>): Event {
    Complete(Recv(1), res, Arrival(Lease(id, BUF_SIZE), true, true, handshake, cipher, plain, [], WantRead))
  }

  /** The first request: a `FindRoomRequest`, which has id 9, for any name. */
  function Query(): seq<Byte> {
    [0, 9]
  }

  /** Session 1 is accepted; its hello is answered by `flight`, which is sent; its finish ends
      the handshake and is answered by `last`, which is sent; then its first request arrives. */
  function Hello(flight: seq<Byte>, last: seq<Byte>): seq<Event> {
    [Accept(1),
     Data(0, 517, NeedsRead, flight, []), Complete(Send(1, flight), |flight|, NoArrival()),
     Data(0, 80, Done, last, []), Complete(Send(1, last), |last|, NoArrival()),
     Data(1, 26, Done, [], Frame(Query()))]
  }

  /** A worker whose only session is session 1. */
  function Only(rx: Rx, tx: Tx, out: multiset<Request>, pool: Pool): State {
    State(true, false, false, map[1 := Session(rx, tx)], {1}, out, pool)
  }

  function FreshPool(): Pool {
    Init().pool
  }

  /** The buffer of the finish, which held no plaintext, has not been handed back. */
  function HelloPool(): Pool {
    Pool(FreshPool().caps, FreshPool().leases - multiset{Lease(0, BUF_SIZE)}, {0})
  }

  function Idle(sent: seq<Byte>): Tx {
    Tx([], [], false, 0, false, false, sent, sent, false, 0)
  }

  function Busy(before: seq<Byte>, bytes: seq<Byte>): Tx {
    Tx([], [bytes], true, 1, false, false, before + bytes, before, false, 0)
  }

  function Shaken(): Rx {
    Rx(false, [], [], -1, [], [], [])
  }

  function Asked(): Rx {
    Rx(false, [], [], -1, Frame(Query()), Frame(Query()), [Query()])
  }

  /** The state an ordinary connection is in once its first request has been dispatched. */
  function Greeted(flight: seq<Byte>, last: seq<Byte>): State {
    Only(Asked(), Idle(flight + last), multiset{Recv(1)}, HelloPool())
  }

  lemma FlushOnce(sid: nat, before: seq<Byte>, bytes: seq<Byte>)
    requires 0 < |bytes| <= BUF_SIZE
    ensures Flush(sid, Cipher(Idle(before), bytes)) == Issue(Busy(before, bytes), multiset{Send(sid, bytes)})
  {
    assert [] + bytes == bytes && bytes[..|bytes|] == bytes && bytes[|bytes|..] == [];
    assert [] + [bytes] == [bytes];
  }

  lemma SentAll(before: seq<Byte>, bytes: seq<Byte>, rx: Rx, pool: Pool)
    requires 0 < |bytes| <= BUF_SIZE
    ensures var s := Only(rx, Busy(before, bytes), multiset{Recv(1)} + multiset{Send(1, bytes)}, pool);
            var e := Complete(Send(1, bytes), |bytes|, NoArrival());
            Enabled(s, e) && Step(s, e) == Only(rx, Idle(before + bytes), multiset{Recv(1)}, pool)
  {
    assert bytes[|bytes|..] == [] && bytes[..|bytes|] == bytes;
    var t := Observe(Busy(before, bytes), bytes, |bytes|);
    assert Advance(CountDown(t), |bytes|) == Idle(before + bytes);
    assert OnSend(1, t, |bytes|) == Issue(Idle(before + bytes), multiset{});
    assert multiset{Recv(1)} + multiset{Send(1, bytes)} - multiset{Send(1, bytes)} + multiset{} == multiset{Recv(1)};
  }

  lemma Accepted()
    ensures Enabled(Init(), Accept(1))
    ensures Step(Init(), Accept(1)) == Only(NewRx(), Idle([]), multiset{Recv(1)}, FreshPool())
  {
  }

  lemma FirstLease()
    ensures Lease(0, BUF_SIZE) in FreshPool().leases && FreshPool().caps[0] == BUF_SIZE
    ensures FreshPool().leases - multiset{Lease(0, BUF_SIZE)} + multiset{Lease(0, BUF_SIZE)} == FreshPool().leases
  {
  }

  /** A receive at a worker whose only session is session 1. */
  lemma DataArrives(rx: Rx, tx: Tx, pool: Pool, e: Event, rx': Rx, tx': Tx, reqs: multiset<Request>, pool': Pool)
    requires e.Complete? && e.req == Recv(1) && e.arr.more && 0 < e.res <= e.arr.lease.len && e.arr.lease in pool.leases
    requires OnRecvRx(pool, rx, e.res, e.arr) == Protocol.Received(pool', rx')
    requires OnRecvTx(1, Session(rx, tx), e.res, e.arr) == Issue(tx', reqs)
    ensures var s := Only(rx, tx, multiset{Recv(1)}, pool);
            Enabled(s, e) && Step(s, e) == Only(rx', tx', multiset{Recv(1)} + reqs, pool')
  {
    hide OnRecvRx, OnRecvTx;
  }

  lemma HelloReceived(flight: seq<Byte>)
    requires 0 < |flight| <= BUF_SIZE
    ensures var s := Only(NewRx(), Idle([]), multiset{Recv(1)}, FreshPool());
            var e := Data(0, 517, NeedsRead, flight, []);
            Enabled(s, e) && Step(s, e) == Only(NewRx(), Busy([], flight), multiset{Recv(1)} + multiset{Send(1, flight)}, FreshPool())
  {
    hide FreshPool, Flush, Cipher, Step, Enabled, Only;
    FirstLease();
    FlushOnce(1, [], flight);
    DataArrives(NewRx(), Idle([]), FreshPool(), Data(0, 517, NeedsRead, flight, []),
                NewRx(), Busy([], flight), multiset{Send(1, flight)}, FreshPool());
  }

  lemma FinishTx(flight: seq<Byte>, last: seq<Byte>)
    requires 0 < |last| <= BUF_SIZE
    ensures OnRecvTx(1, Session(NewRx(), Idle(flight)), 80, Data(0, 80, Done, last, []).arr)
         == Issue(Busy(flight, last), multiset{Send(1, last)})
  {
    hide Flush;
    FlushOnce(1, flight, last);
    NothingRead(Busy(flight, last), 0, 80, last, []);
  }

  /** A read that yields no ciphertext and wants more. */
  lemma NothingRead(t: Tx, id: BufId, res: int, cipher: seq<Byte>, plain: seq<Byte>)
    ensures AfterRead(1, t, false, Data(id, res, Done, cipher, plain).arr) == Issue(t, multiset{})
  {
    assert t.wbio + [] == t.wbio && t.produced + [] == t.produced;
  }

  lemma FinishRx(last: seq<Byte>)
    ensures OnRecvRx(FreshPool(), NewRx(), 80, Data(0, 80, Done, last, []).arr) == Protocol.Received(HelloPool(), Shaken())
  {
    hide FreshLeases;
    var none: seq<Byte> := [];
    assert none + none == none;
  }

  lemma FinishReceived(flight: seq<Byte>, last: seq<Byte>)
    requires 0 < |last| <= BUF_SIZE
    ensures var s := Only(NewRx(), Idle(flight), multiset{Recv(1)}, FreshPool());
            var e := Data(0, 80, Done, last, []);
            Enabled(s, e) && Step(s, e) == Only(Shaken(), Busy(flight, last), multiset{Recv(1)} + multiset{Send(1, last)}, HelloPool())
  {
    hide FreshPool, OnRecvTx, OnRecvRx, Step, Enabled, Only;
    FirstLease();
    FinishTx(flight, last);
    FinishRx(last);
    DataArrives(NewRx(), Idle(flight), FreshPool(), Data(0, 80, Done, last, []),
                Shaken(), Busy(flight, last), multiset{Send(1, last)}, HelloPool());
  }

  lemma QueryDispatched()
    ensures Parse(Frame(Query())) == Parsed([Query()], [])
  {
    ParseFrame(Query(), []);
    assert Frame(Query()) + [] == Frame(Query());
    ParseIncomplete([]);
    assert [Query()] + [] == [Query()];
  }

  lemma QueryLease()
    ensures Lease(1, BUF_SIZE) in HelloPool().leases && HelloPool().caps[1] == BUF_SIZE
    ensures HelloPool().leases - multiset{Lease(1, BUF_SIZE)} + multiset{Lease(1, BUF_SIZE)} == HelloPool().leases
  {
  }

  lemma QueryRx()
    ensures OnRecvRx(HelloPool(), Shaken(), 26, Data(1, 26, Done, [], Frame(Query())).arr) == Protocol.Received(HelloPool(), Asked())
  {
    hide HelloPool, Frame, Parse;
    QueryLease();
    QueryDispatched();
    FrameLength(Query());
    var f := Frame(Query());
    assert f[..4] == f && f[4..] == [] && [] + f == f && [] + [Query()] == [Query()];
  }

  lemma QueryReceived(sent: seq<Byte>)
    ensures var s := Only(Shaken(), Idle(sent), multiset{Recv(1)}, HelloPool());
            var e := Data(1, 26, Done, [], Frame(Query()));
            Enabled(s, e) && Step(s, e) == Only(Asked(), Idle(sent), multiset{Recv(1)}, HelloPool())
  {
    hide HelloPool, OnRecvRx, AfterRead, Step, Enabled, Only;
    QueryLease();
    QueryRx();
    FrameLength(Query());
    NothingRead(Idle(sent), 1, 26, [], Frame(Query()));
    var none: multiset<Request> := multiset{};
    DataArrives(Shaken(), Idle(sent), HelloPool(), Data(1, 26, Done, [], Frame(Query())), Asked(), Idle(sent), none, HelloPool());
    assert multiset{Recv(1)} + none == multiset{Recv(1)};
  }

  lemma FrameLength(body: seq<Byte>)
    ensures |Frame(body)| == 2 + |body|
  {
  }

  /** The handshake and the first request bring the worker there. */
  lemma HelloRun(flight: seq<Byte>, last: seq<Byte>)
    requires 0 < |flight| <= BUF_SIZE && 0 < |last| <= BUF_SIZE
    ensures Possible(Init(), Hello(flight, last)) && After(Init(), Hello(flight, last)) == Greeted(flight, last)
  {
    hide Step, Enabled, Data, Only, Idle, Busy, Shaken, Asked, FreshPool, HelloPool, Init, NewRx;
    var e := Hello(flight, last);
    Accepted();
    HelloReceived(flight);
    SentAll([], flight, NewRx(), FreshPool());
    assert [] + flight == flight;
    FinishReceived(flight, last);
    SentAll(flight, last, Shaken(), HelloPool());
    QueryReceived(flight + last);
    assert Possible(Init(), []) && After(Init(), []) == Init();
    OneMore(Init(), [], e[0]);
    assert [] + [e[0]] == e[..1];
    OneMore(Init(), e[..1], e[1]);
    assert e[..1] + [e[1]] == e[..2];
    OneMore(Init(), e[..2], e[2]);
    assert e[..2] + [e[2]] == e[..3];
    OneMore(Init(), e[..3], e[3]);
    assert e[..3] + [e[3]] == e[..4];
    OneMore(Init(), e[..4], e[4]);
    assert e[..4] + [e[4]] == e[..5];
    OneMore(Init(), e[..5], e[5]);
    assert e[..5] + [e[5]] == e;
  }
}
