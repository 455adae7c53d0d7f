/**
  The bound on lost buffers is reached: every connection whose client ends its handshake with
  bytes that carry no plaintext costs the pool one buffer, and after 128 of them the worker
  receives nothing any more.
 */
module Exhaustion {
  import opened Framing
  import opened Buffers
  import opened Protocol
  import Greeting
  import Delivery

  function HelloArrival(k: BufId, flight: seq<Byte>): Arrival {
    Arrival(Lease(k, BUF_SIZE), true, true, NeedsRead, flight, [], [], WantRead)
  }

  function FinishArrival(k: BufId, last: seq<Byte>): Arrival {
    Arrival(Lease(k, BUF_SIZE), true, true, Done, last, [], [], WantRead)
  }

  /** One connection: accepted, its hello answered by `flight`, its finish by `last`. */
  function Connect(k: BufId, flight: seq<Byte>, last: seq<Byte>): seq<Event> {
    [Accept(k),
     Complete(Recv(k), 517, HelloArrival(k, flight)), Complete(Send(k, flight), |flight|, NoArrival()),
     Complete(Recv(k), 80, FinishArrival(k, last)), Complete(Send(k, last), |last|, NoArrival())]
  }

  function ConnectAll(n: nat, flight: seq<Byte>, last: seq<Byte>): seq<Event>
    requires n <= BUF_COUNT
  {
    if n == 0 then [] else ConnectAll(n - 1, flight, last) + Connect(n - 1, flight, last)
  }

  /** The worker runs, `n` session ids and `n` buffers are used up, the rest of the pool is
      lent. */
  ghost predicate UsedUp(s: State, n: nat)
    requires n <= BUF_COUNT
  {
    && s.running && !s.stopped && !s.exited
    && (forall k :: k in s.used ==> k < n)
    && (forall i: BufId :: s.pool.caps[i] == BUF_SIZE)
    && (forall l: Lease :: s.pool.leases[l] == if l.len == BUF_SIZE && l.id >= n then 1 else 0)
    && s.pool.dropped == FirstIds(n)
  }

  function FirstIds(n: nat): (ids: set<BufId>)
    requires n <= BUF_COUNT
    ensures |ids| == n && forall i: BufId :: i in ids <==> i < n
  {
    if n == 0 then {} else FirstIds(n - 1) + {n - 1}
  }

  /** Session `k` looks like this, with a receive posted, and the pool like that. */
  ghost predicate At(s: State, k: nat, rx: Rx, tx: Tx, pool: Pool, used: set<nat>) {
    && s.running && !s.stopped && !s.exited
    && k in s.live && s.live[k] == Session(rx, tx) && Recv(k) in s.out && s.pool == pool && s.used == used
  }

  lemma DataStep(s: State, k: nat, rx: Rx, tx: Tx, e: Event, i: Issue, r: Protocol.Received)
    requires At(s, k, rx, tx, s.pool, s.used) && e.Complete? && e.req == Recv(k) && e.arr.more
    requires 0 < e.res <= e.arr.lease.len && e.arr.lease in s.pool.leases
    requires r == OnRecvRx(s.pool, rx, e.res, e.arr) && i == OnRecvTx(k, Session(rx, tx), e.res, e.arr)
    ensures Enabled(s, e) && At(Step(s, e), k, r.rx, i.tx, r.pool, s.used) && i.reqs <= Step(s, e).out
  {
    hide OnRecvRx, OnRecvTx;
  }

  lemma SendStep(s: State, k: nat, rx: Rx, before: seq<Byte>, bytes: seq<Byte>)
    requires At(s, k, rx, Greeting.Busy(before, bytes), s.pool, s.used) && Send(k, bytes) in s.out && 0 < |bytes| <= BUF_SIZE
    ensures var e := Complete(Send(k, bytes), |bytes|, NoArrival());
            Enabled(s, e) && At(Step(s, e), k, rx, Greeting.Idle(before + bytes), s.pool, s.used)
  {
    hide OnSend, Observe;
    AllTaken(k, before, bytes);
  }

  lemma AllTaken(k: nat, before: seq<Byte>, bytes: seq<Byte>)
    requires 0 < |bytes| <= BUF_SIZE
    ensures OnSend(k, Observe(Greeting.Busy(before, bytes), bytes, |bytes|), |bytes|) == Issue(Greeting.Idle(before + bytes), multiset{})
  {
    assert bytes[|bytes|..] == [] && bytes[..|bytes|] == bytes;
    var t := Observe(Greeting.Busy(before, bytes), bytes, |bytes|);
    assert Advance(CountDown(t), |bytes|) == Greeting.Idle(before + bytes);
  }

  lemma HelloTx(k: BufId, flight: seq<Byte>)
    requires 0 < |flight| <= BUF_SIZE
    ensures OnRecvTx(k, Session(NewRx(), Greeting.Idle([])), 517, HelloArrival(k, flight))
         == Issue(Greeting.Busy([], flight), multiset{Send(k, flight)})
  {
    hide Flush, Cipher;
    Greeting.FlushOnce(k, [], flight);
  }

  lemma FinishTx(k: BufId, flight: seq<Byte>, last: seq<Byte>)
    requires 0 < |last| <= BUF_SIZE
    ensures OnRecvTx(k, Session(NewRx(), Greeting.Idle(flight)), 80, FinishArrival(k, last))
         == Issue(Greeting.Busy(flight, last), multiset{Send(k, last)})
  {
    hide Flush;
    Greeting.FlushOnce(k, flight, last);
    var t := Greeting.Busy(flight, last);
    assert t.wbio + [] == t.wbio && t.produced + [] == t.produced;
    assert AfterRead(k, t, false, FinishArrival(k, last)) == Issue(t, multiset{});
  }

  lemma HelloRx(p: Pool, k: BufId, flight: seq<Byte>)
    requires p.caps[k] == BUF_SIZE && Lease(k, BUF_SIZE) in p.leases
    ensures OnRecvRx(p, NewRx(), 517, HelloArrival(k, flight)) == Protocol.Received(p, NewRx())
  {
    var l := multiset{Lease(k, BUF_SIZE)};
    assert p.leases - l + l == p.leases;
  }

  /** The finish holds no plaintext: its buffer is not handed back. */
  lemma FinishRx(p: Pool, k: BufId, last: seq<Byte>)
    ensures OnRecvRx(p, NewRx(), 80, FinishArrival(k, last))
         == Protocol.Received(Without(p, k), Greeting.Shaken())
  {
    var none: seq<Byte> := [];
    assert none + none == none;
  }

  function Without(p: Pool, k: BufId): Pool {
    p.(leases := p.leases - multiset{Lease(k, BUF_SIZE)}, dropped := p.dropped + {k})
  }

  lemma Accepted(s: State, k: nat)
    requires s.running && !s.stopped && !s.exited && k !in s.used
    ensures Enabled(s, Accept(k)) && At(Step(s, Accept(k)), k, NewRx(), Greeting.Idle([]), s.pool, s.used + {k})
  {
  }

  lemma Connected(s: State, k: BufId, flight: seq<Byte>, last: seq<Byte>)
    requires UsedUp(s, k) && 0 < |flight| <= BUF_SIZE && 0 < |last| <= BUF_SIZE
    ensures Possible(s, Connect(k, flight, last)) && UsedUp(After(s, Connect(k, flight, last)), k + 1)
  {
    var e := Connect(k, flight, last);
    assert Lease(k, BUF_SIZE) in s.pool.leases && s.pool.caps[k] == BUF_SIZE;
    Accepted(s, k);
    var used := s.used + {k};
    UsedMore(s, k);
    hide Step, Enabled, UsedUp, OnRecvRx, OnRecvTx, NewRx, Without;
    var s1 := Step(s, e[0]);
    HelloRx(s.pool, k, flight);
    HelloTx(k, flight);
    DataStep(s1, k, NewRx(), Greeting.Idle([]), e[1], Issue(Greeting.Busy([], flight), multiset{Send(k, flight)}),
             Protocol.Received(s.pool, NewRx()));
    var s2 := Step(s1, e[1]);
    assert Send(k, flight) in multiset{Send(k, flight)};
    SendStep(s2, k, NewRx(), [], flight);
    assert [] + flight == flight;
    var s3 := Step(s2, e[2]);
    FinishRx(s.pool, k, last);
    FinishTx(k, flight, last);
    DataStep(s3, k, NewRx(), Greeting.Idle(flight), e[3], Issue(Greeting.Busy(flight, last), multiset{Send(k, last)}),
             Protocol.Received(Without(s.pool, k), Greeting.Shaken()));
    var s4 := Step(s3, e[3]);
    assert Send(k, last) in multiset{Send(k, last)};
    SendStep(s4, k, Greeting.Shaken(), flight, last);
    FiveSteps(s, e, s1, s2, s3, s4);
  }

  /** Whatever has the pool without buffer `k`, and one more id used, has used up one more. */
  lemma UsedMore(s: State, k: BufId)
    requires UsedUp(s, k)
    ensures forall t: State, rx, tx :: At(t, k, rx, tx, Without(s.pool, k), s.used + {k}) ==> UsedUp(t, k + 1)
  {
  }

  lemma FiveSteps(s: State, es: seq<Event>, s1: State, s2: State, s3: State, s4: State)
    requires |es| == 5
    requires Enabled(s, es[0]) && s1 == Step(s, es[0]) && Enabled(s1, es[1]) && s2 == Step(s1, es[1])
    requires Enabled(s2, es[2]) && s3 == Step(s2, es[2]) && Enabled(s3, es[3]) && s4 == Step(s3, es[3])
    requires Enabled(s4, es[4])
    ensures Possible(s, es) && After(s, es) == Step(s4, es[4])
  {
    hide Step, Enabled;
    var s5 := Step(s4, es[4]);
    assert es[1..][1..] == es[2..] && es[2..][1..] == es[3..] && es[3..][1..] == es[4..] && es[4..][1..] == [];
    assert Possible(s5, []) && After(s5, []) == s5;
    assert Possible(s4, es[4..]) && After(s4, es[4..]) == s5;
    assert Possible(s3, es[3..]) && After(s3, es[3..]) == s5;
    assert Possible(s2, es[2..]) && After(s2, es[2..]) == s5;
    assert Possible(s1, es[1..]) && After(s1, es[1..]) == s5;
  }

  lemma OneMore(es: seq<Event>, k: BufId, flight: seq<Byte>, last: seq<Byte>)
    requires Possible(Init(), es) && UsedUp(After(Init(), es), k) && 0 < |flight| <= BUF_SIZE && 0 < |last| <= BUF_SIZE
    ensures Possible(Init(), es + Connect(k, flight, last))
    ensures UsedUp(After(Init(), es + Connect(k, flight, last)), k + 1)
  {
    hide UsedUp, Step, Enabled, Connect, FirstIds, Possible, After, Init;
    Connected(After(Init(), es), k, flight, last);
    Greeting.RunsJoin(Init(), es, Connect(k, flight, last));
  }

  lemma NoneConnected()
    ensures Possible(Init(), []) && UsedUp(After(Init(), []), 0)
  {
  }

  lemma {:induction false} AllConnected(n: nat, flight: seq<Byte>, last: seq<Byte>)
    requires n <= BUF_COUNT && 0 < |flight| <= BUF_SIZE && 0 < |last| <= BUF_SIZE
    ensures Possible(Init(), ConnectAll(n, flight, last))
    ensures UsedUp(After(Init(), ConnectAll(n, flight, last)), n)
    decreases n
  {
    hide UsedUp, Step, Enabled, Connect, FirstIds, Possible, After, Init;
    if n == 0 {
      NoneConnected();
    } else {
      AllConnected(n - 1, flight, last);
      OneMore(ConnectAll(n - 1, flight, last), n - 1, flight, last);
    }
  }

  /** For every n up to 128 there is a run, of n ordinary connections, that loses exactly n
      buffers; after 128 no receive can complete with data any more. */
  lemma BoundReached(n: nat, flight: seq<Byte>, last: seq<Byte>)
    requires n <= 128 && 0 < |flight| <= BUF_SIZE && 0 < |last| <= BUF_SIZE
    ensures var es := ConnectAll(n, flight, last);
            && Possible(Init(), es) && Delivery.Losses(Init(), es) == n
            && After(Init(), es).pool.dropped == FirstIds(n)
            && (n == 128 ==>
                  forall sid: nat, res, arr :: res > 0 ==> !Enabled(After(Init(), es), Complete(Recv(sid), res, arr)))
  {
    hide ConnectAll, Enabled, Step, FirstIds;
    AllConnected(n, flight, last);
    Delivery.LossesBounded(ConnectAll(n, flight, last));
  }
}
