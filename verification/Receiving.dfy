/**
  The receiving half of every session and the shared buffer pool over every run: what was
  dispatched is the greedy parse of the stream, however it was cut, and every pool buffer
  has one owner.
 */
module Receiving {
  import opened Numbers
  import opened Framing
  import opened Buffers
  import opened Protocol

  const MAX_CAP := MAX_BODY + 1 + BUF_SIZE

  /** Dispatched so far: the greedy parse of all drained plaintext. Kept: its tail. */
  ghost predicate RxOk(r: Rx) {
    && Parse(r.drained) == Parsed(r.dispatched, r.tail)
    && (r.pending == -1 <==> r.tail == [])
    && r.drained + r.avail == r.stream
  }

  /** Every buffer lent to the ring is lent once, at its present size. */
  ghost predicate LeasesOk(p: Pool) {
    && (forall l :: l in p.leases ==> p.leases[l] == 1 && l.len == p.caps[l.id] && l.id !in p.dropped)
    && (forall i: BufId :: BUF_SIZE <= p.caps[i] <= MAX_CAP)
  }

  ghost predicate Lent(p: Pool, id: BufId) {
    Lease(id, p.caps[id]) in p.leases
  }

  ghost predicate Held(m: map<nat, Session>, id: BufId) {
    exists sid :: sid in m && m[sid].rx.pending == id
  }

  /** No two owners ... */
  ghost predicate Exclusive(m: map<nat, Session>, p: Pool) {
    && (forall sid :: sid in m && m[sid].rx.pending != -1 ==>
          m[sid].rx.pending !in p.dropped && !Lent(p, m[sid].rx.pending))
    && (forall a, b :: a in m && b in m && a != b && m[a].rx.pending != -1 ==> m[a].rx.pending != m[b].rx.pending)
  }

  /** ... and no buffer without one, once the ids that the code does not hand back are
      counted as dropped. */
  ghost predicate Covered(m: map<nat, Session>, p: Pool) {
    forall id: BufId :: Lent(p, id) || Held(m, id) || id in p.dropped
  }

  ghost predicate PoolOk(m: map<nat, Session>, p: Pool) {
    LeasesOk(p) && Exclusive(m, p) && Covered(m, p)
  }

  ghost predicate RxInv(s: State) {
    (forall sid :: sid in s.live ==> RxOk(s.live[sid].rx)) && PoolOk(s.live, s.pool)
  }

  // ----- the parse -----

  lemma ProcessOk(r: Rx, chunk: seq<Byte>)
    requires Parse(r.drained) == Parsed(r.dispatched, r.tail)
    ensures var r1 := Process(r, r.tail + chunk);
            Parse(r.drained + chunk) == Parsed(r1.dispatched, r1.tail)
  {
    ParseSplit(r.drained, chunk);
  }

  lemma DeliverRx(p: Pool, r: Rx, id: BufId, chunk: seq<Byte>)
    requires Parse(r.drained) == Parsed(r.dispatched, r.tail) && (r.pending == -1 <==> r.tail == [])
    ensures var d := Deliver(p, r, id, chunk);
            && Parse(r.drained + chunk) == Parsed(d.rx.dispatched, d.rx.tail)
            && (d.rx.pending == -1 <==> d.rx.tail == [])
            && d.rx == r.(dispatched := d.rx.dispatched, tail := d.rx.tail, pending := d.rx.pending)
  {
    ProcessOk(r, chunk);
    if r.pending == -1 {
      assert r.tail + chunk == chunk;
    }
  }

  lemma ReadTextRx(p: Pool, r: Rx, id: BufId, plain: seq<Byte>)
    requires RxOk(r)
    ensures RxOk(ReadText(p, r, id, plain).rx)
  {
    var avail := r.avail + plain;
    var n := Min(BUF_SIZE, |avail|);
    assert r.drained + avail == r.stream + plain;
    assert avail == avail[..n] + avail[n..];
    assert r.drained + avail[..n] + avail[n..] == r.drained + avail;
    if n == 0 {
      assert r.drained + avail[..n] == r.drained;
    } else {
      DeliverRx(p, r.(handshaking := false, stream := r.stream + plain, avail := avail[n..]), id, avail[..n]);
    }
  }

  // ----- the pool -----

  function Taken(p: Pool, l: Lease): Pool {
    p.(leases := p.leases - multiset{l})
  }

  /** The session's pending id after a step, all else about it being irrelevant here. */
  ghost predicate SetsPending(m: map<nat, Session>, m': map<nat, Session>, sid: nat, pending: Pending) {
    && sid in m && m'.Keys == m.Keys && m'[sid].rx.pending == pending
    && forall other :: other in m && other != sid ==> m'[other].rx.pending == m[other].rx.pending
  }

  lemma HeldElsewhere(m: map<nat, Session>, m': map<nat, Session>, sid: nat, id: BufId)
    requires sid in m && m'.Keys == m.Keys
    requires forall other :: other in m && other != sid ==> m'[other].rx.pending == m[other].rx.pending
    ensures Held(m, id) && m[sid].rx.pending != id ==> Held(m', id)
  {
    if Held(m, id) && m[sid].rx.pending != id {
      var other :| other in m && m[other].rx.pending == id;
      assert m'[other].rx.pending == id;
    }
  }

  lemma TakenLent(p: Pool, l: Lease, id: BufId)
    requires LeasesOk(p) && l in p.leases
    ensures Lent(Taken(p, l), id) <==> Lent(p, id) && id != l.id
    ensures LeasesOk(Taken(p, l)) && Lent(p, l.id)
  {
    assert p.leases[l] == 1 && l == Lease(l.id, p.caps[l.id]);
  }

  lemma LendBack(p: Pool, l: Lease)
    requires LeasesOk(p) && l in p.leases
    ensures Lend(Taken(p, l), l.id) == p
  {
    assert p.leases - multiset{l} + multiset{l} == p.leases;
  }

  lemma DropOk(m: map<nat, Session>, p: Pool, l: Lease)
    requires PoolOk(m, p) && l in p.leases
    ensures PoolOk(m, Drop(Taken(p, l), l.id))
  {
    var p' := Drop(Taken(p, l), l.id);
    forall id: BufId
      ensures Lent(p', id) <==> Lent(p, id) && id != l.id
    {
      TakenLent(p, l, id);
    }
    forall x | x in p'.leases
      ensures p'.leases[x] == 1 && x.len == p'.caps[x.id] && x.id !in p'.dropped
    {
      assert x in p.leases;
      assert p.leases[x] == 1 && p.leases[l] == 1;
    }
  }

  lemma HoldOk(m: map<nat, Session>, m': map<nat, Session>, sid: nat, p: Pool, l: Lease)
    requires PoolOk(m, p) && l in p.leases
    requires sid in m && m[sid].rx.pending == -1 && SetsPending(m, m', sid, l.id)
    ensures PoolOk(m', Taken(p, l))
  {
    var p' := Taken(p, l);
    forall id: BufId
      ensures Lent(p', id) <==> Lent(p, id) && id != l.id
    {
      TakenLent(p, l, id);
    }
    TakenLent(p, l, l.id);
    forall id: BufId
      ensures Lent(p', id) || Held(m', id) || id in p'.dropped
    {
      HeldElsewhere(m, m', sid, id);
    }
  }

  /** The pending buffer may grow: it is not lent, so no lease goes stale. */
  lemma GrowOk(m: map<nat, Session>, sid: nat, p: Pool, size: nat)
    requires PoolOk(m, p) && sid in m && m[sid].rx.pending != -1 && size <= MAX_CAP
    ensures PoolOk(m, p.(caps := p.caps[m[sid].rx.pending := Max(p.caps[m[sid].rx.pending], size)]))
  {
    var q := m[sid].rx.pending;
    var p' := p.(caps := p.caps[q := Max(p.caps[q], size)]);
    forall x | x in p.leases
      ensures x.id != q
    {
      assert x == Lease(x.id, p.caps[x.id]);
    }
    forall id: BufId
      ensures Lent(p', id) <==> Lent(p, id)
    {
    }
  }

  lemma GiveBackOk(m: map<nat, Session>, m': map<nat, Session>, sid: nat, p: Pool)
    requires PoolOk(m, p) && sid in m && m[sid].rx.pending != -1 && SetsPending(m, m', sid, -1)
    ensures PoolOk(m', Lend(p, m[sid].rx.pending))
  {
    var q := m[sid].rx.pending;
    var p' := Lend(p, q);
    forall x | x in p'.leases
      ensures p'.leases[x] == 1 && x.len == p'.caps[x.id] && x.id !in p'.dropped
    {
    }
    forall id: BufId
      ensures Lent(p', id) <==> Lent(p, id) || id == q
    {
    }
    forall id: BufId
      ensures Lent(p', id) || Held(m', id) || id in p'.dropped
    {
      HeldElsewhere(m, m', sid, id);
    }
  }

  lemma SamePending(m: map<nat, Session>, m': map<nat, Session>, sid: nat, p: Pool)
    requires PoolOk(m, p) && sid in m && SetsPending(m, m', sid, m[sid].rx.pending)
    ensures PoolOk(m', p)
  {
    forall id: BufId
      ensures Lent(p, id) || Held(m', id) || id in p.dropped
    {
      if Held(m, id) {
        var other :| other in m && m[other].rx.pending == id;
        assert m'[other].rx.pending == id;
      }
    }
  }

  lemma DeliverPool(m: map<nat, Session>, m': map<nat, Session>, sid: nat, p: Pool, l: Lease, r: Rx, chunk: seq<Byte>)
    requires PoolOk(m, p) && l in p.leases && sid in m
    requires r.pending == m[sid].rx.pending && |r.tail| + |chunk| <= MAX_CAP
    requires SetsPending(m, m', sid, Deliver(Taken(p, l), r, l.id, chunk).rx.pending)
    ensures PoolOk(m', Deliver(Taken(p, l), r, l.id, chunk).pool)
  {
    var d := Deliver(Taken(p, l), r, l.id, chunk);
    TakenLent(p, l, l.id);
    LendBack(p, l);
    if r.pending == -1 {
      if d.rx.pending == -1 {
        SamePending(m, m', sid, p);
      } else {
        HoldOk(m, m', sid, p, l);
      }
    } else {
      var q := r.pending;
      var grown := p.(caps := p.caps[q := Max(p.caps[q], |r.tail + chunk|)]);
      GrowOk(m, sid, p, |r.tail + chunk|);
      assert l in grown.leases && q != l.id;
      LendBack(grown, l);
      assert Taken(p, l).(caps := grown.caps) == Taken(grown, l);
      if d.rx.pending == -1 {
        GiveBackOk(m, m', sid, grown);
      } else {
        SamePending(m, m', sid, grown);
      }
    }
  }

  lemma OnRecvKeeps(m: map<nat, Session>, m': map<nat, Session>, sid: nat, p: Pool, res: int, arr: Arrival)
    requires PoolOk(m, p) && sid in m && RxOk(m[sid].rx)
    requires res > 0 ==> arr.lease in p.leases
    requires var o := OnRecvRx(p, m[sid].rx, res, arr); SetsPending(m, m', sid, o.rx.pending) && m'[sid].rx == o.rx
    ensures var o := OnRecvRx(p, m[sid].rx, res, arr); RxOk(o.rx) && PoolOk(m', o.pool)
  {
    var r := m[sid].rx;
    if res <= 0 {
      SamePending(m, m', sid, p);
    } else if !arr.bioOk {
      DropOk(m, p, arr.lease);
      SamePending(m, m', sid, Drop(Taken(p, arr.lease), arr.lease.id));
    } else if r.handshaking && arr.handshake != Done {
      LendBack(p, arr.lease);
      SamePending(m, m', sid, p);
    } else {
      ReadTextRx(Taken(p, arr.lease), r, arr.lease.id, arr.plain);
      ReadTextPool(m, m', sid, p, arr.lease, arr.plain);
    }
  }

  lemma ReadTextPool(m: map<nat, Session>, m': map<nat, Session>, sid: nat, p: Pool, l: Lease, plain: seq<Byte>)
    requires PoolOk(m, p) && sid in m && RxOk(m[sid].rx) && l in p.leases
    requires SetsPending(m, m', sid, ReadText(Taken(p, l), m[sid].rx, l.id, plain).rx.pending)
    ensures PoolOk(m', ReadText(Taken(p, l), m[sid].rx, l.id, plain).pool)
  {
    var r := m[sid].rx;
    var avail := r.avail + plain;
    var n := Min(BUF_SIZE, |avail|);
    if n == 0 {
      DropOk(m, p, l);
      SamePending(m, m', sid, Drop(Taken(p, l), l.id));
    } else {
      ParseTailBound(r.drained);
      var r1 := r.(handshaking := false, stream := r.stream + plain, avail := avail[n..], drained := r.drained + avail[..n]);
      DeliverPool(m, m', sid, p, l, r1, avail[..n]);
    }
  }

  // ----- every step and every run -----

  lemma RecvShape(s: State, sid: nat, res: int, arr: Arrival)
    requires Enabled(s, Complete(Recv(sid), res, arr)) && sid in s.live
    ensures var s' := Handle(s, Recv(sid), res, arr); var o := OnRecvRx(s.pool, s.live[sid].rx, res, arr);
            && s'.pool == o.pool && s'.live.Keys == s.live.Keys && s'.live[sid].rx == o.rx
            && SetsPending(s.live, s'.live, sid, o.rx.pending)
            && forall other :: other in s.live && other != sid ==> s'.live[other].rx == s.live[other].rx
  {
    hide OnRecvTx, OnRecvRx, OnSend, Observe, Close;
  }

  lemma OtherShape(s: State, req: Request, res: int, arr: Arrival)
    requires Enabled(s, Complete(req, res, arr)) && !req.Recv? && !req.SessionClose?
    ensures var s' := Handle(s, req, res, arr);
            && s'.pool == s.pool && s'.live.Keys == s.live.Keys
            && forall sid :: sid in s.live ==> s'.live[sid].rx == s.live[sid].rx
  {
    hide OnRecvTx, OnRecvRx, OnSend, Observe, Close;
  }

  lemma RecvStep(s: State, sid: nat, res: int, arr: Arrival)
    requires RxInv(s) && Enabled(s, Complete(Recv(sid), res, arr))
    ensures RxInv(Handle(s, Recv(sid), res, arr))
  {
    if sid in s.live {
      RecvShape(s, sid, res, arr);
      OnRecvKeeps(s.live, Handle(s, Recv(sid), res, arr).live, sid, s.pool, res, arr);
    } else if res > 0 {
      DropOk(s.live, s.pool, arr.lease);
    }
  }

  lemma RemoveCovered(m: map<nat, Session>, p: Pool, sid: nat)
    requires Covered(m, p) && sid in m
    ensures var pending := m[sid].rx.pending; Covered(m - {sid}, if pending == -1 then p else Drop(p, pending))
  {
    var p' := if m[sid].rx.pending == -1 then p else Drop(p, m[sid].rx.pending);
    forall id: BufId
      ensures Lent(p', id) || Held(m - {sid}, id) || id in p'.dropped
    {
      if Held(m, id) {
        var other :| other in m && m[other].rx.pending == id;
        assert other != sid ==> other in m - {sid};
      } else {
        assert Lent(p, id) || id in p.dropped;
      }
    }
  }

  lemma RemoveOthers(m: map<nat, Session>, p: Pool, sid: nat)
    requires LeasesOk(p) && Exclusive(m, p) && sid in m
    ensures var pending := m[sid].rx.pending; var p' := if pending == -1 then p else Drop(p, pending);
            LeasesOk(p') && Exclusive(m - {sid}, p')
  {
    var pending := m[sid].rx.pending;
    if pending != -1 {
      forall l | l in p.leases
        ensures l.id != pending
      {
        assert l == Lease(l.id, p.caps[l.id]);
      }
    }
  }

  lemma RemoveStep(s: State, sid: nat)
    requires RxInv(s)
    ensures RxInv(RemoveSession(s, sid))
  {
    hide LeasesOk, Exclusive, Covered, RxOk;
    if sid in s.live {
      RemoveCovered(s.live, s.pool, sid);
      RemoveOthers(s.live, s.pool, sid);
    }
  }

  /** Any step that leaves the receiving halves and the pool alone. */
  lemma Untouched(s: State, s': State)
    requires RxInv(s) && s'.pool == s.pool && s'.live.Keys == s.live.Keys
    requires forall sid :: sid in s.live ==> s'.live[sid].rx == s.live[sid].rx
    ensures RxInv(s')
  {
    forall id: BufId
      ensures Lent(s.pool, id) || Held(s'.live, id) || id in s.pool.dropped
    {
      if Held(s.live, id) {
        var sid :| sid in s.live && s.live[sid].rx.pending == id;
        assert s'.live[sid].rx.pending == id;
      }
    }
  }

  lemma AcceptStep(s: State, sid: nat)
    requires RxInv(s) && Enabled(s, Accept(sid)) && sid !in s.live
    ensures RxInv(Step(s, Accept(sid)))
  {
    var s' := Step(s, Accept(sid));
    assert RxOk(NewRx());
    forall id: BufId
      ensures Lent(s.pool, id) || Held(s'.live, id) || id in s.pool.dropped
    {
      if Held(s.live, id) {
        var other :| other in s.live && s.live[other].rx.pending == id;
        assert s'.live[other].rx.pending == id;
      }
    }
  }

  lemma HandleStep(s: State, req: Request, res: int, arr: Arrival)
    requires RxInv(s) && Enabled(s, Complete(req, res, arr))
    ensures RxInv(Handle(s, req, res, arr))
  {
    if req.Recv? {
      RecvStep(s, req.sid, res, arr);
    } else if req.SessionClose? {
      RemoveStep(s.(out := s.out - multiset{req}), req.sid);
    } else {
      OtherShape(s, req, res, arr);
      Untouched(s, Handle(s, req, res, arr));
    }
  }

  lemma KeysStep(s: State, e: Event)
    requires Enabled(s, e) && s.live.Keys <= s.used
    ensures Step(s, e).live.Keys <= Step(s, e).used
  {
  }

  lemma RxStep(s: State, e: Event)
    requires RxInv(s) && Enabled(s, e) && s.live.Keys <= s.used
    ensures RxInv(Step(s, e)) && Step(s, e).live.Keys <= Step(s, e).used
  {
    hide RxOk, PoolOk, Handle;
    KeysStep(s, e);
    if e.Accept? {
      AcceptStep(s, e.sid);
    } else if !e.Complete? {
      Untouched(s, Step(s, e));
    } else if s.running || s.live != map[] {
      HandleStep(s, e.req, e.res, e.arr);
    }
  }

  lemma InitRx()
    ensures RxInv(Init())
  {
    forall id: BufId
      ensures Lent(Init().pool, id)
    {
      assert FreshLeases()[Lease(id, BUF_SIZE)] == 1;
    }
  }

  lemma {:induction false} RxRun(s: State, es: seq<Event>)
    requires RxInv(s) && Possible(s, es) && s.live.Keys <= s.used
    ensures RxInv(After(s, es))
    decreases |es|
  {
    if es != [] {
      RxStep(s, es[0]);
      RxRun(Step(s, es[0]), es[1..]);
    }
  }
}
