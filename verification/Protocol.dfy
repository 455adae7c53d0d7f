/**
  One worker as a state machine: its sessions, the requests outstanding at its ring, and
  its pool of receive buffers. A step is one completion handled by the loop, one message
  sent by a handler, a new session, or a part of the shutdown sequence.

  The fields `produced`, `accepted`, `failed`, `closes`, `drained`, `dispatched`, `stream`,
  `dropped` and `used` are history: the code does not keep them, and no branch reads them.
 */
module Protocol {
  import opened Numbers
  import opened Framing
  import opened Buffers

  const BUF_COUNT := 128
  const COUNTER_RANGE := 0x1_0000

  datatype Request =
    | Recv(sid: nat)
    | RecvCancel(sid: nat)
    | Send(sid: nat, copy: seq<Byte>)
    | SessionClose(sid: nat)
    | WorkerStop

  type BufId = i: nat | i < BUF_COUNT

  type Pending = i: int | -1 <= i < BUF_COUNT witness -1

  type Caps = s: seq<nat> | |s| == BUF_COUNT witness seq(BUF_COUNT, _ => BUF_SIZE)

  /** An entry of the buffer ring: this buffer, with this many bytes for the kernel. */
  datatype Lease = Lease(id: BufId, len: nat)

  datatype Pool = Pool(caps: Caps, leases: multiset<Lease>, dropped: set<BufId>)

  /** The sending half of a session. */
  datatype Tx = Tx(
    wbio: seq<Byte>, queue: seq<seq<Byte>>, isSending: bool, sendCount: nat,
    canceling: bool, closing: bool,
    produced: seq<Byte>, accepted: seq<Byte>, failed: bool, closes: nat)

  /** The receiving half: `avail` is plaintext the TLS library can hand out, `tail` the
      contents of the pending buffer. */
  datatype Rx = Rx(
    handshaking: bool, avail: seq<Byte>, tail: seq<Byte>, pending: Pending,
    stream: seq<Byte>, drained: seq<Byte>, dispatched: seq<seq<Byte>>)

  datatype Session = Session(rx: Rx, tx: Tx)

  datatype State = State(
    running: bool, stopped: bool, exited: bool,
    live: map<nat, Session>, used: set<nat>, out: multiset<Request>, pool: Pool)

  datatype Handshake = Done | NeedsRead | NeedsWrite | Broken

  datatype ReadEnd = WantRead | WantWrite | Fatal

  /** What the kernel and the TLS library contribute to one receive completion with data. */
  datatype Arrival = Arrival(
    lease: Lease, more: bool, bioOk: bool,
    handshake: Handshake, handshakeCipher: seq<Byte>,
    plain: seq<Byte>, readCipher: seq<Byte>, end: ReadEnd)

  /** A completion that carries no data. */
  function NoArrival(): Arrival {
    Arrival(Lease(0, 0), false, false, NeedsRead, [], [], [], WantRead)
  }

  datatype Event =
    | Accept(sid: nat)
    | SendMessage(sid: nat, cipher: seq<Byte>, ok: bool)
    | ClearRunning
    | Stop
    | Complete(req: Request, res: int, arr: Arrival)

  // ----- the sending half -----

  datatype Issue = Issue(tx: Tx, reqs: multiset<Request>)

  function Flat(q: seq<seq<Byte>>): seq<Byte> {
    if q == [] then [] else q[0] + Flat(q[1..])
  }

  function NewTx(): Tx {
    Tx([], [], false, 0, false, false, [], [], false, 0)
  }

  function Cipher(t: Tx, bytes: seq<Byte>): Tx {
    t.(wbio := t.wbio + bytes, produced := t.produced + bytes)
  }

  function SendInternal(sid: nat, t: Tx): Issue {
    if t.queue == [] then Issue(t, multiset{})
    else Issue(t.(sendCount := (t.sendCount + 1) % COUNTER_RANGE), multiset{Send(sid, t.queue[0])})
  }

  function Flush(sid: nat, t: Tx): Issue {
    var n := Min(BUF_SIZE, |t.wbio|);
    if n == 0 then Issue(t, multiset{})
    else
      var t1 := t.(wbio := t.wbio[n..], queue := t.queue + [t.wbio[..n]]);
      if t.isSending then Issue(t1, multiset{})
      else SendInternal(sid, t1.(isSending := true))
  }

  function StartClose(sid: nat, t: Tx): Issue {
    if t.canceling then Issue(t, multiset{})
    else Issue(t.(canceling := true), multiset{RecvCancel(sid)})
  }

  function Close(sid: nat, t: Tx, additionalCheck: bool): Issue {
    if additionalCheck && (!t.canceling || t.isSending || t.sendCount > 0) then Issue(t, multiset{})
    else if t.closing then Issue(t, multiset{})
    else Issue(t.(closing := true, closes := t.closes + 1), multiset{SessionClose(sid)})
  }

  /** History only: what the kernel made of the outstanding copy. */
  function Observe(t: Tx, copy: seq<Byte>, res: int): Tx
    requires res <= |copy|
  {
    if res <= 0 then t.(failed := true) else t.(accepted := t.accepted + copy[..res])
  }

  function Advance(t: Tx, bytes: nat): Tx {
    if t.queue == [] then t
    else
      var rest := t.queue[0][Min(bytes, |t.queue[0]|)..];
      if rest != [] then t.(queue := [rest] + t.queue[1..])
      else t.(queue := t.queue[1..], isSending := t.isSending && |t.queue| > 1)
  }

  function CountDown(t: Tx): Tx {
    t.(sendCount := (t.sendCount + COUNTER_RANGE - 1) % COUNTER_RANGE)
  }

  /** The end of `OnSend`: the next send, then `Close(true)`. */
  function Resume(sid: nat, t: Tx): Issue {
    var next := SendInternal(sid, t);
    var close := Close(sid, next.tx, true);
    Issue(close.tx, next.reqs + close.reqs)
  }

  function OnSend(sid: nat, t: Tx, res: int): Issue {
    if res <= 0 then Close(sid, CountDown(t), false)
    else Resume(sid, Advance(CountDown(t), res))
  }

  /** `Session::Send` of a message whose encryption is `cipher`; `ok` says that `SSL_write`
      did not fail for good. */
  function SendCipher(sid: nat, t: Tx, cipher: seq<Byte>, ok: bool): Issue {
    if ok then Flush(sid, Cipher(t, cipher)) else Close(sid, Cipher(t, cipher), false)
  }

  function TlsHandshake(sid: nat, t: Tx, arr: Arrival): Issue {
    var first := Flush(sid, Cipher(t, arr.handshakeCipher));
    match arr.handshake
    case Done => first
    case NeedsRead => first
    case NeedsWrite =>
      var second := Flush(sid, first.tx);
      Issue(second.tx, first.reqs + second.reqs)
    case Broken =>
      var second := Close(sid, first.tx, false);
      Issue(second.tx, first.reqs + second.reqs)
  }

  /** After `GetRecvText`: a full read ends without an error. */
  function AfterRead(sid: nat, t: Tx, full: bool, arr: Arrival): Issue {
    var t1 := Cipher(t, arr.readCipher);
    if full || arr.end == WantRead then Issue(t1, multiset{})
    else if arr.end == WantWrite then Flush(sid, t1)
    else Close(sid, t1, false)
  }

  /** The sending half of `OnRecv` once the TLS library has taken the bytes. */
  function OnFedTx(sid: nat, s: Session, arr: Arrival): Issue {
    var full := |s.rx.avail + arr.plain| >= BUF_SIZE;
    if s.rx.handshaking then
      var hs := TlsHandshake(sid, s.tx, arr);
      if arr.handshake != Done then hs
      else
        var read := AfterRead(sid, hs.tx, full, arr);
        Issue(read.tx, hs.reqs + read.reqs)
    else AfterRead(sid, s.tx, full, arr)
  }

  function OnRecvTx(sid: nat, s: Session, res: int, arr: Arrival): Issue {
    if res <= 0 || !arr.bioOk then Close(sid, s.tx, false) else OnFedTx(sid, s, arr)
  }

  // ----- the receiving half -----

  datatype Received = Received(pool: Pool, rx: Rx)

  function NewRx(): Rx {
    Rx(true, [], [], -1, [], [], [])
  }

  function Lend(p: Pool, id: BufId): Pool {
    p.(leases := p.leases + multiset{Lease(id, p.caps[id])})
  }

  function Drop(p: Pool, id: BufId): Pool {
    p.(dropped := p.dropped + {id})
  }

  /** `ProcessPacket` on the bytes of the pending buffer. */
  function Process(r: Rx, bytes: seq<Byte>): Rx {
    var parsed := Parse(bytes);
    r.(dispatched := r.dispatched + parsed.frames, tail := parsed.tail)
  }

  function Deliver(p: Pool, r: Rx, id: BufId, chunk: seq<Byte>): Received {
    if r.pending != -1 then
      var joined := r.tail + chunk;
      var grown := p.(caps := p.caps[r.pending := Max(p.caps[r.pending], |joined|)]);
      var lent := Lend(grown, id);
      var r1 := Process(r, joined);
      if r1.tail == [] then Received(Lend(lent, r.pending), r1.(pending := -1)) else Received(lent, r1)
    else
      var r1 := Process(r, chunk);
      if r1.tail == [] then Received(Lend(p, id), r1) else Received(p, r1.(pending := id))
  }

  function ReadText(p: Pool, r: Rx, id: BufId, plain: seq<Byte>): Received {
    var avail := r.avail + plain;
    var n := Min(BUF_SIZE, |avail|);
    var r1 := r.(handshaking := false, stream := r.stream + plain,
                 avail := avail[n..], drained := r.drained + avail[..n]);
    if n == 0 then Received(Drop(p, id), r1) else Deliver(p, r1, id, avail[..n])
  }

  function OnFedRx(p: Pool, r: Rx, id: BufId, arr: Arrival): Received {
    if r.handshaking && arr.handshake != Done then Received(Lend(p, id), r)
    else ReadText(p, r, id, arr.plain)
  }

  function OnRecvRx(p: Pool, r: Rx, res: int, arr: Arrival): Received {
    if res <= 0 then Received(p, r)
    else
      var taken := p.(leases := p.leases - multiset{arr.lease});
      if !arr.bioOk then Received(Drop(taken, arr.lease.id), r)
      else OnFedRx(taken, r, arr.lease.id, arr)
  }

  // ----- the worker -----

  function Init(): State {
    State(true, false, false, map[], {}, multiset{},
          Pool(seq(BUF_COUNT, _ => BUF_SIZE), FreshLeases(), {}))
  }

  /** What `RegisterBufRing` lends: every buffer of the pool. */
  function FreshLeases(): (ls: multiset<Lease>)
    ensures forall l :: ls[l] == if l.len == BUF_SIZE then 1 else 0
  {
    var all := set i: BufId | 0 <= i < BUF_COUNT :: Lease(i, BUF_SIZE);
    assert forall l: Lease :: l in all <==> l.len == BUF_SIZE by { EveryLease(all); }
    multiset(all)
  }

  lemma EveryLease(all: set<Lease>)
    requires all == set i: BufId | 0 <= i < BUF_COUNT :: Lease(i, BUF_SIZE)
    ensures forall l: Lease :: l in all <==> l.len == BUF_SIZE
  {
    forall l: Lease | l.len == BUF_SIZE
      ensures l in all
    {
      assert l == Lease(l.id, BUF_SIZE);
    }
  }

  /** `SendMessage`, `Accept` and `Stop` come from other threads or from handlers;
      `Complete` is the next completion of the loop. */
  predicate Enabled(s: State, e: Event) {
    && !s.exited
    && match e
       case Accept(sid) => sid !in s.used && !s.stopped
       case SendMessage(sid, _, _) => sid in s.live
       case ClearRunning => true
       case Stop => !s.running && !s.stopped
       case Complete(req, res, arr) =>
         && req in s.out
         && (req.Send? ==> res <= |req.copy|)
         && (req.Recv? && res > 0 ==> arr.lease in s.pool.leases && res <= arr.lease.len)
  }

  /** `Worker::StopSQE`. */
  function StopSqe(s: State): State {
    if s.running || s.live != map[] then s else s.(out := s.out + multiset{WorkerStop})
  }

  function Apply(s: State, sid: nat, rx: Rx, i: Issue): State {
    s.(live := s.live[sid := Session(rx, i.tx)], out := s.out + i.reqs)
  }

  /** `SessionManager::Close`, which starts the close of every session. */
  function CloseAll(s: State): State {
    s.(live := map sid | sid in s.live :: s.live[sid].(tx := StartClose(sid, s.live[sid].tx).tx),
       out := s.out + multiset(set sid | sid in s.live && !s.live[sid].tx.canceling :: RecvCancel(sid)))
  }

  function RemoveSession(s: State, sid: nat): State {
    if sid !in s.live then s
    else
      var p := s.live[sid].rx.pending;
      s.(live := s.live - {sid}, pool := if p == -1 then s.pool else Drop(s.pool, p))
  }

  /** `Worker::HandleCompletion`; a completion naming a removed session is skipped. */
  function Handle(s: State, req: Request, res: int, arr: Arrival): State
    requires Enabled(s, Complete(req, res, arr))
  {
    var s1 := if req.Recv? && res > 0 && arr.more then s else s.(out := s.out - multiset{req});
    match req
    case Recv(sid) =>
      if sid in s.live then
        var r := OnRecvRx(s.pool, s.live[sid].rx, res, arr);
        Apply(s1.(pool := r.pool), sid, r.rx, OnRecvTx(sid, s.live[sid], res, arr))
      else if res > 0 then
        s1.(pool := Drop(s.pool.(leases := s.pool.leases - multiset{arr.lease}), arr.lease.id))
      else s1
    case RecvCancel(sid) =>
      if sid in s.live then Apply(s1, sid, s.live[sid].rx, Close(sid, s.live[sid].tx, true)) else s1
    case SessionClose(sid) => StopSqe(RemoveSession(s1, sid))
    case Send(sid, copy) =>
      if sid in s.live then
        Apply(s1, sid, s.live[sid].rx, OnSend(sid, Observe(s.live[sid].tx, copy, res), res))
      else s1
    case WorkerStop => s1
  }

  function Step(s: State, e: Event): State
    requires Enabled(s, e)
  {
    match e
    case Accept(sid) =>
      s.(live := s.live[sid := Session(NewRx(), NewTx())], used := s.used + {sid}, out := s.out + multiset{Recv(sid)})
    case SendMessage(sid, cipher, ok) =>
      Apply(s, sid, s.live[sid].rx, SendCipher(sid, s.live[sid].tx, cipher, ok))
    case ClearRunning => s.(running := false)
    case Stop => StopSqe(CloseAll(s)).(stopped := true)
    case Complete(req, res, arr) =>
      if !s.running && s.live == map[] then s.(exited := true) else Handle(s, req, res, arr)
  }

  // ----- runs -----

  predicate Possible(s: State, es: seq<Event>)
    decreases |es|
  {
    es == [] || (Enabled(s, es[0]) && Possible(Step(s, es[0]), es[1..]))
  }

  function After(s: State, es: seq<Event>): State
    requires Possible(s, es)
    decreases |es|
  {
    if es == [] then s else After(Step(s, es[0]), es[1..])
  }
}
