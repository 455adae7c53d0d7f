/**
  `TLS`, `Session` and `Worker` as the program has them: objects whose methods update their
  fields. Each method is proved to do what the step functions of `Protocol` say, so what
  `Sending`, `Shutdown`, `Receiving` and `Delivery` prove about every run holds of them.
 */
module WorkerLoop {
  import opened Numbers
  import opened Framing
  import opened Buffers
  import P = Protocol
  import R = Receiving
  import Shutdown

  /** The TLS engine, reduced to what can be read out of it. */
  class Tls {
    ghost const owner: nat  // the session
    var handshaking: bool
    var plain: seq<Byte>  // decrypted and not yet read
    var wbio: seq<Byte>   // encrypted and not yet read

    constructor (ghost owner: nat)
      ensures handshaking && plain == [] && wbio == [] && this.owner == owner
    {
      handshaking, plain, wbio := true, [], [];
      this.owner := owner;
    }

    /** One successful `SSL_read` or `BIO_read`: the library fills, the caller counts. */
    static method Put(buf: Buffer, data: seq<Byte>)
      requires buf.Valid() && buf.readPos == 0 && |data| <= buf.GetRemainingSize()
      modifies buf
      ensures buf.Valid() && buf.readPos == 0 && |buf.mem| == old(|buf.mem|)
      ensures buf.Contents() == old(buf.Contents()) + data
    {
      buf.Deposit(data);
      buf.OnWrite(|data|);
    }

    /** Reads plaintext until the buffer is full or `SSL_read` has no more; each call may
        return any part of what fits. `full` is the case `SSL_ERROR_NONE`. */
    method GetRecvText(buf: Buffer) returns (n: nat, full: bool)
      requires buf.Valid() && buf.readPos == 0 && buf.writePos == 0
      modifies this`plain, buf
      ensures buf.Valid() && buf.readPos == 0 && |buf.mem| == old(|buf.mem|)
      ensures n == Min(old(|buf.mem|), old(|plain|)) && full == (old(|plain|) >= old(|buf.mem|))
      ensures buf.Contents() == old(plain)[..n] && plain == old(plain)[n..]
    {
      full := true;
      while buf.GetRemainingSize() > 0
        invariant buf.Valid() && buf.readPos == 0 && |buf.mem| == old(|buf.mem|)
        invariant |buf.Contents()| <= |old(plain)| && plain == old(plain)[|buf.Contents()|..]
        invariant buf.Contents() == old(plain)[..|buf.Contents()|]
        invariant full
        decreases |plain|
      {
        if plain == [] {
          full := false;
          break;
        }
        var room := Min(buf.GetRemainingSize(), |plain|);
        var k: nat :| 0 < k <= room;
        Put(buf, plain[..k]);
        plain := plain[k..];
      }
      n := buf.GetStoredSize();
    }

    method GetSecretText(buf: Buffer) returns (n: nat)
      requires buf.Valid() && buf.readPos == 0 && buf.writePos == 0
      modifies this`wbio, buf
      ensures buf.Valid() && n == Min(old(|buf.mem|), old(|wbio|))
      ensures buf.Contents() == old(wbio)[..n] && wbio == old(wbio)[n..]
    {
      while buf.GetRemainingSize() > 0
        invariant buf.Valid() && buf.readPos == 0 && |buf.mem| == old(|buf.mem|)
        invariant |buf.Contents()| <= |old(wbio)| && wbio == old(wbio)[|buf.Contents()|..]
        invariant buf.Contents() == old(wbio)[..|buf.Contents()|]
        decreases |wbio|
      {
        if wbio == [] {
          break;
        }
        var room := Min(buf.GetRemainingSize(), |wbio|);
        var k: nat :| 0 < k <= room;
        Put(buf, wbio[..k]);
        wbio := wbio[k..];
      }
      n := buf.GetStoredSize();
    }
  }

  class Session {
    const sid: nat
    const worker: Worker
    const tls: Tls
    var pendingRecvBufId: P.Pending
    var sendQueue: seq<Buffer>
    var sendCount: nat  // sixteen bits wide
    var canceling: bool
    var isSending: bool
    var closing: bool

    ghost var popped: nat        // send buffers that have left the queue
    ghost var Repr: set<Buffer>  // the buffers of the queue, and some that were

    // history
    ghost var produced: seq<Byte>
    ghost var accepted: seq<Byte>
    ghost var failed: bool
    ghost var closes: nat
    ghost var stream: seq<Byte>
    ghost var drained: seq<Byte>
    ghost var dispatched: seq<seq<Byte>>

    constructor (sid: nat, worker: Worker)
      ensures this.sid == sid && this.worker == worker && Repr == {} && fresh(tls) && tls.owner == sid && QueueValid()
      ensures sendQueue == [] && pendingRecvBufId == -1
      ensures TxView() == P.NewTx() && tls.handshaking && tls.plain == []
      ensures stream == [] && drained == [] && dispatched == []
    {
      this.sid, this.worker := sid, worker;
      tls := new Tls(sid);
      pendingRecvBufId := -1;
      sendQueue, sendCount := [], 0;
      canceling, isSending, closing := false, false, false;
      popped, Repr, produced, accepted, failed, closes := 0, {}, [], [], false, 0;
      stream, drained, dispatched := [], [], [];
    }

    ghost predicate QueueValid()
      reads this, Repr
    {
      && (forall b :: b in Repr ==> b.owner == sid)
      && forall i :: 0 <= i < |sendQueue| ==> sendQueue[i] in Repr && sendQueue[i].Valid() && sendQueue[i].serial == popped + i
    }

    ghost function Queue(): (q: seq<seq<Byte>>)
      requires QueueValid()
      reads this, Repr
      ensures |q| == |sendQueue| && forall i :: 0 <= i < |q| ==> q[i] == sendQueue[i].Contents()
    {
      seq(|sendQueue|, i requires 0 <= i < |sendQueue| reads this, Repr requires QueueValid() => sendQueue[i].Contents())
    }

    ghost function TxView(): P.Tx
      requires QueueValid()
      reads this, Repr, tls
    {
      P.Tx(tls.wbio, Queue(), isSending, sendCount, canceling, closing, produced, accepted, failed, closes)
    }

    /** The TLS library has encrypted something. */
    method WriteCipher(bytes: seq<Byte>)
      requires QueueValid()
      modifies this`produced, tls`wbio
      ensures QueueValid() && TxView() == P.Cipher(old(TxView()), bytes)
    {
      tls.wbio, produced := tls.wbio + bytes, produced + bytes;
    }

    method SendInternal()
      requires QueueValid()
      modifies this`sendCount, worker`out
      ensures QueueValid()
      ensures TxView() == P.SendInternal(sid, old(TxView())).tx
      ensures worker.out == old(worker.out) + P.SendInternal(sid, old(TxView())).reqs
    {
      if |sendQueue| == 0 {
        return;
      }
      var buffer := sendQueue[0];
      worker.out := worker.out + multiset{P.Send(sid, buffer.mem[buffer.readPos..buffer.writePos])};
      sendCount := (sendCount + 1) % P.COUNTER_RANGE;
    }

    method Push(buf: Buffer)
      requires QueueValid() && buf.Valid() && buf.owner == sid && buf.serial == popped + |sendQueue|
      modifies this`sendQueue, this`Repr
      ensures QueueValid() && sendQueue == old(sendQueue) + [buf] && Repr == old(Repr) + {buf}
      ensures TxView() == old(TxView()).(queue := old(TxView()).queue + [buf.Contents()])
    {
      sendQueue, Repr := sendQueue + [buf], Repr + {buf};
      assert Queue() == old(Queue()) + [buf.Contents()];
    }

    method StartSending()
      requires QueueValid()
      modifies this`isSending, this`sendCount, worker`out
      ensures QueueValid()
      ensures var t := old(TxView());
              var i := if t.isSending then P.Issue(t, multiset{}) else P.SendInternal(sid, t.(isSending := true));
              TxView() == i.tx && worker.out == old(worker.out) + i.reqs
    {
      hide P.SendInternal;
      if !isSending {
        isSending := true;
        assert TxView() == old(TxView()).(isSending := true);
        SendInternal();
      }
    }

    method FlushTLSWriteBuffer()
      requires QueueValid()
      modifies this`sendQueue, this`Repr, this`isSending, this`sendCount, tls`wbio, worker`out
      ensures QueueValid()
      ensures TxView() == P.Flush(sid, old(TxView())).tx
      ensures worker.out == old(worker.out) + P.Flush(sid, old(TxView())).reqs
      ensures fresh(Repr - old(Repr))
    {
      hide Queue;
      var buf := new Buffer(BUF_SIZE, sid, popped + |sendQueue|);
      var n := tls.GetSecretText(buf);
      if n <= 0 {
        return;
      }
      Push(buf);
      StartSending();
    }

    method StartClose()
      modifies this`canceling, worker`out
      requires QueueValid()
      ensures QueueValid()
      ensures TxView() == P.StartClose(sid, old(TxView())).tx
      ensures worker.out == old(worker.out) + P.StartClose(sid, old(TxView())).reqs
    {
      if canceling {
        return;
      }
      worker.out := worker.out + multiset{P.RecvCancel(sid)};
      canceling := true;
    }

    method Close(additionalCheck: bool)
      requires QueueValid()
      modifies this`closing, this`closes, worker`out
      ensures QueueValid()
      ensures TxView() == P.Close(sid, old(TxView()), additionalCheck).tx
      ensures worker.out == old(worker.out) + P.Close(sid, old(TxView()), additionalCheck).reqs
    {
      if additionalCheck {
        if !canceling {
          return;
        }
        if isSending {
          return;
        }
        if sendCount > 0 {
          return;
        }
      }
      if closing {
        return;
      }
      closing := true;
      worker.out := worker.out + multiset{P.SessionClose(sid)};
      closes := closes + 1;
    }

    method ReadFront(bytes: nat)
      requires QueueValid() && sendQueue != []
      modifies sendQueue[0]
      ensures QueueValid()
      ensures var q := old(Queue()); TxView() == old(TxView()).(queue := [q[0][Min(bytes, |q[0]|)..]] + q[1..])
    {
      hide Queue;
      ghost var before := Queue();
      sendQueue[0].OnRead(bytes);
      assert forall i :: 0 < i < |sendQueue| ==> sendQueue[i].serial != sendQueue[0].serial;
      assert forall i :: 0 < i < |sendQueue| ==> sendQueue[i].Contents() == before[i];
      assert Queue() == [sendQueue[0].Contents()] + before[1..];
    }

    method PopFront()
      requires QueueValid() && sendQueue != []
      modifies this`sendQueue, this`popped, this`isSending
      ensures QueueValid() && sendQueue == old(sendQueue)[1..]
      ensures var t := old(TxView()); TxView() == t.(queue := t.queue[1..], isSending := t.isSending && |t.queue| > 1)
    {
      hide Queue;
      sendQueue, popped := sendQueue[1..], popped + 1;
      assert Queue() == old(Queue())[1..];
      if |sendQueue| == 0 {
        isSending := false;
      }
    }

    /** The completed front is advanced, and popped when nothing of it is left. */
    method AdvanceFront(bytes: nat)
      requires QueueValid()
      modifies this`sendQueue, this`popped, this`isSending, Repr
      ensures QueueValid()
      ensures TxView() == P.Advance(old(TxView()), bytes)
    {
      if |sendQueue| != 0 {
        ReadFront(bytes);
        if sendQueue[0].GetStoredSize() == 0 {
          PopFront();
        }
      }
    }

    method ResumeSending()
      requires QueueValid()
      modifies this`sendCount, this`closing, this`closes, worker`out
      ensures QueueValid()
      ensures TxView() == P.Resume(sid, old(TxView())).tx
      ensures worker.out == old(worker.out) + P.Resume(sid, old(TxView())).reqs
    {
      SendInternal();
      ghost var next := P.SendInternal(sid, old(TxView()));
      Close(true);
      assert old(worker.out) + next.reqs + P.Close(sid, next.tx, true).reqs
          == old(worker.out) + (next.reqs + P.Close(sid, next.tx, true).reqs);
    }

    method CountCompletion(bytes: int, ghost copy: seq<Byte>)
      requires QueueValid() && bytes <= |copy|
      modifies this`sendCount, this`failed, this`accepted
      ensures QueueValid() && TxView() == P.CountDown(P.Observe(old(TxView()), copy, bytes))
    {
      if bytes <= 0 { failed := true; } else { accepted := accepted + copy[..bytes]; }
      sendCount := (sendCount + P.COUNTER_RANGE - 1) % P.COUNTER_RANGE;
    }

    method OnSend(bytes: int, ghost copy: seq<Byte>)
      requires QueueValid() && bytes <= |copy|
      modifies this`sendQueue, this`popped, this`isSending, this`sendCount, this`closing, this`closes, this`failed, this`accepted
      modifies worker`out, Repr
      ensures QueueValid()
      ensures TxView() == P.OnSend(sid, P.Observe(old(TxView()), copy, bytes), bytes).tx
      ensures worker.out == old(worker.out) + P.OnSend(sid, P.Observe(old(TxView()), copy, bytes), bytes).reqs
    {
      CountCompletion(bytes, copy);
      if bytes <= 0 {
        Close(false);
        return;
      }
      AdvanceFront(bytes);
      ResumeSending();
    }

    /** The frame of a message, built in a buffer of exactly its size. */
    method Serialize(m: Message) returns (buffer: Buffer)
      ensures fresh(buffer) && buffer.Valid() && buffer.Contents() == Frame(Body(m))
      ensures |buffer.mem| == |buffer.Contents()|
      ensures var c := buffer.Contents();
              && |c| == 4 + |m.payload| && c[4..] == m.payload
              && 256 * c[0] as int + c[1] as int == (2 + |m.payload|) % 0x1_0000
              && 256 * c[2] as int + c[3] as int == m.id % 0x1_0000
    {
      FrameHead(m);
      hide BigEndian;
      buffer := new Buffer(4 + |m.payload|);
      buffer.Write(BigEndian(2 + |m.payload|));
      buffer.Write(BigEndian(m.id));
      buffer.Write(m.payload);
      assert BigEndian(2 + |m.payload|) + BigEndian(m.id) + m.payload == Frame(Body(m));
    }

    /** `plain` is what is given to `SSL_write`, `cipher` what that makes of it, and `ok`
        that it did not fail for good. */
    method Send(m: Message, cipher: seq<Byte>, ok: bool) returns (plain: seq<Byte>)
      requires QueueValid()
      modifies this`sendQueue, this`Repr, this`isSending, this`sendCount, this`closing, this`closes, this`produced, tls`wbio, worker`out
      ensures QueueValid() && plain == Frame(Body(m))
      ensures TxView() == P.SendCipher(sid, old(TxView()), cipher, ok).tx
      ensures worker.out == old(worker.out) + P.SendCipher(sid, old(TxView()), cipher, ok).reqs
      ensures fresh(Repr - old(Repr))
    {
      hide P.Flush, P.Close;
      var buffer := Serialize(m);
      plain := buffer.mem[buffer.readPos..buffer.writePos];
      assert TxView() == old(TxView()) by { TxKept(); }
      WriteCipher(cipher);
      if !ok {
        Close(false);
        return;
      }
      FlushTLSWriteBuffer();
    }

    twostate lemma TxKept()
      requires old(QueueValid()) && unchanged(this, tls) && forall i :: 0 <= i < |sendQueue| ==> unchanged(sendQueue[i])
      ensures QueueValid() && TxView() == old(TxView())
    {
      assert Queue() == old(Queue());
    }

    // ----- receiving -----

    /** The tail of an incomplete frame is at the start of the pending buffer. */
    ghost predicate TailValid()
      reads this`pendingRecvBufId, worker`pool, worker.pool
    {
      worker.PoolValid() && (pendingRecvBufId != -1 ==> worker.pool[pendingRecvBufId].readPos == 0)
    }

    ghost function RxView(): P.Rx
      requires TailValid()
      reads this, worker`pool, worker.pool, tls
    {
      P.Rx(tls.handshaking, tls.plain, if pendingRecvBufId == -1 then [] else worker.pool[pendingRecvBufId].Contents(),
           pendingRecvBufId, stream, drained, dispatched)
    }

    /** The pending buffer, if there is one. */
    ghost function PendingBuffer(): set<Buffer>
      requires worker.PoolValid()
      reads this`pendingRecvBufId, worker`pool, worker.pool
    {
      if pendingRecvBufId == -1 then {} else {worker.pool[pendingRecvBufId]}
    }

    ghost predicate Valid()
      reads this, Repr, worker`pool, worker.pool
    {
      QueueValid() && TailValid()
    }

    ghost function View(): P.Session
      requires Valid()
      reads this, Repr, worker`pool, worker.pool, tls
    {
      P.Session(RxView(), TxView())
    }

    /** The body goes to the handler registered for its id. */
    method HandlePacket(body: seq<Byte>)
      modifies this`dispatched
      ensures dispatched == old(dispatched) + [body]
    {
      dispatched := dispatched + [body];
    }

    /** The loop over the complete frames of `data`. */
    method DispatchFrames(data: seq<Byte>) returns (offset: nat)
      modifies this`dispatched
      ensures offset <= |data| && data[offset..] == Parse(data).tail
      ensures dispatched == old(dispatched) + Parse(data).frames
    {
      hide Parse;
      offset := 0;
      assert data[0..] == data;
      while offset + 2 <= |data|
        invariant offset <= |data|
        invariant dispatched + Parse(data[offset..]).frames == old(dispatched) + Parse(data).frames
        invariant Parse(data[offset..]).tail == Parse(data).tail
        decreases |data| - offset
      {
        var packetLen := U16(data[offset..]);
        if offset + 2 + packetLen > |data| {
          break;
        }
        var end := offset + 2 + packetLen;
        ParseAt(data, offset, end);
        ghost var before, later := dispatched, Parse(data[end..]).frames;
        HandlePacket(data[offset + 2..end]);
        assert before + ([data[offset + 2..end]] + later) == dispatched + later;
        offset := end;
      }
      ParseIncomplete(data[offset..]);
    }

    /** Dispatches every complete frame in the buffer, in order, and keeps the tail: the
        greedy parse of its contents, provided nothing of it had been read. */
    method ProcessPacket(buffer: Buffer) returns (all: bool)
      requires buffer.Valid()
      modifies buffer, this`dispatched
      ensures buffer.Valid() && buffer.readPos == 0 && |buffer.mem| == old(|buffer.mem|)
      ensures var parsed := Parse(old(buffer.Contents()));
              && dispatched == old(dispatched) + parsed.frames
              && all == (parsed.tail == [])
              && (old(buffer.readPos) == 0 || all ==> buffer.Contents() == parsed.tail)
              && (all ==> buffer.writePos == 0)
    {
      var offset := DispatchFrames(buffer.mem[buffer.readPos..buffer.writePos]);
      if offset < buffer.GetStoredSize() {
        buffer.PreserveFrom(offset);
        return false;
      }
      buffer.Reset();
      return true;
    }

    /** No buffer that this session is working on is lent to the kernel. */
    ghost predicate InHand(id: P.BufId)
      requires worker.PoolValid()
      reads this`pendingRecvBufId, worker, worker.pool
    {
      && worker.LeasesValid() && pendingRecvBufId != id
      && forall l :: l in worker.leases ==> l.id != id && l.id != pendingRecvBufId
    }

    /** Nothing the sending half reads has changed. */
    twostate lemma TxSame()
      requires old(QueueValid()) && old(worker.PoolValid())
      requires unchanged(this`sendQueue, this`Repr, this`popped, this`isSending, this`sendCount, this`canceling, this`closing)
      requires unchanged(this`produced, this`accepted, this`failed, this`closes, tls`wbio, worker`pool)
      requires forall i :: 0 <= i < |sendQueue| ==> unchanged(sendQueue[i])
      ensures QueueValid() && TxView() == old(TxView())
    {
      assert forall i :: 0 <= i < |sendQueue| ==> sendQueue[i].Valid();
      assert Queue() == old(Queue());
    }

    /** The chunk in buffer `id` goes behind the pending tail, and the buffer back to the
        ring. The pending buffer may grow. */
    method AppendChunk(id: P.BufId, ghost p: P.Pool)
      requires TailValid() && InHand(id) && pendingRecvBufId != -1 && p == worker.PoolView()
      modifies worker`leases, worker.pool[id], worker.pool[pendingRecvBufId]
      ensures TailValid() && worker.LeasesValid()
      ensures forall l :: l in worker.leases ==> l.id != pendingRecvBufId
      ensures var joined := old(worker.pool[pendingRecvBufId].Contents()) + old(worker.pool[id].Contents());
              && worker.pool[pendingRecvBufId].Contents() == joined
              && worker.PoolView() == P.Lend(p.(caps := p.caps[pendingRecvBufId := Max(p.caps[pendingRecvBufId], |joined|)]), id)
    {
      hide Queue, TxView, QueueValid, RxView;
      GrowPending(id, p);
      worker.Lend(id);
    }

    method GrowPending(id: P.BufId, ghost p: P.Pool)
      requires TailValid() && InHand(id) && pendingRecvBufId != -1 && p == worker.PoolView()
      modifies worker.pool[pendingRecvBufId]
      ensures TailValid() && InHand(id)
      ensures var joined := old(worker.pool[pendingRecvBufId].Contents()) + worker.pool[id].Contents();
              && worker.pool[pendingRecvBufId].Contents() == joined
              && worker.PoolView() == p.(caps := p.caps[pendingRecvBufId := Max(p.caps[pendingRecvBufId], |joined|)])
    {
      hide Queue, TxView, QueueValid, RxView;
      worker.pool[pendingRecvBufId].Append(worker.pool[id]);
      ghost var q := worker.pool[pendingRecvBufId];
      assert worker.PoolView() == p.(caps := p.caps[pendingRecvBufId := |q.mem|]);
    }

    method ProcessPending(ghost p: P.Pool, ghost r: P.Rx)
      requires TailValid() && worker.LeasesValid() && pendingRecvBufId != -1
      requires forall l :: l in worker.leases ==> l.id != pendingRecvBufId
      requires p == worker.PoolView() && r == RxView()
      modifies this`pendingRecvBufId, this`dispatched, worker`leases, worker.pool[pendingRecvBufId]
      ensures TailValid() && worker.LeasesValid()
      ensures var r1 := P.Process(r, r.tail);
              if r1.tail == [] then RxView() == r1.(pending := -1) && worker.PoolView() == P.Lend(p, r.pending)
              else RxView() == r1 && worker.PoolView() == p
    {
      hide QueueValid, Queue, TxView;
      hide Parse;
      var all := ProcessPacket(worker.pool[pendingRecvBufId]);
      assert worker.PoolView() == p;
      if all {
        worker.Lend(pendingRecvBufId);
        pendingRecvBufId := -1;
      }
    }

    method DeliverPending(id: P.BufId, ghost p: P.Pool, ghost r: P.Rx)
      requires TailValid() && InHand(id) && pendingRecvBufId != -1
      requires p == worker.PoolView() && r == RxView()
      modifies this`pendingRecvBufId, this`dispatched, worker`leases, worker.pool[id], worker.pool[pendingRecvBufId]
      ensures TailValid() && worker.LeasesValid()
      ensures var d := P.Deliver(p, r, id, old(worker.pool[id].Contents())); RxView() == d.rx && worker.PoolView() == d.pool
    {
      ghost var chunk := worker.pool[id].Contents();
      AppendChunk(id, p);
      ProcessPending(worker.PoolView(), r.(tail := r.tail + chunk));
    }

    method DeliverFresh(id: P.BufId, ghost p: P.Pool, ghost r: P.Rx)
      requires TailValid() && InHand(id) && pendingRecvBufId == -1 && worker.pool[id].readPos == 0
      requires p == worker.PoolView() && r == RxView()
      modifies this`pendingRecvBufId, this`dispatched, worker`leases, worker.pool[id]
      ensures TailValid() && worker.LeasesValid()
      ensures var d := P.Deliver(p, r, id, old(worker.pool[id].Contents())); RxView() == d.rx && worker.PoolView() == d.pool
    {
      hide Parse;
      var all := ProcessPacket(worker.pool[id]);
      assert worker.PoolView() == p;
      if !all {
        pendingRecvBufId := id;
      } else {
        worker.Lend(id);
      }
    }

    /** The plaintext just read replaces what is left in the receive buffer, which is always
        large enough: the source's `Resize` is never called. */
    method StoreAndDeliver(id: P.BufId, buf: Buffer, n: nat, ghost p: P.Pool, ghost r: P.Rx)
      requires TailValid() && InHand(id) && buf.owner == NOBODY
      requires buf.Valid() && buf.readPos == 0 && 0 < n == |buf.Contents()| <= BUF_SIZE <= |worker.pool[id].mem|
      requires p == worker.PoolView() && r == RxView()
      modifies this`pendingRecvBufId, this`dispatched, worker`leases, worker.pool[id], PendingBuffer()
      ensures TailValid() && worker.LeasesValid()
      ensures var d := P.Deliver(p, r, id, old(buf.Contents())); RxView() == d.rx && worker.PoolView() == d.pool
    {
      var recvBuf := worker.pool[id];
      if recvBuf.GetBufferSize() < n {
        assert false;
      } else {
        recvBuf.Reset();
      }
      recvBuf.Write(buf.mem[..n]);
      assert recvBuf.Contents() == old(buf.Contents());
      assert worker.PoolView() == p;
      if pendingRecvBufId != -1 {
        DeliverPending(id, p, r);
      } else {
        DeliverFresh(id, p, r);
      }
    }

    method TLSHandshake(arr: P.Arrival) returns (done: bool)
      requires QueueValid()
      modifies this`sendQueue, this`Repr, this`isSending, this`sendCount, this`closing, this`closes, this`produced
      modifies tls`wbio, tls`handshaking, worker`out
      ensures QueueValid() && done == (arr.handshake == P.Done)
      ensures tls.handshaking == (old(tls.handshaking) && !done)
      ensures TxView() == P.TlsHandshake(sid, old(TxView()), arr).tx
      ensures worker.out == old(worker.out) + P.TlsHandshake(sid, old(TxView()), arr).reqs
      ensures fresh(Repr - old(Repr))
    {
      hide P.Flush, P.Close;
      ghost var t := P.Cipher(TxView(), arr.handshakeCipher);
      WriteCipher(arr.handshakeCipher);
      FlushTLSWriteBuffer();
      ghost var first := P.Flush(sid, t);
      done := HandshakeResult(arr.handshake);
      assert forall reqs :: old(worker.out) + first.reqs + reqs == old(worker.out) + (first.reqs + reqs);
    }

    method HandshakeResult(handshake: P.Handshake) returns (done: bool)
      requires QueueValid()
      modifies this`sendQueue, this`Repr, this`isSending, this`sendCount, this`closing, this`closes
      modifies tls`wbio, tls`handshaking, worker`out
      ensures QueueValid() && done == (handshake == P.Done)
      ensures tls.handshaking == (old(tls.handshaking) && !done)
      ensures var t := old(TxView());
              var i := if handshake == P.NeedsWrite then P.Flush(sid, t)
                       else if handshake == P.Broken then P.Close(sid, t, false)
                       else P.Issue(t, multiset{});
              TxView() == i.tx && worker.out == old(worker.out) + i.reqs
      ensures fresh(Repr - old(Repr))
    {
      done := handshake == P.Done;
      if done {
        tls.handshaking := false;
        assert TxView() == old(TxView());
      } else if handshake == P.NeedsWrite {
        FlushTLSWriteBuffer();
      } else if handshake == P.Broken {
        Close(false);
      }
    }

    /** What the error code of `GetRecvText` asks for. */
    method AfterRead(full: bool, arr: P.Arrival)
      requires QueueValid()
      modifies this`sendQueue, this`Repr, this`isSending, this`sendCount, this`closing, this`closes, this`produced, tls`wbio, worker`out
      ensures QueueValid()
      ensures TxView() == P.AfterRead(sid, old(TxView()), full, arr).tx
      ensures worker.out == old(worker.out) + P.AfterRead(sid, old(TxView()), full, arr).reqs
      ensures fresh(Repr - old(Repr))
    {
      WriteCipher(arr.readCipher);
      if full || arr.end == P.WantRead {
      } else if arr.end == P.WantWrite {
        FlushTLSWriteBuffer();
      } else {
        Close(false);
      }
    }

    method FetchText(arr: P.Arrival, ghost r: P.Rx) returns (buf: Buffer, n: nat, full: bool)
      requires TailValid() && r == RxView()
      modifies this`stream, this`drained, tls`plain
      ensures TailValid()
      ensures fresh(buf) && buf.owner == NOBODY && buf.Valid() && buf.readPos == 0
      ensures var avail := r.avail + arr.plain;
              && n == Min(BUF_SIZE, |avail|) && buf.Contents() == avail[..n] && full == (|avail| >= BUF_SIZE)
              && RxView() == r.(stream := r.stream + arr.plain, avail := avail[n..], drained := r.drained + avail[..n])
    {
      buf := new Buffer(BUF_SIZE);
      tls.plain, stream := tls.plain + arr.plain, stream + arr.plain;
      n, full := tls.GetRecvText(buf);
      drained := drained + buf.Contents();
    }

    method ReadText(arr: P.Arrival, ghost r: P.Rx, ghost t: P.Tx) returns (buf: Buffer, n: nat)
      requires Valid() && r == RxView() && t == TxView()
      modifies this`sendQueue, this`Repr, this`isSending, this`sendCount, this`closing, this`closes, this`produced
      modifies this`stream, this`drained, tls, worker`out
      ensures Valid() && fresh(buf) && buf.owner == NOBODY && buf.Valid() && buf.readPos == 0
      ensures var avail := r.avail + arr.plain;
              && n == Min(BUF_SIZE, |avail|) && buf.Contents() == avail[..n]
              && RxView() == r.(stream := r.stream + arr.plain, avail := avail[n..], drained := r.drained + avail[..n])
      ensures var i := P.AfterRead(sid, t, |r.avail + arr.plain| >= BUF_SIZE, arr);
              TxView() == i.tx && worker.out == old(worker.out) + i.reqs
      ensures fresh(Repr - old(Repr))
    {
      var full;
      buf, n, full := FetchText(arr, r);
      TxSame();
      AfterRead(full, arr);
    }

    /** A buffer that the code hands to nobody. */
    method LoseBuffer(id: P.BufId, ghost p: P.Pool, ghost r: P.Rx, ghost t: P.Tx)
      requires Valid() && worker.LeasesValid() && p == worker.PoolView() && r == RxView() && t == TxView()
      modifies worker`dropped
      ensures Valid() && worker.LeasesValid() && worker.PoolView() == P.Drop(p, id) && RxView() == r && TxView() == t
    {
      worker.dropped := worker.dropped + {id};
      assert worker.PoolView().caps == p.caps;
      TxSame();
    }

    /** What was read goes through the pool buffer into `ProcessPacket`; without any the
        buffer is lost. */
    method DeliverText(id: P.BufId, buf: Buffer, n: nat, ghost p: P.Pool, ghost r: P.Rx, ghost t: P.Tx)
      requires Valid() && InHand(id) && buf.owner == NOBODY && buf.Valid() && buf.readPos == 0
      requires n == |buf.Contents()| <= BUF_SIZE <= |worker.pool[id].mem|
      requires p == worker.PoolView() && r == RxView() && t == TxView()
      modifies this`pendingRecvBufId, this`dispatched, worker`leases, worker`dropped, worker.pool[id], PendingBuffer()
      ensures Valid() && worker.LeasesValid() && TxView() == t
      ensures var d := if n == 0 then P.Received(P.Drop(p, id), r) else P.Deliver(p, r, id, old(buf.Contents()));
              RxView() == d.rx && worker.PoolView() == d.pool
    {
      hide P.Deliver;
      if n > 0 {
        StoreAndDeliver(id, buf, n, p, r);
        TxSame();
      } else {
        LoseBuffer(id, p, r, t);
      }
    }

    /** The received bytes go to the TLS library piece by piece; `ok` says that it takes
        them all. */
    method FeedTls(recvBuf: Buffer, ok: bool) returns (fed: bool)
      requires recvBuf.Valid() && recvBuf.Contents() != []
      modifies recvBuf`readPos, recvBuf`writePos
      ensures recvBuf.Valid() && fed == ok
      ensures fed ==> recvBuf.Contents() == []
    {
      while recvBuf.GetStoredSize() > 0
        invariant recvBuf.Valid() && (!ok ==> recvBuf.Contents() != [])
        decreases recvBuf.GetStoredSize()
      {
        var stored := recvBuf.GetStoredSize();
        var least, most := if ok then 1 else -1, if ok then stored else stored - 1;
        var written: int :| least <= written <= most;
        if written <= 0 {
          return false;
        }
        recvBuf.OnRead(written);
      }
      return true;
    }

    method ReadAndDeliver(id: P.BufId, arr: P.Arrival, ghost p: P.Pool, ghost r: P.Rx, ghost t: P.Tx)
      requires Valid() && InHand(id) && BUF_SIZE <= |worker.pool[id].mem|
      requires p == worker.PoolView() && r == RxView() && t == TxView() && !r.handshaking
      modifies this, tls, worker`out, worker`leases, worker`dropped, worker.pool[id], PendingBuffer()
      ensures Valid() && worker.LeasesValid()
      ensures var o := P.ReadText(p, r, id, arr.plain); RxView() == o.rx && worker.PoolView() == o.pool
      ensures var i := P.AfterRead(sid, t, |r.avail + arr.plain| >= BUF_SIZE, arr);
              TxView() == i.tx && worker.out == old(worker.out) + i.reqs
      ensures fresh(Repr - old(Repr))
    {
      hide P.AfterRead, P.Deliver;
      var buf, n := ReadText(arr, r, t);
      assert worker.PoolView() == p;
      DeliverText(id, buf, n, p, RxView(), TxView());
    }

    method TryHandshake(id: P.BufId, arr: P.Arrival, ghost p: P.Pool, ghost r: P.Rx, ghost t: P.Tx) returns (done: bool)
      requires Valid() && InHand(id)
      requires p == worker.PoolView() && r == RxView() && t == TxView() && r.handshaking
      modifies this, tls, worker`out, worker`leases, worker.pool[id]
      ensures Valid() && worker.LeasesValid()
      ensures done == (arr.handshake == P.Done) && |worker.pool[id].mem| == old(|worker.pool[id].mem|)
      ensures done ==> InHand(id) && worker.PoolView() == p && RxView() == r.(handshaking := false)
      ensures !done ==> worker.PoolView() == P.Lend(p, id) && RxView() == r
      ensures var i := P.TlsHandshake(sid, t, arr); TxView() == i.tx && worker.out == old(worker.out) + i.reqs
      ensures fresh(Repr - old(Repr))
    {
      hide Queue;
      hide P.TlsHandshake, QueueValid, TxView;
      done := TLSHandshake(arr);
      if !done {
        GiveBack(id, p, r, TxView());
      }
    }

    /** The buffer goes back unused. */
    method GiveBack(id: P.BufId, ghost p: P.Pool, ghost r: P.Rx, ghost t: P.Tx)
      requires Valid() && InHand(id) && p == worker.PoolView() && r == RxView() && t == TxView()
      modifies worker`leases, worker.pool[id]
      ensures Valid() && worker.LeasesValid() && worker.PoolView() == P.Lend(p, id) && RxView() == r && TxView() == t
    {
      worker.Lend(id);
      TxSame();
    }

    lemma ReadEndsHandshake(id: P.BufId, arr: P.Arrival, p: P.Pool, r: P.Rx)
      ensures P.ReadText(p, r, id, arr.plain) == P.ReadText(p, r.(handshaking := false), id, arr.plain)
    {
    }

    /** `OnRecv` once the TLS library has taken the bytes. */
    method OnFed(id: P.BufId, arr: P.Arrival, ghost p: P.Pool, ghost s: P.Session)
      requires Valid() && InHand(id) && BUF_SIZE <= |worker.pool[id].mem|
      requires p == worker.PoolView() && s == View()
      modifies this, tls, worker`out, worker`leases, worker`dropped, worker.pool[id], PendingBuffer()
      ensures Valid() && worker.LeasesValid()
      ensures var o := P.OnFedRx(p, s.rx, id, arr); RxView() == o.rx && worker.PoolView() == o.pool
      ensures var i := P.OnFedTx(sid, s, arr); TxView() == i.tx && worker.out == old(worker.out) + i.reqs
      ensures fresh(Repr - old(Repr))
    {
      hide Queue, QueueValid, TxView, P.ReadText, P.AfterRead, P.TlsHandshake;
      if tls.handshaking {
        var done := TryHandshake(id, arr, p, s.rx, s.tx);
        if !done {
          return;
        }
        ghost var hs := P.TlsHandshake(sid, s.tx, arr);
        ReadEndsHandshake(id, arr, p, s.rx);
        ReadAndDeliver(id, arr, p, RxView(), TxView());
        ghost var read := P.AfterRead(sid, hs.tx, |s.rx.avail + arr.plain| >= BUF_SIZE, arr);
        assert old(worker.out) + hs.reqs + read.reqs == old(worker.out) + (hs.reqs + read.reqs);
      } else {
        ReadAndDeliver(id, arr, p, s.rx, s.tx);
      }
    }

    /** Nothing the receiving half and the pool view read has changed. */
    twostate lemma RxSame()
      requires old(TailValid())
      requires unchanged(this`pendingRecvBufId, this`stream, this`drained, this`dispatched, tls`handshaking, tls`plain)
      requires unchanged(worker`pool, worker`leases, worker`dropped)
      requires forall i :: 0 <= i < |worker.pool| ==> unchanged(worker.pool[i])
      ensures TailValid() && RxView() == old(RxView()) && worker.PoolView() == old(worker.PoolView())
      ensures old(worker.LeasesValid()) ==> worker.LeasesValid()
    {
      assert forall i :: 0 <= i < |worker.pool| ==> worker.pool[i].Valid();
      assert worker.PoolView().caps == old(worker.PoolView()).caps;
    }

    /** `Close(false)` in the middle of a receive. */
    method CloseNow(ghost p: P.Pool, ghost s: P.Session)
      requires Valid() && worker.LeasesValid() && p == worker.PoolView() && s == View()
      modifies this`closing, this`closes, worker`out
      ensures Valid() && worker.LeasesValid() && worker.PoolView() == p && RxView() == s.rx
      ensures var i := P.Close(sid, s.tx, false); TxView() == i.tx && worker.out == old(worker.out) + i.reqs
    {
      Close(false);
      RxSame();
    }

    /** The TLS library refused the bytes: the session closes and the buffer is lost. */
    method Refuse(id: P.BufId, ghost p: P.Pool, ghost s: P.Session)
      requires Valid() && worker.LeasesValid() && p == worker.PoolView() && s == View()
      modifies this`closing, this`closes, worker`out, worker`dropped
      ensures Valid() && worker.LeasesValid() && worker.PoolView() == P.Drop(p, id) && RxView() == s.rx
      ensures var i := P.Close(sid, s.tx, false); TxView() == i.tx && worker.out == old(worker.out) + i.reqs
    {
      CloseNow(p, s);
      LoseBuffer(id, p, s.rx, TxView());
    }

    /** A receive completion; `bytes` is what the kernel wrote into the leased buffer. */
    method OnRecv(res: int, bytes: seq<Byte>, arr: P.Arrival, ghost p: P.Pool, ghost s: P.Session)
      requires Valid() && worker.LeasesValid() && p == worker.PoolView() && s == View()
      requires R.LeasesOk(p) && (s.rx.pending != -1 ==> !R.Lent(p, s.rx.pending))
      requires res > 0 ==> arr.lease in p.leases && |bytes| == res <= arr.lease.len
      modifies this, tls, worker`out, worker`leases, worker`dropped, worker.pool[arr.lease.id], PendingBuffer()
      ensures Valid() && worker.LeasesValid()
      ensures var o := P.OnRecvRx(p, s.rx, res, arr); RxView() == o.rx && worker.PoolView() == o.pool
      ensures var i := P.OnRecvTx(sid, s, res, arr); TxView() == i.tx && worker.out == old(worker.out) + i.reqs
      ensures fresh(Repr - old(Repr))
    {
      hide P.OnFedTx, P.OnFedRx, P.Close, QueueValid, TxView, InHand, Worker.PoolView, Worker.LeasesValid;
      if res <= 0 {
        CloseNow(p, s);
        return;
      }
      var fed := Feed(bytes, arr, p, s);
      if !fed {
        Refuse(arr.lease.id, R.Taken(p, arr.lease), s);
      } else {
        OnFed(arr.lease.id, arr, R.Taken(p, arr.lease), s);
      }
    }

    /** The kernel's part, and then all of the received bytes into the TLS library. */
    method Feed(bytes: seq<Byte>, arr: P.Arrival, ghost p: P.Pool, ghost s: P.Session) returns (fed: bool)
      requires Valid() && worker.LeasesValid() && p == worker.PoolView() && s == View()
      requires R.LeasesOk(p) && (s.rx.pending != -1 ==> !R.Lent(p, s.rx.pending))
      requires arr.lease in p.leases && 0 < |bytes| <= arr.lease.len
      modifies worker`leases, worker.pool[arr.lease.id]
      ensures Valid() && InHand(arr.lease.id) && View() == s && fed == arr.bioOk
      ensures worker.PoolView() == R.Taken(p, arr.lease) && BUF_SIZE <= |worker.pool[arr.lease.id].mem|
    {
      TakeBuffer(bytes, arr.lease, p, s.rx);
      label Filled:
      fed := FeedTls(worker.pool[arr.lease.id], arr.bioOk);
      InHandStays@Filled(arr.lease.id);
      TxSame();
    }

    method TakeBuffer(bytes: seq<Byte>, l: P.Lease, ghost p: P.Pool, ghost r: P.Rx)
      requires TailValid() && worker.LeasesValid() && p == worker.PoolView() && r == RxView()
      requires R.LeasesOk(p) && (r.pending != -1 ==> !R.Lent(p, r.pending))
      requires l in p.leases && 0 < |bytes| <= l.len
      modifies worker`leases, worker.pool[l.id]
      ensures TailValid() && InHand(l.id) && RxView() == r && worker.PoolView() == R.Taken(p, l)
      ensures worker.pool[l.id].Contents() == bytes && BUF_SIZE <= |worker.pool[l.id].mem|
    {
      hide RxView, Worker.PoolView, Worker.LeasesValid, R.LeasesOk, R.Taken, InHand;
      KernelFills(bytes, l, p, r);
      label Filled:
      worker.pool[l.id].OnWrite(|bytes|);
      InHandStays@Filled(l.id);
    }

    method KernelFills(bytes: seq<Byte>, l: P.Lease, ghost p: P.Pool, ghost r: P.Rx)
      requires TailValid() && worker.LeasesValid() && p == worker.PoolView() && r == RxView()
      requires R.LeasesOk(p) && (r.pending != -1 ==> !R.Lent(p, r.pending))
      requires l in p.leases && 0 < |bytes| <= l.len
      modifies worker`leases, worker.pool[l.id]
      ensures TailValid() && InHand(l.id) && RxView() == r && worker.PoolView() == R.Taken(p, l)
      ensures worker.pool[l.id].readPos == 0 && worker.pool[l.id].writePos == 0
      ensures |bytes| <= |worker.pool[l.id].mem| && worker.pool[l.id].mem[..|bytes|] == bytes && BUF_SIZE <= |worker.pool[l.id].mem|
    {
      hide R.LeasesOk;
      LeaseFacts(l, p, r);
      worker.KernelRecv(l, bytes);
    }

    lemma LeaseFacts(l: P.Lease, p: P.Pool, r: P.Rx)
      requires TailValid() && p == worker.PoolView() && r == RxView() && R.LeasesOk(p) && l in p.leases
      requires r.pending != -1 ==> !R.Lent(p, r.pending)
      ensures l.len == |worker.pool[l.id].mem| && l.len >= BUF_SIZE && r.pending != l.id
      ensures forall x :: x in R.Taken(p, l).leases ==> x.id != l.id && x.id != r.pending
    {
      assert forall x :: x in p.leases ==> x == P.Lease(x.id, p.caps[x.id]);
    }

    /** Moving the positions of the buffer in hand disturbs nothing else. */
    twostate lemma InHandStays(id: P.BufId)
      requires old(TailValid()) && old(InHand(id))
      requires unchanged(this, tls, worker) && worker.pool[id].Valid() && worker.pool[id].mem == old(worker.pool[id].mem)
      requires forall i :: 0 <= i < |worker.pool| && i != id ==> unchanged(worker.pool[i])
      ensures TailValid() && InHand(id) && RxView() == old(RxView()) && worker.PoolView() == old(worker.PoolView())
    {
      assert worker.PoolView().caps == old(worker.PoolView()).caps;
    }

    // ----- completions, seen from the whole session -----

    /** How the session stands: what it looks like, and what is at the worker. */
    ghost predicate Is(s: P.Session, p: P.Pool, out: multiset<P.Request>)
      reads this, Repr, worker`pool, worker`leases, worker`dropped, worker`out, worker.pool, tls
    {
      Valid() && worker.LeasesValid() && View() == s && worker.PoolView() == p && worker.out == out
    }

    lemma Standing(s: P.Session, p: P.Pool, out: multiset<P.Request>)
      requires Is(s, p, out)
      ensures worker.PoolValid() && worker.PoolView() == p && worker.out == out
    {
    }

    lemma PoolNotMine()
      requires Valid()
      ensures forall i :: 0 <= i < |worker.pool| ==> worker.pool[i] !in Repr
    {
    }

    method CompleteSend(res: int, copy: seq<Byte>, ghost s: P.Session, ghost p: P.Pool, ghost out: multiset<P.Request>)
      requires Is(s, p, out) && res <= |copy|
      modifies this, tls, Repr, worker`out
      ensures var i := P.OnSend(sid, P.Observe(s.tx, copy, res), res);
              Is(P.Session(s.rx, i.tx), p, out - multiset{P.Send(sid, copy)} + i.reqs)
      ensures fresh(Repr - old(Repr))
    {
      hide P.OnSend, P.Observe, QueueValid, TailValid, TxView, RxView, Worker.PoolView, Worker.PoolValid, Worker.LeasesValid;
      PoolNotMine();
      worker.out := worker.out - multiset{P.Send(sid, copy)};
      OnSend(res, copy);
      RxSame();
    }

    /** A request of this session is no longer outstanding. */
    method Completed(req: P.Request, ghost s: P.Session, ghost p: P.Pool, ghost out: multiset<P.Request>)
      requires Is(s, p, out)
      modifies worker`out
      ensures Is(s, p, out - multiset{req})
    {
      hide Queue, QueueValid, TailValid, TxView, RxView, Worker.PoolView, Worker.PoolValid, Worker.LeasesValid;
      worker.out := worker.out - multiset{req};
    }

    method CompleteCancel(ghost s: P.Session, ghost p: P.Pool, ghost out: multiset<P.Request>)
      requires Is(s, p, out)
      modifies this`closing, this`closes, worker`out
      ensures var i := P.Close(sid, s.tx, true);
              Is(P.Session(s.rx, i.tx), p, out - multiset{P.RecvCancel(sid)} + i.reqs)
    {
      hide P.Close, Queue, QueueValid, TailValid, TxView, RxView, Worker.PoolView, Worker.PoolValid, Worker.LeasesValid;
      Completed(P.RecvCancel(sid), s, p, out);
      label Taken:
      Close(true);
      RxSame@Taken();
    }

    method CompleteRecv(res: int, bytes: seq<Byte>, arr: P.Arrival, ghost s: P.Session, ghost p: P.Pool, ghost out: multiset<P.Request>)
      requires Is(s, p, out)
      requires R.LeasesOk(p) && (s.rx.pending != -1 ==> !R.Lent(p, s.rx.pending))
      requires arr.lease in p.leases && 0 < |bytes| == res <= arr.lease.len
      modifies this, tls, Repr, worker`out, worker`leases, worker`dropped, worker.pool[arr.lease.id], PendingBuffer()
      ensures var o := P.OnRecvRx(p, s.rx, res, arr); var i := P.OnRecvTx(sid, s, res, arr);
              Is(P.Session(o.rx, i.tx), o.pool, (if arr.more then out else out - multiset{P.Recv(sid)}) + i.reqs)
      ensures fresh(Repr - old(Repr))
    {
      hide P.OnRecvRx, P.OnRecvTx;
      if !arr.more {
        worker.out := worker.out - multiset{P.Recv(sid)};
      }
      OnRecv(res, bytes, arr, p, s);
    }

    /** A receive that ended: `OnRecv` with no data. */
    method CompleteRecvEnd(res: int, arr: P.Arrival, ghost s: P.Session, ghost p: P.Pool, ghost out: multiset<P.Request>)
      requires Is(s, p, out) && res <= 0
      modifies this`closing, this`closes, worker`out
      ensures var i := P.OnRecvTx(sid, s, res, arr);
              Is(P.Session(s.rx, i.tx), p, out - multiset{P.Recv(sid)} + i.reqs)
    {
      hide P.Close;
      worker.out := worker.out - multiset{P.Recv(sid)};
      CloseNow(p, s);
    }

    method StartCloseNow(ghost s: P.Session, ghost p: P.Pool, ghost out: multiset<P.Request>)
      requires Is(s, p, out)
      modifies this`canceling, worker`out
      ensures var i := P.StartClose(sid, s.tx); Is(s.(tx := i.tx), p, out + i.reqs)
    {
      StartClose();
      RxSame();
    }

    method SendNow(m: Message, cipher: seq<Byte>, ok: bool, ghost s: P.Session, ghost p: P.Pool, ghost out: multiset<P.Request>)
      returns (plain: seq<Byte>)
      requires Is(s, p, out)
      modifies this, tls, Repr, worker`out
      ensures plain == Frame(Body(m))
      ensures var i := P.SendCipher(sid, s.tx, cipher, ok); Is(P.Session(s.rx, i.tx), p, out + i.reqs)
      ensures fresh(Repr - old(Repr))
    {
      hide P.SendCipher;
      plain := Send(m, cipher, ok);
      RxSame();
    }
  }

  class Worker {
    var out: multiset<P.Request>     // requests the kernel has not completed
    var pool: seq<Buffer>
    var leases: multiset<P.Lease>    // the buffer ring
    var sessions: map<nat, Session>  // the embedded `SessionManager`
    var running: bool
    var exited: bool                 // the loop has ended

    // history
    ghost var live: map<nat, P.Session>  // how the sessions look
    ghost var dropped: set<P.BufId>
    ghost var stopped: bool
    ghost var used: set<nat>

    constructor ()
      ensures Valid() && View() == P.Init() && fresh(pool) && sessions == map[]
    {
      out, pool, leases, sessions := multiset{}, [], multiset{}, map[];
      running, exited := true, false;
      live, dropped, stopped, used := map[], {}, false, {};
      new;
      RegisterBufRing();
      assert PoolView().caps == P.Init().pool.caps;
    }

    /** Fills the pool and lends every buffer of it to the ring. */
    method RegisterBufRing()
      requires pool == [] && leases == multiset{}
      modifies this`pool, this`leases
      ensures PoolValid() && LeasesValid() && leases == P.FreshLeases()
      ensures fresh(pool) && forall i :: 0 <= i < |pool| ==> |pool[i].mem| == BUF_SIZE
    {
      while |pool| < P.BUF_COUNT
        invariant |pool| <= P.BUF_COUNT && leases == multiset{} && fresh(pool)
        invariant forall i :: 0 <= i < |pool| ==> pool[i].Valid() && pool[i].owner == POOL && pool[i].serial == i
        invariant forall i :: 0 <= i < |pool| ==> |pool[i].mem| == BUF_SIZE && pool[i].readPos == 0 && pool[i].writePos == 0
      {
        var buffer := new Buffer(BUF_SIZE, POOL, |pool|);
        pool := pool + [buffer];
      }
      LendAll();
    }

    method LendAll()
      requires PoolValid() && leases == multiset{}
      requires forall i :: 0 <= i < |pool| ==> |pool[i].mem| == BUF_SIZE
      modifies this`leases
      ensures leases == P.FreshLeases()
    {
      var i := 0;
      while i < P.BUF_COUNT
        invariant 0 <= i <= P.BUF_COUNT
        invariant forall l: P.Lease :: leases[l] == if l.id < i && l.len == BUF_SIZE then 1 else 0
      {
        leases := leases + multiset{P.Lease(i, pool[i].GetBufferSize())};
        i := i + 1;
      }
    }

    ghost predicate PoolValid()
      reads this`pool, pool
    {
      && |pool| == P.BUF_COUNT
      && (forall i :: 0 <= i < |pool| ==> pool[i].Valid() && pool[i].owner == POOL && pool[i].serial == i)
    }

    /** The kernel writes from the start of a lent buffer. */
    ghost predicate LeasesValid()
      requires PoolValid()
      reads this`pool, this`leases, pool
    {
      forall l :: l in leases ==> pool[l.id].readPos == 0 && pool[l.id].writePos == 0
    }

    ghost function PoolView(): P.Pool
      requires PoolValid()
      reads this`pool, this`leases, this`dropped, pool
    {
      var bufs := pool;
      P.Pool(seq(P.BUF_COUNT, i requires 0 <= i < P.BUF_COUNT <= |bufs| reads bufs => |bufs[i].mem|), leases, dropped)
    }

    /** Resets a buffer and adds it to the buffer ring again. */
    method Lend(id: P.BufId)
      requires PoolValid() && LeasesValid()
      modifies this`leases, pool[id]
      ensures PoolValid() && LeasesValid() && PoolView() == P.Lend(old(PoolView()), id)
    {
      ghost var before := PoolView();
      pool[id].Reset();
      assert PoolView().caps == before.caps;
      leases := leases + multiset{P.Lease(id, pool[id].GetBufferSize())};
    }

    /** The kernel's part of a receive: it takes a lent buffer and fills its start. */
    method KernelRecv(l: P.Lease, bytes: seq<Byte>)
      requires PoolValid() && LeasesValid() && l in leases && |bytes| <= |pool[l.id].mem|
      modifies this`leases, pool[l.id]
      ensures PoolValid() && LeasesValid() && PoolView() == R.Taken(old(PoolView()), l)
      ensures pool[l.id].readPos == 0 && pool[l.id].writePos == 0
      ensures |pool[l.id].mem| == old(|pool[l.id].mem|) && pool[l.id].mem[..|bytes|] == bytes
    {
      pool[l.id].Deposit(bytes);
      leases := leases - multiset{l};
    }

    // ----- the sessions and the loop -----

    /** Session `k` is its own: its objects carry its id, and it looks as recorded. */
    ghost predicate SessionOk(k: nat)
      requires k in sessions && k in live
      reads this, sessions[k], sessions[k].tls, sessions[k].Repr, pool
    {
      var s := sessions[k];
      s.sid == k && s.worker == this && s.tls.owner == k && s.Valid() && s.View() == live[k]
    }

    ghost predicate Valid()
      reads *
    {
      && PoolValid() && LeasesValid() && sessions.Keys == live.Keys
      && forall k :: k in sessions ==> SessionOk(k)
    }

    ghost function View(): P.State
      requires PoolValid()
      reads this, pool
    {
      P.State(running, stopped, exited, live, used, out, PoolView())
    }

    /** The objects of session `k` are as they were. */
    twostate predicate Still(k: nat)
      requires old(k in sessions) && k in sessions && sessions[k] == old(sessions[k])
      reads *
    {
      unchanged(sessions[k], sessions[k].tls) && forall b :: b in old(sessions[k].Repr) ==> unchanged(b)
    }

    /** Then, if its pending buffer is too, it is still in order. */
    twostate lemma Kept(k: nat)
      requires old(k in sessions && k in live && PoolValid() && SessionOk(k))
      requires k in sessions && k in live && sessions[k] == old(sessions[k]) && live[k] == old(live[k])
      requires unchanged(this`pool) && PoolValid() && Still(k)
      requires live[k].rx.pending != -1 ==> unchanged(pool[live[k].rx.pending])
      ensures SessionOk(k)
    {
      sessions[k].TxKept();
    }

    /** What a session may be asked, how it stands, and that its objects are its own. */
    lemma Open(k: nat)
      requires Valid() && k in sessions
      ensures PoolValid() && live.Keys == sessions.Keys && sessions[k].worker == this && sessions[k].sid == k
      ensures sessions[k].Is(live[k], PoolView(), out)
      ensures forall i :: 0 <= i < |pool| ==> pool[i] !in sessions[k].Repr
      ensures forall j :: j in sessions && j != k ==>
                sessions[j] != sessions[k] && sessions[j].tls != sessions[k].tls && sessions[j].Repr !! sessions[k].Repr
    {
      assert SessionOk(k);
      forall j | j in sessions && j != k
        ensures sessions[j] != sessions[k] && sessions[j].tls != sessions[k].tls && sessions[j].Repr !! sessions[k].Repr
      {
        assert SessionOk(j);
      }
    }

    /** The objects of every session but `sid`, and its pending buffer, are as they were. */
    twostate predicate OthersStill(sid: nat)
      reads *
    {
      && ObjectsStill(sid)
      && forall k :: k in sessions && k != sid && old(k in live && 0 <= live[k].rx.pending < |pool|) ==>
           unchanged(pool[old(live[k].rx.pending)])
    }

    twostate predicate ObjectsStill(sid: nat)
      reads *
    {
      && sessions == old(sessions) && pool == old(pool)
      && forall k :: k in sessions && k != sid ==> Still(k)
    }

    /** A session is one that was there, with its own buffers and new ones, or it is new. */
    twostate predicate Grown()
      reads *
    {
      && pool == old(pool)
      && forall k :: k in sessions ==>
           if k in old(sessions) && sessions[k] == old(sessions[k]) then OwnGrew(k)
           else fresh(sessions[k]) && fresh(sessions[k].tls) && fresh(sessions[k].Repr)
    }

    /** Its session got hold of new buffers only. */
    twostate predicate OwnGrew(sid: nat)
      requires sid in sessions && sid in old(sessions)
      reads *
    {
      fresh(sessions[sid].Repr - old(sessions[sid].Repr))
    }

    twostate lemma NoneGrew()
      requires pool == old(pool) && forall k :: k in sessions ==> k in old(sessions) && sessions[k] == old(sessions[k])
      requires forall k :: k in sessions ==> unchanged(sessions[k])
      ensures Grown()
    {
    }

    twostate lemma NewGrew(sid: nat)
      requires pool == old(pool) && sid in sessions && sessions == old(sessions)[sid := sessions[sid]]
      requires fresh(sessions[sid]) && fresh(sessions[sid].tls) && sessions[sid].Repr == {}
      requires forall k :: k in old(sessions) ==> unchanged(old(sessions[k]))
      ensures Grown()
    {
    }

    twostate lemma OneGrew(sid: nat)
      requires sid in sessions && OthersStill(sid) && OwnGrew(sid)
      ensures Grown()
    {
    }

    /** Session `sid` has acted and its record is up to date; the rest was left alone. */
    twostate lemma OneActed(sid: nat, new s: P.State, new x: P.Session, new p: P.Pool, new o: multiset<P.Request>)
      requires old(Valid()) && old(View()) == s && sid in sessions && OthersStill(sid)
      requires live == s.live[sid := x] && sessions[sid].worker == this && sessions[sid].Is(x, p, o)
      requires unchanged(this`running, this`exited, this`stopped, this`used)
      ensures Valid()
      ensures View() == s.(live := s.live[sid := x], out := o, pool := p)
    {
      hide Session.Valid, Session.View, Session.QueueValid, Session.TailValid, Still;
      assert old(SessionOk(sid));
      sessions[sid].Standing(x, p, o);
      forall k | k in sessions && k != sid
        ensures SessionOk(k)
      {
        assert old(SessionOk(k));
        Kept(k);
      }
    }

    method HandleSend(sid: nat, copy: seq<Byte>, res: int, ghost s: P.State)
      requires Valid() && s == View() && sid in sessions && res <= |copy|
      modifies this`out, this`live, sessions[sid], sessions[sid].tls, sessions[sid].Repr
      ensures Valid() && Grown()
      ensures View() == P.Apply(s.(out := s.out - multiset{P.Send(sid, copy)}), sid, s.live[sid].rx,
                                P.OnSend(sid, P.Observe(s.live[sid].tx, copy, res), res))
    {
      hide Grown, P.OnSend, P.Observe, Valid, Session.Is, PoolView, PoolValid;
      hide LeasesValid, SessionOk, Session.Valid, Session.View, Session.QueueValid, Session.TailValid;
      Open(sid);
      ghost var i := P.OnSend(sid, P.Observe(s.live[sid].tx, copy, res), res);
      live := live[sid := P.Session(s.live[sid].rx, i.tx)];
      sessions[sid].CompleteSend(res, copy, s.live[sid], s.pool, s.out);
      OneActed(sid, s, P.Session(s.live[sid].rx, i.tx), s.pool, s.out - multiset{P.Send(sid, copy)} + i.reqs);
      OneGrew(sid);
    }

    method HandleCancel(sid: nat, ghost s: P.State)
      requires Valid() && s == View() && sid in sessions
      modifies this`out, this`live, sessions[sid]
      ensures Valid() && Grown()
      ensures View() == P.Apply(s.(out := s.out - multiset{P.RecvCancel(sid)}), sid, s.live[sid].rx, P.Close(sid, s.live[sid].tx, true))
    {
      hide Grown, P.Close, Valid, Session.Is, PoolView, PoolValid;
      hide LeasesValid, SessionOk, Session.Valid, Session.View, Session.QueueValid, Session.TailValid;
      Open(sid);
      ghost var i := P.Close(sid, s.live[sid].tx, true);
      live := live[sid := P.Session(s.live[sid].rx, i.tx)];
      sessions[sid].CompleteCancel(s.live[sid], s.pool, s.out);
      OneActed(sid, s, P.Session(s.live[sid].rx, i.tx), s.pool, s.out - multiset{P.RecvCancel(sid)} + i.reqs);
      OneGrew(sid);
    }

    method HandleRecvEnd(sid: nat, res: int, arr: P.Arrival, ghost s: P.State)
      requires Valid() && s == View() && sid in sessions && res <= 0
      modifies this`out, this`live, sessions[sid]
      ensures Valid() && Grown()
      ensures View() == P.Apply(s.(out := s.out - multiset{P.Recv(sid)}), sid, s.live[sid].rx, P.OnRecvTx(sid, s.live[sid], res, arr))
    {
      hide Grown, P.OnRecvTx, Valid, Session.Is, PoolView, PoolValid;
      hide LeasesValid, SessionOk, Session.Valid, Session.View, Session.QueueValid, Session.TailValid;
      Open(sid);
      ghost var i := P.OnRecvTx(sid, s.live[sid], res, arr);
      live := live[sid := P.Session(s.live[sid].rx, i.tx)];
      sessions[sid].CompleteRecvEnd(res, arr, s.live[sid], s.pool, s.out);
      OneActed(sid, s, P.Session(s.live[sid].rx, i.tx), s.pool, s.out - multiset{P.Recv(sid)} + i.reqs);
      OneGrew(sid);
    }

    /** All pool buffers but two are as they were. */
    twostate predicate BuffersStill(id: int, pending: int)
      reads *
    {
      forall j :: 0 <= j < |old(pool)| && j != id && j != pending ==> unchanged(old(pool[j]))
    }

    /** No other session uses the buffers that a receive of session `sid` touches. */
    lemma QueuesApart(sid: nat, id: P.BufId)
      requires Valid() && sid in sessions
      ensures sessions[sid].worker == this && PoolValid()
      ensures forall i :: 0 <= i < |pool| ==> pool[i] !in sessions[sid].Repr && (i != id ==> pool[i] != pool[id])
      ensures forall i :: 0 <= i < |pool| && pool[i] in sessions[sid].PendingBuffer() ==> i == sessions[sid].pendingRecvBufId
      ensures forall k, b :: k in sessions && k != sid && b in sessions[k].Repr ==>
                b != pool[id] && b !in sessions[sid].PendingBuffer() && b !in sessions[sid].Repr
    {
      assert SessionOk(sid);
      forall k, b | k in sessions && k != sid && b in sessions[k].Repr
        ensures b != pool[id] && b !in sessions[sid].PendingBuffer() && b !in sessions[sid].Repr
      {
        assert SessionOk(k);
      }
      forall i | 0 <= i < |pool|
        ensures i != id ==> pool[i] != pool[id]
      {
        assert pool[i].serial == i && pool[id].serial == id;
      }
    }

    /** The objects that a receive of session `sid` into buffer `id` works on. */
    ghost predicate Touches(sid: nat, id: P.BufId, touched: set<object>)
      requires PoolValid() && sid in sessions && sessions[sid].worker == this
      reads this, sessions[sid], pool
    {
      && sessions[sid] in touched && sessions[sid].tls in touched && pool[id] in touched
      && (forall b :: b in sessions[sid].Repr ==> b as object in touched)
      && (forall b :: b in sessions[sid].PendingBuffer() ==> b as object in touched)
    }

    /** None of them belongs to another session, and no other pool buffer is among them. */
    ghost predicate Apart(sid: nat, id: P.BufId, touched: set<object>)
      requires sid in sessions
      reads this, sessions.Values
    {
      && this !in touched
      && (forall k :: k in sessions && k != sid ==> sessions[k] !in touched && sessions[k].tls !in touched)
      && (forall k, b :: k in sessions && k != sid && b in sessions[k].Repr ==> b as object !in touched)
      && (forall j :: 0 <= j < |pool| && j != id && j != sessions[sid].pendingRecvBufId ==> pool[j] !in touched)
    }

    lemma Touched(sid: nat, id: P.BufId) returns (touched: set<object>)
      requires Valid() && sid in sessions
      ensures PoolValid() && sessions[sid].worker == this && sessions[sid].Repr <= touched
      ensures Touches(sid, id, touched) && Apart(sid, id, touched)
      ensures touched <= {sessions[sid] as object, sessions[sid].tls, pool[id]} + sessions[sid].Repr + sessions[sid].PendingBuffer()
    {
      hide Valid, SessionOk;
      Open(sid);
      QueuesApart(sid, id);
      touched := {sessions[sid] as object, sessions[sid].tls, pool[id]} + sessions[sid].Repr + sessions[sid].PendingBuffer();
    }

    /** `OnRecv` of one session, and its record. */
    method RecvOwn(sid: nat, res: int, bytes: seq<Byte>, arr: P.Arrival, ghost s: P.State, ghost r: P.Received, ghost i: P.Issue,
                   ghost touched: set<object>)
      requires Valid() && s == View() && sid in sessions && R.RxInv(s)
      requires arr.lease in s.pool.leases && 0 < |bytes| == res <= arr.lease.len
      requires r == P.OnRecvRx(s.pool, s.live[sid].rx, res, arr) && i == P.OnRecvTx(sid, s.live[sid], res, arr)
      requires PoolValid() && sessions[sid].worker == this
      requires Touches(sid, arr.lease.id, touched) && Apart(sid, arr.lease.id, touched)
      modifies this`out, this`live, this`leases, this`dropped, touched
      ensures sessions == old(sessions) && OwnGrew(sid) && live == s.live[sid := P.Session(r.rx, i.tx)]
      ensures sessions[sid].Is(P.Session(r.rx, i.tx), r.pool, (if arr.more then s.out else s.out - multiset{P.Recv(sid)}) + i.reqs)
    {
      hide P.OnRecvTx, P.OnRecvRx, Valid, Session.Is, PoolView, PoolValid, LeasesValid, SessionOk, Session.PendingBuffer, R.RxInv;
      hide Session.Valid, Session.View, Session.QueueValid, Session.TailValid, Session.Queue, Session.TxView, Session.RxView;
      hide R.LeasesOk, R.Lent;
      Open(sid);
      Taking(sid, arr.lease, s);
      live := live[sid := P.Session(r.rx, i.tx)];
      sessions[sid].CompleteRecv(res, bytes, arr, s.live[sid], s.pool, s.out);
    }

    /** Other sessions and other buffers are left alone. */
    method RecvApartly(sid: nat, res: int, bytes: seq<Byte>, arr: P.Arrival, ghost s: P.State, ghost r: P.Received, ghost i: P.Issue,
                       ghost touched: set<object>)
      requires Valid() && s == View() && sid in sessions && R.RxInv(s)
      requires arr.lease in s.pool.leases && 0 < |bytes| == res <= arr.lease.len
      requires r == P.OnRecvRx(s.pool, s.live[sid].rx, res, arr) && i == P.OnRecvTx(sid, s.live[sid], res, arr)
      requires PoolValid() && sessions[sid].worker == this
      requires Touches(sid, arr.lease.id, touched) && Apart(sid, arr.lease.id, touched)
      modifies this`out, this`live, this`leases, this`dropped, touched
      ensures ObjectsStill(sid) && OwnGrew(sid)
      ensures BuffersStill(arr.lease.id, s.live[sid].rx.pending)
      ensures sessions[sid].worker == this && live == s.live[sid := P.Session(r.rx, i.tx)]
      ensures sessions[sid].Is(P.Session(r.rx, i.tx), r.pool, (if arr.more then s.out else s.out - multiset{P.Recv(sid)}) + i.reqs)
    {
      hide P.OnRecvTx, P.OnRecvRx, Valid, Session.Is, PoolView, PoolValid, Session.PendingBuffer, R.RxInv, OwnGrew, Touches;
      Pending(sid);
      RecvOwn(sid, res, bytes, arr, s, r, i, touched);
    }

    method HandleRecvData(sid: nat, res: int, bytes: seq<Byte>, arr: P.Arrival, ghost s: P.State)
      requires Valid() && s == View() && sid in sessions && R.RxInv(s)
      requires arr.lease in s.pool.leases && 0 < |bytes| == res <= arr.lease.len
      modifies this`out, this`live, this`leases, this`dropped, sessions[sid], sessions[sid].tls, sessions[sid].Repr
      modifies pool[arr.lease.id], sessions[sid].PendingBuffer()
      ensures Valid() && Grown()
      ensures var r := P.OnRecvRx(s.pool, s.live[sid].rx, res, arr);
              View() == P.Apply(s.(out := if arr.more then s.out else s.out - multiset{P.Recv(sid)}, pool := r.pool),
                                sid, r.rx, P.OnRecvTx(sid, s.live[sid], res, arr))
    {
      hide OwnGrew, Grown, P.OnRecvTx, P.OnRecvRx, R.RxInv, Valid, ObjectsStill, Touches, Apart;
      hide Session.Is, PoolView, PoolValid, LeasesValid, SessionOk;
      hide Session.Valid, Session.View, Session.QueueValid, Session.TailValid, Session.Queue, Session.TxView, Session.RxView;
      Open(sid);
      PendingApart(sid, arr.lease, s);
      ghost var r, i := P.OnRecvRx(s.pool, s.live[sid].rx, res, arr), P.OnRecvTx(sid, s.live[sid], res, arr);
      ghost var touched := Touched(sid, arr.lease.id);
      RecvApartly(sid, res, bytes, arr, s, r, i, touched);
      OneActed(sid, s, P.Session(r.rx, i.tx), r.pool, (if arr.more then s.out else s.out - multiset{P.Recv(sid)}) + i.reqs);
      OneGrew(sid);
    }

    lemma Taking(sid: nat, l: P.Lease, s: P.State)
      requires R.RxInv(s) && sid in s.live && l in s.pool.leases
      ensures R.LeasesOk(s.pool) && (s.live[sid].rx.pending != -1 ==> !R.Lent(s.pool, s.live[sid].rx.pending))
    {
    }

    lemma PendingApart(sid: nat, l: P.Lease, s: P.State)
      requires R.RxInv(s) && sid in s.live && l in s.pool.leases
      ensures forall k :: k in s.live && k != sid && s.live[k].rx.pending != -1 ==>
                s.live[k].rx.pending != l.id && s.live[k].rx.pending != s.live[sid].rx.pending
    {
      assert l == P.Lease(l.id, s.pool.caps[l.id]);
    }

    method SendTo(sid: nat, m: Message, cipher: seq<Byte>, ok: bool, ghost s: P.State) returns (plain: seq<Byte>)
      requires Valid() && s == View() && sid in sessions && !exited
      modifies this`out, this`live, sessions[sid], sessions[sid].tls, sessions[sid].Repr
      ensures Valid() && Grown() && plain == Frame(Body(m))
      ensures View() == P.Step(s, P.SendMessage(sid, cipher, ok))
    {
      hide Grown, P.SendCipher, Valid, Session.Is, PoolView, PoolValid;
      hide LeasesValid, SessionOk, Session.Valid, Session.View, Session.QueueValid, Session.TailValid;
      Open(sid);
      ghost var i := P.SendCipher(sid, s.live[sid].tx, cipher, ok);
      live := live[sid := P.Session(s.live[sid].rx, i.tx)];
      plain := sessions[sid].SendNow(m, cipher, ok, s.live[sid], s.pool, s.out);
      OneActed(sid, s, P.Session(s.live[sid].rx, i.tx), s.pool, s.out + i.reqs);
      OneGrew(sid);
    }

    /** `Worker::StopSQE`: the stop request, once the server is not running and no session
        is left. */
    method StopSQE(ghost s: P.State)
      requires Valid() && s == View()
      modifies this`out
      ensures Valid() && View() == P.StopSqe(s)
      ensures out == if running || sessions != map[] then old(out) else old(out) + multiset{P.WorkerStop}
    {
      if running || |sessions| != 0 {
        assert running || live != map[] by { assert |sessions.Keys| == |sessions|; }
        return;
      }
      assert live == map[] by { assert sessions == map[]; }
      out := out + multiset{P.WorkerStop};
      StillValid();
    }

    /** The sessions that are left, and the pool, were not touched. */
    twostate lemma StillValid()
      requires old(Valid()) && unchanged(this`pool, this`leases) && sessions.Keys == live.Keys
      requires forall k :: k in sessions ==> k in old(sessions) && sessions[k] == old(sessions[k]) && live[k] == old(live[k])
      requires forall k :: k in sessions ==> unchanged(sessions[k])
      requires forall k :: k in sessions ==> unchanged(sessions[k].tls)
      requires forall k, b :: k in sessions && b in old(sessions[k].Repr) ==> unchanged(b)
      requires forall i :: 0 <= i < |pool| ==> unchanged(pool[i])
      ensures Valid() && PoolView() == old(PoolView()).(dropped := dropped)
    {
      assert PoolValid();
      assert PoolView().caps == old(PoolView()).caps;
      forall k | k in sessions
        ensures SessionOk(k)
      {
        assert old(SessionOk(k));
        assert Still(k);
        Kept(k);
      }
    }

    method RemoveSession(sid: nat, ghost s: P.State)
      requires Valid() && s == View()
      modifies this`sessions, this`live, this`dropped
      ensures Valid() && View() == P.RemoveSession(s, sid) && sessions == old(sessions) - {sid}
    {
      hide LeasesValid, SessionOk;
      if sid in sessions {
        Pending(sid);
        if sessions[sid].pendingRecvBufId != -1 {
          dropped := dropped + {sessions[sid].pendingRecvBufId};
        }
      }
      sessions := sessions - {sid};
      live := live - {sid};
      StillValid();
      assert sid !in s.live ==> live == s.live;
    }

    lemma Pending(sid: nat)
      requires Valid() && sid in sessions
      ensures sid in live && sessions[sid].pendingRecvBufId == live[sid].rx.pending
    {
      assert SessionOk(sid);
    }

    method HandleClose(sid: nat, ghost s: P.State)
      requires Valid() && s == View()
      modifies this`out, this`sessions, this`live, this`dropped
      ensures Valid() && Grown()
      ensures View() == P.StopSqe(P.RemoveSession(s.(out := s.out - multiset{P.SessionClose(sid)}), sid))
    {
      hide P.StopSqe, P.RemoveSession, Valid, PoolValid, PoolView, Grown;
      ghost var s1 := s.(out := s.out - multiset{P.SessionClose(sid)});
      Skip(P.SessionClose(sid), s);
      RemoveSession(sid, s1);
      StopSQE(P.RemoveSession(s1, sid));
      NoneGrew();
    }

    /** Everything that only sessions use. */
    ghost function Objects(): set<object>
      reads this, sessions.Values
    {
      (set k | k in sessions :: sessions[k] as object) + (set k | k in sessions :: sessions[k].tls as object)
      + (set k, b | k in sessions && b in sessions[k].Repr :: b as object)
    }

    lemma SessionObjects(sid: nat)
      requires Valid() && sid in sessions
      ensures sessions[sid] in Objects() && sessions[sid].tls in Objects()
      ensures forall b :: b in sessions[sid].Repr ==> b as object in Objects()
      ensures PoolValid() && sessions[sid].worker == this && forall b :: b in sessions[sid].PendingBuffer() ==> b in pool
    {
      assert SessionOk(sid);
    }

    /** A completion of a session that is no longer there. */
    method Skip(req: P.Request, ghost s: P.State)
      requires Valid() && s == View()
      modifies this`out
      ensures Valid() && Grown() && View() == s.(out := s.out - multiset{req})
    {
      hide Grown, LeasesValid, SessionOk;
      out := out - multiset{req};
      StillValid();
      NoneGrew();
    }

    lemma HandleUnfolds(sid: nat, res: int, arr: P.Arrival, s: P.State)
      requires P.Enabled(s, P.Complete(P.Recv(sid), res, arr)) && sid in s.live
      ensures P.Handle(s, P.Recv(sid), res, arr)
           == P.Apply(s.(out := if res > 0 && arr.more then s.out else s.out - multiset{P.Recv(sid)},
                         pool := P.OnRecvRx(s.pool, s.live[sid].rx, res, arr).pool),
                      sid, P.OnRecvRx(s.pool, s.live[sid].rx, res, arr).rx, P.OnRecvTx(sid, s.live[sid], res, arr))
      ensures res <= 0 ==> P.OnRecvRx(s.pool, s.live[sid].rx, res, arr) == P.Received(s.pool, s.live[sid].rx)
    {
      hide P.OnRecvTx;
    }

    lemma SameKeys()
      requires Valid()
      ensures sessions.Keys == live.Keys && PoolValid()
    {
    }

    /** `HandleCompletion` for the completions that name a session. */
    method HandleSession(req: P.Request, res: int, bytes: seq<Byte>, arr: P.Arrival, ghost s: P.State)
      requires Valid() && s == View() && R.RxInv(s) && P.Enabled(s, P.Complete(req, res, arr))
      requires (req.Recv? || req.RecvCancel? || req.Send?) && req.sid in sessions
      requires req.Recv? && res > 0 ==> |bytes| == res
      modifies this, pool, Objects()
      ensures Valid() && Grown() && View() == P.Handle(s, req, res, arr)
    {
      hide Grown, P.OnRecvTx, P.OnRecvRx, P.OnSend, P.Observe, P.Close, Valid, PoolView, PoolValid, Objects, Session.PendingBuffer, R.RxInv;
      SessionObjects(req.sid);
      SameKeys();
      match req
      case Recv(sid) =>
        HandleUnfolds(sid, res, arr, s);
        if res > 0 {
          HandleRecvData(sid, res, bytes, arr, s);
        } else {
          HandleRecvEnd(sid, res, arr, s);
        }
      case RecvCancel(sid) =>
        HandleCancel(sid, s);
      case Send(sid, copy) =>
        HandleSend(sid, copy, res, s);
    }

    /** `Worker::HandleCompletion`. */
    method HandleCompletion(req: P.Request, res: int, bytes: seq<Byte>, arr: P.Arrival, ghost s: P.State)
      requires Valid() && s == View() && R.RxInv(s) && P.Enabled(s, P.Complete(req, res, arr))
      requires req.Recv? && res > 0 ==> |bytes| == res
      modifies this, pool, Objects()
      ensures Valid() && Grown() && View() == P.Handle(s, req, res, arr)
    {
      hide Grown, Valid, PoolView, PoolValid, Objects, R.RxInv, P.StopSqe, P.RemoveSession;
      SameKeys();
      match req
      case WorkerStop =>
        Skip(req, s);
      case SessionClose(sid) =>
        HandleClose(sid, s);
      case Recv(sid) =>
        if sid in sessions {
          HandleSession(req, res, bytes, arr, s);
        } else if res > 0 {
          HandleStrayData(sid, res, bytes, arr, s);
        } else {
          Skip(req, s);
        }
      case _ =>
        if req.sid in sessions {
          HandleSession(req, res, bytes, arr, s);
        } else {
          Skip(req, s);
        }
    }

    /** Data for a session that is no longer there: the buffer it is in belongs to nobody. */
    method HandleStrayData(sid: nat, res: int, bytes: seq<Byte>, arr: P.Arrival, ghost s: P.State)
      requires Valid() && s == View() && R.RxInv(s) && sid !in sessions
      requires arr.lease in s.pool.leases && 0 < |bytes| == res <= arr.lease.len
      modifies this`out, this`leases, this`dropped, pool[arr.lease.id]
      ensures Valid() && Grown()
      ensures View() == s.(out := if arr.more then s.out else s.out - multiset{P.Recv(sid)},
                           pool := P.Drop(R.Taken(s.pool, arr.lease), arr.lease.id))
    {
      hide Grown, Valid, PoolValid, PoolView, R.LeasesOk, R.Exclusive, R.Covered, R.RxOk;
      StrayFacts(arr.lease, s);
      if !arr.more {
        Skip(P.Recv(sid), s);
      }
      LoseStray(sid, arr.lease, bytes, s.(out := if arr.more then s.out else s.out - multiset{P.Recv(sid)}));
      NoneGrew();
    }

    method LoseStray(sid: nat, l: P.Lease, bytes: seq<Byte>, ghost s: P.State)
      requires Valid() && s == View() && R.RxInv(s) && sid !in sessions && l in s.pool.leases && |bytes| <= l.len
      modifies this`leases, this`dropped, pool[l.id]
      ensures Valid() && Grown() && View() == s.(pool := P.Drop(R.Taken(s.pool, l), l.id))
    {
      hide Grown, Valid, SessionOk, R.RxInv, PoolView, PoolValid, LeasesValid;
      StrayFacts(l, s);
      KernelRecv(l, bytes);
      DropOne(l.id);
      NoneActed(sid, l.id);
      NoneGrew();
    }

    /** History only: nobody has this buffer any more. */
    ghost method DropOne(id: P.BufId)
      requires PoolValid() && LeasesValid()
      modifies this`dropped
      ensures PoolValid() && LeasesValid() && PoolView() == P.Drop(old(PoolView()), id)
    {
      dropped := dropped + {id};
      assert PoolView().caps == old(PoolView()).caps;
    }

    lemma StrayFacts(l: P.Lease, s: P.State)
      requires Valid() && s == View() && R.RxInv(s) && l in s.pool.leases
      ensures PoolValid() && LeasesValid() && PoolView() == s.pool && l in leases && l.len == |pool[l.id].mem|
      ensures forall k :: k in live ==> live[k].rx.pending != l.id
      ensures forall k, b :: k in sessions && b in sessions[k].Repr ==> b != pool[l.id]
      ensures forall i :: 0 <= i < |pool| && i != l.id ==> pool[i] != pool[l.id]
    {
      assert l == P.Lease(l.id, s.pool.caps[l.id]);
      forall k, b | k in sessions && b in sessions[k].Repr
        ensures b != pool[l.id]
      {
        assert SessionOk(k);
      }
      forall i | 0 <= i < |pool| && i != l.id
        ensures pool[i] != pool[l.id]
      {
        assert pool[i].serial == i && pool[l.id].serial == l.id;
      }
    }

    /** No session acted, and at most one pool buffer changed, which none of them keeps. */
    twostate lemma NoneActed(new sid: nat, new id: P.BufId)
      requires old(Valid()) && PoolValid() && LeasesValid() && live == old(live)
      requires sid !in sessions && ObjectsStill(sid) && BuffersStill(id, -1)
      requires forall k :: k in live ==> live[k].rx.pending != id
      ensures Valid()
    {
      forall k | k in sessions
        ensures SessionOk(k)
      {
        assert old(SessionOk(k));
        Kept(k);
      }
    }

    /** One turn of `Worker::Run`: the loop ends on a completion that finds the server
        stopped and no session left. Every turn keeps the invariants of the protocol. */
    method Turn(req: P.Request, res: int, bytes: seq<Byte>, arr: P.Arrival, ghost s: P.State)
      requires Valid() && s == View() && R.RxInv(s) && Shutdown.TxInv(s) && P.Enabled(s, P.Complete(req, res, arr))
      requires req.Recv? && res > 0 ==> |bytes| == res
      modifies this, pool, Objects()
      ensures Valid() && Grown() && View() == P.Step(s, P.Complete(req, res, arr))
      ensures R.RxInv(View()) && Shutdown.TxInv(View())
    {
      hide Grown, Valid, PoolValid, Objects, R.RxInv, P.Handle;
      R.RxStep(s, P.Complete(req, res, arr));
      Shutdown.StepKeeps(s, P.Complete(req, res, arr));
      SameKeys();
      if !running && |sessions| == 0 {
        exited := true;
        StillValid();
        NoneGrew();
        return;
      }
      HandleCompletion(req, res, bytes, arr, s);
    }

    /** A new session is in order if the old ones were. */
    twostate lemma Joined(sid: nat)
      requires old(Valid()) && unchanged(this`pool, this`leases, this`dropped) && sid !in old(sessions)
      requires sid in sessions && sid in live && sessions == old(sessions)[sid := sessions[sid]] && live == old(live)[sid := live[sid]]
      requires forall k :: k in old(sessions) ==> unchanged(old(sessions[k]))
      requires forall k :: k in old(sessions) ==> unchanged(old(sessions[k].tls))
      requires forall k, b :: k in old(sessions) && b in old(sessions[k].Repr) ==> unchanged(b)
      requires forall i :: 0 <= i < |pool| ==> unchanged(pool[i])
      requires SessionOk(sid)
      ensures Valid() && PoolValid() && PoolView() == old(PoolView())
    {
      hide Session.Valid, Session.View;
      assert PoolValid();
      assert PoolView().caps == old(PoolView()).caps;
      forall k | k in sessions
        ensures SessionOk(k)
      {
        if k != sid {
          assert old(SessionOk(k));
          assert Still(k);
          Kept(k);
        }
      }
    }

    method NewSession(sid: nat) returns (session: Session)
      requires Valid()
      ensures fresh(session) && fresh(session.tls) && session.sid == sid && session.worker == this
      ensures session.tls.owner == sid && session.Repr == {}
      ensures session.Valid() && session.View() == P.Session(P.NewRx(), P.NewTx())
    {
      hide SessionOk;
      session := new Session(sid, this);
    }

    method AddSession(sid: nat, ghost s: P.State)
      requires Valid() && s == View() && P.Enabled(s, P.Accept(sid)) && sid !in sessions
      modifies this`sessions, this`live, this`used, this`out
      ensures Valid() && Grown() && View() == P.Step(s, P.Accept(sid))
    {
      hide Grown, Valid, Session.Valid, Session.View, Session.QueueValid, Session.TailValid, PoolView, LeasesValid, PoolValid;
      SameKeys();
      var session := NewSession(sid);
      sessions := sessions[sid := session];
      live := live[sid := P.Session(P.NewRx(), P.NewTx())];
      used := used + {sid};
      out := out + multiset{P.Recv(sid)};
      Joined(sid);
      NewGrew(sid);
    }

    method CloseOne(sid: nat, session: Session, ghost s: P.State)
      requires Valid() && s == View() && sid in sessions && session == sessions[sid]
      modifies this`out, this`live, session`canceling
      ensures Valid()
      ensures View() == P.Apply(s, sid, s.live[sid].rx, P.StartClose(sid, s.live[sid].tx))
    {
      hide P.StartClose, Valid, Session.Is, PoolView, PoolValid;
      hide LeasesValid, SessionOk, Session.Valid, Session.View, Session.QueueValid, Session.TailValid;
      Open(sid);
      ghost var i := P.StartClose(sid, s.live[sid].tx);
      live := live[sid := P.Session(s.live[sid].rx, i.tx)];
      session.StartCloseNow(s.live[sid], s.pool, s.out);
      OneActed(sid, s, P.Session(s.live[sid].rx, i.tx), s.pool, s.out + i.reqs);
    }

    /** `SessionManager::Close`: the sessions are told to close in whatever order they come. */
    method CloseSessions(ghost s: P.State)
      requires Valid() && s == View()
      modifies this`out, this`live, sessions.Values`canceling
      ensures Valid() && View() == P.CloseAll(s)
    {
      hide PoolView, LeasesValid, SessionOk, P.CloseAll, ClosedSome;
      var rest := sessions.Keys;
      ghost var done: set<nat> := {};
      ClosedNone(s, done);
      while rest != {}
        invariant Valid() && View() == ClosedSome(s, done)
        invariant rest !! done && rest + done == s.live.Keys == sessions.Keys && sessions == old(sessions)
        decreases rest
      {
        var sid :| sid in rest;
        ClosedMore(s, done, sid);
        CloseOne(sid, sessions[sid], ClosedSome(s, done));
        rest, done := rest - {sid}, done + {sid};
      }
      assert done == s.live.Keys;
      ClosedAll(s);
    }

    /** `Worker::Stop`, after the server was marked as not running. */
    method Stop(ghost s: P.State)
      requires Valid() && s == View() && P.Enabled(s, P.Stop)
      modifies this`out, this`live, this`stopped, sessions.Values`canceling
      ensures Valid() && Grown() && View() == P.Step(s, P.Stop)
    {
      hide P.CloseAll, P.StopSqe, Valid, PoolValid, PoolView, Grown;
      CloseSessions(s);
      StopSQE(P.CloseAll(s));
      MarkStopped(P.StopSqe(P.CloseAll(s)));
      CanceledGrew();
    }

    /** History only: `Stop` was called. */
    ghost method MarkStopped(s: P.State)
      requires Valid() && s == View()
      modifies this`stopped
      ensures Valid() && View() == s.(stopped := true)
    {
      hide LeasesValid, SessionOk;
      stopped := true;
      StillValid();
    }

    // ----- the whole loop -----

    twostate lemma CanceledGrew()
      requires pool == old(pool) && sessions == old(sessions)
      requires forall k :: k in sessions ==> sessions[k].Repr == old(sessions[k].Repr)
      ensures Grown()
    {
    }

    twostate lemma OnlyNewObjects()
      requires Grown()
      ensures pool == old(pool) && fresh(Objects() - old(Objects()))
    {
    }

    /** The server is marked as not running. */
    method ClearRunning(ghost s: P.State)
      requires Valid() && s == View() && !exited
      modifies this`running
      ensures Valid() && Grown() && View() == P.Step(s, P.ClearRunning)
    {
      hide LeasesValid, SessionOk, Grown;
      running := false;
      StillValid();
      NoneGrew();
    }

    method Serve(i: Input, ghost s: P.State)
      requires Valid() && s == View() && R.RxInv(s) && Shutdown.TxInv(s) && P.Enabled(s, i.Event()) && i.Sized()
      modifies this, pool, Objects()
      ensures Valid() && Grown() && View() == P.Step(s, i.Event())
    {
      hide Valid, PoolView, PoolValid, Objects, Grown, R.RxInv, Shutdown.TxInv, P.Handle, P.CloseAll, P.StopSqe, P.SendCipher;
      SameKeys();
      match i
      case Completed(req, res, bytes, arr) =>
        Turn(req, res, bytes, arr, s);
      case Accepted(sid) =>
        UsedKeys(s);
        AddSession(sid, s);
      case Sent(sid, m, cipher, ok) =>
        SessionObjects(sid);
        var _ := SendTo(sid, m, cipher, ok, s);
      case NotRunning =>
        ClearRunning(s);
      case Stopped =>
        Canceling();
        Stop(s);
    }

    lemma Canceling()
      requires Valid()
      ensures forall x :: x in sessions.Values ==> x as object in Objects()
    {
    }

    /** `Worker::Run`, with the calls that reach the worker from outside in between: it goes
        on until there is no more input. The view is that of the whole run, the invariants hold
        throughout, and the loop has ended only with the server stopped and no session left. */
    method Run(inputs: seq<Input>, ghost s: P.State)
      requires Valid() && s == View() && R.RxInv(s) && Shutdown.TxInv(s) && P.Possible(s, Events(inputs))
      requires forall i :: i in inputs ==> i.Sized()
      modifies this, pool, Objects()
      ensures Valid() && View() == P.After(s, Events(inputs)) && R.RxInv(View()) && Shutdown.TxInv(View())
      ensures exited && !old(exited) ==> !running && sessions == map[]
    {
      hide Valid, PoolView, PoolValid, Objects, Grown, R.RxInv, Shutdown.TxInv, P.Enabled, P.Step;
      SameKeys();
      var i := 0;
      while i < |inputs|
        invariant i <= |inputs| && Valid() && PoolValid() && R.RxInv(View()) && Shutdown.TxInv(View())
        invariant P.Possible(View(), Events(inputs[i..])) && P.After(View(), Events(inputs[i..])) == P.After(s, Events(inputs))
        invariant exited && !old(exited) ==> !running && live == map[]
        invariant pool == old(pool) && forall o :: o in Objects() ==> o in old(Objects()) || fresh(o)
      {
        label Before:
        ghost var now, e := View(), inputs[i].Event();
        assert Events(inputs[i..]) == [e] + Events(inputs[i + 1..]);
        UsedKeys(now);
        R.RxStep(now, e);
        Shutdown.StepKeeps(now, e);
        Ends(now, e);
        Serve(inputs[i], now);
        OnlyNewObjects@Before();
        forall o | o in Objects()
          ensures o in old(Objects()) || fresh(o)
        {
          assert o !in old@Before(Objects()) ==> !old@Before(allocated(o));
        }
        SameKeys();
        i := i + 1;
      }
      SameKeys();
    }

    /** A worker from its creation on: its runs are those of the protocol. */
    static method Live(inputs: seq<Input>) returns (worker: Worker)
      requires P.Possible(P.Init(), Events(inputs)) && forall i :: i in inputs ==> i.Sized()
      ensures fresh(worker) && worker.Valid() && worker.View() == P.After(P.Init(), Events(inputs))
      ensures worker.exited ==> !worker.running && worker.sessions == map[]
    {
      hide Worker.Valid, Worker.PoolView, P.Possible, R.RxInv, Shutdown.TxInv;
      worker := new Worker();
      R.InitRx();
      Shutdown.InitOk();
      worker.Run(inputs, P.Init());
    }
  }

  // ----- what reaches a worker -----

  /** A completion with its data, an accepted connection, a message for a session, the end of
      the server, and the call of `Stop` that follows it. */
  datatype Input =
    | Completed(req: P.Request, res: int, bytes: seq<Byte>, arr: P.Arrival)
    | Accepted(sid: nat)
    | Sent(sid: nat, m: Message, cipher: seq<Byte>, ok: bool)
    | NotRunning
    | Stopped
  {
    function Event(): P.Event {
      match this
      case Completed(req, res, _, arr) => P.Complete(req, res, arr)
      case Accepted(sid) => P.Accept(sid)
      case Sent(sid, _, cipher, ok) => P.SendMessage(sid, cipher, ok)
      case NotRunning => P.ClearRunning
      case Stopped => P.Stop
    }

    /** The data of a receive is as long as its result says. */
    predicate Sized() {
      Completed? && req.Recv? && res > 0 ==> |bytes| == res
    }
  }

  function Events(inputs: seq<Input>): (es: seq<P.Event>)
    ensures |es| == |inputs|
  {
    seq(|inputs|, k requires 0 <= k < |inputs| => inputs[k].Event())
  }

  lemma Ends(s: P.State, e: P.Event)
    requires P.Enabled(s, e)
    ensures !s.exited && (P.Step(s, e).exited ==> !P.Step(s, e).running && P.Step(s, e).live == map[])
  {
    hide P.OnRecvTx, P.OnRecvRx, P.OnSend, P.Observe, P.Close, P.SendCipher, P.StartClose;
  }

  lemma UsedKeys(s: P.State)
    requires Shutdown.TxInv(s)
    ensures s.live.Keys <= s.used
  {
  }

  // ----- telling every session to close, one after the other -----

  function Cancels(ids: set<nat>): set<P.Request> {
    set k | k in ids :: P.RecvCancel(k)
  }

  lemma CancelsMore(ids: set<nat>, sid: nat)
    requires sid !in ids
    ensures multiset(Cancels(ids + {sid})) == multiset(Cancels(ids)) + multiset{P.RecvCancel(sid)}
  {
    assert P.RecvCancel(sid) !in Cancels(ids);
    assert Cancels(ids + {sid}) == Cancels(ids) + {P.RecvCancel(sid)};
  }

  /** The sessions in `done` that were not told before. */
  function Started(s: P.State, done: set<nat>): set<nat> {
    set k | k in done && k in s.live && !s.live[k].tx.canceling
  }

  function ClosedSome(s: P.State, done: set<nat>): P.State {
    s.(live := map k | k in s.live :: if k in done then s.live[k].(tx := P.StartClose(k, s.live[k].tx).tx) else s.live[k],
       out := s.out + multiset(Cancels(Started(s, done))))
  }

  lemma ClosedNone(s: P.State, none: set<nat>)
    requires none == {}
    ensures ClosedSome(s, none) == s
  {
    assert Cancels(Started(s, none)) == {};
    assert ClosedSome(s, none).live == s.live;
  }

  lemma StartedAll(s: P.State)
    ensures Cancels(Started(s, s.live.Keys)) == set k | k in s.live && !s.live[k].tx.canceling :: P.RecvCancel(k)
  {
  }

  lemma LiveAll(s: P.State)
    ensures ClosedSome(s, s.live.Keys).live == P.CloseAll(s).live
  {
    hide Cancels, Started;
  }

  lemma ClosedAll(s: P.State)
    ensures ClosedSome(s, s.live.Keys) == P.CloseAll(s)
  {
    hide Cancels, Started;
    StartedAll(s);
    LiveAll(s);
  }

  lemma StartedMore(s: P.State, done: set<nat>, sid: nat)
    requires sid in s.live && sid !in done
    ensures multiset(Cancels(Started(s, done + {sid})))
         == multiset(Cancels(Started(s, done))) + P.StartClose(sid, s.live[sid].tx).reqs
  {
    hide Cancels;
    if s.live[sid].tx.canceling {
      assert Started(s, done + {sid}) == Started(s, done);
    } else {
      assert Started(s, done + {sid}) == Started(s, done) + {sid};
      CancelsMore(Started(s, done), sid);
    }
  }

  lemma ClosedMore(s: P.State, done: set<nat>, sid: nat)
    requires sid in s.live && sid !in done
    ensures var c := ClosedSome(s, done);
            ClosedSome(s, done + {sid}) == P.Apply(c, sid, c.live[sid].rx, P.StartClose(sid, c.live[sid].tx))
  {
    hide Cancels, Started, P.StartClose;
    StartedMore(s, done, sid);
    var c, i := ClosedSome(s, done), P.StartClose(sid, s.live[sid].tx);
    assert ClosedSome(s, done + {sid}).live == c.live[sid := P.Session(c.live[sid].rx, i.tx)];
  }
}
