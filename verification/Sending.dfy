/**
  The sending half of every session over every run: order and conservation of the outgoing
  bytes, one send in flight, one close per session.
 */
module Sending {
  import opened Numbers
  import opened Framing
  import opened Buffers
  import opened Protocol

  lemma FlatAppend(q: seq<seq<Byte>>, chunk: seq<Byte>)
    ensures Flat(q + [chunk]) == Flat(q) + chunk
  {
    if q == [] {
      assert Flat([chunk]) == chunk + Flat([]);
    } else {
      assert (q + [chunk])[1..] == q[1..] + [chunk];
      FlatAppend(q[1..], chunk);
    }
  }

  /** What holds between a session's fields and the requests outstanding for it, but for
      the send in flight. */
  ghost predicate Common(sid: nat, t: Tx, out: multiset<Request>) {
    && (forall i :: 0 <= i < |t.queue| ==> t.queue[i] != [])
    && (t.isSending <==> t.queue != [])
    && t.produced == t.accepted + Flat(t.queue) + t.wbio
    && (t.failed ==> t.closing && t.queue != [])
    && t.closes == (if t.closing then 1 else 0)
    && out[SessionClose(sid)] == t.closes
    && out[RecvCancel(sid)] <= (if t.canceling then 1 else 0)
    && out[Recv(sid)] <= 1
  }

  /** At most one send is outstanding; it is counted, and its copy is the queue front. */
  ghost predicate InFlight(sid: nat, t: Tx, out: multiset<Request>) {
    && t.sendCount == (if t.queue != [] && !t.failed then 1 else 0)
    && (forall c :: out[Send(sid, c)] == if t.sendCount == 1 && c == t.queue[0] then 1 else 0)
  }

  ghost predicate NoSend(sid: nat, t: Tx, out: multiset<Request>) {
    t.sendCount == 0 && forall c :: out[Send(sid, c)] == 0
  }

  ghost predicate Core(sid: nat, t: Tx, out: multiset<Request>) {
    Common(sid, t, out) && InFlight(sid, t, out)
  }

  /** A cancelled session that is not closing still has a completion coming for it. */
  ghost predicate Draining(sid: nat, t: Tx, out: multiset<Request>) {
    t.canceling && !t.closing ==> RecvCancel(sid) in out || t.sendCount == 1
  }

  ghost predicate TxOk(sid: nat, t: Tx, out: multiset<Request>) {
    Core(sid, t, out) && Draining(sid, t, out)
  }

  /** New requests of one session touch the counts of no other. */
  ghost predicate Owned(sid: nat, reqs: multiset<Request>) {
    forall r :: r in reqs ==> !r.WorkerStop? && r.sid == sid
  }

  lemma SendInternalOk(sid: nat, t: Tx, out: multiset<Request>)
    requires Common(sid, t, out) && NoSend(sid, t, out) && !t.failed
    ensures var i := SendInternal(sid, t);
            Core(sid, i.tx, out + i.reqs) && Owned(sid, i.reqs) && i.tx == t.(sendCount := i.tx.sendCount)
  {
  }

  lemma FlushQueues(sid: nat, t: Tx, out: multiset<Request>, n: nat)
    requires Common(sid, t, out) && 0 < n <= |t.wbio|
    ensures Common(sid, t.(wbio := t.wbio[n..], queue := t.queue + [t.wbio[..n]], isSending := true), out)
  {
    FlatAppend(t.queue, t.wbio[..n]);
    assert t.accepted + Flat(t.queue) + t.wbio
        == t.accepted + (Flat(t.queue) + t.wbio[..n]) + t.wbio[n..];
  }

  lemma FlushOk(sid: nat, t: Tx, out: multiset<Request>)
    requires Core(sid, t, out)
    ensures var i := Flush(sid, t);
            && Core(sid, i.tx, out + i.reqs) && Owned(sid, i.reqs)
            && (Draining(sid, t, out) ==> Draining(sid, i.tx, out + i.reqs))
            && i.tx.canceling == t.canceling && i.tx.failed == t.failed && i.tx.accepted == t.accepted
  {
    var n := Min(BUF_SIZE, |t.wbio|);
    if n > 0 {
      FlushQueues(sid, t, out, n);
      var t1 := t.(wbio := t.wbio[n..], queue := t.queue + [t.wbio[..n]], isSending := true);
      if !t.isSending {
        SendInternalOk(sid, t1, out);
      } else {
        assert InFlight(sid, t1, out);
      }
    }
  }

  lemma CipherOk(sid: nat, t: Tx, out: multiset<Request>, bytes: seq<Byte>)
    requires Core(sid, t, out)
    ensures Core(sid, Cipher(t, bytes), out)
    ensures Draining(sid, t, out) ==> Draining(sid, Cipher(t, bytes), out)
  {
  }

  lemma CloseOk(sid: nat, t: Tx, out: multiset<Request>, additionalCheck: bool)
    requires Core(sid, t, out)
    ensures var i := Close(sid, t, additionalCheck);
            && Core(sid, i.tx, out + i.reqs) && Owned(sid, i.reqs)
            && (additionalCheck || Draining(sid, t, out) ==> Draining(sid, i.tx, out + i.reqs))
            && i.tx == t.(closing := i.tx.closing, closes := i.tx.closes)
            && (!additionalCheck ==> i.tx.closing)
  {
  }

  /** The queue after a send that took the first `bytes` of its front. */
  lemma AdvanceFlat(t: Tx, bytes: nat)
    requires t.queue != [] && bytes <= |t.queue[0]|
    ensures Flat(t.queue) == t.queue[0][..bytes] + Flat(Advance(t, bytes).queue)
  {
    var rest := t.queue[0][bytes..];
    assert t.queue[0] == t.queue[0][..bytes] + rest;
    var q := Advance(t, bytes).queue;
    assert Flat(q) == rest + Flat(t.queue[1..]) by {
      if rest != [] {
        assert ([rest] + t.queue[1..])[1..] == t.queue[1..];
      }
    }
    assert t.queue[0] + Flat(t.queue[1..]) == t.queue[0][..bytes] + (rest + Flat(t.queue[1..]));
  }

  lemma AdvanceQueue(t: Tx, bytes: nat)
    requires t.queue != [] && bytes <= |t.queue[0]| && t.isSending
    requires forall i :: 0 <= i < |t.queue| ==> t.queue[i] != []
    ensures var t' := Advance(t, bytes);
            && (forall i :: 0 <= i < |t'.queue| ==> t'.queue[i] != [])
            && (t'.isSending <==> t'.queue != [])
            && t' == t.(queue := t'.queue, isSending := t'.isSending)
  {
  }

  lemma AdvanceOk(sid: nat, t: Tx, out: multiset<Request>, bytes: nat)
    requires Common(sid, t, out) && t.queue != [] && 0 < bytes <= |t.queue[0]| && !t.failed
    ensures Common(sid, Advance(t.(accepted := t.accepted + t.queue[0][..bytes]), bytes), out)
    ensures |Flat(Advance(t, bytes).queue)| + bytes == |Flat(t.queue)|
  {
    hide Flat, Advance;
    var sent := t.queue[0][..bytes];
    var t1 := t.(accepted := t.accepted + sent);
    AdvanceFlat(t, bytes);
    AdvanceFlat(t1, bytes);
    AdvanceQueue(t1, bytes);
    var q := Advance(t1, bytes).queue;
    assert t.accepted + (sent + Flat(q)) + t.wbio == t.accepted + sent + Flat(q) + t.wbio;
  }

  /** A failed send leaves its buffer at the front and closes the session. */
  lemma SendFailedOk(sid: nat, t: Tx, out: multiset<Request>, copy: seq<Byte>, res: int)
    requires Core(sid, t, out) && Send(sid, copy) in out && res <= 0
    ensures var i := OnSend(sid, Observe(t, copy, res), res);
            && TxOk(sid, i.tx, out - multiset{Send(sid, copy)} + i.reqs) && Owned(sid, i.reqs)
            && i.tx.canceling == t.canceling && i.tx.failed && i.tx.closing && i.tx.accepted == t.accepted
            && i.tx.queue == t.queue
  {
    assert out[Send(sid, copy)] == 1;
  }

  function Taken(t: Tx, copy: seq<Byte>, res: nat): Tx
    requires res <= |copy|
  {
    Advance(t.(sendCount := 0, accepted := t.accepted + copy[..res]), res)
  }

  lemma TakenOk(sid: nat, t: Tx, out: multiset<Request>, copy: seq<Byte>, res: nat)
    requires Core(sid, t, out) && Send(sid, copy) in out && 0 < res <= |copy|
    ensures var t1 := Taken(t, copy, res);
            && Common(sid, t1, out - multiset{Send(sid, copy)}) && NoSend(sid, t1, out - multiset{Send(sid, copy)})
            && !t1.failed && t1.canceling == t.canceling && t1.accepted == t.accepted + copy[..res]
            && |Flat(t1.queue)| + res == |Flat(t.queue)|
  {
    assert out[Send(sid, copy)] == 1 && copy == t.queue[0];
    AdvanceOk(sid, t.(sendCount := 0), out - multiset{Send(sid, copy)}, res);
  }

  lemma OnSendUnfolds(sid: nat, t: Tx, copy: seq<Byte>, res: int)
    requires t.sendCount == 1 && 0 < res <= |copy|
    ensures OnSend(sid, Observe(t, copy, res), res) == Resume(sid, Taken(t, copy, res))
  {
    assert (t.sendCount + COUNTER_RANGE - 1) % COUNTER_RANGE == 0;
    assert CountDown(Observe(t, copy, res)) == t.(sendCount := 0, accepted := t.accepted + copy[..res]);
  }

  /** A send that took `res` bytes: they are the next bytes of the stream. */
  lemma SendTookOk(sid: nat, t: Tx, out: multiset<Request>, copy: seq<Byte>, res: int)
    requires Core(sid, t, out) && Send(sid, copy) in out && 0 < res <= |copy|
    ensures var i := OnSend(sid, Observe(t, copy, res), res);
            && TxOk(sid, i.tx, out - multiset{Send(sid, copy)} + i.reqs) && Owned(sid, i.reqs)
            && i.tx.canceling == t.canceling && !i.tx.failed
            && i.tx.accepted == t.accepted + copy[..res]
            && |Flat(i.tx.queue)| + res == |Flat(t.queue)|
  {
    var rest := out - multiset{Send(sid, copy)};
    TakenOk(sid, t, out, copy, res);
    assert t.sendCount == 1 by {
      assert out[Send(sid, copy)] >= 1;
    }
    OnSendUnfolds(sid, t, copy, res);
    Resumed(sid, Taken(t, copy, res), rest);
  }

  lemma Resumed(sid: nat, t: Tx, out: multiset<Request>)
    requires Common(sid, t, out) && NoSend(sid, t, out) && !t.failed
    ensures var i := Resume(sid, t);
            && TxOk(sid, i.tx, out + i.reqs) && Owned(sid, i.reqs)
            && i.tx == t.(sendCount := i.tx.sendCount, closing := i.tx.closing, closes := i.tx.closes)
  {
    SendInternalOk(sid, t, out);
    var next := SendInternal(sid, t);
    CloseOk(sid, next.tx, out + next.reqs, true);
    var close := Close(sid, next.tx, true);
    assert out + next.reqs + close.reqs == out + (next.reqs + close.reqs);
  }

  // ----- what is queued, posted and closed, exactly -----

  /** A flush queues one more buffer, of the first bytes held back and as many as 4096 if there
      are, and sends the front exactly if nothing was queued; the rest stays held back. */
  lemma FlushEffect(sid: nat, t: Tx, out: multiset<Request>)
    requires Core(sid, t, out)
    ensures var i := Flush(sid, t);
            if t.wbio == [] then i == Issue(t, multiset{})
            else
              var n := |t.wbio| - |i.tx.wbio|;
              && t.wbio[n..] == i.tx.wbio && (n == 4096 || (n < 4096 && i.tx.wbio == []))
              && i.tx == t.(wbio := i.tx.wbio, queue := t.queue + [t.wbio[..n]], isSending := true,
                          sendCount := if t.failed then 0 else 1)
              && i.reqs == if t.queue == [] then multiset{Send(sid, t.wbio[..n])} else multiset{}
  {
    if t.wbio != [] && t.queue == [] {
      assert t.queue + [t.wbio[..Min(BUF_SIZE, |t.wbio|)]] == [t.wbio[..Min(BUF_SIZE, |t.wbio|)]];
    }
  }

  /** Once the kernel took `res` bytes, what is left of the front, or the next buffer, is sent;
      with nothing left the session is idle, and closes exactly if it was told to and has not. */
  lemma OnSendEffect(sid: nat, t: Tx, out: multiset<Request>, copy: seq<Byte>, res: int)
    requires Core(sid, t, out) && Send(sid, copy) in out && 0 < res <= |copy|
    ensures t.queue != [] && t.queue[0] == copy
    ensures var i := OnSend(sid, Observe(t, copy, res), res);
            var queue := if res < |copy| then [copy[res..]] + t.queue[1..] else t.queue[1..];
            var closes := queue == [] && t.canceling && !t.closing;
            && i.tx == t.(queue := queue, isSending := queue != [], sendCount := if queue != [] then 1 else 0,
                          accepted := t.accepted + copy[..res],
                          closing := t.closing || closes, closes := if closes then t.closes + 1 else t.closes)
            && i.reqs == if queue != [] then multiset{Send(sid, queue[0])}
                         else if closes then multiset{SessionClose(sid)} else multiset{}
  {
    assert out[Send(sid, copy)] >= 1;
  }

  /** A checked close is asked for exactly by a session that was told to close, has not asked yet
      and has nothing queued. */
  lemma CheckedClose(sid: nat, t: Tx, out: multiset<Request>)
    requires Core(sid, t, out)
    ensures var i := Close(sid, t, true);
            if t.canceling && !t.closing && t.queue == []
            then i == Issue(t.(closing := true, closes := t.closes + 1), multiset{SessionClose(sid)})
            else i == Issue(t, multiset{})
  {
  }
}
