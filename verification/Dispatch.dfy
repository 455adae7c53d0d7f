/**
  From one `Send` to the handler at the other end: the registry names the message, the frame
  carries it, the receive pipeline reassembles it, and the registry finds its handler.
 */
module Dispatch {
  import opened Framing
  import P = Protocol
  import Delivery
  import G = Registry

  /** A message before encoding: its type, and its serialised fields. */
  datatype Typed = Typed(kind: G.Kind, payload: seq<Byte>)

  /** What `HandlePacket` does with one frame body. */
  datatype Outcome = Ignored | Handled(message: Typed, handler: G.Handler)

  function Encode(t: G.Tables, m: Typed): Message {
    Message(G.IdOf(t, m.kind), m.payload)
  }

  function EncodeAll(t: G.Tables, ms: seq<Typed>): (es: seq<Message>)
    ensures |es| == |ms| && forall i :: 0 <= i < |ms| ==> es[i] == Encode(t, ms[i])
  {
    seq(|ms|, i requires 0 <= i < |ms| => Encode(t, ms[i]))
  }

  function HandleBody(t: G.Tables, body: seq<Byte>): Outcome
    requires |body| >= 2
  {
    var m := Decode(body);
    match G.EntryOf(t, m.id)
    case NoEntry => Ignored
    case Entry(kind, handler) => Handled(Typed(kind, m.payload), handler)
  }

  /** The message a client sent and the handler that gets it, if the server has the registry of
      `Init`. */
  function Reached(m: Typed): Outcome {
    Handled(m.(kind := G.Reaches(m.kind)), G.HandlerOf(G.Reaches(m.kind)))
  }

  /** A frame reaches the handler of its own type exactly if its type name has an id and that
      id was not taken over by another type. */
  lemma FrameHandled(t: G.Tables, m: Typed)
    ensures var e := G.EntryOf(t, G.IdOf(t, m.kind));
            (HandleBody(t, Body(Encode(t, m))).Handled? && HandleBody(t, Body(Encode(t, m))).message == m)
            <==> e.Entry? && e.creates == m.kind
  {
    DecodeBody(Encode(t, m));
  }

  /** Whatever a client sends, in messages with payloads that fit, cut by the network and the
      TLS library in any way, among any other sessions: at any time, also with a frame half
      received, the bodies dispatched are those of the first messages; each of a registered
      type was handed, as it was sent, to the handler of its own type, and any other to that
      of `Ping`; all that arrived beyond them is kept or waits; once all has arrived and the
      TLS library is drained, all were. */
  lemma SentIsHandled(es: seq<P.Event>, sid: nat, ms: seq<Typed>)
    requires P.Possible(P.Init(), es) && sid in P.After(P.Init(), es).live
    requires forall i :: 0 <= i < |ms| ==> |ms[i].payload| <= MAX_PAYLOAD
    requires P.After(P.Init(), es).live[sid].rx.stream
          <= FrameAll(Bodies(EncodeAll(G.Registered(G.TABLE_SIZE, G.Standard()), ms)))
    ensures var r := P.After(P.Init(), es).live[sid].rx; var t := G.Registered(G.TABLE_SIZE, G.Standard());
            var sent := Bodies(EncodeAll(t, ms)); var n := |r.dispatched|;
            && n <= |ms|
            && FrameAll(sent[..n]) + r.tail + r.avail == r.stream && r.tail + r.avail <= FrameAll(sent[n..])
            && (r.stream == FrameAll(sent) && r.avail == [] ==> n == |ms| && r.pending == -1)
            && forall i :: 0 <= i < n ==>
                 |r.dispatched[i]| >= 2 && HandleBody(t, r.dispatched[i]) == Reached(ms[i])
  {
    hide G.Registered, G.Standard, G.HandlerOf, P.After, P.Possible;
    var t := G.Registered(G.TABLE_SIZE, G.Standard());
    var sent := EncodeAll(t, ms);
    Delivery.MessagesDelivered(es, sid, sent);
    var r := P.After(P.Init(), es).live[sid].rx;
    forall i | 0 <= i < |r.dispatched|
      ensures |r.dispatched[i]| >= 2 && HandleBody(t, r.dispatched[i]) == Reached(ms[i])
    {
      assert r.dispatched[i] == Bodies(sent)[i] == Body(sent[i]);
      DecodeBody(sent[i]);
      G.StandardInverse(ms[i].kind, 0);
    }
  }
}
