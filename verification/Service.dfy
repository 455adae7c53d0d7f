/**
  What a frame does to the lobby: the registry finds the handler of its message, and the
  handler runs on the rooms.
 */
module Service {
  import opened Framing
  import R = Rooms
  import G = Registry
  import P = Protocol
  import Dispatch
  import Effects
  import Lobby
  import Views
  import opened LobbyServer

  /** The fields of a request: it has at most one string of interest, one room number and one
      maximum. */
  datatype Fields = Fields(text: string, id: R.Key, max: R.Uint32)

  /** What the handlers are given from elsewhere: what protobuf reads in the payload, if it can,
      whether the user table grants a sign-in, and who is at the front of a room's hash table. */
  datatype Given = Given(fields: G.Option<Fields>, granted: bool, first: nat)

  /** What a handler does to the lobby, if anything. */
  function Run(h: G.Handler, sid: nat, f: Fields, g: Given): G.Option<R.Event> {
    match h
    case SignIn => if g.granted then G.Some(R.SignIn(sid, f.text)) else G.None
    case RegisterName => G.Some(R.Rename(sid, f.text))
    case CreateRoom => G.Some(R.Create(sid, f.text, f.max))
    case FindRoom => G.Some(R.Find(sid, f.text))
    case JoinRoom => G.Some(R.Join(sid, f.id))
    case LeaveRoom => G.Some(R.Leave(sid, f.text, g.first))
    case Broadcast => G.Some(R.Broadcast(sid, f.text))
    case StartGame => G.Some(R.StartGame(sid, f.text))
    case _ => G.None
  }

  /** What `HandlePacket` does to the lobby for one frame body. */
  function Served(t: G.Tables, sid: nat, body: seq<Byte>, g: Given): G.Option<R.Event>
    requires |body| >= 2
  {
    match Dispatch.HandleBody(t, body)
    case Ignored => G.None
    case Handled(_, handler) => if g.fields.None? then G.None else Run(handler, sid, g.fields.value, g)
  }

  /** The registry of `Init`. */
  function Standard(): G.Tables {
    G.Registered(G.TABLE_SIZE, G.Standard())
  }

  /** What a message of each type asks for. */
  function Asked(k: G.Kind, sid: nat, f: Fields, g: Given): G.Option<R.Event> {
    match k
    case SigninRequest => if g.granted then G.Some(R.SignIn(sid, f.text)) else G.None
    case RegisterRequest => G.Some(R.Rename(sid, f.text))
    case CreateRoomRequest => G.Some(R.Create(sid, f.text, f.max))
    case FindRoomRequest => G.Some(R.Find(sid, f.text))
    case JoinRoomRequest => G.Some(R.Join(sid, f.id))
    case LeaveRoomRequest => G.Some(R.Leave(sid, f.text, g.first))
    case BroadcastRequest => G.Some(R.Broadcast(sid, f.text))
    case GameRequest => G.Some(R.StartGame(sid, f.text))
    case _ => G.None
  }

  /** A message that is framed and sent does to the lobby what its type asks for. */
  lemma ServedAsAsked(m: Dispatch.Typed, sid: nat, f: Fields, g: Given)
    requires g.fields == G.Some(f)
    ensures Served(Standard(), sid, Body(Dispatch.Encode(Standard(), m)), g) == Asked(m.kind, sid, f, g)
  {
    hide G.Registered, G.Standard;
    DecodeBody(Dispatch.Encode(Standard(), m));
    G.StandardInverse(m.kind, 0);
  }

  /** ... and whatever a client sends is done in the order in which it was sent. */
  lemma SentIsServed(es: seq<P.Event>, sid: nat, ms: seq<Dispatch.Typed>, i: nat, f: Fields, g: Given)
    requires P.Possible(P.Init(), es) && sid in P.After(P.Init(), es).live
    requires forall i :: 0 <= i < |ms| ==> |ms[i].payload| <= MAX_PAYLOAD
    requires P.After(P.Init(), es).live[sid].rx.stream <= FrameAll(Bodies(Dispatch.EncodeAll(Standard(), ms)))
    requires i < |P.After(P.Init(), es).live[sid].rx.dispatched| && g.fields == G.Some(f)
    ensures var body := P.After(P.Init(), es).live[sid].rx.dispatched[i];
            i < |ms| && |body| >= 2 && Served(Standard(), sid, body, g) == Asked(ms[i].kind, sid, f, g)
  {
    hide G.Registered, G.Standard, P.Possible, P.After;
    Dispatch.SentIsHandled(es, sid, ms);
    ServedAsAsked(ms[i], sid, f, g);
    DecodeBody(Dispatch.Encode(Standard(), ms[i]));
    G.StandardInverse(ms[i].kind, 0);
  }

  /** The wire in full: the second byte of a body says what it does, if the first is 0. */
  lemma ServedBytes(hi: Byte, lo: Byte, payload: seq<Byte>, sid: nat, f: Fields, g: Given)
    requires g.fields == G.Some(f)
    ensures Served(Standard(), sid, [hi, lo] + payload, g)
         == if hi != 0 then G.None
            else if lo == 2 && g.granted then G.Some(R.SignIn(sid, f.text))
            else if lo == 6 then G.Some(R.Rename(sid, f.text))
            else if lo == 8 then G.Some(R.Create(sid, f.text, f.max))
            else if lo == 9 then G.Some(R.Find(sid, f.text))
            else if lo == 11 then G.Some(R.Join(sid, f.id))
            else if lo == 13 then G.Some(R.Leave(sid, f.text, g.first))
            else if lo == 15 then G.Some(R.Broadcast(sid, f.text))
            else if lo == 17 then G.Some(R.StartGame(sid, f.text))
            else G.None
  {
    hide G.Registered, G.Standard;
    DecodeBytes(hi, lo, payload);
    G.StandardTable();
  }

  /** Over runs in which nobody enters a room while it sits in another: a chat message from a
      session in a room, whose user is on record, is heard exactly by the sessions that believe
      they are in that room, and a game it starts by the others of them. */
  lemma RequestHeard(names: map<string, string>, es: seq<R.Event>, sid: nat, payload: seq<Byte>, f: Fields, g: Given)
    requires R.Possible(R.Init(names), es) && Views.NeverDoubles(R.Init(names), es)
    requires Views.InRoom(R.After(R.Init(names), es), sid) && g.fields == G.Some(f)
    ensures var s := R.After(R.Init(names), es);
            var chat := Served(Standard(), sid, Body(Dispatch.Encode(Standard(), Dispatch.Typed(G.BroadcastRequest, payload))), g);
            var game := Served(Standard(), sid, Body(Dispatch.Encode(Standard(), Dispatch.Typed(G.GameRequest, payload))), g);
            && chat.Some? && R.Enabled(s, chat.value) && game.Some? && R.Enabled(s, game.value)
            && (s.users[sid] in s.names ==>
                  Views.HeardInRoom(s, R.Step(s, chat.value), sid, R.Said(s.names[s.users[sid]], f.text), true))
            && Views.HeardInRoom(s, R.Step(s, game.value), sid, R.Game(f.text), false)
  {
    hide Standard, Served, R.Step, R.Enabled, Views.HeardInRoom, R.After, R.Possible;
    ServedAsAsked(Dispatch.Typed(G.BroadcastRequest, payload), sid, f, g);
    ServedAsAsked(Dispatch.Typed(G.GameRequest, payload), sid, f, g);
    Views.RoomHears(names, es, sid, f.text);
  }

  lemma JoinEnabled(s: R.State, sid: nat, id: R.Key)
    requires Lobby.RoomsInv(s) && sid in s.users
    ensures R.Enabled(s, R.Join(sid, id)) && R.Tables(s)
  {
    hide Lobby.AllRoomsOk, Lobby.AllPlaced;
  }

  /** A session that asks to join is let into exactly a room that exists and has a place. */
  lemma RequestJoins(s: R.State, sid: nat, payload: seq<Byte>, f: Fields, g: Given)
    requires Lobby.RoomsInv(s) && sid in s.users && g.fields == G.Some(f)
    ensures var join := Served(Standard(), sid, Body(Dispatch.Encode(Standard(), Dispatch.Typed(G.JoinRoomRequest, payload))), g);
            && join.Some? && R.Enabled(s, join.value)
            && if f.id in s.rooms && |s.rooms[f.id].members| < s.rooms[f.id].info.max
               then Effects.Entered(s, R.Step(s, join.value), sid, f.id, s.rooms[f.id])
               else Effects.Refused(s, R.Step(s, join.value), sid)
  {
    JoinEnabled(s, sid, f.id);
    hide Standard, Served, R.Step, R.Enabled, Effects.Entered, Effects.Refused, Lobby.RoomsInv, R.Tables;
    ServedAsAsked(Dispatch.Typed(G.JoinRoomRequest, payload), sid, f, g);
    Effects.JoinEffect(s, sid, f.id);
  }

  /** A session's end of the registry, and the lobby behind it. */
  class Server {
    const registry: G.PacketHandler
    const manager: RoomManager

    constructor (registry: G.PacketHandler, manager: RoomManager)
      ensures this.registry == registry && this.manager == manager
    {
      this.registry, this.manager := registry, manager;
    }

    /** What a message of this session needs of the server; the search for a room number ends. */
    ghost predicate Serves(sid: nat, s: R.State)
      reads this, registry, manager, manager.rooms.Values, manager.clients
    {
      && registry.View() == Standard() && manager.Valid() && manager.View() == s
      && sid in s.users && |s.rooms| < R.UINT_RANGE
    }

    /** `Session::HandlePacket`: the message is created by its id and read by protobuf, and its
        handler runs. */
    method HandlePacket(sid: nat, body: seq<Byte>, fields: G.Option<Fields>, granted: bool, ghost s: R.State) returns (first: nat)
      requires |body| >= 2 && Serves(sid, s)
      modifies manager, manager.clients, manager.rooms.Values
      ensures manager.Valid()
      ensures var e := Served(Standard(), sid, body, Given(fields, granted, first));
              if e.None? then manager.View() == s else R.Enabled(s, e.value) && manager.View() == R.Step(s, e.value)
    {
      hide G.Registered, G.Standard, RoomManager.Valid, RoomManager.View;
      G.StandardTable();
      first := sid;
      var m := Decode(body);
      var created := registry.CreateMessageById(m.id);
      if created.None? || fields.None? {
        return;
      }
      var handler := registry.HandlePacket(m.id);
      first := RunHandler(handler.value, sid, fields.value, granted, s);
    }

    method RunHandler(h: G.Handler, sid: nat, f: Fields, granted: bool, ghost s: R.State) returns (first: nat)
      requires Serves(sid, s)
      modifies manager, manager.clients, manager.rooms.Values
      ensures manager.Valid()
      ensures var e := Run(h, sid, f, Given(G.Some(f), granted, first));
              if e.None? then manager.View() == s else R.Enabled(s, e.value) && manager.View() == R.Step(s, e.value)
    {
      hide RoomManager.Valid, RoomManager.View, R.Step;
      Known(sid, s);
      first := sid;
      match h
      case SignIn => manager.SigninRequest(sid, f.text, granted, s);
      case RegisterName => manager.RegisterRequest(sid, f.text, s);
      case CreateRoom => manager.CreateRoomRequest(sid, f.text, f.max, s);
      case FindRoom => manager.FindRoomRequest(sid, f.text, s);
      case JoinRoom => manager.JoinRoomRequest(sid, f.id, s);
      case LeaveRoom => first := manager.LeaveRoomRequest(sid, f.text, s);
      case Broadcast => manager.BroadcastRequest(sid, f.text, s);
      case StartGame => manager.GameRequest(sid, f.text, s);
      case _ =>
    }

    lemma Known(sid: nat, s: R.State)
      requires Serves(sid, s)
      ensures manager.Valid() && manager.View() == s && R.Tables(s) && sid in s.users && |s.rooms| < R.UINT_RANGE
    {
    }
  }
}
