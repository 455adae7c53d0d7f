/**
  The message registry: a table from sixteen-bit ids to message creators and handlers, and a
  map from type names to ids, filled one registration at a time.
 */
module Registry {
  const ID_RANGE := 0x1_0000
  const TABLE_SIZE := 19

  /** Stands for the type name of a message; `Other` are the names the server does not register. */
  datatype Kind =
    | Ping | Pong | SigninRequest | SigninResponse | SignupRequest | SignupResponse
    | RegisterRequest | RegisterResponse | CreateRoomRequest | FindRoomRequest | FindRoomResponse
    | JoinRoomRequest | JoinRoomResponse | LeaveRoomRequest | UpdateRoomInfo
    | BroadcastRequest | BroadcastResponse | GameRequest | GameResponse | Other(name: string)

  /** Stands for the handler's code; messages that only the server sends have an empty one. */
  datatype Handler =
    | Nothing | SendPong | SignIn | SignUp | RegisterName
    | CreateRoom | FindRoom | JoinRoom | LeaveRoom | Broadcast | StartGame

  type Id = n: nat | n < ID_RANGE

  datatype Entry = NoEntry | Entry(creates: Kind, handler: Handler)

  datatype Registration = Registration(id: Id, kind: Kind, handler: Handler)

  datatype Tables = Tables(entries: seq<Entry>, ids: map<Kind, Id>)

  datatype Option<T> = None | Some(value: T)

  function Empty(size: nat): Tables {
    Tables(seq(size, _ => NoEntry), map[])
  }

  predicate InRange(size: nat, rs: seq<Registration>) {
    forall i :: 0 <= i < |rs| ==> rs[i].id < size
  }

  /** The tables after the registrations `rs`, in order. */
  function Registered(size: nat, rs: seq<Registration>): (t: Tables)
    requires InRange(size, rs)
    ensures |t.entries| == size
  {
    if rs == [] then Empty(size)
    else
      var t, r := Registered(size, rs[..|rs| - 1]), rs[|rs| - 1];
      Tables(t.entries[r.id := Entry(r.kind, r.handler)], t.ids[r.kind := r.id])
  }

  /** An unknown name gets id 0. */
  function IdOf(t: Tables, k: Kind): Id {
    if k in t.ids then t.ids[k] else 0
  }

  function EntryOf(t: Tables, id: Id): Entry {
    if id < |t.entries| then t.entries[id] else NoEntry
  }

  // ----- what the tables hold -----

  /** Registration `i` is the last one of its kind. */
  ghost predicate LastOfKind(rs: seq<Registration>, i: nat) {
    i < |rs| && forall j :: i < j < |rs| ==> rs[j].kind != rs[i].kind
  }

  ghost predicate LastOfId(rs: seq<Registration>, i: nat) {
    i < |rs| && forall j :: i < j < |rs| ==> rs[j].id != rs[i].id
  }

  lemma {:induction false} IdOfLast(size: nat, rs: seq<Registration>, i: nat)
    requires InRange(size, rs) && LastOfKind(rs, i)
    ensures rs[i].kind in Registered(size, rs).ids && IdOf(Registered(size, rs), rs[i].kind) == rs[i].id
    decreases |rs|
  {
    if i < |rs| - 1 {
      IdOfLast(size, rs[..|rs| - 1], i);
      assert rs[|rs| - 1].kind != rs[i].kind;
    }
  }

  lemma {:induction false} EntryOfLast(size: nat, rs: seq<Registration>, i: nat)
    requires InRange(size, rs) && LastOfId(rs, i)
    ensures EntryOf(Registered(size, rs), rs[i].id) == Entry(rs[i].kind, rs[i].handler)
    decreases |rs|
  {
    if i < |rs| - 1 {
      EntryOfLast(size, rs[..|rs| - 1], i);
      assert rs[|rs| - 1].id != rs[i].id;
    }
  }

  lemma {:induction false} HasLastOfId(rs: seq<Registration>, i: nat) returns (last: nat)
    requires i < |rs|
    ensures i <= last && LastOfId(rs, last) && rs[last].id == rs[i].id
    decreases |rs| - i
  {
    if j :| i < j < |rs| && rs[j].id == rs[i].id {
      last := HasLastOfId(rs, j);
    } else {
      last := i;
    }
  }

  lemma {:induction false} HasLastOfKind(rs: seq<Registration>, i: nat) returns (last: nat)
    requires i < |rs|
    ensures i <= last && LastOfKind(rs, last) && rs[last].kind == rs[i].kind
    decreases |rs| - i
  {
    if j :| i < j < |rs| && rs[j].kind == rs[i].kind {
      last := HasLastOfKind(rs, j);
    } else {
      last := i;
    }
  }

  lemma {:induction false} NeverRegistered(size: nat, rs: seq<Registration>, k: Kind)
    requires InRange(size, rs) && forall i :: 0 <= i < |rs| ==> rs[i].kind != k
    ensures k !in Registered(size, rs).ids
    ensures forall i :: 0 <= i < size && Registered(size, rs).entries[i].Entry? ==> Registered(size, rs).entries[i].creates != k
    decreases |rs|
  {
    if rs != [] {
      NeverRegistered(size, rs[..|rs| - 1], k);
    }
  }

  /** After any registrations, however ids and names repeat: looking up the id of a name and
      creating a message by that id gives that name exactly when the name was registered and
      its last registration was not overwritten by a later one under the same id. */
  lemma NameRoundTrip(size: nat, rs: seq<Registration>, k: Kind)
    requires InRange(size, rs)
    ensures var t := Registered(size, rs); var e := EntryOf(t, IdOf(t, k));
            e.Entry? && e.creates == k <==>
            exists i: nat :: LastOfKind(rs, i) && rs[i].kind == k && LastOfId(rs, i)
  {
    var t := Registered(size, rs);
    if i :| 0 <= i < |rs| && rs[i].kind == k {
      var last := HasLastOfKind(rs, i);
      IdOfLast(size, rs, last);
      var over := HasLastOfId(rs, last);
      EntryOfLast(size, rs, over);
      if over != last {
        assert rs[over].kind != k;
      }
      forall j: nat | LastOfKind(rs, j) && rs[j].kind == k
        ensures j == last
      {
        assert !(j < last) && !(last < j);
      }
    } else {
      NeverRegistered(size, rs, k);
    }
  }

  /** The other way round: creating a message by an id and looking up the id of its name gives
      that id exactly when the id was registered and its last registration was not followed by
      one of the same name under another id. */
  lemma IdRoundTrip(size: nat, rs: seq<Registration>, i: nat)
    requires InRange(size, rs) && LastOfId(rs, i)
    ensures var t := Registered(size, rs); var e := EntryOf(t, rs[i].id);
            && e == Entry(rs[i].kind, rs[i].handler)
            && (IdOf(t, e.creates) == rs[i].id <==>
                  forall j :: i < j < |rs| && LastOfKind(rs, j) ==> rs[j].kind != rs[i].kind)
  {
    EntryOfLast(size, rs, i);
    var last := HasLastOfKind(rs, i);
    IdOfLast(size, rs, last);
    if last != i {
      assert rs[last].id != rs[i].id;
    }
  }

  ghost predicate Distinct(rs: seq<Registration>) {
    forall i, j :: 0 <= i < j < |rs| ==> rs[i].id != rs[j].id && rs[i].kind != rs[j].kind
  }

  /** With distinct ids and distinct names the two lookups are inverse on what is registered,
      and an id leads to the handler it was registered with. */
  lemma Inverse(size: nat, rs: seq<Registration>, i: nat)
    requires InRange(size, rs) && Distinct(rs) && i < |rs|
    ensures var t := Registered(size, rs);
            IdOf(t, rs[i].kind) == rs[i].id && EntryOf(t, rs[i].id) == Entry(rs[i].kind, rs[i].handler)
  {
    IdOfLast(size, rs, i);
    EntryOfLast(size, rs, i);
  }

  // ----- the server's own registrations -----

  function Position(k: Kind): (i: nat)
    requires !k.Other?
    ensures i < TABLE_SIZE
  {
    match k
    case Ping => 0 case Pong => 1 case SigninRequest => 2 case SigninResponse => 3
    case SignupRequest => 4 case SignupResponse => 5 case RegisterRequest => 6 case RegisterResponse => 7
    case CreateRoomRequest => 8 case FindRoomRequest => 9 case FindRoomResponse => 10
    case JoinRoomRequest => 11 case JoinRoomResponse => 12 case LeaveRoomRequest => 13
    case UpdateRoomInfo => 14 case BroadcastRequest => 15 case BroadcastResponse => 16
    case GameRequest => 17 case GameResponse => 18
  }

  function KindAt(i: nat): Kind
    requires i < TABLE_SIZE
  {
    if i == 0 then Ping else if i == 1 then Pong else if i == 2 then SigninRequest
    else if i == 3 then SigninResponse else if i == 4 then SignupRequest else if i == 5 then SignupResponse
    else if i == 6 then RegisterRequest else if i == 7 then RegisterResponse else if i == 8 then CreateRoomRequest
    else if i == 9 then FindRoomRequest else if i == 10 then FindRoomResponse else if i == 11 then JoinRoomRequest
    else if i == 12 then JoinRoomResponse else if i == 13 then LeaveRoomRequest else if i == 14 then UpdateRoomInfo
    else if i == 15 then BroadcastRequest else if i == 16 then BroadcastResponse
    else if i == 17 then GameRequest else GameResponse
  }

  function HandlerOf(k: Kind): Handler {
    match k
    case Ping => SendPong
    case SigninRequest => SignIn
    case SignupRequest => SignUp
    case RegisterRequest => RegisterName
    case CreateRoomRequest => CreateRoom
    case FindRoomRequest => FindRoom
    case JoinRoomRequest => JoinRoom
    case LeaveRoomRequest => LeaveRoom
    case BroadcastRequest => Broadcast
    case GameRequest => StartGame
    case _ => Nothing
  }

  lemma PositionOfKind(i: nat, k: Kind)
    ensures i < TABLE_SIZE ==> !KindAt(i).Other? && Position(KindAt(i)) == i
    ensures !k.Other? ==> KindAt(Position(k)) == k
  {
  }

  /** The type whose creator and handler a message gets: one that is not registered goes out
      under id 0, which is that of `Ping`. */
  function Reaches(k: Kind): Kind {
    if k.Other? then Ping else k
  }

  lemma KindsAt()
    ensures KindAt(0) == Ping && KindAt(1) == Pong && KindAt(2) == SigninRequest && KindAt(3) == SigninResponse
    ensures KindAt(4) == SignupRequest && KindAt(5) == SignupResponse && KindAt(6) == RegisterRequest
    ensures KindAt(7) == RegisterResponse && KindAt(8) == CreateRoomRequest && KindAt(9) == FindRoomRequest
    ensures KindAt(10) == FindRoomResponse && KindAt(11) == JoinRoomRequest && KindAt(12) == JoinRoomResponse
    ensures KindAt(13) == LeaveRoomRequest && KindAt(14) == UpdateRoomInfo && KindAt(15) == BroadcastRequest
    ensures KindAt(16) == BroadcastResponse && KindAt(17) == GameRequest && KindAt(18) == GameResponse
  {
  }

  /** The registrations of `Init`, in order. */
  function Standard(): (rs: seq<Registration>)
    ensures |rs| == TABLE_SIZE && InRange(TABLE_SIZE, rs)
    ensures forall i: nat :: i < TABLE_SIZE ==> rs[i] == Registration(i, KindAt(i), HandlerOf(KindAt(i)))
  {
    seq(TABLE_SIZE, i requires 0 <= i < TABLE_SIZE => Registration(i, KindAt(i), HandlerOf(KindAt(i))))
  }

  lemma StandardDistinct()
    ensures Distinct(Standard())
  {
    hide KindAt, Position, HandlerOf;
    var rs := Standard();
    forall i, j | 0 <= i < j < |rs|
      ensures rs[i].id != rs[j].id && rs[i].kind != rs[j].kind
    {
      PositionOfKind(i, Ping);
      PositionOfKind(j, Ping);
    }
  }

  lemma NotStandard(k: Kind)
    requires k.Other?
    ensures k !in Registered(TABLE_SIZE, Standard()).ids
  {
    hide KindAt, Position, HandlerOf;
    var rs := Standard();
    forall i | 0 <= i < |rs|
      ensures rs[i].kind != k
    {
      PositionOfKind(i, k);
    }
    NeverRegistered(TABLE_SIZE, rs, k);
  }

  /** After `Init` the name of a type leads to its id, its creator and its handler exactly if
      it is one of the nineteen; any other name leads to those of `Ping`. An id creates a
      message exactly below nineteen, and the name of that message leads back to the id. */
  lemma StandardInverse(k: Kind, id: Id)
    ensures var t := Registered(TABLE_SIZE, Standard());
            && EntryOf(t, IdOf(t, k)) == Entry(Reaches(k), HandlerOf(Reaches(k))) && IdOf(t, k) < TABLE_SIZE
            && (EntryOf(t, IdOf(t, k)).creates == k <==> k in t.ids) && (k in t.ids <==> !k.Other?)
            && (id < TABLE_SIZE <==> EntryOf(t, id).Entry?)
            && (id < TABLE_SIZE ==> IdOf(t, EntryOf(t, id).creates) == id)
  {
    hide Position, HandlerOf, Registered;
    var rs, t := Standard(), Registered(TABLE_SIZE, Standard());
    StandardDistinct();
    PositionOfKind(0, k);
    if k.Other? {
      NotStandard(k);
      Inverse(TABLE_SIZE, rs, 0);
    } else {
      IdOfLast(TABLE_SIZE, rs, Position(k));
      Inverse(TABLE_SIZE, rs, Position(k));
    }
    if id < TABLE_SIZE {
      Inverse(TABLE_SIZE, rs, id);
    }
  }

  /** The table of `Init`, entry by entry. */
  lemma StandardTable()
    ensures var t := Registered(TABLE_SIZE, Standard());
            t.entries == [
              Entry(Ping, SendPong), Entry(Pong, Nothing), Entry(SigninRequest, SignIn), Entry(SigninResponse, Nothing),
              Entry(SignupRequest, SignUp), Entry(SignupResponse, Nothing), Entry(RegisterRequest, RegisterName),
              Entry(RegisterResponse, Nothing), Entry(CreateRoomRequest, CreateRoom), Entry(FindRoomRequest, FindRoom),
              Entry(FindRoomResponse, Nothing), Entry(JoinRoomRequest, JoinRoom), Entry(JoinRoomResponse, Nothing),
              Entry(LeaveRoomRequest, LeaveRoom), Entry(UpdateRoomInfo, Nothing), Entry(BroadcastRequest, Broadcast),
              Entry(BroadcastResponse, Nothing), Entry(GameRequest, StartGame), Entry(GameResponse, Nothing)]
  {
    hide KindAt, Registered;
    KindsAt();
    StandardDistinct();
    var t := Registered(TABLE_SIZE, Standard());
    forall i: nat | i < TABLE_SIZE
      ensures t.entries[i] == Entry(KindAt(i), HandlerOf(KindAt(i)))
    {
      Inverse(TABLE_SIZE, Standard(), i);
    }
  }

  lemma NoneYet()
    ensures Registered(TABLE_SIZE, []) == Empty(TABLE_SIZE) && Standard()[..0] == []
  {
  }

  class PacketHandler {
    var packetTable: seq<Entry>
    var nameToId: map<Kind, Id>

    ghost function View(): Tables
      reads this
    {
      Tables(packetTable, nameToId)
    }

    constructor ()
      ensures View() == Empty(0)
    {
      packetTable, nameToId := [], map[];
    }

    method Init()
      requires View() == Empty(0)
      modifies this
      ensures View() == Registered(TABLE_SIZE, Standard())
    {
      hide KindAt, Filled;
      Resize();
      KindsAt();
      Next(0, Ping, SendPong);
      Next(1, Pong, Nothing);
      Next(2, SigninRequest, SignIn);
      Next(3, SigninResponse, Nothing);
      Next(4, SignupRequest, SignUp);
      Next(5, SignupResponse, Nothing);
      Next(6, RegisterRequest, RegisterName);
      Next(7, RegisterResponse, Nothing);
      Next(8, CreateRoomRequest, CreateRoom);
      Next(9, FindRoomRequest, FindRoom);
      Next(10, FindRoomResponse, Nothing);
      Next(11, JoinRoomRequest, JoinRoom);
      Next(12, JoinRoomResponse, Nothing);
      Next(13, LeaveRoomRequest, LeaveRoom);
      Next(14, UpdateRoomInfo, Nothing);
      Next(15, BroadcastRequest, Broadcast);
      Next(16, BroadcastResponse, Nothing);
      Next(17, GameRequest, StartGame);
      Next(18, GameResponse, Nothing);
      AllFilled();
    }

    /** The first `n` registrations of `Init` have been made. */
    ghost predicate Filled(n: nat)
      reads this
    {
      n <= TABLE_SIZE && View() == Registered(TABLE_SIZE, Standard()[..n])
    }

    method Resize()
      requires View() == Empty(0)
      modifies this
      ensures Filled(0)
    {
      packetTable := seq(TABLE_SIZE, _ => NoEntry);
      NoneYet();
    }

    lemma AllFilled()
      requires Filled(TABLE_SIZE)
      ensures View() == Registered(TABLE_SIZE, Standard())
    {
      assert Standard()[..TABLE_SIZE] == Standard();
    }

    /** The next registration of `Init`. */
    method Next(id: Id, kind: Kind, handler: Handler)
      requires id < TABLE_SIZE && kind == KindAt(id) && handler == HandlerOf(kind)
      requires Filled(id)
      modifies this
      ensures Filled(id + 1)
    {
      assert Standard()[..id + 1][..id] == Standard()[..id];
      Register(id, kind, handler);
    }

    /** The table is a vector: the id must be within it. */
    method Register(id: Id, kind: Kind, handler: Handler)
      requires id < |packetTable|
      modifies this
      ensures packetTable == old(packetTable)[id := Entry(kind, handler)]
      ensures nameToId == old(nameToId)[kind := id]
    {
      packetTable := packetTable[id := Entry(kind, handler)];
      nameToId := nameToId[kind := id];
    }

    /** An id beyond the table creates nothing; one within it must have been registered. */
    method CreateMessageById(id: Id) returns (message: Option<Kind>)
      requires id < |packetTable| ==> packetTable[id].Entry?
      ensures message == match EntryOf(View(), id) case NoEntry => None case Entry(k, _) => Some(k)
    {
      if id >= |packetTable| {
        return None;
      }
      message := Some(packetTable[id].creates);
    }

    method GetMessageIdByName(kind: Kind) returns (id: Id)
      ensures id == IdOf(View(), kind)
    {
      if kind in nameToId {
        return nameToId[kind];
      }
      id := 0;
    }

    /** The handler that gets the message, if any does. */
    method HandlePacket(id: Id) returns (handler: Option<Handler>)
      requires id < |packetTable| ==> packetTable[id].Entry?
      ensures handler == match EntryOf(View(), id) case NoEntry => None case Entry(_, h) => Some(h)
    {
      if id >= |packetTable| {
        return None;
      }
      handler := Some(packetTable[id].handler);
    }
  }
}
