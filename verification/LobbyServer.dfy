/**
  The lobby's objects: rooms with their session sets, the room manager with its table, and
  the packet handlers that drive them. Every method is proved against `Rooms`.
 */
module LobbyServer {
  import R = Rooms
  import Lobby
  import opened Numbers

  datatype Ignored = Nobody | Only(sid: nat)

  function Skipped(ignored: Ignored): set<nat> {
    if ignored.Only? then {ignored.sid} else {}
  }

  lemma TellNone(s: R.State, r: R.Room, none: set<nat>)
    requires r.members <= s.users.Keys && none == {}
    ensures R.Tell(s, r, none).inbox == s.inbox
  {
  }

  lemma TellMore(s: R.State, r: R.Room, done: set<nat>, m: nat)
    requires r.members <= s.users.Keys && m in s.users && m in s.inbox && m !in done
    ensures var told := R.Tell(s, r, done).inbox;
            R.Tell(s, r, done + {m}).inbox
              == told[m := told[m] + [R.Update(s.users[m], R.ListingOf(r), R.Listed(r.members, s.users, s.names))]]
  {
  }

  lemma SeatIs(s: R.State, k: R.Key, sid: nat)
    requires k in s.rooms
    ensures var r := s.rooms[k];
            R.Seat(s, k, sid) ==
              s.(rooms := s.rooms[k := R.Room(r.info, r.members + {sid})], roomOf := s.roomOf[sid := R.ToInt(r.info.id)])
  {
  }

  /** A session's seat is taken back ... */
  function Without(s: R.State, k: R.Key, sid: nat): R.State
    requires k in s.rooms
  {
    s.(rooms := s.rooms[k := s.rooms[k].(members := s.rooms[k].members - {sid})], roomOf := s.roomOf[sid := R.NO_ROOM])
  }

  /** ... and the host's place, if it was its own, is passed on. */
  function Hosted(s: R.State, k: R.Key, sid: nat, first: nat): R.State
    requires k in s.rooms && sid in s.users && first in s.users
  {
    var info := s.rooms[k].info;
    s.(rooms := s.rooms[k := s.rooms[k].(info := info.(host := if s.users[sid] == info.host then s.users[first] else info.host))])
  }

  lemma LeaveLast(s: R.State, k: R.Key, sid: nat, first: nat)
    requires R.Tables(s) && k in s.rooms && sid in s.users && s.rooms[k].info.id == k && s.rooms[k].members - {sid} == {}
    ensures R.MayLeave(s, k, sid, first)
    ensures R.LeaveRoom(s, k, sid, first) == Without(s, k, sid).(rooms := Without(s, k, sid).rooms - {k})
  {
    R.KeyRoundTrip(k);
  }

  lemma LeaveOccupied(s: R.State, k: R.Key, sid: nat, first: nat)
    requires R.Tables(s) && sid in s.users && k in s.rooms && first in s.rooms[k].members - {sid}
    ensures R.MayLeave(s, k, sid, first)
    ensures var t := R.Vacate(s, k, sid, first);
            && t == Hosted(Without(s, k, sid), k, sid, first)
            && R.LeaveRoom(s, k, sid, first) == t.(inbox := R.Tell(t, t.rooms[k], t.rooms[k].members).inbox)
  {
  }

  lemma AdmitSends(s: R.State, k: R.Key, sid: nat)
    requires R.Tables(s) && k in s.rooms && sid in s.users
    ensures var s1 := R.Seat(s, k, sid); var r := s1.rooms[k];
            R.Admit(s, k, sid) ==
              s1.(inbox := if |r.members| > 1 then R.Tell(s1, r, r.members - {sid}).inbox else s.inbox)
  {
  }

  lemma OpenedUsers(s: R.State, sid: nat, name: string, max: R.Uint32)
    requires R.Tables(s) && sid in s.users && |s.rooms| < R.UINT_RANGE
    ensures var t, k := R.Opened(s, sid, name, max), R.NewKey(s);
            && R.Tables(t) && k in t.rooms && t.users == s.users && (R.Full(t.rooms[k]) <==> max == 0)
            && R.Admit(t, k, sid).users == s.users
  {
  }

  lemma AdmitUsers(s: R.State, k: R.Key, sid: nat)
    requires R.Tables(s) && k in s.rooms && sid in s.users
    ensures R.Admit(s, k, sid).users == s.users
  {
  }

  lemma LeaveUsers(s: R.State, k: R.Key, sid: nat, first: nat)
    requires R.Tables(s) && R.MayLeave(s, k, sid, first)
    ensures R.LeaveRoom(s, k, sid, first).users == s.users
  {
  }

  /** The sessions a lobby operation reaches, with what was sent to each. */
  class Clients {
    var users: map<nat, string>
    var roomOf: map<nat, int>
    var names: map<string, string>    // the user table of the database
    var inbox: map<nat, seq<R.Msg>>

    constructor (names: map<string, string>)
      ensures users == map[] && roomOf == map[] && inbox == map[] && this.names == names
    {
      users, roomOf, inbox, this.names := map[], map[], map[], names;
    }

    method Send(sid: nat, m: R.Msg)
      requires sid in inbox
      modifies this`inbox
      ensures inbox == old(inbox)[sid := old(inbox)[sid] + [m]]
    {
      inbox := inbox[sid := inbox[sid] + [m]];
    }

    method SuccessLogin(sid: nat, user: string)
      modifies this`users
      ensures users == old(users)[sid := user]
    {
      users := users[sid := user];
    }

    /** The user table of the database gets the name. */
    method UserNameRegister(name: string, user: string)
      modifies this`names
      ensures names == old(names)[user := name]
    {
      names := names[user := name];
    }

    /** The parameter is a `uint`, the field an `int`. */
    method SetRoomId(sid: nat, id: R.Key)
      modifies this`roomOf
      ensures roomOf == old(roomOf)[sid := R.ToInt(id)]
    {
      roomOf := roomOf[sid := R.ToInt(id)];
    }
  }

  class Room {
    var info: R.RoomInfo
    var sessions: set<nat>
    const clients: Clients
    const manager: RoomManager

    constructor (id: R.Key, name: string, max: R.Uint32, host: string, manager: RoomManager)
      ensures info == R.RoomInfo(id, name, max, host) && sessions == {}
      ensures this.manager == manager && clients == manager.clients
    {
      info, sessions := R.RoomInfo(id, name, max, host), {};
      this.manager, clients := manager, manager.clients;
    }

    ghost function View(): R.Room
      reads this
    {
      R.Room(info, sessions)
    }

    /** This is a room of a manager whose lobby looks like `s`. */
    ghost predicate In(s: R.State)
      reads this, manager, manager.rooms.Values, manager.clients
    {
      && manager.Valid() && manager.View() == s
      && clients == manager.clients && info.id in manager.rooms && manager.rooms[info.id] == this
    }

    /** The list of members whose user is on record. */
    method UserList() returns (list: multiset<R.UserInfo>)
      requires sessions <= clients.users.Keys
      ensures list == R.Listed(sessions, clients.users, clients.names)
    {
      list := multiset{};
      var rest, done := sessions, {};
      while rest != {}
        invariant done !! rest && done + rest == sessions
        invariant list == R.Listed(done, clients.users, clients.names)
        decreases rest
      {
        var m :| m in rest;
        if clients.users[m] in clients.names {
          list := list + multiset{R.UserInfo(clients.users[m], clients.names[clients.users[m]])};
        }
        R.ListedWithout(done + {m}, m, clients.users, clients.names);
        assert done + {m} - {m} == done;
        rest, done := rest - {m}, done + {m};
      }
    }

    /** What the clients of a lobby that looks like `s` share with it. */
    ghost predicate Reaches(s: R.State)
      reads this, clients
    {
      && s.users == clients.users && s.names == clients.names && s.inbox == clients.inbox
      && s.inbox.Keys == s.users.Keys && sessions <= s.users.Keys
    }

    method UpdateRoomBroadcast(ignored: Ignored, ghost s: R.State)
      requires Reaches(s)
      modifies clients`inbox
      ensures clients.inbox == R.Tell(s, View(), sessions - Skipped(ignored)).inbox
    {
      hide R.Tell, R.Listed, R.ListingOf;
      var users := UserList();
      var listing := R.ListingOf(R.Room(info, sessions));
      var rest := sessions;
      ghost var done: set<nat> := {};
      TellNone(s, View(), done);
      while rest != {}
        invariant rest <= sessions && done == sessions - rest - Skipped(ignored)
        invariant clients.inbox == R.Tell(s, View(), done).inbox
        decreases rest
      {
        var m :| m in rest;
        rest := rest - {m};
        if ignored == Only(m) {
          continue;
        }
        TellMore(s, View(), done, m);
        clients.Send(m, R.Update(clients.users[m], listing, users));
        done := done + {m};
      }
      assert done == sessions - Skipped(ignored);
    }

    method Enter(sid: nat, ghost s: R.State) returns (ok: bool, response: R.Msg)
      requires In(s) && sid in s.users
      modifies this`sessions, clients`roomOf, clients`inbox
      ensures ok == !R.Full(s.rooms[info.id])
      ensures ok <==> |old(sessions)| < info.max
      ensures ok ==> In(R.Admit(s, info.id, sid)) && response == R.Welcome(s, info.id, sid)
      ensures !ok ==> In(s) && response == R.JoinFailed
    {
      hide R.Tell, R.Listed, R.Admit, R.Seat, In, R.Tables;
      Opens(s);
      if |sessions| + 1 > info.max {
        return false, R.JoinFailed;
      }
      ghost var s1 := R.Seat(s, info.id, sid);
      SeatIs(s, info.id, sid);
      sessions := sessions + {sid};
      clients.SetRoomId(sid, info.id);
      var users := UserList();
      response := R.JoinDone(clients.users[sid], R.ListingOf(R.Room(info, sessions)), info.host, users);
      if |sessions| > 1 {
        UpdateRoomBroadcast(Only(sid), s1);
      }
      OnlyMe(s);
      AdmitSends(s, info.id, sid);
      ok := true;
    }

    /** What a room knows of a lobby it is in. */
    lemma Opens(s: R.State)
      requires In(s)
      ensures R.Tables(s) && info.id in s.rooms && s.rooms[info.id] == View() && Reaches(s) && s.roomOf == clients.roomOf
      ensures sessions <= s.users.Keys && s.users == clients.users && s.inbox == clients.inbox
      ensures manager.clients == clients && manager.rooms.Keys == s.rooms.Keys
      ensures forall k :: k in manager.rooms && k != info.id ==> manager.rooms[k] != this
    {
    }

    lemma Whole(s: R.State)
      requires In(s)
      ensures manager.Valid() && manager.View() == s
    {
    }

    /** This room changed, and what its sessions believe and were sent; nothing else did. */
    twostate lemma OnlyMe(new s: R.State)
      requires old(In(s)) && unchanged(manager) && info.id == old(info.id)
      requires forall k :: k in manager.rooms && k != info.id ==> unchanged(manager.rooms[k])
      requires unchanged(clients`users, clients`names) && sessions <= clients.users.Keys
      requires clients.inbox.Keys == old(clients.inbox.Keys) && clients.roomOf.Keys == old(clients.roomOf.Keys)
      ensures In(s.(rooms := s.rooms[info.id := View()], roomOf := clients.roomOf, inbox := clients.inbox))
    {
      assert manager.View().rooms == s.rooms[info.id := View()];
    }

    /** Returns the session at the front of the set, if any is left. */
    method Leave(sid: nat, ghost s: R.State) returns (first: nat)
      requires In(s) && sid in s.users
      modifies this`info, this`sessions, manager`rooms, clients`roomOf, clients`inbox
      ensures R.MayLeave(s, old(info.id), sid, first)
      ensures manager.Valid() && manager.View() == R.LeaveRoom(s, old(info.id), sid, first)
    {
      hide R.Tell, R.LeaveRoom, R.Vacate, R.MayLeave, In, R.Tables, RoomManager.Valid, RoomManager.View;
      first := GiveUpSeat(sid, s);
      if |sessions| == 0 {
        return;
      }
      LeaveOccupied(s, info.id, sid, first);
      TellAll(R.Vacate(s, info.id, sid, first));
      Whole(R.LeaveRoom(s, info.id, sid, first));
    }

    /** `UpdateRoomBroadcast` to everybody. */
    method TellAll(ghost s: R.State)
      requires In(s)
      modifies clients`inbox
      ensures info.id in s.rooms && s.rooms[info.id].members <= s.users.Keys
      ensures In(s.(inbox := R.Tell(s, s.rooms[info.id], s.rooms[info.id].members).inbox))
    {
      hide R.Tell, In, Reaches;
      Opens(s);
      UpdateRoomBroadcast(Nobody, s);
      assert sessions - Skipped(Nobody) == sessions;
      OnlyMe(s);
      assert s.rooms[info.id := View()] == s.rooms;
    }

    /** All of `Leave` but the broadcast. */
    method GiveUpSeat(sid: nat, ghost s: R.State) returns (first: nat)
      requires In(s) && sid in s.users
      modifies this`info, this`sessions, manager`rooms, clients`roomOf
      ensures info.id == old(info.id) && R.Tables(s) && info.id in s.rooms && sessions == s.rooms[info.id].members - {sid}
      ensures R.MayLeave(s, info.id, sid, first) && (sessions != {} ==> first in sessions)
      ensures sessions == {} ==> manager.Valid() && manager.View() == R.LeaveRoom(s, info.id, sid, first)
      ensures sessions != {} ==> In(R.Vacate(s, info.id, sid, first))
    {
      hide R.LeaveRoom, R.Vacate, R.MayLeave, In, R.Tables, RoomManager.Valid, RoomManager.View;
      Opens(s);
      TakeOut(sid, s);
      ghost var t := Without(s, info.id, sid);
      if |sessions| == 0 {
        first := sid;
        Disband(t);
        LeaveLast(s, info.id, sid, first);
      } else {
        first :| first in sessions;
        PassHost(sid, first, t);
        LeaveOccupied(s, info.id, sid, first);
      }
    }

    method TakeOut(sid: nat, ghost s: R.State)
      requires In(s) && sid in s.users
      modifies this`sessions, clients`roomOf
      ensures info.id in s.rooms && sessions == old(sessions) - {sid} && In(Without(s, info.id, sid))
    {
      hide R.Tables, In;
      Opens(s);
      R.KeyRoundTrip(info.id);
      sessions := sessions - {sid};
      clients.SetRoomId(sid, R.ToUint(R.NO_ROOM));
      OnlyMe(s);
    }

    /** A leaving host's place goes to the session at the front of the set. */
    method PassHost(sid: nat, first: nat, ghost s: R.State)
      requires In(s) && sid in s.users && first in s.users
      modifies this`info
      ensures info.id == old(info.id) && In(Hosted(s, info.id, sid, first))
    {
      hide R.Tables, In;
      Opens(s);
      if clients.users[sid] == info.host {
        info := info.(host := clients.users[first]);
      }
      OnlyMe(s);
    }

    /** This room is taken off the table. */
    method Disband(ghost s: R.State)
      requires In(s)
      modifies manager`rooms
      ensures manager.Valid() && manager.View() == s.(rooms := s.rooms - {info.id})
    {
      R.KeyRoundTrip(info.id);
      manager.RemoveRoom(R.ToInt(info.id));
      assert manager.View().rooms == s.rooms - {info.id};
    }

    method Broadcast(sid: nat, text: string, ghost s: R.State)
      requires In(s) && sid in s.users
      modifies clients`inbox
      ensures In(s.(inbox := if s.users[sid] in s.names
                             then R.Post(s.inbox, sessions, _ => R.Said(s.names[s.users[sid]], text)) else s.inbox))
    {
      Opens(s);
      if clients.users[sid] in clients.names {
        SendAll(sessions, R.Said(clients.names[clients.users[sid]], text));
        OnlyMe(s);
        assert s.rooms[info.id := View()] == s.rooms;
      }
    }

    method StartGame(url: string, sid: nat, ghost s: R.State)
      requires In(s)
      modifies clients`inbox
      ensures In(s.(inbox := R.Post(s.inbox, sessions - {sid}, _ => R.Game(url))))
    {
      Opens(s);
      SendAll(sessions - {sid}, R.Game(url));
      OnlyMe(s);
      assert s.rooms[info.id := View()] == s.rooms;
    }

    /** The same message to every session of a set. */
    method SendAll(to: set<nat>, m: R.Msg)
      requires to <= clients.inbox.Keys
      modifies clients`inbox
      ensures clients.inbox == R.Post(old(clients.inbox), to, _ => m)
    {
      var rest := to;
      while rest != {}
        invariant rest <= to && clients.inbox.Keys == old(clients.inbox.Keys)
        invariant forall k :: k in clients.inbox ==>
                    clients.inbox[k] == if k in to - rest then old(clients.inbox[k]) + [m] else old(clients.inbox[k])
        decreases rest
      {
        var k :| k in rest;
        clients.Send(k, m);
        rest := rest - {k};
      }
    }
  }

  class RoomManager {
    var rooms: map<R.Key, Room>
    const clients: Clients
    ghost var peak: nat

    constructor (clients: Clients)
      requires clients.users == map[] && clients.roomOf == map[] && clients.inbox == map[]
      ensures Valid() && View() == R.Init(clients.names) && this.clients == clients
    {
      rooms, this.clients, peak := map[], clients, 0;
    }

    ghost function View(): R.State
      reads this, rooms.Values, clients
    {
      R.State(map k | k in rooms :: rooms[k].View(), clients.roomOf, clients.users, clients.names, clients.inbox, peak)
    }

    ghost predicate Valid()
      reads this, rooms.Values, clients
    {
      && R.Tables(View())
      && forall k :: k in rooms ==> rooms[k].manager == this && rooms[k].clients == clients && rooms[k].info.id == k
    }

    /** The least key that is free. */
    method FreeKey(ghost s: R.State) returns (key: R.Key)
      requires s.rooms.Keys == rooms.Keys && |s.rooms| < R.UINT_RANGE
      ensures key == R.NewKey(s)
    {
      key := 0;
      while key in rooms
        invariant key <= R.NewKey(s)
        decreases R.NewKey(s) - key
      {
        key := (key + 1) % R.UINT_RANGE;
      }
    }

    method CreateRoom(sid: nat, name: string, max: R.Uint32, ghost s: R.State) returns (response: R.Msg)
      requires Valid() && View() == s && sid in s.users && |s.rooms| < R.UINT_RANGE
      modifies this`rooms, clients`roomOf, clients`inbox
      ensures Valid()
      ensures var t, k := R.Opened(s, sid, name, max), R.NewKey(s);
              if max == 0 then View() == t && response == R.JoinFailed
              else View() == R.Admit(t, k, sid) && response == R.Welcome(t, k, sid)
    {
      hide R.Admit, R.Welcome;
      var key := FreeKey(s);
      var room := new Room(key, name, max, clients.users[sid], this);
      rooms := rooms[key := room];
      ghost var t := R.Opened(s, sid, name, max);
      Filed(s, room);
      assert t == s.(rooms := s.rooms[key := room.View()]);
      var ok;
      ok, response := room.Enter(sid, t);
    }

    /** A new empty room was put on the table. */
    twostate lemma Filed(new s: R.State, new room: Room)
      requires old(Valid()) && old(View()) == s && peak == old(peak) && unchanged(clients)
      requires rooms == old(rooms)[room.info.id := room] && forall k :: k in old(rooms) ==> unchanged(old(rooms[k]))
      requires room.sessions == {} && room.clients == clients && room.manager == this && room.info.id !in old(rooms)
      ensures room.In(s.(rooms := s.rooms[room.info.id := room.View()]))
    {
      assert View().rooms == s.rooms[room.info.id := room.View()];
    }

    method RemoveRoom(roomId: int)
      modifies this`rooms
      ensures rooms == old(rooms) - {R.ToUint(roomId)}
    {
      rooms := rooms - {R.ToUint(roomId)};
    }

    /** The parameter is an `int`, the keys are `uint`. */
    method GetRoom(roomId: int) returns (room: Room?)
      ensures room == null <==> R.ToUint(roomId) !in rooms
      ensures room != null ==> rooms[R.ToUint(roomId)] == room && room in rooms.Values
    {
      var key := R.ToUint(roomId);
      room := if key in rooms then rooms[key] else null;
    }

    /** The other `GetRoom`: every room whose name contains `query`. */
    method FindRooms(query: string, ghost s: R.State) returns (found: set<R.Listing>)
      requires Valid() && View() == s
      ensures found == R.Matching(s.rooms, query) && Lobby.AreFound(found, s.rooms, query)
    {
      hide R.Matching, R.Contains, R.Tables;
      Lobby.MatchingFound(s.rooms, query);
      found := {};
      var rest := rooms.Keys;
      MatchingAt(Among({}), query);
      while rest != {}
        invariant rest <= rooms.Keys
        invariant found == R.Matching(Among(rooms.Keys - rest), query)
        decreases rest
      {
        var id :| id in rest;
        var room := rooms[id];
        if R.Contains(room.info.name, query) {
          found := found + {R.Listing(id, room.info.name, |room.sessions|, room.info.max)};
        }
        AmongMore(rest, id);
        MatchMore(Among(rooms.Keys - rest), id, room.View(), query);
        rest := rest - {id};
      }
      assert Among(rooms.Keys - rest) == View().rooms;
    }

    method Send(sid: nat, m: R.Msg, ghost s: R.State)
      requires Valid() && View() == s && sid in s.users
      modifies clients`inbox
      ensures Valid() && View() == R.Reply(s, sid, m)
    {
      clients.Send(sid, m);
      assert View().rooms == s.rooms;
    }

    /** History only: the highest number of rooms so far. */
    ghost method Settle(e: R.Event, s: R.State)
      requires R.Enabled(s, e) && Valid() && View() == R.Act(s, e)
      modifies this`peak
      ensures Valid() && View() == R.Step(s, e)
    {
      hide R.Act;
      peak := Max(s.peak, |R.Act(s, e).rooms|);
      assert View().rooms == R.Act(s, e).rooms;
    }

    /** What a handler may ask of the room it found. */
    lemma Found(k: R.Key, s: R.State)
      requires Valid() && View() == s
      ensures rooms.Keys == s.rooms.Keys && clients.roomOf == s.roomOf && R.Tables(s)
      ensures k in rooms ==> rooms[k].In(s) && rooms[k].info.id == k && rooms[k].manager == this && rooms[k].clients == clients
    {
    }

    // ----- the packet handlers -----

    /** `granted` is the answer of the user table. */
    method SigninRequest(sid: nat, user: string, granted: bool, ghost s: R.State)
      requires Valid() && View() == s && R.Enabled(s, R.SignIn(sid, user))
      modifies this, clients
      ensures Valid() && View() == if granted then R.Step(s, R.SignIn(sid, user)) else s
    {
      if granted {
        clients.SuccessLogin(sid, user);
        assert View().rooms == s.rooms;
        Settle(R.SignIn(sid, user), s);
      }
    }

    method RegisterRequest(sid: nat, name: string, ghost s: R.State)
      requires Valid() && View() == s && R.Enabled(s, R.Rename(sid, name))
      modifies this, clients
      ensures Valid() && View() == R.Step(s, R.Rename(sid, name))
    {
      clients.UserNameRegister(name, clients.users[sid]);
      assert View().rooms == s.rooms;
      Settle(R.Rename(sid, name), s);
    }

    method CreateRoomRequest(sid: nat, name: string, max: R.Uint32, ghost s: R.State)
      requires Valid() && View() == s && R.Enabled(s, R.Create(sid, name, max))
      modifies this, clients
      ensures Valid() && View() == R.Step(s, R.Create(sid, name, max))
    {
      hide Valid, View, R.Admit, R.Welcome, R.Opened;
      var response := CreateRoom(sid, name, max, s);
      ghost var t, k := R.Opened(s, sid, name, max), R.NewKey(s);
      OpenedUsers(s, sid, name, max);
      Send(sid, response, if max == 0 then t else R.Admit(t, k, sid));
      Settle(R.Create(sid, name, max), s);
    }

    method FindRoomRequest(sid: nat, query: string, ghost s: R.State)
      requires Valid() && View() == s && R.Enabled(s, R.Find(sid, query))
      modifies this, clients
      ensures Valid() && View() == R.Step(s, R.Find(sid, query))
    {
      hide Valid, View, R.Matching;
      var found := FindRooms(query, s);
      Send(sid, R.Found(found), s);
      Settle(R.Find(sid, query), s);
    }

    method JoinRoomRequest(sid: nat, id: R.Key, ghost s: R.State)
      requires Valid() && View() == s && R.Enabled(s, R.Join(sid, id))
      modifies this, clients, rooms.Values
      ensures Valid() && View() == R.Step(s, R.Join(sid, id))
    {
      hide Valid, View, R.Admit, R.Welcome, Room.In;
      R.KeyRoundTrip(id);
      Found(id, s);
      var room := GetRoom(R.ToInt(id));
      if room != null {
        var ok, response := room.Enter(sid, s);
        if ok {
          room.Whole(R.Admit(s, id, sid));
          AdmitUsers(s, id, sid);
          Send(sid, response, R.Admit(s, id, sid));
          Settle(R.Join(sid, id), s);
          return;
        }
        room.Whole(s);
      }
      Send(sid, R.JoinFailed, s);
      Settle(R.Join(sid, id), s);
    }

    method LeaveRoomRequest(sid: nat, query: string, ghost s: R.State) returns (first: nat)
      requires Valid() && View() == s && R.Tables(s) && sid in s.users
      modifies this, clients, rooms.Values
      ensures R.Enabled(s, R.Leave(sid, query, first))
      ensures Valid() && View() == R.Step(s, R.Leave(sid, query, first))
    {
      hide Valid, View, R.LeaveRoom, R.Matching, Room.In;
      first := sid;
      Found(R.KeyOf(s, sid), s);
      ghost var t := s;
      var room := GetRoom(clients.roomOf[sid]);
      if room != null {
        first := room.Leave(sid, s);
        t := R.LeaveRoom(s, R.KeyOf(s, sid), sid, first);
        LeaveUsers(s, R.KeyOf(s, sid), sid, first);
      }
      var found := FindRooms(query, t);
      Send(sid, R.Found(found), t);
      Settle(R.Leave(sid, query, first), s);
    }

    method BroadcastRequest(sid: nat, text: string, ghost s: R.State)
      requires Valid() && View() == s && R.Enabled(s, R.Broadcast(sid, text))
      modifies this, clients, rooms.Values
      ensures Valid() && View() == R.Step(s, R.Broadcast(sid, text))
    {
      hide Valid, View, Room.In;
      Found(R.KeyOf(s, sid), s);
      var room := GetRoom(clients.roomOf[sid]);
      if room != null {
        room.Opens(s);
        room.Broadcast(sid, text, s);
        room.Whole(R.Act(s, R.Broadcast(sid, text)));
      }
      Settle(R.Broadcast(sid, text), s);
    }

    method GameRequest(sid: nat, url: string, ghost s: R.State)
      requires Valid() && View() == s && R.Enabled(s, R.StartGame(sid, url))
      modifies this, clients, rooms.Values
      ensures Valid() && View() == R.Step(s, R.StartGame(sid, url))
    {
      hide Valid, View, Room.In;
      Found(R.KeyOf(s, sid), s);
      var room := GetRoom(clients.roomOf[sid]);
      if room != null {
        room.Opens(s);
        room.StartGame(url, sid, s);
        room.Whole(R.Act(s, R.StartGame(sid, url)));
      }
      Settle(R.StartGame(sid, url), s);
    }

    /** The rooms under some of the keys. */
    ghost function Among(keys: set<R.Key>): map<R.Key, R.Room>
      reads this, rooms.Values
    {
      map k | k in rooms && k in keys :: rooms[k].View()
    }

    lemma AmongMore(rest: set<R.Key>, k: R.Key)
      requires k in rest && rest <= rooms.Keys
      ensures var before := Among(rooms.Keys - rest);
              k !in before && before[k := rooms[k].View()] == Among(rooms.Keys - (rest - {k}))
    {
    }
  }

  lemma MatchingAt(rooms: map<R.Key, R.Room>, query: string)
    ensures forall l :: l in R.Matching(rooms, query) <==>
              && l.id in rooms && R.Contains(rooms[l.id].info.name, query)
              && l == R.Listing(l.id, rooms[l.id].info.name, |rooms[l.id].members|, rooms[l.id].info.max)
  {
  }

  lemma MatchMore(rooms: map<R.Key, R.Room>, k: R.Key, r: R.Room, query: string)
    requires k !in rooms
    ensures R.Matching(rooms[k := r], query)
         == R.Matching(rooms, query) + if R.Contains(r.info.name, query) then {R.Listing(k, r.info.name, |r.members|, r.info.max)} else {}
  {
    hide R.Matching, R.Contains;
    MatchingAt(rooms, query);
    MatchingAt(rooms[k := r], query);
  }
}
