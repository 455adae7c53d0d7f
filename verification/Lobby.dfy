/**
  What the lobby promises over whole runs: capacity, membership, hosts, what clients were
  told, and room keys.
 */
module Lobby {
  import opened Numbers
  import opened Rooms

  // ----- the room table -----

  /** A room of the table: filed under its own id, within its capacity, and not left behind
      empty unless nobody may enter it. */
  predicate RoomOk(r: Room, k: Key) {
    r.info.id == k && |r.members| <= r.info.max && (r.members == {} ==> r.info.max == 0)
  }

  ghost predicate AllRoomsOk(s: State) {
    forall k :: k in s.rooms ==> RoomOk(s.rooms[k], k)
  }

  /** A session that believes it is in a room is a member of that live room. */
  predicate Placed(s: State, sid: nat)
    requires sid in s.roomOf
  {
    s.roomOf[sid] != NO_ROOM ==>
      && s.roomOf[sid] == ToInt(KeyOf(s, sid))
      && KeyOf(s, sid) in s.rooms && sid in s.rooms[KeyOf(s, sid)].members
  }

  ghost predicate AllPlaced(s: State) {
    forall sid :: sid in s.roomOf ==> Placed(s, sid)
  }

  ghost predicate KeysOk(s: State) {
    (forall k :: k in s.rooms ==> k < s.peak) && |s.rooms| <= s.peak
  }

  ghost predicate RoomsInv(s: State) {
    Tables(s) && AllRoomsOk(s) && AllPlaced(s) && KeysOk(s)
  }

  /** Nothing but messages was sent. */
  predicate OnlyMail(s: State, t: State) {
    t == s.(inbox := t.inbox) && t.inbox.Keys == s.inbox.Keys
  }

  lemma EnterMail(s: State, k: Key, sid: nat)
    requires Tables(s) && k in s.rooms && sid in s.users
    ensures OnlyMail(if Full(s.rooms[k]) then s else Seat(s, k, sid), Enter(s, k, sid))
  {
  }

  lemma LeaveMail(s: State, k: Key, sid: nat, first: nat)
    requires Tables(s) && MayLeave(s, k, sid, first)
    ensures OnlyMail(Vacate(s, k, sid, first), LeaveRoom(s, k, sid, first))
  {
  }

  lemma MailKeeps(s: State, t: State)
    requires Tables(s) && AllRoomsOk(s) && AllPlaced(s) && OnlyMail(s, t)
    ensures Tables(t) && AllRoomsOk(t) && AllPlaced(t)
  {
    forall sid | sid in t.roomOf
      ensures Placed(t, sid)
    {
      assert Placed(s, sid);
    }
  }

  lemma SeatPlaced(s: State, k: Key, sid: nat)
    requires Tables(s) && AllPlaced(s) && k in s.rooms && sid in s.users && s.rooms[k].info.id == k
    ensures Tables(Seat(s, k, sid)) && AllPlaced(Seat(s, k, sid))
  {
    var t := Seat(s, k, sid);
    KeyRoundTrip(k);
    forall id | id in t.roomOf
      ensures Placed(t, id)
    {
      assert id in s.roomOf && Placed(s, id);
    }
  }

  lemma SeatRoomOk(r: Room, k: Key, sid: nat)
    requires r.info.id == k && !Full(r)
    ensures RoomOk(r.(members := r.members + {sid}), k)
  {
    assert sid in r.members + {sid};
  }

  /** The room entered need not be one that may be left behind yet. */
  lemma EnterKeeps(s: State, k: Key, sid: nat)
    requires Tables(s) && AllPlaced(s) && k in s.rooms && sid in s.users
    requires s.rooms[k].info.id == k && |s.rooms[k].members| <= s.rooms[k].info.max
    requires forall j :: j in s.rooms && j != k ==> RoomOk(s.rooms[j], j)
    ensures var t := Enter(s, k, sid);
            Tables(t) && AllRoomsOk(t) && AllPlaced(t) && t.rooms.Keys == s.rooms.Keys && t.peak == s.peak
  {
    hide Enter, Placed;
    EnterMail(s, k, sid);
    if !Full(s.rooms[k]) {
      SeatPlaced(s, k, sid);
      SeatRoomOk(s.rooms[k], k, sid);
      assert Seat(s, k, sid).rooms.Keys == s.rooms.Keys;
      MailKeeps(Seat(s, k, sid), Enter(s, k, sid));
    } else {
      MailKeeps(s, Enter(s, k, sid));
    }
  }

  lemma VacatePlaced(s: State, k: Key, sid: nat, first: nat)
    requires Tables(s) && AllPlaced(s) && MayLeave(s, k, sid, first) && k == KeyOf(s, sid) && s.rooms[k].info.id == k
    ensures Tables(Vacate(s, k, sid, first)) && AllPlaced(Vacate(s, k, sid, first))
  {
    var t := Vacate(s, k, sid, first);
    KeyRoundTrip(k);
    forall id | id in t.roomOf && id != sid
      ensures Placed(t, id)
    {
      assert id in s.roomOf && Placed(s, id);
      assert id in s.rooms[k].members ==> id in s.rooms[k].members - {sid};
    }
    assert Placed(t, sid);
  }

  lemma VacateKeeps(s: State, k: Key, sid: nat, first: nat)
    requires RoomsInv(s) && MayLeave(s, k, sid, first) && k == KeyOf(s, sid)
    ensures RoomsInv(Vacate(s, k, sid, first)) && Vacate(s, k, sid, first).peak == s.peak
  {
    var t := Vacate(s, k, sid, first);
    VacatePlaced(s, k, sid, first);
    Fewer(s.rooms[k].members - {sid}, s.rooms[k].members);
    Fewer(t.rooms.Keys, s.rooms.Keys);
  }

  lemma Fewer(a: set<nat>, b: set<nat>)
    requires a <= b
    ensures |a| <= |b|
  {
    assert b == a + (b - a);
  }

  lemma OpenPlaced(s: State, sid: nat, name: string, max: Uint32)
    requires Tables(s) && AllPlaced(s) && sid in s.users && |s.rooms| < UINT_RANGE
    ensures Tables(Opened(s, sid, name, max)) && AllPlaced(Opened(s, sid, name, max))
  {
    var t := Opened(s, sid, name, max);
    forall id | id in t.roomOf
      ensures Placed(t, id)
    {
      assert Placed(s, id);
    }
  }

  lemma OneMore(rooms: map<Key, Room>, k: Key, r: Room)
    requires k !in rooms
    ensures |rooms[k := r]| == |rooms| + 1
  {
    assert rooms[k := r].Keys == rooms.Keys + {k};
    assert |rooms[k := r]| == |rooms[k := r].Keys|;
  }

  lemma OpenKeys(s: State, sid: nat, name: string, max: Uint32)
    requires KeysOk(s) && sid in s.users && |s.rooms| < UINT_RANGE
    ensures KeysOk(Opened(s, sid, name, max).(peak := Max(s.peak, |s.rooms| + 1)))
    ensures |Opened(s, sid, name, max).rooms| == |s.rooms| + 1
  {
    hide NewKey;
    var k := NewKey(s);
    OneMore(s.rooms, k, Room(RoomInfo(k, name, max, s.users[sid]), {}));
  }

  lemma CreateKeeps(s: State, sid: nat, name: string, max: Uint32)
    requires RoomsInv(s) && Enabled(s, Create(sid, name, max))
    ensures RoomsInv(Step(s, Create(sid, name, max)))
  {
    hide Enter, Placed;
    var t, k := Opened(s, sid, name, max), NewKey(s);
    OpenPlaced(s, sid, name, max);
    OpenKeys(s, sid, name, max);
    EnterKeeps(t, k, sid);
    PeakOnly(Enter(t, k, sid), Max(s.peak, |t.rooms|));
  }

  lemma PeakOnly(s: State, n: nat)
    requires Tables(s) && AllPlaced(s)
    ensures Tables(s.(peak := n)) && AllPlaced(s.(peak := n))
  {
    forall id | id in s.roomOf
      ensures Placed(s.(peak := n), id)
    {
      assert Placed(s, id);
    }
  }

  lemma JoinKeeps(s: State, sid: nat, id: Key)
    requires RoomsInv(s) && Enabled(s, Join(sid, id))
    ensures RoomsInv(Act(s, Join(sid, id))) && Act(s, Join(sid, id)).peak == s.peak
  {
    hide Enter, Placed;
    KeyRoundTrip(id);
    if id in s.rooms {
      EnterKeeps(s, id, sid);
    } else {
      MailKeeps(s, Act(s, Join(sid, id)));
    }
  }

  lemma LeaveKeeps(s: State, sid: nat, query: string, first: nat)
    requires RoomsInv(s) && Enabled(s, Leave(sid, query, first))
    ensures RoomsInv(Act(s, Leave(sid, query, first))) && Act(s, Leave(sid, query, first)).peak == s.peak
  {
    hide LeaveRoom, Vacate, Placed;
    var k := KeyOf(s, sid);
    if k in s.rooms {
      LeaveMail(s, k, sid, first);
      VacateKeeps(s, k, sid, first);
      MailKeeps(Vacate(s, k, sid, first), Act(s, Leave(sid, query, first)));
    } else {
      MailKeeps(s, Act(s, Leave(sid, query, first)));
    }
  }

  lemma OtherKeeps(s: State, e: Event)
    requires RoomsInv(s) && Enabled(s, e) && !e.Create? && !e.Join? && !e.Leave?
    ensures RoomsInv(Act(s, e)) && Act(s, e).peak == s.peak
  {
    var t := Act(s, e);
    forall id | id in t.roomOf
      ensures Placed(t, id)
    {
      assert id in s.roomOf ==> Placed(s, id);
    }
  }

  lemma StepKeeps(s: State, e: Event)
    requires RoomsInv(s) && Enabled(s, e)
    ensures RoomsInv(Step(s, e))
  {
    hide Act;
    match e
    case Create(sid, name, max) =>
      CreateKeeps(s, sid, name, max);
    case Join(sid, id) =>
      JoinKeeps(s, sid, id);
      PeakOnly(Act(s, e), Step(s, e).peak);
    case Leave(sid, query, first) =>
      LeaveKeeps(s, sid, query, first);
      PeakOnly(Act(s, e), Step(s, e).peak);
    case _ =>
      OtherKeeps(s, e);
      PeakOnly(Act(s, e), Step(s, e).peak);
  }

  lemma {:induction false} RunKeeps(s: State, es: seq<Event>)
    requires RoomsInv(s) && Possible(s, es)
    ensures RoomsInv(After(s, es))
    decreases |es|
  {
    if es != [] {
      StepKeeps(s, es[0]);
      RunKeeps(Step(s, es[0]), es[1..]);
    }
  }

  /** After any run: no room holds more than its maximum; each is filed under its own id, and
      is empty only if it admits nobody; and a session that believes it is in a room is a
      member of that room, which is live. */
  lemma RoomsEveryRun(names: map<string, string>, es: seq<Event>)
    requires Possible(Init(names), es)
    ensures var s := After(Init(names), es);
            && (forall k :: k in s.rooms ==>
                  && |s.rooms[k].members| <= s.rooms[k].info.max && s.rooms[k].info.id == k
                  && (s.rooms[k].members != {} || s.rooms[k].info.max == 0))
            && (forall sid :: sid in s.roomOf && s.roomOf[sid] != NO_ROOM ==>
                  KeyOf(s, sid) in s.rooms && sid in s.rooms[KeyOf(s, sid)].members)
  {
    RunKeeps(Init(names), es);
    var s := After(Init(names), es);
    forall sid | sid in s.roomOf && s.roomOf[sid] != NO_ROOM
      ensures KeyOf(s, sid) in s.rooms && sid in s.rooms[KeyOf(s, sid)].members
    {
      assert Placed(s, sid);
    }
  }

  // ----- hosts -----

  ghost predicate HostOk(r: Room, users: map<nat, string>) {
    r.members == {} || exists m :: m in r.members && m in users && users[m] == r.info.host
  }

  ghost predicate AllHostsOk(s: State) {
    forall k :: k in s.rooms ==> HostOk(s.rooms[k], s.users)
  }

  lemma VacateHost(s: State, k: Key, sid: nat, first: nat)
    requires Tables(s) && AllHostsOk(s) && MayLeave(s, k, sid, first) && s.rooms[k].info.id == k
    ensures AllHostsOk(Vacate(s, k, sid, first))
  {
    var r := s.rooms[k];
    if r.members - {sid} != {} {
      var t := Vacate(s, k, sid, first);
      if s.users[sid] == r.info.host {
        assert first in t.rooms[k].members && s.users[first] == t.rooms[k].info.host;
      } else {
        var m :| m in r.members && s.users[m] == r.info.host;
        assert m in t.rooms[k].members;
      }
    }
  }

  /** The step takes no room's host away from it. Only signing in can: it does if the session
      was the only one in its room under the host's id, and takes another id. */
  ghost predicate KeepsHosts(s: State, e: Event)
    requires Enabled(s, e)
  {
    e.SignIn? ==>
      forall k :: k in s.rooms && e.sid in s.rooms[k].members && e.sid in s.users && s.rooms[k].info.host == s.users[e.sid] ==>
        e.user == s.users[e.sid] || SharesUser(s, k, e.sid)
  }

  /** Another member is signed in under the same id. */
  ghost predicate SharesUser(s: State, k: Key, sid: nat)
    requires k in s.rooms && sid in s.users
  {
    exists m :: m in s.rooms[k].members && m != sid && m in s.users && s.users[m] == s.users[sid]
  }

  /** Every handler run that is not such a sign-in keeps every host a member; such a sign-in
      never does. */
  lemma StepHosts(s: State, e: Event)
    requires RoomsInv(s) && AllHostsOk(s) && Enabled(s, e)
    ensures AllHostsOk(Step(s, e)) <==> KeepsHosts(s, e)
  {
    hide Enter, LeaveRoom, Vacate, HostOk, SharesUser;
    match e
    case Arrive(sid) => ArriveHost(s, sid);
    case SignIn(sid, user) => SignInKeepsHosts(s, sid, user);
    case Create(sid, name, max) =>
      OpenHost(s, sid, name, max);
      EnterHost(Opened(s, sid, name, max), NewKey(s), sid);
    case Join(sid, id) =>
      KeyRoundTrip(id);
      if id in s.rooms {
        EnterHost(s, id, sid);
      }
    case Leave(sid, query, first) =>
      if KeyOf(s, sid) in s.rooms {
        LeaveMail(s, KeyOf(s, sid), sid, first);
        VacateHost(s, KeyOf(s, sid), sid, first);
      }
    case _ =>
  }

  lemma ArriveHost(s: State, sid: nat)
    requires RoomsInv(s) && AllHostsOk(s) && Enabled(s, Arrive(sid))
    ensures AllHostsOk(Step(s, Arrive(sid)))
  {
    forall k | k in s.rooms
      ensures HostOk(s.rooms[k], Step(s, Arrive(sid)).users)
    {
      assert HostOk(s.rooms[k], s.users);
    }
  }

  /** Signing in keeps every host a member exactly when in each room it sits in the session was
      not the only one under the host's id, or signs in under that id again. */
  lemma SignInKeepsHosts(s: State, sid: nat, user: string)
    requires RoomsInv(s) && AllHostsOk(s) && Enabled(s, SignIn(sid, user))
    ensures AllHostsOk(Step(s, SignIn(sid, user))) <==> KeepsHosts(s, SignIn(sid, user))
  {
    hide HostOk, SharesUser;
    var t := Step(s, SignIn(sid, user));
    forall k | k in s.rooms
      ensures HostOk(t.rooms[k], t.users) <==>
              (sid in s.rooms[k].members && s.rooms[k].info.host == s.users[sid] ==>
                 user == s.users[sid] || SharesUser(s, k, sid))
    {
      SignInRoom(s, sid, user, k);
    }
  }

  lemma SignInRoom(s: State, sid: nat, user: string, k: Key)
    requires Tables(s) && sid in s.users && k in s.rooms && HostOk(s.rooms[k], s.users)
    ensures HostOk(s.rooms[k], s.users[sid := user]) <==>
            (sid in s.rooms[k].members && s.rooms[k].info.host == s.users[sid] ==>
               user == s.users[sid] || SharesUser(s, k, sid))
  {
    var r := s.rooms[k];
    if m :| m in r.members && s.users[m] == r.info.host {
      assert m != sid ==> s.users[sid := user][m] == r.info.host;
      assert m == sid && user == s.users[sid] ==> s.users[sid := user][m] == r.info.host;
    }
  }

  lemma OpenHost(s: State, sid: nat, name: string, max: Uint32)
    requires Tables(s) && AllHostsOk(s) && sid in s.users && |s.rooms| < UINT_RANGE
    ensures var t, k := Opened(s, sid, name, max), NewKey(s);
            Tables(t) && AllHostsOk(t) && k in t.rooms && t.users == s.users && t.rooms[k].info.host == s.users[sid]
  {
  }

  lemma EnterHost(s: State, k: Key, sid: nat)
    requires Tables(s) && AllHostsOk(s) && k in s.rooms && sid in s.users
    requires s.rooms[k].members == {} ==> s.users[sid] == s.rooms[k].info.host || Full(s.rooms[k])
    ensures AllHostsOk(Enter(s, k, sid))
  {
    EnterMail(s, k, sid);
    var r := s.rooms[k];
    if !Full(r) {
      var m :| m in r.members + {sid} && s.users[m] == r.info.host;
      assert m in Enter(s, k, sid).rooms[k].members;
    }
  }

  ghost predicate AlwaysKeepsHosts(s: State, es: seq<Event>)
    requires Possible(s, es)
    decreases |es|
  {
    es != [] ==> KeepsHosts(s, es[0]) && AlwaysKeepsHosts(Step(s, es[0]), es[1..])
  }

  lemma {:induction false} RunHosts(s: State, es: seq<Event>)
    requires RoomsInv(s) && AllHostsOk(s) && Possible(s, es) && AlwaysKeepsHosts(s, es)
    ensures AllHostsOk(After(s, es))
    decreases |es|
  {
    if es != [] {
      StepKeeps(s, es[0]);
      StepHosts(s, es[0]);
      RunHosts(Step(s, es[0]), es[1..]);
    }
  }

  /** Over any creates, joins, leaves and name changes, any number of sessions under one id,
      and any sign-ins but those that take a room's last session of the host's id away from
      it, the host of a room with members is one of them. */
  lemma HostEveryRun(names: map<string, string>, es: seq<Event>, k: Key)
    requires Possible(Init(names), es) && AlwaysKeepsHosts(Init(names), es)
    requires k in After(Init(names), es).rooms && After(Init(names), es).rooms[k].members != {}
    ensures var s := After(Init(names), es);
            exists m :: m in s.rooms[k].members && m in s.users && s.users[m] == s.rooms[k].info.host
  {
    RunHosts(Init(names), es);
    assert HostOk(After(Init(names), es).rooms[k], After(Init(names), es).users);
  }

  // ----- room keys -----

  /** The lookup that `CreateRoom` repeats ends: some key is free exactly while the table has
      fewer rooms than there are keys. */
  lemma FreeKeyExists(s: State)
    ensures (exists k: Key :: k !in s.rooms) <==> |s.rooms| < UINT_RANGE
  {
    if |s.rooms| < UINT_RANGE {
      assert NewKey(s) !in s.rooms;
    } else if k: Key :| k !in s.rooms {
      assert |s.rooms.Keys + {k}| == |s.rooms| + 1;
      KeysBelow(s.rooms.Keys + {k}, UINT_RANGE);
    }
  }

  lemma {:induction false} KeysBelow(keys: set<nat>, n: nat)
    requires forall k :: k in keys ==> k < n
    ensures |keys| <= n
    decreases n
  {
    if n > 0 {
      KeysBelow(keys - {n - 1}, n - 1);
    } else {
      assert keys == {};
    }
  }

  /** Over any run every live key is below the highest number of rooms there ever were. So
      while that stays within 2^31 a session's room number is the key itself, and while it
      stays below 2^32 looking up "no room" finds nothing. */
  lemma KeysEveryRun(names: map<string, string>, es: seq<Event>)
    requires Possible(Init(names), es)
    ensures var s := After(Init(names), es);
            && (forall k :: k in s.rooms ==> k < s.peak)
            && (s.peak <= INT_RANGE ==> forall k :: k in s.rooms ==> ToInt(k) == k)
            && (s.peak < UINT_RANGE ==> ToUint(NO_ROOM) !in s.rooms)
            && (s.peak < UINT_RANGE ==> forall sid :: sid in s.roomOf ==>
                  (s.roomOf[sid] == NO_ROOM <==> KeyOf(s, sid) !in s.rooms))
  {
    RunKeeps(Init(names), es);
    var s := After(Init(names), es);
    forall sid | sid in s.roomOf
      ensures s.roomOf[sid] != NO_ROOM ==> KeyOf(s, sid) in s.rooms
    {
      assert Placed(s, sid);
    }
  }

  // ----- what is found -----

  /** The name contains the query somewhere. */
  lemma ContainsIs(text: string, part: string)
    ensures Contains(text, part) <==> exists a, b :: text == a + part + b
  {
    if Contains(text, part) {
      var i :| 0 <= i <= |text| && OccursAt(part, text, i);
      assert text == text[..i] + part + text[i + |part|..];
    }
    if a, b :| text == a + part + b {
      assert OccursAt(part, text, |a|);
    }
  }

  /** A room is found exactly if its name has the query in it, and shown as it stands. */
  ghost predicate AreFound(found: set<Listing>, rooms: map<Key, Room>, query: string) {
    forall l :: l in found <==>
      && l.id in rooms && (exists a, b :: rooms[l.id].info.name == a + query + b)
      && l == Listing(l.id, rooms[l.id].info.name, |rooms[l.id].members|, rooms[l.id].info.max)
  }

  lemma MatchingFound(rooms: map<Key, Room>, query: string)
    ensures AreFound(Matching(rooms, query), rooms, query)
  {
    hide Contains;
    forall l
      ensures l in Matching(rooms, query) <==>
                && l.id in rooms && (exists a, b :: rooms[l.id].info.name == a + query + b)
                && l == Listing(l.id, rooms[l.id].info.name, |rooms[l.id].members|, rooms[l.id].info.max)
    {
      if l.id in rooms {
        ContainsIs(rooms[l.id].info.name, query);
      }
    }
  }
}
