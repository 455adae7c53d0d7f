/**
  What each lobby request does, told from its outside only: the tables before and after, and
  the messages every client gets.
 */
module Effects {
  import opened Rooms
  import opened Lobby
  import Views

  /** The list a client is shown: a user once for every member under that id, with the name on
      record, and nobody who is not on record. */
  lemma RosterCounts(members: set<nat>, users: map<nat, string>, names: map<string, string>, u: UserInfo)
    requires members <= users.Keys
    ensures Listed(members, users, names)[u]
         == if u.id in names && names[u.id] == u.name then |set m | m in members && users[m] == u.id| else 0
  {
    Views.ListedCounts(members, users, names, u);
    assert Views.Under(members, users, u.id) == set m | m in members && users[m] == u.id;
  }

  // ----- looking for rooms -----

  lemma FindEffect(s: State, sid: nat, query: string)
    requires RoomsInv(s) && Enabled(s, Find(sid, query))
    ensures var t := Step(s, Find(sid, query));
            && t == s.(inbox := t.inbox) && t.inbox.Keys == s.inbox.Keys
            && (forall m :: m in s.inbox && m != sid ==> t.inbox[m] == s.inbox[m])
            && |t.inbox[sid]| == |s.inbox[sid]| + 1 && s.inbox[sid] <= t.inbox[sid]
            && t.inbox[sid][|s.inbox[sid]|].Found?
            && AreFound(t.inbox[sid][|s.inbox[sid]|].rooms, s.rooms, query)
  {
    hide Matching;
    MatchingFound(s.rooms, query);
  }

  // ----- entering and opening a room -----

  /** The int in which a session keeps the number of room `k`. */
  predicate Stores(i: int, k: Key) {
    -INT_RANGE <= i < INT_RANGE && i % UINT_RANGE == k
  }

  /** Session `sid` has entered room `k`, which was like `r`: it is told the room with its host,
      the other members are told the room, and nothing else happens. */
  ghost predicate Entered(s: State, t: State, sid: nat, k: Key, r: Room)
    requires Tables(s) && sid in s.users
  {
    var members := r.members + {sid};
    var listing := Listing(k, r.info.name, |members|, r.info.max);
    && members <= s.users.Keys
    && t.rooms == s.rooms[k := Room(r.info, members)] && t.users == s.users && t.names == s.names
    && sid in t.roomOf && Stores(t.roomOf[sid], k) && t.roomOf == s.roomOf[sid := t.roomOf[sid]]
    && t.inbox.Keys == s.inbox.Keys
    && forall m :: m in s.inbox ==>
         t.inbox[m] == s.inbox[m] +
           if m == sid then [JoinDone(s.users[m], listing, r.info.host, Listed(members, s.users, s.names))]
           else if m in members then [Update(s.users[m], listing, Listed(members, s.users, s.names))] else []
  }

  /** The session is told that it cannot enter, and nothing else happens. */
  ghost predicate Refused(s: State, t: State, sid: nat) {
    && t == s.(inbox := t.inbox) && t.inbox.Keys == s.inbox.Keys
    && forall m :: m in s.inbox ==> t.inbox[m] == s.inbox[m] + if m == sid then [JoinFailed] else []
  }

  lemma EnterEffect(s: State, k: Key, sid: nat)
    requires Tables(s) && k in s.rooms && sid in s.users && s.rooms[k].info.id == k
    ensures var t := Enter(s, k, sid);
            if |s.rooms[k].members| < s.rooms[k].info.max then Entered(s, t, sid, k, s.rooms[k]) else Refused(s, t, sid)
  {
    hide Listed;
    KeyRoundTrip(k);
    var t, r := Enter(s, k, sid), s.rooms[k];
    if |r.members| < r.info.max {
      hide Enter;
      Views.SeatTables(s, k, sid);
      EnterMail(s, k, sid);
      forall m | m in s.inbox
        ensures t.inbox[m] == s.inbox[m] +
                  if m == sid then [JoinDone(s.users[m], ListingOf(Room(r.info, r.members + {sid})), r.info.host,
                                             Listed(r.members + {sid}, s.users, s.names))]
                  else if m in r.members + {sid} then [Update(s.users[m], ListingOf(Room(r.info, r.members + {sid})),
                                                              Listed(r.members + {sid}, s.users, s.names))] else []
      {
        Views.EnterSends(s, k, sid, m);
      }
    }
  }

  /** A session enters exactly a room that exists and has fewer members than its maximum. */
  lemma JoinEffect(s: State, sid: nat, id: Key)
    requires RoomsInv(s) && Enabled(s, Join(sid, id))
    ensures var t := Step(s, Join(sid, id));
            if id in s.rooms && |s.rooms[id].members| < s.rooms[id].info.max then Entered(s, t, sid, id, s.rooms[id])
            else Refused(s, t, sid)
  {
    hide Enter, AllPlaced, Listed, AllRoomsOk, Seat;
    KeyRoundTrip(id);
    if id in s.rooms {
      Views.RoomFiled(s, id);
      EnterEffect(s, id, sid);
      EnterMail(s, id, sid);
    }
  }

  /** A room is opened under the least number that is free, and its maker enters it as its host;
      a room of maximum 0 is opened all the same, and its maker is told that it cannot enter. */
  lemma CreateEffect(s: State, sid: nat, name: string, max: Uint32) returns (k: Key)
    requires RoomsInv(s) && Enabled(s, Create(sid, name, max))
    ensures k !in s.rooms && forall j: nat :: j < k ==> j in s.rooms
    ensures var t, r := Step(s, Create(sid, name, max)), Room(RoomInfo(k, name, max, s.users[sid]), {});
            if max > 0 then Entered(s, t, sid, k, r)
            else Refused(s.(rooms := s.rooms[k := r], peak := t.peak), t, sid)
  {
    k := NewKey(s);
    var t := Enter(Opened(s, sid, name, max), k, sid);
    hide Enter, Entered, Refused, RoomsInv;
    EnterEffect(Opened(s, sid, name, max), k, sid);
    OpenedEntered(s, sid, name, max, t, Step(s, Create(sid, name, max)).peak);
  }

  lemma OpenedEntered(s: State, sid: nat, name: string, max: Uint32, t: State, peak: nat)
    requires Tables(s) && sid in s.users && |s.rooms| < UINT_RANGE && s.inbox.Keys == t.inbox.Keys
    ensures var o, k := Opened(s, sid, name, max), NewKey(s); var r := o.rooms[k];
            && (Entered(o, t, sid, k, r) ==> Entered(s, t.(peak := peak), sid, k, r))
            && (Refused(o, t, sid) ==> Refused(s.(rooms := s.rooms[k := r], peak := peak), t.(peak := peak), sid))
  {
    hide Listed;
    var k := NewKey(s);
    var r := Room(RoomInfo(k, name, max, s.users[sid]), {});
    assert s.rooms[k := r][k := Room(r.info, {} + {sid})] == s.rooms[k := Room(r.info, {} + {sid})];
  }

  // ----- leaving a room -----

  /** Session `sid` has left room `k`, which was like `r`: the last one takes the room with it;
      otherwise the user of `first`, which stays, becomes the host if the host's id left, and
      those who stay are told the room. */
  ghost predicate Left(s: State, t: State, sid: nat, k: Key, r: Room, first: nat)
    requires Tables(s) && sid in s.users && r.members <= s.users.Keys
  {
    var members := r.members - {sid};
    && t.users == s.users && t.names == s.names && t.roomOf == s.roomOf[sid := NO_ROOM] && t.inbox.Keys == s.inbox.Keys
    && (members == {} ==> t.rooms == s.rooms - {k})
    && (members != {} ==>
          && first in members
          && var host := if s.users[sid] == r.info.host then s.users[first] else r.info.host;
             t.rooms == s.rooms[k := Room(r.info.(host := host), members)])
    && forall m :: m in s.inbox && m != sid ==>
         t.inbox[m] == s.inbox[m] +
           if m in members
           then [Update(s.users[m], Listing(k, r.info.name, |members|, r.info.max), Listed(members, s.users, s.names))] else []
  }

  lemma LeaveRoomEffect(s: State, k: Key, sid: nat, first: nat)
    requires Tables(s) && MayLeave(s, k, sid, first) && s.rooms[k].info.id == k
    ensures var t := LeaveRoom(s, k, sid, first);
            Left(s, t, sid, k, s.rooms[k], first) && t.inbox[sid] == s.inbox[sid]
  {
    hide Listed, LeaveRoom;
    KeyRoundTrip(k);
    LeaveMail(s, k, sid, first);
    forall m | m in s.inbox
      ensures LeaveRoom(s, k, sid, first).inbox[m] == s.inbox[m] +
                if m in s.rooms[k].members - {sid}
                then [Update(s.users[m], Listing(k, s.rooms[k].info.name, |s.rooms[k].members - {sid}|, s.rooms[k].info.max),
                             Listed(s.rooms[k].members - {sid}, s.users, s.names))] else []
    {
      Views.LeaveSends(s, k, sid, first, m);
    }
  }

  /** A session leaves the room whose number it keeps, if there is one; either way it is
      answered with the rooms that match, as they are then. */
  lemma LeaveEffect(s: State, sid: nat, query: string, first: nat)
    requires RoomsInv(s) && Enabled(s, Leave(sid, query, first))
    ensures var t := Step(s, Leave(sid, query, first)); var k := s.roomOf[sid] % UINT_RANGE;
            && t.inbox.Keys == s.inbox.Keys
            && |t.inbox[sid]| == |s.inbox[sid]| + 1 && s.inbox[sid] <= t.inbox[sid]
            && t.inbox[sid][|s.inbox[sid]|].Found?
            && AreFound(t.inbox[sid][|s.inbox[sid]|].rooms, t.rooms, query)
            && if k in s.rooms then Left(s, t, sid, k, s.rooms[k], first)
               else t == s.(inbox := t.inbox) && forall m :: m in s.inbox && m != sid ==> t.inbox[m] == s.inbox[m]
  {
    hide LeaveRoom, Listed, AllPlaced, Matching, AreFound;
    var k := KeyOf(s, sid);
    if k in s.rooms {
      LeaveRoomEffect(s, k, sid, first);
      LeaveMail(s, k, sid, first);
    }
    MatchingFound(Step(s, Leave(sid, query, first)).rooms, query);
  }

  // ----- chat and game start -----

  /** What a session whose user is on record says goes to every member of the room whose number
      it keeps, if there is one; otherwise nobody gets anything. */
  lemma BroadcastEffect(s: State, sid: nat, text: string)
    requires RoomsInv(s) && Enabled(s, Broadcast(sid, text))
    ensures var t := Step(s, Broadcast(sid, text)); var k := s.roomOf[sid] % UINT_RANGE;
            && t == s.(inbox := t.inbox) && t.inbox.Keys == s.inbox.Keys
            && (forall m :: m in s.inbox ==>
                  t.inbox[m] == s.inbox[m] +
                    if k in s.rooms && m in s.rooms[k].members && s.users[sid] in s.names
                    then [Said(s.names[s.users[sid]], text)] else [])
            && (s.roomOf[sid] == NO_ROOM && s.peak < UINT_RANGE ==> t == s)
  {
  }

  lemma StartGameEffect(s: State, sid: nat, url: string)
    requires RoomsInv(s) && Enabled(s, StartGame(sid, url))
    ensures var t := Step(s, StartGame(sid, url)); var k := s.roomOf[sid] % UINT_RANGE;
            && t == s.(inbox := t.inbox) && t.inbox.Keys == s.inbox.Keys
            && (forall m :: m in s.inbox ==>
                  t.inbox[m] == s.inbox[m] + if k in s.rooms && m in s.rooms[k].members && m != sid then [Game(url)] else [])
            && (s.roomOf[sid] == NO_ROOM && s.peak < UINT_RANGE ==> t == s)
  {
    hide AllPlaced, AllRoomsOk;
  }

  // ----- users and names -----

  /** Once a session has signed in and its user has a name, what it says in its room carries that
      name; besides, only its user and that user's name have changed. */
  lemma NameHeard(s: State, sid: nat, user: string, name: string, text: string)
    requires RoomsInv(s) && sid in s.users
    ensures Possible(s, [SignIn(sid, user), Rename(sid, name), Broadcast(sid, text)])
    ensures var t := After(s, [SignIn(sid, user), Rename(sid, name), Broadcast(sid, text)]);
            var k := s.roomOf[sid] % UINT_RANGE;
            && t == s.(users := s.users[sid := user], names := s.names[user := name], inbox := t.inbox)
            && t.inbox.Keys == s.inbox.Keys
            && forall m :: m in s.inbox ==>
                 t.inbox[m] == s.inbox[m] + if k in s.rooms && m in s.rooms[k].members then [Said(name, text)] else []
  {
    var s1 := s.(users := s.users[sid := user]);
    SignInStep(s, sid, user);
    StepKeeps(s, SignIn(sid, user));
    RenameStep(s1, sid, name);
    StepKeeps(s1, Rename(sid, name));
    var s2 := s1.(names := s1.names[user := name]);
    assert Enabled(s2, Broadcast(sid, text));
    BroadcastEffect(s2, sid, text);
    hide Step, Enabled, RoomsInv;
    Views.Three(s, SignIn(sid, user), Rename(sid, name), Broadcast(sid, text));
  }

  /** A client that connects, signs in and registers a name is in no room and was sent nothing. */
  lemma Newcomer(s: State, sid: nat, user: string, name: string)
    requires RoomsInv(s) && sid !in s.users
    ensures Possible(s, [Arrive(sid), SignIn(sid, user), Rename(sid, name)])
    ensures After(s, [Arrive(sid), SignIn(sid, user), Rename(sid, name)])
         == s.(users := s.users[sid := user], names := s.names[user := name], roomOf := s.roomOf[sid := NO_ROOM],
               inbox := s.inbox[sid := []])
  {
    var s1 := s.(users := s.users[sid := ""], roomOf := s.roomOf[sid := NO_ROOM], inbox := s.inbox[sid := []]);
    ArriveStep(s, sid);
    StepKeeps(s, Arrive(sid));
    SignInStep(s1, sid, user);
    StepKeeps(s1, SignIn(sid, user));
    var s2 := s1.(users := s1.users[sid := user]);
    RenameStep(s2, sid, name);
    hide Step, Enabled, RoomsInv;
    assert s1.users[sid := user] == s.users[sid := user];
    Views.Three(s, Arrive(sid), SignIn(sid, user), Rename(sid, name));
  }

  lemma ArriveStep(s: State, sid: nat)
    requires RoomsInv(s) && sid !in s.users
    ensures Enabled(s, Arrive(sid))
    ensures Step(s, Arrive(sid))
         == s.(users := s.users[sid := ""], roomOf := s.roomOf[sid := NO_ROOM], inbox := s.inbox[sid := []])
  {
  }

  lemma SignInStep(s: State, sid: nat, user: string)
    requires RoomsInv(s) && sid in s.users
    ensures Enabled(s, SignIn(sid, user)) && Step(s, SignIn(sid, user)) == s.(users := s.users[sid := user])
  {
  }

  lemma RenameStep(s: State, sid: nat, name: string)
    requires RoomsInv(s) && sid in s.users
    ensures Enabled(s, Rename(sid, name)) && Step(s, Rename(sid, name)) == s.(names := s.names[s.users[sid] := name])
  {
  }
}
