/**
  What clients see of the lobby: the last thing a member was told about its room is how the
  room stands; and what joining, leaving and moving between rooms does to membership.
 */
module Views {
  import opened Rooms
  import opened Lobby

  datatype Told = Nothing | Told(myId: string, room: Listing, users: multiset<UserInfo>)

  /** The last word about room `k` in what a client was sent. */
  function LastTold(inbox: seq<Msg>, k: Key): Told {
    if inbox == [] then Nothing
    else
      match inbox[|inbox| - 1]
      case JoinDone(myId, room, _, users) =>
        if room.id == k then Told(myId, room, users) else LastTold(inbox[..|inbox| - 1], k)
      case Update(myId, room, users) =>
        if room.id == k then Told(myId, room, users) else LastTold(inbox[..|inbox| - 1], k)
      case _ => LastTold(inbox[..|inbox| - 1], k)
  }

  predicate About(m: Msg, k: Key) {
    (m.JoinDone? || m.Update?) && m.room.id == k
  }

  lemma ToldMore(inbox: seq<Msg>, m: Msg, k: Key)
    ensures LastTold(inbox + [m], k)
         == if About(m, k) then Told(m.myId, m.room, m.users) else LastTold(inbox, k)
  {
    assert (inbox + [m])[..|inbox|] == inbox;
  }

  /** How much of the last word is looked at: the room and its count; who the client is and
      which users sit there; or their names as well. */
  datatype Detail = Counts | Ids | Names

  /** The user ids of a list, each as often as it is listed. */
  ghost function IdsOf(users: multiset<UserInfo>): multiset<string>
    decreases |users|
  {
    if users == multiset{} then multiset{}
    else
      var u :| u in users;
      multiset{u.id} + IdsOf(users - multiset{u})
  }

  lemma {:induction false} IdsWithout(users: multiset<UserInfo>, x: UserInfo)
    requires x in users
    ensures IdsOf(users) == multiset{x.id} + IdsOf(users - multiset{x})
    decreases |users|
  {
    var u :| u in users && IdsOf(users) == multiset{u.id} + IdsOf(users - multiset{u});
    if u != x {
      hide IdsOf;
      var rest := users - multiset{u} - multiset{x};
      assert rest == users - multiset{x} - multiset{u};
      IdsWithout(users - multiset{u}, x);
      IdsWithout(users - multiset{x}, u);
      TwoMore(u.id, x.id, IdsOf(rest));
    }
  }

  lemma TwoMore(a: string, b: string, rest: multiset<string>)
    ensures multiset{a} + (multiset{b} + rest) == multiset{b} + (multiset{a} + rest)
  {
  }

  /** The ids on record are listed as often as members sit there under them, whatever the
      names; no other id is. */
  lemma {:induction false} IdsListed(members: set<nat>, users: map<nat, string>, names: map<string, string>, user: string)
    requires members <= users.Keys
    ensures IdsOf(Listed(members, users, names))[user] == if user in names then |Under(members, users, user)| else 0
    decreases |members|
  {
    hide Listed, IdsOf;
    if members == {} {
      NoneListed(members, users, names);
      NoIds();
    } else {
      var x :| x in members;
      var rest := Listed(members - {x}, users, names);
      ListedWithout(members, x, users, names);
      IdsListed(members - {x}, users, names, user);
      CountWithout(members, x, users, user);
      if users[x] in names {
        var u := UserInfo(users[x], names[users[x]]);
        assert Listed(members, users, names) == multiset{u} + rest;
        assert multiset{u} + rest - multiset{u} == rest;
        IdsWithout(multiset{u} + rest, u);
      } else {
        assert Listed(members, users, names) == rest;
      }
    }
  }

  lemma NoIds()
    ensures IdsOf(multiset{}) == multiset{}
  {
  }

  lemma SameIds(members: set<nat>, users: map<nat, string>, n1: map<string, string>, n2: map<string, string>)
    requires members <= users.Keys && n1.Keys == n2.Keys
    ensures IdsOf(Listed(members, users, n1)) == IdsOf(Listed(members, users, n2))
  {
    hide Listed, IdsOf;
    forall user
      ensures IdsOf(Listed(members, users, n1))[user] == IdsOf(Listed(members, users, n2))[user]
    {
      IdsListed(members, users, n1, user);
      IdsListed(members, users, n2, user);
    }
  }

  /** Member `m` of room `k` was last told how the room stands, and who sits there, as far as
      `d` looks. */
  ghost predicate UpToDate(s: State, k: Key, m: nat, d: Detail)
    requires Tables(s) && k in s.rooms && m in s.inbox
  {
    var r, told := s.rooms[k], LastTold(s.inbox[m], k);
    told.Told? && told.room == ListingOf(r)
    && (d == Counts || (told.myId == s.users[m] && Shows(told.users, Listed(r.members, s.users, s.names), d)))
  }

  ghost predicate Shows(told: multiset<UserInfo>, listed: multiset<UserInfo>, d: Detail) {
    told == listed || (d == Ids && IdsOf(told) == IdsOf(listed))
  }

  ghost predicate Coherent(s: State, d: Detail)
    requires Tables(s)
  {
    forall k, m :: k in s.rooms && m in s.rooms[k].members ==> UpToDate(s, k, m, d)
  }

  /** The room a successful `Enter` leaves behind, and what it sends. */
  lemma EnterSends(s: State, k: Key, sid: nat, m: nat)
    requires Tables(s) && k in s.rooms && sid in s.users && !Full(s.rooms[k]) && m in s.inbox
    ensures var r := Seat(s, k, sid).rooms[k];
            Enter(s, k, sid).inbox[m] ==
              if m == sid then s.inbox[m] + [JoinDone(s.users[sid], ListingOf(r), r.info.host, Listed(r.members, s.users, s.names))]
              else if m in r.members then s.inbox[m] + [Update(s.users[m], ListingOf(r), Listed(r.members, s.users, s.names))]
              else s.inbox[m]
  {
    var r := Seat(s, k, sid).rooms[k];
    if m in r.members && m != sid {
      assert {m, sid} <= r.members;
      Fewer({m, sid}, r.members);
    }
  }

  /** One more message about room `k`, or about none, to a client. */
  lemma MailUpToDate(s: State, t: State, j: Key, m: nat, d: Detail)
    requires Tables(s) && Tables(t) && j in s.rooms && j in t.rooms && t.rooms[j] == s.rooms[j] && m in s.inbox && m in t.inbox
    requires m in s.rooms[j].members && t.users == s.users && t.names == s.names && UpToDate(s, j, m, d)
    requires LastTold(t.inbox[m], j) == LastTold(s.inbox[m], j)
    ensures UpToDate(t, j, m, d)
  {
  }

  lemma EnterUpToDate(s: State, k: Key, sid: nat, j: Key, m: nat, d: Detail)
    requires Tables(s) && Coherent(s, d) && k in s.rooms && sid in s.users && s.rooms[k].info.id == k && !Full(s.rooms[k])
    requires j in Seat(s, k, sid).rooms && m in Seat(s, k, sid).rooms[j].members
    ensures Tables(Enter(s, k, sid)) && j in Enter(s, k, sid).rooms && m in Enter(s, k, sid).inbox && UpToDate(Enter(s, k, sid), j, m, d)
  {
    hide Enter, LastTold, Listed, IdsOf, Shows;
    EnterMail(s, k, sid);
    var r := Seat(s, k, sid).rooms[k];
    var users := Listed(r.members, s.users, s.names);
    EnterSends(s, k, sid, m);
    ToldMore(s.inbox[m], JoinDone(s.users[sid], ListingOf(r), r.info.host, users), j);
    ToldMore(s.inbox[m], Update(s.users[m], ListingOf(r), users), j);
    if j != k {
      assert UpToDate(s, j, m, d);
      MailUpToDate(s, Enter(s, k, sid), j, m, d);
    } else {
      ShowsItself(users, d);
    }
  }

  lemma ShowsItself(users: multiset<UserInfo>, d: Detail)
    ensures Shows(users, users, d)
  {
  }

  lemma EnterCoherent(s: State, k: Key, sid: nat, d: Detail)
    requires Tables(s) && Coherent(s, d) && k in s.rooms && sid in s.users && s.rooms[k].info.id == k
    ensures Tables(Enter(s, k, sid)) && Coherent(Enter(s, k, sid), d)
  {
    if Full(s.rooms[k]) {
      EnterFull(s, k, sid);
      ReplyCoherent(s, sid, JoinFailed, d);
    } else {
      hide Enter, Seat, LastTold, UpToDate, Full;
      EnterMail(s, k, sid);
      SeatTables(s, k, sid);
      var t := Enter(s, k, sid);
      forall j, m | j in t.rooms && m in t.rooms[j].members
        ensures UpToDate(t, j, m, d)
      {
        EnterUpToDate(s, k, sid, j, m, d);
      }
    }
  }

  lemma LeaveSends(s: State, k: Key, sid: nat, first: nat, m: nat)
    requires Tables(s) && MayLeave(s, k, sid, first) && s.rooms[k].info.id == k && m in s.inbox
    ensures var members := s.rooms[k].members - {sid};
            LeaveRoom(s, k, sid, first).inbox[m] ==
              if m in members
              then s.inbox[m] + [Update(s.users[m], ListingOf(Vacate(s, k, sid, first).rooms[k]), Listed(members, s.users, s.names))]
              else s.inbox[m]
  {
  }

  lemma LeaveUpToDate(s: State, k: Key, sid: nat, first: nat, j: Key, m: nat, d: Detail)
    requires Tables(s) && Coherent(s, d) && MayLeave(s, k, sid, first) && s.rooms[k].info.id == k
    requires j in Vacate(s, k, sid, first).rooms && m in Vacate(s, k, sid, first).rooms[j].members
    ensures var t := LeaveRoom(s, k, sid, first); Tables(t) && j in t.rooms && m in t.inbox && UpToDate(t, j, m, d)
  {
    hide LeaveRoom, LastTold, Listed, IdsOf, Shows;
    LeaveMail(s, k, sid, first);
    KeyRoundTrip(k);
    LeaveSends(s, k, sid, first, m);
    var members := s.rooms[k].members - {sid};
    if m in members {
      ToldMore(s.inbox[m], Update(s.users[m], ListingOf(Vacate(s, k, sid, first).rooms[k]), Listed(members, s.users, s.names)), j);
    }
    if j != k {
      assert UpToDate(s, j, m, d);
      MailUpToDate(s, LeaveRoom(s, k, sid, first), j, m, d);
    } else {
      ShowsItself(Listed(members, s.users, s.names), d);
    }
  }

  lemma VacateTables(s: State, k: Key, sid: nat, first: nat)
    requires Tables(s) && MayLeave(s, k, sid, first) && s.rooms[k].info.id == k
    ensures Tables(Vacate(s, k, sid, first))
  {
    KeyRoundTrip(k);
  }

  lemma LeaveCoherent(s: State, k: Key, sid: nat, first: nat, d: Detail)
    requires Tables(s) && Coherent(s, d) && MayLeave(s, k, sid, first) && s.rooms[k].info.id == k
    ensures Tables(LeaveRoom(s, k, sid, first)) && Coherent(LeaveRoom(s, k, sid, first), d)
  {
    hide LeaveRoom, Vacate, LastTold, UpToDate;
    LeaveMail(s, k, sid, first);
    VacateTables(s, k, sid, first);
    var t := LeaveRoom(s, k, sid, first);
    forall j, m | j in t.rooms && m in t.rooms[j].members
      ensures UpToDate(t, j, m, d)
    {
      LeaveUpToDate(s, k, sid, first, j, m, d);
    }
  }

  lemma ReplyCoherent(s: State, sid: nat, m: Msg, d: Detail)
    requires Tables(s) && Coherent(s, d) && sid in s.inbox && !m.JoinDone? && !m.Update?
    ensures Tables(Reply(s, sid, m)) && Coherent(Reply(s, sid, m), d)
  {
    PostCoherent(s, {sid}, _ => m, d);
    assert Reply(s, sid, m).inbox == Post(s.inbox, {sid}, _ => m);
  }

  /** A message that is about no room changes nobody's view. */
  lemma PostCoherent(s: State, to: set<nat>, f: nat -> Msg, d: Detail)
    requires Tables(s) && Coherent(s, d) && forall m: nat :: !f(m).JoinDone? && !f(m).Update?
    ensures var t := s.(inbox := Post(s.inbox, to, f)); Tables(t) && Coherent(t, d)
  {
    hide LastTold;
    var t := s.(inbox := Post(s.inbox, to, f));
    forall j, m | j in t.rooms && m in t.rooms[j].members
      ensures UpToDate(t, j, m, d)
    {
      ToldMore(s.inbox[m], f(m), j);
      assert UpToDate(s, j, m, d);
    }
  }

  /** The step changes nothing that the last word about a room shows. The count never goes
      wrong. For who sits there: nobody who does signs in as somebody else, and nobody who does
      comes on record. For the names: nobody who does gets another one. */
  ghost predicate Unnoticed(s: State, e: Event, d: Detail)
    requires Enabled(s, e)
  {
    match e
    case SignIn(sid, user) =>
      d == Counts || (sid in s.users && (user == s.users[sid] || forall k :: k in s.rooms ==> sid !in s.rooms[k].members))
    case Rename(sid, name) =>
      d == Counts || (sid in s.users && (Shown(s, s.users[sid], name, d) || !Seated(s, s.users[sid])))
    case _ => true
  }

  predicate Shown(s: State, user: string, name: string, d: Detail) {
    user in s.names && (d == Ids || s.names[user] == name)
  }

  ghost predicate Seated(s: State, user: string) {
    exists k, m :: k in s.rooms && m in s.rooms[k].members && m in s.users && s.users[m] == user
  }

  /** Every handler run leaves each member told how its room stands, exactly if it changes
      nothing that clients are not told of. */
  lemma StepCoherent(s: State, e: Event, d: Detail)
    requires RoomsInv(s) && Coherent(s, d) && Enabled(s, e)
    ensures RoomsInv(Step(s, e)) && (Coherent(Step(s, e), d) <==> Unnoticed(s, e, d))
  {
    hide Act, Unnoticed, Coherent;
    StepKeeps(s, e);
    ActCoherent(s, e, d);
    PeakCoherent(Act(s, e), Step(s, e).peak, d);
  }

  lemma PeakCoherent(s: State, n: nat, d: Detail)
    requires Tables(s)
    ensures Tables(s.(peak := n)) && (Coherent(s.(peak := n), d) <==> Coherent(s, d))
  {
    hide LastTold, Listed, ListingOf;
    var t := s.(peak := n);
    assert forall k, m :: k in s.rooms && m in s.rooms[k].members ==> (UpToDate(t, k, m, d) <==> UpToDate(s, k, m, d));
  }

  lemma ActCoherent(s: State, e: Event, d: Detail)
    requires RoomsInv(s) && Coherent(s, d) && Enabled(s, e)
    ensures Tables(Act(s, e)) && (Coherent(Act(s, e), d) <==> Unnoticed(s, e, d))
  {
    hide Enter, LeaveRoom, LastTold, Coherent;
    match e
    case Arrive(sid) => ArriveCoherent(s, sid, d);
    case SignIn(sid, user) => SignInCoherent(s, sid, user, d);
    case Rename(sid, name) => RenameCoherent(s, sid, name, d);
    case _ => OtherCoherent(s, e, d);
  }

  lemma OtherCoherent(s: State, e: Event, d: Detail)
    requires RoomsInv(s) && Coherent(s, d) && Enabled(s, e) && !e.Arrive? && !e.SignIn? && !e.Rename?
    ensures Tables(Act(s, e)) && Coherent(Act(s, e), d)
  {
    hide Enter, LeaveRoom, LastTold, Coherent;
    match e
    case Create(sid, name, max) =>
      OpenCoherent(s, sid, name, max, d);
      EnterCoherent(Opened(s, sid, name, max), NewKey(s), sid, d);
    case Find(sid, query) =>
      ReplyCoherent(s, sid, Found(Matching(s.rooms, query)), d);
    case Join(sid, id) =>
      KeyRoundTrip(id);
      if id in s.rooms {
        EnterCoherent(s, id, sid, d);
      } else {
        ReplyCoherent(s, sid, JoinFailed, d);
      }
    case Leave(sid, query, first) =>
      var k := KeyOf(s, sid);
      if k in s.rooms {
        LeaveCoherent(s, k, sid, first, d);
        LeaveMail(s, k, sid, first);
        ReplyCoherent(LeaveRoom(s, k, sid, first), sid, Found(Matching(LeaveRoom(s, k, sid, first).rooms, query)), d);
      } else {
        ReplyCoherent(s, sid, Found(Matching(s.rooms, query)), d);
      }
    case Broadcast(sid, text) =>
      var k := KeyOf(s, sid);
      if k in s.rooms && s.users[sid] in s.names {
        PostCoherent(s, s.rooms[k].members, _ => Said(s.names[s.users[sid]], text), d);
      }
    case StartGame(sid, url) =>
      var k := KeyOf(s, sid);
      if k in s.rooms {
        PostCoherent(s, s.rooms[k].members - {sid}, _ => Game(url), d);
      }
  }

  lemma OpenCoherent(s: State, sid: nat, name: string, max: Uint32, d: Detail)
    requires Tables(s) && Coherent(s, d) && sid in s.users && |s.rooms| < UINT_RANGE
    ensures Tables(Opened(s, sid, name, max)) && Coherent(Opened(s, sid, name, max), d)
  {
    hide LastTold;
    var t := Opened(s, sid, name, max);
    forall j, m | j in t.rooms && m in t.rooms[j].members
      ensures UpToDate(t, j, m, d)
    {
      assert UpToDate(s, j, m, d);
    }
  }

  lemma ArriveCoherent(s: State, sid: nat, d: Detail)
    requires Tables(s) && Coherent(s, d) && sid !in s.users
    ensures var t := Act(s, Arrive(sid)); Tables(t) && Coherent(t, d)
  {
    hide Coherent;
    UsersElsewhere(s, Act(s, Arrive(sid)), d);
  }

  lemma {:induction false} ListedSame(members: set<nat>, u1: map<nat, string>, n1: map<string, string>, u2: map<nat, string>, n2: map<string, string>)
    requires members <= u1.Keys && members <= u2.Keys
    requires forall m :: m in members ==> Entry(u1[m], n1) == Entry(u2[m], n2)
    ensures Listed(members, u1, n1) == Listed(members, u2, n2)
    decreases |members|
  {
    if m :| m in members {
      ListedWithout(members, m, u1, n1);
      ListedWithout(members, m, u2, n2);
      ListedSame(members - {m}, u1, n1, u2, n2);
    }
  }

  /** Signing in while seated keeps the counts right, and the ids exactly when the user stays the
      same. */
  lemma SignInCoherent(s: State, sid: nat, user: string, d: Detail)
    requires RoomsInv(s) && Coherent(s, d) && Enabled(s, SignIn(sid, user))
    ensures var t := Act(s, SignIn(sid, user));
            && Tables(t)
            && (Coherent(t, d) <==>
                  d == Counts || user == s.users[sid] || forall k :: k in s.rooms ==> sid !in s.rooms[k].members)
  {
    hide LastTold, Listed, ListingOf, UpToDate, Coherent;
    var t := s.(users := s.users[sid := user]);
    if d == Counts {
      CountsOnly(s, t);
    } else if user == s.users[sid] {
      assert t.users == s.users;
    } else if k :| k in s.rooms && sid in s.rooms[k].members {
      SignInSeated(s, sid, user, k, d);
    } else {
      UsersElsewhere(s, t, d);
    }
  }

  /** The count depends on nobody's id or name. */
  lemma CountsOnly(s: State, t: State)
    requires Tables(s) && Coherent(s, Counts) && Tables(t) && t.rooms == s.rooms && t.inbox == s.inbox
    ensures Coherent(t, Counts)
  {
    hide LastTold, Listed, ListingOf;
    forall j, m | j in t.rooms && m in t.rooms[j].members
      ensures UpToDate(t, j, m, Counts)
    {
      assert UpToDate(s, j, m, Counts);
    }
  }

  lemma SignInSeated(s: State, sid: nat, user: string, k: Key, d: Detail)
    requires Tables(s) && Coherent(s, d) && k in s.rooms && sid in s.rooms[k].members && user != s.users[sid] && d != Counts
    ensures var t := s.(users := s.users[sid := user]); Tables(t) && !Coherent(t, d)
  {
    hide LastTold, Listed, ListingOf;
    assert UpToDate(s, k, sid, d);
    assert !UpToDate(s.(users := s.users[sid := user]), k, sid, d);
  }

  /** Users of sessions that sit in no room changed, or were added. */
  lemma UsersElsewhere(s: State, t: State, d: Detail)
    requires Tables(s) && Coherent(s, d) && Tables(t) && t.rooms == s.rooms && t.names == s.names
    requires forall k, m :: k in s.rooms && m in s.rooms[k].members ==> t.users[m] == s.users[m] && t.inbox[m] == s.inbox[m]
    ensures Coherent(t, d)
  {
    hide LastTold, Listed, ListingOf;
    forall j, m | j in t.rooms && m in t.rooms[j].members
      ensures UpToDate(t, j, m, d)
    {
      assert UpToDate(s, j, m, d);
      ListedSame(s.rooms[j].members, s.users, s.names, t.users, t.names);
    }
  }

  /** A new name keeps the counts right; the ids exactly when the user was on record or nobody
      seated is that user; the names exactly when it is the old one or nobody seated is. */
  lemma RenameCoherent(s: State, sid: nat, name: string, d: Detail)
    requires RoomsInv(s) && Coherent(s, d) && Enabled(s, Rename(sid, name))
    ensures var t := Act(s, Rename(sid, name)); var user := s.users[sid];
            Tables(t) && (Coherent(t, d) <==> d == Counts || Shown(s, user, name, d) || !Seated(s, user))
  {
    hide LastTold, UpToDate, Coherent;
    var t := Act(s, Rename(sid, name));
    var user := s.users[sid];
    if d == Counts {
      CountsOnly(s, t);
    } else if user in s.names && s.names[user] == name {
      assert t.names == s.names;
      assert t == s;
    } else if !Seated(s, user) {
      RenameElsewhere(s, user, name, d);
    } else if user in s.names && d == Ids {
      RenameOnRecord(s, user, name);
    } else {
      var k, m :| k in s.rooms && m in s.rooms[k].members && s.users[m] == user;
      RenameSeated(s, k, m, name, d);
    }
  }

  lemma RenameElsewhere(s: State, user: string, name: string, d: Detail)
    requires Tables(s) && Coherent(s, d) && !Seated(s, user)
    ensures Coherent(s.(names := s.names[user := name]), d)
  {
    hide LastTold;
    var t := s.(names := s.names[user := name]);
    forall j, m | j in s.rooms && m in s.rooms[j].members
      ensures UpToDate(t, j, m, d)
    {
      assert UpToDate(s, j, m, d);
      ListedSame(s.rooms[j].members, s.users, s.names, t.users, t.names);
    }
  }

  /** Another name for a user on record leaves every list of ids as it is. */
  lemma RenameOnRecord(s: State, user: string, name: string)
    requires Tables(s) && Coherent(s, Ids) && user in s.names
    ensures Coherent(s.(names := s.names[user := name]), Ids)
  {
    hide LastTold, Listed, IdsOf, ListingOf;
    var t := s.(names := s.names[user := name]);
    forall j, m | j in s.rooms && m in s.rooms[j].members
      ensures UpToDate(t, j, m, Ids)
    {
      assert UpToDate(s, j, m, Ids);
      SameIds(s.rooms[j].members, s.users, s.names, t.names);
    }
  }

  lemma RenameSeated(s: State, k: Key, m: nat, name: string, d: Detail)
    requires Tables(s) && Coherent(s, d) && k in s.rooms && m in s.rooms[k].members && d != Counts
    requires s.users[m] in s.names ==> d == Names && s.names[s.users[m]] != name
    ensures !Coherent(s.(names := s.names[s.users[m] := name]), d)
  {
    hide LastTold, Listed, IdsOf, ListingOf;
    var t := s.(names := s.names[s.users[m] := name]);
    var members, user := s.rooms[k].members, s.users[m];
    assert UpToDate(s, k, m, d);
    if d == Names {
      ListedCounts(members, s.users, s.names, UserInfo(user, name));
      ListedCounts(members, t.users, t.names, UserInfo(user, name));
    } else {
      IdsListed(members, s.users, s.names, user);
      IdsListed(members, t.users, t.names, user);
    }
    assert m in Under(members, s.users, user);
    assert !UpToDate(t, k, m, d);
  }

  ghost predicate AllUnnoticed(s: State, es: seq<Event>, d: Detail)
    requires Possible(s, es)
    decreases |es|
  {
    es != [] ==> Unnoticed(s, es[0], d) && AllUnnoticed(Step(s, es[0]), es[1..], d)
  }

  lemma {:induction false} RunCoherent(s: State, es: seq<Event>, d: Detail)
    requires RoomsInv(s) && Coherent(s, d) && Possible(s, es) && AllUnnoticed(s, es, d)
    ensures RoomsInv(After(s, es)) && Coherent(After(s, es), d)
    decreases |es|
  {
    if es != [] {
      StepCoherent(s, es[0], d);
      RunCoherent(Step(s, es[0]), es[1..], d);
    }
  }

  /** Over every run, whatever is signed in or registered meanwhile, the last join response or
      update a member was sent for its room has the room's name, count and maximum as they
      are. */
  lemma CountEveryRun(names: map<string, string>, es: seq<Event>, k: Key, m: nat)
    requires Possible(Init(names), es)
    requires k in After(Init(names), es).rooms && m in After(Init(names), es).rooms[k].members
    ensures var s := After(Init(names), es); var r := s.rooms[k];
            && m in s.inbox && LastTold(s.inbox[m], k).Told?
            && LastTold(s.inbox[m], k).room == Listing(k, r.info.name, |r.members|, r.info.max)
  {
    AlwaysCounted(Init(names), es);
    RunCoherent(Init(names), es, Counts);
    assert UpToDate(After(Init(names), es), k, m, Counts);
  }

  lemma {:induction false} AlwaysCounted(s: State, es: seq<Event>)
    requires Possible(s, es)
    ensures AllUnnoticed(s, es, Counts)
    decreases |es|
  {
    if es != [] {
      AlwaysCounted(Step(s, es[0]), es[1..]);
    }
  }

  /** Over any run in which nobody signs in as somebody else, or comes on record, while seated,
      with any changes of names, it also has the member's own user id, and lists each user on
      record once for every member under that id, and nobody else. */
  lemma IdsEveryRun(names: map<string, string>, es: seq<Event>, k: Key, m: nat)
    requires Possible(Init(names), es) && AllUnnoticed(Init(names), es, Ids)
    requires k in After(Init(names), es).rooms && m in After(Init(names), es).rooms[k].members
    ensures var s := After(Init(names), es); var members := s.rooms[k].members;
            && m in s.inbox && members <= s.users.Keys
            && var told := LastTold(s.inbox[m], k);
            && told.Told? && told.myId == s.users[m] && told.room.count == |members|
            && forall user :: IdsOf(told.users)[user] == if user in s.names then |Under(members, s.users, user)| else 0
  {
    RunCoherent(Init(names), es, Ids);
    hide IdsOf, LastTold, UpToDate;
    assert UpToDate(After(Init(names), es), k, m, Ids);
    IdsShown(After(Init(names), es), k, m);
  }

  lemma IdsShown(s: State, k: Key, m: nat)
    requires Tables(s) && k in s.rooms && m in s.inbox && UpToDate(s, k, m, Ids)
    ensures var members, told := s.rooms[k].members, LastTold(s.inbox[m], k);
            && told.Told? && told.myId == s.users[m] && told.room.count == |members|
            && forall user :: IdsOf(told.users)[user] == if user in s.names then |Under(members, s.users, user)| else 0
  {
    hide Listed, IdsOf, LastTold;
    forall user
      ensures IdsOf(LastTold(s.inbox[m], k).users)[user]
           == if user in s.names then |Under(s.rooms[k].members, s.users, user)| else 0
    {
      IdsListed(s.rooms[k].members, s.users, s.names, user);
    }
  }

  /** Over any run that changes no user or name clients are shown and not told of, the names are
      those on record as well. */
  lemma ViewEveryRun(names: map<string, string>, es: seq<Event>, k: Key, m: nat)
    requires Possible(Init(names), es) && AllUnnoticed(Init(names), es, Names)
    requires k in After(Init(names), es).rooms && m in After(Init(names), es).rooms[k].members
    ensures var s := After(Init(names), es); var members := s.rooms[k].members;
            && m in s.inbox && members <= s.users.Keys
            && LastTold(s.inbox[m], k)
                 == Told(s.users[m], Listing(k, s.rooms[k].info.name, |members|, s.rooms[k].info.max), Listed(members, s.users, s.names))
  {
    RunCoherent(Init(names), es, Names);
    assert UpToDate(After(Init(names), es), k, m, Names);
  }

  function Under(members: set<nat>, users: map<nat, string>, user: string): set<nat>
    requires members <= users.Keys
  {
    set m | m in members && users[m] == user
  }

  /** What a list shows: a user on record once for every member under that id, with the name
      on record, and nothing else. */
  lemma {:induction false} ListedCounts(members: set<nat>, users: map<nat, string>, names: map<string, string>, u: UserInfo)
    requires members <= users.Keys
    ensures Listed(members, users, names)[u]
         == if u.id in names && u.name == names[u.id] then |Under(members, users, u.id)| else 0
    decreases |members|
  {
    hide Listed;
    if members == {} {
      NoneListed(members, users, names);
    } else {
      var x :| x in members;
      ListedWithout(members, x, users, names);
      ListedCounts(members - {x}, users, names, u);
      CountWithout(members, x, users, u.id);
    }
  }

  lemma NoneListed(members: set<nat>, users: map<nat, string>, names: map<string, string>)
    requires members == {}
    ensures Listed(members, users, names) == multiset{} && forall user :: Under(members, users, user) == {}
  {
  }

  lemma CountWithout(members: set<nat>, x: nat, users: map<nat, string>, user: string)
    requires x in members && members <= users.Keys
    ensures |Under(members, users, user)| == |Under(members - {x}, users, user)| + if users[x] == user then 1 else 0
  {
    var rest := Under(members - {x}, users, user);
    assert Under(members, users, user) == if users[x] == user then rest + {x} else rest;
  }

  // ----- moving between rooms -----

  /** The converse of membership: nobody is a member of a room it does not believe it is in. */
  ghost predicate OneRoomEach(s: State) {
    forall k, m :: k in s.rooms && m in s.rooms[k].members ==> m in s.roomOf && s.roomOf[m] == ToInt(k)
  }

  predicate Admits(s: State, k: Key) {
    k in s.rooms && !Full(s.rooms[k])
  }

  ghost predicate SeatedElsewhere(s: State, sid: nat, k: Key) {
    exists j :: j in s.rooms && j != k && sid in s.rooms[j].members
  }

  /** The step lets a session into a room while it sits in another. */
  ghost predicate Doubles(s: State, e: Event)
    requires Enabled(s, e)
  {
    match e
    case Create(sid, _, max) => max > 0 && SeatedElsewhere(s, sid, NewKey(s))
    case Join(sid, id) => Admits(s, id) && SeatedElsewhere(s, sid, id)
    case _ => false
  }

  lemma EnterDoubles(s: State, k: Key, sid: nat)
    requires Tables(s) && k in s.rooms && sid in s.users && s.rooms[k].info.id == k
    requires OneRoomEach(s)
    ensures OneRoomEach(Enter(s, k, sid)) <==> !(Admits(s, k) && SeatedElsewhere(s, sid, k))
  {
    hide Enter;
    EnterMail(s, k, sid);
    var t := Enter(s, k, sid);
    if !Full(s.rooms[k]) {
      KeyRoundTrip(k);
      if j :| j in s.rooms && j != k && sid in s.rooms[j].members {
        KeyRoundTrip(j);
        assert j in t.rooms && sid in t.rooms[j].members;
        assert t.roomOf[sid] == ToInt(k) != ToInt(j);
      } else {
        assert forall j :: j in s.rooms && j != k ==> sid !in s.rooms[j].members;
      }
    }
  }

  lemma VacateSingle(s: State, k: Key, sid: nat, first: nat)
    requires Tables(s) && OneRoomEach(s) && MayLeave(s, k, sid, first) && k == KeyOf(s, sid) && s.rooms[k].info.id == k
    ensures OneRoomEach(Vacate(s, k, sid, first))
  {
    var t := Vacate(s, k, sid, first);
    KeyRoundTrip(k);
    forall j, m | j in t.rooms && m in t.rooms[j].members
      ensures t.roomOf[m] == ToInt(j)
    {
      KeyRoundTrip(j);
      assert m in s.rooms[j].members;
      assert m == sid ==> j == k;
    }
  }

  /** Only the rooms and the sessions' room numbers matter. */
  lemma OneRoomSame(s: State, t: State)
    requires t.rooms == s.rooms && t.roomOf == s.roomOf
    ensures OneRoomEach(t) <==> OneRoomEach(s)
  {
  }

  lemma OpenDoubles(s: State, sid: nat, name: string, max: Uint32)
    requires Tables(s) && OneRoomEach(s) && sid in s.users && |s.rooms| < UINT_RANGE
    ensures var t, k := Opened(s, sid, name, max), NewKey(s);
            && Tables(t) && OneRoomEach(t) && k in t.rooms && sid in t.users && t.rooms[k].info.id == k && (Admits(t, k) <==> max > 0)
            && (SeatedElsewhere(t, sid, k) <==> SeatedElsewhere(s, sid, k))
  {
    var t, k := Opened(s, sid, name, max), NewKey(s);
    assert forall j :: j in s.rooms ==> j in t.rooms && t.rooms[j] == s.rooms[j];
    assert forall j :: j in t.rooms && j != k ==> j in s.rooms;
  }

  lemma JoinOneRoom(s: State, sid: nat, id: Key)
    requires RoomsInv(s) && OneRoomEach(s) && Enabled(s, Join(sid, id))
    ensures OneRoomEach(Act(s, Join(sid, id))) <==> !Doubles(s, Join(sid, id))
  {
    hide Enter, OneRoomEach, SeatedElsewhere;
    KeyRoundTrip(id);
    if id in s.rooms {
      EnterDoubles(s, id, sid);
    } else {
      OneRoomSame(s, Act(s, Join(sid, id)));
    }
  }

  lemma LeaveOneRoom(s: State, sid: nat, query: string, first: nat)
    requires RoomsInv(s) && OneRoomEach(s) && Enabled(s, Leave(sid, query, first))
    ensures OneRoomEach(Act(s, Leave(sid, query, first)))
  {
    hide LeaveRoom, Vacate, OneRoomEach, Matching;
    var t, k := Act(s, Leave(sid, query, first)), KeyOf(s, sid);
    if k in s.rooms {
      LeaveMail(s, k, sid, first);
      VacateSingle(s, k, sid, first);
      OneRoomSame(Vacate(s, k, sid, first), t);
    } else {
      OneRoomSame(s, t);
    }
  }

  lemma CreateOneRoom(s: State, sid: nat, name: string, max: Uint32)
    requires RoomsInv(s) && OneRoomEach(s) && Enabled(s, Create(sid, name, max))
    ensures OneRoomEach(Act(s, Create(sid, name, max))) <==> !Doubles(s, Create(sid, name, max))
  {
    hide Enter, Opened, OneRoomEach, SeatedElsewhere, RoomsInv, Admits;
    assert Tables(s);
    OpenDoubles(s, sid, name, max);
    EnterDoubles(Opened(s, sid, name, max), NewKey(s), sid);
  }

  lemma ActOneRoom(s: State, e: Event)
    requires RoomsInv(s) && OneRoomEach(s) && Enabled(s, e)
    ensures OneRoomEach(Act(s, e)) <==> !Doubles(s, e)
  {
    hide RoomsInv, OneRoomEach;
    match e
    case Arrive(sid) =>
      hide Act;
      ArriveSingle(s, sid);
    case Create(sid, name, max) =>
      hide Act, Doubles;
      CreateOneRoom(s, sid, name, max);
    case Join(sid, id) =>
      hide Act, Doubles;
      JoinOneRoom(s, sid, id);
    case Leave(sid, query, first) =>
      hide Act;
      LeaveOneRoom(s, sid, query, first);
    case _ =>
      OneRoomSame(s, Act(s, e));
  }

  lemma ArriveSingle(s: State, sid: nat)
    requires Tables(s) && OneRoomEach(s) && sid !in s.users
    ensures OneRoomEach(Act(s, Arrive(sid)))
  {
  }

  /** A step keeps membership exact precisely when it does not let a session into a room while
      it sits in another: `Enter` never takes it out of the earlier one. */
  lemma StepOneRoom(s: State, e: Event)
    requires RoomsInv(s) && OneRoomEach(s) && Enabled(s, e)
    ensures OneRoomEach(Step(s, e)) <==> !Doubles(s, e)
  {
    hide Act, OneRoomEach, Doubles;
    ActOneRoom(s, e);
    OneRoomSame(Act(s, e), Step(s, e));
  }

  ghost predicate NeverDoubles(s: State, es: seq<Event>)
    requires Possible(s, es)
    decreases |es|
  {
    es != [] ==> !Doubles(s, es[0]) && NeverDoubles(Step(s, es[0]), es[1..])
  }

  lemma {:induction false} RunOneRoom(s: State, es: seq<Event>)
    requires RoomsInv(s) && OneRoomEach(s) && Possible(s, es) && NeverDoubles(s, es)
    ensures OneRoomEach(After(s, es))
    decreases |es|
  {
    if es != [] {
      StepKeeps(s, es[0]);
      StepOneRoom(s, es[0]);
      RunOneRoom(Step(s, es[0]), es[1..]);
    }
  }

  /** So over runs without such a step, a session is a member of exactly the room it believes
      it is in. */
  lemma MembershipExact(names: map<string, string>, es: seq<Event>, k: Key, m: nat)
    requires Possible(Init(names), es) && NeverDoubles(Init(names), es)
    requires k in After(Init(names), es).rooms && ToInt(k) != NO_ROOM
    ensures var s := After(Init(names), es);
            m in s.rooms[k].members <==> m in s.roomOf && s.roomOf[m] == ToInt(k)
  {
    RunKeeps(Init(names), es);
    RunOneRoom(Init(names), es);
    KeyRoundTrip(k);
    var s := After(Init(names), es);
    if m in s.roomOf {
      assert Placed(s, m);
    }
  }

  /** A run with such a step: the session opens a second room and stays in the first. */
  lemma TwoRoomsAtOnce(names: map<string, string>, es: seq<Event>)
    requires es == [Arrive(1), Create(1, "a", 2), Create(1, "b", 2)]
    ensures Possible(Init(names), es)
    ensures var s := After(Init(names), es);
            && 0 in s.rooms && 1 in s.rooms && 1 in s.rooms[0].members && 1 in s.rooms[1].members
            && 1 in s.roomOf && s.roomOf[1] == 1
  {
    hide Act;
    var s1 := Step(Init(names), es[0]);
    ArriveShape(names, 1);
    OpenShape(s1, 1, "a", 2);
    assert NewKey(s1) == 0;
    var s2 := Step(s1, es[1]);
    OpenShape(s2, 1, "b", 2);
    assert NewKey(s2) == 1;
    Three(Init(names), es[0], es[1], es[2]);
  }

  lemma ArriveShape(names: map<string, string>, sid: nat)
    ensures Enabled(Init(names), Arrive(sid))
    ensures var t := Step(Init(names), Arrive(sid)); t.rooms == map[] && sid in t.users && Tables(t)
  {
  }

  lemma Three(s: State, a: Event, b: Event, c: Event)
    requires Enabled(s, a) && Enabled(Step(s, a), b) && Enabled(Step(Step(s, a), b), c)
    ensures Possible(s, [a, b, c]) && After(s, [a, b, c]) == Step(Step(Step(s, a), b), c)
  {
    hide Step, Enabled;
    var s2 := Step(Step(s, a), b);
    assert [a, b, c][1..] == [b, c] && [b, c][1..] == [c] && [c][1..] == [];
    assert Possible(Step(s2, c), []) && After(Step(s2, c), []) == Step(s2, c);
    assert Possible(s2, [c]) && After(s2, [c]) == Step(s2, c);
    assert Possible(Step(s, a), [b, c]) && After(Step(s, a), [b, c]) == Step(s2, c);
  }

  /** What creating a room does, to the table and to its creator. */
  lemma OpenShape(s: State, sid: nat, name: string, max: Uint32)
    requires Tables(s) && sid in s.users && |s.rooms| < UINT_RANGE && max > 0
    ensures var t := Step(s, Create(sid, name, max)); var k := NewKey(s);
            && t.rooms == s.rooms[k := Room(RoomInfo(k, name, max, s.users[sid]), {sid})]
            && t.roomOf == s.roomOf[sid := ToInt(k)] && t.users == s.users && Tables(t)
  {
    hide Enter, Seat, Opened;
    SeatOpened(s, sid, name, max);
    EnterMail(Opened(s, sid, name, max), NewKey(s), sid);
  }

  lemma SeatOpened(s: State, sid: nat, name: string, max: Uint32)
    requires Tables(s) && sid in s.users && |s.rooms| < UINT_RANGE
    ensures var t, k := Opened(s, sid, name, max), NewKey(s);
            && Tables(t) && k in t.rooms && sid in t.users && (Full(t.rooms[k]) <==> max == 0)
            && Tables(Seat(t, k, sid)) && Seat(t, k, sid).users == s.users
            && Seat(t, k, sid).rooms == s.rooms[k := Room(RoomInfo(k, name, max, s.users[sid]), {sid})]
            && Seat(t, k, sid).roomOf == s.roomOf[sid := ToInt(k)]
  {
    hide NewKey;
    var k := NewKey(s);
    assert {} + {sid} == {sid};
    assert s.rooms[k := Room(RoomInfo(k, name, max, s.users[sid]), {})][k := Room(RoomInfo(k, name, max, s.users[sid]), {sid})]
        == s.rooms[k := Room(RoomInfo(k, name, max, s.users[sid]), {sid})];
  }

  // ----- the answers to a join and a leave -----

  /** Session `sid` was let into room `id`, and told how it stands, host and newcomer
      included. */
  ghost predicate Welcomed(s: State, t: State, sid: nat, id: Key) {
    && id in s.rooms && id in t.rooms && sid in s.inbox && sid in t.inbox && sid in t.roomOf && sid in t.users
    && t.rooms[id].members == s.rooms[id].members + {sid} && t.roomOf[sid] == ToInt(id)
    && t.rooms[id].members <= t.users.Keys
    && t.inbox[sid] == s.inbox[sid] + [JoinDone(t.users[sid], ListingOf(t.rooms[id]), t.rooms[id].info.host,
                                                Listed(t.rooms[id].members, t.users, t.names))]
  }

  /** A join is answered with the room as it then is if the room exists and has fewer members
      than its maximum; otherwise with a failure, and nothing else happens. */
  lemma JoinAnswered(s: State, sid: nat, id: Key)
    requires RoomsInv(s) && Enabled(s, Join(sid, id))
    ensures if id in s.rooms && |s.rooms[id].members| < s.rooms[id].info.max then Welcomed(s, Step(s, Join(sid, id)), sid, id)
            else Step(s, Join(sid, id)) == s.(inbox := s.inbox[sid := s.inbox[sid] + [JoinFailed]])
  {
    hide Enter, Listed, AllRoomsOk, AllPlaced;
    KeyRoundTrip(id);
    if id in s.rooms {
      assert s.rooms[id].info.id == id by { RoomFiled(s, id); }
      EnterMail(s, id, sid);
      if Full(s.rooms[id]) {
        EnterFull(s, id, sid);
      } else {
        EnterSends(s, id, sid, sid);
      }
    }
  }

  lemma RoomFiled(s: State, id: Key)
    requires AllRoomsOk(s) && id in s.rooms
    ensures s.rooms[id].info.id == id
  {
  }

  lemma EnterFull(s: State, k: Key, sid: nat)
    requires Tables(s) && k in s.rooms && sid in s.users && Full(s.rooms[k])
    ensures Enter(s, k, sid) == Reply(s, sid, JoinFailed)
  {
  }

  /** A leave is answered with the list of matching rooms, whether there was a room to leave or
      not; afterwards the session is in no room it believes in, and not a member of the one it
      left. */
  lemma LeaveAnswered(s: State, sid: nat, query: string, first: nat)
    requires RoomsInv(s) && Enabled(s, Leave(sid, query, first))
    ensures var t := Step(s, Leave(sid, query, first)); var k := KeyOf(s, sid);
            && sid in t.inbox && t.inbox[sid] == s.inbox[sid] + [Found(Matching(t.rooms, query))]
            && AreFound(Matching(t.rooms, query), t.rooms, query)
            && t.roomOf == s.roomOf[sid := NO_ROOM]
            && (k in t.rooms ==> sid !in t.rooms[k].members)
            && (k !in s.rooms ==> t.rooms == s.rooms)
  {
    hide LeaveRoom, Matching;
    MatchingFound(Step(s, Leave(sid, query, first)).rooms, query);
    var k := KeyOf(s, sid);
    assert Placed(s, sid);
    KeyRoundTrip(k);
    if k in s.rooms {
      LeaveMail(s, k, sid, first);
      LeaveSends(s, k, sid, first, sid);
    } else {
      assert s.roomOf == s.roomOf[sid := NO_ROOM];
    }
  }

  // ----- joining and leaving again -----

  lemma SeatTables(s: State, k: Key, sid: nat)
    requires Tables(s) && k in s.rooms && sid in s.users
    ensures Tables(Seat(s, k, sid)) && Seat(s, k, sid).users == s.users
  {
  }

  lemma JoinShape(s: State, sid: nat, k: Key)
    requires RoomsInv(s) && Enabled(s, Join(sid, k)) && Admits(s, k)
    ensures var t := Step(s, Join(sid, k));
            Tables(t) && t.rooms == Seat(s, k, sid).rooms && t.roomOf == Seat(s, k, sid).roomOf && t.users == s.users
  {
    hide Enter, AllRoomsOk, AllPlaced, KeysOk, Seat;
    SeatTables(s, k, sid);
    KeyRoundTrip(k);
    EnterMail(s, k, sid);
  }

  lemma LeaveShape(s: State, sid: nat, k: Key, query: string, first: nat)
    requires Tables(s) && MayLeave(s, k, sid, first) && k == KeyOf(s, sid)
    ensures Enabled(s, Leave(sid, query, first))
    ensures var t := Step(s, Leave(sid, query, first));
            t.rooms == Vacate(s, k, sid, first).rooms && t.roomOf == Vacate(s, k, sid, first).roomOf
  {
    hide LeaveRoom;
    LeaveMail(s, k, sid, first);
  }

  lemma VacateSeated(s: State, t: State, k: Key, sid: nat, first: nat)
    requires k in s.rooms && s.rooms[k].info.id == k && sid !in s.rooms[k].members && first in s.rooms[k].members
    requires t.rooms == Seat(s, k, sid).rooms && t.roomOf == Seat(s, k, sid).roomOf && sid in t.users && first in t.users
    ensures MayLeave(t, k, sid, first)
    ensures var r := s.rooms[k]; var u := Vacate(t, k, sid, first);
            && u.roomOf == s.roomOf[sid := NO_ROOM]
            && u.rooms == s.rooms[k := r.(info := r.info.(host := if t.users[sid] == r.info.host then t.users[first] else r.info.host))]
  {
    assert t.rooms[k].members - {sid} == s.rooms[k].members;
  }

  lemma VacateLast(s: State, t: State, k: Key, sid: nat, first: nat)
    requires k !in s.rooms && k in t.rooms && t.rooms == s.rooms[k := t.rooms[k]] && t.rooms[k].info.id == k
    requires t.rooms[k].members == {sid} && sid in t.users && sid in t.roomOf && t.roomOf == s.roomOf[sid := t.roomOf[sid]]
    ensures MayLeave(t, k, sid, first)
    ensures var u := Vacate(t, k, sid, first); u.rooms == s.rooms && u.roomOf == s.roomOf[sid := NO_ROOM]
  {
    KeyRoundTrip(k);
  }

  /** Leaving undoes joining: the room table is as before the join, except that a session under
      the host's id passes the host's place on to the first member left. */
  lemma JoinThenLeave(s: State, sid: nat, k: Key, query: string, first: nat)
    requires RoomsInv(s) && Enabled(s, Join(sid, k)) && Admits(s, k)
    requires sid !in s.rooms[k].members && first in s.rooms[k].members
    ensures var t := Step(s, Join(sid, k)); var r := s.rooms[k];
            && Enabled(t, Leave(sid, query, first))
            && var u := Step(t, Leave(sid, query, first));
            && u.roomOf == s.roomOf[sid := NO_ROOM]
            && u.rooms == s.rooms[k := r.(info := r.info.(host := if s.users[sid] == r.info.host then s.users[first] else r.info.host))]
  {
    hide Step, Enabled, Vacate;
    KeyRoundTrip(k);
    JoinShape(s, sid, k) by {
      assert Enabled(s, Join(sid, k));
    }
    var t := Step(s, Join(sid, k));
    var r := s.rooms[k];
    assert sid in s.users && first in s.users by {
      assert Enabled(s, Join(sid, k));
      KnownMembers(s, sid, k);
    }
    VacateSeated(s, t, k, sid, first);
    LeaveShape(t, sid, k, query, first);
  }

  lemma KnownMembers(s: State, sid: nat, k: Key)
    requires Enabled(s, Join(sid, k)) && k in s.rooms
    ensures sid in s.users && s.rooms[k].members <= s.users.Keys
  {
  }

  /** ... and a room opened by a session in no room is gone when it leaves. */
  lemma CreateThenLeave(s: State, sid: nat, name: string, max: Uint32, query: string, first: nat)
    requires RoomsInv(s) && sid in s.users && |s.rooms| < UINT_RANGE && max > 0
    ensures Enabled(s, Create(sid, name, max))
    ensures var t := Step(s, Create(sid, name, max));
            && Enabled(t, Leave(sid, query, first))
            && Step(t, Leave(sid, query, first)).rooms == s.rooms
            && Step(t, Leave(sid, query, first)).roomOf == s.roomOf[sid := NO_ROOM]
  {
    assert Enabled(s, Create(sid, name, max));
    hide Step, Enabled, RoomsInv, Vacate;
    OpenShape(s, sid, name, max);
    var t, k := Step(s, Create(sid, name, max)), NewKey(s);
    KeyRoundTrip(k);
    VacateLast(s, t, k, sid, first);
    LeaveShape(t, sid, k, query, first);
  }

  // ----- chat and game start -----

  lemma SaidToRoom(s: State, sid: nat, text: string)
    requires RoomsInv(s) && Enabled(s, Broadcast(sid, text))
    requires s.roomOf[sid] != NO_ROOM && s.users[sid] in s.names
    ensures var t := Step(s, Broadcast(sid, text)); var k := KeyOf(s, sid);
            && k in s.rooms && s.roomOf[sid] == ToInt(k)
            && t.inbox == Post(s.inbox, s.rooms[k].members, _ => Said(s.names[s.users[sid]], text))
  {
    assert Placed(s, sid);
  }

  lemma GameToOthers(s: State, sid: nat, url: string)
    requires RoomsInv(s) && Enabled(s, StartGame(sid, url)) && s.roomOf[sid] != NO_ROOM
    ensures var t := Step(s, StartGame(sid, url)); var k := KeyOf(s, sid);
            && k in s.rooms && s.roomOf[sid] == ToInt(k)
            && t.inbox == Post(s.inbox, s.rooms[k].members - {sid}, _ => Game(url))
  {
    assert Placed(s, sid);
  }

  predicate InRoom(s: State, sid: nat) {
    sid in s.users && sid in s.roomOf && s.roomOf[sid] != NO_ROOM
  }

  /** Exactly the sessions that believe they are in the room of `sid` got the message, once;
      `sid` itself only if `own`. */
  ghost predicate HeardInRoom(s: State, t: State, sid: nat, msg: Msg, own: bool)
    requires InRoom(s, sid)
  {
    && t.inbox.Keys == s.inbox.Keys == s.roomOf.Keys
    && forall m :: m in s.inbox ==>
         t.inbox[m] == s.inbox[m] + if s.roomOf[m] == s.roomOf[sid] && (own || m != sid) then [msg] else []
  }

  lemma RoommatesAre(s: State, k: Key, m: nat)
    requires RoomsInv(s) && OneRoomEach(s) && k in s.rooms && ToInt(k) != NO_ROOM && m in s.roomOf
    ensures m in s.rooms[k].members <==> s.roomOf[m] == ToInt(k)
  {
    KeyRoundTrip(k);
    assert Placed(s, m);
  }

  lemma SaidInRoom(s: State, sid: nat, text: string)
    requires RoomsInv(s) && OneRoomEach(s) && InRoom(s, sid) && Enabled(s, Broadcast(sid, text)) && s.users[sid] in s.names
    ensures HeardInRoom(s, Step(s, Broadcast(sid, text)), sid, Said(s.names[s.users[sid]], text), true)
  {
    SaidToRoom(s, sid, text);
    assert Tables(s);
    hide Step, RoomsInv, OneRoomEach, Enabled, Tables;
    forall m | m in s.roomOf
      ensures m in s.rooms[KeyOf(s, sid)].members <==> s.roomOf[m] == s.roomOf[sid]
    {
      RoommatesAre(s, KeyOf(s, sid), m);
    }
  }

  lemma GameInRoom(s: State, sid: nat, url: string)
    requires RoomsInv(s) && OneRoomEach(s) && InRoom(s, sid) && Enabled(s, StartGame(sid, url))
    ensures HeardInRoom(s, Step(s, StartGame(sid, url)), sid, Game(url), false)
  {
    GameToOthers(s, sid, url);
    hide Step, RoomsInv, OneRoomEach, Enabled;
    forall m | m in s.roomOf
      ensures m in s.rooms[KeyOf(s, sid)].members <==> s.roomOf[m] == s.roomOf[sid]
    {
      RoommatesAre(s, KeyOf(s, sid), m);
    }
  }

  /** Over runs in which nobody enters a room while it sits in another, what a session in a
      room says, if its user is on record, is heard exactly by the sessions that believe they
      are in that room, itself among them; and the game it starts by the others of them. */
  lemma RoomHears(names: map<string, string>, es: seq<Event>, sid: nat, text: string)
    requires Possible(Init(names), es) && NeverDoubles(Init(names), es) && InRoom(After(Init(names), es), sid)
    ensures var s := After(Init(names), es);
            && Enabled(s, Broadcast(sid, text)) && Enabled(s, StartGame(sid, text))
            && (s.users[sid] in s.names ==>
                  HeardInRoom(s, Step(s, Broadcast(sid, text)), sid, Said(s.names[s.users[sid]], text), true))
            && HeardInRoom(s, Step(s, StartGame(sid, text)), sid, Game(text), false)
  {
    RunKeeps(Init(names), es);
    RunOneRoom(Init(names), es);
    var s := After(Init(names), es);
    assert Enabled(s, Broadcast(sid, text)) && Enabled(s, StartGame(sid, text));
    hide Step, Enabled, RoomsInv, OneRoomEach, HeardInRoom;
    if s.users[sid] in s.names {
      SaidInRoom(s, sid, text);
    }
    GameInRoom(s, sid, text);
  }
}
