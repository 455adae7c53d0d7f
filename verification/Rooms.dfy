/**
  The lobby as a state machine: the room table, which room each session believes it is in,
  the signed-in user of each session, the user names on record, and everything each client
  was sent. A step is one handler run to its end.

  `inbox` and `peak` are history: the code does not keep them, and no branch reads them.
 */
module Rooms {
  import opened Numbers

  // ----- room ids: keys of the table are `uint`, a session keeps an `int` -----

  const UINT_RANGE := 0x1_0000_0000
  const INT_RANGE := 0x8000_0000
  const NO_ROOM := -1

  type Key = k: nat | k < UINT_RANGE

  function ToInt(k: Key): int {
    if k < INT_RANGE then k else k - UINT_RANGE
  }

  function ToUint(i: int): Key {
    i % UINT_RANGE
  }

  /** Storing a key in a session and looking it up again finds the same key, but the stored
      number is the key itself only in the lower half, and the largest key is stored as the
      number that means no room. */
  lemma KeyRoundTrip(k: Key)
    ensures ToUint(ToInt(k)) == k
    ensures ToInt(k) == k <==> k < INT_RANGE
    ensures ToInt(k) == NO_ROOM <==> k == ToUint(NO_ROOM)
  {
  }

  // ----- data -----

  type Uint32 = n: nat | n < UINT_RANGE

  datatype UserInfo = UserInfo(id: string, name: string)

  datatype RoomInfo = RoomInfo(id: Key, name: string, max: Uint32, host: string)

  datatype Room = Room(info: RoomInfo, members: set<nat>)

  datatype Listing = Listing(id: Key, name: string, count: nat, max: Uint32)

  /** The lists of users and of rooms come in the order of a hash table, which is open. */
  datatype Msg =
    | JoinFailed
    | JoinDone(myId: string, room: Listing, host: string, users: multiset<UserInfo>)
    | Update(myId: string, room: Listing, users: multiset<UserInfo>)
    | Found(rooms: set<Listing>)
    | Said(userName: string, text: string)
    | Game(url: string)

  datatype State = State(
    rooms: map<Key, Room>, roomOf: map<nat, int>, users: map<nat, string>,
    names: map<string, string>, inbox: map<nat, seq<Msg>>, peak: nat)

  datatype Event =
    | Arrive(sid: nat)
    | SignIn(sid: nat, user: string)
    | Rename(sid: nat, name: string)
    | Create(sid: nat, name: string, max: Uint32)
    | Find(sid: nat, query: string)
    | Join(sid: nat, id: Key)
    | Leave(sid: nat, query: string, first: nat)
    | Broadcast(sid: nat, text: string)
    | StartGame(sid: nat, url: string)

  // ----- what is sent -----

  function Entry(user: string, names: map<string, string>): multiset<UserInfo> {
    if user in names then multiset{UserInfo(user, names[user])} else multiset{}
  }

  /** The members whose user is on record. */
  ghost function Listed(members: set<nat>, users: map<nat, string>, names: map<string, string>): multiset<UserInfo>
    requires members <= users.Keys
  {
    if members == {} then multiset{}
    else
      var m :| m in members;
      Entry(users[m], names) + Listed(members - {m}, users, names)
  }

  /** The order in which the members are visited does not matter. */
  lemma {:induction false} ListedWithout(members: set<nat>, x: nat, users: map<nat, string>, names: map<string, string>)
    requires x in members && members <= users.Keys
    ensures Listed(members, users, names) == Entry(users[x], names) + Listed(members - {x}, users, names)
    decreases |members|
  {
    var m :| m in members && Listed(members, users, names) == Entry(users[m], names) + Listed(members - {m}, users, names);
    if m != x {
      ListedWithout(members - {m}, x, users, names);
      ListedWithout(members - {x}, m, users, names);
      assert members - {m} - {x} == members - {x} - {m};
    }
  }

  function ListingOf(r: Room): Listing {
    Listing(r.info.id, r.info.name, |r.members|, r.info.max)
  }

  /** Sends `m(sid)` to every session in `to`. */
  function Post(inbox: map<nat, seq<Msg>>, to: set<nat>, m: nat -> Msg): (after: map<nat, seq<Msg>>)
    ensures after.Keys == inbox.Keys
  {
    map sid | sid in inbox :: if sid in to then inbox[sid] + [m(sid)] else inbox[sid]
  }

  function Reply(s: State, sid: nat, m: Msg): (t: State)
    requires sid in s.inbox
    ensures t.inbox.Keys == s.inbox.Keys
  {
    s.(inbox := s.inbox[sid := s.inbox[sid] + [m]])
  }

  function UserOf(s: State, sid: nat): string {
    if sid in s.users then s.users[sid] else ""
  }

  /** `UpdateRoomBroadcast`: the room as it stands, to the sessions in `to`. */
  ghost function Tell(s: State, r: Room, to: set<nat>): (t: State)
    requires r.members <= s.users.Keys
    ensures t.inbox.Keys == s.inbox.Keys
  {
    var users := Listed(r.members, s.users, s.names);
    s.(inbox := Post(s.inbox, to, (m: nat) => Update(UserOf(s, m), ListingOf(r), users)))
  }

  predicate OccursAt(part: string, text: string, i: int) {
    0 <= i <= |text| - |part| && text[i..i + |part|] == part
  }

  predicate Contains(text: string, part: string) {
    exists i :: 0 <= i <= |text| && OccursAt(part, text, i)
  }

  function Matching(rooms: map<Key, Room>, query: string): set<Listing> {
    set k | k in rooms && Contains(rooms[k].info.name, query) ::
      Listing(k, rooms[k].info.name, |rooms[k].members|, rooms[k].info.max)
  }

  // ----- the handlers -----

  function LeastFree(keys: set<nat>, from: nat): (k: nat)
    ensures from <= k <= from + |keys|
    ensures k !in keys && forall j: nat :: from <= j < k ==> j in keys
    decreases |keys|
  {
    if from !in keys then from
    else
      var k := LeastFree(keys - {from}, from + 1);
      assert forall j: nat :: from < j < k ==> j in keys by {
        assert forall j: nat :: from < j < k && j !in keys ==> j !in keys - {from};
      }
      k
  }

  predicate Tables(s: State) {
    && s.roomOf.Keys == s.users.Keys == s.inbox.Keys
    && forall k :: k in s.rooms ==> s.rooms[k].members <= s.users.Keys
  }

  predicate Full(r: Room) {
    |r.members| + 1 > r.info.max
  }

  /** What `Room::Enter` changes when the room is not full. The session's earlier room is
      not told. */
  function Seat(s: State, k: Key, sid: nat): State
    requires k in s.rooms
  {
    var r := s.rooms[k];
    s.(rooms := s.rooms[k := r.(members := r.members + {sid})], roomOf := s.roomOf[sid := ToInt(r.info.id)])
  }

  /** `Room::Enter` of a room that is not full: the members are told, but not the newcomer. */
  ghost function Admit(s: State, k: Key, sid: nat): State
    requires Tables(s) && k in s.rooms && sid in s.users
  {
    var s1 := Seat(s, k, sid);
    var r := s1.rooms[k];
    if |r.members| > 1 then Tell(s1, r, r.members - {sid}) else s1
  }

  /** The response for the newcomer. */
  ghost function Welcome(s: State, k: Key, sid: nat): Msg
    requires Tables(s) && k in s.rooms && sid in s.users
  {
    var r := Seat(s, k, sid).rooms[k];
    JoinDone(s.users[sid], ListingOf(r), r.info.host, Listed(r.members, s.users, s.names))
  }

  /** `Room::Enter` and the reply its callers send. */
  ghost function Enter(s: State, k: Key, sid: nat): State
    requires Tables(s) && k in s.rooms && sid in s.users
  {
    if Full(s.rooms[k]) then Reply(s, sid, JoinFailed)
    else Reply(Admit(s, k, sid), sid, Welcome(s, k, sid))
  }

  predicate MayLeave(s: State, k: Key, sid: nat, first: nat) {
    && k in s.rooms && sid in s.users
    && (s.rooms[k].members - {sid} != {} ==> first in s.rooms[k].members - {sid} && first in s.users)
  }

  /** What `Room::Leave` changes; `first` is the member at the front of the hash table
      afterwards. */
  function Vacate(s: State, k: Key, sid: nat, first: nat): State
    requires MayLeave(s, k, sid, first)
  {
    var r := s.rooms[k];
    var members := r.members - {sid};
    var s1 := s.(roomOf := s.roomOf[sid := NO_ROOM]);
    if members == {} then s1.(rooms := s.rooms - {ToUint(ToInt(r.info.id))})
    else
      var host := if s.users[sid] == r.info.host then s.users[first] else r.info.host;
      s1.(rooms := s.rooms[k := Room(r.info.(host := host), members)])
  }

  /** `Room::Leave`. */
  ghost function LeaveRoom(s: State, k: Key, sid: nat, first: nat): State
    requires Tables(s) && MayLeave(s, k, sid, first)
  {
    var s1 := Vacate(s, k, sid, first);
    if s.rooms[k].members - {sid} == {} then s1 else Tell(s1, s1.rooms[k], s1.rooms[k].members)
  }

  /** The room a session would be looked up in. */
  function KeyOf(s: State, sid: nat): Key
    requires sid in s.roomOf
  {
    ToUint(s.roomOf[sid])
  }

  predicate Enabled(s: State, e: Event) {
    && Tables(s)
    && match e
       case Arrive(sid) => sid !in s.users
       case Create(sid, _, _) => sid in s.users && |s.rooms| < UINT_RANGE
       case Leave(sid, _, first) =>
         sid in s.users && (KeyOf(s, sid) in s.rooms ==> MayLeave(s, KeyOf(s, sid), sid, first))
       case _ => e.sid in s.users
  }

  /** The least free key. */
  function NewKey(s: State): (k: Key)
    requires |s.rooms| < UINT_RANGE
    ensures k <= |s.rooms| && k !in s.rooms && forall j: nat :: j < k ==> j in s.rooms
  {
    LeastFree(s.rooms.Keys, 0)
  }

  function Opened(s: State, sid: nat, name: string, max: Uint32): State
    requires sid in s.users && |s.rooms| < UINT_RANGE
  {
    s.(rooms := s.rooms[NewKey(s) := Room(RoomInfo(NewKey(s), name, max, s.users[sid]), {})])
  }

  ghost function Act(s: State, e: Event): State
    requires Enabled(s, e)
  {
    match e
    case Arrive(sid) =>
      s.(users := s.users[sid := ""], roomOf := s.roomOf[sid := NO_ROOM], inbox := s.inbox[sid := []])
    case SignIn(sid, user) => s.(users := s.users[sid := user])
    case Rename(sid, name) => s.(names := s.names[s.users[sid] := name])
    case Create(sid, name, max) => Enter(Opened(s, sid, name, max), NewKey(s), sid)
    case Find(sid, query) => Reply(s, sid, Found(Matching(s.rooms, query)))
    case Join(sid, id) =>
      var k := ToUint(ToInt(id));
      if k in s.rooms then Enter(s, k, sid) else Reply(s, sid, JoinFailed)
    case Leave(sid, query, first) =>
      var k := KeyOf(s, sid);
      var s1 := if k in s.rooms then LeaveRoom(s, k, sid, first) else s;
      Reply(s1, sid, Found(Matching(s1.rooms, query)))
    case Broadcast(sid, text) =>
      var k := KeyOf(s, sid);
      if k in s.rooms && s.users[sid] in s.names then
        s.(inbox := Post(s.inbox, s.rooms[k].members, _ => Said(s.names[s.users[sid]], text)))
      else s
    case StartGame(sid, url) =>
      var k := KeyOf(s, sid);
      if k in s.rooms then s.(inbox := Post(s.inbox, s.rooms[k].members - {sid}, _ => Game(url))) else s
  }

  ghost function Step(s: State, e: Event): State
    requires Enabled(s, e)
  {
    var s1 := Act(s, e);
    s1.(peak := Max(s.peak, |s1.rooms|))
  }

  function Init(names: map<string, string>): State {
    State(map[], map[], map[], names, map[], 0)
  }

  ghost predicate Possible(s: State, es: seq<Event>)
    decreases |es|
  {
    es == [] || (Enabled(s, es[0]) && Possible(Step(s, es[0]), es[1..]))
  }

  ghost function After(s: State, es: seq<Event>): State
    requires Possible(s, es)
    decreases |es|
  {
    if es == [] then s else After(Step(s, es[0]), es[1..])
  }
}
