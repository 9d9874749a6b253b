/** Rooms and their members: creation in one transaction, and direct rooms that are
    found before they are made. */
module RoomSpec {
  import opened Text
  import opened Uuid

  datatype RoomError =
    | MissingRoomID | InvalidName | InvalidCreator | InvalidMember | InvalidUser
    | Self | NotFound | NotAllowed | Internal

  datatype Room = Room(name: string, group: bool, creator: string)

  /** A member as the service hands it to the repository; the user id is text. */
  datatype Member = Member(user: string, role: string)

  /** Table room_members: one row for a room and a user, both as stored. */
  type Members = map<(string, string), string>

  datatype State = State(users: set<string>, rooms: map<string, Room>, members: Members, used: set<string>)

  const ADMIN := "admin"
  const MEMBER := "member"

  function MembersOf(members: Members, room: string): set<string> {
    set k | k in members && k.0 == room :: k.1
  }

  // ----- members of a new room -----

  function RoleOr(role: string): string {
    if role == "" then MEMBER else role
  }

  predicate Has(ms: seq<Member>, user: string) {
    exists i :: 0 <= i < |ms| && ms[i].user == user
  }

  /** The creator as admin, then each further user once, with the first role named
      for it; blank ids are skipped. */
  function WithMembers(ms: seq<Member>, inputs: seq<Member>): seq<Member>
    decreases |inputs|
  {
    if inputs == [] then ms
    else
      var user := TrimSpace(inputs[0].user);
      WithMembers(if user == "" || Has(ms, user) then ms else ms + [Member(user, RoleOr(inputs[0].role))], inputs[1..])
  }

  function BuildMembers(creator: string, inputs: seq<Member>): seq<Member> {
    WithMembers([Member(creator, ADMIN)], inputs)
  }

  lemma HasSnoc(ms: seq<Member>, m: Member)
    ensures forall u :: Has(ms + [m], u) <==> Has(ms, u) || u == m.user
  {
    forall u ensures Has(ms + [m], u) <==> Has(ms, u) || u == m.user {
      if Has(ms, u) {
        var i :| 0 <= i < |ms| && ms[i].user == u;
        assert (ms + [m])[i].user == u;
      }
      if u == m.user {
        assert (ms + [m])[|ms|].user == u;
      }
    }
  }

  predicate Once(ms: seq<Member>) {
    forall i, j :: 0 <= i < j < |ms| ==> ms[i].user != ms[j].user
  }

  predicate Named(inputs: seq<Member>, user: string) {
    user != "" && exists i :: 0 <= i < |inputs| && TrimSpace(inputs[i].user) == user
  }

  /** The first role named for a user. */
  function RoleFor(inputs: seq<Member>, user: string): string
    decreases |inputs|
  {
    if inputs == [] then ""
    else if TrimSpace(inputs[0].user) == user then RoleOr(inputs[0].role)
    else RoleFor(inputs[1..], user)
  }

  lemma NamedFirstOrLater(inputs: seq<Member>, user: string)
    requires inputs != []
    ensures Named(inputs, user) <==>
            (user != "" && user == TrimSpace(inputs[0].user)) || Named(inputs[1..], user)
  {
    if Named(inputs, user) {
      var i :| 0 <= i < |inputs| && TrimSpace(inputs[i].user) == user;
      assert i > 0 ==> inputs[1..][i - 1] == inputs[i];
    }
    if Named(inputs[1..], user) {
      var i :| 0 <= i < |inputs[1..]| && TrimSpace(inputs[1..][i].user) == user;
      assert inputs[i + 1] == inputs[1..][i];
    }
  }

  predicate RolesFrom(ms: seq<Member>, start: nat, inputs: seq<Member>) {
    forall i :: start <= i < |ms| ==> ms[i].role == RoleFor(inputs, ms[i].user)
  }

  lemma {:induction false} WithMembersAdds(ms: seq<Member>, inputs: seq<Member>)
    requires Once(ms)
    ensures var r := WithMembers(ms, inputs);
            && Once(r) && ms <= r && RolesFrom(r, |ms|, inputs)
            && (forall i :: |ms| <= i < |r| ==> r[i].user != "")
            && forall u :: Has(r, u) <==> Has(ms, u) || Named(inputs, u)
    decreases |inputs|
  {
    if inputs != [] {
      var user := TrimSpace(inputs[0].user);
      var m := Member(user, RoleOr(inputs[0].role));
      var next := if user == "" || Has(ms, user) then ms else ms + [m];
      HasSnoc(ms, m);
      WithMembersAdds(next, inputs[1..]);
      forall u ensures Named(inputs, u) <==> (u != "" && u == user) || Named(inputs[1..], u) {
        NamedFirstOrLater(inputs, u);
      }
      AddedAreOthers(ms, next, WithMembers(ms, inputs), user);
    }
  }

  /** Whoever is added after `user` has been dealt with is somebody else. */
  lemma AddedAreOthers(ms: seq<Member>, next: seq<Member>, all: seq<Member>, user: string)
    requires Once(all) && ms <= next <= all && (user == "" || Has(next, user))
    requires forall i :: |next| <= i < |all| ==> all[i].user != ""
    ensures forall i :: |next| <= i < |all| ==> all[i].user != user
  {
  }

  /** The creator is an admin; everybody named is a member exactly once, in the first
      role named for it. */
  lemma BuildMembersIsASet(creator: string, inputs: seq<Member>)
    ensures var ms := BuildMembers(creator, inputs);
            && Once(ms) && ms != [] && ms[0] == Member(creator, ADMIN)
            && RolesFrom(ms, 1, inputs)
            && forall u :: Has(ms, u) <==> u == creator || Named(inputs, u)
  {
    HasSnoc([], Member(creator, ADMIN));
    assert [] + [Member(creator, ADMIN)] == [Member(creator, ADMIN)];
    WithMembersAdds([Member(creator, ADMIN)], inputs);
  }

  // ----- the repository -----

  /** The id among `ids` that a text names. */
  function RowId(text: string, ids: set<string>): Option<string> {
    match Canon(text)
    case None => None
    case Some(id) => if id in ids then Some(id) else None
  }

  /** One INSERT INTO room_members: the user must exist and not be a member yet. */
  predicate Insertable(users: set<string>, members: Members, room: string, m: Member) {
    RowId(m.user, users).Some? && (room, RowId(m.user, users).value) !in members
  }

  function InsertAll(users: set<string>, members: Members, room: string, ms: seq<Member>): Option<Members>
    decreases |ms|
  {
    if ms == [] then Some(members)
    else if !Insertable(users, members, room, ms[0]) then None
    else InsertAll(users, members[(room, RowId(ms[0].user, users).value) := ms[0].role], room, ms[1..])
  }

  /** All of it or nothing. The calls are begin, the room, each member, and commit. */
  function Insert(s: State, id: string, room: Room, ms: seq<Member>, failAt: nat): (State, bool) {
    var creator, inserted := RowId(room.creator, s.users), InsertAll(s.users, s.members, id, ms);
    if 0 < failAt <= |ms| + 3 || creator.None? || inserted.None? then (s, false)
    else (s.(rooms := s.rooms[id := room.(creator := creator.value)], members := inserted.value), true)
  }

  /** The WHERE and HAVING of FindDirectRoom, by its two counts. */
  predicate Qualifies(s: State, id: string, a: string, b: string) {
    && id in s.rooms && !s.rooms[id].group
    && |MembersOf(s.members, id)| == 2
    && |set u | u in MembersOf(s.members, id) && u in [a, b]| == 2
  }

  datatype Lookup = Found(id: string) | NoRows | LookupFailed

  /** LIMIT 1: any qualifying room, or none if there is none. */
  predicate ValidLookup(s: State, a: string, b: string, lookup: Lookup) {
    match lookup
    case Found(id) => Qualifies(s, id, a, b)
    case NoRows => forall id :: id in s.rooms ==> !Qualifies(s, id, a, b)
    case LookupFailed => true
  }

  // ----- the service -----

  /** `failAt` is the number of the database call that fails, from 1; 0 for none. */
  function Create(s: State, name: string, group: bool, creator: string, inputs: seq<Member>, id: string, failAt: nat)
    : (State, Result<string, RoomError>)
  {
    if TrimSpace(name) == "" then (s, Err(InvalidName))
    else if TrimSpace(creator) == "" then (s, Err(InvalidCreator))
    else
      var (s', ok) := Insert(s, id, Room(TrimSpace(name), group, creator), BuildMembers(creator, inputs), failAt);
      (s', if ok then Ok(id) else Err(Internal))
  }

  predicate Less(a: string, b: string) {
    b != "" && (a == "" || a[0] < b[0] || (a[0] == b[0] && Less(a[1..], b[1..])))
  }

  function NormalizePair(a: string, b: string): (string, string) {
    if Less(a, b) then (a, b) else (b, a)
  }

  function DirectName(a: string, b: string): string {
    var (primary, secondary) := NormalizePair(a, b);
    "dm:" + primary + ":" + secondary
  }

  /** The room's id, and whether it was created now. */
  function EnsureDirect(s: State, userA: string, userB: string, lookup: Lookup, id: string, failAt: nat)
    : (State, Result<(string, bool), RoomError>)
  {
    var a, b := TrimSpace(userA), TrimSpace(userB);
    if a == "" || b == "" then (s, Err(InvalidUser))
    else if a == b then (s, Err(Self))
    else
      match lookup
      case Found(room) => (s, Ok((room, false)))
      case LookupFailed => (s, Err(Internal))
      case NoRows =>
        var (s', r) := Create(s, DirectName(a, b), false, a, [Member(b, MEMBER)], id, failAt);
        (s', if r.Ok? then Ok((r.value, true)) else Err(r.error))
  }

  function WithoutRoom(members: Members, room: string): Members {
    map k | k in members && k.0 != room :: members[k]
  }

  function Delete(s: State, roomID: string, requesterID: string, failAt: nat): (State, Result<(), RoomError>) {
    var room, requester := TrimSpace(roomID), TrimSpace(requesterID);
    if room == "" then (s, Err(MissingRoomID))
    else if requester == "" then (s, Err(InvalidUser))
    else if failAt == 1 || Canon(room).None? then (s, Err(Internal))
    else
      var id := Canon(room).value;
      if id !in s.rooms then (s, Err(NotFound))
      else if s.rooms[id].creator != requester then (s, Err(NotAllowed))
      else if failAt == 2 then (s, Err(Internal))
      else (s.(rooms := s.rooms - {id}, members := WithoutRoom(s.members, id)), Ok(()))
  }

  function AddMember(s: State, room: string, user: string, role: string, failAt: nat)
    : (State, Result<(), RoomError>)
  {
    var roomRow, userRow := RowId(room, s.rooms.Keys), RowId(user, s.users);
    if TrimSpace(room) == "" then (s, Err(MissingRoomID))
    else if TrimSpace(user) == "" then (s, Err(InvalidMember))
    else if failAt == 1 || roomRow.None? || userRow.None? then (s, Err(Internal))
    else (s.(members := s.members[(roomRow.value, userRow.value) := RoleOr(role)]), Ok(()))
  }

  function RemoveMember(s: State, room: string, user: string, failAt: nat): (State, Result<(), RoomError>) {
    if TrimSpace(room) == "" then (s, Err(MissingRoomID))
    else if TrimSpace(user) == "" then (s, Err(InvalidMember))
    else if failAt == 1 || Canon(room).None? || Canon(user).None? then (s, Err(Internal))
    else (s.(members := s.members - {(Canon(room).value, Canon(user).value)}), Ok(()))
  }
}

/** The same over mutable tables. */
module RoomService {
  import opened Text
  import opened Uuid
  import opened RoomSpec

  class Service {
    const users: set<string>
    var rooms: map<string, Room>
    var members: Members
    ghost var used: set<string>

    ghost function View(): State
      reads this
    {
      State(users, rooms, members, used)
    }

    constructor (users: set<string>)
      ensures View() == State(users, map[], map[], {})
    {
      this.users := users;
      rooms, members, used := map[], map[], {};
    }

    /** buildMembers: one pass with the users seen so far. */
    method BuildMembers(creator: string, inputs: seq<Member>) returns (ms: seq<Member>)
      ensures ms == RoomSpec.BuildMembers(creator, inputs)
    {
      ms := [Member(creator, ADMIN)];
      var seen := {creator};
      var i := 0;
      HasSnoc([], Member(creator, ADMIN));
      assert ms == [] + [Member(creator, ADMIN)] && inputs[0..] == inputs;
      while i < |inputs|
        invariant 0 <= i <= |inputs|
        invariant forall u :: u in seen <==> Has(ms, u)
        invariant WithMembers(ms, inputs[i..]) == RoomSpec.BuildMembers(creator, inputs)
      {
        assert inputs[i..][1..] == inputs[i + 1..];
        var user := TrimSpace(inputs[i].user);
        if user != "" && user !in seen {
          HasSnoc(ms, Member(user, RoleOr(inputs[i].role)));
          ms := ms + [Member(user, RoleOr(inputs[i].role))];
          seen := seen + {user};
        }
        i := i + 1;
      }
    }

    /** The repository's Create: a transaction, rolled back at the first failing row. */
    method Insert(id: string, room: Room, ms: seq<Member>, failAt: nat) returns (ok: bool)
      modifies this
      ensures (View(), ok) == RoomSpec.Insert(old(View()), id, room, ms, failAt)
    {
      var creator := RowId(room.creator, users);
      if failAt == 1 || failAt == 2 || creator.None? {
        return false;
      }
      var pending := members;
      var i := 0;
      assert ms[0..] == ms;
      while i < |ms|
        invariant 0 <= i <= |ms|
        invariant !(0 < failAt < i + 3)
        invariant InsertAll(users, pending, id, ms[i..]) == InsertAll(users, members, id, ms)
        invariant View() == old(View())
      {
        assert ms[i..][1..] == ms[i + 1..];
        if failAt == i + 3 || !Insertable(users, pending, id, ms[i]) {
          return false;
        }
        pending := pending[(id, RowId(ms[i].user, users).value) := ms[i].role];
        i := i + 1;
      }
      if failAt == |ms| + 3 {
        return false;
      }
      rooms := rooms[id := room.(creator := creator.value)];
      members := pending;
      return true;
    }

    method Create(name: string, group: bool, creator: string, inputs: seq<Member>, id: string, failAt: nat)
      returns (r: Result<string, RoomError>)
      modifies this
      ensures (View(), r) == RoomSpec.Create(old(View()), name, group, creator, inputs, id, failAt)
    {
      if TrimSpace(name) == "" {
        return Err(InvalidName);
      }
      if TrimSpace(creator) == "" {
        return Err(InvalidCreator);
      }
      var ms := BuildMembers(creator, inputs);
      var ok := Insert(id, Room(TrimSpace(name), group, creator), ms, failAt);
      r := if ok then Ok(id) else Err(Internal);
    }

    /** `lookup` is the database's answer to FindDirectRoom. */
    method EnsureDirectRoom(userA: string, userB: string, lookup: Lookup, id: string, failAt: nat)
      returns (r: Result<(string, bool), RoomError>)
      modifies this
      ensures (View(), r) == EnsureDirect(old(View()), userA, userB, lookup, id, failAt)
    {
      var a, b := TrimSpace(userA), TrimSpace(userB);
      if a == "" || b == "" {
        return Err(InvalidUser);
      }
      if a == b {
        return Err(Self);
      }
      match lookup {
        case Found(room) => return Ok((room, false));
        case LookupFailed => return Err(Internal);
        case NoRows =>
      }
      var created := Create(DirectName(a, b), false, a, [Member(b, MEMBER)], id, failAt);
      r := if created.Ok? then Ok((created.value, true)) else Err(created.error);
    }

    method AddMember(room: string, user: string, role: string, failAt: nat) returns (r: Result<(), RoomError>)
      modifies this
      ensures (View(), r) == RoomSpec.AddMember(old(View()), room, user, role, failAt)
    {
      if TrimSpace(room) == "" {
        return Err(MissingRoomID);
      }
      if TrimSpace(user) == "" {
        return Err(InvalidMember);
      }
      var roomRow, userRow := RowId(room, rooms.Keys), RowId(user, users);
      if failAt == 1 || roomRow.None? || userRow.None? {
        return Err(Internal);
      }
      members := members[(roomRow.value, userRow.value) := RoleOr(role)];
      return Ok(());
    }

    method RemoveMember(room: string, user: string, failAt: nat) returns (r: Result<(), RoomError>)
      modifies this
      ensures (View(), r) == RoomSpec.RemoveMember(old(View()), room, user, failAt)
    {
      if TrimSpace(room) == "" {
        return Err(MissingRoomID);
      }
      if TrimSpace(user) == "" {
        return Err(InvalidMember);
      }
      if failAt == 1 || Canon(room).None? || Canon(user).None? {
        return Err(Internal);
      }
      members := members - {(Canon(room).value, Canon(user).value)};
      return Ok(());
    }

    method Delete(roomID: string, requesterID: string, failAt: nat) returns (r: Result<(), RoomError>)
      modifies this
      ensures (View(), r) == RoomSpec.Delete(old(View()), roomID, requesterID, failAt)
    {
      var room, requester := TrimSpace(roomID), TrimSpace(requesterID);
      if room == "" {
        return Err(MissingRoomID);
      }
      if requester == "" {
        return Err(InvalidUser);
      }
      if failAt == 1 || Canon(room).None? {
        return Err(Internal);
      }
      var id := Canon(room).value;
      if id !in rooms {
        return Err(NotFound);
      }
      if rooms[id].creator != requester {
        return Err(NotAllowed);
      }
      if failAt == 2 {
        return Err(Internal);
      }
      rooms := rooms - {id};
      members := WithoutRoom(members, id);
      return Ok(());
    }
  }
}

/** What creation does, and direct rooms: unique as long as ids arrive in canonical form. */
module RoomTheorems {
  import opened Text
  import opened Uuid
  import opened RoomSpec

  predicate Direct(s: State, id: string) {
    id in s.rooms && !s.rooms[id].group
  }

  /** What the query's two counts mean. */
  lemma QueryMeaning(s: State, id: string, a: string, b: string)
    requires a != b
    ensures Qualifies(s, id, a, b) <==> Direct(s, id) && MembersOf(s.members, id) == {a, b}
  {
    var ms := MembersOf(s.members, id);
    var both := set u | u in ms && u in [a, b];
    if Qualifies(s, id, a, b) {
      SameSizeSame(both, ms);
      SameSizeSame(both, {a, b});
    }
    if ms == {a, b} {
      assert both == {a, b};
    }
  }

  lemma SameSizeSame<T>(s: set<T>, t: set<T>)
    requires s <= t && |s| == |t|
    ensures s == t
  {
    if x :| x in t && x !in s {
      SmallerSubset(s, t - {x});
    }
  }

  lemma SmallerSubset<T>(s: set<T>, t: set<T>)
    requires s <= t
    ensures |s| <= |t|
  {
    if x :| x in s {
      SmallerSubset(s - {x}, t - {x});
    }
  }

  ghost predicate IsPair(ms: set<string>) {
    exists a, b :: a != b && ms == {a, b}
  }

  /** What the schema sees to: references resolve. */
  predicate Sane(s: State) {
    && (forall id :: id in s.rooms ==> id in s.used)
    && (forall k :: k in s.members ==> k.0 in s.rooms && k.1 in s.users)
  }

  /** And stored ids are canonical. */
  ghost predicate StoredCanonically(s: State) {
    forall id :: Stored(s, id) ==> Canonical(id)
  }

  predicate Stored(s: State, id: string) {
    id in s.users || id in s.used
  }

  predicate IsNew(s: State, id: string) {
    id !in s.used
  }

  // ----- creating a room -----

  /** Each member's text names an existing user that is no member yet, and no two
      texts name the same one. */
  predicate AllInsertable(users: set<string>, members: Members, room: string, ms: seq<Member>) {
    && (forall i :: 0 <= i < |ms| ==> Insertable(users, members, room, ms[i]))
    && (forall i, j :: 0 <= i < j < |ms| ==> Canon(ms[i].user) != Canon(ms[j].user))
  }

  predicate AddedBy(room: string, ms: seq<Member>, k: (string, string)) {
    k.0 == room && exists i :: 0 <= i < |ms| && Canon(ms[i].user) == Some(k.1)
  }

  lemma AddedFirstOrLater(room: string, ms: seq<Member>, k: (string, string))
    requires ms != []
    ensures AddedBy(room, ms, k) <==>
            (k.0 == room && Canon(ms[0].user) == Some(k.1)) || AddedBy(room, ms[1..], k)
  {
    if AddedBy(room, ms, k) {
      var i :| 0 <= i < |ms| && Canon(ms[i].user) == Some(k.1);
      assert i > 0 ==> ms[1..][i - 1] == ms[i];
    }
    if AddedBy(room, ms[1..], k) {
      var i :| 0 <= i < |ms[1..]| && Canon(ms[1..][i].user) == Some(k.1);
      assert ms[i + 1] == ms[1..][i];
    }
  }

  lemma AllInsertableSplits(users: set<string>, members: Members, room: string, ms: seq<Member>)
    requires ms != [] && Insertable(users, members, room, ms[0])
    ensures var next := members[(room, RowId(ms[0].user, users).value) := ms[0].role];
            AllInsertable(users, members, room, ms) <==> AllInsertable(users, next, room, ms[1..])
  {
    var next := members[(room, RowId(ms[0].user, users).value) := ms[0].role];
    if AllInsertable(users, members, room, ms) {
      forall i | 0 <= i < |ms[1..]| ensures Insertable(users, next, room, ms[1..][i]) {
        assert Insertable(users, members, room, ms[i + 1]) && Canon(ms[0].user) != Canon(ms[i + 1].user);
      }
    }
    if AllInsertable(users, next, room, ms[1..]) {
      forall i | 0 < i < |ms|
        ensures Insertable(users, members, room, ms[i]) && Canon(ms[0].user) != Canon(ms[i].user)
      {
        assert Insertable(users, next, room, ms[1..][i - 1]);
      }
      forall i, j | 0 <= i < j < |ms| ensures Canon(ms[i].user) != Canon(ms[j].user) {
        if i > 0 {
          assert ms[1..][i - 1] == ms[i] && ms[1..][j - 1] == ms[j];
        }
      }
    }
  }

  lemma {:induction false} InsertAllWhen(users: set<string>, members: Members, room: string, ms: seq<Member>)
    ensures InsertAll(users, members, room, ms).Some? <==> AllInsertable(users, members, room, ms)
    decreases |ms|
  {
    if ms != [] && Insertable(users, members, room, ms[0]) {
      AllInsertableSplits(users, members, room, ms);
      InsertAllWhen(users, members[(room, RowId(ms[0].user, users).value) := ms[0].role], room, ms[1..]);
    }
  }

  /** The row of a member is there, in its role. */
  predicate HasRow(after: Members, room: string, m: Member) {
    && Canon(m.user).Some? && (room, Canon(m.user).value) in after
    && after[(room, Canon(m.user).value)] == m.role
  }

  /** `after` is `members` and the rows of ms. */
  ghost predicate Extends(users: set<string>, members: Members, after: Members, room: string, ms: seq<Member>) {
    && (forall k :: k in after <==> k in members || AddedBy(room, ms, k))
    && (forall k :: k in members ==> after[k] == members[k])
    && (forall k :: k in after && k !in members ==> k.1 in users)
    && (forall i :: 0 <= i < |ms| ==> HasRow(after, room, ms[i]))
  }

  lemma ExtendsOneMore(users: set<string>, members: Members, after: Members, room: string, ms: seq<Member>)
    requires ms != [] && Insertable(users, members, room, ms[0])
    requires Extends(users, members[(room, RowId(ms[0].user, users).value) := ms[0].role], after, room, ms[1..])
    ensures Extends(users, members, after, room, ms)
  {
    var key := (room, RowId(ms[0].user, users).value);
    forall k ensures AddedBy(room, ms, k) <==> k == key || AddedBy(room, ms[1..], k) {
      AddedFirstOrLater(room, ms, k);
    }
    assert HasRow(after, room, ms[0]);
    forall i | 0 < i < |ms| ensures HasRow(after, room, ms[i]) {
      assert HasRow(after, room, ms[1..][i - 1]);
    }
  }

  lemma {:induction false} InsertAllRows(users: set<string>, members: Members, room: string, ms: seq<Member>)
    requires InsertAll(users, members, room, ms).Some?
    ensures Extends(users, members, InsertAll(users, members, room, ms).value, room, ms)
    decreases |ms|
  {
    if ms != [] {
      var next := members[(room, RowId(ms[0].user, users).value) := ms[0].role];
      InsertAllRows(users, next, room, ms[1..]);
      ExtendsOneMore(users, members, InsertAll(users, next, room, ms[1..]).value, room, ms);
    }
  }

  /** The inserts succeed together exactly if each could go first and no two clash, in
      whatever order; then exactly their rows are new. */
  lemma InsertAllIff(users: set<string>, members: Members, room: string, ms: seq<Member>)
    ensures InsertAll(users, members, room, ms).Some? <==> AllInsertable(users, members, room, ms)
    ensures InsertAll(users, members, room, ms).Some? ==>
              Extends(users, members, InsertAll(users, members, room, ms).value, room, ms)
  {
    InsertAllWhen(users, members, room, ms);
    if InsertAll(users, members, room, ms).Some? {
      InsertAllRows(users, members, room, ms);
    }
  }

  predicate Asked(creator: string, inputs: seq<Member>, user: string) {
    user == creator || Named(inputs, user)
  }

  /** All whom the caller names exist, and none is named in two spellings. */
  ghost predicate AllAskedExist(users: set<string>, creator: string, inputs: seq<Member>) {
    && (forall u :: Asked(creator, inputs, u) ==> RowId(u, users).Some?)
    && (forall u, v :: Asked(creator, inputs, u) && Asked(creator, inputs, v) && Canon(u) == Canon(v) ==> u == v)
  }

  /** The room has a name, all those named exist, none in two spellings, and no database
      call fails. */
  ghost predicate Creatable(s: State, name: string, creator: string, inputs: seq<Member>, failAt: nat) {
    && TrimSpace(name) != "" && TrimSpace(creator) != "" && AllAskedExist(s.users, creator, inputs)
    && !(0 < failAt <= |BuildMembers(creator, inputs)| + 3)
  }

  /** A creation adds the room and its members' rows, or does nothing. */
  lemma CreateDoes(s: State, name: string, group: bool, creator: string, inputs: seq<Member>, id: string, failAt: nat)
    requires Sane(s) && IsNew(s, id)
    ensures var (s', r) := Create(s, name, group, creator, inputs, id, failAt);
            if Creatable(s, name, creator, inputs, failAt)
            then && r == Ok(id) && s' == s.(rooms := s'.rooms, members := s'.members)
                 && Canon(creator).Some?
                 && s'.rooms == s.rooms[id := Room(TrimSpace(name), group, Canon(creator).value)]
                 && Extends(s.users, s.members, s'.members, id, BuildMembers(creator, inputs))
            else r.Err? && s' == s
  {
    InsertAllIff(s.users, s.members, id, BuildMembers(creator, inputs));
    AskedAreBuilt(s, creator, inputs, id);
    if AllAskedExist(s.users, creator, inputs) {
      assert Asked(creator, inputs, creator);
    }
  }

  /** A room is created exactly if it is creatable; its members are then exactly those
      asked for. Otherwise nothing changes. */
  lemma CreateIff(s: State, name: string, group: bool, creator: string, inputs: seq<Member>, id: string, failAt: nat)
    requires Sane(s) && IsNew(s, id)
    ensures var (s', r) := Create(s, name, group, creator, inputs, id, failAt);
            && (r == Ok(id) <==> Creatable(s, name, creator, inputs, failAt))
            && (r.Err? ==> s' == s)
            && (r.Ok? ==> && (forall x :: x in MembersOf(s'.members, id)
                                      <==> exists u :: Asked(creator, inputs, u) && Canon(u) == Some(x))
                          && (forall other :: other != id ==>
                                MembersOf(s'.members, other) == MembersOf(s.members, other)))
  {
    CreateDoes(s, name, group, creator, inputs, id, failAt);
    var (s', r) := Create(s, name, group, creator, inputs, id, failAt);
    if r.Ok? {
      NewMembers(s, s'.members, creator, inputs, id);
      ExtendsElsewhere(s, s'.members, id, BuildMembers(creator, inputs));
    }
  }

  lemma ExtendsElsewhere(s: State, after: Members, room: string, ms: seq<Member>)
    requires Extends(s.users, s.members, after, room, ms)
    ensures forall other :: other != room ==> MembersOf(after, other) == MembersOf(s.members, other)
  {
    forall other | other != room ensures MembersOf(after, other) == MembersOf(s.members, other) {
      FrameMembersOf(s.members, after, room, other);
    }
  }

  lemma AskedAreBuilt(s: State, creator: string, inputs: seq<Member>, id: string)
    requires Sane(s) && IsNew(s, id)
    ensures AllInsertable(s.users, s.members, id, BuildMembers(creator, inputs))
            <==> AllAskedExist(s.users, creator, inputs)
  {
    var ms := BuildMembers(creator, inputs);
    BuildMembersIsASet(creator, inputs);
    assert forall x :: (id, x) !in s.members;
    if AllInsertable(s.users, s.members, id, ms) {
      forall u | Asked(creator, inputs, u) ensures RowId(u, s.users).Some? {
        assert Has(ms, u);
        var i :| 0 <= i < |ms| && ms[i].user == u;
        assert Insertable(s.users, s.members, id, ms[i]);
      }
      forall u, v | Asked(creator, inputs, u) && Asked(creator, inputs, v) && Canon(u) == Canon(v) ensures u == v {
        assert Has(ms, u) && Has(ms, v);
        var i :| 0 <= i < |ms| && ms[i].user == u;
        var j :| 0 <= j < |ms| && ms[j].user == v;
      }
    }
    if AllAskedExist(s.users, creator, inputs) {
      forall i | 0 <= i < |ms| ensures Insertable(s.users, s.members, id, ms[i]) {
        assert Has(ms, ms[i].user);
      }
      forall i, j | 0 <= i < j < |ms| ensures Canon(ms[i].user) != Canon(ms[j].user) {
        assert Has(ms, ms[i].user) && Has(ms, ms[j].user);
      }
    }
  }

  lemma NewMembers(s: State, after: Members, creator: string, inputs: seq<Member>, id: string)
    requires Sane(s) && IsNew(s, id)
    requires forall k :: k in after <==> k in s.members || AddedBy(id, BuildMembers(creator, inputs), k)
    ensures forall x :: x in MembersOf(after, id) <==> exists u :: Asked(creator, inputs, u) && Canon(u) == Some(x)
  {
    var ms := BuildMembers(creator, inputs);
    BuildMembersIsASet(creator, inputs);
    forall x ensures x in MembersOf(after, id) <==> exists u :: Asked(creator, inputs, u) && Canon(u) == Some(x) {
      if x in MembersOf(after, id) {
        assert (id, x) in after && (id, x) !in s.members;
        var i :| 0 <= i < |ms| && Canon(ms[i].user) == Some(x);
        assert Has(ms, ms[i].user);
      }
      if u :| Asked(creator, inputs, u) && Canon(u) == Some(x) {
        assert Has(ms, u);
        var i :| 0 <= i < |ms| && ms[i].user == u;
        assert (id, x) in after;
      }
    }
  }

  lemma FrameMembersOf(members: Members, after: Members, room: string, other: string)
    requires other != room
    requires forall k :: k in members ==> k in after
    requires forall k :: k in after && k !in members ==> k.0 == room
    ensures MembersOf(after, other) == MembersOf(members, other)
  {
    forall u ensures u in MembersOf(after, other) <==> u in MembersOf(members, other) {
      if u in MembersOf(after, other) {
        assert (other, u) in after;
      }
      if u in MembersOf(members, other) {
        assert (other, u) in members;
      }
    }
  }

  // ----- runs -----

  /** Two direct rooms with the same members. */
  predicate Clash(s: State, i: string, j: string) {
    i != j && Direct(s, i) && Direct(s, j) && MembersOf(s.members, i) == MembersOf(s.members, j)
  }

  /** Every direct room has two members, and no other has the same two. */
  ghost predicate Sound(s: State) {
    && Sane(s)
    && (forall id :: Direct(s, id) ==> IsPair(MembersOf(s.members, id)))
    && (forall i, j :: !Clash(s, i, j))
  }

  datatype Op =
    | Ensure(a: string, b: string, lookup: Lookup, id: string, failAt: nat)
    | Make(name: string, group: bool, creator: string, inputs: seq<Member>, id: string, failAt: nat)
    | Add(room: string, user: string, role: string, failAt: nat)
    | Remove(room: string, user: string, failAt: nat)
    | Drop(room: string, requester: string, failAt: nat)

  function Step(s: State, op: Op): State {
    match op
    case Ensure(a, b, lookup, id, failAt) => AfterEnsure(s, a, b, lookup, id, failAt)
    case Make(name, group, creator, inputs, id, failAt) => AfterMake(s, name, group, creator, inputs, id, failAt)
    case Add(room, user, role, failAt) => AddMember(s, room, user, role, failAt).0
    case Remove(room, user, failAt) => RemoveMember(s, room, user, failAt).0
    case Drop(room, requester, failAt) => Delete(s, room, requester, failAt).0
  }

  function AfterEnsure(s: State, a: string, b: string, lookup: Lookup, id: string, failAt: nat): State {
    EnsureDirect(s, a, b, lookup, id, failAt).0.(used := s.used + {id})
  }

  function AfterMake(s: State, name: string, group: bool, creator: string, inputs: seq<Member>, id: string, failAt: nat)
    : State
  {
    Create(s, name, group, creator, inputs, id, failAt).0.(used := s.used + {id})
  }

  /** Generated ids are fresh and canonical, and the database answers by the query. */
  predicate Environment(s: State, op: Op) {
    match op
    case Ensure(a, b, lookup, id, _) =>
      ValidLookup(s, TrimSpace(a), TrimSpace(b), lookup) && IsNew(s, id) && Canonical(id)
    case Make(_, _, _, _, id, _) => IsNew(s, id) && Canonical(id)
    case _ => true
  }

  ghost predicate HasDirect(s: State, pair: set<string>) {
    exists i :: Direct(s, i) && MembersOf(s.members, i) == pair
  }

  ghost predicate NewPair(s: State, pair: set<string>) {
    IsPair(pair) && !HasDirect(s, pair)
  }

  /** The texts name two different existing users. */
  predicate NameTwo(s: State, a: string, b: string) {
    && RowId(a, s.users).Some? && RowId(b, s.users).Some?
    && Canon(a) != Canon(b)
  }

  /** What makes EnsureDirectRoom create a room: nothing found, two different existing
      users, and no failing database call. */
  predicate MakesRoom(s: State, a: string, b: string, lookup: Lookup, failAt: nat) {
    lookup.NoRows? && a != "" && b != "" && a != b && NameTwo(s, a, b) && !(0 < failAt <= 5)
  }

  /** The two texts name users with a direct room. */
  ghost predicate AlreadyPaired(s: State, a: string, b: string) {
    Canon(a).Some? && Canon(b).Some? && HasDirect(s, {Canon(a).value, Canon(b).value})
  }

  /** The ids that the members' texts name. */
  function NamedIds(ms: seq<Member>): set<string> {
    set i | 0 <= i < |ms| && Canon(ms[i].user).Some? :: Canon(ms[i].user).value
  }

  /** The text is one of the spellings of a direct room's id. */
  predicate NamesDirect(s: State, room: string) {
    Canon(room).Some? && Direct(s, Canon(room).value)
  }

  /** The texts name a room and one of its members. */
  predicate NamesMember(s: State, room: string, user: string) {
    Canon(room).Some? && Canon(user).Some? && (Canon(room).value, Canon(user).value) in s.members
  }

  /** Exactly when a call keeps direct rooms paired and unique: an Ensure that makes a room
      does so by canonical ids or for two users without one; a creation of a plain room
      fails or is for two users without one; an addition to a direct room fails or is of
      somebody in it, and a removal fails or is of somebody not in it. */
  ghost predicate Keeps(s: State, op: Op) {
    match op
    case Ensure(userA, userB, lookup, _, failAt) =>
      var a, b := TrimSpace(userA), TrimSpace(userB);
      (Canonical(a) && Canonical(b)) || !MakesRoom(s, a, b, lookup, failAt) || !AlreadyPaired(s, a, b)
    case Make(name, group, creator, inputs, _, failAt) =>
      || group || !Creatable(s, name, creator, inputs, failAt)
      || NewPair(s, NamedIds(BuildMembers(creator, inputs)))
    case Add(room, user, _, failAt) =>
      !NamesDirect(s, room) || failAt == 1 || RowId(user, s.users).None? || NamesMember(s, room, user)
    case Remove(room, user, failAt) =>
      !NamesDirect(s, room) || failAt == 1 || !NamesMember(s, room, user)
    case Drop(_, _, _) => true
  }

  /** In particular: user ids in canonical form, no plain room but by EnsureDirectRoom, and
      membership edits of group rooms only, in any spelling. */
  predicate Allowed(s: State, op: Op) {
    match op
    case Ensure(a, b, _, _, _) => Canonical(TrimSpace(a)) && Canonical(TrimSpace(b))
    case Make(_, group, _, _, _, _) => group
    case Add(room, _, _, _) => !NamesDirect(s, room)
    case Remove(room, _, _) => !NamesDirect(s, room)
    case Drop(_, _, _) => true
  }

  lemma AllowedKeeps(s: State, op: Op)
    requires Allowed(s, op)
    ensures Keeps(s, op)
  {
  }

  function Run(s: State, ops: seq<Op>): State
    decreases |ops|
  {
    if ops == [] then s else Run(Step(s, ops[0]), ops[1..])
  }

  ghost predicate KeepingRun(s: State, ops: seq<Op>)
    decreases |ops|
  {
    ops == [] || (Environment(s, ops[0]) && Keeps(s, ops[0]) && KeepingRun(Step(s, ops[0]), ops[1..]))
  }

  predicate AllowedRun(s: State, ops: seq<Op>)
    decreases |ops|
  {
    ops == [] || (Environment(s, ops[0]) && Allowed(s, ops[0]) && AllowedRun(Step(s, ops[0]), ops[1..]))
  }

  lemma {:induction false} AllowedRunKeeps(s: State, ops: seq<Op>)
    requires AllowedRun(s, ops)
    ensures KeepingRun(s, ops)
    decreases |ops|
  {
    if ops != [] {
      AllowedKeeps(s, ops[0]);
      AllowedRunKeeps(Step(s, ops[0]), ops[1..]);
    }
  }

  lemma BuildPair(a: string, b: string)
    requires a != b && TrimSpace(b) == b && b != ""
    ensures BuildMembers(a, [Member(b, MEMBER)]) == [Member(a, ADMIN), Member(b, MEMBER)]
  {
    var first, input := [Member(a, ADMIN)], [Member(b, MEMBER)];
    assert first[0].user != b && !Has(first, b);
    assert input[1..] == [];
    assert WithMembers(first, input) == WithMembers(first + [Member(b, MEMBER)], []);
  }

  lemma InsertTwo(s: State, id: string, a: string, b: string)
    requires Sane(s) && IsNew(s, id)
    ensures InsertAll(s.users, s.members, id, [Member(a, ADMIN), Member(b, MEMBER)])
         == if NameTwo(s, a, b)
            then Some(s.members[(id, Canon(a).value) := ADMIN][(id, Canon(b).value) := MEMBER])
            else None
  {
    var ms := [Member(a, ADMIN), Member(b, MEMBER)];
    assert ms[1..] == [Member(b, MEMBER)] && ms[1..][1..] == [];
    assert forall x :: (id, x) !in s.members;
    if RowId(a, s.users).Some? {
      var one := s.members[(id, Canon(a).value) := ADMIN];
      assert InsertAll(s.users, one, id, [Member(b, MEMBER)])
          == if Insertable(s.users, one, id, Member(b, MEMBER))
             then Some(one[(id, Canon(b).value) := MEMBER]) else None;
    }
  }

  lemma PairMembers(s: State, id: string, a: string, b: string)
    requires Sane(s) && IsNew(s, id)
    ensures MembersOf(s.members[(id, a) := ADMIN][(id, b) := MEMBER], id) == {a, b}
  {
    var after := s.members[(id, a) := ADMIN][(id, b) := MEMBER];
    forall u ensures u in MembersOf(after, id) <==> u in {a, b} {
      if u in MembersOf(after, id) {
        assert (id, u) in after;
      }
      if u in {a, b} {
        assert (id, u) in after;
      }
    }
  }

  /** A direct room is created for two existing, different users, and only then. */
  lemma EnsureCreates(s: State, a: string, b: string, id: string, failAt: nat)
    requires Sane(s) && IsNew(s, id) && a != b && TrimSpace(a) == a != "" && TrimSpace(b) == b != ""
    ensures var (s', r) := EnsureDirect(s, a, b, NoRows, id, failAt);
            if NameTwo(s, a, b) && !(0 < failAt <= 5)
            then var u, v := Canon(a).value, Canon(b).value;
                 && r == Ok((id, true))
                 && s' == s.(rooms := s.rooms[id := Room(DirectName(a, b), false, u)],
                             members := s.members[(id, u) := ADMIN][(id, v) := MEMBER])
            else r == Err(Internal) && s' == s
  {
    DirectNameIsTrimmed(a, b);
    BuildPair(a, b);
    InsertTwo(s, id, a, b);
  }

  lemma DirectNameIsTrimmed(a: string, b: string)
    requires TrimSpace(a) == a != "" && TrimSpace(b) == b != ""
    ensures TrimSpace(DirectName(a, b)) == DirectName(a, b) != ""
  {
    var last := NormalizePair(a, b).1;
    assert !IsSpace(last[|last| - 1]) by {
      assert TrimSpace(last) == last;
    }
    var name := DirectName(a, b);
    assert name[0] == 'd' && name[|name| - 1] == last[|last| - 1];
  }

  /** The direct rooms are the same, with the same members. */
  ghost predicate SameDirect(s: State, s': State) {
    forall id :: (Direct(s', id) <==> Direct(s, id))
                 && (Direct(s, id) ==> MembersOf(s'.members, id) == MembersOf(s.members, id))
  }

  lemma SameDirectSound(s: State, s': State)
    requires Sound(s) && Sane(s') && SameDirect(s, s')
    ensures Sound(s')
  {
    forall i, j ensures !Clash(s', i, j) {
      assert !Clash(s, i, j);
    }
  }

  /** s' is s with a new direct room for u and v. */
  predicate Paired(s: State, s': State, id: string, u: string, v: string, name: string) {
    && u != v && u in s.users && v in s.users
    && s'.users == s.users && s'.used == s.used + {id}
    && s'.rooms == s.rooms[id := Room(name, false, u)]
    && s'.members == s.members[(id, u) := ADMIN][(id, v) := MEMBER]
  }

  lemma PairedFrame(s: State, s': State, id: string, u: string, v: string, name: string)
    requires Sane(s) && IsNew(s, id) && Paired(s, s', id, u, v, name)
    ensures Sane(s') && Direct(s', id) && MembersOf(s'.members, id) == {u, v}
    ensures forall i :: i != id ==>
              (Direct(s', i) <==> Direct(s, i)) && MembersOf(s'.members, i) == MembersOf(s.members, i)
  {
    PairMembers(s, id, u, v);
    forall i | i != id ensures MembersOf(s'.members, i) == MembersOf(s.members, i) {
      FrameMembersOf(s.members, s'.members, id, i);
    }
  }

  lemma PairedUnique(s: State, s': State, id: string, pair: set<string>)
    requires Sound(s) && !HasDirect(s, pair)
    requires forall i :: i != id ==>
               (Direct(s', i) <==> Direct(s, i)) && MembersOf(s'.members, i) == MembersOf(s.members, i)
    requires Sane(s') && MembersOf(s'.members, id) == pair && IsPair(pair)
    ensures Sound(s')
  {
    forall i | Direct(s', i) ensures IsPair(MembersOf(s'.members, i)) {
      assert i != id ==> Direct(s, i);
    }
    forall i, j ensures !Clash(s', i, j) {
      assert !Clash(s, i, j);
    }
  }

  /** A new direct room keeps them unique exactly if the two had none. */
  lemma PairedSoundIff(s: State, s': State, id: string, u: string, v: string, name: string)
    requires Sound(s) && IsNew(s, id) && Paired(s, s', id, u, v, name)
    ensures Sound(s') <==> !HasDirect(s, {u, v})
  {
    PairedFrame(s, s', id, u, v, name);
    if i :| Direct(s, i) && MembersOf(s.members, i) == {u, v} {
      assert Clash(s', i, id);
    } else {
      PairedUnique(s, s', id, {u, v});
    }
  }

  lemma EnsureTrims(s: State, a: string, b: string, lookup: Lookup, id: string, failAt: nat)
    ensures EnsureDirect(s, a, b, lookup, id, failAt) == EnsureDirect(s, TrimSpace(a), TrimSpace(b), lookup, id, failAt)
  {
    TrimSpaceIdempotent(a);
    TrimSpaceIdempotent(b);
  }

  lemma MemberIsCanonical(s: State, id: string, u: string)
    requires Sane(s) && StoredCanonically(s) && u in MembersOf(s.members, id)
    ensures u in s.users && Canonical(u)
  {
    assert (id, u) in s.members && Stored(s, u);
  }

  /** The query compares text: it finds nobody by another spelling. */
  lemma OtherSpellingIsNeverFound(s: State, id: string, a: string, b: string)
    requires Sane(s) && StoredCanonically(s) && a != b && !(Canonical(a) && Canonical(b))
    ensures !Qualifies(s, id, a, b)
  {
    QueryMeaning(s, id, a, b);
    if MembersOf(s.members, id) == {a, b} {
      MemberIsCanonical(s, id, a);
      MemberIsCanonical(s, id, b);
    }
  }

  /** By their canonical ids, two users with a direct room are found. */
  lemma NoRowsMeansNone(s: State, a: string, b: string)
    requires a != b && ValidLookup(s, a, b, NoRows)
    ensures !HasDirect(s, {a, b})
  {
    if i :| Direct(s, i) && MembersOf(s.members, i) == {a, b} {
      QueryMeaning(s, i, a, b);
    }
  }

  /** It makes a room for two existing users, or changes nothing. */
  lemma EnsureMakes(s: State, a: string, b: string, lookup: Lookup, id: string, failAt: nat)
    requires Sane(s) && IsNew(s, id)
    requires TrimSpace(a) == a && TrimSpace(b) == b
    ensures var s', r := AfterEnsure(s, a, b, lookup, id, failAt), EnsureDirect(s, a, b, lookup, id, failAt).1;
            if MakesRoom(s, a, b, lookup, failAt)
            then r == Ok((id, true)) && Paired(s, s', id, Canon(a).value, Canon(b).value, DirectName(a, b))
            else s' == s.(used := s.used + {id}) && (r.Ok? ==> lookup.Found? && r == Ok((lookup.id, false)))
  {
    if a != "" && b != "" && a != b && lookup.NoRows? {
      EnsureCreates(s, a, b, id, failAt);
    }
  }

  lemma EnsureSoundIff(s: State, a: string, b: string, lookup: Lookup, id: string, failAt: nat)
    requires Sound(s) && IsNew(s, id) && ValidLookup(s, a, b, lookup)
    requires TrimSpace(a) == a && TrimSpace(b) == b
    ensures Sound(AfterEnsure(s, a, b, lookup, id, failAt)) <==>
            || (Canonical(a) && Canonical(b))
            || !MakesRoom(s, a, b, lookup, failAt)
            || !AlreadyPaired(s, a, b)
  {
    EnsureMakes(s, a, b, lookup, id, failAt);
    var s' := AfterEnsure(s, a, b, lookup, id, failAt);
    if MakesRoom(s, a, b, lookup, failAt) {
      PairedSoundIff(s, s', id, Canon(a).value, Canon(b).value, DirectName(a, b));
      NoRowsMeansNone(s, a, b);
    } else {
      SameDirectSound(s, s');
    }
  }

  // ----- creations -----

  /** s' is s with one more room, whose members are `ids`. */
  ghost predicate WithRoom(s: State, s': State, id: string, group: bool, ids: set<string>) {
    && s'.users == s.users && s'.used == s.used + {id}
    && id in s'.rooms && s'.rooms[id].group == group
    && (forall i :: i != id ==> (i in s'.rooms <==> i in s.rooms) && (i in s.rooms ==> s'.rooms[i] == s.rooms[i]))
    && MembersOf(s'.members, id) == ids
    && (forall i :: i != id ==> MembersOf(s'.members, i) == MembersOf(s.members, i))
  }

  lemma ExtendsHere(s: State, after: Members, id: string, ms: seq<Member>)
    requires Sane(s) && IsNew(s, id) && Extends(s.users, s.members, after, id, ms)
    ensures MembersOf(after, id) == NamedIds(ms)
  {
    forall x ensures x in MembersOf(after, id) <==> x in NamedIds(ms) {
      assert (id, x) !in s.members;
      assert x in MembersOf(after, id) <==> (id, x) in after;
      assert (id, x) in after <==> AddedBy(id, ms, (id, x));
    }
  }

  lemma MakeAddsRoom(s: State, name: string, group: bool, creator: string, inputs: seq<Member>, id: string, failAt: nat)
    requires Sane(s) && IsNew(s, id) && Creatable(s, name, creator, inputs, failAt)
    ensures var s' := AfterMake(s, name, group, creator, inputs, id, failAt);
            Sane(s') && WithRoom(s, s', id, group, NamedIds(BuildMembers(creator, inputs)))
  {
    var s' := AfterMake(s, name, group, creator, inputs, id, failAt);
    CreateDoes(s, name, group, creator, inputs, id, failAt);
    ExtendsHere(s, s'.members, id, BuildMembers(creator, inputs));
    ExtendsElsewhere(s, s'.members, id, BuildMembers(creator, inputs));
  }

  lemma WithRoomSoundIff(s: State, s': State, id: string, group: bool, ids: set<string>)
    requires Sound(s) && Sane(s') && IsNew(s, id) && WithRoom(s, s', id, group, ids)
    ensures Sound(s') <==> group || NewPair(s, ids)
  {
    if group {
      SameDirectSound(s, s');
    } else if NewPair(s, ids) {
      PairedUnique(s, s', id, ids);
    } else {
      assert Direct(s', id);
      if i :| Direct(s, i) && MembersOf(s.members, i) == ids {
        assert Clash(s', i, id);
      }
    }
  }

  lemma MakeSoundIff(s: State, name: string, group: bool, creator: string, inputs: seq<Member>, id: string, failAt: nat)
    requires Sound(s) && IsNew(s, id)
    ensures Sound(AfterMake(s, name, group, creator, inputs, id, failAt)) <==>
            || group || !Creatable(s, name, creator, inputs, failAt)
            || NewPair(s, NamedIds(BuildMembers(creator, inputs)))
  {
    var s' := AfterMake(s, name, group, creator, inputs, id, failAt);
    if Creatable(s, name, creator, inputs, failAt) {
      MakeAddsRoom(s, name, group, creator, inputs, id, failAt);
      WithRoomSoundIff(s, s', id, group, NamedIds(BuildMembers(creator, inputs)));
    } else {
      CreateDoes(s, name, group, creator, inputs, id, failAt);
      SameDirectSound(s, s');
    }
  }

  // ----- membership edits -----

  lemma EditSound(s: State, room: string, members: Members)
    requires Sound(s) && !Direct(s, room)
    requires forall k :: k in members ==> k.0 in s.rooms && k.1 in s.users
    requires forall k: (string, string) :: k.0 != room ==> (k in members <==> k in s.members)
    ensures Sound(s.(members := members))
  {
    var s' := s.(members := members);
    forall id | Direct(s, id) ensures MembersOf(members, id) == MembersOf(s.members, id) {
      SameRows(s.members, members, id);
    }
    SameDirectSound(s, s');
  }

  lemma SameRows(before: Members, after: Members, room: string)
    requires forall u :: (room, u) in after <==> (room, u) in before
    ensures MembersOf(after, room) == MembersOf(before, room)
  {
    forall u ensures u in MembersOf(after, room) <==> u in MembersOf(before, room) {
      assert (room, u) in after <==> (room, u) in before;
    }
  }

  lemma BlankNamesNothing(text: string)
    ensures Canon(text).Some? ==> TrimSpace(text) != ""
  {
    if text != "" && !IsSpace(text[0]) {
      TrimKeepsHead(text);
    }
  }

  /** What an addition does, by the ids that the texts name. */
  lemma AddDoes(s: State, room: string, user: string, role: string, failAt: nat)
    ensures var s' := AddMember(s, room, user, role, failAt).0;
            if failAt != 1 && RowId(room, s.rooms.Keys).Some? && RowId(user, s.users).Some?
            then s' == s.(members := s.members[(Canon(room).value, Canon(user).value) := RoleOr(role)])
            else s' == s
  {
    BlankNamesNothing(room);
    BlankNamesNothing(user);
  }

  lemma RemoveDoes(s: State, room: string, user: string, failAt: nat)
    ensures var s' := RemoveMember(s, room, user, failAt).0;
            if failAt != 1 && NamesMember(s, room, user)
            then s' == s.(members := s.members - {(Canon(room).value, Canon(user).value)})
            else s' == s
  {
    BlankNamesNothing(room);
    BlankNamesNothing(user);
    if Canon(room).Some? && Canon(user).Some? && !NamesMember(s, room, user) {
      assert s.members - {(Canon(room).value, Canon(user).value)} == s.members;
    }
  }

  lemma OneMoreMember(members: Members, room: string, w: string, role: string)
    ensures MembersOf(members[(room, w) := role], room) == MembersOf(members, room) + {w}
  {
    forall u ensures u in MembersOf(members[(room, w) := role], room) <==> u in MembersOf(members, room) + {w} {
      assert (room, u) in members[(room, w) := role] <==> (room, u) in members || u == w;
    }
  }

  lemma OneMemberLess(members: Members, room: string, w: string)
    ensures MembersOf(members - {(room, w)}, room) == MembersOf(members, room) - {w}
  {
    forall u ensures u in MembersOf(members - {(room, w)}, room) <==> u in MembersOf(members, room) - {w} {
      assert (room, u) in members - {(room, w)} <==> (room, u) in members && u != w;
    }
  }

  lemma PairHasTwo(pair: set<string>)
    ensures IsPair(pair) <==> |pair| == 2
  {
    if a, b :| a != b && pair == {a, b} {
      assert |{a, b}| == 2;
    }
    if |pair| == 2 {
      var a :| a in pair;
      assert |pair - {a}| == 1;
      var b :| b in pair - {a};
      SameSizeSame({b}, pair - {a});
      assert pair == {a} + (pair - {a});
      assert pair == {a, b} && a != b;
    }
  }

  /** Changing one row of a direct room. */
  lemma DirectEditSoundIff(s: State, room: string, members: Members)
    requires Sound(s) && Direct(s, room)
    requires forall k :: k in members ==> k.0 in s.rooms && k.1 in s.users
    requires forall k: (string, string) :: k.0 != room ==> (k in members <==> k in s.members)
    requires |MembersOf(members, room)| == 2 ==> MembersOf(members, room) == MembersOf(s.members, room)
    ensures Sound(s.(members := members)) <==> MembersOf(members, room) == MembersOf(s.members, room)
  {
    var s' := s.(members := members);
    PairHasTwo(MembersOf(members, room));
    if MembersOf(members, room) == MembersOf(s.members, room) {
      forall id | Direct(s, id) ensures MembersOf(members, id) == MembersOf(s.members, id) {
        if id != room {
          SameRows(s.members, members, id);
        }
      }
      SameDirectSound(s, s');
    } else {
      assert Direct(s', room);
    }
  }

  lemma AddSoundIff(s: State, room: string, user: string, role: string, failAt: nat)
    requires Sound(s)
    ensures Sound(AddMember(s, room, user, role, failAt).0) <==>
            !NamesDirect(s, room) || failAt == 1 || RowId(user, s.users).None? || NamesMember(s, room, user)
  {
    AddDoes(s, room, user, role, failAt);
    if failAt != 1 && RowId(room, s.rooms.Keys).Some? && RowId(user, s.users).Some? {
      AddRowSoundIff(s, Canon(room).value, Canon(user).value, RoleOr(role));
    }
  }

  lemma AddRowSoundIff(s: State, room: string, w: string, role: string)
    requires Sound(s) && room in s.rooms && w in s.users
    ensures Sound(s.(members := s.members[(room, w) := role])) <==> !Direct(s, room) || (room, w) in s.members
  {
    var members := s.members[(room, w) := role];
    if Direct(s, room) {
      OneMoreMember(s.members, room, w, role);
      PairHasTwo(MembersOf(s.members, room));
      assert w in MembersOf(s.members, room) <==> (room, w) in s.members;
      DirectEditSoundIff(s, room, members);
    } else {
      EditSound(s, room, members);
    }
  }

  lemma RemoveSoundIff(s: State, room: string, user: string, failAt: nat)
    requires Sound(s)
    ensures Sound(RemoveMember(s, room, user, failAt).0) <==>
            !NamesDirect(s, room) || failAt == 1 || !NamesMember(s, room, user)
  {
    RemoveDoes(s, room, user, failAt);
    if failAt != 1 && NamesMember(s, room, user) {
      RemoveRowSoundIff(s, Canon(room).value, Canon(user).value);
    }
  }

  lemma RemoveRowSoundIff(s: State, room: string, w: string)
    requires Sound(s) && (room, w) in s.members
    ensures Sound(s.(members := s.members - {(room, w)})) <==> !Direct(s, room)
  {
    var members := s.members - {(room, w)};
    if Direct(s, room) {
      OneMemberLess(s.members, room, w);
      PairHasTwo(MembersOf(s.members, room));
      assert w in MembersOf(s.members, room);
      DirectEditSoundIff(s, room, members);
    } else {
      EditSound(s, room, members);
    }
  }

  // ----- deletions, and every step -----

  lemma WithoutRoomSound(s: State, room: string)
    requires Sound(s)
    ensures Sound(s.(rooms := s.rooms - {room}, members := WithoutRoom(s.members, room)))
  {
    var s' := s.(rooms := s.rooms - {room}, members := WithoutRoom(s.members, room));
    forall id | id != room ensures MembersOf(s'.members, id) == MembersOf(s.members, id) {
      SameRows(s.members, s'.members, id);
    }
    forall i, j ensures !Clash(s', i, j) {
      assert !Clash(s, i, j);
    }
  }

  lemma DropSound(s: State, room: string, requester: string, failAt: nat)
    requires Sound(s)
    ensures Sound(Delete(s, room, requester, failAt).0)
  {
    if Delete(s, room, requester, failAt).1.Ok? {
      WithoutRoomSound(s, Canon(TrimSpace(room)).value);
    }
  }

  /** One call keeps every direct room paired and unique exactly if Keeps says so. */
  lemma StepSoundIff(s: State, op: Op)
    requires Sound(s) && Environment(s, op)
    ensures Sound(Step(s, op)) <==> Keeps(s, op)
  {
    match op
    case Ensure(a, b, lookup, id, failAt) =>
      TrimSpaceIdempotent(a);
      TrimSpaceIdempotent(b);
      EnsureTrims(s, a, b, lookup, id, failAt);
      EnsureSoundIff(s, TrimSpace(a), TrimSpace(b), lookup, id, failAt);
    case Make(name, group, creator, inputs, id, failAt) => MakeSoundIff(s, name, group, creator, inputs, id, failAt);
    case Add(room, user, role, failAt) => AddSoundIff(s, room, user, role, failAt);
    case Remove(room, user, failAt) => RemoveSoundIff(s, room, user, failAt);
    case Drop(room, requester, failAt) => DropSound(s, room, requester, failAt);
  }

  lemma {:induction false} RunSound(s: State, ops: seq<Op>)
    requires Sound(s) && KeepingRun(s, ops)
    ensures Sound(Run(s, ops))
    decreases |ops|
  {
    if ops != [] {
      StepSoundIff(s, ops[0]);
      RunSound(Step(s, ops[0]), ops[1..]);
    }
  }

  function NewIds(op: Op): set<string> {
    if op.Ensure? || op.Make? then {op.id} else {}
  }

  lemma StepStores(s: State, op: Op)
    ensures Step(s, op).users == s.users && Step(s, op).used == s.used + NewIds(op)
  {
  }

  lemma MoreStored(s: State, s': State, ids: set<string>)
    requires StoredCanonically(s) && s'.users == s.users && s'.used == s.used + ids
    requires forall id :: id in ids ==> Canonical(id)
    ensures StoredCanonically(s')
  {
    forall x | Stored(s', x) ensures Canonical(x) {
      assert Stored(s, x) || x in ids;
    }
  }

  /** Stored ids stay canonical. */
  lemma {:induction false} RunStoresCanonically(s: State, ops: seq<Op>)
    requires StoredCanonically(s) && KeepingRun(s, ops)
    ensures StoredCanonically(Run(s, ops))
    decreases |ops|
  {
    if ops != [] {
      StepStores(s, ops[0]);
      MoreStored(s, Step(s, ops[0]), NewIds(ops[0]));
      RunStoresCanonically(Step(s, ops[0]), ops[1..]);
    }
  }

  function NewTables(users: set<string>): State {
    State(users, map[], map[], {})
  }

  lemma SoundMeansUnique(s: State, i: string, j: string)
    requires Sound(s) && Direct(s, i) && Direct(s, j) && MembersOf(s.members, i) == MembersOf(s.members, j)
    ensures i == j && IsPair(MembersOf(s.members, i))
  {
    assert !Clash(s, i, j);
  }

  /** Some run from empty tables, over canonical users, whose calls keep to Keeps, ends in s. */
  ghost predicate Reached(s: State) {
    exists users, ops :: ReachedBy(s, users, ops)
  }

  ghost predicate ReachedBy(s: State, users: set<string>, ops: seq<Op>) {
    (forall u :: u in users ==> Canonical(u)) && KeepingRun(NewTables(users), ops) && s == Run(NewTables(users), ops)
  }

  lemma ReachedIsSound(s: State)
    requires Reached(s)
    ensures Sound(s) && StoredCanonically(s)
  {
    var users, ops :| ReachedBy(s, users, ops);
    RunSound(NewTables(users), ops);
    assert StoredCanonically(NewTables(users)) by {
      forall id | Stored(NewTables(users), id) ensures Canonical(id) {
        assert id in users;
      }
    }
    RunStoresCanonically(NewTables(users), ops);
  }

  /** In every run whose calls keep to Keeps, so in every allowed run, a direct room's members
      are exactly two users, and no other direct room has the same two. */
  lemma OneDirectRoomPerPair(users: set<string>, ops: seq<Op>, i: string, j: string)
    requires KeepingRun(NewTables(users), ops)
    requires var s := Run(NewTables(users), ops);
             Direct(s, i) && Direct(s, j) && MembersOf(s.members, i) == MembersOf(s.members, j)
    ensures i == j
    ensures IsPair(MembersOf(Run(NewTables(users), ops).members, i))
  {
    RunSound(NewTables(users), ops);
    SoundMeansUnique(Run(NewTables(users), ops), i, j);
  }

  // ----- the name does not depend on who asks -----

  lemma {:induction false} LessIsTotal(a: string, b: string)
    requires a != b
    ensures Less(a, b) <==> !Less(b, a)
    decreases |a|
  {
    if a != "" && b != "" && a[0] == b[0] {
      assert a == [a[0]] + a[1..] && b == [b[0]] + b[1..];
      LessIsTotal(a[1..], b[1..]);
    }
  }

  lemma PairIsUnordered(a: string, b: string)
    requires a != b
    ensures NormalizePair(a, b) == NormalizePair(b, a) && DirectName(a, b) == DirectName(b, a)
  {
    LessIsTotal(a, b);
  }

  // ----- find-or-create, twice -----

  predicate TwoOf(s: State, a: string, b: string, id: string) {
    Direct(s, id) && MembersOf(s.members, id) == {a, b}
  }

  lemma FoundAreUsers(s: State, a: string, b: string, id: string)
    requires Sane(s) && StoredCanonically(s) && TwoOf(s, a, b, id)
    ensures Canonical(a) && Canonical(b) && a in s.users && b in s.users
  {
    MemberIsCanonical(s, id, a);
    MemberIsCanonical(s, id, b);
  }

  ghost predicate OnlyRoom(s: State, a: string, b: string, id: string) {
    TwoOf(s, a, b, id) && forall i :: TwoOf(s, a, b, i) ==> i == id
  }

  /** A first call that answers with a room leaves one that holds exactly the two users,
      and it is their only one if both ids are canonical. */
  lemma FirstCall(s: State, a: string, b: string, lookup: Lookup, id: string, failAt: nat)
    requires Sane(s) && StoredCanonically(s) && IsNew(s, id) && ValidLookup(s, a, b, lookup)
    requires TrimSpace(a) == a && TrimSpace(b) == b
    requires lookup.Found? ==> forall i :: TwoOf(s, a, b, i) ==> i == lookup.id
    requires EnsureDirect(s, a, b, lookup, id, failAt).1.Ok?
    ensures var s1, room := AfterEnsure(s, a, b, lookup, id, failAt),
                            EnsureDirect(s, a, b, lookup, id, failAt).1.value.0;
            && a != b && a != "" && b != "" && Sane(s1) && NameTwo(s1, a, b)
            && (Canonical(a) && Canonical(b) ==> OnlyRoom(s1, a, b, room))
  {
    if lookup.NoRows? {
      EnsureMakes(s, a, b, lookup, id, failAt);
      MadeIsOnly(s, AfterEnsure(s, a, b, lookup, id, failAt), a, b, id);
    } else {
      QueryMeaning(s, lookup.id, a, b);
      FoundAreUsers(s, a, b, lookup.id);
      var s1 := AfterEnsure(s, a, b, lookup, id, failAt);
      assert s1 == s.(used := s.used + {id});
      assert forall i :: TwoOf(s1, a, b, i) <==> TwoOf(s, a, b, i);
    }
  }

  lemma MadeIsOnly(s: State, s1: State, a: string, b: string, id: string)
    requires Sane(s) && IsNew(s, id) && a != b && ValidLookup(s, a, b, NoRows) && NameTwo(s, a, b)
    requires Paired(s, s1, id, Canon(a).value, Canon(b).value, DirectName(a, b))
    ensures Sane(s1) && NameTwo(s1, a, b)
    ensures Canonical(a) && Canonical(b) ==> OnlyRoom(s1, a, b, id)
  {
    PairedFrame(s, s1, id, Canon(a).value, Canon(b).value, DirectName(a, b));
    NoRowsMeansNone(s, a, b);
    if Canonical(a) && Canonical(b) {
      forall i | TwoOf(s1, a, b, i) ensures i == id {
        assert i != id ==> Direct(s, i);
      }
    }
  }

  /** The second call, the other way round. */
  lemma SecondCall(s: State, a: string, b: string, room: string, lookup: Lookup, id: string)
    requires Sane(s) && StoredCanonically(s) && IsNew(s, id)
    requires ValidLookup(s, b, a, lookup) && !lookup.LookupFailed?
    requires a != b && TrimSpace(a) == a != "" && TrimSpace(b) == b != "" && NameTwo(s, a, b)
    requires Canonical(a) && Canonical(b) ==> OnlyRoom(s, a, b, room)
    ensures EnsureDirect(s, b, a, lookup, id, 0).1
         == Ok(if Canonical(a) && Canonical(b) then (room, false) else (id, true))
  {
    if Canonical(a) && Canonical(b) {
      OneIsFound(s, a, b, room, lookup);
    } else {
      if lookup.Found? {
        OtherSpellingIsNeverFound(s, lookup.id, b, a);
      }
      EnsureCreates(s, b, a, id, 0);
    }
  }

  lemma OneIsFound(s: State, a: string, b: string, id: string, lookup: Lookup)
    requires a != b && OnlyRoom(s, a, b, id) && ValidLookup(s, b, a, lookup) && !lookup.LookupFailed?
    ensures lookup == Found(id)
  {
    assert {a, b} == {b, a};
    QueryMeaning(s, id, b, a);
    if lookup.Found? {
      QueryMeaning(s, lookup.id, b, a);
      assert TwoOf(s, a, b, lookup.id);
    }
  }

  /** Asking twice, the second time the other way round: the second answer is the first
      room, found and not created, exactly if both ids are in canonical form. Otherwise
      the second call makes one more room for the same two users. (The ids are trimmed
      here; EnsureTrims says what the calls do with others.) */
  lemma EnsureTwiceAt(s: State, a: string, b: string, lookup1: Lookup, id1: string, failAt: nat,
                    lookup2: Lookup, id2: string)
    requires Sane(s) && StoredCanonically(s)
    requires IsNew(s, id1) && Canonical(id1) && IsNew(s, id2) && id1 != id2
    requires TrimSpace(a) == a && TrimSpace(b) == b && ValidLookup(s, a, b, lookup1)
    requires lookup1.Found? ==> forall i :: TwoOf(s, a, b, i) ==> i == lookup1.id
    requires EnsureDirect(s, a, b, lookup1, id1, failAt).1.Ok?
    requires ValidLookup(AfterEnsure(s, a, b, lookup1, id1, failAt), b, a, lookup2) && !lookup2.LookupFailed?
    ensures var s1 := AfterEnsure(s, a, b, lookup1, id1, failAt);
            var first := EnsureDirect(s, a, b, lookup1, id1, failAt).1.value.0;
            EnsureDirect(s1, b, a, lookup2, id2, 0).1
            == Ok(if Canonical(a) && Canonical(b) then (first, false) else (id2, true))
  {
    FirstCall(s, a, b, lookup1, id1, failAt);
    UsedAfter(s, a, b, lookup1, id1, failAt);
    forall x | Stored(AfterEnsure(s, a, b, lookup1, id1, failAt), x) ensures Canonical(x) {
      assert Stored(s, x) || x == id1;
    }
    SecondCall(AfterEnsure(s, a, b, lookup1, id1, failAt), a, b,
               EnsureDirect(s, a, b, lookup1, id1, failAt).1.value.0, lookup2, id2);
  }

  lemma FoundIsOnly(s: State, a: string, b: string, lookup: Lookup)
    requires Sound(s) && ValidLookup(s, a, b, lookup) && lookup.Found? && a != b
    ensures forall i :: TwoOf(s, a, b, i) ==> i == lookup.id
  {
    QueryMeaning(s, lookup.id, a, b);
    forall i | TwoOf(s, a, b, i) ensures i == lookup.id {
      SoundMeansUnique(s, i, lookup.id);
    }
  }

  /** The same in every state that a run from empty tables reaches. */
  lemma EnsureTwice(s: State, a: string, b: string, lookup1: Lookup, id1: string, failAt: nat,
                    lookup2: Lookup, id2: string)
    requires Reached(s) && IsNew(s, id1) && Canonical(id1) && IsNew(s, id2) && id1 != id2
    requires TrimSpace(a) == a && TrimSpace(b) == b && ValidLookup(s, a, b, lookup1)
    requires EnsureDirect(s, a, b, lookup1, id1, failAt).1.Ok?
    requires ValidLookup(AfterEnsure(s, a, b, lookup1, id1, failAt), b, a, lookup2) && !lookup2.LookupFailed?
    ensures var s1 := AfterEnsure(s, a, b, lookup1, id1, failAt);
            var first := EnsureDirect(s, a, b, lookup1, id1, failAt).1.value.0;
            EnsureDirect(s1, b, a, lookup2, id2, 0).1
            == Ok(if Canonical(a) && Canonical(b) then (first, false) else (id2, true))
  {
    ReachedIsSound(s);
    if lookup1.Found? {
      FoundIsOnly(s, a, b, lookup1);
    }
    EnsureTwiceAt(s, a, b, lookup1, id1, failAt, lookup2, id2);
  }

  lemma UsedAfter(s: State, a: string, b: string, lookup: Lookup, id: string, failAt: nat)
    ensures var s1 := AfterEnsure(s, a, b, lookup, id, failAt); s1.users == s.users && s1.used == s.used + {id}
  {
  }

  // ----- what another spelling does -----

  /** Any user's id without its hyphens: the room of the two is not found, and a second
      one is made. */
  lemma BareIdMakesASecondRoom(s: State, u: string, v: string, first: string, lookup: Lookup, id: string)
    requires Sound(s) && StoredCanonically(s) && IsNew(s, id) && u != v && u in s.users && v in s.users
    requires TwoOf(s, u, v, first) && ValidLookup(s, u, WithoutHyphens(v), lookup) && !lookup.LookupFailed?
    ensures EnsureDirect(s, u, WithoutHyphens(v), lookup, id, 0).1 == Ok((id, true)) && id != first
    ensures var s' := AfterEnsure(s, u, WithoutHyphens(v), lookup, id, 0);
            TwoOf(s', u, v, first) && TwoOf(s', u, v, id) && !Sound(s')
  {
    var bare := WithoutHyphens(v);
    assert Stored(s, u) && Stored(s, v);
    BareIsAccepted(v);
    CanonicalIsUuidText(u);
    if lookup.Found? {
      OtherSpellingIsNeverFound(s, lookup.id, u, bare);
    }
    SecondRoom(s, u, v, bare, first, id);
    assert Clash(AfterEnsure(s, u, bare, lookup, id, 0), first, id);
  }

  lemma SecondRoom(s: State, u: string, v: string, bare: string, first: string, id: string)
    requires Sane(s) && IsNew(s, id) && MakesRoom(s, u, bare, NoRows, 0)
    requires TrimSpace(u) == u && TrimSpace(bare) == bare
    requires Canon(u).value == u && Canon(bare).value == v && TwoOf(s, u, v, first)
    ensures EnsureDirect(s, u, bare, NoRows, id, 0).1 == Ok((id, true)) && id != first
    ensures var s' := AfterEnsure(s, u, bare, NoRows, id, 0);
            TwoOf(s', u, v, first) && TwoOf(s', u, v, id)
  {
    EnsureMakes(s, u, bare, NoRows, id, 0);
    PairedTwice(s, AfterEnsure(s, u, bare, NoRows, id, 0), id, u, v, DirectName(u, bare), first);
  }

  lemma PairedTwice(s: State, s': State, id: string, u: string, v: string, name: string, first: string)
    requires Sane(s) && IsNew(s, id) && Paired(s, s', id, u, v, name) && TwoOf(s, u, v, first)
    ensures id != first && TwoOf(s', u, v, first) && TwoOf(s', u, v, id)
  {
    PairedFrame(s, s', id, u, v, name);
  }

  /** A direct room's id without its hyphens is no key of the table, and still lets a
      third user in. */
  lemma BareIdAddsAThird(s: State, room: string, w: string, role: string)
    requires Sound(s) && StoredCanonically(s) && Direct(s, room)
    requires w in s.users && w !in MembersOf(s.members, room)
    ensures WithoutHyphens(room) !in s.rooms
    ensures var s' := AddMember(s, WithoutHyphens(room), w, role, 0).0;
            && MembersOf(s'.members, room) == MembersOf(s.members, room) + {w}
            && !Sound(s')
  {
    assert Stored(s, room) && Stored(s, w);
    BareIsAccepted(room);
    assert !Stored(s, WithoutHyphens(room));
    AddDoes(s, WithoutHyphens(room), w, role, 0);
    OneMoreMember(s.members, room, w, RoleOr(role));
    AddRowSoundIff(s, room, w, RoleOr(role));
  }

  // ----- what a plain creation does -----

  lemma AloneIsBuilt(user: string)
    ensures BuildMembers(user, []) == [Member(user, ADMIN)]
    ensures Canonical(user) ==> NamedIds(BuildMembers(user, [])) == {user}
  {
    var ms := BuildMembers(user, []);
    assert ms == [Member(user, ADMIN)];
    if Canonical(user) {
      assert ms[0].user == user && Canon(ms[0].user).Some?;
      forall x ensures x in NamedIds(ms) <==> x == user {
      }
    }
  }

  /** A run of one call: any user makes a room that is no group and names nobody else. It is
      a direct room of one. */
  lemma PlainRoomIsNoPair(users: set<string>, name: string, user: string, id: string)
    requires user in users && Canonical(user) && Canonical(id) && TrimSpace(name) != ""
    ensures var op := Make(name, false, user, [], id, 0);
            && Environment(NewTables(users), op)
            && Direct(Step(NewTables(users), op), id)
            && MembersOf(Step(NewTables(users), op).members, id) == {user}
            && !Sound(Step(NewTables(users), op))
  {
    var s := NewTables(users);
    CanonicalIsUuidText(user);
    AloneIsBuilt(user);
    assert Creatable(s, name, user, [], 0) by {
      forall u | Asked(user, [], u) ensures u == user {
      }
    }
    MakeAddsRoom(s, name, false, user, [], id, 0);
    MakeSoundIff(s, name, false, user, [], id, 0);
    PairHasTwo({user});
  }
}
