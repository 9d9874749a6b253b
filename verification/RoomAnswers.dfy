/** What each call of the room service answers, and exactly which rows it writes. */
module RoomAnswers {
  import opened Text
  import opened Uuid
  import opened RoomSpec
  import opened RoomTheorems

  // ----- roles -----

  /** inputs[i] is the first to name u. */
  predicate FirstNames(inputs: seq<Member>, u: string, i: nat) {
    i < |inputs| && TrimSpace(inputs[i].user) == u && forall j :: 0 <= j < i ==> TrimSpace(inputs[j].user) != u
  }

  /** The role that an input gives. */
  function Given(m: Member): string {
    if m.role == "" then "member" else m.role
  }

  lemma {:induction false} FirstRole(inputs: seq<Member>, u: string, i: nat)
    requires FirstNames(inputs, u, i)
    ensures RoleFor(inputs, u) == Given(inputs[i])
    decreases i
  {
    if i > 0 {
      assert forall j :: 0 <= j < i - 1 ==> inputs[1..][j] == inputs[j + 1];
      FirstRole(inputs[1..], u, i - 1);
    }
  }

  lemma BuiltRole(creator: string, inputs: seq<Member>, u: string, i: nat)
    requires FirstNames(inputs, u, i) && u != "" && u != creator
    ensures Member(u, Given(inputs[i])) in BuildMembers(creator, inputs)
  {
    var ms := BuildMembers(creator, inputs);
    BuildMembersIsASet(creator, inputs);
    assert Named(inputs, u);
    assert Has(ms, u);
    var k :| 0 <= k < |ms| && ms[k].user == u;
    FirstRole(inputs, u, i);
    assert ms[k] == Member(u, Given(inputs[i]));
  }

  /** The user that inputs[i] is the first to name is in the room, in the role given there. */
  predicate InRole(after: Members, id: string, creator: string, inputs: seq<Member>, i: nat)
    requires i < |inputs|
  {
    var u := TrimSpace(inputs[i].user);
    u != "" && u != creator && FirstNames(inputs, u, i) ==> HasRow(after, id, Member(u, Given(inputs[i])))
  }

  /** The room is as it was asked for, and nothing else has changed: it has its trimmed name,
      its kind and its creator; the creator is its admin, and everybody else named is in it
      in the first role given for them, which is "member" if it is blank. */
  ghost predicate AsAsked(s: State, s': State, id: string, name: string, group: bool, creator: string,
                          inputs: seq<Member>)
  {
    && s' == s.(rooms := s'.rooms, members := s'.members)
    && id in s'.rooms && s'.rooms == s.rooms[id := s'.rooms[id]]
    && s'.rooms[id].name == TrimSpace(name) && s'.rooms[id].group == group
    && Canon(creator) == Some(s'.rooms[id].creator)
    && HasRow(s'.members, id, Member(creator, "admin"))
    && (forall i :: 0 <= i < |inputs| ==> InRole(s'.members, id, creator, inputs, i))
    && (forall k :: k in s.members ==> k in s'.members && s'.members[k] == s.members[k])
  }

  lemma RowsOfBuilt(users: set<string>, members: Members, after: Members, id: string, creator: string,
                    inputs: seq<Member>)
    requires Extends(users, members, after, id, BuildMembers(creator, inputs))
    ensures HasRow(after, id, Member(creator, "admin"))
    ensures forall i :: 0 <= i < |inputs| ==> InRole(after, id, creator, inputs, i)
  {
    var ms := BuildMembers(creator, inputs);
    BuildMembersIsASet(creator, inputs);
    assert HasRow(after, id, ms[0]);
    forall i | 0 <= i < |inputs| ensures InRole(after, id, creator, inputs, i) {
      var u := TrimSpace(inputs[i].user);
      if u != "" && u != creator && FirstNames(inputs, u, i) {
        BuiltRole(creator, inputs, u, i);
      }
    }
  }

  lemma CreatedAsAsked(s: State, name: string, group: bool, creator: string, inputs: seq<Member>, id: string, failAt: nat)
    requires Sane(s) && IsNew(s, id)
    ensures var (s', r) := Create(s, name, group, creator, inputs, id, failAt);
            r.Ok? ==> r == Ok(id) && AsAsked(s, s', id, name, group, creator, inputs)
  {
    CreateDoes(s, name, group, creator, inputs, id, failAt);
    if Creatable(s, name, creator, inputs, failAt) {
      RowsOfBuilt(s.users, s.members, Create(s, name, group, creator, inputs, id, failAt).0.members, id, creator, inputs);
    }
  }

  // ----- the name of a direct room -----

  /** x comes before y in the order of strings: at the first place where they differ, or as
      a first part of it. */
  ghost predicate Precedes(x: string, y: string) {
    exists k :: DiffersAt(x, y, k)
  }

  predicate DiffersAt(x: string, y: string, k: int) {
    && 0 <= k <= |x| && k < |y| && x[..k] == y[..k]
    && (k == |x| || x[k] < y[k])
  }

  lemma {:induction false} LessIff(x: string, y: string)
    ensures Less(x, y) <==> Precedes(x, y)
    decreases |x|
  {
    if x == "" || y == "" {
      if x == "" && y != "" {
        assert DiffersAt(x, y, 0);
      }
    } else if x[0] != y[0] {
      assert x[0] < y[0] ==> DiffersAt(x, y, 0);
      if k :| DiffersAt(x, y, k) {
        assert k > 0 ==> x[..k][0] == y[..k][0];
      }
    } else {
      LessIff(x[1..], y[1..]);
      if k :| DiffersAt(x[1..], y[1..], k) {
        assert x[..k + 1] == [x[0]] + x[1..][..k] && y[..k + 1] == [y[0]] + y[1..][..k];
        assert DiffersAt(x, y, k + 1);
      }
      if k :| DiffersAt(x, y, k) {
        assert k > 0;
        assert x[1..][..k - 1] == x[..k][1..] && y[1..][..k - 1] == y[..k][1..];
        assert DiffersAt(x[1..], y[1..], k - 1);
      }
    }
  }

  ghost function Earlier(a: string, b: string): string {
    if Precedes(a, b) then a else b
  }

  ghost function Later(a: string, b: string): string {
    if Precedes(a, b) then b else a
  }

  /** A direct room is named after its two users, the earlier one first. */
  lemma DirectNameIs(a: string, b: string)
    ensures DirectName(a, b) == "dm:" + Earlier(a, b) + ":" + Later(a, b)
  {
    LessIff(a, b);
  }

  /** EnsureDirectRoom refuses blank users and one user twice, answers with the room found,
      and otherwise creates one with the two: the first as admin, the second as member. */
  lemma EnsureAnswers(s: State, userA: string, userB: string, lookup: Lookup, id: string, failAt: nat)
    ensures var a, b := TrimSpace(userA), TrimSpace(userB);
            var (s', r) := EnsureDirect(s, userA, userB, lookup, id, failAt);
            if a == "" || b == "" then s' == s && r == Err(InvalidUser)
            else if a == b then s' == s && r == Err(Self)
            else if lookup.Found? then s' == s && r == Ok((lookup.id, false))
            else if lookup.LookupFailed? then s' == s && r == Err(Internal)
            else Sane(s) && IsNew(s, id) && r.Ok? ==>
              var name := "dm:" + Earlier(a, b) + ":" + Later(a, b);
              r.value == (id, true) && AsAsked(s, s', id, name, false, a, [Member(b, "member")])
  {
    var a, b := TrimSpace(userA), TrimSpace(userB);
    if a != "" && b != "" && a != b && lookup.NoRows? && Sane(s) && IsNew(s, id) {
      DirectNameIs(a, b);
      CreatedAsAsked(s, DirectName(a, b), false, a, [Member(b, MEMBER)], id, failAt);
    }
  }

  // ----- members and deletion -----

  /** A member is added, or its role replaced, exactly if the texts name a room and a user
      and the call does not fail; a blank role is "member". No other row changes. */
  lemma AddAnswers(s: State, room: string, user: string, role: string, failAt: nat)
    ensures var (s', r) := AddMember(s, room, user, role, failAt);
            && (TrimSpace(room) == "" ==> r == Err(MissingRoomID))
            && (TrimSpace(room) != "" && TrimSpace(user) == "" ==> r == Err(InvalidMember))
            && (r.Ok? <==> && TrimSpace(room) != "" && TrimSpace(user) != "" && failAt != 1
                           && Canon(room).Some? && Canon(room).value in s.rooms
                           && Canon(user).Some? && Canon(user).value in s.users)
            && s' == s.(members := s'.members)
            && s'.members == if r.Ok? then s.members[(Canon(room).value, Canon(user).value) := Given(Member(user, role))]
                             else s.members
  {
  }

  /** A member is removed, if it is one, exactly if the texts could name a room and a user
      and the call does not fail. No other row changes. */
  lemma RemoveAnswers(s: State, room: string, user: string, failAt: nat)
    ensures var (s', r) := RemoveMember(s, room, user, failAt);
            && (TrimSpace(room) == "" ==> r == Err(MissingRoomID))
            && (TrimSpace(room) != "" && TrimSpace(user) == "" ==> r == Err(InvalidMember))
            && (r.Ok? <==> && TrimSpace(room) != "" && TrimSpace(user) != "" && failAt != 1
                           && Canon(room).Some? && Canon(user).Some?)
            && s' == s.(members := s'.members)
            && s'.members == if r.Ok? then s.members - {(Canon(room).value, Canon(user).value)} else s.members
  {
  }

  /** The text names, in any spelling, a room that the requester created. */
  predicate Owns(s: State, requester: string, room: string) {
    && requester != "" && Canon(room).Some? && Canon(room).value in s.rooms
    && s.rooms[Canon(room).value].creator == requester
  }

  /** Only the creator deletes a room, and only that room goes, with the rows of its
      members and no others. */
  lemma OnlyTheCreatorDeletes(s: State, roomID: string, requesterID: string, failAt: nat)
    ensures var (s', r) := Delete(s, roomID, requesterID, failAt);
            && (r.Ok? <==> && TrimSpace(roomID) != "" && Owns(s, TrimSpace(requesterID), TrimSpace(roomID))
                           && failAt != 1 && failAt != 2)
            && (r.Err? ==> s' == s)
            && (r.Ok? ==>
                  var id := Canon(TrimSpace(roomID)).value;
                  && s'.rooms == s.rooms - {id} && s' == s.(rooms := s'.rooms, members := s'.members)
                  && (forall k :: k in s'.members <==> k in s.members && k.0 != id)
                  && (forall k :: k in s'.members ==> s'.members[k] == s.members[k]))
  {
  }

  lemma DeleteRefusals(s: State, roomID: string, requesterID: string, failAt: nat)
    ensures var r := Delete(s, roomID, requesterID, failAt).1;
            var room, requester := TrimSpace(roomID), TrimSpace(requesterID);
            if room == "" then r == Err(MissingRoomID)
            else if requester == "" then r == Err(InvalidUser)
            else if failAt == 1 || Canon(room).None? then r == Err(Internal)
            else if Canon(room).value !in s.rooms then r == Err(NotFound)
            else s.rooms[Canon(room).value].creator != requester ==> r == Err(NotAllowed)
  {
  }

  /** A room keeps its name, its kind and its creator for as long as it is there, and only
      its creator's Delete takes it away. */
  ghost predicate ChangedByRight(s: State, op: Op, s': State, id: string) {
    id in s.rooms ==>
      if id in s'.rooms then s'.rooms[id] == s.rooms[id]
      else op.Drop? && Owns(s, TrimSpace(op.requester), TrimSpace(op.room)) && Canon(TrimSpace(op.room)) == Some(id)
  }

  lemma CreationSparesOthers(s: State, name: string, group: bool, creator: string, inputs: seq<Member>,
                             made: string, failAt: nat, id: string)
    requires Sane(s) && IsNew(s, made) && id in s.rooms
    ensures var rooms := Create(s, name, group, creator, inputs, made, failAt).0.rooms;
            id in rooms && rooms[id] == s.rooms[id]
  {
    CreateDoes(s, name, group, creator, inputs, made, failAt);
  }

  lemma RoomsChangeByRight(s: State, op: Op, id: string)
    requires Sane(s) && Environment(s, op)
    ensures ChangedByRight(s, op, Step(s, op), id)
  {
    if id in s.rooms {
      match op
      case Drop(room, requester, failAt) => OnlyTheCreatorDeletes(s, room, requester, failAt);
      case Add(room, user, role, failAt) => AddAnswers(s, room, user, role, failAt);
      case Remove(room, user, failAt) => RemoveAnswers(s, room, user, failAt);
      case Make(name, group, creator, inputs, made, failAt) =>
        CreationSparesOthers(s, name, group, creator, inputs, made, failAt, id);
      case Ensure(a, b, _, made, failAt) =>
        CreationSparesOthers(s, DirectName(TrimSpace(a), TrimSpace(b)), false, TrimSpace(a),
                             [Member(TrimSpace(b), MEMBER)], made, failAt, id);
    }
  }
}
