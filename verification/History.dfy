/** Reading a room's history: pages, and the neighbourhood of one message. */
module History {
  import opened Text
  import opened Uuid
  import opened Relay
  import opened MessageSpec

  const DEFAULT_LIMIT := 50

  // ----- what the queries return -----

  predicate Descending(s: seq<Message>) {
    forall i, j :: 0 <= i < j < |s| ==> s[i].created >= s[j].created
  }

  predicate Ascending(s: seq<Message>) {
    forall i, j :: 0 <= i < j < |s| ==> s[i].created <= s[j].created
  }

  predicate NoRepeats(s: seq<Message>) {
    forall i, j :: 0 <= i < j < |s| ==> s[i] != s[j]
  }

  /** All the rows, each once. */
  ghost predicate Lists(s: seq<Message>, rows: set<Message>) {
    (forall m :: m in s <==> m in rows) && NoRepeats(s)
  }

  ghost predicate DistinctTimes(rows: set<Message>) {
    forall m, n :: m in rows && n in rows && m.created == n.created ==> m == n
  }

  /** LIMIT and OFFSET. */
  function Window(s: seq<Message>, limit: nat, offset: nat): seq<Message> {
    if |s| <= offset then []
    else if |s| <= offset + limit then s[offset..]
    else s[offset..offset + limit]
  }

  /** ORDER BY created_at DESC LIMIT limit OFFSET offset. The database is free in how it
      orders rows of the same time, and need not do it the same way again. */
  ghost predicate IsNewest(result: seq<Message>, rows: set<Message>, limit: nat, offset: nat) {
    exists all :: Descending(all) && Lists(all, rows) && result == Window(all, limit, offset)
  }

  /** ORDER BY created_at ASC LIMIT limit. */
  ghost predicate IsOldest(result: seq<Message>, rows: set<Message>, limit: nat) {
    exists all :: Ascending(all) && Lists(all, rows) && result == Window(all, limit, 0)
  }

  lemma EmptyList(s: seq<Message>, rows: set<Message>)
    requires Lists(s, rows)
    ensures s == [] <==> rows == {}
  {
    if s != [] {
      assert s[0] in rows;
    }
    if m :| m in rows {
      assert m in s;
    }
  }

  lemma TailLists(s: seq<Message>, rows: set<Message>)
    requires s != [] && Lists(s, rows)
    ensures Lists(s[1..], rows - {s[0]})
    ensures Descending(s) ==> Descending(s[1..])
  {
    forall m ensures m in s[1..] <==> m in rows - {s[0]} {
      if m in s[1..] {
        var i :| 0 <= i < |s[1..]| && s[1..][i] == m;
        assert s[i + 1] == m;
      }
      assert s == [s[0]] + s[1..];
    }
  }

  lemma {:induction false} ListLength(s: seq<Message>, rows: set<Message>)
    requires Lists(s, rows)
    ensures |s| == |rows|
    decreases |s|
  {
    EmptyList(s, rows);
    if s != [] {
      assert s[0] in rows;
      TailLists(s, rows);
      ListLength(s[1..], rows - {s[0]});
    }
  }

  lemma HeadIsNewest(s: seq<Message>, rows: set<Message>)
    requires s != [] && Descending(s) && Lists(s, rows)
    ensures s[0] in rows && forall m :: m in rows ==> m.created <= s[0].created
  {
    forall m | m in rows ensures m.created <= s[0].created {
      assert m in s;
      var i :| 0 <= i < |s| && s[i] == m;
    }
  }

  /** Rows with distinct times can be listed in order in one way only. */
  lemma {:induction false} DescendingUnique(s: seq<Message>, t: seq<Message>, rows: set<Message>)
    requires Descending(s) && Descending(t) && Lists(s, rows) && Lists(t, rows) && DistinctTimes(rows)
    ensures s == t
    decreases |s|
  {
    EmptyList(s, rows);
    EmptyList(t, rows);
    if s != [] {
      HeadIsNewest(s, rows);
      HeadIsNewest(t, rows);
      assert s[0] == t[0];
      TailLists(s, rows);
      TailLists(t, rows);
      DescendingUnique(s[1..], t[1..], rows - {s[0]});
    }
  }

  lemma NewestIsWindow(result: seq<Message>, rows: set<Message>, limit: nat, offset: nat, all: seq<Message>)
    requires IsNewest(result, rows, limit, offset) && DistinctTimes(rows)
    requires Descending(all) && Lists(all, rows)
    ensures result == Window(all, limit, offset)
  {
    var full :| Descending(full) && Lists(full, rows) && result == Window(full, limit, offset);
    DescendingUnique(full, all, rows);
  }

  lemma {:induction false} Newest(rows: set<Message>) returns (m: Message)
    requires rows != {}
    ensures m in rows && forall x :: x in rows ==> x.created <= m.created
    decreases |rows|
  {
    m :| m in rows;
    var rest := rows - {m};
    assert rows == rest + {m};
    if rest != {} {
      var n := Newest(rest);
      if m.created < n.created {
        m := n;
      }
    }
  }

  lemma ConsLists(m: Message, s: seq<Message>, rows: set<Message>)
    requires m !in rows && Lists(s, rows)
    ensures Lists([m] + s, rows + {m})
    ensures Descending(s) && (forall x :: x in rows ==> x.created <= m.created) ==> Descending([m] + s)
  {
    var t := [m] + s;
    forall i, j | 0 <= i < j < |t| ensures t[i] != t[j] {
      assert t[j] == s[j - 1] && s[j - 1] in s;
    }
    if Descending(s) && forall x :: x in rows ==> x.created <= m.created {
      forall i, j | 0 <= i < j < |t| ensures t[i].created >= t[j].created {
        assert t[j] == s[j - 1] && s[j - 1] in s;
      }
    }
  }

  /** Every set of rows can be listed. */
  lemma {:induction false} Listing(rows: set<Message>) returns (s: seq<Message>)
    ensures Descending(s) && Lists(s, rows)
    decreases |rows|
  {
    if rows == {} {
      s := [];
    } else {
      var m := Newest(rows);
      s := Listing(rows - {m});
      ConsLists(m, s, rows - {m});
      assert rows - {m} + {m} == rows;
      s := [m] + s;
    }
  }

  function Reversed(s: seq<Message>): seq<Message> {
    seq(|s|, k requires 0 <= k < |s| => s[|s| - 1 - k])
  }

  lemma ReversedTwice(s: seq<Message>)
    ensures Reversed(Reversed(s)) == s
  {
  }

  lemma ReversedLists(s: seq<Message>, rows: set<Message>)
    requires Lists(s, rows)
    ensures Lists(Reversed(s), rows)
    ensures Ascending(s) ==> Descending(Reversed(s))
    ensures Descending(s) ==> Ascending(Reversed(s))
  {
    forall m ensures m in Reversed(s) <==> m in s {
      if m in s {
        var i :| 0 <= i < |s| && s[i] == m;
        assert Reversed(s)[|s| - 1 - i] == m;
      }
      if m in Reversed(s) {
        var i :| 0 <= i < |s| && Reversed(s)[i] == m;
        assert s[|s| - 1 - i] == m;
      }
    }
  }

  // ----- the neighbourhood of a message -----

  function RoomRows(table: map<string, Message>, room: string): set<Message> {
    set id | id in table && table[id].room == room :: table[id]
  }

  function Before(rows: set<Message>, t: int): set<Message> {
    set m | m in rows && m.created < t
  }

  function After(rows: set<Message>, t: int): set<Message> {
    set m | m in rows && m.created > t
  }

  method ReverseInPlace(a: array<Message>)
    modifies a
    ensures a[..] == Reversed(old(a[..]))
  {
    ghost var was := a[..];
    var n := a.Length;
    var i, j := 0, n - 1;
    while i < j
      invariant 0 <= i <= n && i + j == n - 1 && i <= j + 1
      invariant forall k :: 0 <= k < i ==> a[k] == was[n - 1 - k]
      invariant forall k :: j < k < n ==> a[k] == was[n - 1 - k]
      invariant forall k :: i <= k <= j ==> a[k] == was[k]
    {
      a[i], a[j] := a[j], a[i];
      i, j := i + 1, j - 1;
    }
    forall k | 0 <= k < n ensures a[k] == was[n - 1 - k] {
      if i <= k <= j {
        assert n - 1 - k == k;
      }
    }
    assert a[..] == Reversed(was);
  }

  method Collect(rows: seq<Message>) returns (a: array<Message>)
    ensures fresh(a) && a[..] == rows
  {
    a := new Message[|rows|](i requires 0 <= i < |rows| => rows[i]);
  }

  /** The text names a message of the room: its id in any spelling, and the stored text of
      its room. */
  predicate NamesRow(table: map<string, Message>, room: string, message: string) {
    Canon(message).Some? && Canon(message).value in table && table[Canon(message).value].room == room
  }

  function Around(before: nat, older: seq<Message>, target: Message, after: nat, newer: seq<Message>): seq<Message> {
    (if 0 < before then Reversed(older) else []) + [target] + (if 0 < after then newer else [])
  }

  /** The answers to the two queries around a target. */
  ghost predicate Answers(rows: set<Message>, target: Message, before: nat, older: seq<Message>,
                          after: nat, newer: seq<Message>) {
    && (0 < before ==> IsNewest(older, Before(rows, target.created), before, 0))
    && (0 < after ==> IsOldest(newer, After(rows, target.created), after))
  }

  lemma WindowIsPart(s: seq<Message>, limit: nat, offset: nat)
    ensures |Window(s, limit, offset)| <= limit
    ensures forall m :: m in Window(s, limit, offset) ==> m in s
  {
  }

  lemma ReversedIsPart(s: seq<Message>)
    ensures forall m :: m in Reversed(s) ==> m in s
  {
    forall m | m in Reversed(s) ensures m in s {
      var i :| 0 <= i < |s| && Reversed(s)[i] == m;
      assert s[|s| - 1 - i] == m;
    }
  }

  lemma OlderAreRows(rows: set<Message>, t: int, before: nat, older: seq<Message>)
    requires IsNewest(older, Before(rows, t), before, 0)
    ensures forall m :: m in Reversed(older) ==> m in rows
  {
    var all :| Descending(all) && Lists(all, Before(rows, t)) && older == Window(all, before, 0);
    WindowIsPart(all, before, 0);
    ReversedIsPart(older);
  }

  lemma NewerAreRows(rows: set<Message>, t: int, after: nat, newer: seq<Message>)
    requires IsOldest(newer, After(rows, t), after)
    ensures forall m :: m in newer ==> m in rows
  {
    var all :| Ascending(all) && Lists(all, After(rows, t)) && newer == Window(all, after, 0);
    WindowIsPart(all, after, 0);
  }

  lemma AnswersAreRows(rows: set<Message>, target: Message, before: nat, older: seq<Message>,
                       after: nat, newer: seq<Message>)
    requires target in rows && Answers(rows, target, before, older, after, newer)
    ensures forall m :: m in Around(before, older, target, after, newer) ==> m in rows
  {
    if 0 < before {
      OlderAreRows(rows, target.created, before, older);
    }
    if 0 < after {
      NewerAreRows(rows, target.created, after, newer);
    }
  }

  /** The repository's ListAround; the two query results come with the call. It answers with
      messages of the room alone, the one named among them, exactly if that is a message of
      the room. */
  method ListAround(table: map<string, Message>, room: string, message: string, before: nat, after: nat,
                    older: seq<Message>, newer: seq<Message>)
    returns (r: Result<seq<Message>, MessageError>)
    requires NamesRow(table, room, message) ==>
               Answers(RoomRows(table, room), table[Canon(message).value], before, older, after, newer)
    ensures r.Ok? <==> Canon(message).Some? && Canon(message).value in table && table[Canon(message).value].room == room
    ensures r.Ok? ==> r.value == Around(before, older, table[Canon(message).value], after, newer)
    ensures r.Ok? ==> table[Canon(message).value] in r.value && forall m :: m in r.value ==> m.room == room
    ensures r.Ok? ==> forall m :: m in r.value ==> m in table.Values
    ensures r.Err? ==> r == Err(if Canon(message).None? then Internal else NotFound)
  {
    var id := Canon(message);
    if id.None? {
      return Err(Internal);
    }
    if id.value !in table || table[id.value].room != room {
      return Err(NotFound);
    }
    var target := table[id.value];
    var msgs := [];
    if 0 < before {
      var a := Collect(older);
      ReverseInPlace(a);
      msgs := a[..];
    }
    msgs := msgs + [target];
    assert msgs == (if 0 < before then Reversed(older) else []) + [target];
    if 0 < after {
      msgs := msgs + newer;
    } else {
      assert msgs == msgs + [];
    }
    AnswersAreRows(RoomRows(table, room), target, before, older, after, newer);
    return Ok(msgs);
  }

  /** How the service splits a limit. */
  function Halves(limit: int): (split: (nat, nat))
    ensures split.0 + 1 + split.1 == (if limit <= 0 then DEFAULT_LIMIT else limit)
    ensures split.0 == split.1 || split.0 == split.1 + 1
  {
    var l := if limit <= 0 then DEFAULT_LIMIT else limit;
    var before := l / 2;
    var after := l - before - 1;
    (before, if after < 0 then 0 else after)
  }

  lemma WindowFromStart(s: seq<Message>, limit: nat)
    ensures Window(s, limit, 0) == s[..if limit <= |s| then limit else |s|]
  {
  }

  lemma ReversedFront(s: seq<Message>, n: nat)
    requires n <= |s|
    ensures Reversed(s[..n]) == Reversed(s)[|s| - n..]
  {
  }

  /** The rows older than the target in order, whose last ones the query found. */
  lemma OlderListing(rows: set<Message>, t: int, before: nat, older: seq<Message>) returns (front: seq<Message>)
    requires 0 < before ==> IsNewest(older, Before(rows, t), before, 0)
    ensures Ascending(front) && Lists(front, Before(rows, t))
    ensures (if 0 < before then Reversed(older) else [])
         == front[if before <= |front| then |front| - before else 0..]
  {
    var all: seq<Message>;
    if 0 < before {
      all :| Descending(all) && Lists(all, Before(rows, t)) && older == Window(all, before, 0);
      WindowFromStart(all, before);
      ReversedFront(all, if before <= |all| then before else |all|);
    } else {
      all := Listing(Before(rows, t));
    }
    front := Reversed(all);
    ReversedLists(all, Before(rows, t));
  }

  /** The rows newer than the target in order, whose first ones the query found. */
  lemma NewerListing(rows: set<Message>, t: int, after: nat, newer: seq<Message>) returns (back: seq<Message>)
    requires 0 < after ==> IsOldest(newer, After(rows, t), after)
    ensures Ascending(back) && Lists(back, After(rows, t))
    ensures (if 0 < after then newer else []) == back[..if after <= |back| then after else |back|]
  {
    if 0 < after {
      back :| Ascending(back) && Lists(back, After(rows, t)) && newer == Window(back, after, 0);
      WindowFromStart(back, after);
    } else {
      var all := Listing(After(rows, t));
      ReversedLists(all, After(rows, t));
      back := Reversed(all);
    }
  }

  /** The rows without those that share the target's time. */
  function Untied(rows: set<Message>, target: Message): set<Message> {
    Before(rows, target.created) + {target} + After(rows, target.created)
  }

  lemma HistoryAround(rows: set<Message>, target: Message, front: seq<Message>, back: seq<Message>)
    requires Ascending(front) && Lists(front, Before(rows, target.created))
    requires Ascending(back) && Lists(back, After(rows, target.created))
    ensures Ascending(front + [target] + back) && Lists(front + [target] + back, Untied(rows, target))
  {
    var all := front + [target] + back;
    assert forall m :: m in front ==> m.created < target.created;
    assert forall m :: m in back ==> target.created < m.created;
    forall i, j | 0 <= i < j < |all| ensures all[i].created <= all[j].created && all[i] != all[j] {
      SplitAt(front, target, back, i);
      SplitAt(front, target, back, j);
    }
    forall m ensures m in all <==> m in Untied(rows, target) {
      assert m in all <==> m in front || m == target || m in back;
    }
  }

  lemma SplitAt(front: seq<Message>, target: Message, back: seq<Message>, i: nat)
    requires i < |front| + 1 + |back|
    ensures var x := (front + [target] + back)[i];
            || (i < |front| && x == front[i] && x in front)
            || (i == |front| && x == target)
            || (i > |front| && x == back[i - |front| - 1] && x in back)
  {
  }

  /** From `before` places ahead of i to `after` places behind it, clipped at both ends. */
  function SliceAround(history: seq<Message>, i: nat, before: nat, after: nat): seq<Message>
    requires i < |history|
  {
    var lo := if before <= i then i - before else 0;
    var hi := if i + 1 + after <= |history| then i + 1 + after else |history|;
    history[lo..hi]
  }

  lemma SliceOfThree(front: seq<Message>, target: Message, back: seq<Message>, before: nat, after: nat)
    ensures front[if before <= |front| then |front| - before else 0..] + [target]
            + back[..if after <= |back| then after else |back|]
         == SliceAround(front + [target] + back, |front|, before, after)
  {
  }

  /** Whatever the limit, ListAround returns the slice around its target of the room's history
      without those that share the target's time. */
  lemma AroundIsSlice(rows: set<Message>, target: Message, limit: int, older: seq<Message>, newer: seq<Message>)
    returns (history: seq<Message>, i: nat)
    requires var (before, after) := Halves(limit); Answers(rows, target, before, older, after, newer)
    ensures Ascending(history) && Lists(history, Untied(rows, target))
    ensures i < |history| && history[i] == target
    ensures var (before, after) := Halves(limit);
            Around(before, older, target, after, newer) == SliceAround(history, i, before, after)
  {
    var (before, after) := Halves(limit);
    var front := OlderListing(rows, target.created, before, older);
    var back := NewerListing(rows, target.created, after, newer);
    HistoryAround(rows, target, front, back);
    SliceOfThree(front, target, back, before, after);
    history, i := front + [target] + back, |front|;
  }

  lemma AscendingUnique(s: seq<Message>, t: seq<Message>, rows: set<Message>)
    requires Ascending(s) && Ascending(t) && Lists(s, rows) && Lists(t, rows) && DistinctTimes(rows)
    ensures s == t
  {
    ReversedLists(s, rows);
    ReversedLists(t, rows);
    DescendingUnique(Reversed(s), Reversed(t), rows);
    ReversedTwice(s);
    ReversedTwice(t);
  }

  lemma NoneTied(rows: set<Message>, target: Message)
    requires DistinctTimes(rows) && target in rows
    ensures Untied(rows, target) == rows
  {
  }

  lemma SamePlace(s: seq<Message>, i: nat, j: nat)
    requires NoRepeats(s) && i < |s| && j < |s| && s[i] == s[j]
    ensures i == j
  {
  }

  /** With distinct times that is the slice of the one history there is. */
  lemma AroundIsTheSlice(rows: set<Message>, history: seq<Message>, i: nat, limit: int,
                         older: seq<Message>, newer: seq<Message>)
    requires DistinctTimes(rows) && Ascending(history) && Lists(history, rows) && i < |history|
    requires var (before, after) := Halves(limit); Answers(rows, history[i], before, older, after, newer)
    ensures var (before, after) := Halves(limit);
            Around(before, older, history[i], after, newer) == SliceAround(history, i, before, after)
  {
    assert history[i] in history;
    NoneTied(rows, history[i]);
    var other, k := AroundIsSlice(rows, history[i], limit, older, newer);
    AscendingUnique(other, history, rows);
    SamePlace(history, i, k);
  }

  lemma UntiedIff(rows: set<Message>, target: Message)
    requires target in rows
    ensures Untied(rows, target) == rows <==>
            forall m :: m in rows && m.created == target.created ==> m == target
  {
    var untied := Untied(rows, target);
    assert forall m :: m in untied <==> m in rows && (m == target || m.created != target.created);
    if untied == rows {
      forall m | m in rows && m.created == target.created ensures m == target {
        assert m in untied;
      }
    }
  }

  lemma InThree(front: seq<Message>, target: Message, back: seq<Message>, m: Message)
    ensures m in front + [target] + back <==> m in front || m == target || m in back
  {
  }

  lemma ThreeHaveUntied(rows: set<Message>, front: seq<Message>, target: Message, back: seq<Message>)
    requires Lists(front, Before(rows, target.created)) && Lists(back, After(rows, target.created))
    ensures forall m :: m in front + [target] + back <==> m in Untied(rows, target)
  {
    forall m ensures m in front + [target] + back <==> m in Untied(rows, target) {
      InThree(front, target, back, m);
    }
  }

  lemma NothingClipped(front: seq<Message>, before: nat, back: seq<Message>, after: nat)
    requires |front| <= before && |back| <= after
    ensures front[if before <= |front| then |front| - before else 0..] == front
    ensures back[..if after <= |back| then after else |back|] == back
  {
  }

  /** Given room for everything, what ListAround returns is the history without the ties. */
  lemma AroundHasUntied(rows: set<Message>, target: Message, before: nat, older: seq<Message>,
                        after: nat, newer: seq<Message>)
    requires Answers(rows, target, before, older, after, newer)
    requires |Before(rows, target.created)| <= before && |After(rows, target.created)| <= after
    ensures forall m :: m in Around(before, older, target, after, newer) <==> m in Untied(rows, target)
  {
    var front := OlderListing(rows, target.created, before, older);
    var back := NewerListing(rows, target.created, after, newer);
    ListLength(front, Before(rows, target.created));
    ListLength(back, After(rows, target.created));
    NothingClipped(front, before, back, after);
    ThreeHaveUntied(rows, front, target, back);
  }

  /** That is the room's whole history exactly if no other message shares the target's time. */
  lemma TiesAreDropped(rows: set<Message>, target: Message, before: nat, older: seq<Message>,
                       after: nat, newer: seq<Message>)
    requires target in rows && Answers(rows, target, before, older, after, newer)
    requires |Before(rows, target.created)| <= before && |After(rows, target.created)| <= after
    ensures (forall m :: m in Around(before, older, target, after, newer) <==> m in rows)
            <==> forall m :: m in rows && m.created == target.created ==> m == target
  {
    AroundHasUntied(rows, target, before, older, after, newer);
    UntiedIff(rows, target);
    var untied := Untied(rows, target);
    if forall m :: m in Around(before, older, target, after, newer) <==> m in rows {
      assert forall m :: m in untied <==> m in rows;
    }
  }

  // ----- paging -----

  function LimitOf(limit: int): (l: nat)
    ensures 0 < l
  {
    if limit <= 0 then DEFAULT_LIMIT else limit
  }

  /** The limit and offset ListByRoom passes on. */
  function PageArgs(page: int, limit: int): (nat, nat) {
    var l := LimitOf(limit);
    var p := if page <= 0 then 1 else page;
    (l, (p - 1) * l)
  }

  /** Where page p + 1 starts. */
  function Start(p: nat, l: nat): nat {
    if p == 0 then 0 else Start(p - 1, l) + l
  }

  lemma {:induction false} PageArgsStart(p: nat, limit: int)
    ensures PageArgs(p + 1, limit) == (LimitOf(limit), Start(p, LimitOf(limit)))
  {
    if p > 0 {
      PageArgsStart(p - 1, limit);
      assert p * LimitOf(limit) == (p - 1) * LimitOf(limit) + LimitOf(limit);
    }
  }

  /** Between two fetches only newer messages arrive. */
  ghost predicate OnlyNewer(rows: set<Message>, later: set<Message>) {
    rows <= later && forall m, x :: m in later - rows && x in rows ==> m.created > x.created
  }

  lemma OldHeadMeansNoneNew(all: seq<Message>, rows: set<Message>, later: set<Message>)
    requires OnlyNewer(rows, later) && Descending(all) && Lists(all, later)
    requires all != [] && all[0] in rows
    ensures later == rows
  {
    HeadIsNewest(all, later);
    assert forall m :: m in later - rows ==> m.created > all[0].created;
  }

  lemma {:induction false} NewOnesComeFirst(all: seq<Message>, rows: set<Message>, later: set<Message>)
    returns (k: nat)
    requires OnlyNewer(rows, later) && Descending(all) && Lists(all, later)
    ensures k <= |all| && Lists(all[k..], rows) && Descending(all[k..])
    decreases |all|
  {
    EmptyList(all, later);
    if all == [] || all[0] in rows {
      k := 0;
      if all != [] {
        OldHeadMeansNoneNew(all, rows, later);
      }
      assert all[0..] == all && later == rows;
    } else {
      TailLists(all, later);
      k := NewOnesComeFirst(all[1..], rows, later - {all[0]});
      assert all[1..][k..] == all[k + 1..];
      k := k + 1;
    }
  }

  predicate IsSuffix(s: seq<Message>, t: seq<Message>) {
    |s| <= |t| && t[|t| - |s|..] == s
  }

  /** The list from which page p was cut ends in what was there at the start. */
  predicate ViewAt(base: seq<Message>, lists: seq<seq<Message>>, pages: seq<seq<Message>>, l: nat, p: nat)
    requires p < |lists| == |pages|
  {
    && IsSuffix(base, lists[p]) && pages[p] == Window(lists[p], l, Start(p, l))
    && (p > 0 ==> |lists[p - 1]| <= |lists[p]|)
  }

  predicate ReadBefore(pages: seq<seq<Message>>, m: Message, p: nat)
    requires p <= |pages|
  {
    exists q :: 0 <= q < p && m in pages[q]
  }

  /** What sits at or past a page's offset is on the page, or at or past the next. */
  lemma OnPageOrPast(base: seq<Message>, list: seq<Message>, l: nat, start: nat, i: nat)
    requires IsSuffix(base, list) && i < |base| && start <= i + |list| - |base|
    ensures base[i] in Window(list, l, start) || start + l <= i + |list| - |base|
  {
    var at := i + |list| - |base|;
    assert list[|list| - |base|..][i] == list[at];
    if at < start + l {
      assert Window(list, l, start)[at - start] == list[at];
    }
  }

  /** By fetch p, a message present at the start is read or sits at or past the offset. */
  lemma {:induction false} ReadOrAhead(base: seq<Message>, lists: seq<seq<Message>>, pages: seq<seq<Message>>,
                                      l: nat, i: nat, p: nat)
    requires p < |lists| == |pages| && i < |base|
    requires forall q :: 0 <= q <= p ==> ViewAt(base, lists, pages, l, q)
    ensures ReadBefore(pages, base[i], p) || Start(p, l) <= i + |lists[p]| - |base|
    decreases p
  {
    assert ViewAt(base, lists, pages, l, p);
    if p > 0 {
      ReadOrAhead(base, lists, pages, l, i, p - 1);
      assert ViewAt(base, lists, pages, l, p - 1);
      if ReadBefore(pages, base[i], p - 1) {
        var q :| 0 <= q < p - 1 && base[i] in pages[q];
        assert ReadBefore(pages, base[i], p);
      } else {
        OnPageOrPast(base, lists[p - 1], l, Start(p - 1, l), i);
        if base[i] in pages[p - 1] {
          assert ReadBefore(pages, base[i], p);
        }
      }
    }
  }

  ghost predicate ReceivedBetween(rows: seq<set<Message>>, p: nat)
    requires 0 < p < |rows|
  {
    OnlyNewer(rows[p - 1], rows[p])
  }

  /** Page p + 1, as the database answered it when it held these rows. */
  ghost predicate ReadAt(rows: seq<set<Message>>, pages: seq<seq<Message>>, limit: int, p: nat)
    requires p < |rows| == |pages|
  {
    var (l, offset) := PageArgs(p + 1, limit);
    IsNewest(pages[p], rows[p], l, offset)
  }

  /** Rows at each fetch, and the page each fetch returned: pages 1, 2, 3, ... */
  ghost predicate Reads(rows: seq<set<Message>>, pages: seq<seq<Message>>, limit: int) {
    && |rows| == |pages|
    && (forall p :: 0 <= p < |pages| ==> ReadAt(rows, pages, limit, p))
    && (forall p :: 0 < p < |rows| ==> ReceivedBetween(rows, p))
  }

  lemma {:induction false} NewerThanFirst(rows: seq<set<Message>>, p: nat)
    requires p < |rows| && forall q :: 0 < q < |rows| ==> ReceivedBetween(rows, q)
    ensures OnlyNewer(rows[0], rows[p])
    decreases p
  {
    if p > 0 {
      NewerThanFirst(rows, p - 1);
      assert ReceivedBetween(rows, p);
    }
  }

  /** `list` is what page p was cut from. */
  ghost predicate Behind(base: seq<Message>, list: seq<Message>, rows: set<Message>, page: seq<Message>, l: nat, p: nat) {
    IsSuffix(base, list) && |list| == |rows| && page == Window(list, l, Start(p, l))
  }

  /** The list behind page p, and how it ends. */
  lemma PageView(rows: seq<set<Message>>, pages: seq<seq<Message>>, limit: int, base: seq<Message>, p: nat)
    returns (list: seq<Message>)
    requires Reads(rows, pages, limit) && p < |pages|
    requires DistinctTimes(rows[0]) && Descending(base) && Lists(base, rows[0])
    ensures Behind(base, list, rows[p], pages[p], LimitOf(limit), p)
  {
    PageArgsStart(p, limit);
    var (l, offset) := PageArgs(p + 1, limit);
    assert ReadAt(rows, pages, limit, p);
    list :| Descending(list) && Lists(list, rows[p]) && pages[p] == Window(list, l, offset);
    ListLength(list, rows[p]);
    NewerThanFirst(rows, p);
    var k := NewOnesComeFirst(list, rows[0], rows[p]);
    DescendingUnique(list[k..], base, rows[0]);
  }

  lemma SubsetIsSmaller(s: set<Message>, t: set<Message>)
    requires s <= t
    ensures |s| <= |t|
  {
    assert t == s + (t - s);
  }

  lemma {:induction false} Views(rows: seq<set<Message>>, pages: seq<seq<Message>>, limit: int,
                                base: seq<Message>, n: nat)
    returns (lists: seq<seq<Message>>)
    requires Reads(rows, pages, limit) && pages != [] && n <= |pages|
    requires DistinctTimes(rows[0]) && Descending(base) && Lists(base, rows[0])
    ensures |lists| == n
    ensures forall p :: 0 <= p < n ==> Behind(base, lists[p], rows[p], pages[p], LimitOf(limit), p)
    decreases n
  {
    if n == 0 {
      lists := [];
    } else {
      var front := Views(rows, pages, limit, base, n - 1);
      var list := PageView(rows, pages, limit, base, n - 1);
      lists := front + [list];
    }
  }

  lemma ViewFromBehind(rows: seq<set<Message>>, pages: seq<seq<Message>>, limit: int, base: seq<Message>,
                       lists: seq<seq<Message>>, p: nat)
    requires Reads(rows, pages, limit) && p < |lists| == |pages|
    requires Behind(base, lists[p], rows[p], pages[p], LimitOf(limit), p)
    requires p > 0 ==> Behind(base, lists[p - 1], rows[p - 1], pages[p - 1], LimitOf(limit), p - 1)
    ensures ViewAt(base, lists, pages, LimitOf(limit), p)
  {
    if p > 0 {
      assert ReceivedBetween(rows, p);
      SubsetIsSmaller(rows[p - 1], rows[p]);
    }
  }

  lemma AllViews(rows: seq<set<Message>>, pages: seq<seq<Message>>, limit: int, base: seq<Message>)
    returns (lists: seq<seq<Message>>)
    requires Reads(rows, pages, limit) && pages != []
    requires DistinctTimes(rows[0]) && Descending(base) && Lists(base, rows[0])
    ensures |lists| == |pages|
    ensures forall p :: 0 <= p < |lists| ==> ViewAt(base, lists, pages, LimitOf(limit), p)
  {
    lists := Views(rows, pages, limit, base, |pages|);
    forall p | 0 <= p < |lists| ensures ViewAt(base, lists, pages, LimitOf(limit), p) {
      ViewFromBehind(rows, pages, limit, base, lists, p);
    }
  }

  lemma Covered(base: seq<Message>, lists: seq<seq<Message>>, pages: seq<seq<Message>>, l: nat, i: nat)
    requires 0 < |lists| == |pages| && i < |base| && 0 < l && pages[|pages| - 1] == []
    requires forall q :: 0 <= q < |pages| ==> ViewAt(base, lists, pages, l, q)
    ensures exists p :: 0 <= p < |pages| && base[i] in pages[p]
  {
    assert ViewAt(base, lists, pages, l, |pages| - 1);
    ReadOrAhead(base, lists, pages, l, i, |pages| - 1);
  }

  lemma Position(list: seq<Message>, rows: set<Message>, m: Message) returns (i: nat)
    requires Lists(list, rows) && m in rows
    ensures i < |list| && list[i] == m
  {
    assert m in list;
    i :| 0 <= i < |list| && list[i] == m;
  }

  /** Reading page after page until one is empty misses no message that was there at the
      start, whatever newer ones arrive meanwhile, if those at the start had distinct times. */
  lemma PagesCover(rows: seq<set<Message>>, pages: seq<seq<Message>>, limit: int, m: Message)
    requires Reads(rows, pages, limit)
    requires pages != [] && pages[|pages| - 1] == []
    requires DistinctTimes(rows[0]) && m in rows[0]
    ensures exists p :: 0 <= p < |pages| && m in pages[p]
  {
    var base := Listing(rows[0]);
    var lists := AllViews(rows, pages, limit, base);
    var i := Position(base, rows[0], m);
    Covered(base, lists, pages, LimitOf(limit), i);
  }

  // ----- and only if -----

  lemma ThreePartsList(rows: set<Message>, a: seq<Message>, m: Message, n: Message, b: seq<Message>)
    requires m in rows && n in rows && m != n && m.created == n.created
    requires Descending(a) && Lists(a, After(rows, m.created))
    requires Descending(b) && Lists(b, rows - After(rows, m.created) - {m, n})
    ensures Descending(a + [m, n] + b) && Lists(a + [m, n] + b, rows)
  {
    var all := a + [m, n] + b;
    assert forall x :: x in a ==> x.created > m.created;
    assert forall x :: x in b ==> x.created <= m.created && x != m && x != n;
    forall i, j | 0 <= i < j < |all| ensures all[i].created >= all[j].created && all[i] != all[j] {
      PartAt(a, m, n, b, i);
      PartAt(a, m, n, b, j);
    }
    forall x ensures x in all <==> x in rows {
      assert x in all <==> x in a || x == m || x == n || x in b;
    }
  }

  lemma PartAt(a: seq<Message>, m: Message, n: Message, b: seq<Message>, i: nat)
    requires i < |a| + 2 + |b|
    ensures var x := (a + [m, n] + b)[i];
            || (i < |a| && x == a[i] && x in a)
            || (i == |a| && x == m)
            || (i == |a| + 1 && x == n)
            || (i > |a| + 1 && x == b[i - |a| - 2] && x in b)
  {
  }

  function Same(rows: set<Message>, n: nat): seq<set<Message>> {
    seq(n, _ => rows)
  }

  /** Page p + 1 of limit 1 is cut from one list, but page k + 2 from the other. */
  function Flipping(one: seq<Message>, two: seq<Message>, k: nat): seq<seq<Message>> {
    seq(|one| + 1, p requires 0 <= p <= |one| => Window(if p == k + 1 then two else one, 1, p))
  }

  lemma FlippingReads(rows: set<Message>, one: seq<Message>, two: seq<Message>, k: nat)
    requires Descending(one) && Lists(one, rows) && Descending(two) && Lists(two, rows)
    ensures Reads(Same(rows, |one| + 1), Flipping(one, two, k), 1)
  {
    var pages := Flipping(one, two, k);
    forall p | 0 <= p < |pages| ensures ReadAt(Same(rows, |pages|), pages, 1, p) {
      assert PageArgs(p + 1, 1) == (1, p);
    }
    forall p | 0 < p < |pages| ensures ReceivedBetween(Same(rows, |pages|), p) {
    }
  }

  lemma FlippingSkips(one: seq<Message>, two: seq<Message>, k: nat, n: Message, p: nat)
    requires NoRepeats(one) && |two| == |one| && k + 1 < |one|
    requires one[k + 1] == n && two[k + 1] != n && p <= |one|
    ensures n !in Flipping(one, two, k)[p]
  {
    OnePage(if p == k + 1 then two else one, p);
  }

  /** Two messages of the same time: reading page after page, one by one, can miss one of
      them, on a table that does not change, because the order may flip between pages. */
  lemma TieCanBeSkipped(rows: set<Message>, m: Message, n: Message) returns (pages: seq<seq<Message>>)
    requires m in rows && n in rows && m != n && m.created == n.created
    ensures pages != [] && pages[|pages| - 1] == [] && Reads(Same(rows, |pages|), pages, 1)
    ensures forall p :: 0 <= p < |pages| ==> n !in pages[p]
  {
    var a := Listing(After(rows, m.created));
    var b := Listing(rows - After(rows, m.created) - {m, n});
    var one, two := a + [m, n] + b, a + [n, m] + b;
    ThreePartsList(rows, a, m, n, b);
    assert {m, n} == {n, m};
    ThreePartsList(rows, a, n, m, b);
    FlippingReads(rows, one, two, |a|);
    pages := Flipping(one, two, |a|);
    assert one[|a| + 1] == n && two[|a| + 1] == m;
    OnePage(one, |one|);
    assert pages[|one|] == Window(one, 1, |one|);
    forall p | 0 <= p < |pages| ensures n !in pages[p] {
      FlippingSkips(one, two, |a|, n, p);
    }
  }

  lemma OnePage(s: seq<Message>, p: nat)
    ensures Window(s, 1, p) == if p < |s| then [s[p]] else []
  {
  }

  /** Every reading to the end of an unchanging table returns everything. */
  ghost predicate AlwaysComplete(rows: set<Message>) {
    forall pages, limit, m ::
      Reads(Same(rows, |pages|), pages, limit) && pages != [] && pages[|pages| - 1] == [] && m in rows ==>
        ReadBefore(pages, m, |pages|)
  }

  /** Reading pages to the end never misses a message exactly if no two share their time. */
  lemma PagesCoverIff(rows: set<Message>)
    ensures AlwaysComplete(rows) <==> DistinctTimes(rows)
  {
    if DistinctTimes(rows) {
      forall pages, limit, m |
        Reads(Same(rows, |pages|), pages, limit) && pages != [] && pages[|pages| - 1] == [] && m in rows
        ensures ReadBefore(pages, m, |pages|)
      {
        PagesCover(Same(rows, |pages|), pages, limit, m);
      }
    } else {
      var m, n :| m in rows && n in rows && m.created == n.created && m != n;
      var pages := TieCanBeSkipped(rows, m, n);
      assert !ReadBefore(pages, n, |pages|);
    }
  }

  // ----- tiling -----

  function Concat(pages: seq<seq<Message>>): seq<Message> {
    if pages == [] then [] else Concat(pages[..|pages| - 1]) + pages[|pages| - 1]
  }

  lemma PageOfHistory(rows: set<Message>, history: seq<Message>, pages: seq<seq<Message>>, limit: int, p: nat)
    requires DistinctTimes(rows) && Descending(history) && Lists(history, rows)
    requires p < |pages| && ReadAt(Same(rows, |pages|), pages, limit, p)
    ensures pages[p] == Window(history, LimitOf(limit), Start(p, LimitOf(limit)))
  {
    PageArgsStart(p, limit);
    NewestIsWindow(pages[p], rows, LimitOf(limit), Start(p, LimitOf(limit)), history);
  }

  lemma FewerReads(rows: set<Message>, pages: seq<seq<Message>>, limit: int, p: nat, n: nat)
    requires p < n <= |pages| && ReadAt(Same(rows, |pages|), pages, limit, p)
    ensures ReadAt(Same(rows, n), pages[..n], limit, p)
  {
  }

  /** On a table that does not change and has distinct times, the pages tile the history. */
  lemma {:induction false} PagesTile(rows: set<Message>, history: seq<Message>, pages: seq<seq<Message>>, limit: int)
    requires DistinctTimes(rows) && Descending(history) && Lists(history, rows)
    requires forall p :: 0 <= p < |pages| ==> ReadAt(Same(rows, |pages|), pages, limit, p)
    ensures Concat(pages) == Window(history, Start(|pages|, LimitOf(limit)), 0)
    ensures pages != [] && pages[|pages| - 1] == [] ==> Concat(pages) == history
    decreases |pages|
  {
    var l := LimitOf(limit);
    if pages != [] {
      var p := |pages| - 1;
      forall q | 0 <= q < p ensures ReadAt(Same(rows, p), pages[..p], limit, q) {
        FewerReads(rows, pages, limit, q, p);
      }
      PagesTile(rows, history, pages[..p], limit);
      PageOfHistory(rows, history, pages, limit, p);
      WindowsJoin(history, l, Start(p, l));
    } else {
      assert Window(history, 0, 0) == [];
    }
  }

  lemma WindowsJoin(s: seq<Message>, limit: nat, offset: nat)
    ensures Window(s, offset, 0) + Window(s, limit, offset) == Window(s, offset + limit, 0)
    ensures 0 < limit && Window(s, limit, offset) == [] ==> Window(s, offset, 0) == s
  {
  }
}

/** The two ways the message service reads a room's history. */
module HistoryService {
  import opened Text
  import opened Uuid
  import opened Relay
  import opened MessageSpec
  import opened History

  /** The window of a history, without the messages of the same time, around one message. */
  ghost predicate IsNeighbourhood(msgs: seq<Message>, rows: set<Message>, target: Message, before: nat, after: nat) {
    exists history: seq<Message>, i: nat ::
      Surrounds(msgs, rows, target, before, after, history, i)
  }

  ghost predicate Surrounds(msgs: seq<Message>, rows: set<Message>, target: Message, before: nat, after: nat,
                            history: seq<Message>, i: nat) {
    && Ascending(history) && Lists(history, Untied(rows, target))
    && i < |history| && history[i] == target && msgs == SliceAround(history, i, before, after)
  }

  /** How many messages a limit asks for. */
  function Asked(limit: int): int {
    if limit <= 0 then 50 else limit
  }

  /** Whatever the limit, the two queries and the message between make its neighbourhood:
      half the limit before it, and the rest behind. */
  lemma AroundIsNeighbourhood(rows: set<Message>, target: Message, limit: int, older: seq<Message>, newer: seq<Message>)
    requires var (before, after) := Halves(limit); Answers(rows, target, before, older, after, newer)
    ensures var (before, after) := Halves(limit);
            var msgs, n := Around(before, older, target, after, newer), Asked(limit);
            IsNeighbourhood(msgs, rows, target, n / 2, n - n / 2 - 1) && |msgs| <= n
  {
    var (before, after) := Halves(limit);
    var history, i := AroundIsSlice(rows, target, limit, older, newer);
    assert before == Asked(limit) / 2 && after == Asked(limit) - Asked(limit) / 2 - 1;
    assert Surrounds(Around(before, older, target, after, newer), rows, target, before, after, history, i);
  }

  /** ListAround: the limit counts the message itself; the query results come with the call.
      It answers with that neighbourhood of the message in its room, half before it and the
      rest behind, exactly if the texts name a message and the room it is in. */
  method ListAround(table: map<string, Message>, roomID: string, messageID: string, limit: int,
                    older: seq<Message>, newer: seq<Message>)
    returns (r: Result<seq<Message>, MessageError>)
    requires var (before, after) := Halves(limit);
             NamesRow(table, TrimSpace(roomID), TrimSpace(messageID)) ==>
               Answers(RoomRows(table, TrimSpace(roomID)), table[Canon(TrimSpace(messageID)).value],
                       before, older, after, newer)
    ensures TrimSpace(roomID) == "" ==> r == Err(InvalidRoomID)
    ensures TrimSpace(roomID) != "" && TrimSpace(messageID) == "" ==> r == Err(InvalidMessageID)
    ensures var room, id := TrimSpace(roomID), Canon(TrimSpace(messageID));
            r.Ok? <==> room != "" && TrimSpace(messageID) != ""
                       && id.Some? && id.value in table && table[id.value].room == room
    ensures r.Ok? ==> forall m :: m in r.value ==> m.room == TrimSpace(roomID)
    ensures r.Ok? ==>
              var n, rows := Asked(limit), RoomRows(table, TrimSpace(roomID));
              IsNeighbourhood(r.value, rows, table[Canon(TrimSpace(messageID)).value], n / 2, n - n / 2 - 1)
              && |r.value| <= n
  {
    var room, message := TrimSpace(roomID), TrimSpace(messageID);
    if room == "" {
      return Err(InvalidRoomID);
    }
    if message == "" {
      return Err(InvalidMessageID);
    }
    var (before, after) := Halves(limit);
    r := History.ListAround(table, room, message, before, after, older, newer);
    if r.Ok? {
      AroundIsNeighbourhood(RoomRows(table, room), table[Canon(message).value], limit, older, newer);
    }
  }

  /** ListByRoom: `rows` is the database's answer to the query for the page. It asks for as
      many of the room's newest messages as the limit says, after those of the pages before. */
  method ListByRoom(table: map<string, Message>, roomID: string, page: int, limit: int, rows: seq<Message>)
    returns (r: Result<seq<Message>, MessageError>)
    requires Canon(roomID).Some? ==>
               var (n, offset) := PageArgs(page, limit); IsNewest(rows, RoomRows(table, Canon(roomID).value), n, offset)
    ensures TrimSpace(roomID) == "" ==> r == Err(InvalidRoomID)
    ensures r.Ok? <==> TrimSpace(roomID) != "" && Canon(roomID).Some?
    ensures r.Ok? ==>
              var n, p := Asked(limit), if page <= 0 then 0 else page - 1;
              IsNewest(r.value, RoomRows(table, Canon(roomID).value), n, Start(p, n)) && |r.value| <= n
    ensures r.Ok? ==> forall m :: m in r.value ==> m.room == Canon(roomID).value
  {
    if TrimSpace(roomID) == "" {
      return Err(InvalidRoomID);
    }
    if Canon(roomID).None? {
      return Err(Internal);
    }
    PageIsNewest(rows, RoomRows(table, Canon(roomID).value), page, limit);
    return Ok(rows);
  }

  lemma PageIsNewest(result: seq<Message>, rows: set<Message>, page: int, limit: int)
    requires var (n, offset) := PageArgs(page, limit); IsNewest(result, rows, n, offset)
    ensures var n, p := Asked(limit), if page <= 0 then 0 else page - 1;
            IsNewest(result, rows, n, Start(p, n)) && |result| <= n
    ensures forall m :: m in result ==> m in rows
  {
    var (n, offset) := PageArgs(page, limit);
    PageArgsStart(if page <= 0 then 0 else page - 1, limit);
    NewestAreRows(result, rows, n, offset);
  }

  lemma NewestAreRows(result: seq<Message>, rows: set<Message>, limit: nat, offset: nat)
    requires IsNewest(result, rows, limit, offset)
    ensures |result| <= limit && forall m :: m in result ==> m in rows
  {
    var all :| Descending(all) && Lists(all, rows) && result == Window(all, limit, offset);
    WindowIsPart(all, limit, offset);
  }
}
