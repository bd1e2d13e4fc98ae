/** The recently-opened items of the portal: one SQLite table, written by an INSERT and a
    DELETE that commit separately, so the statements of concurrent requests interleave.
    A LIMIT among equal timestamps may pick any rows, so the queries are relations. */
module Recents {
  import opened Common

  const MAX_RECENTS: nat := 20

  datatype Item = Item(kind: string, service: string, title: string, subtitle: string, href: string)
  datatype Row = Row(key: string, item: Item, openedAt: nat)

  /** The primary key is (user, item key). */
  type Table = map<(string, string), Row>

  predicate WellKeyed(table: Table) {
    forall k :: k in table ==> table[k].key == k.1
  }

  function RowsOf(table: Table, user: string): set<Row> {
    set k | k in table && k.0 == user :: table[k]
  }

  // ----- the statements -----

  function Insert(table: Table, user: string, key: string, item: Item, now: nat): Table {
    table[(user, key) := Row(key, item, now)]
  }

  // `result` answers SELECT ... ORDER BY opened_at DESC LIMIT `limit` over `rows`.
  ghost predicate AnswersUpTo(rows: set<Row>, result: seq<Row>, limit: nat) {
    && (forall i, j :: 0 <= i < j < |result| ==> result[i] != result[j])
    && (forall r :: r in result ==> r in rows)
    && |result| == (if |rows| < limit then |rows| else limit)
    && (forall i, j :: 0 <= i < j < |result| ==> result[i].openedAt >= result[j].openedAt)
    && (forall r, k :: r in rows && r !in result && k in result ==> k.openedAt >= r.openedAt)
  }

  ghost predicate Answers(rows: set<Row>, result: seq<Row>) {
    AnswersUpTo(rows, result, MAX_RECENTS)
  }

  // The DELETE whose subquery answered `result`.
  function Prune(table: Table, user: string, result: seq<Row>): Table {
    map k | k in table && (k.0 != user || exists r :: r in result && r.key == k.1) :: table[k]
  }

  // ----- the abstract list: move to front -----

  function Remove(list: seq<Row>, key: string): seq<Row> {
    if list == [] then []
    else (if list[0].key == key then [] else [list[0]]) + Remove(list[1..], key)
  }

  function MoveToFront(list: seq<Row>, row: Row): seq<Row> {
    [row] + Remove(list, row.key)
  }

  function Truncate(list: seq<Row>): seq<Row> {
    if |list| <= MAX_RECENTS then list else list[..MAX_RECENTS]
  }

  // Distinct keys and strictly decreasing times.
  predicate NewestFirst(list: seq<Row>) {
    list == [] || (
      && (forall r :: r in list[1..] ==> r.openedAt < list[0].openedAt && r.key != list[0].key)
      && NewestFirst(list[1..]))
  }

  function Elements(list: seq<Row>): set<Row> {
    set r | r in list
  }

  // ----- runs of statements -----

  datatype Statement =
    | InsertStatement(user: string, key: string, item: Item, now: nat)
    | DeleteStatement(user: string, result: seq<Row>)

  function Execute(table: Table, statement: Statement): Table {
    match statement
    case InsertStatement(user, key, item, now) => Insert(table, user, key, item, now)
    case DeleteStatement(user, result) => Prune(table, user, result)
  }

  function Run(statements: seq<Statement>): Table
    decreases |statements|
  {
    if statements == [] then map[]
    else
      var before := Run(statements[..|statements| - 1]);
      Execute(before, statements[|statements| - 1])
  }

  // Every DELETE used an answer to its own subquery at that moment.
  ghost predicate Legal(statements: seq<Statement>)
    decreases |statements|
  {
    statements == [] ||
    var init, last := statements[..|statements| - 1], statements[|statements| - 1];
    && Legal(init)
    && (last.DeleteStatement? ==> Answers(RowsOf(Run(init), last.user), last.result))
  }

  predicate InsertsFor(statement: Statement, user: string) {
    statement.InsertStatement? && statement.user == user
  }

  // The inserts of `user` see strictly increasing clock values.
  ghost predicate ClockTicks(statements: seq<Statement>, user: string) {
    forall i, j :: 0 <= i < j < |statements| && InsertsFor(statements[i], user) && InsertsFor(statements[j], user) ==>
      statements[i].now < statements[j].now
  }

  // Everything `user` opened, most recent first, without bound.
  function Opened(statements: seq<Statement>, user: string): seq<Row>
    decreases |statements|
  {
    if statements == [] then []
    else
      var before := Opened(statements[..|statements| - 1], user);
      match statements[|statements| - 1]
      case InsertStatement(u, key, item, now) =>
        if u == user then MoveToFront(before, Row(key, item, now)) else before
      case DeleteStatement(_, _) => before
  }

  // The same with the bound applied after every insert.
  function MruList(statements: seq<Statement>, user: string): seq<Row>
    decreases |statements|
  {
    if statements == [] then []
    else
      var before := MruList(statements[..|statements| - 1], user);
      match statements[|statements| - 1]
      case InsertStatement(u, key, item, now) =>
        if u == user then Truncate(MoveToFront(before, Row(key, item, now))) else before
      case DeleteStatement(_, _) => before
  }

  // ----- lists -----

  lemma {:induction false} RemoveFilters(list: seq<Row>, key: string)
    ensures forall r :: r in Remove(list, key) <==> r in list && r.key != key
  {
    if list != [] {
      RemoveFilters(list[1..], key);
      assert list == [list[0]] + list[1..];
    }
  }

  lemma {:induction false} RemoveKeepsOrder(list: seq<Row>, key: string)
    requires NewestFirst(list)
    ensures NewestFirst(Remove(list, key))
  {
    if list != [] {
      RemoveKeepsOrder(list[1..], key);
      RemoveFilters(list[1..], key);
      var rest := Remove(list[1..], key);
      if list[0].key == key {
        assert Remove(list, key) == rest;
      } else {
        assert Remove(list, key) == [list[0]] + rest && ([list[0]] + rest)[1..] == rest;
      }
    }
  }

  lemma {:induction false} NewestFirstAt(list: seq<Row>, i: nat, j: nat)
    requires NewestFirst(list) && i < j < |list|
    ensures list[i].openedAt > list[j].openedAt && list[i].key != list[j].key
  {
    if i == 0 {
      assert list[1..][j - 1] == list[j];
    } else {
      NewestFirstAt(list[1..], i - 1, j - 1);
    }
  }

  lemma {:induction false} PrefixNewestFirst(list: seq<Row>, m: nat)
    requires NewestFirst(list) && m <= |list|
    ensures NewestFirst(list[..m])
  {
    if m > 0 {
      assert list[..m][1..] == list[1..][..m - 1];
      PrefixNewestFirst(list[1..], m - 1);
    }
  }

  // Removing from a prefix gives a prefix of the removal, one shorter if the key was in it.
  lemma {:induction false} RemoveFromPrefix(list: seq<Row>, m: nat, key: string) returns (n: nat)
    requires m <= |list| && NewestFirst(list)
    ensures n <= |Remove(list, key)| && Remove(list, key)[..n] == Remove(list[..m], key)
    ensures n == m || n == m - 1
    ensures n == m - 1 ==> |Remove(list, key)| == |list| - 1
    ensures |Remove(list, key)| <= |list|
  {
    if list == [] {
      n := 0;
    } else if list[0].key == key {
      Untouched(list[1..], key);
      if m == 0 {
        n := 0;
      } else {
        n := m - 1;
        assert list[..m][1..] == list[1..][..m - 1];
        Untouched(list[1..][..m - 1], key);
      }
    } else if m == 0 {
      var _ := RemoveFromPrefix(list[1..], 0, key);
      n := 0;
    } else {
      assert list[..m][1..] == list[1..][..m - 1];
      var k := RemoveFromPrefix(list[1..], m - 1, key);
      n := k + 1;
    }
  }

  lemma {:induction false} Untouched(list: seq<Row>, key: string)
    requires forall r :: r in list ==> r.key != key
    ensures Remove(list, key) == list
  {
    if list != [] {
      Untouched(list[1..], key);
    }
  }

  lemma {:induction false} ElementsCount(list: seq<Row>)
    requires forall i, j :: 0 <= i < j < |list| ==> list[i] != list[j]
    ensures |Elements(list)| == |list|
  {
    if list != [] {
      ElementsCount(list[1..]);
      assert list == [list[0]] + list[1..];
      assert Elements(list) == {list[0]} + Elements(list[1..]);
    }
  }

  lemma {:induction false} AnswerAt(list: seq<Row>, result: seq<Row>, i: nat)
    requires NewestFirst(list) && AnswersUpTo(Elements(list), result, MAX_RECENTS) && i < |result|
    ensures i < |list| && result[i] == list[i]
  {
    assert forall x: nat :: x < i ==> x < |list| && result[x] == list[x] by {
      forall x: nat | x < i ensures x < |list| && result[x] == list[x] {
        AnswerAt(list, result, x);
      }
    }
    assert result[i] in result;
    var j :| 0 <= j < |list| && list[j] == result[i];
    assert j >= i;
    if j > i {
      NewestFirstAt(list, i, j);
      assert list[i] in list;
      assert list[i] in result;
      var p :| 0 <= p < |result| && result[p] == list[i];
      if p < i {
        NewestFirstAt(list, p, i);
      }
      assert false;
    }
  }

  // With distinct times there is only one answer to the query: the first 20.
  lemma OnlyAnswer(list: seq<Row>, result: seq<Row>)
    requires NewestFirst(list) && Answers(Elements(list), result)
    ensures result == Truncate(list)
  {
    forall i, j | 0 <= i < j < |list| ensures list[i] != list[j] {
      NewestFirstAt(list, i, j);
    }
    ElementsCount(list);
    forall i: nat | i < |result| ensures result[i] == list[i] {
      AnswerAt(list, result, i);
    }
  }

  // ----- with equal timestamps -----

  lemma KeyedRowsAreDistinct(table: Table, user: string, r: Row, r': Row)
    requires WellKeyed(table) && r in RowsOf(table, user) && r' in RowsOf(table, user)
    ensures r.key == r'.key ==> r == r'
  {
  }

  /** Whatever rows the subquery picks: at most 20 stay, they are the rows it picked, no
      dropped row is more recent than a kept one, and other users keep all their rows. */
  lemma PruneUnderTies(table: Table, user: string, result: seq<Row>)
    requires WellKeyed(table) && Answers(RowsOf(table, user), result)
    ensures var after := Prune(table, user, result);
      && WellKeyed(after) && RowsOf(after, user) == Elements(result) && |RowsOf(after, user)| <= MAX_RECENTS
      && (forall kept, gone :: kept in RowsOf(after, user) && gone in RowsOf(table, user) - RowsOf(after, user) ==>
            kept.openedAt >= gone.openedAt)
      && (forall k: (string, string) :: k.0 != user ==>
           (k in after <==> k in table) && (k in table ==> after[k] == table[k]))
  {
    var after := Prune(table, user, result);
    forall r ensures r in RowsOf(after, user) <==> r in Elements(result) {
      if r in RowsOf(after, user) {
        var k :| k in after && k.0 == user && after[k] == r;
        var r' :| r' in result && r'.key == k.1;
        KeyedRowsAreDistinct(table, user, r, r');
      }
      if r in result {
        var k :| k in table && k.0 == user && table[k] == r;
        assert k in after;
      }
    }
    ElementsCount(result);
  }

  lemma {:induction false} NewestRow(rows: set<Row>) returns (newest: Row)
    requires rows != {}
    ensures newest in rows && forall r :: r in rows ==> r.openedAt <= newest.openedAt
  {
    newest :| newest in rows;
    if rows != {newest} {
      assert rows - {newest} != {};
      var other := NewestRow(rows - {newest});
      if other.openedAt > newest.openedAt {
        newest := other;
      }
    }
  }

  // The query always has an answer.
  lemma {:induction false} SomeAnswer(rows: set<Row>, limit: nat) returns (result: seq<Row>)
    ensures AnswersUpTo(rows, result, limit)
    decreases limit
  {
    if rows == {} || limit == 0 {
      result := [];
    } else {
      var newest := NewestRow(rows);
      var rest := SomeAnswer(rows - {newest}, limit - 1);
      result := [newest] + rest;
      assert forall i :: 0 <= i < |rest| ==> rest[i] in rest;
    }
  }

  // The user's other rows that are as recent as `row`.
  function Rivals(rows: set<Row>, row: Row): set<Row> {
    set r | r in rows && r != row && r.openedAt >= row.openedAt
  }

  /** A row, the one just upserted too, is sure to survive the DELETE exactly when fewer
      than 20 other rows of the user are as recent as it is. */
  lemma SurvivesIff(rows: set<Row>, row: Row)
    requires row in rows
    ensures (forall result :: Answers(rows, result) ==> row in result) <==> |Rivals(rows, row)| < MAX_RECENTS
  {
    if |Rivals(rows, row)| >= MAX_RECENTS {
      var result := SomeAnswer(Rivals(rows, row), MAX_RECENTS);
      Subset(Rivals(rows, row), rows);
      assert Answers(rows, result);
      assert row !in result;
    }
    forall result | Answers(rows, result) && row !in result ensures |Rivals(rows, row)| >= MAX_RECENTS {
      ElementsCount(result);
      if |result| == |rows| {
        Subset(Elements(result), rows - {row});
        assert false;
      }
      Subset(Elements(result), Rivals(rows, row));
    }
  }

  lemma {:induction false} Subset(a: set<Row>, b: set<Row>)
    requires a <= b
    ensures |a| <= |b|
  {
    if a != {} {
      var x :| x in a;
      Subset(a - {x}, b - {x});
    }
  }

  // ----- the main invariant -----

  // `list` is what `user` opened, and the table holds its first `m` rows.
  ghost predicate HoldsPrefix(table: Table, user: string, list: seq<Row>, m: nat) {
    && WellKeyed(table)
    && NewestFirst(list)
    && m <= |list| && (m < |list| ==> m >= MAX_RECENTS)
    && RowsOf(table, user) == Elements(list[..m])
  }

  lemma InsertedRows(table: Table, user: string, key: string, item: Item, now: nat)
    requires WellKeyed(table)
    ensures RowsOf(Insert(table, user, key, item, now), user)
         == (set r | r in RowsOf(table, user) && r.key != key) + {Row(key, item, now)}
  {
    var after := Insert(table, user, key, item, now);
    assert after[(user, key)] == Row(key, item, now);
    forall r | r in RowsOf(table, user) && r.key != key ensures r in RowsOf(after, user) {
      var k :| k in table && k.0 == user && table[k] == r;
      assert k in after && after[k] == r;
    }
  }

  lemma ElementsOfRemoval(list: seq<Row>, row: Row)
    ensures Elements([row] + Remove(list, row.key)) == (set r | r in Elements(list) && r.key != row.key) + {row}
  {
    RemoveFilters(list, row.key);
  }

  lemma InsertKeepsPrefix(table: Table, user: string, list: seq<Row>, m: nat, row: Row) returns (m': nat)
    requires HoldsPrefix(table, user, list, m)
    requires forall r :: r in list ==> r.openedAt < row.openedAt
    ensures HoldsPrefix(Insert(table, user, row.key, row.item, row.openedAt), user, MoveToFront(list, row), m')
  {
    var n := RemoveFromPrefix(list, m, row.key);
    m' := n + 1;
    var list' := MoveToFront(list, row);
    assert NewestFirst(list') by {
      RemoveFilters(list, row.key);
      RemoveKeepsOrder(list, row.key);
      assert list'[1..] == Remove(list, row.key);
    }
    assert RowsOf(Insert(table, user, row.key, row.item, row.openedAt), user) == Elements(list'[..m']) by {
      InsertedRows(table, user, row.key, row.item, row.openedAt);
      ElementsOfRemoval(list[..m], row);
      assert list'[..m'] == [row] + Remove(list[..m], row.key);
    }
  }

  lemma PruneKeepsPrefix(table: Table, user: string, list: seq<Row>, m: nat, result: seq<Row>)
    requires HoldsPrefix(table, user, list, m) && Answers(RowsOf(table, user), result)
    ensures HoldsPrefix(Prune(table, user, result), user, list, |Truncate(list)|)
  {
    PrefixNewestFirst(list, m);
    OnlyAnswer(list[..m], result);
    assert Truncate(list[..m]) == Truncate(list) == list[..|Truncate(list)|];
    var after := Prune(table, user, result);
    assert RowsOf(after, user) == Elements(result) && WellKeyed(after) by {
      PruneUnderTies(table, user, result);
    }
  }

  lemma OthersRowsStay(table: Table, user: string, statement: Statement)
    requires WellKeyed(table) && statement.user != user
    ensures WellKeyed(Execute(table, statement))
    ensures RowsOf(Execute(table, statement), user) == RowsOf(table, user)
  {
    var after := Execute(table, statement);
    assert forall k: (string, string) :: k.0 == user ==> (k in after <==> k in table);
    assert forall k: (string, string) :: k in table && k.0 == user ==> after[k] == table[k];
  }

  predicate EndsWithDelete(statements: seq<Statement>, user: string)
    requires statements != []
  {
    var last := statements[|statements| - 1];
    last.DeleteStatement? && last.user == user
  }

  lemma {:induction false} RunHoldsPrefix(statements: seq<Statement>, user: string) returns (m: nat)
    requires Legal(statements) && ClockTicks(statements, user)
    ensures HoldsPrefix(Run(statements), user, Opened(statements, user), m)
    ensures forall r :: r in Opened(statements, user) ==>
      exists i :: 0 <= i < |statements| && InsertsFor(statements[i], user) && statements[i].now == r.openedAt
    ensures statements != [] && EndsWithDelete(statements, user) ==> m == |Truncate(Opened(statements, user))|
    decreases |statements|
  {
    if statements == [] {
      m := 0;
    } else {
      var init, last := statements[..|statements| - 1], statements[|statements| - 1];
      m := RunHoldsPrefix(init, user);
      var list := Opened(init, user);
      forall r | r in list
        ensures exists i :: 0 <= i < |statements| && InsertsFor(statements[i], user) && statements[i].now == r.openedAt
        ensures InsertsFor(last, user) ==> r.openedAt < last.now
      {
        var i :| 0 <= i < |init| && InsertsFor(init[i], user) && init[i].now == r.openedAt;
        assert statements[i] == init[i];
      }
      if last.user != user {
        OthersRowsStay(Run(init), user, last);
      } else if last.InsertStatement? {
        RemoveFilters(list, last.key);
        m := InsertKeepsPrefix(Run(init), user, list, m, Row(last.key, last.item, last.now));
      } else {
        PruneKeepsPrefix(Run(init), user, list, m, last.result);
        m := |Truncate(list)|;
      }
    }
  }

  lemma BoundAfterEveryInsert(list: seq<Row>, row: Row)
    requires NewestFirst(list)
    ensures Truncate(MoveToFront(Truncate(list), row)) == Truncate(MoveToFront(list, row))
  {
    if |list| > MAX_RECENTS {
      var n := RemoveFromPrefix(list, MAX_RECENTS, row.key);
    }
  }

  lemma {:induction false} MruIsTruncated(statements: seq<Statement>, user: string)
    requires Legal(statements) && ClockTicks(statements, user)
    ensures MruList(statements, user) == Truncate(Opened(statements, user))
    decreases |statements|
  {
    if statements != [] {
      var init, last := statements[..|statements| - 1], statements[|statements| - 1];
      MruIsTruncated(init, user);
      var _ := RunHoldsPrefix(init, user);
      if InsertsFor(last, user) {
        BoundAfterEveryInsert(Opened(init, user), Row(last.key, last.item, last.now));
      }
    }
  }

  // ----- main results -----

  /** However the INSERTs and DELETEs of all requests interleave, and whether or not a
      DELETE is still to come: reading the recents of a user whose timestamps are distinct
      answers exactly the move-to-front list, cut off at 20 after every step. */
  lemma ReadsTheMruList(statements: seq<Statement>, user: string, answer: seq<Row>)
    requires Legal(statements) && ClockTicks(statements, user)
    requires Answers(RowsOf(Run(statements), user), answer)
    ensures answer == MruList(statements, user)
  {
    var m := RunHoldsPrefix(statements, user);
    PrefixNewestFirst(Opened(statements, user), m);
    OnlyAnswer(Opened(statements, user)[..m], answer);
    MruIsTruncated(statements, user);
  }

  // The last statement of a user who has any is a DELETE.
  predicate Closed(statements: seq<Statement>, user: string)
    decreases |statements|
  {
    statements == [] ||
    var last := statements[|statements| - 1];
    if last.user == user then last.DeleteStatement? else Closed(statements[..|statements| - 1], user)
  }

  lemma {:induction false} ClosedHoldsTheList(statements: seq<Statement>, user: string)
    requires Legal(statements) && ClockTicks(statements, user) && Closed(statements, user)
    ensures WellKeyed(Run(statements))
    ensures RowsOf(Run(statements), user) == Elements(Truncate(Opened(statements, user)))
    decreases |statements|
  {
    var m := RunHoldsPrefix(statements, user);
    if statements == [] {
      assert RowsOf(Run(statements), user) == {} && Elements(Truncate(Opened(statements, user))) == {};
    } else {
      var init, last := statements[..|statements| - 1], statements[|statements| - 1];
      if last.user == user {
        assert Opened(statements, user)[..m] == Truncate(Opened(statements, user));
      } else {
        ClosedHoldsTheList(init, user);
        OthersRowsStay(Run(init), user, last);
      }
    }
  }

  lemma TablesAgree(a: Table, b: Table)
    requires WellKeyed(a) && WellKeyed(b) && forall user :: RowsOf(a, user) == RowsOf(b, user)
    ensures a == b
  {
    KeysAgree(a, b);
    KeysAgree(b, a);
  }

  lemma KeysAgree(a: Table, b: Table)
    requires WellKeyed(a) && WellKeyed(b) && forall user :: RowsOf(a, user) == RowsOf(b, user)
    ensures forall k :: k in a ==> k in b && b[k] == a[k]
  {
    forall k | k in a ensures k in b && b[k] == a[k] {
      assert a[k] in RowsOf(a, k.0) && a[k] in RowsOf(b, k.0);
      var k' :| k' in b && k'.0 == k.0 && b[k'] == a[k];
      assert k' == k;
    }
  }

  /** Two interleavings with the same inserts in the same order per user, after which every
      user's DELETE is through, end in the same table: the 20 newest rows of every user. */
  lemma InterleavingsAgree(a: seq<Statement>, b: seq<Statement>)
    requires Legal(a) && Legal(b)
    requires forall user :: ClockTicks(a, user) && ClockTicks(b, user)
    requires forall user :: Closed(a, user) && Closed(b, user)
    requires forall user :: Opened(a, user) == Opened(b, user)
    ensures Run(a) == Run(b)
    ensures forall user :: RowsOf(Run(a), user) == Elements(Truncate(Opened(a, user)))
  {
    forall user ensures RowsOf(Run(a), user) == RowsOf(Run(b), user) == Elements(Truncate(Opened(a, user))) {
      ClosedHoldsTheList(a, user);
      ClosedHoldsTheList(b, user);
    }
    ClosedHoldsTheList(a, "");
    ClosedHoldsTheList(b, "");
    TablesAgree(Run(a), Run(b));
  }

  // ----- the serial run -----

  function Inserts(statements: seq<Statement>): seq<Statement>
    decreases |statements|
  {
    if statements == [] then []
    else
      var init, last := statements[..|statements| - 1], statements[|statements| - 1];
      if last.InsertStatement? then Inserts(init) + [last] else Inserts(init)
  }

  // Whole upserts, one after the other.
  predicate Serial(statements: seq<Statement>)
    decreases |statements|
  {
    var n := |statements|;
    n == 0 || (
      && n >= 2 && statements[n - 2].InsertStatement? && statements[n - 1].DeleteStatement?
      && statements[n - 2].user == statements[n - 1].user && Serial(statements[..n - 2]))
  }

  lemma {:induction false} SerialIsClosed(statements: seq<Statement>, user: string)
    requires Serial(statements)
    ensures Closed(statements, user)
    decreases |statements|
  {
    var n := |statements|;
    if n > 0 {
      SerialIsClosed(statements[..n - 2], user);
      assert statements[..n - 1][..n - 2] == statements[..n - 2] && statements[..n - 1][n - 2] == statements[n - 2];
    }
  }

  lemma {:induction false} OpenedByInserts(statements: seq<Statement>, user: string)
    ensures Opened(Inserts(statements), user) == Opened(statements, user)
    decreases |statements|
  {
    if statements != [] {
      var init, last := statements[..|statements| - 1], statements[|statements| - 1];
      OpenedByInserts(init, user);
      if last.InsertStatement? {
        assert (Inserts(init) + [last])[..|Inserts(init)|] == Inserts(init);
      }
    }
  }

  lemma {:induction false} TicksOfInserts(statements: seq<Statement>, user: string)
    ensures ClockTicks(statements, user) <==> ClockTicks(Inserts(statements), user)
    decreases |statements|
  {
    if statements != [] {
      var init, last := statements[..|statements| - 1], statements[|statements| - 1];
      TicksOfInserts(init, user);
      InsertsAreMembers(init);
      assert statements == init + [last];
      TicksAppend(init, last, user);
      TicksAppend(Inserts(init), last, user);
    }
  }

  lemma {:induction false} InsertsAreMembers(statements: seq<Statement>)
    ensures forall st :: st in Inserts(statements) <==> st in statements && st.InsertStatement?
    decreases |statements|
  {
    if statements != [] {
      InsertsAreMembers(statements[..|statements| - 1]);
      assert statements == statements[..|statements| - 1] + [statements[|statements| - 1]];
    }
  }

  lemma TicksAppend(init: seq<Statement>, last: Statement, user: string)
    ensures ClockTicks(init + [last], user) <==>
      ClockTicks(init, user) &&
      (InsertsFor(last, user) ==> forall st :: st in init && InsertsFor(st, user) ==> st.now < last.now)
  {
    var all := init + [last];
    assert forall i :: 0 <= i < |init| ==> all[i] == init[i];
    assert all[|init|] == last;
    if ClockTicks(all, user) && InsertsFor(last, user) {
      forall st | st in init && InsertsFor(st, user) ensures st.now < last.now {
        var i :| 0 <= i < |init| && init[i] == st;
        assert all[i].now < all[|init|].now;
      }
    }
  }

  // One upsert more, run whole.
  function WholeUpsert(before: seq<Statement>, insert: Statement, result: seq<Row>): (r: seq<Statement>)
    ensures |r| == |before| + 2 && r[..|r| - 2] == before && r[..|r| - 1] == before + [insert]
    ensures r[|r| - 2] == insert && r[|r| - 1] == DeleteStatement(insert.user, result)
  {
    before + [insert] + [DeleteStatement(insert.user, result)]
  }

  lemma UpsertIsLegal(before: seq<Statement>, insert: Statement, result: seq<Row>)
    requires Legal(before) && insert.InsertStatement?
    requires Answers(RowsOf(Run(before + [insert]), insert.user), result)
    ensures Legal(WholeUpsert(before, insert, result))
  {
    var half := before + [insert];
    assert half[..|half| - 1] == before;
    assert Legal(half);
  }

  lemma UpsertInserts(before: seq<Statement>, insert: Statement, result: seq<Row>)
    requires insert.InsertStatement?
    ensures Inserts(WholeUpsert(before, insert, result)) == Inserts(before) + [insert]
  {
    var half := before + [insert];
    assert half[..|half| - 1] == before;
  }

  // Some serial run of given inserts.
  lemma {:induction false} SerialRun(inserts: seq<Statement>) returns (serial: seq<Statement>)
    requires forall st :: st in inserts ==> st.InsertStatement?
    ensures Serial(serial) && Legal(serial) && Inserts(serial) == inserts
    decreases |inserts|
  {
    if inserts == [] {
      serial := [];
    } else {
      var init, last := inserts[..|inserts| - 1], inserts[|inserts| - 1];
      var before := SerialRun(init);
      var result := SomeAnswer(RowsOf(Run(before + [last]), last.user), MAX_RECENTS);
      serial := WholeUpsert(before, last, result);
      UpsertIsLegal(before, last, result);
      UpsertInserts(before, last, result);
      assert inserts == init + [last];
    }
  }

  /** Interleaving is serialisable: whenever every user's DELETE is through, the table is the
      one that the same upserts leave when each runs whole before the next one starts. */
  lemma InterleavingIsSerial(statements: seq<Statement>) returns (serial: seq<Statement>)
    requires Legal(statements) && forall user :: ClockTicks(statements, user) && Closed(statements, user)
    ensures Serial(serial) && Legal(serial) && Inserts(serial) == Inserts(statements)
    ensures Run(serial) == Run(statements)
  {
    InsertsAreMembers(statements);
    serial := SerialRun(Inserts(statements));
    forall user
      ensures ClockTicks(serial, user) && Closed(serial, user) && Opened(serial, user) == Opened(statements, user)
    {
      TicksOfInserts(statements, user);
      TicksOfInserts(serial, user);
      SerialIsClosed(serial, user);
      OpenedByInserts(statements, user);
      OpenedByInserts(serial, user);
    }
    InterleavingsAgree(serial, statements);
  }

  // ----- the table as the requests use it -----

  method Newest(rows: set<Row>) returns (newest: Row)
    requires rows != {}
    ensures newest in rows && forall r :: r in rows ==> newest.openedAt >= r.openedAt
  {
    newest := AnyOf(rows);
    var todo := rows - {newest};
    while todo != {}
      invariant todo <= rows && newest in rows
      invariant forall r :: r in rows - todo ==> newest.openedAt >= r.openedAt
      decreases todo
    {
      var r := AnyOf(todo);
      if r.openedAt > newest.openedAt {
        newest := r;
      }
      todo := todo - {r};
    }
  }

  // The result of a query that takes the newest first.
  ghost predicate Sorted(result: seq<Row>) {
    forall i, j :: 0 <= i < j < |result| ==> result[i] != result[j] && result[i].openedAt >= result[j].openedAt
  }

  ghost predicate NoOlder(result: seq<Row>, rest: set<Row>) {
    forall r, k :: r in rest && k in result ==> k.openedAt >= r.openedAt && k != r
  }

  lemma OneMore(result: seq<Row>, rest: set<Row>, newest: Row)
    requires Sorted(result) && NoOlder(result, rest) && newest in rest
    requires forall r :: r in rest ==> newest.openedAt >= r.openedAt
    ensures Sorted(result + [newest]) && NoOlder(result + [newest], rest - {newest})
  {
    assert forall i :: 0 <= i < |result| ==> result[i] in result;
  }

  method Select(rows: set<Row>, limit: nat) returns (result: seq<Row>)
    ensures AnswersUpTo(rows, result, limit)
  {
    result := [];
    var rest := rows;
    while rest != {} && |result| < limit
      invariant |result| <= limit && |result| + |rest| == |rows| && rest <= rows
      invariant forall r :: r in rows <==> r in result || r in rest
      invariant Sorted(result) && NoOlder(result, rest)
      decreases rest
    {
      var newest := Newest(rest);
      OneMore(result, rest, newest);
      result, rest := result + [newest], rest - {newest};
    }
  }

  // One statement more.
  lemma Committed(history: seq<Statement>, statement: Statement)
    requires Legal(history)
    requires statement.DeleteStatement? ==> Answers(RowsOf(Run(history), statement.user), statement.result)
    ensures Legal(history + [statement]) && Run(history + [statement]) == Execute(Run(history), statement)
  {
    assert (history + [statement])[..|history|] == history;
  }

  class RecentsTable {
    var table: Table
    ghost var history: seq<Statement>

    // The table is what its statements made of it.
    ghost predicate Valid()
      reads this
    {
      table == Run(history) && Legal(history)
    }

    constructor ()
      ensures Valid() && history == []
    {
      table, history := map[], [];
    }

    method ExecuteInsert(user: string, key: string, item: Item, now: nat)
      requires Valid()
      modifies this
      ensures Valid() && history == old(history) + [InsertStatement(user, key, item, now)]
    {
      Committed(history, InsertStatement(user, key, item, now));
      table := table[(user, key) := Row(key, item, now)];
      history := history + [InsertStatement(user, key, item, now)];
    }

    method ExecuteDelete(user: string) returns (ghost kept: seq<Row>)
      requires Valid()
      modifies this
      ensures Valid() && history == old(history) + [DeleteStatement(user, kept)]
      ensures Answers(RowsOf(old(table), user), kept)
    {
      var newest := Select(RowsOf(table, user), MAX_RECENTS);
      Committed(history, DeleteStatement(user, newest));
      table := map k | k in table && (k.0 != user || exists r :: r in newest && r.key == k.1) :: table[k];
      kept := newest;
      history := history + [DeleteStatement(user, kept)];
    }

    /** Two statements that commit separately; here nothing comes between them. */
    method UpsertRecent(user: string, key: string, item: Item, now: nat) returns (ghost kept: seq<Row>)
      requires Valid()
      modifies this
      ensures Valid() && history == old(history) + [InsertStatement(user, key, item, now), DeleteStatement(user, kept)]
    {
      ExecuteInsert(user, key, item, now);
      kept := ExecuteDelete(user);
    }

    /** What the user reads: the newest rows, and with distinct times the move-to-front list. */
    method GetRecents(user: string) returns (answer: seq<Row>)
      requires Valid()
      ensures Answers(RowsOf(table, user), answer)
      ensures ClockTicks(history, user) ==> answer == MruList(history, user)
    {
      answer := Select(RowsOf(table, user), MAX_RECENTS);
      if ClockTicks(history, user) {
        ReadsTheMruList(history, user, answer);
      }
    }
  }
}
