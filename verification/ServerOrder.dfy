/** The order of the widget's rows, and what it gives the server colours
    (windows/CodexMonitorWidget/src/main.c, `rebuild_directory_rows`, `sort_directory_rows`,
    `compare_directory_rows`, `server_identity_key`). */
module ServerOrder {
  import opened Sequences
  import opened ServerColors

  /** One row with the indexes of its sessions; `tie` stands for the start times, positions and directories
      compared last. */
  datatype Row = Row(serverId: string, serverName: string, directory: string, tie: int, sessions: seq<nat>)

  datatype Session = Session(serverId: string, serverName: string, directory: string)

  // ---- keys and comparisons --------------------------------------------------------------------------------

  function IdentityKey(serverId: string, serverName: string): string {
    if serverId != "" then serverId else if serverName != "" then serverName else "local"
  }

  function KeyOfRow(r: Row): string { IdentityKey(r.serverId, r.serverName) }

  function KeyOfSession(s: Session): string { IdentityKey(s.serverId, s.serverName) }

  /** `strcmp`: negative, zero or positive. */
  function StrCmp(a: string, b: string): int {
    if a == "" && b == "" then 0
    else if a == "" then -1
    else if b == "" then 1
    else if a[0] < b[0] then -1
    else if b[0] < a[0] then 1
    else StrCmp(a[1..], b[1..])
  }

  function SortName(r: Row): string { if r.serverName != "" then r.serverName else r.serverId }

  function CompareServers(a: Row, b: Row): int {
    if StrCmp(SortName(a), SortName(b)) != 0 then StrCmp(SortName(a), SortName(b)) else StrCmp(a.serverId, b.serverId)
  }

  function CompareRows(a: Row, b: Row): int {
    if CompareServers(a, b) != 0 then CompareServers(a, b) else a.tie - b.tie
  }

  /** The insertion keeps a row behind every row it is not smaller than. */
  predicate NotAfter(a: Row, b: Row) { CompareRows(b, a) >= 0 }

  predicate ServersNotAfter(a: Row, b: Row) { CompareServers(b, a) >= 0 }

  lemma {:induction false} StrCmpOrders(a: string, b: string)
    ensures StrCmp(a, b) == -StrCmp(b, a)
    ensures StrCmp(a, b) == 0 <==> a == b
  {
    if a != "" && b != "" && a[0] == b[0] {
      StrCmpOrders(a[1..], b[1..]);
      assert a == [a[0]] + a[1..] && b == [b[0]] + b[1..];
    }
  }

  lemma {:induction false} StrCmpTransitive(a: string, b: string, c: string)
    requires StrCmp(a, b) <= 0 && StrCmp(b, c) <= 0
    ensures StrCmp(a, c) <= 0
  {
    if a != "" && b != "" && c != "" && a[0] == b[0] == c[0] {
      StrCmpTransitive(a[1..], b[1..], c[1..]);
    }
  }

  lemma ServersOrder()
    ensures IsOrder(ServersNotAfter)
  {
    forall a: Row, b: Row ensures ServersNotAfter(a, b) || ServersNotAfter(b, a) {
      StrCmpOrders(SortName(a), SortName(b));
      StrCmpOrders(a.serverId, b.serverId);
    }
    forall a: Row, b: Row, c: Row | ServersNotAfter(a, b) && ServersNotAfter(b, c) ensures ServersNotAfter(a, c) {
      ServersTransitive(a, b, c);
    }
  }

  lemma ServersTransitive(a: Row, b: Row, c: Row)
    requires ServersNotAfter(a, b) && ServersNotAfter(b, c)
    ensures ServersNotAfter(a, c)
  {
    StrCmpOrders(SortName(a), SortName(b));
    StrCmpOrders(SortName(b), SortName(c));
    StrCmpOrders(SortName(a), SortName(c));
    StrCmpTransitive(SortName(a), SortName(b), SortName(c));
    StrCmpOrders(a.serverId, b.serverId);
    StrCmpOrders(b.serverId, c.serverId);
    StrCmpOrders(a.serverId, c.serverId);
    if SortName(a) == SortName(b) == SortName(c) {
      StrCmpTransitive(a.serverId, b.serverId, c.serverId);
    }
  }

  /** Rows that tie as servers have the same key. */
  lemma TiesShareTheKey(a: Row, b: Row)
    requires ServersNotAfter(a, b) && ServersNotAfter(b, a)
    ensures KeyOfRow(a) == KeyOfRow(b)
  {
    StrCmpOrders(SortName(a), SortName(b));
    StrCmpOrders(a.serverId, b.serverId);
  }

  // ---- the rows in order ---------------------------------------------------------------------------------------

  function SortedRows(rows: seq<Row>): seq<Row> { StableSort(rows, NotAfter) }

  /** Where the value ends up, told by what it is compared with. */
  lemma {:induction false} InsertsAt(sorted: seq<Row>, k: nat, value: Row, result: seq<Row>)
    requires k <= |sorted| && |result| == |sorted| + 1 && result[k] == value
    requires (forall i | 0 <= i < k :: result[i] == sorted[i])
    requires (forall i | k <= i < |sorted| :: result[i + 1] == sorted[i])
    requires forall i | k <= i < |sorted| :: !NotAfter(sorted[i], value)
    requires k > 0 ==> NotAfter(sorted[k - 1], value)
    ensures result == Insert(sorted, value, NotAfter)
  {
    if k == |sorted| {
      assert result == sorted + [value];
    } else {
      assert !NotAfter(Last(sorted), value);
      InsertsAt(Front(sorted), k, value, Front(result));
      assert result == Front(result) + [Last(sorted)];
    }
  }

  /** One row moves down past those it is smaller than. */
  method InsertRow(rows: array<Row>, row: nat)
    requires row < rows.Length
    modifies rows
    ensures rows[..row + 1] == Insert(old(rows[..row]), old(rows[row]), NotAfter)
    ensures forall i | row < i < rows.Length :: rows[i] == old(rows[i])
  {
    ghost var sorted := rows[..row];
    var value, k := rows[row], row;
    while k > 0 && !NotAfter(rows[k - 1], value)
      invariant 0 <= k <= row && forall i | row < i < rows.Length :: rows[i] == old(rows[i])
      invariant forall i | 0 <= i < k :: rows[i] == sorted[i]
      invariant forall i | k <= i < row :: rows[i + 1] == sorted[i] && !NotAfter(sorted[i], value)
    {
      rows[k] := rows[k - 1];
      k := k - 1;
    }
    rows[k] := value;
    InsertsAt(sorted, k, value, rows[..row + 1]);
  }

  /** The source's insertion sort, in place. */
  method SortDirectoryRows(rows: array<Row>)
    modifies rows
    ensures rows[..] == SortedRows(old(rows[..]))
  {
    ghost var start := rows[..];
    for row := 0 to rows.Length
      invariant rows[..row] == SortedRows(start[..row])
      invariant forall i | row <= i < rows.Length :: rows[i] == start[i]
    {
      SortsOneMore(start, row);
      InsertRow(rows, row);
    }
    assert rows[..rows.Length] == rows[..] && start[..rows.Length] == start;
  }

  lemma SortsOneMore(start: seq<Row>, row: nat)
    requires row < |start|
    ensures SortedRows(start[..row + 1]) == Insert(SortedRows(start[..row]), start[row], NotAfter)
  {
    SplitAt(start, row);
    SortPush(start[..row], start[row], NotAfter);
  }

  lemma ServersDecideFirst(a: Row, b: Row)
    ensures NotAfter(a, b) ==> ServersNotAfter(a, b)
    ensures !NotAfter(a, b) ==> ServersNotAfter(b, a)
  {
    StrCmpOrders(SortName(a), SortName(b));
    StrCmpOrders(a.serverId, b.serverId);
  }

  /** The insertion sort orders the rows by server, whatever decides between rows of one server. */
  lemma SortOrdersServers(rows: seq<Row>)
    ensures Sorted(SortedRows(rows), ServersNotAfter)
  {
    ServersOrder();
    forall a: Row, b: Row
      ensures (NotAfter(a, b) ==> ServersNotAfter(a, b)) && (!NotAfter(a, b) ==> ServersNotAfter(b, a))
    {
      ServersDecideFirst(a, b);
    }
    SortsCoarsely(rows, NotAfter, ServersNotAfter);
  }

  /** The rows of one server come in the order of their ties. */
  lemma SortOrdersTies(rows: seq<Row>, i: nat, j: nat)
    requires i < j < |SortedRows(rows)|
    ensures var a, b := SortedRows(rows)[i], SortedRows(rows)[j];
      a.serverId == b.serverId && a.serverName == b.serverName ==> a.tie <= b.tie
  {
    RowsOrder();
    SortSorts(rows, NotAfter);
    StrCmpOrders(SortName(SortedRows(rows)[j]), SortName(SortedRows(rows)[i]));
    StrCmpOrders(SortedRows(rows)[j].serverId, SortedRows(rows)[i].serverId);
  }

  lemma RowsOrder()
    ensures IsOrder(NotAfter)
  {
    ServersOrder();
    forall a: Row, b: Row ensures NotAfter(a, b) || NotAfter(b, a) {
      BothWays(a, b);
    }
    forall a: Row, b: Row, c: Row | NotAfter(a, b) && NotAfter(b, c) ensures NotAfter(a, c) {
      RowsTransitive(a, b, c);
    }
  }

  lemma BothWays(a: Row, b: Row)
    ensures CompareServers(a, b) == -CompareServers(b, a)
  {
    StrCmpOrders(SortName(a), SortName(b));
    StrCmpOrders(a.serverId, b.serverId);
  }

  lemma RowsTransitive(a: Row, b: Row, c: Row)
    requires NotAfter(a, b) && NotAfter(b, c)
    ensures NotAfter(a, c)
  {
    BothWays(a, b);
    BothWays(b, c);
    BothWays(a, c);
    ServersTransitive(a, b, c);
    if CompareServers(c, a) == 0 {
      ServersTransitive(b, c, a);
      ServersTransitive(c, a, b);
    }
  }

  // ---- one name per server ---------------------------------------------------------------------------------------

  function RowKeysOf(rows: seq<Row>): seq<string> { seq(|rows|, i requires 0 <= i < |rows| => KeyOfRow(rows[i])) }

  /** Rows of one server agree on its id and its name. */
  ghost predicate OneNamePerServer(rows: seq<Row>) {
    forall a, b | a in rows && b in rows && KeyOfRow(a) == KeyOfRow(b) ::
      a.serverId == b.serverId && a.serverName == b.serverName
  }

  lemma OneBlockAfterSorting(rows: seq<Row>)
    requires OneNamePerServer(rows)
    ensures OneBlockPerServer(RowKeysOf(SortedRows(rows)))
  {
    var sorted := SortedRows(rows);
    SortOrdersServers(rows);
    SortMembers(rows, NotAfter);
    ServersOrder();
    forall i, j, k | 0 <= i < j < k < |sorted| && KeyOfRow(sorted[i]) == KeyOfRow(sorted[k])
      ensures KeyOfRow(sorted[j]) == KeyOfRow(sorted[i])
    {
      assert sorted[i] in rows && sorted[k] in rows;
      assert ServersNotAfter(sorted[i], sorted[j]) && ServersNotAfter(sorted[j], sorted[k]);
      assert SortName(sorted[k]) == SortName(sorted[i]) && sorted[k].serverId == sorted[i].serverId;
      TiesShareTheKey(sorted[i], sorted[j]);
    }
  }

  // ---- from sessions to rows ------------------------------------------------------------------------------

  function DirectoryOf(s: Session): string { if s.directory != "" then s.directory else "-" }

  /** The row belongs to the session's server and directory. */
  predicate IsFor(r: Row, s: Session) { r.directory == DirectoryOf(s) && KeyOfRow(r) == KeyOfSession(s) }

  /** The first row for the session, or -1. */
  function TargetRow(rows: seq<Row>, s: Session): (row: int)
    ensures -1 <= row < |rows| && (row >= 0 ==> IsFor(rows[row], s))
    ensures forall i | 0 <= i < (if row < 0 then |rows| else row) :: !IsFor(rows[i], s)
  {
    if rows == [] then -1
    else
      var row := TargetRow(Front(rows), s);
      if row >= 0 then row else if IsFor(Last(rows), s) then |rows| - 1 else -1
  }

  function NewRow(s: Session, tie: int, index: nat): Row {
    Row(s.serverId, s.serverName, DirectoryOf(s), tie, [index])
  }

  function WithSession(r: Row, index: nat): Row { r.(sessions := r.sessions + [index]) }

  function Grouped(rows: seq<Row>, s: Session, ties: nat -> int, index: nat): seq<Row> {
    var row := TargetRow(rows, s);
    if row < 0 then rows + [NewRow(s, ties(|rows|), index)] else rows[row := WithSession(rows[row], index)]
  }

  /** Sessions of one server and directory share a row, which takes the first one's names. `ties` ranks the
      rows by what is compared last. */
  function GroupRows(sessions: seq<Session>, ties: nat -> int): seq<Row> {
    if sessions == [] then []
    else Grouped(GroupRows(Front(sessions), ties), Last(sessions), ties, |sessions| - 1)
  }

  lemma FirstFound(rows: seq<Row>, s: Session, row: int)
    requires -1 <= row < |rows| && (row >= 0 ==> IsFor(rows[row], s))
    requires forall i | 0 <= i < (if row < 0 then |rows| else row) :: !IsFor(rows[i], s)
    ensures TargetRow(rows, s) == row
  {
    var found := TargetRow(rows, s);
    assert found >= 0 ==> IsFor(rows[found], s);
  }

  lemma OneMoreSession(sessions: seq<Session>, ties: nat -> int, index: nat)
    requires index < |sessions|
    ensures GroupRows(sessions[..index + 1], ties)
            == Grouped(GroupRows(sessions[..index], ties), sessions[index], ties, index)
  {
    assert Front(sessions[..index + 1]) == sessions[..index];
  }

  method BuildRows(sessions: seq<Session>, ties: nat -> int) returns (rows: seq<Row>)
    ensures rows == GroupRows(sessions, ties)
  {
    rows := [];
    for index := 0 to |sessions|
      invariant rows == GroupRows(sessions[..index], ties)
    {
      var s := sessions[index];
      var targetRow := -1;
      for row := 0 to |rows|
        invariant targetRow == -1 && forall i | 0 <= i < row :: !IsFor(rows[i], s)
      {
        if IsFor(rows[row], s) {
          targetRow := row;
          break;
        }
      }
      FirstFound(rows, s, targetRow);
      OneMoreSession(sessions, ties, index);
      if targetRow < 0 {
        targetRow, rows := |rows|, rows + [NewRow(s, ties(|rows|), index)];
      } else {
        rows := rows[targetRow := WithSession(rows[targetRow], index)];
      }
    }
    assert sessions[..|sessions|] == sessions;
  }

  function GroupOf(r: Row): (string, string) { (r.directory, KeyOfRow(r)) }

  function GroupOfSession(s: Session): (string, string) { (DirectoryOf(s), KeyOfSession(s)) }

  ghost predicate Ascend(indexes: seq<nat>) { forall i, j | 0 <= i < j < |indexes| :: indexes[i] < indexes[j] }

  predicate InGroup(sessions: seq<Session>, index: nat, group: (string, string)) {
    index < |sessions| && GroupOfSession(sessions[index]) == group
  }

  /** The row lists exactly the sessions of its server and directory, in order, and has the first one's names. */
  ghost predicate Collects(r: Row, sessions: seq<Session>) {
    && (forall index: nat :: index in r.sessions <==> InGroup(sessions, index, GroupOf(r)))
    && Ascend(r.sessions) && r.sessions != [] && r.sessions[0] < |sessions|
    && r.serverId == sessions[r.sessions[0]].serverId && r.serverName == sessions[r.sessions[0]].serverName
  }

  ghost predicate HasRow(rows: seq<Row>, s: Session) { exists r :: r in rows && GroupOf(r) == GroupOfSession(s) }

  /** The rows divide the sessions up by server and directory. */
  ghost predicate DivideUp(rows: seq<Row>, sessions: seq<Session>) {
    Distinct(rows, GroupOf) && (forall r <- rows :: Collects(r, sessions)) && forall s <- sessions :: HasRow(rows, s)
  }

  lemma OneMoreInGroup(sessions: seq<Session>, s: Session, index: nat, group: (string, string))
    ensures InGroup(sessions + [s], index, group) <==>
      InGroup(sessions, index, group) || (index == |sessions| && GroupOfSession(s) == group)
  {
  }

  lemma CollectsOneMore(r: Row, sessions: seq<Session>, s: Session)
    requires Collects(r, sessions)
    ensures Collects(if IsFor(r, s) then WithSession(r, |sessions|) else r, sessions + [s])
  {
    var after := if IsFor(r, s) then WithSession(r, |sessions|) else r;
    assert after.sessions[0] == r.sessions[0] && GroupOf(after) == GroupOf(r);
    assert Ascend(after.sessions) by {
      assert forall i | 0 <= i < |r.sessions| :: r.sessions[i] in r.sessions;
    }
    forall index: nat ensures index in after.sessions <==> InGroup(sessions + [s], index, GroupOf(r)) {
      OneMoreInGroup(sessions, s, index, GroupOf(r));
    }
  }

  lemma CollectsItself(sessions: seq<Session>, s: Session, tie: int)
    requires forall t <- sessions :: GroupOfSession(t) != GroupOfSession(s)
    ensures Collects(NewRow(s, tie, |sessions|), sessions + [s])
  {
    var row := NewRow(s, tie, |sessions|);
    assert GroupOf(row) == GroupOfSession(s);
    forall index: nat ensures index in row.sessions <==> InGroup(sessions + [s], index, GroupOf(row)) {
      OneMoreInGroup(sessions, s, index, GroupOf(row));
      assert index < |sessions| ==> sessions[index] in sessions;
    }
  }

  lemma RowsStay(rows: seq<Row>, after: seq<Row>, sessions: seq<Session>, s: Session)
    requires forall t <- sessions :: HasRow(rows, t)
    requires |rows| <= |after| && forall i | 0 <= i < |rows| :: GroupOf(after[i]) == GroupOf(rows[i])
    requires HasRow(after, s)
    ensures forall t <- sessions + [s] :: HasRow(after, t)
  {
    forall t <- sessions + [s] ensures HasRow(after, t) {
      if t in sessions {
        var i :| 0 <= i < |rows| && GroupOf(rows[i]) == GroupOfSession(t);
        assert after[i] in after;
      }
    }
  }

  /** A session joins the row of its group. */
  lemma JoinsRow(rows: seq<Row>, sessions: seq<Session>, s: Session, row: nat)
    requires DivideUp(rows, sessions) && row < |rows| && IsFor(rows[row], s)
    ensures DivideUp(rows[row := WithSession(rows[row], |sessions|)], sessions + [s])
  {
    var after := rows[row := WithSession(rows[row], |sessions|)];
    forall i | 0 <= i < |rows| ensures GroupOf(after[i]) == GroupOf(rows[i]) && Collects(after[i], sessions + [s]) {
      assert rows[i] in rows;
      assert i != row ==> GroupOf(rows[i]) != GroupOf(rows[row]);
      CollectsOneMore(rows[i], sessions, s);
    }
    assert after[row] in after;
    RowsStay(rows, after, sessions, s);
  }

  /** A session of a new group gets a row of its own. */
  lemma OpensRow(rows: seq<Row>, sessions: seq<Session>, s: Session, tie: int)
    requires DivideUp(rows, sessions) && forall r <- rows :: !IsFor(r, s)
    ensures DivideUp(rows + [NewRow(s, tie, |sessions|)], sessions + [s])
  {
    var row := NewRow(s, tie, |sessions|);
    var after := rows + [row];
    forall t <- sessions ensures GroupOfSession(t) != GroupOfSession(s) {
      assert HasRow(rows, t);
    }
    CollectsItself(sessions, s, tie);
    forall i | 0 <= i < |rows| ensures GroupOf(rows[i]) != GroupOf(row) && Collects(rows[i], sessions + [s]) {
      assert rows[i] in rows;
      CollectsOneMore(rows[i], sessions, s);
    }
    assert after[|rows|] in after;
    RowsStay(rows, after, sessions, s);
  }

  /** No two rows share server and directory, every session's have a row, and each row lists exactly its own
      sessions. */
  lemma {:induction false} RowsDivideUp(sessions: seq<Session>, ties: nat -> int)
    ensures DivideUp(GroupRows(sessions, ties), sessions)
  {
    if sessions != [] {
      var rows, s := GroupRows(Front(sessions), ties), Last(sessions);
      RowsDivideUp(Front(sessions), ties);
      assert sessions == Front(sessions) + [s];
      var row := TargetRow(rows, s);
      if row < 0 {
        OpensRow(rows, Front(sessions), s, ties(|rows|));
      } else {
        JoinsRow(rows, Front(sessions), s, row);
      }
    }
  }

  /** The displayed rows still do. */
  lemma DisplayedDivideUp(sessions: seq<Session>, ties: nat -> int)
    ensures DivideUp(SortedRows(GroupRows(sessions, ties)), sessions)
  {
    var rows := GroupRows(sessions, ties);
    RowsDivideUp(sessions, ties);
    SortDistinct(rows, NotAfter, GroupOf);
    SortMembers(rows, NotAfter);
    forall s <- sessions ensures HasRow(SortedRows(rows), s) {
      assert HasRow(rows, s);
    }
  }

  lemma {:induction false} FewRows(sessions: seq<Session>, ties: nat -> int)
    ensures |GroupRows(sessions, ties)| <= |sessions|
  {
    if sessions != [] {
      FewRows(Front(sessions), ties);
    }
  }

  /** The servers with rows are exactly the servers with sessions, so which are active can be told from the
      rows. */
  lemma ActiveServers(sessions: seq<Session>, ties: nat -> int, key: string)
    ensures (exists r :: r in GroupRows(sessions, ties) && KeyOfRow(r) == key)
            <==> (exists s :: s in sessions && KeyOfSession(s) == key)
  {
    RowsDivideUp(sessions, ties);
    if r :| r in GroupRows(sessions, ties) && KeyOfRow(r) == key {
      FirstOfRow(r, sessions);
    }
    if s :| s in sessions && KeyOfSession(s) == key {
      assert HasRow(GroupRows(sessions, ties), s);
    }
  }

  lemma FirstOfRow(r: Row, sessions: seq<Session>)
    requires Collects(r, sessions)
    ensures sessions[r.sessions[0]] in sessions && KeyOfSession(sessions[r.sessions[0]]) == KeyOfRow(r)
  {
  }

  /** Sessions of one server agree on its id and its name. */
  ghost predicate OneNamePerSession(sessions: seq<Session>) {
    forall a, b | a in sessions && b in sessions && KeyOfSession(a) == KeyOfSession(b) ::
      a.serverId == b.serverId && a.serverName == b.serverName
  }

  lemma RowsKeepOneName(sessions: seq<Session>, ties: nat -> int)
    requires OneNamePerSession(sessions)
    ensures OneNamePerServer(GroupRows(sessions, ties))
  {
    var rows := GroupRows(sessions, ties);
    RowsDivideUp(sessions, ties);
    forall a, b | a in rows && b in rows && KeyOfRow(a) == KeyOfRow(b)
      ensures a.serverId == b.serverId && a.serverName == b.serverName
    {
      FirstOfRow(a, sessions);
      FirstOfRow(b, sessions);
    }
  }

  function DisplayedKeys(sessions: seq<Session>, ties: nat -> int): seq<string> {
    RowKeysOf(SortedRows(GroupRows(sessions, ties)))
  }

  lemma DisplayedKeysAlternate(sessions: seq<Session>, ties: nat -> int)
    requires OneNamePerSession(sessions)
    ensures Alternating(OrderedKeys(DisplayedKeys(sessions, ties)))
  {
    RowsKeepOneName(sessions, ties);
    OneBlockAfterSorting(GroupRows(sessions, ties));
    BlocksAlternate(DisplayedKeys(sessions, ties));
  }

  /** Grouping, sorting and colouring. When sessions of one server agree on its names, all neighbouring
      servers contrast, whatever colours they had. */
  method RebuildDirectoryRows(table: ServerColorTable, sessions: seq<Session>, ties: nat -> int, rolls: nat -> nat)
    returns (rows: array<Row>)
    requires table.Valid() && |sessions| <= MAX_SESSIONS
    modifies table`count, table.colors
    ensures table.Valid() && fresh(rows) && rows[..] == SortedRows(GroupRows(sessions, ties))
    ensures DivideUp(rows[..], sessions)
    ensures Settled(table.Contents(), DisplayedKeys(sessions, ties)) <==>
      Alternating(OrderedKeys(DisplayedKeys(sessions, ties)))
    ensures OneNamePerSession(sessions) ==> Settled(table.Contents(), DisplayedKeys(sessions, ties))
    ensures old(Settled(table.Contents(), DisplayedKeys(sessions, ties))) ==> table.Contents() == old(table.Contents())
  {
    var grouped := BuildRows(sessions, ties);
    rows := new Row[|grouped|](i requires 0 <= i < |grouped| => grouped[i]);
    assert rows[..] == grouped;
    SortDirectoryRows(rows);
    DisplayedDivideUp(sessions, ties);
    ColorRows(table, RowKeysOf(rows[..]), sessions, ties, rolls);
  }

  method ColorRows(
      table: ServerColorTable, keys: seq<string>, ghost sessions: seq<Session>, ghost ties: nat -> int,
      rolls: nat -> nat)
    requires table.Valid() && |sessions| <= MAX_SESSIONS && keys == DisplayedKeys(sessions, ties)
    modifies table`count, table.colors
    ensures table.Valid()
    ensures Settled(table.Contents(), keys) <==> Alternating(OrderedKeys(keys))
    ensures OneNamePerSession(sessions) ==> Settled(table.Contents(), keys)
    ensures old(Settled(table.Contents(), keys)) ==> table.Contents() == old(table.Contents())
  {
    FewRows(sessions, ties);
    SortedCount(GroupRows(sessions, ties));
    table.SyncServerColors(keys, rolls);
    if OneNamePerSession(sessions) {
      DisplayedKeysAlternate(sessions, ties);
    }
  }

  lemma SortedCount(rows: seq<Row>)
    ensures |SortedRows(rows)| == |rows|
  {
    SortPermutes(rows, NotAfter);
    assert |SortedRows(rows)| == |multiset(SortedRows(rows))| == |multiset(rows)| == |rows|;
  }

  // ---- one server under two names -------------------------------------------------------------------------

  /** Server x under name "A", y under "B", z under "C", and x again under "D", in four directories. */
  function TwoName(i: nat): Session
    requires i < 4
  {
    Session([if i == 1 then 'y' else if i == 2 then 'z' else 'x'], ["ABCD"[i]], ["abcd"[i]])
  }

  function TwoNames(n: nat): seq<Session>
    requires n <= 4
  {
    seq(n, i requires 0 <= i < n => TwoName(i))
  }

  lemma GroupOne(sessions: seq<Session>, s: Session, ties: nat -> int)
    ensures GroupRows(sessions + [s], ties) == Grouped(GroupRows(sessions, ties), s, ties, |sessions|)
  {
    assert Front(sessions + [s]) == sessions;
  }

  lemma SortLast(rows: seq<Row>, r: Row)
    requires rows != [] ==> NotAfter(Last(rows), r)
    requires SortedRows(rows) == rows
    ensures SortedRows(rows + [r]) == rows + [r]
  {
    SortPush(rows, r, NotAfter);
  }

  function TwoNameRow(ties: nat -> int, i: nat): Row
    requires i < 4
  {
    NewRow(TwoName(i), ties(i), i)
  }

  function TwoNamesRows(ties: nat -> int, n: nat): seq<Row>
    requires n <= 4
  {
    seq(n, i requires 0 <= i < n => TwoNameRow(ties, i))
  }

  lemma TwoNamesAscend(ties: nat -> int, i: nat)
    requires i < 3
    ensures NotAfter(TwoNameRow(ties, i), TwoNameRow(ties, i + 1))
  {
    var a, b := TwoNameRow(ties, i + 1), TwoNameRow(ties, i);
    assert SortName(a)[0] > SortName(b)[0];
    assert StrCmp(SortName(a), SortName(b)) == 1;
  }

  lemma TwoNamesApart(ties: nat -> int, n: nat)
    requires n < 4
    ensures TargetRow(TwoNamesRows(ties, n), TwoName(n)) < 0
  {
    var rows := TwoNamesRows(ties, n);
    forall i | 0 <= i < n ensures !IsFor(rows[i], TwoName(n)) {
      assert TwoName(i).directory[0] != TwoName(n).directory[0];
    }
  }

  lemma OneMoreRow(ties: nat -> int, n: nat)
    requires n < 4
    ensures Grouped(TwoNamesRows(ties, n), TwoName(n), ties, n) == TwoNamesRows(ties, n + 1)
  {
    TwoNamesApart(ties, n);
    assert TwoNamesRows(ties, n + 1) == TwoNamesRows(ties, n) + [TwoNameRow(ties, n)];
  }

  lemma OneMoreName(n: nat)
    requires n < 4
    ensures TwoNames(n + 1) == TwoNames(n) + [TwoName(n)] && |TwoNames(n)| == n
  {
  }

  lemma {:induction false} TwoNamesGrouped(ties: nat -> int, n: nat)
    requires n <= 4
    ensures GroupRows(TwoNames(n), ties) == TwoNamesRows(ties, n)
    decreases n
  {
    if n > 0 {
      TwoNamesGrouped(ties, n - 1);
      OneMoreName(n - 1);
      GroupOne(TwoNames(n - 1), TwoName(n - 1), ties);
      OneMoreRow(ties, n - 1);
    }
  }

  lemma {:induction false} TwoNamesSorted(ties: nat -> int, n: nat)
    requires n <= 4
    ensures SortedRows(TwoNamesRows(ties, n)) == TwoNamesRows(ties, n)
    decreases n
  {
    if n > 0 {
      var rows, row := TwoNamesRows(ties, n - 1), TwoNameRow(ties, n - 1);
      TwoNamesSorted(ties, n - 1);
      if n > 1 {
        TwoNamesAscend(ties, n - 2);
        assert Last(rows) == TwoNameRow(ties, n - 2);
      }
      assert TwoNamesRows(ties, n) == rows + [row];
      SortLast(rows, row);
    }
  }

  /** Four sessions of three servers, one of which appears under two names, sort into an order in which that
      server returns at distance three: no colours make all neighbours contrast. */
  lemma TwoNamesCannotContrast(ties: nat -> int, table: seq<Assignment>)
    ensures DisplayedKeys(TwoNames(4), ties) == ["x", "y", "z", "x"]
    ensures !Alternating(OrderedKeys(DisplayedKeys(TwoNames(4), ties)))
    ensures !Settled(table, DisplayedKeys(TwoNames(4), ties))
  {
    TwoNamesGrouped(ties, 4);
    TwoNamesSorted(ties, 4);
    FourKeys(ties);
    OddReturn();
    OddReturnCannotSettle(table, ["x", "y", "z", "x"]);
  }

  lemma FourKeys(ties: nat -> int)
    ensures RowKeysOf(TwoNamesRows(ties, 4)) == ["x", "y", "z", "x"]
  {
    var keys := RowKeysOf(TwoNamesRows(ties, 4));
    assert keys[0] == "x" && keys[1] == "y" && keys[2] == "z" && keys[3] == "x";
  }

  lemma OddReturn()
    ensures OrderedKeys(["x", "y", "z", "x"]) == ["x", "y", "z", "x"] && !Alternating(["x", "y", "z", "x"])
  {
    var keys := ["x", "y", "z", "x"];
    assert Front(keys) == ["x", "y", "z"] && Front(["x", "y", "z"]) == ["x", "y"];
    assert Front(["x", "y"]) == ["x"] && Front(["x"]) == [];
    assert OrderedKeys(["x"]) == ["x"];
    assert OrderedKeys(["x", "y"]) == ["x", "y"];
    assert OrderedKeys(["x", "y", "z"]) == ["x", "y", "z"];
    assert keys[0] == keys[3] && (3 - 0) % 2 != 0;
  }
}
