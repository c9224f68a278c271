/** Binding OpenCode database rows to live OpenCode processes
    (src/codex_cli_monitor/monitor.py, `_discover_opencode_sessions`, `_opencode_state_for_root`). */
module OpenCodeBinding {
  import opened Sequences

  const LIFETIME_GRACE_SECONDS := 2.0

  datatype Status = Running | Waiting | Success | Failure

  /** A live process; `anchor` is the session its hook markers or its command line name. */
  datatype Process = Process(pid: int, startedAt: Option<real>, cwd: Option<string>, anchor: Option<string>)

  /** One session row of the database. */
  datatype Row = Row(
    sessionId: string, cwd: Option<string>, turnActive: bool, status: Status,
    lastActivityAt: Option<real>, updatedAt: Option<real>, createdAt: Option<real>)

  datatype Binding = Binding(process: Process, row: Row)

  predicate IsOpen(r: Row) {
    r.turnActive || r.status in {Running, Waiting}
  }

  function HasId(id: string): Row -> bool {
    (r: Row) => r.sessionId == id
  }

  /** `by_id.get(...)`: the row a process is anchored to, if the scan found it. */
  function AnchorRow(rows: seq<Row>, p: Process): Option<Row> {
    if p.anchor.None? then None
    else
      var found := Filter(rows, HasId(p.anchor.value));
      if found == [] then None else Some(Last(found))
  }

  predicate OpenAnchor(rows: seq<Row>, p: Process) {
    AnchorRow(rows, p).Some? && IsOpen(AnchorRow(rows, p).value)
  }

  predicate SameDirectory(p: Process, r: Row) {
    p.cwd.Some? && r.cwd == p.cwd
  }

  predicate SinceStart(p: Process, at: Option<real>) {
    p.startedAt.Some? && at.Some? && at.value >= p.startedAt.value - LIFETIME_GRACE_SECONDS
  }

  /** What may support a binding by working directory alone. */
  predicate ActiveHere(p: Process, r: Row) {
    SameDirectory(p, r) && SinceStart(p, r.lastActivityAt)
  }

  predicate Below(a: Option<real>, b: Option<real>) {
    b.Some? && (a.None? || a.value < b.value)
  }

  /** a has strictly more recent activity than b: last activity, then update, then creation. */
  predicate Later(a: Row, b: Row) {
    || Below(b.lastActivityAt, a.lastActivityAt)
    || (a.lastActivityAt == b.lastActivityAt &&
        (Below(b.updatedAt, a.updatedAt) || (a.updatedAt == b.updatedAt && Below(b.createdAt, a.createdAt))))
  }

  /** Python's `max`: the first of the rows that none is later than. */
  function Latest(rows: seq<Row>): (r: Row)
    requires rows != []
    ensures r in rows && forall s <- rows :: !Later(s, r)
  {
    if |rows| == 1 then rows[0]
    else
      var best := Latest(Front(rows));
      assert rows == Front(rows) + [Last(rows)];
      if Later(Last(rows), best) then Last(rows) else best
  }

  function CandidateIn(p: Process, used: set<string>, bound: Option<Row>): Row -> bool {
    (r: Row) => r.sessionId !in used && Some(r) != bound && ActiveHere(p, r)
  }

  function FreshFor(p: Process): Row -> bool {
    (r: Row) => SinceStart(p, r.createdAt)
  }

  function UnclaimedAnchor(rows: seq<Row>, p: Process, used: set<string>): Option<Row> {
    var bound := AnchorRow(rows, p);
    if bound.Some? && bound.value.sessionId in used then None else bound
  }

  /** The rows a process without an open anchor may be shown as. */
  function OwnedRows(rows: seq<Row>, p: Process, used: set<string>): seq<Row> {
    var bound := UnclaimedAnchor(rows, p, used);
    var here := Filter(rows, CandidateIn(p, used, bound));
    var own := if bound.Some? then [bound.value] else [];
    if Filter(here, IsOpen) != [] then own + Filter(here, IsOpen)
    else if Filter(here, FreshFor(p)) != [] then own + Filter(here, FreshFor(p))
    else if bound.None? then here
    else own
  }

  function StateForRoot(rows: seq<Row>, p: Process, used: set<string>): Option<Row> {
    var bound := UnclaimedAnchor(rows, p, used);
    if bound.Some? && IsOpen(bound.value) then bound
    else
      var owned := OwnedRows(rows, p, used);
      if owned == [] then None
      else if Filter(owned, IsOpen) != [] then Some(Latest(Filter(owned, IsOpen)))
      else Some(Latest(owned))
  }

  /** Open anchors first, then unknown start times, then the newest process. */
  predicate Precedes(aOpen: bool, a: Process, bOpen: bool, b: Process) {
    if aOpen != bOpen then aOpen
    else if a.startedAt.None? != b.startedAt.None? then a.startedAt.None?
    else if a.startedAt.Some? && a.startedAt.value != b.startedAt.value then a.startedAt.value > b.startedAt.value
    else a.pid >= b.pid
  }

  function ProcessOrder(rows: seq<Row>): (Process, Process) -> bool {
    (a: Process, b: Process) => Precedes(OpenAnchor(rows, a), a, OpenAnchor(rows, b), b)
  }

  function Claimed(bindings: seq<Binding>): set<string> {
    set b | b in bindings :: b.row.sessionId
  }

  function BindAll(rows: seq<Row>, ordered: seq<Process>): seq<Binding> {
    if ordered == [] then []
    else
      var before := BindAll(rows, Front(ordered));
      match StateForRoot(rows, Last(ordered), Claimed(before))
      case None => before
      case Some(r) => before + [Binding(Last(ordered), r)]
  }

  function Bindings(rows: seq<Row>, roots: seq<Process>): seq<Binding> {
    BindAll(rows, StableSort(roots, ProcessOrder(rows)))
  }

  method SelectStateForRoot(rows: seq<Row>, p: Process, used: set<string>) returns (state: Option<Row>)
    ensures state == StateForRoot(rows, p, used)
  {
    var bound := AnchorRow(rows, p);
    if bound.Some? && bound.value.sessionId in used {
      bound := None;
    }
    if bound.Some? && IsOpen(bound.value) {
      return bound;
    }
    var here: seq<Row> := [];
    for i := 0 to |rows|
      invariant here == Filter(rows[..i], CandidateIn(p, used, bound))
    {
      assert Front(rows[..i + 1]) == rows[..i];
      var state := rows[i];
      if !SameDirectory(p, state) || state.sessionId in used || Some(state) == bound {
        continue;
      }
      if p.startedAt.None? || state.lastActivityAt.None?
        || state.lastActivityAt.value < p.startedAt.value - LIFETIME_GRACE_SECONDS
      {
        continue;
      }
      here := here + [state];
    }
    assert rows[..|rows|] == rows;
    var owned := if bound.Some? then [bound.value] else [];
    var openHere, freshHere := Filter(here, IsOpen), Filter(here, FreshFor(p));
    if openHere != [] {
      owned := owned + openHere;
    } else if freshHere != [] {
      owned := owned + freshHere;
    } else if bound.None? {
      owned := owned + here;
    }
    assert owned == OwnedRows(rows, p, used);
    if owned == [] {
      return None;
    }
    var openTurns := Filter(owned, IsOpen);
    state := Some(Latest(if openTurns != [] then openTurns else owned));
  }

  method DiscoverSessions(rows: seq<Row>, roots: seq<Process>) returns (sessions: seq<Binding>)
    ensures sessions == Bindings(rows, roots)
  {
    var usedSessionIds: set<string> := {};
    sessions := [];
    var ordered := StableSort(roots, ProcessOrder(rows));
    for i := 0 to |ordered|
      invariant sessions == BindAll(rows, ordered[..i]) && usedSessionIds == Claimed(sessions)
    {
      assert Front(ordered[..i + 1]) == ordered[..i];
      var state := SelectStateForRoot(rows, ordered[i], usedSessionIds);
      if state.None? {
        continue;
      }
      usedSessionIds := usedSessionIds + {state.value.sessionId};
      sessions := sessions + [Binding(ordered[i], state.value)];
    }
    assert ordered[..|ordered|] == ordered;
  }

  // ---- one process -----------------------------------------------------------------------

  /** What one process is shown: its own unclaimed open anchor; otherwise an open row of its
      directory whenever there is one, the most recently active; and never a claimed row or one
      that neither its anchor nor activity in its directory during its lifetime supports. */
  lemma StateForRootMeans(rows: seq<Row>, p: Process, used: set<string>)
    ensures var state := StateForRoot(rows, p, used);
      && (state.Some? ==> state.value.sessionId !in used && IsSupported(rows, p, state.value))
      && (OpenAnchor(rows, p) && AnchorRow(rows, p).value.sessionId !in used ==> state == AnchorRow(rows, p))
      && (forall s <- rows | IsOpen(s) && ActiveHere(p, s) && s.sessionId !in used ::
            state.Some? && IsOpen(state.value) && (state == AnchorRow(rows, p) || !Later(s, state.value)))
  {
    AnchorIsRow(rows, p);
    var bound := UnclaimedAnchor(rows, p, used);
    var here := Filter(rows, CandidateIn(p, used, bound));
    FilterMembers(rows, CandidateIn(p, used, bound));
    FilterMembers(here, IsOpen);
    FilterMembers(here, FreshFor(p));
    var owned := OwnedRows(rows, p, used);
    FilterMembers(owned, IsOpen);
    if !(bound.Some? && IsOpen(bound.value)) {
      forall s <- rows | IsOpen(s) && ActiveHere(p, s) && s.sessionId !in used
        ensures s in Filter(owned, IsOpen)
      {
        assert s in here && s in Filter(here, IsOpen) && s in owned;
      }
    }
  }

  lemma AnchorIsRow(rows: seq<Row>, p: Process)
    ensures AnchorRow(rows, p).Some? ==>
      AnchorRow(rows, p).value in rows && Some(AnchorRow(rows, p).value.sessionId) == p.anchor
  {
    if p.anchor.Some? {
      FilterMembers(rows, HasId(p.anchor.value));
    }
  }

  // ---- the whole pass ---------------------------------------------------------------------

  lemma OrdersProcesses(rows: seq<Row>, roots: seq<Process>)
    ensures var ordered := StableSort(roots, ProcessOrder(rows));
      Sorted(ordered, ProcessOrder(rows)) && (forall p :: p in ordered <==> p in roots)
  {
    var le := ProcessOrder(rows);
    forall a, b ensures le(a, b) || le(b, a) {
      assert le(a, b) == Precedes(OpenAnchor(rows, a), a, OpenAnchor(rows, b), b);
    }
    forall a, b, c | le(a, b) && le(b, c) ensures le(a, c) {
      assert Precedes(OpenAnchor(rows, a), a, OpenAnchor(rows, b), b);
      assert Precedes(OpenAnchor(rows, b), b, OpenAnchor(rows, c), c);
    }
    SortSorts(roots, le);
    SortMembers(roots, le);
  }

  /** The process's own anchor, or activity in its directory during its lifetime, backs the row. */
  predicate IsSupported(rows: seq<Row>, p: Process, r: Row) {
    r in rows && (AnchorRow(rows, p) == Some(r) || ActiveHere(p, r))
  }

  lemma StateIsSupported(rows: seq<Row>, p: Process, used: set<string>)
    ensures var state := StateForRoot(rows, p, used);
      state.Some? ==> state.value.sessionId !in used && IsSupported(rows, p, state.value)
  {
    StateForRootMeans(rows, p, used);
  }

  lemma NewBinding(rows: seq<Row>, ordered: seq<Process>, b: Binding)
    requires b in BindAll(rows, ordered) && ordered != [] && b !in BindAll(rows, Front(ordered))
    ensures var state := StateForRoot(rows, Last(ordered), Claimed(BindAll(rows, Front(ordered))));
      state.Some? && b == Binding(Last(ordered), state.value)
  {
  }

  lemma {:induction false} Supported(rows: seq<Row>, ordered: seq<Process>, b: Binding)
    requires b in BindAll(rows, ordered)
    ensures b.process in ordered && IsSupported(rows, b.process, b.row)
  {
    var front := Front(ordered);
    InFrontOrLast(ordered, b.process);
    if b in BindAll(rows, front) {
      Supported(rows, front, b);
    } else {
      NewBinding(rows, ordered, b);
      StateIsSupported(rows, Last(ordered), Claimed(BindAll(rows, front)));
    }
  }

  /** What is bound already belongs to another process than the last. */
  lemma PlacedApart(rows: seq<Row>, ordered: seq<Process>, b: Binding)
    requires ordered != [] && Distinct(ordered, PidOf) && b in BindAll(rows, Front(ordered))
    ensures ProcessOf(b) != PidOf(Last(ordered))
  {
    Supported(rows, Front(ordered), b);
    var j :| 0 <= j < |ordered| - 1 && Front(ordered)[j] == b.process;
    assert PidOf(ordered[j]) != PidOf(ordered[|ordered| - 1]);
  }

  lemma OneMoreExclusive(bs: seq<Binding>, b: Binding)
    requires Distinct(bs, SessionOf) && Distinct(bs, ProcessOf)
    requires forall c <- bs :: SessionOf(c) != SessionOf(b) && ProcessOf(c) != ProcessOf(b)
    ensures Distinct(bs + [b], SessionOf) && Distinct(bs + [b], ProcessOf)
  {
    assert forall i | 0 <= i < |bs| :: bs[i] in bs;
  }

  lemma {:induction false} Exclusive(rows: seq<Row>, ordered: seq<Process>)
    requires Distinct(ordered, PidOf)
    ensures Distinct(BindAll(rows, ordered), SessionOf) && Distinct(BindAll(rows, ordered), ProcessOf)
  {
    if ordered != [] {
      var front, p := Front(ordered), Last(ordered);
      var bs := BindAll(rows, front);
      Exclusive(rows, front);
      var state := StateForRoot(rows, p, Claimed(bs));
      if state.Some? {
        StateIsSupported(rows, p, Claimed(bs));
        forall b <- bs ensures SessionOf(b) in Claimed(bs) && ProcessOf(b) != PidOf(p) {
          PlacedApart(rows, ordered, b);
        }
        OneMoreExclusive(bs, Binding(p, state.value));
      }
    }
  }

  function PidOf(p: Process): int { p.pid }

  function ProcessOf(b: Binding): int { b.process.pid }

  function SessionOf(b: Binding): string { b.row.sessionId }

  /** Every process shows at most one session, no session is bound to two processes, and every
      binding is supported by the process's own anchor or by activity in its directory during its
      lifetime. */
  lemma BindingsAreExclusiveAndSupported(rows: seq<Row>, roots: seq<Process>)
    requires Distinct(roots, PidOf)
    ensures Distinct(Bindings(rows, roots), SessionOf) && Distinct(Bindings(rows, roots), ProcessOf)
    ensures forall b <- Bindings(rows, roots) :: b.process in roots && IsSupported(rows, b.process, b.row)
  {
    OrdersProcesses(rows, roots);
    SortDistinct(roots, ProcessOrder(rows), PidOf);
    forall b <- Bindings(rows, roots) ensures b.process in roots && IsSupported(rows, b.process, b.row) {
      Supported(rows, StableSort(roots, ProcessOrder(rows)), b);
    }
    Exclusive(rows, StableSort(roots, ProcessOrder(rows)));
  }

  /** What the pass decides for the process at position k is never revised. */
  lemma {:induction false} DecidedAt(rows: seq<Row>, ordered: seq<Process>, k: nat)
    requires k < |ordered|
    ensures var before := Claimed(BindAll(rows, ordered[..k]));
      && before <= Claimed(BindAll(rows, ordered))
      && (StateForRoot(rows, ordered[k], before).Some? ==>
            Binding(ordered[k], StateForRoot(rows, ordered[k], before).value) in BindAll(rows, ordered))
  {
    if k < |ordered| - 1 {
      DecidedAt(rows, Front(ordered), k);
      assert Front(ordered)[..k] == ordered[..k];
    } else {
      assert Front(ordered) == ordered[..k];
    }
  }

  ghost function PassPosition(rows: seq<Row>, roots: seq<Process>, p: Process): (k: nat)
    requires p in roots
    ensures k < |StableSort(roots, ProcessOrder(rows))| && StableSort(roots, ProcessOrder(rows))[k] == p
  {
    OrdersProcesses(rows, roots);
    var k :| 0 <= k < |StableSort(roots, ProcessOrder(rows))| && StableSort(roots, ProcessOrder(rows))[k] == p;
    k
  }

  /** An open row that some process is anchored to never goes unshown. */
  lemma OpenAnchorIsBound(rows: seq<Row>, roots: seq<Process>, p: Process)
    requires p in roots && OpenAnchor(rows, p)
    ensures AnchorRow(rows, p).value.sessionId in Claimed(Bindings(rows, roots))
  {
    var ordered, k := StableSort(roots, ProcessOrder(rows)), PassPosition(rows, roots, p);
    StateForRootMeans(rows, p, Claimed(BindAll(rows, ordered[..k])));
    DecidedAt(rows, ordered, k);
  }

  ghost predicate DistinctOpenAnchors(rows: seq<Row>, ps: seq<Process>) {
    forall p, q :: p in ps && q in ps && OpenAnchor(rows, p) && OpenAnchor(rows, q) && p.anchor == q.anchor ==> p == q
  }

  ghost predicate AllAnchored(rows: seq<Row>, ps: seq<Process>) {
    Distinct(ps, PidOf) && DistinctOpenAnchors(rows, ps) && forall p <- ps :: OpenAnchor(rows, p)
  }

  ghost predicate HoldsAnchors(rows: seq<Row>, ps: seq<Process>, bs: seq<Binding>) {
    forall b :: b in bs <==> b.process in ps && Some(b.row) == AnchorRow(rows, b.process)
  }

  lemma FrontIsAnchored(rows: seq<Row>, ps: seq<Process>)
    requires ps != [] && AllAnchored(rows, ps)
    ensures AllAnchored(rows, Front(ps)) && Last(ps) !in Front(ps) && OpenAnchor(rows, Last(ps))
  {
    forall i | 0 <= i < |ps| - 1 ensures Front(ps)[i] != Last(ps) {
      assert PidOf(ps[i]) != PidOf(ps[|ps| - 1]);
    }
    assert forall p <- Front(ps) :: p in ps;
  }

  /** An openly anchored process finds its row unclaimed. */
  lemma AnchorIsUnclaimed(rows: seq<Row>, ps: seq<Process>, bs: seq<Binding>)
    requires ps != [] && AllAnchored(rows, ps) && HoldsAnchors(rows, Front(ps), bs)
    ensures AnchorRow(rows, Last(ps)).value.sessionId !in Claimed(bs)
  {
    var p := Last(ps);
    FrontIsAnchored(rows, ps);
    AnchorIsRow(rows, p);
    forall b <- bs ensures b.row.sessionId != AnchorRow(rows, p).value.sessionId {
      AnchorIsRow(rows, b.process);
      assert b.process in ps && p in ps;
    }
  }

  lemma OneMoreAnchor(rows: seq<Row>, ps: seq<Process>, bs: seq<Binding>, b: Binding)
    requires ps != [] && HoldsAnchors(rows, Front(ps), bs)
    requires b.process == Last(ps) && Some(b.row) == AnchorRow(rows, Last(ps))
    ensures HoldsAnchors(rows, ps, bs + [b])
  {
    assert ps == Front(ps) + [Last(ps)];
  }

  /** While only openly anchored processes have been placed, each holds its own row. */
  lemma {:induction false} AnchoredPrefix(rows: seq<Row>, ps: seq<Process>)
    requires AllAnchored(rows, ps)
    ensures HoldsAnchors(rows, ps, BindAll(rows, ps))
  {
    if ps != [] {
      var front, p := Front(ps), Last(ps);
      var bs := BindAll(rows, front);
      FrontIsAnchored(rows, ps);
      AnchoredPrefix(rows, front);
      AnchorIsUnclaimed(rows, ps, bs);
      StateForRootMeans(rows, p, Claimed(bs));
      OneMoreAnchor(rows, ps, bs, Binding(p, AnchorRow(rows, p).value));
    }
  }

  /** When the open anchors are pairwise distinct, every openly anchored process is shown its own. */
  lemma EachGetsItsOpenAnchor(rows: seq<Row>, roots: seq<Process>, p: Process)
    requires p in roots && OpenAnchor(rows, p)
    requires Distinct(roots, PidOf) && DistinctOpenAnchors(rows, roots)
    ensures Binding(p, AnchorRow(rows, p).value) in Bindings(rows, roots)
  {
    var ordered, k := StableSort(roots, ProcessOrder(rows)), PassPosition(rows, roots, p);
    OrdersProcesses(rows, roots);
    SortDistinct(roots, ProcessOrder(rows), PidOf);
    var head := ordered[..k + 1];
    forall q <- head ensures q in roots && OpenAnchor(rows, q) {
      var i :| 0 <= i < |head| && head[i] == q;
      assert q in ordered;
      assert i < k ==> ProcessOrder(rows)(ordered[i], ordered[k]);
    }
    assert p == head[k];
    AnchoredPrefix(rows, head);
    BindingKept(rows, ordered, k + 1, Binding(p, AnchorRow(rows, p).value));
  }

  lemma {:induction false} BindingKept(rows: seq<Row>, ordered: seq<Process>, n: nat, b: Binding)
    requires n <= |ordered| && b in BindAll(rows, ordered[..n])
    ensures b in BindAll(rows, ordered)
  {
    if n == |ordered| {
      assert ordered[..n] == ordered;
    } else {
      assert Front(ordered)[..n] == ordered[..n];
      BindingKept(rows, Front(ordered), n, b);
    }
  }

  /** No process is hidden, or shown a finished session, while an open session of its directory that
      was active during its lifetime is left unclaimed; and no unclaimed one is more recently active
      than the open row shown in its place. */
  lemma NoOpenSessionOverlooked(rows: seq<Row>, roots: seq<Process>, p: Process, s: Row)
    requires p in roots && s in rows && IsOpen(s) && ActiveHere(p, s)
    requires s.sessionId !in Claimed(Bindings(rows, roots))
    ensures exists b :: b in Bindings(rows, roots) && b.process == p && IsOpen(b.row)
                        && (Some(b.row) == AnchorRow(rows, p) || !Later(s, b.row))
  {
    var ordered, k := StableSort(roots, ProcessOrder(rows)), PassPosition(rows, roots, p);
    var before := Claimed(BindAll(rows, ordered[..k]));
    DecidedAt(rows, ordered, k);
    StateForRootMeans(rows, p, before);
    assert Binding(p, StateForRoot(rows, p, before).value) in Bindings(rows, roots);
  }
}
