/** Which row each OpenCode process is shown, and when it is hidden, told without the pass
    (src/codex_cli_monitor/monitor.py, `_discover_opencode_sessions`, `_opencode_state_for_root`). */
module OpenCodeShown {
  import opened Sequences
  import opened OpenCodeBinding

  // ---- one process, given the sessions already claimed -------------------------------------------------------------

  /** An unclaimed row the process is anchored to. */
  predicate IsAnchor(rows: seq<Row>, p: Process, used: set<string>, r: Row) {
    AnchorRow(rows, p) == Some(r) && r.sessionId !in used
  }

  /** An unclaimed row of the process's directory, active in its lifetime. */
  predicate IsActive(rows: seq<Row>, p: Process, used: set<string>, r: Row) {
    r in rows && r.sessionId !in used && ActiveHere(p, r)
  }

  /** One that was also created in the process's lifetime. */
  predicate IsFresh(rows: seq<Row>, p: Process, used: set<string>, r: Row) {
    IsActive(rows, p, used, r) && SinceStart(p, r.createdAt)
  }

  /** The rows a process may be shown while no open one is available: its anchor and the fresh rows; with neither,
      any active row. */
  ghost predicate InPlay(rows: seq<Row>, p: Process, used: set<string>, r: Row) {
    || IsAnchor(rows, p, used, r)
    || IsFresh(rows, p, used, r)
    || (IsActive(rows, p, used, r)
        && forall s :: !IsAnchor(rows, p, used, s) && !IsFresh(rows, p, used, s))
  }

  ghost predicate NoOpenRow(rows: seq<Row>, p: Process, used: set<string>) {
    forall r | IsAnchor(rows, p, used, r) || IsActive(rows, p, used, r) :: !IsOpen(r)
  }

  lemma HereIs(rows: seq<Row>, p: Process, used: set<string>, r: Row)
    ensures r in Filter(rows, CandidateIn(p, used, UnclaimedAnchor(rows, p, used)))
            <==> IsActive(rows, p, used, r) && !IsAnchor(rows, p, used, r)
  {
    FilterMembers(rows, CandidateIn(p, used, UnclaimedAnchor(rows, p, used)));
  }

  lemma FilterEmptyIff(xs: seq<Row>, p: Row -> bool)
    ensures Filter(xs, p) == [] <==> forall x <- xs :: !p(x)
  {
    FilterMembers(xs, p);
    if Filter(xs, p) != [] {
      assert Filter(xs, p)[0] in Filter(xs, p);
    } else {
      forall x <- xs ensures !p(x) {
        assert x !in Filter(xs, p);
      }
    }
  }

  /** A process is hidden if and only if it has no unclaimed anchor and no unclaimed active row. */
  lemma HiddenIff(rows: seq<Row>, p: Process, used: set<string>)
    ensures StateForRoot(rows, p, used) == None
            <==> forall r :: !IsAnchor(rows, p, used, r) && !IsActive(rows, p, used, r)
  {
    StateIsSupported(rows, p, used);
    var state := StateForRoot(rows, p, used);
    if state.Some? {
      assert IsAnchor(rows, p, used, state.value) || IsActive(rows, p, used, state.value);
    } else {
      NothingOwned(rows, p, used);
      forall r ensures !IsAnchor(rows, p, used, r) && !IsActive(rows, p, used, r) {
        HereIs(rows, p, used, r);
      }
    }
  }

  lemma NothingOwned(rows: seq<Row>, p: Process, used: set<string>)
    requires StateForRoot(rows, p, used) == None
    ensures UnclaimedAnchor(rows, p, used) == None
    ensures Filter(rows, CandidateIn(p, used, UnclaimedAnchor(rows, p, used))) == []
  {
    assert OwnedRows(rows, p, used) == [];
  }

  /** Without an open row the owned rows are those in play. */
  lemma OwnedAreInPlay(rows: seq<Row>, p: Process, used: set<string>, r: Row)
    requires NoOpenRow(rows, p, used)
    ensures r in OwnedRows(rows, p, used) <==> InPlay(rows, p, used, r)
  {
    var bound := UnclaimedAnchor(rows, p, used);
    var here := Filter(rows, CandidateIn(p, used, bound));
    var created := Filter(here, FreshFor(p));
    NothingOpenHere(rows, p, used);
    FilterMembers(here, FreshFor(p));
    forall s ensures s in here <==> IsActive(rows, p, used, s) && !IsAnchor(rows, p, used, s) {
      HereIs(rows, p, used, s);
    }
    forall s ensures s in created <==> IsFresh(rows, p, used, s) && !IsAnchor(rows, p, used, s) {
    }
    forall s ensures IsAnchor(rows, p, used, s) <==> bound == Some(s) {
    }
    if bound.Some? {
      assert IsAnchor(rows, p, used, bound.value);
    } else if created != [] {
      assert IsFresh(rows, p, used, created[0]);
    }
  }

  lemma NothingOpenHere(rows: seq<Row>, p: Process, used: set<string>)
    requires NoOpenRow(rows, p, used)
    ensures Filter(Filter(rows, CandidateIn(p, used, UnclaimedAnchor(rows, p, used))), IsOpen) == []
  {
    var here := Filter(rows, CandidateIn(p, used, UnclaimedAnchor(rows, p, used)));
    forall s <- here ensures !IsOpen(s) {
      HereIs(rows, p, used, s);
    }
    FilterNone(here, IsOpen);
  }

  /** While no open row is available, a process is shown the most recently active row in play. */
  lemma FinishedRowShown(rows: seq<Row>, p: Process, used: set<string>)
    requires NoOpenRow(rows, p, used)
    ensures var state := StateForRoot(rows, p, used);
      state.Some? ==>
        InPlay(rows, p, used, state.value) && forall r | InPlay(rows, p, used, r) :: !Later(r, state.value)
  {
    var owned := OwnedRows(rows, p, used);
    forall r ensures r in owned <==> InPlay(rows, p, used, r) {
      OwnedAreInPlay(rows, p, used, r);
    }
    forall r <- owned ensures !IsOpen(r) {
      assert InPlay(rows, p, used, r);
    }
    FilterNone(owned, IsOpen);
  }

  /** While one is, the process is shown an open row: its own open anchor, or else the most recently active of the
      open rows. */
  lemma OpenRowShown(rows: seq<Row>, p: Process, used: set<string>)
    requires !NoOpenRow(rows, p, used)
    ensures var state := StateForRoot(rows, p, used);
      && state.Some? && IsOpen(state.value)
      && (forall r | IsAnchor(rows, p, used, r) && IsOpen(r) :: state.value == r)
      && (!IsAnchor(rows, p, used, state.value) ==>
            IsActive(rows, p, used, state.value)
            && forall r | IsActive(rows, p, used, r) && IsOpen(r) :: !Later(r, state.value))
  {
    StateForRootMeans(rows, p, used);
    var r :| (IsAnchor(rows, p, used, r) || IsActive(rows, p, used, r)) && IsOpen(r);
    assert StateForRoot(rows, p, used).Some?;
  }

  // ---- the whole pass -------------------------------------------------------------------------------------

  /** Open anchors come first, then unknown start times, then the later start and then the greater pid. */
  predicate ComesBefore(rows: seq<Row>, a: Process, b: Process) {
    if OpenAnchor(rows, a) != OpenAnchor(rows, b) then OpenAnchor(rows, a)
    else if a.startedAt == b.startedAt then a.pid > b.pid
    else a.startedAt.None? || (b.startedAt.Some? && a.startedAt.value > b.startedAt.value)
  }

  /** The sessions bound to processes that come first. */
  ghost function ClaimedBefore(rows: seq<Row>, roots: seq<Process>, p: Process): set<string> {
    set b | b in Bindings(rows, roots) && ComesBefore(rows, b.process, p) :: b.row.sessionId
  }

  /** Where a binding was made. */
  lemma {:induction false} BoundAt(rows: seq<Row>, ordered: seq<Process>, b: Binding) returns (i: nat)
    requires b in BindAll(rows, ordered)
    ensures i < |ordered| && ordered[i] == b.process
    ensures StateForRoot(rows, ordered[i], Claimed(BindAll(rows, ordered[..i]))) == Some(b.row)
  {
    var front := Front(ordered);
    if b in BindAll(rows, front) {
      i := BoundAt(rows, front, b);
      assert front[..i] == ordered[..i];
    } else {
      NewBinding(rows, ordered, b);
      i := |ordered| - 1;
      assert ordered[..i] == front;
    }
  }

  lemma BoundEarly(rows: seq<Row>, ordered: seq<Process>, b: Binding, i: nat, k: nat)
    requires i < k <= |ordered| && ordered[i] == b.process
    requires StateForRoot(rows, ordered[i], Claimed(BindAll(rows, ordered[..i]))) == Some(b.row)
    ensures b in BindAll(rows, ordered[..k])
  {
    assert ordered[..k][..i] == ordered[..i];
    DecidedAt(rows, ordered[..k], i);
  }

  lemma PidsDiffer(ordered: seq<Process>, i: nat, j: nat)
    requires Distinct(ordered, PidOf) && i < |ordered| && j < |ordered| && ordered[i].pid == ordered[j].pid
    ensures i == j
  {
    assert i < j ==> PidOf(ordered[i]) != PidOf(ordered[j]);
    assert j < i ==> PidOf(ordered[j]) != PidOf(ordered[i]);
  }

  lemma OneWay(rows: seq<Row>, a: Process, b: Process)
    requires a.pid != b.pid && ProcessOrder(rows)(a, b)
    ensures ComesBefore(rows, a, b) && !ComesBefore(rows, b, a)
  {
  }

  lemma OrderedByPass(rows: seq<Row>, roots: seq<Process>, i: nat, j: nat)
    requires Distinct(roots, PidOf)
    requires i < |StableSort(roots, ProcessOrder(rows))| && j < |StableSort(roots, ProcessOrder(rows))|
    ensures var ordered := StableSort(roots, ProcessOrder(rows));
      i < j <==> ComesBefore(rows, ordered[i], ordered[j])
  {
    var ordered := StableSort(roots, ProcessOrder(rows));
    OrdersProcesses(rows, roots);
    SortDistinct(roots, ProcessOrder(rows), PidOf);
    if i != j {
      var first, second := if i < j then i else j, if i < j then j else i;
      assert PidOf(ordered[first]) != PidOf(ordered[second]);
      OneWay(rows, ordered[first], ordered[second]);
    }
  }

  lemma ClaimedBeforeIs(rows: seq<Row>, roots: seq<Process>, k: nat)
    requires Distinct(roots, PidOf) && k < |StableSort(roots, ProcessOrder(rows))|
    ensures var ordered := StableSort(roots, ProcessOrder(rows));
      ClaimedBefore(rows, roots, ordered[k]) == Claimed(BindAll(rows, ordered[..k]))
  {
    var ordered := StableSort(roots, ProcessOrder(rows));
    forall b | b in Bindings(rows, roots) && ComesBefore(rows, b.process, ordered[k])
      ensures b in BindAll(rows, ordered[..k])
    {
      var i := BoundAt(rows, ordered, b);
      OrderedByPass(rows, roots, i, k);
      BoundEarly(rows, ordered, b, i, k);
    }
    forall b | b in BindAll(rows, ordered[..k])
      ensures b in Bindings(rows, roots) && ComesBefore(rows, b.process, ordered[k])
    {
      BindingKept(rows, ordered, k, b);
      var i := BoundAt(rows, ordered[..k], b);
      assert ordered[i] == b.process;
      OrderedByPass(rows, roots, i, k);
    }
  }

  /** Every process is shown what it would be shown alone once the sessions bound to processes in front of it are
      taken, and nothing else. */
  lemma PassShows(rows: seq<Row>, roots: seq<Process>, p: Process, r: Row)
    requires Distinct(roots, PidOf) && p in roots
    ensures Binding(p, r) in Bindings(rows, roots)
            <==> StateForRoot(rows, p, ClaimedBefore(rows, roots, p)) == Some(r)
  {
    var ordered, k := StableSort(roots, ProcessOrder(rows)), PassPosition(rows, roots, p);
    ClaimedBeforeIs(rows, roots, k);
    DecidedAt(rows, ordered, k);
    if Binding(p, r) in Bindings(rows, roots) {
      var i := BoundAt(rows, ordered, Binding(p, r));
      OrdersProcesses(rows, roots);
      SortDistinct(roots, ProcessOrder(rows), PidOf);
      PidsDiffer(ordered, i, k);
    }
  }

  /** A process is hidden if and only if everything that could be shown for it, its anchor and the active rows of its
      directory, is bound to processes in front of it. */
  lemma HiddenByPassIff(rows: seq<Row>, roots: seq<Process>, p: Process)
    requires Distinct(roots, PidOf) && p in roots
    ensures (forall b <- Bindings(rows, roots) :: b.process != p)
            <==> forall r | IsSupported(rows, p, r) :: r.sessionId in ClaimedBefore(rows, roots, p)
  {
    var used := ClaimedBefore(rows, roots, p);
    HiddenIff(rows, p, used);
    AnchorIsRow(rows, p);
    forall r {
      PassShows(rows, roots, p, r);
    }
    forall r
      ensures IsAnchor(rows, p, used, r) || IsActive(rows, p, used, r)
              <==> IsSupported(rows, p, r) && r.sessionId !in used
    {
    }
    if StateForRoot(rows, p, used).Some? {
      assert Binding(p, StateForRoot(rows, p, used).value) in Bindings(rows, roots);
    } else {
      forall b <- Bindings(rows, roots) ensures b.process != p {
        assert b == Binding(b.process, b.row);
      }
    }
  }
}
