/** Which client each shared session goes to, told without the pass
    (src/codex_cli_monitor/monitor.py, `_allocate_shared_sessions`). */
module SharedPicks {
  import opened Sequences
  import opened SharedSessions

  // ---- the rule ------------------------------------------------------------------------------------------------

  /** An open turn keeps away from clients that run one while some eligible client does not. */
  ghost predicate MayTake(roots: seq<Client>, item: SessionRecord, running: set<int>, c: Client) {
    && c in roots && Eligible(c, item)
    && (item.openTurn && c.pid in running ==> forall d <- roots | Eligible(d, item) :: d.pid in running)
  }

  /** And any session keeps away from clients that have one while another may take it. */
  ghost predicate Preferred(roots: seq<Client>, item: SessionRecord, busy: set<int>, running: set<int>, c: Client) {
    && MayTake(roots, item, running, c)
    && (c.pid in busy ==> forall d <- roots | MayTake(roots, item, running, d) :: d.pid in busy)
  }

  /** d started no later than c, or then has no greater pid. */
  predicate NoNewer(d: Client, c: Client) {
    && d.startedAt.Some? && c.startedAt.Some?
    && (d.startedAt.value < c.startedAt.value || (d.startedAt == c.startedAt && d.pid <= c.pid))
  }

  /** The newest of the preferred clients. */
  ghost predicate IsPick(roots: seq<Client>, item: SessionRecord, busy: set<int>, running: set<int>, c: Client) {
    && Preferred(roots, item, busy, running, c)
    && forall d <- roots | Preferred(roots, item, busy, running, d) :: NoNewer(d, c)
  }

  // ---- one session ---------------------------------------------------------------------------------------------

  lemma PreferMembers(pool: seq<Client>, p: Client -> bool, c: Client)
    ensures c in Prefer(pool, p) <==> c in pool && (!p(c) ==> forall d <- pool :: !p(d))
  {
    FilterMembers(pool, p);
    if Filter(pool, p) != [] {
      assert Filter(pool, p)[0] in Filter(pool, p);
    } else {
      forall d <- pool ensures !p(d) {
        assert d !in Filter(pool, p);
      }
    }
  }

  lemma PreferSorted(pool: seq<Client>, p: Client -> bool)
    requires Sorted(pool, NewerClient)
    ensures Sorted(Prefer(pool, p), NewerClient)
  {
    FilterSorted(pool, p, NewerClient);
  }

  function MayTakePool(ordered: seq<Client>, st: Allocation, item: SessionRecord): seq<Client> {
    var eligible := Filter(ordered, EligibleFor(item));
    if item.openTurn then Prefer(eligible, RunsNoTurn(st.openOwners)) else eligible
  }

  lemma MayTakeIs(ordered: seq<Client>, st: Allocation, item: SessionRecord, c: Client)
    ensures c in MayTakePool(ordered, st, item) <==> MayTake(ordered, item, st.openOwners, c)
  {
    var eligible := Filter(ordered, EligibleFor(item));
    FilterMembers(ordered, EligibleFor(item));
    PreferMembers(eligible, RunsNoTurn(st.openOwners), c);
  }

  lemma PreferredIs(ordered: seq<Client>, st: Allocation, item: SessionRecord, c: Client)
    ensures c in Candidates(ordered, st, item) <==> Preferred(ordered, item, Served(st), st.openOwners, c)
  {
    var free := MayTakePool(ordered, st, item);
    PreferMembers(free, IdleIn(st.owned), c);
    forall d ensures d in free <==> MayTake(ordered, item, st.openOwners, d) {
      MayTakeIs(ordered, st, item, d);
    }
  }

  lemma CandidatesSorted(ordered: seq<Client>, st: Allocation, item: SessionRecord)
    requires Sorted(ordered, NewerClient)
    ensures Sorted(Candidates(ordered, st, item), NewerClient)
  {
    var eligible := Filter(ordered, EligibleFor(item));
    FilterSorted(ordered, EligibleFor(item), NewerClient);
    PreferSorted(eligible, RunsNoTurn(st.openOwners));
    PreferSorted(MayTakePool(ordered, st, item), IdleIn(st.owned));
  }

  lemma OneWins(ordered: seq<Client>, st: Allocation, item: SessionRecord)
    requires Sorted(ordered, NewerClient) && Candidates(ordered, st, item) != []
    ensures var first := Candidates(ordered, st, item)[0];
      && IsPick(ordered, item, Served(st), st.openOwners, first)
      && forall c | IsPick(ordered, item, Served(st), st.openOwners, c) :: c.pid == first.pid
  {
    var pool := Candidates(ordered, st, item);
    var first := pool[0];
    CandidatesSorted(ordered, st, item);
    PreferredIs(ordered, st, item, first);
    forall d <- ordered | Preferred(ordered, item, Served(st), st.openOwners, d) ensures NoNewer(d, first) {
      PreferredIs(ordered, st, item, d);
      var k :| 0 <= k < |pool| && pool[k] == d;
      assert k > 0 ==> NewerClient(first, d);
    }
  }

  /** In every state a session goes to the newest preferred client, and to nobody only when none is eligible. */
  lemma PickIs(ordered: seq<Client>, st: Allocation, item: SessionRecord, pid: int)
    requires Sorted(ordered, NewerClient)
    ensures (exists c :: c in ordered && Eligible(c, item))
            <==> exists c :: IsPick(ordered, item, Served(st), st.openOwners, c)
    ensures var pool := Candidates(ordered, st, item);
      pool != [] && pool[0].pid == pid
      <==> exists c :: IsPick(ordered, item, Served(st), st.openOwners, c) && c.pid == pid
  {
    var pool := Candidates(ordered, st, item);
    if pool != [] {
      OneWins(ordered, st, item);
    } else {
      SomePreferred(ordered, st, item);
    }
  }

  lemma SomePreferred(ordered: seq<Client>, st: Allocation, item: SessionRecord)
    requires Candidates(ordered, st, item) == []
    ensures forall c <- ordered :: !Eligible(c, item)
    ensures forall c :: !IsPick(ordered, item, Served(st), st.openOwners, c)
  {
    var eligible := Filter(ordered, EligibleFor(item));
    assert MayTakePool(ordered, st, item) == [];
    assert eligible == [];
    FilterMembers(ordered, EligibleFor(item));
    forall c <- ordered ensures !Eligible(c, item) {
      assert c !in eligible;
    }
  }

  // ---- the whole allocation --------------------------------------------------------------------------------------

  /** The clients that own one of the first n sessions of the queue, or one of its open turns. */
  ghost function Owners(roots: seq<Client>, records: seq<SessionRecord>, n: nat, turns: bool): set<int>
    requires n <= |Queue(records)|
  {
    set c | c in roots && OwnsOneOf(roots, records, n, turns, c.pid) :: c.pid
  }

  ghost predicate OwnsOneOf(roots: seq<Client>, records: seq<SessionRecord>, n: nat, turns: bool, pid: int)
    requires n <= |Queue(records)|
  {
    exists k | 0 <= k < n ::
      (turns ==> Queue(records)[k].openTurn) && Owns(Allocate(roots, records), pid, Queue(records)[k].sessionId)
  }

  lemma ServedGrow(ordered: seq<Client>, st: Allocation, items: seq<SessionRecord>, n: nat, pid: int)
    requires 0 < n <= |items|
    ensures pid in Served(ServeAll(ordered, st, items[..n])) <==>
      pid in Served(ServeAll(ordered, st, items[..n - 1])) || PickedAt(ordered, st, items, n - 1, pid)
  {
    PassStep(ordered, st, items, n);
    ServedStep(ordered, ServeAll(ordered, st, items[..n - 1]), items[n - 1]);
  }

  ghost predicate PickedBefore(ordered: seq<Client>, st: Allocation, items: seq<SessionRecord>, n: nat, pid: int)
    requires n <= |items|
  {
    exists k | 0 <= k < n :: PickedAt(ordered, st, items, k, pid)
  }

  lemma PickedOneMore(ordered: seq<Client>, st: Allocation, items: seq<SessionRecord>, n: nat, pid: int)
    requires 0 < n <= |items|
    ensures PickedBefore(ordered, st, items, n, pid) <==>
      PickedBefore(ordered, st, items, n - 1, pid) || PickedAt(ordered, st, items, n - 1, pid)
  {
  }

  lemma {:induction false} ServedMeans(
    ordered: seq<Client>, st: Allocation, items: seq<SessionRecord>, n: nat, pid: int)
    requires n <= |items| && Served(st) == {}
    ensures pid in Served(ServeAll(ordered, st, items[..n])) <==> PickedBefore(ordered, st, items, n, pid)
  {
    if n == 0 {
      assert items[..0] == [];
    } else {
      ServedMeans(ordered, st, items, n - 1, pid);
      ServedGrow(ordered, st, items, n, pid);
      PickedOneMore(ordered, st, items, n, pid);
    }
  }

  ghost predicate TurnPickedBefore(
    ordered: seq<Client>, st: Allocation, items: seq<SessionRecord>, n: nat, pid: int)
    requires n <= |items|
  {
    exists k | 0 <= k < n :: OpenTurnPickedAt(ordered, st, items, k, pid)
  }

  lemma RunningMeans(ordered: seq<Client>, st: Allocation, items: seq<SessionRecord>, n: nat, pid: int)
    requires n <= |items| && st.openOwners == {}
    ensures pid in ServeAll(ordered, st, items[..n]).openOwners <==> TurnPickedBefore(ordered, st, items, n, pid)
  {
    if pid in ServeAll(ordered, st, items[..n]).openOwners {
      var k := OpenOwnerFound(ordered, st, items, n, pid);
    }
    if k: nat :| k < n && OpenTurnPickedAt(ordered, st, items, k, pid) {
      OpenOwnerKept(ordered, st, items, n, k, pid);
    }
  }

  /** The pass has served a client before the n-th session if and only if it owns one of the sessions before it. */
  lemma KnownBusy(roots: seq<Client>, records: seq<SessionRecord>, n: nat, pid: int)
    requires DistinctSessions(records) && n <= |Queue(records)|
    ensures pid in Served(ServeAll(Clients(roots), Nobody(roots), Queue(records)[..n]))
            <==> OwnsOneOf(roots, records, n, false, pid)
  {
    ServedMeans(Clients(roots), Nobody(roots), Queue(records), n, pid);
    forall k: nat | k < n {
      FinallyPicked(roots, records, k, pid);
    }
  }

  /** And given it an open turn if and only if one of those is an open turn. */
  lemma KnownRunning(roots: seq<Client>, records: seq<SessionRecord>, n: nat, pid: int)
    requires DistinctSessions(records) && n <= |Queue(records)|
    ensures pid in ServeAll(Clients(roots), Nobody(roots), Queue(records)[..n]).openOwners
            <==> OwnsOneOf(roots, records, n, true, pid)
  {
    var ordered, items, none := Clients(roots), Queue(records), Nobody(roots);
    RunningMeans(ordered, none, items, n, pid);
    forall k: nat | k < n
      ensures OpenTurnPickedAt(ordered, none, items, k, pid)
              <==> items[k].openTurn && Owns(Allocate(roots, records), pid, items[k].sessionId)
    {
      FinallyPicked(roots, records, k, pid);
    }
    TurnsOwned(roots, records, n, pid);
  }

  lemma TurnsOwned(roots: seq<Client>, records: seq<SessionRecord>, n: nat, pid: int)
    requires n <= |Queue(records)|
    requires forall k: nat | k < n ::
      OpenTurnPickedAt(Clients(roots), Nobody(roots), Queue(records), k, pid)
      <==> Queue(records)[k].openTurn && Owns(Allocate(roots, records), pid, Queue(records)[k].sessionId)
    ensures TurnPickedBefore(Clients(roots), Nobody(roots), Queue(records), n, pid)
            <==> OwnsOneOf(roots, records, n, true, pid)
  {
  }

  lemma FinallyPicked(roots: seq<Client>, records: seq<SessionRecord>, k: nat, pid: int)
    requires DistinctSessions(records) && k < |Queue(records)|
    ensures Owns(Allocate(roots, records), pid, Queue(records)[k].sessionId)
            <==> PickedAt(Clients(roots), Nobody(roots), Queue(records), k, pid)
  {
    QueueOf(records);
    OwnerIsPicked(Clients(roots), Nobody(roots), Queue(records), k, pid);
  }

  lemma SamePick(
    roots: seq<Client>, ordered: seq<Client>, item: SessionRecord, busy: set<int>, running: set<int>,
    busy': set<int>, running': set<int>, c: Client)
    requires forall d :: d in roots <==> d in ordered
    requires forall d <- roots :: (d.pid in busy <==> d.pid in busy') && (d.pid in running <==> d.pid in running')
    ensures IsPick(roots, item, busy, running, c) <==> IsPick(ordered, item, busy', running', c)
  {
    forall d ensures MayTake(roots, item, running, d) <==> MayTake(ordered, item, running', d) {
    }
    forall d ensures Preferred(roots, item, busy, running, d) <==> Preferred(ordered, item, busy', running', d) {
    }
  }

  /** The n-th dated session, newest first, belongs to a client if and only if that client is the newest preferred
      one, given who owns the sessions before it: the allocation is the only one that follows the rule. */
  lemma OwnerIsThePick(roots: seq<Client>, records: seq<SessionRecord>, n: nat, pid: int)
    requires DistinctSessions(records) && n < |Queue(records)|
    ensures var busy, running := Owners(roots, records, n, false), Owners(roots, records, n, true);
      Owns(Allocate(roots, records), pid, Queue(records)[n].sessionId)
      <==> exists c :: IsPick(roots, Queue(records)[n], busy, running, c) && c.pid == pid
  {
    var ordered, items, none := Clients(roots), Queue(records), Nobody(roots);
    var st := ServeAll(ordered, none, items[..n]);
    var busy, running := Owners(roots, records, n, false), Owners(roots, records, n, true);
    SortSorts(roots, NewerClient);
    SortMembers(roots, NewerClient);
    FinallyPicked(roots, records, n, pid);
    PickIs(ordered, st, items[n], pid);
    forall d <- roots
      ensures (d.pid in busy <==> d.pid in Served(st)) && (d.pid in running <==> d.pid in st.openOwners)
    {
      KnownBusy(roots, records, n, d.pid);
      KnownRunning(roots, records, n, d.pid);
    }
    forall c
      ensures IsPick(roots, items[n], busy, running, c) <==> IsPick(ordered, items[n], Served(st), st.openOwners, c)
    {
      SamePick(roots, ordered, items[n], busy, running, Served(st), st.openOwners, c);
    }
  }
}
