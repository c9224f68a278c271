/** Handing the shared daemon's sessions to the live clients of one directory
    (src/codex_cli_monitor/monitor.py, `_allocate_shared_sessions`). */
module SharedSessions {
  import opened Sequences

  const REFERENCE_GRACE_SECONDS := 1.0

  datatype Client = Client(pid: int, startedAt: Option<real>)

  datatype SessionRecord = SessionRecord(
    sessionId: string, createdAt: Option<real>, openTurn: bool, attachedAt: Option<real>)
  {
    function ReferenceAt(): Option<real> {
      if attachedAt.Some? then attachedAt else createdAt
    }
  }

  /** What the loop carries: `owned` and `open_turn_owners`. */
  datatype Allocation = Allocation(owned: map<int, set<string>>, openOwners: set<int>)

  function StartOrZero(c: Client): real {
    if c.startedAt.Some? then c.startedAt.value else 0.0
  }

  predicate NewerClient(a: Client, b: Client) {
    StartOrZero(a) > StartOrZero(b) || (StartOrZero(a) == StartOrZero(b) && a.pid >= b.pid)
  }

  predicate NewerRecord(a: SessionRecord, b: SessionRecord) {
    ReferenceOrZero(a) >= ReferenceOrZero(b)
  }

  function ReferenceOrZero(r: SessionRecord): real {
    if r.ReferenceAt().Some? then r.ReferenceAt().value else 0.0
  }

  predicate Dated(r: SessionRecord) {
    r.ReferenceAt().Some?
  }

  /** The client already existed, up to the grace, when the session was created or resumed. */
  predicate Eligible(c: Client, item: SessionRecord) {
    c.startedAt.Some? && Dated(item) &&
    c.startedAt.value <= item.ReferenceAt().value + REFERENCE_GRACE_SECONDS
  }

  /** Keep the preferred part of a pool unless it is empty. */
  function Prefer(pool: seq<Client>, p: Client -> bool): seq<Client> {
    if Filter(pool, p) != [] then Filter(pool, p) else pool
  }

  predicate Idle(owned: map<int, set<string>>, c: Client) {
    c.pid !in owned || owned[c.pid] == {}
  }

  function EligibleFor(item: SessionRecord): Client -> bool {
    (c: Client) => Eligible(c, item)
  }

  function RunsNoTurn(openOwners: set<int>): Client -> bool {
    (c: Client) => c.pid !in openOwners
  }

  function IdleIn(owned: map<int, set<string>>): Client -> bool {
    (c: Client) => Idle(owned, c)
  }

  function Candidates(ordered: seq<Client>, st: Allocation, item: SessionRecord): seq<Client> {
    var eligible := Filter(ordered, EligibleFor(item));
    var free := if item.openTurn then Prefer(eligible, RunsNoTurn(st.openOwners)) else eligible;
    Prefer(free, IdleIn(st.owned))
  }

  function Serve(ordered: seq<Client>, st: Allocation, item: SessionRecord): Allocation {
    var pool := Candidates(ordered, st, item);
    if pool == [] then st
    else Assign(st, pool[0].pid, item)
  }

  function Assign(st: Allocation, pid: int, item: SessionRecord): Allocation {
    Allocation(
      st.owned[pid := (if pid in st.owned then st.owned[pid] else {}) + {item.sessionId}],
      if item.openTurn then st.openOwners + {pid} else st.openOwners)
  }

  function ServeAll(ordered: seq<Client>, st: Allocation, items: seq<SessionRecord>): Allocation {
    if items == [] then st else Serve(ordered, ServeAll(ordered, st, Front(items)), Last(items))
  }

  function Clients(roots: seq<Client>): seq<Client> {
    StableSort(roots, NewerClient)
  }

  function Queue(records: seq<SessionRecord>): seq<SessionRecord> {
    StableSort(Filter(records, Dated), NewerRecord)
  }

  function Nobody(roots: seq<Client>): Allocation {
    Allocation(map c | c in roots :: c.pid := {}, {})
  }

  function Allocate(roots: seq<Client>, records: seq<SessionRecord>): Allocation {
    ServeAll(Clients(roots), Nobody(roots), Queue(records))
  }

  method AllocateSharedSessions(roots: seq<Client>, records: seq<SessionRecord>)
    returns (result: map<int, set<string>>)
    ensures result == Allocate(roots, records).owned
  {
    var orderedRoots := Clients(roots);
    var items := Queue(records);
    var owned: map<int, set<string>> := map c | c in roots :: c.pid := {};
    var openTurnOwners: set<int> := {};
    ghost var start := Allocation(owned, openTurnOwners);
    for i := 0 to |items|
      invariant Allocation(owned, openTurnOwners) == ServeAll(orderedRoots, start, items[..i])
    {
      var item := items[i];
      ghost var before := Allocation(owned, openTurnOwners);
      PassStep(orderedRoots, start, items, i + 1);
      var eligible := Filter(orderedRoots, EligibleFor(item));
      if eligible == [] {
        continue;
      }
      if item.openTurn {
        var free := Filter(eligible, RunsNoTurn(openTurnOwners));
        if free != [] {
          eligible := free;
        }
      }
      var unclaimed := Filter(eligible, IdleIn(owned));
      if unclaimed != [] {
        eligible := unclaimed;
      }
      assert eligible == Candidates(orderedRoots, before, item);
      var owner := eligible[0];
      owned := owned[owner.pid := (if owner.pid in owned then owned[owner.pid] else {}) + {item.sessionId}];
      if item.openTurn {
        openTurnOwners := openTurnOwners + {owner.pid};
      }
    }
    assert items[..|items|] == items;
    result := owned;
  }

  lemma ServePush(ordered: seq<Client>, st: Allocation, items: seq<SessionRecord>, item: SessionRecord)
    ensures ServeAll(ordered, st, items + [item]) == Serve(ordered, ServeAll(ordered, st, items), item)
  {
    assert Front(items + [item]) == items;
  }

  // ---- one step of the greedy pass -----------------------------------------------

  ghost function Served(st: Allocation): set<int> {
    set p | p in st.owned && st.owned[p] != {}
  }

  ghost predicate Consistent(st: Allocation) {
    st.openOwners <= Served(st)
  }

  /** Whom one session goes to. The open-turn filter never hides an idle client, so an idle
      eligible client always wins, and the newest of them does. */
  lemma PickedClient(ordered: seq<Client>, st: Allocation, item: SessionRecord)
    requires Sorted(ordered, NewerClient) && Consistent(st)
    ensures var pool := Candidates(ordered, st, item);
      if pool == [] then forall c <- ordered :: !Eligible(c, item)
      else
        && pool[0] in ordered && Eligible(pool[0], item)
        && (forall c <- ordered | Eligible(c, item) && Idle(st.owned, c) ::
              Idle(st.owned, pool[0]) && StartOrZero(pool[0]) >= StartOrZero(c))
        && (item.openTurn && pool[0].pid in st.openOwners ==>
              forall c <- ordered | Eligible(c, item) :: c.pid in st.openOwners)
  {
    var eligible := Filter(ordered, EligibleFor(item));
    FilterMembers(ordered, EligibleFor(item));
    FilterSorted(ordered, EligibleFor(item), NewerClient);
    FilterMembers(eligible, RunsNoTurn(st.openOwners));
    FilterSorted(eligible, RunsNoTurn(st.openOwners), NewerClient);
    var free := if item.openTurn then Prefer(eligible, RunsNoTurn(st.openOwners)) else eligible;
    FilterMembers(free, IdleIn(st.owned));
    FilterSorted(free, IdleIn(st.owned), NewerClient);
    var pool := Prefer(free, IdleIn(st.owned));
    assert pool == Candidates(ordered, st, item);
    if pool != [] {
      assert pool[0] in pool && pool[0] in free && pool[0] in eligible;
      forall c <- ordered | Eligible(c, item) && Idle(st.owned, c)
        ensures Idle(st.owned, pool[0]) && StartOrZero(pool[0]) >= StartOrZero(c)
      {
        assert c in eligible && c.pid !in st.openOwners;
        assert c in Filter(eligible, RunsNoTurn(st.openOwners));
        assert c in free && c in Filter(free, IdleIn(st.owned));
        var k :| 0 <= k < |pool| && pool[k] == c;
      }
    } else {
      assert eligible == [];
      assert forall c <- ordered | Eligible(c, item) :: c in eligible;
    }
  }

  lemma StepGrows(ordered: seq<Client>, st: Allocation, item: SessionRecord)
    requires Consistent(st)
    ensures var next := Serve(ordered, st, item);
      Consistent(next) && Served(st) <= Served(next) &&
      (Candidates(ordered, st, item) != [] ==> Candidates(ordered, st, item)[0].pid in Served(next))
  {
    var pool := Candidates(ordered, st, item);
    if pool != [] {
      var next := Serve(ordered, st, item);
      assert item.sessionId in next.owned[pool[0].pid];
    }
  }

  lemma {:induction false} RunGrows(ordered: seq<Client>, st: Allocation, items: seq<SessionRecord>)
    requires Consistent(st)
    ensures Consistent(ServeAll(ordered, st, items))
    ensures Served(st) <= Served(ServeAll(ordered, st, items))
  {
    if items != [] {
      RunGrows(ordered, st, Front(items));
      StepGrows(ordered, ServeAll(ordered, st, Front(items)), Last(items));
    }
  }

  // ---- the pass serves as many clients as any assignment can -------------------------

  ghost predicate DistinctPids(roots: seq<Client>) {
    forall c, d :: c in roots && d in roots && c.pid == d.pid ==> c == d
  }

  ghost predicate CanServe(roots: seq<Client>, items: seq<SessionRecord>, session: string, pid: int) {
    exists item, c :: item in items && c in roots && item.sessionId == session && c.pid == pid && Eligible(c, item)
  }

  /** Any way at all of giving each session to at most one client it may belong to. */
  ghost predicate Assignment(roots: seq<Client>, items: seq<SessionRecord>, g: map<string, int>) {
    forall s :: s in g ==> CanServe(roots, items, s, g[s])
  }

  ghost predicate After(c: Client, t: Option<real>) {
    t.Some? ==> c.startedAt.Some? && c.startedAt.value > t.value
  }

  ghost function Above(roots: seq<Client>, pids: set<int>, t: Option<real>): set<Client> {
    set c | c in roots && c.pid in pids && After(c, t)
  }

  lemma SubsetSize<T>(a: set<T>, b: set<T>)
    requires a <= b
    ensures |a| <= |b|
  {
    assert b == a + (b - a);
  }

  function Bound(item: SessionRecord): Option<real> {
    Some(ReferenceOrZero(item) + REFERENCE_GRACE_SECONDS)
  }

  lemma AboveMonotone(ordered: seq<Client>, a: set<int>, b: set<int>, t: Option<real>)
    requires a <= b
    ensures |Above(ordered, a, t)| <= |Above(ordered, b, t)|
  {
    SubsetSize(Above(ordered, a, t), Above(ordered, b, t));
  }

  lemma AboveNewcomer(ordered: seq<Client>, before: set<int>, after: set<int>, c: Client, t: Option<real>)
    requires before <= after && c in ordered && c.pid in after && c.pid !in before && After(c, t)
    ensures |Above(ordered, before, t)| + 1 <= |Above(ordered, after, t)|
  {
    SubsetSize(Above(ordered, before, t) + {c}, Above(ordered, after, t));
  }

  /** When every client the session may go to already has one, the clients above t are those up to
      the session's bound, all served, and those beyond it, which the session cannot reach. */
  lemma AboveFull(
    ordered: seq<Client>, items: seq<SessionRecord>, g: map<string, int>, before: set<int>, t: Option<real>)
    requires items != [] && Dated(Last(items)) && DistinctPids(ordered) && Assignment(ordered, items, g)
    requires t.Some? ==> t.value < Bound(Last(items)).value
    requires forall c <- ordered | Eligible(c, Last(items)) && After(c, t) :: c.pid in before
    requires |Above(ordered, WithoutLast(ordered, items, g).Values, Bound(Last(items)))|
             <= |Above(ordered, before, Bound(Last(items)))|
    ensures |Above(ordered, g.Values, t)| <= |Above(ordered, before, t)|
  {
    var g' := WithoutLast(ordered, items, g);
    var bound := Bound(Last(items));
    var middle := set c | c in ordered && After(c, t) && Eligible(c, Last(items));
    var high, high' := Above(ordered, before, bound), Above(ordered, g'.Values, bound);
    var theirs := Above(ordered, g.Values, t);
    assert middle !! high;
    SubsetSize(middle + high, Above(ordered, before, t));
    forall c <- theirs ensures c in middle + high' {
      Started(ordered, items, g, c);
      if c !in middle && c.pid !in g'.Values {
        Dropped(ordered, items, g, c);
      }
    }
    SubsetSize(theirs, middle + high');
  }

  ghost function WithoutLast(roots: seq<Client>, items: seq<SessionRecord>, g: map<string, int>): map<string, int>
    requires items != []
  {
    map s | s in g && CanServe(roots, Front(items), s, g[s]) :: g[s]
  }

  /** Above every start time, the clients served so far are at least as many as any assignment
      of the same sessions serves: taking the newest idle client never costs a later session. */
  lemma {:induction false} ServedDominates(
    ordered: seq<Client>, st: Allocation, items: seq<SessionRecord>, g: map<string, int>, t: Option<real>)
    requires Sorted(ordered, NewerClient) && DistinctPids(ordered) && Consistent(st)
    requires Assignment(ordered, items, g)
    ensures |Above(ordered, g.Values, t)| <= |Above(ordered, Served(ServeAll(ordered, st, items)), t)|
    decreases |items|
  {
    if items == [] {
      assert forall s :: s in g ==> CanServe(ordered, items, s, g[s]);
      assert Above(ordered, g.Values, t) == {};
    } else {
      var g' := WithoutLast(ordered, items, g);
      var prev := ServeAll(ordered, st, Front(items));
      RunGrows(ordered, st, Front(items));
      ServedDominates(ordered, st, Front(items), g', t);
      ServedDominates(ordered, st, Front(items), g', Bound(Last(items)));
      DominatesStep(ordered, prev, items, g, t);
    }
  }

  lemma Dropped(ordered: seq<Client>, items: seq<SessionRecord>, g: map<string, int>, c: Client)
    requires items != [] && DistinctPids(ordered) && Assignment(ordered, items, g)
    requires c in ordered && c.pid in g.Values && c.pid !in WithoutLast(ordered, items, g).Values
    ensures Eligible(c, Last(items)) && Last(items).sessionId in g && g[Last(items).sessionId] == c.pid
  {
    var g' := WithoutLast(ordered, items, g);
    forall s | s in g && g[s] == c.pid ensures !CanServe(ordered, Front(items), s, g[s]) {
      assert s !in g';
    }
    OnlyLast(ordered, items, g, c);
  }

  /** One more session lets an assignment serve at most one more client, and none that started
      after the session could reach. */
  lemma AssignmentStep(ordered: seq<Client>, items: seq<SessionRecord>, g: map<string, int>, t: Option<real>)
    requires DistinctPids(ordered) && items != [] && Assignment(ordered, items, g)
    ensures var size := |Above(ordered, g.Values, t)|;
      var size' := |Above(ordered, WithoutLast(ordered, items, g).Values, t)|;
      && size <= size' + 1
      && (!Dated(Last(items)) || (t.Some? && Bound(Last(items)).value <= t.value) ==> size <= size')
  {
    var theirs, theirs' := Above(ordered, g.Values, t), Above(ordered, WithoutLast(ordered, items, g).Values, t);
    forall c <- theirs | c !in theirs'
      ensures Eligible(c, Last(items)) && Last(items).sessionId in g && g[Last(items).sessionId] == c.pid
    {
      Dropped(ordered, items, g, c);
    }
    if c :| c in theirs && c !in theirs' {
      SameServed(ordered, theirs, theirs', c.pid);
    } else {
      SubsetSize(theirs, theirs');
    }
  }

  lemma DominatesStep(
    ordered: seq<Client>, prev: Allocation, items: seq<SessionRecord>, g: map<string, int>, t: Option<real>)
    requires Sorted(ordered, NewerClient) && DistinctPids(ordered) && Consistent(prev)
    requires items != [] && Assignment(ordered, items, g)
    requires var g' := WithoutLast(ordered, items, g);
      && |Above(ordered, g'.Values, t)| <= |Above(ordered, Served(prev), t)|
      && |Above(ordered, g'.Values, Bound(Last(items)))| <= |Above(ordered, Served(prev), Bound(Last(items)))|
    ensures |Above(ordered, g.Values, t)| <= |Above(ordered, Served(Serve(ordered, prev, Last(items))), t)|
  {
    var item, before := Last(items), Served(prev);
    var after := Served(Serve(ordered, prev, item));
    var pool := Candidates(ordered, prev, item);
    StepGrows(ordered, prev, item);
    PickedClient(ordered, prev, item);
    AssignmentStep(ordered, items, g, t);
    if pool != [] && Idle(prev.owned, pool[0]) && After(pool[0], t) {
      AboveNewcomer(ordered, before, after, pool[0], t);
    } else {
      AboveMonotone(ordered, before, after, t);
      if Dated(item) && (t.Some? ==> t.value < Bound(item).value) {
        forall c <- ordered | Eligible(c, item) && After(c, t) ensures c.pid in before {
          var first := pool[0];
          assert Idle(prev.owned, c) ==> After(first, t);
        }
        AboveFull(ordered, items, g, before, t);
      }
    }
  }

  lemma Started(ordered: seq<Client>, items: seq<SessionRecord>, g: map<string, int>, c: Client)
    requires DistinctPids(ordered) && Assignment(ordered, items, g) && c in ordered && c.pid in g.Values
    ensures c.startedAt.Some?
  {
    var s :| s in g && g[s] == c.pid;
    assert CanServe(ordered, items, s, g[s]);
  }

  /** A client an assignment can only serve with the last session is served by that session. */
  lemma OnlyLast(ordered: seq<Client>, items: seq<SessionRecord>, g: map<string, int>, c: Client)
    requires items != [] && DistinctPids(ordered) && Assignment(ordered, items, g)
    requires c in ordered && c.pid in g.Values
    requires forall s :: s in g && g[s] == c.pid ==> !CanServe(ordered, Front(items), s, g[s])
    ensures var last := Last(items); Eligible(c, last) && last.sessionId in g && g[last.sessionId] == c.pid
  {
    var s :| s in g && g[s] == c.pid;
    assert CanServe(ordered, items, s, g[s]);
    var item, d :| item in items && d in ordered && item.sessionId == s && d.pid == g[s] && Eligible(d, item);
    assert d == c;
    assert items == Front(items) + [Last(items)];
  }

  lemma SameServed(ordered: seq<Client>, big: set<Client>, small: set<Client>, pid: int)
    requires DistinctPids(ordered) && (forall c <- big :: c in ordered)
    requires forall c <- big | c !in small :: c.pid == pid
    ensures |big| <= |small| + 1
  {
    if c :| c in big && c !in small {
      assert big <= small + {c};
      SubsetSize(big, small + {c});
    } else {
      SubsetSize(big, small);
    }
  }

  lemma OrdersClients(roots: seq<Client>)
    requires DistinctPids(roots)
    ensures Sorted(Clients(roots), NewerClient) && DistinctPids(Clients(roots))
    ensures forall c :: c in Clients(roots) <==> c in roots
  {
    SortSorts(roots, NewerClient);
    SortMembers(roots, NewerClient);
  }

  ghost function Pids(roots: seq<Client>): set<int> {
    set c | c in roots :: c.pid
  }

  lemma {:induction false} PidsCount(ordered: seq<Client>, pids: set<int>)
    requires DistinctPids(ordered) && pids <= Pids(ordered)
    ensures |Above(ordered, pids, None)| == |pids|
  {
    if pids == {} {
      assert Above(ordered, pids, None) == {};
    } else {
      var p :| p in pids;
      var c :| c in ordered && c.pid == p;
      PidsCount(ordered, pids - {p});
      assert Above(ordered, pids, None) == Above(ordered, pids - {p}, None) + {c};
    }
  }

  lemma {:induction false} RunOwners(ordered: seq<Client>, st: Allocation, items: seq<SessionRecord>)
    requires Sorted(ordered, NewerClient) && Consistent(st) && st.owned.Keys == Pids(ordered)
    ensures ServeAll(ordered, st, items).owned.Keys == Pids(ordered)
  {
    if items != [] {
      RunOwners(ordered, st, Front(items));
      RunGrows(ordered, st, Front(items));
      PickedClient(ordered, ServeAll(ordered, st, Front(items)), Last(items));
    }
  }

  /** The allocation serves the maximum possible number of clients. */
  lemma ServesTheMost(roots: seq<Client>, records: seq<SessionRecord>, g: map<string, int>)
    requires DistinctPids(roots) && Assignment(roots, records, g)
    ensures |g.Values| <= |Served(Allocate(roots, records))|
  {
    OrdersClients(roots);
    var ordered, items := Clients(roots), Queue(records);
    FilterMembers(records, Dated);
    SortMembers(Filter(records, Dated), NewerRecord);
    forall s | s in g ensures CanServe(ordered, items, s, g[s]) {
      assert CanServe(roots, records, s, g[s]);
      var item, c :| item in records && c in roots && item.sessionId == s && c.pid == g[s] && Eligible(c, item);
      assert item in items && c in ordered;
    }
    ServedDominates(ordered, Nobody(roots), items, g, None);
    RunOwners(ordered, Nobody(roots), items);
    forall p <- g.Values ensures p in Pids(ordered) {
      var s :| s in g && g[s] == p;
      assert CanServe(ordered, items, s, g[s]);
    }
    PidsCount(ordered, g.Values);
    PidsCount(ordered, Served(Allocate(roots, records)));
  }

  // ---- each session has one owner; open turns share a client only when they must -------

  ghost predicate Owns(st: Allocation, pid: int, session: string) {
    pid in st.owned && session in st.owned[pid]
  }

  ghost predicate DistinctSessions(items: seq<SessionRecord>) {
    Distinct(items, (r: SessionRecord) => r.sessionId)
  }

  lemma QueueOf(records: seq<SessionRecord>)
    requires DistinctSessions(records)
    ensures DistinctSessions(Queue(records)) && Sorted(Queue(records), NewerRecord)
    ensures forall r :: r in Queue(records) <==> r in records && Dated(r)
  {
    var id := (r: SessionRecord) => r.sessionId;
    FilterMembers(records, Dated);
    FilterDistinct(records, Dated, id);
    SortDistinct(Filter(records, Dated), NewerRecord, id);
    SortMembers(Filter(records, Dated), NewerRecord);
    SortSorts(Filter(records, Dated), NewerRecord);
  }

  lemma ServeOwns(ordered: seq<Client>, st: Allocation, item: SessionRecord, pid: int, session: string)
    ensures var pool, next := Candidates(ordered, st, item), Serve(ordered, st, item);
      var picked := pool != [] && pool[0].pid == pid;
      && (Owns(next, pid, session) <==> Owns(st, pid, session) || (picked && session == item.sessionId))
      && (pid in next.openOwners <==> pid in st.openOwners || (picked && item.openTurn))
  {
  }

  /** Session j went to this client when its turn came. */
  ghost predicate PickedAt(ordered: seq<Client>, st: Allocation, items: seq<SessionRecord>, j: nat, pid: int)
    requires j < |items|
  {
    var pool := Candidates(ordered, ServeAll(ordered, st, items[..j]), items[j]);
    pool != [] && pool[0].pid == pid
  }

  /** The final allocation says exactly what happened at each step. */
  lemma {:induction false} OwnerIsPicked(
    ordered: seq<Client>, st: Allocation, items: seq<SessionRecord>, j: nat, pid: int)
    requires j < |items| && DistinctSessions(items)
    requires !Owns(st, pid, items[j].sessionId)
    ensures Owns(ServeAll(ordered, st, items), pid, items[j].sessionId) <==> PickedAt(ordered, st, items, j, pid)
  {
    var front := Front(items);
    ServeOwns(ordered, ServeAll(ordered, st, front), Last(items), pid, items[j].sessionId);
    if j == |items| - 1 {
      assert front == items[..j];
      NotYetOwned(ordered, st, front, items[j].sessionId, pid);
    } else {
      OwnerIsPicked(ordered, st, front, j, pid);
      assert front[..j] == items[..j];
      assert items[j].sessionId != Last(items).sessionId;
    }
  }

  lemma {:induction false} NotYetOwned(
    ordered: seq<Client>, st: Allocation, items: seq<SessionRecord>, session: string, pid: int)
    requires !Owns(st, pid, session) && forall r <- items :: r.sessionId != session
    ensures !Owns(ServeAll(ordered, st, items), pid, session)
  {
    if items != [] {
      NotYetOwned(ordered, st, Front(items), session, pid);
      ServeOwns(ordered, ServeAll(ordered, st, Front(items)), Last(items), pid, session);
    }
  }

  ghost predicate OpenTurnPickedAt(ordered: seq<Client>, st: Allocation, items: seq<SessionRecord>, k: nat, pid: int)
    requires k < |items|
  {
    items[k].openTurn && PickedAt(ordered, st, items, k, pid)
  }

  lemma PassStep(ordered: seq<Client>, st: Allocation, items: seq<SessionRecord>, n: nat)
    requires 0 < n <= |items|
    ensures ServeAll(ordered, st, items[..n]) == Serve(ordered, ServeAll(ordered, st, items[..n - 1]), items[n - 1])
  {
    SplitAt(items, n - 1);
    ServePush(ordered, st, items[..n - 1], items[n - 1]);
  }

  lemma OwnersGrow(ordered: seq<Client>, st: Allocation, items: seq<SessionRecord>, n: nat, pid: int)
    requires 0 < n <= |items|
    ensures pid in ServeAll(ordered, st, items[..n]).openOwners <==>
      pid in ServeAll(ordered, st, items[..n - 1]).openOwners || OpenTurnPickedAt(ordered, st, items, n - 1, pid)
  {
    PassStep(ordered, st, items, n);
    ServeOwns(ordered, ServeAll(ordered, st, items[..n - 1]), items[n - 1], pid, "");
  }

  /** `open_turn_owners` holds every client an earlier open turn went to, and no other. */
  lemma {:induction false} OpenOwnerKept(
    ordered: seq<Client>, st: Allocation, items: seq<SessionRecord>, n: nat, k: nat, pid: int)
    requires k < n <= |items| && OpenTurnPickedAt(ordered, st, items, k, pid)
    ensures pid in ServeAll(ordered, st, items[..n]).openOwners
  {
    OwnersGrow(ordered, st, items, n, pid);
    if k < n - 1 {
      OpenOwnerKept(ordered, st, items, n - 1, k, pid);
    }
  }

  lemma {:induction false} OpenOwnerFound(
    ordered: seq<Client>, st: Allocation, items: seq<SessionRecord>, n: nat, pid: int) returns (k: nat)
    requires n <= |items| && st.openOwners == {} && pid in ServeAll(ordered, st, items[..n]).openOwners
    ensures k < n && OpenTurnPickedAt(ordered, st, items, k, pid)
  {
    assert n > 0 by {
      assert items[..0] == [];
    }
    OwnersGrow(ordered, st, items, n, pid);
    k := n - 1;
    if !OpenTurnPickedAt(ordered, st, items, k, pid) {
      k := OpenOwnerFound(ordered, st, items, n - 1, pid);
    }
  }

  lemma SameSession(records: seq<SessionRecord>, q: SessionRecord, r: SessionRecord)
    requires DistinctSessions(records) && q in records && r in records && q.sessionId == r.sessionId
    ensures q == r
  {
    var a :| 0 <= a < |records| && records[a] == q;
    var b :| 0 <= b < |records| && records[b] == r;
    var id := (r: SessionRecord) => r.sessionId;
    assert id(records[a]) == id(records[b]);
  }

  /** Every dated session some live client may own goes to exactly one client, one that may own it. */
  lemma EachSessionOnce(roots: seq<Client>, records: seq<SessionRecord>, r: SessionRecord) returns (owner: Client)
    requires DistinctSessions(records) && r in records
    requires exists c :: c in roots && Eligible(c, r)
    ensures owner in roots && Eligible(owner, r)
    ensures forall p :: Owns(Allocate(roots, records), p, r.sessionId) <==> p == owner.pid
  {
    var ordered, items, none := Clients(roots), Queue(records), Nobody(roots);
    QueueOf(records);
    SortSorts(roots, NewerClient);
    SortMembers(roots, NewerClient);
    var j :| 0 <= j < |items| && items[j] == r;
    var before := ServeAll(ordered, none, items[..j]);
    RunGrows(ordered, none, items[..j]);
    PickedClient(ordered, before, r);
    owner := Candidates(ordered, before, r)[0];
    forall p ensures Owns(Allocate(roots, records), p, r.sessionId) <==> p == owner.pid {
      OwnerIsPicked(ordered, none, items, j, p);
    }
  }

  /** No other session goes anywhere. */
  lemma UnreachableSessionStaysFree(roots: seq<Client>, records: seq<SessionRecord>, r: SessionRecord, pid: int)
    requires DistinctSessions(records) && r in records
    requires !exists c :: c in roots && Eligible(c, r)
    ensures !Owns(Allocate(roots, records), pid, r.sessionId)
  {
    var ordered, items, none := Clients(roots), Queue(records), Nobody(roots);
    QueueOf(records);
    SortSorts(roots, NewerClient);
    SortMembers(roots, NewerClient);
    if Dated(r) {
      var j :| 0 <= j < |items| && items[j] == r;
      RunGrows(ordered, none, items[..j]);
      PickedClient(ordered, ServeAll(ordered, none, items[..j]), r);
      OwnerIsPicked(ordered, none, items, j, pid);
    } else {
      forall q <- items ensures q.sessionId != r.sessionId {
        if q.sessionId == r.sessionId {
          SameSession(records, q, r);
        }
      }
      NotYetOwned(ordered, none, items, r.sessionId, pid);
    }
  }

  /** Two open turns end up on one client only if, when the later one was placed, every client it
      could have gone to already owned an open turn. */
  lemma OpenTurnsShareOnlyWhenFull(
    roots: seq<Client>, records: seq<SessionRecord>, i: nat, j: nat, pid: int, other: Client)
    requires DistinctSessions(records) && i < j < |Queue(records)|
    requires Queue(records)[i].openTurn && Queue(records)[j].openTurn
    requires Owns(Allocate(roots, records), pid, Queue(records)[i].sessionId)
    requires Owns(Allocate(roots, records), pid, Queue(records)[j].sessionId)
    requires other in roots && Eligible(other, Queue(records)[j])
    ensures exists k :: (0 <= k < j && Queue(records)[k].openTurn &&
      Owns(Allocate(roots, records), other.pid, Queue(records)[k].sessionId))
  {
    var ordered, items, none := Clients(roots), Queue(records), Nobody(roots);
    QueueOf(records);
    SortSorts(roots, NewerClient);
    SortMembers(roots, NewerClient);
    OwnerIsPicked(ordered, none, items, i, pid);
    OwnerIsPicked(ordered, none, items, j, pid);
    RunGrows(ordered, none, items[..j]);
    PickedClient(ordered, ServeAll(ordered, none, items[..j]), items[j]);
    OpenOwnerKept(ordered, none, items, j, i, pid);
    var k := OpenOwnerFound(ordered, none, items, j, other.pid);
    OwnerIsPicked(ordered, none, items, k, other.pid);
  }

  // ---- running turns, as opposed to having a session ------------------------------------

  lemma {:induction false} OpenOnlyServes(ordered: seq<Client>, st: Allocation, items: seq<SessionRecord>)
    requires Served(st) == st.openOwners && forall r <- items :: r.openTurn
    ensures var after := ServeAll(ordered, st, items); Served(after) == after.openOwners
  {
    if items != [] {
      OpenOnlyServes(ordered, st, Front(items));
      ServedStep(ordered, ServeAll(ordered, st, Front(items)), Last(items));
    }
  }

  lemma ServedStep(ordered: seq<Client>, st: Allocation, item: SessionRecord)
    ensures var pool := Candidates(ordered, st, item);
      Served(Serve(ordered, st, item)) == if pool == [] then Served(st) else Served(st) + {pool[0].pid}
  {
    var pool := Candidates(ordered, st, item);
    if pool != [] {
      assert item.sessionId in Serve(ordered, st, item).owned[pool[0].pid];
    }
  }

  predicate HasOpenTurn(r: SessionRecord) {
    r.openTurn
  }

  const OLDER := Client(1, Some(0.0))
  const NEWER := Client(2, Some(10.0))
  const FINISHED := SessionRecord("finished", Some(20.0), false, None)
  const FIRST_TURN := SessionRecord("first", Some(15.0), true, None)
  const SECOND_TURN := SessionRecord("second", Some(5.0), true, None)

  /** With a finished session in the mix it does not: the finished session takes the newer client,
      so both open turns share the older one although they could run on two. */
  lemma FinishedSessionCostsATurn()
    ensures Allocate(ROOTS, RECORDS).openOwners == {1}
  {
    ExampleSorted();
    FirstStep();
    SecondStep();
    ThirdStep();
    ThreeSessions(PAIR, Nobody(ROOTS), FINISHED, FIRST_TURN, SECOND_TURN);
  }

  lemma ThreeSessions(ordered: seq<Client>, st: Allocation, a: SessionRecord, b: SessionRecord, c: SessionRecord)
    ensures ServeAll(ordered, st, [a, b, c]) == Serve(ordered, Serve(ordered, Serve(ordered, st, a), b), c)
  {
    assert [] + [a] == [a] && [a] + [b] == [a, b] && [a, b] + [c] == [a, b, c];
    ServePush(ordered, st, [], a);
    ServePush(ordered, st, [a], b);
    ServePush(ordered, st, [a, b], c);
  }

  lemma BothTurnsCouldRun()
    ensures DistinctPids(ROOTS) && DistinctSessions(RECORDS)
    ensures Assignment(ROOTS, Filter(RECORDS, HasOpenTurn), map["first" := 2, "second" := 1])
  {
    FilterMembers(RECORDS, HasOpenTurn);
    var open := Filter(RECORDS, HasOpenTurn);
    assert OLDER == ROOTS[0] && NEWER == ROOTS[1] && FIRST_TURN == RECORDS[1] && SECOND_TURN == RECORDS[2];
    assert FIRST_TURN in open && SECOND_TURN in open && OLDER in ROOTS && NEWER in ROOTS;
    assert Eligible(NEWER, FIRST_TURN) && Eligible(OLDER, SECOND_TURN);
    assert CanServe(ROOTS, open, "first", 2);
    assert CanServe(ROOTS, open, "second", 1);
  }

  const ROOTS := [OLDER, NEWER]
  const RECORDS := [FINISHED, FIRST_TURN, SECOND_TURN]

  lemma ExampleSorted()
    ensures Clients(ROOTS) == [NEWER, OLDER] && Queue(RECORDS) == RECORDS
  {
    SortPush([], OLDER, NewerClient);
    SortPush([OLDER], NEWER, NewerClient);
    assert [] + [OLDER] == [OLDER] && [OLDER] + [NEWER] == ROOTS && Front([OLDER]) == [];
    assert [] + [FINISHED] == [FINISHED];
    assert [FINISHED] + [FIRST_TURN] == [FINISHED, FIRST_TURN];
    assert [FINISHED, FIRST_TURN] + [SECOND_TURN] == RECORDS;
    FilterPush([], FINISHED, Dated);
    FilterPush([FINISHED], FIRST_TURN, Dated);
    FilterPush([FINISHED, FIRST_TURN], SECOND_TURN, Dated);
    SortPush([], FINISHED, NewerRecord);
    SortPush([FINISHED], FIRST_TURN, NewerRecord);
    SortPush([FINISHED, FIRST_TURN], SECOND_TURN, NewerRecord);
  }

  const PAIR := [NEWER, OLDER]
  const AFTER_ONE := Allocation(map[1 := {}, 2 := {"finished"}], {})
  const AFTER_TWO := Allocation(map[1 := {"first"}, 2 := {"finished"}], {1})

  lemma FirstStep()
    ensures Serve(PAIR, Nobody(ROOTS), FINISHED) == AFTER_ONE
  {
    assert ROOTS[0] == OLDER && ROOTS[1] == NEWER;
    assert Nobody(ROOTS).owned == map[1 := {}, 2 := {}];
    PickedClient(PAIR, Nobody(ROOTS), FINISHED);
    assert Eligible(PAIR[0], FINISHED) && Idle(Nobody(ROOTS).owned, PAIR[0]);
    assert Nobody(ROOTS).owned[2] + {"finished"} == {"finished"};
    assert Assign(Nobody(ROOTS), 2, FINISHED).owned == AFTER_ONE.owned;
  }

  lemma SecondStep()
    ensures Serve(PAIR, AFTER_ONE, FIRST_TURN) == AFTER_TWO
  {
    PickedClient(PAIR, AFTER_ONE, FIRST_TURN);
    assert Eligible(PAIR[1], FIRST_TURN) && Idle(AFTER_ONE.owned, PAIR[1]);
    assert AFTER_ONE.owned[1] + {"first"} == {"first"};
    assert Assign(AFTER_ONE, 1, FIRST_TURN).owned == AFTER_TWO.owned;
  }

  lemma ThirdStep()
    ensures Serve(PAIR, AFTER_TWO, SECOND_TURN).openOwners == {1}
  {
    assert "first" in AFTER_TWO.owned[1];
    PickedClient(PAIR, AFTER_TWO, SECOND_TURN);
  }
}
