/** When the shared-session pass also lets as many clients as possible run a turn
    (src/codex_cli_monitor/monitor.py, `_allocate_shared_sessions`): exactly when the open turns behind
    the first finished session all have the same reference time. */
module SharedTurns {
  import opened Sequences
  import opened SharedSessions

  /** Behind a finished session of the queue no two open turns have different reference times. */
  ghost predicate TurnsTogether(queue: seq<SessionRecord>) {
    forall i, j, k | 0 <= i < j < k < |queue| && !queue[i].openTurn && queue[j].openTurn && queue[k].openTurn ::
      ReferenceOrZero(queue[j]) == ReferenceOrZero(queue[k])
  }

  function OpenTurns(items: seq<SessionRecord>): nat {
    if items == [] then 0 else OpenTurns(Front(items)) + if Last(items).openTurn then 1 else 0
  }

  lemma {:induction false} ServeConcat(
      ordered: seq<Client>, st: Allocation, a: seq<SessionRecord>, b: seq<SessionRecord>)
    ensures ServeAll(ordered, st, a + b) == ServeAll(ordered, ServeAll(ordered, st, a), b)
    decreases |b|
  {
    LastOfConcat(a, b);
    if b != [] {
      ServeConcat(ordered, st, a, Front(b));
      ServesAlike(ordered, st, ServeAll(ordered, st, a), a + Front(b), Front(b), Last(b));
    }
  }

  lemma ServesAlike(
      ordered: seq<Client>, st: Allocation, mid: Allocation, longer: seq<SessionRecord>, front: seq<SessionRecord>,
      last: SessionRecord)
    requires ServeAll(ordered, st, longer) == ServeAll(ordered, mid, front)
    ensures ServeAll(ordered, st, longer + [last]) == ServeAll(ordered, mid, front + [last])
  {
    ServePush(ordered, st, longer, last);
    ServePush(ordered, mid, front, last);
  }

  // ---- the condition suffices ------------------------------------------------------------------------------

  ghost predicate Early(c: Client, r: real) {
    c.startedAt.Some? && c.startedAt.value <= r + REFERENCE_GRACE_SECONDS
  }

  ghost predicate Full(ordered: seq<Client>, r: real, open: set<int>) {
    forall c <- ordered | Early(c, r) :: c.pid in open
  }

  ghost predicate OpenAt(items: seq<SessionRecord>, r: real) {
    forall item <- items | item.openTurn :: item.ReferenceAt() == Some(r)
  }

  /** Open turns with one reference time each find a client that runs none, until every client they
      may go to runs one; finished sessions in between do not matter. */
  lemma {:induction false} Fills(ordered: seq<Client>, st: Allocation, items: seq<SessionRecord>, r: real)
    requires Sorted(ordered, NewerClient) && Consistent(st) && OpenAt(items, r)
    ensures var open := ServeAll(ordered, st, items).openOwners;
      st.openOwners <= open && (Full(ordered, r, open) || |open| >= |st.openOwners| + OpenTurns(items))
  {
    if items != [] {
      var before, item := ServeAll(ordered, st, Front(items)), Last(items);
      assert forall x <- Front(items) :: x in items;
      Fills(ordered, st, Front(items), r);
      RunGrows(ordered, st, Front(items));
      PickedClient(ordered, before, item);
      assert item in items;
      FillsOne(ordered, before, item, r);
    }
  }

  lemma FillsOne(ordered: seq<Client>, st: Allocation, item: SessionRecord, r: real)
    requires Sorted(ordered, NewerClient) && Consistent(st) && (item.openTurn ==> item.ReferenceAt() == Some(r))
    ensures var open := Serve(ordered, st, item).openOwners;
      && st.openOwners <= open
      && (item.openTurn ==> Full(ordered, r, open) || |open| == |st.openOwners| + 1)
  {
    PickedClient(ordered, st, item);
  }

  /** The clients an assignment reaches by the open turns among the items. */
  ghost function ReachedBy(g: map<string, int>, items: seq<SessionRecord>): set<int> {
    set item | item in items && item.openTurn && item.sessionId in g :: g[item.sessionId]
  }

  lemma {:induction false} ReachesFew(g: map<string, int>, items: seq<SessionRecord>)
    ensures |ReachedBy(g, items)| <= OpenTurns(items)
  {
    if items == [] {
      assert ReachedBy(g, items) == {};
    } else {
      var item := Last(items);
      ReachesFew(g, Front(items));
      assert items == Front(items) + [item];
      if item.openTurn && item.sessionId in g {
        assert ReachedBy(g, items) == ReachedBy(g, Front(items)) + {g[item.sessionId]};
      } else {
        assert ReachedBy(g, items) == ReachedBy(g, Front(items));
      }
    }
  }

  ghost function ServedBy(ordered: seq<Client>, items: seq<SessionRecord>, g: map<string, int>): map<string, int> {
    map s | s in g && CanServe(ordered, items, s, g[s]) :: g[s]
  }

  /** Whom an assignment of the open turns serves: with the first part's sessions or with the second's. */
  lemma SplitsAssignment(
      ordered: seq<Client>, a: seq<SessionRecord>, b: seq<SessionRecord>, r: real, g: map<string, int>)
    requires Assignment(ordered, Filter(a + b, HasOpenTurn), g) && OpenAt(b, r) && DistinctPids(ordered)
    ensures g.Values <= ServedBy(ordered, a, g).Values + ReachedBy(g, b)
    ensures forall c <- ordered | c.pid in g.Values ::
      Early(c, r) || (c.startedAt.Some? && c.pid in ServedBy(ordered, a, g).Values)
  {
    FilterMembers(a + b, HasOpenTurn);
    forall s | s in g
      ensures g[s] in ServedBy(ordered, a, g).Values + ReachedBy(g, b)
      ensures forall c <- ordered | c.pid == g[s] ::
        Early(c, r) || (c.startedAt.Some? && c.pid in ServedBy(ordered, a, g).Values)
    {
      assert CanServe(ordered, Filter(a + b, HasOpenTurn), s, g[s]);
      var item, c :| item in Filter(a + b, HasOpenTurn) && c in ordered
        && item.sessionId == s && c.pid == g[s] && Eligible(c, item);
      if item in a {
        assert CanServe(ordered, a, s, g[s]) && s in ServedBy(ordered, a, g);
      } else {
        assert item in b && Early(c, r);
      }
    }
  }

  lemma Counts(
      ordered: seq<Client>, before: set<int>, open: set<int>, mine: map<string, int>, values: set<int>, r: real)
    requires DistinctPids(ordered) && before <= open <= Pids(ordered) && values <= Pids(ordered)
    requires Full(ordered, r, open)
    requires var t := Some(r + REFERENCE_GRACE_SECONDS); |Above(ordered, mine.Values, t)| <= |Above(ordered, before, t)|
    requires forall c <- ordered | c.pid in values :: Early(c, r) || (c.startedAt.Some? && c.pid in mine.Values)
    ensures |values| <= |open|
  {
    var t := Some(r + REFERENCE_GRACE_SECONDS);
    var early := set c | c in ordered && Early(c, r);
    PidsCount(ordered, values);
    PidsCount(ordered, open);
    AboveMonotone(ordered, before, open, t);
    var late, late' := Above(ordered, mine.Values, t), Above(ordered, open, t);
    SubsetSize(Above(ordered, values, None), early + late);
    assert early !! late';
    SubsetSize(early + late', Above(ordered, open, None));
  }

  lemma KeysAre(ordered: seq<Client>, st: Allocation, items: seq<SessionRecord>)
    requires Sorted(ordered, NewerClient) && Consistent(st) && st.owned.Keys == Pids(ordered)
    ensures ServeAll(ordered, st, items).openOwners <= Pids(ordered)
    ensures Served(ServeAll(ordered, st, items)) <= Pids(ordered)
  {
    RunOwners(ordered, st, items);
    RunGrows(ordered, st, items);
  }

  /** The pass over open turns first and anything with one reference time behind them. */
  lemma TwoParts(
      ordered: seq<Client>, none: Allocation, a: seq<SessionRecord>, b: seq<SessionRecord>, r: real,
      g: map<string, int>)
    requires Sorted(ordered, NewerClient) && DistinctPids(ordered) && none.owned.Keys == Pids(ordered)
    requires Served(none) == {} == none.openOwners
    requires (forall item <- a :: item.openTurn) && OpenAt(b, r) && Assignment(ordered, Filter(a + b, HasOpenTurn), g)
    ensures |g.Values| <= |ServeAll(ordered, none, a + b).openOwners|
  {
    var mid, mine := ServeAll(ordered, none, a), ServedBy(ordered, a, g);
    ServeConcat(ordered, none, a, b);
    OpenOnlyServes(ordered, none, a);
    RunGrows(ordered, none, a);
    Fills(ordered, mid, b, r);
    SplitsAssignment(ordered, a, b, r, g);
    forall p <- g.Values ensures p in Pids(ordered) {
      var s :| s in g && g[s] == p;
      assert CanServe(ordered, Filter(a + b, HasOpenTurn), s, g[s]);
    }
    assert mine.Values <= g.Values;
    KeysAre(ordered, none, a);
    KeysAre(ordered, none, a + b);
    var open := ServeAll(ordered, none, a + b).openOwners;
    if Full(ordered, r, open) {
      ServedDominates(ordered, none, a, mine, Some(r + REFERENCE_GRACE_SECONDS));
      Counts(ordered, mid.openOwners, open, mine, g.Values, r);
    } else {
      ServedDominates(ordered, none, a, mine, None);
      PidsCount(ordered, mine.Values);
      PidsCount(ordered, Served(mid));
      ReachesFew(g, b);
      SubsetSize(g.Values, mine.Values + ReachedBy(g, b));
    }
  }

  function FirstFinished(queue: seq<SessionRecord>): (n: nat)
    ensures n <= |queue| && (forall i | 0 <= i < n :: queue[i].openTurn) && (n < |queue| ==> !queue[n].openTurn)
  {
    if queue == [] || !queue[0].openTurn then 0 else 1 + FirstFinished(queue[1..])
  }

  lemma OneReference(queue: seq<SessionRecord>) returns (r: real)
    requires TurnsTogether(queue) && forall item <- queue :: Dated(item)
    ensures OpenAt(queue[FirstFinished(queue)..], r)
  {
    var n := FirstFinished(queue);
    r := 0.0;
    if item :| item in queue[n..] && item.openTurn {
      r := ReferenceOrZero(item);
      var j :| n <= j < |queue| && queue[j] == item;
      forall x <- queue[n..] | x.openTurn ensures x.ReferenceAt() == Some(r) {
        var k :| n <= k < |queue| && queue[k] == x;
        assert x in queue && (j < k ==> n < j) && (k < j ==> n < k);
      }
    }
  }

  lemma QueueMembers(records: seq<SessionRecord>)
    ensures forall r :: r in Queue(records) <==> r in records && Dated(r)
  {
    FilterMembers(records, Dated);
    SortMembers(Filter(records, Dated), NewerRecord);
  }

  lemma SameAssignment(roots: seq<Client>, records: seq<SessionRecord>, g: map<string, int>)
    requires DistinctPids(roots) && Assignment(roots, Filter(records, HasOpenTurn), g)
    ensures Assignment(Clients(roots), Filter(Queue(records), HasOpenTurn), g)
  {
    var opens, queued := Filter(records, HasOpenTurn), Filter(Queue(records), HasOpenTurn);
    OrdersClients(roots);
    QueueMembers(records);
    FilterMembers(records, HasOpenTurn);
    FilterMembers(Queue(records), HasOpenTurn);
    forall s | s in g ensures CanServe(Clients(roots), queued, s, g[s]) {
      assert CanServe(roots, opens, s, g[s]);
      var item, c :| item in opens && c in roots && item.sessionId == s && c.pid == g[s] && Eligible(c, item);
      assert item in queued && c in Clients(roots);
    }
  }

  lemma StartsFromNothing(roots: seq<Client>)
    requires forall c :: c in Clients(roots) <==> c in roots
    ensures Nobody(roots).owned.Keys == Pids(Clients(roots))
    ensures Served(Nobody(roots)) == {} == Nobody(roots).openOwners
  {
  }

  lemma OnQueue(ordered: seq<Client>, none: Allocation, queue: seq<SessionRecord>, g: map<string, int>)
    requires Sorted(ordered, NewerClient) && DistinctPids(ordered) && none.owned.Keys == Pids(ordered)
    requires Served(none) == {} == none.openOwners
    requires TurnsTogether(queue) && (forall item <- queue :: Dated(item))
    requires Assignment(ordered, Filter(queue, HasOpenTurn), g)
    ensures |g.Values| <= |ServeAll(ordered, none, queue).openOwners|
  {
    var n := FirstFinished(queue);
    var r := OneReference(queue);
    assert queue == queue[..n] + queue[n..];
    TwoParts(ordered, none, queue[..n], queue[n..], r, g);
  }

  /** While the open turns behind the first finished session have one reference time, no assignment lets
      more clients run an open turn than the pass does. */
  lemma RunsTheMostTurns(roots: seq<Client>, records: seq<SessionRecord>, g: map<string, int>)
    requires DistinctPids(roots) && Assignment(roots, Filter(records, HasOpenTurn), g)
    requires TurnsTogether(Queue(records))
    ensures |g.Values| <= |Allocate(roots, records).openOwners|
  {
    OrdersClients(roots);
    SameAssignment(roots, records, g);
    QueueMembers(records);
    StartsFromNothing(roots);
    OnQueue(Clients(roots), Nobody(roots), Queue(records), g);
  }

  // ---- and it is needed ----------------------------------------------------------------------------------------

  ghost function LastOpenAt(queue: seq<SessionRecord>, r: Option<real>, j: nat): (p: nat)
    requires j < |queue| && queue[j].openTurn && queue[j].ReferenceAt() == r
    ensures j <= p < |queue| && queue[p].openTurn && queue[p].ReferenceAt() == r
    ensures forall q | p < q < |queue| && queue[q].openTurn :: queue[q].ReferenceAt() != r
    decreases |queue| - j
  {
    if q :| j < q < |queue| && queue[q].openTurn && queue[q].ReferenceAt() == r
    then LastOpenAt(queue, r, q)
    else j
  }

  /** p clients that start just late enough for session p, and one that starts just late enough for the
      later session k. */
  function Crowd(p: nat, newer: real, older: real): seq<Client> {
    seq(p + 1, x requires 0 <= x <= p => Client(x, Some(if x < p then newer else older)))
  }

  function Below(p: nat): (r: set<int>)
    ensures |r| == p && forall y :: y in r <==> 0 <= y < p
  {
    if p == 0 then {} else Below(p - 1) + {p - 1}
  }

  /** l of the newer clients have a session, and at most n clients run a turn. */
  ghost predicate Soaked(st: Allocation, p: nat, l: nat, n: nat) {
    Consistent(st) && Served(st) <= Below(p) && |Served(st)| == l && |st.openOwners| <= n
  }

  ghost predicate IsCrowd(ordered: seq<Client>, p: nat, newer: real, older: real) {
    && newer > older && Sorted(ordered, NewerClient)
    && forall c :: c in ordered <==> c in Crowd(p, newer, older)
  }

  lemma SomeIdle(served: set<int>, p: nat) returns (x: nat)
    requires served <= Below(p) && |served| < p
    ensures x < p && x !in served
  {
    if Below(p) <= served {
      SubsetSize(Below(p), served);
    }
    x :| x in Below(p) && x !in served;
  }

  lemma PicksNewer(ordered: seq<Client>, st: Allocation, item: SessionRecord, p: nat, x: nat, newer: real, older: real)
    returns (y: nat)
    requires IsCrowd(ordered, p, newer, older) && Consistent(st)
    requires Dated(item) && newer <= Bound(item).value && x < p && x !in Served(st)
    ensures y < p && y !in Served(st)
    ensures var pool := Candidates(ordered, st, item); pool != [] && pool[0].pid == y
  {
    var crowd, pool := Crowd(p, newer, older), Candidates(ordered, st, item);
    assert crowd[x] in ordered;
    PickedClient(ordered, st, item);
    assert pool[0] in crowd;
    y :| 0 <= y <= p && crowd[y] == pool[0];
  }

  lemma SoaksOne(
      ordered: seq<Client>, st: Allocation, item: SessionRecord, p: nat, l: nat, n: nat, newer: real, older: real)
    requires IsCrowd(ordered, p, newer, older) && Soaked(st, p, l, n) && l < p
    requires Dated(item) && newer <= Bound(item).value
    ensures Soaked(Serve(ordered, st, item), p, l + 1, n + if item.openTurn then 1 else 0)
  {
    var x := SomeIdle(Served(st), p);
    var y := PicksNewer(ordered, st, item, p, x, newer, older);
    ServedStep(ordered, st, item);
    StepGrows(ordered, st, item);
  }

  /** Each of the first sessions takes one of the newer clients. */
  lemma {:induction false} Soaks(
      ordered: seq<Client>, none: Allocation, items: seq<SessionRecord>, p: nat, newer: real, older: real)
    requires IsCrowd(ordered, p, newer, older) && |items| <= p && Served(none) == {} == none.openOwners
    requires forall item <- items :: Dated(item) && newer <= Bound(item).value
    ensures Soaked(ServeAll(ordered, none, items), p, |items|, OpenTurns(items))
  {
    if items != [] {
      assert forall item <- Front(items) :: item in items;
      Soaks(ordered, none, Front(items), p, newer, older);
      SoaksOne(ordered, ServeAll(ordered, none, Front(items)), Last(items), p, |items| - 1, OpenTurns(Front(items)),
        newer, older);
    }
  }

  /** With all newer clients taken, a session both kinds may have goes to the older one. */
  lemma PicksOlder(ordered: seq<Client>, st: Allocation, item: SessionRecord, p: nat, n: nat, newer: real, older: real)
    requires IsCrowd(ordered, p, newer, older) && Soaked(st, p, p, n)
    requires Dated(item) && newer <= Bound(item).value && item.openTurn
    ensures var next := Serve(ordered, st, item); p in next.openOwners && |next.openOwners| <= n + 1 && Consistent(next)
  {
    var crowd, pool := Crowd(p, newer, older), Candidates(ordered, st, item);
    assert crowd[p] in ordered && p !in Served(st);
    PickedClient(ordered, st, item);
    assert pool[0] in crowd;
    var y :| 0 <= y <= p && crowd[y] == pool[0];
    SubsetSize(Served(st), Below(p));
    assert y == p by {
      if y < p {
        Everyone(Served(st), p, y);
      }
    }
    StepGrows(ordered, st, item);
  }

  lemma Everyone(served: set<int>, p: nat, y: nat)
    requires served <= Below(p) && |served| == p && y < p
    ensures y in served
  {
    if y !in served {
      SubsetSize(served, Below(p) - {y});
    }
  }

  /** Later open turns no newer client may have add nothing once the older one runs a turn. */
  lemma {:induction false} AddsNothing(
      ordered: seq<Client>, st: Allocation, items: seq<SessionRecord>, p: nat, newer: real, older: real)
    requires IsCrowd(ordered, p, newer, older) && Consistent(st) && p in st.openOwners
    requires forall item <- items | item.openTurn && Dated(item) :: Bound(item).value < newer
    ensures ServeAll(ordered, st, items).openOwners == st.openOwners
  {
    if items != [] {
      assert forall item <- Front(items) :: item in items;
      assert Last(items) in items;
      AddsNothing(ordered, st, Front(items), p, newer, older);
      RunGrows(ordered, st, Front(items));
      AddsNothingNow(ordered, ServeAll(ordered, st, Front(items)), Last(items), p, newer, older);
    }
  }

  lemma AddsNothingNow(ordered: seq<Client>, st: Allocation, item: SessionRecord, p: nat, newer: real, older: real)
    requires IsCrowd(ordered, p, newer, older) && Consistent(st) && p in st.openOwners
    requires item.openTurn && Dated(item) ==> Bound(item).value < newer
    ensures Serve(ordered, st, item).openOwners == st.openOwners
  {
    var crowd, pool := Crowd(p, newer, older), Candidates(ordered, st, item);
    PickedClient(ordered, st, item);
    if pool != [] && item.openTurn {
      assert pool[0] in crowd;
      var y :| 0 <= y <= p && crowd[y] == pool[0];
      assert y == p;
    }
  }

  // ---- an assignment that does better -----------------------------------------------------------------------------

  /** The positions of the open turns before position l. */
  function OpenPositions(queue: seq<SessionRecord>, l: nat): (r: set<int>)
    requires l <= |queue|
    ensures forall q :: q in r <==> 0 <= q < l && queue[q].openTurn
  {
    if l == 0 then {}
    else OpenPositions(queue, l - 1) + if queue[l - 1].openTurn then {l - 1} else {}
  }

  lemma {:induction false} CountsPositions(queue: seq<SessionRecord>, l: nat)
    requires l <= |queue|
    ensures |OpenPositions(queue, l)| == OpenTurns(queue[..l])
  {
    if l > 0 {
      CountsPositions(queue, l - 1);
      assert Front(queue[..l]) == queue[..l - 1];
    }
  }

  /** The finished session at i keeps no client: its place in the crowd goes to the open turn at p, and
      the older client to the open turn at k. */
  function Better(i: nat, p: nat, k: nat, q: int): int {
    if q == k then p else if q == p then i else q
  }

  ghost function Positions(queue: seq<SessionRecord>, p: nat, k: nat): set<int>
    requires p < k < |queue|
  {
    OpenPositions(queue, p) + {p, k}
  }

  ghost function BetterAssignment(queue: seq<SessionRecord>, i: nat, p: nat, k: nat): (g: map<string, int>)
    requires i < p < k < |queue| && DistinctSessions(queue)
    ensures forall q <- Positions(queue, p, k) :: queue[q].sessionId in g && g[queue[q].sessionId] == Better(i, p, k, q)
    ensures forall s | s in g :: exists q :: q in Positions(queue, p, k) && queue[q].sessionId == s
  {
    var positions := Positions(queue, p, k);
    assert forall q, r | q in positions && r in positions && q != r :: queue[q].sessionId != queue[r].sessionId by {
      forall q, r | q in positions && r in positions && q != r ensures queue[q].sessionId != queue[r].sessionId {
        DifferentSessions(queue, if q < r then q else r, if q < r then r else q);
      }
    }
    map q | q in positions :: queue[q].sessionId := Better(i, p, k, q)
  }

  lemma DifferentSessions(queue: seq<SessionRecord>, q: nat, r: nat)
    requires q < r < |queue| && DistinctSessions(queue)
    ensures queue[q].sessionId != queue[r].sessionId
  {
    var id := (x: SessionRecord) => x.sessionId;
    assert id(queue[q]) != id(queue[r]);
  }

  lemma BetterReaches(queue: seq<SessionRecord>, i: nat, p: nat, k: nat, v: int)
    requires i < p < k < |queue| && DistinctSessions(queue) && (v in OpenPositions(queue, p) || v == i || v == p)
    ensures v in BetterAssignment(queue, i, p, k).Values
  {
    var g := BetterAssignment(queue, i, p, k);
    var q := if v == p then k else if v == i then p else v;
    assert q in Positions(queue, p, k) && Better(i, p, k, q) == v;
    assert g[queue[q].sessionId] == v;
  }

  lemma BetterServesMore(queue: seq<SessionRecord>, i: nat, p: nat, k: nat)
    requires i < p < k < |queue| && DistinctSessions(queue) && !queue[i].openTurn
    ensures |BetterAssignment(queue, i, p, k).Values| >= OpenTurns(queue[..p]) + 2
  {
    CountsPositions(queue, p);
    BetterReachesAll(queue, i, p, k);
    TwoMore(OpenPositions(queue, p), i, p, BetterAssignment(queue, i, p, k).Values);
  }

  lemma BetterReachesAll(queue: seq<SessionRecord>, i: nat, p: nat, k: nat)
    requires i < p < k < |queue| && DistinctSessions(queue)
    ensures OpenPositions(queue, p) + {i, p} <= BetterAssignment(queue, i, p, k).Values
  {
    forall v | v in OpenPositions(queue, p) + {i, p} ensures v in BetterAssignment(queue, i, p, k).Values {
      BetterReaches(queue, i, p, k, v);
    }
  }

  lemma TwoMore(open: set<int>, i: int, p: int, values: set<int>)
    requires i !in open && p !in open && i != p && open + {i, p} <= values
    ensures |values| >= |open| + 2
  {
    assert |open + {i}| == |open| + 1;
    assert |open + {i} + {p}| == |open| + 2;
    assert open + {i, p} == open + {i} + {p};
    SubsetSize(open + {i, p}, values);
  }

  lemma CrowdPids(p: nat, newer: real, older: real)
    ensures DistinctPids(Crowd(p, newer, older))
  {
  }

  /** Newest first, and all of them dated. */
  ghost predicate IsQueue(queue: seq<SessionRecord>) {
    Sorted(queue, NewerRecord) && forall r <- queue :: Dated(r)
  }

  lemma MayGo(queue: seq<SessionRecord>, opens: seq<SessionRecord>, i: nat, p: nat, k: nat, q: nat)
    requires i < p < k < |queue| && q in Positions(queue, p, k) && queue[p].openTurn && queue[k].openTurn
    requires IsQueue(queue) && forall r <- queue | r.openTurn :: r in opens
    ensures q < |queue|
    ensures CanServe(Crowd(p, Bound(queue[p]).value, Bound(queue[k]).value), opens, queue[q].sessionId,
      Better(i, p, k, q))
  {
    var item, c := queue[q], Crowd(p, Bound(queue[p]).value, Bound(queue[k]).value)[Better(i, p, k, q)];
    assert item in queue && queue[p] in queue && queue[k] in queue;
    assert q < p ==> NewerRecord(queue[q], queue[p]);
    assert Eligible(c, item) && c.pid == Better(i, p, k, q);
  }

  /** Every session of the better assignment may go where it goes. */
  lemma BetterIsPossible(queue: seq<SessionRecord>, opens: seq<SessionRecord>, i: nat, p: nat, k: nat)
    requires DistinctSessions(queue) && i < p < k < |queue| && queue[p].openTurn && queue[k].openTurn
    requires IsQueue(queue) && forall r <- queue | r.openTurn :: r in opens
    ensures Assignment(Crowd(p, Bound(queue[p]).value, Bound(queue[k]).value), opens, BetterAssignment(queue, i, p, k))
  {
    var g := BetterAssignment(queue, i, p, k);
    forall s | s in g ensures CanServe(Crowd(p, Bound(queue[p]).value, Bound(queue[k]).value), opens, s, g[s]) {
      var q :| q in Positions(queue, p, k) && queue[q].sessionId == s;
      MayGo(queue, opens, i, p, k, q);
    }
  }

  lemma EarlierReachAsFar(queue: seq<SessionRecord>, p: nat)
    requires IsQueue(queue) && p < |queue|
    ensures forall item <- queue[..p] :: Dated(item) && Bound(queue[p]).value <= Bound(item).value
  {
    forall item <- queue[..p] ensures Dated(item) && Bound(queue[p]).value <= Bound(item).value {
      var q :| 0 <= q < p && queue[q] == item;
      assert NewerRecord(queue[q], queue[p]) && item in queue;
    }
  }

  lemma LaterReachLess(queue: seq<SessionRecord>, p: nat)
    requires IsQueue(queue) && p < |queue|
    requires forall q | p < q < |queue| && queue[q].openTurn :: queue[q].ReferenceAt() != queue[p].ReferenceAt()
    ensures forall item <- queue[p + 1..] | item.openTurn && Dated(item) :: Bound(item).value < Bound(queue[p]).value
  {
    forall item <- queue[p + 1..] | item.openTurn && Dated(item) ensures Bound(item).value < Bound(queue[p]).value {
      var q :| p < q < |queue| && queue[q] == item;
      assert NewerRecord(queue[p], queue[q]) && queue[p] in queue;
    }
  }

  lemma NothingAfter(
      ordered: seq<Client>, none: Allocation, first: seq<SessionRecord>, rest: seq<SessionRecord>, p: nat, newer: real,
      older: real)
    requires IsCrowd(ordered, p, newer, older)
    requires var st := ServeAll(ordered, none, first); Consistent(st) && p in st.openOwners
    requires forall item <- rest | item.openTurn && Dated(item) :: Bound(item).value < newer
    ensures ServeAll(ordered, none, first + rest).openOwners == ServeAll(ordered, none, first).openOwners
  {
    AddsNothing(ordered, ServeAll(ordered, none, first), rest, p, newer, older);
    ServeConcat(ordered, none, first, rest);
  }

  lemma OlderRunsATurn(
      ordered: seq<Client>, none: Allocation, queue: seq<SessionRecord>, p: nat, newer: real, older: real)
    requires IsCrowd(ordered, p, newer, older) && Served(none) == {} == none.openOwners
    requires p < |queue| && queue[p].openTurn && newer == Bound(queue[p]).value && IsQueue(queue)
    ensures var st := ServeAll(ordered, none, queue[..p + 1]);
      Consistent(st) && p in st.openOwners && |st.openOwners| <= OpenTurns(queue[..p]) + 1
  {
    EarlierReachAsFar(queue, p);
    Soaks(ordered, none, queue[..p], p, newer, older);
    NewestFirst(queue, p, p);
    PicksOlder(ordered, ServeAll(ordered, none, queue[..p]), queue[p], p, OpenTurns(queue[..p]), newer, older);
    SplitAt(queue, p);
    ServePush(ordered, none, queue[..p], queue[p]);
  }

  /** What the pass makes of the crowd: the finished session keeps a newer client from running a turn, so
      the open turn at p goes to the older one, and none is left for the later open turns. */
  lemma CrowdRuns(ordered: seq<Client>, none: Allocation, queue: seq<SessionRecord>, p: nat, newer: real, older: real)
    requires IsCrowd(ordered, p, newer, older) && Served(none) == {} == none.openOwners
    requires p < |queue| && queue[p].openTurn && newer == Bound(queue[p]).value && IsQueue(queue)
    requires forall q | p < q < |queue| && queue[q].openTurn :: queue[q].ReferenceAt() != queue[p].ReferenceAt()
    ensures |ServeAll(ordered, none, queue).openOwners| <= OpenTurns(queue[..p]) + 1
  {
    OlderRunsATurn(ordered, none, queue, p, newer, older);
    LaterReachLess(queue, p);
    NothingAfter(ordered, none, queue[..p + 1], queue[p + 1..], p, newer, older);
    SplitAt(queue, p);
  }

  /** The last open turn with the reference time of the first of two that differ. */
  lemma LastBeforeDrop(queue: seq<SessionRecord>) returns (i: nat, p: nat, k: nat)
    requires IsQueue(queue) && !TurnsTogether(queue)
    ensures i < p < k < |queue| && !queue[i].openTurn && queue[p].openTurn && queue[k].openTurn
    ensures Bound(queue[k]).value < Bound(queue[p]).value
    ensures forall q | p < q < |queue| && queue[q].openTurn :: queue[q].ReferenceAt() != queue[p].ReferenceAt()
  {
    var a, b, c :| 0 <= a < b < c < |queue| && !queue[a].openTurn && queue[b].openTurn && queue[c].openTurn
      && ReferenceOrZero(queue[b]) != ReferenceOrZero(queue[c]);
    i, k := a, c;
    p := LastOpenAt(queue, queue[b].ReferenceAt(), b);
    NewestFirst(queue, b, c);
    NewestFirst(queue, c, p);
  }

  lemma NewestFirst(queue: seq<SessionRecord>, a: nat, b: nat)
    requires IsQueue(queue) && a < |queue| && b < |queue|
    ensures a <= b ==> Bound(queue[a]).value >= Bound(queue[b]).value
    ensures Dated(queue[a])
  {
    assert a < b ==> NewerRecord(queue[a], queue[b]);
    assert queue[a] in queue;
  }

  /** As soon as two open turns with different reference times stand behind a finished session, there are
      clients for which the pass lets fewer of them run a turn than could. */
  lemma TurnsApartLoseOne(records: seq<SessionRecord>) returns (roots: seq<Client>, g: map<string, int>)
    requires DistinctSessions(records) && !TurnsTogether(Queue(records))
    ensures DistinctPids(roots) && Assignment(roots, Filter(records, HasOpenTurn), g)
    ensures |g.Values| > |Allocate(roots, records).openOwners|
  {
    var queue := Queue(records);
    QueueOf(records);
    var i, p, k := LastBeforeDrop(queue);
    var newer, older := Bound(queue[p]).value, Bound(queue[k]).value;
    roots, g := Crowd(p, newer, older), BetterAssignment(queue, i, p, k);
    CrowdPids(p, newer, older);
    OrdersClients(roots);
    StartsFromNothing(roots);
    CrowdRuns(Clients(roots), Nobody(roots), queue, p, newer, older);
    FilterMembers(records, HasOpenTurn);
    BetterIsPossible(queue, Filter(records, HasOpenTurn), i, p, k);
    BetterServesMore(queue, i, p, k);
  }

  ghost predicate RunsAsManyAsAny(records: seq<SessionRecord>, roots: seq<Client>, g: map<string, int>) {
    DistinctPids(roots) && Assignment(roots, Filter(records, HasOpenTurn), g) ==>
      |g.Values| <= |Allocate(roots, records).openOwners|
  }

  /** The pass maximises the clients running an open turn, whatever clients are live, exactly when the
      open turns behind the first finished session have one reference time. */
  lemma TurnsMaximalIffTogether(records: seq<SessionRecord>)
    requires DistinctSessions(records)
    ensures TurnsTogether(Queue(records)) <==> forall roots, g :: RunsAsManyAsAny(records, roots, g)
  {
    if TurnsTogether(Queue(records)) {
      forall roots, g ensures RunsAsManyAsAny(records, roots, g) {
        if DistinctPids(roots) && Assignment(roots, Filter(records, HasOpenTurn), g) {
          RunsTheMostTurns(roots, records, g);
        }
      }
    } else {
      var roots, g := TurnsApartLoseOne(records);
      assert !RunsAsManyAsAny(records, roots, g);
    }
  }
}
