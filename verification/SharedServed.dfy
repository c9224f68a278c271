/** Whom the shared-session pass serves does not depend on which sessions have open turns
    (src/codex_cli_monitor/monitor.py, `_allocate_shared_sessions`). */
module SharedServed {
  import opened Sequences
  import opened SharedSessions

  function Finished(r: SessionRecord): SessionRecord { r.(openTurn := false) }

  /** The same sessions, none with an open turn. */
  function AllFinished(records: seq<SessionRecord>): seq<SessionRecord> {
    seq(|records|, i requires 0 <= i < |records| => Finished(records[i]))
  }

  lemma FinishedParts(records: seq<SessionRecord>)
    ensures records != [] ==>
      && Front(AllFinished(records)) == AllFinished(Front(records))
      && Last(AllFinished(records)) == Finished(Last(records))
    ensures forall r :: AllFinished(records + [r]) == AllFinished(records) + [Finished(r)]
  {
  }

  lemma {:induction false} FinishedFilter(records: seq<SessionRecord>)
    ensures Filter(AllFinished(records), Dated) == AllFinished(Filter(records, Dated))
  {
    FinishedParts(records);
    if records != [] {
      FinishedFilter(Front(records));
      FinishedParts(Filter(Front(records), Dated));
    }
  }

  lemma {:induction false} FinishedInsert(queue: seq<SessionRecord>, r: SessionRecord)
    ensures Insert(AllFinished(queue), Finished(r), NewerRecord) == AllFinished(Insert(queue, r, NewerRecord))
  {
    FinishedParts(queue);
    if queue != [] && !NewerRecord(Last(queue), r) {
      FinishedInsert(Front(queue), r);
      FinishedParts(Insert(Front(queue), r, NewerRecord));
    }
  }

  lemma {:induction false} FinishedSort(records: seq<SessionRecord>)
    ensures StableSort(AllFinished(records), NewerRecord) == AllFinished(StableSort(records, NewerRecord))
  {
    FinishedParts(records);
    if records != [] {
      FinishedSort(Front(records));
      FinishedInsert(StableSort(Front(records), NewerRecord), Last(records));
    }
  }

  /** Preferring clients without a turn never hides an idle client. */
  lemma IdleClientsStay(eligible: seq<Client>, st: Allocation)
    requires Consistent(st)
    ensures Filter(Prefer(eligible, RunsNoTurn(st.openOwners)), IdleIn(st.owned)) == Filter(eligible, IdleIn(st.owned))
  {
    FilterTwice(eligible, RunsNoTurn(st.openOwners), IdleIn(st.owned));
  }

  /** The pool is the idle eligible clients if there are any, and has no idle client otherwise. */
  lemma IdlePool(ordered: seq<Client>, st: Allocation, item: SessionRecord)
    requires Consistent(st)
    ensures var idle := Filter(Filter(ordered, EligibleFor(item)), IdleIn(st.owned));
      var pool := Candidates(ordered, st, item);
      if idle != [] then pool == idle else forall c <- pool :: !Idle(st.owned, c)
  {
    var eligible := Filter(ordered, EligibleFor(item));
    var free := if item.openTurn then Prefer(eligible, RunsNoTurn(st.openOwners)) else eligible;
    IdleClientsStay(eligible, st);
    FilterMembers(free, IdleIn(st.owned));
  }

  /** Whom a session newly serves: the first idle eligible client, if there is one. */
  lemma NewlyServed(ordered: seq<Client>, st: Allocation, item: SessionRecord)
    requires Consistent(st)
    ensures var idle := Filter(Filter(ordered, EligibleFor(item)), IdleIn(st.owned));
      Served(Serve(ordered, st, item)) == if idle == [] then Served(st) else Served(st) + {idle[0].pid}
  {
    var pool := Candidates(ordered, st, item);
    IdlePool(ordered, st, item);
    ServedStep(ordered, st, item);
    assert pool != [] ==> pool[0] in pool;
  }

  lemma ServesAlikeFinished(ordered: seq<Client>, a: Allocation, b: Allocation, item: SessionRecord)
    requires Consistent(a) && Consistent(b) && Served(a) == Served(b)
    ensures Served(Serve(ordered, a, item)) == Served(Serve(ordered, b, Finished(item)))
  {
    NewlyServed(ordered, a, item);
    NewlyServed(ordered, b, Finished(item));
    FilterSame(ordered, EligibleFor(item), EligibleFor(Finished(item)));
    forall c: Client ensures Idle(a.owned, c) == Idle(b.owned, c) {
      assert Idle(a.owned, c) <==> c.pid !in Served(a);
      assert Idle(b.owned, c) <==> c.pid !in Served(b);
    }
    FilterSame(Filter(ordered, EligibleFor(item)), IdleIn(a.owned), IdleIn(b.owned));
  }

  lemma {:induction false} ServesAllAlike(ordered: seq<Client>, st: Allocation, items: seq<SessionRecord>)
    requires Consistent(st)
    ensures Served(ServeAll(ordered, st, items)) == Served(ServeAll(ordered, st, AllFinished(items)))
  {
    FinishedParts(items);
    if items != [] {
      ServesAllAlike(ordered, st, Front(items));
      RunGrows(ordered, st, Front(items));
      RunGrows(ordered, st, AllFinished(Front(items)));
      ServesAlikeFinished(ordered, ServeAll(ordered, st, Front(items)),
        ServeAll(ordered, st, AllFinished(Front(items))), Last(items));
    }
  }

  /** The preference for clients without a turn never changes which clients are served. */
  lemma TurnsDoNotChangeTheServed(roots: seq<Client>, records: seq<SessionRecord>)
    ensures Served(Allocate(roots, records)) == Served(Allocate(roots, AllFinished(records)))
  {
    FinishedFilter(records);
    FinishedSort(Filter(records, Dated));
    ServesAllAlike(Clients(roots), Nobody(roots), Queue(records));
  }
}
