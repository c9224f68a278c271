/** Folding OpenCode ask and reply markers into the decisions that are still open
    (src/codex_cli_monitor/opencode_decisions.py, `_fold_decisions`). */
module OpenCodeDecisions {
  import opened Sequences

  datatype Kind = Permission | Question

  /** An ask names its kind; every other event counts as a reply. */
  datatype Event = Ask(kind: Kind) | Reply(name: string)

  /** One marker; identifiers that are missing or empty read as None. */
  datatype Marker = Marker(
    event: Event, timestamp: Option<real>, requestId: Option<string>, sessionId: Option<string>,
    directory: Option<string>, category: Option<string>, pid: Option<int>)

  datatype Decision = Decision(
    kind: Kind, requestId: Option<string>, sessionId: Option<string>, directory: Option<string>,
    category: Option<string>, askedAt: real, pid: Option<int>)

  /** One item of the insertion-ordered `open_decisions` dictionary. */
  datatype Entry = Entry(key: string, decision: Decision)

  /** An ask that is kept: it has a timestamp and an identifier a reply could name. */
  predicate Identifiable(m: Marker) {
    m.event.Ask? && m.timestamp.Some? && (m.requestId.Some? || m.sessionId.Some?)
  }

  function EntryOf(m: Marker): Entry
    requires Identifiable(m)
  {
    Entry(if m.requestId.Some? then m.requestId.value else "session:" + m.sessionId.value,
          Decision(m.event.kind, m.requestId, m.sessionId, m.directory, m.category, m.timestamp.value, m.pid))
  }

  function LeftBy(m: Marker): Entry -> bool {
    (e: Entry) => Some(e.key) != m.requestId && !(m.sessionId.Some? && e.decision.sessionId == m.sessionId)
  }

  predicate HasKey(open: seq<Entry>, key: string) {
    exists e <- open :: e.key == key
  }

  /** `open[key] = decision`: an existing key keeps its place. */
  function Put(open: seq<Entry>, entry: Entry): seq<Entry> {
    if HasKey(open, entry.key)
    then seq(|open|, i requires 0 <= i < |open| => if open[i].key == entry.key then entry else open[i])
    else open + [entry]
  }

  function Step(open: seq<Entry>, m: Marker): seq<Entry> {
    if m.event.Ask? then (if Identifiable(m) then Put(open, EntryOf(m)) else open)
    else Filter(open, LeftBy(m))
  }

  function Open(markers: seq<Marker>): seq<Entry> {
    if markers == [] then [] else Step(Open(Front(markers)), Last(markers))
  }

  predicate Newer(a: Entry, b: Entry) { a.decision.askedAt >= b.decision.askedAt }

  function DecisionsOf(entries: seq<Entry>): seq<Decision> {
    seq(|entries|, i requires 0 <= i < |entries| => entries[i].decision)
  }

  /** The decisions returned, newest first. */
  function Pending(markers: seq<Marker>): seq<Decision> {
    DecisionsOf(StableSort(Open(markers), Newer))
  }

  method FoldDecisions(markers: seq<Marker>) returns (decisions: seq<Decision>)
    ensures decisions == Pending(markers)
  {
    var openDecisions: seq<Entry> := [];
    for n := 0 to |markers|
      invariant openDecisions == Open(markers[..n])
    {
      assert Front(markers[..n + 1]) == markers[..n];
      var payload := markers[n];
      if payload.event.Ask? {
        if payload.timestamp.None? || (payload.requestId.None? && payload.sessionId.None?) {
          continue;
        }
        openDecisions := Put(openDecisions, EntryOf(payload));
        continue;
      }
      openDecisions := Release(openDecisions, payload);
    }
    assert markers[..|markers|] == markers;
    decisions := DecisionsOf(StableSort(openDecisions, Newer));
  }

  /** A reply pops its own request id, then every decision of its session. */
  method Release(open: seq<Entry>, payload: Marker) returns (left: seq<Entry>)
    ensures left == Filter(open, LeftBy(payload))
  {
    left := [];
    for i := 0 to |open|
      invariant left == Filter(open[..i], LeftBy(payload))
    {
      assert Front(open[..i + 1]) == open[..i];
      if Some(open[i].key) == payload.requestId {
        continue;
      }
      if payload.sessionId.Some? && open[i].decision.sessionId == payload.sessionId {
        continue;
      }
      left := left + [open[i]];
    }
    assert open[..|open|] == open;
  }

  // ---- what the fold means ------------------------------------------------------------------------

  /** A later record that takes entry e out: an identifiable ask with its key, a reply that names its
      request, or a reply that names its session. */
  predicate Releases(m: Marker, e: Entry) {
    if m.event.Ask? then Identifiable(m) && EntryOf(m).key == e.key
    else m.requestId == Some(e.key) || (m.sessionId.Some? && e.decision.sessionId == m.sessionId)
  }

  /** Whether e is open after a record depends on nothing but whether it was open before. */
  lemma StepMembers(open: seq<Entry>, m: Marker, e: Entry)
    ensures e in Step(open, m) <==> (Identifiable(m) && e == EntryOf(m)) || (e in open && !Releases(m, e))
  {
    if m.event.Ask? {
      if Identifiable(m) {
        PutMembers(open, EntryOf(m), e);
      }
    } else {
      FilterMembers(open, LeftBy(m));
    }
  }

  lemma PutMembers(open: seq<Entry>, entry: Entry, e: Entry)
    ensures e in Put(open, entry) <==> e == entry || (e in open && e.key != entry.key)
  {
    var after := Put(open, entry);
    if HasKey(open, entry.key) {
      var k :| 0 <= k < |open| && open[k].key == entry.key;
      assert after[k] == entry;
      if e in open && e.key != entry.key {
        var i :| 0 <= i < |open| && open[i] == e;
        assert after[i] == e;
      }
    }
  }

  ghost predicate NeverReleasedAfter(markers: seq<Marker>, i: nat, e: Entry) {
    forall j :: i < j < |markers| ==> !Releases(markers[j], e)
  }

  /** An entry is open iff it was asked, identifiably, and no later record releases it. */
  lemma {:induction false} OpenMeans(markers: seq<Marker>, e: Entry)
    ensures e in Open(markers) <==>
      exists i :: 0 <= i < |markers| && Identifiable(markers[i]) && e == EntryOf(markers[i])
        && NeverReleasedAfter(markers, i, e)
  {
    if markers != [] {
      var front, last := Front(markers), Last(markers);
      OpenMeans(front, e);
      StepMembers(Open(front), last, e);
      assert markers == front + [last];
      forall i: nat | i < |front|
        ensures NeverReleasedAfter(markers, i, e) <==> NeverReleasedAfter(front, i, e) && !Releases(last, e)
      {
        OneMoreMarker(front, last, i, e);
      }
      assert NeverReleasedAfter(markers, |front|, e) && markers[|front|] == last;
    }
  }

  lemma OneMoreMarker(front: seq<Marker>, last: Marker, i: nat, e: Entry)
    requires i < |front|
    ensures NeverReleasedAfter(front + [last], i, e) <==> NeverReleasedAfter(front, i, e) && !Releases(last, e)
  {
    var markers := front + [last];
    assert markers[|front|] == last && forall j | 0 <= j < |front| :: markers[j] == front[j];
  }

  /** Each key is open at most once. */
  lemma {:induction false} OneEntryPerKey(markers: seq<Marker>)
    ensures Distinct(Open(markers), (e: Entry) => e.key)
  {
    if markers != [] {
      var open, m, key := Open(Front(markers)), Last(markers), (e: Entry) => e.key;
      OneEntryPerKey(Front(markers));
      if !m.event.Ask? {
        FilterDistinct(open, LeftBy(m), key);
      } else if Identifiable(m) && HasKey(open, EntryOf(m).key) {
        assert forall i | 0 <= i < |open| :: key(Put(open, EntryOf(m))[i]) == key(open[i]);
      } else if Identifiable(m) {
        forall i | 0 <= i < |open| ensures key(open[i]) != key(EntryOf(m)) {
          assert open[i] in open;
        }
      }
    }
  }

  /** Records of other sessions and keys never affect an entry: dropping any records that neither
      asked nor release it leaves it open, or not, as before. */
  lemma {:induction false} UnrelatedRecordsDoNotMatter(markers: seq<Marker>, keep: Marker -> bool, e: Entry)
    requires forall m <- markers | !keep(m) :: !Releases(m, e)
    ensures e in Open(markers) <==> e in Open(Filter(markers, keep))
  {
    if markers != [] {
      var front, m := Front(markers), Last(markers);
      UnrelatedRecordsDoNotMatter(front, keep, e);
      StepMembers(Open(front), m, e);
      assert m in markers;
      if keep(m) {
        assert Front(Filter(front, keep) + [m]) == Filter(front, keep);
        StepMembers(Open(Filter(front, keep)), m, e);
      }
    }
  }

  // ---- told on the markers -------------------------------------------------------------------------------------

  /** The ask's decision: everything in it is the marker's own. */
  predicate AsksFor(m: Marker, d: Decision) {
    && m.event == Ask(d.kind) && m.timestamp == Some(d.askedAt)
    && m.requestId == d.requestId && m.sessionId == d.sessionId && (m.requestId.Some? || m.sessionId.Some?)
    && m.directory == d.directory && m.category == d.category && m.pid == d.pid
  }

  /** What an ask is known by: its request id, or without one its session. */
  predicate KnownAs(m: Marker, id: string) {
    m.requestId == Some(id) || (m.requestId.None? && m.sessionId.Some? && id == "session:" + m.sessionId.value)
  }

  /** A later marker settles an ask: a reply that names its request or its session, or a new ask known by the same
      id. */
  ghost predicate Settles(later: Marker, ask: Marker) {
    if later.event.Reply? then
      || (later.requestId.Some? && KnownAs(ask, later.requestId.value))
      || (later.sessionId.Some? && later.sessionId == ask.sessionId)
    else later.timestamp.Some? && exists id :: KnownAs(later, id) && KnownAs(ask, id)
  }

  /** Marker i asks for d, and no later marker settles it. */
  ghost predicate Unanswered(markers: seq<Marker>, i: nat, d: Decision) {
    i < |markers| && AsksFor(markers[i], d) && forall j | i < j < |markers| :: !Settles(markers[j], markers[i])
  }

  lemma AskEntry(m: Marker, d: Decision)
    ensures AsksFor(m, d) <==> Identifiable(m) && EntryOf(m).decision == d
  {
  }

  lemma EntryKey(m: Marker, id: string)
    requires Identifiable(m)
    ensures KnownAs(m, id) <==> id == EntryOf(m).key
  {
  }

  lemma ReleasesIs(later: Marker, ask: Marker)
    requires Identifiable(ask)
    ensures Releases(later, EntryOf(ask)) <==> Settles(later, ask)
  {
    EntryKey(ask, EntryOf(ask).key);
    if later.event.Ask? {
      if Identifiable(later) {
        EntryKey(later, EntryOf(later).key);
        forall id ensures KnownAs(later, id) <==> id == EntryOf(later).key {
          EntryKey(later, id);
        }
        forall id ensures KnownAs(ask, id) <==> id == EntryOf(ask).key {
          EntryKey(ask, id);
        }
      }
    } else if later.requestId.Some? {
      EntryKey(ask, later.requestId.value);
    }
  }

  lemma NeverSettled(markers: seq<Marker>, i: nat, d: Decision)
    ensures Unanswered(markers, i, d) <==>
      i < |markers| && Identifiable(markers[i]) && EntryOf(markers[i]).decision == d
      && NeverReleasedAfter(markers, i, EntryOf(markers[i]))
  {
    if i < |markers| {
      AskEntry(markers[i], d);
      if Identifiable(markers[i]) {
        forall j | i < j < |markers|
          ensures Releases(markers[j], EntryOf(markers[i])) <==> Settles(markers[j], markers[i])
        {
          ReleasesIs(markers[j], markers[i]);
        }
      }
    }
  }

  /** The decisions returned are exactly the unanswered asks, as their markers state them. */
  lemma PendingMeans(markers: seq<Marker>, d: Decision)
    ensures d in Pending(markers) <==> exists i: nat :: Unanswered(markers, i, d)
  {
    var sorted := StableSort(Open(markers), Newer);
    SortMembers(Open(markers), Newer);
    if d in Pending(markers) {
      var k :| 0 <= k < |sorted| && Pending(markers)[k] == d;
      var e := sorted[k];
      assert e in sorted;
      OpenMeans(markers, e);
      var i: nat :| i < |markers| && Identifiable(markers[i]) && e == EntryOf(markers[i])
        && NeverReleasedAfter(markers, i, e);
      NeverSettled(markers, i, d);
    }
    if i: nat :| Unanswered(markers, i, d) {
      NeverSettled(markers, i, d);
      var e := EntryOf(markers[i]);
      OpenMeans(markers, e);
      assert e in sorted;
      var k :| 0 <= k < |sorted| && sorted[k] == e;
      assert Pending(markers)[k] == d;
    }
  }

  lemma NewestFirst(markers: seq<Marker>)
    ensures forall i, j :: 0 <= i < j < |Pending(markers)| ==>
      Pending(markers)[i].askedAt >= Pending(markers)[j].askedAt
  {
    var sorted := StableSort(Open(markers), Newer);
    SortSorts(Open(markers), Newer);
    assert forall i, j | 0 <= i < j < |sorted| :: Newer(sorted[i], sorted[j]);
  }
}
