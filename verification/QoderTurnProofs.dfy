/** What every Qoder record stream keeps, and that subagents never disturb the main turn. */
module QoderTurnProofs {
  import opened Sequences
  import opened QoderTurn

  function KeyOf(p: Pending): string { p.key }

  lemma {:induction false} WithoutFacts(pending: seq<Pending>, key: string)
    requires Distinct(pending, KeyOf)
    ensures Distinct(Without(pending, key), KeyOf)
    ensures forall p :: p in Without(pending, key) <==> p in pending && p.key != key
    ensures |Without(pending, key)| == if HasKey(pending, key) then |pending| - 1 else |pending|
  {
    if pending != [] {
      var front, last := Front(pending), Last(pending);
      WithoutFacts(front, key);
      assert pending == front + [last];
      forall p <- front ensures p.key != last.key {
        var i :| 0 <= i < |front| && front[i] == p;
        assert KeyOf(pending[i]) != KeyOf(pending[|front|]);
      }
      assert HasKey(pending, key) <==> HasKey(front, key) || last.key == key;
    }
  }

  lemma PutFacts(pending: seq<Pending>, key: string, tool: string)
    requires Distinct(pending, KeyOf)
    ensures Distinct(Put(pending, key, tool), KeyOf)
    ensures HasKey(Put(pending, key, tool), key)
    ensures |Put(pending, key, tool)| == if HasKey(pending, key) then |pending| else |pending| + 1
  {
    var after := Put(pending, key, tool);
    if HasKey(pending, key) {
      var i :| 0 <= i < |pending| && pending[i].key == key;
      assert after[i] in after && after[i].key == key;
      assert forall j | 0 <= j < |pending| :: after[j].key == pending[j].key;
    } else {
      assert Last(after) in after;
      forall j | 0 <= j < |pending| ensures pending[j].key != key {
        assert pending[j] in pending;
      }
    }
  }

  lemma {:induction false} ToolOfFound(pending: seq<Pending>, key: string)
    ensures ToolOf(pending, key).Some? <==> HasKey(pending, key)
    ensures ToolOf(pending, key).Some? ==> Pending(key, ToolOf(pending, key).value) in pending
  {
    if pending != [] {
      ToolOfFound(Front(pending), key);
      assert pending == Front(pending) + [Last(pending)];
      assert Last(pending) in pending;
    }
  }

  // ---- the invariant of every reachable state ---------------------------------------------

  ghost predicate Inv(s: Turn) {
    && (!s.turnActive ==> s.pending == [] && s.pendingAsk.None? && s.pendingAskId.None?)
    && (s.turnActive ==> s.workSubmitted && !s.terminalEvent && !s.failedEvent)
    && (!s.turnActive ==> s.workSubmitted == s.terminalEvent)
    && Distinct(s.pending, KeyOf) && |s.pending| <= MAX_PENDING_PERMISSIONS
    && (s.lastPermissionKey.Some? <==> s.pending != [])
    && (s.lastPermissionKey.Some? ==> HasKey(s.pending, s.lastPermissionKey.value))
    && (s.pendingAsk.Some? ==> s.pendingAsk.value in WAITING_TOOL_NAMES)
    && |s.subagentTurns| <= MAX_PENDING_PERMISSIONS
  }

  lemma RequestKeeps(s: Turn, r: Record)
    requires Inv(s) && s.turnActive
    ensures Inv(Request(s, r))
  {
    var key := Request(s, r).lastPermissionKey.value;
    var room := if |s.pending| >= MAX_PENDING_PERMISSIONS then Without(s.pending, s.pending[0].key) else s.pending;
    if |s.pending| >= MAX_PENDING_PERMISSIONS {
      assert s.pending[0] in s.pending;
      WithoutFacts(s.pending, s.pending[0].key);
    }
    PutFacts(room, key, Label(r));
  }

  lemma ResolveKeeps(s: Turn, r: Record)
    requires Inv(s) && s.turnActive
    ensures Inv(Resolve(s, r))
    ensures |Resolve(s, r).pending| == if s.pending == [] then 0 else |s.pending| - 1
  {
    if r.toolCallId.Some? {
      WithoutFacts(s.pending, r.toolCallId.value);
    }
    if s.pending != [] {
      assert s.pending[0] in s.pending;
      WithoutFacts(s.pending, s.pending[0].key);
    }
    var left := Resolve(s, r).pending;
    if left != [] {
      assert Last(left) in left;
    }
  }

  lemma DuringKeeps(s: Turn, r: Record)
    requires Inv(s) && s.turnActive && r.eventType.Some?
    ensures Inv(DuringTurn(s, r))
  {
    match r.eventType.value
    case PermissionRequested => RequestKeeps(s, r);
    case PermissionResolved => ResolveKeeps(s, r);
    case _ =>
  }

  lemma ApplyKeeps(s: Turn, r: Record)
    requires Inv(s)
    ensures Inv(Apply(s, r))
  {
    if r.eventType.Some? {
      var t := Stamped(s, r);
      assert Inv(t);
      if t.turnActive && r.eventType.value != TurnStarted && !FromAnotherTurn(t, r) {
        DuringKeeps(t, r);
      }
    }
  }

  /** Every record stream leads to a state that satisfies the invariant. */
  lemma {:induction false} EveryReachableState(rs: seq<Record>)
    ensures Inv(Fold(INITIAL, rs))
  {
    if rs != [] {
      EveryReachableState(Front(rs));
      ApplyKeeps(Fold(INITIAL, Front(rs)), Last(rs));
    }
  }

  /** In every reachable state a permission wait is labelled by the entry `last_permission_key` names;
      the fallback to the newest entry is never taken. */
  lemma WaitingLabelIsNamed(rs: seq<Record>)
    ensures var s := Fold(INITIAL, rs);
      s.turnActive && s.pending != [] ==>
        && s.lastPermissionKey.Some?
        && ToolOf(s.pending, s.lastPermissionKey.value).Some?
        && DeriveStatus(s).0 == Some(Waiting)
        && Pending(s.lastPermissionKey.value, ToolOf(s.pending, s.lastPermissionKey.value).value) in s.pending
  {
    EveryReachableState(rs);
    var s := Fold(INITIAL, rs);
    if s.lastPermissionKey.Some? {
      ToolOfFound(s.pending, s.lastPermissionKey.value);
    }
  }

  /** While a turn is active, each resolution that belongs to it answers exactly one open request. */
  lemma ResolutionAnswersOne(rs: seq<Record>, r: Record)
    requires r.eventType == Some(PermissionResolved)
    requires var s := Fold(INITIAL, rs); s.turnActive && !FromSubagent(s, r) && !FromAnotherTurn(s, r)
    ensures var s, t := Fold(INITIAL, rs), Fold(INITIAL, rs + [r]);
      |t.pending| == (if s.pending == [] then 0 else |s.pending| - 1) && t.turnActive
  {
    EveryReachableState(rs);
    assert Front(rs + [r]) == rs;
    var s := Fold(INITIAL, rs);
    ResolveKeeps(Stamped(s, r), r);
  }

  // ---- when there is a status at all -------------------------------------------------------

  /** The subagent turns announced by a stream, at most 64, told without the machine. */
  function Announced(rs: seq<Record>): set<string> {
    if rs == [] then {}
    else
      var before, r := Announced(Front(rs)), Last(rs);
      if r.eventType == Some(TurnStarted) && r.isSubagent && r.turnId.Some? && |before| < MAX_PENDING_PERMISSIONS
      then before + {r.turnId.value}
      else before
  }

  predicate IsMainTurn(r: Record) {
    r.eventType == Some(TurnFinished) || (r.eventType == Some(TurnStarted) && !r.isSubagent)
  }

  /** Record i starts or finishes a main-conversation turn. */
  predicate MainTurnAt(rs: seq<Record>, i: nat)
    requires i < |rs|
  {
    IsMainTurn(rs[i]) && !(rs[i].turnId.Some? && rs[i].turnId.value in Announced(rs[..i]))
  }

  lemma SubagentStep(s: Turn, r: Record)
    ensures Apply(s, r).subagentTurns ==
      if IsAnnouncement(r) && r.turnId.Some? && |s.subagentTurns| < MAX_PENDING_PERMISSIONS
      then s.subagentTurns + {r.turnId.value}
      else s.subagentTurns
  {
    if r.eventType.Some? {
      var t := Stamped(s, r);
      DuringSubagents(t, r);
      if FromSubagent(t, r) {
        assert s.subagentTurns + {r.turnId.value} == s.subagentTurns;
      }
    }
  }

  lemma {:induction false} AnnouncedAre(rs: seq<Record>)
    ensures Fold(INITIAL, rs).subagentTurns == Announced(rs)
  {
    if rs != [] {
      AnnouncedAre(Front(rs));
      SubagentStep(Fold(INITIAL, Front(rs)), Last(rs));
    }
  }

  /** Whether an earlier record is about a main turn does not depend on later ones. */
  lemma MainTurnInFront(rs: seq<Record>, i: nat)
    requires i < |rs| - 1
    ensures MainTurnAt(rs, i) == MainTurnAt(Front(rs), i)
  {
    assert Front(rs)[..i] == rs[..i];
  }

  lemma DuringSubmitted(s: Turn, r: Record)
    requires r.eventType.Some?
    ensures DuringTurn(s, r).workSubmitted == s.workSubmitted
  {
  }

  lemma StepSubmits(s: Turn, r: Record)
    requires s.turnActive ==> s.workSubmitted
    ensures Apply(s, r).workSubmitted <==> s.workSubmitted || (IsMainTurn(r) && !FromSubagent(s, r))
  {
    if r.eventType.Some? {
      DuringSubmitted(Stamped(s, r), r);
    }
  }

  lemma SubmittedByLast(rs: seq<Record>)
    requires rs != []
    ensures Fold(INITIAL, rs).workSubmitted
            <==> Fold(INITIAL, Front(rs)).workSubmitted || MainTurnAt(rs, |rs| - 1)
  {
    EveryReachableState(Front(rs));
    StepSubmits(Fold(INITIAL, Front(rs)), Last(rs));
    AnnouncedAre(Front(rs));
    assert rs[..|rs| - 1] == Front(rs);
  }

  lemma {:induction false} SubmittedMeans(rs: seq<Record>)
    ensures Fold(INITIAL, rs).workSubmitted <==> exists i :: 0 <= i < |rs| && MainTurnAt(rs, i)
  {
    if rs != [] {
      var front := Front(rs);
      SubmittedMeans(front);
      SubmittedByLast(rs);
      forall i | 0 <= i < |front| ensures MainTurnAt(rs, i) == MainTurnAt(front, i) {
        MainTurnInFront(rs, i);
      }
    }
  }

  /** A row is displayed exactly when the stream shows a main turn starting or finishing. */
  lemma StatusIffMainTurnSeen(rs: seq<Record>)
    ensures DeriveStatus(Fold(INITIAL, rs)).0.Some? <==> exists i :: 0 <= i < |rs| && MainTurnAt(rs, i)
  {
    EveryReachableState(rs);
    SubmittedMeans(rs);
  }

  // ---- subagents ------------------------------------------------------------------------------

  predicate OfTurns(r: Record, ids: set<string>) {
    r.turnId.Some? && r.turnId.value in ids
  }

  function NotOf(ids: set<string>): Record -> bool {
    (r: Record) => !OfTurns(r, ids)
  }

  predicate IsAnnouncement(r: Record) {
    r.eventType == Some(TurnStarted) && r.isSubagent
  }

  /** `ids` are subagent turns: each one's records begin with its own announcement, and no other turn
      is announced as a subagent's. */
  ghost predicate AnnouncedFirst(rs: seq<Record>, ids: set<string>) {
    && (forall r <- rs :: IsAnnouncement(r) && r.turnId.Some? ==> r.turnId.value in ids)
    && (forall i :: 0 <= i < |rs| && OfTurns(rs[i], ids) && rs[i].eventType.Some? && !IsAnnouncement(rs[i]) ==>
          exists j :: 0 <= j < i && IsAnnouncement(rs[j]) && rs[j].turnId == rs[i].turnId)
  }

  /** Everything but the activity stamps and the subagent set: all that a status depends on. */
  function Main(s: Turn): Turn {
    s.(lastActivityAt := None, lastEventType := None, subagentTurns := {})
  }

  lemma DuringMain(s: Turn, r: Record)
    requires r.eventType.Some?
    ensures Main(DuringTurn(s, r)) == DuringTurn(Main(s), r)
  {
    match r.eventType.value
    case PermissionRequested => RequestMain(s, r);
    case PermissionResolved => ResolveMain(s, r);
    case ToolExecutionFinished => ToolDoneMain(s, r);
    case ToolShellFinished => ToolDoneMain(s, r);
    case _ =>
  }

  lemma RequestMain(s: Turn, r: Record)
    ensures Main(Request(s, r)) == Request(Main(s), r)
  {
  }

  lemma ResolveMain(s: Turn, r: Record)
    ensures Main(Resolve(s, r)) == Resolve(Main(s), r)
  {
  }

  lemma ToolDoneMain(s: Turn, r: Record)
    ensures Main(ToolDone(s, r)) == ToolDone(Main(s), r)
  {
  }

  /** A record of the main conversation acts on the main part alone. */
  lemma ApplyMain(s: Turn, r: Record)
    requires !FromSubagent(s, r) && !(IsAnnouncement(r) && r.turnId.Some?)
    ensures Main(Apply(s, r)) == Main(Apply(Main(s), r))
  {
    if r.eventType.Some? {
      var a, b := Stamped(s, r), Stamped(Main(s), r);
      assert Main(a) == Main(b);
      if r.eventType.value != TurnStarted && s.turnActive && !FromAnotherTurn(a, r) {
        DuringMain(a, r);
        DuringMain(b, r);
      }
    }
  }

  lemma DuringSubagents(s: Turn, r: Record)
    requires r.eventType.Some?
    ensures DuringTurn(s, r).subagentTurns == s.subagentTurns
  {
  }

  lemma {:induction false} SubagentsWithin(rs: seq<Record>, ids: set<string>)
    requires forall r <- rs :: IsAnnouncement(r) && r.turnId.Some? ==> r.turnId.value in ids
    ensures Fold(INITIAL, rs).subagentTurns <= ids
  {
    if rs != [] {
      SubagentsWithin(Front(rs), ids);
      SubagentStep(Fold(INITIAL, Front(rs)), Last(rs));
    }
  }

  lemma {:induction false} AnnouncedStays(rs: seq<Record>, ids: set<string>, j: nat)
    requires forall r <- rs :: IsAnnouncement(r) && r.turnId.Some? ==> r.turnId.value in ids
    requires |ids| <= MAX_PENDING_PERMISSIONS && j < |rs| && IsAnnouncement(rs[j]) && rs[j].turnId.Some?
    ensures rs[j].turnId.value in Fold(INITIAL, rs).subagentTurns
  {
    var front, r := Front(rs), Last(rs);
    var s := Fold(INITIAL, front);
    SubagentStep(s, r);
    if j < |front| {
      AnnouncedStays(front, ids, j);
    } else if r.turnId.value !in s.subagentTurns {
      SubagentsWithin(front, ids);
      SmallerSubset(s.subagentTurns, ids, r.turnId.value);
    }
  }

  lemma SmallerSubset(a: set<string>, b: set<string>, x: string)
    requires a <= b && x in b && x !in a
    ensures |a| < |b|
  {
    assert b == (a + {x}) + (b - a - {x});
  }

  /** With at most 64 announced subagent turns, deleting all their records leaves the main turn's
      flags, pending permissions, pending question, status and waiting reason unchanged. */
  lemma {:induction false} SubagentsDoNotInterfere(rs: seq<Record>, ids: set<string>)
    requires AnnouncedFirst(rs, ids) && |ids| <= MAX_PENDING_PERMISSIONS
    ensures Main(Fold(INITIAL, rs)) == Main(Fold(INITIAL, Filter(rs, NotOf(ids))))
    ensures Fold(INITIAL, Filter(rs, NotOf(ids))).subagentTurns == {}
    ensures DeriveStatus(Fold(INITIAL, rs)) == DeriveStatus(Fold(INITIAL, Filter(rs, NotOf(ids))))
  {
    if rs != [] {
      var front, r := Front(rs), Last(rs);
      SubagentsDoNotInterfere(front, ids);
      SubagentsWithin(front, ids);
      var s, t := Fold(INITIAL, front), Fold(INITIAL, Filter(front, NotOf(ids)));
      assert rs[|front|] == r && r in rs;
      if OfTurns(r, ids) {
        if r.eventType.Some? && !IsAnnouncement(r) {
          var j :| 0 <= j < |front| && IsAnnouncement(rs[j]) && rs[j].turnId == r.turnId;
          AnnouncedStays(front, ids, j);
        }
        IgnoredMain(s, r);
      } else {
        var kept := Filter(front, NotOf(ids));
        assert Filter(rs, NotOf(ids)) == kept + [r];
        assert Front(kept + [r]) == kept;
        ApplyMain(s, r);
        ApplyMain(t, r);
        SubagentStep(t, r);
      }
    }
    MainStatus(Fold(INITIAL, rs));
    MainStatus(Fold(INITIAL, Filter(rs, NotOf(ids))));
  }

  /** A subagent's announcement, and any record of a turn known to be one, leave the main part alone. */
  lemma IgnoredMain(s: Turn, r: Record)
    requires r.eventType.None? || IsAnnouncement(r) || FromSubagent(s, r)
    ensures Main(Apply(s, r)) == Main(s)
  {
  }

  lemma MainStatus(s: Turn)
    ensures DeriveStatus(s) == DeriveStatus(Main(s))
  {
  }

  // ---- the bound is exact --------------------------------------------------------------------------

  function Announcement(id: string): Record {
    Record(Some(TurnStarted), None, Some(id), None, true, None, false, false)
  }

  function Finish(id: string): Record {
    Record(Some(TurnFinished), None, Some(id), None, false, None, false, false)
  }

  /** The subagents' announcements alone leave a state that only remembers them. */
  lemma {:induction false} Announce(ids: set<string>) returns (rs: seq<Record>)
    requires |ids| <= MAX_PENDING_PERMISSIONS
    ensures forall r <- rs :: exists id :: id in ids && r == Announcement(id)
    ensures forall id <- ids :: Announcement(id) in rs
    ensures Fold(INITIAL, rs).subagentTurns == ids && Main(Fold(INITIAL, rs)) == Main(INITIAL)
  {
    if ids == {} {
      rs := [];
    } else {
      var id :| id in ids;
      var before := Announce(ids - {id});
      rs := before + [Announcement(id)];
      assert Front(rs) == before;
      AnnounceOne(Fold(INITIAL, before), id);
    }
  }

  lemma AnnounceOne(s: Turn, id: string)
    requires |s.subagentTurns| < MAX_PENDING_PERMISSIONS
    ensures var t := Apply(s, Announcement(id)); t.subagentTurns == s.subagentTurns + {id} && Main(t) == Main(s)
  {
  }

  /** A full memory forgets the next announcement, and the forgotten turn's end is taken for the end of a
      main turn. */
  lemma Forgets(s: Turn, id: string)
    requires |s.subagentTurns| == MAX_PENDING_PERMISSIONS && id !in s.subagentTurns && Main(s) == Main(INITIAL)
    ensures var t := Apply(Apply(s, Announcement(id)), Finish(id));
      t.workSubmitted && t.turnId == Some(id) && DeriveStatus(t) == (Some(Success), None)
  {
    assert !s.turnActive;
    var t := Apply(s, Announcement(id));
    assert t == Stamped(s, Announcement(id));
  }

  lemma {:induction false} SomeOf(ids: set<string>, n: nat) returns (some: set<string>)
    requires n <= |ids|
    ensures some <= ids && |some| == n
  {
    if n == |ids| {
      some := ids;
    } else {
      var id :| id in ids;
      some := SomeOf(ids - {id}, n);
    }
  }

  lemma SomeOther(ids: set<string>, some: set<string>) returns (id: string)
    requires some <= ids && |some| < |ids|
    ensures id in ids && id !in some
  {
    assert ids == some + (ids - some);
    id :| id in ids - some;
  }

  /** For every set of more than 64 subagent turns there is a stream, of their records alone, that the
      monitor takes for a main turn that succeeded; without those records nothing is shown. */
  lemma TooManySubagents(ids: set<string>) returns (rs: seq<Record>)
    requires |ids| > MAX_PENDING_PERMISSIONS
    ensures AnnouncedFirst(rs, ids) && Filter(rs, NotOf(ids)) == []
    ensures Main(Fold(INITIAL, rs)) != Main(INITIAL)
    ensures DeriveStatus(Fold(INITIAL, rs)) == (Some(Success), None) && DeriveStatus(INITIAL) == (None, None)
  {
    var remembered := SomeOf(ids, MAX_PENDING_PERMISSIONS);
    var id := SomeOther(ids, remembered);
    var announced := Announce(remembered);
    var last := [Announcement(id), Finish(id)];
    rs := announced + last;
    Forgets(Fold(INITIAL, announced), id);
    assert Front(rs) == announced + [Announcement(id)] && Front(announced + [Announcement(id)]) == announced;
    assert rs[|announced|] == Announcement(id);
    assert forall i | 0 <= i < |announced| :: announced[i] in announced && rs[i] == announced[i];
    FilterNone(rs, NotOf(ids));
  }

  ghost predicate Interfere(rs: seq<Record>, ids: set<string>) {
    Main(Fold(INITIAL, rs)) != Main(Fold(INITIAL, Filter(rs, NotOf(ids))))
  }

  /** Subagent turns never disturb the main turn, whatever the stream, if and only if there are at most 64
      of them. */
  lemma NonInterferenceIff(ids: set<string>)
    ensures |ids| <= MAX_PENDING_PERMISSIONS <==> forall rs | AnnouncedFirst(rs, ids) :: !Interfere(rs, ids)
  {
    if |ids| <= MAX_PENDING_PERMISSIONS {
      forall rs | AnnouncedFirst(rs, ids) ensures !Interfere(rs, ids) {
        SubagentsDoNotInterfere(rs, ids);
      }
    } else {
      var rs := TooManySubagents(ids);
      assert Interfere(rs, ids);
    }
  }
}
