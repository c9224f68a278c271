/** What an open Qoder turn waits for, and the status and reason a record stream shows, told on the records
    (src/codex_cli_monitor/qoder_state.py, `_apply_record`, `_derive_status`). */
module QoderWaits {
  import opened Sequences
  import opened QoderTurn
  import opened QoderTurnProofs
  import opened QoderStatus

  // ---- the open permission requests, as record positions -------------------------------------------------------

  predicate Requests(r: Record) { r.eventType == Some(PermissionRequested) }

  predicate Resolves(r: Record) { r.eventType == Some(PermissionResolved) }

  /** Record k is one of the turn that is open when it comes. */
  predicate Belongs(rs: seq<Record>, k: nat)
    requires k < |rs|
  {
    var i := LastMark(rs, k);
    i.Some? && Starts(rs[i.value]) && InTurn(rs, i.value, k)
  }

  /** How many requests without an id came up in open turns. */
  function Unnamed(rs: seq<Record>, n: nat): nat
    requires n <= |rs|
  {
    if n == 0 then 0
    else
      Unnamed(rs, n - 1) +
      if Belongs(rs, n - 1) && Requests(rs[n - 1]) && rs[n - 1].toolCallId.None? then 1 else 0
  }

  /** What a request is filed under: its id, or a number of its own. */
  function KeyAt(rs: seq<Record>, k: nat): string {
    if k >= |rs| then ""
    else if rs[k].toolCallId.Some? then rs[k].toolCallId.value
    else "permission-" + Digits(Unnamed(rs, k + 1))
  }

  function ToolAt(rs: seq<Record>, k: nat): string {
    if k >= |rs| || rs[k].toolName.None? || rs[k].toolName.value == "" then "approval prompt"
    else rs[k].toolName.value
  }

  function SameKey(rs: seq<Record>, key: string): nat -> bool { (x: nat) => KeyAt(rs, x) == key }

  function OtherKey(rs: seq<Record>, key: string): nat -> bool { (x: nat) => KeyAt(rs, x) != key }

  /** The oldest of 64 makes room. */
  function Room(q: seq<nat>): seq<nat> { if |q| >= MAX_PENDING_PERMISSIONS then q[1..] else q }

  /** A request takes the place of an open one with its key; otherwise it comes last. */
  function Requested(rs: seq<Record>, q: seq<nat>, k: nat): seq<nat> {
    if exists x <- q :: KeyAt(rs, x) == KeyAt(rs, k)
    then seq(|q|, m requires 0 <= m < |q| => if KeyAt(rs, q[m]) == KeyAt(rs, k) then k else q[m])
    else q + [k]
  }

  /** A resolution answers the open request it names, or else the oldest. */
  function Resolved(rs: seq<Record>, q: seq<nat>, r: Record): seq<nat> {
    if r.toolCallId.Some? && exists x <- q :: KeyAt(rs, x) == r.toolCallId.value
    then Filter(q, OtherKey(rs, r.toolCallId.value))
    else if q != [] then q[1..]
    else []
  }

  /** The requests of the turn that record i started which are open after n records. */
  function Open(rs: seq<Record>, i: nat, n: nat): seq<nat>
    requires i < |rs| && n <= |rs|
  {
    if n <= i + 1 then []
    else OpenAfter(rs, Open(rs, i, n - 1), n - 1, InTurn(rs, i, n - 1))
  }

  /** What record k leaves open, if it is one of the turn. */
  function OpenAfter(rs: seq<Record>, q: seq<nat>, k: nat, inTurn: bool): seq<nat>
    requires k < |rs|
  {
    if !inTurn then q
    else if Requests(rs[k]) then Requested(rs, Room(q), k)
    else if Resolves(rs[k]) then Resolved(rs, q, rs[k])
    else q
  }

  /** The one shown: the newest, or the last of those a resolution has left. */
  function Shown(rs: seq<Record>, i: nat, n: nat): Option<nat>
    requires i < |rs| && n <= |rs|
  {
    if n <= i + 1 then None
    else if InTurn(rs, i, n - 1) && Requests(rs[n - 1]) then Some(n - 1)
    else if InTurn(rs, i, n - 1) && Resolves(rs[n - 1]) then
      if Open(rs, i, n) == [] then None else Some(Last(Open(rs, i, n)))
    else Shown(rs, i, n - 1)
  }

  // ---- the dictionary is the list of open requests -------------------------------------------------------------

  function Entries(rs: seq<Record>, q: seq<nat>): seq<Pending> {
    seq(|q|, m requires 0 <= m < |q| => Pending(KeyAt(rs, q[m]), ToolAt(rs, q[m])))
  }

  lemma EntryKeys(rs: seq<Record>, q: seq<nat>, key: string)
    ensures HasKey(Entries(rs, q), key) <==> exists x <- q :: KeyAt(rs, x) == key
  {
    var es := Entries(rs, q);
    if x :| x in q && KeyAt(rs, x) == key {
      var m :| 0 <= m < |q| && q[m] == x;
      assert es[m] in es && es[m].key == key;
    }
    if HasKey(es, key) {
      var e :| e in es && e.key == key;
      var m :| 0 <= m < |es| && es[m] == e;
      assert q[m] in q;
    }
  }

  lemma EntriesPut(rs: seq<Record>, q: seq<nat>, k: nat)
    ensures Entries(rs, Requested(rs, q, k)) == Put(Entries(rs, q), KeyAt(rs, k), ToolAt(rs, k))
  {
    EntryKeys(rs, q, KeyAt(rs, k));
  }

  lemma {:induction false} EntriesWithout(rs: seq<Record>, q: seq<nat>, key: string)
    ensures Entries(rs, Filter(q, OtherKey(rs, key))) == Without(Entries(rs, q), key)
  {
    if q != [] {
      EntriesWithout(rs, Front(q), key);
      assert Front(Entries(rs, q)) == Entries(rs, Front(q));
      assert Last(Entries(rs, q)) == Pending(KeyAt(rs, Last(q)), ToolAt(rs, Last(q)));
    }
  }

  lemma WithoutFirst(pending: seq<Pending>)
    requires pending != [] && Distinct(pending, KeyOf)
    ensures Without(pending, pending[0].key) == pending[1..]
  {
    WithoutBehind(pending, |pending|);
    assert pending[..|pending|] == pending;
  }

  lemma {:induction false} WithoutBehind(pending: seq<Pending>, n: nat)
    requires 0 < n <= |pending| && Distinct(pending, KeyOf)
    ensures Without(pending[..n], pending[0].key) == pending[1..n]
    decreases n
  {
    assert Front(pending[..n]) == pending[..n - 1] && Last(pending[..n]) == pending[n - 1];
    if n > 1 {
      WithoutBehind(pending, n - 1);
      assert KeyOf(pending[0]) != KeyOf(pending[n - 1]);
      assert pending[1..n] == pending[1..n - 1] + [pending[n - 1]];
    } else {
      assert pending[..0] == [];
    }
  }

  ghost predicate PendingAgrees(s: Turn, rs: seq<Record>, i: nat, n: nat)
    requires i < |rs| && n <= |rs|
  {
    && s.pending == Entries(rs, Open(rs, i, n))
    && (if Shown(rs, i, n).None? then s.lastPermissionKey == None
        else s.lastPermissionKey == Some(KeyAt(rs, Shown(rs, i, n).value)))
  }

  lemma DropOldest(rs: seq<Record>, q: seq<nat>)
    requires q != [] && Distinct(Entries(rs, q), KeyOf)
    ensures Without(Entries(rs, q), Entries(rs, q)[0].key) == Entries(rs, q[1..])
  {
    WithoutFirst(Entries(rs, q));
    assert Entries(rs, q)[1..] == Entries(rs, q[1..]);
  }

  lemma RequestAgrees(s: Turn, rs: seq<Record>, q: seq<nat>, n: nat)
    requires n < |rs| && s.pending == Entries(rs, q) && Distinct(Entries(rs, q), KeyOf)
    requires Unnamed(rs, n + 1) == s.syntheticKey + if rs[n].toolCallId.None? then 1 else 0
    ensures var t := Request(s, rs[n]);
      && t.pending == Entries(rs, Requested(rs, Room(q), n)) && t.lastPermissionKey == Some(KeyAt(rs, n))
      && t.syntheticKey == Unnamed(rs, n + 1)
  {
    var t, key, room := Request(s, rs[n]), KeyAt(rs, n), Entries(rs, Room(q));
    RequestKey(s, rs, n);
    if |q| >= MAX_PENDING_PERMISSIONS {
      DropOldest(rs, q);
    }
    assert t.pending == Put(room, key, ToolAt(rs, n));
    EntriesPut(rs, Room(q), n);
  }

  lemma RequestKey(s: Turn, rs: seq<Record>, n: nat)
    requires n < |rs| && Unnamed(rs, n + 1) == s.syntheticKey + if rs[n].toolCallId.None? then 1 else 0
    ensures Request(s, rs[n]).lastPermissionKey == Some(KeyAt(rs, n)) && Label(rs[n]) == ToolAt(rs, n)
    ensures Request(s, rs[n]).syntheticKey == Unnamed(rs, n + 1)
  {
  }

  lemma LeftAgrees(rs: seq<Record>, q: seq<nat>, r: Record)
    requires Distinct(Entries(rs, q), KeyOf)
    ensures var es := Entries(rs, q);
      Entries(rs, Resolved(rs, q, r)) ==
        if r.toolCallId.Some? && HasKey(es, r.toolCallId.value) then Without(es, r.toolCallId.value)
        else if es != [] then Without(es, es[0].key)
        else es
  {
    if r.toolCallId.Some? {
      EntryKeys(rs, q, r.toolCallId.value);
      EntriesWithout(rs, q, r.toolCallId.value);
    }
    if q != [] {
      DropOldest(rs, q);
    }
  }

  lemma ResolveAgrees(s: Turn, rs: seq<Record>, q: seq<nat>, r: Record)
    requires s.pending == Entries(rs, q) && Distinct(Entries(rs, q), KeyOf)
    ensures var t, left := Resolve(s, r), Resolved(rs, q, r);
      && t.pending == Entries(rs, left)
      && t.lastPermissionKey == (if left == [] then None else Some(KeyAt(rs, Last(left))))
      && t.syntheticKey == s.syntheticKey
  {
    LeftAgrees(rs, q, r);
    LastEntry(rs, Resolved(rs, q, r));
  }

  lemma LastEntry(rs: seq<Record>, q: seq<nat>)
    ensures q == [] <==> Entries(rs, q) == []
    ensures q != [] ==> Last(Entries(rs, q)).key == KeyAt(rs, Last(q))
  {
  }

  predicate SameWaits(s: Turn, t: Turn) {
    t.pending == s.pending && t.lastPermissionKey == s.lastPermissionKey && t.syntheticKey == s.syntheticKey
  }

  lemma OtherRecordsKeep(s: Turn, r: Record)
    requires s.turnActive && !Marks(s, r)
    requires r.eventType.None? || FromSubagent(s, r) || FromAnotherTurn(s, r) || !(Requests(r) || Resolves(r))
    ensures SameWaits(s, Apply(s, r))
  {
  }

  lemma TurnRecords(s: Turn, r: Record)
    requires s.turnActive && r.eventType.Some? && !FromSubagent(s, r) && !FromAnotherTurn(s, r)
    ensures Requests(r) ==> SameWaits(Request(s, r), Apply(s, r))
    ensures Resolves(r) ==> SameWaits(Resolve(s, r), Apply(s, r))
  {
    assert Apply(s, r) == if r.eventType == Some(TurnStarted) then Started(Stamped(s, r), r)
                          else DuringTurn(Stamped(s, r), r);
    if Requests(r) {
      RequestIgnoresStamp(s, r);
    } else if Resolves(r) {
      ResolveIgnoresStamp(s, r);
    }
  }

  lemma RequestIgnoresStamp(s: Turn, r: Record)
    ensures SameWaits(Request(s, r), Request(Stamped(s, r), r))
  {
  }

  lemma ResolveIgnoresStamp(s: Turn, r: Record)
    ensures SameWaits(Resolve(s, r), Resolve(Stamped(s, r), r))
  {
  }

  /** The state of an open turn agrees with the records. */
  ghost predicate WaitsAgree(s: Turn, rs: seq<Record>, i: nat, n: nat)
    requires i < |rs| && n <= |rs|
  {
    AskAgrees(s, rs, i, n) && PendingAgrees(s, rs, i, n)
  }

  lemma PendingStep(s: Turn, rs: seq<Record>, i: nat, n: nat)
    requires n < |rs| && OpenSince(s, rs, i, n) && PendingAgrees(s, rs, i, n) && Inv(s) && !IsMark(rs, n)
    requires s.syntheticKey == Unnamed(rs, n)
    ensures PendingAgrees(Apply(s, rs[n]), rs, i, n + 1) && Apply(s, rs[n]).syntheticKey == Unnamed(rs, n + 1)
  {
    var r, q := rs[n], Open(rs, i, n);
    InTurnIs(s, rs, i, n);
    MarksIs(s, rs, n);
    assert Belongs(rs, n) <==> InTurn(rs, i, n);
    if !InTurn(rs, i, n) || !(Requests(r) || Resolves(r)) {
      OtherRecordsKeep(s, r);
    } else {
      TurnRecords(s, r);
      if Requests(r) {
        RequestAgrees(s, rs, q, n);
      } else {
        ResolveAgrees(s, rs, q, r);
      }
    }
  }

  /** What is known of the state after n records. */
  ghost predicate Known(s: Turn, rs: seq<Record>, n: nat)
    requires n <= |rs|
  {
    && FollowsMark(s, rs, n) && s.subagentTurns == Announced(rs[..n]) && Inv(s)
    && s.syntheticKey == Unnamed(rs, n)
    && (LastMark(rs, n).Some? && Starts(rs[LastMark(rs, n).value]) ==> WaitsAgree(s, rs, LastMark(rs, n).value, n))
  }

  lemma StartOver(s: Turn, rs: seq<Record>, n: nat)
    requires n < |rs| && Known(s, rs, n) && IsMark(rs, n) && Starts(rs[n])
    ensures WaitsAgree(Apply(s, rs[n]), rs, n, n + 1) && Apply(s, rs[n]).syntheticKey == Unnamed(rs, n + 1)
  {
    MarksIs(s, rs, n);
  }

  lemma NoTurnOpen(s: Turn, rs: seq<Record>, n: nat)
    requires n < |rs| && Known(s, rs, n) && !(IsMark(rs, n) && Starts(rs[n])) && (!s.turnActive || IsMark(rs, n))
    ensures Apply(s, rs[n]).syntheticKey == Unnamed(rs, n + 1)
  {
    MarksIs(s, rs, n);
  }

  lemma KnownStep(s: Turn, rs: seq<Record>, n: nat)
    requires n < |rs| && Known(s, rs, n) && Announced(rs[..n + 1]) == Apply(s, rs[n]).subagentTurns
    ensures Known(Apply(s, rs[n]), rs, n + 1)
  {
    MarkStep(s, rs, n);
    ApplyKeeps(s, rs[n]);
    if IsMark(rs, n) && Starts(rs[n]) {
      StartOver(s, rs, n);
    } else if IsMark(rs, n) || !s.turnActive {
      NoTurnOpen(s, rs, n);
    } else {
      var i := LastMark(rs, n).value;
      AskStep(s, rs, i, n);
      PendingStep(s, rs, i, n);
    }
  }

  lemma {:induction false} EveryPrefixIsKnown(rs: seq<Record>, n: nat)
    requires n <= |rs|
    ensures Known(Fold(INITIAL, rs[..n]), rs, n)
  {
    if n > 0 {
      EveryPrefixIsKnown(rs, n - 1);
      FoldStep(rs, n - 1);
      AnnouncedAre(rs[..n]);
      KnownStep(Fold(INITIAL, rs[..n - 1]), rs, n - 1);
    }
  }

  // ---- the status -------------------------------------------------------------------------------------------------

  /** The shown request is one of the open ones. */
  lemma {:induction false} ShownIsOpen(rs: seq<Record>, i: nat, n: nat)
    requires i < |rs| && n <= |rs|
    ensures Shown(rs, i, n).None? <==> Open(rs, i, n) == []
    ensures Shown(rs, i, n).Some? ==> Shown(rs, i, n).value in Open(rs, i, n)
    decreases n
  {
    if n > i + 1 {
      ShownIsOpen(rs, i, n - 1);
      ShownStep(rs, i, n);
    }
  }

  lemma ShownStep(rs: seq<Record>, i: nat, n: nat)
    requires i + 1 < n <= |rs|
    requires Shown(rs, i, n - 1).None? <==> Open(rs, i, n - 1) == []
    requires Shown(rs, i, n - 1).Some? ==> Shown(rs, i, n - 1).value in Open(rs, i, n - 1)
    ensures Shown(rs, i, n).None? <==> Open(rs, i, n) == []
    ensures Shown(rs, i, n).Some? ==> Shown(rs, i, n).value in Open(rs, i, n)
  {
    OpenStep(rs, i, n);
  }

  lemma OpenStep(rs: seq<Record>, i: nat, n: nat)
    requires i + 1 < n <= |rs|
    ensures InTurn(rs, i, n - 1) && Requests(rs[n - 1]) ==> n - 1 in Open(rs, i, n)
    ensures !(InTurn(rs, i, n - 1) && (Requests(rs[n - 1]) || Resolves(rs[n - 1])))
            ==> Open(rs, i, n) == Open(rs, i, n - 1)
  {
    NewestIsOpen(rs, Room(Open(rs, i, n - 1)), n - 1);
  }

  lemma NewestIsOpen(rs: seq<Record>, q: seq<nat>, k: nat)
    ensures k in Requested(rs, q, k)
  {
    if x :| x in q && KeyAt(rs, x) == KeyAt(rs, k) {
      var m :| 0 <= m < |q| && q[m] == x;
      assert Requested(rs, q, k)[m] == k;
    }
  }

  lemma EntryOf(rs: seq<Record>, q: seq<nat>, x: nat)
    requires x in q && Distinct(Entries(rs, q), KeyOf)
    ensures ToolOf(Entries(rs, q), KeyAt(rs, x)) == Some(ToolAt(rs, x))
  {
    var es := Entries(rs, q);
    var m :| 0 <= m < |q| && q[m] == x;
    assert es[m] == Pending(KeyAt(rs, x), ToolAt(rs, x)) && es[m] in es;
    ToolOfFound(es, KeyAt(rs, x));
    var e := Pending(KeyAt(rs, x), ToolOf(es, KeyAt(rs, x)).value);
    var l :| 0 <= l < |es| && es[l] == e;
    assert l < m ==> KeyOf(es[l]) != KeyOf(es[m]);
    assert m < l ==> KeyOf(es[m]) != KeyOf(es[l]);
  }

  /** The status and reason of every stream. Nothing is shown before a main turn starts or finishes. A finish shows
      whether it failed. Behind a start the turn waits for its open permission requests, or for an unanswered ask,
      or it runs. */
  lemma StatusMeans(rs: seq<Record>)
    ensures var n := |rs|;
      var shown := DeriveStatus(Fold(INITIAL, rs));
      match LastMark(rs, n)
      case None => shown == (None, None)
      case Some(i) =>
        if !Starts(rs[i]) then shown == (Some(if rs[i].hasError || rs[i].reasonIsError then Failure else Success), None)
        else if Open(rs, i, n) != [] then
          Shown(rs, i, n).Some? && shown == (Some(Waiting), Some(ToolAt(rs, Shown(rs, i, n).value)))
        else
          && (forall j: nat | StillAsked(rs, i, n, j) :: shown == (Some(Waiting), rs[j].toolName))
          && ((forall j: nat :: !StillAsked(rs, i, n, j)) ==> shown == (Some(Running), None))
  {
    var n, s := |rs|, Fold(INITIAL, rs);
    assert rs[..n] == rs;
    EveryPrefixIsKnown(rs, n);
    if LastMark(rs, n).Some? && Starts(rs[LastMark(rs, n).value]) {
      var i := LastMark(rs, n).value;
      ShownIsOpen(rs, i, n);
      if Open(rs, i, n) != [] {
        EntryOf(rs, Open(rs, i, n), Shown(rs, i, n).value);
      } else {
        AskShown(s, rs, i, n);
      }
    }
  }

  lemma AskShown(s: Turn, rs: seq<Record>, i: nat, n: nat)
    requires i < |rs| && n <= |rs| && AskAgrees(s, rs, i, n)
    ensures forall j: nat | StillAsked(rs, i, n, j) :: s.pendingAsk.Some? && s.pendingAsk == rs[j].toolName
    ensures (forall j: nat :: !StillAsked(rs, i, n, j)) ==> s.pendingAsk.None?
  {
    forall j: nat | StillAsked(rs, i, n, j) ensures s.pendingAsk.Some? && s.pendingAsk == rs[j].toolName {
      var k: nat :| StillAsked(rs, i, n, k) && rs[k].toolName == s.pendingAsk && rs[k].toolCallId == s.pendingAskId;
      OneAsk(rs, i, n, j, k);
    }
  }

  // ---- which requests are open, record by record -------------------------------------------------------------------

  /** Record k of the turn resolves the request at x by name, or replaces it. */
  predicate Settles(rs: seq<Record>, i: nat, x: nat, k: nat)
    requires i < |rs| && k < |rs|
  {
    InTurn(rs, i, k)
    && ((Resolves(rs[k]) && rs[k].toolCallId == Some(KeyAt(rs, x)))
      || (Requests(rs[k]) && KeyAt(rs, k) == KeyAt(rs, x)))
  }

  /** An open request is one of the turn that no later record of the turn resolves by name or replaces. */
  lemma {:induction false} OpenIsUnsettled(rs: seq<Record>, i: nat, n: nat, x: nat)
    requires i < |rs| && n <= |rs| && x in Open(rs, i, n)
    ensures i < x < n && InTurn(rs, i, x) && Requests(rs[x])
    ensures forall k | x < k < n :: !Settles(rs, i, x, k)
    decreases n
  {
    StillOpen(rs, i, n, x);
    if x in Open(rs, i, n - 1) {
      OpenIsUnsettled(rs, i, n - 1, x);
    }
  }

  lemma StillOpen(rs: seq<Record>, i: nat, n: nat, x: nat)
    requires i < |rs| && n <= |rs| && x in Open(rs, i, n)
    ensures n > i + 1
    ensures x in Open(rs, i, n - 1) || (x == n - 1 && InTurn(rs, i, x) && Requests(rs[x]))
    ensures x != n - 1 ==> !Settles(rs, i, x, n - 1)
  {
    StaysOpen(rs, Open(rs, i, n - 1), n - 1, InTurn(rs, i, n - 1), x);
  }

  lemma StaysOpen(rs: seq<Record>, q: seq<nat>, k: nat, inTurn: bool, x: nat)
    requires k < |rs| && x in OpenAfter(rs, q, k, inTurn)
    ensures x in q || (x == k && inTurn && Requests(rs[k]))
    ensures x != k && inTurn && Resolves(rs[k]) ==> rs[k].toolCallId != Some(KeyAt(rs, x))
    ensures x != k && inTurn && Requests(rs[k]) ==> KeyAt(rs, k) != KeyAt(rs, x)
  {
    if inTurn && Requests(rs[k]) {
      if x != k {
        RequestedMembers(rs, Room(q), k, x);
      }
    } else if inTurn && Resolves(rs[k]) {
      ResolvedMembers(rs, q, rs[k], x);
    }
  }

  lemma RequestedMembers(rs: seq<Record>, q: seq<nat>, k: nat, x: nat)
    requires x in Requested(rs, q, k) && x != k
    ensures x in q && KeyAt(rs, x) != KeyAt(rs, k)
  {
    var m :| 0 <= m < |Requested(rs, q, k)| && Requested(rs, q, k)[m] == x;
    if m < |q| {
      assert q[m] in q;
    }
  }

  lemma ResolvedMembers(rs: seq<Record>, q: seq<nat>, r: Record, x: nat)
    requires x in Resolved(rs, q, r)
    ensures x in q && r.toolCallId != Some(KeyAt(rs, x))
  {
    if r.toolCallId.Some? {
      FilterMembers(q, OtherKey(rs, r.toolCallId.value));
    }
  }

  /** The records from a to n of the turn that i started of that kind. */
  function Count(rs: seq<Record>, i: nat, a: nat, n: nat, kind: Record -> bool): nat
    requires i < |rs| && n <= |rs|
  {
    if n <= a then 0 else Count(rs, i, a, n - 1, kind) + if InTurn(rs, i, n - 1) && kind(rs[n - 1]) then 1 else 0
  }

  /** No request of the turn repeats the id of another, and there are at most 64. */
  ghost predicate OrdinaryRequests(rs: seq<Record>, i: nat, n: nat)
    requires i < |rs| && n <= |rs|
  {
    && Count(rs, i, i + 1, n, Requests) <= MAX_PENDING_PERMISSIONS
    && forall j, k | i < j < k < n && InTurn(rs, i, j) && InTurn(rs, i, k) && Requests(rs[j]) && Requests(rs[k]) ::
         KeyAt(rs, j) != KeyAt(rs, k)
  }

  ghost function Balance(rs: seq<Record>, i: nat, a: nat, n: nat): int
    requires i < |rs| && n <= |rs|
  {
    Count(rs, i, a, n, Requests) - Count(rs, i, a, n, Resolves)
  }

  lemma OneResolved(rs: seq<Record>, q: seq<nat>, r: Record)
    requires Distinct(Entries(rs, q), KeyOf)
    ensures |Resolved(rs, q, r)| == if q == [] then 0 else |q| - 1
  {
    var es := Entries(rs, q);
    LeftAgrees(rs, q, r);
    if r.toolCallId.Some? {
      WithoutFacts(es, r.toolCallId.value);
    }
    if q != [] {
      assert es[0] in es;
      WithoutFacts(es, es[0].key);
    }
  }

  lemma OneRequested(rs: seq<Record>, i: nat, n: nat)
    requires i + 1 < n <= |rs| && OrdinaryRequests(rs, i, n) && |Open(rs, i, n - 1)| < MAX_PENDING_PERMISSIONS
    requires InTurn(rs, i, n - 1) && Requests(rs[n - 1])
    ensures |Open(rs, i, n)| == |Open(rs, i, n - 1)| + 1
  {
    var q := Open(rs, i, n - 1);
    forall x <- q ensures KeyAt(rs, x) != KeyAt(rs, n - 1) {
      OpenIsUnsettled(rs, i, n - 1, x);
    }
  }

  lemma OpenKeysDiffer(rs: seq<Record>, i: nat, n: nat)
    requires n <= |rs| && LastMark(rs, n) == Some(i) && Starts(rs[i])
    ensures Distinct(Entries(rs, Open(rs, i, n)), KeyOf)
  {
    EveryPrefixIsKnown(rs, n);
  }

  lemma MarkStays(rs: seq<Record>, i: nat, n: nat)
    requires n < |rs| && LastMark(rs, n + 1) == Some(i) && i < n
    ensures LastMark(rs, n) == Some(i)
  {
  }

  lemma FewerAreOrdinary(rs: seq<Record>, i: nat, n: nat)
    requires i + 1 < n <= |rs| && OrdinaryRequests(rs, i, n)
    ensures OrdinaryRequests(rs, i, n - 1)
  {
  }

  /** How many requests are open: as many as, counted back to some record, have not been balanced by resolutions. */
  lemma {:induction false} OpenCount(rs: seq<Record>, i: nat, n: nat) returns (a: nat)
    requires i < n <= |rs| && LastMark(rs, n) == Some(i) && Starts(rs[i]) && OrdinaryRequests(rs, i, n)
    ensures i < a <= n && |Open(rs, i, n)| == Balance(rs, i, a, n)
    ensures forall b | i < b <= n :: |Open(rs, i, n)| >= Balance(rs, i, b, n)
    ensures |Open(rs, i, n)| <= Count(rs, i, i + 1, n, Requests)
    decreases n
  {
    if n == i + 1 {
      a := n;
    } else {
      MarkStays(rs, i, n - 1);
      FewerAreOrdinary(rs, i, n);
      a := OpenCount(rs, i, n - 1);
      a := CountOn(rs, i, n, a);
    }
  }

  lemma CountOn(rs: seq<Record>, i: nat, n: nat, a: nat) returns (a': nat)
    requires i + 1 < n <= |rs| && LastMark(rs, n - 1) == Some(i) && Starts(rs[i]) && OrdinaryRequests(rs, i, n)
    requires i < a <= n - 1 && |Open(rs, i, n - 1)| == Balance(rs, i, a, n - 1)
    requires var before := n - 1; forall b | i < b <= before :: |Open(rs, i, before)| >= Balance(rs, i, b, before)
    requires |Open(rs, i, n - 1)| <= Count(rs, i, i + 1, n - 1, Requests)
    ensures i < a' <= n && |Open(rs, i, n)| == Balance(rs, i, a', n)
    ensures forall b | i < b <= n :: |Open(rs, i, n)| >= Balance(rs, i, b, n)
    ensures |Open(rs, i, n)| <= Count(rs, i, i + 1, n, Requests)
  {
    forall b | i < b < n ensures Balance(rs, i, b, n) == Balance(rs, i, b, n - 1) + StepBalance(rs, i, n - 1) {
      BalanceStep(rs, i, b, n);
    }
    BalanceEnds(rs, i, n);
    CountStep(rs, i, n);
    a' := if Open(rs, i, n) == [] then n else a;
  }

  lemma BalanceStep(rs: seq<Record>, i: nat, b: nat, n: nat)
    requires i < b < n <= |rs|
    ensures Balance(rs, i, b, n) == Balance(rs, i, b, n - 1) + StepBalance(rs, i, n - 1)
    ensures Count(rs, i, b, n, Requests) >= Count(rs, i, b, n - 1, Requests) + StepBalance(rs, i, n - 1)
  {
  }

  lemma BalanceEnds(rs: seq<Record>, i: nat, n: nat)
    requires i + 1 < n <= |rs|
    ensures Balance(rs, i, n, n) == 0
    ensures Count(rs, i, i + 1, n, Requests) >= Count(rs, i, i + 1, n - 1, Requests) + StepBalance(rs, i, n - 1)
    ensures Count(rs, i, i + 1, n, Requests) >= 0
  {
    BalanceStep(rs, i, i + 1, n);
  }

  function StepBalance(rs: seq<Record>, i: nat, k: nat): int
    requires i < |rs| && k < |rs|
  {
    if !InTurn(rs, i, k) then 0 else if Requests(rs[k]) then 1 else if Resolves(rs[k]) then -1 else 0
  }

  lemma CountStep(rs: seq<Record>, i: nat, n: nat)
    requires i + 1 < n <= |rs| && LastMark(rs, n - 1) == Some(i) && Starts(rs[i]) && OrdinaryRequests(rs, i, n)
    requires |Open(rs, i, n - 1)| <= Count(rs, i, i + 1, n - 1, Requests)
    ensures var before := |Open(rs, i, n - 1)| + StepBalance(rs, i, n - 1);
      |Open(rs, i, n)| == if before < 0 then 0 else before
  {
    if InTurn(rs, i, n - 1) && Requests(rs[n - 1]) {
      OneRequested(rs, i, n);
    } else if InTurn(rs, i, n - 1) && Resolves(rs[n - 1]) {
      OpenKeysDiffer(rs, i, n - 1);
      OneResolved(rs, Open(rs, i, n - 1), rs[n - 1]);
    }
  }

  lemma OpenIffUnbalanced(rs: seq<Record>, i: nat, n: nat)
    requires i < n <= |rs| && LastMark(rs, n) == Some(i) && Starts(rs[i]) && OrdinaryRequests(rs, i, n)
    ensures Open(rs, i, n) != [] <==> exists a | i < a <= n :: Balance(rs, i, a, n) > 0
  {
    var a := OpenCount(rs, i, n);
    if Open(rs, i, n) != [] {
      assert Balance(rs, i, a, n) > 0;
    }
  }

  lemma PendingIffOpen(rs: seq<Record>, i: nat)
    requires LastMark(rs, |rs|) == Some(i) && Starts(rs[i])
    ensures Fold(INITIAL, rs).pending == [] <==> Open(rs, i, |rs|) == []
  {
    assert rs[..|rs|] == rs;
    EveryPrefixIsKnown(rs, |rs|);
    LastEntry(rs, Open(rs, i, |rs|));
  }

  /** While no request of the open turn repeats another's id and there are at most 64, the turn waits for a
      permission if and only if its records, counted back to some point, hold more requests than resolutions. */
  lemma WaitsIffUnbalanced(rs: seq<Record>, i: nat)
    requires LastMark(rs, |rs|) == Some(i) && Starts(rs[i]) && OrdinaryRequests(rs, i, |rs|)
    ensures Fold(INITIAL, rs).pending != [] <==> exists a | i < a <= |rs| :: Balance(rs, i, a, |rs|) > 0
  {
    PendingIffOpen(rs, i);
    OpenIffUnbalanced(rs, i, |rs|);
  }
}
