/** The status a Qoder record stream shows, told on the records without the machine
    (src/codex_cli_monitor/qoder_state.py, `_apply_record`, `_derive_status`). */
module QoderStatus {
  import opened Sequences
  import opened QoderTurn
  import opened QoderTurnProofs

  // ---- the records that begin and end main turns ---------------------------------------------------------------

  /** The record belongs to a subagent turn announced before it. */
  predicate OfSubagent(rs: seq<Record>, k: nat)
    requires k < |rs|
  {
    rs[k].turnId.Some? && rs[k].turnId.value in Announced(rs[..k])
  }

  predicate Starts(r: Record) { r.eventType == Some(TurnStarted) && !r.isSubagent }

  predicate NameDifferently(a: Record, b: Record) {
    a.turnId.Some? && b.turnId.Some? && a.turnId.value != b.turnId.value
  }

  /** Record k names another turn than the one open when it comes. */
  predicate Elsewhere(rs: seq<Record>, k: nat)
    requires k < |rs|
    decreases k, 2
  {
    var i := LastMark(rs, k);
    i.Some? && Starts(rs[i.value]) && NameDifferently(rs[i.value], rs[k])
  }

  /** Record k starts a main turn, or finishes one: the open one, or one whose start was not seen. */
  predicate IsMark(rs: seq<Record>, k: nat)
    requires k < |rs|
    decreases k, 3
  {
    !OfSubagent(rs, k) && (Starts(rs[k]) || (rs[k].eventType == Some(TurnFinished) && !Elsewhere(rs, k)))
  }

  /** The last of them among the first n records. */
  function LastMark(rs: seq<Record>, n: nat): (i: Option<nat>)
    requires n <= |rs|
    ensures i.Some? ==> i.value < n && IsMark(rs, i.value)
    ensures forall k | (if i.Some? then i.value + 1 else 0) <= k < n :: !IsMark(rs, k)
    decreases n, 1
  {
    if n == 0 then None else if IsMark(rs, n - 1) then Some(n - 1) else LastMark(rs, n - 1)
  }

  /** The record that names the turn of mark i: the start, if it was seen. */
  function TurnOf(rs: seq<Record>, i: nat): (h: nat)
    requires i < |rs|
    ensures h <= i
  {
    if !Starts(rs[i]) && LastMark(rs, i).Some? && Starts(rs[LastMark(rs, i).value]) then LastMark(rs, i).value else i
  }

  /** The outcome fields are the last mark's. */
  ghost predicate FollowsMark(s: Turn, rs: seq<Record>, n: nat)
    requires n <= |rs|
  {
    match LastMark(rs, n)
    case None => !s.workSubmitted && !s.turnActive && !s.terminalEvent && !s.failedEvent && s.turnId == None
    case Some(i) =>
      && s.turnId == rs[TurnOf(rs, i)].turnId
      && s.workSubmitted && s.turnActive == Starts(rs[i]) && s.terminalEvent == !Starts(rs[i])
      && (Starts(rs[i]) ==> !s.failedEvent)
      && (!Starts(rs[i]) ==> s.failedEvent == (rs[i].hasError || rs[i].reasonIsError))
  }

  predicate SameOutcome(s: Turn, t: Turn) {
    && t.workSubmitted == s.workSubmitted && t.turnActive == s.turnActive && t.terminalEvent == s.terminalEvent
    && t.failedEvent == s.failedEvent && t.turnId == s.turnId
  }

  lemma DuringOutcome(s: Turn, r: Record)
    requires r.eventType.Some? && r.eventType.value != TurnFinished
    ensures SameOutcome(s, DuringTurn(s, r))
  {
  }

  predicate Marks(s: Turn, r: Record) {
    !FromSubagent(s, r)
    && (Starts(r) || (r.eventType == Some(TurnFinished) && !(s.turnActive && FromAnotherTurn(s, r))))
  }

  lemma OutcomeStep(s: Turn, r: Record)
    requires s.turnActive ==> s.workSubmitted
    ensures var t := Apply(s, r);
      if !Marks(s, r) then SameOutcome(s, t)
      else
        && t.workSubmitted && t.turnActive == Starts(r) && t.terminalEvent == !Starts(r)
        && t.turnId == (if !Starts(r) && s.turnActive then s.turnId else r.turnId)
        && (Starts(r) ==> !t.failedEvent)
        && (!Starts(r) ==> t.failedEvent == (r.hasError || r.reasonIsError))
  {
    if r.eventType.Some? && r.eventType.value != TurnFinished {
      DuringOutcome(Stamped(s, r), r);
    }
  }

  lemma MarksIs(s: Turn, rs: seq<Record>, n: nat)
    requires n < |rs| && FollowsMark(s, rs, n) && s.subagentTurns == Announced(rs[..n])
    ensures Marks(s, rs[n]) <==> IsMark(rs, n)
  {
    assert FromSubagent(s, rs[n]) <==> OfSubagent(rs, n);
    assert s.turnActive && FromAnotherTurn(s, rs[n]) <==> Elsewhere(rs, n);
  }

  lemma MarkStep(s: Turn, rs: seq<Record>, n: nat)
    requires n < |rs| && FollowsMark(s, rs, n) && s.subagentTurns == Announced(rs[..n])
    ensures FollowsMark(Apply(s, rs[n]), rs, n + 1)
  {
    MarksIs(s, rs, n);
    OutcomeStep(s, rs[n]);
    assert LastMark(rs, n + 1) == if IsMark(rs, n) then Some(n) else LastMark(rs, n);
  }

  lemma FoldStep(rs: seq<Record>, n: nat)
    requires n < |rs|
    ensures Fold(INITIAL, rs[..n + 1]) == Apply(Fold(INITIAL, rs[..n]), rs[n])
  {
    assert Front(rs[..n + 1]) == rs[..n];
  }

  lemma {:induction false} MarksDecide(rs: seq<Record>, n: nat)
    requires n <= |rs|
    ensures FollowsMark(Fold(INITIAL, rs[..n]), rs, n)
  {
    if n > 0 {
      MarksDecide(rs, n - 1);
      OneMoreRecord(rs, n - 1);
    }
  }

  lemma OneMoreRecord(rs: seq<Record>, n: nat)
    requires n < |rs| && FollowsMark(Fold(INITIAL, rs[..n]), rs, n)
    ensures FollowsMark(Fold(INITIAL, rs[..n + 1]), rs, n + 1)
  {
    FoldStep(rs, n);
    AnnouncedAre(rs[..n]);
    MarkStep(Fold(INITIAL, rs[..n]), rs, n);
  }

  /** Whether a turn was submitted, is open, has finished or failed, and which one it is. */
  lemma OutcomeMeans(rs: seq<Record>)
    ensures FollowsMark(Fold(INITIAL, rs), rs, |rs|)
  {
    assert rs[..|rs|] == rs;
    MarksDecide(rs, |rs|);
  }

  /** The last activity is the time of the last typed record that has one, whosever turn it belongs to. */
  lemma {:induction false} ActivityMeans(rs: seq<Record>, t: real)
    ensures Fold(INITIAL, rs).lastActivityAt == Some(t) <==>
      exists i | 0 <= i < |rs| :: TimesActivity(rs, i) && rs[i].at == Some(t)
  {
    if rs != [] {
      ActivityMeans(Front(rs), t);
      forall i | 0 <= i < |rs| - 1
        ensures TimesActivity(rs, i) <==> TimesActivity(Front(rs), i) && !Timed(Last(rs))
      {
        assert Front(rs)[i] == rs[i];
        assert forall j | i < j < |rs| - 1 :: Front(rs)[j] == rs[j];
      }
      ActivityStep(Fold(INITIAL, Front(rs)), Last(rs));
    }
  }

  predicate Timed(r: Record) { r.eventType.Some? && r.at.Some? }

  predicate TimesActivity(rs: seq<Record>, i: nat) {
    i < |rs| && Timed(rs[i]) && forall j | i < j < |rs| :: !Timed(rs[j])
  }

  lemma ActivityStep(s: Turn, r: Record)
    ensures Apply(s, r).lastActivityAt == if Timed(r) then r.at else s.lastActivityAt
  {
    if r.eventType.Some? {
      DuringKeepsActivity(Stamped(s, r), r);
    }
  }

  lemma DuringKeepsActivity(s: Turn, r: Record)
    requires r.eventType.Some?
    ensures DuringTurn(s, r).lastActivityAt == s.lastActivityAt
  {
  }

  // ---- what an open turn waits for ------------------------------------------------------------------------

  /** Record k is one of the main turn that record i started. */
  predicate InTurn(rs: seq<Record>, i: nat, k: nat)
    requires i < |rs| && k < |rs|
  {
    i < k && rs[k].eventType.Some? && !OfSubagent(rs, k) && !NameDifferently(rs[i], rs[k])
  }

  predicate Asks(r: Record) {
    r.eventType == Some(ToolRequested) && r.toolName.Some? && r.toolName.value in {"AskUserQuestion", "ExitPlanMode"}
  }

  /** A finished tool answers an ask unless both carry an id and these differ; a new model request always does. */
  predicate Answers(ask: Record, r: Record) {
    || r.eventType == Some(ModelRequestStarted)
    || (r.eventType in {Some(ToolExecutionFinished), Some(ToolShellFinished)}
        && (ask.toolCallId.None? || r.toolCallId.None? || ask.toolCallId == r.toolCallId))
  }

  /** Record j asks the user, and no later record of the turn asks again or answers it. */
  ghost predicate StillAsked(rs: seq<Record>, i: nat, n: nat, j: nat)
    requires i < |rs| && n <= |rs|
  {
    && i < j < n && InTurn(rs, i, j) && Asks(rs[j])
    && forall k | j < k < n && InTurn(rs, i, k) :: !Asks(rs[k]) && !Answers(rs[j], rs[k])
  }

  ghost predicate AskAgrees(s: Turn, rs: seq<Record>, i: nat, n: nat)
    requires i < |rs| && n <= |rs|
  {
    && (s.pendingAsk.None? ==> forall j: nat :: !StillAsked(rs, i, n, j))
    && (s.pendingAsk.Some? ==> exists j: nat ::
          StillAsked(rs, i, n, j) && rs[j].toolName == s.pendingAsk && rs[j].toolCallId == s.pendingAskId)
  }

  lemma StillAskedStep(rs: seq<Record>, i: nat, n: nat, j: nat)
    requires i < n < |rs|
    ensures StillAsked(rs, i, n + 1, j) <==>
      if j == n then InTurn(rs, i, n) && Asks(rs[n])
      else StillAsked(rs, i, n, j) && (InTurn(rs, i, n) ==> !Asks(rs[n]) && !Answers(rs[j], rs[n]))
  {
  }

  lemma OneAsk(rs: seq<Record>, i: nat, n: nat, j: nat, k: nat)
    requires i < |rs| && n <= |rs| && StillAsked(rs, i, n, j) && StillAsked(rs, i, n, k)
    ensures j == k
  {
  }

  lemma DuringAsk(s: Turn, r: Record)
    requires r.eventType.Some? && r.eventType.value != TurnFinished
    ensures var t := DuringTurn(s, r);
      && (Asks(r) ==> t.pendingAsk == r.toolName && t.pendingAskId == r.toolCallId)
      && (!Asks(r) && r.eventType.value == ModelRequestStarted ==> t.pendingAsk.None?)
      && (!Asks(r) && r.eventType.value in {ToolExecutionFinished, ToolShellFinished} ==>
            t.pendingAsk ==
              if s.pendingAskId.None? || r.toolCallId.None? || r.toolCallId == s.pendingAskId then None
              else s.pendingAsk)
      && (!Asks(r) && r.eventType.value !in {ModelRequestStarted, ToolExecutionFinished, ToolShellFinished} ==>
            t.pendingAsk == s.pendingAsk)
      && (t.pendingAsk.Some? && !Asks(r) ==> t.pendingAskId == s.pendingAskId)
  {
  }

  /** What a record of the open turn that does not end it does to the ask. */
  lemma AskEffect(s: Turn, r: Record)
    requires s.turnActive && r.eventType.Some? && !FromSubagent(s, r) && !FromAnotherTurn(s, r) && !Marks(s, r)
    ensures var t := Apply(s, r);
      if Asks(r) then t.pendingAsk == r.toolName && t.pendingAskId == r.toolCallId
      else if s.pendingAsk.Some? && !AnswersAsk(s, r)
      then t.pendingAsk == s.pendingAsk && t.pendingAskId == s.pendingAskId
      else t.pendingAsk.None?
  {
    if r.eventType.value != TurnStarted {
      DuringAsk(Stamped(s, r), r);
    }
  }

  predicate AnswersAsk(s: Turn, r: Record) {
    || r.eventType == Some(ModelRequestStarted)
    || (r.eventType in {Some(ToolExecutionFinished), Some(ToolShellFinished)}
        && (s.pendingAskId.None? || r.toolCallId.None? || r.toolCallId == s.pendingAskId))
  }

  lemma NoAskEffect(s: Turn, r: Record)
    requires r.eventType.None? || FromSubagent(s, r) || FromAnotherTurn(s, r)
    requires s.turnActive && (FromSubagent(s, r) || !Starts(r))
    ensures Apply(s, r).pendingAsk == s.pendingAsk && Apply(s, r).pendingAskId == s.pendingAskId
  {
  }

  /** The state of an open turn that record i started. */
  ghost predicate OpenSince(s: Turn, rs: seq<Record>, i: nat, n: nat)
    requires n <= |rs|
  {
    && LastMark(rs, n) == Some(i) && i < n && Starts(rs[i])
    && FollowsMark(s, rs, n) && s.subagentTurns == Announced(rs[..n])
  }

  lemma InTurnIs(s: Turn, rs: seq<Record>, i: nat, n: nat)
    requires n < |rs| && OpenSince(s, rs, i, n)
    ensures InTurn(rs, i, n) <==>
      rs[n].eventType.Some? && !FromSubagent(s, rs[n]) && !FromAnotherTurn(s, rs[n])
  {
  }

  lemma AskStep(s: Turn, rs: seq<Record>, i: nat, n: nat)
    requires n < |rs| && OpenSince(s, rs, i, n) && AskAgrees(s, rs, i, n) && !IsMark(rs, n)
    ensures AskAgrees(Apply(s, rs[n]), rs, i, n + 1)
  {
    var r, t := rs[n], Apply(s, rs[n]);
    InTurnIs(s, rs, i, n);
    MarksIs(s, rs, n);
    forall j: nat ensures StillAsked(rs, i, n + 1, j) <==>
      if j == n then InTurn(rs, i, n) && Asks(r)
      else StillAsked(rs, i, n, j) && (InTurn(rs, i, n) ==> !Asks(r) && !Answers(rs[j], r))
    {
      StillAskedStep(rs, i, n, j);
    }
    if !InTurn(rs, i, n) {
      OutOfTurnStarts(s, rs, i, n);
      NoAskEffect(s, r);
    } else {
      AskEffect(s, r);
      if Asks(r) {
        assert StillAsked(rs, i, n + 1, n);
      } else if s.pendingAsk.Some? {
        var j: nat :| StillAsked(rs, i, n, j) && rs[j].toolName == s.pendingAsk && rs[j].toolCallId == s.pendingAskId;
        assert AnswersAsk(s, r) <==> Answers(rs[j], r);
        forall k: nat | StillAsked(rs, i, n, k) ensures k == j {
          OneAsk(rs, i, n, j, k);
        }
      }
    }
  }

  lemma OutOfTurnStarts(s: Turn, rs: seq<Record>, i: nat, n: nat)
    requires n < |rs| && OpenSince(s, rs, i, n) && !IsMark(rs, n) && !InTurn(rs, i, n)
    ensures rs[n].eventType.None? || FromSubagent(s, rs[n]) || FromAnotherTurn(s, rs[n])
    ensures FromSubagent(s, rs[n]) || !Starts(rs[n])
  {
    InTurnIs(s, rs, i, n);
  }
}
