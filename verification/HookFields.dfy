/** Where the times, names and counts of a hook session state come from, told by its events alone
    (src/codex_cli_monitor/hook_state.py, `summarize_hook_events`). */
module HookFields {
  import opened Sequences
  import opened HookSummary

  // ---- values that events set and clear ------------------------------------------------------------------------

  /** Event i sets the value, and none up to n sets it again or clears it. */
  ghost predicate SetLast(n: nat, i: nat, sets: nat -> bool, clears: nat -> bool) {
    i < n && sets(i) && forall j | i < j < n :: !sets(j) && !clears(j)
  }

  /** The value is what the last event that set it brought; without one it is the first value. */
  ghost predicate Holds<T(!new)>(
    value: T, first: T, brings: nat -> T, sets: nat -> bool, clears: nat -> bool, n: nat)
  {
    && (forall i: nat | SetLast(n, i, sets, clears) :: value == brings(i))
    && (Unset(n, sets, clears) ==> value == first)
  }

  /** No event set it, or it was cleared since. */
  ghost predicate Unset(n: nat, sets: nat -> bool, clears: nat -> bool) {
    forall i: nat :: !SetLast(n, i, sets, clears)
  }

  function Never(): nat -> bool { (i: nat) => false }

  lemma SetLastStep(n: nat, i: nat, sets: nat -> bool, clears: nat -> bool)
    ensures SetLast(n + 1, i, sets, clears)
            <==> if i == n then sets(n) else SetLast(n, i, sets, clears) && !sets(n) && !clears(n)
  {
  }

  lemma HoldsStep<T(!new)>(
    value: T, after: T, first: T, brings: nat -> T, sets: nat -> bool, clears: nat -> bool, n: nat)
    requires Holds(value, first, brings, sets, clears, n)
    requires after == if sets(n) then brings(n) else if clears(n) then first else value
    ensures Holds(after, first, brings, sets, clears, n + 1)
  {
    forall i: nat ensures SetLast(n + 1, i, sets, clears)
      <==> if i == n then sets(n) else SetLast(n, i, sets, clears) && !sets(n) && !clears(n)
    {
      SetLastStep(n, i, sets, clears);
    }
    if sets(n) {
      assert SetLast(n + 1, n, sets, clears);
    } else if !clears(n) && Unset(n + 1, sets, clears) {
      forall i: nat ensures !SetLast(n, i, sets, clears) {
        assert !SetLast(n + 1, i, sets, clears);
      }
    }
  }

  // ---- one event ------------------------------------------------------------------------------------------

  predicate Settles(turnId: Option<string>, e: HookEvent) {
    e.kind in {UserPromptSubmit, PostToolUse} || (e.kind.Stop? && !Conflicting(turnId, e))
  }

  lemma EffectOnTimes(c: Cell, e: HookEvent)
    ensures var s, t := c.state, Stamp(Lifecycle(c, e), e).state;
      && t.lastStoppedAt == (if e.kind.Stop? then Some(e.timestamp)
                             else if e.kind.UserPromptSubmit? then None else s.lastStoppedAt)
      && t.sessionStartedAt == (if e.kind.SessionStart? then Some(e.timestamp) else s.sessionStartedAt)
      && t.sessionStartSource == (if e.kind.SessionStart? then e.hookSource else s.sessionStartSource)
      && t.turnStartedAt == (if e.kind.UserPromptSubmit? || (OpensTurn(e) && s.turnStartedAt.None?)
                             then Some(e.timestamp) else s.turnStartedAt)
      && t.lastStoppedTurnId == (if e.kind.Stop? then Or(e.turnId, s.turnId) else s.lastStoppedTurnId)
  {
  }

  lemma EffectOnTools(c: Cell, e: HookEvent)
    ensures var s, t := c.state, Stamp(Lifecycle(c, e), e).state;
      && t.permissionPendingAt == (if e.kind.PermissionRequest? then Some(e.timestamp)
                                   else if Settles(s.turnId, e) then None else s.permissionPendingAt)
      && t.permissionTool == (if e.kind.PermissionRequest? && Truthy(e.tool) then e.tool
                              else if Settles(s.turnId, e) then None else s.permissionTool)
      && t.lastTool == (if Truthy(e.tool) then e.tool else s.lastTool)
      && t.sessionId == (if Truthy(e.sessionId) then e.sessionId else s.sessionId)
      && (t.hasTurnActivity <==> s.hasTurnActivity || e.kind in {UserPromptSubmit, PermissionRequest, Stop})
  {
  }

  /** The entries before event k, and what it makes of them. */
  function Prior(cwd: string, events: seq<HookEvent>, k: nat): Cell
    requires k < |events|
  {
    Before(cwd, RunKey(cwd, events[..k]), events[k])
  }

  lemma AfterOne(cwd: string, events: seq<HookEvent>, k: nat)
    requires k < |events|
    ensures RunKey(cwd, events[..k + 1]) == Some(Stamp(Lifecycle(Prior(cwd, events, k), events[k]), events[k]))
    ensures Prior(cwd, events, k).state.turnId == CurrentTurn(events[..k])
  {
    RunStep(cwd, events, k);
    if k > 0 {
      FlagsAreLatches(cwd, events, k, "-");
    } else {
      assert events[..0] == [];
    }
  }

  lemma SettlingIs(cwd: string, events: seq<HookEvent>, k: nat)
    requires k < |events|
    ensures Settling(events)(k) <==> Settles(Prior(cwd, events, k).state.turnId, events[k])
  {
    AfterOne(cwd, events, k);
  }

  // ---- all events -----------------------------------------------------------------------------------------

  function Times(events: seq<HookEvent>): nat -> Option<real> {
    (i: nat) => if i < |events| then Some(events[i].timestamp) else None
  }

  function Tools(events: seq<HookEvent>): nat -> Option<string> {
    (i: nat) => if i < |events| then events[i].tool else None
  }

  function Sources(events: seq<HookEvent>): nat -> Option<string> {
    (i: nat) => if i < |events| then events[i].hookSource else None
  }

  /** The turn a stop is taken to name. */
  function StoppedTurns(events: seq<HookEvent>): nat -> Option<string> {
    (i: nat) => if i < |events| then Or(events[i].turnId, CurrentTurn(events[..i])) else None
  }

  function NamesTool(events: seq<HookEvent>): nat -> bool { (i: nat) => i < |events| && Truthy(events[i].tool) }

  function RequestsTool(events: seq<HookEvent>): nat -> bool {
    (i: nat) => i < |events| && events[i].kind.PermissionRequest? && Truthy(events[i].tool)
  }

  /** The times: the last stop counts until the next prompt, the last session start for good, and so does the turn
      the last stop names. */
  ghost predicate TimesMean(s: SessionState, events: seq<HookEvent>, n: nat) {
    var prompts, stops, starts :=
      IsKind(events, {UserPromptSubmit}), IsKind(events, {Stop}), IsKind(events, {SessionStart});
    && Holds(s.lastStoppedAt, None, Times(events), stops, prompts, n)
    && Holds(s.lastStoppedTurnId, None, StoppedTurns(events), stops, Never(), n)
    && Holds(s.sessionStartedAt, None, Times(events), starts, Never(), n)
    && Holds(s.sessionStartSource, None, Sources(events), starts, Never(), n)
  }

  /** The decision: the last permission request, and the last tool named by one, until something settles it. */
  ghost predicate DecisionMeans(s: SessionState, events: seq<HookEvent>, n: nat) {
    && Holds(s.permissionPendingAt, None, Times(events), IsKind(events, {PermissionRequest}), Settling(events), n)
    && Holds(s.permissionTool, None, Tools(events), RequestsTool(events), Settling(events), n)
    && Holds(s.lastTool, None, Tools(events), NamesTool(events), Never(), n)
  }

  lemma NothingSet<T(!new)>(first: T, brings: nat -> T, sets: nat -> bool, clears: nat -> bool)
    ensures Holds(first, first, brings, sets, clears, 0)
  {
  }

  lemma FreshMeans(cwd: string, e: HookEvent, events: seq<HookEvent>)
    ensures TimesMean(Fresh(cwd, e).state, events, 0) && DecisionMeans(Fresh(cwd, e).state, events, 0)
  {
  }

  lemma TimesStep(cwd: string, events: seq<HookEvent>, k: nat)
    requires k < |events| && TimesMean(Prior(cwd, events, k).state, events, k)
    ensures TimesMean(RunKey(cwd, events[..k + 1]).value.state, events, k + 1)
  {
    var c, e := Prior(cwd, events, k), events[k];
    var s, t := c.state, Stamp(Lifecycle(c, e), e).state;
    var prompts, stops, starts :=
      IsKind(events, {UserPromptSubmit}), IsKind(events, {Stop}), IsKind(events, {SessionStart});
    AfterOne(cwd, events, k);
    EffectOnTimes(c, e);
    HoldsStep(s.lastStoppedAt, t.lastStoppedAt, None, Times(events), stops, prompts, k);
    HoldsStep(s.lastStoppedTurnId, t.lastStoppedTurnId, None, StoppedTurns(events), stops, Never(), k);
    HoldsStep(s.sessionStartedAt, t.sessionStartedAt, None, Times(events), starts, Never(), k);
    HoldsStep(s.sessionStartSource, t.sessionStartSource, None, Sources(events), starts, Never(), k);
  }

  lemma DecisionStep(cwd: string, events: seq<HookEvent>, k: nat)
    requires k < |events| && DecisionMeans(Prior(cwd, events, k).state, events, k)
    ensures DecisionMeans(RunKey(cwd, events[..k + 1]).value.state, events, k + 1)
  {
    var c, e := Prior(cwd, events, k), events[k];
    var s, t := c.state, Stamp(Lifecycle(c, e), e).state;
    AfterOne(cwd, events, k);
    SettlingIs(cwd, events, k);
    EffectOnTools(c, e);
    HoldsStep(s.permissionPendingAt, t.permissionPendingAt, None, Times(events), IsKind(events, {PermissionRequest}),
      Settling(events), k);
    HoldsStep(s.permissionTool, t.permissionTool, None, Tools(events), RequestsTool(events), Settling(events), k);
    HoldsStep(s.lastTool, t.lastTool, None, Tools(events), NamesTool(events), Never(), k);
  }

  lemma PriorIs(cwd: string, events: seq<HookEvent>, k: nat)
    requires k < |events|
    ensures if k == 0 then Prior(cwd, events, k) == Fresh(cwd, events[0])
            else RunKey(cwd, events[..k]) == Some(Prior(cwd, events, k))
  {
    if k == 0 {
      assert events[..0] == [];
    } else {
      AfterOne(cwd, events, k - 1);
    }
  }

  lemma {:induction false} TimesOfPrefix(cwd: string, events: seq<HookEvent>, n: nat)
    requires 0 < n <= |events|
    ensures TimesMean(RunKey(cwd, events[..n]).value.state, events, n)
  {
    PriorIs(cwd, events, n - 1);
    if n > 1 {
      TimesOfPrefix(cwd, events, n - 1);
    } else {
      FreshMeans(cwd, events[0], events);
    }
    TimesStep(cwd, events, n - 1);
  }

  lemma {:induction false} DecisionOfPrefix(cwd: string, events: seq<HookEvent>, n: nat)
    requires 0 < n <= |events|
    ensures DecisionMeans(RunKey(cwd, events[..n]).value.state, events, n)
  {
    PriorIs(cwd, events, n - 1);
    if n > 1 {
      DecisionOfPrefix(cwd, events, n - 1);
    } else {
      FreshMeans(cwd, events[0], events);
    }
    DecisionStep(cwd, events, n - 1);
  }

  /** The stop, session and decision fields of a session come from its last such event, unless forgotten since. */
  lemma FieldsComeFromTheLast(cwd: string, events: seq<HookEvent>)
    requires events != []
    ensures var s := RunKey(cwd, events).value.state;
      TimesMean(s, events, |events|) && DecisionMeans(s, events, |events|)
  {
    assert events[..|events|] == events;
    TimesOfPrefix(cwd, events, |events|);
    DecisionOfPrefix(cwd, events, |events|);
  }

  // ---- the start of the turn ------------------------------------------------------------------------------

  /** i is the last prompt; without any, the first event that opens a turn. */
  ghost predicate StartsTurn(events: seq<HookEvent>, i: nat) {
    && i < |events| && OpensTurn(events[i])
    && if events[i].kind.UserPromptSubmit? then forall j | i < j < |events| :: !events[j].kind.UserPromptSubmit?
       else
         && (forall j | 0 <= j < i :: !OpensTurn(events[j]))
         && forall j | 0 <= j < |events| :: !events[j].kind.UserPromptSubmit?
  }

  lemma OpensIs(e: HookEvent)
    ensures OpensTurn(e) <==> e.kind in {UserPromptSubmit, PermissionRequest, PreToolUse, PostToolUse}
  {
  }

  lemma StartsTurnStep(front: seq<HookEvent>, e: HookEvent, i: nat)
    ensures StartsTurn(front + [e], i) <==>
      if i == |front| then
        e.kind.UserPromptSubmit? || (OpensTurn(e) && forall j | 0 <= j < |front| :: !OpensTurn(front[j]))
      else StartsTurn(front, i) && !e.kind.UserPromptSubmit?
  {
    var events := front + [e];
    assert forall j | 0 <= j < |front| :: events[j] == front[j];
    assert events[|front|] == e;
  }

  ghost predicate TurnStartMeans(value: Option<real>, events: seq<HookEvent>) {
    && (forall i: nat | StartsTurn(events, i) :: value == Some(events[i].timestamp))
    && ((forall i: nat :: !StartsTurn(events, i)) ==> value == None)
  }

  lemma {:induction false} SomeStart(events: seq<HookEvent>)
    ensures (exists i: nat :: StartsTurn(events, i)) <==> exists j | 0 <= j < |events| :: OpensTurn(events[j])
  {
    if events != [] {
      var front, e := Front(events), Last(events);
      assert events == front + [e];
      SomeStart(front);
      forall i: nat {
        StartsTurnStep(front, e, i);
      }
      if OpensTurn(e) {
        if e.kind.UserPromptSubmit? || forall j | 0 <= j < |front| :: !OpensTurn(front[j]) {
          assert StartsTurn(events, |front|);
        } else {
          var i: nat :| StartsTurn(front, i);
          assert StartsTurn(events, i);
        }
      } else if j: nat :| j < |events| && OpensTurn(events[j]) {
        assert OpensTurn(front[j]);
        var i: nat :| StartsTurn(front, i);
        assert StartsTurn(events, i);
      }
    }
  }

  lemma TurnStartStep(value: Option<real>, front: seq<HookEvent>, e: HookEvent)
    requires TurnStartMeans(value, front)
    ensures TurnStartMeans(
      if e.kind.UserPromptSubmit? || (OpensTurn(e) && value.None?) then Some(e.timestamp) else value, front + [e])
  {
    var events := front + [e];
    SomeStart(front);
    forall i: nat ensures StartsTurn(events, i) <==>
      if i == |front| then
        e.kind.UserPromptSubmit? || (OpensTurn(e) && forall j | 0 <= j < |front| :: !OpensTurn(front[j]))
      else StartsTurn(front, i) && !e.kind.UserPromptSubmit?
    {
      StartsTurnStep(front, e, i);
    }
    if i: nat :| StartsTurn(front, i) {
      assert events[i] == front[i];
      assert e.kind.UserPromptSubmit? || StartsTurn(events, i);
    }
    if e.kind.UserPromptSubmit? || (OpensTurn(e) && value.None?) {
      assert StartsTurn(events, |front|);
    }
  }

  /** A turn started with the last prompt or, without any, with the first event that opens one. */
  lemma {:induction false} TurnStartedMeans(cwd: string, events: seq<HookEvent>)
    requires events != []
    ensures TurnStartMeans(RunKey(cwd, events).value.state.turnStartedAt, events)
  {
    var front, k := Front(events), |events| - 1;
    var c := Prior(cwd, events, k);
    assert events[..k] == front && events[..k + 1] == events && events == front + [events[k]];
    AfterOne(cwd, events, k);
    EffectOnTimes(c, events[k]);
    PriorIs(cwd, events, k);
    if front != [] {
      TurnStartedMeans(cwd, front);
    }
    TurnStartStep(c.state.turnStartedAt, front, events[k]);
  }

  // ---- the latest event and the anonymous tools -----------------------------------------------------------

  /** The rest is the latest event's, and whether any event showed work on a turn. */
  lemma {:induction false} LatestMeans(cwd: string, events: seq<HookEvent>)
    requires events != []
    ensures var s, e := RunKey(cwd, events).value.state, Last(events);
      && s.cwd == cwd && s.updatedAt == e.timestamp && s.lastEvent == e.kind && s.codexPid == e.ppid
      && s.source == e.source
      && (s.hasTurnActivity <==>
            exists i | 0 <= i < |events| :: events[i].kind in {UserPromptSubmit, PermissionRequest, Stop})
  {
    var front, k := Front(events), |events| - 1;
    assert events[..k] == front && events[..k + 1] == events;
    assert forall i | 0 <= i < k :: front[i] == events[i];
    AfterOne(cwd, events, k);
    PriorIs(cwd, events, k);
    EffectOnTools(Prior(cwd, events, k), events[k]);
    LatestEffect(Prior(cwd, events, k), events[k]);
    if front != [] {
      LatestMeans(cwd, front);
    }
  }

  lemma LatestEffect(c: Cell, e: HookEvent)
    ensures var s, t := c.state, Stamp(Lifecycle(c, e), e).state;
      t.cwd == s.cwd && t.updatedAt == e.timestamp && t.lastEvent == e.kind && t.codexPid == e.ppid
      && t.source == e.source
  {
  }

  /** A tool use without an id starts or ends. */
  function AnonymousStep(e: HookEvent): int {
    if Truthy(e.toolUseId) then 0 else if e.kind.PreToolUse? then 1 else if e.kind.PostToolUse? then -1 else 0
  }

  /** Starts less ends from a to n. */
  function Running(events: seq<HookEvent>, a: nat, n: nat): int
    requires n <= |events|
  {
    if n <= a then 0 else Running(events, a, n - 1) + AnonymousStep(events[n - 1])
  }

  /** A prompt or the turn's own stop forgets all tools. */
  predicate Resets(events: seq<HookEvent>, k: nat)
    requires k < |events|
  {
    events[k].kind.UserPromptSubmit? || ClosesTurn(events, k)
  }

  ghost predicate SinceReset(events: seq<HookEvent>, a: nat, n: nat)
    requires n <= |events|
  {
    a <= n && forall k | a <= k < n :: !Resets(events, k)
  }

  lemma AnonymousEffect(c: Cell, e: HookEvent)
    ensures var d := Stamp(Lifecycle(c, e), e);
      d.anonymous ==
        if e.kind.UserPromptSubmit? || (e.kind.Stop? && !Conflicting(c.state.turnId, e)) then 0
        else if c.anonymous + AnonymousStep(e) < 0 then 0
        else c.anonymous + AnonymousStep(e)
  {
  }

  lemma RunningStep(events: seq<HookEvent>, a: nat, n: nat)
    requires a < n <= |events|
    ensures Running(events, a, n) == Running(events, a, n - 1) + AnonymousStep(events[n - 1])
    ensures SinceReset(events, a, n) <==> SinceReset(events, a, n - 1) && !Resets(events, n - 1)
  {
  }

  /** The number of anonymous tools is how many more have started than ended since some event behind the last reset,
      and no such count is greater. */
  lemma {:induction false} AnonymousMeans(cwd: string, events: seq<HookEvent>, n: nat) returns (a: nat)
    requires 0 < n <= |events|
    ensures var count := RunKey(cwd, events[..n]).value.anonymous;
      && SinceReset(events, a, n) && count == Running(events, a, n)
      && forall b | SinceReset(events, b, n) :: Running(events, b, n) <= count
  {
    var c, e := Prior(cwd, events, n - 1), events[n - 1];
    AfterOne(cwd, events, n - 1);
    PriorIs(cwd, events, n - 1);
    AnonymousEffect(c, e);
    assert Resets(events, n - 1) <==> e.kind.UserPromptSubmit? || (e.kind.Stop? && !Conflicting(c.state.turnId, e));
    a := 0;
    if n > 1 {
      a := AnonymousMeans(cwd, events, n - 1);
    }
    forall b: nat | b < n
      ensures Running(events, b, n) == Running(events, b, n - 1) + AnonymousStep(e)
      ensures SinceReset(events, b, n) <==> SinceReset(events, b, n - 1) && !Resets(events, n - 1)
    {
      RunningStep(events, b, n);
    }
    if Resets(events, n - 1) || c.anonymous + AnonymousStep(e) < 0 {
      a := n;
    }
  }
}
