/** Folding hook events into one lifecycle state per directory, process and session
    (src/codex_cli_monitor/hook_state.py, `summarize_hook_events`). */
module HookSummary {
  import opened Sequences

  datatype Kind =
    | SessionStart | UserPromptSubmit | PermissionRequest | PreToolUse | PostToolUse | Stop | Other(name: string)

  datatype HookEvent = HookEvent(
    kind: Kind, timestamp: real, ppid: Option<int>, cwd: string, tool: Option<string>, hookSource: Option<string>,
    sessionId: Option<string>, turnId: Option<string>, toolUseId: Option<string>, source: Option<string>)

  datatype Key = Key(cwd: string, ppid: Option<int>, sessionId: Option<string>)

  datatype SessionState = SessionState(
    cwd: string, updatedAt: real, lastEvent: Kind, inTurn: bool, hasTurnActivity: bool,
    turnStartedAt: Option<real>, lastStoppedAt: Option<real>, sessionStartedAt: Option<real>,
    sessionStartSource: Option<string>, sessionId: Option<string>, turnId: Option<string>,
    lastStoppedTurnId: Option<string>, lastTool: Option<string>, permissionPendingAt: Option<real>,
    permissionTool: Option<string>, codexPid: Option<int>, source: Option<string>)
  {
    predicate AwaitingDecision() { inTurn && permissionPendingAt.Some? }
  }

  /** One key's entries in `states`, `active_tool_ids` and `anonymous_tools`. */
  datatype Cell = Cell(state: SessionState, tools: set<string>, anonymous: nat)

  predicate Truthy(s: Option<string>) { s.Some? && s.value != "" }

  /** Python's `a or b` on optional strings. */
  function Or(a: Option<string>, b: Option<string>): Option<string> { if Truthy(a) then a else b }

  /** A stop that names another turn than the current one. */
  predicate Conflicting(turnId: Option<string>, e: HookEvent) {
    Truthy(e.turnId) && Truthy(turnId) && e.turnId != turnId
  }

  function Fresh(cwd: string, e: HookEvent): Cell {
    Cell(SessionState(cwd, e.timestamp, e.kind, false, false, None, None, None, None, None, None, None, None, None,
                      None, e.ppid, None), {}, 0)
  }

  function StartedAt(s: SessionState, e: HookEvent): Option<real> {
    if s.turnStartedAt.None? then Some(e.timestamp) else s.turnStartedAt
  }

  /** What the event's own kind changes. */
  function Lifecycle(c: Cell, e: HookEvent): Cell {
    var s := c.state;
    match e.kind
    case SessionStart =>
      c.(state := s.(sessionStartedAt := Some(e.timestamp), sessionStartSource := e.hookSource))
    case UserPromptSubmit =>
      Cell(s.(inTurn := true, hasTurnActivity := true, turnId := Or(e.turnId, s.turnId),
              turnStartedAt := Some(e.timestamp), lastStoppedAt := None, permissionPendingAt := None,
              permissionTool := None), {}, 0)
    case PermissionRequest =>
      c.(state := s.(inTurn := true, hasTurnActivity := true, turnId := Or(e.turnId, s.turnId),
                     permissionPendingAt := Some(e.timestamp), permissionTool := Or(e.tool, s.permissionTool),
                     turnStartedAt := StartedAt(s, e)))
    case PreToolUse =>
      Cell(s.(inTurn := true, turnId := Or(e.turnId, s.turnId), turnStartedAt := StartedAt(s, e)),
           if Truthy(e.toolUseId) then c.tools + {e.toolUseId.value} else c.tools,
           if Truthy(e.toolUseId) then c.anonymous else c.anonymous + 1)
    case PostToolUse =>
      Cell(s.(inTurn := true, turnId := Or(e.turnId, s.turnId), permissionPendingAt := None, permissionTool := None,
              turnStartedAt := StartedAt(s, e)),
           if Truthy(e.toolUseId) then c.tools - {e.toolUseId.value} else c.tools,
           if Truthy(e.toolUseId) || c.anonymous == 0 then c.anonymous else c.anonymous - 1)
    case Stop =>
      var stopped := s.(hasTurnActivity := true, lastStoppedAt := Some(e.timestamp),
        lastStoppedTurnId := Or(e.turnId, s.turnId));
      if Conflicting(s.turnId, e) then c.(state := stopped)
      else
        Cell(stopped.(inTurn := false, turnId := Or(e.turnId, s.turnId), permissionPendingAt := None,
                      permissionTool := None), {}, 0)
    case Other(_) => c
  }

  function Stamp(c: Cell, e: HookEvent): Cell {
    c.(state := c.state.(updatedAt := e.timestamp, lastEvent := e.kind, sessionId := Or(e.sessionId, c.state.sessionId),
                         lastTool := Or(e.tool, c.state.lastTool), codexPid := e.ppid, source := e.source))
  }

  function Advance(cwd: string, previous: Option<Cell>, e: HookEvent): Cell {
    Stamp(Lifecycle(if previous.None? then Fresh(cwd, e) else previous.value, e), e)
  }

  /** The machine of a single key, run on that key's events. */
  function RunKey(cwd: string, events: seq<HookEvent>): Option<Cell> {
    if events == [] then None else Some(Advance(cwd, RunKey(cwd, Front(events)), Last(events)))
  }

  predicate NotAfter(a: HookEvent, b: HookEvent) { a.timestamp <= b.timestamp }

  type Normalizer = string -> Option<string>

  function InKey(normalize: Normalizer, key: Key): HookEvent -> bool {
    (e: HookEvent) => normalize(e.cwd) == Some(key.cwd) && e.ppid == key.ppid && e.sessionId == key.sessionId
  }

  /** A key's own events, by timestamp. */
  function KeyEvents(normalize: Normalizer, events: seq<HookEvent>, key: Key): seq<HookEvent> {
    StableSort(Filter(events, InKey(normalize, key)), NotAfter)
  }

  /** The three dictionaries of the loop together say, for each key, what its own machine says. */
  ghost predicate Agrees(
    normalize: Normalizer, seen: seq<HookEvent>, states: map<Key, SessionState>, tools: map<Key, set<string>>,
    anonymous: map<Key, nat>)
  {
    forall key: Key :: CellAt(states, tools, anonymous, key) == RunKey(key.cwd, Filter(seen, InKey(normalize, key)))
  }

  function CellAt(
      states: map<Key, SessionState>, tools: map<Key, set<string>>, anonymous: map<Key, nat>, key: Key): Option<Cell>
  {
    if key in states && key in tools && key in anonymous then Some(Cell(states[key], tools[key], anonymous[key]))
    else None
  }

  /** Every key's state is what its own machine makes of its own events in timestamp order: events of
      other directories, processes and sessions, and their interleaving, do not matter. */
  method SummarizeHookEvents(events: seq<HookEvent>, normalize: Normalizer)
    returns (
      states: map<Key, SessionState>, activeToolIds: map<Key, set<string>>, anonymousTools: map<Key, nat>)
    ensures states.Keys == activeToolIds.Keys == anonymousTools.Keys
    ensures forall key: Key ::
      CellAt(states, activeToolIds, anonymousTools, key) == RunKey(key.cwd, KeyEvents(normalize, events, key))
  {
    states, activeToolIds, anonymousTools := map[], map[], map[];
    var ordered := StableSort(events, NotAfter);
    for i := 0 to |ordered|
      invariant states.Keys == activeToolIds.Keys == anonymousTools.Keys
      invariant Agrees(normalize, ordered[..i], states, activeToolIds, anonymousTools)
    {
      var event := ordered[i];
      assert ordered[..i + 1] == ordered[..i] + [event];
      var cwd := normalize(event.cwd);
      OneMore(normalize, ordered[..i], event, states, activeToolIds, anonymousTools);
      if cwd.Some? {
        var key := Key(cwd.value, event.ppid, event.sessionId);
        var cell := ApplyEvent(key.cwd, CellAt(states, activeToolIds, anonymousTools, key), event);
        states := states[key := cell.state];
        activeToolIds := activeToolIds[key := cell.tools];
        anonymousTools := anonymousTools[key := cell.anonymous];
      }
    }
    assert ordered[..|ordered|] == ordered;
    SortedAgree(normalize, events, states, activeToolIds, anonymousTools);
  }

  /** Each key's events in the sorted list are its own events, sorted. */
  lemma SortedAgree(
    normalize: Normalizer, events: seq<HookEvent>, states: map<Key, SessionState>, tools: map<Key, set<string>>,
    anonymous: map<Key, nat>)
    requires Agrees(normalize, StableSort(events, NotAfter), states, tools, anonymous)
    ensures forall key: Key ::
      CellAt(states, tools, anonymous, key) == RunKey(key.cwd, KeyEvents(normalize, events, key))
  {
    forall key: Key
      ensures CellAt(states, tools, anonymous, key) == RunKey(key.cwd, KeyEvents(normalize, events, key))
    {
      FilterSort(events, NotAfter, InKey(normalize, key));
    }
  }

  lemma Updated(
    states: map<Key, SessionState>, tools: map<Key, set<string>>, anonymous: map<Key, nat>, at: Key, cell: Cell,
    key: Key)
    ensures CellAt(states[at := cell.state], tools[at := cell.tools], anonymous[at := cell.anonymous], key)
            == if key == at then Some(cell) else CellAt(states, tools, anonymous, key)
  {
  }

  lemma OneMore(
    normalize: Normalizer, seen: seq<HookEvent>, e: HookEvent,
    states: map<Key, SessionState>, tools: map<Key, set<string>>, anonymous: map<Key, nat>)
    requires Agrees(normalize, seen, states, tools, anonymous)
    ensures if normalize(e.cwd).None? then Agrees(normalize, seen + [e], states, tools, anonymous)
      else
        var at := Key(normalize(e.cwd).value, e.ppid, e.sessionId);
        var cell := Advance(at.cwd, CellAt(states, tools, anonymous, at), e);
        Agrees(normalize, seen + [e], states[at := cell.state], tools[at := cell.tools],
          anonymous[at := cell.anonymous])
  {
    forall key: Key ensures RunKey(key.cwd, Filter(seen + [e], InKey(normalize, key))) ==
      if normalize(e.cwd).Some? && key == Key(normalize(e.cwd).value, e.ppid, e.sessionId)
      then Some(Advance(key.cwd, CellAt(states, tools, anonymous, key), e))
      else CellAt(states, tools, anonymous, key)
    {
      RunPush(normalize, seen, e, key);
    }
    if normalize(e.cwd).Some? {
      var at := Key(normalize(e.cwd).value, e.ppid, e.sessionId);
      var cell := Advance(at.cwd, CellAt(states, tools, anonymous, at), e);
      forall key: Key
        ensures CellAt(states[at := cell.state], tools[at := cell.tools], anonymous[at := cell.anonymous], key)
                              == if key == at then Some(cell) else CellAt(states, tools, anonymous, key)
      {
        Updated(states, tools, anonymous, at, cell, key);
      }
    }
  }

  lemma RunPush(normalize: Normalizer, seen: seq<HookEvent>, e: HookEvent, key: Key)
    ensures var before := RunKey(key.cwd, Filter(seen, InKey(normalize, key)));
      RunKey(key.cwd, Filter(seen + [e], InKey(normalize, key))) ==
        if normalize(e.cwd).Some? && key == Key(normalize(e.cwd).value, e.ppid, e.sessionId)
        then Some(Advance(key.cwd, before, e))
        else before
  {
    FilterPush(seen, e, InKey(normalize, key));
    var own := Filter(seen, InKey(normalize, key));
    assert Front(own + [e]) == own;
  }

  /** The branches of the loop body, on one key's entries. */
  method ApplyEvent(cwd: string, previous: Option<Cell>, event: HookEvent) returns (cell: Cell)
    ensures cell == Advance(cwd, previous, event)
  {
    var start := if previous.None? then Fresh(cwd, event) else previous.value;
    var s, tools, anonymous := start.state, start.tools, start.anonymous;
    match event.kind {
    case SessionStart =>
      s := s.(sessionStartedAt := Some(event.timestamp), sessionStartSource := event.hookSource);
    case UserPromptSubmit =>
      s := s.(inTurn := true, hasTurnActivity := true, turnId := Or(event.turnId, s.turnId));
      s := s.(turnStartedAt := Some(event.timestamp), lastStoppedAt := None);
      s := s.(permissionPendingAt := None, permissionTool := None);
      tools, anonymous := {}, 0;
    case PermissionRequest =>
      s := s.(inTurn := true, hasTurnActivity := true, turnId := Or(event.turnId, s.turnId));
      s := s.(permissionPendingAt := Some(event.timestamp), permissionTool := Or(event.tool, s.permissionTool));
      if s.turnStartedAt.None? { s := s.(turnStartedAt := Some(event.timestamp)); }
    case PreToolUse =>
      s := s.(inTurn := true, turnId := Or(event.turnId, s.turnId));
      if Truthy(event.toolUseId) { tools := tools + {event.toolUseId.value}; } else { anonymous := anonymous + 1; }
      if s.turnStartedAt.None? { s := s.(turnStartedAt := Some(event.timestamp)); }
    case PostToolUse =>
      s := s.(inTurn := true, turnId := Or(event.turnId, s.turnId), permissionPendingAt := None,
        permissionTool := None);
      if Truthy(event.toolUseId) { tools := tools - {event.toolUseId.value}; }
      else if anonymous > 0 { anonymous := anonymous - 1; }
      if s.turnStartedAt.None? { s := s.(turnStartedAt := Some(event.timestamp)); }
    case Stop =>
      var conflict := Conflicting(s.turnId, event);
      s := s.(hasTurnActivity := true, lastStoppedAt := Some(event.timestamp),
        lastStoppedTurnId := Or(event.turnId, s.turnId));
      if !conflict {
        s := s.(inTurn := false, turnId := Or(event.turnId, s.turnId), permissionPendingAt := None,
          permissionTool := None);
        tools, anonymous := {}, 0;
      }
    case Other(_) =>
    }
    cell := Stamp(Cell(s, tools, anonymous), event);
  }

  // ---- what the machine's flags mean, told by the event list alone -------------------------------

  /** The current turn: the last one named by anything but a conflicting stop. */
  function CurrentTurn(events: seq<HookEvent>): Option<string> {
    if events == [] then None else NextTurn(CurrentTurn(Front(events)), Last(events))
  }

  function NextTurn(turnId: Option<string>, e: HookEvent): Option<string> {
    match e.kind
    case SessionStart => turnId
    case Other(_) => turnId
    case Stop => if Truthy(turnId) then turnId else Or(e.turnId, turnId)
    case _ => Or(e.turnId, turnId)
  }

  predicate ClosesTurn(events: seq<HookEvent>, j: nat)
    requires j < |events|
  {
    events[j].kind == Stop && !Conflicting(CurrentTurn(events[..j]), events[j])
  }

  predicate OpensTurn(e: HookEvent) {
    e.kind in OPENING
  }

  /** The prompt was answered or the turn moved on. */
  predicate SettlesDecision(events: seq<HookEvent>, j: nat)
    requires j < |events|
  {
    events[j].kind in {UserPromptSubmit, PostToolUse} || ClosesTurn(events, j)
  }

  predicate EndsTool(events: seq<HookEvent>, tool: string, j: nat)
    requires j < |events|
  {
    || events[j].kind == UserPromptSubmit
    || (events[j].kind == PostToolUse && events[j].toolUseId == Some(tool))
    || ClosesTurn(events, j)
  }

  /** i is followed by no j up to n at which `ends` holds. */
  ghost predicate Lasts(n: nat, i: nat, ends: nat -> bool) {
    forall j :: i < j < n ==> !ends(j)
  }

  /** A flag that `sets` raises and `ends` lowers, unless the same event raises it. */
  ghost predicate Latched(n: nat, sets: nat -> bool, ends: nat -> bool) {
    if n == 0 then false else sets(n - 1) || (Latched(n - 1, sets, ends) && !ends(n - 1))
  }

  lemma {:induction false} LatchedMeans(n: nat, sets: nat -> bool, ends: nat -> bool)
    ensures Latched(n, sets, ends) <==> exists i :: 0 <= i < n && sets(i) && Lasts(n, i, ends)
  {
    if n > 0 {
      LatchedMeans(n - 1, sets, ends);
      if sets(n - 1) {
        assert Lasts(n, n - 1, ends);
      } else if Latched(n - 1, sets, ends) && !ends(n - 1) {
        var i :| 0 <= i < n - 1 && sets(i) && Lasts(n - 1, i, ends);
        assert Lasts(n, i, ends);
      } else {
        forall i | 0 <= i < n && sets(i) ensures !Lasts(n, i, ends) {
          if !ends(n - 1) {
            assert !Lasts(n - 1, i, ends);
          }
        }
      }
    }
  }

  // ---- closed forms ---------------------------------------------------------------------------------

  /** The key's entries before its first event: nothing is open. */
  function Before(cwd: string, previous: Option<Cell>, e: HookEvent): Cell {
    if previous.None? then Fresh(cwd, e) else previous.value
  }

  ghost predicate Consistent(c: Cell) {
    && (c.state.permissionPendingAt.Some? ==> c.state.inTurn)
    && (!c.state.inTurn ==> c.tools == {} && c.anonymous == 0)
  }

  /** What one event does to the turn, the decision and one tool. */
  lemma EventEffects(c: Cell, e: HookEvent, tool: string)
    requires Consistent(c) && tool != ""
    ensures var d := Stamp(Lifecycle(c, e), e);
      var closes := e.kind == Stop && !Conflicting(c.state.turnId, e);
      && Consistent(d)
      && d.state.turnId == NextTurn(c.state.turnId, e)
      && d.state.inTurn == (OpensTurn(e) || (c.state.inTurn && !closes))
      && d.state.permissionPendingAt.Some? ==
           (e.kind == PermissionRequest
             || (c.state.permissionPendingAt.Some? && !(e.kind in {UserPromptSubmit, PostToolUse} || closes)))
      && (tool in d.tools <==>
           (e.kind == PreToolUse && e.toolUseId == Some(tool)) ||
           (tool in c.tools
             && !(e.kind == UserPromptSubmit || (e.kind == PostToolUse && e.toolUseId == Some(tool)) || closes)))
  {
    match e.kind
    case Stop =>
    case _ =>
  }

  lemma RunStep(cwd: string, events: seq<HookEvent>, n: nat)
    requires n < |events|
    ensures RunKey(cwd, events[..n + 1])
        == Some(Stamp(Lifecycle(Before(cwd, RunKey(cwd, events[..n]), events[n]), events[n]), events[n]))
    ensures CurrentTurn(events[..n + 1]) == NextTurn(CurrentTurn(events[..n]), events[n])
  {
    assert Front(events[..n + 1]) == events[..n];
  }

  function IsKind(events: seq<HookEvent>, kinds: set<Kind>): nat -> bool {
    (i: nat) => i < |events| && events[i].kind in kinds
  }

  function StartsTool(events: seq<HookEvent>, tool: string): nat -> bool {
    (i: nat) => i < |events| && events[i].kind == PreToolUse && events[i].toolUseId == Some(tool)
  }

  function Closing(events: seq<HookEvent>): nat -> bool {
    (j: nat) => j < |events| && ClosesTurn(events, j)
  }

  function Settling(events: seq<HookEvent>): nat -> bool {
    (j: nat) => j < |events| && SettlesDecision(events, j)
  }

  function Ending(events: seq<HookEvent>, tool: string): nat -> bool {
    (j: nat) => j < |events| && EndsTool(events, tool, j)
  }

  /** The flags are the latches of the first n events. */
  ghost predicate AreLatches(c: Cell, events: seq<HookEvent>, n: nat, tool: string)
    requires n <= |events|
  {
    && Consistent(c)
    && c.state.turnId == CurrentTurn(events[..n])
    && c.state.inTurn == Latched(n, IsKind(events, OPENING), Closing(events))
    && c.state.permissionPendingAt.Some? == Latched(n, IsKind(events, {PermissionRequest}), Settling(events))
    && (tool in c.tools) == Latched(n, StartsTool(events, tool), Ending(events, tool))
  }

  lemma LatchesStep(c: Cell, events: seq<HookEvent>, n: nat, tool: string)
    requires n < |events| && tool != "" && AreLatches(c, events, n, tool)
    requires CurrentTurn(events[..n + 1]) == NextTurn(CurrentTurn(events[..n]), events[n])
    ensures AreLatches(Stamp(Lifecycle(c, events[n]), events[n]), events, n + 1, tool)
  {
    EventEffects(c, events[n], tool);
  }

  /** The machine's flags after n events are the latches of the event list. */
  lemma {:induction false} FlagsAreLatches(cwd: string, events: seq<HookEvent>, n: nat, tool: string)
    requires 0 < n <= |events| && tool != ""
    ensures AreLatches(RunKey(cwd, events[..n]).value, events, n, tool)
  {
    RunStep(cwd, events, n - 1);
    if n > 1 {
      FlagsAreLatches(cwd, events, n - 1, tool);
    }
    LatchesStep(Before(cwd, RunKey(cwd, events[..n - 1]), events[n - 1]), events, n - 1, tool);
  }

  ghost predicate NeverClosedAfter(events: seq<HookEvent>, i: nat) {
    forall j :: i < j < |events| ==> !ClosesTurn(events, j)
  }

  ghost predicate NeverSettledAfter(events: seq<HookEvent>, i: nat) {
    forall j :: i < j < |events| ==> !SettlesDecision(events, j)
  }

  ghost predicate NeverEndedAfter(events: seq<HookEvent>, tool: string, i: nat) {
    forall j :: i < j < |events| ==> !EndsTool(events, tool, j)
  }

  const OPENING := {UserPromptSubmit, PermissionRequest, PreToolUse, PostToolUse}

  /** A turn is open iff some prompt, permission request or tool event has no later closing stop. */
  lemma InTurnMeans(cwd: string, events: seq<HookEvent>)
    requires events != []
    ensures RunKey(cwd, events).value.state.inTurn <==>
      exists i :: 0 <= i < |events| && OpensTurn(events[i]) && NeverClosedAfter(events, i)
  {
    assert events[..|events|] == events;
    forall i: nat ensures Lasts(|events|, i, Closing(events)) == NeverClosedAfter(events, i) {
      assert forall j | i < j < |events| :: Closing(events)(j) == ClosesTurn(events, j);
    }
    FlagsAreLatches(cwd, events, |events|, "-");
    LatchedMeans(|events|, IsKind(events, OPENING), Closing(events));
  }

  /** A decision is awaited iff some permission request has no later prompt, tool completion or
      non-conflicting stop. */
  lemma AwaitingMeans(cwd: string, events: seq<HookEvent>)
    requires events != []
    ensures RunKey(cwd, events).value.state.AwaitingDecision() <==>
      exists i :: 0 <= i < |events| && events[i].kind == PermissionRequest && NeverSettledAfter(events, i)
  {
    assert events[..|events|] == events;
    forall i: nat ensures Lasts(|events|, i, Settling(events)) == NeverSettledAfter(events, i) {
      assert forall j | i < j < |events| :: Settling(events)(j) == SettlesDecision(events, j);
    }
    FlagsAreLatches(cwd, events, |events|, "-");
    LatchedMeans(|events|, IsKind(events, {PermissionRequest}), Settling(events));
  }

  /** A tool use is active iff it was started and nothing later completed it or ended the turn. */
  lemma ActiveToolMeans(cwd: string, events: seq<HookEvent>, tool: string)
    requires events != [] && tool != ""
    ensures tool in RunKey(cwd, events).value.tools <==>
      exists i :: 0 <= i < |events| && events[i].kind == PreToolUse && events[i].toolUseId == Some(tool)
        && NeverEndedAfter(events, tool, i)
  {
    assert events[..|events|] == events;
    forall i: nat ensures Lasts(|events|, i, Ending(events, tool)) == NeverEndedAfter(events, tool, i) {
      assert forall j | i < j < |events| :: Ending(events, tool)(j) == EndsTool(events, tool, j);
    }
    FlagsAreLatches(cwd, events, |events|, tool);
    LatchedMeans(|events|, StartsTool(events, tool), Ending(events, tool));
  }

  /** A closed turn has no active tools and no pending decision. */
  lemma ClosedTurnIsQuiet(cwd: string, events: seq<HookEvent>)
    requires events != [] && !RunKey(cwd, events).value.state.inTurn
    ensures var c := RunKey(cwd, events).value;
      c.tools == {} && c.anonymous == 0 && c.state.permissionPendingAt.None? && !c.state.AwaitingDecision()
  {
    assert events[..|events|] == events;
    FlagsAreLatches(cwd, events, |events|, "-");
  }
}
