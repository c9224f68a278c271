/** The turn and permission machine of one Qoder run segment
    (src/codex_cli_monitor/qoder_state.py, `_apply_record`, `_derive_status`). */
module QoderTurn {
  import opened Sequences

  const MAX_PENDING_PERMISSIONS := 64
  const DEFAULT_PERMISSION_WAITING_REASON := "approval prompt"
  const WAITING_TOOL_NAMES := {"AskUserQuestion", "ExitPlanMode"}

  datatype EventType =
    | TurnStarted | TurnFinished | PermissionRequested | PermissionResolved
    | ToolRequested | ToolExecutionFinished | ToolShellFinished | ModelRequestStarted | Other(name: string)

  /** The structural content of one decoded record; empty identifiers read as absent. */
  datatype Record = Record(
    eventType: Option<EventType>, at: Option<real>, turnId: Option<string>, toolCallId: Option<string>,
    isSubagent: bool, toolName: Option<string>, hasError: bool, reasonIsError: bool)

  datatype Pending = Pending(key: string, tool: string)

  datatype Status = Running | Waiting | Success | Failure

  datatype Turn = Turn(
    workSubmitted: bool, turnId: Option<string>, turnActive: bool, terminalEvent: bool, failedEvent: bool,
    lastActivityAt: Option<real>, lastEventType: Option<EventType>,
    pending: seq<Pending>, lastPermissionKey: Option<string>,
    pendingAsk: Option<string>, pendingAskId: Option<string>, syntheticKey: nat, subagentTurns: set<string>)

  const INITIAL := Turn(false, None, false, false, false, None, None, [], None, None, None, 0, {})

  function Failed(r: Record): bool { r.hasError || r.reasonIsError }

  function Digits(n: nat): string {
    if n < 10 then [['0', '1', '2', '3', '4', '5', '6', '7', '8', '9'][n]] else Digits(n / 10) + Digits(n % 10)
  }

  // ---- the insertion-ordered dictionary of pending permissions -----------------------------

  predicate HasKey(pending: seq<Pending>, key: string) {
    exists p <- pending :: p.key == key
  }

  /** `pending.pop(key, None)` */
  function Without(pending: seq<Pending>, key: string): seq<Pending> {
    if pending == [] then []
    else if Last(pending).key == key then Without(Front(pending), key)
    else Without(Front(pending), key) + [Last(pending)]
  }

  /** `pending[key] = tool`: an existing key keeps its place. */
  function Put(pending: seq<Pending>, key: string, tool: string): seq<Pending> {
    if HasKey(pending, key)
    then seq(|pending|, i requires 0 <= i < |pending| =>
      if pending[i].key == key then Pending(key, tool) else pending[i])
    else pending + [Pending(key, tool)]
  }

  function ToolOf(pending: seq<Pending>, key: string): Option<string> {
    if pending == [] then None
    else if Last(pending).key == key then Some(Last(pending).tool)
    else ToolOf(Front(pending), key)
  }

  // ---- one record ----------------------------------------------------------------------------

  function Cleared(s: Turn): Turn {
    s.(pending := [], lastPermissionKey := None, pendingAsk := None, pendingAskId := None)
  }

  predicate FromSubagent(s: Turn, r: Record) {
    r.turnId.Some? && r.turnId.value in s.subagentTurns
  }

  /** A record that names another turn than the active one. */
  predicate FromAnotherTurn(s: Turn, r: Record) {
    r.turnId.Some? && s.turnId.Some? && r.turnId != s.turnId
  }

  function Stamped(s: Turn, r: Record): Turn {
    s.(lastActivityAt := if r.at.Some? then r.at else s.lastActivityAt, lastEventType := r.eventType)
  }

  function Apply(s: Turn, r: Record): Turn {
    if r.eventType.None? then s else ApplyTyped(Stamped(s, r), r)
  }

  function ApplyTyped(s: Turn, r: Record): Turn
    requires r.eventType.Some?
  {
    if FromSubagent(s, r) then s
    else if r.eventType.value == TurnStarted then Started(s, r)
    else if !s.turnActive then
      if r.eventType.value == TurnFinished
      then s.(workSubmitted := true, terminalEvent := true, turnId := r.turnId, failedEvent := Failed(r))
      else s
    else if FromAnotherTurn(s, r) then s
    else DuringTurn(s, r)
  }

  function Started(s: Turn, r: Record): Turn {
    if r.isSubagent then
      if r.turnId.Some? && |s.subagentTurns| < MAX_PENDING_PERMISSIONS
      then s.(subagentTurns := s.subagentTurns + {r.turnId.value})
      else s
    else
      Cleared(s).(workSubmitted := true, turnId := r.turnId, turnActive := true, terminalEvent := false,
                  failedEvent := false)
  }

  function DuringTurn(s: Turn, r: Record): Turn
    requires r.eventType.Some?
  {
    match r.eventType.value
    case TurnFinished => Cleared(s).(turnActive := false, terminalEvent := true, failedEvent := Failed(r))
    case PermissionRequested => Request(s, r)
    case PermissionResolved => Resolve(s, r)
    case ToolRequested =>
      if r.toolName.Some? && r.toolName.value in WAITING_TOOL_NAMES
      then s.(pendingAsk := r.toolName, pendingAskId := r.toolCallId)
      else s
    case ToolExecutionFinished => ToolDone(s, r)
    case ToolShellFinished => ToolDone(s, r)
    case ModelRequestStarted => s.(pendingAsk := None, pendingAskId := None)
    case _ => s
  }

  function Label(r: Record): string {
    if r.toolName.Some? && r.toolName.value != "" then r.toolName.value else DEFAULT_PERMISSION_WAITING_REASON
  }

  function Request(s: Turn, r: Record): Turn {
    var n := if r.toolCallId.None? then s.syntheticKey + 1 else s.syntheticKey;
    var key := if r.toolCallId.Some? then r.toolCallId.value else "permission-" + Digits(n);
    var room := if |s.pending| >= MAX_PENDING_PERMISSIONS then Without(s.pending, s.pending[0].key) else s.pending;
    s.(syntheticKey := n, pending := Put(room, key, Label(r)), lastPermissionKey := Some(key))
  }

  function Resolve(s: Turn, r: Record): Turn {
    var left :=
      if r.toolCallId.Some? && HasKey(s.pending, r.toolCallId.value) then Without(s.pending, r.toolCallId.value)
      else if s.pending != [] then Without(s.pending, s.pending[0].key)
      else s.pending;
    s.(pending := left, lastPermissionKey := if left == [] then None else Some(Last(left).key))
  }

  function ToolDone(s: Turn, r: Record): Turn {
    if s.pendingAsk.Some? && (s.pendingAskId.None? || r.toolCallId.None? || r.toolCallId == s.pendingAskId)
    then s.(pendingAsk := None, pendingAskId := None)
    else s
  }

  function Fold(s: Turn, rs: seq<Record>): Turn {
    if rs == [] then s else Apply(Fold(s, Front(rs)), Last(rs))
  }

  /** `_derive_status`, with its fallback for a key that names no pending entry. */
  function DeriveStatus(s: Turn): (Option<Status>, Option<string>) {
    if s.turnActive then
      if s.pending != [] then
        var named := if s.lastPermissionKey.Some? then ToolOf(s.pending, s.lastPermissionKey.value) else None;
        var reason := if named.None? then Last(s.pending).tool else named.value;
        (Some(Waiting), Some(if reason == "" then DEFAULT_PERMISSION_WAITING_REASON else reason))
      else if s.pendingAsk.Some? then (Some(Waiting), s.pendingAsk)
      else (Some(Running), None)
    else if s.workSubmitted && s.terminalEvent then (Some(if s.failedEvent then Failure else Success), None)
    else (None, None)
  }

  // ---- the state object the parser mutates -----------------------------------------------

  class ParseState {
    var workSubmitted: bool
    var turnId: Option<string>
    var turnActive: bool
    var terminalEvent: bool
    var failedEvent: bool
    var lastActivityAt: Option<real>
    var lastEventType: Option<EventType>
    var pendingPermissions: seq<Pending>
    var lastPermissionKey: Option<string>
    var pendingAsk: Option<string>
    var pendingAskId: Option<string>
    var syntheticKey: nat
    var subagentTurns: set<string>

    function State(): Turn reads this {
      Turn(workSubmitted, turnId, turnActive, terminalEvent, failedEvent, lastActivityAt, lastEventType,
           pendingPermissions, lastPermissionKey, pendingAsk, pendingAskId, syntheticKey, subagentTurns)
    }

    constructor ()
      ensures State() == INITIAL
    {
      workSubmitted, turnActive, terminalEvent, failedEvent := false, false, false, false;
      turnId, lastActivityAt, lastEventType := None, None, None;
      pendingPermissions, lastPermissionKey, pendingAsk, pendingAskId := [], None, None, None;
      syntheticKey, subagentTurns := 0, {};
    }

    method ClearWaits()
      modifies this
      ensures State() == Cleared(old(State()))
    {
      pendingPermissions, lastPermissionKey := [], None;
      pendingAsk, pendingAskId := None, None;
    }

    method ApplyRecord(r: Record)
      modifies this
      ensures State() == Apply(old(State()), r)
    {
      if r.eventType.None? {
        return;
      }
      if r.at.Some? {
        lastActivityAt := r.at;
      }
      lastEventType := r.eventType;
      ApplyLifecycle(r);
    }

    method ApplyLifecycle(r: Record)
      requires r.eventType.Some?
      modifies this
      ensures State() == ApplyTyped(old(State()), r)
    {
      if r.turnId.Some? && r.turnId.value in subagentTurns {
        return;
      }
      if r.eventType.value == TurnStarted {
        StartTurn(r);
        return;
      }
      if !turnActive {
        if r.eventType.value == TurnFinished {
          workSubmitted, terminalEvent, turnId := true, true, r.turnId;
          failedEvent := Failed(r);
        }
        return;
      }
      if r.turnId.Some? && turnId.Some? && r.turnId != turnId {
        return;
      }
      ApplyDuringTurn(r);
    }

    method StartTurn(r: Record)
      modifies this
      ensures State() == Started(old(State()), r)
    {
      if r.isSubagent {
        if r.turnId.Some? && |subagentTurns| < MAX_PENDING_PERMISSIONS {
          subagentTurns := subagentTurns + {r.turnId.value};
        }
        return;
      }
      workSubmitted, turnId, turnActive := true, r.turnId, true;
      terminalEvent, failedEvent := false, false;
      ClearWaits();
    }

    method FinishTool(r: Record)
      modifies this
      ensures State() == ToolDone(old(State()), r)
    {
      if pendingAsk.Some? && (pendingAskId.None? || r.toolCallId.None? || r.toolCallId == pendingAskId) {
        pendingAsk, pendingAskId := None, None;
      }
    }

    method ApplyDuringTurn(r: Record)
      requires r.eventType.Some?
      modifies this
      ensures State() == DuringTurn(old(State()), r)
    {
      match r.eventType.value
      case TurnFinished =>
        turnActive, terminalEvent, failedEvent := false, true, Failed(r);
        ClearWaits();
      case PermissionRequested =>
        var key: string;
        if r.toolCallId.Some? {
          key := r.toolCallId.value;
        } else {
          syntheticKey := syntheticKey + 1;
          key := "permission-" + Digits(syntheticKey);
        }
        if |pendingPermissions| >= MAX_PENDING_PERMISSIONS {
          pendingPermissions := Without(pendingPermissions, pendingPermissions[0].key);
        }
        pendingPermissions := Put(pendingPermissions, key, Label(r));
        lastPermissionKey := Some(key);
      case PermissionResolved =>
        if r.toolCallId.Some? && HasKey(pendingPermissions, r.toolCallId.value) {
          pendingPermissions := Without(pendingPermissions, r.toolCallId.value);
        } else if pendingPermissions != [] {
          pendingPermissions := Without(pendingPermissions, pendingPermissions[0].key);
        }
        lastPermissionKey := if pendingPermissions == [] then None else Some(Last(pendingPermissions).key);
      case ToolRequested =>
        if r.toolName.Some? && r.toolName.value in WAITING_TOOL_NAMES {
          pendingAsk, pendingAskId := r.toolName, r.toolCallId;
        }
      case ModelRequestStarted =>
        pendingAsk, pendingAskId := None, None;
      case ToolExecutionFinished =>
        FinishTool(r);
      case ToolShellFinished =>
        FinishTool(r);
      case _ =>
    }
  }
}
