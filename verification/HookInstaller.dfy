/** Installing, removing and checking the monitor's handlers in a hooks configuration
    (src/codex_cli_monitor/install_hooks.py). */
module HookInstaller {
  import opened Sequences

  const MONITOR_MARKER := "CODEX_CLI_MONITOR_HOOK=1"
  const MODULE_NAME := "codex_cli_monitor.hooks"
  const LAUNCHER_NAME := "codex-monitor-hook"

  const DEFAULT_HOOK_EVENTS := ["UserPromptSubmit", "PermissionRequest", "Stop"]
  const LEGACY_HOOK_EVENTS := ["SessionStart"]
  const TOOL_HOOK_EVENTS := ["PreToolUse", "PostToolUse"]
  const ALL_HOOK_EVENTS := DEFAULT_HOOK_EVENTS + LEGACY_HOOK_EVENTS + TOOL_HOOK_EVENTS

  /** A handler's command and its other members. */
  datatype Handler = Handler(command: string, members: map<string, string>)

  /** A matcher group and its other members. */
  datatype Group = Group(members: map<string, string>, handlers: seq<Handler>)

  type Hooks = map<string, seq<Group>>

  /** A valid configuration: its hooks, if it has any section for them, and everything else. */
  datatype Config = Config(hooks: Option<Hooks>, rest: map<string, string>)

  datatype File = Missing | Malformed | Present(config: Config)

  predicate Contains(text: string, part: string) {
    exists i | 0 <= i <= |text| - |part| :: OccursAt(text, part, i)
  }

  predicate OccursAt(text: string, part: string, i: int) {
    0 <= i <= |text| - |part| && text[i..i + |part|] == part
  }

  predicate IsMonitor(h: Handler) {
    Contains(h.command, MONITOR_MARKER) || Contains(h.command, MODULE_NAME) || Contains(h.command, LAUNCHER_NAME)
  }

  function ShellQuote(value: string): string {
    "'" + EscapeQuotes(value) + "'"
  }

  function EscapeQuotes(value: string): string {
    if value == "" then ""
    else EscapeQuotes(Front(value)) + if Last(value) == '\'' then "'\"'\"'" else [Last(value)]
  }

  function HookCommand(sourceRoot: string, event: string): string {
    MONITOR_MARKER + (" PYTHONPATH=" + ShellQuote(sourceRoot) + " python3 -S -m codex_cli_monitor.hooks " +
                      ShellQuote(event) + " --ppid \"$PPID\" || true")
  }

  function CommandName(event: string): string {
    if event == "UserPromptSubmit" then "user_prompt_submit"
    else if event == "PermissionRequest" then "permission_request"
    else if event == "Stop" then "stop"
    else if event == "SessionStart" then "session_start"
    else if event == "PreToolUse" then "pre_tool_use"
    else "post_tool_use"
  }

  /** The group the installer adds for an event. */
  function Entry(sourceRoot: string, event: string): Group {
    Group(if event in TOOL_HOOK_EVENTS || event in LEGACY_HOOK_EVENTS then map["matcher" := "*"] else map[],
          [Handler(HookCommand(sourceRoot, CommandName(event)), map["type" := "command", "timeout" := "5"])])
  }

  function Selected(toolEvents: bool): seq<string> {
    if toolEvents then DEFAULT_HOOK_EVENTS + TOOL_HOOK_EVENTS else DEFAULT_HOOK_EVENTS
  }

  predicate ThirdParty(h: Handler) { !IsMonitor(h) }

  /** A group that holds only monitor handlers goes; one that was already empty stays. */
  predicate GroupStays(g: Group) {
    Filter(g.handlers, ThirdParty) != [] || Filter(g.handlers, IsMonitor) == []
  }

  function Strip(entries: seq<Group>): seq<Group> {
    if entries == [] then []
    else
      var g := Last(entries);
      if GroupStays(g)
      then Strip(Front(entries)) + [g.(handlers := Filter(g.handlers, ThirdParty))]
      else Strip(Front(entries))
  }

  /** The hooks with the monitor's handlers taken out of the given events. */
  function Cleaned(hooks: Hooks, events: set<string>): Hooks {
    map e | e in hooks && (e in events ==> Strip(hooks[e]) != []) :: if e in events then Strip(hooks[e]) else hooks[e]
  }

  function Get(hooks: Hooks, event: string): seq<Group> {
    if event in hooks then hooks[event] else []
  }

  /** The hooks with one monitor group appended for each of the given events. */
  function Added(hooks: Hooks, sourceRoot: string, events: seq<string>): Hooks {
    map e | e in hooks.Keys + (set s | s in events) ::
      if e in events then Get(hooks, e) + [Entry(sourceRoot, e)] else hooks[e]
  }

  function AllEvents(): set<string> { set e | e in ALL_HOOK_EVENTS }

  function HooksOf(c: Config): Hooks { if c.hooks.Some? then c.hooks.value else map[] }

  function Installed(c: Config, sourceRoot: string, toolEvents: bool): Config {
    c.(hooks := Some(Added(Cleaned(HooksOf(c), AllEvents()), sourceRoot, Selected(toolEvents))))
  }

  function Uninstalled(c: Config): Config {
    var left := Cleaned(HooksOf(c), HooksOf(c).Keys);
    c.(hooks := if left == map[] then None else Some(left))
  }

  function ConfigOf(f: File): Config
    requires !f.Malformed?
  {
    if f.Present? then f.config else Config(Some(map[]), map[])
  }

  function MonitorCommands(entries: seq<Group>): seq<string> {
    if entries == [] then [] else MonitorCommands(Front(entries)) + Commands(Filter(Last(entries).handlers, IsMonitor))
  }

  function Commands(handlers: seq<Handler>): seq<string> {
    seq(|handlers|, i requires 0 <= i < |handlers| => handlers[i].command)
  }

  datatype Check = Check(
    valid: bool, current: bool, installed: set<string>, missing: set<string>, unexpected: set<string>,
    stale: set<string>)

  // ---- the operations as they run ------------------------------------------------------------------

  method WithoutExistingMonitorHooks(entries: seq<Group>) returns (result: seq<Group>, removed: nat)
    ensures result == Strip(entries)
    ensures removed == |MonitorCommands(entries)|
  {
    result, removed := [], 0;
    for i := 0 to |entries|
      invariant result == Strip(entries[..i]) && removed == |MonitorCommands(entries[..i])|
    {
      assert Front(entries[..i + 1]) == entries[..i];
      var handlers, kept, groupRemoved := entries[i].handlers, [], 0;
      for j := 0 to |handlers|
        invariant kept == Filter(handlers[..j], ThirdParty) && groupRemoved == |Filter(handlers[..j], IsMonitor)|
      {
        assert Front(handlers[..j + 1]) == handlers[..j];
        if IsMonitor(handlers[j]) {
          groupRemoved := groupRemoved + 1;
        } else {
          kept := kept + [handlers[j]];
        }
      }
      assert handlers[..|handlers|] == handlers;
      removed := removed + groupRemoved;
      if kept != [] || groupRemoved == 0 {
        result := result + [entries[i].(handlers := kept)];
      }
    }
    assert entries[..|entries|] == entries;
  }

  /** Writes happen only when something changed or the file did not exist. */
  method InstallHooks(file: File, sourceRoot: string, toolEvents: bool) returns (after: File, changed: bool)
    ensures file.Malformed? ==> after == file && !changed
    ensures !file.Malformed? ==> after == Present(Installed(ConfigOf(file), sourceRoot, toolEvents))
    ensures changed <==> after != file
  {
    if file.Malformed? {
      return file, false;
    }
    var config := ConfigOf(file);
    var hooks := CleanEvents(HooksOf(config), AllEvents());
    hooks := AddEvents(hooks, sourceRoot, Selected(toolEvents));
    after := Present(config.(hooks := Some(hooks)));
    changed := after != file;
  }

  /** Takes the monitor's handlers out of each of the given events. */
  method CleanEvents(original: Hooks, events: set<string>) returns (hooks: Hooks)
    ensures hooks == Cleaned(original, events)
  {
    hooks := original;
    var todo := events;
    while todo != {}
      invariant todo <= events && hooks == Cleaned(original, events - todo)
    {
      var event :| event in todo;
      CleanOneMore(original, events - todo, event);
      assert events - (todo - {event}) == events - todo + {event};
      var entries, _ := WithoutExistingMonitorHooks(Get(hooks, event));
      if entries != [] {
        hooks := hooks[event := entries];
      } else {
        hooks := hooks - {event};
      }
      todo := todo - {event};
    }
  }

  method AddEvents(cleaned: Hooks, sourceRoot: string, events: seq<string>) returns (hooks: Hooks)
    requires Distinct(events, (e: string) => e)
    ensures hooks == Added(cleaned, sourceRoot, events)
  {
    hooks := cleaned;
    for i := 0 to |events|
      invariant hooks == Added(cleaned, sourceRoot, events[..i])
    {
      AddOneMore(cleaned, sourceRoot, events, i);
      hooks := hooks[events[i] := Get(hooks, events[i]) + [Entry(sourceRoot, events[i])]];
    }
    assert events[..|events|] == events;
  }

  lemma AddOneMore(cleaned: Hooks, sourceRoot: string, events: seq<string>, i: nat)
    requires i < |events| && Distinct(events, (e: string) => e)
    ensures var hooks, e := Added(cleaned, sourceRoot, events[..i]), events[i];
      Added(cleaned, sourceRoot, events[..i + 1]) == hooks[e := Get(hooks, e) + [Entry(sourceRoot, e)]]
  {
    var id := (e: string) => e;
    assert events[..i + 1] == events[..i] + [events[i]];
    assert forall j | 0 <= j < i :: id(events[j]) != id(events[i]);
    assert events[i] !in events[..i];
  }

  method UninstallHooks(file: File) returns (after: File, changed: bool)
    ensures !file.Present? ==> after == file
    ensures file.Present? ==> after == Present(Uninstalled(file.config))
    ensures changed <==> after != file
  {
    if !file.Present? {
      return file, false;
    }
    var hooks := CleanEvents(HooksOf(file.config), HooksOf(file.config).Keys);
    after := Present(file.config.(hooks := if hooks == map[] then None else Some(hooks)));
    changed := after != file;
  }

  /** Cleaning events one at a time. */
  lemma CleanOneMore(original: Hooks, done: set<string>, event: string)
    requires event !in done
    ensures var hooks := Cleaned(original, done);
      && Get(hooks, event) == Get(original, event) && (event in original ==> event in hooks)
      && Cleaned(original, done + {event}) ==
           if Strip(Get(hooks, event)) != [] then hooks[event := Strip(Get(hooks, event))] else hooks - {event}
  {
  }

  function ExpectedCommand(sourceRoot: string, event: string): string {
    HookCommand(sourceRoot, CommandName(event))
  }

  /** Exactly the selected events run the monitor, each by exactly the expected command. */
  ghost predicate IsCurrent(hooks: Hooks, sourceRoot: string, toolEvents: bool) {
    && (forall e <- Selected(toolEvents) :: MonitorCommands(Get(hooks, e)) == [ExpectedCommand(sourceRoot, e)])
    && (forall e <- hooks :: e !in Selected(toolEvents) ==> MonitorCommands(hooks[e]) == [])
  }

  /** The events among `events` that run the monitor. */
  function Running(hooks: Hooks, events: set<string>): set<string> {
    set e | e in events && e in hooks && MonitorCommands(hooks[e]) != []
  }

  /** Those among `events` that run anything but exactly the expected command. */
  function Stale(hooks: Hooks, sourceRoot: string, events: set<string>): set<string> {
    set e | e in events && MonitorCommands(Get(hooks, e)) != [ExpectedCommand(sourceRoot, e)]
  }

  method CheckHooks(file: File, sourceRoot: string, toolEvents: bool, modulePathExists: bool) returns (c: Check)
    ensures c.valid <==> !file.Malformed?
    ensures c.valid ==>
      var hooks, expected := HooksOf(ConfigOf(file)), set e | e in Selected(toolEvents);
      && c.installed == Running(hooks, hooks.Keys)
      && c.missing == expected - c.installed
      && c.unexpected == c.installed - expected
      && c.stale == Stale(hooks, sourceRoot, c.installed * expected)
    ensures c.current <==> file.Present? && modulePathExists && IsCurrent(HooksOf(file.config), sourceRoot, toolEvents)
  {
    if file.Malformed? {
      return Check(false, false, {}, {}, {}, {});
    }
    var hooks, expected := HooksOf(ConfigOf(file)), set e | e in Selected(toolEvents);
    var installed, unexpected, stale := ClassifyEvents(hooks, sourceRoot, expected);
    var missing := expected - installed;
    var current := file.Present? && missing == {} && unexpected == {} && stale == {} && modulePathExists;
    c := Check(true, current, installed, missing, unexpected, stale);
    CurrentMeans(hooks, sourceRoot, toolEvents);
  }

  method ClassifyEvents(hooks: Hooks, sourceRoot: string, expected: set<string>)
    returns (installed: set<string>, unexpected: set<string>, stale: set<string>)
    ensures installed == Running(hooks, hooks.Keys)
    ensures unexpected == installed - expected && stale == Stale(hooks, sourceRoot, installed * expected)
  {
    installed, unexpected, stale := {}, {}, {};
    var todo := hooks.Keys;
    ghost var done: set<string> := {};
    while todo != {}
      invariant todo <= hooks.Keys && done + todo == hooks.Keys
      invariant installed == Running(hooks, done)
      invariant unexpected == installed - expected
      invariant stale == Stale(hooks, sourceRoot, installed * expected)
      decreases |todo|
    {
      var event :| event in todo;
      var commands := MonitorCommands(hooks[event]);
      RunningOneMore(hooks, done, event);
      StaleOneMore(hooks, sourceRoot, installed, event, expected);
      todo, done := todo - {event}, done + {event};
      if commands == [] {
        continue;
      }
      installed := installed + {event};
      if event !in expected {
        unexpected := unexpected + {event};
      } else if commands != [ExpectedCommand(sourceRoot, event)] {
        stale := stale + {event};
      }
      assert unexpected == installed - expected;
    }
  }

  lemma RunningOneMore(hooks: Hooks, done: set<string>, event: string)
    requires event in hooks
    ensures Running(hooks, done + {event}) ==
      if MonitorCommands(hooks[event]) == [] then Running(hooks, done) else Running(hooks, done) + {event}
  {
  }

  lemma StaleOneMore(hooks: Hooks, sourceRoot: string, installed: set<string>, event: string, expected: set<string>)
    ensures var before := Stale(hooks, sourceRoot, installed * expected);
      Stale(hooks, sourceRoot, (installed + {event}) * expected) ==
        if event in expected && MonitorCommands(Get(hooks, event)) != [ExpectedCommand(sourceRoot, event)]
        then before + {event}
        else before
  {
  }

  lemma CurrentMeans(hooks: Hooks, sourceRoot: string, toolEvents: bool)
    ensures var installed, expected := Running(hooks, hooks.Keys), set e | e in Selected(toolEvents);
      expected - installed == {} && installed - expected == {}
      && Stale(hooks, sourceRoot, installed * expected) == {} <==>
      IsCurrent(hooks, sourceRoot, toolEvents)
  {
    var installed, expected := Running(hooks, hooks.Keys), set e | e in Selected(toolEvents);
    assert MonitorCommands([]) == [];
    if expected - installed == {} && installed - expected == {}
      && Stale(hooks, sourceRoot, installed * expected) == {}
    {
      forall e <- Selected(toolEvents) ensures MonitorCommands(Get(hooks, e)) == [ExpectedCommand(sourceRoot, e)] {
        assert e in expected && e !in expected - installed && e !in Stale(hooks, sourceRoot, installed * expected);
      }
      forall e <- hooks | e !in Selected(toolEvents) ensures MonitorCommands(hooks[e]) == [] {
        assert e !in installed - expected;
      }
    }
    if IsCurrent(hooks, sourceRoot, toolEvents) {
      forall e <- expected ensures e in installed && e !in Stale(hooks, sourceRoot, installed * expected) {
        assert MonitorCommands(Get(hooks, e)) == [ExpectedCommand(sourceRoot, e)];
      }
    }
  }

  // ---- the algebra -----------------------------------------------------------------------------------

  lemma {:induction false} StripConcat(a: seq<Group>, b: seq<Group>)
    ensures Strip(a + b) == Strip(a) + Strip(b)
  {
    if b == [] {
      assert a + b == a;
    } else {
      StripConcat(a, Front(b));
      assert Front(a + b) == a + Front(b) && Last(a + b) == Last(b);
    }
  }

  lemma CommandsPush(a: seq<Group>, g: Group)
    ensures MonitorCommands(a + [g]) == MonitorCommands(a) + Commands(Filter(g.handlers, IsMonitor))
  {
    assert Front(a + [g]) == a;
  }

  lemma ThirdPartyOnly(handlers: seq<Handler>)
    ensures Filter(Filter(handlers, ThirdParty), ThirdParty) == Filter(handlers, ThirdParty)
    ensures Filter(Filter(handlers, ThirdParty), IsMonitor) == []
  {
    FilterTwice(handlers, ThirdParty, ThirdParty);
    FilterMembers(handlers, ThirdParty);
    FilterNone(Filter(handlers, ThirdParty), IsMonitor);
  }

  lemma {:induction false} StripTwice(a: seq<Group>)
    ensures Strip(Strip(a)) == Strip(a)
    ensures MonitorCommands(Strip(a)) == []
  {
    if a != [] {
      StripTwice(Front(a));
      var g := Last(a);
      if GroupStays(g) {
        ThirdPartyOnly(g.handlers);
        var kept := g.(handlers := Filter(g.handlers, ThirdParty));
        assert Front(Strip(Front(a)) + [kept]) == Strip(Front(a));
      }
    }
  }

  lemma EntryIsMonitor(sourceRoot: string, event: string)
    ensures Strip([Entry(sourceRoot, event)]) == []
    ensures MonitorCommands([Entry(sourceRoot, event)]) == [ExpectedCommand(sourceRoot, event)]
  {
    assert OccursAt(ExpectedCommand(sourceRoot, event), MONITOR_MARKER, 0);
    OneMonitorHandler(Entry(sourceRoot, event), Entry(sourceRoot, event).handlers[0]);
  }

  lemma OneMonitorHandler(g: Group, h: Handler)
    requires g.handlers == [h] && IsMonitor(h)
    ensures Strip([g]) == [] && MonitorCommands([g]) == [h.command]
  {
    assert Front([g]) == [] && [] + [h] == [h];
    FilterPush([], h, ThirdParty);
    FilterPush([], h, IsMonitor);
    assert Commands([h]) == [h.command];
  }

  /** What the installer does to one event. */
  lemma InstalledEvent(c: Config, sourceRoot: string, toolEvents: bool, e: string)
    ensures var before, after := HooksOf(c), HooksOf(Installed(c, sourceRoot, toolEvents));
      Get(after, e) == (if e in AllEvents() then Strip(Get(before, e)) else Get(before, e))
                       + (if e in Selected(toolEvents) then [Entry(sourceRoot, e)] else [])
    ensures var before, after := HooksOf(c), HooksOf(Installed(c, sourceRoot, toolEvents));
      e in after <==> (if e in AllEvents() then Get(after, e) != [] else e in before)
  {
    assert e in Selected(toolEvents) ==> e in ALL_HOOK_EVENTS;
  }

  /** Cleaning forgets an earlier installation. */
  lemma CleanedAfterInstall(c: Config, sourceRoot: string, toolEvents: bool, events: set<string>)
    requires AllEvents() <= events
    ensures Cleaned(HooksOf(Installed(c, sourceRoot, toolEvents)), events) == Cleaned(HooksOf(c), events)
  {
    var before, after := HooksOf(c), HooksOf(Installed(c, sourceRoot, toolEvents));
    forall e ensures e in Cleaned(after, events) <==> e in Cleaned(before, events)
             ensures e in Cleaned(after, events) ==> Cleaned(after, events)[e] == Cleaned(before, events)[e]
    {
      InstalledEvent(c, sourceRoot, toolEvents, e);
      if e in AllEvents() {
        StripTwice(Get(before, e));
        EntryIsMonitor(sourceRoot, e);
        StripConcat(Strip(Get(before, e)), [Entry(sourceRoot, e)]);
        assert Strip(Get(after, e)) == Strip(Get(before, e));
        assert Strip([]) == [];
      }
    }
  }

  /** Installing again, from another checkout or in the other tool mode, equals installing the new way
      directly; installing the same way twice changes nothing. */
  lemma InstallReplacesInstall(c: Config, root1: string, tools1: bool, root2: string, tools2: bool)
    ensures Installed(Installed(c, root1, tools1), root2, tools2) == Installed(c, root2, tools2)
  {
    CleanedAfterInstall(c, root1, tools1, AllEvents());
  }

  /** Uninstalling after installing equals uninstalling alone. */
  lemma UninstallForgetsInstall(c: Config, sourceRoot: string, toolEvents: bool)
    ensures Uninstalled(Installed(c, sourceRoot, toolEvents)) == Uninstalled(c)
  {
    var before, after := HooksOf(c), HooksOf(Installed(c, sourceRoot, toolEvents));
    var events := before.Keys + after.Keys + AllEvents();
    CleanedAfterInstall(c, sourceRoot, toolEvents, events);
    CleanedWhatIsThere(after, events);
    CleanedWhatIsThere(before, events);
  }

  lemma CleanedWhatIsThere(hooks: Hooks, events: set<string>)
    requires hooks.Keys <= events
    ensures Cleaned(hooks, hooks.Keys) == Cleaned(hooks, events)
  {
  }

  /** A group's third-party handlers, each with the group's other members. */
  function GroupOthers(g: Group): seq<(map<string, string>, Handler)> {
    var kept := Filter(g.handlers, ThirdParty);
    seq(|kept|, i requires 0 <= i < |kept| => (g.members, kept[i]))
  }

  function OthersHandlers(entries: seq<Group>): seq<(map<string, string>, Handler)> {
    if entries == [] then [] else OthersHandlers(Front(entries)) + GroupOthers(Last(entries))
  }

  lemma OthersPush(a: seq<Group>, g: Group)
    ensures OthersHandlers(a + [g]) == OthersHandlers(a) + GroupOthers(g)
  {
    assert Front(a + [g]) == a;
  }

  lemma {:induction false} StripKeepsOthers(entries: seq<Group>)
    ensures OthersHandlers(Strip(entries)) == OthersHandlers(entries)
  {
    if entries != [] {
      StripKeepsOthers(Front(entries));
      var g := Last(entries);
      var kept := g.(handlers := Filter(g.handlers, ThirdParty));
      ThirdPartyOnly(g.handlers);
      assert GroupOthers(kept) == GroupOthers(g);
      if GroupStays(g) {
        OthersPush(Strip(Front(entries)), kept);
      }
    }
  }

  /** Every third-party handler survives an installation, with its group's other members and in
      order, under its own event; the rest of the configuration is untouched. */
  lemma OthersSurviveInstall(c: Config, sourceRoot: string, toolEvents: bool, e: string)
    ensures OthersHandlers(Get(HooksOf(Installed(c, sourceRoot, toolEvents)), e)) == OthersHandlers(Get(HooksOf(c), e))
    ensures Installed(c, sourceRoot, toolEvents).rest == c.rest
  {
    var entries := Get(HooksOf(c), e);
    InstalledEvent(c, sourceRoot, toolEvents, e);
    StripKeepsOthers(entries);
    EntryIsMonitor(sourceRoot, e);
    StripKeepsOthers([Entry(sourceRoot, e)]);
    var base := if e in AllEvents() then Strip(entries) else entries;
    OthersPush(base, Entry(sourceRoot, e));
    OthersPush([], Entry(sourceRoot, e));
    assert base + [] == base && [] + [Entry(sourceRoot, e)] == [Entry(sourceRoot, e)];
  }

  /** And an uninstallation, which leaves no monitor handler anywhere. */
  lemma OthersSurviveUninstall(c: Config, e: string)
    ensures OthersHandlers(Get(HooksOf(Uninstalled(c)), e)) == OthersHandlers(Get(HooksOf(c), e))
    ensures MonitorCommands(Get(HooksOf(Uninstalled(c)), e)) == []
    ensures Uninstalled(c).rest == c.rest
  {
    var entries := Get(HooksOf(c), e);
    StripKeepsOthers(entries);
    StripTwice(entries);
    var left := Cleaned(HooksOf(c), HooksOf(c).Keys);
    assert HooksOf(Uninstalled(c)) == left;
    assert Get(left, e) == Strip(entries);
  }

  /** Some event the installer does not manage runs the monitor. */
  ghost predicate ForeignMonitor(hooks: Hooks) {
    exists e :: e in hooks && e !in AllEvents() && MonitorCommands(hooks[e]) != []
  }

  /** After an installation, checking against the same checkout reports "current" exactly when the
      module exists, the tool mode is the installed one, and no monitor handler sits under an event
      the installer does not manage. */
  lemma CheckAfterInstall(c: Config, sourceRoot: string, installedTools: bool, checkedTools: bool)
    ensures IsCurrent(HooksOf(Installed(c, sourceRoot, installedTools)), sourceRoot, checkedTools) <==>
            installedTools == checkedTools && !ForeignMonitor(HooksOf(c))
  {
    var after := HooksOf(Installed(c, sourceRoot, installedTools));
    if installedTools != checkedTools {
      var e := TOOL_HOOK_EVENTS[0];
      assert e in TOOL_HOOK_EVENTS && e !in DEFAULT_HOOK_EVENTS && e in ALL_HOOK_EVENTS;
      EventCommands(c, sourceRoot, installedTools, e);
      InstalledEvent(c, sourceRoot, installedTools, e);
    } else if IsCurrent(after, sourceRoot, checkedTools) {
      forall e | e in HooksOf(c) && e !in AllEvents() ensures MonitorCommands(HooksOf(c)[e]) == [] {
        EventCommands(c, sourceRoot, installedTools, e);
        InstalledEvent(c, sourceRoot, installedTools, e);
        assert e in after && e !in Selected(checkedTools);
      }
    } else {
      CurrentUnlessForeign(c, sourceRoot, installedTools);
    }
  }

  lemma CurrentUnlessForeign(c: Config, sourceRoot: string, toolEvents: bool)
    ensures IsCurrent(HooksOf(Installed(c, sourceRoot, toolEvents)), sourceRoot, toolEvents)
        || ForeignMonitor(HooksOf(c))
  {
    var after := HooksOf(Installed(c, sourceRoot, toolEvents));
    if !ForeignMonitor(HooksOf(c)) {
      forall e <- Selected(toolEvents) ensures MonitorCommands(Get(after, e)) == [ExpectedCommand(sourceRoot, e)] {
        EventCommands(c, sourceRoot, toolEvents, e);
      }
      forall e <- after | e !in Selected(toolEvents) ensures MonitorCommands(after[e]) == [] {
        EventCommands(c, sourceRoot, toolEvents, e);
        InstalledEvent(c, sourceRoot, toolEvents, e);
      }
    }
  }

  lemma EventCommands(c: Config, sourceRoot: string, toolEvents: bool, e: string)
    ensures MonitorCommands(Get(HooksOf(Installed(c, sourceRoot, toolEvents)), e)) ==
      if e in Selected(toolEvents) then [ExpectedCommand(sourceRoot, e)]
      else if e in AllEvents() then []
      else MonitorCommands(Get(HooksOf(c), e))
  {
    var entries := Get(HooksOf(c), e);
    InstalledEvent(c, sourceRoot, toolEvents, e);
    StripTwice(entries);
    EntryIsMonitor(sourceRoot, e);
    CommandsPush(Strip(entries), Entry(sourceRoot, e));
    CommandsPush([], Entry(sourceRoot, e));
    assert [] + [Entry(sourceRoot, e)] == [Entry(sourceRoot, e)];
    assert e in Selected(toolEvents) ==> e in ALL_HOOK_EVENTS;
    assert Strip(entries) + [] == Strip(entries) && entries + [] == entries;
  }
}
