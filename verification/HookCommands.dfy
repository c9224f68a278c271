/** What the installer writes and what it recognises, told on the text of the commands
    (src/codex_cli_monitor/install_hooks.py). */
module HookCommands {
  import opened Sequences
  import opened HookInstaller

  // ---- the commands the installer takes for its own --------------------------------------------------------------

  /** The text holds the part somewhere. */
  ghost predicate Mentions(text: string, part: string) {
    exists i, j | 0 <= i <= j <= |text| :: text[i..j] == part
  }

  /** The command sets the monitor's marker, runs its module, or runs its launcher. */
  ghost predicate RunsMonitor(command: string) {
    || Mentions(command, "CODEX_CLI_MONITOR_HOOK=1")
    || Mentions(command, "codex_cli_monitor.hooks")
    || Mentions(command, "codex-monitor-hook")
  }

  lemma ContainsIs(text: string, part: string)
    ensures Contains(text, part) <==> Mentions(text, part)
  {
    if Contains(text, part) {
      var i :| 0 <= i <= |text| - |part| && OccursAt(text, part, i);
      assert text[i..i + |part|] == part;
    }
    if i, j :| 0 <= i <= j <= |text| && text[i..j] == part {
      assert OccursAt(text, part, i);
    }
  }

  lemma MonitorIs(h: Handler)
    ensures IsMonitor(h) <==> RunsMonitor(h.command)
  {
    ContainsIs(h.command, "CODEX_CLI_MONITOR_HOOK=1");
    ContainsIs(h.command, "codex_cli_monitor.hooks");
    ContainsIs(h.command, "codex-monitor-hook");
  }

  /** Taking the monitor out of an event leaves exactly the handlers that do not run it: it keeps h if and only if a
      group holds it and its command does not run the monitor. */
  lemma {:induction false} ExactlyOthersStay(entries: seq<Group>, h: Handler)
    ensures (exists g :: g in Strip(entries) && h in g.handlers)
            <==> (exists g :: g in entries && h in g.handlers) && !RunsMonitor(h.command)
  {
    MonitorIs(h);
    if entries != [] {
      var front, g := Front(entries), Last(entries);
      ExactlyOthersStay(front, h);
      InFrontOrLast(entries, g);
      FilterMembers(g.handlers, ThirdParty);
      HeldBy(front, g, h);
      assert entries == front + [g];
      if GroupStays(g) {
        HeldBy(Strip(front), g.(handlers := Filter(g.handlers, ThirdParty)), h);
      }
    }
  }

  lemma HeldBy(front: seq<Group>, g: Group, h: Handler)
    ensures (exists e :: e in front + [g] && h in e.handlers)
            <==> (exists e :: e in front && h in e.handlers) || h in g.handlers
  {
    if e :| e in front && h in e.handlers {
      assert e in front + [g];
    }
    if h in g.handlers {
      assert g in front + [g];
    }
  }

  // ---- the names of the events ------------------------------------------------------------------------------------

  predicate IsUpper(c: char) { 'A' <= c <= 'Z' }

  function Lower(c: char): char {
    if IsUpper(c) then ((c as int) + 32) as char else c
  }

  /** Snake case: every capital becomes a small letter, with an underscore in front unless it comes first. */
  function SnakeCase(name: string): string {
    if name == "" then ""
    else
      SnakeCase(Front(name))
      + if IsUpper(Last(name)) && |name| > 1 then ['_', Lower(Last(name))] else [Lower(Last(name))]
  }

  /** A word of small letters behind its capital. */
  lemma {:induction false} SnakeWord(front: string, cap: char, word: string)
    requires IsUpper(cap) && forall c <- word :: !IsUpper(c)
    ensures SnakeCase(front + [cap] + word) ==
      SnakeCase(front) + (if front == "" then [] else ['_']) + [Lower(cap)] + word
  {
    var text := front + [cap] + word;
    if word == "" {
      assert Front(text) == front && Last(text) == cap;
    } else {
      assert Last(word) in word && forall c <- Front(word) :: c in word;
      SnakeWord(front, cap, Front(word));
      assert Front(text) == front + [cap] + Front(word) && Last(text) == Last(word);
      assert word == Front(word) + [Last(word)];
    }
  }

  lemma TwoWords(a: char, word: string, b: char, other: string)
    requires IsUpper(a) && IsUpper(b) && (forall c <- word :: !IsUpper(c)) && forall c <- other :: !IsUpper(c)
    ensures SnakeCase([a] + word + [b] + other) == [Lower(a)] + word + ['_', Lower(b)] + other
  {
    SnakeWord("", a, word);
    assert "" + [a] + word == [a] + word;
    SnakeWord([a] + word, b, other);
  }

  lemma ThreeWords(a: char, word: string, b: char, other: string, d: char, last: string)
    requires IsUpper(a) && IsUpper(b) && IsUpper(d)
    requires (forall c <- word :: !IsUpper(c)) && (forall c <- other :: !IsUpper(c)) && forall c <- last :: !IsUpper(c)
    ensures SnakeCase([a] + word + [b] + other + [d] + last)
            == [Lower(a)] + word + ['_', Lower(b)] + other + ['_', Lower(d)] + last
  {
    TwoWords(a, word, b, other);
    SnakeWord([a] + word + [b] + other, d, last);
  }

  lemma StopName()
    ensures SnakeCase("Stop") == "stop"
  {
    SnakeWord("", 'S', "top");
    assert "" + ['S'] + "top" == "Stop";
    assert SnakeCase("") + [] + [Lower('S')] + "top" == "stop";
  }

  lemma SessionStartName()
    ensures SnakeCase("SessionStart") == "session_start"
  {
    TwoWords('S', "ession", 'S', "tart");
    assert ['S'] + "ession" + ['S'] + "tart" == "SessionStart";
    assert [Lower('S')] + "ession" + ['_', Lower('S')] + "tart" == "session_start";
  }

  lemma PermissionRequestName()
    ensures SnakeCase("PermissionRequest") == "permission_request"
  {
    TwoWords('P', "ermission", 'R', "equest");
    assert ['P'] + "ermission" + ['R'] + "equest" == "PermissionRequest";
    assert [Lower('P')] + "ermission" + ['_', Lower('R')] + "equest" == "permission_request";
  }

  lemma UserPromptSubmitName()
    ensures SnakeCase("UserPromptSubmit") == "user_prompt_submit"
  {
    ThreeWords('U', "ser", 'P', "rompt", 'S', "ubmit");
    assert ['U'] + "ser" + ['P'] + "rompt" + ['S'] + "ubmit" == "UserPromptSubmit";
    assert [Lower('U')] + "ser" + ['_', Lower('P')] + "rompt" + ['_', Lower('S')] + "ubmit" == "user_prompt_submit";
  }

  lemma PreToolUseName()
    ensures SnakeCase("PreToolUse") == "pre_tool_use"
  {
    ThreeWords('P', "re", 'T', "ool", 'U', "se");
    assert ['P'] + "re" + ['T'] + "ool" + ['U'] + "se" == "PreToolUse";
    assert [Lower('P')] + "re" + ['_', Lower('T')] + "ool" + ['_', Lower('U')] + "se" == "pre_tool_use";
  }

  lemma PostToolUseName()
    ensures SnakeCase("PostToolUse") == "post_tool_use"
  {
    ThreeWords('P', "ost", 'T', "ool", 'U', "se");
    assert ['P'] + "ost" + ['T'] + "ool" + ['U'] + "se" == "PostToolUse";
    assert [Lower('P')] + "ost" + ['_', Lower('T')] + "ool" + ['_', Lower('U')] + "se" == "post_tool_use";
  }

  lemma KnownEvent(event: string)
    requires event in ALL_HOOK_EVENTS
    ensures event == "UserPromptSubmit" || event == "PermissionRequest" || event == "Stop" || event == "SessionStart"
      || event == "PreToolUse" || event == "PostToolUse"
  {
  }

  /** The command line names every event in snake case. */
  lemma NamesAreSnakeCase(event: string)
    requires event in ALL_HOOK_EVENTS
    ensures CommandName(event) == SnakeCase(event)
  {
    KnownEvent(event);
    if event == "UserPromptSubmit" {
      UserPromptSubmitName();
    } else if event == "PermissionRequest" {
      PermissionRequestName();
    } else if event == "Stop" {
      StopName();
    } else if event == "SessionStart" {
      SessionStartName();
    } else if event == "PreToolUse" {
      PreToolUseName();
    } else {
      PostToolUseName();
    }
  }

  // ---- what a shell makes of the quoted path --------------------------------------------------------------

  datatype Quoting = Bare | Single | Double

  /** The word a shell reads, and how it is quoted at the end; text without backslashes and expansions. */
  function Shell(text: string): (string, Quoting) {
    if text == "" then ("", Bare)
    else
      var (word, quoting) := Shell(Front(text));
      var c := Last(text);
      if quoting == Bare && c == '\'' then (word, Single)
      else if quoting == Bare && c == '"' then (word, Double)
      else if (quoting == Single && c == '\'') || (quoting == Double && c == '"') then (word, Bare)
      else (word + [c], quoting)
  }

  lemma ShellPush(text: string, c: char)
    ensures var (word, quoting) := Shell(text);
      Shell(text + [c]) ==
        if quoting == Bare && c == '\'' then (word, Single)
        else if quoting == Bare && c == '"' then (word, Double)
        else if (quoting == Single && c == '\'') || (quoting == Double && c == '"') then (word, Bare)
        else (word + [c], quoting)
  {
    assert Front(text + [c]) == text;
  }

  lemma QuotedQuote(text: string, word: string)
    requires Shell(text) == (word, Single)
    ensures Shell(text + "'\"'\"'") == (word + ['\''], Single)
  {
    var t1 := text + ['\''];
    var t2 := t1 + ['"'];
    var t3 := t2 + ['\''];
    var t4 := t3 + ['"'];
    ShellPush(text, '\'');
    ShellPush(t1, '"');
    ShellPush(t2, '\'');
    ShellPush(t3, '"');
    ShellPush(t4, '\'');
    assert text + "'\"'\"'" == t4 + ['\''];
  }

  lemma {:induction false} QuotedPrefix(value: string)
    ensures Shell("'" + EscapeQuotes(value)) == (value, Single)
  {
    if value == "" {
      ShellPush("", '\'');
      assert "'" + "" == "" + ['\''];
    } else {
      var front, c := Front(value), Last(value);
      var text := "'" + EscapeQuotes(front);
      QuotedPrefix(front);
      assert value == front + [c];
      if c == '\'' {
        QuotedQuote(text, front);
        assert "'" + EscapeQuotes(value) == text + "'\"'\"'";
      } else {
        ShellPush(text, c);
        assert "'" + EscapeQuotes(value) == text + [c];
      }
    }
  }

  /** A shell reads the quoted value back as the value, whatever quotes are in it. */
  lemma ShellReadsItBack(value: string)
    ensures Shell(ShellQuote(value)) == (value, Bare)
  {
    QuotedPrefix(value);
    ShellPush("'" + EscapeQuotes(value), '\'');
    assert ShellQuote(value) == "'" + EscapeQuotes(value) + ['\''];
  }

  // ---- what an installation adds --------------------------------------------------------------------------

  /** Behind what was left of the event, an installation adds one group, with a matcher for a tool event, whose one
      handler names the event in snake case. */
  lemma InstallAdds(c: Config, sourceRoot: string, toolEvents: bool, e: string)
    requires e in Selected(toolEvents)
    ensures var left := Strip(Get(HooksOf(c), e));
      var command := "CODEX_CLI_MONITOR_HOOK=1 PYTHONPATH=" + ShellQuote(sourceRoot)
        + " python3 -S -m codex_cli_monitor.hooks " + ShellQuote(SnakeCase(e)) + " --ppid \"$PPID\" || true";
      var matcher := if e in ["PreToolUse", "PostToolUse"] then map["matcher" := "*"] else map[];
      Get(HooksOf(Installed(c, sourceRoot, toolEvents)), e)
      == left + [Group(matcher, [Handler(command, map["type" := "command", "timeout" := "5"])])]
  {
    InstalledEvent(c, sourceRoot, toolEvents, e);
    SelectedAreKnown(toolEvents, e);
    NamesAreSnakeCase(e);
    CommandText(sourceRoot, CommandName(e));
  }

  lemma SelectedAreKnown(toolEvents: bool, e: string)
    requires e in Selected(toolEvents)
    ensures e in ALL_HOOK_EVENTS && e !in LEGACY_HOOK_EVENTS && e in AllEvents()
  {
    assert DEFAULT_HOOK_EVENTS[0][0] == 'U' && DEFAULT_HOOK_EVENTS[1][0] == 'P' && DEFAULT_HOOK_EVENTS[2][1] == 't';
    assert LEGACY_HOOK_EVENTS[0][0] == 'S' && LEGACY_HOOK_EVENTS[0][1] == 'e';
  }

  lemma RegroupSix(m: string, p: string, a: string, x: string, b: string, y: string)
    ensures m + (p + a + x + b + y) == m + p + a + x + b + y
  {
    Regroup(m, p + a + x + b, y);
    Regroup(m, p + a + x, b);
    Regroup(m, p + a, x);
    Regroup(m, p, a);
  }

  lemma CommandText(sourceRoot: string, name: string)
    ensures HookCommand(sourceRoot, name) ==
      "CODEX_CLI_MONITOR_HOOK=1 PYTHONPATH=" + ShellQuote(sourceRoot)
      + " python3 -S -m codex_cli_monitor.hooks " + ShellQuote(name) + " --ppid \"$PPID\" || true"
  {
    RegroupSix("CODEX_CLI_MONITOR_HOOK=1", " PYTHONPATH=", ShellQuote(sourceRoot),
      " python3 -S -m codex_cli_monitor.hooks ", ShellQuote(name), " --ppid \"$PPID\" || true");
    MarkerAndPath();
  }

  lemma MarkerAndPath()
    ensures "CODEX_CLI_MONITOR_HOOK=1" + " PYTHONPATH=" == "CODEX_CLI_MONITOR_HOOK=1 PYTHONPATH="
  {
  }

  // ---- where the monitor runs -----------------------------------------------------------------------------

  function HandlersOf(entries: seq<Group>): seq<Handler> {
    if entries == [] then [] else HandlersOf(Front(entries)) + Last(entries).handlers
  }

  /** No handler runs the monitor. */
  ghost predicate NoneRuns(handlers: seq<Handler>) { forall h <- handlers :: !RunsMonitor(h.command) }

  /** Exactly one handler runs the monitor, by this command. */
  ghost predicate OneRuns(handlers: seq<Handler>, command: string) {
    exists i | 0 <= i < |handlers| ::
      && handlers[i].command == command && RunsMonitor(command)
      && forall j | 0 <= j < |handlers| && j != i :: !RunsMonitor(handlers[j].command)
  }

  lemma OneRunsPush(front: seq<Handler>, h: Handler, command: string)
    ensures OneRuns(front + [h], command) <==>
      if RunsMonitor(h.command) then h.command == command && NoneRuns(front) else OneRuns(front, command)
  {
    var all := front + [h];
    assert all[|front|] == h;
    if RunsMonitor(h.command) && h.command == command && NoneRuns(front) {
      assert all[|front|].command == command;
    }
    if !RunsMonitor(h.command) && OneRuns(front, command) {
      var i :| 0 <= i < |front| && front[i].command == command && RunsMonitor(command)
        && forall j | 0 <= j < |front| && j != i :: !RunsMonitor(front[j].command);
      assert all[i].command == command;
    }
    if OneRuns(all, command) {
      var i :| 0 <= i < |all| && all[i].command == command && RunsMonitor(command)
        && forall j | 0 <= j < |all| && j != i :: !RunsMonitor(all[j].command);
      assert forall j | 0 <= j < |front| :: all[j] == front[j];
      assert i < |front| ==> front[i].command == command;
    }
  }

  lemma OnlyCommand(front: seq<Handler>, h: Handler, command: string)
    ensures Commands(front + [h]) != []
    ensures Commands(front + [h]) == [command] <==> Commands(front) == [] && h.command == command
  {
    var all := Commands(front + [h]);
    assert |all| == |front| + 1 && all[|front|] == h.command;
    assert front == [] && h.command == command ==> all == [command];
  }

  lemma {:induction false} MonitorHandlers(handlers: seq<Handler>, command: string)
    ensures Commands(Filter(handlers, IsMonitor)) == [] <==> NoneRuns(handlers)
    ensures Commands(Filter(handlers, IsMonitor)) == [command] <==> OneRuns(handlers, command)
  {
    if handlers != [] {
      var front, h := Front(handlers), Last(handlers);
      assert handlers == front + [h];
      MonitorHandlers(front, command);
      MonitorIs(h);
      OneRunsPush(front, h, command);
      if IsMonitor(h) {
        OnlyCommand(Filter(front, IsMonitor), h, command);
      }
    }
  }

  lemma {:induction false} AllCommands(entries: seq<Group>)
    ensures MonitorCommands(entries) == Commands(Filter(HandlersOf(entries), IsMonitor))
  {
    if entries != [] {
      AllCommands(Front(entries));
      FilterConcat(HandlersOf(Front(entries)), Last(entries).handlers, IsMonitor);
    }
  }

  lemma EntryRuns(entries: seq<Group>, command: string)
    ensures MonitorCommands(entries) == [] <==> NoneRuns(HandlersOf(entries))
    ensures MonitorCommands(entries) == [command] <==> OneRuns(HandlersOf(entries), command)
  {
    AllCommands(entries);
    MonitorHandlers(HandlersOf(entries), command);
  }

  /** The installer's own events. */
  predicate Chosen(toolEvents: bool, e: string) {
    e in ["UserPromptSubmit", "PermissionRequest", "Stop"] || (toolEvents && e in ["PreToolUse", "PostToolUse"])
  }

  lemma ChosenAreSelected(toolEvents: bool, e: string)
    ensures e in Selected(toolEvents) <==> Chosen(toolEvents, e)
  {
  }

  /** The hooks are current if and only if under each chosen event exactly one handler runs the monitor, by the
      expected command, and under no other event any does. */
  lemma CurrentIff(hooks: Hooks, sourceRoot: string, toolEvents: bool)
    ensures IsCurrent(hooks, sourceRoot, toolEvents) <==>
      && (forall e | Chosen(toolEvents, e) ::
            OneRuns(HandlersOf(Get(hooks, e)), HookCommand(sourceRoot, SnakeCase(e))))
      && (forall e | e in hooks && !Chosen(toolEvents, e) :: NoneRuns(HandlersOf(hooks[e])))
  {
    forall e
      ensures e in Selected(toolEvents) <==> Chosen(toolEvents, e)
      ensures Chosen(toolEvents, e) ==> ExpectedCommand(sourceRoot, e) == HookCommand(sourceRoot, SnakeCase(e))
      ensures MonitorCommands(Get(hooks, e)) == [] <==> NoneRuns(HandlersOf(Get(hooks, e)))
      ensures MonitorCommands(Get(hooks, e)) == [HookCommand(sourceRoot, SnakeCase(e))] <==>
              OneRuns(HandlersOf(Get(hooks, e)), HookCommand(sourceRoot, SnakeCase(e)))
    {
      ChosenAreSelected(toolEvents, e);
      EntryRuns(Get(hooks, e), HookCommand(sourceRoot, SnakeCase(e)));
      if Chosen(toolEvents, e) {
        SelectedAreKnown(toolEvents, e);
        NamesAreSnakeCase(e);
      }
    }
  }

  /** After an installation the monitor runs once under each chosen event, under none of the other events the
      installer knows, and everywhere else as before. */
  lemma RunsAfterInstall(c: Config, sourceRoot: string, toolEvents: bool, e: string)
    ensures var before, after := HandlersOf(Get(HooksOf(c), e)),
                                 HandlersOf(Get(HooksOf(Installed(c, sourceRoot, toolEvents)), e));
      if Chosen(toolEvents, e) then OneRuns(after, HookCommand(sourceRoot, SnakeCase(e)))
      else if e in ["SessionStart", "PreToolUse", "PostToolUse"] then NoneRuns(after)
      else NoneRuns(before) <==> NoneRuns(after)
  {
    EventCommands(c, sourceRoot, toolEvents, e);
    ChosenAreSelected(toolEvents, e);
    EntryRuns(Get(HooksOf(c), e), HookCommand(sourceRoot, SnakeCase(e)));
    EntryRuns(Get(HooksOf(Installed(c, sourceRoot, toolEvents)), e), HookCommand(sourceRoot, SnakeCase(e)));
    if Chosen(toolEvents, e) {
      SelectedAreKnown(toolEvents, e);
      NamesAreSnakeCase(e);
    } else {
      KnownIff(e);
    }
  }

  lemma KnownIff(e: string)
    ensures e in AllEvents() <==>
      e in ["UserPromptSubmit", "PermissionRequest", "Stop", "SessionStart", "PreToolUse", "PostToolUse"]
  {
  }
}
