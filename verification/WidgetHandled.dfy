/** What each message and timer does to a widget in any reachable state, told on its fields
    (windows/CodexMonitorWidget/src/main.c). */
module WidgetHandled {
  import opened Sequences
  import opened WidgetUi
  import opened WidgetLink

  /** The frame names another backend than the authority, or than this socket did before. */
  predicate NamesAnother(u: Ui, r: FetchResult) {
    || (u.authorityId != "" && u.authorityId != r.instanceId)
    || (u.socketId != "" && r.instanceId != "" && u.socketId != r.instanceId)
  }

  /** The next generation's connection begins, with nothing known of its socket. */
  ghost predicate Reconnects(s: System, t: System, now: nat, launch: Launch) {
    && StartsOver(t, s.ui.generation + 1, launch)
    && t.ui.connectStartedTick == now && t.ui.connectedTick == 0 && t.ui.socketId == "" && t.ui.activeGeneration == 0
    && t.ui.enabled == s.ui.enabled
  }

  predicate SameConnection(u: Ui, v: Ui) {
    && v.enabled == u.enabled && v.generation == u.generation && v.connected == u.connected
    && v.connecting == u.connecting && v.activeGeneration == u.activeGeneration
    && v.connectStartedTick == u.connectStartedTick && v.connectedTick == u.connectedTick
  }

  // ---- frames ------------------------------------------------------------------------------------------------------

  lemma OldFrame(s: System, now: nat, launch: Launch, fetchLaunch: Launch)
    requires Inv(s) && s.queue != [] && s.queue[0].Frame?
    requires var r := s.queue[0].result;
      !(s.queue[0].generation == s.ui.generation && s.ui.connected && s.ui.resolved && r.ok)
    ensures var t := Next(s, Dispatch(now, launch, fetchLaunch)); t.ui == s.ui && t.fetch == s.fetch
  {
    assert s.queue[0] in s.queue;
  }

  lemma ForeignFrame(s: System, now: nat, launch: Launch, fetchLaunch: Launch)
    requires Inv(s) && s.queue != [] && s.queue[0].Frame? && s.queue[0].generation == s.ui.generation
    requires s.ui.connected && s.ui.resolved && s.queue[0].result.ok && NamesAnother(s.ui, s.queue[0].result)
    ensures var t := Next(s, Dispatch(now, launch, fetchLaunch));
      && Reconnects(s, t, now, launch) && t.ui.display == s.ui.display && t.ui.authorityId == s.ui.authorityId
      && t.fetch == s.fetch
  {
    PoppedBounds(s);
  }

  lemma GoodFrame(s: System, now: nat, launch: Launch, fetchLaunch: Launch)
    requires Inv(s) && s.queue != [] && s.queue[0].Frame? && s.queue[0].generation == s.ui.generation
    requires s.ui.connected && s.ui.resolved && s.queue[0].result.ok && !NamesAnother(s.ui, s.queue[0].result)
    ensures var t, r := Next(s, Dispatch(now, launch, fetchLaunch)), s.queue[0].result;
      && t.ui.display == ApplyResult(s.ui.display, r.sessions) && t.ui.source == r.instanceId
      && t.ui.socketId == (if r.instanceId != "" then r.instanceId else s.ui.socketId)
      && t.ui.authorityId == s.ui.authorityId && t.ui.resolved && SameConnection(s.ui, t.ui) && t.fetch == s.fetch
  {
  }

  /** A frame of the current, announced socket is shown and its instance id adopted, unless it names another backend,
      which starts a new connection; any other frame changes nothing. */
  lemma FrameIsHandled(enabled: bool, steps: seq<Step>, now: nat, launch: Launch, fetchLaunch: Launch)
    ensures var s, t := Run(enabled, steps), Run(enabled, steps + [Dispatch(now, launch, fetchLaunch)]);
      s.queue != [] && s.queue[0].Frame? ==>
        var u, r := s.ui, s.queue[0].result;
        t.fetch == s.fetch && t.ui.authorityId == u.authorityId &&
        if !(s.queue[0].generation == u.generation && u.connected && u.resolved && r.ok) then t.ui == u
        else if NamesAnother(u, r) then Reconnects(s, t, now, launch) && t.ui.display == u.display
        else
          && t.ui.display == ApplyResult(u.display, r.sessions) && t.ui.source == r.instanceId
          && t.ui.socketId == (if r.instanceId != "" then r.instanceId else u.socketId)
          && t.ui.resolved && SameConnection(u, t.ui)
  {
    var s, step := Run(enabled, steps), Dispatch(now, launch, fetchLaunch);
    EveryRunKeeps(enabled, steps);
    RunsOn(enabled, steps, step);
    if s.queue != [] && s.queue[0].Frame? {
      var r := s.queue[0].result;
      if !(s.queue[0].generation == s.ui.generation && s.ui.connected && s.ui.resolved && r.ok) {
        OldFrame(s, now, launch, fetchLaunch);
      } else if NamesAnother(s.ui, r) {
        ForeignFrame(s, now, launch, fetchLaunch);
      } else {
        GoodFrame(s, now, launch, fetchLaunch);
      }
    }
  }

  // ---- fetch results --------------------------------------------------------------------------------------

  /** What a fetch result leaves of the identity and the display. */
  predicate Answered(u: Ui, v: Ui, r: FetchResult) {
    if !r.ok then
      && v.display == Display(u.display.sessions, 0) && v.source == u.source
      && v.resolved == u.resolved && v.authorityId == u.authorityId
    else
      && v.resolved && v.authorityId == (if r.instanceId != "" then r.instanceId else u.authorityId)
      && (if r.instanceId == "" && u.authorityId != "" then v.display == u.display && v.source == u.source
          else v.display == ApplyResult(u.display, r.sessions) && v.source == r.instanceId)
  }

  /** The result names another backend than the connected socket did. */
  predicate ContradictsSocket(u: Ui, r: FetchResult) {
    r.ok && u.connected && u.socketId != "" && r.instanceId != "" && u.socketId != r.instanceId
  }

  lemma FetchKeepsSocket(s: System, now: nat, launch: Launch, fetchLaunch: Launch)
    requires Inv(s) && s.queue != [] && s.queue[0].FetchResultPosted? && !ContradictsSocket(s.ui, s.queue[0].result)
    ensures var t := Next(s, Dispatch(now, launch, fetchLaunch));
      && Answered(s.ui, t.ui, s.queue[0].result) && SameConnection(s.ui, t.ui) && t.ui.socketId == s.ui.socketId
      && t.fetch == s.fetch.(fetching := false)
  {
    HeadChecks(s);
  }

  lemma FetchReplacesSocket(s: System, now: nat, launch: Launch, fetchLaunch: Launch)
    requires Inv(s) && s.queue != [] && s.queue[0].FetchResultPosted? && ContradictsSocket(s.ui, s.queue[0].result)
    ensures var t := Next(s, Dispatch(now, launch, fetchLaunch));
      && Answered(s.ui, t.ui, s.queue[0].result) && Reconnects(s, t, now, launch)
      && t.fetch == s.fetch.(fetching := false)
  {
    HeadChecks(s);
    PoppedBounds(s);
  }

  /** A fetch result ends the fetch. A failed one only forgets the count of empty results; a good one settles the
      authority and is shown, unless it lacks the id an authority requires; and it replaces a socket that named
      another backend. */
  lemma FetchIsHandled(enabled: bool, steps: seq<Step>, now: nat, launch: Launch, fetchLaunch: Launch)
    ensures var s, t := Run(enabled, steps), Run(enabled, steps + [Dispatch(now, launch, fetchLaunch)]);
      s.queue != [] && s.queue[0].FetchResultPosted? ==>
        && t.fetch == s.fetch.(fetching := false) && Answered(s.ui, t.ui, s.queue[0].result)
        && if ContradictsSocket(s.ui, s.queue[0].result) then Reconnects(s, t, now, launch)
           else SameConnection(s.ui, t.ui) && t.ui.socketId == s.ui.socketId
  {
    var s := Run(enabled, steps);
    EveryRunKeeps(enabled, steps);
    RunsOn(enabled, steps, Dispatch(now, launch, fetchLaunch));
    if s.queue != [] && s.queue[0].FetchResultPosted? {
      if ContradictsSocket(s.ui, s.queue[0].result) {
        FetchReplacesSocket(s, now, launch, fetchLaunch);
      } else {
        FetchKeepsSocket(s, now, launch, fetchLaunch);
      }
    }
  }

  // ---- connecting, closing, fetching ----------------------------------------------------------------------

  /** A fetch is started unless one is under way; what the launch achieves decides the rest. */
  predicate FetchBegins(f: Fetch, g: Fetch, launch: Launch) {
    if f.fetching || launch.NotParsed? then g == f
    else
      && g.generation == f.generation + 1 && g.fetching == launch.Launched?
      && g.thread == (if launch.Launched? then Some(f.generation + 1) else f.thread)
  }

  /** The announcement of the current generation, and no other, connects the widget and starts a fetch; its closing
      message disconnects it. */
  lemma ConnectionIsHandled(enabled: bool, steps: seq<Step>, now: nat, launch: Launch, fetchLaunch: Launch)
    ensures var s, t := Run(enabled, steps), Run(enabled, steps + [Dispatch(now, launch, fetchLaunch)]);
      s.queue != [] && (s.queue[0].Connected? || s.queue[0].Closed?) ==>
        var u, v, opens := s.ui, t.ui, s.queue[0].Connected?;
        if s.queue[0].generation != u.generation then v == u && t.fetch == s.fetch
        else
          && v.connected == opens && !v.connecting && v.activeGeneration == (if opens then u.generation else 0)
          && v.connectedTick == (if opens then now else 0) && v.socketId == ""
          && v.enabled == u.enabled && v.generation == u.generation && v.connectStartedTick == u.connectStartedTick
          && v.authorityId == u.authorityId && v.resolved == u.resolved && v.display == u.display
          && if opens then FetchBegins(s.fetch, t.fetch, fetchLaunch) else t.fetch == s.fetch
  {
    RunsOn(enabled, steps, Dispatch(now, launch, fetchLaunch));
  }

  /** The timer reconnects an idle widget. */
  lemma IdleTimerReconnects(enabled: bool, steps: seq<Step>, now: nat, launch: Launch)
    ensures var s, t := Run(enabled, steps), Run(enabled, steps + [WebsocketTimer(now, launch)]);
      s.ui.enabled && !s.ui.connected && !s.ui.connecting ==>
        Reconnects(s, t, now, launch) && t.ui.display == s.ui.display
  {
    EveryRunKeeps(enabled, steps);
    RunsOn(enabled, steps, WebsocketTimer(now, launch));
    IdleTimer(Run(enabled, steps), now, launch);
  }

  lemma IdleTimer(s: System, now: nat, launch: Launch)
    requires Inv(s)
    ensures s.ui.enabled && !s.ui.connected && !s.ui.connecting ==>
      var t := Next(s, WebsocketTimer(now, launch)); Reconnects(s, t, now, launch) && t.ui.display == s.ui.display
  {
  }

  /** The refresh timer starts a fetch unless one is under way, and touches nothing else. */
  lemma RefreshFetches(enabled: bool, steps: seq<Step>, fetchLaunch: Launch)
    ensures var s, t := Run(enabled, steps), Run(enabled, steps + [RefreshTimer(fetchLaunch)]);
      FetchBegins(s.fetch, t.fetch, fetchLaunch) && t.ui == s.ui && t.queue == s.queue
  {
    RunsOn(enabled, steps, RefreshTimer(fetchLaunch));
  }
}
