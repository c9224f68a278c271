/** The widget's window thread: what the handlers of posted messages do to its connection, identity and
    session fields (windows/CodexMonitorWidget/src/main.c). */
module WidgetUi {
  import opened Sequences

  const EMPTY_RESULT_CONFIRMATIONS := 6
  const WEBSOCKET_MAX_AGE_MS := 60000
  const WEBSOCKET_CONNECT_TIMEOUT_MS := 30000

  datatype Session = Session(pid: int, status: string, directory: string, startedAt: int, serverId: string)

  /** A parsed response, from either transport. */
  datatype FetchResult = FetchResult(ok: bool, instanceId: string, sessions: seq<Session>)

  datatype Display = Display(sessions: seq<Session>, emptyCount: nat)

  /** `source` is not a field of the program: it is the instance id of the last result applied to the display. */
  datatype Ui = Ui(
    enabled: bool, generation: nat, connected: bool, connecting: bool, activeGeneration: nat,
    connectStartedTick: nat, connectedTick: nat,
    socketId: string, authorityId: string, resolved: bool,
    display: Display, source: string)

  /** How far `websocket_connect_async` gets: not past allocating and parsing, not past creating the
      thread, or all the way. */
  datatype Launch = NotParsed | NoThread | Launched

  // ---- specification of the handlers -----------------------------------------------------------------------

  function ApplyResult(d: Display, sessions: seq<Session>): Display {
    if sessions != [] || d.sessions == [] then Display(sessions, 0)
    else if d.emptyCount + 1 >= EMPTY_RESULT_CONFIRMATIONS then Display([], 0)
    else d.(emptyCount := d.emptyCount + 1)
  }

  function Show(u: Ui, r: FetchResult): Ui {
    u.(display := ApplyResult(u.display, r.sessions), source := r.instanceId)
  }

  function Start(u: Ui, now: nat, launch: Launch): Ui {
    if !u.enabled then u
    else u.(generation := u.generation + 1, connected := false, connecting := launch == Launched,
            activeGeneration := 0, connectStartedTick := now, connectedTick := 0, socketId := "")
  }

  /** The `fetching` flag, the last fetch's generation, and the generation the running fetch thread
      was given, if there is such a thread. */
  datatype Fetch = Fetch(fetching: bool, generation: nat, thread: Option<nat>)

  function FetchStarted(f: Fetch, launch: Launch): Fetch {
    if f.fetching || launch == NotParsed then f
    else if launch == NoThread then f.(generation := f.generation + 1)
    else Fetch(true, f.generation + 1, Some(f.generation + 1))
  }

  function OnConnected(u: Ui, generation: nat, now: nat): Ui {
    if generation != u.generation then u
    else u.(connected := true, connecting := false, activeGeneration := generation, connectedTick := now,
      socketId := "")
  }

  function OnClosed(u: Ui, generation: nat): Ui {
    if generation != u.generation then u
    else u.(connected := false, connecting := false, activeGeneration := 0, connectedTick := 0, socketId := "")
  }

  predicate FromLiveSocket(u: Ui, generation: nat) {
    generation == u.generation && generation == u.activeGeneration
  }

  /** The frame names another backend than the authority, or than the socket did before. */
  predicate Mismatched(u: Ui, r: FetchResult) {
    || (u.authorityId != "" && r.instanceId != u.authorityId)
    || (r.instanceId != "" && u.socketId != "" && u.socketId != r.instanceId)
  }

  predicate FrameRestarts(u: Ui, generation: nat, r: FetchResult) {
    FromLiveSocket(u, generation) && r.ok && u.resolved && Mismatched(u, r)
  }

  predicate FrameShown(u: Ui, generation: nat, r: FetchResult) {
    FromLiveSocket(u, generation) && r.ok && u.resolved && !Mismatched(u, r)
  }

  function OnFrame(u: Ui, generation: nat, r: FetchResult, now: nat, launch: Launch): Ui {
    if FrameRestarts(u, generation, r) then Start(u, now, launch)
    else if FrameShown(u, generation, r) then
      Show(u.(socketId := if r.instanceId != "" then r.instanceId else u.socketId), r)
    else u
  }

  function Authority(u: Ui, r: FetchResult): string {
    if r.instanceId != "" then r.instanceId else u.authorityId
  }

  predicate FetchRestarts(u: Ui, r: FetchResult) {
    r.ok && r.instanceId != "" && u.connected && u.socketId != "" && u.socketId != r.instanceId
  }

  /** Once an authority is known, a response without an instance id is not shown. */
  predicate FetchShown(u: Ui, r: FetchResult) {
    r.ok && (r.instanceId != "" || u.authorityId == "")
  }

  function OnFetchDone(u: Ui, current: bool, r: FetchResult, now: nat, launch: Launch): Ui {
    if !current then u
    else if !r.ok then u.(display := u.display.(emptyCount := 0))
    else
      var u1 := u.(resolved := true, authorityId := Authority(u, r));
      var u2 := if FetchRestarts(u, r) then Start(u1, now, launch) else u1;
      if FetchShown(u, r) then Show(u2, r) else u2
  }

  predicate TimerRestarts(u: Ui, now: nat) {
    || (u.connected && u.connectedTick != 0 && now - u.connectedTick >= WEBSOCKET_MAX_AGE_MS)
    || (u.connecting && u.connectStartedTick != 0 && now - u.connectStartedTick >= WEBSOCKET_CONNECT_TIMEOUT_MS)
    || (!u.connected && !u.connecting)
  }

  function OnTimer(u: Ui, now: nat, launch: Launch): Ui {
    if TimerRestarts(u, now) then Start(u, now, launch) else u
  }

  // ---- the handlers -------------------------------------------------------------------------------------------

  /** `g_app`, as far as the connection is concerned. */
  class Widget {
    var websocketEnabled: bool
    var websocketGeneration: nat
    var websocketConnected: bool
    var websocketConnecting: bool
    var activeWebsocketGeneration: nat
    var websocketConnectStartedTick: nat
    var websocketConnectedTick: nat
    var websocketInstanceId: string
    var authoritativeInstanceId: string
    var httpIdentityResolved: bool
    var sessions: seq<Session>
    var emptySuccessCount: nat
    var fetching: bool
    var fetchGeneration: nat
    ghost var source: string

    ghost function State(): Ui
      reads this
    {
      Ui(websocketEnabled, websocketGeneration, websocketConnected, websocketConnecting, activeWebsocketGeneration,
         websocketConnectStartedTick, websocketConnectedTick,
         websocketInstanceId, authoritativeInstanceId, httpIdentityResolved,
         Display(sessions, emptySuccessCount), source)
    }

    method ApplySuccessfulFetchResult(result: FetchResult)
      modifies `sessions, `emptySuccessCount, `source
      ensures State() == Show(old(State()), result)
    {
      if |result.sessions| > 0 || |sessions| == 0 {
        if result.sessions != sessions {
          sessions := result.sessions;
        }
        emptySuccessCount := 0;
      } else {
        emptySuccessCount := emptySuccessCount + 1;
        if emptySuccessCount >= EMPTY_RESULT_CONFIRMATIONS {
          sessions := [];
          emptySuccessCount := 0;
        }
      }
      source := result.instanceId;
    }

    method StartWebsocketConnection(now: nat, launch: Launch)
      modifies this
      ensures State() == Start(old(State()), now, launch)
      ensures fetching == old(fetching) && fetchGeneration == old(fetchGeneration)
    {
      if !websocketEnabled {
        return;
      }
      websocketGeneration := websocketGeneration + 1;
      websocketConnected := false;
      websocketConnecting := true;
      activeWebsocketGeneration := 0;
      websocketConnectStartedTick := now;
      websocketConnectedTick := 0;
      websocketInstanceId := "";
      if launch != Launched {
        websocketConnecting := false;
      }
    }

    /** `start_fetch`; a failed allocation is NotParsed. */
    method StartFetch(launch: Launch, thread: Option<nat>) returns (newThread: Option<nat>)
      modifies `fetching, `fetchGeneration
      ensures Fetch(fetching, fetchGeneration, newThread)
          == FetchStarted(Fetch(old(fetching), old(fetchGeneration), thread), launch)
    {
      newThread := thread;
      if fetching {
        return;
      }
      fetching := true;
      if launch == NotParsed {
        fetching := false;
        return;
      }
      fetchGeneration := fetchGeneration + 1;
      if launch == NoThread {
        fetching := false;
        return;
      }
      newThread := Some(fetchGeneration);
    }

    method WebsocketConnected(generation: nat, now: nat, launch: Launch, thread: Option<nat>)
      returns (newThread: Option<nat>)
      modifies this
      ensures State() == OnConnected(old(State()), generation, now)
      ensures var fetch := Fetch(old(fetching), old(fetchGeneration), thread);
        Fetch(fetching, fetchGeneration, newThread) ==
          if generation == old(websocketGeneration) then FetchStarted(fetch, launch) else fetch
    {
      newThread := thread;
      if generation != websocketGeneration {
        return;
      }
      websocketConnected := true;
      websocketConnecting := false;
      activeWebsocketGeneration := generation;
      websocketConnectedTick := now;
      websocketInstanceId := "";
      newThread := StartFetch(launch, thread);
    }

    method WebsocketMessage(generation: nat, result: FetchResult, now: nat, launch: Launch)
      modifies this
      ensures State() == OnFrame(old(State()), generation, result, now, launch)
    {
      if generation != websocketGeneration || generation != activeWebsocketGeneration {
        return;
      }
      if result.ok {
        var applyResult := true;
        if !httpIdentityResolved {
          applyResult := false;
        } else if authoritativeInstanceId != "" {
          if result.instanceId == "" || result.instanceId != authoritativeInstanceId {
            applyResult := false;
            StartWebsocketConnection(now, launch);
          }
        }
        if applyResult && result.instanceId != "" {
          if websocketInstanceId != "" && websocketInstanceId != result.instanceId {
            applyResult := false;
            StartWebsocketConnection(now, launch);
          } else {
            websocketInstanceId := result.instanceId;
          }
        }
        if applyResult {
          ApplySuccessfulFetchResult(result);
        }
      }
    }

    method WebsocketClosed(generation: nat)
      modifies this
      ensures State() == OnClosed(old(State()), generation)
    {
      if generation != websocketGeneration {
        return;
      }
      websocketConnected := false;
      websocketConnecting := false;
      activeWebsocketGeneration := 0;
      websocketConnectedTick := 0;
      websocketInstanceId := "";
    }

    method FetchDone(generation: nat, result: FetchResult, now: nat, launch: Launch)
      modifies this
      ensures State() == OnFetchDone(old(State()), generation == old(fetchGeneration), result, now, launch)
      ensures !fetching && fetchGeneration == old(fetchGeneration)
    {
      if generation == fetchGeneration {
        if result.ok {
          var applyHttpResult := true;
          httpIdentityResolved := true;
          if result.instanceId != "" {
            if authoritativeInstanceId != result.instanceId {
              authoritativeInstanceId := result.instanceId;
            }
            if websocketConnected && websocketInstanceId != "" && websocketInstanceId != authoritativeInstanceId {
              StartWebsocketConnection(now, launch);
            }
          } else if authoritativeInstanceId != "" {
            applyHttpResult := false;
          }
          if applyHttpResult {
            ApplySuccessfulFetchResult(result);
          }
        } else {
          emptySuccessCount := 0;
        }
      }
      fetching := false;
    }

    method WebsocketTimer(now: nat, launch: Launch)
      modifies this
      ensures State() == if old(State()).enabled then OnTimer(old(State()), now, launch) else old(State())
    {
      if websocketEnabled {
        if websocketConnected && websocketConnectedTick != 0 && now - websocketConnectedTick >= WEBSOCKET_MAX_AGE_MS {
          StartWebsocketConnection(now, launch);
        } else if websocketConnecting && websocketConnectStartedTick != 0
          && now - websocketConnectStartedTick >= WEBSOCKET_CONNECT_TIMEOUT_MS
        {
          StartWebsocketConnection(now, launch);
        } else if !websocketConnected && !websocketConnecting {
          StartWebsocketConnection(now, launch);
        }
      }
    }
  }

  // ---- what the display shows -----------------------------------------------------------------------------------

  /** What happens to the display: an accepted result, or a failed fetch. */
  datatype Outcome = Accepted(sessions: seq<Session>) | Failed

  function Displayed(history: seq<Outcome>): Display {
    if history == [] then Display([], 0)
    else
      var d := Displayed(Front(history));
      match Last(history)
      case Accepted(sessions) => ApplyResult(d, sessions)
      case Failed => d.(emptyCount := 0)
  }

  predicate IsEmpty(o: Outcome) { o == Accepted([]) }

  predicate IsNonempty(o: Outcome) { o.Accepted? && o.sessions != [] }

  /** The n outcomes before position `end` are all empty results. */
  ghost predicate EmptyRun(history: seq<Outcome>, end: nat, n: nat)
    requires end <= |history|
  {
    n <= end && forall i | end - n <= i < end :: IsEmpty(history[i])
  }

  /** The last nonempty result, and no six empty results in a row after it. */
  ghost predicate Confirmed(history: seq<Outcome>, shown: nat)
    requires shown < |history|
  {
    && IsNonempty(history[shown])
    && (forall i | shown < i < |history| :: !IsNonempty(history[i]))
    && (forall end | shown + EMPTY_RESULT_CONFIRMATIONS < end <= |history| ::
      !EmptyRun(history, end, EMPTY_RESULT_CONFIRMATIONS))
  }

  /** Where a displayed list comes from; the count is the length of the current run of empty results. */
  lemma {:induction false} DisplayedList(history: seq<Outcome>) returns (shown: nat)
    requires Displayed(history).sessions != []
    ensures shown < |history| && Confirmed(history, shown) && history[shown].sessions == Displayed(history).sessions
    ensures var n := Displayed(history).emptyCount;
      && n < EMPTY_RESULT_CONFIRMATIONS && shown + n < |history| && EmptyRun(history, |history|, n)
      && (shown + n + 1 < |history| ==> !IsEmpty(history[|history| - n - 1]))
  {
    var before, last := Front(history), Last(history);
    if IsNonempty(last) {
      shown := |history| - 1;
    } else {
      shown := DisplayedList(before);
      var n := Displayed(before).emptyCount;
      forall end | shown + EMPTY_RESULT_CONFIRMATIONS < end <= |history|
        ensures !EmptyRun(history, end, EMPTY_RESULT_CONFIRMATIONS)
      {
        if end < |history| {
          ShorterRun(history, end);
        } else {
          StillConfirmed(history, shown, n);
        }
      }
    }
  }

  lemma ShorterRun(history: seq<Outcome>, end: nat)
    requires EMPTY_RESULT_CONFIRMATIONS <= end < |history|
    ensures EmptyRun(history, end, EMPTY_RESULT_CONFIRMATIONS) <==>
      EmptyRun(Front(history), end, EMPTY_RESULT_CONFIRMATIONS)
  {
    assert forall i | 0 <= i < end :: Front(history)[i] == history[i];
  }

  lemma StillConfirmed(history: seq<Outcome>, shown: nat, n: nat)
    requires shown + EMPTY_RESULT_CONFIRMATIONS < |history|
    requires IsEmpty(Last(history)) ==> n + 1 < EMPTY_RESULT_CONFIRMATIONS
    requires shown + n + 1 < |history| - 1 ==> !IsEmpty(history[|history| - n - 2])
    ensures !EmptyRun(history, |history|, EMPTY_RESULT_CONFIRMATIONS)
  {
    if IsEmpty(Last(history)) {
      assert !IsEmpty(history[|history| - n - 2]);
    } else {
      assert !IsEmpty(history[|history| - 1]);
    }
  }

  lemma SameShown(history: seq<Outcome>, a: nat, b: nat)
    requires a < |history| && b < |history| && Confirmed(history, a) && Confirmed(history, b)
    ensures a == b
  {
  }

  lemma FrontConfirmed(history: seq<Outcome>, shown: nat)
    requires shown < |history| - 1 && Confirmed(history, shown)
    ensures Confirmed(Front(history), shown) && !IsNonempty(Last(history))
    ensures |history| > shown + EMPTY_RESULT_CONFIRMATIONS ==> !EmptyRun(history, |history|, EMPTY_RESULT_CONFIRMATIONS)
  {
    var before := Front(history);
    forall end | shown + EMPTY_RESULT_CONFIRMATIONS < end <= |before|
      ensures !EmptyRun(before, end, EMPTY_RESULT_CONFIRMATIONS)
    {
      ShorterRun(history, end);
    }
  }

  lemma LastClears(history: seq<Outcome>)
    requires history != [] && Displayed(Front(history)).sessions != [] && Displayed(history).sessions == []
    ensures IsEmpty(Last(history)) && Displayed(Front(history)).emptyCount + 1 >= EMPTY_RESULT_CONFIRMATIONS
  {
  }

  lemma RunGrows(history: seq<Outcome>, n: nat)
    requires history != [] && IsEmpty(Last(history)) && EmptyRun(Front(history), |history| - 1, n)
    ensures EmptyRun(history, |history|, n + 1)
  {
    forall i | |history| - n - 1 <= i < |history| ensures IsEmpty(history[i]) {
      assert i < |history| - 1 ==> Front(history)[i] == history[i];
    }
  }

  /** Only the sixth empty result in a row clears the display. */
  lemma Clearing(history: seq<Outcome>) returns (shown: nat)
    requires history != [] && Displayed(Front(history)).sessions != [] && Displayed(history).sessions == []
    ensures shown < |history| - 1 && Confirmed(Front(history), shown)
    ensures |history| > shown + EMPTY_RESULT_CONFIRMATIONS && EmptyRun(history, |history|, EMPTY_RESULT_CONFIRMATIONS)
  {
    shown := DisplayedList(Front(history));
    LastClears(history);
    RunGrows(history, EMPTY_RESULT_CONFIRMATIONS - 1);
  }

  lemma {:induction false} NothingDisplayed(history: seq<Outcome>, shown: nat)
    requires Displayed(history).sessions == [] && shown < |history|
    ensures !Confirmed(history, shown)
  {
    var before := Front(history);
    if shown == |history| - 1 {
      assert !IsNonempty(history[shown]);
    } else if Confirmed(history, shown) {
      FrontConfirmed(history, shown);
      if Displayed(before).sessions == [] {
        NothingDisplayed(before, shown);
      } else {
        var k := Clearing(history);
        SameShown(before, shown, k);
      }
    }
  }

  /** The display shows the last nonempty result, unless six empty results in a row, with no failed fetch
      between them, came after it; then it shows nothing. */
  lemma DisplayMeans(history: seq<Outcome>, shown: nat)
    requires shown < |history|
    ensures Displayed(history).sessions != [] ==> exists k | 0 <= k < |history| :: Confirmed(history, k)
    ensures Confirmed(history, shown) ==> Displayed(history).sessions == history[shown].sessions
  {
    if Displayed(history).sessions == [] {
      NothingDisplayed(history, shown);
    } else {
      var k := DisplayedList(history);
      assert Confirmed(history, k);
      if Confirmed(history, shown) {
        SameShown(history, shown, k);
      }
    }
  }
}
