/** Worker threads, the window's message queue and the window thread together: connecting, superseding
    and closing websockets under every interleaving
    (windows/CodexMonitorWidget/src/websocket.c and the handlers of src/main.c). */
module WidgetLink {
  import opened Sequences
  import opened WidgetUi

  // ---- the lock-protected globals of websocket.c ------------------------------------------------------------

  datatype Link = Link(current: nat, active: Option<int>)

  function Replace(generation: nat): Link { Link(generation, None) }

  predicate Accepts(l: Link, generation: nat) { l.current == generation && l.active == None }

  function Register(l: Link, socket: int, generation: nat): Link {
    if Accepts(l, generation) then l.(active := Some(socket)) else l
  }

  function Clear(l: Link, socket: int, generation: nat): Link {
    if l == Link(generation, Some(socket)) then l.(active := None) else l
  }

  class WebsocketGlobals {
    var currentConnectionGeneration: nat
    var activeWebsocket: Option<int>

    function State(): Link reads this { Link(currentConnectionGeneration, activeWebsocket) }

    /** `shutdown` is the superseded socket, which the call shuts down while it holds the lock. */
    method ReplaceGeneration(generation: nat) returns (shutdown: Option<int>)
      modifies this
      ensures State() == Replace(generation) && shutdown == old(State()).active
    {
      currentConnectionGeneration := generation;
      shutdown := activeWebsocket;
      activeWebsocket := None;
    }

    method RegisterActive(socket: int, generation: nat) returns (accepted: bool)
      modifies this
      ensures State() == Register(old(State()), socket, generation) && accepted == Accepts(old(State()), generation)
    {
      accepted := false;
      if currentConnectionGeneration == generation && activeWebsocket == None {
        activeWebsocket := Some(socket);
        accepted := true;
      }
    }

    method ClearActive(socket: int, generation: nat)
      modifies this
      ensures State() == Clear(old(State()), socket, generation)
    {
      if activeWebsocket == Some(socket) && currentConnectionGeneration == generation {
        activeWebsocket := None;
      }
    }
  }

  // ---- the machine -----------------------------------------------------------------------------------------------

  /** Where the worker thread of one generation is. From Upgraded to Cleared its socket handle is open. */
  datatype Phase =
    | Connecting
    | Upgraded(socket: int)
    | Registered(socket: int)
    | AtLoopTop(socket: int)
    | InReceive(socket: int)
    | Leaving(socket: int)
    | Cleared(socket: int)
    | Finishing

  datatype Message =
    | Connected(generation: nat)
    | Frame(generation: nat, result: FetchResult)
    | Closed(generation: nat)
    | FetchResultPosted(fetchGeneration: nat, result: FetchResult)

  /** `lost` is the history of messages `PostMessage` failed to queue; no step depends on it. */
  datatype System = System(
    ui: Ui, fetch: Fetch, link: Link, workers: map<nat, Phase>, queue: seq<Message>, lost: set<Message>)

  datatype Step =
    | HandshakeFails(g: nat)
    | HandshakeSucceeds(g: nat, socket: int)
    | RegisterActive(g: nat)
    | PostConnected(g: nat, posted: bool)
    | CheckGeneration(g: nat)
    | ReceiveFrame(g: nat, result: FetchResult, posted: bool)
    | ReceiveOther(g: nat)
    | ReceiveEnds(g: nat)
    | ClearActive(g: nat)
    | CloseHandles(g: nat)
    | PostClosed(g: nat, posted: bool)
    | FetchGivesUp
    | FetchPosts(result: FetchResult)
    | Dispatch(now: nat, launch: Launch, fetchLaunch: Launch)
    | WebsocketTimer(now: nat, launch: Launch)
    | RefreshTimer(fetchLaunch: Launch)

  predicate At(s: System, g: nat, p: Phase -> bool) { g in s.workers && p(s.workers[g]) }

  predicate Enabled(s: System, step: Step) {
    match step
    case HandshakeFails(g) => At(s, g, (p: Phase) => p.Connecting?)
    case HandshakeSucceeds(g, _) => At(s, g, (p: Phase) => p.Connecting?)
    case RegisterActive(g) => At(s, g, (p: Phase) => p.Upgraded?)
    case PostConnected(g, _) => At(s, g, (p: Phase) => p.Registered?)
    case CheckGeneration(g) => At(s, g, (p: Phase) => p.AtLoopTop?)
    case ReceiveFrame(g, _, _) => At(s, g, (p: Phase) => p.InReceive?)
    case ReceiveOther(g) => At(s, g, (p: Phase) => p.InReceive?)
    case ReceiveEnds(g) => At(s, g, (p: Phase) => p.InReceive?)
    case ClearActive(g) => At(s, g, (p: Phase) => p.Leaving?)
    case CloseHandles(g) => At(s, g, (p: Phase) => p.Cleared?)
    case PostClosed(g, _) => At(s, g, (p: Phase) => p.Finishing?)
    case FetchGivesUp => s.fetch.thread.Some?
    case FetchPosts(_) => s.fetch.thread.Some?
    case Dispatch(_, _, _) => s.queue != []
    case WebsocketTimer(_, _) => s.ui.enabled
    case RefreshTimer(_) => true
  }

  function Goto(s: System, g: nat, p: Phase): System { s.(workers := s.workers[g := p]) }

  function Post(s: System, m: Message, posted: bool): System {
    if posted then s.(queue := s.queue + [m]) else s.(lost := s.lost + {m})
  }

  /** `start_websocket_connection` ran in the window thread, which now has the state `u`. */
  function Launching(s: System, u: Ui, launch: Launch): System {
    match launch
    case NotParsed => s.(ui := u)
    case NoThread => s.(ui := u, link := Replace(u.generation))
    case Launched => s.(ui := u, link := Replace(u.generation), workers := s.workers[u.generation := Connecting])
  }

  function Handle(s: System, m: Message, now: nat, launch: Launch, fetchLaunch: Launch): System {
    match m
    case Connected(g) =>
      var fetch := if g == s.ui.generation then FetchStarted(s.fetch, fetchLaunch) else s.fetch;
      s.(ui := OnConnected(s.ui, g, now), fetch := fetch)
    case Frame(g, r) =>
      var u := OnFrame(s.ui, g, r, now, launch);
      if s.ui.enabled && FrameRestarts(s.ui, g, r) then Launching(s, u, launch) else s.(ui := u)
    case Closed(g) => s.(ui := OnClosed(s.ui, g))
    case FetchResultPosted(fg, r) =>
      var current := fg == s.fetch.generation;
      var u := OnFetchDone(s.ui, current, r, now, launch);
      var s' := s.(fetch := s.fetch.(fetching := false));
      if s.ui.enabled && current && FetchRestarts(s.ui, r) then Launching(s', u, launch) else s'.(ui := u)
  }

  function Next(s: System, step: Step): System
    requires Enabled(s, step)
  {
    match step
    case HandshakeFails(g) => Goto(s, g, Finishing)
    case HandshakeSucceeds(g, socket) => Goto(s, g, Upgraded(socket))
    case RegisterActive(g) =>
      if Accepts(s.link, g)
      then Goto(s, g, Registered(s.workers[g].socket)).(link := Register(s.link, s.workers[g].socket, g))
      else Goto(s, g, Finishing)
    case PostConnected(g, posted) => Post(Goto(s, g, AtLoopTop(s.workers[g].socket)), Connected(g), posted)
    case CheckGeneration(g) =>
      if s.link.current == g then Goto(s, g, InReceive(s.workers[g].socket))
      else Goto(s, g, Leaving(s.workers[g].socket))
    case ReceiveFrame(g, r, posted) => Post(Goto(s, g, AtLoopTop(s.workers[g].socket)), Frame(g, r), posted)
    case ReceiveOther(g) => Goto(s, g, AtLoopTop(s.workers[g].socket))
    case ReceiveEnds(g) => Goto(s, g, Leaving(s.workers[g].socket))
    case ClearActive(g) =>
      Goto(s, g, Cleared(s.workers[g].socket)).(link := Clear(s.link, s.workers[g].socket, g))
    case CloseHandles(g) => Goto(s, g, Finishing)
    case PostClosed(g, posted) => Post(s, Closed(g), posted).(workers := s.workers - {g})
    case FetchGivesUp => s.(fetch := s.fetch.(fetching := false, thread := None))
    case FetchPosts(r) => Post(s.(fetch := s.fetch.(thread := None)), FetchResultPosted(s.fetch.thread.value, r), true)
    case Dispatch(now, launch, fetchLaunch) =>
      Handle(s.(queue := s.queue[1..]), s.queue[0], now, launch, fetchLaunch)
    case WebsocketTimer(now, launch) =>
      if TimerRestarts(s.ui, now) then Launching(s, OnTimer(s.ui, now, launch), launch) else s
    case RefreshTimer(fetchLaunch) => s.(fetch := FetchStarted(s.fetch, fetchLaunch))
  }

  function Initial(enabled: bool): System {
    System(Ui(enabled, 0, false, false, 0, 0, 0, "", "", false, Display([], 0), ""),
           Fetch(false, 0, None), Link(0, None), map[], [], {})
  }

  /** A run under any schedule; a step that is not enabled when its turn comes does nothing. */
  function Run(enabled: bool, steps: seq<Step>): System {
    if steps == [] then Initial(enabled)
    else
      var before := Run(enabled, Front(steps));
      if Enabled(before, Last(steps)) then Next(before, Last(steps)) else before
  }

  // ---- invariants of the window thread's fields ------------------------------------------------------------------

  predicate UiOk(u: Ui) {
    && !(u.connected && u.connecting)
    && (u.connected || u.connecting ==> u.enabled && u.generation != 0)
    && (u.connected <==> u.activeGeneration != 0)
    && (u.activeGeneration != 0 ==> u.activeGeneration == u.generation)
    && (u.socketId != "" ==> u.connected)
    && (u.socketId != "" && u.authorityId != "" ==> u.socketId == u.authorityId)
    && (u.authorityId != "" ==> u.resolved && u.source == u.authorityId)
  }

  lemma StartKeepsUi(u: Ui, now: nat, launch: Launch)
    requires UiOk(u)
    ensures UiOk(Start(u, now, launch))
  {
  }

  lemma ConnectedKeepsUi(u: Ui, g: nat, now: nat)
    requires UiOk(u) && g != 0 && (g == u.generation ==> u.enabled)
    ensures UiOk(OnConnected(u, g, now))
  {
  }

  lemma FrameKeepsUi(u: Ui, g: nat, r: FetchResult, now: nat, launch: Launch)
    requires UiOk(u) && g != 0
    ensures UiOk(OnFrame(u, g, r, now, launch))
  {
    StartKeepsUi(u, now, launch);
  }

  lemma ClosedKeepsUi(u: Ui, g: nat)
    requires UiOk(u)
    ensures UiOk(OnClosed(u, g))
  {
  }

  lemma FetchDoneKeepsUi(u: Ui, current: bool, r: FetchResult, now: nat, launch: Launch)
    requires UiOk(u)
    ensures UiOk(OnFetchDone(u, current, r, now, launch))
  {
  }

  lemma TimerKeepsUi(u: Ui, now: nat, launch: Launch)
    requires UiOk(u)
    ensures UiOk(OnTimer(u, now, launch))
  {
    StartKeepsUi(u, now, launch);
  }

  lemma NextKeepsUi(s: System, step: Step)
    requires Enabled(s, step) && UiOk(s.ui) && QueueOk(s)
    ensures UiOk(Next(s, step).ui)
  {
    match step
    case Dispatch(now, launch, _) =>
      match s.queue[0] {
        case Connected(g) =>
          UnheardBeforePop(s.queue, s.ui.generation);
          ConnectedKeepsUi(s.ui, g, now);
        case Frame(g, r) => FrameKeepsUi(s.ui, g, r, now, launch);
        case Closed(g) => ClosedKeepsUi(s.ui, g);
        case FetchResultPosted(fg, r) => FetchDoneKeepsUi(s.ui, fg == s.fetch.generation, r, now, launch);
      }
    case WebsocketTimer(now, launch) => TimerKeepsUi(s.ui, now, launch);
    case _ =>
  }

  // ---- the registered socket ---------------------------------------------------------------------------------------

  /** The worker holds the registered socket. */
  predicate Live(p: Phase) { p.Registered? || p.AtLoopTop? || p.InReceive? || p.Leaving? }

  function OwnSocket(s: System): Option<int> {
    var g := s.link.current;
    if g in s.workers && Live(s.workers[g]) then Some(s.workers[g].socket) else None
  }

  /** The registered socket is the one the worker of the current generation holds. */
  ghost predicate LinkOk(s: System) {
    && s.link.current <= s.ui.generation
    && (forall g <- s.workers :: 1 <= g <= s.link.current)
    && s.link.active == OwnSocket(s)
  }

  lemma NextKeepsLink(s: System, step: Step)
    requires Enabled(s, step) && LinkOk(s)
    ensures LinkOk(Next(s, step))
  {
    match step
    case Dispatch(now, launch, fetchLaunch) =>
      var popped := s.(queue := s.queue[1..]);
      assert LinkOk(popped);
      HandleKeepsLink(popped, s.queue[0], now, launch, fetchLaunch);
    case _ =>
  }

  lemma HandleKeepsLink(s: System, m: Message, now: nat, launch: Launch, fetchLaunch: Launch)
    requires LinkOk(s)
    ensures LinkOk(Handle(s, m, now, launch, fetchLaunch))
  {
  }

  // ---- what the window thread still has to hear from the current generation ----------------------------------------

  function Of(g: nat): Message -> bool {
    (m: Message) => !m.FetchResultPosted? && m.generation == g
  }

  function Unheard(s: System): seq<Message> { Filter(s.queue, Of(s.ui.generation)) }

  function CurrentPhase(s: System): Option<Phase> {
    if s.ui.generation in s.workers then Some(s.workers[s.ui.generation]) else None
  }

  predicate Frames(q: seq<Message>) { forall m <- q :: m.Frame? }

  /** Nothing has been said yet. */
  predicate Silent(u: Ui, q: seq<Message>) { u.connecting && !u.connected && q == [] }

  /** The connection has been announced; whether the window thread heard that is what `connected` says,
      and it never will when the announcement was lost. */
  predicate Announced(u: Ui, q: seq<Message>, lost: set<Message>) {
    || (u.connected && !u.connecting && Frames(q))
    || (u.connecting && !u.connected && q != [] && q[0].Connected? && Frames(q[1..]))
    || (u.connecting && !u.connected && Connected(u.generation) in lost && Frames(q))
  }

  predicate Begun(u: Ui, q: seq<Message>, lost: set<Message>) { Silent(u, q) || Announced(u, q, lost) }

  /** The worker is gone; unless its farewell was lost, it is queued or heard. */
  predicate Over(u: Ui, q: seq<Message>, lost: set<Message>) {
    if Closed(u.generation) in lost then Begun(u, q, lost)
    else (!u.connected && !u.connecting && q == []) || (q != [] && Last(q).Closed? && Begun(u, Front(q), lost))
  }

  predicate Quiet(p: Phase) { p.Connecting? || p.Upgraded? || p.Registered? }

  predicate Talking(p: Phase) { !Quiet(p) && !p.Finishing? }

  predicate Conversation(phase: Option<Phase>, u: Ui, q: seq<Message>, lost: set<Message>) {
    match phase
    case None => Over(u, q, lost)
    case Some(p) =>
      if Quiet(p) then Silent(u, q) else if p.Finishing? then Begun(u, q, lost) else Announced(u, q, lost)
  }

  /** Messages speak of generations up to the current one, and only a worker that is gone lost its
      farewell. */
  ghost predicate MessagesOk(s: System) {
    && (forall m <- s.queue :: !m.FetchResultPosted? ==> 1 <= m.generation <= s.ui.generation)
    && (forall m <- s.lost :: !m.FetchResultPosted? && 1 <= m.generation <= s.ui.generation)
    && (forall g <- s.workers :: Closed(g) !in s.lost)
  }

  ghost predicate QueueOk(s: System) {
    MessagesOk(s) && Conversation(CurrentPhase(s), s.ui, Unheard(s), s.lost)
  }

  lemma NothingUnheard(queue: seq<Message>, g: nat)
    requires forall m <- queue :: !m.FetchResultPosted? ==> m.generation < g
    ensures Filter(queue, Of(g)) == []
  {
    FilterNone(queue, Of(g));
  }

  lemma UnheardAfterPost(queue: seq<Message>, m: Message, g: nat)
    ensures Filter(queue + [m], Of(g)) == if Of(g)(m) then Filter(queue, Of(g)) + [m] else Filter(queue, Of(g))
  {
    FilterPush(queue, m, Of(g));
  }

  lemma UnheardBeforePop(queue: seq<Message>, g: nat)
    requires queue != []
    ensures Filter(queue, Of(g)) ==
      if Of(g)(queue[0]) then [queue[0]] + Filter(queue[1..], Of(g)) else Filter(queue[1..], Of(g))
  {
    assert queue == [queue[0]] + queue[1..];
    FilterConcat([queue[0]], queue[1..], Of(g));
    assert [queue[0]] == [] + [queue[0]];
    FilterPush([], queue[0], Of(g));
  }

  lemma LaunchKeepsQueue(s: System, u: Ui, launch: Launch)
    requires MessagesOk(s)
    requires LinkOk(s) && u.generation == s.ui.generation + 1 && u.connecting == (launch == Launched) && !u.connected
    ensures QueueOk(Launching(s, u, launch))
  {
    NothingUnheard(s.queue, u.generation);
  }

  predicate IsWorkerStep(step: Step) {
    !step.FetchGivesUp? && !step.FetchPosts? && !step.Dispatch? && !step.WebsocketTimer? && !step.RefreshTimer?
  }

  lemma WorkerMoves(s: System, g: nat, p: Phase)
    requires g in s.workers && QueueOk(s)
    requires p.Finishing? || (Quiet(s.workers[g]) && Quiet(p)) || (Talking(s.workers[g]) && Talking(p))
    ensures QueueOk(Goto(s, g, p))
  {
  }

  lemma Announces(s: System, g: nat, p: Phase, posted: bool)
    requires g in s.workers && LinkOk(s) && QueueOk(s) && Quiet(s.workers[g]) && Talking(p)
    ensures QueueOk(Post(Goto(s, g, p), Connected(g), posted))
  {
    UnheardAfterPost(s.queue, Connected(g), s.ui.generation);
  }

  lemma SpeaksOn(phase: Option<Phase>, u: Ui, q: seq<Message>, lost: set<Message>, r: FetchResult)
    requires Conversation(phase, u, q, lost) && phase.Some? && Talking(phase.value)
    ensures Conversation(phase, u, q + [Frame(u.generation, r)], lost)
  {
    assert q != [] ==> (q + [Frame(u.generation, r)])[1..] == q[1..] + [Frame(u.generation, r)];
  }

  lemma MoreLost(phase: Option<Phase>, u: Ui, q: seq<Message>, lost: set<Message>, m: Message)
    requires Conversation(phase, u, q, lost) && m.Frame?
    ensures Conversation(phase, u, q, lost + {m})
  {
  }

  lemma Speaks(s: System, g: nat, p: Phase, r: FetchResult, posted: bool)
    requires g in s.workers && LinkOk(s) && QueueOk(s) && Talking(s.workers[g]) && Talking(p)
    ensures QueueOk(Post(Goto(s, g, p), Frame(g, r), posted))
  {
    var t := Goto(s, g, p);
    WorkerMoves(s, g, p);
    if posted {
      UnheardAfterPost(s.queue, Frame(g, r), s.ui.generation);
      if g == s.ui.generation {
        SpeaksOn(CurrentPhase(t), s.ui, Unheard(s), s.lost, r);
      }
    } else {
      MoreLost(CurrentPhase(t), s.ui, Unheard(s), s.lost, Frame(g, r));
    }
  }

  lemma Ends(s: System, g: nat, posted: bool)
    requires g in s.workers && LinkOk(s) && QueueOk(s) && s.workers[g].Finishing?
    ensures QueueOk(Post(s, Closed(g), posted).(workers := s.workers - {g}))
  {
    UnheardAfterPost(s.queue, Closed(g), s.ui.generation);
    assert Front(Unheard(s) + [Closed(g)]) == Unheard(s);
  }

  lemma WorkerKeepsQueue(s: System, step: Step)
    requires Enabled(s, step) && LinkOk(s) && QueueOk(s) && IsWorkerStep(step)
    ensures QueueOk(Next(s, step))
  {
    match step
    case HandshakeFails(g) => WorkerMoves(s, g, Finishing);
    case HandshakeSucceeds(g, socket) => WorkerMoves(s, g, Upgraded(socket));
    case RegisterActive(g) =>
      WorkerMoves(s, g, Registered(s.workers[g].socket));
      WorkerMoves(s, g, Finishing);
    case PostConnected(g, posted) => Announces(s, g, AtLoopTop(s.workers[g].socket), posted);
    case CheckGeneration(g) =>
      WorkerMoves(s, g, InReceive(s.workers[g].socket));
      WorkerMoves(s, g, Leaving(s.workers[g].socket));
    case ReceiveFrame(g, r, posted) => Speaks(s, g, AtLoopTop(s.workers[g].socket), r, posted);
    case ReceiveOther(g) => WorkerMoves(s, g, AtLoopTop(s.workers[g].socket));
    case ReceiveEnds(g) => WorkerMoves(s, g, Leaving(s.workers[g].socket));
    case ClearActive(g) => WorkerMoves(s, g, Cleared(s.workers[g].socket));
    case CloseHandles(g) => WorkerMoves(s, g, Finishing);
    case PostClosed(g, posted) => Ends(s, g, posted);
    case _ =>
  }

  // ---- hearing one message --------------------------------------------------------------------------------

  lemma HearConnected(phase: Option<Phase>, u: Ui, q: seq<Message>, lost: set<Message>, now: nat)
    requires Conversation(phase, u, [Connected(u.generation)] + q, lost)
    ensures u.connecting && Conversation(phase, OnConnected(u, u.generation, now), q, lost)
  {
    var all := [Connected(u.generation)] + q;
    assert all[1..] == q && all[0] in all;
    if q != [] {
      assert Front(all) == [Connected(u.generation)] + Front(q) && Front(all)[1..] == Front(q);
      assert Front(all)[0] in Front(all);
    }
  }

  /** A frame of the current generation is heard after its announcement, if that was not lost. */
  lemma HearFrame(phase: Option<Phase>, u: Ui, q: seq<Message>, lost: set<Message>, r: FetchResult)
    requires Conversation(phase, u, [Frame(u.generation, r)] + q, lost)
    ensures (u.connected || Connected(u.generation) in lost) && Conversation(phase, u, q, lost)
  {
    var all := [Frame(u.generation, r)] + q;
    assert all[1..] == q && all[0].Frame?;
    if q != [] {
      assert Front(all) == [Frame(u.generation, r)] + Front(q) && Front(all)[1..] == Front(q);
    }
  }

  lemma FrontHead(q: seq<Message>)
    ensures q != [] ==> q[0] in q
    ensures |q| > 1 ==> Front(q) != [] && Front(q)[0] == q[0] && q[0] in Front(q)
  {
    assert |q| > 1 ==> Front(q)[0] == q[0];
  }

  lemma HearClosed(phase: Option<Phase>, u: Ui, q: seq<Message>, lost: set<Message>)
    requires Conversation(phase, u, [Closed(u.generation)] + q, lost)
    ensures phase == None && q == [] && Conversation(phase, OnClosed(u, u.generation), q, lost)
  {
    var all := [Closed(u.generation)] + q;
    FrontHead(all);
  }

  lemma SameConversation(phase: Option<Phase>, u: Ui, v: Ui, q: seq<Message>, lost: set<Message>)
    requires Conversation(phase, u, q, lost)
    requires v.generation == u.generation && v.connected == u.connected && v.connecting == u.connecting
    ensures Conversation(phase, v, q, lost)
  {
  }

  lemma PoppedBounds(s: System)
    requires s.queue != [] && forall m <- s.queue :: !m.FetchResultPosted? ==> 1 <= m.generation <= s.ui.generation
    ensures forall m <- s.queue[1..] :: !m.FetchResultPosted? ==> 1 <= m.generation <= s.ui.generation
    ensures !s.queue[0].FetchResultPosted? ==> 1 <= s.queue[0].generation <= s.ui.generation
  {
    forall m <- s.queue[1..] ensures m in s.queue {
    }
    assert s.queue[0] in s.queue;
  }

  /** A handled message leaves the conversation going when the handler neither starts a connection nor
      touches the generation. */
  lemma HeardKeepsQueue(s: System, t: System)
    requires s.queue != [] && QueueOk(s)
    requires t.queue == s.queue[1..] && t.workers == s.workers && t.ui.generation == s.ui.generation && t.lost == s.lost
    requires Conversation(CurrentPhase(s), t.ui, Filter(s.queue[1..], Of(s.ui.generation)), s.lost)
    ensures QueueOk(t)
  {
    PoppedBounds(s);
  }

  lemma ConnectedKeepsQueue(s: System, now: nat, launch: Launch, fetchLaunch: Launch)
    requires s.queue != [] && QueueOk(s) && s.queue[0].Connected?
    ensures QueueOk(Next(s, Dispatch(now, launch, fetchLaunch)))
  {
    var g, rest := s.queue[0].generation, Filter(s.queue[1..], Of(s.ui.generation));
    UnheardBeforePop(s.queue, s.ui.generation);
    if g == s.ui.generation {
      HearConnected(CurrentPhase(s), s.ui, rest, s.lost, now);
    }
    HeardKeepsQueue(s, Next(s, Dispatch(now, launch, fetchLaunch)));
  }

  lemma ClosedKeepsQueue(s: System, now: nat, launch: Launch, fetchLaunch: Launch)
    requires s.queue != [] && QueueOk(s) && s.queue[0].Closed?
    ensures QueueOk(Next(s, Dispatch(now, launch, fetchLaunch)))
  {
    var g, rest := s.queue[0].generation, Filter(s.queue[1..], Of(s.ui.generation));
    UnheardBeforePop(s.queue, s.ui.generation);
    if g == s.ui.generation {
      HearClosed(CurrentPhase(s), s.ui, rest, s.lost);
    }
    HeardKeepsQueue(s, Next(s, Dispatch(now, launch, fetchLaunch)));
  }

  lemma FrameFlags(u: Ui, g: nat, r: FetchResult, now: nat, launch: Launch)
    requires UiOk(u) && g != 0
    ensures var v := OnFrame(u, g, r, now, launch);
      if FrameRestarts(u, g, r)
      then u.enabled && v.generation == u.generation + 1 && v.connecting == (launch == Launched) && !v.connected
      else v.generation == u.generation && v.connecting == u.connecting && v.connected == u.connected
  {
  }

  lemma FrameRestartKeepsQueue(s: System, now: nat, launch: Launch, fetchLaunch: Launch)
    requires s.queue != [] && LinkOk(s) && QueueOk(s) && UiOk(s.ui) && s.queue[0].Frame?
    requires FrameRestarts(s.ui, s.queue[0].generation, s.queue[0].result)
    ensures QueueOk(Next(s, Dispatch(now, launch, fetchLaunch)))
  {
    var g, r, popped := s.queue[0].generation, s.queue[0].result, s.(queue := s.queue[1..]);
    PoppedBounds(s);
    FrameFlags(s.ui, g, r, now, launch);
    LaunchKeepsQueue(popped, OnFrame(s.ui, g, r, now, launch), launch);
  }

  lemma FrameKeepsQueue(s: System, now: nat, launch: Launch, fetchLaunch: Launch)
    requires s.queue != [] && LinkOk(s) && QueueOk(s) && UiOk(s.ui) && s.queue[0].Frame?
    requires !FrameRestarts(s.ui, s.queue[0].generation, s.queue[0].result)
    ensures QueueOk(Next(s, Dispatch(now, launch, fetchLaunch)))
  {
    var g, r := s.queue[0].generation, s.queue[0].result;
    var u, rest := OnFrame(s.ui, g, r, now, launch), Filter(s.queue[1..], Of(s.ui.generation));
    PoppedBounds(s);
    FrameFlags(s.ui, g, r, now, launch);
    UnheardBeforePop(s.queue, s.ui.generation);
    if g == s.ui.generation {
      HearFrame(CurrentPhase(s), s.ui, rest, s.lost, r);
    }
    SameConversation(CurrentPhase(s), s.ui, u, rest, s.lost);
    HeardKeepsQueue(s, s.(queue := s.queue[1..], ui := u));
  }

  lemma FetchDoneFlags(u: Ui, current: bool, r: FetchResult, now: nat, launch: Launch)
    requires UiOk(u)
    ensures var v := OnFetchDone(u, current, r, now, launch);
      if current && FetchRestarts(u, r)
      then u.enabled && v.generation == u.generation + 1 && v.connecting == (launch == Launched) && !v.connected
      else v.generation == u.generation && v.connecting == u.connecting && v.connected == u.connected
  {
  }

  lemma PoppedMessages(s: System)
    requires s.queue != [] && MessagesOk(s)
    ensures MessagesOk(s.(queue := s.queue[1..], fetch := s.fetch.(fetching := false)))
  {
    PoppedBounds(s);
  }

  predicate HeadRestarts(s: System)
    requires s.queue != [] && s.queue[0].FetchResultPosted?
  {
    s.queue[0].fetchGeneration == s.fetch.generation && FetchRestarts(s.ui, s.queue[0].result)
  }

  lemma FetchRestartKeepsQueue(s: System, now: nat, launch: Launch, fetchLaunch: Launch)
    requires s.queue != [] && LinkOk(s) && QueueOk(s) && UiOk(s.ui) && s.queue[0].FetchResultPosted? && HeadRestarts(s)
    ensures QueueOk(Next(s, Dispatch(now, launch, fetchLaunch)))
  {
    var u := OnFetchDone(s.ui, true, s.queue[0].result, now, launch);
    FetchDoneFlags(s.ui, true, s.queue[0].result, now, launch);
    var popped := s.(queue := s.queue[1..], fetch := s.fetch.(fetching := false));
    PoppedMessages(s);
    LaunchKeepsQueue(popped, u, launch);
  }

  lemma FetchDoneKeepsQueue(s: System, now: nat, launch: Launch, fetchLaunch: Launch)
    requires s.queue != [] && LinkOk(s) && QueueOk(s) && UiOk(s.ui) && s.queue[0].FetchResultPosted? && !HeadRestarts(s)
    ensures QueueOk(Next(s, Dispatch(now, launch, fetchLaunch)))
  {
    var r, current := s.queue[0].result, s.queue[0].fetchGeneration == s.fetch.generation;
    var u, rest := OnFetchDone(s.ui, current, r, now, launch), Filter(s.queue[1..], Of(s.ui.generation));
    FetchDoneFlags(s.ui, current, r, now, launch);
    UnheardBeforePop(s.queue, s.ui.generation);
    SameConversation(CurrentPhase(s), s.ui, u, rest, s.lost);
    HeardKeepsQueue(s, s.(queue := s.queue[1..], fetch := s.fetch.(fetching := false), ui := u));
  }

  lemma DispatchKeepsQueue(s: System, now: nat, launch: Launch, fetchLaunch: Launch)
    requires s.queue != [] && LinkOk(s) && QueueOk(s) && UiOk(s.ui)
    ensures QueueOk(Next(s, Dispatch(now, launch, fetchLaunch)))
  {
    match s.queue[0]
    case Connected(_) => ConnectedKeepsQueue(s, now, launch, fetchLaunch);
    case Frame(g, r) =>
      if FrameRestarts(s.ui, g, r) {
        FrameRestartKeepsQueue(s, now, launch, fetchLaunch);
      } else {
        FrameKeepsQueue(s, now, launch, fetchLaunch);
      }
    case Closed(_) => ClosedKeepsQueue(s, now, launch, fetchLaunch);
    case FetchResultPosted(_, _) =>
      if HeadRestarts(s) {
        FetchRestartKeepsQueue(s, now, launch, fetchLaunch);
      } else {
        FetchDoneKeepsQueue(s, now, launch, fetchLaunch);
      }
  }

  // ---- the fetch in flight --------------------------------------------------------------------------------

  function IsFetchResult(): Message -> bool { (m: Message) => m.FetchResultPosted? }

  /** While a fetch is under way either its thread runs or its one result is queued, and either carries
      the latest fetch generation. */
  ghost predicate FetchOk(s: System) {
    var posted := Filter(s.queue, IsFetchResult());
    && (s.fetch.thread.Some? ==> s.fetch.fetching && s.fetch.thread.value == s.fetch.generation && posted == [])
    && (s.fetch.fetching && s.fetch.thread.None? ==>
      |posted| == 1 && posted[0].FetchResultPosted? && posted[0].fetchGeneration == s.fetch.generation)
    && (!s.fetch.fetching ==> posted == [])
  }

  lemma FetchResultsAfterPost(queue: seq<Message>, m: Message)
    ensures Filter(queue + [m], IsFetchResult()) ==
      if m.FetchResultPosted? then Filter(queue, IsFetchResult()) + [m] else Filter(queue, IsFetchResult())
  {
    FilterPush(queue, m, IsFetchResult());
  }

  lemma FetchResultsBeforePop(queue: seq<Message>)
    requires queue != []
    ensures Filter(queue, IsFetchResult()) ==
      if queue[0].FetchResultPosted? then [queue[0]] + Filter(queue[1..], IsFetchResult())
      else Filter(queue[1..], IsFetchResult())
  {
    assert queue == [queue[0]] + queue[1..];
    FilterConcat([queue[0]], queue[1..], IsFetchResult());
    assert [queue[0]] == [] + [queue[0]];
    FilterPush([], queue[0], IsFetchResult());
  }

  lemma DispatchedFetch(s: System, step: Step)
    requires step.Dispatch? && s.queue != []
    ensures var m := s.queue[0];
      Next(s, step).fetch ==
        if m.FetchResultPosted? then s.fetch.(fetching := false)
        else if m.Connected? && m.generation == s.ui.generation then FetchStarted(s.fetch, step.fetchLaunch)
        else s.fetch
    ensures Next(s, step).queue == s.queue[1..]
  {
  }

  lemma NextKeepsFetch(s: System, step: Step)
    requires Enabled(s, step) && FetchOk(s)
    ensures FetchOk(Next(s, step))
  {
    match step
    case PostConnected(w, _) => FetchResultsAfterPost(s.queue, Connected(w));
    case ReceiveFrame(w, r, posted) => FetchResultsAfterPost(s.queue, Frame(w, r));
    case PostClosed(w, _) => FetchResultsAfterPost(s.queue, Closed(w));
    case FetchPosts(r) => FetchResultsAfterPost(s.queue, FetchResultPosted(s.fetch.thread.value, r));
    case Dispatch(_, _, _) =>
      FetchResultsBeforePop(s.queue);
      DispatchedFetch(s, step);
    case _ =>
  }

  // ---- every run ------------------------------------------------------------------------------------------

  ghost predicate Inv(s: System) {
    UiOk(s.ui) && LinkOk(s) && QueueOk(s) && FetchOk(s)
  }

  lemma InitialOk(enabled: bool)
    ensures Inv(Initial(enabled))
  {
  }

  lemma OtherKeepsQueue(s: System, step: Step)
    requires Enabled(s, step) && LinkOk(s) && QueueOk(s) && !IsWorkerStep(step) && !step.Dispatch?
    ensures QueueOk(Next(s, step))
  {
    match step
    case WebsocketTimer(now, launch) =>
      if TimerRestarts(s.ui, now) {
        LaunchKeepsQueue(s, OnTimer(s.ui, now, launch), launch);
      }
    case FetchPosts(r) => UnheardAfterPost(s.queue, FetchResultPosted(s.fetch.thread.value, r), s.ui.generation);
    case _ =>
  }

  lemma NextKeeps(s: System, step: Step)
    requires Enabled(s, step) && Inv(s)
    ensures Inv(Next(s, step))
  {
    NextKeepsUi(s, step);
    NextKeepsLink(s, step);
    NextKeepsFetch(s, step);
    if IsWorkerStep(step) {
      WorkerKeepsQueue(s, step);
    } else if step.Dispatch? {
      DispatchKeepsQueue(s, step.now, step.launch, step.fetchLaunch);
    } else {
      OtherKeepsQueue(s, step);
    }
  }

  lemma {:induction false} EveryRunKeeps(enabled: bool, steps: seq<Step>)
    ensures Inv(Run(enabled, steps))
  {
    if steps == [] {
      InitialOk(enabled);
    } else {
      var before := Run(enabled, Front(steps));
      EveryRunKeeps(enabled, Front(steps));
      if Enabled(before, Last(steps)) {
        NextKeeps(before, Last(steps));
      }
    }
  }

  /** Never both connected and connecting; connected exactly when the active generation is the current
      one and not zero; and a socket that named its backend names the authority, if one is known, as
      does the last result shown. */
  lemma FlagsAgree(enabled: bool, steps: seq<Step>)
    ensures var u := Run(enabled, steps).ui;
      && !(u.connected && u.connecting)
      && (u.connected <==> u.activeGeneration == u.generation != 0)
      && (u.socketId != "" && u.authorityId != "" ==> u.socketId == u.authorityId)
      && (u.authorityId != "" ==> u.source == u.authorityId)
  {
    EveryRunKeeps(enabled, steps);
  }

  /** A socket is registered exactly while the worker of the module's current generation holds it, so a
      superseding connection only ever shuts down an open handle; and a worker that is still current is
      never turned away for finding another socket registered. */
  lemma RegisteredSocketIsCurrent(enabled: bool, steps: seq<Step>)
    ensures var s := Run(enabled, steps);
      && s.link.current <= s.ui.generation && (forall g <- s.workers :: g <= s.link.current)
      && (forall h :: s.link.active == Some(h) <==>
            s.link.current in s.workers && Live(s.workers[s.link.current]) && s.workers[s.link.current].socket == h)
      && (forall g <- s.workers :: s.workers[g].Upgraded? ==> (Accepts(s.link, g) <==> g == s.link.current))
  {
    EveryRunKeeps(enabled, steps);
  }

  /** Nothing the current generation posted is still queued. */
  ghost predicate AllHeard(s: System) {
    forall m <- s.queue :: m.FetchResultPosted? || m.generation != s.ui.generation
  }

  /** The window thread is idle exactly when the current generation's worker is gone, everything it posted
      has been heard, and its farewell was not lost: it forgets no live worker, and waits for a dead one
      only when the closing message could not be posted. */
  lemma IdleMeansGone(enabled: bool, steps: seq<Step>)
    ensures var s := Run(enabled, steps);
      !s.ui.connected && !s.ui.connecting <==>
        s.ui.generation !in s.workers && AllHeard(s) && Closed(s.ui.generation) !in s.lost
  {
    var s := Run(enabled, steps);
    EveryRunKeeps(enabled, steps);
    UnheardIsEmptyIff(s);
  }

  lemma UnheardIsEmptyIff(s: System)
    ensures Unheard(s) == [] <==> AllHeard(s)
  {
    FilterMembers(s.queue, Of(s.ui.generation));
    forall m <- s.queue | Of(s.ui.generation)(m) ensures m in Unheard(s) {
    }
    if Unheard(s) != [] {
      assert Unheard(s)[0] in Unheard(s);
    }
  }

  /** The connection is older than the timer lets one become; a tick of 0 counts as unset. */
  predicate PastDeadline(u: Ui, now: nat) {
    if u.connected then u.connectedTick != 0 && now - u.connectedTick >= WEBSOCKET_MAX_AGE_MS
    else u.connectStartedTick != 0 && now - u.connectStartedTick >= WEBSOCKET_CONNECT_TIMEOUT_MS
  }

  /** The state t waits for generation g, of which nothing was posted yet. */
  ghost predicate StartsOver(t: System, g: nat, launch: Launch) {
    && t.ui.generation == g && !t.ui.connected && t.ui.connecting == (launch == Launched)
    && (g in t.workers <==> launch == Launched)
    && AllHeard(t) && Connected(g) !in t.lost && Closed(g) !in t.lost
  }

  lemma TimerOf(s: System, now: nat, launch: Launch)
    requires Inv(s) && (s.ui.connected || s.ui.connecting)
    ensures s.ui.enabled
    ensures var t := Next(s, WebsocketTimer(now, launch));
      if PastDeadline(s.ui, now) then StartsOver(t, s.ui.generation + 1, launch) else t == s
  {
  }

  /** What a lost message costs: whenever the window thread waits, the timer ends the wait exactly when the
      deadline is past, with a new generation none of whose messages is queued or lost. */
  lemma TimerRecovers(enabled: bool, steps: seq<Step>, now: nat, launch: Launch)
    ensures var s, t := Run(enabled, steps), Run(enabled, steps + [WebsocketTimer(now, launch)]);
      s.ui.connected || s.ui.connecting ==>
        if PastDeadline(s.ui, now) then StartsOver(t, s.ui.generation + 1, launch) else t == s
  {
    var s := Run(enabled, steps);
    EveryRunKeeps(enabled, steps);
    RunsOn(enabled, steps, WebsocketTimer(now, launch));
    if s.ui.connected || s.ui.connecting {
      TimerOf(s, now, launch);
    }
  }

  lemma RunsOn(enabled: bool, steps: seq<Step>, step: Step)
    ensures var s := Run(enabled, steps);
      Run(enabled, steps + [step]) == if Enabled(s, step) then Next(s, step) else s
  {
    assert Front(steps + [step]) == steps && Last(steps + [step]) == step;
  }

  lemma HeadChecks(s: System)
    requires Inv(s) && s.queue != []
    ensures var m := s.queue[0];
      && (m.Frame? && m.generation == s.ui.generation ==>
            s.ui.activeGeneration == m.generation || Connected(m.generation) in s.lost)
      && (m.FetchResultPosted? ==> m.fetchGeneration == s.fetch.generation && s.fetch.fetching)
  {
    UnheardBeforePop(s.queue, s.ui.generation);
    FetchResultsBeforePop(s.queue);
    var m := s.queue[0];
    if m.Frame? && m.generation == s.ui.generation {
      HearFrame(CurrentPhase(s), s.ui, Filter(s.queue[1..], Of(s.ui.generation)), s.lost, m.result);
    }
  }

  /** Two checks of the handlers almost never fail: a frame of the current generation finds the connection
      announced unless the announcement was lost, and a fetch result is always the latest fetch's. */
  lemma ChecksThatNeverFail(enabled: bool, steps: seq<Step>)
    ensures var s := Run(enabled, steps);
      s.queue != [] ==>
        var m := s.queue[0];
        && (m.Frame? && m.generation == s.ui.generation ==>
              s.ui.activeGeneration == m.generation || Connected(m.generation) in s.lost)
        && (m.FetchResultPosted? ==> m.fetchGeneration == s.fetch.generation && s.fetch.fetching)
  {
    EveryRunKeeps(enabled, steps);
    if Run(enabled, steps).queue != [] {
      HeadChecks(Run(enabled, steps));
    }
  }

  lemma FrameDisplays(u: Ui, g: nat, r: FetchResult, now: nat, launch: Launch)
    ensures OnFrame(u, g, r, now, launch).display ==
      if FrameShown(u, g, r) then ApplyResult(u.display, r.sessions) else u.display
  {
  }

  lemma FetchDisplays(u: Ui, current: bool, r: FetchResult, now: nat, launch: Launch)
    ensures OnFetchDone(u, current, r, now, launch).display ==
      if current && !r.ok then u.display.(emptyCount := 0)
      else if current && FetchShown(u, r) then ApplyResult(u.display, r.sessions)
      else u.display
  {
  }

  lemma OthersDisplayNothing(s: System, step: Step)
    requires Enabled(s, step) && (!step.Dispatch? || s.queue[0].Connected? || s.queue[0].Closed?)
    ensures Next(s, step).ui.display == s.ui.display
  {
  }

  /** The step handles a frame of the current socket that passes every identity check, or a successful
      fetch result that is not missing the instance id an authority requires. */
  predicate ChangesDisplay(s: System, step: Step)
    requires Enabled(s, step)
  {
    && step.Dispatch?
    && match s.queue[0]
       case Frame(g, r) =>
         && r.ok && g == s.ui.generation && s.ui.connected && s.ui.resolved
         && (s.ui.authorityId == "" || r.instanceId == s.ui.authorityId)
         && (s.ui.socketId == "" || r.instanceId == "" || r.instanceId == s.ui.socketId)
       case FetchResultPosted(_, r) => r.ok && (r.instanceId != "" || s.ui.authorityId == "")
       case _ => false
  }

  lemma StepChangesDisplay(s: System, step: Step)
    requires Inv(s) && Enabled(s, step)
    ensures Next(s, step).ui.display.sessions == s.ui.display.sessions || ChangesDisplay(s, step)
  {
    if !step.Dispatch? || s.queue[0].Connected? || s.queue[0].Closed? {
      OthersDisplayNothing(s, step);
    } else if s.queue[0].Frame? {
      assert s.queue[0] in s.queue;
      FrameDisplays(s.ui, s.queue[0].generation, s.queue[0].result, step.now, step.launch);
    } else {
      FetchDisplays(s.ui, s.queue[0].fetchGeneration == s.fetch.generation, s.queue[0].result, step.now, step.launch);
    }
  }

  /** Nothing else changes the sessions on display: no frame of a superseded or unidentified socket, and
      no response without an instance id once an authority is known. */
  lemma DisplayChangesOnlyBy(enabled: bool, steps: seq<Step>, step: Step)
    ensures var s, t := Run(enabled, steps), Run(enabled, steps + [step]);
      t.ui.display.sessions == s.ui.display.sessions || (Enabled(s, step) && ChangesDisplay(s, step))
  {
    assert Front(steps + [step]) == steps && Last(steps + [step]) == step;
    EveryRunKeeps(enabled, steps);
    if Enabled(Run(enabled, steps), step) {
      StepChangesDisplay(Run(enabled, steps), step);
    }
  }

  /** What one step gives the display. */
  function Outcomes(s: System, step: Step): seq<Outcome>
    requires Enabled(s, step)
  {
    if !step.Dispatch? then []
    else
      match s.queue[0]
      case Frame(_, r) => if ChangesDisplay(s, step) then [Accepted(r.sessions)] else []
      case FetchResultPosted(_, r) =>
        if !r.ok then [Failed] else if ChangesDisplay(s, step) then [Accepted(r.sessions)] else []
      case _ => []
  }

  /** The display after at most one more outcome. */
  function DisplayAfter(d: Display, o: seq<Outcome>): Display {
    if o == [] then d else if o[0].Failed? then d.(emptyCount := 0) else ApplyResult(d, o[0].sessions)
  }

  lemma StepDisplays(s: System, step: Step)
    requires Inv(s) && Enabled(s, step)
    ensures Next(s, step).ui.display == DisplayAfter(s.ui.display, Outcomes(s, step))
  {
    if !step.Dispatch? || s.queue[0].Connected? || s.queue[0].Closed? {
      OthersDisplayNothing(s, step);
    } else if s.queue[0].Frame? {
      assert s.queue[0] in s.queue;
      FrameDisplays(s.ui, s.queue[0].generation, s.queue[0].result, step.now, step.launch);
    } else {
      HeadChecks(s);
      FetchDisplays(s.ui, s.queue[0].fetchGeneration == s.fetch.generation, s.queue[0].result, step.now, step.launch);
    }
  }

  /** Everything a run gave the display: the results it accepted and the fetches that failed, in order. */
  function RunOutcomes(enabled: bool, steps: seq<Step>): seq<Outcome> {
    if steps == [] then []
    else
      var before := Run(enabled, Front(steps));
      RunOutcomes(enabled, Front(steps)) + if Enabled(before, Last(steps)) then Outcomes(before, Last(steps)) else []
  }

  lemma DisplayGrows(history: seq<Outcome>, o: seq<Outcome>)
    requires |o| <= 1
    ensures Displayed(history + o) == DisplayAfter(Displayed(history), o)
  {
    if o == [] {
      assert history + o == history;
    } else {
      assert Front(history + o) == history;
    }
  }

  /** The display at the end of a run is what the run's own outcomes display. */
  lemma {:induction false} DisplayIsItsHistory(enabled: bool, steps: seq<Step>)
    ensures Displayed(RunOutcomes(enabled, steps)) == Run(enabled, steps).ui.display
  {
    if steps != [] {
      var before := Run(enabled, Front(steps));
      DisplayIsItsHistory(enabled, Front(steps));
      EveryRunKeeps(enabled, Front(steps));
      OneMoreStep(before, RunOutcomes(enabled, Front(steps)), Last(steps));
    }
  }

  lemma OneMoreStep(s: System, history: seq<Outcome>, step: Step)
    requires Inv(s) && Displayed(history) == s.ui.display
    ensures Displayed(history + if Enabled(s, step) then Outcomes(s, step) else [])
            == (if Enabled(s, step) then Next(s, step) else s).ui.display
  {
    if Enabled(s, step) {
      StepDisplays(s, step);
      DisplayGrows(history, Outcomes(s, step));
    } else {
      DisplayGrows(history, []);
    }
  }

  /** In every reachable state the widget shows the last nonempty result the run accepted, unless the run
      accepted six empty ones in a row behind it, with no failed fetch between them; then it shows nothing. */
  lemma RunShows(enabled: bool, steps: seq<Step>)
    ensures var history, sessions := RunOutcomes(enabled, steps), Run(enabled, steps).ui.display.sessions;
      && (sessions != [] <==> exists k | 0 <= k < |history| :: Confirmed(history, k))
      && (forall k | 0 <= k < |history| && Confirmed(history, k) :: sessions == history[k].sessions)
  {
    var history := RunOutcomes(enabled, steps);
    DisplayIsItsHistory(enabled, steps);
    forall k: nat | k < |history| && Confirmed(history, k)
      ensures Run(enabled, steps).ui.display.sessions == history[k].sessions
    {
      DisplayMeans(history, k);
    }
    if Displayed(history).sessions != [] {
      var k := DisplayedList(history);
      assert Confirmed(history, k);
    }
  }

  /** A step that clears the display is the sixth in a row to accept an empty result. */
  lemma RunClears(enabled: bool, steps: seq<Step>, step: Step)
    requires Run(enabled, steps).ui.display.sessions != [] && Run(enabled, steps + [step]).ui.display.sessions == []
    ensures var history := RunOutcomes(enabled, steps + [step]);
      && history == RunOutcomes(enabled, steps) + [Accepted([])]
      && |history| > EMPTY_RESULT_CONFIRMATIONS && EmptyRun(history, |history|, EMPTY_RESULT_CONFIRMATIONS)
  {
    var before := Run(enabled, steps);
    var earlier, history := RunOutcomes(enabled, steps), RunOutcomes(enabled, steps + [step]);
    assert Front(steps + [step]) == steps;
    DisplayIsItsHistory(enabled, steps);
    DisplayIsItsHistory(enabled, steps + [step]);
    var o := if Enabled(before, step) then Outcomes(before, step) else [];
    assert history == earlier + o;
    assert earlier + [] == earlier;
    assert Front(history) == earlier;
    var shown := Clearing(history);
    assert IsEmpty(history[|history| - 1]);
  }
}
