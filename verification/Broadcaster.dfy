/** Broadcasting state to WebSocket clients that register at any moment
    (src/codex_cli_monitor/websocket_sync.py). */
module Broadcaster {
  import opened Sequences

  /** A queued frame: a state snapshot, told by its state signature, or a control frame. */
  datatype Frame = Snapshot(signature: int) | Control

  /** The signature of the last state a client was sent. */
  function LastSnapshot(queue: seq<Frame>): Option<int> {
    if queue == [] then None
    else if Last(queue).Snapshot? then Some(Last(queue).signature)
    else LastSnapshot(Front(queue))
  }

  // ---- the objects, one undisturbed call at a time --------------------------------------------------

  class SyncWebSocketClient {
    var closed: bool
    /** Everything ever put on the send queue. */
    var sendQueue: seq<Frame>

    constructor ()
      ensures !closed && sendQueue == []
    {
      closed, sendQueue := false, [];
    }

    method Send(frame: Frame)
      modifies this`sendQueue
      ensures sendQueue == if closed then old(sendQueue) else old(sendQueue) + [frame]
    {
      if closed {
        return;
      }
      sendQueue := sendQueue + [frame];
    }

    method Close()
      modifies this`closed
      ensures closed
    {
      closed := true;
    }

    predicate Shows(signature: Option<int>) reads this {
      LastSnapshot(sendQueue) == signature
    }
  }

  class WebSocketBroadcaster {
    var clients: set<SyncWebSocketClient>
    var pendingSync: set<SyncWebSocketClient>
    var lastStateHash: Option<int>

    constructor ()
      ensures clients == {} && pendingSync == {} && lastStateHash == None
    {
      clients, pendingSync, lastStateHash := {}, {}, None;
    }

    /** Every registered open client waits for the next pass or shows the last state. */
    ghost predicate InSync()
      reads this, clients
    {
      forall c <- clients :: !c.closed ==> c in pendingSync || c.Shows(lastStateHash)
    }

    method Register(client: SyncWebSocketClient, initial: Option<int>)
      modifies this`clients, this`pendingSync, client`sendQueue
      ensures clients == old(clients) + {client}
      ensures pendingSync == if initial.Some? then old(pendingSync) + {client} else old(pendingSync)
      ensures initial.Some? && !client.closed ==> client.sendQueue == old(client.sendQueue) + [Snapshot(initial.value)]
      ensures initial.None? || client.closed ==> client.sendQueue == old(client.sendQueue)
      ensures initial.Some? && old(InSync()) ==> InSync()
    {
      clients := clients + {client};
      if initial.Some? {
        client.Send(Snapshot(initial.value));
        pendingSync := pendingSync + {client};
      }
    }

    method Unregister(client: SyncWebSocketClient)
      modifies this`clients, this`pendingSync
      ensures clients == old(clients) - {client} && pendingSync == old(pendingSync) - {client}
      ensures old(InSync()) ==> InSync()
    {
      clients, pendingSync := clients - {client}, pendingSync - {client};
    }

    /** One pass that nothing interrupts. It sends the state, once, to every open client when the
        state changed and to the pending ones otherwise, and leaves every open client showing it. */
    method Broadcast(signature: int)
      modifies this`pendingSync, this`lastStateHash, clients`sendQueue
      ensures clients == old(clients) && pendingSync == {} && lastStateHash == Some(signature)
      ensures forall c <- clients ::
        c.sendQueue == (if (old(lastStateHash) != Some(signature) || c in old(pendingSync)) && !c.closed
                        then old(c.sendQueue) + [Snapshot(signature)]
                        else old(c.sendQueue))
      ensures old(InSync()) ==> forall c <- clients :: !c.closed ==> c.Shows(Some(signature))
    {
      var stateChanged := lastStateHash != Some(signature);
      lastStateHash := Some(signature);
      var pending := pendingSync;
      pendingSync := {};
      if !stateChanged && pending == {} {
        return;
      }
      var todo := clients;
      while todo != {}
        invariant todo <= clients && clients == old(clients)
        invariant lastStateHash == Some(signature) && pendingSync == {}
        invariant forall c <- todo :: c.sendQueue == old(c.sendQueue)
        invariant forall c <- clients - todo ::
          c.sendQueue == (if (stateChanged || c in pending) && !c.closed
                          then old(c.sendQueue) + [Snapshot(signature)]
                          else old(c.sendQueue))
        decreases |todo|
      {
        var client :| client in todo;
        todo := todo - {client};
        if (stateChanged || client in pending) && !client.closed {
          client.Send(Snapshot(signature));
        }
      }
    }
  }

  // ---- the same protocol under any interleaving --------------------------------------------------------

  /** Where the one broadcasting thread is: idle, or past its locked section with its private copies of
      the flags, the pending clients and the clients it has not reached yet. */
  datatype Pass = Idle | Sending(signature: int, changed: bool, pending: set<nat>, todo: set<nat>, dead: set<nat>)

  datatype State = State(
    clients: set<nat>, pendingSync: set<nat>, lastStateHash: Option<int>, closed: set<nat>,
    queues: map<nat, seq<Frame>>, pass: Pass)

  /** Each action is one locked section, or one unlocked step, of some thread. */
  datatype Action =
    | Register(client: nat, initial: int) | Unregister(client: nat) | Close(client: nat) | Ping(client: nat)
    | BeginPass(signature: int) | SendTo(client: nat) | SendFails(client: nat) | EndPass

  const EMPTY := State({}, {}, None, {}, map[], Idle)

  function Queue(s: State, c: nat): seq<Frame> {
    if c in s.queues then s.queues[c] else []
  }

  function Put(s: State, c: nat, f: Frame): State {
    if c in s.closed then s else s.(queues := s.queues[c := Queue(s, c) + [f]])
  }

  function Next(s: State, a: Action): State {
    match a
    case Register(c, initial) =>
      Put(s, c, Snapshot(initial)).(clients := s.clients + {c}, pendingSync := s.pendingSync + {c})
    case Unregister(c) => s.(clients := s.clients - {c}, pendingSync := s.pendingSync - {c})
    case Close(c) => s.(closed := s.closed + {c})
    case Ping(c) => Put(s, c, Control)
    case BeginPass(signature) => if s.pass.Idle? then Begin(s, signature) else s
    case SendTo(c) =>
      if s.pass.Sending? && c in s.pass.todo then
        var sent := if s.pass.changed || c in s.pass.pending then Put(s, c, Snapshot(s.pass.signature)) else s;
        sent.(pass := s.pass.(todo := s.pass.todo - {c}))
      else s
    case SendFails(c) =>
      if s.pass.Sending? && c in s.pass.todo
      then s.(pass := s.pass.(todo := s.pass.todo - {c}, dead := s.pass.dead + {c}))
      else s
    case EndPass =>
      if s.pass.Sending? && s.pass.todo == {} then s.(clients := s.clients - s.pass.dead, pass := Idle) else s
  }

  function Begin(s: State, signature: int): State {
    var changed := s.lastStateHash != Some(signature);
    s.(lastStateHash := Some(signature), pendingSync := {},
       pass := if !changed && s.pendingSync == {} then Idle
         else Sending(signature, changed, s.pendingSync, s.clients, {}))
  }

  function Run(s: State, schedule: seq<Action>): State {
    if schedule == [] then s else Next(Run(s, Front(schedule)), Last(schedule))
  }

  predicate Shows(s: State, c: nat) {
    LastSnapshot(Queue(s, c)) == s.lastStateHash
  }

  /** The pass under way will still send its state to c, or has given it up. */
  predicate Reaches(p: Pass, c: nat) {
    p.Sending? && ((c in p.todo && (p.changed || c in p.pending)) || c in p.dead)
  }

  ghost predicate Inv(s: State) {
    && (s.pass.Sending? ==> s.lastStateHash == Some(s.pass.signature))
    && forall c <- s.clients :: c !in s.closed ==> c in s.pendingSync || Shows(s, c) || Reaches(s.pass, c)
  }

  lemma PutShows(s: State, c: nat, f: Frame, d: nat)
    ensures LastSnapshot(Queue(Put(s, c, f), d)) ==
      if d == c && c !in s.closed && f.Snapshot? then Some(f.signature) else LastSnapshot(Queue(s, d))
  {
    assert Front(Queue(s, c) + [f]) == Queue(s, c);
  }

  lemma NextKeeps(s: State, a: Action)
    requires Inv(s)
    ensures Inv(Next(s, a))
  {
    var t := Next(s, a);
    forall c <- t.clients | c !in t.closed ensures c in t.pendingSync || Shows(t, c) || Reaches(t.pass, c) {
      match a
      case Register(d, initial) => PutShows(s, d, Snapshot(initial), c);
      case Ping(d) => PutShows(s, d, Control, c);
      case SendTo(d) =>
        if s.pass.Sending? {
          PutShows(s, d, Snapshot(s.pass.signature), c);
        }
      case _ =>
    }
  }

  lemma {:induction false} RunKeeps(s: State, schedule: seq<Action>)
    requires Inv(s)
    ensures Inv(Run(s, schedule))
  {
    if schedule != [] {
      RunKeeps(s, Front(schedule));
      NextKeeps(Run(s, Front(schedule)), Last(schedule));
    }
  }

  /** Under any interleaving of registrations, departures, closings, pings and passes, between passes
      every registered open client is pending or shows the state whose signature was broadcast last. */
  lemma InSyncBetweenPasses(schedule: seq<Action>, c: nat)
    requires var s := Run(EMPTY, schedule); s.pass.Idle? && c in s.clients && c !in s.closed
    ensures var s := Run(EMPTY, schedule); c in s.pendingSync || Shows(s, c)
  {
    RunKeeps(EMPTY, schedule);
  }

  /** No action of the schedule concerns the client's membership, and none starts another pass. */
  ghost predicate LeavesAlone(schedule: seq<Action>, c: nat) {
    forall a <- schedule ::
      !a.BeginPass? && (a.Register? || a.Unregister? || a.Close? || a.SendFails? ==> a.client != c)
  }

  lemma {:induction false} Undisturbed(s: State, schedule: seq<Action>, c: nat)
    requires LeavesAlone(schedule, c) && c in s.clients && c !in s.closed && c !in s.pendingSync
    requires s.pass.Sending? ==> c !in s.pass.dead
    ensures var t := Run(s, schedule);
      && c in t.clients && c !in t.closed && c !in t.pendingSync && t.lastStateHash == s.lastStateHash
      && (t.pass.Sending? ==> c !in t.pass.dead)
  {
    if schedule != [] {
      assert Last(schedule) in schedule && forall a <- Front(schedule) :: a in schedule;
      Undisturbed(s, Front(schedule), c);
    }
  }

  /** A stale initial snapshot does not survive the next pass: a client registered before a pass began
      and neither leaving nor re-registering shows that pass's state once the pass is over, whatever
      else happens meanwhile. */
  lemma PassReachesEveryone(before: seq<Action>, signature: int, during: seq<Action>, c: nat)
    requires var s := Run(EMPTY, before); s.pass.Idle? && c in s.clients && c !in s.closed
    requires LeavesAlone(during, c)
    requires Run(Next(Run(EMPTY, before), BeginPass(signature)), during).pass.Idle?
    ensures LastSnapshot(Queue(Run(Next(Run(EMPTY, before), BeginPass(signature)), during), c)) == Some(signature)
  {
    var s := Run(EMPTY, before);
    RunKeeps(EMPTY, before);
    NextKeeps(s, BeginPass(signature));
    var t := Next(s, BeginPass(signature));
    RunKeeps(t, during);
    Undisturbed(t, during, c);
  }

  // ---- a pass that fails between its locked section and its sends ---------------------------------------

  /** Building the payload raised: the locked section is done, and nothing is sent. */
  function Abandoned(s: State, signature: int): State {
    Begin(s, signature).(pass := Idle)
  }

  /** What holds between passes: every registered open client is pending or shows the last state. */
  ghost predicate Guaranteed(s: State) {
    forall c <- s.clients :: c !in s.closed ==> c in s.pendingSync || Shows(s, c)
  }

  /** The abandoned pass loses nothing: pending open clients were already sent this state, and when some
      open client is not pending, the state had not changed. */
  ghost predicate NothingToLose(s: State, signature: int) {
    && (forall c <- s.clients * s.pendingSync :: c !in s.closed ==> LastSnapshot(Queue(s, c)) == Some(signature))
    && (s.lastStateHash == Some(signature) || forall c <- s.clients :: c in s.closed || c in s.pendingSync)
  }

  /** In every reachable state between passes: an abandoned pass keeps the guarantee if and only if it had
      nothing to lose. */
  lemma AbandonedPassKeepsIff(schedule: seq<Action>, signature: int)
    requires Run(EMPTY, schedule).pass.Idle?
    ensures Guaranteed(Run(EMPTY, schedule))
    ensures Guaranteed(Abandoned(Run(EMPTY, schedule), signature)) <==> NothingToLose(Run(EMPTY, schedule), signature)
  {
    var s := Run(EMPTY, schedule);
    RunKeeps(EMPTY, schedule);
    var t := Abandoned(s, signature);
    if Guaranteed(t) {
      forall c <- s.clients | c !in s.closed ensures LastSnapshot(Queue(s, c)) == Some(signature) {
        assert c in t.clients && Queue(t, c) == Queue(s, c);
      }
    } else {
      var c :| c in t.clients && c !in t.closed && !(c in t.pendingSync || Shows(t, c));
      assert c in s.clients && Queue(t, c) == Queue(s, c);
      assert c in s.pendingSync ==> c in s.clients * s.pendingSync;
    }
  }

  /** Passes of this schedule only ever broadcast the given state, and the client does not register again. */
  ghost predicate Repeats(schedule: seq<Action>, c: nat, signature: int) {
    forall a <- schedule :: (a.BeginPass? ==> a.signature == signature) && (a.Register? ==> a.client != c)
  }

  /** The state was broadcast, and no pass under way sends the client anything. */
  ghost predicate PassedOver(s: State, c: nat, signature: int) {
    && s.lastStateHash == Some(signature) && c !in s.pendingSync
    && (s.pass.Sending? ==> !s.pass.changed && c !in s.pass.pending)
  }

  lemma PassedOverStep(s: State, a: Action, c: nat, signature: int)
    requires PassedOver(s, c, signature)
    requires (a.BeginPass? ==> a.signature == signature) && (a.Register? ==> a.client != c)
    ensures PassedOver(Next(s, a), c, signature)
    ensures LastSnapshot(Queue(Next(s, a), c)) == LastSnapshot(Queue(s, c))
  {
    match a
    case Register(d, initial) => PutShows(s, d, Snapshot(initial), c);
    case Ping(d) => PutShows(s, d, Control, c);
    case SendTo(d) =>
      if s.pass.Sending? {
        PutShows(s, d, Snapshot(s.pass.signature), c);
      }
    case _ =>
  }

  /** A client left behind stays behind: while the state does not change, no schedule sends it anything. */
  lemma {:induction false} StaysBehind(s: State, schedule: seq<Action>, c: nat, signature: int)
    requires PassedOver(s, c, signature) && Repeats(schedule, c, signature)
    ensures PassedOver(Run(s, schedule), c, signature)
    ensures LastSnapshot(Queue(Run(s, schedule), c)) == LastSnapshot(Queue(s, c))
  {
    if schedule != [] {
      assert Last(schedule) in schedule && forall x <- Front(schedule) :: x in schedule;
      StaysBehind(s, Front(schedule), c, signature);
      PassedOverStep(Run(s, Front(schedule)), Last(schedule), c, signature);
    }
  }

  /** The input that shows it: one client registers with an old state while a pass for a new one fails. From
      then on, whatever happens but a change of state or a new registration, it shows the old one. */
  lemma AbandonedPassLosesAClient(c: nat, stale: int, signature: int, schedule: seq<Action>)
    requires stale != signature && Repeats(schedule, c, signature)
    ensures var s := Run(EMPTY, [Register(c, stale)]);
      && s.pass.Idle? && Guaranteed(s) && !NothingToLose(s, signature) && !Guaranteed(Abandoned(s, signature))
      && LastSnapshot(Queue(Run(Abandoned(s, signature), schedule), c)) == Some(stale)
  {
    var first := [Register(c, stale)];
    var s := Run(EMPTY, first);
    assert Front(first) == [] && Last(first) == Register(c, stale);
    assert Run(EMPTY, Front(first)) == EMPTY;
    PutShows(EMPTY, c, Snapshot(stale), c);
    var t := Abandoned(s, signature);
    assert c in s.clients * s.pendingSync && c in t.clients && Queue(t, c) == Queue(s, c);
    StaysBehind(t, schedule, c, signature);
  }
}
