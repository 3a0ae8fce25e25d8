/**
 * What the commands of the command server come to (crates/snxcore/src/server.rs): how they end under every
 * interleaving, and everything that a single command does when nothing else happens meanwhile.
 */
module ServerCommands {
  import opened Wrappers
  import opened ConnectionStates
  import opened CommandServer

  predicate IsEmpty(s: Shared) {
    s.status == Disconnected && s.session == None && s.connector == None && s.cancel == None && s.poller == None
  }

  // ----- How handlers end -----

  /** A handler that ends after a disconnect or a failure leaves an empty record. */
  lemma FinishingEmpties(s: System, c: ClientId)
    requires ClientAt(s, c).Disconnecting? || ClientAt(s, c).Failing?
    ensures var t := Step(s, Advance(c));
            ClientAt(t, c).Idle? && IsEmpty(t.shared)
  {
  }

  /** So does the event task with a disconnected event, or with an event that the connector refused. */
  lemma EndingEventEmpties(s: System, poller: Option<string>)
    requires s.events == Applying(TunnelDisconnected) || s.events.Refused?
    ensures var t := Step(s, EventAdvances(poller));
            t.events.Waiting? && IsEmpty(t.shared)
  {
  }

  predicate InDisconnect(state: ClientState) {
    state.CancelFired? || state.NeedsDelete? || state.AwaitDelete? || state.NeedsTerminate? || state.AwaitTerminate?
    || state.Disconnecting?
  }

  /** The only way out of a disconnect. */
  lemma LeavesDisconnect(s: System, action: Action, c: ClientId)
    requires InDisconnect(ClientAt(s, c)) && !InDisconnect(ClientAt(Step(s, action), c))
    ensures action == Advance(c) && ClientAt(s, c).Disconnecting?
  {
    match action
    case Advance(k) => if k != c { OthersStay(s, k, c); }
    case _ =>
  }

  lemma OthersStay(s: System, k: ClientId, c: ClientId)
    requires k != c
    ensures ClientAt(AdvanceClient(s, k), c) == ClientAt(s, c)
  {
  }

  /** The states of a run, one after every step. */
  ghost predicate IsRun(states: seq<System>, actions: seq<Action>) {
    && |states| == |actions| + 1
    && states[0] == START
    && forall i | 0 <= i < |actions| :: states[i + 1] == Step(states[i], actions[i])
  }

  /** Every sequence of actions has its run, and it is the one that all other results are about. */
  lemma {:induction false} HasRun(actions: seq<Action>) returns (states: seq<System>)
    ensures IsRun(states, actions) && states[|actions|] == Run(actions)
  {
    if actions == [] {
      states := [START];
    } else {
      var n := |actions| - 1;
      var before := HasRun(actions[..n]);
      states := before + [Step(before[n], actions[n])];
      forall i | 0 <= i < |actions|
        ensures states[i + 1] == Step(states[i], actions[i])
      {
        assert i < n ==> actions[..n][i] == actions[i];
      }
    }
  }

  /** Under every interleaving: a disconnect that has ended has left an empty record at the moment of its end. */
  lemma {:induction false} DisconnectEndsEmpty(states: seq<System>, actions: seq<Action>, n: nat, c: ClientId)
      returns (k: nat)
    requires IsRun(states, actions) && n <= |actions|
    requires InDisconnect(ClientAt(states[n], c)) && !InDisconnect(ClientAt(states[|actions|], c))
    ensures n < k <= |actions|
    ensures ClientAt(states[k], c).Idle? && IsEmpty(states[k].shared)
    ensures forall m | n <= m < k :: InDisconnect(ClientAt(states[m], c))
    decreases |actions| - n
  {
    var s, t := states[n], states[n + 1];
    assert t == Step(s, actions[n]);
    if InDisconnect(ClientAt(t, c)) {
      k := DisconnectEndsEmpty(states, actions, n + 1, c);
    } else {
      LeavesDisconnect(s, actions[n], c);
      FinishingEmpties(s, c);
      k := n + 1;
    }
  }

  // ----- Queues and events -----

  /** No queue holds more than sixteen requests; and an event is only ever handled once a tunnel has been started. */
  predicate WithinBounds(s: System) {
    && (forall a | 0 <= a < |s.actors| :: |s.actors[a].requests| <= 16)
    && (s.tunnels == 0 ==> s.events.Waiting?)
  }

  lemma AdvanceKeepsBounds(s: System, c: ClientId)
    requires WithinBounds(s)
    ensures WithinBounds(AdvanceClient(s, c))
  {
  }

  lemma EventKeepsBounds(s: System, poller: Option<string>)
    requires WithinBounds(s)
    ensures WithinBounds(AdvanceEvent(s, poller))
  {
  }

  lemma StepKeepsBounds(s: System, action: Action)
    requires WithinBounds(s)
    ensures WithinBounds(Step(s, action))
  {
    match action
    case Advance(c) => AdvanceKeepsBounds(s, c);
    case EventAdvances(poller) => EventKeepsBounds(s, poller);
    case _ =>
  }

  lemma {:induction false} AlwaysWithinBounds(actions: seq<Action>)
    ensures WithinBounds(Run(actions))
  {
    if actions != [] {
      var last := |actions| - 1;
      AlwaysWithinBounds(actions[..last]);
      StepKeepsBounds(Run(actions[..last]), actions[last]);
    }
  }

  // ----- What a disconnect tells the connector -----

  /** This step puts the request into the actor's queue. */
  predicate Queues(before: System, after: System, a: ActorId, request: Request) {
    && a < |before.actors| == |after.actors|
    && after.actors[a].requests == before.actors[a].requests + [request]
  }

  predicate SentWithin(states: seq<System>, n: nat, m: nat, a: ActorId, request: Request)
    requires m < |states|
  {
    exists i: nat | n <= i < m :: Queues(states[i], states[i + 1], a, request)
  }

  /** First the deletion of the session, then the end of the tunnel. */
  ghost predicate BothSent(states: seq<System>, n: nat, m: nat, c: ClientId)
    requires m < |states|
  {
    exists a: ActorId, j: nat | n <= j < m ::
      && Queues(states[j], states[j + 1], a, Request(TerminateTunnel, Client(c)))
      && SentWithin(states, n, j, a, Request(DeleteSession, Client(c)))
  }

  /** When the handler looked for a connector, there was none. */
  predicate FiredAlone(states: seq<System>, n: nat, m: nat, c: ClientId)
    requires m < |states|
  {
    exists i: nat | n <= i < m :: ClientAt(states[i], c).CancelFired? && states[i].shared.connector == None
  }

  /** How far the handler is, and what it has sent by then. */
  ghost predicate Told(states: seq<System>, n: nat, m: nat, c: ClientId)
    requires m < |states|
  {
    match ClientAt(states[m], c)
    case AwaitDelete(a) => SentWithin(states, n, m, a, Request(DeleteSession, Client(c)))
    case NeedsTerminate(a) => SentWithin(states, n, m, a, Request(DeleteSession, Client(c)))
    case AwaitTerminate => BothSent(states, n, m, c)
    case Disconnecting => BothSent(states, n, m, c) || FiredAlone(states, n, m, c)
    case _ => true
  }

  /** One step of a disconnect: to where it leads, and what it puts into a queue. */
  lemma DisconnectStep(s: System, action: Action, c: ClientId)
    requires InDisconnect(ClientAt(s, c)) && ClientAt(Step(s, action), c) != ClientAt(s, c)
    ensures var t := Step(s, action);
            match ClientAt(s, c)
            case CancelFired =>
              if s.shared.connector.None? then ClientAt(t, c).Disconnecting?
              else ClientAt(t, c) == NeedsDelete(s.shared.connector.value)
            case NeedsDelete(a) =>
              ClientAt(t, c) == AwaitDelete(a) && Queues(s, t, a, Request(DeleteSession, Client(c)))
            case AwaitDelete(a) => ClientAt(t, c) == NeedsTerminate(a)
            case NeedsTerminate(a) =>
              ClientAt(t, c).AwaitTerminate? && Queues(s, t, a, Request(TerminateTunnel, Client(c)))
            case AwaitTerminate => ClientAt(t, c).Disconnecting?
            case _ => ClientAt(t, c).Idle?
  {
    match action
    case Advance(k) => if k != c { OthersStay(s, k, c); }
    case _ =>
  }

  lemma ToldNext(states: seq<System>, action: Action, n: nat, m: nat, c: ClientId)
    requires n <= m && m + 1 < |states| && states[m + 1] == Step(states[m], action)
    requires InDisconnect(ClientAt(states[m], c)) && InDisconnect(ClientAt(states[m + 1], c))
    requires Told(states, n, m, c)
    ensures Told(states, n, m + 1, c)
  {
    var s, t := states[m], states[m + 1];
    if ClientAt(t, c) != ClientAt(s, c) {
      DisconnectStep(s, action, c);
      match ClientAt(s, c)
      case CancelFired =>
        assert s.shared.connector.None? ==> FiredAlone(states, n, m + 1, c);
      case NeedsDelete(a) =>
        assert Queues(states[m], states[m + 1], a, Request(DeleteSession, Client(c)));
      case NeedsTerminate(a) =>
        assert Queues(states[m], states[m + 1], a, Request(TerminateTunnel, Client(c)));
      case _ =>
    }
  }

  /**
   * Under every interleaving: before a disconnect ends, its connector has been sent the deletion of the session and
   * then the end of the tunnel, or there was no connector when the handler looked for it.
   */
  lemma {:induction false} DisconnectTellsConnector(states: seq<System>, actions: seq<Action>, n: nat, m: nat,
      c: ClientId)
    requires IsRun(states, actions) && n <= m <= |actions|
    requires ClientAt(states[n], c).CancelFired?
    requires forall i | n <= i <= m :: InDisconnect(ClientAt(states[i], c))
    ensures Told(states, n, m, c)
    ensures ClientAt(states[m], c).Disconnecting? ==> BothSent(states, n, m, c) || FiredAlone(states, n, m, c)
    decreases m
  {
    if n < m {
      DisconnectTellsConnector(states, actions, n, m - 1, c);
      assert states[m - 1 + 1] == Step(states[m - 1], actions[m - 1]);
      ToldNext(states, actions[m - 1], n, m - 1, c);
    }
  }

  // ----- Single commands, with nothing else happening -----

  /** A system, and the operations that its actors have completed, in order. */
  datatype Trace = Trace(system: System, done: seq<(ActorId, Operation)>)

  function Completes(s: System, action: Action): seq<(ActorId, Operation)> {
    if action.ActorFinishes? && Running(s, action.actor)
    then [(action.actor, s.actors[action.actor].requests[0].operation)] else []
  }

  function Play(t: Trace, actions: seq<Action>): Trace
    decreases |actions|
  {
    if actions == [] then t
    else Play(Trace(Step(t.system, actions[0]), t.done + Completes(t.system, actions[0])), actions[1..])
  }

  lemma {:induction false} PlayOn(t: Trace, first: seq<Action>, then': seq<Action>)
    ensures Play(t, first + then') == Play(Play(t, first), then')
    decreases |first|
  {
    if first == [] {
      assert first + then' == then';
    } else {
      assert (first + then')[1..] == first[1..] + then';
      PlayOn(Trace(Step(t.system, first[0]), t.done + Completes(t.system, first[0])), first[1..], then');
    }
  }

  /** Only this client and this actor do anything. */
  predicate Alone(actions: seq<Action>, c: ClientId, a: ActorId) {
    forall x | x in actions ::
      match x
      case BeginConnect(k, _) => k == c
      case BeginChallenge(k, _) => k == c
      case BeginDisconnect(k) => k == c
      case Advance(k) => k == c
      case FactoryReplies(k, _) => k == c
      case ActorStarts(b) => b == a
      case ActorFinishes(b, _) => b == a
      case _ => false
  }

  /** One action more. */
  lemma More(t: Trace, actions: seq<Action>, last: Action, c: ClientId, a: ActorId) returns (longer: seq<Action>)
    requires Alone(actions, c, a) && Alone([last], c, a)
    ensures longer == actions + [last] && Alone(longer, c, a)
    ensures var now := Play(t, actions);
            Play(t, longer) == Trace(Step(now.system, last), now.done + Completes(now.system, last))
  {
    longer := actions + [last];
    PlayOn(t, actions, [last]);
    assert [last][1..] == [];
    assert last in [last];
  }

  predicate IsFree(s: System, a: ActorId) {
    a < |s.actors| && s.actors[a] == Actor([], false)
  }

  /** The system with another state of one handler, another record and other replies. */
  function Put(s: System, c: ClientId, state: ClientState, shared: Shared, replies: map<Requester, Reply>): System {
    s.(clients := s.clients[c := state], shared := shared, replies := replies)
  }

  lemma PutTwice(s: System, c: ClientId, state: ClientState, shared: Shared, replies: map<Requester, Reply>,
      after: ClientState)
    ensures SetClient(Put(s, c, state, shared, replies), c, after) == Put(s, c, after, shared, replies)
  {
    assert s.clients[c := state][c := after] == s.clients[c := after];
  }

  /** In this state the handler sends a request, and waits. */
  ghost predicate Sends(from: ClientState, a: ActorId, operation: Operation, waiting: ClientState) {
    forall s: System, c: ClientId | ClientAt(s, c) == from && CanSend(s, a) ::
      AdvanceClient(s, c) == SetClient(Send(s, a, Request(operation, Client(c))), c, waiting)
  }

  /** With this reply the handler that waits goes on to this state. */
  ghost predicate GoesOn(waiting: ClientState, reply: Reply, next: ClientState) {
    forall s: System, c: ClientId |
        ClientAt(s, c) == waiting && Client(c) in s.replies && s.replies[Client(c)] == reply ::
      AdvanceClient(s, c) == SetClient(s, c, next)
  }

  lemma ServedActor(s: System, c: ClientId, a: ActorId, request: Request, waiting: ClientState, reply: Reply)
    requires IsFree(s, a) && request.from == Client(c)
    ensures var sent := SetClient(Send(s, a, request), c, waiting);
            var started := Step(sent, ActorStarts(a));
            && Completes(sent, ActorStarts(a)) == []
            && Completes(started, ActorFinishes(a, reply)) == [(a, request.operation)]
            && Step(started, ActorFinishes(a, reply))
               == s.(clients := s.clients[c := waiting], replies := s.replies[Client(c) := reply])
  {
    var sent := SetClient(Send(s, a, request), c, waiting);
    var started := Step(sent, ActorStarts(a));
    assert sent.actors[a].requests == [request];
    assert started.actors[a] == Actor([request], true);
    var finished := Step(started, ActorFinishes(a, reply));
    assert [request][1..] == [];
    assert finished.actors == s.actors;
    assert finished.replies == s.replies[Client(c) := reply];
  }

  lemma ServedPut(s: System, c: ClientId, a: ActorId, from: ClientState, shared: Shared,
      replies: map<Requester, Reply>, operation: Operation, waiting: ClientState, reply: Reply)
    requires IsFree(s, a)
    ensures var sent := SetClient(Send(Put(s, c, from, shared, replies), a, Request(operation, Client(c))), c, waiting);
            var started := Step(sent, ActorStarts(a));
            && Completes(sent, ActorStarts(a)) == []
            && Completes(started, ActorFinishes(a, reply)) == [(a, operation)]
            && Step(started, ActorFinishes(a, reply)) == Put(s, c, waiting, shared, replies[Client(c) := reply])
  {
    ServedActor(Put(s, c, from, shared, replies), c, a, Request(operation, Client(c)), waiting, reply);
    assert s.clients[c := from][c := waiting] == s.clients[c := waiting];
  }

  lemma SendStep(s: System, c: ClientId, a: ActorId, from: ClientState, shared: Shared,
      replies: map<Requester, Reply>, operation: Operation, waiting: ClientState)
    requires IsFree(s, a) && Sends(from, a, operation, waiting)
    ensures var now := Put(s, c, from, shared, replies);
            CanSend(now, a)
            && Step(now, Advance(c)) == SetClient(Send(now, a, Request(operation, Client(c))), c, waiting)
  {
    var now := Put(s, c, from, shared, replies);
    assert ClientAt(now, c) == from && CanSend(now, a);
  }

  lemma ReplyStep(s: System, c: ClientId, shared: Shared, replies: map<Requester, Reply>, waiting: ClientState,
      reply: Reply, next: ClientState)
    requires GoesOn(waiting, reply, next) && Client(c) in replies && replies[Client(c)] == reply
    ensures Step(Put(s, c, waiting, shared, replies), Advance(c)) == Put(s, c, next, shared, replies)
  {
    assert ClientAt(Put(s, c, waiting, shared, replies), c) == waiting;
    PutTwice(s, c, waiting, shared, replies, next);
  }

  /** One step of the handler, or of what it waits for, that completes nothing. */
  lemma Quietly(t: Trace, actions: seq<Action>, last: Action, c: ClientId, a: ActorId, next: System)
      returns (longer: seq<Action>)
    requires Alone(actions, c, a) && Alone([last], c, a) && !last.ActorFinishes?
    requires Step(Play(t, actions).system, last) == next
    ensures Alone(longer, c, a) && Play(t, longer) == Trace(next, Play(t, actions).done)
  {
    longer := More(t, actions, last, c, a);
    assert Play(t, actions).done + [] == Play(t, actions).done;
  }

  /** The handler sends its request to a free actor, which completes it. */
  lemma AskOnly(t: Trace, actions: seq<Action>, s: System, c: ClientId, a: ActorId, from: ClientState, shared: Shared,
      replies: map<Requester, Reply>, operation: Operation, waiting: ClientState, reply: Reply)
      returns (longer: seq<Action>)
    requires Alone(actions, c, a) && IsFree(s, a) && Play(t, actions).system == Put(s, c, from, shared, replies)
    requires Sends(from, a, operation, waiting)
    ensures Alone(longer, c, a)
    ensures Play(t, longer)
         == Trace(Put(s, c, waiting, shared, replies[Client(c) := reply]), Play(t, actions).done + [(a, operation)])
  {
    var now, request := Put(s, c, from, shared, replies), Request(operation, Client(c));
    SendStep(s, c, a, from, shared, replies, operation, waiting);
    ServedPut(s, c, a, from, shared, replies, operation, waiting, reply);
    var sent := SetClient(Send(now, a, request), c, waiting);
    longer := Quietly(t, actions, Advance(c), c, a, sent);
    longer := Quietly(t, longer, ActorStarts(a), c, a, Step(sent, ActorStarts(a)));
    longer := More(t, longer, ActorFinishes(a, reply), c, a);
  }

  /** And it goes on with the reply. */
  lemma Ask(t: Trace, actions: seq<Action>, s: System, c: ClientId, a: ActorId, from: ClientState, shared: Shared,
      replies: map<Requester, Reply>, operation: Operation, waiting: ClientState, reply: Reply, next: ClientState)
      returns (longer: seq<Action>)
    requires Alone(actions, c, a) && IsFree(s, a) && Play(t, actions).system == Put(s, c, from, shared, replies)
    requires Sends(from, a, operation, waiting) && GoesOn(waiting, reply, next)
    ensures Alone(longer, c, a)
    ensures Play(t, longer)
         == Trace(Put(s, c, next, shared, replies[Client(c) := reply]), Play(t, actions).done + [(a, operation)])
  {
    longer := AskOnly(t, actions, s, c, a, from, shared, replies, operation, waiting, reply);
    ReplyStep(s, c, shared, replies[Client(c) := reply], waiting, reply, next);
    longer := Quietly(t, longer, Advance(c), c, a, Put(s, c, next, shared, replies[Client(c) := reply]));
  }

  /** The last step after a disconnect or a failure. */
  lemma Clears(s: System, c: ClientId, from: ClientState, shared: Shared, replies: map<Requester, Reply>)
    requires from.Disconnecting? || from.Failing?
    ensures Step(Put(s, c, from, shared, replies), Advance(c)) == Put(s, c, Idle, AfterReset(shared), replies)
  {
    assert s.clients[c := from][c := Idle] == s.clients[c := Idle];
  }

  lemma DeleteStages(a: ActorId, reply: Reply)
    ensures Sends(NeedsDelete(a), a, DeleteSession, AwaitDelete(a))
    ensures GoesOn(AwaitDelete(a), reply, NeedsTerminate(a))
  {
  }

  lemma TerminateStages(a: ActorId, reply: Reply)
    ensures Sends(NeedsTerminate(a), a, TerminateTunnel, AwaitTerminate)
    ensures GoesOn(AwaitTerminate, reply, Disconnecting)
  {
  }

  lemma TellConnector(t: Trace, actions: seq<Action>, s: System, c: ClientId, a: ActorId, shared: Shared,
      replies: map<Requester, Reply>, deleted: Reply, ended: Reply) returns (longer: seq<Action>)
    requires Alone(actions, c, a) && IsFree(s, a)
    requires Play(t, actions) == Trace(Put(s, c, NeedsDelete(a), shared, replies), [])
    ensures Alone(longer, c, a)
    ensures Play(t, longer) == Trace(Put(s, c, Disconnecting, shared, replies[Client(c) := ended]),
                                     [(a, DeleteSession), (a, TerminateTunnel)])
  {
    DeleteStages(a, deleted);
    longer := Ask(t, actions, s, c, a, NeedsDelete(a), shared, replies, DeleteSession, AwaitDelete(a), deleted,
                  NeedsTerminate(a));
    TerminateStages(a, ended);
    longer := Ask(t, longer, s, c, a, NeedsTerminate(a), shared, replies[Client(c) := deleted], TerminateTunnel,
                  AwaitTerminate, ended, Disconnecting);
    assert replies[Client(c) := deleted][Client(c) := ended] == replies[Client(c) := ended];
    assert [] + [(a, DeleteSession)] + [(a, TerminateTunnel)] == [(a, DeleteSession), (a, TerminateTunnel)];
  }

  /** A whole disconnect: the session is deleted, the tunnel is ended, and the record is empty, whatever is replied. */
  lemma WholeDisconnect(s: System, c: ClientId, a: ActorId, deleted: Reply, ended: Reply)
      returns (actions: seq<Action>)
    requires ClientAt(s, c).Idle? && s.shared.connector == Some(a) && IsFree(s, a)
    ensures Alone(actions, c, a)
    ensures var end := Play(Trace(s, []), actions);
            && end.done == [(a, DeleteSession), (a, TerminateTunnel)]
            && ClientAt(end.system, c).Idle? && IsEmpty(end.system.shared)
            && (s.shared.cancel.Some? ==> s.shared.cancel.value in end.system.shared.signalled)
            && end.system.tunnels == s.tunnels && end.system.actors == s.actors && end.system.events == s.events
            && end.system.clients == s.clients[c := Idle]
  {
    var start, fired := Trace(s, []), WithCancel(s.shared, None);
    actions := Quietly(start, [], BeginDisconnect(c), c, a, Put(s, c, CancelFired, fired, s.replies));
    PutTwice(s, c, CancelFired, fired, s.replies, NeedsDelete(a));
    actions := Quietly(start, actions, Advance(c), c, a, Put(s, c, NeedsDelete(a), fired, s.replies));
    actions := TellConnector(start, actions, s, c, a, fired, s.replies, deleted, ended);
    var replies := s.replies[Client(c) := ended];
    Clears(s, c, Disconnecting, fired, replies);
    actions := Quietly(start, actions, Advance(c), c, a, Put(s, c, Idle, AfterReset(fired), replies));
  }

  lemma BareSteps(s: System, c: ClientId, fired: Shared) returns (actions: seq<Action>)
    requires ClientAt(s, c).Idle? && s.shared.connector == None && fired == WithCancel(s.shared, None)
    ensures Alone(actions, c, 0)
    ensures Play(Trace(s, []), actions) == Trace(Put(s, c, Disconnecting, fired, s.replies), [])
  {
    actions := Quietly(Trace(s, []), [], BeginDisconnect(c), c, 0, Put(s, c, CancelFired, fired, s.replies));
    PutTwice(s, c, CancelFired, fired, s.replies, Disconnecting);
    actions := Quietly(Trace(s, []), actions, Advance(c), c, 0, Put(s, c, Disconnecting, fired, s.replies));
  }

  /** Without a connector there is nobody to tell. */
  lemma BareDisconnect(s: System, c: ClientId) returns (actions: seq<Action>)
    requires ClientAt(s, c).Idle? && s.shared.connector == None
    ensures Alone(actions, c, 0)
    ensures var end := Play(Trace(s, []), actions);
            && end.done == []
            && ClientAt(end.system, c).Idle? && IsEmpty(end.system.shared)
            && (s.shared.cancel.Some? ==> s.shared.cancel.value in end.system.shared.signalled)
            && end.system.actors == s.actors && end.system.clients == s.clients[c := Idle]
  {
    var fired := WithCancel(s.shared, None);
    actions := BareSteps(s, c, fired);
    PutTwice(s, c, Disconnecting, fired, s.replies, Idle);
    actions := Quietly(Trace(s, []), actions, Advance(c), c, 0, Put(s, c, Idle, AfterReset(fired), s.replies));
  }

  lemma LoginStages(a: ActorId, cancel: Channel, session: TunnelSession)
    ensures Sends(ConnectStored(a, cancel, true), a, RestoreSession, AwaitRestore(a, cancel))
    ensures Sends(ConnectStored(a, cancel, false), a, Authenticate(cancel), AwaitSession(a))
    ensures Sends(NeedsTunnel(a, session), a, CreateTunnel(session), AwaitTunnel)
    ensures forall code: string ::
              Sends(ChallengeStored(a, session, code, cancel), a, ChallengeCode(session, code, cancel), AwaitSession(a))
  {
  }

  lemma SessionReplies(a: ActorId, cancel: Channel, reply: Reply)
    ensures GoesOn(AwaitRestore(a, cancel), reply,
                   if reply.GotSession? then HasSession(a, reply.session) else ConnectStored(a, cancel, false))
    ensures GoesOn(AwaitSession(a), reply, if reply.GotSession? then HasSession(a, reply.session) else Failing)
    ensures GoesOn(AwaitTunnel, Failed, Failing)
  {
  }

  /** The new session waits for a challenge. */
  lemma Stores(s: System, c: ClientId, a: ActorId, session: TunnelSession, shared: Shared,
      replies: map<Requester, Reply>)
    ensures Step(Put(s, c, HasSession(a, session), shared, replies), Advance(c))
         == Put(s, c, if session.state.PendingChallenge? then Idle else NeedsTunnel(a, session),
                AfterStoreSession(shared, session), replies)
  {
    PutTwice(s, c, HasSession(a, session), AfterStoreSession(shared, session), replies,
             if session.state.PendingChallenge? then Idle else NeedsTunnel(a, session));
  }

  lemma Starts(s: System, c: ClientId, shared: Shared, replies: map<Requester, Reply>)
    requires Client(c) in replies && replies[Client(c)] != Failed
    ensures Step(Put(s, c, AwaitTunnel, shared, replies), Advance(c))
         == Put(s.(tunnels := s.tunnels + 1), c, Idle, shared, replies)
  {
    assert s.clients[c := AwaitTunnel][c := Idle] == s.clients[c := Idle];
  }

  /** What has become of a login for which the actor gave this last reply and, when asked for a tunnel, that one. */
  predicate LoginEnded(before: System, end: System, reply: Reply, created: Reply, a: ActorId, cancel: Channel) {
    if reply.GotSession? && reply.session.state.PendingChallenge? then
      && end.shared.status == Mfa(reply.session.state.challenge) && end.shared.session == Some(reply.session)
      && end.shared.connector == Some(a) && end.shared.cancel == Some(cancel) && end.tunnels == before.tunnels
    else if reply.GotSession? && created != Failed then
      && end.shared.status == Connecting && end.shared.session == Some(reply.session)
      && end.shared.connector == Some(a) && end.shared.cancel == Some(cancel) && end.tunnels == before.tunnels + 1
    else IsEmpty(end.shared) && end.tunnels == before.tunnels
  }

  /** The operations after that reply. */
  function TunnelAsked(a: ActorId, reply: Reply): seq<(ActorId, Operation)> {
    if reply.GotSession? && !reply.session.state.PendingChallenge? then [(a, CreateTunnel(reply.session))] else []
  }

  /** From the reply on: a pending challenge waits, a finished login gets its tunnel, a failure empties the record. */
  lemma EndLogin(t: Trace, actions: seq<Action>, s: System, c: ClientId, a: ActorId, reply: Reply, shared: Shared,
      replies: map<Requester, Reply>, created: Reply) returns (longer: seq<Action>)
    requires Alone(actions, c, a) && IsFree(s, a)
    requires shared.connector == Some(a) && shared.cancel.Some?
    requires Play(t, actions).system
          == Put(s, c, if reply.GotSession? then HasSession(a, reply.session) else Failing, shared, replies)
    ensures Alone(longer, c, a)
    ensures var end := Play(t, longer);
            && end.done == Play(t, actions).done + TunnelAsked(a, reply)
            && ClientAt(end.system, c).Idle? && end.system.actors == s.actors && end.system.events == s.events
            && end.system.clients == s.clients[c := Idle]
            && LoginEnded(s, end.system, reply, created, a, shared.cancel.value)
            && shared.signalled <= end.system.shared.signalled
  {
    if !reply.GotSession? {
      Clears(s, c, Failing, shared, replies);
      longer := Quietly(t, actions, Advance(c), c, a, Put(s, c, Idle, AfterReset(shared), replies));
      assert Play(t, actions).done + [] == Play(t, actions).done;
    } else {
      longer := KeepSession(t, actions, s, c, a, reply.session, shared, replies, created);
    }
  }

  lemma KeepSession(t: Trace, actions: seq<Action>, s: System, c: ClientId, a: ActorId, session: TunnelSession,
      shared: Shared, replies: map<Requester, Reply>, created: Reply) returns (longer: seq<Action>)
    requires Alone(actions, c, a) && IsFree(s, a)
    requires shared.connector == Some(a) && shared.cancel.Some?
    requires Play(t, actions).system == Put(s, c, HasSession(a, session), shared, replies)
    ensures Alone(longer, c, a)
    ensures var end := Play(t, longer);
            && end.done == Play(t, actions).done + TunnelAsked(a, GotSession(session))
            && ClientAt(end.system, c).Idle? && end.system.actors == s.actors && end.system.events == s.events
            && end.system.clients == s.clients[c := Idle]
            && LoginEnded(s, end.system, GotSession(session), created, a, shared.cancel.value)
            && shared.signalled <= end.system.shared.signalled
  {
    var stored := AfterStoreSession(shared, session);
    Stores(s, c, a, session, shared, replies);
    if session.state.PendingChallenge? {
      longer := Quietly(t, actions, Advance(c), c, a, Put(s, c, Idle, stored, replies));
      assert Play(t, actions).done + [] == Play(t, actions).done;
    } else {
      longer := Quietly(t, actions, Advance(c), c, a, Put(s, c, NeedsTunnel(a, session), stored, replies));
      longer := OpenTunnel(t, longer, s, c, a, session, stored, replies, created);
    }
  }

  lemma OpenTunnel(t: Trace, actions: seq<Action>, s: System, c: ClientId, a: ActorId, session: TunnelSession,
      shared: Shared, replies: map<Requester, Reply>, created: Reply) returns (longer: seq<Action>)
    requires Alone(actions, c, a) && IsFree(s, a)
    requires Play(t, actions).system == Put(s, c, NeedsTunnel(a, session), shared, replies)
    ensures Alone(longer, c, a)
    ensures Play(t, longer)
         == Trace(if created == Failed then Put(s, c, Idle, AfterReset(shared), replies[Client(c) := created])
                  else Put(s.(tunnels := s.tunnels + 1), c, Idle, shared, replies[Client(c) := created]),
                  Play(t, actions).done + [(a, CreateTunnel(session))])
  {
    var next, now := Put(s, c, NeedsTunnel(a, session), shared, replies), replies[Client(c) := created];
    assert Sends(NeedsTunnel(a, session), a, CreateTunnel(session), AwaitTunnel) by { LoginStages(a, 0, session); }
    if created == Failed {
      assert GoesOn(AwaitTunnel, Failed, Failing) by { SessionReplies(a, 0, Failed); }
      longer := Ask(t, actions, s, c, a, NeedsTunnel(a, session), shared, replies, CreateTunnel(session), AwaitTunnel,
                    created, Failing);
      Clears(s, c, Failing, shared, now);
      longer := Quietly(t, longer, Advance(c), c, a, Put(s, c, Idle, AfterReset(shared), now));
    } else {
      longer := AskOnly(t, actions, s, c, a, NeedsTunnel(a, session), shared, replies, CreateTunnel(session),
                        AwaitTunnel, created);
      Starts(s, c, shared, now);
      longer := Quietly(t, longer, Advance(c), c, a, Put(s.(tunnels := s.tunnels + 1), c, Idle, shared, now));
    }
  }

  /** The system once a fresh actor has been stored for a new login. */
  function WithActor(s: System): System {
    s.(actors := s.actors + [Actor([], false)], nextChannel := s.nextChannel + 1)
  }

  lemma Begins(s: System, c: ClientId, persist: bool) returns (actions: seq<Action>)
    requires ClientAt(s, c).Idle? && s.shared.status == Disconnected
    ensures Alone(actions, c, |s.actors|)
    ensures Play(Trace(s, []), actions)
         == Trace(Put(WithActor(s), c, ConnectStored(|s.actors|, s.nextChannel, persist),
                      AfterStoreConnector(AfterReset(s.shared), |s.actors|, s.nextChannel), s.replies), [])
  {
    var t, a, empty := Trace(s, []), |s.actors|, AfterReset(s.shared);
    actions := Quietly(t, [], BeginConnect(c, persist), c, a, Put(s, c, ConnectChecked(persist), s.shared, s.replies));
    PutTwice(s, c, ConnectChecked(persist), empty, s.replies, ConnectCleared(persist));
    actions := Quietly(t, actions, Advance(c), c, a, Put(s, c, ConnectCleared(persist), empty, s.replies));
    var stored := ConnectStored(a, s.nextChannel, persist);
    PutTwice(s, c, ConnectCleared(persist), empty, s.replies, stored);
    actions := Quietly(t, actions, FactoryReplies(c, true), c, a,
                       Put(WithActor(s), c, stored, AfterStoreConnector(empty, a, s.nextChannel), s.replies));
  }

  /**
   * A whole login: a stored session is asked for first if sessions persist; without one the actor authenticates, and
   * can be cancelled; what the reply leads to is in the record at the end.
   */
  lemma WholeConnect(s: System, c: ClientId, persist: bool, restored: Reply, authenticated: Reply, created: Reply)
      returns (actions: seq<Action>)
    requires ClientAt(s, c).Idle? && s.shared.status == Disconnected
    ensures var a, cancel := |s.actors|, s.nextChannel;
            var end := Play(Trace(s, []), actions);
            var kept := persist && restored.GotSession?;
            var reply := if kept then restored else authenticated;
            && Alone(actions, c, a)
            && end.done == (if persist then [(a, RestoreSession)] else [])
                 + (if kept then [] else [(a, Authenticate(cancel))]) + TunnelAsked(a, reply)
            && ClientAt(end.system, c).Idle? && LoginEnded(s, end.system, reply, created, a, cancel)
            && end.system.actors == s.actors + [Actor([], false)] && end.system.events == s.events
            && end.system.clients == s.clients[c := Idle]
  {
    var t, a, cancel := Trace(s, []), |s.actors|, s.nextChannel;
    var fresh', shared := WithActor(s), AfterStoreConnector(AfterReset(s.shared), a, cancel);
    actions := Begins(s, c, persist);
    var replies := s.replies;
    if persist {
      actions := Restores(t, actions, fresh', c, a, cancel, shared, replies, restored);
      replies := replies[Client(c) := restored];
    }
    if persist && restored.GotSession? {
      actions := EndLogin(t, actions, fresh', c, a, restored, shared, replies, created);
    } else {
      actions := Authenticates(t, actions, fresh', c, a, cancel, shared, replies, authenticated);
      actions := EndLogin(t, actions, fresh', c, a, authenticated, shared, replies[Client(c) := authenticated],
                          created);
    }
  }

  lemma Restores(t: Trace, actions: seq<Action>, s: System, c: ClientId, a: ActorId, cancel: Channel, shared: Shared,
      replies: map<Requester, Reply>, reply: Reply) returns (longer: seq<Action>)
    requires Alone(actions, c, a) && IsFree(s, a)
    requires Play(t, actions).system == Put(s, c, ConnectStored(a, cancel, true), shared, replies)
    ensures Alone(longer, c, a)
    ensures var next := if reply.GotSession? then HasSession(a, reply.session) else ConnectStored(a, cancel, false);
            Play(t, longer) == Trace(Put(s, c, next, shared, replies[Client(c) := reply]),
                                     Play(t, actions).done + [(a, RestoreSession)])
  {
    var from, waiting := ConnectStored(a, cancel, true), AwaitRestore(a, cancel);
    var next := if reply.GotSession? then HasSession(a, reply.session) else ConnectStored(a, cancel, false);
    assert Sends(from, a, RestoreSession, waiting) by { LoginStages(a, cancel, TunnelSession(0, NoState)); }
    assert GoesOn(waiting, reply, next) by { SessionReplies(a, cancel, reply); }
    longer := Ask(t, actions, s, c, a, from, shared, replies, RestoreSession, waiting, reply, next);
  }

  lemma Authenticates(t: Trace, actions: seq<Action>, s: System, c: ClientId, a: ActorId, cancel: Channel,
      shared: Shared, replies: map<Requester, Reply>, reply: Reply) returns (longer: seq<Action>)
    requires Alone(actions, c, a) && IsFree(s, a)
    requires Play(t, actions).system == Put(s, c, ConnectStored(a, cancel, false), shared, replies)
    ensures Alone(longer, c, a)
    ensures var next := if reply.GotSession? then HasSession(a, reply.session) else Failing;
            Play(t, longer) == Trace(Put(s, c, next, shared, replies[Client(c) := reply]),
                                     Play(t, actions).done + [(a, Authenticate(cancel))])
  {
    var from, waiting := ConnectStored(a, cancel, false), AwaitSession(a);
    var next := if reply.GotSession? then HasSession(a, reply.session) else Failing;
    assert Sends(from, a, Authenticate(cancel), waiting) by { LoginStages(a, cancel, TunnelSession(0, NoState)); }
    assert GoesOn(waiting, reply, next) by { SessionReplies(a, cancel, reply); }
    longer := Ask(t, actions, s, c, a, from, shared, replies, Authenticate(cancel), waiting, reply, next);
  }

  lemma Answers(t: Trace, actions: seq<Action>, s: System, c: ClientId, a: ActorId, cancel: Channel,
      session: TunnelSession, code: string, shared: Shared, replies: map<Requester, Reply>, reply: Reply)
      returns (longer: seq<Action>)
    requires Alone(actions, c, a) && IsFree(s, a)
    requires Play(t, actions).system == Put(s, c, ChallengeStored(a, session, code, cancel), shared, replies)
    ensures Alone(longer, c, a)
    ensures var next := if reply.GotSession? then HasSession(a, reply.session) else Failing;
            Play(t, longer) == Trace(Put(s, c, next, shared, replies[Client(c) := reply]),
                                     Play(t, actions).done + [(a, ChallengeCode(session, code, cancel))])
  {
    var from, waiting := ChallengeStored(a, session, code, cancel), AwaitSession(a);
    var operation := ChallengeCode(session, code, cancel);
    var next := if reply.GotSession? then HasSession(a, reply.session) else Failing;
    assert Sends(from, a, operation, waiting) by { LoginStages(a, cancel, session); }
    assert GoesOn(waiting, reply, next) by { SessionReplies(a, cancel, reply); }
    longer := Ask(t, actions, s, c, a, from, shared, replies, operation, waiting, reply, next);
  }

  lemma BeginsChallenge(s: System, c: ClientId, a: ActorId, session: TunnelSession, code: string)
      returns (actions: seq<Action>)
    requires ClientAt(s, c).Idle? && s.shared.connector == Some(a) && s.shared.session == Some(session)
    ensures Alone(actions, c, a)
    ensures var cancel := s.nextChannel;
            Play(Trace(s, []), actions)
            == Trace(Put(s.(nextChannel := cancel + 1), c, ChallengeStored(a, session, code, cancel),
                         WithCancel(s.shared, Some(cancel)), s.replies), [])
  {
    var t, cancel := Trace(s, []), s.nextChannel;
    var read, stored := ChallengeRead(a, session, code), ChallengeStored(a, session, code, cancel);
    var shared := WithCancel(s.shared, Some(cancel));
    actions := Quietly(t, [], BeginChallenge(c, code), c, a, Put(s, c, read, s.shared, s.replies));
    PutTwice(s, c, read, shared, s.replies, stored);
    actions := Quietly(t, actions, Advance(c), c, a, Put(s.(nextChannel := cancel + 1), c, stored, shared, s.replies));
  }

  /** A whole challenge: the code goes to the stored connector and session, under a new sender. */
  lemma WholeChallenge(s: System, c: ClientId, a: ActorId, session: TunnelSession, code: string, answered: Reply,
      created: Reply) returns (actions: seq<Action>)
    requires ClientAt(s, c).Idle? && IsFree(s, a)
    requires s.shared.connector == Some(a) && s.shared.session == Some(session)
    ensures var cancel := s.nextChannel;
            var end := Play(Trace(s, []), actions);
            && Alone(actions, c, a)
            && end.done == [(a, ChallengeCode(session, code, cancel))] + TunnelAsked(a, answered)
            && ClientAt(end.system, c).Idle? && LoginEnded(s, end.system, answered, created, a, cancel)
            && (s.shared.cancel.Some? ==> s.shared.cancel.value in end.system.shared.signalled)
            && end.system.actors == s.actors && end.system.events == s.events
            && end.system.clients == s.clients[c := Idle]
  {
    var t, cancel := Trace(s, []), s.nextChannel;
    var next, shared := s.(nextChannel := cancel + 1), WithCancel(s.shared, Some(cancel));
    actions := BeginsChallenge(s, c, a, session, code);
    actions := Answers(t, actions, next, c, a, cancel, session, code, shared, s.replies, answered);
    actions := EndLogin(t, actions, next, c, a, answered, shared, s.replies[Client(c) := answered], created);
  }

  // ----- Commands that are refused, and events -----

  /** While anything is going on, a further login is refused and nothing changes. */
  lemma ConnectRefused(s: System, c: ClientId, persist: bool)
    requires s.shared.status != Disconnected
    ensures Step(s, BeginConnect(c, persist)) == s
  {
  }

  /** A login for which no connector can be made, and a challenge without connector or session, empty the record. */
  lemma FailedBeginnings(s: System, c: ClientId, persist: bool, code: string)
    requires ClientAt(s, c).Idle?
    ensures s.shared.status == Disconnected ==>
              var t := Step(Step(Step(Step(s, BeginConnect(c, persist)), Advance(c)), FactoryReplies(c, false)),
                            Advance(c));
              ClientAt(t, c).Idle? && IsEmpty(t.shared) && t.actors == s.actors
    ensures s.shared.connector == None || s.shared.session == None ==>
              var t := Step(Step(s, BeginChallenge(c, code)), Advance(c));
              ClientAt(t, c).Idle? && IsEmpty(t.shared) && t.actors == s.actors
  {
    if s.shared.status == Disconnected {
      var one := Step(s, BeginConnect(c, persist));
      assert ClientAt(one, c) == ConnectChecked(persist);
      var two := Step(one, Advance(c));
      assert ClientAt(two, c) == ConnectCleared(persist);
      assert ClientAt(Step(two, FactoryReplies(c, false)), c) == Failing;
    }
  }

  /** What an event that the connector has not refused does to the record. */
  predicate EventShows(before: Shared, event: TunnelEvent, poller: Option<string>, after: Shared) {
    match event
    case TunnelConnected(info) =>
      && after.status == Connected(info) && after.poller == (if poller.Some? then poller else before.poller)
      && after.session == before.session && after.connector == before.connector && after.cancel == before.cancel
    case TunnelDisconnected => IsEmpty(after)
    case Rekeyed(address) =>
      if before.status.Connected? then
        && after.status == Connected(ConnectionInfo(before.status.info.interface, address, before.status.info.rtt))
        && after.session == before.session && after.connector == before.connector && after.cancel == before.cancel
      else after == before
    case Rtt(rtt) =>
      if before.status.Connected? then
        && after.status
           == Connected(ConnectionInfo(before.status.info.interface, before.status.info.address, Some(rtt)))
        && after.session == before.session && after.connector == before.connector && after.cancel == before.cancel
      else after == before
    case OtherEvent => after == before
  }

  lemma EventAlone(s: System, event: TunnelEvent, poller: Option<string>)
    requires s.tunnels > 0 && s.events.Waiting? && s.shared.connector == None
    ensures var t := Step(Step(Step(s, TunnelEmits(event)), EventAdvances(poller)), EventAdvances(poller));
            && t.events.Waiting? && EventShows(s.shared, event, poller, t.shared)
            && t.actors == s.actors && t.clients == s.clients && t.tunnels == s.tunnels
  {
    var taken := Step(s, TunnelEmits(event));
    assert Step(taken, EventAdvances(poller)) == s.(events := Applying(event));
  }

  /** An event goes to the connector first; only if that does not refuse it, the record shows it. */
  lemma EventHandled(s: System, a: ActorId, event: TunnelEvent, reply: Reply, poller: Option<string>)
    requires s.tunnels > 0 && s.events.Waiting? && s.shared.connector == Some(a) && IsFree(s, a)
    ensures var sent := Step(Step(Step(s, TunnelEmits(event)), EventAdvances(poller)), EventAdvances(poller));
            var started := Step(sent, ActorStarts(a));
            var handled := Step(started, ActorFinishes(a, reply));
            var t := Step(Step(handled, EventAdvances(poller)), EventAdvances(poller));
            && Completes(started, ActorFinishes(a, reply)) == [(a, HandleEvent(event))]
            && t.events.Waiting? && t.actors == s.actors && t.clients == s.clients && t.tunnels == s.tunnels
            && (if reply == Failed then IsEmpty(t.shared) else EventShows(s.shared, event, poller, t.shared))
  {
    var request := Request(HandleEvent(event), EventTask);
    var sent := EventSent(s, a, event, poller);
    var handled := EventServed(s, sent, a, event, reply);
    var decided := Step(handled, EventAdvances(poller));
    assert decided == handled.(events := if reply == Failed then Refused else Applying(event));
    EventDecided(decided, event, poller);
  }

  lemma EventSent(s: System, a: ActorId, event: TunnelEvent, poller: Option<string>) returns (sent: System)
    requires s.tunnels > 0 && s.events.Waiting? && s.shared.connector == Some(a) && IsFree(s, a)
    ensures sent == Step(Step(Step(s, TunnelEmits(event)), EventAdvances(poller)), EventAdvances(poller))
    ensures sent == Send(s, a, Request(HandleEvent(event), EventTask)).(events := AwaitHandled(event))
  {
    var taken := Step(s, TunnelEmits(event));
    var forwarding := Step(taken, EventAdvances(poller));
    assert forwarding == s.(events := Forwarding(a, event));
    sent := Step(forwarding, EventAdvances(poller));
  }

  lemma EventServed(s: System, sent: System, a: ActorId, event: TunnelEvent, reply: Reply) returns (handled: System)
    requires IsFree(s, a)
    requires sent == Send(s, a, Request(HandleEvent(event), EventTask)).(events := AwaitHandled(event))
    ensures var started := Step(sent, ActorStarts(a));
            && handled == Step(started, ActorFinishes(a, reply))
            && Completes(started, ActorFinishes(a, reply)) == [(a, HandleEvent(event))]
    ensures handled == s.(events := AwaitHandled(event), replies := s.replies[EventTask := reply])
  {
    var request := Request(HandleEvent(event), EventTask);
    var started := Step(sent, ActorStarts(a));
    assert sent.actors[a].requests == [request];
    assert started.actors[a] == Actor([request], true);
    handled := Step(started, ActorFinishes(a, reply));
    assert [request][1..] == [];
    assert handled.actors == s.actors;
    assert handled.replies == s.replies[EventTask := reply];
  }

  lemma EventDecided(s: System, event: TunnelEvent, poller: Option<string>)
    requires s.events == Refused || s.events == Applying(event)
    ensures var t := Step(s, EventAdvances(poller));
            && t.events.Waiting? && t.actors == s.actors && t.clients == s.clients && t.tunnels == s.tunnels
            && (if s.events == Refused then IsEmpty(t.shared) else EventShows(s.shared, event, poller, t.shared))
  {
  }
}
