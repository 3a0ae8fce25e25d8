/**
 * The command server as a transition system (crates/snxcore/src/server.rs): any number of client handlers, one
 * task for tunnel events and one actor per connector. What a task does while it holds the lock, or between two
 * suspension points, is one step; steps interleave freely.
 */
module CommandServer {
  import opened Wrappers
  import opened ConnectionStates

  type ClientId = nat

  /** Room in an actor's queue. */
  const QUEUE_CAPACITY := 16

  datatype Requester = Client(id: ClientId) | EventTask

  datatype Operation =
    | RestoreSession
    | Authenticate(cancel: Channel)
    | ChallengeCode(session: TunnelSession, code: string, cancel: Channel)
    | CreateTunnel(session: TunnelSession)
    | HandleEvent(event: TunnelEvent)
    | DeleteSession
    | TerminateTunnel

  datatype Request = Request(operation: Operation, from: Requester)

  datatype Reply = Failed | GotSession(session: TunnelSession) | Done

  /** Requests in order; while `busy`, the first one is running. */
  datatype Actor = Actor(requests: seq<Request>, busy: bool)

  /** Where a client handler stands in the command it serves. */
  datatype ClientState =
    | Idle
    | ConnectChecked(persist: bool)
    | ConnectCleared(persist: bool)
    | ConnectStored(actor: ActorId, cancel: Channel, persist: bool)
    | AwaitRestore(actor: ActorId, cancel: Channel)
    | AwaitSession(actor: ActorId)
    | HasSession(actor: ActorId, session: TunnelSession)
    | NeedsTunnel(actor: ActorId, session: TunnelSession)
    | AwaitTunnel
    | ChallengeRead(actor: ActorId, session: TunnelSession, code: string)
    | ChallengeStored(actor: ActorId, session: TunnelSession, code: string, cancel: Channel)
    | Failing
    | CancelFired
    | NeedsDelete(actor: ActorId)
    | AwaitDelete(actor: ActorId)
    | NeedsTerminate(actor: ActorId)
    | AwaitTerminate
    | Disconnecting

  /** Where the event task stands with the event it took from its queue. */
  datatype EventState =
    | Waiting
    | HasEvent(event: TunnelEvent)
    | Forwarding(actor: ActorId, event: TunnelEvent)
    | AwaitHandled(event: TunnelEvent)
    | Applying(event: TunnelEvent)
    | Refused

  datatype System = System(
    shared: Shared,
    nextChannel: Channel,
    actors: seq<Actor>,
    clients: map<ClientId, ClientState>,
    replies: map<Requester, Reply>,
    events: EventState,
    tunnels: nat)

  const START := System(INITIAL, 0, [], map[], map[], Waiting, 0)

  function ClientAt(s: System, c: ClientId): ClientState {
    if c in s.clients then s.clients[c] else Idle
  }

  datatype Action =
    | BeginConnect(client: ClientId, persist: bool)
    | BeginChallenge(client: ClientId, code: string)
    | BeginDisconnect(client: ClientId)
    | Advance(client: ClientId)
    | FactoryReplies(client: ClientId, ok: bool)
    | ActorStarts(actor: ActorId)
    | ActorFinishes(actor: ActorId, reply: Reply)
    | ActorCancels(actor: ActorId)
    | TunnelEmits(event: TunnelEvent)
    | EventAdvances(poller: Option<string>)

  function SetClient(s: System, c: ClientId, state: ClientState): System {
    s.(clients := s.clients[c := state])
  }

  predicate CanSend(s: System, actor: ActorId) {
    actor < |s.actors| && |s.actors[actor].requests| < QUEUE_CAPACITY
  }

  function Send(s: System, actor: ActorId, request: Request): System
    requires CanSend(s, actor)
  {
    var a := s.actors[actor];
    s.(actors := s.actors[actor := a.(requests := a.requests + [request])],
       replies := s.replies - {request.from})
  }

  /** The next step of a client handler that has begun a command. */
  function AdvanceClient(s: System, c: ClientId): System {
    match ClientAt(s, c)
    case Idle => s
    case ConnectChecked(persist) =>
      SetClient(s.(shared := AfterReset(s.shared)), c, ConnectCleared(persist))
    case ConnectCleared(_) => s
    case ConnectStored(actor, cancel, persist) =>
      if !CanSend(s, actor) then s
      else if persist then SetClient(Send(s, actor, Request(RestoreSession, Client(c))), c, AwaitRestore(actor, cancel))
      else SetClient(Send(s, actor, Request(Authenticate(cancel), Client(c))), c, AwaitSession(actor))
    case AwaitRestore(actor, cancel) =>
      if Client(c) !in s.replies then s
      else
        var reply := s.replies[Client(c)];
        SetClient(s, c,
                  if reply.GotSession? then HasSession(actor, reply.session) else ConnectStored(actor, cancel, false))
    case AwaitSession(actor) =>
      if Client(c) !in s.replies then s
      else
        var reply := s.replies[Client(c)];
        SetClient(s, c, if reply.GotSession? then HasSession(actor, reply.session) else Failing)
    case HasSession(actor, session) =>
      SetClient(s.(shared := AfterStoreSession(s.shared, session)), c,
                if session.state.PendingChallenge? then Idle else NeedsTunnel(actor, session))
    case NeedsTunnel(actor, session) =>
      if CanSend(s, actor) then SetClient(Send(s, actor, Request(CreateTunnel(session), Client(c))), c, AwaitTunnel)
      else s
    case AwaitTunnel =>
      if Client(c) !in s.replies then s
      else if s.replies[Client(c)] == Failed then SetClient(s, c, Failing)
      else SetClient(s.(tunnels := s.tunnels + 1), c, Idle)
    case ChallengeRead(actor, session, code) =>
      SetClient(s.(shared := WithCancel(s.shared, Some(s.nextChannel)), nextChannel := s.nextChannel + 1), c,
                ChallengeStored(actor, session, code, s.nextChannel))
    case ChallengeStored(actor, session, code, cancel) =>
      if CanSend(s, actor)
      then SetClient(Send(s, actor, Request(ChallengeCode(session, code, cancel), Client(c))), c, AwaitSession(actor))
      else s
    case Failing => SetClient(s.(shared := AfterReset(s.shared)), c, Idle)
    case CancelFired =>
      SetClient(s, c, if s.shared.connector.Some? then NeedsDelete(s.shared.connector.value) else Disconnecting)
    case NeedsDelete(actor) =>
      if CanSend(s, actor) then SetClient(Send(s, actor, Request(DeleteSession, Client(c))), c, AwaitDelete(actor))
      else s
    case AwaitDelete(actor) => if Client(c) in s.replies then SetClient(s, c, NeedsTerminate(actor)) else s
    case NeedsTerminate(actor) =>
      if CanSend(s, actor) then SetClient(Send(s, actor, Request(TerminateTunnel, Client(c))), c, AwaitTerminate)
      else s
    case AwaitTerminate => if Client(c) in s.replies then SetClient(s, c, Disconnecting) else s
    case Disconnecting => SetClient(s.(shared := AfterReset(s.shared)), c, Idle)
  }

  /** The connector factory has answered: a fresh actor and a fresh cancel channel, stored under one lock. */
  function StoreFresh(s: System, c: ClientId, persist: bool): System {
    var actor, cancel := |s.actors|, s.nextChannel;
    SetClient(s.(shared := AfterStoreConnector(s.shared, actor, cancel),
                 nextChannel := cancel + 1,
                 actors := s.actors + [Actor([], false)]),
              c, ConnectStored(actor, cancel, persist))
  }

  predicate Running(s: System, actor: ActorId) {
    actor < |s.actors| && s.actors[actor].busy && s.actors[actor].requests != []
  }

  function Finish(s: System, actor: ActorId, reply: Reply): System
    requires Running(s, actor)
  {
    var a := s.actors[actor];
    s.(actors := s.actors[actor := Actor(a.requests[1..], false)],
       replies := s.replies[a.requests[0].from := reply])
  }

  function AdvanceEvent(s: System, poller: Option<string>): System {
    match s.events
    case Waiting => s
    case HasEvent(event) =>
      s.(events := if s.shared.connector.Some? then Forwarding(s.shared.connector.value, event) else Applying(event))
    case Forwarding(actor, event) =>
      if CanSend(s, actor) then Send(s, actor, Request(HandleEvent(event), EventTask)).(events := AwaitHandled(event))
      else s
    case AwaitHandled(event) =>
      if EventTask !in s.replies then s
      else s.(events := if s.replies[EventTask] == Failed then Refused else Applying(event))
    case Refused => s.(shared := AfterReset(s.shared), events := Waiting)
    case Applying(event) =>
      match event
      case TunnelConnected(info) => s.(shared := AfterConnectedEvent(s.shared, info, poller), events := Waiting)
      case TunnelDisconnected => s.(shared := AfterReset(s.shared), events := Waiting)
      case _ => s.(shared := AfterLiveEvent(s.shared, event), events := Waiting)
  }

  /** The cancel channel a request listens on while it runs. */
  function CancelOf(operation: Operation): Option<Channel> {
    match operation
    case Authenticate(cancel) => Some(cancel)
    case ChallengeCode(_, _, cancel) => Some(cancel)
    case _ => None
  }

  /** One atomic step; an action that is not possible now changes nothing. */
  function Step(s: System, action: Action): System {
    match action
    case BeginConnect(c, persist) =>
      if ClientAt(s, c).Idle? && s.shared.status == Disconnected then SetClient(s, c, ConnectChecked(persist)) else s
    case BeginChallenge(c, code) =>
      if !ClientAt(s, c).Idle? then s
      else if s.shared.connector.Some? && s.shared.session.Some?
      then SetClient(s, c, ChallengeRead(s.shared.connector.value, s.shared.session.value, code))
      else SetClient(s, c, Failing)
    case BeginDisconnect(c) =>
      if ClientAt(s, c).Idle? then SetClient(s.(shared := WithCancel(s.shared, None)), c, CancelFired) else s
    case Advance(c) => AdvanceClient(s, c)
    case FactoryReplies(c, ok) =>
      if !ClientAt(s, c).ConnectCleared? then s
      else if ok then StoreFresh(s, c, ClientAt(s, c).persist)
      else SetClient(s, c, Failing)
    case ActorStarts(a) =>
      if a < |s.actors| && s.actors[a].requests != []
      then s.(actors := s.actors[a := s.actors[a].(busy := true)])
      else s
    case ActorFinishes(a, reply) => if Running(s, a) then Finish(s, a, reply) else s
    case ActorCancels(a) =>
      if Running(s, a) && CanCancel(s, s.actors[a].requests[0]) then Finish(s, a, Failed) else s
    case TunnelEmits(event) => if s.tunnels > 0 && s.events.Waiting? then s.(events := HasEvent(event)) else s
    case EventAdvances(poller) => AdvanceEvent(s, poller)
  }

  /** The select of the actor takes its cancel branch only once the channel is signalled. */
  predicate CanCancel(s: System, request: Request) {
    CancelOf(request.operation).Some? && CancelOf(request.operation).value in s.shared.signalled
  }

  function Run(actions: seq<Action>): System {
    if actions == [] then START else Step(Run(actions[..|actions| - 1]), actions[|actions| - 1])
  }

  // ----- What the status says about the other fields -----

  /** A status of Mfa names exactly the challenge the stored session waits for; Disconnected means nothing is held. */
  predicate StatusSound(s: Shared) {
    && (s.status.Mfa? ==> s.session.Some? && s.session.value.state == PendingChallenge(s.status.challenge))
    && (s.status.Disconnected? ==> s.session.None? && s.connector.None? && s.poller.None?)
  }

  lemma AdvanceKeepsStatusSound(s: System, c: ClientId)
    requires StatusSound(s.shared)
    ensures StatusSound(AdvanceClient(s, c).shared)
  {
  }

  lemma EventKeepsStatusSound(s: System, poller: Option<string>)
    requires StatusSound(s.shared)
    ensures StatusSound(AdvanceEvent(s, poller).shared)
  {
  }

  lemma StepKeepsStatusSound(s: System, action: Action)
    requires StatusSound(s.shared)
    ensures StatusSound(Step(s, action).shared)
  {
    match action
    case Advance(c) => AdvanceKeepsStatusSound(s, c);
    case EventAdvances(poller) => EventKeepsStatusSound(s, poller);
    case _ =>
  }

  lemma {:induction false} StatusAlwaysSound(actions: seq<Action>)
    ensures StatusSound(Run(actions).shared)
  {
    if actions != [] {
      var last := |actions| - 1;
      StatusAlwaysSound(actions[..last]);
      StepKeepsStatusSound(Run(actions[..last]), actions[last]);
    }
  }

  // ----- Who can still be cancelled -----

  /** Every channel made so far is signalled, except the one whose sender the shared record holds. */
  ghost predicate ChannelsTracked(s: System) {
    && (forall c | c in s.shared.signalled :: c < s.nextChannel)
    && (s.shared.cancel.Some? ==> s.shared.cancel.value < s.nextChannel && s.shared.cancel.value !in s.shared.signalled)
    && (forall c | 0 <= c < s.nextChannel :: c in s.shared.signalled || s.shared.cancel == Some(c))
  }

  /** What a step may do to the record: leave it, signal and give up the held sender, or take a fresh one. */
  ghost predicate MovesChannel(s: System, t: System) {
    var held := if s.shared.cancel.Some? then {s.shared.cancel.value} else {};
    || (t.nextChannel == s.nextChannel && t.shared.cancel == s.shared.cancel
        && t.shared.signalled == s.shared.signalled)
    || (t.nextChannel == s.nextChannel && t.shared.cancel == None && t.shared.signalled == s.shared.signalled + held)
    || (t.nextChannel == s.nextChannel + 1 && t.shared.cancel == Some(s.nextChannel)
        && t.shared.signalled == s.shared.signalled + held)
  }

  lemma AdvanceMovesChannel(s: System, c: ClientId)
    ensures MovesChannel(s, AdvanceClient(s, c))
  {
  }

  lemma EventMovesChannel(s: System, poller: Option<string>)
    ensures MovesChannel(s, AdvanceEvent(s, poller))
  {
  }

  lemma StepMovesChannel(s: System, action: Action)
    ensures MovesChannel(s, Step(s, action))
  {
    match action
    case Advance(c) => AdvanceMovesChannel(s, c);
    case EventAdvances(poller) => EventMovesChannel(s, poller);
    case _ =>
  }

  lemma StepKeepsChannelsTracked(s: System, action: Action)
    requires ChannelsTracked(s)
    ensures ChannelsTracked(Step(s, action))
  {
    StepMovesChannel(s, action);
  }

  /** The cancel channel a handler carries before it has sent its request. */
  function Carried(state: ClientState): Option<Channel> {
    match state
    case ConnectStored(_, cancel, _) => Some(cancel)
    case AwaitRestore(_, cancel) => Some(cancel)
    case ChallengeStored(_, _, _, cancel) => Some(cancel)
    case _ => None
  }

  predicate HasChannel(s: System, a: nat, i: nat, c: Channel) {
    a < |s.actors| && i < |s.actors[a].requests| && CancelOf(s.actors[a].requests[i].operation) == Some(c)
  }

  predicate CarriesChannel(s: System, client: ClientId, c: Channel) {
    Carried(ClientAt(s, client)) == Some(c)
  }

  /** Each channel listens in one place: one handler, or one request of one actor. */
  ghost predicate ChannelsLinear(s: System) {
    && (forall a: nat, i: nat, c: Channel :: HasChannel(s, a, i, c) ==> c < s.nextChannel)
    && (forall k: ClientId, c: Channel :: CarriesChannel(s, k, c) ==> c < s.nextChannel)
    && (forall a: nat, i: nat, b: nat, j: nat, c: Channel :: HasChannel(s, a, i, c) && HasChannel(s, b, j, c) ==>
        a == b && i == j)
    && (forall k: ClientId, m: ClientId, c: Channel :: CarriesChannel(s, k, c) && CarriesChannel(s, m, c) ==> k == m)
    && (forall a: nat, i: nat, k: ClientId, c: Channel :: !(HasChannel(s, a, i, c) && CarriesChannel(s, k, c)))
  }

  /** A handler moves on and keeps, or lets go of, the channel it carried. */
  lemma MoveKeepsLinear(s: System, k: ClientId, state: ClientState)
    requires ChannelsLinear(s)
    requires Carried(state).None? || Carried(state) == Carried(ClientAt(s, k))
    ensures ChannelsLinear(SetClient(s, k, state))
  {
    var t := SetClient(s, k, state);
    assert forall m: ClientId, c: Channel :: CarriesChannel(t, m, c) ==> CarriesChannel(s, m, c);
    assert forall a: nat, i: nat, c: Channel :: HasChannel(t, a, i, c) ==> HasChannel(s, a, i, c);
  }

  /** A handler starts to carry a channel that did not exist before. */
  lemma FreshKeepsLinear(s: System, k: ClientId, state: ClientState, t: System)
    requires ChannelsLinear(s)
    requires t.nextChannel == s.nextChannel + 1 && t.clients == s.clients[k := state]
        && Carried(state) == Some(s.nextChannel)
    requires t.actors == s.actors || t.actors == s.actors + [Actor([], false)]
    ensures ChannelsLinear(t)
  {
    assert forall m: ClientId, c: Channel :: CarriesChannel(t, m, c) ==>
        (m == k && c == s.nextChannel) || CarriesChannel(s, m, c);
    assert forall a: nat, i: nat, c: Channel :: HasChannel(t, a, i, c) ==> HasChannel(s, a, i, c);
  }

  /** A channel moves with the request from the handler into the actor's queue. */
  lemma SendKeepsLinear(s: System, actor: ActorId, request: Request, k: ClientId, state: ClientState)
    requires ChannelsLinear(s) && CanSend(s, actor)
    requires Carried(state).None? || Carried(state) == Carried(ClientAt(s, k))
    requires CancelOf(request.operation).Some? ==>
               Carried(state).None? && CancelOf(request.operation) == Carried(ClientAt(s, k))
    ensures ChannelsLinear(SetClient(Send(s, actor, request), k, state))
  {
    var t := SetClient(Send(s, actor, request), k, state);
    var n := |s.actors[actor].requests|;
    assert forall a: nat, i: nat, c: Channel :: HasChannel(t, a, i, c) ==>
        HasChannel(s, a, i, c) || (a == actor && i == n && CarriesChannel(s, k, c));
    assert forall m: ClientId, c: Channel :: CarriesChannel(t, m, c) ==>
        CarriesChannel(s, m, c) && (CancelOf(request.operation).Some? ==> m != k);
  }

  lemma EventSendKeepsLinear(s: System, actor: ActorId, request: Request)
    requires ChannelsLinear(s) && CanSend(s, actor) && CancelOf(request.operation).None?
    ensures ChannelsLinear(Send(s, actor, request))
  {
    var t := Send(s, actor, request);
    assert forall a: nat, i: nat, c: Channel :: HasChannel(t, a, i, c) ==> HasChannel(s, a, i, c);
    assert forall m: ClientId, c: Channel :: CarriesChannel(t, m, c) ==> CarriesChannel(s, m, c);
  }

  lemma FinishKeepsLinear(s: System, actor: ActorId, reply: Reply)
    requires ChannelsLinear(s) && Running(s, actor)
    ensures ChannelsLinear(Finish(s, actor, reply))
  {
    var t := Finish(s, actor, reply);
    forall a: nat, i: nat, c: Channel | HasChannel(t, a, i, c)
      ensures HasChannel(s, a, if a == actor then i + 1 else i, c)
    {
    }
    assert forall m: ClientId, c: Channel :: CarriesChannel(t, m, c) ==> CarriesChannel(s, m, c);
  }

  /** Two systems that agree on channels, queues and handlers. */
  lemma LinearIgnoresTheRest(s: System, t: System)
    requires ChannelsLinear(s)
    requires t.nextChannel == s.nextChannel && t.actors == s.actors && t.clients == s.clients
    ensures ChannelsLinear(t)
  {
    assert forall a: nat, i: nat, c: Channel :: HasChannel(t, a, i, c) ==> HasChannel(s, a, i, c);
    assert forall m: ClientId, c: Channel :: CarriesChannel(t, m, c) ==> CarriesChannel(s, m, c);
  }

  predicate SendsOrMakesChannel(state: ClientState) {
    state.ConnectStored? || state.NeedsTunnel? || state.ChallengeRead? || state.ChallengeStored? || state.NeedsDelete?
    || state.NeedsTerminate?
  }

  lemma QuietStepSendsNothing(s: System, k: ClientId)
    requires !SendsOrMakesChannel(ClientAt(s, k))
    ensures AdvanceClient(s, k).nextChannel == s.nextChannel && AdvanceClient(s, k).actors == s.actors
  {
  }

  lemma QuietStepMovesOne(s: System, k: ClientId)
    requires !SendsOrMakesChannel(ClientAt(s, k))
    ensures var t := AdvanceClient(s, k);
            && (t.clients == s.clients || t.clients == s.clients[k := ClientAt(t, k)])
            && (Carried(ClientAt(t, k)).None? || Carried(ClientAt(t, k)) == Carried(ClientAt(s, k)))
  {
  }

  lemma ClientStepKeepsLinear(s: System, k: ClientId)
    requires ChannelsLinear(s)
    ensures ChannelsLinear(AdvanceClient(s, k))
  {
    var t := AdvanceClient(s, k);
    var before, after := ClientAt(s, k), ClientAt(t, k);
    if !SendsOrMakesChannel(before) {
      QuietStepSendsNothing(s, k);
      QuietStepMovesOne(s, k);
      MoveKeepsLinear(s, k, after);
      LinearIgnoresTheRest(if t.clients == s.clients then s else SetClient(s, k, after), t);
    } else if before.ChallengeRead? {
      FreshKeepsLinear(s, k, after, t);
    } else if CanSend(s, before.actor) {
      var operation :=
        match before
        case ConnectStored(_, cancel, persist) => if persist then RestoreSession else Authenticate(cancel)
        case NeedsTunnel(_, session) => CreateTunnel(session)
        case ChallengeStored(_, session, code, cancel) => ChallengeCode(session, code, cancel)
        case NeedsDelete(_) => DeleteSession
        case _ => TerminateTunnel;
      SendKeepsLinear(s, before.actor, Request(operation, Client(k)), k, after);
    }
  }

  lemma StepKeepsChannelsLinear(s: System, action: Action)
    requires ChannelsLinear(s)
    ensures ChannelsLinear(Step(s, action))
  {
    var t := Step(s, action);
    match action
    case Advance(k) => ClientStepKeepsLinear(s, k);
    case FactoryReplies(k, ok) =>
      if t != s && ok {
        FreshKeepsLinear(s, k, ClientAt(t, k), t);
      } else if t != s {
        MoveKeepsLinear(s, k, Failing);
      }
    case ActorStarts(a) =>
      assert forall b: nat, i: nat, c: Channel :: HasChannel(t, b, i, c) ==> HasChannel(s, b, i, c);
      assert forall m: ClientId, c: Channel :: CarriesChannel(t, m, c) ==> CarriesChannel(s, m, c);
    case ActorFinishes(a, reply) => if Running(s, a) { FinishKeepsLinear(s, a, reply); }
    case ActorCancels(a) => if Running(s, a) { FinishKeepsLinear(s, a, Failed); }
    case TunnelEmits(_) => LinearIgnoresTheRest(s, t);
    case EventAdvances(_) =>
      if s.events.Forwarding? && CanSend(s, s.events.actor) {
        EventSendKeepsLinear(s, s.events.actor, Request(HandleEvent(s.events.event), EventTask));
        LinearIgnoresTheRest(Send(s, s.events.actor, Request(HandleEvent(s.events.event), EventTask)), t);
      } else {
        LinearIgnoresTheRest(s, t);
      }
    case _ =>
      if t != s {
        MoveKeepsLinear(s, action.client, ClientAt(t, action.client));
        LinearIgnoresTheRest(SetClient(s, action.client, ClientAt(t, action.client)), t);
      }
  }

  lemma {:induction false} ChannelsAlwaysAccounted(actions: seq<Action>)
    ensures ChannelsTracked(Run(actions)) && ChannelsLinear(Run(actions))
  {
    if actions != [] {
      var last := |actions| - 1;
      ChannelsAlwaysAccounted(actions[..last]);
      StepKeepsChannelsTracked(Run(actions[..last]), actions[last]);
      StepKeepsChannelsLinear(Run(actions[..last]), actions[last]);
    }
  }

  /**
   * Under every interleaving: a login or challenge request waiting or running in an actor is already signalled,
   * or its sender is the one in the shared record; and at most one such request in the whole system is not signalled.
   */
  lemma EveryRequestCancellable(actions: seq<Action>, a: nat, i: nat, c: Channel)
    requires HasChannel(Run(actions), a, i, c)
    ensures var s := Run(actions);
            && (c in s.shared.signalled || s.shared.cancel == Some(c))
            && forall b: nat, j: nat, d: Channel ::
                 HasChannel(s, b, j, d) && d !in s.shared.signalled && c !in s.shared.signalled ==> a == b && i == j
  {
    ChannelsAlwaysAccounted(actions);
  }

  /** Once a handler has begun to disconnect, every login or challenge request that exists is signalled. */
  lemma DisconnectSignalsAll(actions: seq<Action>, client: ClientId)
    requires ClientAt(Run(actions), client).Idle?
    ensures var s := Run(actions + [BeginDisconnect(client)]);
            && ClientAt(s, client).CancelFired?
            && (forall a: nat, i: nat, c: Channel :: HasChannel(s, a, i, c) ==> c in s.shared.signalled)
            && (forall a: ActorId | Running(s, a) && CancelOf(s.actors[a].requests[0].operation).Some? ::
                  Step(s, ActorCancels(a)) == Finish(s, a, Failed))
  {
    var all := actions + [BeginDisconnect(client)];
    assert all[..|all| - 1] == actions;
    var s := Run(all);
    ChannelsAlwaysAccounted(all);
    assert s.shared.cancel.None?;
    forall a: ActorId | Running(s, a) && CancelOf(s.actors[a].requests[0].operation).Some?
      ensures Step(s, ActorCancels(a)) == Finish(s, a, Failed)
    {
      assert HasChannel(s, a, 0, CancelOf(s.actors[a].requests[0].operation).value);
    }
  }

  // ----- When a connected status has a connector -----

  predicate ConnectorSound(s: Shared) {
    s.status.Connected? ==> s.connector.Some?
  }

  /** The event task applies a connected event while no connector is stored. */
  predicate ConnectsBare(s: System, action: Action) {
    action.EventAdvances? && s.events.Applying? && s.events.event.TunnelConnected? && s.shared.connector.None?
  }

  /** A step breaks the rule exactly when it is that one. */
  lemma StepKeepsConnectorIff(s: System, action: Action)
    requires ConnectorSound(s.shared)
    ensures ConnectorSound(Step(s, action).shared) <==> !ConnectsBare(s, action)
  {
  }

  lemma RunTake(actions: seq<Action>, n: nat)
    requires n < |actions|
    ensures Run(actions[..n + 1]) == Step(Run(actions[..n]), actions[n])
  {
    assert actions[..n + 1][..n] == actions[..n];
  }

  /** Connected implies a connector all along a run if and only if no step of the run is that one. */
  lemma ConnectorAlwaysIff(actions: seq<Action>)
    ensures (forall n | 0 <= n <= |actions| :: ConnectorSound(Run(actions[..n]).shared))
            <==> (forall n | 0 <= n < |actions| :: !ConnectsBare(Run(actions[..n]), actions[n]))
  {
    if forall n | 0 <= n <= |actions| :: ConnectorSound(Run(actions[..n]).shared) {
      forall n | 0 <= n < |actions|
        ensures !ConnectsBare(Run(actions[..n]), actions[n])
      {
        RunTake(actions, n);
        StepKeepsConnectorIff(Run(actions[..n]), actions[n]);
        assert ConnectorSound(Run(actions[..n + 1]).shared);
      }
    }
    if forall n | 0 <= n < |actions| :: !ConnectsBare(Run(actions[..n]), actions[n]) {
      forall n | 0 <= n <= |actions|
        ensures ConnectorSound(Run(actions[..n]).shared)
      {
        SoundUpTo(actions, n);
      }
    }
  }

  lemma {:induction false} SoundUpTo(actions: seq<Action>, n: nat)
    requires n <= |actions|
    requires forall m | 0 <= m < |actions| :: !ConnectsBare(Run(actions[..m]), actions[m])
    ensures ConnectorSound(Run(actions[..n]).shared)
  {
    if n > 0 {
      SoundUpTo(actions, n - 1);
      RunTake(actions, n - 1);
      StepKeepsConnectorIff(Run(actions[..n - 1]), actions[n - 1]);
    }
  }

  // ----- How the rule is broken -----

  lemma RunSnoc(actions: seq<Action>, last: Action)
    ensures Run(actions + [last]) == Step(Run(actions), last)
  {
    var all := actions + [last];
    assert all[..|all| - 1] == actions;
  }

  /** A tunnel that outlives its connection can still report that it is connected. */
  lemma LateEventReconnects(actions: seq<Action>, info: ConnectionInfo)
    requires Run(actions).tunnels > 0 && Run(actions).events.Waiting? && Run(actions).shared.status == Disconnected
    ensures var all := actions + [TunnelEmits(TunnelConnected(info))] + [EventAdvances(None)] + [EventAdvances(None)];
            var s := Run(all).shared;
            s.status == Connected(info) && s.connector.None? && s.session.None?
  {
    StatusAlwaysSound(actions);
    var one := actions + [TunnelEmits(TunnelConnected(info))];
    RunSnoc(actions, TunnelEmits(TunnelConnected(info)));
    RunSnoc(one, EventAdvances(None));
    RunSnoc(one + [EventAdvances(None)], EventAdvances(None));
  }

  const SESSION := TunnelSession(0, Authenticated)

  const OPEN := Shared(Connecting, Some(SESSION), Some(0), Some(0), None, {})

  lemma Extend(actions: seq<Action>, last: Action) returns (longer: seq<Action>)
    ensures longer == actions + [last] && Run(longer) == Step(Run(actions), last)
  {
    longer := actions + [last];
    RunSnoc(actions, last);
  }

  /** The system once only client 0 has done anything. */
  predicate At(s: System, shared: Shared, requests: seq<Request>, client: ClientState, events: EventState,
      tunnels: nat) {
    s.shared == shared && |s.actors| == 1 && s.actors[0].requests == requests && !s.actors[0].busy
    && ClientAt(s, 0) == client && s.events == events && s.tunnels == tunnels
  }

  lemma LoginSent() returns (actions: seq<Action>)
    ensures At(Run(actions), OPEN.(session := None), [Request(Authenticate(0), Client(0))], AwaitSession(0), Waiting, 0)
  {
    actions := Extend([], BeginConnect(0, false));
    actions := Extend(actions, Advance(0));
    actions := Extend(actions, FactoryReplies(0, true));
    assert |Run(actions).actors| == 1 && Run(actions).actors[0] == Actor([], false);
    actions := Extend(actions, Advance(0));
    assert Run(actions).actors[0].requests == [Request(Authenticate(0), Client(0))];
  }

  lemma LoginAnswered() returns (actions: seq<Action>)
    ensures At(Run(actions), OPEN, [], NeedsTunnel(0, SESSION), Waiting, 0)
  {
    actions := LoginSent();
    actions := Extend(actions, ActorStarts(0));
    actions := Extend(actions, ActorFinishes(0, GotSession(SESSION)));
    assert Run(actions).actors[0].requests == [];
    actions := Extend(actions, Advance(0));
    actions := Extend(actions, Advance(0));
  }

  lemma TunnelStarted() returns (actions: seq<Action>)
    ensures At(Run(actions), OPEN, [], Idle, Waiting, 1)
  {
    actions := LoginAnswered();
    actions := Extend(actions, Advance(0));
    assert Run(actions).actors[0].requests == [Request(CreateTunnel(SESSION), Client(0))];
    actions := Extend(actions, ActorStarts(0));
    actions := Extend(actions, ActorFinishes(0, Done));
    assert Run(actions).actors[0].requests == [];
    actions := Extend(actions, Advance(0));
  }

  lemma EventForwarded() returns (actions: seq<Action>)
    ensures At(Run(actions), OPEN, [Request(HandleEvent(OtherEvent), EventTask)], Idle, AwaitHandled(OtherEvent), 1)
  {
    actions := TunnelStarted();
    actions := Extend(actions, TunnelEmits(OtherEvent));
    actions := Extend(actions, EventAdvances(None));
    actions := Extend(actions, EventAdvances(None));
    assert Run(actions).actors[0].requests == [Request(HandleEvent(OtherEvent), EventTask)];
  }

  /** One client connects, its tunnel starts, and the connector refuses the tunnel's first event. */
  lemma TunnelOutlivesConnection() returns (actions: seq<Action>)
    ensures Run(actions).tunnels > 0 && Run(actions).events.Waiting? && Run(actions).shared.status == Disconnected
  {
    actions := EventForwarded();
    actions := Extend(actions, ActorStarts(0));
    actions := Extend(actions, ActorFinishes(0, Failed));
    actions := Extend(actions, EventAdvances(None));
    actions := Extend(actions, EventAdvances(None));
  }
}
