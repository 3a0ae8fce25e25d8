/** The record all handlers of the command server share (crates/snxcore/src/server.rs). */
module ConnectionStates {
  import opened Wrappers

  type ActorId = nat
  type Channel = nat

  datatype MfaType = PasswordInput | IdentityProvider | UserNameInput | MobileAccess

  datatype MfaChallenge = MfaChallenge(mfaType: MfaType, prompt: string)

  datatype SessionState = NoState | Authenticated | PendingChallenge(challenge: MfaChallenge)

  datatype TunnelSession = TunnelSession(id: nat, state: SessionState)

  datatype ConnectionInfo = ConnectionInfo(interface: string, address: nat, rtt: Option<nat>)

  datatype Status = Disconnected | Connecting | Connected(info: ConnectionInfo) | Mfa(challenge: MfaChallenge)

  datatype TunnelEvent =
    | TunnelConnected(info: ConnectionInfo)
    | TunnelDisconnected
    | Rekeyed(address: nat)
    | Rtt(rtt: nat)
    | OtherEvent

  /**
   * The locked fields, with the cancel channels known to be signalled: a channel is signalled when its sender
   * is fired, and also when its sender is dropped.
   */
  datatype Shared = Shared(
    status: Status,
    session: Option<TunnelSession>,
    connector: Option<ActorId>,
    cancel: Option<Channel>,
    poller: Option<string>,
    signalled: set<Channel>)

  const INITIAL := Shared(Disconnected, None, None, None, None, {})

  /** Storing a new sender, or none, drops the sender held so far. */
  function WithCancel(s: Shared, cancel: Option<Channel>): Shared {
    s.(cancel := cancel, signalled := s.signalled + if s.cancel.Some? then {s.cancel.value} else {})
  }

  function AfterReset(s: Shared): Shared {
    WithCancel(s, None).(status := Disconnected, session := None, connector := None, poller := None)
  }

  function AfterStoreConnector(s: Shared, actor: ActorId, cancel: Channel): Shared {
    WithCancel(s, Some(cancel)).(status := Connecting, connector := Some(actor))
  }

  function AfterStoreSession(s: Shared, session: TunnelSession): Shared {
    s.(session := Some(session),
       status := if session.state.PendingChallenge? then Mfa(session.state.challenge) else Connecting)
  }

  function AfterConnectedEvent(s: Shared, info: ConnectionInfo, poller: Option<string>): Shared {
    s.(status := Connected(info), poller := if poller.Some? then poller else s.poller)
  }

  function AfterLiveEvent(s: Shared, event: TunnelEvent): Shared {
    if s.status.Connected? && event.Rekeyed? then s.(status := Connected(s.status.info.(address := event.address)))
    else if s.status.Connected? && event.Rtt? then s.(status := Connected(s.status.info.(rtt := Some(event.rtt))))
    else s
  }

  class ConnectionState {
    var status: Status
    var session: Option<TunnelSession>
    var connector: Option<ActorId>
    var cancel: Option<Channel>
    var poller: Option<string>
    var signalled: set<Channel>

    ghost function View(): Shared
      reads this
    {
      Shared(status, session, connector, cancel, poller, signalled)
    }

    constructor ()
      ensures View() == INITIAL
    {
      status, session, connector, cancel, poller, signalled := Disconnected, None, None, None, None, {};
    }

    method SetCancel(tx: Option<Channel>)
      modifies this`cancel, this`signalled
      ensures View() == WithCancel(old(View()), tx)
    {
      if cancel.Some? {
        signalled := signalled + {cancel.value};
      }
      cancel := tx;
    }

    method Reset()
      modifies this
      ensures View() == AfterReset(old(View()))
    {
      status := Disconnected;
      session := None;
      connector := None;
      SetCancel(None);
      poller := None;
    }

    method FireCancel()
      modifies this`cancel, this`signalled
      ensures View() == WithCancel(old(View()), None)
    {
      if cancel.Some? {
        signalled := signalled + {cancel.value};
        cancel := None;
      }
    }

    method IsConnected() returns (r: bool)
      ensures r <==> status != Disconnected
    {
      r := status != Disconnected;
    }

    method StoreConnector(actor: ActorId, tx: Channel)
      modifies this
      ensures View() == AfterStoreConnector(old(View()), actor, tx)
    {
      status := Connecting;
      SetCancel(Some(tx));
      connector := Some(actor);
    }

    /** Returns whether the session still waits for a challenge, in which case no tunnel is created yet. */
    method StoreSession(newSession: TunnelSession) returns (pending: bool)
      modifies this`session, this`status
      ensures View() == AfterStoreSession(old(View()), newSession)
      ensures pending <==> newSession.state.PendingChallenge?
    {
      session := Some(newSession);
      if newSession.state.PendingChallenge? {
        status := Mfa(newSession.state.challenge);
        return true;
      }
      status := Connecting;
      return false;
    }

    method ApplyConnected(info: ConnectionInfo, newPoller: Option<string>)
      modifies this`poller, this`status
      ensures View() == AfterConnectedEvent(old(View()), info, newPoller)
    {
      if newPoller.Some? {
        poller := newPoller;
      }
      status := Connected(info);
    }

    method ApplyLive(event: TunnelEvent)
      modifies this`status
      ensures View() == AfterLiveEvent(old(View()), event)
    {
      if status.Connected? {
        match event
        case Rekeyed(address) => status := Connected(status.info.(address := address));
        case Rtt(rtt) => status := Connected(status.info.(rtt := Some(rtt)));
        case _ =>
      }
    }
  }
}
