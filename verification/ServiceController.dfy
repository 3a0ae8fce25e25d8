/**
 * The two clients at work: the service controller, whose recursion runs against the command server
 * (crates/snxcore/src/controller.rs), and the loop of standalone mode (apps/snx-rs/src/main.rs).
 */
module ServiceControllers {
  import opened Wrappers
  import opened ConnectionStates
  import opened MfaRules

  datatype Exchange = Exchange(challenge: MfaChallenge, code: string)

  function Exchanges(cs: seq<MfaChallenge>, answers: seq<string>): seq<Exchange>
    requires |answers| <= |cs|
  {
    seq(|answers|, i requires 0 <= i < |answers| => Exchange(cs[i], answers[i]))
  }

  /** A connector whose gateway asks the remaining challenges in turn and then accepts the login. */
  class Gateway {
    var remaining: seq<MfaChallenge>
    var log: seq<Exchange>

    constructor (script: seq<MfaChallenge>)
      ensures remaining == script && log == []
    {
      remaining, log := script, [];
    }

    function Session(): TunnelSession
      reads this
    {
      TunnelSession(0, if remaining == [] then Authenticated else PendingChallenge(remaining[0]))
    }

    method ChallengeCode(code: string) returns (r: Result<TunnelSession, string>)
      modifies this
      ensures old(remaining) == [] ==> r.Err? && remaining == [] && log == old(log)
      ensures old(remaining) != [] ==>
                && remaining == old(remaining)[1..]
                && log == old(log) + [Exchange(old(remaining)[0], code)]
                && r == Ok(Session())
    {
      if remaining == [] {
        return Err("no challenge");
      }
      log := log + [Exchange(remaining[0], code)];
      remaining := remaining[1..];
      return Ok(Session());
    }
  }

  datatype Response = Accepted | Refused(reason: string)

  /** The command server with a single client; `delay` status polls pass before the tunnel reports that it is up. */
  class Server {
    const gateway: Gateway
    const info: ConnectionInfo
    var shared: Shared
    var nextId: nat
    var delay: nat

    constructor (gateway: Gateway, info: ConnectionInfo, delay: nat)
      ensures this.gateway == gateway && this.info == info && this.delay == delay
      ensures shared == INITIAL
    {
      this.gateway, this.info, this.delay := gateway, info, delay;
      shared, nextId := INITIAL, 0;
    }

    /** A login is under way, and status, session and gateway agree on how far it is. */
    predicate InLogin()
      reads this, gateway
    {
      && shared.session == Some(gateway.Session())
      && shared.connector.Some?
      && shared.status == if gateway.remaining == [] then Connecting else Mfa(gateway.remaining[0])
    }

    method Connect() returns (r: Response)
      modifies this
      ensures delay == old(delay)
      ensures old(shared.status) != Disconnected ==> r.Refused? && shared == old(shared)
      ensures old(shared.status) == Disconnected ==> r.Accepted? && InLogin()
    {
      if shared.status != Disconnected {
        return Refused("another connection is in progress");
      }
      shared := AfterReset(shared);
      shared := AfterStoreConnector(shared, nextId, nextId);
      nextId := nextId + 1;
      shared := AfterStoreSession(shared, gateway.Session());
      return Accepted;
    }

    method ChallengeCode(code: string) returns (r: Response)
      modifies this, gateway
      ensures r.Accepted? <==> old(shared.connector.Some? && shared.session.Some? && gateway.remaining != [])
      ensures r.Accepted? ==>
                && InLogin()
                && delay == old(delay)
                && gateway.remaining == old(gateway.remaining)[1..]
                && gateway.log == old(gateway.log) + [Exchange(old(gateway.remaining)[0], code)]
      ensures r.Refused? ==> shared.status == Disconnected && gateway.log == old(gateway.log)
    {
      if shared.connector.None? || shared.session.None? {
        shared := AfterReset(shared);
        return Refused("no connector");
      }
      shared := WithCancel(shared, Some(nextId));
      nextId := nextId + 1;
      var session := gateway.ChallengeCode(code);
      match session
      case Err(e) =>
        shared := AfterReset(shared);
        return Refused(e);
      case Ok(next) =>
        shared := AfterStoreSession(shared, next);
        return Accepted;
    }

    /** A poll; once the login is over, the tunnel's event arrives after `delay` of them. */
    method GetStatus() returns (status: Status)
      modifies this`shared, this`delay
      ensures status == shared.status
      ensures shared == if old(shared.status) == Connecting && old(delay) == 0
                        then AfterConnectedEvent(old(shared), info, None) else old(shared)
      ensures delay == if old(shared.status) == Connecting && old(delay) > 0 then old(delay) - 1 else old(delay)
    {
      if shared.status == Connecting {
        if delay == 0 {
          shared := AfterConnectedEvent(shared, info, None);
        } else {
          delay := delay - 1;
        }
      }
      return shared.status;
    }

    method Disconnect()
      modifies this`shared
      ensures shared == AfterReset(WithCancel(old(shared), None))
    {
      shared := WithCancel(shared, None);
      shared := AfterReset(shared);
    }
  }

  function FirstNonEmpty(passwords: seq<string>): Option<string> {
    if passwords == [] then None else if passwords[0] != "" then Some(passwords[0]) else FirstNonEmpty(passwords[1..])
  }

  /** The keychain entry once all calls have returned: each stores its own input, the first challenge's call last. */
  function VaultAfter(p: Params, index: nat, passwords: seq<string>, vault: Option<string>): Option<string> {
    if p.keychain && index == p.passwordFactor && FirstNonEmpty(passwords).Some?
    then FirstNonEmpty(passwords)
    else vault
  }

  /** The same login with the answers it had already sent before. */
  function WithHistory(st: Login, answers: seq<string>, passwords: seq<string>): Login {
    st.(answers := answers + st.answers, passwords := passwords + st.passwords)
  }

  /** The text that a challenge is answered with, or why there is none. */
  function InputFor(client: Client, c: MfaChallenge, st: Login): Input {
    match c.mfaType
    case PasswordInput =>
      var prepared := Prepared(client.params, st.saved, st.index + 1);
      if prepared.Some? then Ok(prepared.value) else TypedInput(st.desk)
    case UserNameInput => TypedInput(st.desk)
    case _ => TokenInput(st.desk)
  }

  lemma OneAnswerIgnoresHistory(client: Client, c: MfaChallenge, st: Login, answers: seq<string>,
      passwords: seq<string>)
    ensures AskOne(client, c, WithHistory(st, answers, passwords))
        == WithHistory(AskOne(client, c, st), answers, passwords)
  {
    var full, input := WithHistory(st, answers, passwords), InputFor(client, c, st);
    if input.Ok? {
      assert full.answers + [input.value] == answers + (st.answers + [input.value]);
      assert full.passwords + [input.value] == passwords + (st.passwords + [input.value]);
    }
  }

  /** Answers already sent do not influence the rest of a login. */
  lemma {:induction false} LoginIgnoresHistory(client: Client, cs: seq<MfaChallenge>, st: Login,
      answers: seq<string>, passwords: seq<string>)
    ensures AskAll(client, cs, WithHistory(st, answers, passwords))
        == WithHistory(AskAll(client, cs, st), answers, passwords)
    decreases |cs|
  {
    if cs != [] && !st.failed {
      OneAnswerIgnoresHistory(client, cs[0], st, answers, passwords);
      LoginIgnoresHistory(client, cs[1..], AskOne(client, cs[0], st), answers, passwords);
    }
  }

  /** A login starts with one answered challenge and goes on from the state that leaves. */
  lemma FirstAnswer(client: Client, cs: seq<MfaChallenge>, start: Login, text: string)
    requires cs != [] && start.answers == [] && start.passwords == [] && !start.failed
    requires !AskOne(client, cs[0], start).failed && AskOne(client, cs[0], start).answers == [text]
    ensures var asked := AskOne(client, cs[0], start);
            AskAll(client, cs, start)
            == WithHistory(AskAll(client, cs[1..], asked.(answers := [], passwords := [])), [text], asked.passwords)
  {
    var asked := AskOne(client, cs[0], start);
    var middle := asked.(answers := [], passwords := []);
    assert asked == WithHistory(middle, [text], asked.passwords);
    LoginIgnoresHistory(client, cs[1..], middle, [text], asked.passwords);
  }

  lemma FirstExchange(cs: seq<MfaChallenge>, text: string, answers: seq<string>, log: seq<Exchange>)
    requires cs != [] && |answers| <= |cs| - 1
    ensures log + [Exchange(cs[0], text)] + Exchanges(cs[1..], answers) == log + Exchanges(cs, [text] + answers)
  {
  }

  /** The outermost call stores last, so its input wins. */
  lemma OuterStoreWins(p: Params, index: nat, text: string, passwords: seq<string>, vault: Option<string>)
    ensures VaultAfter(p, index, [text] + passwords, vault)
      == if p.keychain && index == p.passwordFactor && text != "" then Some(text)
         else VaultAfter(p, index, passwords, vault)
  {
    assert ([text] + passwords)[1..] == passwords;
  }

  datatype Failure = NoInput | ServerRefused | Timeout | MissingParameters

  class ServiceController {
    const server: Server
    const prompts: seq<PromptInfo>
    const user: Option<string>
    var mfaIndex: nat
    var passwordFromKeychain: string
    var username: string
    var desk: Desk
    var vault: Option<string>

    constructor (server: Server, prompts: seq<PromptInfo>, user: Option<string>, desk: Desk, vault: Option<string>)
      ensures this.server == server && this.prompts == prompts && this.user == user
      ensures this.desk == desk && this.vault == vault
      ensures mfaIndex == 0 && passwordFromKeychain == "" && username == ""
    {
      this.server, this.prompts, this.user := server, prompts, user;
      this.desk, this.vault := desk, vault;
      mfaIndex, passwordFromKeychain, username := 0, "", "";
    }

    function ClientOf(p: Params): Client
      reads this
    {
      Client(p, prompts, vault, user)
    }

    /** The controller's own fields, as the state of a login that has sent nothing yet. */
    function Now(): Login
      reads this
    {
      Login(mfaIndex, username, passwordFromKeychain, desk, [], [], false)
    }

    /** The controller's fields are those of this login. */
    predicate Matches(end: Login)
      reads this
    {
      mfaIndex == end.index && username == end.username && passwordFromKeychain == end.saved && desk == end.desk
    }

    method Prompt(prompt: PromptInfo) returns (input: Input)
      modifies this`desk
      ensures desk == AfterPrompt(old(desk), prompt) && input == TypedInput(old(desk))
    {
      input := TypedInput(desk);
      desk := AfterPrompt(desk, prompt);
    }

    method GetMfaInput(mfa: MfaChallenge, params: Params) returns (input: Input)
      modifies this`mfaIndex, this`passwordFromKeychain, this`username, this`desk
      ensures var end := AskOne(old(ClientOf(params)), mfa, old(Now()));
              && Matches(end)
              && (input.Err? <==> end.failed)
              && (input.Ok? ==> end.answers == [input.value])
              && (input.Ok? ==> end.passwords == if mfa.mfaType.PasswordInput? then [input.value] else [])
    {
      match mfa.mfaType
      case PasswordInput =>
        var prompt := PasswordPrompt(prompts, mfaIndex, mfa);
        mfaIndex := mfaIndex + 1;
        if params.password != "" && mfaIndex == params.passwordFactor {
          input := Ok(params.password);
        } else if passwordFromKeychain != "" && mfaIndex == params.passwordFactor {
          input := Ok(passwordFromKeychain);
        } else if params.mfaCode.Some? && mfaIndex != params.passwordFactor {
          input := Ok(params.mfaCode.value);
        } else {
          input := Prompt(prompt);
        }
      case UserNameInput =>
        input := Prompt(PromptInfo("username", mfa.prompt, if params.userName == "" then user
            else Some(params.userName)));
        if input.Ok? {
          username := input.value;
          if username != "" && params.keychain && params.password == "" && vault.Some? {
            passwordFromKeychain := vault.value;
          }
        }
      case _ =>
        input := TokenInput(desk);
        desk := AfterToken(desk);
    }

    /** How a login with these challenges ends when it starts from these values; `delay` and `log` are the server's. */
    ghost predicate LoginEnds(client: Client, cs: seq<MfaChallenge>, start: Login, delay: nat, log: seq<Exchange>,
        r: Result<Status, Failure>)
      reads this, server, server.gateway
    {
      var end := AskAll(client, cs, start);
      && Matches(end)
      && |end.answers| <= |cs|
      && server.gateway.log == log + Exchanges(cs, end.answers)
      && (end.failed ==>
            && r == Err(NoInput)
            && server.shared.status == Disconnected
            && vault == client.vault)
      && (!end.failed ==>
            && |end.answers| == |cs|
            && server.gateway.remaining == []
            && server.shared.session == Some(server.gateway.Session())
            && server.shared.connector.Some?
            && server.shared.status == (if delay == 0 then Connected(server.info) else Connecting)
            && server.delay == (if delay == 0 then 0 else delay - 1)
            && r == Ok(server.shared.status)
            && vault == VaultAfter(client.params, end.index, end.passwords, client.vault))
    }

    method DoStatus(params: Params, withMfa: bool) returns (r: Result<Status, Failure>)
      modifies this, server, server.gateway
      ensures !withMfa ==> r == Ok(server.shared.status) && Now() == old(Now()) && vault == old(vault)
      ensures !withMfa ==> server.gateway.log == old(server.gateway.log)
      ensures withMfa && old(server.InLogin()) ==>
                LoginEnds(old(ClientOf(params)), old(server.gateway.remaining), old(Now()), old(server.delay),
                          old(server.gateway.log), r)
      decreases |server.gateway.remaining|, 2
    {
      var status := server.GetStatus();
      if withMfa && status.Mfa? {
        r := ProcessMfaRequest(status.challenge, params);
      } else {
        r := Ok(status);
      }
    }

    method ProcessMfaRequest(mfa: MfaChallenge, params: Params) returns (r: Result<Status, Failure>)
      modifies this, server, server.gateway
      ensures old(server.InLogin())
              && old(server.gateway.remaining) != [] && mfa == old(server.gateway.remaining)[0] ==>
                LoginEnds(old(ClientOf(params)), old(server.gateway.remaining), old(Now()), old(server.delay),
                          old(server.gateway.log), r)
      decreases |server.gateway.remaining|, 1
    {
      ghost var client, start, cs, log := ClientOf(params), Now(), server.gateway.remaining, server.gateway.log;
      ghost var proper := server.InLogin() && cs != [] && mfa == cs[0];
      var input := GetMfaInput(mfa, params);
      match input
      case Ok(text) =>
        ghost var middle := Now();
        r := DoChallengeCode(text, params);
        if proper {
          ghost var rest := AskAll(client, cs[1..], middle);
          FirstAnswer(client, cs, start, text);
          FirstExchange(cs, text, rest.answers, log);
          OuterStoreWins(params, rest.index, text, rest.passwords, client.vault);
          assert [] + rest.passwords == rest.passwords;
        }
        if r.Ok? && mfa.mfaType.PasswordInput? && mfaIndex == params.passwordFactor && params.keychain && text != "" {
          vault := Some(text);
        }
      case Err(e) =>
        server.Disconnect();
        r := Err(NoInput);
        assert proper ==> AskAll(client, cs, start) == AskOne(client, mfa, start);
        assert log + Exchanges(cs, []) == log;
    }

    method DoChallengeCode(code: string, params: Params) returns (r: Result<Status, Failure>)
      modifies this, server, server.gateway
      ensures old(server.InLogin()) && old(server.gateway.remaining) != [] ==>
                LoginEnds(old(ClientOf(params)), old(server.gateway.remaining)[1..], old(Now()), old(server.delay),
                          old(server.gateway.log) + [Exchange(old(server.gateway.remaining)[0], code)], r)
      decreases |server.gateway.remaining|, 0
    {
      var response := server.ChallengeCode(code);
      match response
      case Accepted => r := DoStatus(params, true);
      case Refused(e) =>
        server.Disconnect();
        r := Err(ServerRefused);
    }

    /** How a whole login ends that ran to `end`; `inTime` tells whether the tunnel is up before the client gives up. */
    ghost predicate ConnectEnds(client: Client, cs: seq<MfaChallenge>, end: Login, inTime: bool, log: seq<Exchange>,
        r: Result<Status, Failure>)
      reads this, server, server.gateway
    {
      && |end.answers| <= |cs|
      && server.gateway.log == log + Exchanges(cs, end.answers)
      && (end.failed ==> r == Err(NoInput) && server.shared.status == Disconnected && vault == client.vault)
      && (!end.failed ==>
            && |end.answers| == |cs|
            && r == (if inTime then Ok(Connected(server.info)) else Err(Timeout))
            && vault == VaultAfter(client.params, end.index, end.passwords, client.vault))
    }

    /** The polling part of a login: the first poll runs the whole dialogue, all later ones find it over. */
    method AwaitTunnel(params: Params, patience: nat) returns (r: Result<Status, Failure>)
      requires server.InLogin()
      modifies this, server, server.gateway
      ensures var client, cs := old(ClientOf(params)), old(server.gateway.remaining);
              ConnectEnds(client, cs, AskAll(client, cs, old(Now())), old(server.delay) <= patience,
                          old(server.gateway.log), r)
    {
      ghost var cs, start, client, log := server.gateway.remaining, Now(), ClientOf(params), server.gateway.log;
      ghost var end := AskAll(client, cs, start);
      var polls := 0;
      while true
        invariant 0 <= polls <= patience && polls <= old(server.delay)
        invariant server.InLogin() && server.delay == old(server.delay) - polls
        invariant polls == 0 ==>
            && server.gateway.remaining == cs && Now() == start && vault == client.vault && server.gateway.log == log
        invariant polls > 0 ==>
            && server.gateway.remaining == [] && Matches(end) && !end.failed && |end.answers| == |cs|
            && vault == VaultAfter(params, end.index, end.passwords, client.vault)
            && server.gateway.log == log + Exchanges(cs, end.answers)
        decreases patience - polls
      {
        r := DoStatus(params, true);
        if r != Ok(Connecting) {
          return;
        }
        if polls == patience {
          return Err(Timeout);
        }
        polls := polls + 1;
      }
    }

    /** A whole login; `patience` polls pass before the client gives up on a connection that is still being set up. */
    method DoConnect(params: Params, patience: nat) returns (r: Result<Status, Failure>)
      modifies this, server, server.gateway
      ensures params.serverName == "" || params.loginType == "" ==>
                r == Err(MissingParameters) && server.gateway.log == old(server.gateway.log) && vault == old(vault)
      ensures params.serverName != "" && params.loginType != "" && old(server.shared.status) != Disconnected ==>
                r == Err(ServerRefused) && server.gateway.log == old(server.gateway.log) && vault == old(vault)
      ensures params.serverName != "" && params.loginType != "" && old(server.shared.status) == Disconnected ==>
                var saved :=
                  if params.userName != "" && params.keychain && params.password == "" && old(vault).Some?
                  then old(vault).value else old(passwordFromKeychain);
                var start := Login(0, params.userName, saved, old(desk), [], [], false);
                var end := AskAll(old(ClientOf(params)), old(server.gateway.remaining), start);
                ConnectEnds(old(ClientOf(params)), old(server.gateway.remaining), end, old(server.delay) <= patience,
                            old(server.gateway.log), r)
    {
      if params.serverName == "" || params.loginType == "" {
        return Err(MissingParameters);
      }
      mfaIndex := 0;
      if params.userName != "" && params.keychain && params.password == "" && vault.Some? {
        passwordFromKeychain := vault.value;
      }
      username := params.userName;
      var response := server.Connect();
      if response.Refused? {
        return Err(ServerRefused);
      }
      r := AwaitTunnel(params, patience);
    }

  }

  lemma OneMoreExchange(cs: seq<MfaChallenge>, answers: seq<string>, answer: string)
    requires |answers| < |cs|
    ensures Exchanges(cs, answers + [answer]) == Exchanges(cs, answers) + [Exchange(cs[|answers|], answer)]
  {
  }

  /** Standalone mode talks to the connector directly, until no challenge is pending. */
  method LoginStandalone(client: Client, gateway: Gateway, desk: Desk) returns (r: Result<TunnelSession, Failure>,
      after: Desk)
    modifies gateway
    ensures var cs := old(gateway.remaining);
            var end := AskAllStandalone(client, cs, Login(0, "", "", desk, [], [], false));
            && |end.answers| <= |cs|
            && after == end.desk
            && gateway.log == old(gateway.log) + Exchanges(cs, end.answers)
            && (end.failed ==> r == Err(NoInput))
            && (!end.failed ==>
                  r == Ok(TunnelSession(0, Authenticated)) && gateway.remaining == [] && |end.answers| == |cs|)
  {
    ghost var cs, start := gateway.remaining, Login(0, "", "", desk, [], [], false);
    ghost var st := start;
    after := desk;
    var session := gateway.Session();
    var mfaIndex := 0;
    while session.state.PendingChallenge?
      invariant session == gateway.Session()
      invariant |st.answers| + |gateway.remaining| == |cs| && gateway.remaining == cs[|st.answers|..]
      invariant !st.failed && st.desk == after && st.index == mfaIndex
      invariant AskAllStandalone(client, gateway.remaining, st) == AskAllStandalone(client, cs, start)
      invariant gateway.log == old(gateway.log) + Exchanges(cs, st.answers)
      decreases |gateway.remaining|
    {
      var challenge := session.state.challenge;
      var input;
      match challenge.mfaType {
        case PasswordInput =>
          var promptInfo := PasswordPrompt(client.prompts, mfaIndex, challenge);
          mfaIndex := mfaIndex + 1;
          if client.params.password != "" && mfaIndex == client.params.passwordFactor {
            input := Ok(client.params.password);
          } else if client.params.mfaCode.Some? && mfaIndex != client.params.passwordFactor {
            input := Ok(client.params.mfaCode.value);
          } else {
            input := TypedInput(after);
            after := AfterPrompt(after, promptInfo);
          }
        case IdentityProvider =>
          input := TokenInput(after);
          after := AfterToken(after);
        case MobileAccess =>
          input := TypedInput(after);
          after := AfterPrompt(after, PromptInfo(challenge.prompt, "password", None));
        case UserNameInput =>
          input := TypedInput(after);
          after := AfterPrompt(after, PromptInfo("username", challenge.prompt, None));
      }
      ghost var before := st;
      st := AskOneStandalone(client, challenge, st);
      if input.Err? {
        return Err(NoInput), after;
      }
      var next := gateway.ChallengeCode(input.value);
      OneMoreExchange(cs, before.answers, input.value);
      session := next.value;
    }
    return Ok(session), after;
  }

  /** On a fresh controller without a keychain, both clients send the same codes for passwords and user names. */
  lemma ClientsSendTheSame(client: Client, cs: seq<MfaChallenge>, desk: Desk)
    requires PasswordsAndNames(cs) && !client.params.keychain
    ensures var controller := AskAll(client, cs, Login(0, client.params.userName, "", desk, [], [], false));
            var standalone := AskAllStandalone(client, cs, Login(0, "", "", desk, [], [], false));
            controller.answers == standalone.answers && controller.failed == standalone.failed
            && controller.desk.typed == standalone.desk.typed
  {
    StandaloneAgrees(client, cs, Login(0, client.params.userName, "", desk, [], [], false),
        Login(0, "", "", desk, [], [], false));
  }
}
