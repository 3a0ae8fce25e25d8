/** How challenges are answered during a login: the rules of the two clients, and what follows from them. */
module MfaRules {
  import opened Wrappers
  import opened ConnectionStates

  type Input = Result<string, string>

  datatype PromptInfo = PromptInfo(header: string, prompt: string, defaultEntry: Option<string>)

  datatype Params = Params(
    serverName: string,
    loginType: string,
    userName: string,
    password: string,
    passwordFactor: nat,
    mfaCode: Option<string>,
    keychain: bool)

  /** What a client works with: the gateway's prompts, the password its keychain holds and the USER variable. */
  datatype Client = Client(params: Params, prompts: seq<PromptInfo>, vault: Option<string>, user: Option<string>)

  /** The user's side: inputs still to be typed, prompts shown so far, and tokens still to come from the browser. */
  datatype Desk = Desk(typed: seq<Input>, shown: seq<PromptInfo>, tokens: seq<Input>)

  function TypedInput(desk: Desk): Input {
    if desk.typed == [] then Err("no input") else desk.typed[0]
  }

  function AfterPrompt(desk: Desk, prompt: PromptInfo): Desk {
    desk.(shown := desk.shown + [prompt], typed := if desk.typed == [] then [] else desk.typed[1..])
  }

  function TokenInput(desk: Desk): Input {
    if desk.tokens == [] then Err("no token") else desk.tokens[0]
  }

  function AfterToken(desk: Desk): Desk {
    desk.(tokens := if desk.tokens == [] then [] else desk.tokens[1..])
  }

  /** A client in the middle of a login: its counters and memories, the desk, and what it has sent so far. */
  datatype Login = Login(
    index: nat,
    username: string,
    saved: string,
    desk: Desk,
    answers: seq<string>,
    passwords: seq<string>,
    failed: bool)

  function Sent(st: Login, input: Input): Login {
    match input
    case Ok(text) => st.(answers := st.answers + [text])
    case Err(_) => st.(failed := true)
  }

  /** The gateway's own prompt for the n-th password, or the one that came with the challenge. */
  function PasswordPrompt(prompts: seq<PromptInfo>, index: nat, c: MfaChallenge): PromptInfo {
    if index < |prompts| then prompts[index] else PromptInfo("", c.prompt, None)
  }

  /**
   * The password, the saved password or the code from the parameters that answers the n-th password challenge
   * unasked.
   */
  function Prepared(p: Params, saved: string, n: nat): Option<string> {
    if p.password != "" && n == p.passwordFactor then Some(p.password)
    else if saved != "" && n == p.passwordFactor then Some(saved)
    else if p.mfaCode.Some? && n != p.passwordFactor then p.mfaCode
    else None
  }

  /** The service controller answers one challenge. */
  function AskOne(client: Client, c: MfaChallenge, st: Login): Login {
    var p := client.params;
    match c.mfaType
    case PasswordInput =>
      var next := st.(index := st.index + 1);
      var prepared := Prepared(p, st.saved, st.index + 1);
      if prepared.Some? then Sent(next, Ok(prepared.value)).(passwords := st.passwords + [prepared.value])
      else
        var input := TypedInput(st.desk);
        Sent(next.(desk := AfterPrompt(st.desk, PasswordPrompt(client.prompts, st.index, c)),
                   passwords := if input.Ok? then st.passwords + [input.value] else st.passwords), input)
    case UserNameInput =>
      var prompt := PromptInfo("username", c.prompt, if p.userName == "" then client.user else Some(p.userName));
      var input := TypedInput(st.desk);
      var next := st.(desk := AfterPrompt(st.desk, prompt));
      if input.Err? then Sent(next, input)
      else
        Sent(next.(username := input.value,
                   saved := if input.value != "" && p.keychain && p.password == ""
                       && client.vault.Some? then client.vault.value else st.saved),
             input)
    case _ => Sent(st.(desk := AfterToken(st.desk)), TokenInput(st.desk))
  }

  function AskAll(client: Client, cs: seq<MfaChallenge>, st: Login): Login
    decreases |cs|
  {
    if cs == [] || st.failed then st else AskAll(client, cs[1..], AskOne(client, cs[0], st))
  }

  /** Standalone mode answers one challenge: no keychain, and mobile access asks the terminal. */
  function AskOneStandalone(client: Client, c: MfaChallenge, st: Login): Login {
    var p := client.params;
    match c.mfaType
    case PasswordInput =>
      var next := st.(index := st.index + 1);
      var n := st.index + 1;
      if p.password != "" && n == p.passwordFactor then
        Sent(next, Ok(p.password)).(passwords := st.passwords + [p.password])
      else if p.mfaCode.Some? && n != p.passwordFactor then
        Sent(next, Ok(p.mfaCode.value)).(passwords := st.passwords + [p.mfaCode.value])
      else
        var input := TypedInput(st.desk);
        Sent(next.(desk := AfterPrompt(st.desk, PasswordPrompt(client.prompts, st.index, c)),
                   passwords := if input.Ok? then st.passwords + [input.value] else st.passwords), input)
    case IdentityProvider => Sent(st.(desk := AfterToken(st.desk)), TokenInput(st.desk))
    case MobileAccess =>
      Sent(st.(desk := AfterPrompt(st.desk, PromptInfo(c.prompt, "password", None))), TypedInput(st.desk))
    case UserNameInput =>
      Sent(st.(desk := AfterPrompt(st.desk, PromptInfo("username", c.prompt, None))), TypedInput(st.desk))
  }

  function AskAllStandalone(client: Client, cs: seq<MfaChallenge>, st: Login): Login
    decreases |cs|
  {
    if cs == [] || st.failed then st else AskAllStandalone(client, cs[1..], AskOneStandalone(client, cs[0], st))
  }

  function CountPasswords(cs: seq<MfaChallenge>): nat {
    if cs == [] then 0 else (if cs[0].mfaType.PasswordInput? then 1 else 0) + CountPasswords(cs[1..])
  }

  /** Asking for one more challenge: the fold, seen from its end. */
  lemma {:induction false} AskOneMore(client: Client, cs: seq<MfaChallenge>, c: MfaChallenge, st: Login)
    ensures var before := AskAll(client, cs, st);
            AskAll(client, cs + [c], st)
            == if before.failed then before else AskOne(client, c, before)
    decreases |cs|
  {
    if cs == [] {
      assert cs + [c] == [c] && [c][1..] == [];
    } else if !st.failed {
      assert (cs + [c])[1..] == cs[1..] + [c];
      AskOneMore(client, cs[1..], c, AskOne(client, cs[0], st));
    }
  }

  /**
   * As long as nothing fails, every challenge gets exactly one answer and every password challenge advances the
   * count.
   */
  lemma {:induction false} OneAnswerEach(client: Client, cs: seq<MfaChallenge>, st: Login)
    requires !st.failed
    ensures var end := AskAll(client, cs, st);
            && (!end.failed ==> |end.answers| == |st.answers| + |cs|)
            && (!end.failed ==> end.index == st.index + CountPasswords(cs))
            && (!end.failed ==> |end.passwords| == |st.passwords| + CountPasswords(cs))
            && st.answers <= end.answers && st.passwords <= end.passwords && st.desk.shown <= end.desk.shown
    decreases |cs|
  {
    if cs != [] {
      var next := AskOne(client, cs[0], st);
      if !next.failed {
        OneAnswerEach(client, cs[1..], next);
      }
    }
  }

  lemma {:induction false} SplitAsk(client: Client, a: seq<MfaChallenge>, b: seq<MfaChallenge>, st: Login)
    ensures AskAll(client, a + b, st)
      == AskAll(client, b, AskAll(client, a, st))
    decreases |a|
  {
    if a == [] {
      assert a + b == b;
    } else if !st.failed {
      assert (a + b)[1..] == a[1..] + b;
      SplitAsk(client, a[1..], b, AskOne(client, a[0], st));
    }
  }

  /** What is sent for challenge k is fixed by the state its predecessors leave; later challenges do not change it. */
  lemma AnswerIsStable(client: Client, cs: seq<MfaChallenge>, k: nat, st: Login)
    requires k < |cs| && !st.failed
    requires !AskAll(client, cs, st).failed
    ensures var before := AskAll(client, cs[..k], st);
            var after := AskOne(client, cs[k], before);
            && !before.failed && !after.failed
            && |before.answers| == |st.answers| + k
            && after.answers <= AskAll(client, cs, st).answers
            && before.index == st.index + CountPasswords(cs[..k])
  {
    var before := AskAll(client, cs[..k], st);
    var after := AskAll(client, cs[..k + 1], st);
    assert cs == cs[..k + 1] + cs[k + 1..];
    assert cs[..k + 1] == cs[..k] + [cs[k]];
    SplitAsk(client, cs[..k + 1], cs[k + 1..], st);
    AskOneMore(client, cs[..k], cs[k], st);
    OneAnswerEach(client, cs[..k], st);
    OneAnswerEach(client, cs[k + 1..], after);
  }

  /** The n-th password is what is prepared for n, without a prompt; otherwise the next typed input, under prompt n. */
  predicate RightPassword(client: Client, c: MfaChallenge, n: nat, before: Login, after: Login, answer: string)
    requires n > 0
  {
    var prepared := Prepared(client.params, before.saved, n);
    && (prepared.Some? ==> answer == prepared.value && after.desk == before.desk)
    && (prepared.None? ==>
          && Ok(answer) == TypedInput(before.desk)
          && after.desk == AfterPrompt(before.desk, PasswordPrompt(client.prompts, n - 1, c)))
  }

  lemma PasswordStep(client: Client, c: MfaChallenge, st: Login, answers: seq<string>)
    requires c.mfaType.PasswordInput? && !AskOne(client, c, st).failed
    requires AskOne(client, c, st).answers <= answers
    ensures |st.answers| < |answers|
    ensures RightPassword(client, c, st.index + 1, st, AskOne(client, c, st), answers[|st.answers|])
  {
    assert answers[|st.answers|] == AskOne(client, c, st).answers[|st.answers|];
  }

  /** The n-th password challenge of a login gets the right password for the state its predecessors leave. */
  lemma AnswerToPassword(client: Client, cs: seq<MfaChallenge>, k: nat, st: Login)
    requires k < |cs| && cs[k].mfaType.PasswordInput? && !st.failed
    requires !AskAll(client, cs, st).failed
    ensures var before, answers := AskAll(client, cs[..k], st), AskAll(client, cs, st).answers;
            var n := st.index + CountPasswords(cs[..k]) + 1;
            && |st.answers| + k < |answers|
            && RightPassword(client, cs[k], n, before, AskOne(client, cs[k], before), answers[|st.answers| + k])
  {
    AnswerIsStable(client, cs, k, st);
    PasswordStep(client, cs[k], AskAll(client, cs[..k], st), AskAll(client, cs, st).answers);
  }

  predicate PasswordsAndNames(cs: seq<MfaChallenge>) {
    forall c | c in cs :: c.mfaType.PasswordInput? || c.mfaType.UserNameInput?
  }

  /** Two logins that differ at most in the remembered user name and in the prompts shown. */
  predicate SameSoFar(a: Login, b: Login) {
    a.index == b.index && a.answers == b.answers && a.passwords == b.passwords && a.failed == b.failed
    && a.desk.typed == b.desk.typed
  }

  /** Without a keychain, both clients send the same answers and read the same inputs. */
  lemma {:induction false} StandaloneAgrees(client: Client, cs: seq<MfaChallenge>, a: Login, b: Login)
    requires PasswordsAndNames(cs)
    requires !client.params.keychain && a.saved == ""
    requires SameSoFar(a, b)
    ensures SameSoFar(AskAll(client, cs, a), AskAllStandalone(client, cs, b))
    decreases |cs|
  {
    if cs != [] && !a.failed {
      assert cs[0] in cs;
      StandaloneAgrees(client, cs[1..], AskOne(client, cs[0], a), AskOneStandalone(client, cs[0], b));
    }
  }
}
