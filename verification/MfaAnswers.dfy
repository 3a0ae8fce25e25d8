/** What each kind of challenge is answered with, at any place of any login, in both clients. */
module MfaAnswers {
  import opened Wrappers
  import opened ConnectionStates
  import opened MfaRules

  predicate WantsToken(c: MfaChallenge) {
    c.mfaType == IdentityProvider || c.mfaType == MobileAccess
  }

  function CountTokens(cs: seq<MfaChallenge>): nat {
    if cs == [] then 0 else (if WantsToken(cs[0]) then 1 else 0) + CountTokens(cs[1..])
  }

  /** The login goes on with this text as its next answer, or ends here for want of it. */
  predicate Gets(before: Login, end: Login, input: Input) {
    match input
    case Err(_) => end.failed && end.answers == before.answers
    case Ok(text) => before.answers + [text] <= end.answers
  }

  // ----- Any place of a login -----

  /** From challenge k on: what its predecessors leave, its own step, and what it adds to the answers for good. */
  lemma AtChallenge(client: Client, cs: seq<MfaChallenge>, k: nat, st: Login) returns (before: Login, after: Login)
    requires k < |cs| && !AskAll(client, cs[..k], st).failed
    ensures before == AskAll(client, cs[..k], st) && after == AskOne(client, cs[k], before)
    ensures var end := AskAll(client, cs, st);
            && (after.failed ==> end == after)
            && after.answers <= end.answers
  {
    before := AskAll(client, cs[..k], st);
    after := AskOne(client, cs[k], before);
    assert cs == cs[..k + 1] + cs[k + 1..];
    assert cs[..k + 1] == cs[..k] + [cs[k]];
    SplitAsk(client, cs[..k + 1], cs[k + 1..], st);
    AskOneMore(client, cs[..k], cs[k], st);
    if !after.failed {
      OneAnswerEach(client, cs[k + 1..], after);
    }
  }

  /** The tokens are used up in order, one for each challenge that wants one. */
  lemma {:induction false} TokensInOrder(client: Client, cs: seq<MfaChallenge>, st: Login)
    requires !AskAll(client, cs, st).failed
    ensures !st.failed ==>
              && CountTokens(cs) <= |st.desk.tokens|
              && AskAll(client, cs, st).desk.tokens == st.desk.tokens[CountTokens(cs)..]
    decreases |cs|
  {
    if cs != [] && !st.failed {
      TokensInOrder(client, cs[1..], AskOne(client, cs[0], st));
    }
  }

  /**
   * Challenge k, if it wants a token, is answered by the next one still to come; if none comes, or one that failed, the
   * login fails there.
   */
  lemma AnswerToToken(client: Client, cs: seq<MfaChallenge>, k: nat, st: Login)
    requires k < |cs| && WantsToken(cs[k]) && !st.failed && !AskAll(client, cs[..k], st).failed
    ensures var before, n := AskAll(client, cs[..k], st), CountTokens(cs[..k]);
            && n <= |st.desk.tokens|
            && Gets(before, AskAll(client, cs, st),
                    if n == |st.desk.tokens| then Err("no token") else st.desk.tokens[n])
  {
    var before, after := AtChallenge(client, cs, k, st);
    TokensInOrder(client, cs[..k], st);
  }

  /**
   * Challenge k, if it wants the n-th password: at the factor the configured or the remembered password answers it, at
   * any other place the configured code; where there is none, the next typed input under the n-th prompt. The count
   * advances in any case.
   */
  lemma AnswerToAnyPassword(client: Client, cs: seq<MfaChallenge>, k: nat, st: Login)
    requires k < |cs| && cs[k].mfaType == PasswordInput && !st.failed && !AskAll(client, cs[..k], st).failed
    ensures var p, before, after := client.params, AskAll(client, cs[..k], st), AskAll(client, cs[..k + 1], st);
            var n := st.index + CountPasswords(cs[..k]) + 1;
            var typed := if before.desk.typed == [] then Err("no input") else before.desk.typed[0];
            var prompt :=
              if n - 1 < |client.prompts| then client.prompts[n - 1] else PromptInfo("", cs[k].prompt, None);
            && after.index == n && after.desk.tokens == before.desk.tokens
            && (if n == p.passwordFactor && (p.password != "" || before.saved != "") then
                  && Gets(before, AskAll(client, cs, st), Ok(if p.password != "" then p.password else before.saved))
                  && after.desk == before.desk
                else if n != p.passwordFactor && p.mfaCode.Some? then
                  && Gets(before, AskAll(client, cs, st), Ok(p.mfaCode.value))
                  && after.desk == before.desk
                else
                  && Gets(before, AskAll(client, cs, st), typed)
                  && after.desk.shown == before.desk.shown + [prompt])
  {
    var before, after := AtChallenge(client, cs, k, st);
    OneAnswerEach(client, cs[..k], st);
    assert cs[..k + 1] == cs[..k] + [cs[k]];
    AskOneMore(client, cs[..k], cs[k], st);
  }

  /** What is shown and asked when a user name is wanted: with the configured name, or else USER, filled in. */
  function NamePrompt(client: Client, c: MfaChallenge): PromptInfo {
    PromptInfo("username", c.prompt, if client.params.userName != "" then Some(client.params.userName) else client.user)
  }

  /**
   * Challenge k, if it wants a user name, is answered by the next typed input, under a prompt with a name filled in;
   * the name is remembered, and with it the password in the keychain exactly if the client may look there.
   */
  lemma AnswerToName(client: Client, cs: seq<MfaChallenge>, k: nat, st: Login)
    requires k < |cs| && cs[k].mfaType == UserNameInput && !st.failed && !AskAll(client, cs[..k], st).failed
    ensures var before := AskAll(client, cs[..k], st);
            var after := AskAll(client, cs[..k + 1], st);
            var typed := if before.desk.typed == [] then Err("no input") else before.desk.typed[0];
            && Gets(before, AskAll(client, cs, st), typed)
            && after.desk.shown == before.desk.shown + [NamePrompt(client, cs[k])]
            && after.desk.tokens == before.desk.tokens && after.index == before.index
            && after.passwords == before.passwords
            && (typed.Ok? ==>
                  && after.username == typed.value
                  && after.saved == if typed.value != "" && client.params.keychain && client.params.password == ""
                                       && client.vault.Some? then client.vault.value else before.saved)
            && (typed.Err? ==> after.username == before.username && after.saved == before.saved)
  {
    var before, after := AtChallenge(client, cs, k, st);
    assert cs[..k + 1] == cs[..k] + [cs[k]];
    AskOneMore(client, cs[..k], cs[k], st);
  }

  /** Only a user name changes what is remembered. */
  lemma OthersRemember(client: Client, cs: seq<MfaChallenge>, k: nat, st: Login)
    requires k < |cs| && cs[k].mfaType != UserNameInput && !st.failed && !AskAll(client, cs[..k], st).failed
    ensures var before, after := AskAll(client, cs[..k], st), AskAll(client, cs[..k + 1], st);
            after.username == before.username && after.saved == before.saved
  {
    var before, after := AtChallenge(client, cs, k, st);
    assert cs[..k + 1] == cs[..k] + [cs[k]];
    AskOneMore(client, cs[..k], cs[k], st);
  }

  // ----- Standalone mode -----

  lemma {:induction false} SplitStandalone(client: Client, a: seq<MfaChallenge>, b: seq<MfaChallenge>, st: Login)
    ensures AskAllStandalone(client, a + b, st) == AskAllStandalone(client, b, AskAllStandalone(client, a, st))
    decreases |a|
  {
    if a == [] {
      assert a + b == b;
    } else if !st.failed {
      assert (a + b)[1..] == a[1..] + b;
      SplitStandalone(client, a[1..], b, AskOneStandalone(client, a[0], st));
    }
  }

  lemma {:induction false} StandaloneGrows(client: Client, cs: seq<MfaChallenge>, st: Login)
    ensures st.answers <= AskAllStandalone(client, cs, st).answers
    decreases |cs|
  {
    if cs != [] && !st.failed {
      StandaloneGrows(client, cs[1..], AskOneStandalone(client, cs[0], st));
    }
  }

  /** What standalone mode asks for mobile access and user names, with nothing filled in. */
  function TerminalPrompt(c: MfaChallenge): PromptInfo {
    if c.mfaType == MobileAccess then PromptInfo(c.prompt, "password", None) else PromptInfo("username", c.prompt, None)
  }

  /**
   * In standalone mode only an identity provider is answered by a token; mobile access and user names are answered by
   * the next typed input.
   */
  lemma AnswerStandalone(client: Client, cs: seq<MfaChallenge>, k: nat, st: Login)
    requires k < |cs| && cs[k].mfaType != PasswordInput && !AskAllStandalone(client, cs[..k], st).failed
    ensures var before := AskAllStandalone(client, cs[..k], st);
            var after := AskAllStandalone(client, cs[..k + 1], st);
            var typed := if before.desk.typed == [] then Err("no input") else before.desk.typed[0];
            var token := if before.desk.tokens == [] then Err("no token") else before.desk.tokens[0];
            if cs[k].mfaType == IdentityProvider then
              && Gets(before, AskAllStandalone(client, cs, st), token)
              && after.desk.shown == before.desk.shown && after.desk.typed == before.desk.typed
            else
              && Gets(before, AskAllStandalone(client, cs, st), typed)
              && after.desk.shown == before.desk.shown + [TerminalPrompt(cs[k])]
              && after.desk.tokens == before.desk.tokens
  {
    var before := AskAllStandalone(client, cs[..k], st);
    var after := AskOneStandalone(client, cs[k], before);
    assert cs == cs[..k + 1] + cs[k + 1..];
    assert cs[..k + 1] == cs[..k] + [cs[k]];
    SplitStandalone(client, cs[..k + 1], cs[k + 1..], st);
    SplitStandalone(client, cs[..k], [cs[k]], st);
    assert [cs[k]][1..] == [];
    assert AskAllStandalone(client, [cs[k]], before) == after;
    StandaloneGrows(client, cs[k + 1..], after);
  }
}
