/**
 * What the keychain holds after a login. The count of password challenges is compared after all later challenges have
 * advanced it (crates/snxcore/src/controller.rs:151-165), so the answer that gets stored is not always the factor's.
 */
module KeychainFactor {
  import opened Wrappers
  import opened ConnectionStates
  import opened MfaRules
  import opened ServiceControllers

  /** The entry that belongs in the keychain: the answer to the password factor. */
  function FactorAnswer(p: Params, passwords: seq<string>, vault: Option<string>): Option<string> {
    if p.keychain && 1 <= p.passwordFactor <= |passwords| && passwords[p.passwordFactor - 1] != ""
    then Some(passwords[p.passwordFactor - 1])
    else vault
  }

  function Start(username: string, saved: string, desk: Desk): Login {
    Login(0, username, saved, desk, [], [], false)
  }

  /** Every login that succeeds, whatever is typed and whatever the browser sends, leaves the factor's answer. */
  ghost predicate KeepsFactor(client: Client, cs: seq<MfaChallenge>, username: string, saved: string) {
    forall desk: Desk ::
      var end := AskAll(client, cs, Start(username, saved, desk));
      !end.failed ==>
        VaultAfter(client.params, end.index, end.passwords, client.vault)
        == FactorAnswer(client.params, end.passwords, client.vault)
  }

  /** A user name is asked for before the n-th password. */
  predicate NameBefore(cs: seq<MfaChallenge>, n: int) {
    && cs != [] && n > 0
    && (cs[0].mfaType.UserNameInput? || NameBefore(cs[1..], if cs[0].mfaType.PasswordInput? then n - 1 else n))
  }

  function Given(p: Params, saved: string): string {
    if p.password != "" then p.password else saved
  }

  /** A user name makes the client read the password in its keychain. */
  predicate ReadsVault(client: Client) {
    client.params.keychain && client.params.password == "" && client.vault.Some?
  }

  /** What the configuration has to be like; `saved` is the password remembered when the login starts. */
  predicate FactorIsKept(client: Client, cs: seq<MfaChallenge>, saved: string) {
    var p, n := client.params, CountPasswords(cs);
    var given := Given(p, saved);
    || !p.keychain
    || p.passwordFactor == 0
    || p.passwordFactor > n
    || (p.passwordFactor == 1 && n == 1)
    || (p.passwordFactor < n && given != "" && client.vault == Some(given))
    || (p.passwordFactor == n && p.mfaCode.Some?
        && (p.mfaCode.value == ""
            || (given == p.mfaCode.value
                && (ReadsVault(client) && NameBefore(cs, n) ==> client.vault.value == given))))
  }

  // ----- What every login answers -----

  /** With a code in the parameters, it answers every password challenge but the factor. */
  lemma {:induction false} CodeAnswersOthers(client: Client, cs: seq<MfaChallenge>, st: Login, i: nat)
    requires !st.failed && |st.passwords| == st.index && !AskAll(client, cs, st).failed
    requires client.params.mfaCode.Some?
    requires st.index <= i < st.index + CountPasswords(cs) && i + 1 != client.params.passwordFactor
    ensures var end := AskAll(client, cs, st);
            i < |end.passwords| && end.passwords[i] == client.params.mfaCode.value
    decreases |cs|
  {
    var next := AskOne(client, cs[0], st);
    OneAnswerEach(client, cs[1..], next);
    if cs[0].mfaType.PasswordInput? && i == st.index {
      assert next.passwords[i] == client.params.mfaCode.value;
    } else {
      CodeAnswersOthers(client, cs[1..], next, i);
    }
  }

  /** A password that is given, and that no keychain entry replaces on the way, answers the factor. */
  lemma {:induction false} GivenAnswersFactor(client: Client, cs: seq<MfaChallenge>, st: Login)
    requires !st.failed && |st.passwords| == st.index && !AskAll(client, cs, st).failed
    requires st.index < client.params.passwordFactor <= st.index + CountPasswords(cs)
    requires var given := Given(client.params, st.saved);
             && given != ""
             && (ReadsVault(client) && NameBefore(cs, client.params.passwordFactor - st.index) ==>
                   client.vault.value == given)
    ensures var end, f := AskAll(client, cs, st), client.params.passwordFactor;
            f <= |end.passwords| && end.passwords[f - 1] == Given(client.params, st.saved)
    decreases |cs|
  {
    var next := AskOne(client, cs[0], st);
    OneAnswerEach(client, cs[1..], next);
    if cs[0].mfaType.PasswordInput? && st.index + 1 == client.params.passwordFactor {
      assert next.passwords[st.index] == Given(client.params, st.saved);
    } else {
      GivenAnswersFactor(client, cs[1..], next);
    }
  }

  // ----- A login for every choice of typed texts -----

  function WithTyped(st: Login, typed: seq<Input>): Login {
    st.(desk := st.desk.(typed := typed))
  }

  /** What a user types who has decided on a name, on an answer to the factor and on one to all other passwords. */
  datatype Choice = Choice(name: string, factor: string, other: string)

  /** The password remembered when the factor is asked for. */
  function SavedThen(client: Client, cs: seq<MfaChallenge>, st: Login, choice: Choice): string {
    if ReadsVault(client) && choice.name != "" && NameBefore(cs, client.params.passwordFactor - st.index)
    then client.vault.value
    else st.saved
  }

  function ChosenAnswer(p: Params, saved: string, n: nat, choice: Choice): string {
    var prepared := Prepared(p, saved, n);
    if prepared.Some? then prepared.value else if n == p.passwordFactor then choice.factor else choice.other
  }

  /** What this user types for one challenge, if it is put on the screen at all. */
  function TypedFor(client: Client, c: MfaChallenge, st: Login, choice: Choice): seq<Input> {
    match c.mfaType
    case PasswordInput =>
      if Prepared(client.params, st.saved, st.index + 1).Some? then []
      else if st.index + 1 == client.params.passwordFactor then [Ok(choice.factor)]
      else [Ok(choice.other)]
    case UserNameInput => [Ok(choice.name)]
    case _ => []
  }

  lemma TypedStep(client: Client, c: MfaChallenge, st: Login, choice: Choice, rest: seq<Input>)
    requires !st.failed && st.desk.tokens != [] && st.desk.tokens[0].Ok?
    ensures var typed := TypedFor(client, c, st, choice);
            var next := AskOne(client, c, WithTyped(st, typed));
            && !next.failed
            && AskOne(client, c, WithTyped(st, typed + rest)) == WithTyped(next, rest)
            && next.index == st.index + (if c.mfaType.PasswordInput? then 1 else 0)
            && (next.desk.tokens == st.desk.tokens || next.desk.tokens == st.desk.tokens[1..])
            && next.passwords == st.passwords + (if c.mfaType.PasswordInput?
                  then [ChosenAnswer(client.params, st.saved, st.index + 1, choice)] else [])
            && next.saved == if c.mfaType.UserNameInput? && choice.name != "" && ReadsVault(client)
                             then client.vault.value else st.saved
  {
    var typed := TypedFor(client, c, st, choice);
    if typed == [] {
      assert typed + rest == rest;
    } else {
      assert (typed + rest)[1..] == rest;
    }
  }

  /** What is remembered for the factor does not change over a step. */
  lemma RememberedOnward(client: Client, cs: seq<MfaChallenge>, st: Login, next: Login, choice: Choice, i: nat)
    requires cs != [] && next.index <= i
    requires next.index == st.index + (if cs[0].mfaType.PasswordInput? then 1 else 0)
    requires next.saved == if cs[0].mfaType.UserNameInput? && choice.name != "" && ReadsVault(client)
                           then client.vault.value else st.saved
    ensures ChosenAnswer(client.params, SavedThen(client, cs[1..], next, choice), i + 1, choice)
         == ChosenAnswer(client.params, SavedThen(client, cs, st, choice), i + 1, choice)
  {
    if i + 1 == client.params.passwordFactor {
      assert NameBefore(cs, i + 1 - st.index)
        <==> cs[0].mfaType.UserNameInput? || NameBefore(cs[1..], i + 1 - next.index);
    }
  }

  lemma RememberedHere(client: Client, cs: seq<MfaChallenge>, st: Login, choice: Choice)
    requires cs != [] && cs[0].mfaType.PasswordInput?
    ensures ChosenAnswer(client.params, st.saved, st.index + 1, choice)
         == ChosenAnswer(client.params, SavedThen(client, cs, st, choice), st.index + 1, choice)
  {
    assert !NameBefore(cs[1..], 0);
    assert !NameBefore(cs, 1);
  }

  /** The login of such a user succeeds, and each password is the prepared or the chosen one. */
  lemma {:induction false} ChoiceRuns(client: Client, cs: seq<MfaChallenge>, st: Login, choice: Choice)
      returns (typed: seq<Input>)
    requires !st.failed && |st.passwords| == st.index
    requires |st.desk.tokens| >= |cs| && forall t | t in st.desk.tokens :: t.Ok?
    ensures var end := AskAll(client, cs, WithTyped(st, typed));
            && !end.failed
            && |end.passwords| == end.index == st.index + CountPasswords(cs)
            && st.passwords <= end.passwords
            && forall i | st.index <= i < |end.passwords| ::
                 end.passwords[i] == ChosenAnswer(client.params, SavedThen(client, cs, st, choice), i + 1, choice)
    decreases |cs|
  {
    if cs == [] {
      typed := [];
    } else {
      var now := TypedFor(client, cs[0], st, choice);
      var next := AskOne(client, cs[0], WithTyped(st, now));
      TypedStep(client, cs[0], st, choice, []);
      var rest := ChoiceRuns(client, cs[1..], next, choice);
      TypedStep(client, cs[0], st, choice, rest);
      typed := now + rest;
      var end := AskAll(client, cs, WithTyped(st, typed));
      assert end == AskAll(client, cs[1..], WithTyped(next, rest));
      forall i | st.index <= i < |end.passwords|
        ensures end.passwords[i] == ChosenAnswer(client.params, SavedThen(client, cs, st, choice), i + 1, choice)
      {
        if i < next.index {
          RememberedHere(client, cs, st, choice);
          assert end.passwords[i] == next.passwords[i];
        } else {
          assert end.passwords[i]
              == ChosenAnswer(client.params, SavedThen(client, cs[1..], next, choice), i + 1, choice);
          RememberedOnward(client, cs, st, next, choice, i);
        }
      }
    }
  }

  /** The tokens that a browser sends when every page is confirmed. */
  function Tokens(n: nat): seq<Input> {
    seq(n, _ => Ok(""))
  }

  lemma ChoiceEnds(client: Client, cs: seq<MfaChallenge>, username: string, saved: string, choice: Choice)
      returns (desk: Desk)
    ensures var end := AskAll(client, cs, Start(username, saved, desk));
            var remembered := SavedThen(client, cs, Start(username, saved, Desk([], [], [])), choice);
            && !end.failed
            && |end.passwords| == end.index == CountPasswords(cs)
            && forall i | 0 <= i < |end.passwords| ::
                 end.passwords[i] == ChosenAnswer(client.params, remembered, i + 1, choice)
  {
    var st := Start(username, saved, Desk([], [], Tokens(|cs|)));
    var typed := ChoiceRuns(client, cs, st, choice);
    desk := Desk(typed, [], Tokens(|cs|));
  }

  function Other(text: string): (r: string)
    ensures r != "" && r != text
  {
    if text == "a" then "b" else "a"
  }

  // ----- When the keychain keeps the factor -----

  lemma {:induction false} FirstOfOthers(passwords: seq<string>, text: string)
    requires forall i | 0 <= i < |passwords| - 1 :: passwords[i] == text
    ensures FirstNonEmpty(passwords)
         == if text != "" && |passwords| > 1 then Some(text)
            else if passwords != [] && passwords[|passwords| - 1] != "" then Some(passwords[|passwords| - 1])
            else None
  {
    if passwords != [] && (text == "" || |passwords| == 1) {
      FirstOfOthers(passwords[1..], text);
    }
  }

  lemma Keeps(client: Client, cs: seq<MfaChallenge>, username: string, saved: string, desk: Desk)
    requires FactorIsKept(client, cs, saved)
    ensures var end := AskAll(client, cs, Start(username, saved, desk));
            !end.failed ==>
              VaultAfter(client.params, end.index, end.passwords, client.vault)
              == FactorAnswer(client.params, end.passwords, client.vault)
  {
    var p, n, st := client.params, CountPasswords(cs), Start(username, saved, desk);
    var f, end := p.passwordFactor, AskAll(client, cs, st);
    OneAnswerEach(client, cs, st);
    if !end.failed && p.keychain && 1 <= f <= n {
      if f == n && p.mfaCode.Some? && n > 1 {
        forall i | 0 <= i < n - 1
          ensures end.passwords[i] == p.mfaCode.value
        {
          CodeAnswersOthers(client, cs, st, i);
        }
        FirstOfOthers(end.passwords, p.mfaCode.value);
        if p.mfaCode.value != "" {
          GivenAnswersFactor(client, cs, st);
        }
      } else if f < n {
        GivenAnswersFactor(client, cs, st);
      } else {
        FirstOfOthers(end.passwords, "");
      }
    }
  }

  /** Someone who types this defeats the keychain where the configuration does not prevent it. */
  function Defeat(client: Client, cs: seq<MfaChallenge>, saved: string): Choice {
    var p, n := client.params, CountPasswords(cs);
    var given := Given(p, saved);
    if p.passwordFactor < n then Choice("", Other(if client.vault.Some? then client.vault.value else ""), "")
    else if p.mfaCode.None? then Choice("", "b", Other(given))
    else Choice(if given == p.mfaCode.value then "n" else "", Other(p.mfaCode.value), "")
  }

  lemma Defeats(client: Client, cs: seq<MfaChallenge>, username: string, saved: string) returns (desk: Desk)
    requires !FactorIsKept(client, cs, saved)
    ensures var end := AskAll(client, cs, Start(username, saved, desk));
            && !end.failed
            && VaultAfter(client.params, end.index, end.passwords, client.vault)
               != FactorAnswer(client.params, end.passwords, client.vault)
  {
    var choice := Defeat(client, cs, saved);
    desk := ChoiceEnds(client, cs, username, saved, choice);
    var p, n, end := client.params, CountPasswords(cs), AskAll(client, cs, Start(username, saved, desk));
    var first := if p.mfaCode.Some? then p.mfaCode.value else choice.other;
    if p.passwordFactor == n {
      FirstOfOthers(end.passwords, first);
      assert VaultAfter(p, n, end.passwords, client.vault) == Some(first);
      assert end.passwords[n - 1] != first;
    } else {
      assert end.passwords[p.passwordFactor - 1] != "";
    }
  }

  /**
   * The keychain ends up with the factor's answer after every successful login, whatever is typed, exactly when the
   * configuration is such: the factor is never asked for, or is the only password, or is already in the keychain, or
   * comes last and equals the code that answers all other passwords (or that code is empty).
   */
  lemma KeychainKeepsFactorIff(client: Client, cs: seq<MfaChallenge>, username: string, saved: string)
    ensures KeepsFactor(client, cs, username, saved) <==> FactorIsKept(client, cs, saved)
  {
    if FactorIsKept(client, cs, saved) {
      forall desk: Desk
        ensures var end := AskAll(client, cs, Start(username, saved, desk));
                !end.failed ==>
                  VaultAfter(client.params, end.index, end.passwords, client.vault)
                  == FactorAnswer(client.params, end.passwords, client.vault)
      {
        Keeps(client, cs, username, saved, desk);
      }
    }
    if !FactorIsKept(client, cs, saved) {
      var desk := Defeats(client, cs, username, saved);
    }
  }
}
