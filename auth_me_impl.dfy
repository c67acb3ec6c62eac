/**
 * AuthMeManagerImpl: the backend wrapper the dialogs actually use. Its
 * validation is written as a chain of early returns and its handlers read
 * their action lists under `authme.*`; its `isPasswordComplex` and
 * `executeAction` are the same code as LoginPluginManager's and are
 * LoginPlugin.IsPasswordComplex and LoginPlugin.ExecuteAction here.
 */
module AuthMeImpl {
  import opened Wrappers
  import opened Strings
  import opened Host
  import opened LoginPlugin

  /** `isValidPassword`, check by check. */
  predicate IsValidPassword(config: SecurityConfig, password: Option<string>)
    ensures IsValidPassword(config, password) ==>
      && password.Some? && !IsBlank(password.value)
      && config.MinLength() <= |password.value| <= config.MaxLength()
      && (config.Complexity() ==> IsPasswordComplex(password.value))
  {
    if password.None? || IsBlank(password.value) then false
    else if |password.value| < config.MinLength() then false
    else if |password.value| > config.MaxLength() then false
    else if config.Complexity() && !IsPasswordComplex(password.value) then false
    else true
  }

  /** `isValidPasswordWithMessage`: the verdict and the message it sends. */
  function IsValidPasswordWithMessage(config: SecurityConfig, password: Option<string>): (r: (bool, Option<Effect>))
    ensures r.0 <==> r.1.None?
    ensures r.0 <==> IsValidPassword(config, password)
  {
    var v := ValidateWithMessage(config, password);
    (v == Valid, VerdictMessage(v))
  }

  /** Both managers give the same verdict on every password under the same
      configuration. */
  lemma SameVerdictAsLoginPlugin(config: SecurityConfig, password: Option<string>)
    ensures IsValidPassword(config, password) <==> LoginPlugin.IsValidPassword(config, password)
  {
  }

  /** A null or blank password and a length outside the bounds are refused. */
  lemma RefusedPasswords(config: SecurityConfig, password: Option<string>)
    requires password.None? || IsBlank(password.value)
          || |password.value| < config.MinLength() || |password.value| > config.MaxLength()
    ensures !IsValidPassword(config, password)
  {
  }

  /** What the handlers do: the message, then the actions under `authme.*`. */
  function OutcomeEffects(playerName: string, lists: ConfigLists, outcome: Outcome): seq<Effect> {
    [OutcomeMessage(playerName, outcome)] + ActionsEffects(playerName, StringList(lists, "authme." + OutcomePath(outcome)))
  }

  /** `handleLoginSuccess`, `handleRegisterSuccess` and `handleFailure`: the
      message, then the actions under `authme.*`. */
  method HandleOutcome(playerName: string, lists: ConfigLists, outcome: Outcome) returns (effects: seq<Effect>)
    ensures |effects| >= 1 && effects[0] == OutcomeMessage(playerName, outcome)
    ensures effects[1..] == ActionsEffects(playerName, StringList(lists, "authme." + OutcomePath(outcome)))
    ensures effects == OutcomeEffects(playerName, lists, outcome)
  {
    var actions := ExecuteSuccessActions(playerName, lists, "authme." + OutcomePath(outcome));
    effects := [OutcomeMessage(playerName, outcome)] + actions;
  }

  /** The two managers read different lists: a list configured only under
      `login-actions.*` is not run by this one. */
  lemma ActionPathsDiffer(o: Outcome)
    ensures "authme." + OutcomePath(o) != "login-actions." + OutcomePath(o)
  {
    assert ("authme." + OutcomePath(o))[0] == 'a';
    assert ("login-actions." + OutcomePath(o))[0] == 'l';
  }
}
