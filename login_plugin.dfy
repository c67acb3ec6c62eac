/**
 * The shared rules of LoginPluginManager: password validation (silent and
 * with a message), the complexity test, and the success/failure action
 * lists read from the main config.
 */
module LoginPlugin {
  import opened Wrappers
  import opened Strings
  import opened Host
  import Messages

  /** The `security.*` keys of the main config; None is a missing key. */
  datatype SecurityConfig = SecurityConfig(
    minPasswordLength: Option<int>,
    maxPasswordLength: Option<int>,
    passwordComplexity: Option<bool>
  ) {
    function MinLength(): int { minPasswordLength.GetOr(6) }
    function MaxLength(): int { maxPasswordLength.GetOr(20) }
    function Complexity(): bool { passwordComplexity.GetOr(false) }
  }

  /** The string lists of the main config, by path; `getStringList` gives the
      empty list for a missing path. */
  type ConfigLists = map<string, seq<string>>

  function StringList(lists: ConfigLists, path: string): seq<string> {
    if path in lists then lists[path] else []
  }

  /** The chars a regex `.` does not match. */
  predicate IsLineTerminator(c: char) {
    c == '\n' || c == '\r' || c == '\U{0085}' || c == '\U{2028}' || c == '\U{2029}'
  }

  predicate IsAsciiLetter(c: char) { 'a' <= c <= 'z' || 'A' <= c <= 'Z' }

  predicate IsAsciiDigit(c: char) { '0' <= c <= '9' }

  /** `s.matches(".*[a-zA-Z].*")`: a letter, and no line terminator anywhere. */
  predicate HasLetter(s: string) {
    (forall i :: 0 <= i < |s| ==> !IsLineTerminator(s[i]))
    && exists i :: 0 <= i < |s| && IsAsciiLetter(s[i])
  }

  /** `s.matches(".*\\d.*")`: a digit 0-9, and no line terminator anywhere. */
  predicate HasDigit(s: string) {
    (forall i :: 0 <= i < |s| ==> !IsLineTerminator(s[i]))
    && exists i :: 0 <= i < |s| && IsAsciiDigit(s[i])
  }

  /** `isPasswordComplex`. */
  predicate IsPasswordComplex(password: string)
    ensures IsPasswordComplex(password) ==> |password| >= 2
    ensures (forall i :: 0 <= i < |password| ==> IsAsciiDigit(password[i])) ==> !IsPasswordComplex(password)
    ensures (forall i :: 0 <= i < |password| ==> IsAsciiLetter(password[i])) ==> !IsPasswordComplex(password)
  {
    HasLetter(password) && HasDigit(password)
  }

  /** `isValidPassword`: not blank, within the length bounds and, when the
      complexity check is on, complex. */
  predicate IsValidPassword(config: SecurityConfig, password: Option<string>)
    ensures IsValidPassword(config, password) <==>
      && password.Some? && !IsBlank(password.value)
      && config.MinLength() <= |password.value| <= config.MaxLength()
      && (config.Complexity() ==> IsPasswordComplex(password.value))
  {
    if password.None? || IsBlank(password.value) then false
    else if |password.value| < config.MinLength() || |password.value| > config.MaxLength() then false
    else if config.Complexity() then IsPasswordComplex(password.value)
    else true
  }

  /** The outcome of `isValidPasswordWithMessage`: valid, or the first check
      that failed. */
  datatype Verdict = Valid | Blank | TooShort(min: int) | TooLong(max: int) | NotComplex

  /** `isValidPasswordWithMessage`: the checks in the order blank, too short,
      too long, complexity; the first failure decides. */
  function ValidateWithMessage(config: SecurityConfig, password: Option<string>): (v: Verdict)
    ensures v == Blank <==> password.None? || IsBlank(password.value)
    ensures v.TooShort? ==> v.min == config.MinLength() && |password.value| < v.min
    ensures v.TooLong? ==> v.max == config.MaxLength() && config.MinLength() <= |password.value| && |password.value| > v.max
    ensures v == NotComplex ==> config.Complexity() && !IsPasswordComplex(password.value)
  {
    if password.None? || IsBlank(password.value) then Blank
    else if |password.value| < config.MinLength() then TooShort(config.MinLength())
    else if |password.value| > config.MaxLength() then TooLong(config.MaxLength())
    else if config.Complexity() && !IsPasswordComplex(password.value) then NotComplex
    else Valid
  }

  /** The message sent for a verdict (none for a valid password). */
  function VerdictMessage(v: Verdict): (e: Option<Effect>)
    ensures e.None? <==> v == Valid
  {
    match v
    case Valid => None
    case Blank => Some(Notify("gui.password-placeholder", None))
    case TooShort(min) => Some(Notify("gui.password-too-short", Some(Messages.CreatePlaceholders("min", IntToString(min)))))
    case TooLong(max) => Some(Notify("gui.password-too-long", Some(Messages.CreatePlaceholders("max", IntToString(max)))))
    case NotComplex => Some(Notify("gui.password-complexity-failed", None))
  }

  /** The messaging check accepts exactly the passwords the silent check
      accepts. */
  lemma ValidateAgrees(config: SecurityConfig, password: Option<string>)
    ensures ValidateWithMessage(config, password) == Valid <==> IsValidPassword(config, password)
  {
  }

  /** With the complexity check off, validity is exactly "not blank and
      within the bounds"; the bounds default to 6 and 20. */
  lemma LengthOnlyWithoutComplexity(config: SecurityConfig, password: string)
    requires !config.Complexity()
    ensures IsValidPassword(config, Some(password))
        <==> !IsBlank(password) && config.MinLength() <= |password| <= config.MaxLength()
    ensures config.minPasswordLength.None? && config.maxPasswordLength.None?
        ==> (IsValidPassword(config, Some(password)) <==> !IsBlank(password) && 6 <= |password| <= 20)
  {
  }

  /** A complex password holds an ASCII letter and a digit, and holds no line
      terminator. */
  lemma ComplexMeansLetterAndDigit(password: string)
    requires IsPasswordComplex(password)
    ensures exists i, j :: 0 <= i < |password| && 0 <= j < |password| && IsAsciiLetter(password[i]) && IsAsciiDigit(password[j])
    ensures forall i :: 0 <= i < |password| ==> !IsLineTerminator(password[i])
  {
  }

  /** `executeAction`: `[message]` sends the rest formatted with `{player}`,
      `[command]` dispatches the rest with `{player}` replaced; anything else,
      `[kick]` included, does nothing. No `|` is stripped. */
  function ExecuteAction(playerName: string, action: Option<string>): (r: Option<Effect>)
    ensures r.Some? ==> action.Some? && ("[message]" <= action.value || "[command]" <= action.value)
    ensures r.Some? ==> r.value.Tell? || r.value.Dispatch?
    ensures action.Some? && "[command]" <= action.value ==> r.Some? && r.value.Dispatch?
  {
    if action.None? || action.value == [] then None
    else if "[message]" <= action.value then
      assert !("[command]" <= action.value) by { assert action.value[1] == 'm'; }
      Some(Tell(Messages.Substitute(action.value[9..], Messages.CreatePlaceholders("player", playerName), ["player"])))
    else if "[command]" <= action.value then
      Some(Dispatch(Replace(action.value[9..], "{player}", playerName)))
    else None
  }

  /** The prefix is stripped exactly: the text after `[message]` is sent
      with `{player}` filled in. */
  lemma MessageActionStripsPrefix(playerName: string, rest: string)
    ensures ExecuteAction(playerName, Some("[message]" + rest)) == Some(Tell(Replace(rest, "{player}", playerName)))
  {
    var a := "[message]" + rest;
    assert "[message]" <= a;
    assert a[9..] == rest;
    assert Messages.Token("player") == "{player}";
    var ph := Messages.CreatePlaceholders("player", playerName);
    assert ["player"][1..] == [];
    assert Messages.Substitute(rest, ph, ["player"]) == Replace(rest, "{player}", playerName);
  }

  /** The text after `[command]` is dispatched with `{player}` replaced. */
  lemma CommandActionStripsPrefix(playerName: string, rest: string)
    ensures ExecuteAction(playerName, Some("[command]" + rest)) == Some(Dispatch(Replace(rest, "{player}", playerName)))
  {
    var a := "[command]" + rest;
    assert a[1] == 'c';
    assert !("[message]" <= a);
    assert "[command]" <= a;
    assert a[9..] == rest;
  }

  /** Unlike the dialog's own action runner, a `[kick]` action is ignored. */
  lemma KickIgnored(playerName: string, rest: string)
    ensures ExecuteAction(playerName, Some("[kick]" + rest)) == None
  {
    var a := "[kick]" + rest;
    assert a[1] == 'k';
  }

  function EffectSeq(e: Option<Effect>): seq<Effect> {
    if e.Some? then [e.value] else []
  }

  /** The effects of a list of actions, run in order. */
  function ActionsEffects(playerName: string, actions: seq<string>): (effects: seq<Effect>)
    ensures |effects| <= |actions|
  {
    if actions == [] then []
    else ActionsEffects(playerName, actions[..|actions| - 1]) + EffectSeq(ExecuteAction(playerName, Some(actions[|actions| - 1])))
  }

  /** `executeSuccessActions`: every action of the configured list, in order. */
  method ExecuteSuccessActions(playerName: string, lists: ConfigLists, path: string) returns (effects: seq<Effect>)
    ensures effects == ActionsEffects(playerName, StringList(lists, path))
  {
    var actions := StringList(lists, path);
    effects := [];
    var i := 0;
    while i < |actions|
      invariant 0 <= i <= |actions|
      invariant effects == ActionsEffects(playerName, actions[..i])
    {
      assert actions[..i + 1][..i] == actions[..i];
      effects := effects + EffectSeq(ExecuteAction(playerName, Some(actions[i])));
      i := i + 1;
    }
    assert actions[..i] == actions;
  }

  /** Actions that only dispatch commands produce one dispatch each, in
      order. */
  lemma {:induction false} CommandsRunInOrder(playerName: string, actions: seq<string>)
    requires forall i :: 0 <= i < |actions| ==> "[command]" <= actions[i]
    ensures |ActionsEffects(playerName, actions)| == |actions|
    ensures forall i :: 0 <= i < |actions| ==>
      ActionsEffects(playerName, actions)[i] == Dispatch(Replace(actions[i][9..], "{player}", playerName))
  {
    if actions != [] {
      var n := |actions| - 1;
      var last := actions[n];
      forall i | 0 <= i < n
        ensures "[command]" <= actions[..n][i]
      {
        assert actions[..n][i] == actions[i];
      }
      CommandsRunInOrder(playerName, actions[..n]);
      assert last == "[command]" + last[9..];
      CommandActionStripsPrefix(playerName, last[9..]);
      var prev := ActionsEffects(playerName, actions[..n]);
      var all := ActionsEffects(playerName, actions);
      assert all == prev + [Dispatch(Replace(last[9..], "{player}", playerName))];
      forall i | 0 <= i < |actions|
        ensures all[i] == Dispatch(Replace(actions[i][9..], "{player}", playerName))
      {
        if i < n {
          assert all[i] == prev[i] && actions[..n][i] == actions[i];
        }
      }
    }
  }

  /** `handleLoginSuccess`, `handleRegisterSuccess` and `handleFailure`: the
      message, then the actions under `login-actions.*`. */
  method HandleOutcome(playerName: string, lists: ConfigLists, outcome: Outcome) returns (effects: seq<Effect>)
    ensures |effects| >= 1 && effects[0] == OutcomeMessage(playerName, outcome)
    ensures effects[1..] == ActionsEffects(playerName, StringList(lists, "login-actions." + OutcomePath(outcome)))
  {
    var actions := ExecuteSuccessActions(playerName, lists, "login-actions." + OutcomePath(outcome));
    effects := [OutcomeMessage(playerName, outcome)] + actions;
  }

  datatype Outcome = LoginSuccess | RegisterSuccess | Failure

  /** The last segment of the config path of each outcome's action list. */
  function OutcomePath(o: Outcome): string {
    match o
    case LoginSuccess => "login-success-actions"
    case RegisterSuccess => "register-success-actions"
    case Failure => "failure-actions"
  }

  /** The message of each outcome; a failure's reason is not shown. */
  function OutcomeMessage(playerName: string, o: Outcome): Effect {
    match o
    case LoginSuccess => Notify("gui.login-success", Some(Messages.CreatePlaceholders("player", playerName)))
    case RegisterSuccess => Notify("gui.register-success", Some(Messages.CreatePlaceholders("player", playerName)))
    case Failure => Notify("gui.login-failed", None)
  }
}
