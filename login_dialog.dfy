/**
 * LoginGUI: the three buttons of the login dialog. Confirming runs the
 * fixed sequence registered?, format, password, close, forceLogin, mark
 * authenticated; any failed check stops it with the dialog still open.
 */
module LoginDialog {
  import opened Wrappers
  import opened Strings
  import opened Host
  import opened OpenGuard
  import opened AnvilInput
  import opened Gui
  import LoginPlugin
  import AuthMeImpl

  /** The buttons, by slot. */
  datatype Button = Cancel | Reset | Confirm

  /** `handleClick`'s dispatch: slot 0 cancels, 1 resets, 2 confirms; any
      other slot does nothing (every click is cancelled all the same). */
  function LoginButton(slot: int): (b: Option<Button>)
    ensures b.Some? <==> 0 <= slot <= 2
  {
    if slot == 0 then Some(Cancel)
    else if slot == 1 then Some(Reset)
    else if slot == 2 then Some(Confirm)
    else None
  }

  /** Whether the buffered password is there to be tried. */
  predicate HasPassword(buffered: Option<string>) {
    buffered.Some? && !IsBlank(buffered.value)
  }

  /** `attemptLogin`'s steps for the trimmed password `p`. */
  function AttemptSteps(p: string, auth: PlayerAuth, config: LoginPlugin.SecurityConfig): seq<Step> {
    if !IsPlayerRegistered(auth) then [AskRegistered]
    else if !AuthMeImpl.IsValidPassword(config, Some(p)) then [AskRegistered]
    else if !CheckPassword(auth, p) then [AskRegistered, AskPassword(p)]
    else [AskRegistered, AskPassword(p), CloseDialog, ForceLoginCall] + (if ForceLogin(auth) then [MarkAuthenticated] else [])
  }

  /** The steps of confirming with the buffered real password. */
  function ConfirmSteps(buffered: Option<string>, auth: PlayerAuth, config: LoginPlugin.SecurityConfig): seq<Step> {
    if !HasPassword(buffered) then [] else AttemptSteps(Trim(buffered.value), auth, config)
  }

  /** Without a buffered password nothing reaches the backend. */
  lemma NoPasswordNoBackendCall(buffered: Option<string>, auth: PlayerAuth, config: LoginPlugin.SecurityConfig)
    requires !HasPassword(buffered)
    ensures ConfirmSteps(buffered, auth, config) == []
  {
  }

  /** The dialog is closed exactly when every check passed, and always before
      forceLogin is called. */
  lemma CloseBeforeForceLogin(buffered: Option<string>, auth: PlayerAuth, config: LoginPlugin.SecurityConfig)
    ensures var steps := ConfirmSteps(buffered, auth, config);
      && (CloseDialog in steps <==>
            HasPassword(buffered) && IsPlayerRegistered(auth)
            && AuthMeImpl.IsValidPassword(config, Some(Trim(buffered.value)))
            && CheckPassword(auth, Trim(buffered.value)))
      && (forall j :: 0 <= j < |steps| && steps[j] == ForceLoginCall ==>
            exists i :: 0 <= i < j && steps[i] == CloseDialog)
  {
    UncheckedStepsAskNoPassword(buffered, auth, config);
    var steps := ConfirmSteps(buffered, auth, config);
    if HasPassword(buffered) && IsPlayerRegistered(auth) && AuthMeImpl.IsValidPassword(config, Some(Trim(buffered.value))) {
      var p := Trim(buffered.value);
      if !CheckPassword(auth, p) {
        assert steps == [AskRegistered, AskPassword(p)];
      } else {
        var tail := if ForceLogin(auth) then [MarkAuthenticated] else [];
        assert steps == [AskRegistered, AskPassword(p), CloseDialog, ForceLoginCall] + tail;
        assert steps[2] == CloseDialog;
        assert forall j :: 0 <= j < |steps| && steps[j] == ForceLoginCall ==> j == 3;
      }
    }
  }

  /** The password checked is the trimmed buffer, and only one that passed
      the format check. */
  lemma CheckedPasswordIsTrimmed(buffered: Option<string>, auth: PlayerAuth, config: LoginPlugin.SecurityConfig, q: string)
    requires AskPassword(q) in ConfirmSteps(buffered, auth, config)
    ensures HasPassword(buffered) && q == Trim(buffered.value) && AuthMeImpl.IsValidPassword(config, Some(q))
  {
    UncheckedStepsAskNoPassword(buffered, auth, config);
    var steps := ConfirmSteps(buffered, auth, config);
    if HasPassword(buffered) && IsPlayerRegistered(auth) && AuthMeImpl.IsValidPassword(config, Some(Trim(buffered.value))) {
      var p := Trim(buffered.value);
      assert forall i :: 0 <= i < |steps| && i != 1 ==> !steps[i].AskPassword?;
      assert steps[1] == AskPassword(p);
    }
  }

  /** Until the registration and format checks pass, the steps hold no
      password check. */
  lemma UncheckedStepsAskNoPassword(buffered: Option<string>, auth: PlayerAuth, config: LoginPlugin.SecurityConfig)
    ensures !(HasPassword(buffered) && IsPlayerRegistered(auth) && AuthMeImpl.IsValidPassword(config, Some(Trim(buffered.value))))
      ==> ConfirmSteps(buffered, auth, config) == [] || ConfirmSteps(buffered, auth, config) == [AskRegistered]
  {
  }

  /** The player is marked authenticated exactly when every check passed and
      forceLogin succeeded. */
  lemma AuthenticatedIffForceLogin(buffered: Option<string>, auth: PlayerAuth, config: LoginPlugin.SecurityConfig)
    ensures var steps := ConfirmSteps(buffered, auth, config);
      MarkAuthenticated in steps <==> ForceLoginCall in steps && ForceLogin(auth)
  {
    var steps := ConfirmSteps(buffered, auth, config);
    if HasPassword(buffered) && IsPlayerRegistered(auth) && AuthMeImpl.IsValidPassword(config, Some(Trim(buffered.value)))
       && CheckPassword(auth, Trim(buffered.value)) {
      var p := Trim(buffered.value);
      if ForceLogin(auth) {
        assert steps == [AskRegistered, AskPassword(p), CloseDialog, ForceLoginCall, MarkAuthenticated];
        assert steps[4] == MarkAuthenticated && steps[3] == ForceLoginCall;
      } else {
        assert steps == [AskRegistered, AskPassword(p), CloseDialog, ForceLoginCall];
      }
    } else {
      assert |steps| <= 2 && forall i :: 0 <= i < |steps| ==> steps[i].AskRegistered? || steps[i].AskPassword?;
    }
  }

  /** What `attemptLogin` sends and runs: the failure message of the first
      check that failed, or the close actions followed by the handler of the
      forceLogin outcome. */
  function AttemptEffects(player: Player, closeActions: Option<seq<string>>, p: string,
                          auth: PlayerAuth, config: LoginPlugin.SecurityConfig, lists: LoginPlugin.ConfigLists): seq<Effect>
  {
    if !IsPlayerRegistered(auth) then [Notify("gui.login-failed", None)]
    else if !AuthMeImpl.IsValidPassword(config, Some(p)) then [AuthMeImpl.IsValidPasswordWithMessage(config, Some(p)).1.value]
    else if !CheckPassword(auth, p) then [Notify("gui.login-failed", None)]
    else
      var outcome := if ForceLogin(auth) then LoginPlugin.LoginSuccess else LoginPlugin.Failure;
      ActionsOf(player.name, closeActions) + AuthMeImpl.OutcomeEffects(player.name, lists, outcome)
  }

  /** What confirming sends and runs: the placeholder prompt when nothing
      was typed, otherwise what the attempt does. */
  function ConfirmEffects(player: Player, closeActions: Option<seq<string>>, buffered: Option<string>,
                          auth: PlayerAuth, config: LoginPlugin.SecurityConfig, lists: LoginPlugin.ConfigLists): seq<Effect>
  {
    if !HasPassword(buffered) then [Notify("gui.password-placeholder", None)]
    else AttemptEffects(player, closeActions, Trim(buffered.value), auth, config, lists)
  }

  /** `attemptLogin`: the checks in order, then close, forceLogin and, on
      success, the authenticated mark. */
  method AttemptLogin(gui: AnvilGui, guards: GuardSets, p: string, auth: PlayerAuth,
                      config: LoginPlugin.SecurityConfig, lists: LoginPlugin.ConfigLists)
    returns (steps: seq<Step>, effects: seq<Effect>)
    modifies guards
    ensures steps == AttemptSteps(p, auth, config)
    ensures effects == AttemptEffects(gui.player, gui.menu.closeActions, p, auth, config, lists)
    ensures guards.State() == ApplySteps(old(guards.State()), gui.player, steps)
  {
    var player := gui.player;
    ghost var g0 := guards.State();
    steps := [AskRegistered];
    ApplyStepsAppend(g0, player, [], AskRegistered);
    if !IsPlayerRegistered(auth) {
      return steps, [Notify("gui.login-failed", None)];
    }
    var check := AuthMeImpl.IsValidPasswordWithMessage(config, Some(p));
    if !check.0 {
      return steps, [check.1.value];
    }
    ApplyStepsAppend(g0, player, steps, AskPassword(p));
    steps := steps + [AskPassword(p)];
    if !CheckPassword(auth, p) {
      return steps, [Notify("gui.login-failed", None)];
    }
    effects := gui.CloseGui(guards, true, true);
    ApplyStepsAppend(g0, player, steps, CloseDialog);
    steps := steps + [CloseDialog];
    ApplyStepsAppend(g0, player, steps, ForceLoginCall);
    steps := steps + [ForceLoginCall];
    var outcome;
    if ForceLogin(auth) {
      guards.AddToAuthenticatedList(Some(player));
      ApplyStepsAppend(g0, player, steps, MarkAuthenticated);
      steps := steps + [MarkAuthenticated];
      outcome := AuthMeImpl.HandleOutcome(player.name, lists, LoginPlugin.LoginSuccess);
    } else {
      outcome := AuthMeImpl.HandleOutcome(player.name, lists, LoginPlugin.Failure);
    }
    effects := effects + outcome;
  }

  /** `handleConfirmLogin`: the real password, trimmed, is tried when there
      is one. */
  method ConfirmLogin(gui: AnvilGui, store: InputStore, guards: GuardSets, auth: PlayerAuth,
                      config: LoginPlugin.SecurityConfig, lists: LoginPlugin.ConfigLists)
    returns (steps: seq<Step>, effects: seq<Effect>)
    modifies guards
    ensures steps == ConfirmSteps(store.GetRealPassword(gui.player.name), auth, config)
    ensures effects == ConfirmEffects(gui.player, gui.menu.closeActions, store.GetRealPassword(gui.player.name), auth, config, lists)
    ensures guards.State() == ApplySteps(old(guards.State()), gui.player, steps)
  {
    var password := store.GetRealPassword(gui.player.name);
    if password.None? || IsBlank(password.value) {
      return [], [Notify("gui.password-placeholder", None)];
    }
    steps, effects := AttemptLogin(gui, guards, Trim(password.value), auth, config, lists);
  }

  /** `handleCancelLogin`: the cancel item's click actions (when it has
      some), the cancelled message, then the close. */
  method CancelLogin(gui: AnvilGui, guards: GuardSets) returns (effects: seq<Effect>)
    modifies guards
    ensures guards.State() == RemoveOpening(old(guards.State()), Some(gui.player))
    ensures var cancel := FirstCancelItem(gui.menu.items);
      effects == (if cancel.Some? then ActionsOf(gui.player.name, cancel.value.clickAction) else [])
        + [Notify("gui.login-cancelled", None)] + ActionsOf(gui.player.name, gui.menu.closeActions)
  {
    effects := [];
    var cancelItem := gui.GetCancelItem();
    if cancelItem.Some? && cancelItem.value.clickAction.Some? {
      effects := ExecuteActions(gui.player.name, cancelItem.value.clickAction);
    }
    effects := effects + [Notify("gui.login-cancelled", None)];
    var closing := gui.CloseGui(guards, true, true);
    effects := effects + closing;
  }

  /** `handleResetInput`: the buffers are dropped, the dialog is closed and
      its reopening scheduled, and the placeholder message sent. */
  method ResetLogin(gui: AnvilGui, store: InputStore, guards: GuardSets) returns (effects: seq<Effect>, reopenScheduled: bool)
    modifies store, guards
    ensures store.State() == Drop(old(store.State()), gui.player.name)
    ensures guards.State() == RemoveOpening(old(guards.State()), Some(gui.player))
    ensures reopenScheduled
    ensures effects == ActionsOf(gui.player.name, gui.menu.closeActions) + [Notify("gui.password-placeholder", None)]
  {
    store.RemovePlayerInput(gui.player.name);
    effects := gui.CloseGui(guards, true, true);
    reopenScheduled := true;
    effects := effects + [Notify("gui.password-placeholder", None)];
  }

  /** `handleClick`: every click is cancelled (the result is always true)
      and the slot's button, if any, is pressed. */
  method HandleClick(slot: int, gui: AnvilGui, store: InputStore, guards: GuardSets, auth: PlayerAuth,
                     config: LoginPlugin.SecurityConfig, lists: LoginPlugin.ConfigLists)
    returns (cancelled: bool, steps: seq<Step>, effects: seq<Effect>, reopenScheduled: bool)
    modifies store, guards
    ensures cancelled
    ensures reopenScheduled <==> LoginButton(slot) == Some(Reset)
    ensures LoginButton(slot).None? ==>
      steps == [] && effects == [] && store.State() == old(store.State()) && guards.State() == old(guards.State())
    ensures LoginButton(slot) == Some(Confirm) ==>
      && steps == ConfirmSteps(store.GetRealPassword(gui.player.name), auth, config)
      && effects == ConfirmEffects(gui.player, gui.menu.closeActions, store.GetRealPassword(gui.player.name), auth, config, lists)
      && guards.State() == ApplySteps(old(guards.State()), gui.player, steps)
      && store.State() == old(store.State())
    ensures LoginButton(slot) == Some(Reset) ==>
      && store.State() == Drop(old(store.State()), gui.player.name)
      && effects == ActionsOf(gui.player.name, gui.menu.closeActions) + [Notify("gui.password-placeholder", None)]
    ensures LoginButton(slot) == Some(Cancel) || LoginButton(slot) == Some(Reset) ==>
      steps == [] && guards.State() == RemoveOpening(old(guards.State()), Some(gui.player))
    ensures LoginButton(slot) == Some(Cancel) ==>
      && store.State() == old(store.State())
      && var cancel := FirstCancelItem(gui.menu.items);
         effects == (if cancel.Some? then ActionsOf(gui.player.name, cancel.value.clickAction) else [])
           + [Notify("gui.login-cancelled", None)] + ActionsOf(gui.player.name, gui.menu.closeActions)
  {
    cancelled := true;
    steps, effects, reopenScheduled := [], [], false;
    var button := LoginButton(slot);
    if button == Some(Cancel) {
      effects := CancelLogin(gui, guards);
    } else if button == Some(Reset) {
      effects, reopenScheduled := ResetLogin(gui, store, guards);
    } else if button == Some(Confirm) {
      steps, effects := ConfirmLogin(gui, store, guards, auth, config, lists);
    }
  }
}
