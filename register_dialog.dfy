/**
 * RegisterGUI: the register dialog. Slot 0 is the input and does nothing
 * when clicked, slot 1 resets the typed password and slot 2 registers:
 * registered?, format, close, register, then the authenticated mark and
 * the automatic login.
 */
module RegisterDialog {
  import opened Wrappers
  import opened Strings
  import opened Host
  import opened OpenGuard
  import opened AnvilInput
  import opened Gui
  import LoginPlugin
  import AuthMeImpl
  import Messages

  /** The buttons the register dialog reacts to, by slot. */
  datatype Button = Reset | Confirm

  /** `handleClick`'s dispatch: 1 resets, 2 confirms; the input slot 0 and
      every other slot do nothing. */
  function RegisterButton(slot: int): (b: Option<Button>)
    ensures b.Some? <==> slot == 1 || slot == 2
  {
    if slot == 1 then Some(Reset)
    else if slot == 2 then Some(Confirm)
    else None
  }

  /** Whether the buffered password is there to be tried. */
  predicate HasPassword(buffered: Option<string>) {
    buffered.Some? && !IsBlank(buffered.value)
  }

  /** `attemptRegister`'s steps for the trimmed password `p`. */
  function AttemptSteps(p: string, auth: PlayerAuth, config: LoginPlugin.SecurityConfig): seq<Step> {
    if IsPlayerRegistered(auth) then [AskRegistered, CloseDialog]
    else if !AuthMeImpl.IsValidPassword(config, Some(p)) then [AskRegistered]
    else [AskRegistered, CloseDialog, RegisterCall(p)] + (if RegisterPlayer(auth, p) then [MarkAuthenticated, ForceLoginCall] else [])
  }

  /** The steps of confirming with the buffered real password. */
  function ConfirmSteps(buffered: Option<string>, auth: PlayerAuth, config: LoginPlugin.SecurityConfig): seq<Step> {
    if !HasPassword(buffered) then [] else AttemptSteps(Trim(buffered.value), auth, config)
  }

  /** A player the backend already knows is never registered again: the
      dialog just closes. */
  lemma RegisteredNeverRegisterCall(buffered: Option<string>, auth: PlayerAuth, config: LoginPlugin.SecurityConfig, q: string)
    requires IsPlayerRegistered(auth)
    ensures RegisterCall(q) !in ConfirmSteps(buffered, auth, config)
    ensures HasPassword(buffered) ==> CloseDialog in ConfirmSteps(buffered, auth, config)
  {
    if HasPassword(buffered) {
      assert ConfirmSteps(buffered, auth, config)[1] == CloseDialog;
    }
  }

  /** The dialog is closed before the backend is asked to register, and the
      password registered is the trimmed buffer after it passed the format
      check. */
  lemma CloseBeforeRegister(buffered: Option<string>, auth: PlayerAuth, config: LoginPlugin.SecurityConfig)
    ensures var steps := ConfirmSteps(buffered, auth, config);
      forall j :: 0 <= j < |steps| && steps[j].RegisterCall? ==>
        && (exists i :: 0 <= i < j && steps[i] == CloseDialog)
        && HasPassword(buffered) && steps[j].password == Trim(buffered.value)
        && AuthMeImpl.IsValidPassword(config, Some(steps[j].password))
  {
    var steps := ConfirmSteps(buffered, auth, config);
    if HasPassword(buffered) && !IsPlayerRegistered(auth) && AuthMeImpl.IsValidPassword(config, Some(Trim(buffered.value))) {
      var p := Trim(buffered.value);
      var tail := if RegisterPlayer(auth, p) then [MarkAuthenticated, ForceLoginCall] else [];
      assert steps == [AskRegistered, CloseDialog, RegisterCall(p)] + tail;
      forall j | 0 <= j < |steps| && steps[j].RegisterCall?
        ensures exists i :: 0 <= i < j && steps[i] == CloseDialog
        ensures steps[j].password == p
      {
        assert j == 2;
        assert steps[1] == CloseDialog;
      }
    } else {
      assert forall j :: 0 <= j < |steps| ==> !steps[j].RegisterCall?;
    }
  }

  /** A password that fails the format check leaves the dialog open and the
      backend untouched. */
  lemma InvalidKeepsDialogOpen(buffered: Option<string>, auth: PlayerAuth, config: LoginPlugin.SecurityConfig)
    requires HasPassword(buffered) && !IsPlayerRegistered(auth)
    requires !AuthMeImpl.IsValidPassword(config, Some(Trim(buffered.value)))
    ensures ConfirmSteps(buffered, auth, config) == [AskRegistered]
  {
  }

  /** The player is marked authenticated exactly when the backend accepted
      the registration, whether or not the automatic login then works. */
  lemma AuthenticatedIffRegistered(buffered: Option<string>, auth: PlayerAuth, config: LoginPlugin.SecurityConfig)
    ensures var steps := ConfirmSteps(buffered, auth, config);
      MarkAuthenticated in steps <==>
        HasPassword(buffered) && !IsPlayerRegistered(auth)
        && AuthMeImpl.IsValidPassword(config, Some(Trim(buffered.value)))
        && RegisterPlayer(auth, Trim(buffered.value))
  {
    var steps := ConfirmSteps(buffered, auth, config);
    if HasPassword(buffered) && !IsPlayerRegistered(auth) && AuthMeImpl.IsValidPassword(config, Some(Trim(buffered.value))) {
      var p := Trim(buffered.value);
      if RegisterPlayer(auth, p) {
        assert steps[3] == MarkAuthenticated;
      } else {
        assert steps == [AskRegistered, CloseDialog, RegisterCall(p)];
      }
    }
  }

  /** What `attemptRegister` sends and runs. */
  function AttemptEffects(player: Player, closeActions: Option<seq<string>>, p: string,
                          auth: PlayerAuth, config: LoginPlugin.SecurityConfig, lists: LoginPlugin.ConfigLists): seq<Effect>
  {
    if IsPlayerRegistered(auth) then [Notify("gui.already-registered", None)] + ActionsOf(player.name, closeActions)
    else if !AuthMeImpl.IsValidPassword(config, Some(p)) then [AuthMeImpl.IsValidPasswordWithMessage(config, Some(p)).1.value]
    else
      var outcome := if RegisterPlayer(auth, p) then LoginPlugin.RegisterSuccess else LoginPlugin.Failure;
      ActionsOf(player.name, closeActions) + AuthMeImpl.OutcomeEffects(player.name, lists, outcome)
  }

  /** What confirming sends and runs: the placeholder prompt when nothing
      was typed, otherwise what the attempt does. */
  function ConfirmEffects(player: Player, closeActions: Option<seq<string>>, buffered: Option<string>,
                          auth: PlayerAuth, config: LoginPlugin.SecurityConfig, lists: LoginPlugin.ConfigLists): seq<Effect>
  {
    if !HasPassword(buffered) then [Notify("gui.password-placeholder", None)]
    else AttemptEffects(player, closeActions, Trim(buffered.value), auth, config, lists)
  }

  /** `attemptRegister`. */
  method AttemptRegister(gui: AnvilGui, guards: GuardSets, p: string, auth: PlayerAuth,
                         config: LoginPlugin.SecurityConfig, lists: LoginPlugin.ConfigLists)
    returns (steps: seq<Step>, effects: seq<Effect>)
    modifies guards
    ensures steps == AttemptSteps(p, auth, config)
    ensures effects == AttemptEffects(gui.player, gui.menu.closeActions, p, auth, config, lists)
    ensures guards.State() == ApplySteps(old(guards.State()), gui.player, steps)
  {
    var player := gui.player;
    ghost var g0 := guards.State();
    steps := [AskRegistered];
    ApplyStepsAppend(g0, player, [], AskRegistered);
    if IsPlayerRegistered(auth) {
      var closing := gui.CloseGui(guards, true, true);
      ApplyStepsAppend(g0, player, steps, CloseDialog);
      steps := steps + [CloseDialog];
      return steps, [Notify("gui.already-registered", None)] + closing;
    }
    var check := AuthMeImpl.IsValidPasswordWithMessage(config, Some(p));
    if !check.0 {
      return steps, [check.1.value];
    }
    var tail;
    tail, effects := RegisterChecked(gui, guards, p, auth, lists);
    assert ([AskRegistered] + tail)[1..] == tail;
    steps := [AskRegistered] + tail;
  }

  /** The part of `attemptRegister` after both checks passed: close the
      dialog, register, and on success mark the player and log them in. */
  method RegisterChecked(gui: AnvilGui, guards: GuardSets, p: string, auth: PlayerAuth, lists: LoginPlugin.ConfigLists)
    returns (steps: seq<Step>, effects: seq<Effect>)
    modifies guards
    ensures steps == [CloseDialog, RegisterCall(p)] + (if RegisterPlayer(auth, p) then [MarkAuthenticated, ForceLoginCall] else [])
    ensures guards.State() == ApplySteps(old(guards.State()), gui.player, steps)
    ensures var outcome := if RegisterPlayer(auth, p) then LoginPlugin.RegisterSuccess else LoginPlugin.Failure;
      effects == ActionsOf(gui.player.name, gui.menu.closeActions) + AuthMeImpl.OutcomeEffects(gui.player.name, lists, outcome)
  {
    var player := gui.player;
    ghost var g0 := guards.State();
    effects := gui.CloseGui(guards, true, true);
    ApplyStepsAppend(g0, player, [], CloseDialog);
    ApplyStepsAppend(g0, player, [CloseDialog], RegisterCall(p));
    steps := [CloseDialog, RegisterCall(p)];
    var outcome;
    if RegisterPlayer(auth, p) {
      guards.AddToAuthenticatedList(Some(player));
      ApplyStepsAppend(g0, player, steps, MarkAuthenticated);
      steps := steps + [MarkAuthenticated];
      ApplyStepsAppend(g0, player, steps, ForceLoginCall);
      steps := steps + [ForceLoginCall];
      outcome := AuthMeImpl.HandleOutcome(player.name, lists, LoginPlugin.RegisterSuccess);
    } else {
      outcome := AuthMeImpl.HandleOutcome(player.name, lists, LoginPlugin.Failure);
    }
    effects := effects + outcome;
  }

  /** `handleConfirmRegister`: the real password, trimmed, is tried when
      there is one. */
  method ConfirmRegister(gui: AnvilGui, store: InputStore, guards: GuardSets, auth: PlayerAuth,
                         config: LoginPlugin.SecurityConfig, lists: LoginPlugin.ConfigLists)
    returns (steps: seq<Step>, effects: seq<Effect>)
    modifies guards
    ensures steps == ConfirmSteps(store.GetRealPassword(gui.player.name), auth, config)
    ensures effects == ConfirmEffects(gui.player, gui.menu.closeActions, store.GetRealPassword(gui.player.name), auth, config, lists)
    ensures guards.State() == ApplySteps(old(guards.State()), gui.player, steps)
  {
    var password := store.GetRealPassword(gui.player.name);
    if password.None? || IsBlank(password.value) {
      return [], [Notify("gui.password-placeholder", None)];
    }
    steps, effects := AttemptRegister(gui, guards, Trim(password.value), auth, config, lists);
  }

  /** `handleResetInput`: the buffers are dropped and the slots rebuilt in
      place, the dialog staying open. */
  method ResetRegister(gui: AnvilGui, store: InputStore, messages: Messages.MessageFile) returns (effects: seq<Effect>)
    requires gui.slots.Length == ANVIL_SIZE
    modifies store, gui.slots
    ensures store.State() == Drop(old(store.State()), gui.player.name)
    ensures gui.slots[..] == InitialSlots(gui.menu, messages)
    ensures effects == [Notify("gui.input-reset", None)]
  {
    store.RemovePlayerInput(gui.player.name);
    gui.InitializeGui(messages);
    effects := [Notify("gui.input-reset", None)];
  }

  /** `handleCancelRegister`: the cancel item's click actions, the cancelled
      message, then the close. No button reaches it. */
  method CancelRegister(gui: AnvilGui, guards: GuardSets) returns (effects: seq<Effect>)
    modifies guards
    ensures guards.State() == RemoveOpening(old(guards.State()), Some(gui.player))
    ensures var cancel := FirstCancelItem(gui.menu.items);
      effects == (if cancel.Some? then ActionsOf(gui.player.name, cancel.value.clickAction) else [])
        + [Notify("gui.register-cancelled", None)] + ActionsOf(gui.player.name, gui.menu.closeActions)
  {
    effects := [];
    var cancelItem := gui.GetCancelItem();
    if cancelItem.Some? && cancelItem.value.clickAction.Some? {
      effects := ExecuteActions(gui.player.name, cancelItem.value.clickAction);
    }
    effects := effects + [Notify("gui.register-cancelled", None)];
    var closing := gui.CloseGui(guards, true, true);
    effects := effects + closing;
  }

  /** `handleClick`: every click is cancelled and the slot's button, if
      any, is pressed. */
  method HandleClick(slot: int, gui: AnvilGui, store: InputStore, guards: GuardSets, auth: PlayerAuth,
                     config: LoginPlugin.SecurityConfig, lists: LoginPlugin.ConfigLists, messages: Messages.MessageFile)
    returns (cancelled: bool, steps: seq<Step>, effects: seq<Effect>)
    requires gui.slots.Length == ANVIL_SIZE
    modifies store, guards, gui.slots
    ensures cancelled
    ensures RegisterButton(slot).None? ==>
      && steps == [] && effects == [] && store.State() == old(store.State())
      && guards.State() == old(guards.State()) && gui.slots[..] == old(gui.slots[..])
    ensures RegisterButton(slot) == Some(Confirm) ==>
      && steps == ConfirmSteps(store.GetRealPassword(gui.player.name), auth, config)
      && effects == ConfirmEffects(gui.player, gui.menu.closeActions, store.GetRealPassword(gui.player.name), auth, config, lists)
      && guards.State() == ApplySteps(old(guards.State()), gui.player, steps)
      && store.State() == old(store.State()) && gui.slots[..] == old(gui.slots[..])
    ensures RegisterButton(slot) == Some(Reset) ==>
      && steps == [] && effects == [Notify("gui.input-reset", None)] && guards.State() == old(guards.State())
      && store.State() == Drop(old(store.State()), gui.player.name)
      && gui.slots[..] == InitialSlots(gui.menu, messages)
  {
    cancelled := true;
    steps, effects := [], [];
    var button := RegisterButton(slot);
    if button == Some(Reset) {
      effects := ResetRegister(gui, store, messages);
    } else if button == Some(Confirm) {
      steps, effects := ConfirmRegister(gui, store, guards, auth, config, lists);
    }
  }
}
