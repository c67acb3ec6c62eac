/**
 * AuthMeEventListener: when the dialogs appear and disappear around the
 * backend's own events. A join schedules one delayed check and a repeating
 * timer that retries the check at most ten times; login and register mark
 * the player authenticated and close the dialog; logout closes it and, when
 * automatic opening is on, schedules the appropriate dialog again.
 */
module AuthEvents {
  import opened Wrappers
  import opened Host
  import opened OpenGuard
  import opened AnvilInput
  import opened Gui
  import opened Manager
  import Messages

  /** The timer's retry bound. */
  const MAX_ATTEMPTS := 10

  /** The timer's period in ticks, and how long after the delayed check it
      starts. */
  const TIMER_PERIOD := 20

  /** What a join sets in motion. */
  datatype JoinPlan =
    | Nothing
    | BackendMissing
    | Scheduled(checkDelay: int, timerStart: int, timerPeriod: int)

  /** `onPlayerJoin`: nothing with the dialogs or automatic opening off, a
      warning when the backend is unavailable, otherwise the delayed check
      and the retry timer. */
  function OnPlayerJoin(settings: GuiSettings, auth: PlayerAuth): (plan: JoinPlan)
    ensures plan.Scheduled? <==> settings.IsGuiEnabled() && settings.IsAutoOpenEnabled() && auth.enabled
    ensures plan == BackendMissing <==> settings.IsGuiEnabled() && settings.IsAutoOpenEnabled() && !auth.enabled
    ensures plan.Scheduled? ==>
      plan.checkDelay == settings.OpenDelay() && plan.timerStart == plan.checkDelay + TIMER_PERIOD
      && plan.timerPeriod == TIMER_PERIOD
  {
    if !settings.IsGuiEnabled() then Nothing
    else if !settings.IsAutoOpenEnabled() then Nothing
    else if !auth.enabled then BackendMissing
    else Scheduled(settings.OpenDelay(), settings.OpenDelay() + TIMER_PERIOD, TIMER_PERIOD)
  }

  /** The message a join sends. */
  function JoinEffects(plan: JoinPlan): seq<Effect> {
    if plan == BackendMissing then [Notify("authme.not-found", None)] else []
  }

  /** With the defaults (keys missing) the first check runs a second after
      the join and the timer a second later. */
  lemma DefaultJoinTiming(auth: PlayerAuth)
    requires auth.enabled
    ensures OnPlayerJoin(GuiSettings(None, None, None), auth) == Scheduled(20, 40, 20)
  {
  }

  /** `checkAndOpenGUI`'s choice: no dialog for a player who left, with the
      backend unavailable, once logged in, or while a dialog is filed;
      otherwise login for a registered player and register for anyone
      else. */
  function CheckDecision(online: bool, auth: PlayerAuth, hasActive: bool): (k: Option<Kind>)
    ensures k.Some? <==> online && auth.enabled && !IsPlayerLoggedIn(auth) && !hasActive
  {
    if !online || !auth.enabled || IsPlayerLoggedIn(auth) || hasActive then None
    else if IsPlayerRegistered(auth) then Some(Login)
    else Some(Register)
  }

  /** Where the check opens a dialog it opens the one GUIManager's
      openAppropriateGUI would pick, and it never opens one over a filed
      dialog. */
  lemma CheckAgreesWithManager(online: bool, auth: PlayerAuth, hasActive: bool)
    ensures CheckDecision(online, auth, hasActive).Some? ==>
      CheckDecision(online, auth, hasActive) == AppropriateKind(auth)
    ensures online && auth.enabled && !hasActive ==> CheckDecision(online, auth, hasActive) == AppropriateKind(auth)
  {
  }

  /** The key of the message sent after opening a dialog of `kind`. */
  function RequiredKey(kind: Kind): string {
    match kind
    case Login => "gui.login-required"
    case Register => "gui.register-required"
  }

  /** `checkAndOpenGUI`. */
  method CheckAndOpenGui(manager: GuiManager, player: Player, online: bool, auth: PlayerAuth,
                         guards: GuardSets, messages: Messages.MessageFile)
    returns (effects: seq<Effect>, openScheduled: bool)
    requires manager.Valid()
    modifies manager, guards
    ensures manager.Valid() && manager.loginMenu == old(manager.loginMenu) && manager.registerMenu == old(manager.registerMenu)
    ensures var k := CheckDecision(online, auth, player.uuid in old(manager.active));
      && (k.None? ==> manager.active == old(manager.active) && guards.State() == old(guards.State())
                      && effects == [] && !openScheduled)
      && (k.Some? ==>
            && (openScheduled <==> manager.MenuFor(k.value).Some?)
            && (manager.MenuFor(k.value).Some? ==> manager.Kinds() == old(manager.Kinds())[player.uuid := k.value])
            && (manager.MenuFor(k.value).None? ==> manager.active == old(manager.active))
            && guards.State() == old(guards.State())
            && effects == (if manager.MenuFor(k.value).None? then [Notify("error.config-load-failed", None)] else [])
                          + [Notify(RequiredKey(k.value), Some(Messages.CreatePlaceholders("player", player.name)))])
  {
    if !online || !auth.enabled || IsPlayerLoggedIn(auth) || manager.HasActiveGui(player) {
      return [], false;
    }
    var kind;
    if IsPlayerRegistered(auth) {
      effects, openScheduled := manager.OpenLoginGui(player, guards, messages);
      kind := Login;
    } else {
      effects, openScheduled := manager.OpenRegisterGui(player, guards, messages);
      kind := Register;
    }
    effects := effects + [Notify(RequiredKey(kind), Some(Messages.CreatePlaceholders("player", player.name)))];
    if manager.MenuFor(kind).None? {
      assert manager.active == manager.active - {player.uuid};
      assert old(manager.active) == old(manager.active) - {player.uuid};
    }
  }

  /** What one firing of the retry timer sees. */
  datatype Tick = Tick(online: bool, auth: PlayerAuth, hasActive: bool)

  /** Whether the firing after `attempts` earlier ones runs the check: the
      count goes up first and the check only runs up to the bound. */
  predicate TickChecks(attempts: nat, t: Tick) {
    t.online && attempts + 1 <= MAX_ATTEMPTS && !IsPlayerLoggedIn(t.auth) && !t.hasActive
  }

  /** How many of the firings `ticks`, after `attempts` earlier ones, run
      the check. */
  function ChecksAmong(attempts: nat, ticks: seq<Tick>): nat
    decreases |ticks|
  {
    if ticks == [] then 0
    else (if TickChecks(attempts, ticks[0]) then 1 else 0) + ChecksAmong(attempts + 1, ticks[1..])
  }

  /** The timer is never cancelled, but however long it keeps firing it runs
      the check at most ten times. */
  lemma {:induction false} AtMostTenChecks(attempts: nat, ticks: seq<Tick>)
    ensures ChecksAmong(attempts, ticks) <= if attempts >= MAX_ATTEMPTS then 0 else MAX_ATTEMPTS - attempts
    decreases |ticks|
  {
    if ticks != [] {
      AtMostTenChecks(attempts + 1, ticks[1..]);
    }
  }

  /** The retry timer's runnable, which counts its firings. */
  class JoinTimer {
    var attempts: nat

    constructor ()
      ensures attempts == 0
    {
      attempts := 0;
    }

    /** One firing: the count goes up, and the check runs while the player
        is online, under the bound, not logged in and without a dialog. */
    method Run(t: Tick) returns (check: bool)
      modifies this
      ensures attempts == old(attempts) + 1
      ensures check == TickChecks(old(attempts), t)
    {
      attempts := attempts + 1;
      if !t.online || attempts > MAX_ATTEMPTS {
        return false;
      }
      if IsPlayerLoggedIn(t.auth) || t.hasActive {
        return false;
      }
      check := true;
    }
  }

  /** `onLogin` and `onRegister`: the player is marked authenticated, their
      typed input is dropped and their dialog closed, then the success
      message is sent. */
  method OnAuthenticated(manager: GuiManager, store: InputStore, guards: GuardSets, player: Player, successKey: string)
    returns (effects: seq<Effect>)
    requires manager.Valid()
    modifies manager, store, guards
    ensures manager.Valid() && manager.active == old(manager.active) - {player.uuid}
    ensures manager.loginMenu == old(manager.loginMenu) && manager.registerMenu == old(manager.registerMenu)
    ensures store.State() == Drop(old(store.State()), player.name)
    ensures var marked := AddAuthenticated(old(guards.State()), Some(player));
      guards.State() == if player.uuid in old(manager.active) then RemoveOpening(marked, Some(player)) else marked
    ensures forall kind, api :: !ShouldReopenAfterClose(guards.State(), player, kind, api)
    ensures effects == ClosingEffects(old(manager.active), player) + [Notify(successKey, Some(Messages.CreatePlaceholders("player", player.name)))]
  {
    guards.AddToAuthenticatedList(Some(player));
    store.RemovePlayerInput(player.name);
    effects := manager.CloseGui(player, guards);
    effects := effects + [Notify(successKey, Some(Messages.CreatePlaceholders("player", player.name)))];
  }

  /** `onLogin`. */
  method OnLogin(manager: GuiManager, store: InputStore, guards: GuardSets, player: Player) returns (effects: seq<Effect>)
    requires manager.Valid()
    modifies manager, store, guards
    ensures manager.Valid() && manager.active == old(manager.active) - {player.uuid}
    ensures manager.loginMenu == old(manager.loginMenu) && manager.registerMenu == old(manager.registerMenu)
    ensures store.State() == Drop(old(store.State()), player.name)
    ensures var marked := AddAuthenticated(old(guards.State()), Some(player));
      guards.State() == if player.uuid in old(manager.active) then RemoveOpening(marked, Some(player)) else marked
    ensures forall kind, api :: !ShouldReopenAfterClose(guards.State(), player, kind, api)
    ensures effects == ClosingEffects(old(manager.active), player)
                       + [Notify("gui.login-success", Some(Messages.CreatePlaceholders("player", player.name)))]
  {
    effects := OnAuthenticated(manager, store, guards, player, "gui.login-success");
  }

  /** `onRegister`. */
  method OnRegister(manager: GuiManager, store: InputStore, guards: GuardSets, player: Player) returns (effects: seq<Effect>)
    requires manager.Valid()
    modifies manager, store, guards
    ensures manager.Valid() && manager.active == old(manager.active) - {player.uuid}
    ensures manager.loginMenu == old(manager.loginMenu) && manager.registerMenu == old(manager.registerMenu)
    ensures store.State() == Drop(old(store.State()), player.name)
    ensures var marked := AddAuthenticated(old(guards.State()), Some(player));
      guards.State() == if player.uuid in old(manager.active) then RemoveOpening(marked, Some(player)) else marked
    ensures forall kind, api :: !ShouldReopenAfterClose(guards.State(), player, kind, api)
    ensures effects == ClosingEffects(old(manager.active), player)
                       + [Notify("gui.register-success", Some(Messages.CreatePlaceholders("player", player.name)))]
  {
    effects := OnAuthenticated(manager, store, guards, player, "gui.register-success");
  }

  /** `onLogout`: the dialog is closed and, with the dialogs and automatic
      opening on, the appropriate one is scheduled after the open delay.
      The authenticated mark is left as it was. */
  method OnLogout(manager: GuiManager, guards: GuardSets, player: Player, settings: GuiSettings)
    returns (effects: seq<Effect>, reopenScheduled: bool)
    requires manager.Valid()
    modifies manager, guards
    ensures manager.Valid() && manager.active == old(manager.active) - {player.uuid}
    ensures manager.loginMenu == old(manager.loginMenu) && manager.registerMenu == old(manager.registerMenu)
    ensures guards.State().authenticated == old(guards.State()).authenticated
    ensures guards.State() == GuardsAfterClose(old(guards.State()), old(manager.active), player)
    ensures effects == ClosingEffects(old(manager.active), player)
    ensures reopenScheduled <==> settings.IsGuiEnabled() && settings.IsAutoOpenEnabled()
  {
    effects := manager.CloseGui(player, guards);
    reopenScheduled := settings.IsGuiEnabled() && settings.IsAutoOpenEnabled();
  }

  /** What `onLogout` schedules: the appropriate dialog, if the player
      is still online. */
  method LogoutReopen(manager: GuiManager, player: Player, online: bool, auth: PlayerAuth,
                      guards: GuardSets, messages: Messages.MessageFile)
    returns (effects: seq<Effect>, openScheduled: bool)
    requires manager.Valid()
    modifies manager, guards
    ensures manager.Valid()
    ensures manager.loginMenu == old(manager.loginMenu) && manager.registerMenu == old(manager.registerMenu)
    ensures !online ==> manager.active == old(manager.active) && guards.State() == old(guards.State()) && effects == [] && !openScheduled
    ensures online && AppropriateKind(auth).None? ==>
      && manager.active == old(manager.active) && guards.State() == old(guards.State())
      && effects == [Notify("gui.already-logged-in", None)] && !openScheduled
    ensures online && AppropriateKind(auth).Some? ==>
      var kind := AppropriateKind(auth).value;
      && (openScheduled <==> old(manager.MenuFor(kind)).Some?)
      && (old(manager.MenuFor(kind)).Some? ==> manager.Kinds() == old(manager.Kinds())[player.uuid := kind])
      && (old(manager.MenuFor(kind)).None? ==> manager.active == old(manager.active) - {player.uuid})
      && effects == OpenEffects(old(manager.active), player, old(manager.MenuFor(kind)))
      && guards.State() == GuardsAfterClose(old(guards.State()), old(manager.active), player)
  {
    if !online {
      return [], false;
    }
    effects, openScheduled := manager.OpenAppropriateGui(player, auth, guards, messages);
  }

  /** A player who logs out keeps the authenticated mark, so a dialog
      opened for them afterwards is not reopened when they close it. */
  lemma LogoutKeepsNoReopen(g: Guards, player: Player, kind: Kind, api: ApiView)
    requires InAuthenticated(g, Some(player))
    ensures !ShouldReopenAfterClose(RemoveOpening(g, Some(player)), player, kind, api)
    ensures !ShouldReopenAfterClose(g, player, kind, api)
  {
  }
}
