/**
 * GUIManager: the map from a player's UUID to the dialog open for them.
 * Opening always closes the player's old dialog first; the new dialog's
 * `openGUI` runs after the configured delay, which is returned as a flag.
 */
module Manager {
  import opened Wrappers
  import opened Host
  import opened MenuConfig
  import opened OpenGuard
  import opened Gui
  import Messages

  /** The `gui.*` keys of the main config; None is a missing key. */
  datatype GuiSettings = GuiSettings(enabled: Option<bool>, autoOpen: Option<bool>, openDelay: Option<int>) {
    /** `isGUIEnabled`, true by default. */
    predicate IsGuiEnabled() ensures enabled.None? ==> IsGuiEnabled() { enabled.GetOr(true) }
    /** `isAutoOpenEnabled`, true by default. */
    predicate IsAutoOpenEnabled() ensures autoOpen.None? ==> IsAutoOpenEnabled() { autoOpen.GetOr(true) }
    /** `getOpenDelay` in ticks, 20 by default. */
    function OpenDelay(): (ticks: int) ensures openDelay.None? ==> ticks == 20 { openDelay.GetOr(20) }
  }

  /** `openAppropriateGUI`'s choice: nothing for a logged-in player, the login
      dialog for a registered one, the register dialog for anyone else. */
  function AppropriateKind(auth: PlayerAuth): (k: Option<Kind>)
    ensures k.None? <==> IsPlayerLoggedIn(auth)
    ensures k == Some(Login) <==> !IsPlayerLoggedIn(auth) && IsPlayerRegistered(auth)
    ensures k == Some(Register) <==> !IsPlayerLoggedIn(auth) && !IsPlayerRegistered(auth)
  {
    if IsPlayerLoggedIn(auth) then None
    else if IsPlayerRegistered(auth) then Some(Login)
    else Some(Register)
  }

  /** With the backend disabled every player gets the register dialog. */
  lemma DisabledBackendMeansRegister(auth: PlayerAuth)
    requires !auth.enabled
    ensures AppropriateKind(auth) == Some(Register)
  {
  }

  /** The close actions of every dialog, in the order they are visited. */
  function CloseAllEffects(active: map<Uuid, AnvilGui>, order: seq<Uuid>): seq<Effect>
    requires forall u :: u in order ==> u in active
  {
    if order == [] then []
    else
      var gui := active[order[|order| - 1]];
      CloseAllEffects(active, order[..|order| - 1]) + ActionsOf(gui.player.name, gui.menu.closeActions)
  }

  /** The close actions of the dialog filed for `player`, if there is one. */
  function ClosingEffects(active: map<Uuid, AnvilGui>, player: Player): seq<Effect> {
    if player.uuid in active
    then ActionsOf(active[player.uuid].player.name, active[player.uuid].menu.closeActions)
    else []
  }

  /** What opening a dialog sends: the old dialog's close actions, then the
      configuration error when there is no menu for the new one. */
  function OpenEffects(active: map<Uuid, AnvilGui>, player: Player, menu: Option<Menu>): seq<Effect> {
    ClosingEffects(active, player) + (if menu.None? then [Notify("error.config-load-failed", None)] else [])
  }

  /** The guards after `closeGUI`: the player leaves the opening guard only
      when a dialog was filed for them. */
  function GuardsAfterClose(g: Guards, active: map<Uuid, AnvilGui>, player: Player): Guards {
    if player.uuid in active then RemoveOpening(g, Some(player)) else g
  }

  /** The UUIDs among the first `i` of `order`. */
  function Visited(order: seq<Uuid>, i: nat): set<Uuid>
    requires i <= |order|
  {
    set k | 0 <= k < i :: order[k]
  }

  class GuiManager {
    var active: map<Uuid, AnvilGui>
    var loginMenu: Option<Menu>
    var registerMenu: Option<Menu>

    /** Every dialog is filed under its own player's UUID and is an anvil. */
    predicate Valid()
      reads this
    {
      forall u :: u in active ==> active[u].player.uuid == u && active[u].slots.Length == ANVIL_SIZE
    }

    /** The dialog type open for each player. */
    function Kinds(): map<Uuid, Kind>
      reads this
    {
      map u | u in active :: active[u].kind
    }

    constructor (loginMenu: Option<Menu>, registerMenu: Option<Menu>)
      ensures Valid() && active == map[]
      ensures this.loginMenu == loginMenu && this.registerMenu == registerMenu
    {
      active := map[];
      this.loginMenu := loginMenu;
      this.registerMenu := registerMenu;
    }

    function MenuFor(kind: Kind): Option<Menu>
      reads this
    {
      if kind == Login then loginMenu else registerMenu
    }

    /** `getActiveGUI`: the player's dialog, null without one. */
    function GetActiveGui(player: Player): (r: Option<AnvilGui>)
      reads this
      ensures r.Some? <==> player.uuid in active
      ensures r.Some? ==> r.value == active[player.uuid]
      ensures Valid() && r.Some? ==> r.value.player.uuid == player.uuid
    {
      if player.uuid in active then Some(active[player.uuid]) else None
    }

    /** `hasActiveGUI`. */
    predicate HasActiveGui(player: Player)
      reads this
      ensures HasActiveGui(player) <==> GetActiveGui(player).Some?
    {
      player.uuid in active
    }

    /** `getActiveGUICount`. */
    function ActiveGuiCount(): (n: nat)
      reads this
      ensures n == |Kinds().Keys|
      ensures n == 0 <==> active == map[]
    {
      assert Kinds().Keys == active.Keys;
      |active|
    }

    /** `closeGUI`: the player's entry is removed and, if there was one, that
        dialog is closed (it leaves the opening guard and runs its close
        actions; every caller is on the main thread). A second call does
        nothing. */
    method CloseGui(player: Player, guards: GuardSets) returns (effects: seq<Effect>)
      requires Valid()
      modifies this, guards
      ensures Valid() && loginMenu == old(loginMenu) && registerMenu == old(registerMenu)
      ensures active == old(active) - {player.uuid}
      ensures player.uuid in old(active) ==>
        && guards.State() == RemoveOpening(old(guards.State()), Some(player))
        && effects == ActionsOf(old(active)[player.uuid].player.name, old(active)[player.uuid].menu.closeActions)
      ensures player.uuid !in old(active) ==> guards.State() == old(guards.State()) && effects == []
    {
      effects := [];
      if player.uuid in active {
        var gui := active[player.uuid];
        active := active - {player.uuid};
        effects := gui.CloseGui(guards, true, true);
      }
    }

    /** `openLoginGUI` and `openRegisterGUI`: close the old dialog, then file
        a fresh dialog of the requested type and schedule its opening; with
        no menu for that type the player is left without a dialog and told
        the configuration failed. */
    method OpenGui(kind: Kind, player: Player, guards: GuardSets, messages: Messages.MessageFile)
      returns (effects: seq<Effect>, openScheduled: bool)
      requires Valid()
      modifies this, guards
      ensures Valid() && loginMenu == old(loginMenu) && registerMenu == old(registerMenu)
      ensures active - {player.uuid} == old(active) - {player.uuid}
      ensures openScheduled <==> MenuFor(kind).Some?
      ensures MenuFor(kind).Some? ==>
        && Kinds() == old(Kinds())[player.uuid := kind]
        && player.uuid in active
        && fresh(active[player.uuid])
        && active[player.uuid].player == player
        && active[player.uuid].menu == MenuFor(kind).value
        && active[player.uuid].slots[..] == InitialSlots(MenuFor(kind).value, messages)
      ensures MenuFor(kind).None? ==> player.uuid !in active
      ensures effects == OpenEffects(old(active), player, MenuFor(kind))
      ensures guards.State() == GuardsAfterClose(old(guards.State()), old(active), player)
    {
      effects := CloseGui(player, guards);
      assert effects == ClosingEffects(old(active), player);
      assert guards.State() == GuardsAfterClose(old(guards.State()), old(active), player);
      var menu := MenuFor(kind);
      if menu.None? {
        effects := effects + [Notify("error.config-load-failed", None)];
        return effects, false;
      }
      FileNewGui(kind, player, menu.value, messages);
      openScheduled := true;
    }

    /** Files a fresh dialog of `kind` for `player` in place of any other. */
    method FileNewGui(kind: Kind, player: Player, menu: Menu, messages: Messages.MessageFile)
      requires Valid()
      modifies this
      ensures Valid() && loginMenu == old(loginMenu) && registerMenu == old(registerMenu)
      ensures active - {player.uuid} == old(active) - {player.uuid}
      ensures Kinds() == old(Kinds())[player.uuid := kind]
      ensures player.uuid in active && fresh(active[player.uuid])
      ensures active[player.uuid].player == player && active[player.uuid].menu == menu
      ensures active[player.uuid].slots[..] == InitialSlots(menu, messages)
    {
      var gui := new AnvilGui(player, kind, menu, messages);
      active := active[player.uuid := gui];
    }

    /** `openLoginGUI`. */
    method OpenLoginGui(player: Player, guards: GuardSets, messages: Messages.MessageFile)
      returns (effects: seq<Effect>, openScheduled: bool)
      requires Valid()
      modifies this, guards
      ensures Valid() && loginMenu == old(loginMenu) && registerMenu == old(registerMenu)
      ensures active - {player.uuid} == old(active) - {player.uuid}
      ensures openScheduled <==> loginMenu.Some?
      ensures loginMenu.Some? ==> Kinds() == old(Kinds())[player.uuid := Login] && player.uuid in active && active[player.uuid].player == player
      ensures loginMenu.None? ==> player.uuid !in active
      ensures effects == OpenEffects(old(active), player, loginMenu)
      ensures guards.State() == GuardsAfterClose(old(guards.State()), old(active), player)
    {
      effects, openScheduled := OpenGui(Login, player, guards, messages);
    }

    /** `openRegisterGUI`. */
    method OpenRegisterGui(player: Player, guards: GuardSets, messages: Messages.MessageFile)
      returns (effects: seq<Effect>, openScheduled: bool)
      requires Valid()
      modifies this, guards
      ensures Valid() && loginMenu == old(loginMenu) && registerMenu == old(registerMenu)
      ensures active - {player.uuid} == old(active) - {player.uuid}
      ensures openScheduled <==> registerMenu.Some?
      ensures registerMenu.Some? ==> Kinds() == old(Kinds())[player.uuid := Register] && player.uuid in active && active[player.uuid].player == player
      ensures registerMenu.None? ==> player.uuid !in active
      ensures effects == OpenEffects(old(active), player, registerMenu)
      ensures guards.State() == GuardsAfterClose(old(guards.State()), old(active), player)
    {
      effects, openScheduled := OpenGui(Register, player, guards, messages);
    }

    /** `openAppropriateGUI`: a logged-in player is told so and nothing
        changes; otherwise the dialog AppropriateKind picks is opened. */
    method OpenAppropriateGui(player: Player, auth: PlayerAuth, guards: GuardSets, messages: Messages.MessageFile)
      returns (effects: seq<Effect>, openScheduled: bool)
      requires Valid()
      modifies this, guards
      ensures Valid() && loginMenu == old(loginMenu) && registerMenu == old(registerMenu)
      ensures AppropriateKind(auth).None? ==>
        && active == old(active) && guards.State() == old(guards.State())
        && effects == [Notify("gui.already-logged-in", None)] && !openScheduled
      ensures AppropriateKind(auth).Some? ==>
        var kind := AppropriateKind(auth).value;
        && active - {player.uuid} == old(active) - {player.uuid}
        && (openScheduled <==> MenuFor(kind).Some?)
        && (MenuFor(kind).Some? ==> Kinds() == old(Kinds())[player.uuid := kind])
        && (MenuFor(kind).None? ==> player.uuid !in active)
        && effects == OpenEffects(old(active), player, MenuFor(kind))
        && guards.State() == GuardsAfterClose(old(guards.State()), old(active), player)
    {
      if IsPlayerLoggedIn(auth) {
        return [Notify("gui.already-logged-in", None)], false;
      }
      if IsPlayerRegistered(auth) {
        effects, openScheduled := OpenLoginGui(player, guards, messages);
      } else {
        effects, openScheduled := OpenRegisterGui(player, guards, messages);
      }
    }

    /** `clearAllGUIs`: every dialog is closed, visiting them in the map's
        iteration order `order`, then the map is emptied. */
    method ClearAllGuis(guards: GuardSets, order: seq<Uuid>) returns (effects: seq<Effect>)
      requires Valid() && Enumerates(order, active.Keys)
      modifies this, guards
      ensures Valid() && active == map[] && loginMenu == old(loginMenu) && registerMenu == old(registerMenu)
      ensures guards.State() == Guards(old(guards.State()).opening - old(active).Keys, old(guards.State()).authenticated)
      ensures effects == CloseAllEffects(old(active), order)
    {
      effects := [];
      var i := 0;
      while i < |order|
        invariant 0 <= i <= |order|
        invariant active == old(active) && loginMenu == old(loginMenu) && registerMenu == old(registerMenu)
        invariant guards.State() == Guards(old(guards.State()).opening - Visited(order, i), old(guards.State()).authenticated)
        invariant effects == CloseAllEffects(active, order[..i])
      {
        assert order[..i + 1][..i] == order[..i];
        assert Visited(order, i + 1) == Visited(order, i) + {order[i]};
        var gui := active[order[i]];
        var closing := gui.CloseGui(guards, true, true);
        effects := effects + closing;
        i := i + 1;
      }
      assert order[..i] == order;
      assert Visited(order, i) == active.Keys by {
        forall u | u in active.Keys ensures u in Visited(order, i) {
          var k :| 0 <= k < |order| && order[k] == u;
        }
      }
      active := map[];
    }

    /** `reload`: every dialog is cleared, then the menus are read again. */
    method Reload(guards: GuardSets, order: seq<Uuid>, newLogin: Option<Menu>, newRegister: Option<Menu>)
      returns (effects: seq<Effect>)
      requires Valid() && Enumerates(order, active.Keys)
      modifies this, guards
      ensures Valid() && active == map[] && loginMenu == newLogin && registerMenu == newRegister
      ensures guards.State() == Guards(old(guards.State()).opening - old(active).Keys, old(guards.State()).authenticated)
      ensures effects == CloseAllEffects(old(active), order)
    {
      effects := ClearAllGuis(guards, order);
      loginMenu := newLogin;
      registerMenu := newRegister;
    }
  }
}
