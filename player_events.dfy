/**
 * PlayerEventListener: a join only warns when the backend is missing; a
 * quit drops the player's dialog and both guard marks.
 */
module PlayerEvents {
  import opened Wrappers
  import opened Host
  import opened OpenGuard
  import opened Gui
  import opened Manager

  /** `onPlayerJoin`: the warning when the backend is unavailable, nothing
      otherwise (opening the dialogs is left to AuthMeEventListener). */
  function OnPlayerJoin(auth: PlayerAuth): (effects: seq<Effect>)
    ensures effects != [] <==> !auth.enabled
  {
    if !auth.enabled then [Notify("authme.not-found", None)] else []
  }

  /** What a quit does to the guards. */
  function Forget(g: Guards, player: Player): Guards {
    RemoveAuthenticated(RemoveOpening(g, Some(player)), Some(player))
  }

  /** After a quit neither guard remembers the player, every other player's
      marks are kept, so a dialog after rejoining is treated as new. */
  lemma ForgetClearsOnlyThePlayer(g: Guards, player: Player, other: Player)
    requires other.uuid != player.uuid
    ensures !InOpening(Forget(g, player), Some(player)) && !InAuthenticated(Forget(g, player), Some(player))
    ensures InOpening(Forget(g, player), Some(other)) <==> InOpening(g, Some(other))
    ensures InAuthenticated(Forget(g, player), Some(other)) <==> InAuthenticated(g, Some(other))
  {
  }

  /** Once forgotten, a player with a dialog that the backend still sees as
      unauthenticated gets the dialog back when they close it. */
  lemma ForgottenPlayerReopens(g: Guards, player: Player, reg: Query)
    ensures ShouldReopenAfterClose(Forget(g, player), player, Login, Api(Answer(false), reg))
  {
  }

  /** `onPlayerQuit`: the dialog is closed through the manager, then the
      player leaves both guard sets. */
  method OnPlayerQuit(manager: GuiManager, guards: GuardSets, player: Player) returns (effects: seq<Effect>)
    requires manager.Valid()
    modifies manager, guards
    ensures manager.Valid() && manager.active == old(manager.active) - {player.uuid}
    ensures manager.loginMenu == old(manager.loginMenu) && manager.registerMenu == old(manager.registerMenu)
    ensures guards.State() == Forget(old(guards.State()), player)
    ensures player.uuid in old(manager.active) ==>
      effects == ActionsOf(old(manager.active)[player.uuid].player.name, old(manager.active)[player.uuid].menu.closeActions)
    ensures player.uuid !in old(manager.active) ==> effects == []
  {
    effects := manager.CloseGui(player, guards);
    guards.RemoveFromOpeningList(Some(player));
    guards.RemoveFromAuthenticatedList(Some(player));
  }
}
