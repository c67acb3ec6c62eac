/**
 * AuthGuiCommand: the `/authgui` command and its tab completion. Every
 * message goes to the sender of the command.
 */
module Command {
  import opened Wrappers
  import opened Strings
  import opened Host
  import opened MenuConfig
  import opened OpenGuard
  import opened Gui
  import opened Manager
  import Messages

  const PERMISSION := "authgui.admin"

  /** What `onCommand` does with the arguments. */
  datatype Route = NoPermission | Help | Reload | Open | Close | Info

  /** `onCommand`'s dispatch: without the permission nothing but the
      refusal, without arguments the help, otherwise the lower-cased first
      argument picks the subcommand and anything unknown shows the help.
      The command always reports itself handled. */
  function OnCommand(hasPermission: bool, args: seq<string>): (r: Route)
    ensures r == NoPermission <==> !hasPermission
    ensures r == Reload <==> hasPermission && args != [] && Lower(args[0]) == "reload"
    ensures r == Open <==> hasPermission && args != [] && Lower(args[0]) == "open"
    ensures r == Close <==> hasPermission && args != [] && Lower(args[0]) == "close"
    ensures r == Info <==> hasPermission && args != [] && Lower(args[0]) == "info"
    ensures r == Help <==> hasPermission && (args == [] || Lower(args[0]) !in SUBCOMMANDS)
  {
    if !hasPermission then NoPermission
    else if args == [] then Help
    else
      var sub := Lower(args[0]);
      if sub == "reload" then Reload
      else if sub == "open" then Open
      else if sub == "close" then Close
      else if sub == "info" then Info
      else Help
  }

  /** Lower-casing the subcommand word first changes nothing. */
  lemma OnCommandIgnoresCase(hasPermission: bool, args: seq<string>)
    requires args != []
    ensures OnCommand(hasPermission, args) == OnCommand(hasPermission, [Lower(args[0])] + args[1..])
  {
    var lowered := [Lower(args[0])] + args[1..];
    assert lowered[0] == Lower(args[0]);
    assert Lower(Lower(args[0])) == Lower(args[0]);
  }

  /** The help text. */
  const HELP_LINES: seq<string> := [
    "\U{A7}6=== AuthmeGui 命令帮助 ===",
    "\U{A7}e/authgui reload \U{A7}7- 重载配置文件",
    "\U{A7}e/authgui open <玩家> [类型] \U{A7}7- 为玩家打开GUI",
    "\U{A7}e/authgui close <玩家> \U{A7}7- 关闭玩家的GUI",
    "\U{A7}e/authgui info \U{A7}7- 显示插件信息",
    "\U{A7}7GUI类型: login, register, auto"
  ]

  /** `sendHelp`. */
  function SendHelp(): (effects: seq<Effect>)
    ensures |effects| == |HELP_LINES|
    ensures forall i :: 0 <= i < |effects| ==> effects[i] == Tell(HELP_LINES[i])
  {
    seq(|HELP_LINES|, i requires 0 <= i < |HELP_LINES| => Tell(HELP_LINES[i]))
  }

  /** `handleInfo`: version, authors, the two switches and the number of
      open dialogs. */
  function HandleInfo(version: string, authors: string, settings: GuiSettings, activeCount: nat): (effects: seq<Effect>)
    ensures |effects| == 7
    ensures effects[6] == Tell("\U{A7}e活跃GUI数量: \U{A7}f" + IntToString(activeCount))
  {
    [ Tell("\U{A7}6=== AuthmeGui 插件信息 ==="),
      Tell("\U{A7}e版本: \U{A7}f" + version),
      Tell("\U{A7}e作者: \U{A7}f" + authors),
      Tell("\U{A7}e状态: \U{A7}a运行中"),
      Tell("\U{A7}eGUI系统: \U{A7}f" + (if settings.IsGuiEnabled() then "\U{A7}a启用" else "\U{A7}c禁用")),
      Tell("\U{A7}e自动打开: \U{A7}f" + (if settings.IsAutoOpenEnabled() then "\U{A7}a启用" else "\U{A7}c禁用")),
      Tell("\U{A7}e活跃GUI数量: \U{A7}f" + IntToString(activeCount)) ]
  }

  /** Whether `name` is offered for what was typed: a case-insensitive
      prefix match. */
  predicate Offers(name: string, input: string) {
    Lower(input) <= Lower(name)
  }

  /** The candidates offered for `input`, in their order. */
  function Matching(candidates: seq<string>, input: string): (r: seq<string>)
    ensures |r| <= |candidates|
  {
    if candidates == [] then []
    else
      var init := Matching(candidates[..|candidates| - 1], input);
      var last := candidates[|candidates| - 1];
      if Offers(last, input) then init + [last] else init
  }

  /** Exactly the candidates that match are offered. */
  lemma {:induction false} MatchingExact(candidates: seq<string>, input: string, name: string)
    ensures name in Matching(candidates, input) <==> name in candidates && Offers(name, input)
  {
    if candidates != [] {
      var init := candidates[..|candidates| - 1];
      MatchingExact(init, input, name);
      assert candidates == init + [candidates[|candidates| - 1]];
    }
  }

  /** Nothing typed yet: every candidate is offered. */
  lemma {:induction false} EmptyInputOffersAll(candidates: seq<string>)
    ensures Matching(candidates, "") == candidates
  {
    if candidates != [] {
      EmptyInputOffersAll(candidates[..|candidates| - 1]);
      assert Lower("") == "";
      assert candidates == candidates[..|candidates| - 1] + [candidates[|candidates| - 1]];
    }
  }

  /** The prefix-filter loops of `onTabComplete`. */
  method FilterCompletions(candidates: seq<string>, input: string) returns (completions: seq<string>)
    ensures completions == Matching(candidates, input)
  {
    completions := [];
    var i := 0;
    while i < |candidates|
      invariant 0 <= i <= |candidates|
      invariant completions == Matching(candidates[..i], input)
    {
      assert candidates[..i + 1][..i] == candidates[..i];
      if Lower(input) <= Lower(candidates[i]) {
        completions := completions + [candidates[i]];
      }
      i := i + 1;
    }
    assert candidates[..i] == candidates;
  }

  const SUBCOMMANDS: seq<string> := ["reload", "open", "close", "info"]
  const GUI_TYPES: seq<string> := ["login", "register", "auto"]

  /** `onTabComplete`: subcommands for the first argument, online players'
      names after `open` or `close`, dialog types after `open <player>`. */
  function TabCompletions(hasPermission: bool, args: seq<string>, onlineNames: seq<string>): (completions: seq<string>)
    ensures !hasPermission || |args| == 0 || |args| > 3 ==> completions == []
    ensures |args| == 1 ==> |completions| <= |SUBCOMMANDS|
    ensures |args| == 2 ==> |completions| <= |onlineNames|
    ensures |args| == 3 ==> |completions| <= |GUI_TYPES|
  {
    if !hasPermission then []
    else if |args| == 1 then Matching(SUBCOMMANDS, args[0])
    else if |args| == 2 then
      (if Lower(args[0]) == "open" || Lower(args[0]) == "close" then Matching(onlineNames, args[1]) else [])
    else if |args| == 3 then
      (if Lower(args[0]) == "open" then Matching(GUI_TYPES, args[2]) else [])
    else []
  }

  /** `onTabComplete`. */
  method OnTabComplete(hasPermission: bool, args: seq<string>, onlineNames: seq<string>) returns (completions: seq<string>)
    ensures completions == TabCompletions(hasPermission, args, onlineNames)
  {
    completions := [];
    if !hasPermission {
      return;
    }
    if |args| == 1 {
      completions := FilterCompletions(SUBCOMMANDS, args[0]);
    } else if |args| == 2 {
      var sub := Lower(args[0]);
      if sub == "open" || sub == "close" {
        completions := FilterCompletions(onlineNames, args[1]);
      }
    } else if |args| == 3 {
      if Lower(args[0]) == "open" {
        completions := FilterCompletions(GUI_TYPES, args[2]);
      }
    }
  }

  /** Every completion offered is a known word or an online player's name
      that starts with what was typed. */
  lemma CompletionsAreCandidates(hasPermission: bool, args: seq<string>, onlineNames: seq<string>, c: string)
    requires c in TabCompletions(hasPermission, args, onlineNames)
    ensures hasPermission && 1 <= |args| <= 3
    ensures c in SUBCOMMANDS || c in onlineNames || c in GUI_TYPES
    ensures Offers(c, args[|args| - 1])
  {
    if |args| == 1 {
      MatchingExact(SUBCOMMANDS, args[0], c);
    } else if |args| == 2 {
      MatchingExact(onlineNames, args[1], c);
    } else {
      MatchingExact(GUI_TYPES, args[2], c);
    }
  }

  /** The type `handleOpen` uses: the lower-cased third argument, or
      "auto". */
  function OpenType(args: seq<string>): string {
    if |args| > 2 then Lower(args[2]) else "auto"
  }

  /** The dialog the type asks for; anything but login or register lets the
      backend decide. */
  function RequestedKind(guiType: string, auth: PlayerAuth): Option<Kind> {
    if guiType == "login" then Some(Login)
    else if guiType == "register" then Some(Register)
    else AppropriateKind(auth)
  }

  /** An explicit type opens that dialog even for a logged-in player; only
      the automatic choice looks at the backend. */
  lemma ExplicitTypeIgnoresBackend(auth: PlayerAuth)
    ensures RequestedKind("login", auth) == Some(Login)
    ensures RequestedKind("register", auth) == Some(Register)
    ensures IsPlayerLoggedIn(auth) ==> RequestedKind("auto", auth).None? && RequestedKind("anything", auth).None?
  {
  }

  /** `handleOpen`. `target` is the online player the server finds under
      the second argument, if any. */
  method HandleOpen(manager: GuiManager, guards: GuardSets, args: seq<string>, target: Option<Player>,
                    auth: PlayerAuth, messages: Messages.MessageFile)
    returns (effects: seq<Effect>)
    requires manager.Valid()
    modifies manager, guards
    ensures manager.Valid()
    ensures |args| < 2 ==>
      effects == [Notify("command.usage", None)] && manager.active == old(manager.active) && guards.State() == old(guards.State())
    ensures |args| >= 2 && target.None? ==>
      && effects == [Notify("error.player-not-found", Some(Messages.CreatePlaceholders("player", args[1])))]
      && manager.active == old(manager.active) && guards.State() == old(guards.State())
    ensures manager.loginMenu == old(manager.loginMenu) && manager.registerMenu == old(manager.registerMenu)
    ensures |args| >= 2 && target.Some? ==>
      var report := Notify("command.gui-opened", Some(Messages.Pairs(["player", target.value.name, "type", OpenType(args)])));
      var k := RequestedKind(OpenType(args), auth);
      && (k.None? ==>
            && manager.active == old(manager.active) && guards.State() == old(guards.State())
            && effects == [Notify("gui.already-logged-in", None), report])
      && (k.Some? ==>
            && (manager.MenuFor(k.value).Some? ==> manager.Kinds() == old(manager.Kinds())[target.value.uuid := k.value])
            && (manager.MenuFor(k.value).None? ==> manager.active == old(manager.active) - {target.value.uuid})
            && guards.State() == GuardsAfterClose(old(guards.State()), old(manager.active), target.value)
            && effects == OpenEffects(old(manager.active), target.value, manager.MenuFor(k.value)) + [report])
  {
    if |args| < 2 {
      return [Notify("command.usage", None)];
    }
    if target.None? {
      return [Notify("error.player-not-found", Some(Messages.CreatePlaceholders("player", args[1])))];
    }
    var player := target.value;
    var guiType := OpenType(args);
    var scheduled;
    if guiType == "login" {
      effects, scheduled := manager.OpenLoginGui(player, guards, messages);
    } else if guiType == "register" {
      effects, scheduled := manager.OpenRegisterGui(player, guards, messages);
    } else {
      effects, scheduled := manager.OpenAppropriateGui(player, auth, guards, messages);
    }
    var placeholders := Messages.CreatePlaceholdersFromPairs(["player", player.name, "type", guiType]);
    effects := effects + [Notify("command.gui-opened", Some(placeholders))];
  }

  /** `handleClose`. */
  method HandleClose(manager: GuiManager, guards: GuardSets, args: seq<string>, target: Option<Player>)
    returns (effects: seq<Effect>)
    requires manager.Valid()
    modifies manager, guards
    ensures manager.Valid()
    ensures manager.loginMenu == old(manager.loginMenu) && manager.registerMenu == old(manager.registerMenu)
    ensures |args| < 2 ==>
      effects == [Notify("command.usage", None)] && manager.active == old(manager.active) && guards.State() == old(guards.State())
    ensures |args| >= 2 && target.None? ==>
      && effects == [Notify("error.player-not-found", Some(Messages.CreatePlaceholders("player", args[1])))]
      && manager.active == old(manager.active) && guards.State() == old(guards.State())
    ensures |args| >= 2 && target.Some? ==>
      && manager.active == old(manager.active) - {target.value.uuid}
      && guards.State() == GuardsAfterClose(old(guards.State()), old(manager.active), target.value)
      && effects == ClosingEffects(old(manager.active), target.value)
                    + [Notify("command.gui-closed", Some(Messages.CreatePlaceholders("player", target.value.name)))]
  {
    if |args| < 2 {
      return [Notify("command.usage", None)];
    }
    if target.None? {
      return [Notify("error.player-not-found", Some(Messages.CreatePlaceholders("player", args[1])))];
    }
    effects := manager.CloseGui(target.value, guards);
    effects := effects + [Notify("command.gui-closed", Some(Messages.CreatePlaceholders("player", target.value.name)))];
  }

  /** `handleReload`: the configuration files are read again, the manager
      drops every dialog and takes the new menus, and success is reported.
      A file that fails to load is skipped where it is read, so it shows up
      only as a missing menu (`newLogin`, `newRegister`). */
  method HandleReload(manager: GuiManager, guards: GuardSets, order: seq<Uuid>,
                      newLogin: Option<Menu>, newRegister: Option<Menu>)
    returns (effects: seq<Effect>)
    requires manager.Valid() && Enumerates(order, manager.active.Keys)
    modifies manager, guards
    ensures manager.Valid()
    ensures manager.active == map[] && manager.loginMenu == newLogin && manager.registerMenu == newRegister
    ensures guards.State() == Guards(old(guards.State()).opening - old(manager.active).Keys, old(guards.State()).authenticated)
    ensures effects == CloseAllEffects(old(manager.active), order) + [Notify("command.reload-success", None)]
  {
    effects := manager.Reload(guards, order, newLogin, newRegister);
    effects := effects + [Notify("command.reload-success", None)];
  }
}
