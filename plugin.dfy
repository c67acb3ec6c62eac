/**
 * AuthmeGui, the plugin class: which login-plugin adapter it builds at
 * start-up, and what it clears when it stops or reloads.
 */
module Plugin {
  import opened Wrappers
  import opened Strings
  import opened Host
  import opened MenuConfig
  import opened OpenGuard
  import opened AnvilInput
  import opened Manager

  /** The adapters `initializeLoginPlugin` can build. */
  datatype Adapter = AuthMeAdapter | CatSeedLoginAdapter

  const DEFAULT_TYPE := "authme"

  /** `tryCreateAuthMeAdapter` and `tryCreateCatSeedLoginAdapter`: the
      adapter when its plugin is installed. */
  function TryCreate(adapter: Adapter, present: bool): (r: Option<Adapter>)
    ensures r.Some? <==> present
    ensures r.Some? ==> r.value == adapter
  {
    if present then Some(adapter) else None
  }

  /** `initializeLoginPlugin`: `login-plugin.type` (lower-cased, "authme" by
      default) names the preferred adapter; with `login-plugin.auto-detect`
      (true by default) the other one is tried when it is missing, without
      it only the named one is. Any other type gives no manager. */
  function SelectLoginPlugin(typeSetting: Option<string>, autoDetect: Option<bool>,
                             authMePresent: bool, catSeedPresent: bool): (r: Option<Adapter>)
    ensures r.Some? ==> Lower(typeSetting.GetOr(DEFAULT_TYPE)) == "authme" || Lower(typeSetting.GetOr(DEFAULT_TYPE)) == "catseedlogin"
    ensures r.Some? && !autoDetect.GetOr(true) ==>
      r.value == (if Lower(typeSetting.GetOr(DEFAULT_TYPE)) == "authme" then AuthMeAdapter else CatSeedLoginAdapter)
    ensures r.None? && (Lower(typeSetting.GetOr(DEFAULT_TYPE)) == "authme" || Lower(typeSetting.GetOr(DEFAULT_TYPE)) == "catseedlogin") ==>
      !authMePresent || !catSeedPresent
  {
    var pluginType := Lower(typeSetting.GetOr(DEFAULT_TYPE));
    var authMe := TryCreate(AuthMeAdapter, authMePresent);
    var catSeed := TryCreate(CatSeedLoginAdapter, catSeedPresent);
    if autoDetect.GetOr(true) then
      if pluginType == "authme" then (if authMe.Some? then authMe else catSeed)
      else if pluginType == "catseedlogin" then (if catSeed.Some? then catSeed else authMe)
      else None
    else
      if pluginType == "authme" then authMe
      else if pluginType == "catseedlogin" then catSeed
      else None
  }

  /** Only an installed plugin's adapter is built. */
  lemma SelectedIsPresent(typeSetting: Option<string>, autoDetect: Option<bool>, authMePresent: bool, catSeedPresent: bool)
    ensures SelectLoginPlugin(typeSetting, autoDetect, authMePresent, catSeedPresent) == Some(AuthMeAdapter) ==> authMePresent
    ensures SelectLoginPlugin(typeSetting, autoDetect, authMePresent, catSeedPresent) == Some(CatSeedLoginAdapter) ==> catSeedPresent
  {
  }

  /** The preferred adapter wins whenever its plugin is installed. */
  lemma PreferredWins(typeSetting: Option<string>, autoDetect: Option<bool>, authMePresent: bool, catSeedPresent: bool)
    ensures Lower(typeSetting.GetOr(DEFAULT_TYPE)) == "authme" && authMePresent ==>
      SelectLoginPlugin(typeSetting, autoDetect, authMePresent, catSeedPresent) == Some(AuthMeAdapter)
    ensures Lower(typeSetting.GetOr(DEFAULT_TYPE)) == "catseedlogin" && catSeedPresent ==>
      SelectLoginPlugin(typeSetting, autoDetect, authMePresent, catSeedPresent) == Some(CatSeedLoginAdapter)
  {
  }

  /** With auto-detection (on unless set to false) the other adapter stands
      in for a missing one, in both directions; without it nothing does. */
  lemma FallbackOnlyWithAutoDetect(typeSetting: Option<string>, autoDetect: Option<bool>, authMePresent: bool, catSeedPresent: bool)
    ensures Lower(typeSetting.GetOr(DEFAULT_TYPE)) == "authme" && !authMePresent ==>
      SelectLoginPlugin(typeSetting, autoDetect, authMePresent, catSeedPresent)
        == if autoDetect.GetOr(true) then TryCreate(CatSeedLoginAdapter, catSeedPresent) else None
    ensures Lower(typeSetting.GetOr(DEFAULT_TYPE)) == "catseedlogin" && !catSeedPresent ==>
      SelectLoginPlugin(typeSetting, autoDetect, authMePresent, catSeedPresent)
        == if autoDetect.GetOr(true) then TryCreate(AuthMeAdapter, authMePresent) else None
  {
  }

  /** An unknown type yields no manager, whatever is installed. */
  lemma UnknownTypeNoManager(typeSetting: Option<string>, autoDetect: Option<bool>, authMePresent: bool, catSeedPresent: bool)
    requires Lower(typeSetting.GetOr(DEFAULT_TYPE)) != "authme" && Lower(typeSetting.GetOr(DEFAULT_TYPE)) != "catseedlogin"
    ensures SelectLoginPlugin(typeSetting, autoDetect, authMePresent, catSeedPresent).None?
  {
  }

  /** The type is read case-insensitively, and a missing key means AuthMe. */
  lemma TypeCaseInsensitive(authMePresent: bool, catSeedPresent: bool)
    ensures SelectLoginPlugin(Some("AuthMe"), None, authMePresent, catSeedPresent)
         == SelectLoginPlugin(None, None, authMePresent, catSeedPresent)
    ensures SelectLoginPlugin(Some("CatSeedLogin"), Some(false), authMePresent, catSeedPresent)
         == TryCreate(CatSeedLoginAdapter, catSeedPresent)
  {
    assert Lower("AuthMe") == "authme";
    assert Lower("CatSeedLogin") == "catseedlogin";
  }

  /** `cleanup`: every dialog is closed and the typed input of every player
      dropped; the guard marks of players without a dialog stay. */
  method Cleanup(manager: Option<GuiManager>, store: InputStore, guards: GuardSets, order: seq<Uuid>)
    returns (effects: seq<Effect>)
    requires manager.Some? ==> manager.value.Valid() && Enumerates(order, manager.value.active.Keys)
    modifies if manager.Some? then {manager.value} else {}, store, guards
    ensures store.State() == AnvilInput.Empty
    ensures manager.Some? ==>
      && manager.value.Valid() && manager.value.active == map[]
      && manager.value.loginMenu == old(manager.value.loginMenu) && manager.value.registerMenu == old(manager.value.registerMenu)
      && guards.State() == Guards(old(guards.State()).opening - old(manager.value.active).Keys, old(guards.State()).authenticated)
      && effects == CloseAllEffects(old(manager.value.active), order)
    ensures manager.None? ==> guards.State() == old(guards.State()) && effects == []
  {
    effects := [];
    if manager.Some? {
      effects := manager.value.ClearAllGuis(guards, order);
    }
    store.ClearAll();
  }

  /** `reloadConfig`: after the configuration files are read again the
      manager drops every dialog and takes the new menus. */
  method ReloadConfig(manager: Option<GuiManager>, guards: GuardSets, order: seq<Uuid>,
                      newLogin: Option<Menu>, newRegister: Option<Menu>)
    returns (effects: seq<Effect>)
    requires manager.Some? ==> manager.value.Valid() && Enumerates(order, manager.value.active.Keys)
    modifies if manager.Some? then {manager.value} else {}, guards
    ensures manager.Some? ==>
      && manager.value.Valid() && manager.value.active == map[]
      && manager.value.loginMenu == newLogin && manager.value.registerMenu == newRegister
      && guards.State() == Guards(old(guards.State()).opening - old(manager.value.active).Keys, old(guards.State()).authenticated)
      && effects == CloseAllEffects(old(manager.value.active), order)
    ensures manager.None? ==> guards.State() == old(guards.State()) && effects == []
  {
    effects := [];
    if manager.Some? {
      effects := manager.value.Reload(guards, order, newLogin, newRegister);
    }
  }
}
