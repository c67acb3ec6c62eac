# AuthmeGui, modelled in Dafny

AuthmeGui is a Minecraft server plugin. It replaces the chat-command login and
registration of AuthMe (or CatSeedLogin) with an anvil dialog: the player types
the password into the anvil's rename field, the plugin keeps it in a per-player
buffer (shown as stars by default), and the result slot confirms it. This
project models the plugin's bookkeeping around those dialogs:

- the two input buffers of `AnvilInputUtil` (the text shown and the real
  password) and how each rename snapshot is reconciled into them
  (`AnvilInput`, `InputListener`);
- the two guard sets of `GuiOpenHelper`: players whose dialog is being opened,
  and players already authenticated (`OpenGuard`);
- the dialog itself (`Gui.AnvilGui`): slot layout, the three open attempts,
  close and reopen decisions, and the configured `[kick]`/`[message]`/`[command]`
  actions;
- the login and register dialogs' click handlers and confirm sequences
  (`LoginDialog`, `RegisterDialog`);
- the per-player dialog map of `GUIManager` (`Manager.GuiManager`);
- the listeners for the backend's events and for join and quit
  (`AuthEvents`, `PlayerEvents`);
- password validation and the success and failure handlers of both backend
  wrappers (`LoginPlugin`, `AuthMeImpl`);
- message lookup and placeholders (`Messages`) and item material parsing
  (`MenuConfig`);
- the choice of login backend, cleanup and reload (`Plugin`);
- the `/authgui` command and its tab completion (`Command`).

State the Java code updates in place is a Dafny class with a `State()` view:
`InputStore`, `GuardSets`, `AnvilGui` (its slots are an array), `GuiManager`
and the retry timer `JoinTimer`. Each method states its new state as a
function of the old one, and the lemmas are proved about those functions.
What the plugin sends to the outside world is returned as a sequence of
`Effect`s: a kick, a chat line, a console command, or a message key with its
placeholders. A task the plugin schedules is either a returned flag or its own
method. The login backend is the `PlayerAuth` value: its answers to
"registered?", "logged in?", "password correct?", "force login" and
"register", all false when the backend is unavailable. AuthMe's own API, which
the dialog asks directly, is `ApiView`: absent, or per query an answer or an
exception. Iteration over a Java `HashMap` takes an explicit order that
enumerates the keys.

A confirm click is traced as a sequence of `Step`s, for example ask
"registered?", check the password, close the dialog, call forceLogin, mark the
player authenticated. The order guarantees of `attemptLogin` and
`attemptRegister` are lemmas over that trace.

## Model

| member | source | states |
|---|---|---|
| AnvilInput.Drop | src/main/java/cn/i7mc/authmeGui/util/AnvilInputUtil.java:121-124 | neither map keeps an entry for the name |
| AnvilInput.SetInput | src/main/java/cn/i7mc/authmeGui/util/AnvilInputUtil.java:41-96 | only the entries keyed by the given name change; every other player's display and password entries are kept |
| AnvilInput.SetInputKeepsConsistent | src/main/java/cn/i7mc/authmeGui/util/AnvilInputUtil.java:41-96 | the reconciliation keeps the invariant: a password entry has a non-empty display entry at least as long, and no stored value is empty |
| AnvilInput.BlankInputRemoves | src/main/java/cn/i7mc/authmeGui/util/AnvilInputUtil.java:41-46 | a null or blank snapshot removes both entries of the player |
| AnvilInput.PlaintextMirrors | src/main/java/cn/i7mc/authmeGui/util/AnvilInputUtil.java:48-56 | in plaintext mode both maps hold the snapshot with spaces removed |
| AnvilInput.MaskedStarsTruncate | src/main/java/cn/i7mc/authmeGui/util/AnvilInputUtil.java:62-73 | masked mode, an all-star snapshot shorter than the password: the password becomes its prefix of that length and the display that many stars |
| AnvilInput.MaskedStarsKeep | src/main/java/cn/i7mc/authmeGui/util/AnvilInputUtil.java:74-77 | masked mode, an all-star snapshot not shorter than the password: the password entry is untouched and the display is set to the star string, so their lengths may differ |
| AnvilInput.DisplayWithoutReal | src/main/java/cn/i7mc/authmeGui/util/AnvilInputUtil.java:74-77 | a display entry can exist with no password entry (two stars typed into an empty buffer) |
| AnvilInput.MaskedLiteralAppends | src/main/java/cn/i7mc/authmeGui/util/AnvilInputUtil.java:84-89 | masked mode, a longer non-star snapshot: the password gains the snapshot's new tail and the display shows that many stars |
| AnvilInput.MaskedLiteralReplaces | src/main/java/cn/i7mc/authmeGui/util/AnvilInputUtil.java:78-83 | masked mode, a non-star snapshot of equal or shorter length replaces the password and the display shows its length in stars |
| AnvilInput.MaskedShowsOnlyStars | src/main/java/cn/i7mc/authmeGui/util/AnvilInputUtil.java:58-95 | in masked mode the display entry is only stars |
| AnvilInput.MaskedKeystrokeAppends | src/main/java/cn/i7mc/authmeGui/util/AnvilInputUtil.java:84-89 | typing one more char after the shown stars appends exactly that char to the password |
| AnvilInput.TypingMaskedRebuilds | src/main/java/cn/i7mc/authmeGui/util/AnvilInputUtil.java:41-96 | typing a password char by char in masked mode leaves exactly the typed prefix as password and that many stars as display |
| AnvilInput.InputStore.constructor | src/main/java/cn/i7mc/authmeGui/util/AnvilInputUtil.java:20-25 | both maps start empty |
| AnvilInput.InputStore.SetPlayerInput | src/main/java/cn/i7mc/authmeGui/util/AnvilInputUtil.java:41-96 | the maps afterwards are SetInput of the maps before, and the invariant is kept |
| AnvilInput.InputStore.GetPlayerInput | src/main/java/cn/i7mc/authmeGui/util/AnvilInputUtil.java:104-106 | the display entry, or null when absent |
| AnvilInput.InputStore.GetRealPassword | src/main/java/cn/i7mc/authmeGui/util/AnvilInputUtil.java:113-115 | the password entry, or null when absent |
| AnvilInput.InputStore.HasInput | src/main/java/cn/i7mc/authmeGui/util/AnvilInputUtil.java:139-143 | true only for a non-empty password entry |
| AnvilInput.InputStore.GetPasswordLength | src/main/java/cn/i7mc/authmeGui/util/AnvilInputUtil.java:150-153 | the password entry's length, positive exactly when a non-empty entry exists, 0 when absent |
| AnvilInput.InputStore.RemovePlayerInput | src/main/java/cn/i7mc/authmeGui/util/AnvilInputUtil.java:121-124 | both entries of the player removed, nothing else changed |
| AnvilInput.InputStore.ForceRemovePlayerInput | src/main/java/cn/i7mc/authmeGui/util/AnvilInputUtil.java:159-162 | both entries of the player removed, nothing else changed |
| AnvilInput.InputStore.ClearAll | src/main/java/cn/i7mc/authmeGui/util/AnvilInputUtil.java:129-132 | both maps empty |
| InputListener.PlaceholderCases | src/main/java/cn/i7mc/authmeGui/listener/AnvilInputListener.java:129-151 | a snapshot is a prompt exactly when it is blank, or its lower-cased text with `.` and `…` removed contains `请输入`, `输入密码` or `password`, or is a lone `*` |
| InputListener.IsPlaceholderText | src/main/java/cn/i7mc/authmeGui/listener/AnvilInputListener.java:129-151 | a null snapshot, one whose normalised text contains `password`, and a lone `*` are all prompts; the full characterisation is PlaceholderCases |
| InputListener.LoneStarBranchDead | src/main/java/cn/i7mc/authmeGui/listener/AnvilInputListener.java:70-77 | a snapshot that is a lone star is a prompt, so the masked lone-star branch can never run |
| InputListener.NameItem | src/main/java/cn/i7mc/authmeGui/listener/AnvilInputListener.java:65-100 | a rename snapshot changes only the entries of the dialog's owner |
| InputListener.PlaceholderClears | src/main/java/cn/i7mc/authmeGui/listener/AnvilInputListener.java:94-100 | a prompt snapshot removes both buffer entries, in either mode and whatever was stored |
| InputListener.OtherSnapshotsReconciled | src/main/java/cn/i7mc/authmeGui/listener/AnvilInputListener.java:67-86 | any other snapshot is handed to setPlayerInput with spaces removed |
| InputListener.PasswordWordClears | src/main/java/cn/i7mc/authmeGui/listener/AnvilInputListener.java:129-151 | in plaintext mode a snapshot containing `password` wipes the buffers instead of being stored |
| InputListener.MaskedSnapshotNotPlaceholder | src/main/java/cn/i7mc/authmeGui/listener/AnvilInputListener.java:129-151 | the snapshot of stars plus one ordinary typed char is never taken for a prompt |
| InputListener.TypingThroughListenerRebuilds | src/main/java/cn/i7mc/authmeGui/listener/AnvilInputListener.java:44-105 | typing a password in masked mode through the listener rebuilds it exactly as setPlayerInput alone would |
| InputListener.DotAsSecondCharClears | src/main/java/cn/i7mc/authmeGui/listener/AnvilInputListener.java:129-151 | in masked mode a `.` typed as the second char wipes both buffers, because the snapshot then reads as a lone star |
| InputListener.ResultText | src/main/java/cn/i7mc/authmeGui/listener/AnvilInputListener.java:214-238 | the result slot shows the confirm text when the display value is non-blank, the placeholder message otherwise |
| InputListener.ResultConfirmsIffStored | src/main/java/cn/i7mc/authmeGui/listener/AnvilInputListener.java:224-225 | after a masked snapshot, the result slot confirms exactly when a display entry is stored, for any message file whose placeholder message is not the confirm text |
| InputListener.ResultConfirmsWithoutMessages | src/main/java/cn/i7mc/authmeGui/listener/AnvilInputListener.java:224-225 | the same with no message file loaded |
| InputListener.HandleNameItem | src/main/java/cn/i7mc/authmeGui/listener/AnvilInputListener.java:44-105 | only the dialog's owner with a non-null name is handled; the buffers follow NameItem, slot 2 shows ResultText of the new display value, and a masked refresh is scheduled exactly for a masked snapshot that is not a prompt |
| InputListener.MaskedRefreshShowsOnlyStars | src/main/java/cn/i7mc/authmeGui/listener/AnvilInputListener.java:183-207 | after a masked snapshot the refreshed input slot shows either the placeholder message or the display entry, which is only stars; with a password buffered it shows the stars, at least one per password character |
| InputListener.RefreshInputSlot | src/main/java/cn/i7mc/authmeGui/listener/AnvilInputListener.java:159-176 | only when the player is online with the dialog on top, slot 0 is rewritten with MaskText and nothing else changes |
| InputListener.PlaintextEnabled | src/main/java/cn/i7mc/authmeGui/listener/AnvilInputListener.java:244-256 | plaintext display only when the setting is present and true |
| OpenGuard.OpeningAddRemove | src/main/java/cn/i7mc/authmeGui/util/GuiOpenHelper.java:31-54 | after adding a player the opening set contains them; after removing, it does not |
| OpenGuard.AuthenticatedAddRemove | src/main/java/cn/i7mc/authmeGui/util/GuiOpenHelper.java:60-83 | the same laws for the authenticated set |
| OpenGuard.SetsIndependent | src/main/java/cn/i7mc/authmeGui/util/GuiOpenHelper.java:19-83 | an operation on one set never changes the other |
| OpenGuard.NullPlayerIgnored | src/main/java/cn/i7mc/authmeGui/util/GuiOpenHelper.java:32-82 | for a null player adds and removes change nothing and both queries answer false |
| OpenGuard.AddIdempotent | src/main/java/cn/i7mc/authmeGui/util/GuiOpenHelper.java:31-64 | adding twice is adding once, and adding one player leaves every other player's membership alone |
| OpenGuard.GuardSets.constructor | src/main/java/cn/i7mc/authmeGui/util/GuiOpenHelper.java:15-25 | both sets start empty |
| OpenGuard.GuardSets.AddToOpeningList | src/main/java/cn/i7mc/authmeGui/util/GuiOpenHelper.java:31-35 | the sets afterwards are AddOpening of the sets before |
| OpenGuard.GuardSets.RemoveFromOpeningList | src/main/java/cn/i7mc/authmeGui/util/GuiOpenHelper.java:41-45 | the sets afterwards are RemoveOpening of the sets before |
| OpenGuard.GuardSets.AddToAuthenticatedList | src/main/java/cn/i7mc/authmeGui/util/GuiOpenHelper.java:60-64 | the sets afterwards are AddAuthenticated of the sets before |
| OpenGuard.GuardSets.RemoveFromAuthenticatedList | src/main/java/cn/i7mc/authmeGui/util/GuiOpenHelper.java:70-74 | the sets afterwards are RemoveAuthenticated of the sets before |
| OpenGuard.GuardSets.ClearAll | src/main/java/cn/i7mc/authmeGui/util/GuiOpenHelper.java:88-91 | both sets empty and both sizes 0 |
| OpenGuard.GuardSets.OpeningListSize | src/main/java/cn/i7mc/authmeGui/util/GuiOpenHelper.java:97-99 | the cardinality of the opening set, 0 exactly when it is empty |
| OpenGuard.GuardSets.AuthenticatedListSize | src/main/java/cn/i7mc/authmeGui/util/GuiOpenHelper.java:105-107 | the cardinality of the authenticated set, 0 exactly when it is empty |
| Gui.PlaceholderText | src/main/java/cn/i7mc/authmeGui/gui/AnvilGUI.java:91-108 | the placeholder name is the configured message, or `请输入密码` when that message is empty; never empty |
| Gui.DefaultPlaceholderOnlyWhenEmpty | src/main/java/cn/i7mc/authmeGui/gui/AnvilGUI.java:91-108 | what the placeholder shows with no message file, a missing key and an empty message |
| Gui.Place | src/main/java/cn/i7mc/authmeGui/gui/AnvilGUI.java:66-86 | placing items never changes the number of slots |
| Gui.PlaceKeepsUnwanted | src/main/java/cn/i7mc/authmeGui/gui/AnvilGUI.java:66-86 | a slot no item asks for keeps its content |
| Gui.PlaceLastWins | src/main/java/cn/i7mc/authmeGui/gui/AnvilGUI.java:66-86 | an item with an Integer slot in range lands there, the last such item in iteration order winning |
| Gui.InitialSlots | src/main/java/cn/i7mc/authmeGui/gui/AnvilGUI.java:55-108 | three slots, slot 0 the input paper showing the placeholder |
| Gui.InitializeSlots | src/main/java/cn/i7mc/authmeGui/gui/AnvilGUI.java:55-86 | the array afterwards holds InitialSlots: cleared, items placed in order, then the placeholder in slot 0 |
| Gui.ShouldReopenAfterClose | src/main/java/cn/i7mc/authmeGui/gui/AnvilGUI.java:331-364 | reopen exactly when the player is in neither guard set, the API exists and answers not authenticated and, for a register dialog, not registered; a throwing query means no reopen |
| Gui.LoginIgnoresRegistration | src/main/java/cn/i7mc/authmeGui/gui/AnvilGUI.java:343-358 | for a login dialog the registration answer is never consulted |
| Gui.PendingOpenNeverReopens | src/main/java/cn/i7mc/authmeGui/gui/AnvilGUI.java:331-340 | a player in the opening set is never reopened |
| Gui.AuthenticatedNeverReopens | src/main/java/cn/i7mc/authmeGui/gui/AnvilGUI.java:331-340 | a player in the authenticated set is never reopened |
| Gui.DelayedReopenFires | src/main/java/cn/i7mc/authmeGui/gui/AnvilGUI.java:309-321 | the delayed reopen can fire only for a player still online while the API is present |
| Gui.StripBar | src/main/java/cn/i7mc/authmeGui/gui/AnvilGUI.java:398-402 | one leading `|` is dropped and nothing else |
| Gui.ParseRenderRoundTrip | src/main/java/cn/i7mc/authmeGui/gui/AnvilGUI.java:384-415 | parsing the rendering of a kick, message or command action gives back that action |
| Gui.ParseWithoutBar | src/main/java/cn/i7mc/authmeGui/gui/AnvilGUI.java:384-415 | a `[kick]` action whose text has no leading `|` kicks with that text unchanged |
| Gui.UnknownActionIgnored | src/main/java/cn/i7mc/authmeGui/gui/AnvilGUI.java:384-415 | an action with no known prefix does nothing |
| Gui.ActionListEffects | src/main/java/cn/i7mc/authmeGui/gui/AnvilGUI.java:370-378 | at most one effect per action |
| Gui.ExecuteActions | src/main/java/cn/i7mc/authmeGui/gui/AnvilGUI.java:370-378 | the loop produces the effects of the list in order, nothing for a null list |
| Gui.ParseAction | src/main/java/cn/i7mc/authmeGui/gui/AnvilGUI.java:384-415 | an action has an effect only when it starts with `[kick]`, `[message]` or `[command]`, and a `[kick]` action always kicks; ParseRenderRoundTrip gives the exact effect of each kind |
| Gui.ActionsOf | src/main/java/cn/i7mc/authmeGui/gui/AnvilGUI.java:370-378 | nothing for a null list, and never more effects than actions |
| Gui.RenderedListRuns | src/main/java/cn/i7mc/authmeGui/gui/AnvilGUI.java:370-415 | a list of rendered message actions sends exactly those messages in order |
| Gui.ApplyStepsAppend | src/main/java/cn/i7mc/authmeGui/gui/LoginGUI.java:112-144 | running one more confirm step applies it to the state reached so far |
| Gui.AuthenticatedAfterSteps | src/main/java/cn/i7mc/authmeGui/gui/LoginGUI.java:130-143 | after a confirm run the player is authenticated exactly when they were before or the run marked them; other players are untouched |
| Gui.AnvilGui.constructor | src/main/java/cn/i7mc/authmeGui/gui/AnvilGUI.java:36-50 | a fresh dialog whose slots hold InitialSlots |
| Gui.AnvilGui.AttemptDirectOpen | src/main/java/cn/i7mc/authmeGui/gui/AnvilGUI.java:203-263 | the player enters the opening set before the open attempt; the attempt's outcome is returned |
| Gui.AnvilGui.VerifyOpen | src/main/java/cn/i7mc/authmeGui/gui/AnvilGUI.java:236-258 | the verification removes the player from the opening set in every case and runs the open actions only when the dialog is on top |
| Gui.AnvilGui.ForceOpenGui | src/main/java/cn/i7mc/authmeGui/gui/AnvilGUI.java:177-197 | at most three attempts; a later attempt runs only after a failed one with the player online; success is the last attempt's outcome |
| Gui.AnvilGui.OpenGui | src/main/java/cn/i7mc/authmeGui/gui/AnvilGUI.java:152-172 | an offline player gets no attempt and no guard change; otherwise ForceOpenGui's law: at most three attempts, each retry only after a failed attempt with the player online, and a retry stops early only when the player went offline |
| Gui.AnvilGui.CloseGui | src/main/java/cn/i7mc/authmeGui/gui/AnvilGUI.java:268-293 | the player leaves the opening set and the close actions run |
| Gui.AnvilGui.HandleClose | src/main/java/cn/i7mc/authmeGui/gui/AnvilGUI.java:299-325 | the close actions run, and a reopen is scheduled exactly when ShouldReopenAfterClose holds |
| Gui.AnvilGui.GetCancelItem | src/main/java/cn/i7mc/authmeGui/gui/LoginGUI.java:150-158 | the first item whose slot is the Integer 0, or null when there is none |
| Gui.FirstCancelItem | src/main/java/cn/i7mc/authmeGui/gui/LoginGUI.java:150-158 | the item found is one of the items and sits in slot 0; when none is found, no item sits in slot 0 |
| Gui.AnvilGui.InitializeGui | src/main/java/cn/i7mc/authmeGui/gui/AnvilGUI.java:55-61 | the slots afterwards hold InitialSlots |
| Manager.GuiSettings.IsGuiEnabled | src/main/java/cn/i7mc/authmeGui/manager/GUIManager.java:169-171 | true when the key is missing |
| Manager.GuiSettings.IsAutoOpenEnabled | src/main/java/cn/i7mc/authmeGui/manager/GUIManager.java:177-179 | true when the key is missing |
| Manager.GuiSettings.OpenDelay | src/main/java/cn/i7mc/authmeGui/manager/GUIManager.java:161-163 | 20 ticks when the key is missing |
| Manager.AppropriateKind | src/main/java/cn/i7mc/authmeGui/manager/GUIManager.java:103-116 | nothing for a logged-in player, login for a registered one, register for anyone else |
| Manager.DisabledBackendMeansRegister | src/main/java/cn/i7mc/authmeGui/manager/GUIManager.java:103-116 | with the backend disabled every player gets the register dialog |
| Manager.GuiManager.constructor | src/main/java/cn/i7mc/authmeGui/manager/GUIManager.java:27-34 | an empty map of dialogs and the given menus |
| Manager.GuiManager.GetActiveGui | src/main/java/cn/i7mc/authmeGui/manager/GUIManager.java:134-136 | the dialog filed under the UUID, whose owner has that UUID |
| Manager.GuiManager.HasActiveGui | src/main/java/cn/i7mc/authmeGui/manager/GUIManager.java:143-145 | key membership |
| Manager.GuiManager.ActiveGuiCount | src/main/java/cn/i7mc/authmeGui/manager/GUIManager.java:185-187 | the size of the map, 0 exactly when it is empty |
| Manager.GuiManager.CloseGui | src/main/java/cn/i7mc/authmeGui/manager/GUIManager.java:122-127 | the entry is removed and, if there was one, that dialog is closed; a second call changes nothing |
| Manager.GuiManager.OpenGui | src/main/java/cn/i7mc/authmeGui/manager/GUIManager.java:45-97 | the old entry is closed first (its close actions sent, the player out of the opening guard); with a menu the player ends with one fresh entry of the requested type and others are unchanged; without one the player has no entry and the config error follows the close actions |
| Manager.GuiManager.FileNewGui | src/main/java/cn/i7mc/authmeGui/manager/GUIManager.java:55-57 | the new dialog is filed under the player, fresh, with the given menu and the initial slots, other entries unchanged |
| Manager.GuiManager.OpenLoginGui | src/main/java/cn/i7mc/authmeGui/manager/GUIManager.java:45-67 | OpenGui for the login type: the close-first effects then the config error without a login menu, the guards as after closeGUI, and a login entry when there is a menu |
| Manager.GuiManager.OpenRegisterGui | src/main/java/cn/i7mc/authmeGui/manager/GUIManager.java:73-97 | OpenGui for the register type: the close-first effects then the config error without a register menu, the guards as after closeGUI, and a register entry when there is a menu |
| Manager.GuiManager.OpenAppropriateGui | src/main/java/cn/i7mc/authmeGui/manager/GUIManager.java:103-116 | a logged-in player gets the already-logged-in message and no change; others get the dialog AppropriateKind picks, with OpenGui's effects and guards |
| Manager.GuiManager.ClearAllGuis | src/main/java/cn/i7mc/authmeGui/manager/GUIManager.java:150-155 | every dialog is closed in iteration order and the map ends empty; only the closed players leave the opening set |
| Manager.GuiManager.Reload | src/main/java/cn/i7mc/authmeGui/manager/GUIManager.java:192-198 | all dialogs closed as in ClearAllGuis, then the new menus are taken |
| LoginDialog.LoginButton | src/main/java/cn/i7mc/authmeGui/gui/LoginGUI.java:27-46 | slot 0 cancels, 1 resets, 2 confirms, any other slot does nothing |
| LoginDialog.NoPasswordNoBackendCall | src/main/java/cn/i7mc/authmeGui/gui/LoginGUI.java:97-106 | with a null or blank real password nothing reaches the backend |
| LoginDialog.CloseBeforeForceLogin | src/main/java/cn/i7mc/authmeGui/gui/LoginGUI.java:112-134 | the dialog closes exactly when a password is buffered, the player is registered, the trimmed password passes validation and the backend accepts it; forceLogin is only ever called after the close |
| LoginDialog.CheckedPasswordIsTrimmed | src/main/java/cn/i7mc/authmeGui/gui/LoginGUI.java:97-128 | the password checked is the trimmed buffer, and only after it passed the format check |
| LoginDialog.AuthenticatedIffForceLogin | src/main/java/cn/i7mc/authmeGui/gui/LoginGUI.java:134-143 | the player is marked authenticated exactly when forceLogin is called and succeeds |
| LoginDialog.AttemptLogin | src/main/java/cn/i7mc/authmeGui/gui/LoginGUI.java:112-144 | the steps are AttemptSteps in order, the messages AttemptEffects, and the guard sets follow the steps |
| LoginDialog.ConfirmLogin | src/main/java/cn/i7mc/authmeGui/gui/LoginGUI.java:97-106 | the trimmed real password is tried when there is one, otherwise the placeholder prompt is sent |
| LoginDialog.CancelLogin | src/main/java/cn/i7mc/authmeGui/gui/LoginGUI.java:58-71 | the cancel item's actions, the cancelled message, then the close |
| LoginDialog.ResetLogin | src/main/java/cn/i7mc/authmeGui/gui/LoginGUI.java:76-92 | the buffers of the player are dropped, the dialog is closed and its reopening scheduled |
| LoginDialog.HandleClick | src/main/java/cn/i7mc/authmeGui/gui/LoginGUI.java:27-46 | every click is cancelled; each button's effects, steps, buffers and guards are its handler's, and a reopen is scheduled exactly for Reset |
| RegisterDialog.RegisterButton | src/main/java/cn/i7mc/authmeGui/gui/RegisterGUI.java:27-45 | 1 resets, 2 confirms; the input slot 0 and any other slot do nothing |
| RegisterDialog.RegisteredNeverRegisterCall | src/main/java/cn/i7mc/authmeGui/gui/RegisterGUI.java:111-115 | an already-registered player is never registered again; the dialog just closes |
| RegisterDialog.CloseBeforeRegister | src/main/java/cn/i7mc/authmeGui/gui/RegisterGUI.java:109-126 | the dialog closes before registerPlayer, which gets the trimmed buffer after it passed the format check |
| RegisterDialog.InvalidKeepsDialogOpen | src/main/java/cn/i7mc/authmeGui/gui/RegisterGUI.java:118-120 | a password that fails the format check leaves the dialog open and the backend untouched |
| RegisterDialog.AuthenticatedIffRegistered | src/main/java/cn/i7mc/authmeGui/gui/RegisterGUI.java:126-140 | the player is marked authenticated exactly when registerPlayer succeeds, whatever forceLogin then does |
| RegisterDialog.AttemptRegister | src/main/java/cn/i7mc/authmeGui/gui/RegisterGUI.java:109-145 | the steps are AttemptSteps in order, the messages AttemptEffects, and the guard sets follow the steps |
| RegisterDialog.RegisterChecked | src/main/java/cn/i7mc/authmeGui/gui/RegisterGUI.java:122-144 | once both checks passed: the dialog is closed, then registerPlayer is called with the password; only on success is the player marked authenticated and forceLogin called; the close actions come before the outcome handler's effects |
| RegisterDialog.ConfirmRegister | src/main/java/cn/i7mc/authmeGui/gui/RegisterGUI.java:91-103 | the trimmed real password is tried when there is one, otherwise the placeholder prompt is sent |
| RegisterDialog.ResetRegister | src/main/java/cn/i7mc/authmeGui/gui/RegisterGUI.java:75-86 | the buffers are dropped and the slots rebuilt in place; the dialog stays open |
| RegisterDialog.CancelRegister | src/main/java/cn/i7mc/authmeGui/gui/RegisterGUI.java:57-70 | the cancel item's actions, the cancelled message, then the close |
| RegisterDialog.HandleClick | src/main/java/cn/i7mc/authmeGui/gui/RegisterGUI.java:27-45 | every click is cancelled; each button's effects, steps, buffers, guards and slots are its handler's |
| AuthEvents.OnPlayerJoin | src/main/java/cn/i7mc/authmeGui/listener/AuthMeEventListener.java:51-100 | checks are scheduled exactly when the dialogs and automatic opening are on and the backend is available; the timer starts 20 ticks after the first check and repeats every 20 |
| AuthEvents.DefaultJoinTiming | src/main/java/cn/i7mc/authmeGui/listener/AuthMeEventListener.java:72-99 | with the keys missing the first check runs after 20 ticks and the timer after 40 |
| AuthEvents.CheckDecision | src/main/java/cn/i7mc/authmeGui/listener/AuthMeEventListener.java:171-211 | a dialog is opened exactly when the player is online, the backend available, not logged in and without a dialog |
| AuthEvents.CheckAgreesWithManager | src/main/java/cn/i7mc/authmeGui/listener/AuthMeEventListener.java:198-210 | the dialog opened is the one openAppropriateGUI would pick |
| AuthEvents.CheckAndOpenGui | src/main/java/cn/i7mc/authmeGui/listener/AuthMeEventListener.java:171-211 | no change unless CheckDecision picks a kind; then that dialog is opened (guards unchanged, as no dialog was filed), and the effects are the config error when the menu is missing followed by the matching required message |
| AuthEvents.AtMostTenChecks | src/main/java/cn/i7mc/authmeGui/listener/AuthMeEventListener.java:78-99 | however long the timer keeps firing it runs the check at most ten times |
| AuthEvents.JoinTimer.constructor | src/main/java/cn/i7mc/authmeGui/listener/AuthMeEventListener.java:83-84 | the count starts at 0 |
| AuthEvents.JoinTimer.Run | src/main/java/cn/i7mc/authmeGui/listener/AuthMeEventListener.java:83-98 | the count goes up on every firing and the check runs only while the count is at most 10, the player online, not logged in and without a dialog |
| AuthEvents.OnAuthenticated | src/main/java/cn/i7mc/authmeGui/listener/AuthMeEventListener.java:107-144 | the player is marked authenticated, their buffers dropped and their dialog closed; the effects are the dialog's close actions then the success message; no dialog of theirs can reopen afterwards; the login and register menus are unchanged |
| AuthEvents.OnLogin | src/main/java/cn/i7mc/authmeGui/listener/AuthMeEventListener.java:107-122 | OnAuthenticated's state change, with the close actions then `gui.login-success` as the effects, menus unchanged |
| AuthEvents.OnRegister | src/main/java/cn/i7mc/authmeGui/listener/AuthMeEventListener.java:129-144 | OnAuthenticated's state change, with the close actions then `gui.register-success` as the effects, menus unchanged |
| AuthEvents.OnLogout | src/main/java/cn/i7mc/authmeGui/listener/AuthMeEventListener.java:151-165 | the dialog is closed (its close actions sent, the player out of the opening guard only when a dialog was filed), the authenticated set is untouched, and a reopen is scheduled exactly when the dialogs and automatic opening are on; the menus are unchanged |
| AuthEvents.LogoutReopen | src/main/java/cn/i7mc/authmeGui/listener/AuthMeEventListener.java:159-163 | the scheduled task does nothing for a player who left (no change, no effect, nothing opened); for one still online it does exactly what OpenAppropriateGui does: the already-logged-in message, or the dialog picked from the menus as they were, with its effects and guards; the menus are unchanged |
| AuthEvents.LogoutKeepsNoReopen | src/main/java/cn/i7mc/authmeGui/listener/AuthMeEventListener.java:151-165 | a player who logged out keeps the authenticated mark, so closing a later dialog never reopens it |
| PlayerEvents.OnPlayerJoin | src/main/java/cn/i7mc/authmeGui/listener/PlayerEventListener.java:39-50 | a warning exactly when the backend is unavailable |
| PlayerEvents.ForgetClearsOnlyThePlayer | src/main/java/cn/i7mc/authmeGui/listener/PlayerEventListener.java:56-65 | a quit removes the player from both guard sets and keeps every other player's memberships |
| PlayerEvents.ForgottenPlayerReopens | src/main/java/cn/i7mc/authmeGui/listener/PlayerEventListener.java:63-64 | once forgotten, the guards no longer block a reopen |
| PlayerEvents.OnPlayerQuit | src/main/java/cn/i7mc/authmeGui/listener/PlayerEventListener.java:56-65 | the player's dialog entry is removed and closed and the player leaves both guard sets; the other entries and both menus are unchanged |
| LoginPlugin.ValidateWithMessage | src/main/java/cn/i7mc/authmeGui/manager/LoginPluginManager.java:111-141 | the first failing check in the order blank, too short, too long, not complex |
| LoginPlugin.VerdictMessage | src/main/java/cn/i7mc/authmeGui/manager/LoginPluginManager.java:111-141 | a message exactly for an invalid password |
| LoginPlugin.ValidateAgrees | src/main/java/cn/i7mc/authmeGui/manager/LoginPluginManager.java:85-141 | the messaging check accepts exactly what isValidPassword accepts |
| LoginPlugin.IsValidPassword | src/main/java/cn/i7mc/authmeGui/manager/LoginPluginManager.java:85-103 | valid exactly when not null or blank, the length within the bounds, and complex whenever complexity is required |
| LoginPlugin.IsPasswordComplex | src/main/java/cn/i7mc/authmeGui/manager/LoginPluginManager.java:181-186 | a complex password has at least two chars, and an all-digit or all-letter password is never complex |
| LoginPlugin.ExecuteAction | src/main/java/cn/i7mc/authmeGui/manager/LoginPluginManager.java:206-223 | an effect only for a `[message]` or `[command]` action, never a kick, and every `[command]` action dispatches |
| LoginPlugin.LengthOnlyWithoutComplexity | src/main/java/cn/i7mc/authmeGui/manager/LoginPluginManager.java:85-103 | with complexity off a password is valid exactly when non-blank and within the bounds, 6 and 20 by default |
| LoginPlugin.ComplexMeansLetterAndDigit | src/main/java/cn/i7mc/authmeGui/manager/LoginPluginManager.java:181-186 | a complex password holds an ASCII letter and a digit 0-9, and no line terminator |
| LoginPlugin.MessageActionStripsPrefix | src/main/java/cn/i7mc/authmeGui/manager/LoginPluginManager.java:206-223 | `[message]` sends the rest with `{player}` filled in, with no `|` stripping |
| LoginPlugin.CommandActionStripsPrefix | src/main/java/cn/i7mc/authmeGui/manager/LoginPluginManager.java:206-223 | `[command]` dispatches the rest with `{player}` replaced |
| LoginPlugin.KickIgnored | src/main/java/cn/i7mc/authmeGui/manager/LoginPluginManager.java:206-223 | a `[kick]` action is ignored by this manager |
| LoginPlugin.ActionsEffects | src/main/java/cn/i7mc/authmeGui/manager/LoginPluginManager.java:193-199 | at most one effect per action |
| LoginPlugin.ExecuteSuccessActions | src/main/java/cn/i7mc/authmeGui/manager/LoginPluginManager.java:193-199 | the loop produces the effects of the configured list in order |
| LoginPlugin.CommandsRunInOrder | src/main/java/cn/i7mc/authmeGui/manager/LoginPluginManager.java:193-223 | a list of command actions dispatches one command each, in order |
| LoginPlugin.HandleOutcome | src/main/java/cn/i7mc/authmeGui/manager/LoginPluginManager.java:147-174 | the outcome message first, then the actions under `login-actions.*` |
| AuthMeImpl.IsValidPasswordWithMessage | src/main/java/cn/i7mc/authmeGui/manager/impl/AuthMeManagerImpl.java:66-99 | a message exactly for a password isValidPassword refuses |
| AuthMeImpl.IsValidPassword | src/main/java/cn/i7mc/authmeGui/manager/impl/AuthMeManagerImpl.java:31-58 | an accepted password is not null or blank, its length is within the bounds, and it is complex whenever complexity is required; SameVerdictAsLoginPlugin gives the converse |
| AuthMeImpl.SameVerdictAsLoginPlugin | src/main/java/cn/i7mc/authmeGui/manager/impl/AuthMeManagerImpl.java:31-58 | the same verdict as LoginPluginManager on every password under the same config |
| AuthMeImpl.RefusedPasswords | src/main/java/cn/i7mc/authmeGui/manager/impl/AuthMeManagerImpl.java:31-47 | null, blank and out-of-bounds passwords are refused |
| AuthMeImpl.HandleOutcome | src/main/java/cn/i7mc/authmeGui/manager/impl/AuthMeManagerImpl.java:102-128 | the outcome message first, then the actions under `authme.*` |
| AuthMeImpl.ActionPathsDiffer | src/main/java/cn/i7mc/authmeGui/manager/impl/AuthMeManagerImpl.java:102-128 | the action lists read here are not the ones LoginPluginManager reads |
| Messages.FormatMessage | src/main/java/cn/i7mc/authmeGui/manager/MessageManager.java:87-101 | null stays null, a null map means no substitution, otherwise every `{key}` is replaced in iteration order |
| Messages.NoBraceUnchanged | src/main/java/cn/i7mc/authmeGui/manager/MessageManager.java:93-97 | a message with no `{` is unchanged |
| Messages.SingleTokenReplaced | src/main/java/cn/i7mc/authmeGui/manager/MessageManager.java:93-97 | a single placeholder token is replaced by its value |
| Messages.GetMessage | src/main/java/cn/i7mc/authmeGui/manager/MessageManager.java:65-77 | the not-loaded text with no message file, the not-found prefix plus the key for a missing key, the configured text itself without placeholders, and with them that text with each `{key}` replaced in iteration order |
| Messages.SendMessage | src/main/java/cn/i7mc/authmeGui/manager/MessageManager.java:37-55 | something is sent only when the resolved text is non-empty, and then exactly that text |
| Messages.SilentOnlyForEmptyMessage | src/main/java/cn/i7mc/authmeGui/manager/MessageManager.java:37-77 | nothing is sent only for a key configured with an empty message |
| Messages.CreatePlaceholders | src/main/java/cn/i7mc/authmeGui/manager/MessageManager.java:109-113 | a map with exactly the one key |
| Messages.CreatePlaceholdersFromPairs | src/main/java/cn/i7mc/authmeGui/manager/MessageManager.java:120-126 | the loop builds Pairs of the arguments |
| Messages.PairsKeys | src/main/java/cn/i7mc/authmeGui/manager/MessageManager.java:120-126 | a key is present exactly when it is at an even position with a value after it; a trailing key is dropped |
| Messages.PairsLastWins | src/main/java/cn/i7mc/authmeGui/manager/MessageManager.java:120-126 | a later duplicate key overwrites an earlier one |
| Messages.OnePairIsCreatePlaceholders | src/main/java/cn/i7mc/authmeGui/manager/MessageManager.java:109-126 | the two createPlaceholders agree on one pair |
| MenuConfig.ParseMaterial | src/main/java/cn/i7mc/authmeGui/config/MenuConfig.java:125-150 | a null type gives STONE; the result is always STONE, PLAYER_HEAD, RED_BED or a known material |
| MenuConfig.ForeignItemsAreStone | src/main/java/cn/i7mc/authmeGui/config/MenuConfig.java:131-136 | the `craftEngine-` and `mythicMobs-` prefixes give STONE |
| MenuConfig.SpecialNames | src/main/java/cn/i7mc/authmeGui/config/MenuConfig.java:137-141 | `head-` gives PLAYER_HEAD and exactly `random_bed` gives RED_BED |
| MenuConfig.UnknownIsStone | src/main/java/cn/i7mc/authmeGui/config/MenuConfig.java:145-149 | a name whose upper-case form is no material gives STONE |
| MenuConfig.UpperLowerRoundTrip | src/main/java/cn/i7mc/authmeGui/config/MenuConfig.java:145-147 | upper-casing the lower-cased form of a name without lower-case letters gives the name back |
| MenuConfig.LowerHasNoForeignPrefix | src/main/java/cn/i7mc/authmeGui/config/MenuConfig.java:131-136 | a lower-cased name never carries the `craftEngine-` or `mythicMobs-` prefix |
| MenuConfig.LowerCaseNameResolves | src/main/java/cn/i7mc/authmeGui/config/MenuConfig.java:145-149 | a material's name written in lower case resolves to that material |
| Plugin.TryCreate | src/main/java/cn/i7mc/authmeGui/AuthmeGui.java:141-163 | an adapter exactly when its plugin is installed |
| Plugin.SelectLoginPlugin | src/main/java/cn/i7mc/authmeGui/AuthmeGui.java:101-135 | a manager only for the types authme and catseedlogin; without auto-detect only the configured type's adapter; with a known type, no manager only when some plugin is missing |
| Plugin.SelectedIsPresent | src/main/java/cn/i7mc/authmeGui/AuthmeGui.java:101-135 | only an installed plugin's adapter is ever built |
| Plugin.PreferredWins | src/main/java/cn/i7mc/authmeGui/AuthmeGui.java:108-128 | the configured type's adapter wins whenever its plugin is installed |
| Plugin.FallbackOnlyWithAutoDetect | src/main/java/cn/i7mc/authmeGui/AuthmeGui.java:108-128 | for type authme with AuthMe missing, or type catseedlogin with CatSeedLogin missing, auto-detect (on unless set to false) gives the other adapter when its plugin is present; without auto-detect nothing is built |
| Plugin.UnknownTypeNoManager | src/main/java/cn/i7mc/authmeGui/AuthmeGui.java:108-128 | an unrecognised type gives no manager in both modes |
| Plugin.TypeCaseInsensitive | src/main/java/cn/i7mc/authmeGui/AuthmeGui.java:102-103 | the type is read lower-cased and defaults to `authme` |
| Plugin.Cleanup | src/main/java/cn/i7mc/authmeGui/AuthmeGui.java:227-236 | every dialog closed in iteration order and the input buffers emptied; only the closed players leave the opening set; the menus are unchanged; without a manager only the buffers are emptied |
| Plugin.ReloadConfig | src/main/java/cn/i7mc/authmeGui/AuthmeGui.java:242-255 | with a manager every dialog is closed (its players leave the opening guard, the authenticated set is kept) and the new menus taken; without one nothing changes |
| Command.OnCommand | src/main/java/cn/i7mc/authmeGui/command/AuthGuiCommand.java:37-75 | the refusal exactly without the permission; each subcommand exactly for its word in any case; the help exactly for no arguments or any other word |
| Command.OnCommandIgnoresCase | src/main/java/cn/i7mc/authmeGui/command/AuthGuiCommand.java:50-51 | lower-casing the first argument beforehand does not change the route |
| Command.SendHelp | src/main/java/cn/i7mc/authmeGui/command/AuthGuiCommand.java:222-229 | the six help lines in order |
| Command.HandleInfo | src/main/java/cn/i7mc/authmeGui/command/AuthGuiCommand.java:209-217 | seven lines, the last giving the number of open dialogs |
| Command.Matching | src/main/java/cn/i7mc/authmeGui/command/AuthGuiCommand.java:85-122 | never more completions than candidates |
| Command.MatchingExact | src/main/java/cn/i7mc/authmeGui/command/AuthGuiCommand.java:85-122 | a candidate is offered exactly when it starts with the lower-cased input |
| Command.EmptyInputOffersAll | src/main/java/cn/i7mc/authmeGui/command/AuthGuiCommand.java:85-122 | with nothing typed every candidate is offered, in order |
| Command.FilterCompletions | src/main/java/cn/i7mc/authmeGui/command/AuthGuiCommand.java:90-121 | the loop offers exactly Matching of the candidates |
| Command.OnTabComplete | src/main/java/cn/i7mc/authmeGui/command/AuthGuiCommand.java:78-126 | subcommands for one argument, online names after open or close, dialog types after open and a name; nothing without the permission |
| Command.TabCompletions | src/main/java/cn/i7mc/authmeGui/command/AuthGuiCommand.java:78-126 | nothing without the permission or for 0 or more than 3 arguments, and never more completions than the candidate list for that position; CompletionsAreCandidates states which candidates |
| Command.CompletionsAreCandidates | src/main/java/cn/i7mc/authmeGui/command/AuthGuiCommand.java:78-126 | any completion needs the permission and one to three arguments, is a subcommand, an online name or a dialog type, and starts with the lower-cased last argument |
| Command.ExplicitTypeIgnoresBackend | src/main/java/cn/i7mc/authmeGui/command/AuthGuiCommand.java:164-177 | login and register open that dialog; any other type acts as auto |
| Command.HandleOpen | src/main/java/cn/i7mc/authmeGui/command/AuthGuiCommand.java:149-181 | fewer than 2 arguments send usage and a missing player not-found, with no change; otherwise the requested dialog is opened with the manager's effects and guards, or the already-logged-in message for an automatic choice, followed by the report |
| Command.HandleClose | src/main/java/cn/i7mc/authmeGui/command/AuthGuiCommand.java:186-204 | the menus are never changed; fewer than 2 arguments send usage and a missing player not-found, with no change to the dialogs or guards; otherwise the entry is removed, its close actions sent and the guards changed as closeGUI changes them, then the report |
| Command.HandleReload | src/main/java/cn/i7mc/authmeGui/command/AuthGuiCommand.java:131-144 | every dialog is dropped (its players leave the opening guard), the new menus are taken and success is reported after the close actions |

## Left out

- Bukkit inventories, `ItemStack`/`ItemMeta` and item lore are not modelled; a slot is a value naming what it shows.
- Colour-code translation (`ChatColor.translateAlternateColorCodes`) is left out; messages are the text before translation.
- `toLowerCase`/`toUpperCase` are modelled for ASCII letters only; UTF-16 lengths are not modelled, and a string's length is its number of chars.
- The PacketEvents wrapper is not modelled. `onPacketReceive`'s filter for the rename packet is the call of `InputListener.HandleNameItem`, which gets the snapshot directly.
- The scheduler is not modelled: a delayed task is a returned flag (`openScheduled`, `reopenScheduled`, the refresh value) or a method of its own (`VerifyOpen`, `LogoutReopen`, `JoinTimer.Run`), and delays are constants in the contracts.
- Reflection on AuthMe's API in `attemptDirectOpen` is an oracle: each open attempt's outcome is a parameter (`opens`), and so is whether the player is still online between attempts.
- `AuthEvents.JoinTimer.Run`: the attempt counter is unbounded, so Java's `int` overflow after 2^31 firings is not modelled. The timer is never cancelled in the source either, which the model keeps; `AtMostTenChecks` bounds what it does.
- The backend wrappers' own calls into AuthMe or CatSeedLogin are the `PlayerAuth` oracle. Adapter `initialize`, the CatSeedLogin adapter's internals and `LoginPluginManager`'s abstract members are not modelled.
- Loading YAML files is left out: configuration is passed in as values (`GuiSettings`, `SecurityConfig`, `ConfigLists`, `MessageFile`, `Menu`). A configuration or menu file that fails to load is skipped where it is read, so it only shows up as a missing menu or missing settings.
- `Material.valueOf` is a membership test in a `known` set of material names.
- The inventory listener (click routing, drag and close events) is not part of this model. In particular the `GUIManager` entry is not removed when a dialog closes itself after a successful confirm.
- `RegisterGUI.handleInput` does nothing and is not modelled.
- `RegisterDialog.CancelRegister` is modelled, but no slot reaches it, as in the source.
- Concurrency between the server thread and scheduled tasks is not modelled; every operation runs to completion.
- Message recipients are implicit: effects go to the player concerned, and in the command to the sender. The command's player lookup is the `target` parameter. Plugin version and authors are parameters of `Command.HandleInfo`.
- Logging calls are left out.
- Gui.DelayedReopenFires: states only that firing needs an online player and a present API, not the full condition (which also asks that the API reports the player unauthenticated).
- Manager.GuiSettings.IsGuiEnabled, Manager.GuiSettings.IsAutoOpenEnabled, Manager.GuiSettings.OpenDelay: state only the defaults for a missing key; a present key's value is returned as is.
- Command.HandleReload: the `command.reload-failed` reply is not modelled. The source sends it only when `GUIManager.reload` throws, after every dialog has already been cleared (for instance when copying the default menu files fails); nothing the model contains throws there, so the reload always reports success.
- Manager.GuiManager.OpenGui: the `error.gui-creation-failed` reply is not modelled. The source sends it when building the dialog or scheduling its opening throws; building a dialog cannot fail in the model.
