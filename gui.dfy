/**
 * AnvilGUI, the part shared by the login and register dialogs: the three
 * anvil slots and how they are filled, opening with retries under the
 * opening guard, closing, the reopen decision after a close, and the
 * dialog's own action strings (`[kick]`, `[message]`, `[command]`).
 */
module Gui {
  import opened Wrappers
  import opened Strings
  import opened Host
  import opened MenuConfig
  import opened OpenGuard
  import Messages

  /** The `guiType` of a dialog. */
  datatype Kind = Login | Register

  function TypeName(k: Kind): string {
    if k == Login then "login" else "register"
  }

  /** What an anvil slot holds: nothing, a configured item, the paper in the
      input slot, or the pane in the result slot, each with its display text. */
  datatype SlotItem = EmptySlot | Configured(item: ItemConfig) | InputPaper(text: string) | ResultPane(text: string)

  /** An anvil inventory has three slots: input, second input and result. */
  const ANVIL_SIZE := 3

  const PLACEHOLDER_KEY := "gui.password-placeholder"
  const DEFAULT_PLACEHOLDER := "请输入密码"

  /** The text of the input paper: the placeholder message, or the built-in
      text when that message is empty. */
  function PlaceholderText(messages: Messages.MessageFile): (t: string)
    ensures t != []
  {
    var m := Messages.GetMessage(messages, PLACEHOLDER_KEY, None, []);
    if m == [] then DEFAULT_PLACEHOLDER else m
  }

  /** The built-in text appears only when the message file holds an empty
      placeholder message; a missing file or key shows its fallback text. */
  lemma DefaultPlaceholderOnlyWhenEmpty(messages: Messages.MessageFile)
    ensures messages.None? ==> PlaceholderText(messages) == Messages.NOT_LOADED
    ensures messages.Some? && PLACEHOLDER_KEY !in messages.value
      ==> PlaceholderText(messages) == Messages.NOT_FOUND_PREFIX + PLACEHOLDER_KEY
    ensures messages.Some? && PLACEHOLDER_KEY in messages.value && messages.value[PLACEHOLDER_KEY] == []
      ==> PlaceholderText(messages) == DEFAULT_PLACEHOLDER
  {
  }

  /** One configured item put in place: only an Integer slot inside the
      inventory takes it. */
  function PlaceOne(slots: seq<SlotItem>, item: ItemConfig): (r: seq<SlotItem>)
    ensures |r| == |slots|
  {
    if item.slot.IntSlot? && 0 <= item.slot.index < |slots| then slots[item.slot.index := Configured(item)]
    else slots
  }

  /** The items put in place in iteration order. */
  function Place(slots: seq<SlotItem>, items: seq<ItemConfig>): (r: seq<SlotItem>)
    ensures |r| == |slots|
  {
    if items == [] then slots else PlaceOne(Place(slots, items[..|items| - 1]), items[|items| - 1])
  }

  /** Whether an item asks for slot `j`. */
  predicate WantsSlot(item: ItemConfig, j: int) {
    item.slot == IntSlot(j)
  }

  /** A slot no item asks for keeps its old content: String slots and
      out-of-range indexes are never placed. */
  lemma {:induction false} PlaceKeepsUnwanted(slots: seq<SlotItem>, items: seq<ItemConfig>, j: int)
    requires 0 <= j < |slots|
    requires forall k :: 0 <= k < |items| ==> !WantsSlot(items[k], j)
    ensures Place(slots, items)[j] == slots[j]
  {
    if items != [] {
      PlaceKeepsUnwanted(slots, items[..|items| - 1], j);
    }
  }

  /** A slot ends with the LAST item that asks for it. */
  lemma {:induction false} PlaceLastWins(slots: seq<SlotItem>, items: seq<ItemConfig>, j: int, k: int)
    requires 0 <= j < |slots| && 0 <= k < |items| && WantsSlot(items[k], j)
    requires forall l :: k < l < |items| ==> !WantsSlot(items[l], j)
    ensures Place(slots, items)[j] == Configured(items[k])
  {
    var init := items[..|items| - 1];
    if k < |items| - 1 {
      assert init[k] == items[k];
      PlaceLastWins(slots, init, j, k);
      assert !WantsSlot(items[|items| - 1], j);
    }
  }

  /** The slots of a freshly initialised dialog: the cleared anvil with the
      configured items placed, then the input paper in slot 0. */
  function InitialSlots(menu: Menu, messages: Messages.MessageFile): (r: seq<SlotItem>)
    ensures |r| == ANVIL_SIZE && r[0] == InputPaper(PlaceholderText(messages))
  {
    Place(seq(ANVIL_SIZE, _ => EmptySlot), menu.items)[0 := InputPaper(PlaceholderText(messages))]
  }

  /** `initializeGUI`: clear the inventory, place the configured items in
      iteration order, then the input placeholder. */
  method InitializeSlots(slots: array<SlotItem>, menu: Menu, messages: Messages.MessageFile)
    requires slots.Length == ANVIL_SIZE
    modifies slots
    ensures slots[..] == InitialSlots(menu, messages)
  {
    var n := 0;
    while n < slots.Length
      invariant 0 <= n <= slots.Length
      invariant forall k :: 0 <= k < n ==> slots[k] == EmptySlot
    {
      slots[n] := EmptySlot;
      n := n + 1;
    }
    assert slots[..] == seq(ANVIL_SIZE, _ => EmptySlot);
    var items := menu.items;
    var i := 0;
    while i < |items|
      invariant 0 <= i <= |items|
      invariant slots[..] == Place(seq(ANVIL_SIZE, _ => EmptySlot), items[..i])
    {
      assert items[..i + 1][..i] == items[..i];
      var item := items[i];
      if item.slot.IntSlot? {
        var index := item.slot.index;
        if 0 <= index < slots.Length {
          slots[index] := Configured(item);
        }
      }
      i := i + 1;
    }
    assert items[..i] == items;
    slots[0] := InputPaper(PlaceholderText(messages));
  }

  /** What `AuthMeApi.getInstance()` gives: no instance, or one whose two
      queries about the player answer or throw. */
  datatype Query = Answer(value: bool) | Threw
  datatype ApiView = NoApi | Api(isAuthenticated: Query, isRegistered: Query)

  /** `shouldReopenAfterClose`: a guarded player is never reopened, and the
      API is asked only for the others; a missing API or a throwing query
      means no reopen. */
  function ShouldReopenAfterClose(guards: Guards, player: Player, kind: Kind, api: ApiView): (reopen: bool)
    ensures reopen <==>
      && player.uuid !in guards.opening
      && player.uuid !in guards.authenticated
      && api.Api? && api.isAuthenticated == Answer(false)
      && (kind == Register ==> api.isRegistered == Answer(false))
  {
    if InOpening(guards, Some(player)) then false
    else if InAuthenticated(guards, Some(player)) then false
    else if api.NoApi? then false
    else match api.isAuthenticated
      case Threw => false
      case Answer(authenticated) =>
        if authenticated then false
        else if TypeName(kind) == "register" then
          match api.isRegistered
          case Threw => false
          case Answer(registered) => !registered
        else true
  }

  /** For a login dialog the registration query is never consulted. */
  lemma LoginIgnoresRegistration(guards: Guards, player: Player, auth: Query, r1: Query, r2: Query)
    ensures ShouldReopenAfterClose(guards, player, Login, Api(auth, r1))
         == ShouldReopenAfterClose(guards, player, Login, Api(auth, r2))
  {
  }

  /** The delayed task of `handleClose` reopens only a player still online
      whom the API (asked again) reports unauthenticated. */
  function DelayedReopenFires(online: bool, api: ApiView): (fires: bool)
    ensures fires ==> online && api.Api?
  {
    online && api.Api? && api.isAuthenticated == Answer(false)
  }

  /** While an open attempt has not been verified (and after an attempt
      that failed, which schedules no check), closing never reopens. */
  lemma PendingOpenNeverReopens(g: Guards, player: Player, kind: Kind, api: ApiView)
    ensures !ShouldReopenAfterClose(AddOpening(g, Some(player)), player, kind, api)
  {
  }

  /** A player marked authenticated is never reopened, until the mark is
      removed. */
  lemma AuthenticatedNeverReopens(g: Guards, player: Player, kind: Kind, api: ApiView)
    ensures !ShouldReopenAfterClose(AddAuthenticated(g, Some(player)), player, kind, api)
  {
  }

  /** One leading `|` dropped. */
  function StripBar(s: string): (r: string)
    ensures "|" <= s ==> s == "|" + r
    ensures !("|" <= s) ==> r == s
  {
    if "|" <= s then s[1..] else s
  }

  /** `executeAction`: the first matching prefix wins; `[kick]` drops 6 chars,
      `[message]` and `[command]` drop 9; then one leading `|`; `{player}` is
      filled in commands. A null, empty or unknown action does nothing. */
  function ParseAction(playerName: string, action: Option<string>): (r: Option<Effect>)
    ensures r.Some? ==> action.Some? && ("[kick]" <= action.value || "[message]" <= action.value || "[command]" <= action.value)
    ensures action.Some? && "[kick]" <= action.value ==> r.Some? && r.value.Kick?
  {
    if action.None? || action.value == [] then None
    else if "[kick]" <= action.value then Some(Kick(StripBar(action.value[6..])))
    else if "[message]" <= action.value then Some(Tell(StripBar(action.value[9..])))
    else if "[command]" <= action.value then
      Some(Dispatch(Replace(StripBar(action.value[9..]), "{player}", playerName)))
    else None
  }

  /** An effect written as an action string, in the `[tag]|text` form. */
  function RenderAction(e: Effect): string {
    match e
    case Kick(reason) => "[kick]|" + reason
    case Tell(text) => "[message]|" + text
    case Dispatch(command) => "[command]|" + command
    case Notify(key, _) => key
  }

  /** Parsing a rendered kick or message gives it back, whatever its text
      (a leading `|` of the text survives); a rendered command comes back
      with `{player}` filled in. */
  lemma ParseRenderRoundTrip(playerName: string, text: string)
    ensures ParseAction(playerName, Some(RenderAction(Kick(text)))) == Some(Kick(text))
    ensures ParseAction(playerName, Some(RenderAction(Tell(text)))) == Some(Tell(text))
    ensures ParseAction(playerName, Some(RenderAction(Dispatch(text))))
         == Some(Dispatch(Replace(text, "{player}", playerName)))
  {
    var k := "[kick]|" + text;
    assert "[kick]" <= k && k[6..] == "|" + text;
    var m := "[message]|" + text;
    assert m[1] == 'm' && !("[kick]" <= m) && "[message]" <= m && m[9..] == "|" + text;
    var c := "[command]|" + text;
    assert c[1] == 'c' && !("[kick]" <= c) && !("[message]" <= c) && "[command]" <= c && c[9..] == "|" + text;
  }

  /** Without the bar the text after the tag is taken as it is. */
  lemma ParseWithoutBar(playerName: string, text: string)
    requires !("|" <= text)
    ensures ParseAction(playerName, Some("[kick]" + text)) == Some(Kick(text))
  {
    var k := "[kick]" + text;
    assert "[kick]" <= k && k[6..] == text;
  }

  /** An action with no known tag does nothing. */
  lemma UnknownActionIgnored(playerName: string, action: string)
    requires !("[kick]" <= action) && !("[message]" <= action) && !("[command]" <= action)
    ensures ParseAction(playerName, Some(action)) == None
  {
  }

  /** The effects of an action list run in order; a null list does nothing. */
  function ActionListEffects(playerName: string, actions: seq<string>): (effects: seq<Effect>)
    ensures |effects| <= |actions|
  {
    if actions == [] then []
    else
      var last := ParseAction(playerName, Some(actions[|actions| - 1]));
      ActionListEffects(playerName, actions[..|actions| - 1]) + (if last.Some? then [last.value] else [])
  }

  /** The effects of a configured list that may be null. */
  function ActionsOf(playerName: string, actions: Option<seq<string>>): (effects: seq<Effect>)
    ensures actions.None? ==> effects == []
    ensures actions.Some? ==> |effects| <= |actions.value|
  {
    if actions.None? then [] else ActionListEffects(playerName, actions.value)
  }

  /** `executeActions`. */
  method ExecuteActions(playerName: string, actions: Option<seq<string>>) returns (effects: seq<Effect>)
    ensures effects == ActionsOf(playerName, actions)
  {
    effects := [];
    if actions.None? || actions.value == [] {
      return;
    }
    var list := actions.value;
    var i := 0;
    while i < |list|
      invariant 0 <= i <= |list|
      invariant effects == ActionListEffects(playerName, list[..i])
    {
      assert list[..i + 1][..i] == list[..i];
      var e := ParseAction(playerName, Some(list[i]));
      if e.Some? {
        effects := effects + [e.value];
      }
      i := i + 1;
    }
    assert list[..i] == list;
  }

  /** A list of rendered `[message]` actions sends exactly those messages,
      in order. */
  lemma {:induction false} RenderedListRuns(playerName: string, texts: seq<string>, actions: seq<string>)
    requires |actions| == |texts|
    requires forall i :: 0 <= i < |actions| ==> actions[i] == RenderAction(Tell(texts[i]))
    ensures |ActionListEffects(playerName, actions)| == |texts|
    ensures forall i :: 0 <= i < |texts| ==> ActionListEffects(playerName, actions)[i] == Tell(texts[i])
  {
    if actions != [] {
      var n := |actions| - 1;
      forall i | 0 <= i < n
        ensures actions[..n][i] == RenderAction(Tell(texts[..n][i]))
      {
        assert actions[..n][i] == actions[i] && texts[..n][i] == texts[i];
      }
      RenderedListRuns(playerName, texts[..n], actions[..n]);
      ParseRenderRoundTrip(playerName, texts[n]);
      var prev := ActionListEffects(playerName, actions[..n]);
      var all := ActionListEffects(playerName, actions);
      assert all == prev + [Tell(texts[n])];
      forall i | 0 <= i < |texts|
        ensures all[i] == Tell(texts[i])
      {
        if i < n {
          assert all[i] == prev[i] && texts[..n][i] == texts[i];
        }
      }
    }
  }

  /** The steps of a confirm sequence that reach the backend, the dialog or
      the authenticated guard, in the order they happen. */
  datatype Step =
    | AskRegistered               // isPlayerRegistered
    | AskPassword(password: string) // checkPassword
    | CloseDialog                 // closeGUI
    | ForceLoginCall              // forceLogin
    | RegisterCall(password: string) // registerPlayer
    | MarkAuthenticated           // addToAuthenticatedList

  /** A step's effect on the guards: closing lets the player out of the
      opening guard, marking puts them in the authenticated one. */
  function ApplyStep(g: Guards, player: Player, step: Step): Guards {
    match step
    case CloseDialog => RemoveOpening(g, Some(player))
    case MarkAuthenticated => AddAuthenticated(g, Some(player))
    case _ => g
  }

  /** The steps applied in order. */
  function ApplySteps(g: Guards, player: Player, steps: seq<Step>): Guards
    decreases |steps|
  {
    if steps == [] then g else ApplySteps(ApplyStep(g, player, steps[0]), player, steps[1..])
  }

  /** Applying one more step at the end. */
  lemma {:induction false} ApplyStepsAppend(g: Guards, player: Player, steps: seq<Step>, last: Step)
    ensures ApplySteps(g, player, steps + [last]) == ApplyStep(ApplySteps(g, player, steps), player, last)
    decreases |steps|
  {
    if steps == [] {
      assert [] + [last] == [last];
      assert [last][1..] == [];
    } else {
      assert (steps + [last])[1..] == steps[1..] + [last];
      ApplyStepsAppend(ApplyStep(g, player, steps[0]), player, steps[1..], last);
    }
  }

  /** After a sequence of steps the player is authenticated exactly when
      they were already or a step marked them; the guards of other players
      are untouched. */
  lemma {:induction false} AuthenticatedAfterSteps(g: Guards, player: Player, steps: seq<Step>)
    ensures InAuthenticated(ApplySteps(g, player, steps), Some(player))
        <==> InAuthenticated(g, Some(player)) || MarkAuthenticated in steps
    ensures ApplySteps(g, player, steps).authenticated - {player.uuid} == g.authenticated - {player.uuid}
    ensures ApplySteps(g, player, steps).opening - {player.uuid} == g.opening - {player.uuid}
    decreases |steps|
  {
    if steps != [] {
      AuthenticatedAfterSteps(ApplyStep(g, player, steps[0]), player, steps[1..]);
      assert MarkAuthenticated in steps <==> steps[0] == MarkAuthenticated || MarkAuthenticated in steps[1..];
    }
  }

  /** Whether an item is placed in slot 0 (the cancel button). */
  predicate IsCancelSlot(item: ItemConfig) {
    item.slot == IntSlot(0)
  }

  /** The first item, in iteration order, placed in slot 0. */
  function FirstCancelItem(items: seq<ItemConfig>): (r: Option<ItemConfig>)
    ensures r.Some? ==> r.value in items && IsCancelSlot(r.value)
    ensures r.None? ==> forall i :: 0 <= i < |items| ==> !IsCancelSlot(items[i])
  {
    if items == [] then None
    else if IsCancelSlot(items[0]) then Some(items[0])
    else FirstCancelItem(items[1..])
  }

  /** One dialog: its owner, type and menu never change; its slots do. */
  class AnvilGui {
    const player: Player
    const kind: Kind
    const menu: Menu
    const slots: array<SlotItem>

    constructor (player: Player, kind: Kind, menu: Menu, messages: Messages.MessageFile)
      ensures this.player == player && this.kind == kind && this.menu == menu
      ensures fresh(slots) && slots[..] == InitialSlots(menu, messages)
    {
      this.player := player;
      this.kind := kind;
      this.menu := menu;
      var s := new SlotItem[ANVIL_SIZE](_ => EmptySlot);
      InitializeSlots(s, menu, messages);
      slots := s;
    }

    /** `attemptDirectOpen`: the player enters the opening guard first, then
        the inventory is opened; `opens` says whether opening returned
        normally. Only a successful attempt schedules the check that lets the
        player out of the guard again (VerifyOpen). */
    method AttemptDirectOpen(guards: GuardSets, opens: bool) returns (success: bool)
      modifies guards
      ensures success == opens
      ensures guards.State() == AddOpening(old(guards.State()), Some(player))
    {
      guards.AddToOpeningList(Some(player));
      success := opens;
    }

    /** The check one tick after a successful attempt: the open actions run
        when the player is online with this inventory on top; the player
        leaves the opening guard in every case. */
    method VerifyOpen(guards: GuardSets, online: bool, onTop: bool) returns (effects: seq<Effect>)
      modifies guards
      ensures guards.State() == RemoveOpening(old(guards.State()), Some(player))
      ensures effects == (if online && onTop then ActionsOf(player.name, menu.openActions) else [])
    {
      effects := [];
      if online && onTop {
        effects := ExecuteActions(player.name, menu.openActions);
      }
      guards.RemoveFromOpeningList(Some(player));
    }

    /** `forceOpenGUI`: a direct attempt, then a retry after 10 ticks and a
        last one after 40 more, each retry only when the previous attempt
        failed and the player is still online. `opens[k]` is the outcome of
        attempt k and `onlineAt[k]` whether the player is online before
        retry k + 1. */
    method ForceOpenGui(guards: GuardSets, opens: seq<bool>, onlineAt: seq<bool>) returns (attempts: nat, success: bool)
      requires |opens| == 3 && |onlineAt| == 2
      modifies guards
      ensures 1 <= attempts <= 3
      ensures success <==> opens[attempts - 1]
      ensures forall k :: 0 <= k < attempts - 1 ==> !opens[k] && onlineAt[k]
      ensures !success && attempts < 3 ==> !onlineAt[attempts - 1]
      ensures guards.State() == AddOpening(old(guards.State()), Some(player))
    {
      success := AttemptDirectOpen(guards, opens[0]);
      attempts := 1;
      if !success && onlineAt[0] {
        success := AttemptDirectOpen(guards, opens[1]);
        attempts := 2;
        if !success && onlineAt[1] {
          success := AttemptDirectOpen(guards, opens[2]);
          attempts := 3;
        }
      }
    }

    /** `openGUI`: nothing for an offline player, else `forceOpenGUI`. */
    method OpenGui(guards: GuardSets, online: bool, opens: seq<bool>, onlineAt: seq<bool>) returns (attempts: nat, success: bool)
      requires |opens| == 3 && |onlineAt| == 2
      modifies guards
      ensures !online ==> attempts == 0 && !success && guards.State() == old(guards.State())
      ensures online ==> 1 <= attempts <= 3 && (success <==> opens[attempts - 1])
      ensures online ==> forall k :: 0 <= k < attempts - 1 ==> !opens[k] && onlineAt[k]
      ensures online && !success && attempts < 3 ==> !onlineAt[attempts - 1]
      ensures online ==> guards.State() == AddOpening(old(guards.State()), Some(player))
    {
      if !online {
        return 0, false;
      }
      attempts, success := ForceOpenGui(guards, opens, onlineAt);
    }

    /** `closeGUI`: the player leaves the opening guard, and the inventory is
        closed with the close actions, at once on the main thread, else in a
        task that does so only if the player is still online. */
    method CloseGui(guards: GuardSets, mainThread: bool, online: bool) returns (effects: seq<Effect>)
      modifies guards
      ensures guards.State() == RemoveOpening(old(guards.State()), Some(player))
      ensures effects == (if mainThread || online then ActionsOf(player.name, menu.closeActions) else [])
    {
      guards.RemoveFromOpeningList(Some(player));
      effects := [];
      if mainThread || online {
        effects := ExecuteActions(player.name, menu.closeActions);
      }
    }

    /** `handleClose`: the close actions run, and a delayed reopen is
        scheduled exactly when ShouldReopenAfterClose holds. */
    method HandleClose(guards: GuardSets, api: ApiView) returns (effects: seq<Effect>, reopenScheduled: bool)
      ensures effects == ActionsOf(player.name, menu.closeActions)
      ensures reopenScheduled <==> ShouldReopenAfterClose(guards.State(), player, kind, api)
    {
      effects := ExecuteActions(player.name, menu.closeActions);
      reopenScheduled := ShouldReopenAfterClose(guards.State(), player, kind, api);
    }

    /** `getCancelItem`: the first configured item placed in slot 0, null
        when there is none. */
    method GetCancelItem() returns (r: Option<ItemConfig>)
      ensures r.Some? ==> IsCancelSlot(r.value)
      ensures r.None? <==> forall k :: 0 <= k < |menu.items| ==> !IsCancelSlot(menu.items[k])
      ensures r.Some? ==>
        exists k :: 0 <= k < |menu.items| && menu.items[k] == r.value && (forall l :: 0 <= l < k ==> !IsCancelSlot(menu.items[l]))
      ensures r == FirstCancelItem(menu.items)
    {
      var items := menu.items;
      var i := 0;
      while i < |items|
        invariant 0 <= i <= |items|
        invariant forall l :: 0 <= l < i ==> !IsCancelSlot(items[l])
        invariant FirstCancelItem(items[i..]) == FirstCancelItem(items)
      {
        assert items[i..][1..] == items[i + 1..];
        var slot := items[i].slot;
        if slot.IntSlot? && slot.index == 0 {
          return Some(items[i]);
        }
        i := i + 1;
      }
      assert items[i..] == [];
      return None;
    }

    /** `initializeGUI` on the dialog's own inventory. */
    method InitializeGui(messages: Messages.MessageFile)
      requires slots.Length == ANVIL_SIZE
      modifies slots
      ensures slots[..] == InitialSlots(menu, messages)
    {
      InitializeSlots(slots, menu, messages);
    }
  }
}
