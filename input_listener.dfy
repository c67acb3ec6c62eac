/**
 * AnvilInputListener: what a rename packet from an anvil dialog does. The
 * snapshot is stripped of spaces, prompt-like snapshots clear the player's
 * buffers, and the rest are reconciled into them by AnvilInput.SetInput; the
 * result slot then shows either the confirm text or the placeholder message.
 */
module InputListener {
  import opened Wrappers
  import opened Strings
  import opened Host
  import opened AnvilInput
  import opened Gui
  import Messages

  /** The text the result slot shows once something is typed. */
  const CONFIRM_TEXT := "确认密码"

  /** The snapshot as the prompt test compares it: lower-cased, with every
      `.` and `…` removed. */
  function Normalized(s: string): string {
    Without(Without(Lower(s), '.'), '…')
  }

  /** `isPlaceholderText`: a null or blank snapshot, one that reads like a
      prompt, or a lone `*` (what is left when all but one char is deleted). */
  predicate IsPlaceholderText(input: Option<string>)
    ensures input.None? ==> IsPlaceholderText(input)
    ensures input.Some? && Contains(Normalized(input.value), "password") ==> IsPlaceholderText(input)
    ensures input.Some? && Normalized(input.value) == "*" ==> IsPlaceholderText(input)
  {
    if input.None? || IsBlank(input.value) then true
    else
      var c := Normalized(input.value);
      var isPlaceholder := Contains(c, "请输入密码") || Contains(c, "输入密码") || Contains(c, "password")
        || Contains(c, "请输入") || c == "请输入密码";
      if !isPlaceholder && c == "*" then true else isPlaceholder
  }

  /** A text holding a pattern holds every prefix of it. */
  lemma {:induction false} ContainsPrefix(s: string, p: string, q: string)
    requires q <= p && Contains(s, p)
    ensures Contains(s, q)
  {
    if !(p <= s) {
      ContainsPrefix(s[1..], p, q);
    }
  }

  /** The three cases: blank, a prompt word (`请输入`, `输入密码` or
      `password`, in any ASCII case, ignoring dots), or a lone star. */
  lemma PlaceholderCases(s: string)
    ensures IsPlaceholderText(Some(s)) <==>
      var c := Normalized(s);
      IsBlank(s) || Contains(c, "请输入") || Contains(c, "输入密码") || Contains(c, "password") || c == "*"
  {
    var c := Normalized(s);
    if Contains(c, "请输入密码") {
      ContainsPrefix(c, "请输入密码", "请输入");
    }
    if c == "请输入密码" {
      assert "请输入" <= c;
    }
  }

  /** A snapshot that is a lone star is a placeholder, so the listener's
      special branch for a lone star in masked mode can never run. */
  lemma LoneStarBranchDead(s: string)
    requires Without(s, ' ') == "*"
    ensures IsPlaceholderText(Some(Without(s, ' ')))
  {
    var star := "*";
    assert Lower(star) == star;
    WithoutAbsent(star, '.');
    WithoutAbsent(star, '…');
    assert Normalized(star) == star;
  }

  /** The buffers after a rename packet from the dialog's owner: nothing for a
      null name, a removal for a placeholder, else the reconciliation. */
  function NameItem(b: Buffers, name: string, itemName: Option<string>, plaintext: bool): (r: Buffers)
    ensures r.display - {name} == b.display - {name}
    ensures r.passwords - {name} == b.passwords - {name}
  {
    if itemName.None? then b
    else
      var clean := Without(itemName.value, ' ');
      if IsPlaceholderText(Some(clean)) then Drop(b, name)
      else SetInput(b, name, Some(clean), plaintext)
  }

  /** A placeholder snapshot removes both entries, in either mode and
      whatever was buffered. */
  lemma PlaceholderClears(b: Buffers, name: string, itemName: string, plaintext: bool)
    requires IsPlaceholderText(Some(Without(itemName, ' ')))
    ensures var r := NameItem(b, name, Some(itemName), plaintext);
      name !in r.display && name !in r.passwords
  {
  }

  /** Any other snapshot is reconciled as it is: removing its spaces a second
      time changes nothing. */
  lemma OtherSnapshotsReconciled(b: Buffers, name: string, itemName: string, plaintext: bool)
    requires !IsPlaceholderText(Some(Without(itemName, ' ')))
    ensures NameItem(b, name, Some(itemName), plaintext) == SetInput(b, name, Some(itemName), plaintext)
  {
    var clean := Without(itemName, ' ');
    WithoutAbsent(clean, ' ');
    assert !IsBlank(clean);
    SameCleanSameInput(b, name, clean, itemName, plaintext);
  }

  /** The reconciliation only looks at the snapshot without its spaces. */
  lemma SameCleanSameInput(b: Buffers, name: string, x: string, y: string, plaintext: bool)
    requires !IsBlank(x) && !IsBlank(y) && Without(x, ' ') == Without(y, ' ')
    ensures SetInput(b, name, Some(x), plaintext) == SetInput(b, name, Some(y), plaintext)
  {
  }

  /** Lower-casing and dropping dots and ellipses keeps the word
      `password` inside a text. */
  lemma NormalizedKeepsWord(before: string, after: string)
    ensures Contains(Normalized(before + "password" + after), "password")
  {
    var low := Lower(before + "password" + after);
    assert low == Lower(before) + "password" + Lower(after);
    WithoutSplits(Lower(before), "password", Lower(after), '.');
    WithoutSplits(Without(Lower(before), '.'), "password", Without(Lower(after), '.'), '…');
    ContainsInfix(Without(Without(Lower(before), '.'), '…'), "password", Without(Without(Lower(after), '.'), '…'));
  }

  /** A space-free snapshot holding `password` is taken for the prompt. */
  lemma PasswordWordIsPrompt(before: string, after: string)
    requires forall i :: 0 <= i < |before| ==> before[i] != ' '
    requires forall i :: 0 <= i < |after| ==> after[i] != ' '
    ensures IsPlaceholderText(Some(Without(before + "password" + after, ' ')))
  {
    var s := before + "password" + after;
    SpaceFreeAround(before, after);
    assert s[|before|] == 'p';
    NormalizedKeepsWord(before, after);
    SpaceFreePrompt(s);
  }

  /** Space-free parts around `password` make a space-free text. */
  lemma SpaceFreeAround(before: string, after: string)
    requires forall i :: 0 <= i < |before| ==> before[i] != ' '
    requires forall i :: 0 <= i < |after| ==> after[i] != ' '
    ensures forall i :: 0 <= i < |before + "password" + after| ==> (before + "password" + after)[i] != ' '
  {
  }

  /** A space-free, non-blank snapshot whose normalized form holds
      `password` is a prompt. */
  lemma SpaceFreePrompt(s: string)
    requires forall i :: 0 <= i < |s| ==> s[i] != ' '
    requires !IsBlank(s) && Contains(Normalized(s), "password")
    ensures IsPlaceholderText(Some(Without(s, ' ')))
  {
    WithoutAbsent(s, ' ');
  }

  /** In plaintext mode a password that contains `password` can never be
      entered: the snapshot is taken for the prompt and the buffer cleared. */
  lemma PasswordWordClears(b: Buffers, name: string, before: string, after: string)
    requires forall i :: 0 <= i < |before| ==> before[i] != ' '
    requires forall i :: 0 <= i < |after| ==> after[i] != ' '
    ensures var r := NameItem(b, name, Some(before + "password" + after), true);
      name !in r.display && name !in r.passwords
  {
    PasswordWordIsPrompt(before, after);
    PlaceholderClears(b, name, before + "password" + after, true);
  }

  /** Filtering a concatenation filters each part. */
  lemma {:induction false} WithoutConcat(a: string, b: string, c: char)
    ensures Without(a + b, c) == Without(a, c) + Without(b, c)
  {
    if a != [] {
      assert (a + b)[1..] == a[1..] + b;
      WithoutConcat(a[1..], b, c);
    } else {
      assert a + b == b;
    }
  }

  /** Filtering a text around a middle part that has no such char. */
  lemma WithoutSplits(a: string, m: string, b: string, c: char)
    requires forall i :: 0 <= i < |m| ==> m[i] != c
    ensures Without(a + m + b, c) == Without(a, c) + m + Without(b, c)
  {
    WithoutConcat(a + m, b, c);
    WithoutConcat(a, m, c);
    WithoutAbsent(m, c);
  }

  /** A text contains whatever sits inside it. */
  lemma {:induction false} ContainsInfix(a: string, m: string, b: string)
    ensures Contains(a + m + b, m)
  {
    if a == [] {
      assert a + m + b == m + b;
      assert m <= m + b;
    } else {
      assert (a + m + b)[1..] == a[1..] + m + b;
      ContainsInfix(a[1..], m, b);
    }
  }

  /** Every char but the last is a star. */
  predicate StarsButLast(s: string) {
    forall i :: 0 <= i < |s| - 1 ==> s[i] == '*'
  }

  /** Such a text holds no pattern of two or more chars that starts with
      something other than a star. */
  lemma {:induction false} StarsButLastHoldsNoWord(s: string, p: string)
    requires StarsButLast(s) && |p| >= 2 && p[0] != '*'
    ensures !Contains(s, p)
  {
    if |s| > 0 {
      assert StarsButLast(s[1..]) by {
        forall i | 0 <= i < |s[1..]| - 1 ensures s[1..][i] == '*' {
          assert s[1..][i] == s[i + 1];
        }
      }
      StarsButLastHoldsNoWord(s[1..], p);
    }
  }

  /** The snapshot a masked dialog reports for the (n+1)-th typed char is not
      a placeholder, unless that char is blank, a star, `.` or `…`. */
  lemma MaskedSnapshotNotPlaceholder(n: nat, c: char)
    requires c > ' ' && c != '*' && c != '.' && c != '…'
    ensures !IsPlaceholderText(Some(Stars(n) + [c]))
  {
    var snap := Stars(n) + [c];
    var t := Stars(n) + [LowerChar(c)];
    assert Lower(snap) == t;
    WithoutAbsent(t, '.');
    WithoutAbsent(t, '…');
    assert Normalized(snap) == t;
    assert StarsButLast(t);
    StarsButLastHoldsNoWord(t, "请输入密码");
    StarsButLastHoldsNoWord(t, "输入密码");
    StarsButLastHoldsNoWord(t, "password");
    StarsButLastHoldsNoWord(t, "请输入");
    assert t[n] != '*';
    assert snap[n] == c;
  }

  /** The buffers after each of the first k snapshots a masked dialog reports
      while `p` is typed. */
  function TypedThroughListener(b: Buffers, name: string, p: string, k: nat): Buffers
    requires k <= |p|
  {
    if k == 0 then b
    else NameItem(TypedThroughListener(b, name, p, k - 1), name, Some(Stars(k - 1) + [p[k - 1]]), false)
  }

  /** Through the listener, typing a password in masked mode rebuilds it
      exactly, as long as no typed char is blank, a star, `.` or `…`. */
  lemma {:induction false} TypingThroughListenerRebuilds(b: Buffers, name: string, p: string, k: nat)
    requires name !in b.passwords
    requires k <= |p|
    requires forall i :: 0 <= i < |p| ==> p[i] > ' ' && p[i] != '*' && p[i] != '.' && p[i] != '…'
    ensures TypedThroughListener(b, name, p, k) == TypedMasked(b, name, p, k)
    ensures var r := TypedThroughListener(b, name, p, k);
      k > 0 ==> name in r.passwords && r.passwords[name] == p[..k] && r.display[name] == Stars(k)
  {
    if k > 0 {
      TypingThroughListenerRebuilds(b, name, p, k - 1);
      var prev := TypedThroughListener(b, name, p, k - 1);
      ListenerKeystroke(prev, name, k - 1, p[k - 1]);
      assert TypedThroughListener(b, name, p, k) == SetInput(prev, name, Some(Stars(k - 1) + [p[k - 1]]), false);
    }
    TypingMaskedRebuilds(b, name, p, k);
  }

  /** One masked keystroke reaches the buffers unchanged through the
      listener. */
  lemma ListenerKeystroke(b: Buffers, name: string, n: nat, c: char)
    requires c > ' ' && c != '*' && c != '.' && c != '…'
    ensures NameItem(b, name, Some(Stars(n) + [c]), false) == SetInput(b, name, Some(Stars(n) + [c]), false)
  {
    var snap := Stars(n) + [c];
    MaskedSnapshotNotPlaceholder(n, c);
    WithoutAbsent(snap, ' ');
    OtherSnapshotsReconciled(b, name, snap, false);
  }

  /** In masked mode, a `.` typed as the second char wipes the buffer: the
      snapshot `*.` loses its dot and reads as a lone star. */
  lemma DotAsSecondCharClears(b: Buffers, name: string)
    ensures var r := NameItem(b, name, Some("*."), false);
      name !in r.display && name !in r.passwords
  {
    var snap := "*.";
    WithoutAbsent(snap, ' ');
    assert Lower(snap) == snap;
    assert Without(snap, '.') == "*" by {
      assert snap[1..] == ".";
      assert Without(snap[1..], '.') == [];
    }
    WithoutAbsent("*", '…');
    assert Normalized(snap) == "*";
  }

  /** What the result slot shows for a display value: the confirm text once
      it is not blank, else the placeholder message (without the built-in
      default the input slot uses). */
  function ResultText(display: Option<string>, messages: Messages.MessageFile): (t: string)
    ensures display.Some? && !IsBlank(display.value) ==> t == CONFIRM_TEXT
    ensures display.None? || IsBlank(display.value) ==> t == Messages.GetMessage(messages, PLACEHOLDER_KEY, None, [])
  {
    if display.Some? && !IsBlank(display.value) then CONFIRM_TEXT
    else Messages.GetMessage(messages, PLACEHOLDER_KEY, None, [])
  }

  /** What the delayed refresh writes in the input slot: the masked text once
      it is not blank, else the placeholder message. */
  function MaskText(masked: Option<string>, messages: Messages.MessageFile): string {
    if masked.Some? && !IsBlank(masked.value) then masked.value
    else Messages.GetMessage(messages, PLACEHOLDER_KEY, None, [])
  }

  /** The display entry of a player, null when absent. */
  function DisplayOf(b: Buffers, name: string): Option<string> {
    if name in b.display then Some(b.display[name]) else None
  }

  /** After a masked snapshot the result slot confirms exactly when the
      snapshot was reconciled into a display entry: a placeholder leaves the
      placeholder message, whatever the message file says as long as that
      message is not the confirm text itself. */
  lemma ResultConfirmsIffStored(b: Buffers, name: string, itemName: string, messages: Messages.MessageFile)
    requires Consistent(b)
    requires Messages.GetMessage(messages, PLACEHOLDER_KEY, None, []) != CONFIRM_TEXT
    ensures var r := NameItem(b, name, Some(itemName), false);
      (ResultText(DisplayOf(r, name), messages) == CONFIRM_TEXT) <==> name in r.display
  {
    var r := NameItem(b, name, Some(itemName), false);
    var clean := Without(itemName, ' ');
    if !IsPlaceholderText(Some(clean)) {
      SetInputKeepsConsistent(b, name, Some(clean), false);
      if name in r.display {
        assert |r.display[name]| > 0;
        MaskedShowsOnlyStars(b, name, Some(clean));
        assert r.display[name][0] == '*';
      }
    }
  }

  /** Without a message file the placeholder message is never the confirm
      text, so the result slot confirms exactly when input was stored. */
  lemma ResultConfirmsWithoutMessages(b: Buffers, name: string, itemName: string)
    requires Consistent(b)
    ensures var r := NameItem(b, name, Some(itemName), false);
      (ResultText(DisplayOf(r, name), None) == CONFIRM_TEXT) <==> name in r.display
  {
    assert Messages.GetMessage(None, PLACEHOLDER_KEY, None, []) == Messages.NOT_LOADED;
    assert Messages.NOT_LOADED[0] != CONFIRM_TEXT[0];
    ResultConfirmsIffStored(b, name, itemName, None);
  }

  /** `handleNameItem`: `holder` is the dialog on top of the player's
      inventory (None when the top inventory is no dialog). Only the dialog's
      owner with a non-null item name is handled; then the buffers follow
      NameItem and the result slot shows ResultText of the new display entry.
      In masked mode a reconciled snapshot also schedules a refresh of the
      input slot with that display entry, returned in `refresh`. */
  method HandleNameItem(store: InputStore, holder: Option<AnvilGui>, player: Player, itemName: Option<string>,
                        plaintext: bool, messages: Messages.MessageFile)
    returns (refresh: Option<Option<string>>)
    requires holder.Some? ==> holder.value.slots.Length == ANVIL_SIZE
    modifies store, if holder.Some? then {holder.value.slots} else {}
    ensures var handled := holder.Some? && holder.value.player == player && itemName.Some?;
      && (!handled ==> store.State() == old(store.State()) && refresh.None?)
      && (handled ==> store.State() == NameItem(old(store.State()), player.name, itemName, plaintext))
      && (handled ==>
            holder.value.slots[..]
            == old(holder.value.slots[..])[2 := ResultPane(ResultText(DisplayOf(store.State(), player.name), messages))])
      && (!handled && holder.Some? ==> holder.value.slots[..] == old(holder.value.slots[..]))
      && (refresh.Some? <==> handled && !plaintext && !IsPlaceholderText(Some(Without(itemName.value, ' '))))
      && (refresh.Some? ==> refresh.value == DisplayOf(store.State(), player.name))
  {
    refresh := None;
    if holder.None? {
      return;
    }
    var gui := holder.value;
    if gui.player != player || itemName.None? {
      return;
    }
    var cleanInput := Without(itemName.value, ' ');
    if cleanInput == "*" {
      LoneStarBranchDead(itemName.value);
    }
    var hasInput := store.HasInput(player.name);
    if !IsPlaceholderText(Some(cleanInput)) {
      var showPlaintext := plaintext;
      if !showPlaintext && cleanInput == "*" && !hasInput {
        assert false;
      }
      store.SetPlayerInput(player.name, Some(cleanInput), showPlaintext);
      var displayPassword := store.GetPlayerInput(player.name);
      gui.slots[2] := ResultPane(ResultText(displayPassword, messages));
      if !showPlaintext {
        refresh := Some(displayPassword);
      }
    } else {
      store.ForceRemovePlayerInput(player.name);
      gui.slots[2] := ResultPane(ResultText(Some(""), messages));
    }
  }

  /** The refresh task one tick later: when the player is online with the
      dialog on top, the input slot shows the masked text captured at
      scheduling time (or the placeholder message). */
  method RefreshInputSlot(gui: AnvilGui, masked: Option<string>, onlineOnTop: bool, messages: Messages.MessageFile)
    requires gui.slots.Length == ANVIL_SIZE
    modifies gui.slots
    ensures onlineOnTop ==> gui.slots[..] == old(gui.slots[..])[0 := InputPaper(MaskText(masked, messages))]
    ensures !onlineOnTop ==> gui.slots[..] == old(gui.slots[..])
  {
    if onlineOnTop {
      gui.slots[0] := InputPaper(MaskText(masked, messages));
    }
  }

  /** The masked refresh never shows a password character: after a masked
      snapshot the input slot gets the placeholder message or the player's
      display entry, which is only stars; with the buffers consistent, a
      player who has a password gets the stars, at least one per password
      character. */
  lemma MaskedRefreshShowsOnlyStars(b: Buffers, name: string, itemName: string, messages: Messages.MessageFile)
    ensures var r := NameItem(b, name, Some(itemName), false);
      var t := MaskText(DisplayOf(r, name), messages);
      || t == Messages.GetMessage(messages, PLACEHOLDER_KEY, None, [])
      || (name in r.display && t == r.display[name] && forall i :: 0 <= i < |t| ==> t[i] == '*')
    ensures var r := NameItem(b, name, Some(itemName), false);
      var t := MaskText(DisplayOf(r, name), messages);
      Consistent(b) && name in r.passwords ==>
        && t == r.display[name] && |r.passwords[name]| <= |t|
        && forall i :: 0 <= i < |t| ==> t[i] == '*'
  {
    var r := NameItem(b, name, Some(itemName), false);
    var clean := Without(itemName, ' ');
    if !IsPlaceholderText(Some(clean)) {
      MaskedShowsOnlyStars(b, name, Some(clean));
      if Consistent(b) && name in r.passwords {
        SetInputKeepsConsistent(b, name, Some(clean), false);
        assert r.display[name][0] == '*';
      }
    }
  }

  /** `isPlaintextPasswordEnabled`: the `security.show-password-plaintext`
      setting, false when it is missing or cannot be read. */
  function PlaintextEnabled(setting: Option<bool>): (enabled: bool)
    ensures enabled <==> setting == Some(true)
  {
    setting.GetOr(false)
  }
}
