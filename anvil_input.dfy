/**
 * The per-player password buffers of the anvil dialog (AnvilInputUtil): a
 * display map (what the dialog may show) and a passwords map (the plaintext), both
 * keyed by player NAME. A rename snapshot is reconciled into them from two
 * facts only: the length difference and whether the snapshot is all `*`.
 */
module AnvilInput {
  import opened Wrappers
  import opened Strings

  /** The two maps, as one value. */
  datatype Buffers = Buffers(display: map<string, string>, passwords: map<string, string>)

  const Empty := Buffers(map[], map[])

  /** What every reachable pair of maps satisfies: a password entry always has a
      display entry at least as long, and no stored value is empty. The two
      maps may still disagree (a display entry with no password entry, a display
      longer than the password). */
  ghost predicate Consistent(b: Buffers) {
    && b.passwords.Keys <= b.display.Keys
    && (forall n :: n in b.passwords ==> 0 < |b.passwords[n]| <= |b.display[n]|)
    && (forall n :: n in b.display ==> |b.display[n]| > 0)
  }

  /** Both entries of `name` removed. */
  function Drop(b: Buffers, name: string): (r: Buffers)
    ensures name !in r.display && name !in r.passwords
  {
    Buffers(b.display - {name}, b.passwords - {name})
  }

  /** `setPlayerInput(name, input)` with the plaintext flag read from config;
      `None` is a null input. */
  function SetInput(b: Buffers, name: string, input: Option<string>, plaintext: bool): (r: Buffers)
    ensures r.display - {name} == b.display - {name}
    ensures r.passwords - {name} == b.passwords - {name}
  {
    if input.None? || IsBlank(input.value) then Drop(b, name)
    else
      var clean := Without(input.value, ' ');
      if plaintext then Buffers(b.display[name := clean], b.passwords[name := clean])
      else
        var current := if name in b.passwords then b.passwords[name] else "";
        if AllStars(clean) then
          if |clean| < |current| then
            var newReal := current[..|clean|];
            if newReal == "" then Drop(b, name)
            else Buffers(b.display[name := Stars(|newReal|)], b.passwords[name := newReal])
          else
            Buffers(b.display[name := clean], b.passwords)
        else if |clean| < |current| then
          Buffers(b.display[name := Stars(|clean|)], b.passwords[name := clean])
        else if |clean| > |current| then
          var newReal := current + clean[|current|..];
          Buffers(b.display[name := Stars(|newReal|)], b.passwords[name := newReal])
        else
          Buffers(b.display[name := Stars(|clean|)], b.passwords[name := clean])
  }

  /** The snapshot as the reconciliation sees it: spaces removed. It is never
      empty once the snapshot is not blank. */
  lemma CleanIsNotBlank(input: string)
    requires !IsBlank(input)
    ensures !IsBlank(Without(input, ' ')) && Without(input, ' ') != []
  {
    WithoutKeepsNonBlank(input, ' ');
  }

  /** Every reconciliation step keeps the maps consistent, in either mode. */
  lemma SetInputKeepsConsistent(b: Buffers, name: string, input: Option<string>, plaintext: bool)
    requires Consistent(b)
    ensures Consistent(SetInput(b, name, input, plaintext))
  {
    if input.Some? && !IsBlank(input.value) {
      var clean := Without(input.value, ' ');
      CleanIsNotBlank(input.value);
      var current := if name in b.passwords then b.passwords[name] else "";
      if plaintext {
        UpdateKeepsConsistent(b, name, clean, Some(clean));
      } else if AllStars(clean) {
        if |clean| < |current| {
          var newReal := current[..|clean|];
          if newReal != "" {
            UpdateKeepsConsistent(b, name, Stars(|newReal|), Some(newReal));
          }
        } else {
          UpdateKeepsConsistent(b, name, clean, None);
        }
      } else if |clean| > |current| {
        var newReal := current + clean[|current|..];
        UpdateKeepsConsistent(b, name, Stars(|newReal|), Some(newReal));
      } else {
        UpdateKeepsConsistent(b, name, Stars(|clean|), Some(clean));
      }
    }
  }

  /** Writing a non-empty display entry, and a password entry no longer
      than it (or keeping one that is no longer), keeps the maps
      consistent. */
  lemma UpdateKeepsConsistent(b: Buffers, name: string, shown: string, password: Option<string>)
    requires Consistent(b) && |shown| > 0
    requires password.Some? ==> 0 < |password.value| <= |shown|
    requires password.None? && name in b.passwords ==> |b.passwords[name]| <= |shown|
    ensures Consistent(Buffers(b.display[name := shown],
                               if password.Some? then b.passwords[name := password.value] else b.passwords))
  {
  }

  /** A null or blank snapshot removes both entries. */
  lemma BlankInputRemoves(b: Buffers, name: string, input: Option<string>, plaintext: bool)
    requires input.None? || IsBlank(input.value)
    ensures var r := SetInput(b, name, input, plaintext);
      name !in r.display && name !in r.passwords
  {
  }

  /** Plaintext mode: both entries become the snapshot without its spaces. */
  lemma PlaintextMirrors(b: Buffers, name: string, input: string)
    requires !IsBlank(input)
    ensures var r := SetInput(b, name, Some(input), true);
      && r.passwords[name] == r.display[name] == Without(input, ' ')
      && !IsBlank(r.passwords[name])
  {
    CleanIsNotBlank(input);
  }

  /** Masked mode, a star snapshot shorter than the buffered password: the
      password is cut to that length and shown as that many stars; the
      branch that would empty the buffer never fires. */
  lemma MaskedStarsTruncate(b: Buffers, name: string, input: string)
    requires !IsBlank(input) && AllStars(Without(input, ' '))
    requires name in b.passwords && |Without(input, ' ')| < |b.passwords[name]|
    ensures var n := |Without(input, ' ')|; var r := SetInput(b, name, Some(input), false);
      && 0 < n
      && name in r.passwords && r.passwords[name] == b.passwords[name][..n]
      && r.display[name] == Stars(n)
  {
    CleanIsNotBlank(input);
  }

  /** Masked mode, a star snapshot at least as long as the buffer: the password
      entry is left as it is (possibly absent) and the display becomes the raw
      star string, so the two lengths may differ. */
  lemma MaskedStarsKeep(b: Buffers, name: string, input: string)
    requires !IsBlank(input) && AllStars(Without(input, ' '))
    requires name in b.passwords ==> |Without(input, ' ')| >= |b.passwords[name]|
    ensures var r := SetInput(b, name, Some(input), false);
      && r.passwords == b.passwords
      && r.display[name] == Without(input, ' ')
  {
  }

  /** The maps diverge: from empty buffers, the masked snapshot `**` leaves a
      display entry with no password entry behind it. */
  lemma {:induction false} DisplayWithoutReal()
    ensures var r := SetInput(Empty, "Steve", Some("**"), false);
      "Steve" in r.display && "Steve" !in r.passwords && r.display["Steve"] == "**"
  {
    var s := "**";
    assert Without(s[1..], ' ') == "*";
    assert Without(s, ' ') == "**";
    assert AllStars("**");
  }

  /** Masked mode, a literal snapshot longer than the buffer (length m): the
      chars after position m are appended and the display is all stars. */
  lemma MaskedLiteralAppends(b: Buffers, name: string, input: string)
    requires !IsBlank(input) && !AllStars(Without(input, ' '))
    requires |Without(input, ' ')| > (if name in b.passwords then |b.passwords[name]| else 0)
    ensures var clean := Without(input, ' ');
      var current := if name in b.passwords then b.passwords[name] else "";
      var r := SetInput(b, name, Some(input), false);
      && r.passwords[name] == current + clean[|current|..]
      && r.display[name] == Stars(|clean|)
  {
  }

  /** Masked mode, a literal snapshot no longer than the buffer: it replaces
      the password outright. */
  lemma MaskedLiteralReplaces(b: Buffers, name: string, input: string)
    requires !IsBlank(input) && !AllStars(Without(input, ' '))
    requires |Without(input, ' ')| <= (if name in b.passwords then |b.passwords[name]| else 0)
    ensures var clean := Without(input, ' '); var r := SetInput(b, name, Some(input), false);
      r.passwords[name] == clean && r.display[name] == Stars(|clean|)
  {
  }

  /** In masked mode whatever is shown is stars only. */
  lemma MaskedShowsOnlyStars(b: Buffers, name: string, input: Option<string>)
    ensures var r := SetInput(b, name, input, false);
      name in r.display ==> forall i :: 0 <= i < |r.display[name]| ==> r.display[name][i] == '*'
  {
  }

  /** The snapshots a masked dialog reports while a password is typed: the
      stars shown for what is already typed, then the new literal char. */
  function TypedMasked(b: Buffers, name: string, p: string, k: nat): Buffers
    requires k <= |p|
  {
    if k == 0 then b
    else SetInput(TypedMasked(b, name, p, k - 1), name, Some(Stars(k - 1) + [p[k - 1]]), false)
  }

  /** One masked keystroke: the stars already shown for the m buffered chars
      followed by a literal char that is neither blank nor `*` append that
      char. */
  lemma MaskedKeystrokeAppends(b: Buffers, name: string, current: string, c: char)
    requires current == (if name in b.passwords then b.passwords[name] else "")
    requires c > ' ' && c != '*'
    ensures var r := SetInput(b, name, Some(Stars(|current|) + [c]), false);
      && name in r.passwords && r.passwords[name] == current + [c]
      && r.display[name] == Stars(|current| + 1)
  {
    var snap := Stars(|current|) + [c];
    assert snap[|current|] == c;
    assert !IsBlank(snap);
    WithoutAbsent(snap, ' ');
    assert !AllStars(snap);
    assert snap[|current|..] == [c];
  }

  /** MaskedKeystrokeAppends, for a result already named. */
  lemma KeystrokeResult(b: Buffers, name: string, current: string, c: char, r: Buffers)
    requires current == (if name in b.passwords then b.passwords[name] else "")
    requires c > ' ' && c != '*'
    requires r == SetInput(b, name, Some(Stars(|current|) + [c]), false)
    ensures name in r.passwords && r.passwords[name] == current + [c] && r.display[name] == Stars(|current| + 1)
  {
    MaskedKeystrokeAppends(b, name, current, c);
  }

  /** Typing a password char by char in masked mode rebuilds it exactly, as
      long as no typed char is a space, another blank char or a `*`. */
  lemma {:induction false} TypingMaskedRebuilds(b: Buffers, name: string, p: string, k: nat)
    requires name !in b.passwords
    requires k <= |p|
    requires forall i :: 0 <= i < |p| ==> p[i] > ' ' && p[i] != '*'
    ensures var r := TypedMasked(b, name, p, k);
      (k == 0 ==> name !in r.passwords)
      && (k > 0 ==> name in r.passwords && r.passwords[name] == p[..k] && r.display[name] == Stars(k))
  {
    if k > 0 {
      TypingMaskedRebuilds(b, name, p, k - 1);
      var prev := TypedMasked(b, name, p, k - 1);
      var current := p[..k - 1];
      assert current == (if name in prev.passwords then prev.passwords[name] else "") by {
        if k - 1 == 0 {
          assert current == "";
        }
      }
      assert current + [p[k - 1]] == p[..k];
      KeystrokeResult(prev, name, current, p[k - 1], TypedMasked(b, name, p, k));
    }
  }

  /** The static maps as an object. */
  class InputStore {
    var display: map<string, string>
    var passwords: map<string, string>

    function State(): Buffers
      reads this
    {
      Buffers(display, passwords)
    }

    constructor ()
      ensures State() == Empty
    {
      display, passwords := map[], map[];
    }

    /** `setPlayerInput`: the put/remove sequence of each branch. */
    method SetPlayerInput(name: string, input: Option<string>, plaintext: bool)
      modifies this
      ensures State() == SetInput(old(State()), name, input, plaintext)
      ensures Consistent(old(State())) ==> Consistent(State())
    {
      if Consistent(State()) {
        SetInputKeepsConsistent(State(), name, input, plaintext);
      }
      if input.None? || IsBlank(input.value) {
        display := display - {name};
        passwords := passwords - {name};
        return;
      }
      var cleanInput := Without(input.value, ' ');
      if plaintext {
        passwords := passwords[name := cleanInput];
        display := display[name := cleanInput];
      } else {
        var currentRealPassword := if name in passwords then passwords[name] else "";
        if AllStars(cleanInput) {
          if |cleanInput| < |currentRealPassword| {
            var newRealPassword := currentRealPassword[..|cleanInput|];
            if newRealPassword == "" {
              passwords := passwords - {name};
              display := display - {name};
            } else {
              passwords := passwords[name := newRealPassword];
              display := display[name := Stars(|newRealPassword|)];
            }
          } else {
            display := display[name := cleanInput];
          }
        } else {
          if |cleanInput| < |currentRealPassword| {
            passwords := passwords[name := cleanInput];
            display := display[name := Stars(|cleanInput|)];
          } else if |cleanInput| > |currentRealPassword| {
            var newChars := cleanInput[|currentRealPassword|..];
            var newRealPassword := currentRealPassword + newChars;
            passwords := passwords[name := newRealPassword];
            display := display[name := Stars(|newRealPassword|)];
          } else {
            passwords := passwords[name := cleanInput];
            display := display[name := Stars(|cleanInput|)];
          }
        }
      }
    }

    /** `getPlayerInput`: the display value, null when absent. */
    function GetPlayerInput(name: string): (r: Option<string>)
      reads this
      ensures r.Some? <==> name in display
      ensures r.Some? ==> r.value == display[name]
    {
      if name in display then Some(display[name]) else None
    }

    /** `getRealPassword`: the plaintext, null when absent. */
    function GetRealPassword(name: string): (r: Option<string>)
      reads this
      ensures r.Some? <==> name in passwords
      ensures r.Some? ==> r.value == passwords[name]
    {
      if name in passwords then Some(passwords[name]) else None
    }

    /** `hasInput`: a passwords entry that is not blank. */
    predicate HasInput(name: string)
      reads this
      ensures HasInput(name) ==> name in passwords && |passwords[name]| > 0
    {
      name in passwords && !IsBlank(passwords[name])
    }

    /** `getPasswordLength`: the passwords entry's length, 0 without one. */
    function GetPasswordLength(name: string): (r: nat)
      reads this
      ensures r > 0 <==> name in passwords && passwords[name] != []
      ensures HasInput(name) ==> r > 0
    {
      if name in passwords then |passwords[name]| else 0
    }

    /** `removePlayerInput`. */
    method RemovePlayerInput(name: string)
      modifies this
      ensures State() == Drop(old(State()), name)
      ensures Consistent(old(State())) ==> Consistent(State())
    {
      display := display - {name};
      passwords := passwords - {name};
    }

    /** `forceRemovePlayerInput`: the same removal under another name. */
    method ForceRemovePlayerInput(name: string)
      modifies this
      ensures State() == Drop(old(State()), name)
      ensures Consistent(old(State())) ==> Consistent(State())
    {
      RemovePlayerInput(name);
    }

    /** `clearAll`. */
    method ClearAll()
      modifies this
      ensures State() == Empty && Consistent(State())
    {
      display := map[];
      passwords := map[];
    }
  }
}
