/**
 * MessageManager: message lookup with its two fallback texts, `{key}`
 * placeholder substitution, the placeholder-map builders and the guard of
 * `sendMessage`. Colour-code translation is not modelled, so a formatted
 * message is the text before `&` codes are translated.
 */
module Messages {
  import opened Wrappers
  import opened Strings
  import opened Host

  /** The message file: None when it failed to load, else key to text. */
  type MessageFile = Option<map<string, string>>

  const NOT_LOADED := "消息配置未加载"
  const NOT_FOUND_PREFIX := "未找到消息: "

  /** The token `{key}` that a placeholder replaces. */
  function Token(key: string): (t: string)
    ensures |t| == |key| + 2 && t[0] == '{'
  {
    "{" + key + "}"
  }

  /** The placeholders applied one after the other, in `order`. */
  function Substitute(message: string, placeholders: map<string, string>, order: seq<string>): string
    requires forall k :: k in order ==> k in placeholders
    decreases |order|
  {
    if order == [] then message
    else Substitute(Replace(message, Token(order[0]), placeholders[order[0]]), placeholders, order[1..])
  }

  /** `formatMessage`: a null message stays null; otherwise every entry of the
      map, visited in the map's iteration order `order`, replaces each of its
      tokens. */
  method FormatMessage(message: Option<string>, placeholders: Option<map<string, string>>, order: seq<string>)
    returns (r: Option<string>)
    requires placeholders.Some? ==> Enumerates(order, placeholders.value.Keys)
    ensures r.None? <==> message.None?
    ensures r.Some? && placeholders.None? ==> r.value == message.value
    ensures r.Some? && placeholders.Some? ==> r.value == Substitute(message.value, placeholders.value, order)
  {
    if message.None? {
      return None;
    }
    var m := message.value;
    if placeholders.Some? {
      var ph := placeholders.value;
      var i := 0;
      while i < |order|
        invariant 0 <= i <= |order|
        invariant Substitute(m, ph, order[i..]) == Substitute(message.value, ph, order)
      {
        assert order[i..][1..] == order[i + 1..];
        m := Replace(m, Token(order[i]), ph[order[i]]);
        i := i + 1;
      }
    }
    return Some(m);
  }

  /** A message without `{` is left as it is, whatever the placeholders and
      their order. */
  lemma {:induction false} NoBraceUnchanged(message: string, placeholders: map<string, string>, order: seq<string>)
    requires forall k :: k in order ==> k in placeholders
    requires forall i :: 0 <= i < |message| ==> message[i] != '{'
    ensures Substitute(message, placeholders, order) == message
  {
    if order != [] {
      ReplaceAbsent(message, Token(order[0]), placeholders[order[0]]);
      NoBraceUnchanged(message, placeholders, order[1..]);
    }
  }

  /** With the one-entry map that `createPlaceholders(key, value)` builds, the
      first `{key}` (with no `{` before it) becomes the value and the rest of
      the text is substituted the same way. */
  lemma {:induction false} SingleTokenReplaced(before: string, key: string, value: string, after: string)
    requires forall i :: 0 <= i < |before| ==> before[i] != '{'
    ensures Substitute(before + Token(key) + after, CreatePlaceholders(key, value), [key])
         == before + value + Replace(after, Token(key), value)
  {
    ReplaceFirst(before, Token(key), value, after);
  }

  /** `getMessage`: the stored message, formatted; a fixed text when the file
      is not loaded; the key after a fixed prefix when the key is missing. */
  function GetMessage(file: MessageFile, key: string, placeholders: Option<map<string, string>>, order: seq<string>): (r: string)
    requires placeholders.Some? ==> Enumerates(order, placeholders.value.Keys)
    ensures file.None? ==> r == NOT_LOADED
    ensures file.Some? && key !in file.value ==> r == NOT_FOUND_PREFIX + key
    ensures file.Some? && key in file.value && placeholders.None? ==> r == file.value[key]
    ensures file.Some? && key in file.value && placeholders.Some? ==> r == Substitute(file.value[key], placeholders.value, order)
  {
    if file.None? then NOT_LOADED
    else if key !in file.value then NOT_FOUND_PREFIX + key
    else if placeholders.None? then file.value[key]
    else Substitute(file.value[key], placeholders.value, order)
  }

  /** `sendMessage`: the text sent, or None when the resolved message is
      empty. */
  function SendMessage(file: MessageFile, key: string, placeholders: Option<map<string, string>>, order: seq<string>): (sent: Option<string>)
    requires placeholders.Some? ==> Enumerates(order, placeholders.value.Keys)
    ensures sent.Some? ==> sent.value != [] && sent.value == GetMessage(file, key, placeholders, order)
    ensures sent.None? ==> GetMessage(file, key, placeholders, order) == []
  {
    var m := GetMessage(file, key, placeholders, order);
    if m != [] then Some(m) else None
  }

  /** Nothing is sent only when the file is loaded, holds the key, and the
      formatted message is empty: the fallbacks are always sent. */
  lemma SilentOnlyForEmptyMessage(file: MessageFile, key: string, placeholders: Option<map<string, string>>, order: seq<string>)
    requires placeholders.Some? ==> Enumerates(order, placeholders.value.Keys)
    ensures SendMessage(file, key, placeholders, order).None? ==> file.Some? && key in file.value
    ensures file.Some? && key in file.value && file.value[key] == [] ==> SendMessage(file, key, placeholders, order).None?
  {
    if file.Some? && key in file.value && file.value[key] == [] && placeholders.Some? {
      NoBraceUnchanged([], placeholders.value, order);
    }
  }

  /** `createPlaceholders(key, value)`. */
  function CreatePlaceholders(key: string, value: string): (m: map<string, string>)
    ensures m.Keys == {key} && m[key] == value
  {
    map[key := value]
  }

  /** The map the varargs `createPlaceholders` builds: consecutive pairs put
      in order, a trailing unpaired key ignored. */
  function Pairs(args: seq<string>): map<string, string>
    decreases |args|
  {
    if |args| < 2 then map[]
    else if |args| % 2 == 1 then Pairs(args[..|args| - 1])
    else Pairs(args[..|args| - 2])[args[|args| - 2] := args[|args| - 1]]
  }

  /** `createPlaceholders(String...)`: the pairing loop. */
  method CreatePlaceholdersFromPairs(args: seq<string>) returns (m: map<string, string>)
    ensures m == Pairs(args)
  {
    m := map[];
    var i := 0;
    while i < |args| - 1
      invariant 0 <= i <= |args| && i % 2 == 0
      invariant m == Pairs(args[..i])
    {
      assert args[..i + 2][..i] == args[..i];
      m := m[args[i] := args[i + 1]];
      i := i + 2;
    }
    if i < |args| {
      assert args[..i] == args[..|args| - 1];
    } else {
      assert args[..i] == args;
    }
  }

  /** A key of the varargs map is exactly a key at an even position that has a
      value after it. */
  lemma {:induction false} PairsKeys(args: seq<string>, k: string)
    ensures k in Pairs(args) <==> exists j :: 0 <= j < |args| - 1 && j % 2 == 0 && args[j] == k
    decreases |args|
  {
    if |args| >= 2 {
      if |args| % 2 == 1 {
        var shorter := args[..|args| - 1];
        PairsKeys(shorter, k);
        if k in Pairs(args) {
          var j :| 0 <= j < |shorter| - 1 && j % 2 == 0 && shorter[j] == k;
          assert args[j] == k;
        }
        if exists j :: 0 <= j < |args| - 1 && j % 2 == 0 && args[j] == k {
          var j :| 0 <= j < |args| - 1 && j % 2 == 0 && args[j] == k;
          assert j < |shorter| - 1 && shorter[j] == k;
        }
      } else {
        var shorter := args[..|args| - 2];
        PairsKeys(shorter, k);
        if k in Pairs(args) && k != args[|args| - 2] {
          var j :| 0 <= j < |shorter| - 1 && j % 2 == 0 && shorter[j] == k;
          assert args[j] == k;
        }
        if exists j :: 0 <= j < |args| - 1 && j % 2 == 0 && args[j] == k {
          var j :| 0 <= j < |args| - 1 && j % 2 == 0 && args[j] == k;
          if j < |args| - 2 {
            assert shorter[j] == k;
          }
        }
      }
    }
  }

  /** A key repeated in the varargs keeps the value of its last pair. */
  lemma {:induction false} PairsLastWins(args: seq<string>, j: nat)
    requires j + 1 < |args| && j % 2 == 0
    requires forall l :: j < l < |args| - 1 && l % 2 == 0 ==> args[l] != args[j]
    ensures args[j] in Pairs(args) && Pairs(args)[args[j]] == args[j + 1]
    decreases |args|
  {
    if |args| % 2 == 1 {
      var shorter := args[..|args| - 1];
      assert shorter[j] == args[j] && shorter[j + 1] == args[j + 1];
      PairsLastWins(shorter, j);
    } else if j < |args| - 2 {
      var shorter := args[..|args| - 2];
      assert args[|args| - 2] != args[j];
      assert shorter[j] == args[j] && shorter[j + 1] == args[j + 1];
      PairsLastWins(shorter, j);
    }
  }

  /** Two arguments give the same map as the two-argument overload. */
  lemma OnePairIsCreatePlaceholders(key: string, value: string)
    ensures Pairs([key, value]) == CreatePlaceholders(key, value)
  {
    assert [key, value][..0] == [];
  }
}
