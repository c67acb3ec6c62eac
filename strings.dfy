/**
 * The few `java.lang.String` operations the plugin relies on, on `seq<char>`.
 * Java's `startsWith` is Dafny's prefix relation `p <= s`.
 */
module Strings {

  /** `s.trim().isEmpty()`: trim drops every char up to U+0020 at both ends. */
  predicate IsBlank(s: string) {
    forall i :: 0 <= i < |s| ==> s[i] <= ' '
  }

  /** Leading chars up to U+0020 dropped. */
  function TrimStart(s: string): (r: string)
    ensures |r| <= |s| && r == s[|s| - |r|..]
    ensures r == [] <==> IsBlank(s)
    ensures r != [] ==> r[0] > ' '
    decreases |s|
  {
    if s != [] && s[0] <= ' ' then TrimStart(s[1..]) else s
  }

  /** Trailing chars up to U+0020 dropped. */
  function TrimEnd(s: string): (r: string)
    ensures |r| <= |s| && r == s[..|r|]
    ensures r == [] <==> IsBlank(s)
    ensures r != [] ==> r[|r| - 1] > ' '
    decreases |s|
  {
    if s != [] && s[|s| - 1] <= ' ' then TrimEnd(s[..|s| - 1]) else s
  }

  /** `s.trim()`: the text between the first and the last char above U+0020. */
  function Trim(s: string): (r: string)
    ensures |r| <= |s|
    ensures r == [] <==> IsBlank(s)
    ensures r != [] ==> r[0] > ' ' && r[|r| - 1] > ' '
  {
    TrimEnd(TrimStart(s))
  }

  /** A text with no char up to U+0020 is its own trim. */
  lemma TrimNoBlank(s: string)
    requires forall i :: 0 <= i < |s| ==> s[i] > ' '
    ensures Trim(s) == s
  {
  }

  /** `s.contains(p)`. */
  predicate Contains(s: string, p: string)
    decreases |s|
  {
    p <= s || (|s| > 0 && Contains(s[1..], p))
  }

  /** `s.replace(target, repl)` for a non-empty target: a left-to-right scan
      replacing non-overlapping occurrences. */
  function Replace(s: string, target: string, repl: string): string
    requires target != []
    decreases |s|
  {
    if |s| < |target| then s
    else if target <= s then repl + Replace(s[|target|..], target, repl)
    else [s[0]] + Replace(s[1..], target, repl)
  }

  /** `s.replace(String.valueOf(c), "")`, as a filter. */
  function Without(s: string, c: char): (r: string)
    ensures |r| <= |s|
    ensures forall i :: 0 <= i < |r| ==> r[i] != c
    ensures IsBlank(s) ==> IsBlank(r)
  {
    if s == [] then [] else (if s[0] == c then [] else [s[0]]) + Without(s[1..], c)
  }

  /** `"*".repeat(n)`. */
  function Stars(n: nat): (r: string)
    ensures |r| == n
  {
    seq(n, _ => '*')
  }

  /** `s.matches("\\*+")`: one or more `*` and nothing else. */
  predicate AllStars(s: string) {
    |s| > 0 && forall i :: 0 <= i < |s| ==> s[i] == '*'
  }

  function LowerChar(c: char): char {
    if 'A' <= c <= 'Z' then (c as int + 32) as char else c
  }

  function UpperChar(c: char): char {
    if 'a' <= c <= 'z' then (c as int - 32) as char else c
  }

  /** `toLowerCase()` on the ASCII letters; every other char is kept. */
  function Lower(s: string): (r: string)
    ensures |r| == |s|
  {
    seq(|s|, i requires 0 <= i < |s| => LowerChar(s[i]))
  }

  /** `toUpperCase()` on the ASCII letters; every other char is kept. */
  function Upper(s: string): (r: string)
    ensures |r| == |s|
  {
    seq(|s|, i requires 0 <= i < |s| => UpperChar(s[i]))
  }

  /** Removing every `c` with `replace` is the same as filtering `c` out. */
  lemma {:induction false} ReplaceCharIsWithout(s: string, c: char)
    ensures Replace(s, [c], "") == Without(s, c)
  {
    if s != [] {
      ReplaceCharIsWithout(s[1..], c);
      if s[0] == c {
        assert [c] <= s;
      } else {
        assert !([c] <= s);
      }
    }
  }

  /** A text without the target's first char is left as it is by `replace`. */
  lemma {:induction false} ReplaceAbsent(s: string, target: string, repl: string)
    requires target != []
    requires forall i :: 0 <= i < |s| ==> s[i] != target[0]
    ensures Replace(s, target, repl) == s
  {
    if |s| >= |target| {
      assert s[0] != target[0];
      assert !(target <= s);
      ReplaceAbsent(s[1..], target, repl);
    }
  }

  /** `replace` substitutes the first occurrence of the target when nothing
      before it could start one, then carries on after it. */
  lemma {:induction false} ReplaceFirst(a: string, target: string, repl: string, b: string)
    requires target != []
    requires forall i :: 0 <= i < |a| ==> a[i] != target[0]
    ensures Replace(a + target + b, target, repl) == a + repl + Replace(b, target, repl)
  {
    if a == [] {
      assert a + target + b == target + b;
      assert target <= target + b;
      assert (target + b)[|target|..] == b;
    } else {
      var s := a + target + b;
      assert s[0] == a[0] != target[0];
      assert !(target <= s) && |s| >= |target|;
      assert s[1..] == a[1..] + target + b;
      assert Replace(s, target, repl) == [a[0]] + Replace(a[1..] + target + b, target, repl);
      ReplaceFirst(a[1..], target, repl, b);
      var rest := Replace(b, target, repl);
      assert a == [a[0]] + a[1..];
      assert [a[0]] + (a[1..] + repl + rest) == a + repl + rest;
    }
  }

  /** Filtering out a blank char keeps a non-blank text non-blank. */
  lemma {:induction false} WithoutKeepsNonBlank(s: string, c: char)
    requires c <= ' '
    requires !IsBlank(s)
    ensures !IsBlank(Without(s, c))
  {
    if s[0] <= ' ' {
      assert !IsBlank(s[1..]) by {
        var i :| 0 <= i < |s| && s[i] > ' ';
        assert s[1..][i - 1] == s[i];
      }
      WithoutKeepsNonBlank(s[1..], c);
      var r := Without(s[1..], c);
      var j :| 0 <= j < |r| && r[j] > ' ';
      var w := Without(s, c);
      assert w == (if s[0] == c then [] else [s[0]]) + r;
      if s[0] == c {
        assert w[j] == r[j];
      } else {
        assert w[j + 1] == r[j];
      }
    } else {
      assert s[0] != c;
      assert Without(s, c)[0] == s[0];
    }
  }

  /** Filtering out a char the text does not hold changes nothing. */
  lemma {:induction false} WithoutAbsent(s: string, c: char)
    requires forall i :: 0 <= i < |s| ==> s[i] != c
    ensures Without(s, c) == s
  {
    if s != [] {
      WithoutAbsent(s[1..], c);
    }
  }

  /** A pattern longer than the text is not in it. */
  lemma {:induction false} ContainsNeedsLength(s: string, p: string)
    requires |s| < |p|
    ensures !Contains(s, p)
  {
    if |s| > 0 {
      ContainsNeedsLength(s[1..], p);
    }
  }

  function DigitChar(d: nat): char
    requires d < 10
  {
    ('0' as int + d) as char
  }

  /** `String.valueOf(n)` for an `int`. */
  function IntToString(n: int): string
    decreases if n < 0 then 1 - n else n
  {
    if n < 0 then "-" + IntToString(-n)
    else if n < 10 then [DigitChar(n)]
    else IntToString(n / 10) + [DigitChar(n % 10)]
  }
}
