/** The usual Option type, used for Python's `None`-or-value results. */
module Wrappers {
  datatype Option<+T> = None | Some(value: T)
}

/**
 * The handful of Python string operations the application relies on:
 * `str.strip()`, `str.strip(chars)`, `str.split(sep)`, `sep.join(parts)`,
 * `str.isdigit()` with `int(...)`, `str(n)` for a natural number and
 * `str.replace("'", "\\'")`.  Strings are sequences of characters.
 */
module Text {

  // ---------------------------------------------------------------------
  // Character classes
  // ---------------------------------------------------------------------

  /** The characters Python's `str.isspace` (and the regex class `\s`) accepts. */
  predicate IsSpace(c: char) {
    c == ' ' || ('\t' <= c <= '\r') || ('\U{1c}' <= c <= '\U{1f}') ||
    c == '\U{85}' || c == '\U{a0}' || c == '\U{1680}' || ('\U{2000}' <= c <= '\U{200a}') ||
    c == '\U{2028}' || c == '\U{2029}' || c == '\U{202f}' || c == '\U{205f}' || c == '\U{3000}'
  }

  /** An ASCII decimal digit (the model reads `\d` and `isdigit` as ASCII only). */
  predicate IsDigit(c: char) {
    '0' <= c <= '9'
  }

  predicate IsBracket(c: char) {
    c == '[' || c == ']'
  }

  /** `str.isdigit()`: non-empty and made of digits only. */
  predicate IsNumeral(t: string) {
    |t| > 0 && forall i :: 0 <= i < |t| ==> IsDigit(t[i])
  }

  predicate StartsWith(s: string, prefix: string) {
    |prefix| <= |s| && s[..|prefix|] == prefix
  }

  /** A string is the concatenation of its three slices around `i` and `j`. */
  lemma Decompose(s: string, i: nat, j: nat)
    requires i <= j <= |s|
    ensures s == s[..i] + (s[i..j] + s[j..])
  {
  }

  // ---------------------------------------------------------------------
  // Stripping
  // ---------------------------------------------------------------------

  /** Drops the longest prefix whose characters all satisfy `drop`. */
  function TrimStart(s: string, drop: char -> bool): (r: string)
    ensures |r| <= |s|
  {
    if |s| > 0 && drop(s[0]) then TrimStart(s[1..], drop) else s
  }

  /** Drops the longest suffix whose characters all satisfy `drop`. */
  function TrimEnd(s: string, drop: char -> bool): (r: string)
    ensures |r| <= |s|
  {
    if |s| > 0 && drop(s[|s| - 1]) then TrimEnd(s[..|s| - 1], drop) else s
  }

  /** `TrimStart` removes a prefix of dropped characters and stops at the first kept one. */
  lemma {:induction false} TrimStartSpec(s: string, drop: char -> bool)
    ensures var r := TrimStart(s, drop);
      r == s[|s| - |r|..] && (forall i :: 0 <= i < |s| - |r| ==> drop(s[i])) && (r != [] ==> !drop(r[0]))
  {
    if |s| > 0 && drop(s[0]) {
      TrimStartSpec(s[1..], drop);
    }
  }

  /** `TrimEnd` removes a suffix of dropped characters and stops at the last kept one. */
  lemma {:induction false} TrimEndSpec(s: string, drop: char -> bool)
    ensures var r := TrimEnd(s, drop);
      r == s[..|r|] && (forall i :: |r| <= i < |s| ==> drop(s[i])) && (r != [] ==> !drop(r[|r| - 1]))
  {
    if |s| > 0 && drop(s[|s| - 1]) {
      TrimEndSpec(s[..|s| - 1], drop);
    }
  }

  function Trim(s: string, drop: char -> bool): string {
    TrimEnd(TrimStart(s, drop), drop)
  }

  /** Python's `s.strip()`. */
  function Strip(s: string): string {
    Trim(s, IsSpace)
  }

  /** Python's `s.strip('[]')`. */
  function StripBrackets(s: string): string {
    Trim(s, IsBracket)
  }

  lemma {:induction false} TrimStartKeeps(pre: string, body: string, drop: char -> bool)
    requires forall i :: 0 <= i < |pre| ==> drop(pre[i])
    requires body != [] ==> !drop(body[0])
    ensures TrimStart(pre + body, drop) == body
    decreases |pre|
  {
    if pre != [] {
      assert (pre + body)[1..] == pre[1..] + body;
      TrimStartKeeps(pre[1..], body, drop);
    } else {
      assert pre + body == body;
    }
  }

  lemma {:induction false} TrimEndKeeps(body: string, post: string, drop: char -> bool)
    requires forall i :: 0 <= i < |post| ==> drop(post[i])
    requires body != [] ==> !drop(body[|body| - 1])
    ensures TrimEnd(body + post, drop) == body
    decreases |post|
  {
    if post != [] {
      var s := body + post;
      assert s[..|s| - 1] == body + post[..|post| - 1];
      TrimEndKeeps(body, post[..|post| - 1], drop);
    } else {
      assert body + post == body;
    }
  }

  /** Trimming removes exactly the padding around a body that does not begin or end with padding. */
  lemma TrimExact(pre: string, body: string, post: string, drop: char -> bool)
    requires forall i :: 0 <= i < |pre| ==> drop(pre[i])
    requires forall i :: 0 <= i < |post| ==> drop(post[i])
    requires body != [] ==> !drop(body[0]) && !drop(body[|body| - 1])
    ensures Trim(pre + (body + post), drop) == body
  {
    if body == [] {
      assert body + post == post;
      TrimStartKeeps(pre + post, [], drop);
      assert pre + post + [] == pre + post;
      TrimEndKeeps([], post, drop);
    } else {
      TrimStartKeeps(pre, body + post, drop);
      TrimEndKeeps(body, post, drop);
    }
  }

  /** A string with no whitespace at either end is left unchanged by `strip()`. */
  lemma StripUnchanged(s: string)
    requires s != [] ==> !IsSpace(s[0]) && !IsSpace(s[|s| - 1])
    ensures Strip(s) == s
  {
    assert [] + (s + []) == s;
    TrimExact([], s, [], IsSpace);
  }

  /** `strip()` of a whitespace-only string is empty. */
  lemma StripBlank(s: string)
    requires forall i :: 0 <= i < |s| ==> IsSpace(s[i])
    ensures Strip(s) == []
  {
    assert s + ([] + []) == s;
    TrimExact(s, [], [], IsSpace);
  }

  // ---------------------------------------------------------------------
  // Splitting and joining
  // ---------------------------------------------------------------------

  /** Python's `sep.join(parts)`. */
  function Join(parts: seq<string>, sep: string): string {
    if |parts| == 0 then []
    else if |parts| == 1 then parts[0]
    else parts[0] + sep + Join(parts[1..], sep)
  }

  /** Python's `s.split(sep)` for a one-character separator: the pieces between separators. */
  function Split(s: string, sep: char): (r: seq<string>)
    ensures |r| >= 1
    ensures forall i :: 0 <= i < |r| ==> sep !in r[i]
    ensures Join(r, [sep]) == s
  {
    if s == [] then [[]]
    else
      var rest := Split(s[1..], sep);
      if s[0] == sep then
        assert Join([[]] + rest, [sep]) == [] + [sep] + Join(rest, [sep]);
        [[]] + rest
      else
        var r := [[s[0]] + rest[0]] + rest[1..];
        assert r[1..] == rest[1..];
        assert Join(r, [sep]) == [s[0]] + Join(rest, [sep]) by {
          if |rest| > 1 {
            assert Join(rest, [sep]) == rest[0] + [sep] + Join(rest[1..], [sep]);
          }
        }
        r
  }

  /** A string without the separator is a single piece. */
  lemma {:induction false} SplitWithout(s: string, sep: char)
    requires sep !in s
    ensures Split(s, sep) == [s]
  {
    if s != [] {
      SplitWithout(s[1..], sep);
    }
  }

  /** Splitting yields at least two pieces exactly when the separator occurs. */
  lemma SplitMany(s: string, sep: char)
    ensures |Split(s, sep)| >= 2 <==> sep in s
  {
    if sep !in s {
      SplitWithout(s, sep);
    }
  }

  lemma {:induction false} SplitAfterPiece(a: string, b: string, sep: char)
    requires sep !in a
    ensures Split(a + [sep] + b, sep) == [a] + Split(b, sep)
  {
    var s := a + [sep] + b;
    if a == [] {
      assert s[0] == sep && s[1..] == b;
    } else {
      assert s[0] == a[0] && s[1..] == a[1..] + [sep] + b;
      SplitAfterPiece(a[1..], b, sep);
      assert [a[0]] + a[1..] == a;
    }
  }

  /** Splitting undoes joining, when no piece contains the separator. */
  lemma {:induction false} SplitJoin(parts: seq<string>, sep: char)
    requires |parts| >= 1
    requires forall i :: 0 <= i < |parts| ==> sep !in parts[i]
    ensures Split(Join(parts, [sep]), sep) == parts
  {
    if |parts| == 1 {
      SplitWithout(parts[0], sep);
    } else {
      SplitJoin(parts[1..], sep);
      SplitAfterPiece(parts[0], Join(parts[1..], [sep]), sep);
      assert [parts[0]] + parts[1..] == parts;
    }
  }

  /**
   * The first two pieces of a split are the text up to the first
   * separator and the text from there up to the next separator or the end.
   */
  lemma SplitFirstTwo(s: string, sep: char)
    requires sep in s
    ensures var r := Split(s, sep);
      |r| >= 2 && StartsWith(s, r[0] + [sep] + r[1]) &&
      var n := |r[0]| + 1 + |r[1]|; n == |s| || s[n] == sep
  {
    var r := Split(s, sep);
    SplitMany(s, sep);
    assert s == r[0] + [sep] + Join(r[1..], [sep]);
    var tail := Join(r[1..], [sep]);
    assert StartsWith(tail, r[1]) && (|r[1]| == |tail| || tail[|r[1]|] == sep) by {
      if |r| > 2 {
        assert tail == r[1] + [sep] + Join(r[2..], [sep]);
      }
    }
    assert s == (r[0] + [sep]) + tail;
    assert s[..|r[0]| + 1 + |r[1]|] == r[0] + [sep] + r[1];
  }


  // ---------------------------------------------------------------------
  // Numerals
  // ---------------------------------------------------------------------

  function DigitChar(d: nat): (c: char)
    requires d < 10
    ensures IsDigit(c) && c as int - '0' as int == d
  {
    ['0', '1', '2', '3', '4', '5', '6', '7', '8', '9'][d]
  }

  /** Python's `str(n)` for a natural number: its decimal numeral without leading zeros. */
  function Show(n: nat): (r: string)
    ensures IsNumeral(r)
    ensures r[0] == '0' ==> n == 0
  {
    if n < 10 then [DigitChar(n)] else Show(n / 10) + [DigitChar(n % 10)]
  }

  /** Python's `int(t)` on a string of ASCII digits (leading zeros allowed). */
  function DigitsValue(t: string): nat
    requires forall i :: 0 <= i < |t| ==> IsDigit(t[i])
  {
    if t == [] then 0
    else
      assert IsDigit(t[|t| - 1]);
      10 * DigitsValue(t[..|t| - 1]) + (t[|t| - 1] as int - '0' as int)
  }

  /** Reading back a rendered number gives the number. */
  lemma {:induction false} ShowRoundTrip(n: nat)
    ensures DigitsValue(Show(n)) == n
  {
    if n >= 10 {
      var s := Show(n);
      ShowRoundTrip(n / 10);
      assert s[..|s| - 1] == Show(n / 10);
    }
  }

  /** Distinct numbers have distinct numerals. */
  lemma ShowInjective(m: nat, n: nat)
    requires Show(m) == Show(n)
    ensures m == n
  {
    ShowRoundTrip(m);
    ShowRoundTrip(n);
  }

  // ---------------------------------------------------------------------
  // Apostrophe escaping
  // ---------------------------------------------------------------------

  /** Python's `s.replace("'", "\\'")`: a backslash goes in front of every apostrophe. */
  function Escape(s: string): (r: string)
    ensures '\'' !in s ==> r == s
    ensures forall i :: 0 <= i < |r| && r[i] == '\'' ==> i > 0 && r[i - 1] == '\\'
    ensures r != [] ==> r[0] != '\''
  {
    if s == [] then []
    else
      var head := if s[0] == '\'' then "\\'" else [s[0]];
      var tail := Escape(s[1..]);
      assert forall i :: |head| <= i < |head + tail| ==> (head + tail)[i] == tail[i - |head|];
      head + tail
  }

  /** Python's `s.replace("\\'", "'")`, scanning left to right: the inverse of `Escape`. */
  function Unescape(s: string): string {
    if |s| >= 2 && s[0] == '\\' && s[1] == '\'' then "'" + Unescape(s[2..])
    else if s == [] then []
    else [s[0]] + Unescape(s[1..])
  }

  /** Escaping loses no information: unescaping recovers the original text. */
  lemma {:induction false} UnescapeEscape(s: string)
    ensures Unescape(Escape(s)) == s
  {
    if s != [] {
      UnescapeEscape(s[1..]);
      var tail := Escape(s[1..]);
      if s[0] == '\'' {
        assert Escape(s) == "\\'" + tail;
        assert (Escape(s))[2..] == tail;
      } else {
        assert Escape(s) == [s[0]] + tail;
        assert (Escape(s))[1..] == tail;
        assert s == [s[0]] + s[1..];
      }
    }
  }

  /** Concatenation splits back into its two parts. */
  lemma SplitConcat<T>(x: seq<T>, y: seq<T>)
    ensures (x + y)[..|x|] == x && (x + y)[|x|..] == y
  {
  }

  lemma Associative<T>(x: seq<T>, y: seq<T>, z: seq<T>)
    ensures x + (y + z) == (x + y) + z
  {
  }

  lemma {:induction false} EscapeAppend(a: string, b: string)
    ensures Escape(a + b) == Escape(a) + Escape(b)
  {
    if a != [] {
      var head := if a[0] == '\'' then "\\'" else [a[0]];
      assert (a + b)[0] == a[0] && (a + b)[1..] == a[1..] + b;
      assert Escape(a + b) == head + Escape(a[1..] + b);
      EscapeAppend(a[1..], b);
      Associative(head, Escape(a[1..]), Escape(b));
    } else {
      assert a + b == b;
    }
  }

  lemma EscapePrefixChars(s: string)
    requires |s| >= 2 && s[0] == ')' && s[1] == '.'
    ensures StartsWith(Escape(s), ").")
  {
    assert s == [s[0]] + ([s[1]] + s[2..]);
    EscapeAppend([s[0]], [s[1]] + s[2..]);
    EscapeAppend([s[1]], s[2..]);
    assert Escape([s[0]]) == [s[0]];
    assert Escape([s[1]]) == [s[1]];
  }

  lemma EscapeNoPrefixChars(s: string)
    requires !StartsWith(s, ").")
    ensures !StartsWith(Escape(s), ").")
  {
    if s != [] {
      assert s == [s[0]] + s[1..];
      EscapeAppend([s[0]], s[1..]);
      if s[0] == ')' {
        if |s| >= 2 {
          assert s[1] != '.';
          assert s[1..] == [s[1]] + s[2..];
          EscapeAppend([s[1]], s[2..]);
          if s[1] == '\'' {
            assert Escape([s[1]]) == "\\'";
          } else {
            assert Escape([s[1]]) == [s[1]];
          }
        } else {
          assert Escape(s) == ")";
        }
      } else if s[0] == '\'' {
        assert Escape(s)[0] == '\\';
      } else {
        assert Escape(s)[0] == s[0];
      }
    }
  }
}
