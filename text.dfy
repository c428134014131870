/**
 * String helpers shared by the backend and client models: the code-unit
 * order that `<` uses on strings, ASCII lower-casing, substring search,
 * Python's `str.strip()` and `str.split(sep)`.
 */
module Text {

  /** Strict lexicographic order by code unit (Python `<` on str, JavaScript `<` on strings). */
  predicate StrLt(a: string, b: string)
    decreases |a|
  {
    if |a| == 0 then |b| > 0
    else if |b| == 0 then false
    else if a[0] != b[0] then a[0] < b[0]
    else StrLt(a[1..], b[1..])
  }

  lemma {:induction false} StrLtIrreflexive(a: string)
    ensures !StrLt(a, a)
    decreases |a|
  {
    if |a| > 0 {
      StrLtIrreflexive(a[1..]);
    }
  }

  lemma {:induction false} StrLtTransitive(a: string, b: string, c: string)
    requires StrLt(a, b) && StrLt(b, c)
    ensures StrLt(a, c)
    decreases |a|
  {
    if |a| > 0 && |b| > 0 && |c| > 0 && a[0] == b[0] && b[0] == c[0] {
      StrLtTransitive(a[1..], b[1..], c[1..]);
    }
  }

  lemma {:induction false} StrLtTotal(a: string, b: string)
    ensures a == b || StrLt(a, b) || StrLt(b, a)
    decreases |a|
  {
    if |a| > 0 && |b| > 0 && a[0] == b[0] {
      StrLtTotal(a[1..], b[1..]);
      if a[1..] == b[1..] {
        assert a == [a[0]] + a[1..] && b == [b[0]] + b[1..];
      }
    }
  }

  lemma StrLtAsymmetric(a: string, b: string)
    requires StrLt(a, b)
    ensures !StrLt(b, a)
  {
    if StrLt(b, a) {
      StrLtTransitive(a, b, a);
      StrLtIrreflexive(a);
    }
  }

  /** ASCII lower-casing of one character. */
  function LowerChar(c: char): char {
    if 'A' <= c <= 'Z' then (c as int + 32) as char else c
  }

  /** `str.lower()` / `String.prototype.toLowerCase()` restricted to ASCII letters. */
  function Lower(s: string): (r: string)
    ensures |r| == |s|
    ensures forall i :: 0 <= i < |s| ==> r[i] == LowerChar(s[i])
  {
    seq(|s|, i requires 0 <= i < |s| => LowerChar(s[i]))
  }

  /** ASCII upper-casing of one character. */
  function UpperChar(c: char): char {
    if 'a' <= c <= 'z' then (c as int - 32) as char else c
  }

  /** `str.upper()` restricted to ASCII letters. */
  function Upper(s: string): (r: string)
    ensures |r| == |s|
    ensures forall i :: 0 <= i < |s| ==> r[i] == UpperChar(s[i])
  {
    seq(|s|, i requires 0 <= i < |s| => UpperChar(s[i]))
  }

  /** `needle` occurs in `hay` starting at index `i`. */
  predicate OccursAt(hay: string, needle: string, i: int) {
    0 <= i <= |hay| - |needle| && hay[i..i + |needle|] == needle
  }

  /** `needle in hay` for strings. */
  predicate Contains(hay: string, needle: string) {
    exists i :: 0 <= i <= |hay| && OccursAt(hay, needle, i)
  }

  /** The ASCII white space Python's `str.strip()` removes, the separators `\x1c` to `\x1f` included. */
  predicate IsSpace(c: char) {
    || c == ' ' || c == '\t' || c == '\n' || c == '\r' || c == '\U{B}' || c == '\U{C}'
    || ('\U{1C}' <= c <= '\U{1F}')
  }

  /** `s` without its leading Python white space. */
  function TrimStart(s: string): string
  {
    if |s| > 0 && IsSpace(s[0]) then TrimStart(s[1..]) else s
  }

  /** `s` without its trailing Python white space. */
  function TrimEnd(s: string): string
  {
    if |s| > 0 && IsSpace(s[|s| - 1]) then TrimEnd(s[..|s| - 1]) else s
  }

  /** Python `str.strip()` for ASCII white space. */
  function Strip(s: string): string {
    TrimEnd(TrimStart(s))
  }

  /** Trimming the start removes a prefix made only of white space, and all of it. */
  lemma {:induction false} TrimStartRules(s: string)
    ensures var r := TrimStart(s);
      && |r| <= |s| && r == s[|s| - |r|..]
      && (r == [] || !IsSpace(r[0]))
      && (forall i :: 0 <= i < |s| - |r| ==> IsSpace(s[i]))
  {
    if |s| > 0 && IsSpace(s[0]) {
      TrimStartRules(s[1..]);
      var r := TrimStart(s[1..]);
      assert forall i :: 1 <= i < |s| - |r| ==> s[i] == s[1..][i - 1];
    }
  }

  /** Trimming the end removes a suffix made only of white space, and all of it. */
  lemma {:induction false} TrimEndRules(s: string)
    ensures var r := TrimEnd(s);
      && |r| <= |s| && r == s[..|r|]
      && (r == [] || !IsSpace(r[|r| - 1]))
      && (forall i :: |r| <= i < |s| ==> IsSpace(s[i]))
  {
    if |s| > 0 && IsSpace(s[|s| - 1]) {
      TrimEndRules(s[..|s| - 1]);
      var r := TrimEnd(s[..|s| - 1]);
      assert forall i :: |r| <= i < |s| - 1 ==> s[i] == s[..|s| - 1][i];
    }
  }

  /** The ASCII white space JavaScript's `trim()` removes: Python's without the four separators. */
  predicate JsSpace(c: char) {
    IsSpace(c) && !('\U{1C}' <= c <= '\U{1F}')
  }

  function JsTrimStart(s: string): string
  {
    if |s| > 0 && JsSpace(s[0]) then JsTrimStart(s[1..]) else s
  }

  function JsTrimEnd(s: string): string
  {
    if |s| > 0 && JsSpace(s[|s| - 1]) then JsTrimEnd(s[..|s| - 1]) else s
  }

  /** JavaScript `String.prototype.trim()` for ASCII white space. */
  function Trim(s: string): string {
    JsTrimEnd(JsTrimStart(s))
  }

  /** JavaScript's trim removes a prefix and a suffix made only of its white space, and all of both. */
  lemma {:induction false} TrimRules(s: string)
    ensures var m := JsTrimStart(s);
      var r := Trim(s);
      && |m| <= |s| && m == s[|s| - |m|..] && (forall i :: 0 <= i < |s| - |m| ==> JsSpace(s[i]))
      && |r| <= |m| && r == m[..|r|] && (forall i :: |r| <= i < |m| ==> JsSpace(m[i]))
      && (r == [] || (!JsSpace(r[0]) && !JsSpace(r[|r| - 1])))
  {
    JsStartRules(s);
    JsEndRules(JsTrimStart(s));
    var m := JsTrimStart(s);
    var r := Trim(s);
    if r != [] {
      assert r[0] == m[0];
    }
  }

  lemma {:induction false} JsStartRules(s: string)
    ensures var r := JsTrimStart(s);
      && |r| <= |s| && r == s[|s| - |r|..]
      && (r == [] || !JsSpace(r[0]))
      && (forall i :: 0 <= i < |s| - |r| ==> JsSpace(s[i]))
  {
    if |s| > 0 && JsSpace(s[0]) {
      JsStartRules(s[1..]);
      var r := JsTrimStart(s[1..]);
      assert forall i :: 1 <= i < |s| - |r| ==> s[i] == s[1..][i - 1];
    }
  }

  lemma {:induction false} JsEndRules(s: string)
    ensures var r := JsTrimEnd(s);
      && |r| <= |s| && r == s[..|r|]
      && (r == [] || !JsSpace(r[|r| - 1]))
      && (forall i :: |r| <= i < |s| ==> JsSpace(s[i]))
  {
    if |s| > 0 && JsSpace(s[|s| - 1]) {
      JsEndRules(s[..|s| - 1]);
      var r := JsTrimEnd(s[..|s| - 1]);
      assert forall i :: |r| <= i < |s| - 1 ==> s[i] == s[..|s| - 1][i];
    }
  }

  /**
   * Python `s.split(sep)`: the pieces between occurrences of `sep`; always
   * at least one piece, and no piece contains `sep`.
   */
  function Split(s: string, sep: char): (r: seq<string>)
    ensures |r| >= 1
    ensures forall i :: 0 <= i < |r| ==> sep !in r[i]
  {
    if |s| == 0 then [""]
    else
      var rest := Split(s[1..], sep);
      if s[0] == sep then [""] + rest else [[s[0]] + rest[0]] + rest[1..]
  }

  /** `sep.join(parts)`, the inverse of `Split`. */
  function Join(parts: seq<string>, sep: char): string
    requires |parts| >= 1
  {
    if |parts| == 1 then parts[0] else parts[0] + [sep] + Join(parts[1..], sep)
  }

  /** Splitting loses nothing: joining the pieces with the separator gives the string back. */
  lemma {:induction false} JoinSplit(s: string, sep: char)
    ensures Join(Split(s, sep), sep) == s
  {
    if |s| > 0 {
      var rest := Split(s[1..], sep);
      JoinSplit(s[1..], sep);
      if s[0] == sep {
        assert Split(s, sep)[1..] == rest;
        assert s == [s[0]] + s[1..];
      } else {
        var r := Split(s, sep);
        assert r[0] == [s[0]] + rest[0];
        if |rest| == 1 {
          assert s == [s[0]] + s[1..];
        } else {
          assert r[1..] == rest[1..];
          assert Join(rest, sep) == rest[0] + [sep] + Join(rest[1..], sep);
          assert s == [s[0]] + s[1..];
        }
      }
    }
  }

  /** "Not less than" is transitive too. */
  lemma StrLeTransitive(a: string, b: string, c: string)
    requires !StrLt(a, b) && !StrLt(b, c)
    ensures !StrLt(a, c)
  {
    StrLtTotal(a, b);
    StrLtTotal(b, c);
    if a != b && b != c {
      StrLtTransitive(c, b, a);
    }
    if c == a {
      StrLtIrreflexive(a);
    } else {
      assert StrLt(c, a);
      StrLtAsymmetric(c, a);
    }
  }

  /** Python `sep.join(parts)`: the parts with `sep` between neighbours; `""` for no parts. */
  function JoinWith(parts: seq<string>, sep: string): string
  {
    if |parts| == 0 then "" else if |parts| == 1 then parts[0] else parts[0] + sep + JoinWith(parts[1..], sep)
  }

  /** Lower-casing cannot produce a lower-case letter that is absent in both cases. */
  lemma LowerLacks(s: string, c: char)
    requires 'a' <= c <= 'z' && c !in s && (c as int - 32) as char !in s
    ensures c !in Lower(s)
  {
    forall i | 0 <= i < |s| ensures Lower(s)[i] != c {
      assert s[i] in s;
    }
  }

  /** A text without the first character of `needle` cannot contain it. */
  lemma NoFirstCharNoContains(hay: string, needle: string)
    requires |needle| > 0 && needle[0] !in hay
    ensures !Contains(hay, needle)
  {
    forall i | 0 <= i <= |hay| ensures !OccursAt(hay, needle, i) {
      if 0 <= i <= |hay| - |needle| {
        assert hay[i..i + |needle|][0] == hay[i];
      }
    }
  }

  /** Python `s.endswith(suffix)`. */
  predicate EndsWith(s: string, suffix: string) {
    |suffix| <= |s| && s[|s| - |suffix|..] == suffix
  }

  /** The decimal digit for `d`. */
  function DigitChar(d: nat): char
    requires d < 10
  {
    "0123456789"[d]
  }

  /** Python `f"{n}"` for a non-negative integer: its decimal digits, no leading zeros. */
  function NatText(n: nat): (r: string)
    ensures |r| >= 1
    decreases n
  {
    if n < 10 then [DigitChar(n)] else NatText(n / 10) + [DigitChar(n % 10)]
  }

  /** Python `f"{i}"` for an integer: a minus sign before the digits of a negative one. */
  function IntText(i: int): string
  {
    if i < 0 then "-" + NatText(-i) else NatText(i)
  }
}
