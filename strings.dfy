/**
 * The few operations on Python strings that the admin add-on relies on:
 * `str.title()` (restricted to ASCII letters), `str.replace` of one character,
 * `str.split(sep)`, `str.startswith` and the ordering `<` that `sorted` uses.
 */
module Strings {

  predicate IsUpper(c: char) { 'A' <= c <= 'Z' }
  predicate IsLower(c: char) { 'a' <= c <= 'z' }

  /** A cased character in the sense of `str.title()`, restricted to ASCII. */
  predicate IsCased(c: char) { IsUpper(c) || IsLower(c) }

  function Upper(c: char): (r: char)
    ensures IsCased(c) ==> IsUpper(r) && Lower(r) == Lower(c)
    ensures !IsLower(c) ==> r == c
  {
    if IsLower(c) then (c as int - 32) as char else c
  }

  function Lower(c: char): (r: char)
    ensures IsCased(c) ==> IsLower(r)
    ensures !IsUpper(c) ==> r == c
  {
    if IsUpper(c) then (c as int + 32) as char else c
  }

  /**
   * `str.title()` on the rest of a string, where `afterCased` says whether the
   * character just before it was cased: a cased character is upper-cased at
   * the start of a word (after an uncased one) and lower-cased inside a word.
   */
  function TitleFrom(s: string, afterCased: bool): (r: string)
    ensures |r| == |s|
    ensures forall i :: 0 <= i < |s| && !IsCased(s[i]) ==> r[i] == s[i]
    ensures forall i :: 0 <= i < |s| && IsCased(s[i]) ==>
              r[i] == if (if i == 0 then afterCased else IsCased(s[i - 1])) then Lower(s[i]) else Upper(s[i])
  {
    if s == [] then []
    else
      var c := if !IsCased(s[0]) then s[0] else if afterCased then Lower(s[0]) else Upper(s[0]);
      [c] + TitleFrom(s[1..], IsCased(s[0]))
  }

  /** Python's `s.title()` for ASCII text. */
  function Title(s: string): (titled: string) {
    TitleFrom(s, false)
  }

  /** Title-casing keeps length, keeps uncased characters and capitalises each word's first letter. */
  lemma TitleShape(s: string)
    ensures |Title(s)| == |s|
    ensures forall i :: 0 <= i < |s| ==> IsCased(Title(s)[i]) == IsCased(s[i])
    ensures forall i :: 0 <= i < |s| && IsCased(s[i]) ==>
              (IsUpper(Title(s)[i]) <==> i == 0 || !IsCased(s[i - 1]))
  {
    var t := TitleFrom(s, false);
    forall i | 0 <= i < |s|
      ensures IsCased(t[i]) == IsCased(s[i])
    {
      if IsCased(s[i]) {
        var before := if i == 0 then false else IsCased(s[i - 1]);
        assert t[i] == if before then Lower(s[i]) else Upper(s[i]);
        assert IsLower(Lower(s[i])) && IsUpper(Upper(s[i]));
      } else {
        assert t[i] == s[i];
      }
    }
  }

  /** Title-casing a title-cased string changes nothing. */
  lemma TitleIdempotent(s: string)
    ensures Title(Title(s)) == Title(s)
  {
    var t := Title(s);
    TitleShape(s);
    forall i | 0 <= i < |s|
      ensures Title(t)[i] == t[i]
    {
      if IsCased(s[i]) {
        assert i > 0 ==> IsCased(t[i - 1]) == IsCased(s[i - 1]);
      }
    }
  }

  /** Python's `s.replace(old, new)` for single characters. */
  function ReplaceChar(s: string, from: char, to: char): (r: string)
    ensures |r| == |s|
    ensures forall i :: 0 <= i < |s| ==> r[i] == if s[i] == from then to else s[i]
  {
    if s == [] then [] else [if s[0] == from then to else s[0]] + ReplaceChar(s[1..], from, to)
  }

  /** Python's `s.startswith(prefix)`. */
  predicate StartsWith(s: string, prefix: string) {
    |prefix| <= |s| && s[..|prefix|] == prefix
  }

  /** The first position of `c` in `s`. */
  function IndexOf(s: string, c: char): (i: nat)
    requires c in s
    ensures i < |s| && s[i] == c && c !in s[..i]
  {
    if s[0] == c then 0 else 1 + IndexOf(s[1..], c)
  }

  /** `sep.join(parts)`. */
  function Join(parts: seq<string>, sep: char): string
    requires |parts| >= 1
  {
    if |parts| == 1 then parts[0] else parts[0] + [sep] + Join(parts[1..], sep)
  }

  /**
   * Python's `s.split(sep)`: the pieces between occurrences of `sep`, empty
   * pieces included, so that there is always at least one.
   */
  function Split(s: string, sep: char): (parts: seq<string>)
    ensures |parts| >= 1
    ensures forall i :: 0 <= i < |parts| ==> sep !in parts[i]
    ensures Join(parts, sep) == s
    decreases |s|
  {
    if sep !in s then [s]
    else
      var i := IndexOf(s, sep);
      var rest := Split(s[i + 1..], sep);
      assert s == s[..i] + [sep] + s[i + 1..];
      [s[..i]] + rest
  }

  /** Splitting a joined list of separator-free pieces gives the pieces back. */
  lemma {:induction false} SplitJoin(parts: seq<string>, sep: char)
    requires |parts| >= 1
    requires forall i :: 0 <= i < |parts| ==> sep !in parts[i]
    ensures Split(Join(parts, sep), sep) == parts
  {
    if |parts| > 1 {
      var p, rest := parts[0], Join(parts[1..], sep);
      var s := p + [sep] + rest;
      assert s[|p|] == sep;
      var i := IndexOf(s, sep);
      assert i == |p|;
      assert s[..i] == p;
      assert s[i + 1..] == rest;
      SplitJoin(parts[1..], sep);
    }
  }

  /** Python's ordering of strings: code point by code point, a proper prefix first. */
  predicate Less(a: string, b: string) {
    if a == [] then b != []
    else if b == [] then false
    else if a[0] != b[0] then a[0] < b[0]
    else Less(a[1..], b[1..])
  }

  predicate LessOrEqual(a: string, b: string) {
    a == b || Less(a, b)
  }

  lemma {:induction false} LessIrreflexive(a: string)
    ensures !Less(a, a)
  {
    if a != [] { LessIrreflexive(a[1..]); }
  }

  lemma {:induction false} LessTransitive(a: string, b: string, c: string)
    requires Less(a, b) && Less(b, c)
    ensures Less(a, c)
  {
    if a != [] && b != [] && c != [] && a[0] == b[0] && b[0] == c[0] {
      LessTransitive(a[1..], b[1..], c[1..]);
    }
  }

  lemma {:induction false} LessTotal(a: string, b: string)
    ensures a == b || Less(a, b) || Less(b, a)
  {
    if a != [] && b != [] && a[0] == b[0] {
      LessTotal(a[1..], b[1..]);
      if a[1..] == b[1..] {
        assert a == [a[0]] + a[1..] && b == [b[0]] + b[1..];
      }
    }
  }

  lemma {:induction false} LessAsymmetric(a: string, b: string)
    requires Less(a, b)
    ensures !Less(b, a)
  {
    if a != [] && b != [] && a[0] == b[0] {
      LessAsymmetric(a[1..], b[1..]);
    }
  }
}
