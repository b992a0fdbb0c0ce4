/** The string operations of Go's `strings` package that the disk manager uses, over sequences of characters. */
module Strings {

  datatype Option<+T> = None | Some(value: T) {
    function GetOr(default: T): T {
      match this
      case Some(v) => v
      case None => default
    }
  }

  predicate HasPrefix(s: string, p: string) { p <= s }

  function TrimPrefix(s: string, p: string): string {
    if HasPrefix(s, p) then s[|p|..] else s
  }

  function TrimSuffix(s: string, p: string): string {
    if |p| <= |s| && s[|s| - |p|..] == p then s[..|s| - |p|] else s
  }

  predicate Contains(s: string, sub: string) {
    sub <= s || (s != "" && Contains(s[1..], sub))
  }

  predicate OccursAt(s: string, sub: string, i: int) { 0 <= i && i + |sub| <= |s| && s[i..i + |sub|] == sub }

  /** The text stands at some position of the string. */
  ghost predicate Occurs(s: string, sub: string) { exists i :: OccursAt(s, sub, i) }

  lemma {:induction false} ContainsExactly(s: string, sub: string)
    ensures Contains(s, sub) <==> Occurs(s, sub)
  {
    if sub <= s {
      assert OccursAt(s, sub, 0);
    } else if s != "" {
      ContainsExactly(s[1..], sub);
      forall i ensures OccursAt(s[1..], sub, i) <==> OccursAt(s, sub, i + 1) {
        OccursShifted(s, sub, i);
      }
      if i :| OccursAt(s, sub, i) {
        assert i != 0;
        assert OccursAt(s[1..], sub, i - 1);
      }
    }
  }

  lemma OccursShifted(s: string, sub: string, i: int)
    requires s != "" && !(sub <= s)
    ensures OccursAt(s[1..], sub, i) <==> OccursAt(s, sub, i + 1)
  {
    assert |sub| <= |s| ==> s[0..|sub|] == s[..|sub|];
    if 0 <= i && i + 1 + |sub| <= |s| {
      assert s[1..][i..i + |sub|] == s[i + 1..i + 1 + |sub|];
    }
  }

  /** `strings.Split` for a one-character separator: always at least one part. */
  function Split(s: string, sep: char): (parts: seq<string>)
    ensures |parts| >= 1
    ensures forall i | 0 <= i < |parts| :: sep !in parts[i]
  {
    if s == "" then
      [""]
    else
      var rest := Split(s[1..], sep);
      if s[0] == sep then [""] + rest else [[s[0]] + rest[0]] + rest[1..]
  }

  function Join(parts: seq<string>, sep: char): string {
    if |parts| == 0 then ""
    else if |parts| == 1 then parts[0]
    else parts[0] + [sep] + Join(parts[1..], sep)
  }

  /** A separator-free word in front of a separator is split off as the first part. */
  lemma {:induction false} SplitWord(word: string, rest: string, sep: char)
    requires sep !in word
    ensures Split(word + [sep] + rest, sep) == [word] + Split(rest, sep)
  {
    var s := word + [sep] + rest;
    if word == "" {
      assert s[1..] == rest;
    } else {
      SplitWord(word[1..], rest, sep);
      assert s[1..] == word[1..] + [sep] + rest;
      assert [word[0]] + word[1..] == word;
    }
  }

  lemma {:induction false} SplitSingle(word: string, sep: char)
    requires sep !in word
    ensures Split(word, sep) == [word]
  {
    if word != "" {
      SplitSingle(word[1..], sep);
      assert [word[0]] + word[1..] == word;
    }
  }

  /** Splitting undoes joining whenever no part holds the separator. */
  lemma {:induction false} SplitJoin(parts: seq<string>, sep: char)
    requires |parts| >= 1
    requires forall i | 0 <= i < |parts| :: sep !in parts[i]
    ensures Split(Join(parts, sep), sep) == parts
  {
    if |parts| == 1 {
      SplitSingle(parts[0], sep);
    } else {
      SplitJoin(parts[1..], sep);
      SplitWord(parts[0], Join(parts[1..], sep), sep);
    }
  }

  /** `strings.SplitN(s, c, 2)` when both halves are wanted: the text before and after the first `c`. */
  function Cut(s: string, c: char): Option<(string, string)> {
    if s == "" then None
    else if s[0] == c then Some(("", s[1..]))
    else match Cut(s[1..], c)
      case None => None
      case Some(halves) => Some(([s[0]] + halves.0, halves.1))
  }

  lemma {:induction false} CutAtFirst(key: string, value: string, c: char)
    requires c !in key
    ensures Cut(key + [c] + value, c) == Some((key, value))
  {
    var s := key + [c] + value;
    if key == "" {
      assert s[1..] == value;
    } else {
      CutAtFirst(key[1..], value, c);
      assert s[1..] == key[1..] + [c] + value;
      assert [key[0]] + key[1..] == key;
    }
  }

  lemma {:induction false} NoCut(s: string, c: char)
    requires c !in s
    ensures Cut(s, c).None?
  {
    if s != "" { NoCut(s[1..], c); }
  }
}
