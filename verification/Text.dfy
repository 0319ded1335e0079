/** The string operations rule entries go through, on ASCII text. */
module Text {

  predicate IsSpace(c: char) {
    c == ' ' || 9 <= c as int <= 13
  }

  function TrimLeft(s: string): string {
    if s != [] && IsSpace(s[0]) then TrimLeft(s[1..]) else s
  }

  function TrimRight(s: string): string {
    if s != [] && IsSpace(s[|s| - 1]) then TrimRight(s[..|s| - 1]) else s
  }

  /** strings.TrimSpace and String.prototype.trim. */
  function Trim(s: string): string {
    TrimRight(TrimLeft(s))
  }

  predicate Trimmed(t: string) {
    t == [] || (!IsSpace(t[0]) && !IsSpace(t[|t| - 1]))
  }

  lemma {:induction false} TrimLeftStarts(s: string)
    ensures TrimLeft(s) == [] || !IsSpace(TrimLeft(s)[0])
    ensures |TrimLeft(s)| <= |s|
    ensures TrimLeft(s) != [] ==> TrimLeft(s)[|TrimLeft(s)| - 1] == s[|s| - 1]
  {
    if s != [] && IsSpace(s[0]) {
      TrimLeftStarts(s[1..]);
    }
  }

  lemma {:induction false} TrimRightEnds(s: string)
    ensures TrimRight(s) == [] || (!IsSpace(TrimRight(s)[|TrimRight(s)| - 1]) && TrimRight(s)[0] == s[0])
    ensures TrimRight(s) != [] ==> s != []
  {
    if s != [] && IsSpace(s[|s| - 1]) {
      TrimRightEnds(s[..|s| - 1]);
    }
  }

  lemma TrimTrims(s: string)
    ensures Trimmed(Trim(s))
  {
    TrimLeftStarts(s);
    TrimRightEnds(TrimLeft(s));
  }

  /** Trimmed text is unchanged by trimming. */
  lemma TrimOfTrimmed(t: string)
    requires Trimmed(t)
    ensures Trim(t) == t && TrimLeft(t) == t
  {
  }

  function UpperChar(c: char): char {
    if 'a' <= c <= 'z' then c - 32 as char else c
  }

  function Upper(s: string): string {
    if s == [] then [] else [UpperChar(s[0])] + Upper(s[1..])
  }

  function LowerChar(c: char): char {
    if 'A' <= c <= 'Z' then c + 32 as char else c
  }

  function Lower(s: string): string {
    if s == [] then [] else [LowerChar(s[0])] + Lower(s[1..])
  }

  predicate HasPrefix(s: string, p: string) {
    p <= s
  }

  predicate HasSuffix(s: string, p: string) {
    |p| <= |s| && s[|s| - |p|..] == p
  }

  predicate Contains(s: string, p: string) {
    exists i | 0 <= i <= |s| :: p <= s[i..]
  }

  /** strings.Split with a one-character separator. */
  function Split(s: string, sep: char): (parts: seq<string>)
    ensures parts != []
  {
    if s == [] then [[]] else SplitFront(s[0], sep, Split(s[1..], sep))
  }

  function SplitFront(c: char, sep: char, rest: seq<string>): (parts: seq<string>)
    requires rest != []
    ensures parts != []
  {
    if c == sep then [[]] + rest else [[c] + rest[0]] + rest[1..]
  }

  lemma SplitFrontConcat(c: char, sep: char, a: seq<string>, b: seq<string>)
    requires a != []
    ensures SplitFront(c, sep, a + b) == SplitFront(c, sep, a) + b
  {
    assert (a + b)[1..] == a[1..] + b;
    assert [[]] + (a + b) == [[]] + a + b;
    assert [[c] + a[0]] + (a[1..] + b) == [[c] + a[0]] + a[1..] + b;
  }

  function Join(parts: seq<string>, sep: char): string
    requires parts != []
  {
    if |parts| == 1 then parts[0] else parts[0] + [sep] + Join(parts[1..], sep)
  }

  lemma {:induction false} JoinSplit(s: string, sep: char)
    ensures Join(Split(s, sep), sep) == s
  {
    if s != [] {
      JoinSplit(s[1..], sep);
      var rest := Split(s[1..], sep);
      assert Split(s, sep) == SplitFront(s[0], sep, rest);
      if s[0] == sep {
        assert ([[]] + rest)[1..] == rest;
      } else {
        assert ([[s[0]] + rest[0]] + rest[1..])[1..] == rest[1..];
      }
    }
  }

  lemma {:induction false} SplitConcat(x: string, sep: char, y: string)
    ensures Split(x + [sep] + y, sep) == Split(x, sep) + Split(y, sep)
  {
    if x == [] {
      assert (x + [sep] + y)[0] == sep && (x + [sep] + y)[1..] == y;
    } else {
      assert (x + [sep] + y)[0] == x[0] && (x + [sep] + y)[1..] == x[1..] + [sep] + y;
      SplitConcat(x[1..], sep, y);
      SplitFrontConcat(x[0], sep, Split(x[1..], sep), Split(y, sep));
    }
  }

  lemma {:induction false} JoinConcat(a: seq<string>, b: seq<string>, sep: char)
    requires a != [] && b != []
    ensures Join(a + b, sep) == Join(a, sep) + [sep] + Join(b, sep)
  {
    if |a| == 1 {
      assert (a + b)[1..] == b;
    } else {
      assert (a + b)[1..] == a[1..] + b;
      JoinConcat(a[1..], b, sep);
    }
  }

  predicate IsSuffix(a: seq<string>, b: seq<string>) {
    |a| <= |b| && b[|b| - |a|..] == a
  }

  lemma SuffixHasParts(s: string, p: string, sep: char)
    requires HasSuffix(s, [sep] + p)
    ensures IsSuffix(Split(p, sep), Split(s, sep))
  {
    var x := s[..|s| - |p| - 1];
    assert s == x + [sep] + p;
    SplitConcat(x, sep, p);
    var a := Split(p, sep);
    assert (Split(x, sep) + a)[|Split(x, sep)|..] == a;
  }

  lemma PartsHaveSuffix(s: string, p: string, sep: char)
    requires IsSuffix(Split(p, sep), Split(s, sep)) && Split(p, sep) != Split(s, sep)
    ensures HasSuffix(s, [sep] + p)
  {
    var a, b := Split(p, sep), Split(s, sep);
    JoinSplit(p, sep);
    JoinSplit(s, sep);
    ProperSuffix(a, b);
    LongerJoin(b[..|b| - |a|], a, b, sep);
  }

  lemma ProperSuffix(a: seq<string>, b: seq<string>)
    requires IsSuffix(a, b) && a != b
    ensures b == b[..|b| - |a|] + a && |a| < |b|
  {
  }

  lemma LongerJoin(x: seq<string>, a: seq<string>, b: seq<string>, sep: char)
    requires x != [] && a != [] && b == x + a
    ensures HasSuffix(Join(b, sep), [sep] + Join(a, sep))
  {
    JoinConcat(x, a, sep);
    assert Join(b, sep) == Join(x, sep) + ([sep] + Join(a, sep));
  }

  /** A text equals another, or ends in it after a separator, exactly when its parts end in the other's parts. */
  lemma SuffixOfParts(s: string, p: string, sep: char)
    ensures s == p || HasSuffix(s, [sep] + p) <==> IsSuffix(Split(p, sep), Split(s, sep))
  {
    if HasSuffix(s, [sep] + p) {
      SuffixHasParts(s, p, sep);
    }
    if IsSuffix(Split(p, sep), Split(s, sep)) {
      if Split(p, sep) == Split(s, sep) {
        JoinSplit(p, sep);
        JoinSplit(s, sep);
      } else {
        PartsHaveSuffix(s, p, sep);
      }
    }
  }

  lemma {:induction false} SplitWhole(s: string, sep: char)
    requires sep !in s
    ensures Split(s, sep) == [s]
  {
    if s != [] {
      SplitWhole(s[1..], sep);
      assert [s[0]] + s[1..] == s;
    }
  }

  lemma SplitThree(x: string, y: string, z: string, sep: char)
    requires sep !in x && sep !in y && sep !in z
    ensures Split(x + [sep] + (y + [sep] + z), sep) == [x, y, z]
  {
    SplitConcat(x, sep, y + [sep] + z);
    SplitConcat(y, sep, z);
    SplitWhole(x, sep);
    SplitWhole(y, sep);
    SplitWhole(z, sep);
  }

  lemma {:induction false} UpperAt(s: string, i: nat)
    requires i < |s|
    ensures |Upper(s)| == |s| && Upper(s)[i] == UpperChar(s[i])
  {
    if i > 0 {
      UpperAt(s[1..], i - 1);
    } else if |s| > 1 {
      UpperAt(s[1..], 0);
    }
  }

  lemma {:induction false} UpperOfUpper(s: string)
    requires forall i :: 0 <= i < |s| ==> UpperChar(s[i]) == s[i]
    ensures Upper(s) == s
  {
    if s != [] {
      UpperOfUpper(s[1..]);
    }
  }

  const LOWER_CASE := "abcdefghijklmnopqrstuvwxyz"
  const UPPER_CASE := "ABCDEFGHIJKLMNOPQRSTUVWXYZ"

  /** The letters change case one for one, and nothing else changes. */
  lemma Letters(c: char, i: nat)
    requires i < 26
    ensures UpperChar(LOWER_CASE[i]) == UPPER_CASE[i] && LowerChar(UPPER_CASE[i]) == LOWER_CASE[i]
    ensures c !in LOWER_CASE ==> UpperChar(c) == c
    ensures c !in UPPER_CASE ==> LowerChar(c) == c
  {
    if 'a' <= c <= 'z' {
      assert LOWER_CASE[c as int - 97] == c;
    }
    if 'A' <= c <= 'Z' {
      assert UPPER_CASE[c as int - 65] == c;
    }
  }

  /** The blanks: space, tab, line feed, vertical tab, form feed and carriage return. */
  lemma Blanks(c: char)
    ensures IsSpace(c) <==> c as int in {32, 9, 10, 11, 12, 13}
  {
  }
}
