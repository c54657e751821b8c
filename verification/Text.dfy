/** The string operations the text functions use, on ASCII text. */
module Text {
  import opened Common
  import opened Regex

  function LowerChar(c: char): char {
    if 'A' <= c <= 'Z' then (c as int - 'A' as int + 'a' as int) as char else c
  }

  function Lower(s: string): (r: string)
    ensures |r| == |s|
  {
    seq(|s|, i requires 0 <= i < |s| => LowerChar(s[i]))
  }

  /** `s.strip(chars)`: characters of the set removed from both ends. */
  function StripLeft(s: string, chars: set<char>): string {
    if s != "" && s[0] in chars then StripLeft(s[1..], chars) else s
  }

  function StripRight(s: string, chars: set<char>): string {
    if s != "" && s[|s| - 1] in chars then StripRight(s[..|s| - 1], chars) else s
  }

  function Strip(s: string, chars: set<char>): string {
    StripRight(StripLeft(s, chars), chars)
  }

  const WHITESPACE: set<char> := {' ', 9 as char, 10 as char, 11 as char, 12 as char, 13 as char,
                                  28 as char, 29 as char, 30 as char, 31 as char}

  function Join(words: seq<string>): string {
    if words == [] then ""
    else if |words| == 1 then words[0]
    else words[0] + " " + Join(words[1..])
  }

  predicate StartsWith(s: string, i: nat, term: string) {
    i + |term| <= |s| && s[i..i + |term|] == term
  }

  /** `term in s`. */
  predicate Contains(s: string, term: string) {
    exists i: nat :: i <= |s| && StartsWith(s, i, term)
  }

  lemma {:induction false} StripShortens(s: string, chars: set<char>)
    ensures |StripLeft(s, chars)| <= |s| && |StripRight(s, chars)| <= |s|
  {
    if s != "" {
      StripShortens(s[1..], chars);
      StripShortens(s[..|s| - 1], chars);
    }
  }

  /** Neither end of a stripped string is in the set; and such a string is left alone. */
  ghost predicate Stripped(s: string, chars: set<char>) {
    s == "" || (s[0] !in chars && s[|s| - 1] !in chars)
  }

  lemma {:induction false} StripRightKeepsLeft(s: string, chars: set<char>)
    requires s == "" || s[0] !in chars
    ensures Stripped(StripRight(s, chars), chars)
  {
    if s != "" && s[|s| - 1] in chars {
      StripRightKeepsLeft(s[..|s| - 1], chars);
    }
  }

  lemma {:induction false} StripLeftStrips(s: string, chars: set<char>)
    ensures var r := StripLeft(s, chars); r == "" || r[0] !in chars
  {
    if s != "" && s[0] in chars { StripLeftStrips(s[1..], chars); }
  }

  lemma StripStrips(s: string, chars: set<char>)
    ensures Stripped(Strip(s, chars), chars)
    ensures Stripped(s, chars) ==> Strip(s, chars) == s
    ensures |Strip(s, chars)| <= |s|
  {
    StripLeftStrips(s, chars);
    StripRightKeepsLeft(StripLeft(s, chars), chars);
    StripShortens(s, chars);
    StripShortens(StripLeft(s, chars), chars);
  }

  lemma {:induction false} StripKeepsChars(s: string, chars: set<char>, c: char)
    ensures c in StripLeft(s, chars) ==> c in s
    ensures c in StripRight(s, chars) ==> c in s
  {
    if s != "" {
      StripKeepsChars(s[1..], chars, c);
      StripKeepsChars(s[..|s| - 1], chars, c);
    }
  }

  /** Stripping removes characters of the set from the two ends, and nothing else. */
  lemma StripParts(s: string, chars: set<char>) returns (a: nat, b: nat)
    ensures a <= b <= |s| && Strip(s, chars) == s[a..b]
    ensures forall k :: 0 <= k < a || b <= k < |s| ==> s[k] in chars
  {
    a := StripLeftParts(s, chars);
    var end := StripRightParts(s[a..], chars);
    b := a + end;
    assert s[a..][..end] == s[a..b];
    forall k | b <= k < |s| ensures s[k] in chars {
      assert s[k] == s[a..][k - a];
    }
  }

  lemma {:induction false} StripLeftParts(s: string, chars: set<char>) returns (a: nat)
    ensures a <= |s| && StripLeft(s, chars) == s[a..] && forall k :: 0 <= k < a ==> s[k] in chars
  {
    a := 0;
    if s != "" && s[0] in chars {
      var rest := StripLeftParts(s[1..], chars);
      a := rest + 1;
      assert s[1..][rest..] == s[a..];
      assert forall k :: 1 <= k < a ==> s[k] == s[1..][k - 1];
    }
  }

  lemma {:induction false} StripRightParts(s: string, chars: set<char>) returns (b: nat)
    ensures b <= |s| && StripRight(s, chars) == s[..b] && forall k :: b <= k < |s| ==> s[k] in chars
  {
    b := |s|;
    if s != "" && s[|s| - 1] in chars {
      b := StripRightParts(s[..|s| - 1], chars);
      assert s[..|s| - 1][..b] == s[..b];
      assert forall k :: b <= k < |s| - 1 ==> s[k] == s[..|s| - 1][k];
    }
  }

  const UPPER := "ABCDEFGHIJKLMNOPQRSTUVWXYZ"
  const LOWER := "abcdefghijklmnopqrstuvwxyz"

  /** Lower-casing maps the letters of one alphabet to the other, place by place. */
  lemma LowerLetter(k: nat)
    requires k < 26
    ensures LowerChar(UPPER[k]) == LOWER[k]
  {
  }

  /** Nothing but capital letters is changed, and none remains. */
  lemma LowerMeaning(s: string, i: nat)
    requires i < |s|
    ensures |Lower(s)| == |s| && Lower(s)[i] == LowerChar(s[i])
    ensures Lower(s)[i] == s[i] <==> s[i] < 'A' || 'Z' < s[i]
    ensures Lower(s)[i] < 'A' || 'Z' < Lower(s)[i]
  {
  }

  /** `term in s`. */
  lemma ContainsMeaning(s: string, term: string)
    ensures Contains(s, term) <==> exists a: string, b: string :: s == a + term + b
  {
    if Contains(s, term) {
      var i: nat :| i <= |s| && StartsWith(s, i, term);
      assert s == s[..i] + term + s[i + |term|..];
    }
    if a: string, b: string :| s == a + term + b {
      assert s[|a|..|a| + |term|] == term;
      assert StartsWith(s, |a|, term);
    }
  }

  /** `str.isspace` on ASCII, and what `str.strip` strips. */
  lemma WhitespaceIsSpace(c: char)
    ensures c in WHITESPACE <==> IsSpace(c)
  {
  }

  lemma StartsWithAt(s: string, i: nat, term: string)
    ensures StartsWith(s, i, term) <==> i + |term| <= |s| && forall k: nat :: k < |term| ==> s[i + k] == term[k]
  {
    if i + |term| <= |s| && forall k: nat :: k < |term| ==> s[i + k] == term[k] {
      assert s[i..i + |term|] == term;
    }
    if StartsWith(s, i, term) {
      forall k: nat | k < |term| ensures s[i + k] == term[k] { assert s[i..i + |term|][k] == term[k]; }
    }
  }

  /** What occurs in a part occurs in the whole. */
  lemma ContainsWider(a: string, part: string, b: string, term: string)
    requires Contains(part, term)
    ensures Contains(a + part + b, term)
  {
    var i: nat :| i <= |part| && StartsWith(part, i, term);
    StartsWithAt(part, i, term);
    var j := |a| + i;
    assert forall k: nat :: k < |term| ==> (a + part + b)[j + k] == term[k];
    StartsWithAt(a + part + b, j, term);
  }

  lemma OccursBefore(a: string, b: string, term: string, i: nat)
    requires StartsWith(a + " " + b, i, term) && i + |term| <= |a|
    ensures Contains(a, term)
  {
    StartsWithAt(a + " " + b, i, term);
    assert forall k: nat :: k < |term| ==> a[i + k] == term[k];
    StartsWithAt(a, i, term);
  }

  lemma OccursBehind(a: string, b: string, term: string, i: nat)
    requires StartsWith(a + " " + b, i, term) && |a| < i
    ensures Contains(b, term)
  {
    StartsWithAt(a + " " + b, i, term);
    var j: nat := i - |a| - 1;
    assert forall k: nat :: k < |term| ==> b[j + k] == term[k];
    StartsWithAt(b, j, term);
  }

  /** A term without a space in it does not reach across one. */
  lemma ContainsAround(a: string, b: string, term: string)
    requires term != "" && ' ' !in term
    ensures Contains(a + " " + b, term) <==> Contains(a, term) || Contains(b, term)
  {
    var s := a + " " + b;
    if i: nat :| i <= |s| && StartsWith(s, i, term) {
      StartsWithAt(s, i, term);
      if i + |term| <= |a| {
        OccursBefore(a, b, term, i);
      } else if i > |a| {
        OccursBehind(a, b, term, i);
      } else {
        SpaceInside(a, b, term, i);
      }
    }
    if Contains(a, term) {
      ContainsWider("", a, " " + b, term);
      assert "" + a + (" " + b) == s;
    }
    if Contains(b, term) {
      ContainsWider(a + " ", b, "", term);
      assert a + " " + b + "" == s;
    }
  }

  lemma SpaceInside(a: string, b: string, term: string, i: nat)
    requires StartsWith(a + " " + b, i, term) && i <= |a| < i + |term|
    ensures ' ' in term
  {
    StartsWithAt(a + " " + b, i, term);
    var k: nat := |a| - i;
    assert (a + " " + b)[i + k] == ' ' && term[k] == ' ';
  }

  /** What occurs in words joined by spaces occurs in one of them. */
  lemma {:induction false} ContainsJoined(words: seq<string>, term: string)
    requires term != "" && ' ' !in term
    ensures Contains(Join(words), term) <==> exists w :: w in words && Contains(w, term)
  {
    if |words| == 1 {
      assert words[0] in words;
    } else if |words| > 1 {
      ContainsAround(words[0], Join(words[1..]), term);
      assert Join(words) == words[0] + " " + Join(words[1..]);
      ContainsJoined(words[1..], term);
      assert words == [words[0]] + words[1..];
    }
  }

  function LowerAll(words: seq<string>): (r: seq<string>)
    ensures |r| == |words| && forall k :: 0 <= k < |words| ==> r[k] == Lower(words[k])
  {
    seq(|words|, k requires 0 <= k < |words| => Lower(words[k]))
  }

  lemma {:induction false} LowerJoined(words: seq<string>)
    ensures Lower(Join(words)) == Join(LowerAll(words))
  {
    if |words| > 1 {
      LowerJoined(words[1..]);
      assert LowerAll(words)[1..] == LowerAll(words[1..]);
      assert Lower(words[0] + " " + Join(words[1..])) == Lower(words[0]) + " " + Lower(Join(words[1..]));
    }
  }
}
