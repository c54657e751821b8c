/** `_snippet` of app/services/email_search.py: a window of the body around the first query term found. */
module Snippet {
  import opened Common
  import opened Regex
  import opened Text
  import opened Redaction
  import opened SensitiveShapes

  function WordLength(s: string): (n: nat)
    ensures n <= |s|
  {
    if s != "" && !IsSpace(s[0]) then 1 + WordLength(s[1..]) else 0
  }

  /** `s.split()`. */
  function Split(s: string): seq<string>
    decreases |s|
  {
    if s == "" then []
    else if IsSpace(s[0]) then Split(s[1..])
    else [s[..WordLength(s)]] + Split(s[WordLength(s)..])
  }

  lemma {:induction false} WordLengthEnds(s: string)
    ensures forall k :: 0 <= k < WordLength(s) ==> !IsSpace(s[k])
    ensures WordLength(s) < |s| ==> IsSpace(s[WordLength(s)])
  {
    if s != "" && !IsSpace(s[0]) { WordLengthEnds(s[1..]); }
  }

  function Letters(s: string): string {
    if s == "" then "" else (if IsSpace(s[0]) then "" else [s[0]]) + Letters(s[1..])
  }

  function Concat(words: seq<string>): string {
    if words == [] then "" else words[0] + Concat(words[1..])
  }

  lemma {:induction false} LettersOfWord(s: string, n: nat)
    requires n <= |s| && forall k :: 0 <= k < n ==> !IsSpace(s[k])
    ensures Letters(s) == s[..n] + Letters(s[n..])
  {
    if n > 0 {
      LettersOfWord(s[1..], n - 1);
      assert s[..n] == [s[0]] + s[1..][..n - 1];
    }
  }

  ghost predicate IsWord(w: string) {
    w != "" && forall k :: 0 <= k < |w| ==> !IsSpace(w[k])
  }

  lemma {:induction false} SplitWords(s: string)
    ensures forall w :: w in Split(s) ==> IsWord(w)
    decreases |s|
  {
    if s == "" {
    } else if IsSpace(s[0]) {
      SplitWords(s[1..]);
    } else {
      var n := WordLength(s);
      WordLengthEnds(s);
      assert IsWord(s[..n]);
      SplitWords(s[n..]);
    }
  }

  lemma {:induction false} SplitKeepsLetters(s: string)
    ensures Concat(Split(s)) == Letters(s)
    decreases |s|
  {
    if s == "" {
    } else if IsSpace(s[0]) {
      SplitKeepsLetters(s[1..]);
    } else {
      var n := WordLength(s);
      WordLengthEnds(s);
      LettersOfWord(s, n);
      SplitKeepsLetters(s[n..]);
      assert Split(s) == [s[..n]] + Split(s[n..]);
      assert Split(s)[1..] == Split(s[n..]);
    }
  }

  /** The words are what lies between white space: none is empty, none holds any, and nothing else is lost. */
  lemma SplitMeaning(s: string)
    ensures forall w :: w in Split(s) ==> IsWord(w)
    ensures Concat(Split(s)) == Letters(s)
  {
    SplitWords(s);
    SplitKeepsLetters(s);
  }

  lemma {:induction false} WordLengthOf(w: string, rest: string)
    requires forall k :: 0 <= k < |w| ==> !IsSpace(w[k])
    requires rest == "" || IsSpace(rest[0])
    ensures WordLength(w + rest) == |w|
  {
    if w == "" {
      assert w + rest == rest;
    } else {
      assert (w + rest)[1..] == w[1..] + rest;
      WordLengthOf(w[1..], rest);
    }
  }

  lemma SplitOfWord(w: string, rest: string)
    requires IsWord(w) && (rest == "" || IsSpace(rest[0]))
    ensures Split(w + rest) == [w] + Split(rest)
  {
    WordLengthOf(w, rest);
    assert (w + rest)[0] == w[0];
    assert (w + rest)[..|w|] == w && (w + rest)[|w|..] == rest;
  }

  /** Words joined by spaces are split into the same words. */
  lemma {:induction false} SplitOfJoin(words: seq<string>)
    requires forall w :: w in words ==> IsWord(w)
    ensures Split(Join(words)) == words
  {
    if |words| == 1 {
      SplitOfWord(words[0], "");
      assert words[0] + "" == words[0] && words == [words[0]];
    } else if |words| > 1 {
      var rest := " " + Join(words[1..]);
      SplitOfJoin(words[1..]);
      SplitOfWord(words[0], rest);
      assert rest[1..] == Join(words[1..]);
      assert Join(words) == words[0] + rest;
      assert words == [words[0]] + words[1..];
    }
  }

  /** The words on both sides of a white space are those of the sides; a word alone is one word. */
  lemma SplitAtSpace(a: string, c: char, b: string)
    requires IsSpace(c)
    ensures Split("") == []
    ensures IsWord(a) ==> Split(a) == [a]
    ensures Split(a + [c] + b) == Split(a) + Split(b)
  {
    if IsWord(a) {
      SplitOfWord(a, "");
      assert a + "" == a;
    }
    SplitAround(a, c, b);
  }

  lemma {:induction false} SplitAround(a: string, c: char, b: string)
    requires IsSpace(c)
    ensures Split(a + [c] + b) == Split(a) + Split(b)
    decreases |a|
  {
    var s := a + [c] + b;
    if a == "" {
      assert s[0] == c && s[1..] == b;
    } else if IsSpace(a[0]) {
      assert s[1..] == a[1..] + [c] + b;
      SplitAround(a[1..], c, b);
    } else {
      var word, more := a[..WordLength(a)], a[WordLength(a)..];
      WordLengthEnds(a);
      assert a == word + more;
      SplitAround(more, c, b);
      SplitOfWord(word, more);
      assert s == word + (more + [c] + b);
      SplitOfWord(word, more + [c] + b);
    }
  }

  /** `s.find(term)`, from position `i` on. */
  function Find(s: string, term: string, i: nat): (index: int)
    requires i <= |s|
    ensures index >= 0 ==> i <= index && StartsWith(s, index, term)
    ensures index >= 0 ==> forall k :: i <= k < index ==> !StartsWith(s, k, term)
    ensures index < 0 ==> forall k :: i <= k <= |s| ==> !StartsWith(s, k, term)
    decreases |s| - i
  {
    if StartsWith(s, i, term) then i else if i == |s| then -1 else Find(s, term, i + 1)
  }

  /** Where the first of the terms that occurs at all occurs first. */
  function FirstHit(lowered: string, terms: seq<string>): Option<nat> {
    if terms == [] then None
    else if Find(lowered, terms[0], 0) >= 0 then Some(Find(lowered, terms[0], 0))
    else FirstHit(lowered, terms[1..])
  }

  /** The first hit is that of the first term that occurs at all, at its first occurrence. */
  lemma {:induction false} FirstHitMeaning(lowered: string, terms: seq<string>)
    ensures FirstHit(lowered, terms) == None <==> forall term :: term in terms ==> !Contains(lowered, term)
    ensures forall index: nat :: FirstHit(lowered, terms) == Some(index) ==>
              exists n: nat :: n < |terms| && FirstAt(lowered, terms[n], index)
                               && forall m :: 0 <= m < n ==> !Contains(lowered, terms[m])
  {
    if terms != [] {
      var index := Find(lowered, terms[0], 0);
      FindMeaning(lowered, terms[0]);
      FirstHitMeaning(lowered, terms[1..]);
      assert terms == [terms[0]] + terms[1..];
      if index < 0 && FirstHit(lowered, terms[1..]).Some? {
        var hit := FirstHit(lowered, terms[1..]).value;
        var n: nat :| n < |terms[1..]| && FirstAt(lowered, terms[1..][n], hit)
                      && forall m :: 0 <= m < n ==> !Contains(lowered, terms[1..][m]);
        assert terms[n + 1] == terms[1..][n];
        forall m | 0 <= m < n + 1 ensures !Contains(lowered, terms[m]) {
          if m > 0 { assert terms[m] == terms[1..][m - 1]; }
        }
      }
    }
  }

  /** The term stands at this place and at none before it. */
  ghost predicate FirstAt(s: string, term: string, index: nat) {
    StartsWith(s, index, term) && forall k: nat :: k < index ==> !StartsWith(s, k, term)
  }

  lemma FindMeaning(s: string, term: string)
    ensures Find(s, term, 0) >= 0 <==> Contains(s, term)
    ensures Find(s, term, 0) >= 0 ==> FirstAt(s, term, Find(s, term, 0))
  {
  }

  /** `at` starts the word around `from`, or the text. */
  ghost predicate StartsWord(text: string, at: nat, from: nat) {
    && at <= from <= |text|
    && (at == 0 || IsSpace(text[at - 1]))
    && forall k :: at <= k < from ==> !IsSpace(text[k])
  }

  /** Where the window must start. */
  ghost predicate WindowStart(text: string, query: string, first: nat) {
    match FirstHit(Lower(text), Split(Lower(query)))
    case None => first == 0
    case Some(index) => index <= |text| && StartsWord(text, first, Max(0, index - 60))
  }

  /** There is one place where the window can start. */
  lemma WindowStartUnique(text: string, query: string, a: nat, b: nat)
    requires WindowStart(text, query, a) && WindowStart(text, query, b)
    ensures a == b
  {
  }

  function Window(text: string, first: nat, maxLength: nat): string
    requires first <= |text|
  {
    Strip(text[first..Min(first + maxLength, |text|)], WHITESPACE)
      + if first + maxLength < |text| then "..." else ""
  }

  lemma SliceOfSlice(text: string, from: nat, to: nat, x: nat, y: nat)
    requires from <= to <= |text| && x <= y <= to - from
    ensures text[from..to][x..y] == text[from + x..from + y]
  {
    var inner, outer := text[from..to][x..y], text[from + x..from + y];
    assert |inner| == |outer| && forall k :: 0 <= k < |outer| ==> inner[k] == outer[k];
  }

  ghost predicate AllSpace(text: string, from: nat, to: nat) {
    from <= to <= |text| && forall k :: from <= k < to ==> IsSpace(text[k])
  }

  lemma PartSpaces(text: string, first: nat, end: nat, x: nat, y: nat)
    requires first <= end <= |text| && x <= y <= end - first
    requires forall k :: x <= k < y ==> text[first..end][k] in WHITESPACE
    ensures AllSpace(text, first + x, first + y)
  {
    forall k | first + x <= k < first + y ensures IsSpace(text[k]) {
      assert text[k] == text[first..end][k - first];
      WhitespaceIsSpace(text[k]);
    }
  }

  /** A stripped stretch of a text is a part of it, cut off at white space. */
  lemma StrippedStretch(text: string, first: nat, end: nat) returns (a: nat, b: nat)
    requires first <= end <= |text|
    ensures first <= a <= b <= end && Strip(text[first..end], WHITESPACE) == text[a..b]
    ensures AllSpace(text, first, a) && AllSpace(text, b, end)
    ensures a < b ==> !IsSpace(text[a]) && !IsSpace(text[b - 1])
  {
    var part := text[first..end];
    var x, y := StripParts(part, WHITESPACE);
    a, b := first + x, first + y;
    SliceOfSlice(text, first, end, x, y);
    PartSpaces(text, first, end, 0, x);
    PartSpaces(text, first, end, y, end - first);
    StripStrips(part, WHITESPACE);
    if a < b {
      var kept := text[a..b];
      assert kept[0] == text[a] && kept[|kept| - 1] == text[b - 1];
      WhitespaceIsSpace(text[a]);
      WhitespaceIsSpace(text[b - 1]);
    }
  }

  /**
  The window is the text from its start on, `maxLength` characters of it at most, less the white space at
  both ends, with an ellipsis exactly when the text goes on behind it.
  */
  lemma WindowMeaning(text: string, first: nat, maxLength: nat) returns (a: nat, b: nat, end: nat)
    requires first <= |text|
    ensures end == if first + maxLength < |text| then first + maxLength else |text|
    ensures first <= a <= b <= end && AllSpace(text, first, a) && AllSpace(text, b, end)
    ensures a < b ==> !IsSpace(text[a]) && !IsSpace(text[b - 1])
    ensures Window(text, first, maxLength) == text[a..b] + if first + maxLength < |text| then "..." else ""
  {
    end := Min(first + maxLength, |text|);
    a, b := StrippedStretch(text, first, end);
  }

  /**
  The snippet is the redacted window from the start of the word that holds the 60th character
  before the hit. It is at most three characters longer than the window and shows no identifier.
  */
  method MakeSnippet(text: string, query: string, maxLength: nat := 220) returns (snippet: string)
    ensures exists first: nat ::
              first <= |text| && WindowStart(text, query, first) && snippet == Redact(Window(text, first, maxLength))
    ensures |snippet| <= maxLength + 3
    ensures ShowsNoIdentifier(snippet)
  {
    var lowered := Lower(text);
    var firstIndex := 0;
    var terms := Split(Lower(query));
    for n := 0 to |terms|
      invariant firstIndex == 0
      invariant FirstHit(lowered, terms[n..]) == FirstHit(lowered, terms)
    {
      assert terms[n..][1..] == terms[n + 1..];
      var index := Find(lowered, terms[n], 0);
      if index >= 0 {
        firstIndex := Max(0, index - 60);
        while firstIndex > 0 && !IsSpace(text[firstIndex - 1])
          invariant 0 <= firstIndex <= Max(0, index - 60)
          invariant forall k :: firstIndex <= k < Max(0, index - 60) ==> !IsSpace(text[k])
        {
          firstIndex := firstIndex - 1;
        }
        break;
      }
    }
    assert WindowStart(text, query, firstIndex);
    var snip := Strip(text[firstIndex..Min(firstIndex + maxLength, |text|)], WHITESPACE);
    var suffix := if firstIndex + maxLength < |text| then "..." else "";
    assert snip + suffix == Window(text, firstIndex, maxLength);
    StripStrips(text[firstIndex..Min(firstIndex + maxLength, |text|)], WHITESPACE);
    RedactionComplete(snip + suffix);
    NothingSensitiveRemains(snip + suffix);
    snippet := RedactSensitiveText(snip + suffix);
  }
}
