/**
`_conversation_search_query` of app/services/conversation.py: the question is lower-cased and cut
into tokens, the tokens are trimmed, and short ones, numbers and stop words are dropped.
*/
module QueryExtraction {
  import opened Regex
  import opened Text

  const STOPWORDS: set<string> := {
    "a", "about", "all", "an", "and", "any", "are", "as", "ask", "can", "context", "conversation",
    "day", "days", "did", "do", "does", "email", "emails", "find", "for", "from", "give", "i", "in",
    "is", "latest", "last", "me", "message", "messages", "month", "months", "of", "on", "please",
    "recent", "show", "summarize", "summary", "tell", "the", "to", "today", "was", "week", "weeks",
    "were", "what", "when", "where", "who", "why", "with", "yesterday", "you"}

  const PUNCTUATION: set<char> := {'.', ',', '?', '!', ':', ';', '(', ')', '[', ']', '{', '}', '"', '\''}

  /** `[a-zA-Z0-9@._+-]`. */
  predicate TokenChar(c: char) {
    IsLetter(c) || IsDigit(c) || c in {'@', '.', '_', '+', '-'}
  }

  function RunLength(s: string): (n: nat)
    ensures n <= |s|
  {
    if s != "" && TokenChar(s[0]) then 1 + RunLength(s[1..]) else 0
  }

  /** `re.findall` of the maximal runs of token characters. */
  function Tokens(s: string): seq<string>
    decreases |s|
  {
    if s == "" then []
    else if TokenChar(s[0]) then [s[..RunLength(s)]] + Tokens(s[RunLength(s)..])
    else Tokens(s[1..])
  }

  predicate AllDigits(s: string) {
    s != "" && forall i :: 0 <= i < |s| ==> IsDigit(s[i])
  }

  predicate Meaningful(token: string) {
    |token| >= 2 && !AllDigits(token) && token !in STOPWORDS
  }

  function Trimmed(tokens: seq<string>): (r: seq<string>)
    ensures |r| == |tokens|
    ensures forall i :: 0 <= i < |r| ==> r[i] == Strip(tokens[i], PUNCTUATION)
  {
    seq(|tokens|, i requires 0 <= i < |tokens| => Strip(tokens[i], PUNCTUATION))
  }

  function Kept(tokens: seq<string>): seq<string> {
    if tokens == [] then [] else (if Meaningful(tokens[0]) then [tokens[0]] else []) + Kept(tokens[1..])
  }

  function Keywords(question: string): seq<string> {
    Kept(Trimmed(Tokens(Lower(question))))
  }

  function SearchQuery(question: string): string {
    var meaningful := Keywords(question);
    if meaningful != [] then Join(meaningful) else Strip(question, WHITESPACE)
  }

  // ---- What a keyword looks like ------------------------------------------------------------------

  ghost predicate TokenText(s: string) {
    forall i :: 0 <= i < |s| ==> TokenChar(s[i]) && LowerChar(s[i]) == s[i]
  }

  /** A keyword: meaningful, lower-case, made of token characters, trimmed. */
  ghost predicate Keyword(token: string) {
    Meaningful(token) && TokenText(token) && Stripped(token, PUNCTUATION)
  }

  lemma {:induction false} RunLengthChars(s: string, i: nat)
    requires i < RunLength(s)
    ensures TokenChar(s[i])
  {
    if i > 0 { RunLengthChars(s[1..], i - 1); }
  }

  lemma {:induction false} TokensAreTokens(s: string, k: nat)
    requires k < |Tokens(s)| && forall i :: 0 <= i < |s| ==> LowerChar(s[i]) == s[i]
    ensures TokenText(Tokens(s)[k])
    decreases |s|
  {
    if TokenChar(s[0]) {
      var n := RunLength(s);
      if k == 0 {
        forall i | 0 <= i < n ensures TokenChar(s[..n][i]) { RunLengthChars(s, i); }
      } else {
        TokensAreTokens(s[n..], k - 1);
      }
    } else {
      TokensAreTokens(s[1..], k);
    }
  }

  lemma StripTokenText(token: string)
    requires TokenText(token)
    ensures TokenText(Strip(token, PUNCTUATION))
  {
    var r := Strip(token, PUNCTUATION);
    forall i | 0 <= i < |r| ensures TokenChar(r[i]) && LowerChar(r[i]) == r[i] {
      StripKeepsChars(StripLeft(token, PUNCTUATION), PUNCTUATION, r[i]);
      StripKeepsChars(token, PUNCTUATION, r[i]);
      assert r[i] in token;
    }
  }

  lemma {:induction false} KeptAre(tokens: seq<string>, k: nat)
    requires k < |Kept(tokens)|
    requires forall i :: 0 <= i < |tokens| ==> TokenText(tokens[i]) && Stripped(tokens[i], PUNCTUATION)
    ensures Keyword(Kept(tokens)[k])
  {
    if Meaningful(tokens[0]) {
      if k > 0 { KeptAre(tokens[1..], k - 1); }
    } else {
      KeptAre(tokens[1..], k);
    }
  }

  /** Every extracted token is at least two characters long, not a number and no stop word. */
  lemma KeywordsAre(question: string, k: nat)
    requires k < |Keywords(question)|
    ensures Keyword(Keywords(question)[k])
  {
    var lowered := Lower(question);
    var trimmed := Trimmed(Tokens(lowered));
    forall i | 0 <= i < |trimmed| ensures TokenText(trimmed[i]) && Stripped(trimmed[i], PUNCTUATION) {
      TokensAreTokens(lowered, i);
      StripTokenText(Tokens(lowered)[i]);
      StripStrips(Tokens(lowered)[i], PUNCTUATION);
    }
    KeptAre(trimmed, k);
  }

  // ---- Extracting again ---------------------------------------------------------------------------

  lemma {:induction false} RunLengthOf(word: string, rest: string)
    requires TokenText(word) && (rest == "" || !TokenChar(rest[0]))
    ensures RunLength(word + rest) == |word|
  {
    if word == "" {
      assert word + rest == rest;
    } else {
      assert (word + rest)[1..] == word[1..] + rest;
      RunLengthOf(word[1..], rest);
    }
  }

  lemma TokensOfWord(word: string, rest: string)
    requires TokenText(word) && word != "" && (rest == "" || !TokenChar(rest[0]))
    ensures Tokens(word + rest) == [word] + Tokens(rest)
  {
    var s := word + rest;
    RunLengthOf(word, rest);
    assert s[0] == word[0] && s[..|word|] == word && s[|word|..] == rest;
  }

  lemma TokensOfSpace(rest: string)
    ensures Tokens(" " + rest) == Tokens(rest)
  {
    assert (" " + rest)[1..] == rest;
  }

  lemma {:induction false} TokensOfJoin(words: seq<string>)
    requires forall i :: 0 <= i < |words| ==> TokenText(words[i]) && words[i] != ""
    ensures Tokens(Join(words)) == words
  {
    if |words| == 1 {
      TokensOfWord(words[0], "");
      assert words[0] + "" == words[0];
    } else if |words| > 1 {
      var rest := words[1..];
      TokensOfJoin(rest);
      TokensOfSpace(Join(rest));
      TokensOfWord(words[0], " " + Join(rest));
      assert Join(words) == words[0] + (" " + Join(rest));
      assert words == [words[0]] + rest;
    }
  }

  lemma {:induction false} JoinLower(words: seq<string>)
    requires forall i :: 0 <= i < |words| ==> TokenText(words[i])
    ensures Lower(Join(words)) == Join(words)
  {
    if |words| > 1 {
      JoinLower(words[1..]);
      var s, t := Join(words), Join(words[1..]);
      forall i | 0 <= i < |s| ensures LowerChar(s[i]) == s[i] {
        if i > |words[0]| { assert s[i] == t[i - |words[0]| - 1] == Lower(t)[i - |words[0]| - 1]; }
      }
    }
  }

  lemma {:induction false} KeptAll(tokens: seq<string>)
    requires forall i :: 0 <= i < |tokens| ==> Meaningful(tokens[i])
    ensures Kept(tokens) == tokens
  {
    if tokens != [] { KeptAll(tokens[1..]); }
  }

  lemma TrimmedAgain(words: seq<string>)
    requires forall i :: 0 <= i < |words| ==> Stripped(words[i], PUNCTUATION)
    ensures Trimmed(words) == words
  {
    forall i | 0 <= i < |words| ensures Strip(words[i], PUNCTUATION) == words[i] {
      StripStrips(words[i], PUNCTUATION);
    }
  }

  ghost predicate AllKeywords(words: seq<string>) {
    forall i :: 0 <= i < |words| ==> Keyword(words[i])
  }

  lemma KeywordsAsText(words: seq<string>)
    requires AllKeywords(words)
    ensures Lower(Join(words)) == Join(words) && Tokens(Join(words)) == words
  {
    forall i | 0 <= i < |words| ensures TokenText(words[i]) && words[i] != "" {
      assert Keyword(words[i]);
    }
    JoinLower(words);
    TokensOfJoin(words);
  }

  lemma KeywordsKept(words: seq<string>)
    requires AllKeywords(words)
    ensures Trimmed(words) == words && Kept(words) == words
  {
    forall i | 0 <= i < |words| ensures Meaningful(words[i]) && Stripped(words[i], PUNCTUATION) {
      assert Keyword(words[i]);
    }
    TrimmedAgain(words);
    KeptAll(words);
  }

  lemma KeywordsOfKeywords(words: seq<string>)
    requires AllKeywords(words)
    ensures Keywords(Join(words)) == words
  {
    KeywordsAsText(words);
    KeywordsKept(words);
  }

  // ---- Which words of a question are extracted -----------------------------------------------------

  /** `[a-zA-Z0-9@._+-]`, character by character. */
  lemma TokenCharMeaning(c: char)
    ensures TokenChar(c) <==> 'a' <= c <= 'z' || 'A' <= c <= 'Z' || '0' <= c <= '9' || c in "@._+-"
  {
    assert "@._+-" == ['@'] + "._+-" && "._+-" == ['.', '_', '+', '-'];
  }

  lemma {:induction false} RunLengthEnds(s: string)
    ensures forall k :: 0 <= k < RunLength(s) ==> TokenChar(s[k])
    ensures RunLength(s) < |s| ==> !TokenChar(s[RunLength(s)])
  {
    if s != "" && TokenChar(s[0]) { RunLengthEnds(s[1..]); }
  }

  lemma {:induction false} RunLengthAround(word: string, rest: string)
    requires forall k :: 0 <= k < |word| ==> TokenChar(word[k])
    requires rest == "" || !TokenChar(rest[0])
    ensures RunLength(word + rest) == |word|
  {
    if word == "" {
      assert word + rest == rest;
    } else {
      assert (word + rest)[1..] == word[1..] + rest;
      RunLengthAround(word[1..], rest);
    }
  }

  lemma TokensOfRun(word: string, rest: string)
    requires word != "" && forall k :: 0 <= k < |word| ==> TokenChar(word[k])
    requires rest == "" || !TokenChar(rest[0])
    ensures Tokens(word + rest) == [word] + Tokens(rest)
  {
    RunLengthAround(word, rest);
    var s := word + rest;
    assert s[0] == word[0] && s[..|word|] == word && s[|word|..] == rest;
  }

  lemma {:induction false} TokensAround(a: string, c: char, b: string)
    requires !TokenChar(c)
    ensures Tokens(a + [c] + b) == Tokens(a) + Tokens(b)
    decreases |a|
  {
    var s := a + [c] + b;
    if a == "" {
      assert s[0] == c && s[1..] == b;
    } else if TokenChar(a[0]) {
      var word, more := a[..RunLength(a)], a[RunLength(a)..];
      RunLengthEnds(a);
      assert a == word + more;
      TokensAround(more, c, b);
      TokensOfRun(word, more);
      assert s == word + (more + [c] + b);
      TokensOfRun(word, more + [c] + b);
    } else {
      assert s[1..] == a[1..] + [c] + b;
      TokensAround(a[1..], c, b);
    }
  }

  lemma {:induction false} KeptConcat(a: seq<string>, b: seq<string>)
    ensures Kept(a + b) == Kept(a) + Kept(b)
  {
    if a == [] {
      assert a + b == b;
    } else {
      var kept := if Meaningful(a[0]) then [a[0]] else [];
      assert (a + b)[1..] == a[1..] + b && (a + b)[0] == a[0];
      KeptConcat(a[1..], b);
      assert Kept(a) == kept + Kept(a[1..]) && Kept(a + b) == kept + Kept(a[1..] + b);
    }
  }

  /**
  A question is read word by word: the keywords on both sides of a character that no token may hold are
  those of the sides.
  */
  lemma KeywordsAtGap(a: string, c: char, b: string)
    requires !TokenChar(c)
    ensures Keywords("") == []
    ensures Keywords(a + [c] + b) == Keywords(a) + Keywords(b)
  {
    assert Lower("") == "";
    assert !TokenChar(LowerChar(c));
    assert Lower(a + [c] + b) == Lower(a) + [LowerChar(c)] + Lower(b);
    TokensAround(Lower(a), LowerChar(c), Lower(b));
    var left, right := Tokens(Lower(a)), Tokens(Lower(b));
    assert Trimmed(left + right) == Trimmed(left) + Trimmed(right);
    KeptConcat(Trimmed(left), Trimmed(right));
  }

  ghost predicate HasNonDigit(token: string) {
    exists k :: 0 <= k < |token| && !('0' <= token[k] <= '9')
  }

  /**
  A single word is extracted, in lower case and less the punctuation at its ends, exactly when that leaves
  two characters, one of them no digit, and no stop word.
  */
  lemma KeywordsOfWord(word: string)
    requires word != "" && forall k :: 0 <= k < |word| ==> TokenChar(word[k])
    ensures var token := Strip(Lower(word), PUNCTUATION);
            Keywords(word) == if |token| >= 2 && token !in STOPWORDS && HasNonDigit(token) then [token] else []
  {
    var lowered := Lower(word);
    assert forall k :: 0 <= k < |word| ==> lowered[k] == LowerChar(word[k]);
    TokensOfRun(lowered, "");
    assert lowered + "" == lowered;
    var token := Strip(lowered, PUNCTUATION);
    assert Tokens(lowered) == [lowered];
    assert Trimmed([lowered]) == [token];
    KeptOne(token);
  }

  lemma KeptOne(token: string)
    ensures Kept([token]) == if |token| >= 2 && token !in STOPWORDS && !AllDigits(token) then [token] else []
  {
    assert [token][1..] == [];
  }

  /** The query is the keywords, or the question itself when there are none, less the space around it. */
  lemma SearchQueryMeaning(question: string) returns (a: nat, b: nat)
    ensures a <= b <= |question|
    ensures Keywords(question) != [] ==> Tokens(SearchQuery(question)) == Keywords(question)
    ensures Keywords(question) == [] ==>
              && SearchQuery(question) == question[a..b]
              && (forall k :: 0 <= k < a || b <= k < |question| ==> IsSpace(question[k]))
              && (a < b ==> !IsSpace(question[a]) && !IsSpace(question[b - 1]))
  {
    var words := Keywords(question);
    if words != [] {
      a, b := 0, 0;
      forall i | 0 <= i < |words| ensures Keyword(words[i]) { KeywordsAre(question, i); }
      KeywordsAsText(words);
    } else {
      a, b := StripParts(question, WHITESPACE);
      StripStrips(question, WHITESPACE);
      forall c: char ensures c in WHITESPACE <==> IsSpace(c) { WhitespaceIsSpace(c); }
      var kept := question[a..b];
      assert a < b ==> kept[0] == question[a] && kept[|kept| - 1] == question[b - 1];
    }
  }

  lemma {:induction false} TokensAppend(s: string, c: char)
    requires !TokenChar(c)
    ensures Tokens(s + [c]) == Tokens(s)
    decreases |s|
  {
    if s == "" {
      assert (s + [c])[1..] == "";
    } else if TokenChar(s[0]) {
      var n := RunLength(s);
      RunLengthAppend(s, c);
      assert (s + [c])[..n] == s[..n] && (s + [c])[n..] == s[n..] + [c];
      TokensAppend(s[n..], c);
    } else {
      assert (s + [c])[1..] == s[1..] + [c];
      TokensAppend(s[1..], c);
    }
  }

  lemma {:induction false} RunLengthAppend(s: string, c: char)
    requires !TokenChar(c)
    ensures RunLength(s + [c]) == RunLength(s)
  {
    if s != "" && TokenChar(s[0]) {
      assert (s + [c])[1..] == s[1..] + [c];
      RunLengthAppend(s[1..], c);
    } else if s == "" {
      assert s + [c] == [c];
    }
  }

  lemma {:induction false} TokensOfStripLeft(s: string)
    ensures Tokens(Lower(StripLeft(s, WHITESPACE))) == Tokens(Lower(s))
  {
    if s != "" && s[0] in WHITESPACE {
      assert Lower(s)[1..] == Lower(s[1..]);
      assert !TokenChar(Lower(s)[0]);
      TokensOfStripLeft(s[1..]);
    }
  }

  lemma {:induction false} TokensOfStripRight(s: string)
    ensures Tokens(Lower(StripRight(s, WHITESPACE))) == Tokens(Lower(s))
  {
    if s != "" && s[|s| - 1] in WHITESPACE {
      var c := s[|s| - 1];
      assert LowerChar(c) == c && !TokenChar(c);
      assert Lower(s) == Lower(s[..|s| - 1]) + [c];
      TokensAppend(Lower(s[..|s| - 1]), c);
      TokensOfStripRight(s[..|s| - 1]);
    }
  }

  /** Extracting from an extracted query changes nothing, whether or not a keyword was found. */
  lemma ExtractionIdempotent(question: string)
    ensures SearchQuery(SearchQuery(question)) == SearchQuery(question)
    ensures Keywords(SearchQuery(question)) == Keywords(question)
  {
    var words := Keywords(question);
    if words != [] {
      forall i | 0 <= i < |words| ensures Keyword(words[i]) { KeywordsAre(question, i); }
      KeywordsOfKeywords(words);
    } else {
      TokensOfStripLeft(question);
      TokensOfStripRight(StripLeft(question, WHITESPACE));
      StripStrips(question, WHITESPACE);
      StripStrips(Strip(question, WHITESPACE), WHITESPACE);
    }
  }
}
