/**
The part of Python's `re` the service uses, on ASCII text: a pattern tried at a position yields the
ends of its matches in the order a backtracking matcher finds them, and the first one is the match.
*/
module Regex {

  datatype Class = Digit | SpaceOrDash | White | Lit(c: char)

  datatype Re =
    | Empty
    | One(cls: Class)
    | Boundary                          // \b
    | Cat(first: Re, second: Re)
    | Optional(body: Re)                // body?    preferring a match
    | Many(cls: Class)                  // [cls]*   longest first
    | ManyLazy(cls: Class)              // [cls]*?  shortest first

  predicate IsDigit(c: char) {
    '0' <= c <= '9'
  }

  predicate IsLetter(c: char) {
    'a' <= c <= 'z' || 'A' <= c <= 'Z'
  }

  predicate IsWord(c: char) {
    IsDigit(c) || IsLetter(c) || c == '_'
  }

  predicate IsSpace(c: char) {
    c == ' ' || 9 as char <= c <= 13 as char || 28 as char <= c <= 31 as char
  }

  predicate In(cls: Class, c: char) {
    match cls
    case Digit => IsDigit(c)
    case SpaceOrDash => c == ' ' || c == '-'
    case White => IsSpace(c)
    case Lit(d) => c == d
  }

  /** `\b`: exactly one side of the position is a word character. */
  predicate AtBoundary(s: string, i: nat)
    requires i <= |s|
  {
    (i > 0 && IsWord(s[i - 1])) != (i < |s| && IsWord(s[i]))
  }

  /** The classes, character by character. */
  lemma ClassMeaning(c: char)
    ensures In(Digit, c) <==> c in {'0', '1', '2', '3', '4', '5', '6', '7', '8', '9'}
    ensures In(SpaceOrDash, c) <==> c in {' ', '-'}
    ensures In(White, c) <==> c as int in {9, 10, 11, 12, 13, 28, 29, 30, 31, 32}
    ensures IsWord(c) <==> 'a' <= c <= 'z' || 'A' <= c <= 'Z' || '0' <= c <= '9' || c == '_'
  {
  }

  /** A boundary lies where a word begins or ends. */
  lemma BoundaryMeaning(s: string, i: nat)
    requires i <= |s|
    ensures AtBoundary(s, i) <==>
            || (i < |s| && IsWord(s[i]) && (i == 0 || !IsWord(s[i - 1])))
            || (i > 0 && IsWord(s[i - 1]) && (i == |s| || !IsWord(s[i])))
  {
  }

  /** `body{n}`. */
  function Exactly(body: Re, n: nat): Re {
    if n == 0 then Empty else Cat(body, Exactly(body, n - 1))
  }

  /** `body{0,n}`. */
  function AtMost(body: Re, n: nat): Re {
    if n == 0 then Empty else Optional(Cat(body, AtMost(body, n - 1)))
  }

  /** `body{least,most}`. */
  function Between(body: Re, least: nat, most: nat): Re
    requires least <= most
  {
    Cat(Exactly(body, least), AtMost(body, most - least))
  }

  function Literal(text: string): Re {
    if text == "" then Empty else Cat(One(Lit(text[0])), Literal(text[1..]))
  }

  function Delimited(body: Re): Re {
    Cat(Boundary, Cat(body, Boundary))
  }

  function ManyEnds(cls: Class, s: string, i: nat): (ends: seq<nat>)
    requires i <= |s|
    ensures forall e :: e in ends ==> i <= e <= |s|
    decreases |s| - i
  {
    [i] + if i < |s| && In(cls, s[i]) then ManyEnds(cls, s, i + 1) else []
  }

  function Reverse(ends: seq<nat>): (r: seq<nat>)
    ensures forall e :: e in r <==> e in ends
  {
    if ends == [] then [] else
      assert forall e :: e in ends <==> e == ends[0] || e in ends[1..];
      Reverse(ends[1..]) + [ends[0]]
  }

  function Ends(r: Re, s: string, i: nat): (ends: seq<nat>)
    requires i <= |s|
    ensures forall e :: e in ends ==> i <= e <= |s|
    decreases r, 0, 0
  {
    match r
    case Empty => [i]
    case One(cls) => if i < |s| && In(cls, s[i]) then [i + 1] else []
    case Boundary => if AtBoundary(s, i) then [i] else []
    case Cat(first, second) => EndsAll(second, s, Ends(first, s, i), i)
    case Optional(body) => Ends(body, s, i) + [i]
    case Many(cls) => Reverse(ManyEnds(cls, s, i))
    case ManyLazy(cls) => ManyEnds(cls, s, i)
  }

  /** The ends of `r` tried at each of `starts`, in that order. */
  function EndsAll(r: Re, s: string, starts: seq<nat>, least: nat): (ends: seq<nat>)
    requires forall i :: i in starts ==> least <= i <= |s|
    ensures forall e :: e in ends ==> least <= e <= |s|
    decreases r, 1, |starts|
  {
    if starts == [] then []
    else
      assert starts[0] in starts && forall i :: i in starts[1..] ==> i in starts;
      Ends(r, s, starts[0]) + EndsAll(r, s, starts[1..], least)
  }

  predicate Matches(r: Re, s: string, i: nat, e: nat) {
    i <= |s| && e in Ends(r, s, i)
  }

  /** No match anywhere in the text. */
  ghost predicate Clean(r: Re, s: string) {
    forall i :: 0 <= i <= |s| ==> Ends(r, s, i) == []
  }

  /** `re.search(r, s)` finds something. */
  predicate Search(r: Re, s: string) {
    exists i :: 0 <= i <= |s| && Ends(r, s, i) != []
  }

  // ---- Reading matches structurally --------------------------------------------------------------

  lemma {:induction false} EndsAllMember(r: Re, s: string, starts: seq<nat>, least: nat, e: nat)
    requires forall i :: i in starts ==> least <= i <= |s|
    ensures e in EndsAll(r, s, starts, least) <==> exists m :: m in starts && Matches(r, s, m, e)
    decreases |starts|
  {
    if starts != [] {
      assert forall m :: m in starts <==> m == starts[0] || m in starts[1..];
      EndsAllMember(r, s, starts[1..], least, e);
      assert starts[0] in starts;
      assert Matches(r, s, starts[0], e) <==> e in Ends(r, s, starts[0]);
    }
  }

  lemma MatchesCat(a: Re, b: Re, s: string, i: nat, e: nat)
    requires i <= |s|
    ensures Matches(Cat(a, b), s, i, e) <==> exists m :: Matches(a, s, i, m) && Matches(b, s, m, e)
  {
    EndsAllMember(b, s, Ends(a, s, i), i, e);
  }

  /** The point where the match of `Cat(a, b)` passes from `a` to `b`. */
  lemma CatSplit(a: Re, b: Re, s: string, i: nat, e: nat) returns (m: nat)
    requires Matches(Cat(a, b), s, i, e)
    ensures Matches(a, s, i, m) && Matches(b, s, m, e)
  {
    MatchesCat(a, b, s, i, e);
    m :| Matches(a, s, i, m) && Matches(b, s, m, e);
  }

  lemma CatJoin(a: Re, b: Re, s: string, i: nat, m: nat, e: nat)
    requires Matches(a, s, i, m) && Matches(b, s, m, e)
    ensures Matches(Cat(a, b), s, i, e)
  {
    MatchesCat(a, b, s, i, e);
  }

  lemma {:induction false} ManyMember(cls: Class, s: string, i: nat, e: nat)
    requires i <= |s|
    ensures e in ManyEnds(cls, s, i) <==> i <= e <= |s| && forall k :: i <= k < e ==> In(cls, s[k])
    decreases |s| - i
  {
    if i < |s| && In(cls, s[i]) {
      ManyMember(cls, s, i + 1, e);
    } else {
      assert ManyEnds(cls, s, i) == [i];
    }
  }

  lemma MatchesDelimited(body: Re, s: string, i: nat, e: nat)
    requires i <= |s|
    ensures Matches(Delimited(body), s, i, e) <==>
            Matches(body, s, i, e) && AtBoundary(s, i) && AtBoundary(s, e)
  {
    MatchesCat(Boundary, Cat(body, Boundary), s, i, e);
    if AtBoundary(s, i) {
      assert Matches(Boundary, s, i, i);
      MatchesCat(body, Boundary, s, i, e);
    }
  }

  // ---- Width, alphabet and locality of matches ----------------------------------------------------

  function MinWidth(r: Re): nat {
    match r
    case Empty => 0
    case One(_) => 1
    case Boundary => 0
    case Cat(a, b) => MinWidth(a) + MinWidth(b)
    case Optional(_) => 0
    case Many(_) => 0
    case ManyLazy(_) => 0
  }

  lemma {:induction false} MatchWidth(r: Re, s: string, i: nat, e: nat)
    requires Matches(r, s, i, e)
    ensures i + MinWidth(r) <= e
  {
    match r
    case Cat(a, b) =>
      var m := CatSplit(a, b, s, i, e);
      MatchWidth(a, s, i, m);
      MatchWidth(b, s, m, e);
    case _ =>
  }

  /** Whether some class of the pattern admits the character. */
  predicate Uses(r: Re, c: char) {
    match r
    case Empty => false
    case One(cls) => In(cls, c)
    case Boundary => false
    case Cat(a, b) => Uses(a, c) || Uses(b, c)
    case Optional(body) => Uses(body, c)
    case Many(cls) => In(cls, c)
    case ManyLazy(cls) => In(cls, c)
  }

  lemma {:induction false} MatchAlphabet(r: Re, s: string, i: nat, e: nat, k: nat)
    requires Matches(r, s, i, e) && i <= k < e
    ensures Uses(r, s[k])
  {
    match r
    case Cat(a, b) =>
      var m := CatSplit(a, b, s, i, e);
      if k < m { MatchAlphabet(a, s, i, m, k); } else { MatchAlphabet(b, s, m, e, k); }
    case Optional(body) =>
      if Matches(body, s, i, e) { MatchAlphabet(body, s, i, e, k); }
    case Many(cls) => ManyMember(cls, s, i, e);
    case ManyLazy(cls) => ManyMember(cls, s, i, e);
    case _ =>
  }

  /** `t` from `j` to `e` reads like `s` shifted by `d`, and a boundary in the first is one in the second. */
  ghost predicate ReadsAlike(t: string, j: nat, e: nat, s: string, d: int) {
    && j <= e <= |t| && 0 <= j + d && e + d <= |s|
    && (forall k :: j <= k < e ==> t[k] == s[k + d])
    && (forall k :: j <= k <= e && AtBoundary(t, k) ==> AtBoundary(s, k + d))
  }

  lemma ReadsAlikeParts(t: string, j: nat, e: nat, s: string, d: int, m: nat)
    requires ReadsAlike(t, j, e, s, d) && j <= m <= e
    ensures ReadsAlike(t, j, m, s, d) && ReadsAlike(t, m, e, s, d)
  {
  }

  predicate AllIn(cls: Class, word: string) {
    word != "" ==> In(cls, word[0]) && AllIn(cls, word[1..])
  }

  lemma {:induction false} ManySlice(cls: Class, s: string, i: nat, e: nat)
    requires i <= e <= |s|
    ensures e in ManyEnds(cls, s, i) <==> AllIn(cls, s[i..e])
    decreases e - i
  {
    ManyEndsAt(cls, s, i, e);
    if i < e {
      ManySlice(cls, s, i + 1, e);
      assert s[i..e][1..] == s[i + 1..e];
    }
  }

  /** A repetition may stop at once, or go on past a character of its class. */
  lemma ManyEndsAt(cls: Class, s: string, i: nat, e: nat)
    requires i <= e <= |s|
    ensures e in ManyEnds(cls, s, i) <==> i == e || (In(cls, s[i]) && e in ManyEnds(cls, s, i + 1))
  {
    if i < |s| && In(cls, s[i]) {
      var ends := ManyEnds(cls, s, i + 1);
      assert forall x :: x in [i] + ends <==> x in ends || x == i;
    }
  }

  /** The ends of a repetition depend on nothing but the characters up to there. */
  lemma ManyIsLocal(cls: Class, t: string, j: nat, e: nat, s: string, i: nat, k: nat)
    requires j <= e <= |t| && e in ManyEnds(cls, t, j) && i <= k <= |s| && t[j..e] == s[i..k]
    ensures k in ManyEnds(cls, s, i)
  {
    ManySlice(cls, t, j, e);
    ManySlice(cls, s, i, k);
  }

  lemma RepetitionIsLocal(cls: Class, t: string, j: nat, e: nat, s: string, d: int)
    requires j <= |t| && e in ManyEnds(cls, t, j) && ReadsAlike(t, j, e, s, d)
    ensures e + d in ManyEnds(cls, s, j + d)
  {
    assert t[j..e] == s[j + d..e + d];
    ManyIsLocal(cls, t, j, e, s, j + d, e + d);
  }

  /** A match depends on nothing but the stretch it covers and the boundaries in it. */
  lemma {:induction false} MatchIsLocal(r: Re, t: string, j: nat, e: nat, s: string, d: int)
    requires Matches(r, t, j, e) && ReadsAlike(t, j, e, s, d)
    ensures Matches(r, s, j + d, e + d)
  {
    match r
    case Cat(a, b) =>
      var m := CatSplit(a, b, t, j, e);
      ReadsAlikeParts(t, j, e, s, d, m);
      MatchIsLocal(a, t, j, m, s, d);
      MatchIsLocal(b, t, m, e, s, d);
      MatchesCat(a, b, s, j + d, e + d);
    case Optional(body) =>
      if Matches(body, t, j, e) { MatchIsLocal(body, t, j, e, s, d); }
    case Many(cls) =>
      RepetitionIsLocal(cls, t, j, e, s, d);
    case ManyLazy(cls) =>
      RepetitionIsLocal(cls, t, j, e, s, d);
    case One(_) =>
      assert t[j] == s[j + d];
    case Boundary =>
    case Empty =>
  }
}
