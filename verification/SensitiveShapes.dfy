/** What the three patterns mean, read off the text without a matcher. */
module SensitiveShapes {
  import opened Regex
  import opened Redaction

  ghost predicate Digits(s: string, i: nat, e: nat) {
    i <= e <= |s| && forall k :: i <= k < e ==> IsDigit(s[k])
  }

  ghost predicate DashAt(s: string, i: nat) {
    i < |s| && s[i] == '-'
  }

  /** ddd-dd-dddd, delimited. */
  ghost predicate SsnAt(s: string, i: nat) {
    && i + 11 <= |s|
    && Digits(s, i, i + 3) && DashAt(s, i + 3) && Digits(s, i + 4, i + 6) && DashAt(s, i + 6) && Digits(s, i + 7, i + 11)
    && AtBoundary(s, i) && AtBoundary(s, i + 11)
  }

  /** dd-ddddddd, delimited. */
  ghost predicate EinAt(s: string, i: nat) {
    && i + 10 <= |s|
    && Digits(s, i, i + 2) && DashAt(s, i + 2) && Digits(s, i + 3, i + 10)
    && AtBoundary(s, i) && AtBoundary(s, i + 10)
  }

  function DigitCount(s: string, i: nat, e: nat): nat
    requires i <= e <= |s|
    decreases e - i
  {
    if i == e then 0 else (if IsDigit(s[i]) then 1 else 0) + DigitCount(s, i + 1, e)
  }

  /** Digits with spaces and dashes among them, starting with a digit. */
  ghost predicate DigitRun(s: string, i: nat, e: nat) {
    && i < e <= |s| && IsDigit(s[i])
    && forall k :: i <= k < e ==> IsDigit(s[k]) || In(SpaceOrDash, s[k])
  }

  /** 13 to 19 digits, spaces and dashes among them, delimited. */
  ghost predicate CardAt(s: string, i: nat, e: nat) {
    DigitRun(s, i, e) && 13 <= DigitCount(s, i, e) <= 19 && AtBoundary(s, i) && AtBoundary(s, e)
  }

  // ---- SSN and EIN --------------------------------------------------------------------------------

  lemma {:induction false} MatchDigits(n: nat, s: string, i: nat, e: nat)
    requires i <= |s|
    ensures Matches(Exactly(One(Digit), n), s, i, e) <==> e == i + n && Digits(s, i, e)
  {
    if n > 0 {
      MatchesCat(One(Digit), Exactly(One(Digit), n - 1), s, i, e);
      if i < |s| && IsDigit(s[i]) {
        assert Matches(One(Digit), s, i, i + 1);
        MatchDigits(n - 1, s, i + 1, e);
      }
    }
  }

  lemma DigitsFirst(n: nat, rest: Re, s: string, i: nat, e: nat)
    requires i <= |s| && Matches(Cat(Exactly(One(Digit), n), rest), s, i, e)
    ensures i + n <= |s| && Digits(s, i, i + n) && Matches(rest, s, i + n, e)
  {
    var m := CatSplit(Exactly(One(Digit), n), rest, s, i, e);
    MatchDigits(n, s, i, m);
  }

  lemma DigitsThen(n: nat, rest: Re, s: string, i: nat, e: nat)
    requires i + n <= |s| && Digits(s, i, i + n) && Matches(rest, s, i + n, e)
    ensures Matches(Cat(Exactly(One(Digit), n), rest), s, i, e)
  {
    MatchDigits(n, s, i, i + n);
    MatchesCat(Exactly(One(Digit), n), rest, s, i, e);
  }

  /** `\d{n}` followed by `rest`. */
  lemma MatchDigitsThen(n: nat, rest: Re, s: string, i: nat, e: nat)
    requires i <= |s|
    ensures Matches(Cat(Exactly(One(Digit), n), rest), s, i, e) <==>
            i + n <= |s| && Digits(s, i, i + n) && Matches(rest, s, i + n, e)
  {
    if Matches(Cat(Exactly(One(Digit), n), rest), s, i, e) {
      DigitsFirst(n, rest, s, i, e);
    } else if i + n <= |s| && Digits(s, i, i + n) && Matches(rest, s, i + n, e) {
      DigitsThen(n, rest, s, i, e);
    }
  }

  /** `-` followed by `rest`. */
  lemma MatchDashThen(rest: Re, s: string, i: nat, e: nat)
    requires i <= |s|
    ensures Matches(Cat(One(Lit('-')), rest), s, i, e) <==> DashAt(s, i) && Matches(rest, s, i + 1, e)
  {
    MatchesCat(One(Lit('-')), rest, s, i, e);
    if DashAt(s, i) { assert Matches(One(Lit('-')), s, i, i + 1); }
  }

  lemma MatchSsnBody(s: string, i: nat, e: nat)
    requires i <= |s|
    ensures Matches(Cat(Exactly(One(Digit), 3), Cat(One(Lit('-')),
                    Cat(Exactly(One(Digit), 2), Cat(One(Lit('-')), Exactly(One(Digit), 4))))), s, i, e) <==>
            && e == i + 11 && e <= |s|
            && Digits(s, i, i + 3) && DashAt(s, i + 3) && Digits(s, i + 4, i + 6) && DashAt(s, i + 6) && Digits(s, i + 7, i + 11)
  {
    var serial := Exactly(One(Digit), 4);
    var group := Cat(Exactly(One(Digit), 2), Cat(One(Lit('-')), serial));
    MatchDigitsThen(3, Cat(One(Lit('-')), group), s, i, e);
    if i + 3 <= |s| { MatchDashThen(group, s, i + 3, e); }
    if i + 4 <= |s| { MatchDigitsThen(2, Cat(One(Lit('-')), serial), s, i + 4, e); }
    if i + 6 <= |s| { MatchDashThen(serial, s, i + 6, e); }
    if i + 7 <= |s| { MatchDigits(4, s, i + 7, e); }
  }

  lemma SsnMatches(s: string, i: nat, e: nat)
    requires i <= |s|
    ensures Matches(SSN, s, i, e) <==> SsnAt(s, i) && e == i + 11
  {
    var body := Cat(Exactly(One(Digit), 3), Cat(One(Lit('-')),
                Cat(Exactly(One(Digit), 2), Cat(One(Lit('-')), Exactly(One(Digit), 4)))));
    MatchesDelimited(body, s, i, e);
    MatchSsnBody(s, i, e);
  }

  /** The pattern matches at a position exactly when a social security number stands there. */
  lemma SsnMeaning(s: string, i: nat)
    requires i <= |s|
    ensures Ends(SSN, s, i) != [] <==> SsnAt(s, i)
  {
    SsnMatches(s, i, i + 11);
    if Ends(SSN, s, i) != [] {
      SsnMatches(s, i, Ends(SSN, s, i)[0]);
      assert Matches(SSN, s, i, Ends(SSN, s, i)[0]);
    }
  }

  lemma EinMatches(s: string, i: nat, e: nat)
    requires i <= |s|
    ensures Matches(EIN, s, i, e) <==> EinAt(s, i) && e == i + 10
  {
    var serial := Exactly(One(Digit), 7);
    var body := Cat(Exactly(One(Digit), 2), Cat(One(Lit('-')), serial));
    MatchDigitsThen(2, Cat(One(Lit('-')), serial), s, i, e);
    if i + 2 <= |s| { MatchDashThen(serial, s, i + 2, e); }
    if i + 3 <= |s| { MatchDigits(7, s, i + 3, e); }
    MatchesDelimited(body, s, i, e);
  }

  lemma EinMeaning(s: string, i: nat)
    requires i <= |s|
    ensures Ends(EIN, s, i) != [] <==> EinAt(s, i)
  {
    EinMatches(s, i, i + 10);
    if Ends(EIN, s, i) != [] {
      EinMatches(s, i, Ends(EIN, s, i)[0]);
      assert Matches(EIN, s, i, Ends(EIN, s, i)[0]);
    }
  }

  // ---- Cards --------------------------------------------------------------------------------------

  lemma MatchUnit(s: string, i: nat, m: nat)
    requires i <= |s|
    ensures Matches(CARD_DIGIT, s, i, m) <==>
            i < m <= |s| && IsDigit(s[i]) && forall k :: i < k < m ==> In(SpaceOrDash, s[k])
  {
    MatchesCat(One(Digit), ManyLazy(SpaceOrDash), s, i, m);
    if i < |s| && IsDigit(s[i]) {
      assert Matches(One(Digit), s, i, i + 1);
      ManyMember(SpaceOrDash, s, i + 1, m);
    }
  }

  lemma {:induction false} NoDigits(s: string, i: nat, e: nat)
    requires i <= e <= |s| && forall k :: i <= k < e ==> In(SpaceOrDash, s[k])
    ensures DigitCount(s, i, e) == 0
    decreases e - i
  {
    if i < e { NoDigits(s, i + 1, e); }
  }

  lemma {:induction false} CountSplit(s: string, i: nat, m: nat, e: nat)
    requires i <= m <= e <= |s|
    ensures DigitCount(s, i, e) == DigitCount(s, i, m) + DigitCount(s, m, e)
    decreases m - i
  {
    if i < m { CountSplit(s, i + 1, m, e); }
  }

  /** One unit in front of a run adds one digit. */
  lemma UnitCount(s: string, i: nat, m: nat, e: nat)
    requires Matches(CARD_DIGIT, s, i, m) && m <= e <= |s|
    ensures DigitCount(s, i, e) == 1 + DigitCount(s, m, e)
    ensures m == e || DigitRun(s, m, e) ==> DigitRun(s, i, e)
  {
    MatchUnit(s, i, m);
    NoDigits(s, i + 1, m);
    CountSplit(s, i, m, e);
  }

  /** Where the first unit of a run ends: at the next digit, or at the end of the run. */
  lemma {:induction false} FirstUnit(s: string, i: nat, e: nat, from: nat) returns (m: nat)
    requires DigitRun(s, i, e) && i < from <= e && forall k :: i < k < from ==> In(SpaceOrDash, s[k])
    ensures Matches(CARD_DIGIT, s, i, m) && m <= e && (m == e || DigitRun(s, m, e))
    decreases e - from
  {
    if from == e || IsDigit(s[from]) {
      m := from;
      MatchUnit(s, i, m);
    } else {
      m := FirstUnit(s, i, e, from + 1);
    }
  }

  /** A run of `n` digits, or nothing for none. */
  ghost predicate RunOf(s: string, i: nat, e: nat, n: nat) {
    i <= e <= |s| && (i == e || DigitRun(s, i, e)) && DigitCount(s, i, e) == n
  }

  lemma {:induction false} MatchAtMost(n: nat, s: string, i: nat, e: nat)
    requires i <= |s|
    ensures Matches(AtMost(CARD_DIGIT, n), s, i, e) <==> exists c: nat :: c <= n && RunOf(s, i, e, c)
  {
    if i == e {
      assert RunOf(s, i, e, 0);
      if n > 0 { assert Matches(AtMost(CARD_DIGIT, n), s, i, e); }
    } else if n == 0 {
      assert i <= e <= |s| && DigitRun(s, i, e) ==> DigitCount(s, i, e) > 0;
    } else {
      var rest := AtMost(CARD_DIGIT, n - 1);
      assert Matches(AtMost(CARD_DIGIT, n), s, i, e) <==> Matches(Cat(CARD_DIGIT, rest), s, i, e);
      MatchesCat(CARD_DIGIT, rest, s, i, e);
      if Matches(Cat(CARD_DIGIT, rest), s, i, e) {
        var m := CatSplit(CARD_DIGIT, rest, s, i, e);
        MatchAtMost(n - 1, s, m, e);
        var c: nat :| c <= n - 1 && RunOf(s, m, e, c);
        UnitCount(s, i, m, e);
        assert RunOf(s, i, e, c + 1);
      }
      if c: nat :| c <= n && RunOf(s, i, e, c) {
        var m := FirstUnit(s, i, e, i + 1);
        UnitCount(s, i, m, e);
        assert RunOf(s, m, e, c - 1);
        MatchAtMost(n - 1, s, m, e);
        assert Matches(CARD_DIGIT, s, i, m) && Matches(rest, s, m, e);
      }
    }
  }

  lemma {:induction false} MatchBetween(least: nat, extra: nat, s: string, i: nat, e: nat)
    requires i <= |s|
    ensures Matches(Cat(Exactly(CARD_DIGIT, least), AtMost(CARD_DIGIT, extra)), s, i, e) <==>
            exists c: nat :: least <= c <= least + extra && RunOf(s, i, e, c)
  {
    var tail := AtMost(CARD_DIGIT, extra);
    MatchesCat(Exactly(CARD_DIGIT, least), tail, s, i, e);
    if least == 0 {
      MatchAtMost(extra, s, i, e);
      if Matches(tail, s, i, e) { assert Matches(Empty, s, i, i); }
    } else {
      var body := Exactly(CARD_DIGIT, least - 1);
      var rest := Cat(body, tail);
      if Matches(Cat(Exactly(CARD_DIGIT, least), tail), s, i, e) {
        var p := CatSplit(Exactly(CARD_DIGIT, least), tail, s, i, e);
        var m := CatSplit(CARD_DIGIT, body, s, i, p);
        MatchesCat(body, tail, s, m, e);
        MatchBetween(least - 1, extra, s, m, e);
        var c: nat :| least - 1 <= c <= least - 1 + extra && RunOf(s, m, e, c);
        UnitCount(s, i, m, e);
        assert RunOf(s, i, e, c + 1);
      }
      if c: nat :| least <= c <= least + extra && RunOf(s, i, e, c) {
        assert i != e;
        var m := FirstUnit(s, i, e, i + 1);
        UnitCount(s, i, m, e);
        assert RunOf(s, m, e, c - 1);
        MatchBetween(least - 1, extra, s, m, e);
        var p := CatSplit(body, tail, s, m, e);
        MatchesCat(CARD_DIGIT, body, s, i, p);
        assert Matches(Exactly(CARD_DIGIT, least), s, i, p) && Matches(tail, s, p, e);
      }
    }
  }

  /** The pattern matches from one position to another exactly when a card-like number stands there. */
  lemma CardMeaning(s: string, i: nat, e: nat)
    requires i <= |s|
    ensures Matches(CARD, s, i, e) <==> CardAt(s, i, e)
  {
    MatchesDelimited(Between(CARD_DIGIT, 13, 19), s, i, e);
    MatchBetween(13, 6, s, i, e);
    if CardAt(s, i, e) { assert RunOf(s, i, e, DigitCount(s, i, e)); }
  }

  /** No social security number, no EIN and nothing like a card number stands anywhere in the text. */
  ghost predicate ShowsNoIdentifier(s: string) {
    && (forall i: nat :: i <= |s| ==> !SsnAt(s, i) && !EinAt(s, i))
    && (forall i: nat, e: nat :: !CardAt(s, i, e))
  }

  /** Completeness of the redaction, without reference to patterns. */
  lemma NothingSensitiveRemains(text: string)
    ensures ShowsNoIdentifier(Redact(text))
  {
    var r := Redact(text);
    RedactionComplete(text);
    forall i: nat | i <= |r| ensures !SsnAt(r, i) && !EinAt(r, i) {
      SsnMeaning(r, i);
      EinMeaning(r, i);
    }
    forall i: nat, e: nat ensures !CardAt(r, i, e) {
      if i <= |r| { CardMeaning(r, i, e); }
    }
  }
}
