/**
What redaction does to a text, said without the matcher and without the passes: which stretches are
masked, and that everything else stays where it is.
*/
module MaskedText {
  import opened Regex
  import opened Redaction
  import opened SensitiveShapes

  datatype Kind = Ssn | Ein | Card

  /** An identifier of this kind stands in the text from `i` to `e`. */
  ghost predicate StandsAt(kind: Kind, s: string, i: nat, e: nat) {
    match kind
    case Ssn => SsnAt(s, i) && e == i + 11
    case Ein => EinAt(s, i) && e == i + 10
    case Card => CardAt(s, i, e)
  }

  /** A text in pieces: characters that stay, and stretches that are masked. */
  datatype Piece = Stay(c: char) | Hide(stretch: string)

  function Original(pieces: seq<Piece>): string {
    if pieces == [] then ""
    else Source(pieces[0]) + Original(pieces[1..])
  }

  function Displayed(pieces: seq<Piece>): string {
    if pieces == [] then ""
    else (match pieces[0] case Stay(c) => [c] case Hide(_) => "[REDACTED]") + Displayed(pieces[1..])
  }

  /**
  The pieces of the text from `i` on: read from left to right, a character stays where no identifier of
  the kind begins, and where one begins, the shortest that does is masked.
  */
  ghost predicate Hides(kind: Kind, s: string, pieces: seq<Piece>, i: nat) {
    if pieces == [] then i == |s|
    else match pieces[0]
    case Stay(c) =>
      i < |s| && s[i] == c && (forall e: nat :: !StandsAt(kind, s, i, e)) && Hides(kind, s, pieces[1..], i + 1)
    case Hide(stretch) =>
      var end := i + |stretch|;
      && stretch != "" && end <= |s| && s[i..end] == stretch
      && StandsAt(kind, s, i, end) && (forall e: nat :: StandsAt(kind, s, i, e) ==> end <= e)
      && Hides(kind, s, pieces[1..], end)
  }

  /** What a piece stands for in the text. */
  function Source(piece: Piece): string {
    match piece case Stay(c) => [c] case Hide(stretch) => stretch
  }

  lemma FirstPiece(kind: Kind, s: string, pieces: seq<Piece>, i: nat)
    requires Hides(kind, s, pieces, i) && pieces != []
    ensures var next := i + |Source(pieces[0])|;
            i < next <= |s| && s[i..next] == Source(pieces[0]) && Hides(kind, s, pieces[1..], next)
  {
  }

  /** The pieces make up the text. */
  lemma {:induction false} HidesAll(kind: Kind, s: string, pieces: seq<Piece>, i: nat)
    requires Hides(kind, s, pieces, i)
    ensures i <= |s| && Original(pieces) == s[i..]
  {
    if pieces != [] {
      FirstPiece(kind, s, pieces, i);
      var next := i + |Source(pieces[0])|;
      HidesAll(kind, s, pieces[1..], next);
      assert s[i..] == s[i..next] + s[next..];
    }
  }

  /** There is one way to do it. */
  lemma {:induction false} HidesOneWay(kind: Kind, s: string, pieces: seq<Piece>, pieces': seq<Piece>, i: nat)
    requires Hides(kind, s, pieces, i) && Hides(kind, s, pieces', i)
    ensures pieces == pieces'
  {
    if pieces != [] && pieces' != [] {
      assert pieces[0] == pieces'[0];
      HidesOneWay(kind, s, pieces[1..], pieces'[1..], i + if pieces[0].Stay? then 1 else |pieces[0].stretch|);
      assert pieces == [pieces[0]] + pieces[1..] && pieces' == [pieces'[0]] + pieces'[1..];
    }
  }

  // ---- The patterns find the shortest identifier -----------------------------------------------------

  function Pattern(kind: Kind): Re {
    match kind
    case Ssn => SSN
    case Ein => EIN
    case Card => CARD
  }

  /** Where a position follows a digit, the first boundary of the list is the least. */
  ghost predicate Leads(s: string, ends: seq<nat>) {
    ends != [] ==>
      if ends[0] <= |s| && AtBoundary(s, ends[0]) then
        forall x :: x in ends && x <= |s| && AtBoundary(s, x) ==> ends[0] <= x
      else Leads(s, ends[1..])
  }

  lemma {:induction false} LeadsPast(s: string, ends: seq<nat>, m: nat)
    requires Leads(s, ends) && m <= |s| && !AtBoundary(s, m)
    ensures Leads(s, ends + [m])
  {
    if ends != [] {
      assert (ends + [m])[1..] == ends[1..] + [m];
      if !(ends[0] <= |s| && AtBoundary(s, ends[0])) { LeadsPast(s, ends[1..], m); }
    } else {
      assert (ends + [m])[1..] == [];
    }
  }

  /** The boundaries among the ends, first to last. */
  lemma {:induction false} FirstBoundary(s: string, ends: seq<nat>, least: nat, e: nat)
    requires forall x :: x in ends ==> least <= x <= |s|
    requires Leads(s, ends) && e in EndsAll(Boundary, s, ends, least)
    ensures EndsAll(Boundary, s, ends, least)[0] <= e
    decreases |ends|
  {
    EndsAllMember(Boundary, s, ends, least, e);
    assert ends != [] && ends[0] in ends && forall x :: x in ends[1..] ==> x in ends;
    if !AtBoundary(s, ends[0]) { FirstBoundary(s, ends[1..], least, e); }
  }

  lemma {:induction false} EndsAllSame(s: string, starts: seq<nat>, least: nat)
    requires forall x :: x in starts ==> least <= x <= |s|
    ensures EndsAll(Empty, s, starts, least) == starts
    decreases |starts|
  {
    if starts != [] {
      assert forall x :: x in starts[1..] ==> x in starts;
      EndsAllSame(s, starts[1..], least);
    }
  }

  lemma EndsAllOne(r: Re, s: string, i: nat, least: nat)
    requires least <= i <= |s|
    ensures EndsAll(r, s, [i], least) == Ends(r, s, i)
  {
    assert [i][1..] == [];
  }

  /** A digit and its separators: nothing, or every end up to the last separator. */
  lemma UnitEnds(s: string, i: nat)
    requires i <= |s|
    ensures Ends(CARD_DIGIT, s, i) == if i < |s| && IsDigit(s[i]) then ManyEnds(SpaceOrDash, s, i + 1) else []
  {
    if i < |s| && IsDigit(s[i]) { EndsAllOne(ManyLazy(SpaceOrDash), s, i + 1, i); }
  }

  lemma NoUnit(rest: Re, s: string, i: nat)
    requires i <= |s| && (i == |s| || !IsDigit(s[i]))
    ensures Ends(Cat(CARD_DIGIT, rest), s, i) == []
  {
    UnitEnds(s, i);
  }

  /** Separators lead nowhere but to the digit behind them. */
  lemma {:induction false} SkipSeparators(r: Re, s: string, j: nat, least: nat) returns (last: nat)
    requires least <= j <= |s|
    requires forall i :: j <= i < |s| && !IsDigit(s[i]) ==> Ends(r, s, i) == []
    ensures j <= last <= |s| && EndsAll(r, s, ManyEnds(SpaceOrDash, s, j), least) == Ends(r, s, last)
    decreases |s| - j
  {
    if j < |s| && In(SpaceOrDash, s[j]) {
      last := SkipSeparators(r, s, j + 1, least);
      assert ManyEnds(SpaceOrDash, s, j)[1..] == ManyEnds(SpaceOrDash, s, j + 1);
    } else {
      last := j;
      assert ManyEnds(SpaceOrDash, s, j) == [j];
      EndsAllOne(r, s, j, least);
    }
  }

  lemma NextDigit(n: nat, s: string, j: nat, least: nat) returns (last: nat)
    requires n > 0 && least <= j <= |s|
    ensures j <= last <= |s|
    ensures EndsAll(Exactly(CARD_DIGIT, n), s, ManyEnds(SpaceOrDash, s, j), least) == Ends(Exactly(CARD_DIGIT, n), s, last)
  {
    forall i | j <= i < |s| && !IsDigit(s[i]) ensures Ends(Exactly(CARD_DIGIT, n), s, i) == [] {
      NoUnit(Exactly(CARD_DIGIT, n - 1), s, i);
    }
    last := SkipSeparators(Exactly(CARD_DIGIT, n), s, j, least);
  }

  /** The first digit and its separators, then the rest from the next digit on. */
  lemma OneMore(rest: Re, s: string, i: nat)
    requires i <= |s|
    ensures Ends(Cat(CARD_DIGIT, rest), s, i) ==
            if i < |s| && IsDigit(s[i]) then EndsAll(rest, s, ManyEnds(SpaceOrDash, s, i + 1), i) else []
  {
    UnitEnds(s, i);
  }

  lemma OneDigit(s: string, i: nat)
    requires i <= |s|
    ensures Ends(Exactly(CARD_DIGIT, 1), s, i) == if i < |s| && IsDigit(s[i]) then ManyEnds(SpaceOrDash, s, i + 1) else []
  {
    assert Exactly(CARD_DIGIT, 1) == Cat(CARD_DIGIT, Empty);
    OneMore(Empty, s, i);
    if i < |s| && IsDigit(s[i]) { EndsAllSame(s, ManyEnds(SpaceOrDash, s, i + 1), i); }
  }

  lemma FewerDigits(n: nat, s: string, i: nat) returns (last: nat)
    requires n > 0 && i < |s| && IsDigit(s[i])
    ensures i < last <= |s| && Ends(Exactly(CARD_DIGIT, n + 1), s, i) == Ends(Exactly(CARD_DIGIT, n), s, last)
  {
    assert Exactly(CARD_DIGIT, n + 1) == Cat(CARD_DIGIT, Exactly(CARD_DIGIT, n));
    OneMore(Exactly(CARD_DIGIT, n), s, i);
    last := NextDigit(n, s, i + 1, i);
  }

  /** After the n-th digit the matcher tries its separators one by one. */
  lemma {:induction false} ExactlyEnds(n: nat, s: string, i: nat, ends: seq<nat>) returns (m: nat)
    requires n > 0 && i <= |s| && ends == Ends(Exactly(CARD_DIGIT, n), s, i) != []
    ensures i < m <= |s| && IsDigit(s[m - 1]) && ends == ManyEnds(SpaceOrDash, s, m)
  {
    if i == |s| || !IsDigit(s[i]) {
      NoUnit(Exactly(CARD_DIGIT, n - 1), s, i);
      assert false;
    } else if n == 1 {
      OneDigit(s, i);
      m := i + 1;
    } else {
      var last := FewerDigits(n - 1, s, i);
      m := ExactlyEnds(n - 1, s, last, ends);
    }
  }

  /** More digits: the first boundary that is reached is the nearest. */
  lemma {:induction false} MoreLeads(n: nat, s: string, m: nat, least: nat)
    requires least <= m <= |s| && 0 < m && IsDigit(s[m - 1])
    ensures Leads(s, EndsAll(AtMost(CARD_DIGIT, n), s, ManyEnds(SpaceOrDash, s, m), least))
    decreases n, 1
  {
    var r, starts := AtMost(CARD_DIGIT, n), ManyEnds(SpaceOrDash, s, m);
    if m < |s| && In(SpaceOrDash, s[m]) {
      assert Ends(r, s, m) == [m] by {
        if n > 0 { NoUnit(AtMost(CARD_DIGIT, n - 1), s, m); }
      }
      var ends := EndsAll(r, s, starts, least);
      assert ends[0] == m && AtBoundary(s, m);
      forall x | x in ends ensures m <= x {
        EndsAllMember(r, s, starts, least, x);
      }
    } else {
      assert starts == [m];
      EndsAllOne(r, s, m, least);
      BlockLeads(n, s, m);
    }
  }

  lemma {:induction false} BlockLeads(n: nat, s: string, m: nat)
    requires 0 < m <= |s| && IsDigit(s[m - 1])
    ensures Leads(s, Ends(AtMost(CARD_DIGIT, n), s, m))
    decreases n, 0
  {
    if n > 0 {
      var more := AtMost(CARD_DIGIT, n - 1);
      if m < |s| && IsDigit(s[m]) {
        UnitEnds(s, m);
        MoreLeads(n - 1, s, m + 1, m);
        LeadsPast(s, Ends(Cat(CARD_DIGIT, more), s, m), m);
      } else {
        NoUnit(more, s, m);
      }
    }
  }

  /** The match of the card pattern is the shortest card-like number that begins there. */
  lemma CardShortest(s: string, i: nat, e: nat)
    requires Matches(CARD, s, i, e)
    ensures Ends(CARD, s, i)[0] <= e
  {
    var digits := Between(CARD_DIGIT, 13, 19);
    var inner := Cat(digits, Boundary);
    MatchesDelimited(digits, s, i, e);
    EndsAllOne(inner, s, i, i);
    assert Ends(CARD, s, i) == Ends(inner, s, i);
    var ends := Ends(digits, s, i);
    assert Leads(s, ends) by {
      var thirteen := Ends(Exactly(CARD_DIGIT, 13), s, i);
      if thirteen != [] {
        var m := ExactlyEnds(13, s, i, thirteen);
        MoreLeads(6, s, m, i);
      }
    }
    FirstBoundary(s, ends, i, e);
  }

  // ---- What the passes do ------------------------------------------------------------------------------

  /** A pattern matches exactly where an identifier of its kind stands, and finds the shortest. */
  lemma PatternMeaning(kind: Kind, s: string, i: nat, e: nat)
    requires i <= |s|
    ensures Matches(Pattern(kind), s, i, e) <==> StandsAt(kind, s, i, e)
    ensures StandsAt(kind, s, i, e) ==> Ends(Pattern(kind), s, i)[0] <= e
  {
    match kind
    case Ssn => SsnEnds(s, i, e);
    case Ein => EinEnds(s, i, e);
    case Card =>
      CardMeaning(s, i, e);
      if CardAt(s, i, e) { CardShortest(s, i, e); }
  }

  lemma SsnEnds(s: string, i: nat, e: nat)
    requires i <= |s|
    ensures Matches(SSN, s, i, e) <==> SsnAt(s, i) && e == i + 11
    ensures Ends(SSN, s, i) != [] ==> Ends(SSN, s, i)[0] == i + 11
  {
    SsnMatches(s, i, e);
    if Ends(SSN, s, i) != [] { SsnMatches(s, i, Ends(SSN, s, i)[0]); }
  }

  lemma EinEnds(s: string, i: nat, e: nat)
    requires i <= |s|
    ensures Matches(EIN, s, i, e) <==> EinAt(s, i) && e == i + 10
    ensures Ends(EIN, s, i) != [] ==> Ends(EIN, s, i)[0] == i + 10
  {
    EinMatches(s, i, e);
    if Ends(EIN, s, i) != [] { EinMatches(s, i, Ends(EIN, s, i)[0]); }
  }

  lemma StayFirst(kind: Kind, s: string, i: nat, rest: seq<Piece>)
    requires i < |s| && Hides(kind, s, rest, i + 1) && Ends(Pattern(kind), s, i) == []
    ensures Hides(kind, s, [Stay(s[i])] + rest, i)
  {
    forall e: nat ensures !StandsAt(kind, s, i, e) { PatternMeaning(kind, s, i, e); }
    assert ([Stay(s[i])] + rest)[1..] == rest;
  }

  lemma HideFirst(kind: Kind, s: string, i: nat, end: nat, rest: seq<Piece>)
    requires i < end <= |s| && Hides(kind, s, rest, end)
    requires Ends(Pattern(kind), s, i) != [] && end == Ends(Pattern(kind), s, i)[0]
    ensures Hides(kind, s, [Hide(s[i..end])] + rest, i)
  {
    assert Matches(Pattern(kind), s, i, end);
    PatternMeaning(kind, s, i, end);
    forall e: nat | StandsAt(kind, s, i, e) ensures end <= e { PatternMeaning(kind, s, i, e); }
    assert ([Hide(s[i..end])] + rest)[1..] == rest;
  }

  /** One pass from `i` on. */
  lemma {:induction false} PassHides(kind: Kind, s: string, i: nat) returns (pieces: seq<Piece>)
    requires i <= |s| && MinWidth(Pattern(kind)) > 0
    ensures Hides(kind, s, pieces, i) && Sub(Pattern(kind), s, i) == Displayed(pieces)
    decreases |s| - i
  {
    var r := Pattern(kind);
    if i == |s| {
      pieces := [];
    } else if Ends(r, s, i) == [] {
      var rest := PassHides(kind, s, i + 1);
      pieces := [Stay(s[i])] + rest;
      StayFirst(kind, s, i, rest);
      assert pieces[1..] == rest;
    } else {
      var end := Ends(r, s, i)[0];
      MatchWidth(r, s, i, end);
      var rest := PassHides(kind, s, end);
      pieces := [Hide(s[i..end])] + rest;
      HideFirst(kind, s, i, end, rest);
      assert pieces[1..] == rest;
    }
  }

  /**
  Redaction drops the control characters, then masks the social security numbers, in what that shows the
  employer numbers, and in what that shows the card-like numbers, and does nothing else.
  */
  lemma RedactMeaning(text: string) returns (ssns: seq<Piece>, eins: seq<Piece>, cards: seq<Piece>)
    ensures Hides(Ssn, RemoveControl(text), ssns, 0)
    ensures Hides(Ein, Displayed(ssns), eins, 0)
    ensures Hides(Card, Displayed(eins), cards, 0)
    ensures Redact(text) == Displayed(cards)
  {
    PatternsMaskable();
    SsnMaskable();
    EinMaskable();
    CardMaskable();
    ssns := PassHides(Ssn, RemoveControl(text), 0);
    eins := PassHides(Ein, Displayed(ssns), 0);
    cards := PassHides(Card, Displayed(eins), 0);
    RedactPasses(text);
  }

  lemma RedactPasses(text: string)
    requires MinWidth(SSN) > 0 && MinWidth(EIN) > 0 && MinWidth(CARD) > 0
    ensures Redact(text) == Sub(CARD, Sub(EIN, Sub(SSN, RemoveControl(text), 0), 0), 0)
  {
    PatternsMaskable();
    assert SENSITIVE_PATTERNS[..2] == [SSN, EIN] && [SSN, EIN][..1] == [SSN] && [SSN][..0] == [];
    assert SubAll([SSN], RemoveControl(text)) == Sub(SSN, RemoveControl(text), 0);
    assert SubAll([SSN, EIN], RemoveControl(text)) == Sub(EIN, Sub(SSN, RemoveControl(text), 0), 0);
  }
}
