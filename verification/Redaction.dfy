/**
`_redact_sensitive_text` of app/services/email_search.py: control characters are removed, then
three patterns are masked one after the other. Since each pass rewrites the text, it has to be
shown that no pass leaves or re-creates a match of its own pattern or of an earlier one.
*/
module Redaction {
  import opened Regex

  const MASK := "[REDACTED]"

  const SSN := Delimited(Cat(Exactly(One(Digit), 3), Cat(One(Lit('-')),
                         Cat(Exactly(One(Digit), 2), Cat(One(Lit('-')), Exactly(One(Digit), 4))))))

  const EIN := Delimited(Cat(Exactly(One(Digit), 2), Cat(One(Lit('-')), Exactly(One(Digit), 7))))

  const CARD_DIGIT := Cat(One(Digit), ManyLazy(SpaceOrDash))

  const CARD := Delimited(Between(CARD_DIGIT, 13, 19))

  const SENSITIVE_PATTERNS := [SSN, EIN, CARD]

  predicate IsControl(c: char) {
    c <= 8 as char || c == 11 as char || c == 12 as char || 14 as char <= c <= 31 as char || c == 127 as char
  }

  function RemoveControl(s: string): string {
    if s == "" then "" else (if IsControl(s[0]) then "" else [s[0]]) + RemoveControl(s[1..])
  }

  /** `pattern.sub(MASK, s)` from position `i` on: leftmost matches, without overlap. */
  function Sub(r: Re, s: string, i: nat): string
    requires i <= |s| && MinWidth(r) > 0
    decreases |s| - i
  {
    if i == |s| then ""
    else if Ends(r, s, i) == [] then [s[i]] + Sub(r, s, i + 1)
    else
      var e := Ends(r, s, i)[0];
      MatchWidth(r, s, i, e);
      MASK + Sub(r, s, e)
  }

  // ---- What the patterns need --------------------------------------------------------------------

  predicate IdentifierChar(c: char) {
    IsDigit(c) || c == '-' || c == ' '
  }

  /** The pattern consumes digits, dashes and spaces only. */
  predicate IdentifierOnly(r: Re) {
    match r
    case Empty => true
    case One(cls) => cls in {Digit, SpaceOrDash, Lit('-')}
    case Boundary => true
    case Cat(a, b) => IdentifierOnly(a) && IdentifierOnly(b)
    case Optional(body) => IdentifierOnly(body)
    case Many(cls) => cls in {Digit, SpaceOrDash, Lit('-')}
    case ManyLazy(cls) => cls in {Digit, SpaceOrDash, Lit('-')}
  }

  lemma {:induction false} IdentifierUses(r: Re, c: char)
    requires IdentifierOnly(r) && Uses(r, c)
    ensures IdentifierChar(c)
  {
    match r
    case Cat(a, b) =>
      if Uses(a, c) { IdentifierUses(a, c); } else { IdentifierUses(b, c); }
    case Optional(body) => IdentifierUses(body, c);
    case _ =>
  }

  /** A pattern the redactor may use: delimited, at least as wide as the mask, blind to its letters. */
  ghost predicate Maskable(r: Re) {
    (exists body :: r == Delimited(body)) && MinWidth(r) >= |MASK| && IdentifierOnly(r)
  }

  lemma {:induction false} ExactlyShape(body: Re, n: nat)
    requires MinWidth(body) == 1 && IdentifierOnly(body)
    ensures MinWidth(Exactly(body, n)) == n && IdentifierOnly(Exactly(body, n))
  {
    if n > 0 { ExactlyShape(body, n - 1); }
  }

  lemma {:induction false} AtMostShape(body: Re, n: nat)
    requires IdentifierOnly(body)
    ensures MinWidth(AtMost(body, n)) == 0 && IdentifierOnly(AtMost(body, n))
  {
    if n > 0 {
      AtMostShape(body, n - 1);
      assert IdentifierOnly(Cat(body, AtMost(body, n - 1)));
    }
  }

  lemma DelimitedShape(body: Re)
    requires IdentifierOnly(body) && MinWidth(body) >= |MASK|
    ensures Maskable(Delimited(body)) && MinWidth(Delimited(body)) == MinWidth(body)
  {
    var tail := Cat(body, Boundary);
    assert MinWidth(Boundary) == 0;
    assert MinWidth(tail) == MinWidth(body) + MinWidth(Boundary) && IdentifierOnly(tail);
    assert MinWidth(Delimited(body)) == MinWidth(Boundary) + MinWidth(tail);
  }

  lemma SsnMaskable()
    ensures Maskable(SSN) && MinWidth(SSN) == 11
  {
    var digit, dash := One(Digit), One(Lit('-'));
    ExactlyShape(digit, 4);
    ExactlyShape(digit, 2);
    ExactlyShape(digit, 3);
    var serial := Cat(dash, Exactly(digit, 4));
    assert IdentifierOnly(serial) && MinWidth(serial) == 5;
    var group := Cat(dash, Cat(Exactly(digit, 2), serial));
    assert IdentifierOnly(Cat(Exactly(digit, 2), serial)) && IdentifierOnly(group) && MinWidth(group) == 8;
    DelimitedShape(Cat(Exactly(digit, 3), group));
  }

  lemma EinMaskable()
    ensures Maskable(EIN) && MinWidth(EIN) == 10
  {
    var digit, dash := One(Digit), One(Lit('-'));
    ExactlyShape(digit, 7);
    ExactlyShape(digit, 2);
    var serial := Cat(dash, Exactly(digit, 7));
    assert IdentifierOnly(serial) && MinWidth(serial) == 8;
    DelimitedShape(Cat(Exactly(digit, 2), serial));
  }

  lemma CardMaskable()
    ensures Maskable(CARD) && MinWidth(CARD) == 13
  {
    assert MinWidth(CARD_DIGIT) == 1 && IdentifierOnly(CARD_DIGIT);
    ExactlyShape(CARD_DIGIT, 13);
    AtMostShape(CARD_DIGIT, 6);
    DelimitedShape(Between(CARD_DIGIT, 13, 19));
  }

  ghost predicate AllMaskable(patterns: seq<Re>) {
    forall n :: 0 <= n < |patterns| ==> Maskable(patterns[n])
  }

  lemma AllThreeMaskable(a: Re, b: Re, c: Re)
    requires Maskable(a) && Maskable(b) && Maskable(c)
    ensures AllMaskable([a, b, c])
    ensures forall n :: 0 <= n < 3 ==> MinWidth([a, b, c][n]) > 0
  {
  }

  lemma PatternsMaskable()
    ensures AllMaskable(SENSITIVE_PATTERNS)
    ensures forall n :: 0 <= n < |SENSITIVE_PATTERNS| ==> MinWidth(SENSITIVE_PATTERNS[n]) > 0
  {
    SsnMaskable();
    EinMaskable();
    CardMaskable();
    AllThreeMaskable(SSN, EIN, CARD);
  }

  /** The passes one after the other, the last pattern of the list last. */
  function SubAll(patterns: seq<Re>, s: string): string
    requires forall n :: 0 <= n < |patterns| ==> MinWidth(patterns[n]) > 0
  {
    if patterns == [] then s
    else Sub(patterns[|patterns| - 1], SubAll(patterns[..|patterns| - 1], s), 0)
  }

  function Redact(text: string): string {
    PatternsMaskable();
    SubAll(SENSITIVE_PATTERNS, RemoveControl(text))
  }

  // ---- Where the characters of a masked text come from --------------------------------------------

  /**
  `o` gives the origin of each character of `t`: its position in `s`, or -1 inside a mask. This is
  the k-th character and its link to the next one: kept characters follow each other as in `s`, and
  a mask starts at a boundary of `s`, at a place where `q` matches.
  */
  ghost predicate Sourced(q: Re, s: string, t: string, o: seq<int>, k: nat)
    requires |o| == |t| && k < |t|
  {
    if o[k] < 0 then t[k] in MASK
    else
      && o[k] < |s| && t[k] == s[o[k]] && Ends(q, s, o[k]) == []
      && (k + 1 == |t| ==> o[k] + 1 == |s|)
      && (k + 1 < |t| && o[k + 1] >= 0 ==> o[k + 1] == o[k] + 1)
      && (k + 1 < |t| && o[k + 1] < 0 ==> AtBoundary(s, o[k] + 1))
  }

  /** A kept character comes right after a mask only at a boundary of the source. */
  ghost predicate Reentered(s: string, o: seq<int>, k: nat)
    requires k < |o|
  {
    k > 0 && o[k] >= 0 && o[k - 1] < 0 ==> o[k] <= |s| && AtBoundary(s, o[k])
  }

  /** `t` is `s` from `i` on with some stretches masked. */
  ghost predicate Aligned(q: Re, s: string, t: string, o: seq<int>, i: nat) {
    && i <= |s| && |o| == |t|
    && (forall k :: 0 <= k < |t| ==> Sourced(q, s, t, o, k))
    && (forall k :: 0 <= k < |t| ==> Reentered(s, o, k))
    && (if o == [] then i == |s| else if o[0] >= 0 then o[0] == i else AtBoundary(s, i))
  }

  lemma MatchBoundaries(r: Re, s: string, i: nat, e: nat)
    requires Maskable(r) && Matches(r, s, i, e)
    ensures AtBoundary(s, i) && AtBoundary(s, e)
  {
    var body :| r == Delimited(body);
    MatchesDelimited(body, s, i, e);
  }

  /** Links carry over when characters are put in front. */
  lemma SourcedShift(q: Re, s: string, t: string, o: seq<int>, front: string, front': seq<int>, k: nat)
    requires |o| == |t| && |front| == |front'| && k < |t| && Sourced(q, s, t, o, k)
    ensures Sourced(q, s, front + t, front' + o, k + |front|)
  {
    var t', o', k' := front + t, front' + o, k + |front|;
    assert t'[k'] == t[k] && o'[k'] == o[k];
    if k + 1 < |t| { assert o'[k' + 1] == o[k + 1]; }
  }

  lemma KeepStep(q: Re, s: string, t: string, o: seq<int>, i: nat)
    requires i < |s| && Ends(q, s, i) == [] && Aligned(q, s, t, o, i + 1)
    ensures Aligned(q, s, [s[i]] + t, [i as int] + o, i)
  {
    var t', o' := [s[i]] + t, [i as int] + o;
    if o != [] { assert o'[1] == o[0]; }
    assert Sourced(q, s, t', o', 0);
    forall k | 1 <= k < |t'| ensures Sourced(q, s, t', o', k) && Reentered(s, o', k) {
      assert Sourced(q, s, t, o, k - 1) && Reentered(s, o, k - 1);
      SourcedShift(q, s, t, o, [s[i]], [i as int], k - 1);
    }
  }

  lemma MaskStep(q: Re, s: string, t: string, o: seq<int>, i: nat, e: nat)
    requires i <= |s| && AtBoundary(s, i) && Aligned(q, s, t, o, e) && AtBoundary(s, e)
    ensures Aligned(q, s, MASK + t, seq(|MASK|, _ => -1) + o, i)
  {
    var masked := seq(|MASK|, _ => -1);
    var t', o' := MASK + t, masked + o;
    forall k | 0 <= k < |t'| ensures Sourced(q, s, t', o', k) {
      if k < |MASK| {
        assert o'[k] == masked[k] && t'[k] == MASK[k];
      } else {
        assert Sourced(q, s, t, o, k - |MASK|);
        SourcedShift(q, s, t, o, MASK, masked, k - |MASK|);
      }
    }
    forall k | 0 <= k < |t'| ensures Reentered(s, o', k) {
      if k > |MASK| { assert Reentered(s, o, k - |MASK|); }
    }
  }

  lemma {:induction false} SubAligned(q: Re, s: string, i: nat) returns (o: seq<int>)
    requires Maskable(q) && i <= |s|
    ensures Aligned(q, s, Sub(q, s, i), o, i)
    decreases |s| - i
  {
    if i == |s| {
      o := [];
    } else if Ends(q, s, i) == [] {
      var rest := SubAligned(q, s, i + 1);
      KeepStep(q, s, Sub(q, s, i + 1), rest, i);
      o := [i as int] + rest;
    } else {
      var e := Ends(q, s, i)[0];
      MatchWidth(q, s, i, e);
      MatchBoundaries(q, s, i, e);
      var rest := SubAligned(q, s, e);
      MaskStep(q, s, Sub(q, s, e), rest, i, e);
      o := seq(|MASK|, _ => -1) + rest;
    }
  }

  // ---- No pass leaves or creates a match ----------------------------------------------------------

  /** The characters from `j` to `e` were kept in one stretch, `d` characters further on in the source. */
  ghost predicate Kept(o: seq<int>, j: nat, e: nat, d: int) {
    j < e <= |o| && 0 <= j + d && forall m :: j <= m < e ==> o[m] == m + d
  }

  /** Inside a match every character was kept. */
  lemma {:induction false} MatchKept(q: Re, s: string, t: string, o: seq<int>, r: Re, j: nat, e: nat, k: nat)
    requires Aligned(q, s, t, o, 0) && Maskable(r) && Matches(r, t, j, e) && j <= k < e
    ensures Kept(o, j, k + 1, o[j] - j)
    decreases k
  {
    MatchAlphabet(r, t, j, e, k);
    IdentifierUses(r, t[k]);
    assert t[k] !in MASK;
    assert Sourced(q, s, t, o, k);
    if k > j {
      MatchKept(q, s, t, o, r, j, e, k - 1);
      assert Sourced(q, s, t, o, k - 1);
    }
  }

  lemma CharKept(q: Re, s: string, t: string, o: seq<int>, j: nat, e: nat, d: int, k: nat)
    requires Aligned(q, s, t, o, 0) && Kept(o, j, e, d) && j <= k < e
    ensures k + d < |s| && t[k] == s[k + d]
  {
    assert Sourced(q, s, t, o, k);
  }

  /** A boundary of the masked text next to kept characters is a boundary of the source. */
  lemma BoundaryKept(q: Re, s: string, t: string, o: seq<int>, j: nat, e: nat, d: int, k: nat)
    requires Aligned(q, s, t, o, 0) && Kept(o, j, e, d) && j <= k <= e
    ensures k + d <= |s| && (AtBoundary(t, k) ==> AtBoundary(s, k + d))
  {
    if k > 0 { assert Sourced(q, s, t, o, k - 1); }
    if k < |t| { assert Sourced(q, s, t, o, k) && Reentered(s, o, k); }
  }

  lemma StretchReadsAlike(q: Re, s: string, t: string, o: seq<int>, j: nat, e: nat, d: int)
    requires Aligned(q, s, t, o, 0) && Kept(o, j, e, d)
    ensures ReadsAlike(t, j, e, s, d)
  {
    BoundaryKept(q, s, t, o, j, e, d, e);
    forall k | j <= k < e ensures t[k] == s[k + d] {
      CharKept(q, s, t, o, j, e, d, k);
    }
    forall k | j <= k <= e && AtBoundary(t, k) ensures AtBoundary(s, k + d) {
      BoundaryKept(q, s, t, o, j, e, d, k);
    }
  }

  /**
  Every match of `r` in the text masked for `q` was already a match of `r` in the source, at a
  place where `q` matches nothing.
  */
  lemma MatchSurvives(q: Re, s: string, r: Re, j: nat, e: nat) returns (i: nat)
    requires Maskable(q) && Maskable(r) && Matches(r, Sub(q, s, 0), j, e)
    ensures i <= |s| && Ends(q, s, i) == [] && Ends(r, s, i) != []
  {
    var o := SubAligned(q, s, 0);
    i := MatchSource(q, s, Sub(q, s, 0), o, r, j, e);
  }

  lemma MatchSource(q: Re, s: string, t: string, o: seq<int>, r: Re, j: nat, e: nat) returns (i: nat)
    requires Aligned(q, s, t, o, 0) && Maskable(r) && Matches(r, t, j, e)
    ensures i <= |s| && Ends(q, s, i) == [] && Ends(r, s, i) != []
  {
    MatchWidth(r, t, j, e);
    MatchKept(q, s, t, o, r, j, e, e - 1);
    var d := o[j] - j;
    StretchReadsAlike(q, s, t, o, j, e, d);
    i := j + d;
    assert Sourced(q, s, t, o, j);
    MatchIsLocal(r, t, j, e, s, d);
    assert Matches(r, s, i, e + d);
  }

  /** A pass leaves no match of its own pattern, and creates none of any other. */
  lemma SubClean(q: Re, s: string, r: Re)
    requires Maskable(q) && Maskable(r)
    requires r == q || Clean(r, s)
    ensures Clean(r, Sub(q, s, 0))
  {
    var t := Sub(q, s, 0);
    forall j | 0 <= j <= |t| ensures Ends(r, t, j) == [] {
      if Ends(r, t, j) != [] {
        var i := MatchSurvives(q, s, r, j, Ends(r, t, j)[0]);
        assert false;
      }
    }
  }

  lemma {:induction false} SubIdentity(r: Re, s: string, i: nat)
    requires MinWidth(r) > 0 && Clean(r, s) && i <= |s|
    ensures Sub(r, s, i) == s[i..]
    decreases |s| - i
  {
    if i < |s| { SubIdentity(r, s, i + 1); }
  }

  lemma {:induction false} SubShortens(r: Re, s: string, i: nat)
    requires MinWidth(r) >= |MASK| && i <= |s|
    ensures |Sub(r, s, i)| <= |s| - i
    decreases |s| - i
  {
    if i < |s| {
      if Ends(r, s, i) == [] {
        SubShortens(r, s, i + 1);
      } else {
        MatchWidth(r, s, i, Ends(r, s, i)[0]);
        SubShortens(r, s, Ends(r, s, i)[0]);
      }
    }
  }

  lemma {:induction false} SubChars(r: Re, s: string, i: nat, k: nat)
    requires MinWidth(r) > 0 && i <= |s| && k < |Sub(r, s, i)|
    ensures Sub(r, s, i)[k] in MASK || Sub(r, s, i)[k] in s
    decreases |s| - i
  {
    if Ends(r, s, i) == [] {
      if k > 0 { SubChars(r, s, i + 1, k - 1); }
    } else {
      MatchWidth(r, s, i, Ends(r, s, i)[0]);
      if k >= |MASK| { SubChars(r, s, Ends(r, s, i)[0], k - |MASK|); }
    }
  }

  ghost predicate NoControl(s: string) {
    forall k :: 0 <= k < |s| ==> !IsControl(s[k])
  }

  lemma {:induction false} RemoveControlSpec(s: string)
    ensures NoControl(RemoveControl(s)) && |RemoveControl(s)| <= |s|
    ensures NoControl(s) ==> RemoveControl(s) == s
  {
    if s != "" {
      RemoveControlSpec(s[1..]);
      assert NoControl(s) ==> NoControl(s[1..]);
    }
  }

  /** Characters are looked at one by one: the others are kept, each in its place. */
  lemma {:induction false} RemoveControlParts(a: string, b: string)
    ensures RemoveControl(a + b) == RemoveControl(a) + RemoveControl(b)
  {
    if a == "" {
      assert a + b == b;
    } else {
      assert (a + b)[1..] == a[1..] + b;
      RemoveControlParts(a[1..], b);
    }
  }

  /** The codes below 32 go, but not tab, line feed and carriage return; so does 127. */
  lemma RemoveControlOne(c: char)
    ensures RemoveControl([c]) == if (c as int < 32 && c as int !in {9, 10, 13}) || c as int == 127 then "" else [c]
  {
    assert [c][1..] == "";
  }

  // ---- All passes ---------------------------------------------------------------------------------

  lemma {:induction false} SubAllClean(patterns: seq<Re>, s: string, n: nat)
    requires AllMaskable(patterns) && n < |patterns|
    ensures Clean(patterns[n], SubAll(patterns, s))
  {
    var front, last := patterns[..|patterns| - 1], patterns[|patterns| - 1];
    if n < |front| {
      assert front[n] == patterns[n];
      SubAllClean(front, s, n);
    }
    SubClean(last, SubAll(front, s), patterns[n]);
  }

  lemma {:induction false} SubAllShortens(patterns: seq<Re>, s: string)
    requires AllMaskable(patterns)
    ensures |SubAll(patterns, s)| <= |s|
    ensures NoControl(s) ==> NoControl(SubAll(patterns, s))
  {
    if patterns != [] {
      var front, last := patterns[..|patterns| - 1], patterns[|patterns| - 1];
      SubAllShortens(front, s);
      SubShortens(last, SubAll(front, s), 0);
      var t := SubAll(front, s);
      forall k | 0 <= k < |Sub(last, t, 0)| && NoControl(t) ensures !IsControl(Sub(last, t, 0)[k]) {
        SubChars(last, t, 0, k);
      }
    }
  }

  lemma {:induction false} SubAllIdentity(patterns: seq<Re>, s: string)
    requires AllMaskable(patterns)
    requires forall n :: 0 <= n < |patterns| ==> Clean(patterns[n], s)
    ensures SubAll(patterns, s) == s
  {
    if patterns != [] {
      var front := patterns[..|patterns| - 1];
      forall n | 0 <= n < |front| ensures Clean(front[n], s) { assert front[n] == patterns[n]; }
      SubAllIdentity(front, s);
      SubIdentity(patterns[|patterns| - 1], s, 0);
    }
  }

  /** After redaction no control character and no match of any of the three patterns remains. */
  lemma RedactionComplete(text: string)
    ensures NoControl(Redact(text)) && |Redact(text)| <= |text|
    ensures Clean(SSN, Redact(text)) && Clean(EIN, Redact(text)) && Clean(CARD, Redact(text))
  {
    PatternsMaskable();
    RemoveControlSpec(text);
    SubAllShortens(SENSITIVE_PATTERNS, RemoveControl(text));
    SubAllClean(SENSITIVE_PATTERNS, RemoveControl(text), 0);
    SubAllClean(SENSITIVE_PATTERNS, RemoveControl(text), 1);
    SubAllClean(SENSITIVE_PATTERNS, RemoveControl(text), 2);
  }

  /** Redacting a second time changes nothing. */
  lemma RedactionIdempotent(text: string)
    ensures Redact(Redact(text)) == Redact(text)
  {
    RedactionComplete(text);
    RedactionKeepsCleanText(Redact(text));
  }

  /** A text with no control character and no match is left as it is. */
  lemma RedactionKeepsCleanText(text: string)
    requires NoControl(text) && Clean(SSN, text) && Clean(EIN, text) && Clean(CARD, text)
    ensures Redact(text) == text
  {
    PatternsMaskable();
    RemoveControlSpec(text);
    SubAllIdentity(SENSITIVE_PATTERNS, text);
  }

  method RedactSensitiveText(text: string) returns (sanitized: string)
    ensures sanitized == Redact(text)
  {
    PatternsMaskable();
    sanitized := RemoveControl(text);
    for n := 0 to |SENSITIVE_PATTERNS|
      invariant sanitized == SubAll(SENSITIVE_PATTERNS[..n], RemoveControl(text))
    {
      assert SENSITIVE_PATTERNS[..n + 1][..n] == SENSITIVE_PATTERNS[..n];
      sanitized := Sub(SENSITIVE_PATTERNS[n], sanitized, 0);
    }
    assert SENSITIVE_PATTERNS[..|SENSITIVE_PATTERNS|] == SENSITIVE_PATTERNS;
  }
}
