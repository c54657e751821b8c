/**
`_infer_conversation_client_id` of app/services/conversation.py: every candidate client is scored
against the question, the scores are sorted, and a tie at the top gives no answer.
*/
module ClientInference {
  import opened Common
  import opened Clients
  import opened Regex
  import opened Text
  import opened Snippet
  import opened Sorting

  datatype Scored = Scored(score: nat, nameLength: nat, id: nat)

  function IdText(n: nat): string {
    if n < 10 then [('0' as int + n) as char] else IdText(n / 10) + [('0' as int + n % 10) as char]
  }

  /** `\bclient\s+#?{id}\b`. */
  function ClientReference(id: nat): Re {
    Cat(Boundary, Cat(Literal("client"), Cat(One(White), Cat(Many(White),
    Cat(Optional(One(Lit('#'))), Cat(Literal(IdText(id)), Boundary))))))
  }

  /** `\b{part}\b`. */
  function NamePart(part: string): Re {
    Delimited(Literal(part))
  }

  function LongParts(words: seq<string>): seq<string> {
    if words == [] then []
    else
      var front, last := words[..|words| - 1], words[|words| - 1];
      LongParts(front) + if |last| >= 3 then [last] else []
  }

  function CountIf(parts: seq<string>, found: string -> bool): nat {
    if parts == [] then 0
    else CountIf(parts[..|parts| - 1], found) + if found(parts[|parts| - 1]) then 1 else 0
  }

  function MatchedParts(parts: seq<string>, lowered: string): nat {
    CountIf(parts, part => Search(NamePart(part), lowered))
  }

  function MaxNat(a: nat, b: nat): nat {
    if a <= b then b else a
  }

  /** The best of what the question says about the client. */
  function ClientScore(c: Client, lowered: string): nat {
    var name, email := Lower(c.name), Lower(c.externalEmail);
    var parts := LongParts(Split(name));
    var matched := MatchedParts(parts, lowered);
    var byEmail: nat := if email != "" && Contains(lowered, email) then 100 else 0;
    var byName: nat := if name != "" && Contains(lowered, name) then 90 + |name| else 0;
    var byId: nat := if Search(ClientReference(c.id), lowered) then 80 else 0;
    var byParts: nat := if matched > 0 then (if matched == |parts| then 70 else 40) + matched else 0;
    MaxNat(MaxNat(MaxNat(byEmail, byName), byId), byParts)
  }

  function ScoredOf(c: Client, lowered: string): Scored {
    Scored(ClientScore(c, lowered), |c.name|, c.id)
  }

  function ScoredClients(clients: seq<Client>, lowered: string): seq<Scored> {
    if clients == [] then []
    else
      var front, last := clients[..|clients| - 1], clients[|clients| - 1];
      ScoredClients(front, lowered) + if ClientScore(last, lowered) > 0 then [ScoredOf(last, lowered)] else []
  }

  /** The order of the tuples (score, name length, id), largest first. */
  predicate AtLeast(a: Scored, b: Scored) {
    || a.score > b.score
    || (a.score == b.score && (a.nameLength > b.nameLength || (a.nameLength == b.nameLength && a.id >= b.id)))
  }

  function Infer(clients: seq<Client>, lowered: string): Option<nat> {
    var scored := Sort(ScoredClients(clients, lowered), AtLeast);
    if scored == [] then None
    else if |scored| > 1 && scored[0].score == scored[1].score && scored[0].nameLength == scored[1].nameLength then None
    else Some(scored[0].id)
  }

  // ---- What the score means -----------------------------------------------------------------------

  function Value(digits: string): nat
    requires forall k :: 0 <= k < |digits| ==> IsDigit(digits[k])
  {
    if digits == "" then 0
    else
      assert IsDigit(digits[|digits| - 1]);
      10 * Value(digits[..|digits| - 1]) + (digits[|digits| - 1] as int - '0' as int)
  }

  /** An id is written in decimal digits, without leading zeros. */
  lemma {:induction false} IdTextMeaning(n: nat)
    ensures IdText(n) != "" && forall k :: 0 <= k < |IdText(n)| ==> IsDigit(IdText(n)[k])
    ensures Value(IdText(n)) == n && (IdText(n)[0] == '0' ==> n == 0)
  {
    if n >= 10 {
      IdTextMeaning(n / 10);
      var text := IdText(n);
      assert text[..|text| - 1] == IdText(n / 10);
    } else {
      assert IdText(n)[..0] == "";
    }
  }

  /** A literal matches where it stands. */
  lemma {:induction false} LiteralMeaning(text: string, s: string, i: nat, e: nat)
    requires i <= |s|
    ensures Matches(Literal(text), s, i, e) <==> StartsWith(s, i, text) && e == i + |text|
  {
    StartsWithAt(s, i, text);
    if text != "" {
      var rest := text[1..];
      MatchesCat(One(Lit(text[0])), Literal(rest), s, i, e);
      if i < |s| {
        LiteralMeaning(rest, s, i + 1, e);
        StartsWithAt(s, i + 1, rest);
        assert forall k: nat :: k < |rest| ==> rest[k] == text[k + 1];
        if StartsWith(s, i + 1, rest) && s[i] == text[0] {
          assert forall k: nat :: 0 < k < |text| ==> text[k] == rest[k - 1];
          assert Matches(One(Lit(text[0])), s, i, i + 1);
        }
      }
    }
  }

  /** A part of a name is found where it stands as a word of its own. */
  lemma NamePartMeaning(part: string, s: string)
    ensures Search(NamePart(part), s) <==>
            exists i: nat :: StartsWith(s, i, part) && AtBoundary(s, i) && AtBoundary(s, i + |part|)
  {
    forall i: nat, e: nat | i <= |s|
      ensures Matches(NamePart(part), s, i, e) <==>
              StartsWith(s, i, part) && e == i + |part| && AtBoundary(s, i) && AtBoundary(s, e)
    {
      LiteralMeaning(part, s, i, e);
      MatchesDelimited(Literal(part), s, i, e);
    }
    SearchMatches(NamePart(part), s);
    if i: nat :| StartsWith(s, i, part) && AtBoundary(s, i) && AtBoundary(s, i + |part|) {
      assert Matches(NamePart(part), s, i, i + |part|);
    }
  }

  lemma SearchMatches(r: Re, s: string)
    ensures Search(r, s) <==> exists i: nat, e: nat :: Matches(r, s, i, e)
  {
    if Search(r, s) {
      var i :| 0 <= i <= |s| && Ends(r, s, i) != [];
      assert Matches(r, s, i, Ends(r, s, i)[0]);
    }
  }

  /** "client", white space, a number sign or none, and the id, the whole of it a phrase of its own. */
  ghost predicate ReferenceAt(s: string, id: nat, i: nat, j: nat, k: nat) {
    && i + 7 <= j <= k && k + |IdText(id)| <= |s|
    && StartsWith(s, i, "client") && (forall x :: i + 6 <= x < j ==> IsSpace(s[x]))
    && (k == j || (k == j + 1 && s[j] == '#'))
    && StartsWith(s, k, IdText(id))
    && AtBoundary(s, i) && AtBoundary(s, k + |IdText(id)|)
  }

  /** The number and what follows it. */
  lemma NumberMeaning(text: string, s: string, k: nat, e: nat)
    requires k <= |s|
    ensures Matches(Cat(Literal(text), Boundary), s, k, e) <==>
            StartsWith(s, k, text) && e == k + |text| && AtBoundary(s, e)
  {
    if Matches(Cat(Literal(text), Boundary), s, k, e) {
      var m := CatSplit(Literal(text), Boundary, s, k, e);
      LiteralMeaning(text, s, k, m);
    }
    if StartsWith(s, k, text) && e == k + |text| && AtBoundary(s, e) {
      LiteralMeaning(text, s, k, e);
      assert Matches(Boundary, s, e, e);
      CatJoin(Literal(text), Boundary, s, k, e, e);
    }
  }

  /** The sign, if there is one. */
  lemma SignMeaning(s: string, j: nat, m: nat)
    requires j <= |s|
    ensures Matches(Optional(One(Lit('#'))), s, j, m) <==> m == j || (j < |s| && s[j] == '#' && m == j + 1)
  {
  }

  lemma ManySpaces(s: string, m: nat, j: nat)
    requires m <= |s|
    ensures Matches(Many(White), s, m, j) <==> m <= j <= |s| && forall x :: m <= x < j ==> IsSpace(s[x])
  {
    ManyMember(White, s, m, j);
  }

  function Signed(id: nat): Re {
    Cat(Optional(One(Lit('#'))), Cat(Literal(IdText(id)), Boundary))
  }

  function Spaced(id: nat): Re {
    Cat(One(White), Cat(Many(White), Signed(id)))
  }

  lemma SignedSplit(id: nat, s: string, j: nat, e: nat) returns (k: nat)
    requires Matches(Signed(id), s, j, e)
    ensures k == j || (j < |s| && s[j] == '#' && k == j + 1)
    ensures k <= |s| && StartsWith(s, k, IdText(id)) && e == k + |IdText(id)| && AtBoundary(s, e)
  {
    k := CatSplit(Optional(One(Lit('#'))), Cat(Literal(IdText(id)), Boundary), s, j, e);
    SignMeaning(s, j, k);
    NumberMeaning(IdText(id), s, k, e);
  }

  lemma SignedJoin(id: nat, s: string, j: nat, k: nat, e: nat)
    requires k == j || (j < |s| && s[j] == '#' && k == j + 1)
    requires k <= |s| && StartsWith(s, k, IdText(id)) && e == k + |IdText(id)| && AtBoundary(s, e)
    ensures Matches(Signed(id), s, j, e)
  {
    SignMeaning(s, j, k);
    NumberMeaning(IdText(id), s, k, e);
    CatJoin(Optional(One(Lit('#'))), Cat(Literal(IdText(id)), Boundary), s, j, k, e);
  }

  lemma SpacedSplit(id: nat, s: string, p: nat, e: nat) returns (j: nat)
    requires Matches(Spaced(id), s, p, e)
    ensures p < j <= |s| && (forall x :: p <= x < j ==> IsSpace(s[x])) && Matches(Signed(id), s, j, e)
  {
    var m := CatSplit(One(White), Cat(Many(White), Signed(id)), s, p, e);
    j := CatSplit(Many(White), Signed(id), s, m, e);
    ManySpaces(s, m, j);
  }

  lemma SpacedJoin(id: nat, s: string, p: nat, j: nat, e: nat)
    requires p < j <= |s| && (forall x :: p <= x < j ==> IsSpace(s[x])) && Matches(Signed(id), s, j, e)
    ensures Matches(Spaced(id), s, p, e)
  {
    ManySpaces(s, p + 1, j);
    CatJoin(Many(White), Signed(id), s, p + 1, j, e);
    CatJoin(One(White), Cat(Many(White), Signed(id)), s, p, p + 1, e);
  }

  lemma ReferenceSplit(id: nat, s: string, i: nat, e: nat) returns (j: nat, k: nat)
    requires Matches(ClientReference(id), s, i, e)
    ensures ReferenceAt(s, id, i, j, k) && e == k + |IdText(id)|
  {
    var start := CatSplit(Boundary, Cat(Literal("client"), Spaced(id)), s, i, e);
    var p := CatSplit(Literal("client"), Spaced(id), s, i, e);
    LiteralMeaning("client", s, i, p);
    j := SpacedSplit(id, s, p, e);
    k := SignedSplit(id, s, j, e);
  }

  lemma ReferenceJoin(id: nat, s: string, i: nat, j: nat, k: nat)
    requires ReferenceAt(s, id, i, j, k)
    ensures Matches(ClientReference(id), s, i, k + |IdText(id)|)
  {
    var e := k + |IdText(id)|;
    SignedJoin(id, s, j, k, e);
    SpacedJoin(id, s, i + 6, j, e);
    LiteralMeaning("client", s, i, i + 6);
    CatJoin(Literal("client"), Spaced(id), s, i, i + 6, e);
    assert Matches(Boundary, s, i, i);
    CatJoin(Boundary, Cat(Literal("client"), Spaced(id)), s, i, i, e);
  }

  /** A client is referred to by its id where such a phrase stands in the question. */
  lemma ReferenceMeaning(id: nat, s: string)
    ensures Search(ClientReference(id), s) <==> exists i: nat, j: nat, k: nat :: ReferenceAt(s, id, i, j, k)
  {
    SearchMatches(ClientReference(id), s);
    if i: nat, e: nat :| Matches(ClientReference(id), s, i, e) {
      var j, k := ReferenceSplit(id, s, i, e);
    }
    if i: nat, j: nat, k: nat :| ReferenceAt(s, id, i, j, k) {
      ReferenceJoin(id, s, i, j, k);
    }
  }

  predicate Mentions(lowered: string, text: string) {
    text != "" && Contains(lowered, text)
  }

  /** The words of three characters or more, by their places in the name, and those of them that `found` finds. */
  ghost function LongWords(words: seq<string>): set<nat> {
    set k: nat | k < |words| && |words[k]| >= 3
  }

  ghost function FoundWords(words: seq<string>, found: string -> bool): set<nat> {
    set k: nat | k < |words| && |words[k]| >= 3 && found(words[k])
  }

  lemma LongLast(front: seq<string>, last: string, found: string -> bool)
    ensures |LongWords(front + [last])| == |LongWords(front)| + if |last| >= 3 then 1 else 0
    ensures |FoundWords(front + [last], found)| == |FoundWords(front, found)| + if |last| >= 3 && found(last) then 1 else 0
  {
    assert LongWords(front + [last]) == LongWords(front) + if |last| >= 3 then {|front|} else {};
    assert FoundWords(front + [last], found) ==
           FoundWords(front, found) + if |last| >= 3 && found(last) then {|front|} else {};
  }

  lemma CountLast(parts: seq<string>, last: string, found: string -> bool)
    ensures CountIf(parts + [last], found) == CountIf(parts, found) + if found(last) then 1 else 0
  {
    assert (parts + [last])[..|parts|] == parts;
  }

  lemma {:induction false} PartsCounted(words: seq<string>, found: string -> bool)
    ensures |LongParts(words)| == |LongWords(words)|
    ensures CountIf(LongParts(words), found) == |FoundWords(words, found)|
  {
    if words == [] {
      assert LongWords(words) == {} && FoundWords(words, found) == {};
    } else {
      var front, last := words[..|words| - 1], words[|words| - 1];
      PartsCounted(front, found);
      assert words == front + [last];
      LongLast(front, last, found);
      CountLast(LongParts(front), last, found);
      assert LongParts(words) == if |last| >= 3 then LongParts(front) + [last] else LongParts(front);
    }
  }

  /**
  A client is a candidate exactly when the question names its email, its name, its id or a word of
  its name. Each way of being named has a worth of its own, the score is never below that of one that
  applies, and always that of one of them.
  */
  lemma ScoreMeaning(c: Client, lowered: string)
    ensures var name, email, score := Lower(c.name), Lower(c.externalEmail), ClientScore(c, lowered);
            var long := |LongWords(Split(name))|;
            var found := |FoundWords(Split(name), part => Search(NamePart(part), lowered))|;
            var worth := (if found == long then 70 else 40) + found;
            && (score > 0 <==> Mentions(lowered, email) || Mentions(lowered, name)
                               || Search(ClientReference(c.id), lowered) || found > 0)
            && (Mentions(lowered, name) ==> score >= 90 + |name|)
            && (Mentions(lowered, email) ==> score >= 100)
            && (Search(ClientReference(c.id), lowered) ==> score >= 80)
            && (found > 0 ==> score >= worth)
            && (score > 0 ==>
                  || (score == 100 && Mentions(lowered, email))
                  || (score == 90 + |name| && Mentions(lowered, name))
                  || (score == 80 && Search(ClientReference(c.id), lowered))
                  || (score == worth && found > 0))
  {
    PartsCounted(Split(Lower(c.name)), part => Search(NamePart(part), lowered));
  }

  // ---- What the answer means ----------------------------------------------------------------------

  /** `c` is strictly ahead of `d` by (score, name length). */
  predicate Ahead(c: Client, d: Client, lowered: string) {
    || ClientScore(c, lowered) > ClientScore(d, lowered)
    || (ClientScore(c, lowered) == ClientScore(d, lowered) && |c.name| > |d.name|)
  }

  /** `c` scores, and is strictly ahead of every other candidate. */
  ghost predicate Winner(c: Client, clients: seq<Client>, lowered: string) {
    && c in clients && ClientScore(c, lowered) > 0
    && forall d :: d in clients && d.id != c.id ==> Ahead(c, d, lowered)
  }

  ghost predicate DistinctIds(clients: seq<Client>) {
    forall i, j :: 0 <= i < j < |clients| ==> clients[i].id != clients[j].id
  }

  lemma {:induction false} ScoredAre(clients: seq<Client>, lowered: string)
    ensures forall s :: s in ScoredClients(clients, lowered) <==>
                        exists c :: c in clients && ClientScore(c, lowered) > 0 && s == ScoredOf(c, lowered)
  {
    if clients != [] {
      var front, last := clients[..|clients| - 1], clients[|clients| - 1];
      ScoredAre(front, lowered);
      assert forall c :: c in clients <==> c in front || c == last;
    }
  }

  ghost predicate ScoredOnce(scored: seq<Scored>) {
    forall i, j :: 0 <= i < j < |scored| ==> scored[i].id != scored[j].id
  }

  lemma ScoredIds(clients: seq<Client>, lowered: string, id: nat)
    requires forall c :: c in clients ==> c.id != id
    ensures forall s :: s in ScoredClients(clients, lowered) ==> s.id != id
  {
    ScoredAre(clients, lowered);
  }

  lemma {:induction false} ScoredDistinct(clients: seq<Client>, lowered: string)
    requires DistinctIds(clients)
    ensures ScoredOnce(ScoredClients(clients, lowered))
  {
    if clients != [] {
      var front, last := clients[..|clients| - 1], clients[|clients| - 1];
      ScoredDistinct(front, lowered);
      ScoredIds(front, lowered, last.id);
      var scored := ScoredClients(front, lowered);
      assert forall i :: 0 <= i < |scored| ==> scored[i] in scored;
    }
  }

  lemma SameClient(clients: seq<Client>, c: Client, d: Client)
    requires DistinctIds(clients) && c in clients && d in clients && c.id == d.id
    ensures c == d
  {
  }

  lemma AtLeastIsPreorder()
    ensures TotalPreorder(AtLeast)
  {
  }

  /** Facts about the sorted list of scored candidates. */
  lemma SortedScores(clients: seq<Client>, lowered: string)
    ensures var scored := Sort(ScoredClients(clients, lowered), AtLeast);
            && Sorted(scored, AtLeast)
            && multiset(scored) == multiset(ScoredClients(clients, lowered))
            && forall s :: s in scored <==>
                 exists c :: c in clients && ClientScore(c, lowered) > 0 && s == ScoredOf(c, lowered)
  {
    var list := ScoredClients(clients, lowered);
    AtLeastIsPreorder();
    SortSorts(list, AtLeast);
    ScoredAre(clients, lowered);
    forall s ensures s in Sort(list, AtLeast) <==> s in list {
      assert s in Sort(list, AtLeast) <==> s in multiset(Sort(list, AtLeast));
      assert s in list <==> s in multiset(list);
    }
  }

  /** No candidate is listed twice. */
  lemma SecondDiffers(clients: seq<Client>, lowered: string)
    requires DistinctIds(clients)
    ensures Distinct(Sort(ScoredClients(clients, lowered), AtLeast))
  {
    SortedScores(clients, lowered);
    ScoredDistinct(clients, lowered);
    DistinctPermutation(ScoredClients(clients, lowered), Sort(ScoredClients(clients, lowered), AtLeast));
  }

  lemma WinnerFirst(clients: seq<Client>, lowered: string, scored: seq<Scored>, c: Client)
    requires DistinctIds(clients) && Winner(c, clients, lowered) && Sorted(scored, AtLeast)
    requires forall s :: s in scored <==>
               exists d :: d in clients && ClientScore(d, lowered) > 0 && s == ScoredOf(d, lowered)
    ensures scored != [] && scored[0] == ScoredOf(c, lowered)
  {
    var mine := ScoredOf(c, lowered);
    assert mine in scored;
    var k :| 0 <= k < |scored| && scored[k] == mine;
    var first := scored[0];
    assert first == mine || AtLeast(first, mine);
    assert first in scored;
    var top :| top in clients && first == ScoredOf(top, lowered);
    NotAhead(c, top, lowered, mine, first);
    SameClient(clients, top, c);
  }

  lemma NotAhead(c: Client, top: Client, lowered: string, mine: Scored, first: Scored)
    requires mine == ScoredOf(c, lowered) && first == ScoredOf(top, lowered)
    requires first == mine || AtLeast(first, mine)
    requires top.id != c.id ==> Ahead(c, top, lowered)
    ensures top.id == c.id
  {
    assert first.id == top.id && mine.id == c.id;
  }

  /** A winner stands first in the sorted list, and the second is strictly behind. */
  lemma WinnerIsInferred(clients: seq<Client>, lowered: string, c: Client)
    requires DistinctIds(clients) && Winner(c, clients, lowered)
    ensures Infer(clients, lowered) == Some(c.id)
  {
    SortedScores(clients, lowered);
    SecondDiffers(clients, lowered);
    var scored := Sort(ScoredClients(clients, lowered), AtLeast);
    WinnerFirst(clients, lowered, scored, c);
    if |scored| > 1 {
      assert scored[1] in scored;
      var next :| next in clients && scored[1] == ScoredOf(next, lowered);
      if next.id == c.id { SameClient(clients, next, c); }
      assert Ahead(c, next, lowered);
    }
  }

  /** An answer is always a winner. */
  lemma InferredIsWinner(clients: seq<Client>, lowered: string) returns (c: Client)
    requires DistinctIds(clients) && Infer(clients, lowered).Some?
    ensures Winner(c, clients, lowered) && c.id == Infer(clients, lowered).value
  {
    SortedScores(clients, lowered);
    var scored := Sort(ScoredClients(clients, lowered), AtLeast);
    assert scored[0] in scored;
    c :| c in clients && ClientScore(c, lowered) > 0 && scored[0] == ScoredOf(c, lowered);
    forall d | d in clients && d.id != c.id ensures Ahead(c, d, lowered) {
      if ClientScore(d, lowered) > 0 {
        assert ScoredOf(d, lowered) in scored;
        var k :| 0 <= k < |scored| && scored[k] == ScoredOf(d, lowered);
        assert k >= 1;
        assert AtLeast(scored[0], scored[1]) && (k > 1 ==> AtLeast(scored[1], scored[k]));
      }
    }
  }

  /**
  An id is inferred exactly when it is the id of the unique maximum by (score, name length) among
  the candidates that score; on a tie at the top there is no answer.
  */
  lemma InferenceMeaning(clients: seq<Client>, lowered: string, id: nat)
    requires DistinctIds(clients)
    ensures Infer(clients, lowered) == Some(id) <==> exists c :: Winner(c, clients, lowered) && c.id == id
  {
    if Infer(clients, lowered) == Some(id) {
      var c := InferredIsWinner(clients, lowered);
    }
    if c :| Winner(c, clients, lowered) && c.id == id {
      WinnerIsInferred(clients, lowered, c);
    }
  }

  lemma InferenceMeaningAll(clients: seq<Client>, lowered: string)
    requires DistinctIds(clients)
    ensures forall id: nat :: Infer(clients, lowered) == Some(id) <==> exists c :: Winner(c, clients, lowered) && c.id == id
  {
    forall id: nat ensures Infer(clients, lowered) == Some(id) <==> exists c :: Winner(c, clients, lowered) && c.id == id {
      InferenceMeaning(clients, lowered, id);
    }
  }

  /** The answer does not depend on the order in which the database lists the candidates. */
  lemma OrderIrrelevant(clients: seq<Client>, clients': seq<Client>, lowered: string)
    requires DistinctIds(clients) && DistinctIds(clients')
    requires multiset(clients) == multiset(clients')
    ensures Infer(clients, lowered) == Infer(clients', lowered)
  {
    assert forall c :: c in clients <==> c in multiset(clients);
    assert forall c :: c in clients' <==> c in multiset(clients');
    if Infer(clients, lowered).Some? {
      var c := InferredIsWinner(clients, lowered);
      WinnerIsInferred(clients', lowered, c);
    } else if Infer(clients', lowered).Some? {
      var c := InferredIsWinner(clients', lowered);
      WinnerIsInferred(clients, lowered, c);
    }
  }

  // ---- The service --------------------------------------------------------------------------------

  /** The inference over the candidates the repository yields. */
  method InferConversationClientId(clients: seq<Client>, question: string) returns (answer: Option<nat>)
    requires DistinctIds(clients)
    ensures answer == Infer(clients, Lower(question))
    ensures forall id: nat :: answer == Some(id) <==> exists c :: Winner(c, clients, Lower(question)) && c.id == id
  {
    var lowered := Lower(question);
    var scored := ScoreClients(clients, lowered);
    InferenceMeaningAll(clients, lowered);
    if scored == [] { return None; }
    scored := Sort(scored, AtLeast);
    if |scored| > 1 && scored[0].score == scored[1].score && scored[0].nameLength == scored[1].nameLength {
      return None;
    }
    answer := Some(scored[0].id);
  }

  method ScoreClients(clients: seq<Client>, lowered: string) returns (scored: seq<Scored>)
    ensures scored == ScoredClients(clients, lowered)
  {
    scored := [];
    for n := 0 to |clients|
      invariant scored == ScoredClients(clients[..n], lowered)
    {
      assert clients[..n + 1][..n] == clients[..n];
      var score := ScoreClient(clients[n], lowered);
      if score > 0 {
        scored := scored + [Scored(score, |Lower(clients[n].name)|, clients[n].id)];
      }
    }
    assert clients[..|clients|] == clients;
  }

  method ScoreClient(client: Client, lowered: string) returns (score: nat)
    ensures score == ClientScore(client, lowered)
  {
    score := 0;
    var name, email := Lower(client.name), Lower(client.externalEmail);
    if email != "" && Contains(lowered, email) { score := MaxNat(score, 100); }
    if name != "" && Contains(lowered, name) { score := MaxNat(score, 90 + |name|); }
    if Search(ClientReference(client.id), lowered) { score := MaxNat(score, 80); }
    var parts := LongParts(Split(name));
    var matched := CountMatched(parts, lowered);
    if matched > 0 && matched == |parts| {
      score := MaxNat(score, 70 + matched);
    } else if matched > 0 {
      score := MaxNat(score, 40 + matched);
    }
  }

  method CountMatched(parts: seq<string>, lowered: string) returns (matched: nat)
    ensures matched == MatchedParts(parts, lowered)
  {
    matched := 0;
    for n := 0 to |parts|
      invariant matched == MatchedParts(parts[..n], lowered)
    {
      assert parts[..n + 1][..n] == parts[..n];
      if Search(NamePart(parts[n]), lowered) { matched := matched + 1; }
    }
    assert parts[..|parts|] == parts;
  }
}
