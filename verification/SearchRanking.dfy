/**
The keyword path of `search_email_context` (app/services/email_search.py) over
`list_accessible_email_rows` (app/repositories/emails.py): the database yields a bounded window of
the accessible rows, newest first; the rows with a positive score are ranked and cut off.
*/
module SearchRanking {
  import opened Common
  import opened Clients
  import opened Text
  import opened Redaction
  import opened SensitiveShapes
  import opened Snippet
  import opened Sorting

  /** An email row joined with its client. */
  datatype Row = Row(
    emailId: nat, clientId: nat, firmId: nat, sentAt: int,
    subject: string, body: string, sender: string, clientName: string, clientEmail: string)

  datatype Request = Request(
    role: Role, firmId: nat, query: string, clientId: Option<nat>,
    startDate: Option<int>, endDate: Option<int>, limit: nat)

  datatype Match = Match(row: Row, score: nat)

  // ---- The query ----------------------------------------------------------------------------------

  predicate Accessible(row: Row, q: Request) {
    && (q.role == Superuser || row.firmId == q.firmId)
    && (q.clientId.Some? ==> row.clientId == q.clientId.value)
    && (q.startDate.Some? ==> row.sentAt >= q.startDate.value)
    && (q.endDate.Some? ==> row.sentAt <= q.endDate.value)
  }

  function AccessibleRows(table: set<Row>, q: Request): set<Row> {
    set row | row in table && Accessible(row, q)
  }

  function CandidateLimit(limit: nat): nat {
    Min(Max(limit * 10, 100), 1000)
  }

  /**
  The filters of the query one by one: who asks sees the firm's rows or all, a client leaves that client's
  rows, and the dates leave what was sent between them, both days included.
  */
  lemma AccessibleMeaning(table: set<Row>, q: Request, row: Row)
    ensures var everyone := q.(clientId := None, startDate := None, endDate := None);
            && (row in AccessibleRows(table, everyone) <==> row in table && (q.role == Superuser || row.firmId == q.firmId))
            && (row in AccessibleRows(table, q) <==>
                  && row in AccessibleRows(table, everyone)
                  && (q.clientId == None || q.clientId == Some(row.clientId))
                  && (q.startDate == None || q.startDate.value <= row.sentAt)
                  && (q.endDate == None || row.sentAt <= q.endDate.value))
  {
  }

  /** Ten rows are looked at for each one asked for, but never fewer than 100 or more than 1000. */
  lemma CandidateLimitMeaning(limit: nat)
    ensures 100 <= CandidateLimit(limit) <= 1000
    ensures 10 <= limit <= 100 ==> CandidateLimit(limit) == 10 * limit
    ensures limit < 10 ==> CandidateLimit(limit) == 100
    ensures limit > 100 ==> CandidateLimit(limit) == 1000
  {
  }

  /** What `ORDER BY sent_at DESC LIMIT n` may return: rows with equal `sent_at` in any order. */
  ghost predicate IsWindow(rows: seq<Row>, table: set<Row>, q: Request, n: nat) {
    var all := AccessibleRows(table, q);
    && Distinct(rows) && Elems(rows) <= all && |rows| == Min(n, |all|)
    && (forall i, j :: 0 <= i < j < |rows| ==> rows[i].sentAt >= rows[j].sentAt)
    && (forall row, kept :: row in all - Elems(rows) && kept in rows ==> kept.sentAt >= row.sentAt)
  }

  // ---- Scoring and ranking ------------------------------------------------------------------------

  function Haystack(row: Row): string {
    Lower(Join([row.subject, row.body, row.sender, row.clientName, row.clientEmail]))
  }

  /** The number of terms that occur in the row. */
  function Score(row: Row, terms: seq<string>): nat {
    if terms == [] then 0
    else (if Contains(Haystack(row), terms[0]) then 1 else 0) + Score(row, terms[1..])
  }

  /** A term of a query occurs in a row exactly when it occurs in one of the five fields, whatever the case. */
  lemma HaystackMeaning(row: Row, term: string)
    requires term != "" && ' ' !in term
    ensures Contains(Haystack(row), term) <==>
            exists field :: field in [row.subject, row.body, row.sender, row.clientName, row.clientEmail]
                            && Contains(Lower(field), term)
  {
    var fields := [row.subject, row.body, row.sender, row.clientName, row.clientEmail];
    LowerJoined(fields);
    ContainsJoined(LowerAll(fields), term);
    if field :| field in fields && Contains(Lower(field), term) {
      var k :| 0 <= k < |fields| && fields[k] == field;
      assert LowerAll(fields)[k] in LowerAll(fields);
    }
    if w :| w in LowerAll(fields) && Contains(w, term) {
      var k :| 0 <= k < |fields| && LowerAll(fields)[k] == w;
      assert fields[k] in fields;
    }
  }

  /** The terms that occur in the row, by their places in the query. */
  ghost function Occurring(row: Row, terms: seq<string>): set<nat> {
    set k: nat | k < |terms| && Contains(Haystack(row), terms[k])
  }

  /** The score counts the terms that occur. */
  lemma {:induction false} ScoreMeaning(row: Row, terms: seq<string>)
    ensures Score(row, terms) == |Occurring(row, terms)|
  {
    if terms == [] {
      assert Occurring(row, terms) == {};
    } else {
      var front, last := terms[..|terms| - 1], terms[|terms| - 1];
      ScoreMeaning(row, front);
      ScoreLast(row, front, last);
      OccurringLast(row, front, last);
      assert terms == front + [last];
    }
  }

  lemma OccurringLast(row: Row, front: seq<string>, last: string)
    ensures |Occurring(row, front + [last])| == |Occurring(row, front)| + if Contains(Haystack(row), last) then 1 else 0
  {
    assert Occurring(row, front + [last]) ==
           Occurring(row, front) + if Contains(Haystack(row), last) then {|front|} else {};
  }

  lemma {:induction false} ScoreLast(row: Row, front: seq<string>, last: string)
    ensures Score(row, front + [last]) == Score(row, front) + if Contains(Haystack(row), last) then 1 else 0
  {
    if front == [] {
      assert front + [last] == [last] && [last][1..] == [];
    } else {
      assert (front + [last])[1..] == front[1..] + [last];
      ScoreLast(row, front[1..], last);
    }
  }

  function Matches(rows: seq<Row>, terms: seq<string>): seq<Match> {
    if rows == [] then []
    else
      var front, last := rows[..|rows| - 1], rows[|rows| - 1];
      Matches(front, terms) + if Score(last, terms) > 0 then [Match(last, Score(last, terms))] else []
  }

  /** `a` ranks at least as high as `b` by (score, sent_at). */
  predicate RanksFirst(a: Match, b: Match) {
    a.score > b.score || (a.score == b.score && a.row.sentAt >= b.row.sentAt)
  }

  function Ranked(rows: seq<Row>, terms: seq<string>): seq<Match> {
    Sort(Matches(rows, terms), RanksFirst)
  }

  function TopMatches(rows: seq<Row>, terms: seq<string>, limit: nat): seq<Match> {
    Ranked(rows, terms)[..Min(limit, |Ranked(rows, terms)|)]
  }

  /** A row of `pool` that matches the terms, with its score. */
  ghost predicate Positive(m: Match, pool: set<Row>, terms: seq<string>) {
    m.row in pool && m.score == Score(m.row, terms) && m.score > 0
  }

  function PositiveRows(pool: set<Row>, terms: seq<string>): set<Row> {
    set row | row in pool && Score(row, terms) > 0
  }

  /** Better scores first, and among equal scores the later mails. */
  ghost predicate InOrder(first: Match, second: Match) {
    first.score >= second.score && (first.score == second.score ==> first.row.sentAt >= second.row.sentAt)
  }

  /** The top `limit` of the positive rows of `pool`, ranked, without duplicates. */
  ghost predicate IsTop(result: seq<Match>, pool: set<Row>, terms: seq<string>, limit: nat) {
    && Distinct(result) && (forall i, j :: 0 <= i < j < |result| ==> InOrder(result[i], result[j]))
    && |result| == Min(limit, |PositiveRows(pool, terms)|)
    && (forall m :: m in result ==> Positive(m, pool, terms))
    && (forall m, kept :: Positive(m, pool, terms) && m !in result && kept in result ==> InOrder(kept, m))
  }

  lemma PositiveRowsAdd(pool: set<Row>, row: Row, terms: seq<string>)
    requires row !in pool
    ensures |PositiveRows(pool + {row}, terms)| ==
            |PositiveRows(pool, terms)| + if Score(row, terms) > 0 then 1 else 0
  {
    assert PositiveRows(pool + {row}, terms) ==
           PositiveRows(pool, terms) + if Score(row, terms) > 0 then {row} else {};
  }

  lemma {:induction false} MatchesAre(rows: seq<Row>, terms: seq<string>)
    requires Distinct(rows)
    ensures forall m :: m in Matches(rows, terms) <==> Positive(m, Elems(rows), terms)
    ensures Distinct(Matches(rows, terms))
    ensures |Matches(rows, terms)| == |PositiveRows(Elems(rows), terms)|
  {
    if rows == [] {
      assert PositiveRows(Elems(rows), terms) == {};
    } else {
      var front, last := rows[..|rows| - 1], rows[|rows| - 1];
      MatchesAre(front, terms);
      assert rows == front + [last];
      assert Elems(rows) == Elems(front) + {last} && last !in Elems(front);
      PositiveRowsAdd(Elems(front), last, terms);
      MatchesAdd(Matches(front, terms), Elems(front), last, terms);
    }
  }

  lemma MatchesAdd(matches: seq<Match>, pool: set<Row>, row: Row, terms: seq<string>)
    requires Distinct(matches) && row !in pool
    requires forall m :: m in matches <==> Positive(m, pool, terms)
    ensures var all := matches + if Score(row, terms) > 0 then [Match(row, Score(row, terms))] else [];
            Distinct(all) && forall m :: m in all <==> Positive(m, pool + {row}, terms)
  {
    var added := Match(row, Score(row, terms));
    assert !Positive(added, pool, terms);
    forall m ensures Positive(m, pool + {row}, terms) <==> Positive(m, pool, terms) || (m == added && added.score > 0) {
    }
  }

  lemma RankingIsPreorder()
    ensures TotalPreorder(RanksFirst)
  {
  }

  /** The ranking permutes the matches. */
  lemma RankedAre(rows: seq<Row>, terms: seq<string>)
    requires Distinct(rows)
    ensures var ranked := Ranked(rows, terms);
            && Sorted(ranked, RanksFirst) && Distinct(ranked)
            && |ranked| == |PositiveRows(Elems(rows), terms)|
            && forall m :: m in ranked <==> Positive(m, Elems(rows), terms)
  {
    var matches, ranked := Matches(rows, terms), Ranked(rows, terms);
    MatchesAre(rows, terms);
    RankingIsPreorder();
    SortSorts(matches, RanksFirst);
    DistinctPermutation(matches, ranked);
    assert forall m :: m in ranked <==> m in multiset(ranked);
    assert forall m :: m in matches <==> m in multiset(matches);
  }

  lemma PrefixFirst(ranked: seq<Match>, n: nat, m: Match, kept: Match)
    requires n <= |ranked| && Sorted(ranked, RanksFirst)
    requires m in ranked && m !in ranked[..n] && kept in ranked[..n]
    ensures RanksFirst(kept, m)
  {
    var j :| 0 <= j < |ranked| && ranked[j] == m;
    var i :| 0 <= i < n && ranked[i] == kept;
    assert forall k :: 0 <= k < n ==> ranked[k] in ranked[..n];
  }

  /** What the ranking returns is the top of the window it was given. */
  lemma TopOfWindow(rows: seq<Row>, terms: seq<string>, limit: nat)
    requires Distinct(rows)
    ensures IsTop(TopMatches(rows, terms, limit), Elems(rows), terms, limit)
  {
    var ranked, result := Ranked(rows, terms), TopMatches(rows, terms, limit);
    RankedAre(rows, terms);
    forall m, kept | Positive(m, Elems(rows), terms) && m !in result && kept in result
      ensures RanksFirst(kept, m)
    {
      PrefixFirst(ranked, |result|, m, kept);
    }
  }

  /** Matches come in the order of their rows, each with its own score, and rows without a score are left out. */
  lemma {:induction false} MatchesInOrder(a: seq<Row>, b: seq<Row>, terms: seq<string>)
    ensures Matches(a + b, terms) == Matches(a, terms) + Matches(b, terms)
  {
    if b == [] {
      assert a + b == a;
    } else {
      assert (a + b)[..|a + b| - 1] == a + b[..|b| - 1];
      MatchesInOrder(a, b[..|b| - 1], terms);
    }
  }

  /** Rows with equal score and date keep the order in which the database gave them. */
  lemma RankingStable(rows: seq<Row>, terms: seq<string>, m: Match)
    ensures Ties(Ranked(rows, terms), RanksFirst, m) == Ties(Matches(rows, terms), RanksFirst, m)
  {
    RankingIsPreorder();
    SortStable(Matches(rows, terms), RanksFirst, m);
  }

  /**
  Whenever the accessible rows fit the candidate limit, what is returned is the top `limit` over
  all accessible rows, not just over the window the database happened to yield.
  */
  lemma TopOfAccessible(rows: seq<Row>, table: set<Row>, q: Request, terms: seq<string>)
    requires IsWindow(rows, table, q, CandidateLimit(q.limit))
    requires |AccessibleRows(table, q)| <= CandidateLimit(q.limit)
    ensures IsTop(TopMatches(rows, terms, q.limit), AccessibleRows(table, q), terms, q.limit)
  {
    DistinctCard(rows);
    SubsetCard(Elems(rows), AccessibleRows(table, q));
    TopOfWindow(rows, terms, q.limit);
  }

  // ---- Isolation between firms --------------------------------------------------------------------

  function FirmRows(table: set<Row>, firmId: nat): set<Row> {
    set row | row in table && row.firmId == firmId
  }

  ghost predicate DistinctTimes(rows: set<Row>) {
    forall a, b :: a in rows && b in rows && a.sentAt == b.sentAt ==> a == b
  }

  /** Two windows over the same accessible rows hold the same rows when no two were sent at once. */
  lemma SameWindowRows(rows: seq<Row>, rows': seq<Row>, table: set<Row>, q: Request, n: nat)
    requires IsWindow(rows, table, q, n) && IsWindow(rows', table, q, n)
    requires DistinctTimes(AccessibleRows(table, q))
    ensures Elems(rows) == Elems(rows')
  {
    DistinctCard(rows);
    DistinctCard(rows');
    if Elems(rows) <= Elems(rows') {
      SubsetCard(Elems(rows), Elems(rows'));
    } else {
      var x :| x in rows && x !in rows';
      if y :| y in rows' && y !in rows {
        // Each window kept one row and omitted the other, so both were sent at the same time.
        assert false;
      }
      SubsetCard(Elems(rows'), Elems(rows));
    }
  }

  ghost predicate NewestFirst(rows: seq<Row>) {
    forall i, j :: 0 <= i < j < |rows| ==> rows[i].sentAt >= rows[j].sentAt
  }

  lemma SameHead(rows: seq<Row>, rows': seq<Row>)
    requires rows != [] && rows' != [] && NewestFirst(rows) && NewestFirst(rows')
    requires Elems(rows) == Elems(rows') && DistinctTimes(Elems(rows))
    ensures rows[0] == rows'[0]
  {
    assert rows[0] in Elems(rows') && rows'[0] in Elems(rows);
    assert rows[0].sentAt == rows'[0].sentAt;
  }

  lemma TailElems(rows: seq<Row>)
    requires rows != [] && Distinct(rows)
    ensures Distinct(rows[1..]) && Elems(rows[1..]) == Elems(rows) - {rows[0]}
  {
    assert rows == [rows[0]] + rows[1..];
  }

  /** The newest-first order of given rows is unique when no two were sent at once. */
  lemma {:induction false} SameOrder(rows: seq<Row>, rows': seq<Row>)
    requires Distinct(rows) && Distinct(rows') && NewestFirst(rows) && NewestFirst(rows')
    requires Elems(rows) == Elems(rows') && DistinctTimes(Elems(rows))
    ensures rows == rows'
  {
    DistinctCard(rows);
    DistinctCard(rows');
    if rows != [] {
      SameHead(rows, rows');
      TailElems(rows);
      TailElems(rows');
      SameOrder(rows[1..], rows'[1..]);
      assert rows == [rows[0]] + rows[1..] && rows' == [rows'[0]] + rows'[1..];
    }
  }

  lemma SameAccessible(table: set<Row>, table': set<Row>, q: Request)
    requires q.role != Superuser && FirmRows(table, q.firmId) == FirmRows(table', q.firmId)
    ensures AccessibleRows(table, q) == AccessibleRows(table', q) <= FirmRows(table, q.firmId)
  {
    forall row ensures row in AccessibleRows(table, q) <==> row in AccessibleRows(table', q) {
      assert row in AccessibleRows(table, q) <==> row in FirmRows(table, q.firmId) && Accessible(row, q);
      assert row in AccessibleRows(table', q) <==> row in FirmRows(table', q.firmId) && Accessible(row, q);
    }
  }

  /**
  Whatever rows other firms have, a user of a firm may be given the same windows, ties in sending time
  included, and so the same results; all of them are rows of the firm.
  */
  lemma WindowsIsolated(table: set<Row>, table': set<Row>, rows: seq<Row>, q: Request, terms: seq<string>)
    requires q.role != Superuser && FirmRows(table, q.firmId) == FirmRows(table', q.firmId)
    ensures IsWindow(rows, table, q, CandidateLimit(q.limit)) <==> IsWindow(rows, table', q, CandidateLimit(q.limit))
    ensures IsWindow(rows, table, q, CandidateLimit(q.limit)) ==>
              forall m :: m in TopMatches(rows, terms, q.limit) ==> m.row.firmId == q.firmId
  {
    SameAccessible(table, table', q);
    if IsWindow(rows, table, q, CandidateLimit(q.limit)) {
      TopOfWindow(rows, terms, q.limit);
      forall m | m in TopMatches(rows, terms, q.limit) ensures m.row.firmId == q.firmId {
        assert m.row in Elems(rows);
      }
    }
  }

  /** With no two accessible rows sent at once there is but one window, so the results are the same. */
  lemma SearchIsolated(table: set<Row>, table': set<Row>, rows: seq<Row>, rows': seq<Row>, q: Request, terms: seq<string>)
    requires q.role != Superuser && FirmRows(table, q.firmId) == FirmRows(table', q.firmId)
    requires DistinctTimes(AccessibleRows(table, q))
    requires IsWindow(rows, table, q, CandidateLimit(q.limit))
    requires IsWindow(rows', table', q, CandidateLimit(q.limit))
    ensures TopMatches(rows, terms, q.limit) == TopMatches(rows', terms, q.limit)
  {
    WindowsIsolated(table, table', rows', q, terms);
    SameWindowRows(rows, rows', table, q, CandidateLimit(q.limit));
    SameOrder(rows, rows');
  }

  // ---- The service --------------------------------------------------------------------------------

  const MAX_SNIPPET: nat := 220

  /** A result as the user sees it. */
  datatype Shown = Shown(found: Match, snippet: string)

  /** A snippet of the body around the query, with nothing sensitive in it. */
  ghost predicate IsSnippet(snippet: string, body: string, query: string) {
    && (exists first: nat :: first <= |body| && WindowStart(body, query, first)
                             && snippet == Redact(Window(body, first, 220)))
    && |snippet| <= 223 && ShowsNoIdentifier(snippet)
  }

  /** The keyword path on the table of emails joined with clients; `rows` is the window the query yields. */
  method SearchEmailContext(q: Request, clients: map<ClientId, Client>, table: set<Row>, rows: seq<Row>)
    returns (response: Result<seq<Shown>>)
    requires IsWindow(rows, table, q, CandidateLimit(q.limit))
    ensures var length := |Strip(q.query, WHITESPACE)|;
            length < 2 || length > 256 || (q.startDate.Some? && q.endDate.Some? && q.startDate.value > q.endDate.value) ==>
              response.Err? && response.failure.Unprocessable?
    ensures response.Err? && response.failure.Unprocessable? ==>
              response.failure.detail ==
              if |Strip(q.query, WHITESPACE)| < 2 then "query must contain at least 2 characters"
              else if |Strip(q.query, WHITESPACE)| > 256 then "query must contain at most 256 characters"
              else "start_date must be before end_date"
    ensures response.Err? ==> response.failure.Unprocessable? || response.failure in {NotFound, AccessDenied}
    ensures response == Err(NotFound) ==> q.clientId.Some? && q.clientId.value !in clients
    ensures response == Err(AccessDenied) ==>
              && q.clientId.Some? && q.clientId.value in clients
              && q.role != Superuser && clients[q.clientId.value].firmId != q.firmId
    ensures response.Ok? <==>
              && 2 <= |Strip(q.query, WHITESPACE)| <= 256
              && (q.startDate.Some? && q.endDate.Some? ==> q.startDate.value <= q.endDate.value)
              && (q.clientId.Some? ==>
                    && q.clientId.value in clients
                    && (q.role == Superuser || clients[q.clientId.value].firmId == q.firmId))
    ensures response.Ok? ==>
              && var query := Strip(q.query, WHITESPACE);
              && var top := TopMatches(rows, Split(Lower(query)), q.limit);
              && |response.value| == |top|
              && (forall i :: 0 <= i < |top| ==>
                    response.value[i].found == top[i] && IsSnippet(response.value[i].snippet, top[i].row.body, query))
              && IsTop(top, Elems(rows), Split(Lower(query)), q.limit)
              && (|AccessibleRows(table, q)| <= CandidateLimit(q.limit) ==>
                    IsTop(top, AccessibleRows(table, q), Split(Lower(query)), q.limit))
  {
    var normalized := Strip(q.query, WHITESPACE);
    if |normalized| < 2 {
      return Err(Unprocessable("query must contain at least 2 characters"));
    }
    if |normalized| > 256 {
      return Err(Unprocessable("query must contain at most 256 characters"));
    }
    if q.startDate.Some? && q.endDate.Some? && q.startDate.value > q.endDate.value {
      return Err(Unprocessable("start_date must be before end_date"));
    }
    if q.clientId.Some? {
      if q.clientId.value !in clients { return Err(NotFound); }
      if !MayAccess(User(q.role, q.firmId), clients[q.clientId.value]) { return Err(AccessDenied); }
    }
    var terms := Split(Lower(normalized));
    var matches, snippets := RankRows(rows, normalized, terms);
    var ranked := Sort(matches, RanksFirst);
    var top := ranked[..Min(q.limit, |ranked|)];
    TopOfSearch(rows, table, q, terms);
    var results := ShowAll(top, snippets, normalized);
    response := Ok(results);
  }

  lemma TopOfSearch(rows: seq<Row>, table: set<Row>, q: Request, terms: seq<string>)
    requires IsWindow(rows, table, q, CandidateLimit(q.limit))
    ensures var top := TopMatches(rows, terms, q.limit);
            && IsTop(top, Elems(rows), terms, q.limit)
            && (|AccessibleRows(table, q)| <= CandidateLimit(q.limit) ==> IsTop(top, AccessibleRows(table, q), terms, q.limit))
            && forall m :: m in top ==> m.row in rows && m.score == Score(m.row, terms) && m.score > 0
  {
    TopOfWindow(rows, terms, q.limit);
    if |AccessibleRows(table, q)| <= CandidateLimit(q.limit) { TopOfAccessible(rows, table, q, terms); }
  }

  method ShowAll(top: seq<Match>, snippets: map<Row, string>, query: string) returns (results: seq<Shown>)
    requires forall m :: m in top ==> m.row in snippets && IsSnippet(snippets[m.row], m.row.body, query)
    ensures |results| == |top|
    ensures forall i :: 0 <= i < |top| ==>
                          results[i].found == top[i] && IsSnippet(results[i].snippet, top[i].row.body, query)
  {
    assert forall i :: 0 <= i < |top| ==> top[i] in top;
    results := seq(|top|, i requires 0 <= i < |top| => Shown(top[i], snippets[top[i].row]));
  }

  /** The loop over the window: each row with a positive score is a match, shown by a snippet. */
  method RankRows(rows: seq<Row>, query: string, terms: seq<string>)
    returns (matches: seq<Match>, snippets: map<Row, string>)
    ensures matches == Matches(rows, terms)
    ensures forall row :: row in rows && Score(row, terms) > 0 ==>
                            row in snippets && IsSnippet(snippets[row], row.body, query)
  {
    matches, snippets := [], map[];
    for n := 0 to |rows|
      invariant matches == Matches(rows[..n], terms)
      invariant forall row :: row in rows[..n] && Score(row, terms) > 0 ==>
                                row in snippets && IsSnippet(snippets[row], row.body, query)
    {
      assert rows[..n + 1][..n] == rows[..n];
      var score := Score(rows[n], terms);
      if score > 0 {
        var snippet := MakeSnippet(rows[n].body, query, MAX_SNIPPET);
        matches, snippets := matches + [Match(rows[n], score)], snippets[rows[n] := snippet];
      }
    }
    assert rows[..|rows|] == rows;
  }
}
