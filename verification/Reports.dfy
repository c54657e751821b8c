/**
The coverage reports of app/services/reports.py over the aggregates of
app/repositories/email_summaries.py, and their conservation under the changes to clients.
*/
module Reports {
  import opened Common
  import opened Clients

  // ---- The queries ----------------------------------------------------------------------------------

  /** A row of `firms JOIN clients LEFT JOIN email_summaries`: the summary column may be null. */
  datatype JoinRow = JoinRow(firmId: FirmId, clientId: ClientId, summary: Option<ClientId>)

  function JoinRowOf(o: Office, c: ClientId): JoinRow
    requires c in o.clients
  {
    JoinRow(o.clients[c].firmId, c, if c in o.summaries then Some(c) else None)
  }

  function JoinRows(o: Office): set<JoinRow> {
    set c | c in o.clients && o.clients[c].firmId in o.firms :: JoinRowOf(o, c)
  }

  /** `count(summary)` counts the rows of the group whose summary is not null. */
  function CountedRows(o: Office, firm: FirmId): set<JoinRow> {
    set row | row in JoinRows(o) && row.firmId == firm && row.summary.Some?
  }

  datatype FirmCount = FirmCount(firmId: FirmId, firmName: string, count: nat)

  ghost predicate OneRowEach(rows: seq<FirmCount>) {
    forall i, j :: 0 <= i < j < |rows| ==> rows[i].firmId != rows[j].firmId
  }

  /** What `GROUP BY firm` may return: one row per firm in the join, in any order. */
  ghost predicate IsGrouping(rows: seq<FirmCount>, o: Office) {
    && OneRowEach(rows)
    && (forall i :: 0 <= i < |rows| ==> RowRight(rows[i], o))
    && (forall row :: row in JoinRows(o) ==> Listed(rows, row.firmId))
  }

  ghost predicate RowRight(row: FirmCount, o: Office) {
    && row.firmId in o.firms && row.firmName == o.firms[row.firmId]
    && (exists joined :: joined in JoinRows(o) && joined.firmId == row.firmId)
    && row.count == |CountedRows(o, row.firmId)|
  }

  ghost predicate Listed(rows: seq<FirmCount>, firm: FirmId) {
    exists i :: 0 <= i < |rows| && rows[i].firmId == firm
  }

  /** `email_summaries JOIN clients WHERE firm`. */
  function SummarisedClients(o: Office, firm: FirmId): set<ClientId> {
    set c | c in o.summaries && c in o.clients && o.clients[c].firmId == firm
  }

  function CountSummariesByFirm(o: Office, firm: FirmId): nat {
    |SummarisedClients(o, firm)|
  }

  function FirmClients(o: Office, firm: FirmId): set<ClientId> {
    set c | c in o.clients && o.clients[c].firmId == firm
  }

  function CountClientsByFirm(o: Office, firm: FirmId): nat {
    |FirmClients(o, firm)|
  }

  lemma {:induction false} GroupFirms(o: Office, firms: set<FirmId>) returns (rows: seq<FirmCount>)
    requires firms <= o.firms.Keys && forall f :: f in firms ==> FirmClients(o, f) != {}
    ensures OneRowEach(rows) && forall i :: 0 <= i < |rows| ==> RowRight(rows[i], o)
    ensures forall f :: Listed(rows, f) <==> f in firms
  {
    rows := [];
    if firms != {} {
      var f :| f in firms;
      var others := GroupFirms(o, firms - {f});
      var c :| c in FirmClients(o, f);
      assert JoinRowOf(o, c) in JoinRows(o);
      rows := others + [FirmCount(f, o.firms[f], |CountedRows(o, f)|)];
      assert forall i :: 0 <= i < |others| ==> Listed(others, others[i].firmId);
      forall g ensures Listed(rows, g) <==> g in firms {
        if Listed(others, g) {
          var i :| 0 <= i < |others| && others[i].firmId == g;
          assert rows[i].firmId == g;
        }
        assert rows[|others|].firmId == f;
      }
    }
  }

  /** Every state of the tables has a grouping. */
  lemma GroupingExists(o: Office) returns (rows: seq<FirmCount>)
    requires Consistent(o)
    ensures IsGrouping(rows, o)
  {
    rows := GroupFirms(o, set f | f in o.firms && FirmClients(o, f) != {});
    forall row | row in JoinRows(o) ensures Listed(rows, row.firmId) {
      assert row.clientId in FirmClients(o, row.firmId);
    }
  }

  // ---- The reports ----------------------------------------------------------------------------------

  datatype GlobalReport = GlobalReport(rows: seq<FirmCount>, totalFirms: nat, totalWithSummaries: nat)

  function Total(rows: seq<FirmCount>): nat {
    if rows == [] then 0 else Total(rows[..|rows| - 1]) + rows[|rows| - 1].count
  }

  function GlobalCoverage(rows: seq<FirmCount>): GlobalReport {
    GlobalReport(rows, |rows|, Total(rows))
  }

  /** The share of clients with a summary, in percent, before it is rounded to one decimal. */
  function Percentage(withReports: nat, total: nat): real {
    if total > 0 then withReports as real / total as real * 100.0 else 0.0
  }

  function FirmCoverage(o: Office, user: User): real {
    Percentage(CountSummariesByFirm(o, user.firmId), CountClientsByFirm(o, user.firmId))
  }

  // ---- The counts agree -----------------------------------------------------------------------------

  lemma {:induction false} ImageCard(ids: set<ClientId>, o: Office)
    requires ids <= o.clients.Keys
    ensures |set c | c in ids :: JoinRowOf(o, c)| == |ids|
  {
    if ids != {} {
      var c :| c in ids;
      ImageCard(ids - {c}, o);
      assert (set d | d in ids :: JoinRowOf(o, d)) == (set d | d in ids - {c} :: JoinRowOf(o, d)) + {JoinRowOf(o, c)};
    }
  }

  /** The grouped count of a firm is the count the firm's own report shows. */
  lemma GroupedAsCounted(o: Office, firm: FirmId)
    requires Consistent(o)
    ensures |CountedRows(o, firm)| == CountSummariesByFirm(o, firm)
  {
    var ids := SummarisedClients(o, firm);
    ImageCard(ids, o);
    assert CountedRows(o, firm) == set c | c in ids :: JoinRowOf(o, c);
  }

  ghost function SummarisedUnder(o: Office, rows: seq<FirmCount>): set<ClientId> {
    set c | c in o.summaries && c in o.clients && Listed(rows, o.clients[c].firmId)
  }

  lemma UnderSplit(o: Office, front: seq<FirmCount>, last: FirmCount)
    requires !Listed(front, last.firmId)
    ensures SummarisedUnder(o, front + [last]) == SummarisedUnder(o, front) + SummarisedClients(o, last.firmId)
    ensures SummarisedUnder(o, front) !! SummarisedClients(o, last.firmId)
  {
    var rows := front + [last];
    forall f ensures Listed(rows, f) <==> Listed(front, f) || f == last.firmId {
      if Listed(front, f) {
        var i :| 0 <= i < |front| && front[i].firmId == f;
        assert rows[i].firmId == f;
      }
      assert rows[|front|].firmId == last.firmId;
    }
  }

  lemma {:induction false} TotalCounts(rows: seq<FirmCount>, o: Office)
    requires OneRowEach(rows)
    requires forall row :: row in rows ==> row.count == CountSummariesByFirm(o, row.firmId)
    ensures Total(rows) == |SummarisedUnder(o, rows)|
  {
    if rows != [] {
      var front, last := rows[..|rows| - 1], rows[|rows| - 1];
      assert rows == front + [last];
      TotalCounts(front, o);
      UnderSplit(o, front, last);
    }
  }

  /** The totals of the global report: every summary record counted once, every firm with clients listed once. */
  lemma GlobalAddsUp(o: Office, rows: seq<FirmCount>)
    requires Consistent(o) && IsGrouping(rows, o)
    ensures GlobalCoverage(rows).rows == rows && GlobalCoverage(rows).totalWithSummaries == |o.summaries|
    ensures GlobalCoverage(rows).totalFirms == |set f | f in o.firms && FirmClients(o, f) != {}|
  {
    forall row | row in rows ensures row.count == CountSummariesByFirm(o, row.firmId) {
      assert RowRight(row, o);
      GroupedAsCounted(o, row.firmId);
    }
    TotalCounts(rows, o);
    forall c | c in o.summaries ensures c in SummarisedUnder(o, rows) {
      assert JoinRowOf(o, c) in JoinRows(o);
      assert Listed(rows, JoinRowOf(o, c).firmId);
    }
    assert SummarisedUnder(o, rows) == o.summaries;
    FirmsListed(o, rows);
  }

  lemma FirmsListed(o: Office, rows: seq<FirmCount>)
    requires IsGrouping(rows, o)
    ensures |rows| == |set f | f in o.firms && FirmClients(o, f) != {}|
  {
    var ids := seq(|rows|, i requires 0 <= i < |rows| => rows[i].firmId);
    DistinctCard(ids);
    var firms := set f | f in o.firms && FirmClients(o, f) != {};
    forall f ensures f in firms <==> f in Elems(ids) {
      if f in firms {
        var c :| c in FirmClients(o, f);
        assert JoinRowOf(o, c) in JoinRows(o);
        assert Listed(rows, f);
        var i :| 0 <= i < |rows| && rows[i].firmId == f;
        assert ids[i] == f;
      }
      if f in Elems(ids) {
        var i :| 0 <= i < |ids| && ids[i] == f;
        assert RowRight(rows[i], o);
        var joined :| joined in JoinRows(o) && joined.firmId == f;
        assert joined.clientId in FirmClients(o, f);
      }
    }
    assert firms == Elems(ids);
  }

  /** A firm's row agrees with the firm's own report and never exceeds its number of clients. */
  lemma RowAgrees(o: Office, rows: seq<FirmCount>, i: nat)
    requires Consistent(o) && IsGrouping(rows, o) && i < |rows|
    ensures rows[i].count == CountSummariesByFirm(o, rows[i].firmId) <= CountClientsByFirm(o, rows[i].firmId)
  {
    assert RowRight(rows[i], o);
    GroupedAsCounted(o, rows[i].firmId);
    SubsetCard(SummarisedClients(o, rows[i].firmId), FirmClients(o, rows[i].firmId));
  }

  lemma Signs(x: real, y: real)
    requires y > 0.0
    ensures x > 0.0 <==> x * y > 0.0
    ensures x == 0.0 <==> x * y == 0.0
  {
    if x > 0.0 {
      assert x * y > 0.0;
    } else if x < 0.0 {
      assert (-x) * y > 0.0;
    }
  }

  lemma Share(k: nat, n: nat) returns (share: real)
    requires k <= n && n > 0
    ensures share == k as real / n as real
    ensures 0.0 <= share <= 1.0
    ensures share == 1.0 <==> k == n
    ensures share == 0.0 <==> k == 0
  {
    share := k as real / n as real;
    var part, all := k as real, n as real;
    assert part <= all && (part == all <==> k == n) && (part == 0.0 <==> k == 0);
    assert share * all == part;
    assert (share - 1.0) * all == part - all;
    Signs(share, all);
    Signs(share - 1.0, all);
  }

  lemma PercentageBounds(k: nat, n: nat)
    requires k <= n
    ensures 0.0 <= Percentage(k, n) <= 100.0
    ensures Percentage(k, n) == 100.0 <==> k == n && n > 0
    ensures Percentage(k, n) == 0.0 <==> k == 0
  {
    if n > 0 { var share := Share(k, n); }
  }

  /**
  The unrounded coverage lies between 0 and 100; it is 100 exactly when the firm has clients and each has a
  summary, and 0 exactly when none has.
  */
  lemma CoverageMeaning(o: Office, user: User)
    requires Consistent(o)
    ensures 0.0 <= FirmCoverage(o, user) <= 100.0
    ensures FirmCoverage(o, user) == 100.0 <==> {} != FirmClients(o, user.firmId) <= o.summaries
    ensures FirmCoverage(o, user) == 0.0 <==> FirmClients(o, user.firmId) !! o.summaries
  {
    var done, all := SummarisedClients(o, user.firmId), FirmClients(o, user.firmId);
    SubsetCard(done, all);
    PercentageBounds(|done|, |all|);
    assert done == all * o.summaries;
  }

  // ---- The percentage as it is returned ----------------------------------------------------------------

  /** `round(x, 1)` may give `t` tenths; a value halfway between two goes either way. */
  predicate RoundsTo(x: real, t: int) {
    t as real - 0.5 <= 10.0 * x <= t as real + 0.5
  }

  /** The firm's report may show a coverage of `t` tenths of a percent. */
  predicate MayReport(o: Office, user: User, t: int) {
    RoundsTo(FirmCoverage(o, user), t)
  }

  lemma RoundedShare(k: nat, n: nat, t: int)
    requires n > 0
    ensures RoundsTo(Percentage(k, n), t) <==> 2000 * k - n <= 2 * (t * n) <= 2000 * k + n
  {
    var share, all, tenths := k as real / n as real, n as real, t as real;
    assert share * all == k as real;
    assert 10.0 * Percentage(k, n) == 1000.0 * share;
    var above, below := 1000.0 * share - tenths + 0.5, tenths + 0.5 - 1000.0 * share;
    assert above * all == 1000.0 * (share * all) - tenths * all + 0.5 * all;
    assert below * all == tenths * all + 0.5 * all - 1000.0 * (share * all);
    assert tenths * all == (t * n) as real;
    Signs(above, all);
    Signs(below, all);
  }

  lemma Multiples(t: int, n: nat)
    ensures t >= 1001 ==> t * n >= 1001 * n
    ensures t <= 999 ==> t * n <= 999 * n
    ensures t >= 1 ==> t * n >= n
    ensures t <= -1 ==> t * n <= 0 - n
  {
    if t >= 1001 { assert (t - 1001) * n >= 0; }
    if t <= 999 { assert (999 - t) * n >= 0; }
    if t >= 1 { assert (t - 1) * n >= 0; }
    if t <= -1 { assert (-1 - t) * n >= 0; }
  }

  lemma RoundedBounds(k: nat, n: nat, t: int)
    requires k <= n && RoundsTo(Percentage(k, n), t)
    ensures 0 <= t <= 1000
    ensures t == 1000 ==> n > 0 && 2000 * k >= 1999 * n
    ensures 2000 * k > 1999 * n ==> t == 1000
    ensures t == 0 ==> 2000 * k <= n
    ensures 2000 * k < n || n == 0 ==> t == 0
  {
    if n > 0 {
      RoundedShare(k, n, t);
      Multiples(t, n);
    }
  }

  /**
  The coverage that is returned is 0.0 to 100.0. It is 100.0 whenever more than 1999 of 2000 clients have
  a summary and never with fewer, and 0.0 whenever fewer than 1 of 2000 has and never with more.
  */
  lemma ReportedCoverage(o: Office, user: User, t: int)
    requires Consistent(o) && MayReport(o, user, t)
    ensures 0 <= t <= 1000
    ensures var k, n := CountSummariesByFirm(o, user.firmId), CountClientsByFirm(o, user.firmId);
            && (2000 * k > 1999 * n ==> t == 1000) && (2000 * k < 1999 * n ==> t != 1000)
            && (2000 * k < n || n == 0 ==> t == 0) && (2000 * k > n ==> t != 0)
  {
    SubsetCard(SummarisedClients(o, user.firmId), FirmClients(o, user.firmId));
    RoundedBounds(CountSummariesByFirm(o, user.firmId), CountClientsByFirm(o, user.firmId), t);
  }

  /** Some coverage can always be returned. */
  lemma CoverageIsReported(o: Office, user: User) returns (t: int)
    ensures MayReport(o, user, t)
  {
    var k, n := CountSummariesByFirm(o, user.firmId), CountClientsByFirm(o, user.firmId);
    t := 0;
    if n > 0 {
      t := (2000 * k + n) / (2 * n);
      assert 2 * n * t <= 2000 * k + n < 2 * n * t + 2 * n;
      assert 2 * n * t == 2 * (t * n);
      RoundedShare(k, n, t);
    }
  }

  /** So 100.0 is returned with a client missing, and 0.0 with a client summarised. */
  lemma RoundingMisleads(t: int)
    ensures RoundsTo(Percentage(9999, 10000), t) <==> t == 1000
    ensures RoundsTo(Percentage(1, 10000), t) <==> t == 0
  {
    RoundedShare(9999, 10000, t);
    RoundedShare(1, 10000, t);
  }

  // ---- Conservation over changes ----------------------------------------------------------------------

  lemma MovedCount(o: Office, o': Office, id: ClientId, moved: Client, firm: FirmId)
    requires id in o.clients && o' == o.(clients := o.clients[id := moved])
    ensures var one := if id in o.summaries then 1 else 0;
            CountSummariesByFirm(o', firm) == CountSummariesByFirm(o, firm)
              + (if firm == moved.firmId then one else 0) - (if firm == o.clients[id].firmId then one else 0)
  {
    var kept := SummarisedClients(o, firm) - {id};
    assert SummarisedClients(o, firm) ==
           if firm == o.clients[id].firmId && id in o.summaries then kept + {id} else kept;
    assert SummarisedClients(o', firm) == if firm == moved.firmId && id in o.summaries then kept + {id} else kept;
  }

  /** Moving a client moves its count: its old firm loses it, the new one gains it, no other changes. */
  lemma MoveMovesCount(o: Office, user: User, id: ClientId, name: Option<string>, email: Option<string>, to: FirmId, firm: FirmId)
    requires UpdateClient(o, user, id, name, email, Some(to)).Ok?
    ensures var from := o.clients[id].firmId;
            var o' := UpdateClient(o, user, id, name, email, Some(to)).value;
            var one := if id in o.summaries then 1 else 0;
            CountSummariesByFirm(o', firm) ==
            CountSummariesByFirm(o, firm) + (if firm == to then one else 0) - (if firm == from then one else 0)
  {
    var o' := UpdateClient(o, user, id, name, email, Some(to)).value;
    MovedCount(o, o', id, o'.clients[id], firm);
  }

  /** A client's first summary adds one to its firm's count, a later one nothing; no other count changes. */
  lemma SummaryAddsOne(o: Office, id: ClientId, firm: FirmId)
    requires id in o.clients
    ensures var r := StoreSummary(o, id);
            && r.Ok? && r.value.clients == o.clients
            && CountSummariesByFirm(r.value, firm) ==
               CountSummariesByFirm(o, firm) + if firm == o.clients[id].firmId && id !in o.summaries then 1 else 0
  {
    var o' := StoreSummary(o, id).value;
    var summarised := SummarisedClients(o, firm);
    var added := if firm == o.clients[id].firmId && id !in o.summaries then {id} else {};
    assert SummarisedClients(o', firm) == summarised + added && summarised !! added;
  }

  /** A deleted client leaves its firm's counts. */
  lemma DeleteTakesOne(o: Office, user: User, id: ClientId, firm: FirmId)
    requires DeleteClient(o, user, id).Ok?
    ensures var o' := DeleteClient(o, user, id).value;
            && CountSummariesByFirm(o', firm) ==
               CountSummariesByFirm(o, firm) - (if firm == o.clients[id].firmId && id in o.summaries then 1 else 0)
            && CountClientsByFirm(o', firm) ==
               CountClientsByFirm(o, firm) - (if firm == o.clients[id].firmId then 1 else 0)
  {
    var o' := DeleteClient(o, user, id).value;
    var summarised, all := SummarisedClients(o, firm), FirmClients(o, firm);
    assert SummarisedClients(o', firm) == summarised - {id};
    assert FirmClients(o', firm) == all - {id};
    assert id in summarised <==> firm == o.clients[id].firmId && id in o.summaries;
    assert id in all <==> firm == o.clients[id].firmId;
  }

  /** Whatever was created, changed, deleted and refreshed, and by whom, the report still adds up. */
  lemma ReportsAddUpAfterRuns(o: Office, actions: seq<Action>, rows: seq<FirmCount>)
    requires Consistent(o) && IsGrouping(rows, PerformAll(o, actions))
    ensures var o' := PerformAll(o, actions);
            && GlobalCoverage(rows).totalWithSummaries == |o'.summaries|
            && (forall i :: 0 <= i < |rows| ==>
                  rows[i].count == CountSummariesByFirm(o', rows[i].firmId) <= CountClientsByFirm(o', rows[i].firmId))
  {
    RunConsistent(o, actions);
    var o' := PerformAll(o, actions);
    GlobalAddsUp(o', rows);
    forall i | 0 <= i < |rows|
      ensures rows[i].count == CountSummariesByFirm(o', rows[i].firmId) <= CountClientsByFirm(o', rows[i].firmId)
    {
      RowAgrees(o', rows, i);
    }
  }

  /** What users of other firms do never shows in a firm's own report. */
  lemma OutsidersKeepCoverage(o: Office, actions: seq<Action>, user: User)
    requires Consistent(o) && forall i :: 0 <= i < |actions| ==> ByOutsider(actions[i], user.firmId)
    ensures FirmCoverage(PerformAll(o, actions), user) == FirmCoverage(o, user)
  {
    OutsidersKeepClients(o, actions, user.firmId);
    var o' := PerformAll(o, actions);
    assert forall c :: c in ClientsOf(o, user.firmId) <==> c in FirmClients(o, user.firmId);
    assert forall c :: c in ClientsOf(o', user.firmId) <==> c in FirmClients(o', user.firmId);
    assert FirmClients(o', user.firmId) == FirmClients(o, user.firmId);
    RunConsistent(o, actions);
    assert SummarisedClients(o', user.firmId) == SummarisedClients(o, user.firmId);
  }
}
