/**
The rules of app/services/summaries.py: which refresh requests regenerate a client's report, which
are skipped, what a read returns, and what both do to the cache.
*/
module SummaryPolicy {
  import opened Common
  import opened Clients
  import opened LocalStore
  import opened TieredCache
  import opened Sorting

  type Instant = int

  const EPOCH: Instant := 0
  const MIN_NEW_EMAILS: nat := 5
  const SKIP_REASON := "Fewer than 5 new emails have arrived since last refresh"

  /** A captured email; `task` is the refresh task committed in the same transaction. */
  datatype Email = Email(clientId: ClientId, sentAt: Instant, capturedAt: Instant, task: nat)

  /** What the language model returns. */
  datatype Report = Report(
    summary: string, actors: seq<string>, concluded: seq<string>, openItems: seq<string>,
    tokenIn: nat, tokenOut: nat)

  /** A row of email_summaries. */
  datatype Record = Record(report: Report, emailCount: nat, refreshedAt: Instant)

  datatype ReportResult = ReportResult(report: Report, emailCount: nat, refreshedAt: Instant)

  datatype Response = Response(
    clientId: ClientId, clientName: string, firmId: FirmId, refreshedAt: Instant,
    skipped: bool, reason: Option<string>, result: Option<ReportResult>)

  /** What the shared cache stores: summaries, and the search results of another service. */
  datatype Cached = SummaryPayload(response: Response) | SearchPayload(json: string)

  function ResponseFromRecord(client: Client, record: Record, skipped: bool, reason: Option<string>): Response {
    Response(client.id, client.name, client.firmId, record.refreshedAt, skipped, reason,
             if skipped then None else Some(ReportResult(record.report, record.emailCount, record.refreshedAt)))
  }

  /** The response a reader should see: rebuilt from the current record. */
  function CurrentResponse(client: Client, record: Record): Response {
    ResponseFromRecord(client, record, false, None)
  }

  // ---- The queries --------------------------------------------------------------------------------

  function InRange(emails: seq<Email>, c: ClientId, from: Instant, to: Instant): seq<Email> {
    if emails == [] then []
    else
      var e := emails[|emails| - 1];
      InRange(emails[..|emails| - 1], c, from, to)
        + if e.clientId == c && from <= e.sentAt <= to then [e] else []
  }

  predicate SentNoLater(a: Email, b: Email) {
    a.sentAt <= b.sentAt
  }

  function ListEmailsForSummary(emails: seq<Email>, c: ClientId, from: Instant, to: Instant): seq<Email> {
    Sort(InRange(emails, c, from, to), SentNoLater)
  }

  function CountCapturedAfter(emails: seq<Email>, c: ClientId, after: Instant): nat {
    if emails == [] then 0
    else
      var e := emails[|emails| - 1];
      CountCapturedAfter(emails[..|emails| - 1], c, after) + if e.clientId == c && e.capturedAt > after then 1 else 0
  }

  // ---- The refresh decision -----------------------------------------------------------------------

  datatype Decision = BadRange | NoClient | NoEmails | Skip | Regenerate(emails: seq<Email>)

  function RangeStart(start: Option<Instant>): Instant {
    if start.Some? then start.value else EPOCH
  }

  function RangeEnd(end: Option<Instant>, now: Instant): Instant {
    if end.Some? then end.value else now
  }

  function Decide(clients: map<ClientId, Client>, emails: seq<Email>, records: map<ClientId, Record>,
                  c: ClientId, start: Option<Instant>, end: Option<Instant>, force: bool, now: Instant): Decision {
    var from, to := RangeStart(start), RangeEnd(end, now);
    if from > to then BadRange
    else if c !in clients then NoClient
    else
      var listed := ListEmailsForSummary(emails, c, from, to);
      if listed == [] then NoEmails
      else if c in records && !force && CountCapturedAfter(emails, c, records[c].refreshedAt) < MIN_NEW_EMAILS then Skip
      else Regenerate(listed)
  }

  // ---- The cache around reads and refreshes -------------------------------------------------------

  /** The replies of Redis to the two calls of a read or of a refresh. */
  datatype Replies = Replies(first: Reply, second: Reply)

  datatype ReadOutcome = NoSummary | Shown(response: Response)

  /** `read_cached_summary`. */
  function ReadOf(t: Tier<Cached>, clients: map<ClientId, Client>, records: map<ClientId, Record>, c: ClientId,
                  now: int, ttl: int, net: Replies): ReadOutcome
  {
    var found := FoundJson(t, Summary(c), now, ttl, net.first);
    if found.Some? && found.value.SummaryPayload? then Shown(found.value.response)
    else if c in records && c in clients then Shown(CurrentResponse(clients[c], records[c]))
    else NoSummary
  }

  function ReadTier(t: Tier<Cached>, clients: map<ClientId, Client>, records: map<ClientId, Record>, c: ClientId,
                    now: int, ttl: int, cap: nat, net: Replies): Tier<Cached>
  {
    var found := FoundJson(t, Summary(c), now, ttl, net.first);
    var t' := GetJson(t, Summary(c), now, ttl, net.first);
    if (found.Some? && found.value.SummaryPayload?) || c !in records || c !in clients then t'
    else SetJson(t', Summary(c), SummaryPayload(CurrentResponse(clients[c], records[c])), now, cap, net.second)
  }

  /** What a refresh does to the cache after its commit: invalidate, then set the new response. */
  function CommitTier(t: Tier<Cached>, c: ClientId, response: Response, now: int, cap: nat, net: Replies): Tier<Cached> {
    SetJson(Invalidate(t, Summary(c), net.first), Summary(c), SummaryPayload(response), now, cap, net.second)
  }

  // ---- Counting ---------------------------------------------------------------------------------

  /** The emails of a client captured at or before an instant. */
  function CountCapturedBy(emails: seq<Email>, c: ClientId, until: Instant): nat {
    if emails == [] then 0
    else
      var e := emails[|emails| - 1];
      CountCapturedBy(emails[..|emails| - 1], c, until) + if e.clientId == c && e.capturedAt <= until then 1 else 0
  }

  function CountOf(emails: seq<Email>, c: ClientId): nat {
    if emails == [] then 0
    else CountOf(emails[..|emails| - 1], c) + if emails[|emails| - 1].clientId == c then 1 else 0
  }

  lemma {:induction false} CountsAddUp(emails: seq<Email>, c: ClientId, t: Instant)
    ensures CountCapturedBy(emails, c, t) + CountCapturedAfter(emails, c, t) == CountOf(emails, c)
  {
    if emails != [] { CountsAddUp(emails[..|emails| - 1], c, t); }
  }

  lemma {:induction false} CountByMonotone(emails: seq<Email>, c: ClientId, t: Instant, t': Instant)
    requires t <= t'
    ensures CountCapturedBy(emails, c, t) <= CountCapturedBy(emails, c, t')
  {
    if emails != [] { CountByMonotone(emails[..|emails| - 1], c, t, t'); }
  }

  ghost predicate AllCapturedBy(emails: seq<Email>, c: ClientId, t: Instant) {
    forall i :: 0 <= i < |emails| && emails[i].clientId == c ==> emails[i].capturedAt <= t
  }

  lemma {:induction false} NoneCapturedAfter(emails: seq<Email>, c: ClientId, t: Instant)
    requires AllCapturedBy(emails, c, t)
    ensures CountCapturedAfter(emails, c, t) == 0
  {
    if emails != [] { NoneCapturedAfter(emails[..|emails| - 1], c, t); }
  }

  lemma {:induction false} InRangeMember(emails: seq<Email>, c: ClientId, from: Instant, to: Instant, i: nat)
    requires i < |emails| && emails[i].clientId == c && from <= emails[i].sentAt <= to
    ensures InRange(emails, c, from, to) != []
  {
    if i < |emails| - 1 { InRangeMember(emails[..|emails| - 1], c, from, to, i); }
  }

  lemma {:induction false} InRangeCounts(emails: seq<Email>, c: ClientId, from: Instant, to: Instant, e: Email)
    ensures multiset(InRange(emails, c, from, to))[e] ==
            if e.clientId == c && from <= e.sentAt <= to then multiset(emails)[e] else 0
  {
    if emails != [] {
      var front, last := emails[..|emails| - 1], emails[|emails| - 1];
      InRangeCounts(front, c, from, to, e);
      assert emails == front + [last];
    }
  }

  /**
  The emails handed to the model are those of the client that were sent within the range, both ends
  included, each as often as it is in the table, and no other client's; they stand in the order they
  were sent.
  */
  lemma ListedInOrder(emails: seq<Email>, c: ClientId, from: Instant, to: Instant, e: Email, i: nat, j: nat)
    ensures var listed := ListEmailsForSummary(emails, c, from, to);
            && multiset(listed)[e] == (if e.clientId == c && from <= e.sentAt <= to then multiset(emails)[e] else 0)
            && |listed| == |InRange(emails, c, from, to)|
            && (i < j < |listed| ==> listed[i].sentAt <= listed[j].sentAt)
  {
    SortSorts(InRange(emails, c, from, to), SentNoLater);
    InRangeCounts(emails, c, from, to, e);
    var listed := ListEmailsForSummary(emails, c, from, to);
    if i < j < |listed| { assert SentNoLater(listed[i], listed[j]); }
  }

  lemma ListedAll(emails: seq<Email>, c: ClientId, from: Instant, to: Instant)
    ensures |ListEmailsForSummary(emails, c, from, to)| == |InRange(emails, c, from, to)|
  {
    SortSorts(InRange(emails, c, from, to), SentNoLater);
  }

  /** The places in the table of the client's emails sent within a range. */
  ghost function Ranged(emails: seq<Email>, c: ClientId, from: Instant, to: Instant): set<nat> {
    set i: nat | i < |emails| && emails[i].clientId == c && from <= emails[i].sentAt <= to
  }

  /** The places of those captured after an instant. */
  ghost function Newer(emails: seq<Email>, c: ClientId, after: Instant): set<nat> {
    set i: nat | i < |emails| && emails[i].clientId == c && after < emails[i].capturedAt
  }

  lemma {:induction false} RangedCount(emails: seq<Email>, c: ClientId, from: Instant, to: Instant)
    ensures |InRange(emails, c, from, to)| == |Ranged(emails, c, from, to)|
  {
    if emails == [] {
      assert Ranged(emails, c, from, to) == {};
    } else {
      var front, last := emails[..|emails| - 1], emails[|emails| - 1];
      RangedCount(front, c, from, to);
      var one: set<nat> := if last.clientId == c && from <= last.sentAt <= to then {|front|} else {};
      assert Ranged(emails, c, from, to) == Ranged(front, c, from, to) + one;
    }
  }

  lemma {:induction false} NewerCount(emails: seq<Email>, c: ClientId, after: Instant)
    ensures CountCapturedAfter(emails, c, after) == |Newer(emails, c, after)|
  {
    if emails == [] {
      assert Newer(emails, c, after) == {};
    } else {
      var front, last := emails[..|emails| - 1], emails[|emails| - 1];
      NewerCount(front, c, after);
      var one: set<nat> := if last.clientId == c && after < last.capturedAt then {|front|} else {};
      assert Newer(emails, c, after) == Newer(front, c, after) + one;
    }
  }

  /**
  The decision from the tables alone: an empty range first, then an unknown client, then a client with
  no email in the range; a skip exactly for a request that is not forced on a client with a record and
  fewer than five emails captured after it; otherwise a regeneration from all emails in the range.
  */
  lemma DecideMeaning(clients: map<ClientId, Client>, emails: seq<Email>, records: map<ClientId, Record>,
                      c: ClientId, start: Option<Instant>, end: Option<Instant>, force: bool, now: Instant)
    ensures var from := if start.Some? then start.value else 0;
            var to := if end.Some? then end.value else now;
            var decision := Decide(clients, emails, records, c, start, end, force, now);
            var recent := !force && c in records && |Newer(emails, c, records[c].refreshedAt)| < 5;
            && (decision == BadRange <==> from > to)
            && (decision == NoClient <==> from <= to && c !in clients)
            && (decision == NoEmails <==> from <= to && c in clients && Ranged(emails, c, from, to) == {})
            && (decision == Skip <==> from <= to && c in clients && Ranged(emails, c, from, to) != {} && recent)
            && (decision.Regenerate? <==> from <= to && c in clients && Ranged(emails, c, from, to) != {} && !recent)
            && (decision.Regenerate? ==> |decision.emails| == |Ranged(emails, c, from, to)|)
  {
    var from, to := RangeStart(start), RangeEnd(end, now);
    ListedAll(emails, c, from, to);
    RangedCount(emails, c, from, to);
    if c in records { NewerCount(emails, c, records[c].refreshedAt); }
  }

  lemma CaptureDecidesSkip(clients: map<ClientId, Client>, emails: seq<Email>, records: map<ClientId, Record>, i: nat, now: Instant)
    requires i < |emails| && emails[i].sentAt >= 0 && emails[i].clientId in clients && emails[i].clientId in records
    requires |Newer(emails, emails[i].clientId, records[emails[i].clientId].refreshedAt)| < 5
    ensures Decide(clients, emails, records, emails[i].clientId, None, Some(emails[i].sentAt), false, now) == Skip
  {
    var e := emails[i];
    DecideMeaning(clients, emails, records, e.clientId, None, Some(e.sentAt), false, now);
    assert i in Ranged(emails, e.clientId, 0, e.sentAt);
  }

  /** A response shows the client and the record's date; a skip has a reason and no result, others the whole report. */
  lemma ResponseMeaning(client: Client, record: Record)
    ensures var shown, skip := CurrentResponse(client, record), ResponseFromRecord(client, record, true, Some(SKIP_REASON));
            && (forall r :: r in {shown, skip} ==>
                  && r.clientId == client.id && r.clientName == client.name && r.firmId == client.firmId
                  && r.refreshedAt == record.refreshedAt)
            && !shown.skipped && shown.reason == None && shown.result.Some?
            && shown.result.value.report == record.report && shown.result.value.emailCount == record.emailCount
            && shown.result.value.refreshedAt == record.refreshedAt
            && skip.skipped && skip.result == None
            && skip.reason == Some("Fewer than 5 new emails have arrived since last refresh")
  {
  }

  /** A read that had to rebuild the response leaves it in the cache for the next. */
  lemma ReadCaches(t: Tier<Cached>, clients: map<ClientId, Client>, records: map<ClientId, Record>, c: ClientId,
                   now: int, ttl: int, cap: nat, net: Replies, lost: set<Key>, now': int, ttl': int, got: Reply)
    requires Valid(t.local) && (Live(t) ==> t.local == Empty())
    requires c in clients && c in records && FoundJson(t, Summary(c), now, ttl, net.first) == None
    ensures var t' := Forget(ReadTier(t, clients, records, c, now, ttl, cap, net), lost);
            var found := FoundJson(t', Summary(c), now', ttl', got);
            var kept := if Live(t) && net.first == Done && net.second == Done then got == Done && Summary(c) !in lost
                        else cap > 0 && now' - now <= ttl';
            found == if kept then Some(SummaryPayload(CurrentResponse(clients[c], records[c]))) else None
  {
    var t' := GetJson(t, Summary(c), now, ttl, net.first);
    RemoveValid(t.local, Summary(c));
    TouchElems(t.local.order, Summary(c));
    SetThenGet(t', Summary(c), SummaryPayload(CurrentResponse(clients[c], records[c])), now, cap, net.second, lost,
               now', ttl', got);
  }

  /** After a refresh the cache holds its response, and nothing older. */
  lemma CommitCaches(t: Tier<Cached>, c: ClientId, response: Response, now: int, cap: nat, net: Replies,
                     lost: set<Key>, now': int, ttl': int, got: Reply)
    requires Valid(t.local) && (Live(t) ==> t.local == Empty())
    ensures var t' := Forget(CommitTier(t, c, response, now, cap, net), lost);
            var found := FoundJson(t', Summary(c), now', ttl', got);
            var kept := if Live(t) && net.first == Done && net.second == Done then got == Done && Summary(c) !in lost
                        else cap > 0 && now' - now <= ttl';
            found == if kept then Some(SummaryPayload(response)) else None
  {
    var t' := Invalidate(t, Summary(c), net.first);
    RemoveValid(t.local, Summary(c));
    SetThenGet(t', Summary(c), SummaryPayload(response), now, cap, net.second, lost, now', ttl', got);
  }

  /**
  The refresh a capture enqueues finds its own email, so it either skips or regenerates, exactly
  when the email was not sent before the epoch; otherwise its range is empty and it is refused.
  */
  lemma CaptureRefreshDecides(clients: map<ClientId, Client>, emails: seq<Email>, records: map<ClientId, Record>,
                              i: nat, now: Instant)
    requires i < |emails| && emails[i].clientId in clients
    ensures var e := emails[i];
            var decision := Decide(clients, emails, records, e.clientId, None, Some(e.sentAt), false, now);
            && (decision.Skip? || decision.Regenerate? <==> e.sentAt >= 0)
            && (e.sentAt < 0 ==> decision == BadRange)
  {
    var e := emails[i];
    if e.sentAt >= EPOCH {
      InRangeMember(emails, e.clientId, EPOCH, e.sentAt, i);
      ListedAll(emails, e.clientId, EPOCH, e.sentAt);
    }
  }
}
