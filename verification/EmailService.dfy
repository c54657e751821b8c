/**
Capturing emails, app/services/emails.py: the client is found by the address, and the email and the
refresh task it calls for are committed together or not at all.
*/
module EmailService {
  import opened Common
  import opened Clients
  import opened TaskRows
  import P = SummaryPolicy
  import S = SummarySystem

  const NO_RECIPIENT := "At least one toRecipient is required for outbound emails."

  /** The clients a user may capture for; a user who is no superuser only sees the own firm. */
  function Visible(clients: map<ClientId, Client>, user: User, address: string): set<ClientId> {
    set c | c in clients && clients[c].externalEmail == address
            && (user.role == Superuser || clients[c].firmId == user.firmId)
  }

  function AtAddress(clients: map<ClientId, Client>, address: string): set<ClientId> {
    set c | c in clients && clients[c].externalEmail == address
  }

  /** The timestamps of a message; the request schema demands one of them. */
  datatype Stamps = Stamps(sent: Option<Instant>, received: Option<Instant>, created: Option<Instant>)

  predicate Stamped(s: Stamps) {
    s.sent.Some? || s.received.Some? || s.created.Some?
  }

  function First(a: Option<Instant>, b: Option<Instant>, c: Option<Instant>): Option<Instant> {
    if a.Some? then a else if b.Some? then b else c
  }

  class EmailService {
    var clients: map<ClientId, Client>
    var emails: seq<P.Email>
    const tasks: TaskTable

    ghost predicate Valid()
      reads this
    {
      forall c, d :: c in clients && d in clients && SameAddress(clients[c], clients[d]) ==> c == d
    }

    constructor (tasks: TaskTable)
      ensures Valid() && this.tasks == tasks && clients == map[] && emails == []
    {
      this.tasks, clients, emails := tasks, map[], [];
    }

    /** The email is in, with its task pending; nothing else changed. */
    twostate predicate Captured(c: ClientId, sentAt: Instant, capturedAt: Instant, id: TaskId, now: Instant)
      reads this, tasks
    {
      && emails == old(emails) + [P.Email(c, sentAt, capturedAt, id)]
      && tasks.rows == old(tasks.rows)[id := Task("summarize_client", Payload(c, None, Some(sentAt), false), Pending,
                                                  None, None, now, now, None, None)]
    }

    /** Why a capture fails: nobody has the address, several have, or the embedding failed. */
    ghost predicate Refused(user: User, address: string, embedded: bool, r: Result<TaskId>)
      reads this
    {
      var holders := |Visible(clients, user, address)|;
      && (r == Err(NotFound) <==> holders == 0)
      && (r == Err(Conflict) <==> holders > 1)
      && (r == Err(ServerError) <==> holders == 1 && !embedded)
    }

    twostate predicate Untouched()
      reads this, tasks
    {
      emails == old(emails) && tasks.rows == old(tasks.rows)
    }

    /**
    Finds the client exactly when one and only one client the user may see has the address; several
    are a conflict, none is not found. The superuser query is cut off at two rows, which is enough.
    */
    method GetClientByEmailForUser(user: User, address: string) returns (r: Result<Client>)
      requires Valid()
      ensures r.Ok? <==> |Visible(clients, user, address)| == 1
      ensures r.Ok? ==> exists c :: Visible(clients, user, address) == {c} && r.value == clients[c]
      ensures |Visible(clients, user, address)| > 1 ==> r == Err(Conflict)
      ensures |Visible(clients, user, address)| == 0 ==> r == Err(NotFound)
    {
      var visible := Visible(clients, user, address);
      if user.role == Superuser {
        var all := AtAddress(clients, address);
        assert all == visible;
        var matches := TaskTable.TakeAny(all, 2);
        SubsetCard(matches, all);
        if |matches| > 1 { return Err(Conflict); }
        if matches == {} { return Err(NotFound); }
        assert matches == all;
        var c :| c in matches;
        SubsetCard({c}, matches);
        r := Ok(clients[c]);
      } else {
        var holders := Holders(Office(map[], clients, {}), user.firmId, address);
        assert holders == visible;
        if holders == {} { return Err(NotFound); }
        var c :| c in holders;
        assert holders == {c};
        r := Ok(clients[c]);
      }
    }

    /** What both capture endpoints do once the client is known; an embedding failure rolls back. */
    method CommitCapture(client: ClientId, sentAt: Instant, capturedAt: Instant, id: TaskId, now: Instant, embedded: bool)
      returns (ok: bool)
      requires id !in tasks.rows
      modifies this`emails, tasks
      ensures ok == embedded
      ensures if ok then Captured(client, sentAt, capturedAt, id, now) else Untouched()
    {
      var flushed := emails + [P.Email(client, sentAt, capturedAt, id)];
      if !embedded { return false; }
      var _ := tasks.CreateTask(id, S.TASK_TYPE, Payload(client, None, Some(sentAt), false), now);
      emails := flushed;
      ok := true;
    }

    method MockSendEmail(user: User, recipients: seq<string>, stamps: Stamps, capturedAt: Instant, id: TaskId,
                         now: Instant, embedded: bool)
      returns (r: Result<TaskId>)
      requires Valid() && id !in tasks.rows && Stamped(stamps)
      modifies this`emails, tasks
      ensures Valid()
      ensures recipients == [] <==>
              r == Err(BadRequest("At least one toRecipient is required for outbound emails."))
      ensures r.Ok? <==> recipients != [] && |Visible(clients, user, recipients[0])| == 1 && embedded
      ensures recipients != [] ==> Refused(user, recipients[0], embedded, r)
      ensures r.Ok? ==>
                exists c :: Visible(clients, user, recipients[0]) == {c}
                            && Captured(clients[c].id,
                                        if stamps.sent.Some? then stamps.sent.value
                                        else if stamps.received.Some? then stamps.received.value
                                        else stamps.created.value, capturedAt, id, now)
      ensures r.Err? ==> Untouched()
    {
      if recipients == [] { return Err(BadRequest(NO_RECIPIENT)); }
      var client := GetClientByEmailForUser(user, recipients[0]);
      if client.Err? { return Err(client.failure); }
      var sentAt := First(stamps.sent, stamps.received, stamps.created).value;
      var ok := CommitCapture(client.value.id, sentAt, capturedAt, id, now, embedded);
      r := if ok then Ok(id) else Err(ServerError);
    }

    method MockReceiveEmail(user: User, sender: string, stamps: Stamps, capturedAt: Instant, id: TaskId,
                            now: Instant, embedded: bool)
      returns (r: Result<TaskId>)
      requires Valid() && id !in tasks.rows && Stamped(stamps)
      modifies this`emails, tasks
      ensures Valid()
      ensures r.Ok? <==> |Visible(clients, user, sender)| == 1 && embedded
      ensures Refused(user, sender, embedded, r)
      ensures r.Ok? ==>
                exists c :: Visible(clients, user, sender) == {c}
                            && Captured(clients[c].id,
                                        if stamps.received.Some? then stamps.received.value
                                        else if stamps.sent.Some? then stamps.sent.value
                                        else stamps.created.value, capturedAt, id, now)
      ensures r.Err? ==> Untouched()
    {
      var client := GetClientByEmailForUser(user, sender);
      if client.Err? { return Err(client.failure); }
      var sentAt := First(stamps.received, stamps.sent, stamps.created).value;
      var ok := CommitCapture(client.value.id, sentAt, capturedAt, id, now, embedded);
      r := if ok then Ok(id) else Err(ServerError);
    }
  }

  /** A capture in the system stores the email and the row that the service stores. */
  lemma CapturesAreCalls(w: S.World, c: ClientId, sentAt: Instant, capturedAt: Instant, id: TaskId)
    ensures var w' := S.Apply(w, S.Capture(c, sentAt, capturedAt, id));
            && w'.emails == w.emails + [P.Email(c, sentAt, capturedAt, id)]
            && w'.queue.rows == w.queue.rows[id := Task("summarize_client", Payload(c, None, Some(sentAt), false), Pending,
                                                        None, None, w.queue.now, w.queue.now, None, None)]
            && w'.records == w.records && w'.tier == w.tier && w'.clients == w.clients
  {
  }
}
