/**
Users, firms and clients: who may create, change and delete which client (app/services/clients.py),
on tables where a client's summary record goes when the client goes.
*/
module Clients {
  import opened Common

  type ClientId = nat
  type FirmId = nat

  datatype Role = Superuser | FirmAdmin | Accountant

  datatype User = User(role: Role, firmId: FirmId)

  datatype Client = Client(id: ClientId, name: string, firmId: FirmId, externalEmail: string)

  datatype Failure = AccessDenied | NotFound | Conflict | Unprocessable(detail: string) | BadRequest(detail: string) | ServerError

  datatype Result<+T> = Ok(value: T) | Err(failure: Failure)

  /** The tables: firms by id, clients by id, and the clients that have a summary record. */
  datatype Office = Office(firms: map<FirmId, string>, clients: map<ClientId, Client>, summaries: set<ClientId>)

  predicate MayAccess(user: User, client: Client) {
    user.role == Superuser || client.firmId == user.firmId
  }

  function ResolveFirm(user: User, requested: Option<FirmId>): Result<FirmId> {
    if user.role == Superuser then
      if requested == None then Err(Unprocessable("firm_id is required for superusers")) else Ok(requested.value)
    else if requested.Some? && requested.value != user.firmId then Err(AccessDenied)
    else Ok(user.firmId)
  }

  /** The clients a firm has under an email address. */
  function Holders(o: Office, firm: FirmId, email: string): set<ClientId> {
    set c | c in o.clients && o.clients[c].firmId == firm && o.clients[c].externalEmail == email
  }

  function CreateClient(o: Office, user: User, id: ClientId, name: string, email: string, firm: Option<FirmId>): Result<Office> {
    match ResolveFirm(user, firm)
    case Err(failure) => Err(failure)
    case Ok(target) =>
      if target !in o.firms then Err(NotFound)
      else if Holders(o, target, email) != {} then Err(Conflict)
      else Ok(o.(clients := o.clients[id := Client(id, name, target, email)]))
  }

  function Or<T>(given: Option<T>, current: T): T {
    if given.Some? then given.value else current
  }

  function UpdateClient(o: Office, user: User, id: ClientId, name: Option<string>, email: Option<string>,
                        firm: Option<FirmId>): Result<Office> {
    if id !in o.clients then Err(NotFound)
    else
      var client := o.clients[id];
      if !MayAccess(user, client) then Err(AccessDenied)
      else if firm.Some? && ResolveFirm(user, firm).Err? then Err(ResolveFirm(user, firm).failure)
      else if firm.Some? && firm.value !in o.firms then Err(NotFound)
      else
        var finalFirm, finalEmail := Or(firm, client.firmId), Or(email, client.externalEmail);
        if Holders(o, finalFirm, finalEmail) - {id} != {} then Err(Conflict)
        else Ok(o.(clients := o.clients[id := Client(id, Or(name, client.name), finalFirm, finalEmail)]))
  }

  function DeleteClient(o: Office, user: User, id: ClientId): Result<Office> {
    if id !in o.clients then Err(NotFound)
    else if !MayAccess(user, o.clients[id]) then Err(AccessDenied)
    else Ok(o.(clients := o.clients - {id}, summaries := o.summaries - {id}))
  }

  /** The commit of a refresh: the client has a record from now on. */
  function StoreSummary(o: Office, id: ClientId): Result<Office> {
    if id !in o.clients then Err(NotFound) else Ok(o.(summaries := o.summaries + {id}))
  }

  predicate SameAddress(a: Client, b: Client) {
    a.firmId == b.firmId && a.externalEmail == b.externalEmail
  }

  /** The constraints of the schema: keys, foreign keys, one client per firm and email. */
  ghost predicate Consistent(o: Office) {
    && (forall c :: c in o.clients ==> o.clients[c].id == c && o.clients[c].firmId in o.firms)
    && (forall c, d :: c in o.clients && d in o.clients && SameAddress(o.clients[c], o.clients[d]) ==> c == d)
    && o.summaries <= o.clients.Keys
  }

  // ---- The service, over tables updated in place --------------------------------------------------

  class ClientService {
    var firms: map<FirmId, string>
    var clients: map<ClientId, Client>
    var summaries: set<ClientId>

    function State(): Office
      reads this
    {
      Office(firms, clients, summaries)
    }

    constructor (firms: map<FirmId, string>)
      ensures State() == Office(firms, map[], {}) && Consistent(State())
    {
      this.firms, clients, summaries := firms, map[], {};
    }

    /** At most one row matches: the schema allows no second. */
    method GetClientByFirmAndEmail(firm: FirmId, email: string) returns (found: Option<Client>)
      requires Consistent(State())
      ensures found == None <==> Holders(State(), firm, email) == {}
      ensures found.Some? ==> found.value.id in clients && clients[found.value.id] == found.value
                              && Holders(State(), firm, email) == {found.value.id}
    {
      var holders := Holders(State(), firm, email);
      if holders == {} { return None; }
      var c :| c in holders;
      assert holders == {c};
      found := Some(clients[c]);
    }

    method CreateClientService(user: User, id: ClientId, name: string, email: string, firm: Option<FirmId>)
      returns (r: Result<Client>)
      requires Consistent(State()) && id !in clients
      modifies this
      ensures Consistent(State())
      ensures var done := old(CreateClient(State(), user, id, name, email, firm));
              if done.Ok? then State() == done.value && id in clients && r == Ok(clients[id])
              else State() == old(State()) && r == Err(done.failure)
    {
      var target := ResolveFirm(user, firm);
      if target.Err? { return Err(target.failure); }
      if target.value !in firms { return Err(NotFound); }
      var existing := GetClientByFirmAndEmail(target.value, email);
      if existing.Some? { return Err(Conflict); }
      CreateConsistent(State(), user, id, name, email, firm);
      var client := Client(id, name, target.value, email);
      clients := clients[id := client];
      r := Ok(client);
    }

    method UpdateClientService(user: User, id: ClientId, name: Option<string>, email: Option<string>, firm: Option<FirmId>)
      returns (r: Result<Client>)
      requires Consistent(State())
      modifies this
      ensures Consistent(State())
      ensures var done := old(UpdateClient(State(), user, id, name, email, firm));
              if done.Ok? then State() == done.value && id in clients && r == Ok(clients[id])
              else State() == old(State()) && r == Err(done.failure)
    {
      UpdateConsistent(State(), user, id, name, email, firm);
      if id !in clients { return Err(NotFound); }
      var client := clients[id];
      if !MayAccess(user, client) { return Err(AccessDenied); }
      var target := None;
      if firm.Some? {
        var resolved := ResolveFirm(user, firm);
        if resolved.Err? { return Err(resolved.failure); }
        if resolved.value !in firms { return Err(NotFound); }
        target := Some(resolved.value);
      }
      var finalFirm := if target.Some? then target.value else client.firmId;
      var finalEmail := if email.Some? then email.value else client.externalEmail;
      var existing := GetClientByFirmAndEmail(finalFirm, finalEmail);
      if existing.Some? && existing.value.id != client.id { return Err(Conflict); }
      if name.Some? { client := client.(name := name.value); }
      if email.Some? { client := client.(externalEmail := email.value); }
      if target.Some? { client := client.(firmId := target.value); }
      clients := clients[id := client];
      r := Ok(client);
    }

    method DeleteClientService(user: User, id: ClientId) returns (r: Result<()>)
      requires Consistent(State())
      modifies this
      ensures Consistent(State())
      ensures var done := old(DeleteClient(State(), user, id));
              if done.Ok? then State() == done.value && r == Ok(())
              else State() == old(State()) && r == Err(done.failure)
    {
      if id !in clients { return Err(NotFound); }
      if !MayAccess(user, clients[id]) { return Err(AccessDenied); }
      clients, summaries := clients - {id}, summaries - {id};
      r := Ok(());
    }
  }

  // ---- What the operations mean ---------------------------------------------------------------------

  /** Where a user may place a client: a superuser anywhere, but must say where; others in their own firm. */
  predicate MayPlace(user: User, firm: Option<FirmId>, target: FirmId) {
    if user.role == Superuser then firm == Some(target)
    else user.firmId == target && (firm == None || firm == Some(target))
  }

  ghost predicate AddressFree(o: Office, id: ClientId, firm: FirmId, email: string) {
    forall c :: c in o.clients && c != id ==> !(o.clients[c].firmId == firm && o.clients[c].externalEmail == email)
  }

  /** A creation succeeds exactly when its firm is one the user may use, exists, and has the address free. */
  lemma CreateRefusals(o: Office, user: User, id: ClientId, name: string, email: string, firm: Option<FirmId>)
    ensures var r := CreateClient(o, user, id, name, email, firm);
            && (r == Err(Unprocessable("firm_id is required for superusers")) <==> user.role == Superuser && firm == None)
            && (r == Err(AccessDenied) <==> user.role != Superuser && firm.Some? && firm.value != user.firmId)
            && (r == Err(NotFound) <==> exists target: FirmId :: MayPlace(user, firm, target) && target !in o.firms)
            && (r == Err(Conflict) <==>
                  exists target: FirmId :: MayPlace(user, firm, target) && target in o.firms && Holders(o, target, email) != {})
            && (r.Err? ==> r.failure.Unprocessable? || r.failure in {AccessDenied, NotFound, Conflict})
  {
    var resolved := ResolveFirm(user, firm);
    assert forall target: FirmId :: MayPlace(user, firm, target) <==> resolved == Ok(target);
  }

  /** The clients a firm has under an address. */
  lemma HoldersMeaning(o: Office, firm: FirmId, email: string, c: ClientId)
    ensures c in Holders(o, firm, email) <==>
            c in o.clients && o.clients[c].firmId == firm && o.clients[c].externalEmail == email
  {
  }

  lemma CreateMeaning(o: Office, user: User, id: ClientId, name: string, email: string, firm: Option<FirmId>)
    requires id !in o.clients
    ensures var r := CreateClient(o, user, id, name, email, firm);
            && (r.Ok? <==> exists target: FirmId :: MayPlace(user, firm, target) && target in o.firms && AddressFree(o, id, target, email))
            && (r.Ok? ==>
                  && r.value.clients.Keys == o.clients.Keys + {id}
                  && r.value.clients[id].name == name && r.value.clients[id].externalEmail == email
                  && MayPlace(user, firm, r.value.clients[id].firmId) && r.value.summaries == o.summaries
                  && forall c :: c in o.clients ==> r.value.clients[c] == o.clients[c])
  {
    var resolved := ResolveFirm(user, firm);
    assert forall target: FirmId :: MayPlace(user, firm, target) <==> resolved == Ok(target);
    if resolved.Ok? {
      assert AddressFree(o, id, resolved.value, email) <==> Holders(o, resolved.value, email) == {} by {
        FreeOfHolders(o, id, resolved.value, email);
      }
    }
  }

  lemma FreeOfHolders(o: Office, id: ClientId, firm: FirmId, email: string)
    ensures AddressFree(o, id, firm, email) <==> Holders(o, firm, email) - {id} == {}
    ensures id !in o.clients ==> Holders(o, firm, email) - {id} == Holders(o, firm, email)
  {
    if Holders(o, firm, email) - {id} == {} {
      forall c | c in o.clients && c != id ensures !(o.clients[c].firmId == firm && o.clients[c].externalEmail == email) {
        assert c !in Holders(o, firm, email) - {id};
      }
    }
  }

  /** The client as the update asks for it: each field given is set, each other one kept. */
  ghost predicate Revised(was: Client, now: Client, name: Option<string>, email: Option<string>, firm: Option<FirmId>) {
    && now.id == was.id
    && (if name.Some? then name == Some(now.name) else now.name == was.name)
    && (if email.Some? then email == Some(now.externalEmail) else now.externalEmail == was.externalEmail)
    && (if firm.Some? then firm == Some(now.firmId) else now.firmId == was.firmId)
  }

  /**
  An update succeeds exactly when the user may access the client and use the firm asked for, that firm
  exists, and no other client holds the resulting address; it revises this client and nothing else.
  */
  lemma UpdateMeaning(o: Office, user: User, id: ClientId, name: Option<string>, email: Option<string>, firm: Option<FirmId>)
    requires Consistent(o)
    ensures var r := UpdateClient(o, user, id, name, email, firm);
            && (r.Ok? <==>
                  && id in o.clients && (user.role == Superuser || user.firmId == o.clients[id].firmId)
                  && (firm.Some? ==> MayPlace(user, firm, firm.value) && firm.value in o.firms)
                  && exists now: Client :: Revised(o.clients[id], now, name, email, firm)
                                           && AddressFree(o, id, now.firmId, now.externalEmail))
            && (r.Ok? ==>
                  && r.value.clients.Keys == o.clients.Keys && r.value.summaries == o.summaries
                  && Revised(o.clients[id], r.value.clients[id], name, email, firm)
                  && forall c :: c in o.clients && c != id ==> r.value.clients[c] == o.clients[c])
  {
    if id in o.clients {
      var was := o.clients[id];
      var now := Client(id, Or(name, was.name), Or(firm, was.firmId), Or(email, was.externalEmail));
      assert Revised(was, now, name, email, firm);
      assert forall c: Client :: Revised(was, c, name, email, firm) ==> c == now;
      FreeOfHolders(o, id, now.firmId, now.externalEmail);
    }
  }

  /** Why an update is refused, in the order of the checks. */
  lemma UpdateRefusals(o: Office, user: User, id: ClientId, name: Option<string>, email: Option<string>, firm: Option<FirmId>)
    ensures var r := UpdateClient(o, user, id, name, email, firm);
            var denied := id in o.clients && user.role != Superuser
                          && (user.firmId != o.clients[id].firmId || (firm.Some? && firm.value != user.firmId));
            && (r == Err(AccessDenied) <==> denied)
            && (r == Err(NotFound) <==> id !in o.clients || (!denied && firm.Some? && firm.value !in o.firms))
            && (r.Err? ==> r.failure in {AccessDenied, NotFound, Conflict})
  {
  }

  /**
  A deletion succeeds exactly when the client is there and the user may access it; it takes away the
  client and its summary, and nothing else.
  */
  lemma DeleteMeaning(o: Office, user: User, id: ClientId)
    ensures var r := DeleteClient(o, user, id);
            && (r == Err(NotFound) <==> id !in o.clients)
            && (r == Err(AccessDenied) <==> id in o.clients && user.role != Superuser && user.firmId != o.clients[id].firmId)
            && (r.Err? ==> r.failure in {AccessDenied, NotFound})
            && (r.Ok? ==>
                  && r.value.firms == o.firms
                  && (forall c :: c in r.value.clients <==> c in o.clients && c != id)
                  && (forall c :: c in r.value.clients ==> r.value.clients[c] == o.clients[c])
                  && (forall c :: c in r.value.summaries <==> c in o.summaries && c != id))
  {
  }

  // ---- What every operation keeps -------------------------------------------------------------------

  lemma CreateConsistent(o: Office, user: User, id: ClientId, name: string, email: string, firm: Option<FirmId>)
    requires Consistent(o) && id !in o.clients
    ensures var r := CreateClient(o, user, id, name, email, firm); r.Ok? ==> Consistent(r.value)
  {
    var r := CreateClient(o, user, id, name, email, firm);
    if r.Ok? {
      var target := ResolveFirm(user, firm).value;
      forall c | c in o.clients && o.clients[c].firmId == target ensures o.clients[c].externalEmail != email {
        assert c !in Holders(o, target, email);
      }
    }
  }

  lemma UpdateConsistent(o: Office, user: User, id: ClientId, name: Option<string>, email: Option<string>, firm: Option<FirmId>)
    requires Consistent(o)
    ensures var r := UpdateClient(o, user, id, name, email, firm); r.Ok? ==> Consistent(r.value)
  {
    var r := UpdateClient(o, user, id, name, email, firm);
    if r.Ok? {
      var client := r.value.clients[id];
      forall c | c in o.clients && c != id && o.clients[c].firmId == client.firmId
        ensures o.clients[c].externalEmail != client.externalEmail
      {
        assert c !in Holders(o, client.firmId, client.externalEmail) - {id};
      }
    }
  }

  datatype Action =
    | Create(user: User, id: ClientId, name: string, email: string, firm: Option<FirmId>)
    | Update(user: User, id: ClientId, newName: Option<string>, newEmail: Option<string>, firm: Option<FirmId>)
    | Delete(user: User, id: ClientId)
    | Summarise(id: ClientId)

  /** A new client gets an id no client has. */
  function Try(o: Office, a: Action): Result<Office> {
    match a
    case Create(user, id, name, email, firm) => if id in o.clients then Err(Conflict) else CreateClient(o, user, id, name, email, firm)
    case Update(user, id, name, email, firm) => UpdateClient(o, user, id, name, email, firm)
    case Delete(user, id) => DeleteClient(o, user, id)
    case Summarise(id) => StoreSummary(o, id)
  }

  /** A refused request leaves the tables as they were. */
  function Perform(o: Office, a: Action): Office {
    if Try(o, a).Ok? then Try(o, a).value else o
  }

  function PerformAll(o: Office, actions: seq<Action>): Office {
    if actions == [] then o
    else Perform(PerformAll(o, actions[..|actions| - 1]), actions[|actions| - 1])
  }

  lemma PerformConsistent(o: Office, a: Action)
    requires Consistent(o)
    ensures Consistent(Perform(o, a))
  {
    match a
    case Create(user, id, name, email, firm) => if id !in o.clients { CreateConsistent(o, user, id, name, email, firm); }
    case Update(user, id, name, email, firm) => UpdateConsistent(o, user, id, name, email, firm);
    case _ =>
  }

  /** Whoever asks for whatever, the constraints hold after every sequence of requests. */
  lemma {:induction false} RunConsistent(o: Office, actions: seq<Action>)
    requires Consistent(o)
    ensures Consistent(PerformAll(o, actions))
  {
    if actions != [] {
      RunConsistent(o, actions[..|actions| - 1]);
      PerformConsistent(PerformAll(o, actions[..|actions| - 1]), actions[|actions| - 1]);
    }
  }

  // ---- Firms are isolated from each other -----------------------------------------------------------

  function ClientsOf(o: Office, firm: FirmId): map<ClientId, Client> {
    map c | c in o.clients && o.clients[c].firmId == firm :: o.clients[c]
  }

  /** An action taken by a user of another firm who is no superuser. */
  predicate ByOutsider(a: Action, firm: FirmId) {
    !a.Summarise? && a.user.role != Superuser && a.user.firmId != firm
  }

  lemma OutsiderKeepsClients(o: Office, a: Action, firm: FirmId)
    requires Consistent(o) && ByOutsider(a, firm)
    ensures ClientsOf(Perform(o, a), firm) == ClientsOf(o, firm)
    ensures forall c :: c in ClientsOf(o, firm) ==> (c in Perform(o, a).summaries <==> c in o.summaries)
  {
  }

  /**
  No sequence of requests by users of other firms changes, adds or removes a client of a firm: not
  by creating, not by moving a client in or out, not by deleting.
  */
  lemma {:induction false} OutsidersKeepClients(o: Office, actions: seq<Action>, firm: FirmId)
    requires Consistent(o) && forall i :: 0 <= i < |actions| ==> ByOutsider(actions[i], firm)
    ensures ClientsOf(PerformAll(o, actions), firm) == ClientsOf(o, firm)
    ensures forall c :: c in ClientsOf(o, firm) ==> (c in PerformAll(o, actions).summaries <==> c in o.summaries)
  {
    if actions != [] {
      var before := actions[..|actions| - 1];
      OutsidersKeepClients(o, before, firm);
      RunConsistent(o, before);
      OutsiderKeepsClients(PerformAll(o, before), actions[|actions| - 1], firm);
    }
  }
}
