/** The service object takes exactly the steps of the system whose runs are studied. */
module SyncRefinement {
  import opened Basics
  import opened Query
  import opened SyncToken
  import opened SyncModel
  import opened SyncService
  import opened SyncSystem
  import opened SyncConvergence

  /** The fields of the object hold the tables and the tokens of s. */
  ghost predicate Represents(service: Service, s: Server)
    reads service, service.tokens
  {
    service.entries == s.rows && service.domains == s.domains && service.tokens.cur == s.cur
  }

  /**
   * A push at time now: refused it leaves everything as it was; committed or rolled back after its
   * numbers were reserved it is one push step of the system, with the normalised items.
   */
  method PushTakesStep(service: Service, ghost s: Server, account: int, req: PushRequest, check: ItemCheck,
                       now: Millis, hex: string, fault: Fault)
    returns (r: Result<PushResponse, SyncError>)
    requires Represents(service, s)
    modifies service, service.tokens
    ensures var dom := DomainId(account, req.domain);
            match Admit(req, CurrentOf(s.cur, dom), check, now)
            case Err(e) => r == Err(e) && Represents(service, s)
            case Ok(items) =>
              match fault
              case BeforeNumbers => r == Err(Internal) && Represents(service, s)
              case AfterNumbers => r == Err(Internal) && Represents(service, PushStep(s, dom, items, now, hex, false))
              case NoFault =>
                var after := PushStep(s, dom, items, now, hex, true);
                && Represents(service, after)
                && r == Ok(PushResponse(|Accepted(s.rows, dom, items)|, CurrentOf(after.cur, dom)))
  {
    r := service.Push(account, req, check, now, hex, fault);
  }

  /** A pull at the time of the clock gives the device the reply of the system's pull step. */
  method PullTakesStep(service: Service, ghost s: Server, ghost c: Client, account: int, domain: string,
                       since: string, limit: nat, now: Millis, hex: string)
    returns (r: Result<PullResponse, SyncError>, ghost found: seq<EntryId>)
    requires Represents(service, s) && c.dom == DomainId(account, domain) && since == c.since && now == s.clock
    requires limit >= 1 && |hex| == 6
    ensures domain !in DOMAINS ==> r == Err(BadRequest)
    ensures domain in DOMAINS ==>
              && CanPull(s, c, limit, found, hex)
              && r == match PullReply(s, c, limit, found, hex)
                      case None => Err(SyncFullRequired)
                      case Some(reply) => Ok(reply)
  {
    r := service.Pull(account, domain, since, limit, now, hex);
    if r.Ok? {
      var dom := DomainId(account, domain);
      found :| && FirstBy(Newer(service.entries, dom, Gate(since, now).value), limit + 1, found)
               && r.value == Reply(service.entries, found, limit, service.tokens.Current(dom), hex);
    } else {
      found := [];
    }
  }

  /** Starting the service on the tables that are there is the restart step. */
  method StartTakesStep(entries: Table, domains: map<DomainId, string>, stored: seq<StoredToken>, ghost s: Server)
    returns (service: Service)
    requires s.rows == entries && s.domains == domains
    ensures fresh(service) && fresh(service.tokens) && Represents(service, RestartStep(s, stored))
  {
    var store := new TokenStore();
    store.Load(stored);
    service := new Service(store, entries, domains);
  }
}
