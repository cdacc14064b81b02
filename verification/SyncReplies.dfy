/** What a client is told: the answers to a push and a pull, by the texts and numbers in the request. */
module SyncReplies {
  import opened Basics
  import opened Query
  import opened SyncToken
  import opened SyncModel
  import opened SyncService
  import opened SyncDiscipline

  predicate KnownDomain(domain: string) {
    || domain == "history" || domain == "search_history" || domain == "bookmark_snapshot"
    || domain == "mute" || domain == "exif_config" || domain == "settings"
  }

  /** Not older than 90 days, in 64-bit arithmetic. */
  predicate InWindow(now: Millis, n: int) {
    now - n <= 7_776_000_000 || now - n >= 0x8000_0000_0000_0000
  }

  lemma KnownDomainIff(domain: string)
    ensures domain in DOMAINS <==> KnownDomain(domain)
  {
  }

  lemma InWindowIff(now: Millis, n: int)
    requires IsInt64(n)
    ensures InWindow(now, n) <==> !Expired(now, n)
  {
    GateExact(now, n);
  }

  lemma ReadsAsInt64(tok: string, n: int)
    requires ReadsAs(tok, n)
    ensures IsInt64(n)
  {
  }

  /** The gate, by the text of the token: it is open for none at all, and for a token inside the window. */
  lemma GateByText(since: string, now: Millis, n: int)
    ensures Gate(since, now) == Some(n)
            <==> (since == "" && n == -1) || (since != "" && ReadsAs(since, n) && InWindow(now, n))
  {
    ParseTokenExact(since, n);
    if ParseToken(since) == Some(n) {
      ReadsAsInt64(since, n);
      InWindowIff(now, n);
    }
  }

  /** The base token of a push, by its text. */
  lemma BaseByText(base: string, current: string, now: Millis)
    requires base != "" && base != current
    ensures CheckBase(base, current, now) == None <==> exists n :: ReadsAs(base, n) && InWindow(now, n)
    ensures CheckBase(base, current, now) == Some(SyncFullRequired)
            <==> exists n :: ReadsAs(base, n) && !InWindow(now, n)
    ensures CheckBase(base, current, now) == Some(BadRequest) <==> forall n :: !ReadsAs(base, n)
  {
    forall n ensures ReadsAs(base, n) <==> ParseToken(base) == Some(n) {
      ParseTokenExact(base, n);
    }
    if ParseToken(base).Some? {
      ReadsAsInt64(base, ParseToken(base).value);
      InWindowIff(now, ParseToken(base).value);
    }
  }

  /** A base token that is missing, or current, or inside the window. */
  ghost predicate GoodBase(base: string, current: string, now: Millis) {
    base == "" || base == current || exists n :: ReadsAs(base, n) && InWindow(now, n)
  }

  /** How a push is admitted, by its request. */
  lemma AdmitByRequest(req: PushRequest, current: string, check: ItemCheck, now: Millis, out: seq<Item>)
    requires KnownDomain(req.domain) && |req.items| <= 500 && AllValid(req.domain, req.items, check, out)
    ensures var r := Admit(req, current, check, now);
            && (r == Ok(out) <==> GoodBase(req.baseToken, current, now))
            && (r.Ok? ==> r.value == out)
            && (!GoodBase(req.baseToken, current, now) ==>
                  r == Err(if exists n :: ReadsAs(req.baseToken, n) then SyncFullRequired else BadRequest))
  {
    KnownDomainIff(req.domain);
    AllValidPass(req.domain, req.items, check, out);
    if req.baseToken != "" && req.baseToken != current {
      BaseByText(req.baseToken, current, now);
    }
  }

  lemma {:induction false} AllValidPass(domain: string, items: seq<Item>, check: ItemCheck, out: seq<Item>)
    requires AllValid(domain, items, check, out)
    ensures ValidateAll(domain, items, check) == Ok(out)
  {
    if items != [] {
      var n := |items| - 1;
      AllValidPass(domain, items[..n], check, out[..n]);
      assert out == out[..n] + [out[n]];
    }
  }

  lemma FirstBadFails(domain: string, items: seq<Item>, check: ItemCheck, i: int, e: SyncError)
    requires FirstBad(domain, items, check, i, e)
    ensures ValidateAll(domain, items, check) == Err(e)
  {
    ValidateAllExact(domain, items, check);
    if ValidateAll(domain, items, check).Err? {
      var j :| FirstBad(domain, items, check, j, ValidateAll(domain, items, check).error);
      assert !(i < j) && !(j < i);
    }
  }

  /** What one item is turned into, or why it is refused. */
  lemma ValidateOneExact(domain: string, item: Item, check: ItemCheck, out: Item)
    ensures item.key == "" ==> ValidateOne(domain, item, check) == Err(BadRequest)
    ensures Normalised(item, out) ==>
              ValidateOne(domain, item, check) == match check(domain, out) case None => Ok(out) case Some(e) => Err(e)
  {
  }

  /**
   * The answer to a push whose transaction does not fail. The checks come in this order: the domain, the
   * number of items, the items one by one, the base token.
   */
  method AnswerPush(service: Service, account: int, req: PushRequest, check: ItemCheck, now: Millis, hex: string,
                    ghost out: seq<Item>)
    returns (r: Result<PushResponse, SyncError>)
    modifies service, service.tokens
    ensures !KnownDomain(req.domain) || |req.items| > 500 ==> r == Err(BadRequest)
    ensures KnownDomain(req.domain) && |req.items| <= 500 ==>
              forall i, e :: FirstBad(req.domain, req.items, check, i, e) ==> r == Err(e)
    ensures var current := old(service.tokens.Current(DomainId(account, req.domain)));
            KnownDomain(req.domain) && |req.items| <= 500 && AllValid(req.domain, req.items, check, out) ==>
              && (r.Ok? <==> GoodBase(req.baseToken, current, now))
              && (r.Err? ==> r.error == if exists n :: ReadsAs(req.baseToken, n) then SyncFullRequired else BadRequest)
    ensures r.Err? ==> unchanged(service) && unchanged(service.tokens)
    ensures r.Ok? ==> service.tokens.Current(DomainId(account, req.domain)) == r.value.syncToken
  {
    ghost var current := service.tokens.Current(DomainId(account, req.domain));
    r := service.Push(account, req, check, now, hex, NoFault);
    KnownDomainIff(req.domain);
    if KnownDomain(req.domain) && |req.items| <= 500 {
      if AllValid(req.domain, req.items, check, out) {
        AdmitByRequest(req, current, check, now, out);
      }
      forall i, e | FirstBad(req.domain, req.items, check, i, e) ensures r == Err(e) {
        FirstBadFails(req.domain, req.items, check, i, e);
      }
    }
  }

  /** The answer to a pull: refused exactly for an unknown domain, and for a text that is no token in the window. */
  method AnswerPull(service: Service, account: int, domain: string, since: string, limit: nat, now: Millis, hex: string)
    returns (r: Result<PullResponse, SyncError>)
    requires limit >= 1
    ensures !KnownDomain(domain) ==> r == Err(BadRequest)
    ensures KnownDomain(domain) && since != "" && (forall n :: ReadsAs(since, n) ==> !InWindow(now, n)) ==>
              r == Err(SyncFullRequired)
    ensures KnownDomain(domain) && (since == "" || exists n :: ReadsAs(since, n) && InWindow(now, n)) ==> r.Ok?
  {
    r := service.Pull(account, domain, since, limit, now, hex);
    KnownDomainIff(domain);
    if Gate(since, now).Some? {
      GateByText(since, now, Gate(since, now).value);
    }
    if since == "" {
      GateByText(since, now, -1);
    }
    forall n | ReadsAs(since, n) && InWindow(now, n) ensures Gate(since, now).Some? {
      GateByText(since, now, n);
    }
  }
}
