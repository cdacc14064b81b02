/** The sync service object: its methods change the tables and the token store step by step. */
module SyncService {
  import opened Basics
  import opened Query
  import opened SyncToken
  import opened SyncModel

  /** Where a push's transaction fails, if it does. */
  datatype Fault = NoFault | BeforeNumbers | AfterNumbers

  /** Every item passes, and out holds the normalised ones, each at its place. */
  ghost predicate AllValid(domain: string, items: seq<Item>, check: ItemCheck, out: seq<Item>) {
    |out| == |items| && forall i :: 0 <= i < |items| ==> ValidateOne(domain, items[i], check) == Ok(out[i])
  }

  /** Item i fails with e, and every item before it passes. */
  ghost predicate FirstBad(domain: string, items: seq<Item>, check: ItemCheck, i: int, e: SyncError) {
    && 0 <= i < |items| && ValidateOne(domain, items[i], check) == Err(e)
    && forall j :: 0 <= j < i ==> ValidateOne(domain, items[j], check).Ok?
  }

  /** A batch passes with its normalised items, or fails with the error of its first bad item. */
  lemma {:induction false} ValidateAllExact(domain: string, items: seq<Item>, check: ItemCheck)
    ensures ValidateAll(domain, items, check).Ok? ==>
              AllValid(domain, items, check, ValidateAll(domain, items, check).value)
    ensures ValidateAll(domain, items, check).Err? ==>
              exists i :: FirstBad(domain, items, check, i, ValidateAll(domain, items, check).error)
  {
    if items != [] {
      var n := |items| - 1;
      var init := items[..n];
      ValidateAllExact(domain, init, check);
      match ValidateAll(domain, init, check)
      case Err(e) =>
        var i :| FirstBad(domain, init, check, i, e);
        assert FirstBad(domain, items, check, i, e) by {
          assert forall j :: 0 <= j < n ==> items[j] == init[j];
        }
      case Ok(done) =>
        assert forall j :: 0 <= j < n ==> ValidateOne(domain, items[j], check) == Ok(done[j]) by {
          assert forall j :: 0 <= j < n ==> items[j] == init[j];
        }
        if ValidateOne(domain, items[n], check).Err? {
          assert FirstBad(domain, items, check, n, ValidateOne(domain, items[n], check).error);
        }
    }
  }

  /** The same item, with an empty object for missing data. */
  predicate Normalised(item: Item, out: Item) {
    && out.key == item.key != ""
    && var data := item.value.data;
       out.value == item.value.(data := if data == "" || data == "null" then "{}" else data)
  }

  lemma ValidatedAgain(domain: string, item: Item, check: ItemCheck, out: Item)
    requires ValidateOne(domain, item, check) == Ok(out)
    ensures Normalised(item, out) && ValidateOne(domain, out, check) == Ok(out)
  {
  }

  lemma {:induction false} ValidItemsPass(domain: string, items: seq<Item>, check: ItemCheck)
    requires forall i :: 0 <= i < |items| ==> ValidateOne(domain, items[i], check) == Ok(items[i])
    ensures ValidateAll(domain, items, check) == Ok(items)
  {
    if items != [] {
      var n := |items| - 1;
      ValidItemsPass(domain, items[..n], check);
      assert items == items[..n] + [items[n]];
    }
  }

  /** Validating only fills in missing data, and validated items pass again as they are. */
  lemma ValidationIsIdempotent(domain: string, items: seq<Item>, check: ItemCheck, out: seq<Item>)
    requires ValidateAll(domain, items, check) == Ok(out)
    ensures |out| == |items| && forall i :: 0 <= i < |items| ==> Normalised(items[i], out[i])
    ensures ValidateAll(domain, out, check) == Ok(out)
  {
    ValidateAllExact(domain, items, check);
    forall i | 0 <= i < |out| ensures Normalised(items[i], out[i]) && ValidateOne(domain, out[i], check) == Ok(out[i]) {
      ValidatedAgain(domain, items[i], check, out[i]);
    }
    ValidItemsPass(domain, out, check);
  }

  method ValidateItems(domain: string, items: seq<Item>, check: ItemCheck) returns (r: Result<seq<Item>, SyncError>)
    ensures r == ValidateAll(domain, items, check)
  {
    var done: seq<Item> := [];
    for i := 0 to |items|
      invariant ValidateAll(domain, items[..i], check) == Ok(done)
    {
      assert items[..i + 1][..i] == items[..i];
      match ValidateOne(domain, items[i], check)
      case Err(e) =>
        FirstErrorStays(domain, items, i + 1, check);
        return Err(e);
      case Ok(item) =>
        done := done + [item];
    }
    assert items[..|items|] == items;
    r := Ok(done);
  }

  lemma {:induction false} FirstErrorStays(domain: string, items: seq<Item>, i: nat, check: ItemCheck)
    requires i <= |items| && ValidateAll(domain, items[..i], check).Err?
    ensures ValidateAll(domain, items, check) == ValidateAll(domain, items[..i], check)
    decreases |items|
  {
    if i == |items| {
      assert items[..i] == items;
    } else {
      var init := items[..|items| - 1];
      assert init[..i] == items[..i];
      FirstErrorStays(domain, init, i, check);
    }
  }

  class Service {
    const tokens: TokenStore
    var entries: Table
    var domains: map<DomainId, string>

    constructor (store: TokenStore, entries: Table, domains: map<DomainId, string>)
      ensures tokens == store && this.entries == entries && this.domains == domains
    {
      tokens := store;
      this.entries := entries;
      this.domains := domains;
    }

    /** Merges a batch. A fault rolls the tables back, but not the numbers already reserved. */
    method Push(account: int, req: PushRequest, check: ItemCheck, now: Millis, hex: string, fault: Fault)
      returns (r: Result<PushResponse, SyncError>)
      modifies this, tokens
      ensures var dom := DomainId(account, req.domain);
              match Admit(req, old(tokens.Current(dom)), check, now)
              case Err(e) => r == Err(e) && unchanged(this) && unchanged(tokens)
              case Ok(items) =>
                var accepted := Accepted(old(entries), dom, items);
                var start := BatchStart(Mark(old(tokens.cur), dom), now);
                var token := MintToken(BatchLast(start, |accepted|), hex);
                match fault
                case BeforeNumbers => r == Err(Internal) && unchanged(this) && unchanged(tokens)
                case AfterNumbers =>
                  && r == Err(Internal) && unchanged(this)
                  && tokens.cur == old(tokens.cur)[TokenKey(dom) := token]
                case NoFault =>
                  && r == Ok(PushResponse(|accepted|, token))
                  && entries == PushTable(old(entries), dom, items, start, now)
                  && domains == old(domains)[dom := token]
                  && tokens.cur == old(tokens.cur)[TokenKey(dom) := token]
    {
      if req.domain !in DOMAINS {
        return Err(BadRequest);
      }
      if |req.items| > MAX_PUSH_ITEMS {
        return Err(BadRequest);
      }
      var validated := ValidateItems(req.domain, req.items, check);
      if validated.Err? {
        return Err(validated.error);
      }
      var items := validated.value;
      var dom := DomainId(account, req.domain);
      var refused := CheckBase(req.baseToken, tokens.Current(dom), now);
      if refused.Some? {
        return Err(refused.value);
      }
      if fault == BeforeNumbers {
        return Err(Internal);
      }
      var accepted := CollectAccepted(dom, items);
      var seqBase, token := tokens.Next(dom, |accepted|, now, hex);
      if fault == AfterNumbers {
        return Err(Internal);
      }
      WriteRows(dom, accepted, seqBase);
      domains := domains[dom := token];
      entries := Prune(entries, dom, now - RETENTION);
      r := Ok(PushResponse(|accepted|, token));
    }

    method CollectAccepted(dom: DomainId, items: seq<Item>) returns (accepted: seq<Item>)
      ensures accepted == Accepted(entries, dom, items)
    {
      accepted := [];
      for i := 0 to |items|
        invariant accepted == Accepted(entries, dom, items[..i])
      {
        assert items[..i + 1][..i] == items[..i];
        var id := EntryId(dom, items[i].key);
        if id in entries && entries[id].value.updatedAt >= items[i].value.updatedAt {
          continue;
        }
        accepted := accepted + [items[i]];
      }
      assert items[..|items|] == items;
    }

    method WriteRows(dom: DomainId, items: seq<Item>, seqBase: int)
      modifies this`entries
      ensures entries == Write(old(entries), dom, items, seqBase)
    {
      for i := 0 to |items|
        invariant entries == Write(old(entries), dom, items[..i], seqBase)
      {
        assert items[..i + 1][..i] == items[..i];
        entries := entries[EntryId(dom, items[i].key) := Row(items[i].value, Wrap64(seqBase + i))];
      }
      assert items[..|items|] == items;
    }

    /** Fills the items and the numbers of the rows a query returned. */
    method Scan(rows: seq<EntryId>) returns (items: seq<Item>, seqs: seq<int>)
      requires forall i :: 0 <= i < |rows| ==> rows[i] in entries
      ensures items == ItemsOf(entries, rows)
      ensures |seqs| == |rows| && forall i :: 0 <= i < |rows| ==> seqs[i] == entries[rows[i]].seqNo
    {
      items, seqs := [], [];
      for i := 0 to |rows|
        invariant |items| == |seqs| == i
        invariant forall j :: 0 <= j < i ==> items[j] == ItemOf(entries, rows[j]) && seqs[j] == entries[rows[j]].seqNo
      {
        items := items + [ItemOf(entries, rows[i])];
        seqs := seqs + [entries[rows[i]].seqNo];
      }
    }

    /** Cuts the scanned rows to the limit and picks the token of the reply. */
    method Assemble(dom: DomainId, rows: seq<EntryId>, limit: nat, hex: string) returns (r: PullResponse)
      requires limit >= 1
      requires forall i :: 0 <= i < |rows| ==> rows[i] in entries
      ensures r == Reply(entries, rows, limit, tokens.Current(dom), hex)
    {
      var items, seqs := Scan(rows);
      var hasMore := |items| > limit;
      var token := tokens.Current(dom);
      if hasMore {
        items := items[..limit];
        token := MintToken(seqs[limit - 1], hex);
      }
      r := PullResponse(items, token, hasMore);
    }

    /** A page of the rows past the since token, tombstones included. */
    method Pull(account: int, domain: string, since: string, limit: nat, now: Millis, hex: string)
      returns (r: Result<PullResponse, SyncError>)
      requires limit >= 1
      ensures domain !in DOMAINS ==> r == Err(BadRequest)
      ensures domain in DOMAINS && Gate(since, now).None? ==> r == Err(SyncFullRequired)
      ensures domain in DOMAINS && Gate(since, now).Some? ==>
                && r.Ok?
                && var dom := DomainId(account, domain);
                   exists found :: FirstBy(Newer(entries, dom, Gate(since, now).value), limit + 1, found)
                                   && r.value == Reply(entries, found, limit, tokens.Current(dom), hex)
    {
      if domain !in DOMAINS {
        return Err(BadRequest);
      }
      var sinceSeq := -1;
      if since != "" {
        var number := ParseToken(since);
        if number.None? || Expired(now, number.value) {
          return Err(SyncFullRequired);
        }
        sinceSeq := number.value;
      }
      assert Gate(since, now) == Some(sinceSeq);
      var dom := DomainId(account, domain);
      var rows := SelectFirst(Newer(entries, dom, sinceSeq), limit + 1);
      var reply := Assemble(dom, rows, limit, hex);
      r := Ok(reply);
    }
  }
}
