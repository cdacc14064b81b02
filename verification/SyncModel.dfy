/** The sync tables, and what a push and a pull do to them, as functions on values. */
module SyncModel {
  import opened Basics
  import opened Query
  import opened SyncToken

  /** 90 days in milliseconds. */
  const RETENTION: int := 90 * 24 * 60 * 60 * 1000
  const MAX_PUSH_ITEMS: int := 500
  const DOMAINS: set<string> :=
    {"history", "search_history", "bookmark_snapshot", "mute", "exif_config", "settings"}

  /** What an entry holds; a deleted one is a tombstone. */
  datatype Value = Value(data: string, updatedAt: int, deleted: bool)

  datatype Item = Item(key: string, value: Value)

  datatype EntryId = EntryId(dom: DomainId, key: string)

  datatype Row = Row(value: Value, seqNo: int)

  /** sync_entries, by primary key. */
  type Table = map<EntryId, Row>

  datatype PushRequest = PushRequest(domain: string, baseToken: string, items: seq<Item>)

  datatype PushResponse = PushResponse(accepted: nat, syncToken: string)

  datatype PullResponse = PullResponse(items: seq<Item>, syncToken: string, hasMore: bool)

  datatype SyncError = BadRequest | SensitiveFieldRejected | SyncFullRequired | Internal

  /** The structural checks on one item that are not modelled: Some(e) rejects the batch with e. */
  type ItemCheck = (string, Item) -> Option<SyncError>

  // ----- admission of a push -----

  function ValidateOne(domain: string, item: Item, check: ItemCheck): Result<Item, SyncError> {
    if item.key == "" then Err(BadRequest)
    else
      var raw := if item.value.data == "" || item.value.data == "null" then "{}" else item.value.data;
      var normal := item.(value := item.value.(data := raw));
      match check(domain, normal)
      case Some(e) => Err(e)
      case None => Ok(normal)
  }

  /** The normalised items, or the error of the first item that fails. */
  function ValidateAll(domain: string, items: seq<Item>, check: ItemCheck): Result<seq<Item>, SyncError> {
    if items == [] then Ok([])
    else match ValidateAll(domain, items[..|items| - 1], check)
      case Err(e) => Err(e)
      case Ok(done) =>
        match ValidateOne(domain, items[|items| - 1], check)
        case Err(e) => Err(e)
        case Ok(item) => Ok(done + [item])
  }

  /** The retention test on a client's number, in 64-bit arithmetic. */
  predicate Expired(now: Millis, number: int) {
    Wrap64(now - number) > RETENTION
  }

  function CheckBase(baseToken: string, current: string, now: Millis): Option<SyncError> {
    if baseToken == "" || baseToken == current then None
    else match ParseToken(baseToken)
      case None => Some(BadRequest)
      case Some(number) => if Expired(now, number) then Some(SyncFullRequired) else None
  }

  function Admit(req: PushRequest, current: string, check: ItemCheck, now: Millis): Result<seq<Item>, SyncError> {
    if req.domain !in DOMAINS || |req.items| > MAX_PUSH_ITEMS then Err(BadRequest)
    else match ValidateAll(req.domain, req.items, check)
      case Err(e) => Err(e)
      case Ok(items) =>
        match CheckBase(req.baseToken, current, now)
        case Some(e) => Err(e)
        case None => Ok(items)
  }

  // ----- the push transaction -----

  /** Last writer wins: an entry that is not older than the item keeps it out. */
  predicate Beats(rows: Table, dom: DomainId, item: Item) {
    EntryId(dom, item.key) in rows ==> rows[EntryId(dom, item.key)].value.updatedAt < item.value.updatedAt
  }

  /** The items of a batch that go in. All of them are compared with the table before the batch. */
  function Accepted(rows: Table, dom: DomainId, items: seq<Item>): seq<Item> {
    if items == [] then []
    else
      var last := items[|items| - 1];
      Accepted(rows, dom, items[..|items| - 1]) + if Beats(rows, dom, last) then [last] else []
  }

  /** Item i of the batch becomes the row of its key, with number start + i. */
  function Write(rows: Table, dom: DomainId, items: seq<Item>, start: int): Table {
    if items == [] then rows
    else
      var n := |items| - 1;
      Write(rows, dom, items[..n], start)
        [EntryId(dom, items[n].key) := Row(items[n].value, Wrap64(start + n))]
  }

  predicate Stale(id: EntryId, row: Row, dom: DomainId, cutoff: int) {
    id.dom == dom && row.value.deleted && row.seqNo < cutoff
  }

  /** Drops the tombstones of the domain whose number lies below the cutoff. */
  function Prune(rows: Table, dom: DomainId, cutoff: int): Table {
    map id | id in rows && !Stale(id, rows[id], dom, cutoff) :: rows[id]
  }

  /** The table after the push of a batch whose numbers begin at start. */
  function PushTable(rows: Table, dom: DomainId, items: seq<Item>, start: int, now: Millis): Table {
    Prune(Write(rows, dom, Accepted(rows, dom, items), start), dom, now - RETENTION)
  }

  // ----- pull -----

  /** The number a since token stands for: -1 for none at all; None where the pull is refused. */
  function Gate(since: string, now: Millis): Option<int> {
    if since == "" then Some(-1)
    else match ParseToken(since)
      case None => None
      case Some(number) => if Expired(now, number) then None else Some(number)
  }

  /** The rows of a domain past a number, ranked by their numbers. */
  function Newer(rows: Table, dom: DomainId, since: int): map<EntryId, int> {
    map id | id in rows && id.dom == dom && rows[id].seqNo > since :: rows[id].seqNo
  }

  function ItemOf(rows: Table, id: EntryId): Item
    requires id in rows
  {
    Item(id.key, rows[id].value)
  }

  function ItemsOf(rows: Table, ids: seq<EntryId>): seq<Item>
    requires forall i :: 0 <= i < |ids| ==> ids[i] in rows
  {
    seq(|ids|, i requires 0 <= i < |ids| => ItemOf(rows, ids[i]))
  }

  function PageOf(found: seq<EntryId>, limit: nat): seq<EntryId> {
    if |found| > limit then found[..limit] else found
  }

  /** The reply to a pull that found these rows, of which there may be one more than the limit. */
  function Reply(rows: Table, found: seq<EntryId>, limit: nat, current: string, hex: string): PullResponse
    requires limit >= 1
    requires forall i :: 0 <= i < |found| ==> found[i] in rows
  {
    PullResponse(
      ItemsOf(rows, PageOf(found, limit)),
      if |found| > limit then MintToken(rows[found[limit - 1]].seqNo, hex) else current,
      |found| > limit)
  }
}
