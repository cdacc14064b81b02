/** What the push functions do to a single entry of the table. */
module SyncTable {
  import opened Basics
  import opened SyncToken
  import opened SyncModel

  /** The last position of an item with this key, -1 if there is none. */
  function LastIndex(items: seq<Item>, key: string): (j: int)
    ensures -1 <= j < |items|
    ensures j >= 0 ==> items[j].key == key
    ensures forall i :: j < i < |items| ==> items[i].key != key
  {
    if items == [] then -1
    else if items[|items| - 1].key == key then |items| - 1
    else LastIndex(items[..|items| - 1], key)
  }

  ghost predicate DistinctKeys(items: seq<Item>) {
    forall i, j :: 0 <= i < j < |items| ==> items[i].key != items[j].key
  }

  /** The numbers start, start + 1, ... of n rows are positive 64-bit numbers. */
  predicate NumbersFit(start: int, n: nat) {
    1 <= start && start + Max(n, 1) - 1 <= MAX_INT64
  }

  /** A written entry takes the last item of its key in batch order; every other entry stays. */
  lemma {:induction false} WriteAt(rows: Table, dom: DomainId, items: seq<Item>, start: int, id: EntryId)
    requires NumbersFit(start, |items|)
    ensures var after, j := Write(rows, dom, items, start), if id.dom == dom then LastIndex(items, id.key) else -1;
            if j >= 0 then id in after && after[id] == Row(items[j].value, start + j)
            else (id in after <==> id in rows) && (id in rows ==> after[id] == rows[id])
  {
    if items != [] {
      WriteAt(rows, dom, items[..|items| - 1], start, id);
    }
  }

  lemma {:induction false} AcceptedComeFromItems(rows: Table, dom: DomainId, items: seq<Item>)
    ensures |Accepted(rows, dom, items)| <= |items|
    ensures forall i :: 0 <= i < |Accepted(rows, dom, items)| ==>
              Accepted(rows, dom, items)[i] in items && Beats(rows, dom, Accepted(rows, dom, items)[i])
    ensures forall item :: item in items && Beats(rows, dom, item) ==> item in Accepted(rows, dom, items)
  {
    if items != [] {
      var init, last := items[..|items| - 1], items[|items| - 1];
      AcceptedComeFromItems(rows, dom, init);
      assert items == init + [last];
    }
  }

  lemma {:induction false} AcceptedKeepsKeysDistinct(rows: Table, dom: DomainId, items: seq<Item>)
    requires DistinctKeys(items)
    ensures DistinctKeys(Accepted(rows, dom, items))
  {
    if items != [] {
      var init, last := items[..|items| - 1], items[|items| - 1];
      AcceptedKeepsKeysDistinct(rows, dom, init);
      AcceptedComeFromItems(rows, dom, init);
      forall item | item in init ensures item.key != last.key {
        var i :| 0 <= i < |init| && init[i] == item;
        assert items[i] == item && items[|items| - 1] == last;
      }
    }
  }

  /**
   * One entry across a whole push: it is replaced under a number from start on, or untouched, or
   * it was a stale tombstone and is gone. A push never prunes what it wrote itself.
   */
  lemma PushAt(rows: Table, dom: DomainId, items: seq<Item>, start: int, now: Millis, id: EntryId)
    requires NumbersFit(start, |Accepted(rows, dom, items)|) && now <= start
    ensures var accepted := Accepted(rows, dom, items);
            var after := PushTable(rows, dom, items, start, now);
            var j := if id.dom == dom then LastIndex(accepted, id.key) else -1;
            if j >= 0 then id in after && after[id] == Row(accepted[j].value, start + j)
            else if id in rows && Stale(id, rows[id], dom, now - RETENTION) then id !in after
            else (id in after <==> id in rows) && (id in rows ==> after[id] == rows[id])
  {
    WriteAt(rows, dom, Accepted(rows, dom, items), start, id);
  }
}
