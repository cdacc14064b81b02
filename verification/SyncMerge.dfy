/** Last writer wins: what a sequence of pushes leaves in an entry. */
module SyncMerge {
  import opened Basics
  import opened SyncToken
  import opened SyncModel
  import opened SyncTable
  import opened SyncSystem
  import opened SyncConvergence

  /** One item arriving at an entry. */
  function Merge(entry: Option<Value>, v: Value): Option<Value> {
    if entry.None? || entry.value.updatedAt < v.updatedAt then Some(v) else entry
  }

  function MergeAll(entry: Option<Value>, arrivals: seq<Value>): Option<Value> {
    if arrivals == [] then entry
    else Merge(MergeAll(entry, arrivals[..|arrivals| - 1]), arrivals[|arrivals| - 1])
  }

  function Stored(rows: Table, id: EntryId): Option<Value> {
    if id in rows then Some(rows[id].value) else None
  }

  /** The values of a batch for one key, in batch order. */
  function ValuesFor(items: seq<Item>, key: string): seq<Value> {
    if items == [] then []
    else
      var last := items[|items| - 1];
      ValuesFor(items[..|items| - 1], key) + if last.key == key then [last.value] else []
  }

  // ----- the meaning of merging -----

  /** w is the first of the newest arrivals. */
  ghost predicate FirstNewest(arrivals: seq<Value>, w: nat) {
    && w < |arrivals|
    && (forall i :: 0 <= i < |arrivals| ==> arrivals[i].updatedAt <= arrivals[w].updatedAt)
    && (forall i :: 0 <= i < w ==> arrivals[i].updatedAt < arrivals[w].updatedAt)
  }

  /** The entry keeps the greatest updatedAt; among equals the first arrival wins. */
  lemma {:induction false} MergeAllIsFirstNewest(arrivals: seq<Value>) returns (w: nat)
    requires arrivals != []
    ensures FirstNewest(arrivals, w) && MergeAll(None, arrivals) == Some(arrivals[w])
  {
    var n := |arrivals| - 1;
    if n == 0 {
      w := 0;
    } else {
      var v := MergeAllIsFirstNewest(arrivals[..n]);
      w := if arrivals[v].updatedAt < arrivals[n].updatedAt then n else v;
    }
  }

  lemma {:induction false} MergeAllConcat(entry: Option<Value>, a: seq<Value>, b: seq<Value>)
    ensures MergeAll(entry, a + b) == MergeAll(MergeAll(entry, a), b)
  {
    if b == [] {
      assert a + b == a;
    } else {
      MergeAllConcat(entry, a, b[..|b| - 1]);
      assert (a + b)[..|a + b| - 1] == a + b[..|b| - 1];
    }
  }

  /** Arrivals with different times may come in any order. */
  lemma MergeIsOrderIndependent(a: seq<Value>, b: seq<Value>)
    requires multiset(a) == multiset(b)
    requires forall i, j :: 0 <= i < j < |a| ==> a[i].updatedAt != a[j].updatedAt
    ensures MergeAll(None, a) == MergeAll(None, b)
  {
    assert |a| == |multiset(a)| == |multiset(b)| == |b|;
    if a != [] {
      var v := MergeAllIsFirstNewest(a);
      var w := MergeAllIsFirstNewest(b);
      assert a[v] in multiset(b) && b[w] in multiset(a);
      var i :| 0 <= i < |b| && b[i] == a[v];
      var j :| 0 <= j < |a| && a[j] == b[w];
    }
  }

  // ----- one batch -----

  lemma {:induction false} ValuesOfAbsentKey(items: seq<Item>, key: string)
    requires forall i :: 0 <= i < |items| ==> items[i].key != key
    ensures ValuesFor(items, key) == []
  {
    if items != [] {
      ValuesOfAbsentKey(items[..|items| - 1], key);
    }
  }

  lemma {:induction false} ValuesOfSingleKey(items: seq<Item>, i: nat)
    requires DistinctKeys(items) && i < |items|
    ensures ValuesFor(items, items[i].key) == [items[i].value]
  {
    var init := items[..|items| - 1];
    if i == |items| - 1 {
      ValuesOfAbsentKey(init, items[i].key);
    } else {
      ValuesOfSingleKey(init, i);
      assert items[i].key != items[|items| - 1].key;
    }
  }

  /** The values that a batch puts in are the arrivals that are newer than the entry. */
  function NewerArrivals(entry: Option<Value>, arrivals: seq<Value>): seq<Value> {
    if arrivals == [] then []
    else
      var last := arrivals[|arrivals| - 1];
      NewerArrivals(entry, arrivals[..|arrivals| - 1])
      + if entry.Some? ==> entry.value.updatedAt < last.updatedAt then [last] else []
  }

  lemma ValuesForExtension(items: seq<Item>, last: Item, key: string)
    ensures ValuesFor(items + [last], key) == ValuesFor(items, key) + if last.key == key then [last.value] else []
  {
    assert (items + [last])[..|items|] == items;
  }

  lemma NewerExtension(entry: Option<Value>, arrivals: seq<Value>, last: Value)
    ensures NewerArrivals(entry, arrivals + [last])
         == NewerArrivals(entry, arrivals)
            + if entry.Some? ==> entry.value.updatedAt < last.updatedAt then [last] else []
  {
    assert (arrivals + [last])[..|arrivals|] == arrivals;
  }

  lemma {:induction false} AcceptedValues(rows: Table, dom: DomainId, items: seq<Item>, key: string)
    ensures ValuesFor(Accepted(rows, dom, items), key)
         == NewerArrivals(Stored(rows, EntryId(dom, key)), ValuesFor(items, key))
  {
    if items != [] {
      var init, last := items[..|items| - 1], items[|items| - 1];
      var before, values := Accepted(rows, dom, init), ValuesFor(init, key);
      AcceptedValues(rows, dom, init, key);
      ValuesForExtension(before, last, key);
      var entry := Stored(rows, EntryId(dom, key));
      NewerExtension(entry, values, last.value);
      assert Accepted(rows, dom, items) == if Beats(rows, dom, last) then before + [last] else before;
      if last.key == key {
        assert Beats(rows, dom, last) <==>
               (entry.Some? ==> entry.value.updatedAt < last.value.updatedAt);
        assert ValuesFor(items, key) == values + [last.value];
      } else {
        assert ValuesFor(items, key) == values;
      }
    }
  }

  lemma {:induction false} LastValueFor(items: seq<Item>, key: string)
    ensures LastIndex(items, key) < 0 <==> ValuesFor(items, key) == []
    ensures LastIndex(items, key) >= 0 ==>
              items[LastIndex(items, key)].value == ValuesFor(items, key)[|ValuesFor(items, key)| - 1]
  {
    if items != [] {
      LastValueFor(items[..|items| - 1], key);
    }
  }

  /** What a whole batch leaves in an entry: the last of its newer arrivals, in batch order. */
  lemma WrittenValue(rows: Table, dom: DomainId, items: seq<Item>, start: int, key: string)
    requires NumbersFit(start, |Accepted(rows, dom, items)|)
    ensures var id, accepted := EntryId(dom, key), Accepted(rows, dom, items);
            var newer := NewerArrivals(Stored(rows, id), ValuesFor(items, key));
            Stored(Write(rows, dom, accepted, start), id)
              == if newer == [] then Stored(rows, id) else Some(newer[|newer| - 1])
  {
    var accepted := Accepted(rows, dom, items);
    AcceptedValues(rows, dom, items, key);
    LastValueFor(accepted, key);
    WriteAt(rows, dom, accepted, start, EntryId(dom, key));
    var j := LastIndex(accepted, key);
    assert Stored(Write(rows, dom, accepted, start), EntryId(dom, key))
        == if j >= 0 then Some(accepted[j].value) else Stored(rows, EntryId(dom, key));
  }

  /** Arrivals that are not newer than the entry never matter. */
  lemma {:induction false} NewerSuffices(entry: Option<Value>, arrivals: seq<Value>)
    ensures var newer := NewerArrivals(entry, arrivals);
            MergeAll(entry, arrivals) == if newer == [] then entry else MergeAll(None, newer)
    ensures entry.Some? ==> MergeAll(entry, arrivals).Some?
                            && entry.value.updatedAt <= MergeAll(entry, arrivals).value.updatedAt
  {
    if arrivals != [] {
      var init, last := arrivals[..|arrivals| - 1], arrivals[|arrivals| - 1];
      NewerSuffices(entry, init);
      assert NewerArrivals(entry, init) + [] == NewerArrivals(entry, init);
      assert (NewerArrivals(entry, init) + [last])[..|NewerArrivals(entry, init)|] == NewerArrivals(entry, init);
    }
  }

  /** A batch with distinct keys does to every entry what its items do one after the other. */
  lemma BatchIsFold(rows: Table, dom: DomainId, items: seq<Item>, start: int, key: string)
    requires DistinctKeys(items) && NumbersFit(start, |Accepted(rows, dom, items)|)
    ensures Stored(Write(rows, dom, Accepted(rows, dom, items), start), EntryId(dom, key))
         == MergeAll(Stored(rows, EntryId(dom, key)), ValuesFor(items, key))
  {
    var entry, values := Stored(rows, EntryId(dom, key)), ValuesFor(items, key);
    WrittenValue(rows, dom, items, start, key);
    NewerSuffices(entry, values);
    if exists i :: 0 <= i < |items| && items[i].key == key {
      var i :| 0 <= i < |items| && items[i].key == key;
      ValuesOfSingleKey(items, i);
      assert |values| == 1;
      var newer := NewerArrivals(entry, values);
      assert values[..0] == [];
      assert newer == [] || newer == values;
    } else {
      ValuesOfAbsentKey(items, key);
    }
  }

  /**
   * With a repeated key the two differ: they agree exactly when the last of the newer arrivals equals
   * the first newest of them.
   */
  lemma RepeatedKeyExact(rows: Table, dom: DomainId, items: seq<Item>, start: int, key: string)
    requires NumbersFit(start, |Accepted(rows, dom, items)|)
    ensures var entry := Stored(rows, EntryId(dom, key));
            var newer := NewerArrivals(entry, ValuesFor(items, key));
            (Stored(Write(rows, dom, Accepted(rows, dom, items), start), EntryId(dom, key))
               == MergeAll(entry, ValuesFor(items, key)))
            <==> (newer == [] || exists w: nat :: FirstNewest(newer, w) && newer[w] == newer[|newer| - 1])
  {
    var entry := Stored(rows, EntryId(dom, key));
    var newer := NewerArrivals(entry, ValuesFor(items, key));
    WrittenValue(rows, dom, items, start, key);
    NewerSuffices(entry, ValuesFor(items, key));
    if newer != [] {
      var w := MergeAllIsFirstNewest(newer);
      assert forall v: nat :: FirstNewest(newer, v) ==> newer[v] == newer[w] by {
        forall v: nat | FirstNewest(newer, v) ensures v == w {
          assert newer[v].updatedAt == newer[w].updatedAt;
        }
      }
    }
  }

  /** Two versions of a new key, the newer one first: the batch keeps the older one. */
  lemma RepeatedKeyKeepsOlder(rows: Table, dom: DomainId, key: string, a: Value, b: Value, start: int)
    requires EntryId(dom, key) !in rows && a.updatedAt > b.updatedAt && 1 <= start < MAX_INT64
    ensures var items := [Item(key, a), Item(key, b)];
            && Stored(Write(rows, dom, Accepted(rows, dom, items), start), EntryId(dom, key)) == Some(b)
            && MergeAll(None, ValuesFor(items, key)) == Some(a)
  {
    var items := [Item(key, a), Item(key, b)];
    AcceptedComeFromItems(rows, dom, items);
    WrittenValue(rows, dom, items, start, key);
    TwoValues(key, a, b);
    TwoNewer(a, b);
  }

  lemma TwoValues(key: string, a: Value, b: Value)
    ensures ValuesFor([Item(key, a), Item(key, b)], key) == [a, b]
  {
    var items := [Item(key, a), Item(key, b)];
    assert items[..1] == [Item(key, a)];
    ValuesForExtension([], Item(key, a), key);
    ValuesForExtension([Item(key, a)], Item(key, b), key);
    assert [] + [Item(key, a)] == items[..1] && items[..1] + [Item(key, b)] == items;
  }

  lemma TwoNewer(a: Value, b: Value)
    requires a.updatedAt > b.updatedAt
    ensures NewerArrivals(None, [a, b]) == [a, b] && MergeAll(None, [a, b]) == Some(a)
  {
    assert [a, b][..1] == [a] && [a][..0] == [];
    assert NewerArrivals(None, [a]) == [a] && MergeAll(None, [a]) == Some(a);
  }

  // ----- replays -----

  /** After a push, an item of its batch would go in again only if that push pruned the entry. */
  lemma ReplayedItem(rows: Table, dom: DomainId, items: seq<Item>, start: int, now: int, item: Item)
    requires DistinctKeys(items) && NumbersFit(start, |Accepted(rows, dom, items)|) && 0 <= now <= start
    requires now <= MAX_INT64 && item in items
    ensures var after := PushTable(rows, dom, items, start, now);
            Beats(after, dom, item) <==> EntryId(dom, item.key) !in after
  {
    var id, accepted := EntryId(dom, item.key), Accepted(rows, dom, items);
    PushAt(rows, dom, items, start, now, id);
    AcceptedComeFromItems(rows, dom, items);
    AcceptedKeepsKeysDistinct(rows, dom, items);
    if Beats(rows, dom, item) {
      BeatingItemIsLast(accepted, item);
    } else if LastIndex(accepted, item.key) >= 0 {
      AcceptedKeyBeats(rows, dom, items, item);
    }
  }

  lemma BeatingItemIsLast(accepted: seq<Item>, item: Item)
    requires DistinctKeys(accepted) && item in accepted
    ensures LastIndex(accepted, item.key) >= 0 && accepted[LastIndex(accepted, item.key)] == item
  {
    var i :| 0 <= i < |accepted| && accepted[i] == item;
    assert LastIndex(accepted, item.key) == i;
  }

  lemma AcceptedKeyBeats(rows: Table, dom: DomainId, items: seq<Item>, item: Item)
    requires DistinctKeys(items) && item in items && LastIndex(Accepted(rows, dom, items), item.key) >= 0
    ensures Beats(rows, dom, item)
  {
    var accepted := Accepted(rows, dom, items);
    AcceptedComeFromItems(rows, dom, items);
    var other := accepted[LastIndex(accepted, item.key)];
    SameKeySameItem(items, other, item);
  }

  lemma SameKeySameItem(items: seq<Item>, a: Item, b: Item)
    requires DistinctKeys(items) && a in items && b in items && a.key == b.key
    ensures a == b
  {
  }

  lemma {:induction false} NothingAccepted(rows: Table, dom: DomainId, items: seq<Item>)
    requires forall item :: item in items ==> !Beats(rows, dom, item)
    ensures Accepted(rows, dom, items) == []
  {
    if items != [] {
      NothingAccepted(rows, dom, items[..|items| - 1]);
    }
  }

  /** Replaying a batch changes no entry beyond the routine prune, if the push itself pruned none of its keys. */
  lemma ReplayChangesNothing(
      rows: Table, dom: DomainId, items: seq<Item>, start: int, now: int, start2: int, now2: Millis)
    requires DistinctKeys(items) && NumbersFit(start, |Accepted(rows, dom, items)|) && 0 <= now <= start
    requires now <= MAX_INT64
    requires forall item :: item in items ==> EntryId(dom, item.key) in PushTable(rows, dom, items, start, now)
    ensures var after := PushTable(rows, dom, items, start, now);
            && Accepted(after, dom, items) == []
            && PushTable(after, dom, items, start2, now2) == Prune(after, dom, now2 - RETENTION)
  {
    var after := PushTable(rows, dom, items, start, now);
    forall item | item in items ensures !Beats(after, dom, item) {
      ReplayedItem(rows, dom, items, start, now, item);
    }
    NothingAccepted(after, dom, items);
  }

  // ----- whole runs -----

  /** The values that committed pushes of a run bring to one entry, in order of arrival. */
  function Arrivals(actions: seq<Action>, id: EntryId): seq<Value> {
    if actions == [] then []
    else
      var a := actions[0];
      (if a.Push? && a.commits && a.dom == id.dom then ValuesFor(a.items, id.key) else [])
      + Arrivals(actions[1..], id)
  }

  /** No step of the run takes the entry away. */
  ghost predicate NeverPruned(w: World, actions: seq<Action>, id: EntryId)
    requires IsRun(w, actions)
    decreases |actions|
  {
    actions == [] ||
    (&& (id in w.server.rows ==> id in Next(w, actions[0]).server.rows)
     && NeverPruned(Next(w, actions[0]), actions[1..], id))
  }

  lemma StepMerges(w: World, a: Action, id: EntryId)
    requires Valid(w.server) && Enabled(w, a) && (a.Push? ==> DistinctKeys(a.items))
    requires id in w.server.rows ==> id in Next(w, a).server.rows
    ensures Stored(Next(w, a).server.rows, id)
         == MergeAll(Stored(w.server.rows, id),
                     if a.Push? && a.commits && a.dom == id.dom then ValuesFor(a.items, id.key) else [])
  {
    if a.Push? && a.commits {
      var s, start := w.server, BatchStart(Mark(w.server.cur, a.dom), a.now);
      PushNumbers(s, a.dom, a.items, a.now, a.hex);
      PushAt(s.rows, a.dom, a.items, start, a.now, id);
      WriteAt(s.rows, a.dom, Accepted(s.rows, a.dom, a.items), start, id);
      if a.dom == id.dom {
        BatchIsFold(s.rows, a.dom, a.items, start, id.key);
      }
    }
  }

  /**
   * Over every run whose batches have distinct keys, an entry that is never pruned is the merge of its
   * arrivals: the newest one, the first arrival winning among equals.
   */
  lemma {:induction false} RunIsMergeOfArrivals(w: World, actions: seq<Action>, id: EntryId)
    requires Valid(w.server) && IsRun(w, actions) && NeverPruned(w, actions, id)
    requires forall i :: 0 <= i < |actions| && actions[i].Push? ==> DistinctKeys(actions[i].items)
    ensures Stored(After(w, actions).server.rows, id)
         == MergeAll(Stored(w.server.rows, id), Arrivals(actions, id))
    decreases |actions|
  {
    if actions != [] {
      var a, rest := actions[0], actions[1..];
      StepKeepsServerValid(w, a);
      StepMerges(w, a, id);
      RunIsMergeOfArrivals(Next(w, a), rest, id);
      MergeAllConcat(Stored(w.server.rows, id),
                     if a.Push? && a.commits && a.dom == id.dom then ValuesFor(a.items, id.key) else [],
                     Arrivals(rest, id));
    }
  }
}
