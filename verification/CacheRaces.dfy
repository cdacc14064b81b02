/** Operations of the cache that overlap: what the interleaving does to the total, and when it does no harm. */
module CacheRaces {
  import opened CacheModel
  import opened CacheProofs

  /** The last statements of a Commit that read oldSize at some earlier moment. */
  function Upserted(c: Cache, key: Key, m: Meta, oldSize: int): Cache {
    c.(meta := c.meta[key := m], total := c.total + (m.size - oldSize))
  }

  /** The last statements of a drift repair or of an eviction that read the size at some earlier moment. */
  function Dropped(c: Cache, key: Key, size: int): Cache {
    c.(meta := c.meta - {key}, total := c.total - size)
  }

  function SizeOf(c: Cache, key: Key): int {
    if key in c.meta then c.meta[key].size else 0
  }

  /** Undisturbed operations are these statements with the sizes of the moment. */
  lemma CommitUpserts(c: Cache, cfg: Config, w: Writer, io: CommitIO)
    requires Temp(w.tmp) in c.files && Publishes(w, io) && io.readOk && io.upsertOk
    ensures var after := CommitStep(c, cfg, w, io).0;
            var m := Meta(w.n, io.now, io.now, w.contentType);
            after == Upserted(c.(files := after.files), w.key, m, SizeOf(c, w.key))
  {
  }

  lemma RepairDrops(c: Cache, cfg: Config, key: Key, io: GetIO)
    requires key in c.meta && PathFor(cfg, key) !in c.files && io.readOk && !io.openError && io.deleteOk
    ensures GetStep(c, cfg, key, io).0 == Dropped(c, key, SizeOf(c, key))
  {
  }

  lemma RemovalDrops(c: Cache, cfg: Config, key: Key)
    ensures var after := EvictOne(c, cfg, Entry(key, SizeOf(c, key)), REMOVES);
            after == Dropped(c.(files := after.files), key, SizeOf(c, key))
  {
  }

  /** The total after an upsert is off by what the size read before was off, and so it is after a removal. */
  lemma UpsertedDrift(c: Cache, key: Key, m: Meta, oldSize: int)
    ensures Drift(Upserted(c, key, m, oldSize)) == Drift(c) + SizeOf(c, key) - oldSize
  {
    SumUpdate(c.meta, key, m);
  }

  lemma DroppedDrift(c: Cache, key: Key, size: int)
    ensures Drift(Dropped(c, key, size)) == Drift(c) + SizeOf(c, key) - size
  {
    if key in c.meta {
      SumRemove(c.meta, key);
    } else {
      assert c.meta - {key} == c.meta;
    }
  }

  // ----- a whole operation between the reading and the writing of another one -----

  /** A Commit inside another Commit of its key: exact iff it kept the size. */
  lemma TwoCommitsExact(c: Cache, cfg: Config, w: Writer, io: CommitIO, m: Meta)
    requires Temp(w.tmp) in c.files && Publishes(w, io) && io.readOk && io.upsertOk
    ensures var outer := Upserted(CommitStep(c, cfg, w, io).0, w.key, m, SizeOf(c, w.key));
            Drift(outer) == Drift(c) <==> w.n == SizeOf(c, w.key)
  {
    CommitTotalExact(c, cfg, w, io);
    CommitUpserts(c, cfg, w, io);
    UpsertedDrift(CommitStep(c, cfg, w, io).0, w.key, m, SizeOf(c, w.key));
  }

  /** A Get that repairs a row inside another one that does: exact iff the row was empty. */
  lemma TwoRepairsExact(c: Cache, cfg: Config, key: Key, io: GetIO)
    requires key in c.meta && PathFor(cfg, key) !in c.files && io.readOk && !io.openError && io.deleteOk
    ensures Drift(Dropped(GetStep(c, cfg, key, io).0, key, SizeOf(c, key))) == Drift(c) <==> SizeOf(c, key) == 0
  {
    GetKeepsDrift(c, cfg, key, io);
    RepairDrops(c, cfg, key, io);
    DroppedDrift(GetStep(c, cfg, key, io).0, key, SizeOf(c, key));
  }

  /** A Commit between the query of an eviction, or of a repair, and its deletion: exact iff it kept the size. */
  lemma CommitBeforeDropExact(c: Cache, cfg: Config, w: Writer, io: CommitIO)
    requires Temp(w.tmp) in c.files && Publishes(w, io) && io.readOk && io.upsertOk
    ensures var outer := Dropped(CommitStep(c, cfg, w, io).0, w.key, SizeOf(c, w.key));
            Drift(outer) == Drift(c) <==> w.n == SizeOf(c, w.key)
  {
    CommitTotalExact(c, cfg, w, io);
    CommitUpserts(c, cfg, w, io);
    DroppedDrift(CommitStep(c, cfg, w, io).0, w.key, SizeOf(c, w.key));
  }

  /** An eviction of the row between a Commit's reading and its upsert: exact iff the row was empty. */
  lemma DropBeforeUpsertExact(c: Cache, cfg: Config, key: Key, m: Meta)
    ensures var evicted := EvictOne(c, cfg, Entry(key, SizeOf(c, key)), REMOVES);
            Drift(Upserted(evicted, key, m, SizeOf(c, key))) == Drift(c) <==> SizeOf(c, key) == 0
  {
    var evicted := EvictOne(c, cfg, Entry(key, SizeOf(c, key)), REMOVES);
    RemovalDrops(c, cfg, key);
    DroppedDrift(c.(files := evicted.files), key, SizeOf(c, key));
    UpsertedDrift(evicted, key, m, SizeOf(c, key));
  }

  /** An eviction of the row inside a repair of it, or the other way round: exact iff the row was empty. */
  lemma EvictInsideRepairExact(c: Cache, cfg: Config, key: Key, io: GetIO)
    requires key in c.meta && PathFor(cfg, key) !in c.files && io.readOk && !io.openError && io.deleteOk
    ensures var size := SizeOf(c, key);
            && (Drift(Dropped(EvictOne(c, cfg, Entry(key, size), REMOVES), key, size)) == Drift(c) <==> size == 0)
            && (Drift(EvictOne(GetStep(c, cfg, key, io).0, cfg, Entry(key, size), REMOVES)) == Drift(c) <==> size == 0)
  {
    var size := SizeOf(c, key);
    var evicted, repaired := EvictOne(c, cfg, Entry(key, size), REMOVES), GetStep(c, cfg, key, io).0;
    RemovalDrops(c, cfg, key);
    DroppedDrift(c.(files := evicted.files), key, size);
    DroppedDrift(evicted, key, size);
    RepairDrops(c, cfg, key, io);
    GetKeepsDrift(c, cfg, key, io);
    DroppedDrift(repaired, key, size);
  }

  // ----- a Commit between the two halves of a Get -----

  /** The row was read before the Commit, the file opened after its rename: new bytes under the old row. */
  function StraddlingGet(c: Cache, cfg: Config, w: Writer, io: CommitIO): GetResult
    requires w.key in c.meta && Temp(w.tmp) in c.files && Publishes(w, io)
  {
    Hit(CommitStep(c, cfg, w, io).0.files[PathFor(cfg, w.key)], c.meta[w.key])
  }

  /**
   * It returns the object that was just published; its size and type are right exactly where the Commit kept
   * those of the row.
   */
  lemma StraddlingGetExact(c: Cache, cfg: Config, w: Writer, io: CommitIO)
    requires w.key in c.meta && Temp(w.tmp) in c.files && Publishes(w, io) && w.n == |c.files[Temp(w.tmp)]|
    ensures var r := StraddlingGet(c, cfg, w, io);
            && r.bytes == c.files[Temp(w.tmp)]
            && (r.meta.size == |r.bytes| <==> w.n == c.meta[w.key].size)
            && (r.meta.contentType == w.contentType <==> c.meta[w.key].contentType == w.contentType)
  {
  }

  // ----- what becomes of a drift -----

  predicate Reopens(ops: seq<Op>) {
    exists i :: 0 <= i < |ops| && ops[i].Reopen?
  }

  lemma OpDrift(s: Store, cfg: Config, op: Op)
    requires Possible(s, op)
    ensures Drift(Do(s, cfg, op).cache) == if op.Reopen? then 0 else Drift(s.cache)
  {
    match op
    case Scribble(tmp, content) =>
    case Lose(path) =>
    case Commit(w, io) =>
      CommitTotalExact(s.cache, cfg, w, io);
    case Get(key, io) =>
      GetKeepsDrift(s.cache, cfg, key, io);
    case EvictRound(batch, io) =>
      BatchKeepsDrift(s.cache, cfg, batch, io);
    case Reopen =>
  }

  /** A drift stays as it is through every serialized run, until the cache is opened again; then it is gone for good. */
  lemma {:induction false} DriftStaysUntilReopened(s: Store, cfg: Config, ops: seq<Op>)
    requires IsRun(s, cfg, ops)
    ensures Drift(After(s, cfg, ops).cache) == if Reopens(ops) then 0 else Drift(s.cache)
    decreases |ops|
  {
    if ops != [] {
      OpDrift(s, cfg, ops[0]);
      DriftStaysUntilReopened(Do(s, cfg, ops[0]), cfg, ops[1..]);
      if Reopens(ops[1..]) {
        var i :| 0 <= i < |ops| - 1 && ops[1..][i].Reopen?;
        assert ops[i + 1].Reopen?;
      } else if Reopens(ops) {
        var i :| 0 <= i < |ops| && ops[i].Reopen?;
        assert i > 0 ==> ops[1..][i - 1].Reopen?;
      }
    }
  }
}
