/** What serialized operations keep: the total, the stored bytes, and the least recently used rows. */
module CacheProofs {
  import opened Basics
  import opened Query
  import opened CacheModel

  /** By how much the running total is off the sum over the rows. */
  ghost function Drift(c: Cache): int {
    c.total - SumSizes(c.meta)
  }

  ghost predicate TotalAgrees(c: Cache) {
    Drift(c) == 0
  }

  lemma PathInjective(cfg: Config, a: Key, b: Key)
    requires PathFor(cfg, a) == PathFor(cfg, b)
    ensures a == b
  {
    match cfg.layout
    case Flat =>
      SameSuffix(cfg.dir + "/", cfg.dir + "/", a, b);
    case Sharded =>
      SameSuffix(cfg.dir + "/" + a[..2] + "/" + a[2..4] + "/", cfg.dir + "/" + b[..2] + "/" + b[2..4] + "/", a, b);
  }

  lemma SameSuffix(x: string, y: string, a: string, b: string)
    requires |x| == |y| && x + a == y + b
    ensures a == b
  {
    assert a == (x + a)[|x|..];
    assert b == (y + b)[|y|..];
  }

  // ----- streaming -----

  function Concat(chunks: seq<Chunk>): Bytes {
    if chunks == [] then "" else Concat(chunks[..|chunks| - 1]) + chunks[|chunks| - 1].bytes
  }

  ghost predicate NoWriteErrors(chunks: seq<Chunk>) {
    forall i :: 0 <= i < |chunks| ==> ValidChunk(chunks[i]) && !chunks[i].error
  }

  ghost predicate Opened(files: map<Path, Bytes>, w: Writer) {
    Temp(w.tmp) in files && files[Temp(w.tmp)] == "" && w.n == 0 && !w.overflow && !w.failed
  }

  /** However a stream is cut into chunks, the writer overflows iff it is too long, and else has it all. */
  lemma {:induction false} StreamWrites(files: map<Path, Bytes>, w: Writer, chunks: seq<Chunk>, maxFileBytes: nat)
    requires Opened(files, w) && NoWriteErrors(chunks)
    ensures var after := WriteAll(files, w, chunks, maxFileBytes);
            && !after.1.failed && (after.1.overflow <==> |Concat(chunks)| > maxFileBytes)
            && (!after.1.overflow ==> after.0[Temp(w.tmp)] == Concat(chunks) && after.1.n == |Concat(chunks)|)
            && after.1.key == w.key && after.1.contentType == w.contentType
  {
    if chunks != [] {
      var init, last := chunks[..|chunks| - 1], chunks[|chunks| - 1];
      StreamWrites(files, w, init, maxFileBytes);
      assert last.bytes[..last.wrote] == last.bytes;
    }
  }

  /** Writing a stream touches no file but its own temporary one. */
  lemma {:induction false} StreamKeepsOtherFiles(
      files: map<Path, Bytes>, w: Writer, chunks: seq<Chunk>, maxFileBytes: int, p: Path)
    requires Temp(w.tmp) in files && p != Temp(w.tmp)
    requires forall i :: 0 <= i < |chunks| ==> ValidChunk(chunks[i])
    ensures var after := WriteAll(files, w, chunks, maxFileBytes).0;
            (p in after <==> p in files) && (p in files ==> after[p] == files[p])
  {
    if chunks != [] {
      StreamKeepsOtherFiles(files, w, chunks[..|chunks| - 1], maxFileBytes, p);
    }
  }

  /** Whole-file write: stored iff it fits; then the file is the concatenation of the chunks. */
  lemma PutStoresIffFits(c: Cache, cfg: Config, w: Writer, chunks: seq<Chunk>, io: CommitIO)
    requires Opened(c.files, w) && NoWriteErrors(chunks) && cfg.maxFileBytes >= 0
    requires io.closeOk && io.mkdirOk && Renamed(io) && io.upsertOk
    ensures var written := WriteAll(c.files, w, chunks, cfg.maxFileBytes);
            var (after, outcome) := CommitStep(c.(files := written.0), cfg, written.1, io);
            && (outcome == Stored <==> |Concat(chunks)| <= cfg.maxFileBytes)
            && Temp(w.tmp) !in after.files
            && (outcome == Stored ==>
                  && PathFor(cfg, w.key) in after.files && after.files[PathFor(cfg, w.key)] == Concat(chunks)
                  && w.key in after.meta && after.meta[w.key] == Meta(|Concat(chunks)|, io.now, io.now, w.contentType))
            && (outcome != Stored ==> outcome == NotStored && after.meta == c.meta && after.total == c.total)
  {
    StreamWrites(c.files, w, chunks, cfg.maxFileBytes);
  }

  /** What becomes of a Commit, and that its temporary file never stays. */
  lemma CommitOutcomeExact(c: Cache, cfg: Config, w: Writer, io: CommitIO)
    requires Temp(w.tmp) in c.files
    ensures var (after, outcome) := CommitStep(c, cfg, w, io);
            var renamed := exists i :: 0 <= i < 5 && i < |io.renames| && io.renames[i];
            && (outcome == NotStored <==> w.overflow || w.failed || !io.closeOk)
            && (outcome == Stored <==> !w.overflow && !w.failed && io.closeOk && io.mkdirOk && renamed && io.upsertOk)
            && Temp(w.tmp) !in after.files
            && (outcome != Stored ==> after.meta == c.meta && after.total == c.total)
            && (!io.mkdirOk || !renamed ==> after.files == c.files - {Temp(w.tmp)})
  {
  }

  /** A write error before the limit is reached keeps the object out. */
  lemma {:induction false} ErrorKeepsOut(
      files: map<Path, Bytes>, w: Writer, chunks: seq<Chunk>, maxFileBytes: int)
    requires Temp(w.tmp) in files && forall i :: 0 <= i < |chunks| ==> ValidChunk(chunks[i])
    requires exists i :: 0 <= i < |chunks| && chunks[i].error
    ensures var after := WriteAll(files, w, chunks, maxFileBytes).1;
            after.failed || after.overflow
  {
    var init, last := chunks[..|chunks| - 1], chunks[|chunks| - 1];
    if !last.error {
      var i :| 0 <= i < |chunks| && chunks[i].error;
      assert init[i].error;
      ErrorKeepsOut(files, w, init, maxFileBytes);
    }
  }

  // ----- the running total -----

  /** Commit keeps the total as exact as it was iff the old size was read, or there was none to subtract. */
  lemma CommitTotalExact(c: Cache, cfg: Config, w: Writer, io: CommitIO)
    requires Temp(w.tmp) in c.files
    ensures var (after, outcome) := CommitStep(c, cfg, w, io);
            && (Drift(after) == Drift(c)
                <==> (outcome == Stored ==> io.readOk || w.key !in c.meta || c.meta[w.key].size == 0))
            && (Drift(after) == Drift(c) || Drift(after) == Drift(c) + c.meta[w.key].size)
  {
    SumUpdate(c.meta, w.key, Meta(w.n, io.now, io.now, w.contentType));
  }

  lemma GetKeepsDrift(c: Cache, cfg: Config, key: Key, io: GetIO)
    ensures Drift(GetStep(c, cfg, key, io).0) == Drift(c)
  {
    if key in c.meta {
      SumUpdate(c.meta, key, c.meta[key].(atime := io.now));
      SumRemove(c.meta, key);
    }
  }

  /** What a Get answers, and what it does to its row; it touches nothing else. */
  lemma GetOutcomeExact(c: Cache, cfg: Config, key: Key, io: GetIO, other: Key)
    ensures var (after, r) := GetStep(c, cfg, key, io);
            var present := PathFor(cfg, key) in c.files;
            && (r.Hit? <==> io.readOk && key in c.meta && !io.openError && present)
            && (r.GetError? <==> !io.readOk || (key in c.meta && io.openError))
            && after.files == c.files
            && (key in after.meta <==> key in c.meta && !(r.Miss? && io.deleteOk))
            && (r.Hit? && io.touchOk ==> after.meta[key] == c.meta[key].(atime := io.now))
            && (key in after.meta && !(r.Hit? && io.touchOk) ==> after.meta[key] == c.meta[key])
            && (other != key ==> (other in after.meta <==> other in c.meta)
                                 && (other in c.meta ==> after.meta[other] == c.meta[other]))
  {
  }

  ghost predicate SizesCurrent(meta: map<Key, Meta>, batch: seq<Entry>) {
    && (forall i :: 0 <= i < |batch| ==> batch[i].key in meta && batch[i].size == meta[batch[i].key].size)
    && (forall i, j :: 0 <= i < j < |batch| ==> batch[i].key != batch[j].key)
  }

  /** A batch leaves every row alone that is not in it; whichever removals fail, the total stays as exact as it was. */
  lemma {:induction false} BatchKeepsDrift(c: Cache, cfg: Config, batch: seq<Entry>, io: Key -> RemoveIO)
    requires SizesCurrent(c.meta, batch)
    ensures var after := EvictBatch(c, cfg, batch, io);
            && Drift(after) == Drift(c)
            && (forall k :: k in after.meta ==> k in c.meta && after.meta[k] == c.meta[k])
            && (forall k :: k in c.meta && (forall i :: 0 <= i < |batch| ==> batch[i].key != k) ==> k in after.meta)
  {
    if batch != [] {
      var init, last := batch[..|batch| - 1], batch[|batch| - 1];
      BatchKeepsDrift(c, cfg, init, io);
      var before := EvictBatch(c, cfg, init, io);
      assert forall i :: 0 <= i < |init| ==> init[i].key == batch[i].key;
      SumRemove(before.meta, last.key);
    }
  }

  // ----- a map that may forget -----

  datatype Object = Object(bytes: Bytes, contentType: string)

  /** Every row describes the last object stored under its key, and so does its file if there is one. */
  ghost predicate Coherent(c: Cache, cfg: Config, last: map<Key, Object>) {
    forall k :: k in c.meta ==>
      && k in last
      && c.meta[k].size == |last[k].bytes| && c.meta[k].contentType == last[k].contentType
      && (PathFor(cfg, k) in c.files ==> c.files[PathFor(cfg, k)] == last[k].bytes)
  }

  /** The record of stored objects after a commit. */
  function Record(c: Cache, w: Writer, outcome: Outcome, last: map<Key, Object>): map<Key, Object>
    requires Temp(w.tmp) in c.files
  {
    if outcome == Stored then last[w.key := Object(c.files[Temp(w.tmp)], w.contentType)] else last
  }

  /**
   * Commit keeps rows and files coherent, except in one case, and then exactly so: the file was replaced,
   * the row was not, and the old row spoke of other bytes.
   */
  lemma CommitCoherentExact(c: Cache, cfg: Config, w: Writer, io: CommitIO, last: map<Key, Object>)
    requires Coherent(c, cfg, last) && Temp(w.tmp) in c.files && w.n == |c.files[Temp(w.tmp)]|
    ensures var (after, outcome) := CommitStep(c, cfg, w, io);
            Coherent(after, cfg, Record(c, w, outcome, last))
            <==> (Publishes(w, io) && !io.upsertOk && w.key in c.meta ==> c.files[Temp(w.tmp)] == last[w.key].bytes)
  {
    var (after, outcome) := CommitStep(c, cfg, w, io);
    forall k | k in after.meta && k != w.key
      ensures PathFor(cfg, k) in after.files <==> PathFor(cfg, k) in c.files
      ensures PathFor(cfg, k) in c.files ==> after.files[PathFor(cfg, k)] == c.files[PathFor(cfg, k)]
    {
      if PathFor(cfg, k) == PathFor(cfg, w.key) {
        PathInjective(cfg, k, w.key);
      }
    }
  }

  /** The number of bytes a writer accounts for is the length of its file. */
  lemma {:induction false} WriterAccounts(files: map<Path, Bytes>, w: Writer, chunks: seq<Chunk>, maxFileBytes: int)
    requires Temp(w.tmp) in files && w.n == |files[Temp(w.tmp)]|
    requires forall i :: 0 <= i < |chunks| ==> ValidChunk(chunks[i])
    ensures var after := WriteAll(files, w, chunks, maxFileBytes);
            after.1.n == |after.0[Temp(w.tmp)]|
  {
    if chunks != [] {
      WriterAccounts(files, w, chunks[..|chunks| - 1], maxFileBytes);
    }
  }

  lemma GetIsExactOrMiss(c: Cache, cfg: Config, key: Key, io: GetIO, last: map<Key, Object>)
    requires Coherent(c, cfg, last)
    ensures var (after, r) := GetStep(c, cfg, key, io);
            && Coherent(after, cfg, last)
            && (r.Hit? ==> key in last && r.bytes == last[key].bytes
                           && r.meta.size == |r.bytes| && r.meta.contentType == last[key].contentType)
  {
  }

  lemma FewerFilesCoherent(c: Cache, fewer: Cache, cfg: Config, last: map<Key, Object>)
    requires Coherent(c, cfg, last)
    requires forall k :: k in fewer.meta ==> k in c.meta && fewer.meta[k] == c.meta[k]
    requires forall p :: p in fewer.files ==> p in c.files && fewer.files[p] == c.files[p]
    ensures Coherent(fewer, cfg, last)
  {
  }

  lemma {:induction false} BatchOnlyRemoves(c: Cache, cfg: Config, batch: seq<Entry>, io: Key -> RemoveIO)
    ensures var after := EvictBatch(c, cfg, batch, io);
            && (forall k :: k in after.meta ==> k in c.meta && after.meta[k] == c.meta[k])
            && (forall p :: p in after.files ==> p in c.files && after.files[p] == c.files[p])
  {
    if batch != [] {
      BatchOnlyRemoves(c, cfg, batch[..|batch| - 1], io);
    }
  }

  // ----- runs of serialized operations -----

  datatype Store = Store(cache: Cache, last: map<Key, Object>)

  /** Temporary files change freely; files may be lost from outside; the rest are the operations. */
  datatype Op =
    | Scribble(tmp: nat, content: Bytes)
    | Lose(path: Path)
    | Commit(w: Writer, commitIO: CommitIO)
    | Get(key: Key, getIO: GetIO)
    | EvictRound(batch: seq<Entry>, removeIO: Key -> RemoveIO)
    | Reopen

  /** A commit needs its temporary file, and its database statements must succeed. */
  ghost predicate Possible(s: Store, op: Op) {
    match op
    case Commit(w, io) =>
      Temp(w.tmp) in s.cache.files && w.n == |s.cache.files[Temp(w.tmp)]| && io.readOk && io.upsertOk
    case EvictRound(batch, io) => SizesCurrent(s.cache.meta, batch)
    case _ => true
  }

  ghost function Do(s: Store, cfg: Config, op: Op): Store
    requires Possible(s, op)
  {
    match op
    case Scribble(tmp, content) => s.(cache := s.cache.(files := s.cache.files[Temp(tmp) := content]))
    case Lose(path) => s.(cache := s.cache.(files := s.cache.files - {path}))
    case Commit(w, io) =>
      var (after, outcome) := CommitStep(s.cache, cfg, w, io);
      Store(after, Record(s.cache, w, outcome, s.last))
    case Get(key, io) => s.(cache := GetStep(s.cache, cfg, key, io).0)
    case EvictRound(batch, io) => s.(cache := EvictBatch(s.cache, cfg, batch, io))
    case Reopen => s.(cache := s.cache.(total := SumSizes(s.cache.meta)))
  }

  ghost predicate Sound(s: Store, cfg: Config) {
    TotalAgrees(s.cache) && Coherent(s.cache, cfg, s.last)
  }

  lemma OpKeepsSound(s: Store, cfg: Config, op: Op)
    requires Sound(s, cfg) && Possible(s, op)
    ensures Sound(Do(s, cfg, op), cfg)
  {
    match op
    case Scribble(tmp, content) =>
    case Lose(path) =>
    case Commit(w, io) =>
      CommitTotalExact(s.cache, cfg, w, io);
      CommitCoherentExact(s.cache, cfg, w, io, s.last);
    case Get(key, io) =>
      GetKeepsDrift(s.cache, cfg, key, io);
    case EvictRound(batch, io) =>
      BatchKeepsDrift(s.cache, cfg, batch, io);
      BatchOnlyRemoves(s.cache, cfg, batch, io);
      FewerFilesCoherent(s.cache, EvictBatch(s.cache, cfg, batch, io), cfg, s.last);
    case Reopen =>
  }

  ghost predicate IsRun(s: Store, cfg: Config, ops: seq<Op>)
    decreases |ops|
  {
    ops == [] || (Possible(s, ops[0]) && IsRun(Do(s, cfg, ops[0]), cfg, ops[1..]))
  }

  ghost function After(s: Store, cfg: Config, ops: seq<Op>): Store
    requires IsRun(s, cfg, ops)
    decreases |ops|
  {
    if ops == [] then s else After(Do(s, cfg, ops[0]), cfg, ops[1..])
  }

  /**
   * Over every serialized run the total equals the sum of the rows, and a Get that hits returns exactly
   * the bytes, the size and the type of the last object stored under its key.
   */
  lemma {:induction false} CacheIsForgetfulMap(s: Store, cfg: Config, ops: seq<Op>, key: Key, io: GetIO)
    requires Sound(s, cfg) && IsRun(s, cfg, ops)
    ensures var end := After(s, cfg, ops);
            var r := GetStep(end.cache, cfg, key, io).1;
            && TotalAgrees(end.cache)
            && (r.Hit? ==> key in end.last && r.bytes == end.last[key].bytes
                           && r.meta.size == |r.bytes| && r.meta.contentType == end.last[key].contentType)
    decreases |ops|
  {
    if ops != [] {
      OpKeepsSound(s, cfg, ops[0]);
      CacheIsForgetfulMap(Do(s, cfg, ops[0]), cfg, ops[1..], key, io);
    }
  }

  /** What was just stored is found again. */
  lemma StoredIsFound(c: Cache, cfg: Config, w: Writer, io: CommitIO, getIO: GetIO)
    requires Temp(w.tmp) in c.files && CommitStep(c, cfg, w, io).1 == Stored
    requires getIO.readOk && !getIO.openError
    ensures GetStep(CommitStep(c, cfg, w, io).0, cfg, w.key, getIO).1
         == Hit(c.files[Temp(w.tmp)], Meta(w.n, io.now, io.now, w.contentType))
  {
  }

  // ----- eviction -----

  /** All of the removals of a batch succeed. */
  ghost predicate AllRemove(batch: seq<Entry>, io: Key -> RemoveIO) {
    forall i :: 0 <= i < |batch| ==> io(batch[i].key) == REMOVES
  }

  function BatchKeys(batch: seq<Entry>): set<Key> {
    set e | e in batch :: e.key
  }

  lemma {:induction false} BatchRemovesItsKeys(c: Cache, cfg: Config, batch: seq<Entry>, io: Key -> RemoveIO)
    requires AllRemove(batch, io)
    ensures EvictBatch(c, cfg, batch, io).meta == c.meta - BatchKeys(batch)
  {
    if batch != [] {
      var init, last := batch[..|batch| - 1], batch[|batch| - 1];
      BatchRemovesItsKeys(c, cfg, init, io);
      BatchKeysExtension(init, last);
      assert batch == init + [last];
    }
  }

  lemma BatchKeysExtension(init: seq<Entry>, last: Entry)
    ensures BatchKeys(init + [last]) == BatchKeys(init) + {last.key}
  {
    assert forall e :: e in init + [last] <==> e in init || e == last;
  }

  /** Rows that went are not younger than rows that stayed. */
  ghost predicate OldestWent(before: map<Key, Meta>, after: map<Key, Meta>) {
    && (forall k :: k in after ==> k in before && after[k] == before[k])
    && (forall gone, kept :: gone in before && gone !in after && kept in after ==>
          before[gone].atime <= before[kept].atime)
  }

  lemma OldestWentTransitive(a: map<Key, Meta>, b: map<Key, Meta>, c: map<Key, Meta>)
    requires OldestWent(a, b) && OldestWent(b, c)
    ensures OldestWent(a, c)
  {
    forall gone, kept | gone in a && gone !in c && kept in c ensures a[gone].atime <= a[kept].atime {
      assert kept in b;
      if gone in b {
        assert b[gone].atime <= b[kept].atime;
      }
    }
  }

  /** A round whose removals succeed takes the oldest rows, a full batch of them or all there are. */
  lemma RoundTakesOldest(c: Cache, cfg: Config, keys: seq<Key>, n: nat, io: Key -> RemoveIO)
    requires FirstBy(Atimes(c.meta), n, keys) && AllRemove(Entries(c.meta, keys), io)
    ensures var after := EvictBatch(c, cfg, Entries(c.meta, keys), io).meta;
            && OldestWent(c.meta, after)
            && |after| == |c.meta| - |keys|
            && (|keys| == n || after == map[])
  {
    BatchRemovesItsKeys(c, cfg, Entries(c.meta, keys), io);
    EntriesHaveKeys(c.meta, keys);
    KeysLeft(c.meta, keys);
    FirstAreOldest(c.meta, n, keys);
  }

  lemma EntriesHaveKeys(meta: map<Key, Meta>, keys: seq<Key>)
    requires forall i :: 0 <= i < |keys| ==> keys[i] in meta
    ensures BatchKeys(Entries(meta, keys)) == set k | k in keys
  {
    forall k | k in keys ensures k in BatchKeys(Entries(meta, keys)) {
      var i :| 0 <= i < |keys| && keys[i] == k;
      assert Entries(meta, keys)[i].key == k;
    }
  }

  /** The rows of the first keys by access time are the oldest; there are n of them, or these are all. */
  lemma FirstAreOldest(meta: map<Key, Meta>, n: nat, keys: seq<Key>)
    requires FirstBy(Atimes(meta), n, keys)
    ensures var after := meta - (set k | k in keys);
            OldestWent(meta, after) && (|keys| == n || after == map[])
  {
    var after := meta - (set k | k in keys);
    forall gone, kept | gone in meta && gone !in after && kept in after
      ensures meta[gone].atime <= meta[kept].atime
    {
      var i :| 0 <= i < |keys| && keys[i] == gone;
      assert Atimes(meta)[keys[i]] <= Atimes(meta)[kept];
    }
    if after != map[] {
      var k :| k in after;
      assert k in Atimes(meta) && k !in keys;
    }
  }

  lemma {:induction false} KeysLeft(meta: map<Key, Meta>, keys: seq<Key>)
    requires Distinct(keys) && forall i :: 0 <= i < |keys| ==> keys[i] in meta
    ensures |meta - (set k | k in keys)| == |meta| - |keys|
  {
    if keys == [] {
      assert meta - (set k | k in keys) == meta;
    } else {
      var init, last := keys[..|keys| - 1], keys[|keys| - 1];
      KeysLeft(meta, init);
      var left := meta - (set k | k in init);
      assert last in left;
      assert meta - (set k | k in keys) == left - {last};
    }
  }

  /** Least recently used: the entry of the latest hit is in no round that leaves a row. */
  lemma HitSurvivesRound(c: Cache, cfg: Config, key: Key, io: GetIO, n: nat, keys: seq<Key>)
    requires GetStep(c, cfg, key, io).1.Hit? && io.touchOk
    requires forall k :: k in c.meta && k != key ==> c.meta[k].atime < io.now
    requires FirstBy(Atimes(GetStep(c, cfg, key, io).0.meta), n, keys) && n < |c.meta|
    ensures key !in keys
  {
    var meta := GetStep(c, cfg, key, io).0.meta;
    assert meta.Keys == c.meta.Keys;
    assert |meta| == |meta.Keys| == |c.meta|;
    KeysLeft(meta, keys);
    var left := meta - (set k | k in keys);
    assert left != map[];
    var k :| k in left;
    assert k in Atimes(meta) && k !in keys;
  }

  // ----- the files of an eviction -----

  function RemovedPaths(cfg: Config, batch: seq<Entry>, io: Key -> RemoveIO): set<Path> {
    set e | e in batch && !io(e.key).busy :: PathFor(cfg, e.key)
  }

  function DeletedKeys(batch: seq<Entry>, io: Key -> RemoveIO): set<Key> {
    set e | e in batch && !io(e.key).busy && io(e.key).deleteOk :: e.key
  }

  /** A batch removes the files that are not busy, and then those rows whose deletion succeeds. */
  lemma BatchExact(c: Cache, cfg: Config, batch: seq<Entry>, io: Key -> RemoveIO)
    ensures var after := EvictBatch(c, cfg, batch, io);
            && after.files == c.files - RemovedPaths(cfg, batch, io)
            && after.meta == c.meta - DeletedKeys(batch, io)
  {
    BatchRemoves(c, cfg, batch, io);
    BatchDeletes(c, cfg, batch, io);
  }

  lemma {:induction false} BatchRemoves(c: Cache, cfg: Config, batch: seq<Entry>, io: Key -> RemoveIO)
    ensures EvictBatch(c, cfg, batch, io).files == c.files - RemovedPaths(cfg, batch, io)
  {
    if batch != [] {
      var init, last := batch[..|batch| - 1], batch[|batch| - 1];
      BatchRemoves(c, cfg, init, io);
      RemovedExtends(cfg, init, last, io);
      assert batch == init + [last];
      LeftOut(c.files, RemovedPaths(cfg, init, io), {PathFor(cfg, last.key)});
    }
  }

  lemma {:induction false} BatchDeletes(c: Cache, cfg: Config, batch: seq<Entry>, io: Key -> RemoveIO)
    ensures EvictBatch(c, cfg, batch, io).meta == c.meta - DeletedKeys(batch, io)
  {
    if batch != [] {
      var init, last := batch[..|batch| - 1], batch[|batch| - 1];
      BatchDeletes(c, cfg, init, io);
      DeletedExtends(init, last, io);
      assert batch == init + [last];
      LeftOut(c.meta, DeletedKeys(init, io), {last.key});
    }
  }

  lemma LeftOut<K, V>(m: map<K, V>, a: set<K>, b: set<K>)
    ensures m - a - b == m - (a + b)
  {
  }

  lemma RemovedExtends(cfg: Config, init: seq<Entry>, last: Entry, io: Key -> RemoveIO)
    ensures RemovedPaths(cfg, init + [last], io)
         == if io(last.key).busy then RemovedPaths(cfg, init, io)
            else RemovedPaths(cfg, init, io) + {PathFor(cfg, last.key)}
  {
    assert forall e :: e in init + [last] <==> e in init || e == last;
  }

  lemma DeletedExtends(init: seq<Entry>, last: Entry, io: Key -> RemoveIO)
    ensures DeletedKeys(init + [last], io)
         == if io(last.key).busy || !io(last.key).deleteOk then DeletedKeys(init, io)
            else DeletedKeys(init, io) + {last.key}
  {
    assert forall e :: e in init + [last] <==> e in init || e == last;
  }

  /**
   * A row goes only after its file; no file changes; files that go are those of rows; and the rows of spared
   * keys stay, with their files.
   */
  ghost predicate FilesFollow(cfg: Config, before: Cache, after: Cache, spared: set<Key>) {
    && (forall k :: k in before.meta && k !in after.meta ==> PathFor(cfg, k) !in after.files)
    && (forall p :: p in after.files ==> p in before.files && after.files[p] == before.files[p])
    && (forall p :: p in before.files && p !in after.files ==> IsFileOf(cfg, before.meta, p))
    && (forall k :: k in spared && k in before.meta ==>
          k in after.meta && (PathFor(cfg, k) in before.files ==> PathFor(cfg, k) in after.files))
  }

  ghost predicate IsFileOf(cfg: Config, meta: map<Key, Meta>, p: Path) {
    exists k :: k in meta && p == PathFor(cfg, k)
  }

  /** The files that go are exactly those of the rows that go. */
  ghost predicate FilesExact(cfg: Config, before: Cache, after: Cache) {
    forall k :: k in before.meta && PathFor(cfg, k) in before.files ==>
      (k in after.meta <==> PathFor(cfg, k) in after.files)
  }

  lemma RoundFiles(c: Cache, cfg: Config, keys: seq<Key>, io: Key -> RemoveIO, spared: set<Key>)
    requires forall i :: 0 <= i < |keys| ==> keys[i] in c.meta
    requires forall k :: k in spared ==> io(k).busy
    ensures var after := EvictBatch(c, cfg, Entries(c.meta, keys), io);
            && FilesFollow(cfg, c, after, spared)
            && ((forall k :: io(k) == REMOVES) ==> FilesExact(cfg, c, after))
  {
    var batch := Entries(c.meta, keys);
    var after := EvictBatch(c, cfg, batch, io);
    BatchExact(c, cfg, batch, io);
    forall k | k in c.meta ensures PathFor(cfg, k) in RemovedPaths(cfg, batch, io) <==> k in keys && !io(k).busy {
      RemovedIff(c.meta, cfg, keys, io, k);
    }
    forall k | k in c.meta ensures k in DeletedKeys(batch, io) <==> k in keys && !io(k).busy && io(k).deleteOk {
      DeletedIff(c.meta, keys, io, k);
    }
    forall p | p in c.files && p !in after.files ensures IsFileOf(cfg, c.meta, p) {
      var e :| e in batch && !io(e.key).busy && p == PathFor(cfg, e.key);
      assert e.key in c.meta;
    }
  }

  lemma RemovedIff(meta: map<Key, Meta>, cfg: Config, keys: seq<Key>, io: Key -> RemoveIO, k: Key)
    requires forall i :: 0 <= i < |keys| ==> keys[i] in meta
    ensures PathFor(cfg, k) in RemovedPaths(cfg, Entries(meta, keys), io) <==> k in keys && !io(k).busy
  {
    var batch := Entries(meta, keys);
    if PathFor(cfg, k) in RemovedPaths(cfg, batch, io) {
      var e :| e in batch && !io(e.key).busy && PathFor(cfg, k) == PathFor(cfg, e.key);
      PathInjective(cfg, k, e.key);
    }
    if k in keys {
      var i :| 0 <= i < |keys| && keys[i] == k;
      assert batch[i].key == k;
    }
  }

  lemma DeletedIff(meta: map<Key, Meta>, keys: seq<Key>, io: Key -> RemoveIO, k: Key)
    requires forall i :: 0 <= i < |keys| ==> keys[i] in meta
    ensures k in DeletedKeys(Entries(meta, keys), io) <==> k in keys && !io(k).busy && io(k).deleteOk
  {
    if k in keys {
      var i :| 0 <= i < |keys| && keys[i] == k;
      assert Entries(meta, keys)[i].key == k;
    }
  }

  lemma FilesFollowTransitive(cfg: Config, a: Cache, b: Cache, c: Cache, spared: set<Key>)
    requires FilesFollow(cfg, a, b, spared) && FilesFollow(cfg, b, c, spared)
    requires forall k :: k in b.meta ==> k in a.meta
    ensures FilesFollow(cfg, a, c, spared)
  {
    forall p | p in a.files && p !in c.files ensures IsFileOf(cfg, a.meta, p) {
      if p in b.files {
        assert IsFileOf(cfg, b.meta, p);
      }
    }
  }

  lemma FilesExactTransitive(cfg: Config, a: Cache, b: Cache, c: Cache, spared: set<Key>)
    requires FilesFollow(cfg, a, b, spared) && FilesFollow(cfg, b, c, spared)
    requires FilesExact(cfg, a, b) && FilesExact(cfg, b, c)
    requires forall k :: k in b.meta ==> k in a.meta
    requires forall k :: k in c.meta ==> k in b.meta
    ensures FilesExact(cfg, a, c)
  {
    forall k | k in a.meta && PathFor(cfg, k) in a.files
      ensures k in c.meta <==> PathFor(cfg, k) in c.files
    {
      if k !in b.meta {
        assert PathFor(cfg, k) !in b.files;
      }
    }
  }
}
