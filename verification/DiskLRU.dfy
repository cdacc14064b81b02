/** The cache object and its streaming writers, changed step by step as the model says. */
module DiskLRU {
  import opened Query
  import opened CacheModel
  import opened CacheProofs

  /** Rows may go; those that stay keep what they say. */
  ghost predicate OnlyDropped(before: map<Key, Meta>, after: map<Key, Meta>) {
    forall k :: k in after ==> k in before && after[k] == before[k]
  }

  /** The file of the key cannot be removed in any round. */
  ghost predicate AlwaysBusy(io: (nat, Key) -> RemoveIO, k: Key) {
    forall r :: io(r, k).busy
  }

  ghost predicate NothingFails(io: (nat, Key) -> RemoveIO) {
    forall r, k :: io(r, k) == REMOVES
  }

  /** Where a completed eviction stops. */
  ghost predicate EvictedTo(before: map<Key, Meta>, after: map<Key, Meta>, mark: int, batch: nat) {
    && (SumSizes(after) <= mark || after == map[])
    && OldestWent(before, after)
    && (after == map[] || exists rounds: nat :: |before| - |after| == rounds * batch)
    && (after != before ==> exists last :: LastRound(before, last, after, mark, batch))
  }

  /** Before its last round the cache was still above the mark: at most one batch is overshoot. */
  ghost predicate LastRound(before: map<Key, Meta>, last: map<Key, Meta>, after: map<Key, Meta>, mark: int, batch: nat)
  {
    && OldestWent(before, last) && OldestWent(last, after)
    && SumSizes(last) > mark
    && |last| - |after| <= batch
  }

  class DiskLRU {
    const cfg: Config
    var files: map<Path, Bytes>
    var meta: map<Key, Meta>
    var total: int
    var maxBytes: int
    var highWatermark: real

    function State(): Cache
      reads this
    {
      Cache(files, meta, total)
    }

    function Mark(): int
      reads this
    {
      Watermark(highWatermark, maxBytes)
    }

    /** Opens the cache on what is on disk; the total is summed over the rows. */
    constructor (cfg: Config, files: map<Path, Bytes>, meta: map<Key, Meta>, maxBytes: int, highWatermark: real)
      ensures this.cfg == cfg && this.files == files && this.meta == meta
      ensures this.maxBytes == maxBytes && this.highWatermark == highWatermark
      ensures TotalAgrees(State())
    {
      this.cfg := cfg;
      this.files := files;
      this.meta := meta;
      this.maxBytes := maxBytes;
      this.highWatermark := highWatermark;
      new;
      var sum := SumQuery(meta);
      total := sum;
    }

    /** Get opens the file of a row; a row whose file is gone is dropped. */
    method Get(key: Key, io: GetIO) returns (r: GetResult)
      modifies this`meta, this`total
      ensures (State(), r) == GetStep(old(State()), cfg, key, io)
    {
      if !io.readOk {
        return GetError;
      }
      if key !in meta {
        return Miss;
      }
      var m := meta[key];
      if io.openError {
        return GetError;
      }
      if PathFor(cfg, key) !in files {
        if io.deleteOk {
          meta := meta - {key};
          total := total - m.size;
        }
        return Miss;
      }
      if io.touchOk {
        meta := meta[key := m.(atime := io.now)];
      }
      r := Hit(files[PathFor(cfg, key)], m);
    }

    /** New limits; true when the total now lies above the watermark, so that an eviction is due. */
    method SetLimits(maxBytes: int, highWatermark: real) returns (evictionDue: bool)
      modifies this`maxBytes, this`highWatermark
      ensures State() == old(State())
      ensures this.maxBytes == maxBytes && this.highWatermark == highWatermark
      ensures evictionDue <==> total > Watermark(highWatermark, maxBytes)
    {
      this.maxBytes := maxBytes;
      this.highWatermark := highWatermark;
      evictionDue := total > Mark();
    }

    method EvictEntries(batch: seq<Entry>, io: Key -> RemoveIO)
      modifies this`files, this`meta, this`total
      ensures State() == EvictBatch(old(State()), cfg, batch, io)
    {
      for i := 0 to |batch|
        invariant State() == EvictBatch(old(State()), cfg, batch[..i], io)
      {
        assert batch[..i + 1][..i] == batch[..i];
        var e := batch[i];
        if io(e.key).busy {
          continue;
        }
        files := files - {PathFor(cfg, e.key)};
        if !io(e.key).deleteOk {
          continue;
        }
        meta := meta - {e.key};
        total := total - e.size;
      }
      assert batch[..|batch|] == batch;
    }

    /** One round of an eviction: the oldest rows, and what their removals answer; spared are keys that are busy. */
    method EvictRound(io: Key -> RemoveIO, ghost spared: set<Key>) returns (ghost keys: seq<Key>)
      requires TotalAgrees(State()) && forall k :: k in spared ==> io(k).busy
      modifies this`files, this`meta, this`total
      ensures TotalAgrees(State())
      ensures OnlyDropped(old(meta), meta)
      ensures FirstBy(Atimes(old(meta)), cfg.evictionBatch, keys)
      ensures FilesFollow(cfg, old(State()), State(), spared)
      ensures (forall k :: io(k) == REMOVES) ==> FilesExact(cfg, old(State()), State())
      ensures (forall k :: io(k) == REMOVES) ==>
                && OldestWent(old(meta), meta)
                && |meta| == |old(meta)| - |keys| && (|keys| == cfg.evictionBatch || meta == map[])
    {
      var found := SelectFirst(Atimes(meta), cfg.evictionBatch);
      keys := found;
      var batch := Entries(meta, found);
      BatchKeepsDrift(State(), cfg, batch, io);
      RoundFiles(State(), cfg, found, io, spared);
      if forall k :: io(k) == REMOVES {
        RoundTakesOldest(State(), cfg, found, cfg.evictionBatch, io);
      }
      EvictEntries(batch, io);
    }

    /** A round within an eviction that began with the cache `start`. */
    method EvictTurn(io: (nat, Key) -> RemoveIO, round: nat, ghost start: Cache, ghost last: map<Key, Meta>,
                     ghost spared: set<Key>)
      requires cfg.evictionBatch >= 1 && total > Mark() && meta != map[]
      requires forall k :: k in spared ==> AlwaysBusy(io, k)
      requires Evicting(cfg, start, last, State(), Mark(), round, spared, NothingFails(io))
      modifies this`files, this`meta, this`total
      ensures Evicting(cfg, start, old(meta), State(), Mark(), round + 1, spared, NothingFails(io))
    {
      ghost var before := State();
      var keys := EvictRound((k: Key) => io(round, k), spared);
      EvictingGoesOn(cfg, start, last, before, State(), Mark(), round, |keys|, spared, NothingFails(io));
    }

    /**
     * Evicts round by round while the total is above the watermark, for at most `rounds` rounds. Whatever
     * fails, the total stays exact, and a row goes only after its file. When nothing fails, as many rounds as
     * there are rows are enough, and the files that go are exactly those of the rows that go.
     */
    method Evict(io: (nat, Key) -> RemoveIO, rounds: nat)
      requires TotalAgrees(State()) && cfg.evictionBatch >= 1
      modifies this`files, this`meta, this`total
      ensures TotalAgrees(State())
      ensures OnlyDropped(old(meta), meta)
      ensures FilesFollow(cfg, old(State()), State(), set k | k in old(meta) && AlwaysBusy(io, k))
      ensures NothingFails(io) ==> FilesExact(cfg, old(State()), State())
      ensures NothingFails(io) && rounds >= |old(meta)| ==>
                && EvictedTo(old(meta), meta, Mark(), cfg.evictionBatch)
                && (Mark() >= 0 ==> total <= Mark())
    {
      ghost var start := State();
      ghost var spared := set k | k in meta && AlwaysBusy(io, k);
      EvictingBegins(cfg, start, Mark(), spared, NothingFails(io));
      ghost var last, round := EvictLoop(io, rounds, start, spared);
      if NothingFails(io) && rounds >= |start.meta| {
        EvictionEnds(start.meta, last, meta, Mark(), cfg.evictionBatch, round);
      }
    }

    method EvictLoop(io: (nat, Key) -> RemoveIO, rounds: nat, ghost start: Cache, ghost spared: set<Key>)
      returns (ghost last: map<Key, Meta>, ghost done: nat)
      requires cfg.evictionBatch >= 1 && forall k :: k in spared ==> AlwaysBusy(io, k)
      requires Evicting(cfg, start, start.meta, State(), Mark(), 0, spared, NothingFails(io))
      modifies this`files, this`meta, this`total
      ensures Evicting(cfg, start, last, State(), Mark(), done, spared, NothingFails(io))
      ensures total <= Mark() || meta == map[] || done >= rounds
    {
      var round := 0;
      last := start.meta;
      while total > Mark() && round < rounds
        invariant round <= rounds && Mark() == old(Mark())
        invariant Evicting(cfg, start, last, State(), Mark(), round, spared, NothingFails(io))
        decreases rounds - round
      {
        if |meta| == 0 {
          break; // the query for the oldest rows finds none
        }
        ghost var now := meta;
        EvictTurn(io, round, start, last, spared);
        last := now;
        round := round + 1;
      }
      done := round;
    }
  }

  lemma EvictingBegins(cfg: Config, c: Cache, mark: int, spared: set<Key>, clean: bool)
    requires TotalAgrees(c)
    ensures Evicting(cfg, c, c.meta, c, mark, 0, spared, clean)
  {
  }

  /** What holds between the rounds of an eviction, and more where nothing fails. */
  ghost predicate Evicting(cfg: Config, start: Cache, last: map<Key, Meta>, now: Cache, mark: int, round: nat,
                           spared: set<Key>, clean: bool)
  {
    && TotalAgrees(now) && OnlyDropped(start.meta, now.meta) && FilesFollow(cfg, start, now, spared)
    && (clean ==> InProgress(start.meta, last, now.meta, mark, cfg.evictionBatch, round) && FilesExact(cfg, start, now))
  }

  lemma EvictingGoesOn(cfg: Config, start: Cache, last: map<Key, Meta>, before: Cache, after: Cache, mark: int,
                       round: nat, taken: nat, spared: set<Key>, clean: bool)
    requires Evicting(cfg, start, last, before, mark, round, spared, clean)
    requires cfg.evictionBatch >= 1 && before.total > mark && before.meta != map[]
    requires TotalAgrees(after) && OnlyDropped(before.meta, after.meta) && FilesFollow(cfg, before, after, spared)
    requires clean ==>
               && FilesExact(cfg, before, after) && OldestWent(before.meta, after.meta)
               && |after.meta| == |before.meta| - taken && taken <= cfg.evictionBatch
               && (taken == cfg.evictionBatch || after.meta == map[])
    ensures Evicting(cfg, start, before.meta, after, mark, round + 1, spared, clean)
  {
    FilesFollowTransitive(cfg, start, before, after, spared);
    if clean {
      RoundProgress(start.meta, last, before.meta, after.meta, mark, cfg.evictionBatch, round, taken);
      FilesExactTransitive(cfg, start, before, after, spared);
    }
  }

  /** The size of so many batches. */
  function Batches(rounds: nat, batch: nat): nat {
    if rounds == 0 then 0 else Batches(rounds - 1, batch) + batch
  }

  lemma {:induction false} BatchesIsProduct(rounds: nat, batch: nat)
    ensures Batches(rounds, batch) == rounds * batch
  {
    if rounds > 0 {
      BatchesIsProduct(rounds - 1, batch);
    }
  }

  /** What holds between the rounds of an eviction none of whose removals fails. */
  ghost predicate InProgress(before: map<Key, Meta>, last: map<Key, Meta>, now: map<Key, Meta>,
                             mark: int, batch: nat, round: nat)
  {
    && round + |now| <= |before|
    && OldestWent(before, now)
    && (now == map[] || |before| - |now| == Batches(round, batch))
    && (round > 0 ==> LastRound(before, last, now, mark, batch))
    && (round == 0 ==> now == before)
  }

  lemma EvictionEnds(before: map<Key, Meta>, last: map<Key, Meta>, now: map<Key, Meta>,
                     mark: int, batch: nat, round: nat)
    requires InProgress(before, last, now, mark, batch, round)
    requires SumSizes(now) <= mark || now == map[] || round >= |before|
    ensures EvictedTo(before, now, mark, batch)
    ensures mark >= 0 ==> SumSizes(now) <= mark
  {
    BatchesIsProduct(round, batch);
  }

  lemma RoundProgress(before: map<Key, Meta>, last: map<Key, Meta>, now: map<Key, Meta>, after: map<Key, Meta>,
                      mark: int, batch: nat, round: nat, taken: nat)
    requires InProgress(before, last, now, mark, batch, round)
    requires SumSizes(now) > mark && batch >= 1 && now != map[]
    requires OldestWent(now, after) && |after| == |now| - taken && taken <= batch && (taken == batch || after == map[])
    ensures InProgress(before, now, after, mark, batch, round + 1)
  {
    OldestWentTransitive(before, now, after);
    assert |now| > 0;
  }

  method SumQuery(meta: map<Key, Meta>) returns (sum: int)
    ensures sum == SumSizes(meta)
  {
    sum := 0;
    var rest := meta;
    while rest != map[]
      invariant sum + SumSizes(rest) == SumSizes(meta)
      decreases |rest|
    {
      var k :| k in rest;
      SumRemove(rest, k);
      sum := sum + rest[k].size;
      rest := rest - {k};
    }
  }

  /** Streams one object into a temporary file of the cache. */
  class StreamWriter {
    const c: DiskLRU
    const key: Key
    const contentType: string
    const tmp: nat
    var n: int
    var overflow: bool
    var failed: bool

    function View(): Writer
      reads this
    {
      Writer(key, contentType, tmp, n, overflow, failed)
    }

    constructor (c: DiskLRU, key: Key, contentType: string, tmp: nat)
      requires Temp(tmp) !in c.files
      modifies c`files
      ensures this.c == c && View() == Writer(key, contentType, tmp, 0, false, false)
      ensures c.files == old(c.files)[Temp(tmp) := ""] && Opened(c.files, View())
    {
      this.c, this.key, this.contentType, this.tmp := c, key, contentType, tmp;
      n, overflow, failed := 0, false, false;
      new;
      c.files := c.files[Temp(tmp) := ""];
    }

    /** Takes every byte from the caller, whatever the disk does. */
    method Write(ch: Chunk) returns (taken: nat)
      requires ValidChunk(ch) && Temp(tmp) in c.files
      modifies this, c`files
      ensures (c.files, View()) == WriteStep(old(c.files), old(View()), ch, c.cfg.maxFileBytes)
      ensures taken == |ch.bytes| && Temp(tmp) in c.files
    {
      taken := |ch.bytes|;
      if overflow || failed {
        return;
      }
      c.files := c.files[Temp(tmp) := c.files[Temp(tmp)] + ch.bytes[..ch.wrote]];
      n := n + ch.wrote;
      if ch.error {
        failed := true;
        return;
      }
      if n > c.cfg.maxFileBytes {
        overflow := true;
      }
    }

    /** Copies a whole stream, as io.Copy does. */
    method Copy(chunks: seq<Chunk>)
      requires Temp(tmp) in c.files && forall i :: 0 <= i < |chunks| ==> ValidChunk(chunks[i])
      modifies this, c`files
      ensures (c.files, View()) == WriteAll(old(c.files), old(View()), chunks, c.cfg.maxFileBytes)
    {
      for i := 0 to |chunks|
        invariant (c.files, View()) == WriteAll(old(c.files), old(View()), chunks[..i], c.cfg.maxFileBytes)
      {
        assert chunks[..i + 1][..i] == chunks[..i];
        var _ := Write(chunks[i]);
      }
      assert chunks[..|chunks|] == chunks;
    }

    /** Up to five attempts to move the temporary file into place. */
    method Rename(renames: seq<bool>) returns (ok: bool)
      ensures ok <==> exists i :: 0 <= i < RENAME_ATTEMPTS && i < |renames| && renames[i]
    {
      ok := false;
      var attempt := 0;
      while attempt < RENAME_ATTEMPTS && !ok
        invariant attempt <= RENAME_ATTEMPTS
        invariant ok ==> exists i :: 0 <= i < RENAME_ATTEMPTS && i < |renames| && renames[i]
        invariant !ok ==> forall i :: 0 <= i < attempt && i < |renames| ==> !renames[i]
        decreases RENAME_ATTEMPTS - attempt, !ok
      {
        if attempt < |renames| && renames[attempt] {
          ok := true;
        } else {
          attempt := attempt + 1;
        }
      }
    }

    /** Publishes the object, or only cleans up. */
    method Commit(io: CommitIO) returns (outcome: Outcome, evictionDue: bool)
      requires Temp(tmp) in c.files
      modifies c
      ensures (c.State(), outcome) == CommitStep(old(c.State()), c.cfg, View(), io)
      ensures c.maxBytes == old(c.maxBytes) && c.highWatermark == old(c.highWatermark)
      ensures evictionDue <==> outcome == Stored && c.total > c.Mark()
    {
      evictionDue := false;
      if overflow || failed || !io.closeOk {
        c.files := c.files - {Temp(tmp)};
        return NotStored, false;
      }
      var renamed := false;
      if io.mkdirOk {
        renamed := Rename(io.renames);
      }
      if !renamed {
        c.files := c.files - {Temp(tmp)};
        return Failed, false;
      }
      c.files := (c.files - {Temp(tmp)})[PathFor(c.cfg, key) := c.files[Temp(tmp)]];
      var oldSize := 0;
      if io.readOk && key in c.meta {
        oldSize := c.meta[key].size;
      }
      if !io.upsertOk {
        return Failed, false;
      }
      c.meta := c.meta[key := Meta(n, io.now, io.now, contentType)];
      c.total := c.total + (n - oldSize);
      outcome := Stored;
      evictionDue := c.total > c.Mark();
    }
  }

  /**
   * Writes a whole stream into the cache. Where nothing fails it is stored exactly when it fits, and then its
   * file is the stream; whatever fails, no file but its own and the temporary one is touched.
   */
  method Put(c: DiskLRU, key: Key, contentType: string, tmp: nat, chunks: seq<Chunk>, io: CommitIO)
    returns (outcome: Outcome, evictionDue: bool)
    requires Temp(tmp) !in c.files && c.cfg.maxFileBytes >= 0
    requires forall i :: 0 <= i < |chunks| ==> ValidChunk(chunks[i])
    modifies c
    ensures Temp(tmp) !in c.files
    ensures NoWriteErrors(chunks) && io.closeOk && io.mkdirOk && Renamed(io) && io.upsertOk ==>
              (outcome == Stored <==> |Concat(chunks)| <= c.cfg.maxFileBytes)
    ensures NoWriteErrors(chunks) && outcome == Stored ==>
              && PathFor(c.cfg, key) in c.files && c.files[PathFor(c.cfg, key)] == Concat(chunks)
              && key in c.meta && c.meta[key] == Meta(|Concat(chunks)|, io.now, io.now, contentType)
    ensures outcome != Stored ==> c.meta == old(c.meta) && c.total == old(c.total)
    ensures forall p :: p != Temp(tmp) && p != PathFor(c.cfg, key) ==>
              (p in c.files <==> p in old(c.files)) && (p in c.files ==> c.files[p] == old(c.files)[p])
  {
    var writer := new StreamWriter(c, key, contentType, tmp);
    ghost var start, w := c.State(), writer.View();
    writer.Copy(chunks);
    if NoWriteErrors(chunks) {
      StreamWrites(start.files, w, chunks, c.cfg.maxFileBytes);
    }
    WriterKeepsName(start.files, w, chunks, c.cfg.maxFileBytes);
    forall p | p != Temp(tmp)
      ensures (p in c.files <==> p in start.files) && (p in c.files ==> c.files[p] == start.files[p])
    {
      StreamKeepsOtherFiles(start.files, w, chunks, c.cfg.maxFileBytes, p);
    }
    outcome, evictionDue := writer.Commit(io);
  }

  lemma {:induction false} WriterKeepsName(files: map<Path, Bytes>, w: Writer, chunks: seq<Chunk>, maxFileBytes: int)
    requires Temp(w.tmp) in files && forall i :: 0 <= i < |chunks| ==> ValidChunk(chunks[i])
    ensures var after := WriteAll(files, w, chunks, maxFileBytes).1;
            after.key == w.key && after.contentType == w.contentType
  {
    if chunks != [] {
      WriterKeepsName(files, w, chunks[..|chunks| - 1], maxFileBytes);
    }
  }
}
