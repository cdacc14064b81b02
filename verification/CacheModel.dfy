/** The disk cache as a value: files, metadata rows and the running total, and what each operation does to them. */
module CacheModel {

  /** A Go byte slice. */
  type Bytes = string

  /** A hexadecimal SHA-256 hash. */
  type Key = k: string | |k| == 64 witness seq(64, _ => '0')

  datatype Layout = Sharded | Flat

  datatype Config = Config(dir: string, layout: Layout, maxFileBytes: int, evictionBatch: nat)

  datatype Path = Temp(id: nat) | Final(name: string)

  datatype Meta = Meta(size: int, atime: int, createdAt: int, contentType: string)

  datatype Cache = Cache(files: map<Path, Bytes>, meta: map<Key, Meta>, total: int)

  function PathFor(cfg: Config, key: Key): Path {
    Final(match cfg.layout
          case Flat => cfg.dir + "/" + key
          case Sharded => cfg.dir + "/" + key[..2] + "/" + key[2..4] + "/" + key)
  }

  // ----- the streaming writer -----

  /** A writer of one temporary file; n bytes of it are accounted for. */
  datatype Writer = Writer(key: Key, contentType: string, tmp: nat, n: int, overflow: bool, failed: bool)

  /** One chunk, of which the disk takes the first `wrote` bytes; fewer than all is an error. */
  datatype Chunk = Chunk(bytes: Bytes, wrote: nat, error: bool)

  predicate ValidChunk(ch: Chunk) {
    ch.wrote <= |ch.bytes| && (ch.wrote < |ch.bytes| ==> ch.error)
  }

  /** A chunk never fails for the sender: overflow and disk errors only stop the copying to disk. */
  function WriteStep(files: map<Path, Bytes>, w: Writer, ch: Chunk, maxFileBytes: int): (map<Path, Bytes>, Writer)
    requires ValidChunk(ch) && Temp(w.tmp) in files
  {
    if w.overflow || w.failed then (files, w)
    else
      var files' := files[Temp(w.tmp) := files[Temp(w.tmp)] + ch.bytes[..ch.wrote]];
      var n := w.n + ch.wrote;
      if ch.error then (files', w.(n := n, failed := true))
      else (files', w.(n := n, overflow := n > maxFileBytes))
  }

  function WriteAll(files: map<Path, Bytes>, w: Writer, chunks: seq<Chunk>, maxFileBytes: int)
    : (r: (map<Path, Bytes>, Writer))
    requires Temp(w.tmp) in files && forall i :: 0 <= i < |chunks| ==> ValidChunk(chunks[i])
    ensures r.1.tmp == w.tmp && Temp(w.tmp) in r.0
  {
    if chunks == [] then (files, w)
    else
      var before := WriteAll(files, w, chunks[..|chunks| - 1], maxFileBytes);
      WriteStep(before.0, before.1, chunks[|chunks| - 1], maxFileBytes)
  }

  // ----- commit -----

  /** What the system calls and statements of one Commit answer; readOk is the read of the old size. */
  datatype CommitIO = CommitIO(closeOk: bool, mkdirOk: bool, renames: seq<bool>, readOk: bool, upsertOk: bool, now: int)

  const RENAME_ATTEMPTS: nat := 5

  predicate Renamed(io: CommitIO) {
    exists i :: 0 <= i < RENAME_ATTEMPTS && i < |io.renames| && io.renames[i]
  }

  datatype Outcome = Stored | NotStored | Failed

  predicate Publishes(w: Writer, io: CommitIO) {
    !w.overflow && !w.failed && io.closeOk && io.mkdirOk && Renamed(io)
  }

  /** The temporary file either becomes the entry's file or goes away; the row follows the file. */
  function CommitStep(c: Cache, cfg: Config, w: Writer, io: CommitIO): (Cache, Outcome)
    requires Temp(w.tmp) in c.files
  {
    if !Publishes(w, io) then
      (c.(files := c.files - {Temp(w.tmp)}),
       if w.overflow || w.failed || !io.closeOk then NotStored else Failed)
    else
      var files := (c.files - {Temp(w.tmp)})[PathFor(cfg, w.key) := c.files[Temp(w.tmp)]];
      if !io.upsertOk then (c.(files := files), Failed)
      else
        var oldSize := if io.readOk && w.key in c.meta then c.meta[w.key].size else 0;
        (Cache(files, c.meta[w.key := Meta(w.n, io.now, io.now, w.contentType)], c.total + (w.n - oldSize)), Stored)
  }

  // ----- get -----

  datatype GetIO = GetIO(readOk: bool, openError: bool, deleteOk: bool, touchOk: bool, now: int)

  datatype GetResult = Hit(bytes: Bytes, meta: Meta) | Miss | GetError

  /** A row without its file is dropped and counts as a miss; a hit refreshes the access time. */
  function GetStep(c: Cache, cfg: Config, key: Key, io: GetIO): (Cache, GetResult) {
    if !io.readOk then (c, GetError)
    else if key !in c.meta then (c, Miss)
    else if io.openError then (c, GetError)
    else if PathFor(cfg, key) !in c.files then
      (if io.deleteOk then c.(meta := c.meta - {key}, total := c.total - c.meta[key].size) else c, Miss)
    else
      (if io.touchOk then c.(meta := c.meta[key := c.meta[key].(atime := io.now)]) else c,
       Hit(c.files[PathFor(cfg, key)], c.meta[key]))
  }

  // ----- eviction -----

  /** A file that cannot be removed, and a row that cannot be deleted. */
  datatype RemoveIO = RemoveIO(busy: bool, deleteOk: bool)

  const REMOVES := RemoveIO(false, true)

  datatype Entry = Entry(key: Key, size: int)

  function EvictOne(c: Cache, cfg: Config, e: Entry, io: RemoveIO): Cache {
    if io.busy then c
    else
      var gone := c.(files := c.files - {PathFor(cfg, e.key)});
      if !io.deleteOk then gone
      else gone.(meta := c.meta - {e.key}, total := c.total - e.size)
  }

  function EvictBatch(c: Cache, cfg: Config, batch: seq<Entry>, io: Key -> RemoveIO): Cache {
    if batch == [] then c
    else
      var last := batch[|batch| - 1];
      EvictOne(EvictBatch(c, cfg, batch[..|batch| - 1], io), cfg, last, io(last.key))
  }

  function Atimes(meta: map<Key, Meta>): map<Key, int> {
    map k | k in meta :: meta[k].atime
  }

  function Entries(meta: map<Key, Meta>, keys: seq<Key>): seq<Entry>
    requires forall i :: 0 <= i < |keys| ==> keys[i] in meta
  {
    seq(|keys|, i requires 0 <= i < |keys| => Entry(keys[i], meta[keys[i]].size))
  }

  /** int64(x) of a float64: towards zero. */
  function Truncate(x: real): int {
    if x >= 0.0 then x.Floor else -((-x).Floor)
  }

  function Watermark(highWatermark: real, maxBytes: int): int {
    Truncate(highWatermark * maxBytes as real)
  }

  // ----- the sum of the rows -----

  /** The total of the sizes over all metadata rows. */
  ghost function SumSizes(meta: map<Key, Meta>): int {
    if meta == map[] then 0
    else
      var k :| k in meta;
      meta[k].size + SumSizes(meta - {k})
  }

  lemma {:induction false} SumRemove(meta: map<Key, Meta>, key: Key)
    requires key in meta
    ensures SumSizes(meta) == meta[key].size + SumSizes(meta - {key})
    decreases |meta|
  {
    var k :| k in meta && SumSizes(meta) == meta[k].size + SumSizes(meta - {k});
    if k != key {
      SumRemove(meta - {k}, key);
      SumRemove(meta - {key}, k);
      assert meta - {k} - {key} == meta - {key} - {k};
    }
  }

  lemma SumUpdate(meta: map<Key, Meta>, key: Key, m: Meta)
    ensures SumSizes(meta[key := m]) == SumSizes(meta - {key}) + m.size
    ensures SumSizes(meta[key := m]) == SumSizes(meta) + m.size - if key in meta then meta[key].size else 0
  {
    SumRemove(meta[key := m], key);
    assert meta[key := m] - {key} == meta - {key};
    if key in meta {
      SumRemove(meta, key);
    } else {
      assert meta - {key} == meta;
    }
  }

  /** The watermark is the product without its fraction. */
  lemma WatermarkExact(highWatermark: real, maxBytes: int)
    ensures var exact := highWatermark * maxBytes as real;
            var mark := Watermark(highWatermark, maxBytes) as real;
            if exact >= 0.0 then mark <= exact < mark + 1.0 else mark - 1.0 < exact <= mark
  {
  }

  /** Where a file lies: under its key, in the directory itself or two levels down. */
  lemma PathForExact(cfg: Config, key: Key)
    ensures cfg.layout == Flat ==> PathFor(cfg, key) == Final(cfg.dir + "/" + key)
    ensures cfg.layout == Sharded ==>
              exists a, b :: |a| == |b| == 2 && a + b <= key
                             && PathFor(cfg, key) == Final(cfg.dir + "/" + a + "/" + b + "/" + key)
  {
    var a, b := key[..2], key[2..4];
    assert a + b <= key;
  }
}
