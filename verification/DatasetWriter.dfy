/**
 The dataset writer of lib/parquex/dataset/writer.ex: rows arrive in any order and
 are routed into at most `maxOpen` open parts, which rotate on rows or bytes and
 are evicted least recently used first.

 The server's own state is immutable data that each helper maps to new data. What
 it does to the store is not: a published object stays even when the helper that
 published it returns an error and its state is dropped. `World` holds that
 outside part. Whether an operation on the outside fails is decided by
 `env.faults`, and whether a failing close has made its object visible all the same
 by `env.unheard`; both are arbitrary. So is `env.encodes`, which says whether the values
 of a row can be encoded for the schema's types.
 */
module DatasetWriter {
  import opened Text
  import opened Sequences
  import opened Rows
  import opened Datasets
  import P = TimePartition

  // ---------- Configuration ----------

  datatype Settings = Settings(maxOpen: nat, maxRows: nat, maxBytes: nat, batchRows: nat) {
    /** `settings/1` accepts only positive bounds. */
    predicate Valid() {
      maxOpen > 0 && maxRows > 0 && maxBytes > 0 && batchRows > 0
    }
  }

  datatype Env = Env(
    dataset: Dataset,
    settings: Settings,
    faults: nat -> bool,
    unheard: nat -> bool,
    encodes: Row -> bool,
    rowBytes: Row -> nat,
    fileBytes: File -> nat
  )

  // ---------- State ----------

  datatype Entry = Entry(
    writer: nat,
    key: string,
    partition: string,
    rows: nat,
    bytes: nat,
    buffer: seq<Row>,
    minTimestamp: int,
    maxTimestamp: int,
    access: nat
  )

  datatype Part = Part(
    key: string,
    partition: string,
    rows: nat,
    size: nat,
    minTimestamp: int,
    maxTimestamp: int
  )

  datatype Report = Report(parts: seq<Part>, rows: nat, bytes: nat)

  /** The server's state; `reports` holds the newest part first. */
  datatype State = State(active: map<string, Entry>, access: nat, reports: seq<Part>)

  /**
   The outside: published objects, staged writers with the batches they have accepted,
   the number of writers opened and operations done so far, and the largest number of
   writers that were ever open at once. Writers are numbered, and the number also makes
   the part name unique.
   */
  datatype World = World(
    store: map<string, File>,
    open: map<nat, File>,
    writers: nat,
    operations: nat,
    peak: nat
  )

  datatype Error =
    | TimestampMissing
    | TimestampNull
    | TimestampInvalid
    | RowsInvalid
    | StoreFailed
    | PublishFailed(published: Report)

  datatype Result<+T> = Ok(value: T) | Err(error: Error)

  datatype Outcome = Outcome(result: Result<State>, world: World)

  const INITIAL: State := State(map[], 0, [])

  // ---------- The store, seen through Parquex.Writer ----------

  predicate Fails(env: Env, w: World) {
    env.faults(w.operations)
  }

  function Tick(w: World): World {
    w.(operations := w.operations + 1)
  }

  /** A part name is unique and lies directly in its directory. */
  function PartName(n: nat): (name: string)
    ensures '/' !in name && EndsWith(name, ".parquet")
  {
    ShowIntLacks(n, '/');
    var name := "part-" + ShowInt(n) + ".parquet";
    assert name[|name| - 8..] == ".parquet";
    name
  }

  lemma PartNameInjective(m: nat, n: nat)
    requires PartName(m) == PartName(n)
    ensures m == n
  {
    var a, b := PartName(m), PartName(n);
    assert a[5..|a| - 8] == ShowInt(m) && b[5..|b| - 8] == ShowInt(n);
    ShowIntInjective(m, n);
  }

  function PartKey(dataset: Dataset, path: string, n: nat): string {
    dataset.prefix + path + "/" + PartName(n)
  }

  /** `Parquex.Writer.open`. */
  function OpenFile(env: Env, w: World): (bool, World) {
    var w' := Tick(w).(writers := w.writers + 1);
    if Fails(env, w) then (false, w')
    else
      var open := w.open[w.writers := []];
      (true, w'.(open := open, peak := if |open| > w.peak then |open| else w.peak))
  }

  /** `Parquex.Writer.write_batch` over a list, stopping at the first failure. */
  function WriteBatches(env: Env, w: World, writer: nat, batches: seq<seq<Row>>): (bool, World)
    requires writer in w.open
    decreases |batches|
  {
    if batches == [] then (true, w)
    else if Fails(env, w) then (false, Tick(w))
    else WriteBatches(env, Tick(w).(open := w.open[writer := w.open[writer] + [batches[0]]]), writer, batches[1..])
  }

  /**
   `Parquex.Writer.close`: publish the staged batches, or discard them on failure. A remote
   close can also fail after its upload was completed, and then the object is visible.
   */
  function CloseFile(env: Env, w: World, writer: nat, key: string): (bool, World)
    requires writer in w.open
  {
    var closed := Tick(w).(open := w.open - {writer});
    var visible := closed.(store := w.store[key := w.open[writer]]);
    if !Fails(env, w) then (true, visible)
    else (false, if env.unheard(w.operations) then visible else closed)
  }

  // ---------- Rows ----------

  /** `fetch_timestamp`. */
  function FetchTimestamp(row: Row, column: string): Result<int> {
    if column !in row then Err(TimestampMissing)
    else match row[column]
      case Null => Err(TimestampNull)
      case Int(n) => if IsI64(n) then Ok(n) else Err(TimestampInvalid)
      case _ => Err(TimestampInvalid)
  }

  datatype Located = Located(partition: P.Partition, datetime: int)

  /** The partition of a row, and its time as a DateTime, which counts whole microseconds. */
  function Locate(dataset: Dataset, row: Row): Result<Located> {
    var timestamp := FetchTimestamp(row, dataset.column);
    if timestamp.Err? then Err(timestamp.error)
    else
      var instant := P.InstantOf(dataset.window, timestamp.value, dataset.unit);
      var partition := P.PartitionFor(dataset.window, timestamp.value, dataset.unit, dataset.granularity);
      if instant.Err? || partition.Err? then Err(TimestampInvalid)
      else Ok(Located(partition.value, instant.value / 1000))
  }

  /** The row has exactly the schema's names, and values that can be encoded. */
  predicate RowFits(env: Env, row: Row) {
    row.Keys == (set name | name in env.dataset.names) && env.encodes(row)
  }

  /** `Input.batches`. */
  function InputBatches(env: Env, rows: seq<Row>): Result<seq<seq<Row>>>
    requires env.settings.Valid()
  {
    if exists row :: row in rows && !RowFits(env, row) then Err(RowsInvalid)
    else if rows == [] then Ok([[]])
    else Ok(Chunk(rows, env.settings.batchRows))
  }

  // ---------- The least recently used part ----------

  /** Stamps are distinct and none is newer than the counter. */
  predicate Stamped(s: State) {
    && (forall p :: p in s.active ==> s.active[p].access <= s.access)
    && (forall p, q :: p in s.active && q in s.active && p != q ==> s.active[p].access != s.active[q].access)
  }

  predicate Oldest(active: map<string, Entry>, path: string) {
    path in active && forall q :: q in active ==> active[path].access <= active[q].access
  }

  lemma OldestExists(active: map<string, Entry>)
    requires active != map[]
    ensures exists p :: Oldest(active, p)
    decreases |active|
  {
    var p :| p in active;
    if !Oldest(active, p) {
      var q :| q in active && active[q].access < active[p].access;
      var rest := active - {p};
      assert q in rest;
      OldestExists(rest);
      var o :| Oldest(rest, o);
      assert forall k :: k in active ==> k == p || (k in rest && rest[k] == active[k]);
      assert Oldest(active, o);
    }
  }

  /** `Enum.min_by(active, & &1.access)`. */
  function LeastRecent(s: State): (path: string)
    requires Stamped(s) && s.active != map[]
    ensures Oldest(s.active, path)
  {
    OldestExists(s.active);
    var path :| Oldest(s.active, path);
    path
  }

  // ---------- Helpers of the server ----------

  /** Open parts are stamped, and each has a staged writer of its own. */
  ghost predicate Ready(env: Env, s: State, w: World) {
    && env.settings.Valid()
    && Stamped(s)
    && (forall n :: n in w.open ==> n < w.writers)
    && (forall p :: p in s.active ==> s.active[p].writer in w.open)
    && (forall p, q :: p in s.active && q in s.active && p != q ==> s.active[p].writer != s.active[q].writer)
  }

  /** `flush_entry`. */
  function FlushEntry(env: Env, s: State, w: World, path: string): Outcome
    requires env.settings.Valid() && path in s.active && s.active[path].writer in w.open
  {
    var entry := s.active[path];
    if entry.buffer == [] then Outcome(Ok(s), w)
    else
      var batches := InputBatches(env, Reverse(entry.buffer));
      if batches.Err? then Outcome(Err(batches.error), w)
      else
        var (written, w') := WriteBatches(env, w, entry.writer, batches.value);
        if !written then Outcome(Err(StoreFailed), w')
        else Outcome(Ok(s.(active := s.active[path := entry.(buffer := [])])), w')
  }

  /** `publish_entry`. */
  function PublishEntry(env: Env, s: State, w: World, path: string): Outcome
    requires env.settings.Valid() && path in s.active && s.active[path].writer in w.open
  {
    var flushed := FlushEntry(env, s, w, path);
    FlushFacts(env, s, w, path);
    if flushed.result.Err? then flushed
    else
      var s' := flushed.result.value;
      var entry := s'.active[path];
      var (closed, w') := CloseFile(env, flushed.world, entry.writer, entry.key);
      if !closed then Outcome(Err(PublishFailed(MakeReport(s'.reports))), w')
      else
        var part := Part(entry.key, entry.partition, entry.rows, env.fileBytes(flushed.world.open[entry.writer]),
                         entry.minTimestamp, entry.maxTimestamp);
        Outcome(Ok(s'.(active := s'.active - {path}, reports := [part] + s'.reports)), w')
  }

  /** `open_entry`. */
  function OpenEntry(env: Env, s: State, w: World, path: string, datetime: int): Outcome {
    var key := PartKey(env.dataset, path, w.writers);
    var (created, w') := OpenFile(env, w);
    if !created then Outcome(Err(StoreFailed), w')
    else
      var entry := Entry(w.writers, key, path, 0, 0, [], datetime, datetime, s.access + 1);
      Outcome(Ok(s.(active := s.active[path := entry], access := s.access + 1)), w')
  }

  function AppendedEntry(env: Env, e: Entry, access: nat, datetime: int, row: Row): Entry {
    e.(rows := e.rows + 1,
       bytes := e.bytes + env.rowBytes(row),
       buffer := [row] + e.buffer,
       minTimestamp := if e.minTimestamp > datetime then datetime else e.minTimestamp,
       maxTimestamp := if e.maxTimestamp < datetime then datetime else e.maxTimestamp,
       access := access)
  }

  /** `append_row`. */
  function AppendRow(env: Env, s: State, w: World, path: string, datetime: int, row: Row): Outcome
    requires env.settings.Valid() && path in s.active && s.active[path].writer in w.open
  {
    var entry := AppendedEntry(env, s.active[path], s.access + 1, datetime, row);
    var s' := s.(active := s.active[path := entry], access := s.access + 1);
    if |entry.buffer| >= env.settings.batchRows then FlushEntry(env, s', w, path)
    else Outcome(Ok(s'), w)
  }

  /** `make_room`. */
  function MakeRoom(env: Env, s: State, w: World): Outcome
    requires Ready(env, s, w)
  {
    if |s.active| < env.settings.maxOpen then Outcome(Ok(s), w)
    else PublishEntry(env, s, w, LeastRecent(s))
  }

  /** The open part that the row would overfill. */
  predicate Full(env: Env, e: Entry, row: Row) {
    e.rows > 0 &&
    (e.rows + 1 > env.settings.maxRows || e.bytes + env.rowBytes(row) > env.settings.maxBytes)
  }

  /** `ensure_entry`. */
  function EnsureEntry(env: Env, s: State, w: World, path: string, datetime: int, row: Row): Outcome
    requires Ready(env, s, w)
  {
    if path in s.active && !Full(env, s.active[path], row) then Outcome(Ok(s), w)
    else
      var room := if path in s.active then PublishEntry(env, s, w, path) else MakeRoom(env, s, w);
      if room.result.Err? then room
      else OpenEntry(env, room.result.value, room.world, path, datetime)
  }

  /** `route_row`. */
  function RouteRow(env: Env, s: State, w: World, row: Row): Outcome
    requires Ready(env, s, w)
  {
    var located := Locate(env.dataset, row);
    if located.Err? then Outcome(Err(located.error), w)
    else
      var path, datetime := located.value.partition.path, located.value.datetime;
      var ensured := EnsureEntry(env, s, w, path, datetime, row);
      EnsureFacts(env, s, w, path, datetime, row);
      if ensured.result.Err? then ensured
      else AppendRow(env, ensured.result.value, ensured.world, path, datetime, row)
  }

  /** `route_rows`: the rows in order, up to the first error. */
  function RouteRows(env: Env, s: State, w: World, rows: seq<Row>): Outcome
    requires Ready(env, s, w)
    decreases |rows|
  {
    if rows == [] then Outcome(Ok(s), w)
    else
      var first := RouteRow(env, s, w, rows[0]);
      RouteFacts(env, s, w, rows[0]);
      if first.result.Err? then first
      else RouteRows(env, first.result.value, first.world, rows[1..])
  }

  /** The open partitions, least recently used first: `Enum.sort_by(active, & &1.access)`. */
  function PathsByAge(s: State): (paths: seq<string>)
    requires Stamped(s)
    decreases |s.active|
  {
    if s.active == map[] then []
    else
      var path := LeastRecent(s);
      [path] + PathsByAge(s.(active := s.active - {path}))
  }

  /** The paths are exactly the open ones, in increasing order of their stamps. */
  ghost predicate AgeOrder(active: map<string, Entry>, paths: seq<string>) {
    && |paths| == |active|
    && (forall i :: 0 <= i < |paths| ==> paths[i] in active)
    && (forall i, j :: 0 <= i < j < |paths| ==> active[paths[i]].access < active[paths[j]].access)
  }

  lemma {:induction false} PathsByAgeFacts(s: State)
    requires Stamped(s)
    ensures AgeOrder(s.active, PathsByAge(s))
    decreases |s.active|
  {
    if s.active != map[] {
      var path := LeastRecent(s);
      var rest := s.(active := s.active - {path});
      PathsByAgeFacts(rest);
      OldestFirst(s, path, PathsByAge(rest));
    }
  }

  lemma OldestFirst(s: State, path: string, tail: seq<string>)
    requires Stamped(s) && Oldest(s.active, path) && AgeOrder(s.active - {path}, tail)
    ensures AgeOrder(s.active, [path] + tail)
  {
    var paths := [path] + tail;
    OthersInOrder(s.active, path, tail);
    forall i | 0 <= i < |tail| ensures s.active[path].access < s.active[tail[i]].access {
      assert tail[i] in s.active && tail[i] != path;
    }
    hide Stamped, Oldest;
    forall i, j | 0 <= i < j < |paths| ensures s.active[paths[i]].access < s.active[paths[j]].access {
      assert paths[j] == tail[j - 1] && (i > 0 ==> paths[i] == tail[i - 1]);
    }
  }

  lemma OthersInOrder(active: map<string, Entry>, path: string, tail: seq<string>)
    requires path in active && AgeOrder(active - {path}, tail)
    ensures |tail| + 1 == |active|
    ensures forall i :: 0 <= i < |tail| ==> tail[i] in active && tail[i] != path
    ensures forall i, j :: 0 <= i < j < |tail| ==> active[tail[i]].access < active[tail[j]].access
  {
    var rest := active - {path};
    assert rest.Keys == active.Keys - {path};
    assert forall i :: 0 <= i < |tail| ==> tail[i] in rest && rest[tail[i]] == active[tail[i]];
  }

  /** `close_all`, given the paths to publish. On failure the state is the one before the failing part. */
  function PublishAll(env: Env, s: State, w: World, paths: seq<string>): (Outcome, State)
    requires Ready(env, s, w)
    requires forall i :: 0 <= i < |paths| ==> paths[i] in s.active
    requires forall i, j :: 0 <= i < j < |paths| ==> paths[i] != paths[j]
    decreases |paths|
  {
    if paths == [] then (Outcome(Ok(s), w), s)
    else
      var first := PublishEntry(env, s, w, paths[0]);
      PublishFacts(env, s, w, paths[0]);
      if first.result.Err? then (first, s)
      else PublishAll(env, first.result.value, first.world, paths[1..])
  }

  /** `report`: the parts in the order in which they were published. */
  function MakeReport(reports: seq<Part>): Report {
    var parts := Reverse(reports);
    Report(parts, Sum(Map((p: Part) => p.rows, parts)), Sum(Map((p: Part) => p.size, parts)))
  }

  /** `cancel_all`: discard the staged writers of the open parts. */
  function CancelAll(s: State, w: World): (State, World) {
    (s.(active := map[]), w.(open := w.open - (set p | p in s.active :: s.active[p].writer)))
  }

  // ---------- What each helper changes ----------

  lemma {:induction false} WriteFacts(env: Env, w: World, writer: nat, batches: seq<seq<Row>>)
    requires writer in w.open
    ensures var (written, w') := WriteBatches(env, w, writer, batches);
            && w'.store == w.store && w'.writers == w.writers && w'.peak == w.peak
            && w'.open.Keys == w.open.Keys
            && w'.open == w.open[writer := w'.open[writer]]
            && (written ==> w'.open[writer] == w.open[writer] + batches)
    decreases |batches|
  {
    if batches == [] {
      assert w.open[writer] + batches == w.open[writer];
    } else if !Fails(env, w) {
      var w1 := Tick(w).(open := w.open[writer := w.open[writer] + [batches[0]]]);
      WriteFacts(env, w1, writer, batches[1..]);
      assert w1.open[writer] + batches[1..] == w.open[writer] + batches;
    }
  }

  /** The rows of an open part: those already in its staged writer, then the buffered ones. */
  function Contents(w: World, e: Entry): seq<Row>
    requires e.writer in w.open
  {
    Flatten(w.open[e.writer]) + Reverse(e.buffer)
  }

  /** Batches are not empty, within the bound, and of rows that fit the schema. */
  predicate BatchesFit(env: Env, file: File) {
    forall b :: b in file ==> 1 <= |b| <= env.settings.batchRows && forall row :: row in b ==> RowFits(env, row)
  }

  lemma ChunksFit(env: Env, rows: seq<Row>, n: nat)
    requires 0 < n <= env.settings.batchRows && forall row :: row in rows ==> RowFits(env, row)
    ensures BatchesFit(env, Chunk(rows, n))
  {
    hide RowFits;
    ChunkElements(rows, n);
  }

  /** Flushing moves the buffer into the staged writer and changes nothing else. */
  lemma FlushFacts(env: Env, s: State, w: World, path: string)
    requires env.settings.Valid() && path in s.active && s.active[path].writer in w.open
    ensures var o := FlushEntry(env, s, w, path);
            var e := s.active[path];
            && o.world.store == w.store && o.world.writers == w.writers && o.world.peak == w.peak
            && o.world.open.Keys == w.open.Keys
            && o.world.open == w.open[e.writer := o.world.open[e.writer]]
            && (o.result.Ok? ==>
                  && o.result.value == s.(active := s.active[path := e.(buffer := [])])
                  && Flatten(o.world.open[e.writer]) == Contents(w, e)
                  && (BatchesFit(env, w.open[e.writer]) ==> BatchesFit(env, o.world.open[e.writer])))
  {
    var e := s.active[path];
    if e.buffer != [] {
      var batches := InputBatches(env, Reverse(e.buffer));
      if batches.Ok? {
        ChunksFit(env, Reverse(e.buffer), env.settings.batchRows);
        WriteFacts(env, w, e.writer, batches.value);
        FlattenAppend(w.open[e.writer], batches.value);
      }
    } else {
      assert s.active == s.active[path := e.(buffer := [])];
      assert Flatten(w.open[e.writer]) + [] == Flatten(w.open[e.writer]);
    }
  }

  /** A published part, in terms of the entry it comes from. */
  function PartOf(env: Env, e: Entry, file: File): Part {
    Part(e.key, e.partition, e.rows, env.fileBytes(file), e.minTimestamp, e.maxTimestamp)
  }

  /** Publishing the part makes its object visible, whatever it answers. */
  predicate Surfaces(env: Env, s: State, w: World, path: string)
    requires env.settings.Valid() && path in s.active && s.active[path].writer in w.open
  {
    var flushed := FlushEntry(env, s, w, path);
    FlushFacts(env, s, w, path);
    flushed.result.Ok? && (!Fails(env, flushed.world) || env.unheard(flushed.world.operations))
  }

  /**
   Publishing turns one open part into one reported and stored part; nothing else changes. A
   publish that fails reports nothing, and has stored either nothing or the whole part.
   */
  lemma PublishFacts(env: Env, s: State, w: World, path: string)
    requires Ready(env, s, w) && path in s.active
    ensures var o := PublishEntry(env, s, w, path);
            var e := s.active[path];
            && o.world.writers == w.writers && o.world.peak == w.peak
            && (!Surfaces(env, s, w, path) ==> o.result.Err? && o.world.store == w.store)
            && (Surfaces(env, s, w, path) ==>
                  && e.key in o.world.store
                  && var file := o.world.store[e.key];
                  && o.world.store == w.store[e.key := file]
                  && Flatten(file) == Contents(w, e)
                  && (BatchesFit(env, w.open[e.writer]) ==> BatchesFit(env, file)))
            && (o.result.Ok? ==>
                  && Surfaces(env, s, w, path)
                  && o.world.open == w.open - {e.writer}
                  && o.result.value ==
                     State(s.active - {path}, s.access, [PartOf(env, e, o.world.store[e.key])] + s.reports)
                  && Ready(env, o.result.value, o.world))
  {
    hide Flatten, Reverse, FlushEntry, Stamped;
    FlushFacts(env, s, w, path);
    var o := PublishEntry(env, s, w, path);
    if o.result.Ok? {
      var flushed := FlushEntry(env, s, w, path);
      var e := s.active[path];
      assert flushed.result.value.active - {path} == s.active - {path};
      assert flushed.world.open - {e.writer} == w.open - {e.writer};
      RemoveReady(env, s, w, path, o.result.value, o.world);
    }
  }

  lemma RemoveReady(env: Env, s: State, w: World, path: string, s': State, w': World)
    requires Ready(env, s, w) && path in s.active
    requires s'.active == s.active - {path} && s'.access == s.access
    requires w'.open == w.open - {s.active[path].writer} && w'.writers == w.writers
    ensures Ready(env, s', w')
  {
    assert forall p :: p in s'.active ==> p in s.active && p != path && s'.active[p] == s.active[p];
  }

  /** Opening adds an empty part under a fresh writer. */
  lemma OpenFacts(env: Env, s: State, w: World, path: string, datetime: int)
    requires Ready(env, s, w) && path !in s.active
    ensures var o := OpenEntry(env, s, w, path, datetime);
            var key := PartKey(env.dataset, path, w.writers);
            var e := Entry(w.writers, key, path, 0, 0, [], datetime, datetime, s.access + 1);
            && o.world.store == w.store && o.world.writers == w.writers + 1
            && (o.result.Ok? ==>
                  && o.result.value == State(s.active[path := e], s.access + 1, s.reports)
                  && o.world.open == w.open[w.writers := []]
                  && o.world.peak == (if |o.world.open| > w.peak then |o.world.open| else w.peak)
                  && Ready(env, o.result.value, o.world))
  {
    hide PartKey, Ready, OpenEntry;
    OpenShape(env, s, w, path, datetime);
    var o := OpenEntry(env, s, w, path, datetime);
    if o.result.Ok? {
      OpenReady(env, s, w, path, o.result.value.active[path], o.result.value, o.world);
    }
  }

  lemma OpenReady(env: Env, s: State, w: World, path: string, e: Entry, s': State, w': World)
    requires Ready(env, s, w) && path !in s.active
    requires s' == State(s.active[path := e], s.access + 1, s.reports) && e.access == s.access + 1
    requires e.writer == w.writers && w'.open == w.open[w.writers := []] && w'.writers == w.writers + 1
    ensures Ready(env, s', w')
  {
    hide Ready;
    assert w'.open.Keys == w.open.Keys + {w.writers};
    PutReady(env, s, w, path, s', w');
  }

  lemma OpenShape(env: Env, s: State, w: World, path: string, datetime: int)
    ensures var o := OpenEntry(env, s, w, path, datetime);
            var e := Entry(w.writers, PartKey(env.dataset, path, w.writers), path, 0, 0, [], datetime, datetime,
                s.access + 1);
            && o.world.store == w.store && o.world.writers == w.writers + 1
            && (o.result.Ok? ==>
                  && o.result.value == State(s.active[path := e], s.access + 1, s.reports)
                  && o.world.open == w.open[w.writers := []]
                  && o.world.peak == (if |o.world.open| > w.peak then |o.world.open| else w.peak))
  {
    hide PartKey, Fails;
  }

  /** Putting an entry with the newest stamp, and either its old writer or a fresh one. */
  lemma PutReady(env: Env, s: State, w: World, path: string, s': State, w': World)
    requires Ready(env, s, w)
    requires path in s'.active && s'.active == s.active[path := s'.active[path]] && s'.access == s.access + 1
    requires s'.active[path].access == s'.access
    requires var n := s'.active[path].writer;
             && n in w'.open
             && (w'.open.Keys == w.open.Keys || w'.open.Keys == w.open.Keys + {n})
             && ((path in s.active && n == s.active[path].writer && w'.writers == w.writers)
                 || (n == w.writers && w'.writers == w.writers + 1))
    ensures Ready(env, s', w')
  {
    PutStamped(s, path, s');
    hide Stamped;
    var n := s'.active[path].writer;
    forall p | p in s'.active && p != path
      ensures p in s.active && s'.active[p] == s.active[p] && s.active[p].writer in w'.open && s.active[p].writer != n
    {
      assert s.active[p].writer in w.open.Keys && s.active[p].writer < w.writers;
      assert s.active[p].writer in w'.open.Keys;
    }
    forall m | m in w'.open ensures m < w'.writers {
      assert m in w'.open.Keys;
    }
  }

  lemma PutStamped(s: State, path: string, s': State)
    requires Stamped(s)
    requires path in s'.active && s'.active == s.active[path := s'.active[path]] && s'.access == s.access + 1
    requires s'.active[path].access == s'.access
    ensures Stamped(s')
  {
    assert forall p :: p in s'.active && p != path ==> p in s.active && s'.active[p] == s.active[p];
  }

  /** Appending adds the row at the end of the open part, stamps it as newest, and may flush its buffer. */
  lemma AppendFacts(env: Env, s: State, w: World, path: string, datetime: int, row: Row)
    requires Ready(env, s, w) && path in s.active
    ensures var o := AppendRow(env, s, w, path, datetime, row);
            var e := s.active[path];
            && o.world.store == w.store && o.world.writers == w.writers && o.world.peak == w.peak
            && o.world.open.Keys == w.open.Keys
            && o.world.open == w.open[e.writer := o.world.open[e.writer]]
            && (o.result.Ok? ==>
                  && path in o.result.value.active
                  && (var e' := o.result.value.active[path];
                      && o.result.value == State(s.active[path := e'], s.access + 1, s.reports)
                      && e' == AppendedEntry(env, e, s.access + 1, datetime, row).(buffer := e'.buffer)
                      && Contents(o.world, e') == Contents(w, e) + [row]
                      && |e'.buffer| < env.settings.batchRows
                      && (BatchesFit(env, w.open[e.writer]) ==> BatchesFit(env, o.world.open[e.writer])))
                  && Ready(env, o.result.value, o.world))
  {
    hide Flatten, Reverse, FlushEntry, BatchesFit, Stamped;
    ReversePrepend(row, s.active[path].buffer);
    var e := s.active[path];
    var entry := AppendedEntry(env, e, s.access + 1, datetime, row);
    var s' := State(s.active[path := entry], s.access + 1, s.reports);
    assert Contents(w, entry) == Contents(w, e) + [row];
    if |entry.buffer| >= env.settings.batchRows {
      FlushFacts(env, s', w, path);
      var o := FlushEntry(env, s', w, path);
      if o.result.Ok? {
        assert s'.active[path := entry.(buffer := [])] == s.active[path := entry.(buffer := [])];
        NothingBuffered(o.world, entry.(buffer := []));
        PutReady(env, s, w, path, o.result.value, o.world);
      }
    } else {
      PutReady(env, s, w, path, s', w);
    }
  }

  lemma NothingBuffered(w: World, e: Entry)
    requires e.writer in w.open && e.buffer == []
    ensures Contents(w, e) == Flatten(w.open[e.writer])
  {
  }

  lemma EnsureFacts(env: Env, s: State, w: World, path: string, datetime: int, row: Row)
    requires Ready(env, s, w)
    ensures var o := EnsureEntry(env, s, w, path, datetime, row);
            o.result.Ok? ==> Ready(env, o.result.value, o.world) && path in o.result.value.active
  {
    hide PublishEntry, OpenEntry;
    if path !in s.active || Full(env, s.active[path], row) {
      if path in s.active {
        PublishFacts(env, s, w, path);
      } else if |s.active| >= env.settings.maxOpen {
        PublishFacts(env, s, w, LeastRecent(s));
      }
      var room := if path in s.active then PublishEntry(env, s, w, path) else MakeRoom(env, s, w);
      if room.result.Ok? {
        OpenFacts(env, room.result.value, room.world, path, datetime);
      }
    }
  }

  lemma RouteFacts(env: Env, s: State, w: World, row: Row)
    requires Ready(env, s, w)
    ensures var o := RouteRow(env, s, w, row);
            o.result.Ok? ==> Ready(env, o.result.value, o.world)
  {
    hide EnsureEntry, AppendRow, Ready;
    var located := Locate(env.dataset, row);
    if located.Ok? {
      var path, datetime := located.value.partition.path, located.value.datetime;
      EnsureFacts(env, s, w, path, datetime, row);
      var ensured := EnsureEntry(env, s, w, path, datetime, row);
      if ensured.result.Ok? {
        AppendFacts(env, ensured.result.value, ensured.world, path, datetime, row);
      }
    }
  }
}
