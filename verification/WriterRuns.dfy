/** What the dataset writer keeps true over every run: no row lost, moved or reordered, and every bound respected. */
module WriterRuns {
  import opened Text
  import opened Sequences
  import opened Rows
  import opened Datasets
  import opened DatasetWriter
  import Calendar
  import P = TimePartition

  // ---------- Rows of one part ----------

  predicate RowAt(env: Env, path: string, row: Row) {
    var located := Locate(env.dataset, row);
    located.Ok? && located.value.partition.path == path
  }

  function TimeOf(env: Env, row: Row): int {
    var located := Locate(env.dataset, row);
    if located.Ok? then located.value.datetime else 0
  }

  function Bytes(env: Env, rows: seq<Row>): nat {
    Sum(Map(env.rowBytes, rows))
  }

  lemma BytesAppend(env: Env, rows: seq<Row>, row: Row)
    ensures Bytes(env, rows + [row]) == Bytes(env, rows) + env.rowBytes(row)
  {
    MapAppend(env.rowBytes, rows, [row]);
    SumAppend(Map(env.rowBytes, rows), Map(env.rowBytes, [row]));
    assert Map(env.rowBytes, [row]) == [env.rowBytes(row)];
    assert Sum([env.rowBytes(row)]) == env.rowBytes(row) + Sum([]);
  }

  /**
   A part's metadata is true of its rows: the count, rows of the partition only, the
   exact extremes of their times, and the row and byte limits. One row may exceed the
   byte limit alone.
   */
  ghost predicate Describes(env: Env, path: string, rows: seq<Row>, count: nat, min: int, max: int) {
    && count == |rows| <= env.settings.maxRows
    && (Bytes(env, rows) <= env.settings.maxBytes || |rows| <= 1)
    && (forall i :: 0 <= i < |rows| ==> RowAt(env, path, rows[i]) && min <= TimeOf(env, rows[i]) <= max)
    && (rows != [] ==> exists i, j :: 0 <= i < |rows| && 0 <= j < |rows|
                                      && TimeOf(env, rows[i]) == min && TimeOf(env, rows[j]) == max)
  }

  lemma DescribesAppend(env: Env, path: string, rows: seq<Row>, e: Entry, row: Row)
    requires env.settings.Valid()
    requires Describes(env, path, rows, e.rows, e.minTimestamp, e.maxTimestamp) && e.bytes == Bytes(env, rows)
    requires RowAt(env, path, row) && !Full(env, e, row)
    requires rows == [] ==> e.minTimestamp == e.maxTimestamp == TimeOf(env, row)
    ensures var e' := AppendedEntry(env, e, e.access, TimeOf(env, row), row);
            && Describes(env, path, rows + [row], e'.rows, e'.minTimestamp, e'.maxTimestamp)
            && e'.bytes == Bytes(env, rows + [row])
  {
    BytesAppend(env, rows, row);
    hide Bytes, RowAt, TimeOf;
    var more := rows + [row];
    var e' := AppendedEntry(env, e, e.access, TimeOf(env, row), row);
    assert more[|rows|] == row;
    assert forall i :: 0 <= i < |rows| ==> more[i] == rows[i];
    if rows != [] {
      var i, j :| 0 <= i < |rows| && 0 <= j < |rows|
                  && TimeOf(env, rows[i]) == e.minTimestamp && TimeOf(env, rows[j]) == e.maxTimestamp;
      var a := if e'.minTimestamp == e.minTimestamp then i else |rows|;
      var b := if e'.maxTimestamp == e.maxTimestamp then j else |rows|;
      assert TimeOf(env, more[a]) == e'.minTimestamp && TimeOf(env, more[b]) == e'.maxTimestamp;
    } else {
      assert TimeOf(env, more[0]) == e'.minTimestamp == e'.maxTimestamp;
    }
  }

  // ---------- Parts and time ----------

  /** The row's partition is the one that its path names, and it holds the row's date-time. */
  lemma RowInPartition(env: Env, path: string, row: Row) returns (k: int)
    requires RowAt(env, path, row)
    ensures AtPartition(env, k, path, TimeOf(env, row), TimeOf(env, row))
  {
    hide P.PathOf, P.Bucket, P.BucketStart, P.BuildPartition;
    var g := env.dataset.granularity;
    var t := InstantOfRow(env, row);
    P.BuildIsBucket(env.dataset.window, t, g);
    k := P.Bucket(g, t);
    MicrosecondsInside(g, t, k);
  }

  /** The instant of a row in nanoseconds, which the window has. */
  lemma InstantOfRow(env: Env, row: Row) returns (t: P.Instant)
    requires Locate(env.dataset, row).Ok?
    ensures env.dataset.window.Has(t) && TimeOf(env, row) == t / 1000
    ensures P.BuildPartition(env.dataset.window, t, env.dataset.granularity) ==
            P.Ok(Locate(env.dataset, row).value.partition)
  {
    hide P.BuildPartition, P.DayOf;
    t := row[env.dataset.column].n * P.Factor(env.dataset.unit);
  }

  /** Partitions begin at whole microseconds, so a date-time lies in the partition of its instant. */
  lemma MicrosecondsInside(g: P.Granularity, t: P.Instant, k: int)
    requires P.Bucket(g, t) == k
    ensures P.BucketStart(g, k) <= 1000 * (t / 1000) && 1000 * (t / 1000) < P.BucketStart(g, k + 1)
  {
    hide P.Bucket, P.BucketStart;
    P.BucketRange(g, t, k);
    var m := WholeMicroseconds(g, k);
  }

  lemma WholeMicroseconds(g: P.Granularity, k: int) returns (m: int)
    ensures P.BucketStart(g, k) == 1000 * m
  {
    hide Calendar.MonthIndexStart;
    match g
    case Minute => m := 60_000_000 * k;
    case Hour => m := 3_600_000_000 * k;
    case Day => m := 86_400_000_000 * k;
    case Week => m := 86_400_000_000 * (7 * k - 3);
    case Month => m := 86_400_000_000 * Calendar.MonthIndexStart(k);
  }

  lemma ExtremesInside(env: Env, start: nat, w: World, part: Part)
    requires PartOk(env, start, w, part)
    ensures InsidePartition(env, part)
  {
    hide AtPartition, RowAt, TimeOf, Bytes, BatchesFit, PartNumbered;
    var rows := Flatten(w.store[part.key]);
    var i, j :| 0 <= i < |rows| && 0 <= j < |rows|
                && TimeOf(env, rows[i]) == part.minTimestamp && TimeOf(env, rows[j]) == part.maxTimestamp;
    var k := RowInPartition(env, part.partition, rows[i]);
    var m := RowInPartition(env, part.partition, rows[j]);
    SamePartition(env, k, m, part.partition, part.minTimestamp, part.maxTimestamp);
  }

  lemma SamePartition(env: Env, k: int, m: int, path: string, min: int, max: int)
    requires AtPartition(env, k, path, min, min) && AtPartition(env, m, path, max, max)
    ensures AtPartition(env, k, path, min, max)
  {
    hide P.PathOf, P.BucketStart;
    P.PathInjective(env.dataset.granularity, k, m);
  }

  // ---------- The invariant ----------

  ghost predicate EntryOk(env: Env, w: World, path: string, e: Entry) {
    && e.writer in w.open && e.partition == path && e.key == PartKey(env.dataset, path, e.writer)
    && Describes(env, path, Contents(w, e), e.rows, e.minTimestamp, e.maxTimestamp)
    && e.bytes == Bytes(env, Contents(w, e))
    && |e.buffer| < env.settings.batchRows
    && BatchesFit(env, w.open[e.writer])
  }

  /** The part has a number of its own: not one from before the run and not one still open. */
  ghost predicate PartNumbered(env: Env, start: nat, w: World, part: Part) {
    exists n: nat :: start <= n < w.writers && n !in w.open && part.key == PartKey(env.dataset, part.partition, n)
  }

  ghost predicate PartOk(env: Env, start: nat, w: World, part: Part) {
    && part.key in w.store && part.rows >= 1
    && Describes(env, part.partition, Flatten(w.store[part.key]), part.rows, part.minTimestamp, part.maxTimestamp)
    && BatchesFit(env, w.store[part.key])
    && part.size == env.fileBytes(w.store[part.key])
    && PartNumbered(env, start, w, part)
  }

  /** The part's path names a partition, and its extremes lie between the start and the end of that partition. */
  ghost predicate InsidePartition(env: Env, part: Part) {
    exists k :: AtPartition(env, k, part.partition, part.minTimestamp, part.maxTimestamp)
  }

  /** The path is that of partition k, which holds the date-times from `min` to `max`, in microseconds. */
  predicate AtPartition(env: Env, k: int, path: string, min: int, max: int) {
    var partition := P.Canonical(env.dataset.granularity, k);
    partition.path == path && partition.Start() <= 1000 * min && 1000 * max < partition.Until()
  }

  function Keys(reports: seq<Part>): set<string> {
    set i | 0 <= i < |reports| :: reports[i].key
  }

  /** The store is the one before the run plus exactly the reported parts. */
  ghost predicate StoreOk(w0: World, s: State, w: World) {
    && w.store.Keys == w0.store.Keys + Keys(s.reports)
    && (forall k :: k in w0.store ==> k !in Keys(s.reports) && k in w.store && w.store[k] == w0.store[k])
    && (forall i, j :: 0 <= i < j < |s.reports| ==> s.reports[i].key != s.reports[j].key)
  }

  /** No key of the store before the run has a name that the run can generate. */
  ghost predicate NamesUnused(env: Env, w0: World) {
    forall path, n: nat :: n >= w0.writers ==> PartKey(env.dataset, path, n) !in w0.store
  }

  ghost predicate Inv(env: Env, w0: World, s: State, w: World) {
    && Ready(env, s, w)
    && |w.open| == |s.active| <= env.settings.maxOpen
    && w.peak <= env.settings.maxOpen
    && w0.writers <= w.writers
    && (forall p :: p in s.active ==> EntryOk(env, w, p, s.active[p]) && w0.writers <= s.active[p].writer)
    && (forall i :: 0 <= i < |s.reports| ==> PartOk(env, w0.writers, w, s.reports[i]))
    && StoreOk(w0, s, w)
  }

  ghost predicate NonEmpty(s: State) {
    forall p :: p in s.active ==> s.active[p].rows >= 1
  }

  /** The published rows of one partition, oldest part first. */
  function PartRows(reports: seq<Part>, store: map<string, File>, path: string): seq<Row> {
    if reports == [] then []
    else
      PartRows(reports[1..], store, path)
      + (if reports[0].partition == path && reports[0].key in store then Flatten(store[reports[0].key]) else [])
  }

  /** All rows of one partition, published or not, in order. */
  function Total(s: State, w: World, path: string): seq<Row> {
    PartRows(s.reports, w.store, path)
    + (if path in s.active && s.active[path].writer in w.open then Contents(w, s.active[path]) else [])
  }

  // ---------- Frames ----------

  lemma EntryFrame(env: Env, w: World, w': World, path: string, e: Entry)
    requires EntryOk(env, w, path, e) && e.writer in w'.open && w'.open[e.writer] == w.open[e.writer]
    ensures EntryOk(env, w', path, e)
  {
  }

  lemma PartFrame(env: Env, start: nat, w: World, w': World, part: Part)
    requires PartOk(env, start, w, part)
    requires part.key in w'.store && w'.store[part.key] == w.store[part.key]
    requires w'.writers >= w.writers && forall n :: n in w'.open ==> n in w.open || n >= w.writers
    ensures PartOk(env, start, w', part)
  {
  }

  lemma {:induction false} PartRowsFrame(reports: seq<Part>, store: map<string, File>, store': map<string, File>,
      path: string)
    requires forall i :: 0 <= i < |reports| ==>
               reports[i].key in store && reports[i].key in store' && store'[reports[i].key] == store[reports[i].key]
    ensures PartRows(reports, store', path) == PartRows(reports, store, path)
  {
    if reports != [] {
      PartRowsFrame(reports[1..], store, store', path);
    }
  }

  lemma PartKeyInjective(dataset: Dataset, path: string, n: nat, other: string, m: nat)
    requires PartKey(dataset, path, n) == PartKey(dataset, other, m)
    ensures n == m && path == other
  {
    hide PartName;
    LastSegment(dataset.prefix + path, PartName(n), dataset.prefix + other, PartName(m), '/');
    PartNameInjective(n, m);
    assert (dataset.prefix + path)[|dataset.prefix|..] == path;
    assert (dataset.prefix + other)[|dataset.prefix|..] == other;
  }

  // ---------- One step ----------

  /** A key about to be published is new to the store. */
  lemma KeyIsNew(env: Env, w0: World, s: State, w: World, path: string)
    requires Inv(env, w0, s, w) && NamesUnused(env, w0) && path in s.active
    ensures s.active[path].key !in w.store
  {
    hide Describes, Contents, Flatten, BatchesFit, PartKey, Bytes, Ready, Stamped, NamesUnused;
    var e := s.active[path];
    assert EntryOk(env, w, path, e);
    assert e.key !in w0.store by { UnusedKey(env, w0, path, e.writer); }
    forall i | 0 <= i < |s.reports| ensures s.reports[i].key != e.key {
      assert PartOk(env, w0.writers, w, s.reports[i]);
      OpenKeyDiffers(env, w0.writers, w, s.reports[i], path, e.writer);
    }
  }

  lemma UnusedKey(env: Env, w0: World, path: string, n: nat)
    requires NamesUnused(env, w0) && n >= w0.writers
    ensures PartKey(env.dataset, path, n) !in w0.store
  {
  }

  lemma OpenKeyDiffers(env: Env, start: nat, w: World, part: Part, path: string, writer: nat)
    requires PartNumbered(env, start, w, part) && writer in w.open
    ensures part.key != PartKey(env.dataset, path, writer)
  {
    hide PartKey;
    var n: nat :| start <= n < w.writers && n !in w.open && part.key == PartKey(env.dataset, part.partition, n);
    if part.key == PartKey(env.dataset, path, writer) {
      PartKeyInjective(env.dataset, part.partition, n, path, writer);
    }
  }

  lemma PublishKeeps(env: Env, w0: World, s: State, w: World, path: string)
    requires Inv(env, w0, s, w) && NamesUnused(env, w0) && path in s.active && s.active[path].rows >= 1
    ensures var o := PublishEntry(env, s, w, path);
            o.result.Ok? ==>
              && Inv(env, w0, o.result.value, o.world)
              && o.result.value.active == s.active - {path}
              && forall p :: Total(o.result.value, o.world, p) == Total(s, w, p)
  {
    var o := PublishEntry(env, s, w, path);
    PublishFacts(env, s, w, path);
    if o.result.Ok? {
      KeyIsNew(env, w0, s, w, path);
      PublishKeepsParts(env, w0, s, w, path, o.result.value, o.world);
      PublishKeepsRows(env, w0, s, w, path, o.result.value, o.world);
    }
  }

  /** What `PublishFacts` says, as a relation. */
  ghost predicate PublishStep(env: Env, s: State, w: World, path: string, s': State, w': World) {
    && Ready(env, s, w) && path in s.active && Ready(env, s', w')
    && w'.writers == w.writers && w'.peak == w.peak
    && var e := s.active[path];
    && w'.open == w.open - {e.writer}
    && e.key in w'.store && e.key !in w.store
    && var file := w'.store[e.key];
    && w'.store == w.store[e.key := file]
    && Flatten(file) == Contents(w, e)
    && (BatchesFit(env, w.open[e.writer]) ==> BatchesFit(env, file))
    && s' == State(s.active - {path}, s.access, [PartOf(env, e, file)] + s.reports)
  }

  lemma PublishKeepsParts(env: Env, w0: World, s: State, w: World, path: string, s': State, w': World)
    requires Inv(env, w0, s, w) && path in s.active && s.active[path].rows >= 1
    requires PublishStep(env, s, w, path, s', w')
    ensures Inv(env, w0, s', w')
  {
    hide Describes, Contents, Flatten, BatchesFit, PartKey, Bytes, Ready, Keys, StoreOk, PartNumbered, PartOk, EntryOk;
    var e := s.active[path];
    PublishedPartOk(env, w0, s, w, path, s', w');
    PublishedStoreOk(w0, s, w, e.key, s', w');
    forall p | p in s'.active ensures EntryOk(env, w', p, s'.active[p]) {
      OtherEntryKept(env, s, w, path, s', w', p);
    }
    forall i | 0 <= i < |s'.reports| ensures PartOk(env, w0.writers, w', s'.reports[i]) {
      if i > 0 {
        assert s'.reports[i] == s.reports[i - 1];
        OtherPartKept(env, w0.writers, s, w, path, s', w', s.reports[i - 1]);
      }
    }
  }

  lemma OtherEntryKept(env: Env, s: State, w: World, path: string, s': State, w': World, p: string)
    requires PublishStep(env, s, w, path, s', w') && p in s'.active && EntryOk(env, w, p, s.active[p])
    ensures EntryOk(env, w', p, s'.active[p])
  {
    hide Describes, Contents, Flatten, BatchesFit, PartKey, Bytes;
    EntryFrame(env, w, w', p, s.active[p]);
  }

  lemma OtherPartKept(env: Env, start: nat, s: State, w: World, path: string, s': State, w': World, part: Part)
    requires PublishStep(env, s, w, path, s', w') && PartOk(env, start, w, part)
    ensures PartOk(env, start, w', part)
  {
    hide Describes, Contents, Flatten, BatchesFit, PartKey, Bytes, Ready, PartNumbered;
    PartFrame(env, start, w, w', part);
  }

  lemma PublishedPartOk(env: Env, w0: World, s: State, w: World, path: string, s': State, w': World)
    requires PublishStep(env, s, w, path, s', w')
    requires EntryOk(env, w, path, s.active[path]) && s.active[path].rows >= 1 && w0.writers <= s.active[path].writer
    ensures PartOk(env, w0.writers, w', s'.reports[0])
    ensures |w'.open| == |w.open| - 1
  {
    hide Describes, Contents, Flatten, BatchesFit, PartKey, Bytes;
    var e := s.active[path];
    assert w'.open.Keys == w.open.Keys - {e.writer};
    assert e.writer !in w'.open && e.key == PartKey(env.dataset, path, e.writer);
  }

  lemma PublishedStoreOk(w0: World, s: State, w: World, key: string, s': State, w': World)
    requires StoreOk(w0, s, w) && key !in w.store && key in w'.store
    requires |s'.reports| > 0 && s'.reports[1..] == s.reports && s'.reports[0].key == key
    requires w'.store == w.store[key := w'.store[key]]
    ensures StoreOk(w0, s', w')
  {
    assert s'.reports == [s'.reports[0]] + s.reports;
    assert Keys(s'.reports) == {key} + Keys(s.reports) by {
      forall k | k in Keys(s.reports) ensures k in Keys(s'.reports) {
        var i :| 0 <= i < |s.reports| && s.reports[i].key == k;
        assert s'.reports[i + 1].key == k;
      }
      assert s'.reports[0].key in Keys(s'.reports);
    }
  }

  lemma PublishKeepsRows(env: Env, w0: World, s: State, w: World, path: string, s': State, w': World)
    requires Inv(env, w0, s, w) && PublishStep(env, s, w, path, s', w')
    ensures forall p :: Total(s', w', p) == Total(s, w, p)
  {
    hide Describes, Contents, Flatten, BatchesFit, PartKey, Bytes, PartNumbered, StoreOk;
    var e := s.active[path];
    assert e.partition == path by { assert EntryOk(env, w, path, e); }
    forall p ensures Total(s', w', p) == Total(s, w, p) {
      PublishedPartRows(env, w0, s, w, path, s', w', p);
      if p != path && p in s.active {
        assert s'.active[p] == s.active[p];
        ContentsFrame(w, w', s.active[p]);
      }
    }
  }

  lemma ContentsFrame(w: World, w': World, e: Entry)
    requires e.writer in w.open && e.writer in w'.open && w'.open[e.writer] == w.open[e.writer]
    ensures Contents(w', e) == Contents(w, e)
  {
  }

  lemma PublishedPartRows(env: Env, w0: World, s: State, w: World, path: string, s': State, w': World, p: string)
    requires Inv(env, w0, s, w) && PublishStep(env, s, w, path, s', w')
    ensures PartRows(s'.reports, w'.store, p) ==
            PartRows(s.reports, w.store, p)
            + (if s.active[path].partition == p then Contents(w, s.active[path]) else [])
  {
    hide Describes, Contents, Flatten, BatchesFit, PartKey, Bytes, PartNumbered, StoreOk, Ready;
    forall i | 0 <= i < |s.reports|
      ensures s.reports[i].key in w.store && w'.store[s.reports[i].key] == w.store[s.reports[i].key]
    {
      assert PartOk(env, w0.writers, w, s.reports[i]);
    }
    PartRowsFrame(s.reports, w.store, w'.store, p);
    assert s'.reports[1..] == s.reports;
  }

  lemma OpenKeeps(env: Env, w0: World, s: State, w: World, path: string, datetime: int)
    requires Inv(env, w0, s, w) && path !in s.active && |s.active| < env.settings.maxOpen
    ensures var o := OpenEntry(env, s, w, path, datetime);
            o.result.Ok? ==>
              && Inv(env, w0, o.result.value, o.world)
              && path in o.result.value.active
              && (var e := o.result.value.active[path];
                  && o.result.value.active == s.active[path := e]
                  && e.rows == 0 && e.minTimestamp == e.maxTimestamp == datetime)
              && forall p :: Total(o.result.value, o.world, p) == Total(s, w, p)
  {
    hide OpenEntry, Describes, Contents, Flatten, BatchesFit, PartKey, Bytes, Keys, StoreOk, PartNumbered,
         PartOk, EntryOk, Total, Stamped;
    var o := OpenEntry(env, s, w, path, datetime);
    OpenFacts(env, s, w, path, datetime);
    if o.result.Ok? {
      var s', w' := o.result.value, o.world;
      var e := s'.active[path];
      EmptyEntryOk(env, w', path, e);
      EmptyContents(w', e);
      OpenCount(s, w, path, s', w', e.writer);
      QuietStep(env, w0, s, w, path, s', w');
      forall p ensures Total(s', w', p) == Total(s, w, p) {
        if p == path {
          NewTotal(env, s, w, path, s', w');
        }
      }
    }
  }

  lemma OpenCount(s: State, w: World, path: string, s': State, w': World, writer: nat)
    requires path !in s.active && path in s'.active && s'.active == s.active[path := s'.active[path]]
    requires writer !in w.open && w'.open == w.open[writer := []]
    ensures |s'.active| == |s.active| + 1 && |w'.open| == |w.open| + 1
  {
  }

  lemma NewTotal(env: Env, s: State, w: World, path: string, s': State, w': World)
    requires path !in s.active && s'.reports == s.reports && w'.store == w.store
    requires path in s'.active && s'.active[path].writer in w'.open && Contents(w', s'.active[path]) == []
    ensures Total(s', w', path) == Total(s, w, path)
  {
  }

  /** A step that puts one entry and publishes nothing. */
  ghost predicate Quiet(env: Env, w0: World, s: State, w: World, path: string, s': State, w': World) {
    && path in s'.active && s'.active == s.active[path := s'.active[path]]
    && (var n := s'.active[path].writer;
        && EntryOk(env, w', path, s'.active[path]) && w0.writers <= n
        && (forall m :: m in w'.open && m != n ==> m in w.open && w'.open[m] == w.open[m])
        && (n in w.open || n >= w.writers))
    && s'.reports == s.reports && w'.store == w.store && w'.writers >= w.writers
  }

  lemma QuietEntry(env: Env, w0: World, s: State, w: World, path: string, s': State, w': World, p: string)
    requires Inv(env, w0, s, w) && Ready(env, s', w') && Quiet(env, w0, s, w, path, s', w')
    requires p in s'.active && p != path
    ensures p in s.active && s'.active[p] == s.active[p] && EntryOk(env, w', p, s.active[p])
        && w0.writers <= s.active[p].writer
    ensures s.active[p].writer in w.open && s.active[p].writer in w'.open
        && w'.open[s.active[p].writer] == w.open[s.active[p].writer]
  {
    hide EntryOk, PartOk, StoreOk, Stamped;
    EntryFrame(env, w, w', p, s.active[p]);
  }

  lemma QuietParts(env: Env, w0: World, s: State, w: World, path: string, s': State, w': World)
    requires Inv(env, w0, s, w) && Quiet(env, w0, s, w, path, s', w')
    ensures forall i :: 0 <= i < |s'.reports| ==> PartOk(env, w0.writers, w', s'.reports[i])
    ensures StoreOk(w0, s', w')
  {
    hide EntryOk, PartOk, StoreOk, Stamped, Ready;
    forall i | 0 <= i < |s'.reports| ensures PartOk(env, w0.writers, w', s'.reports[i]) {
      assert PartOk(env, w0.writers, w, s.reports[i]);
      PartKept(env, w0.writers, w, w', s.reports[i]);
    }
    StoreFrame(w0, s, w, s', w');
  }

  /** Such a step keeps the invariant and all other partitions. */
  lemma QuietStep(env: Env, w0: World, s: State, w: World, path: string, s': State, w': World)
    requires Inv(env, w0, s, w) && Ready(env, s', w') && Quiet(env, w0, s, w, path, s', w')
    requires |w'.open| == |s'.active| <= env.settings.maxOpen && w'.peak <= env.settings.maxOpen
    ensures Inv(env, w0, s', w')
    ensures forall p :: p != path ==> Total(s', w', p) == Total(s, w, p)
  {
    hide StoreOk, PartOk, EntryOk, Ready, Total;
    forall p | p in s'.active ensures EntryOk(env, w', p, s'.active[p]) && w0.writers <= s'.active[p].writer {
      if p != path {
        QuietEntry(env, w0, s, w, path, s', w', p);
      }
    }
    forall p | p != path ensures Total(s', w', p) == Total(s, w, p) {
      QuietTotal(env, w0, s, w, path, s', w', p);
    }
    QuietParts(env, w0, s, w, path, s', w');
  }

  lemma QuietTotal(env: Env, w0: World, s: State, w: World, path: string, s': State, w': World, p: string)
    requires Inv(env, w0, s, w) && Ready(env, s', w') && Quiet(env, w0, s, w, path, s', w') && p != path
    ensures Total(s', w', p) == Total(s, w, p)
  {
    if p in s.active {
      assert p in s'.active;
      QuietEntry(env, w0, s, w, path, s', w', p);
      hide Inv, Ready, EntryOk, Contents;
      ContentsFrame(w, w', s.active[p]);
    }
  }

  lemma PartKept(env: Env, start: nat, w: World, w': World, part: Part)
    requires PartOk(env, start, w, part) && w'.store == w.store && w'.writers >= w.writers
    requires forall n :: n in w'.open ==> n in w.open || n >= w.writers
    ensures PartOk(env, start, w', part)
  {
    PartFrame(env, start, w, w', part);
  }

  lemma StoreFrame(w0: World, s: State, w: World, s': State, w': World)
    requires StoreOk(w0, s, w) && s'.reports == s.reports && w'.store == w.store
    ensures StoreOk(w0, s', w')
  {
  }

  lemma EmptyContents(w: World, e: Entry)
    requires e.writer in w.open && w.open[e.writer] == [] && e.buffer == []
    ensures Contents(w, e) == []
  {
  }

  lemma EmptyEntryOk(env: Env, w: World, path: string, e: Entry)
    requires env.settings.Valid()
    requires e.writer in w.open && w.open[e.writer] == [] && e.buffer == [] && e.rows == 0 && e.bytes == 0
    requires e.partition == path && e.key == PartKey(env.dataset, path, e.writer)
    ensures EntryOk(env, w, path, e)
  {
    EmptyContents(w, e);
  }

  lemma AppendKeeps(env: Env, w0: World, s: State, w: World, path: string, row: Row)
    requires Inv(env, w0, s, w) && path in s.active && RowAt(env, path, row)
    requires !Full(env, s.active[path], row)
    requires var e := s.active[path]; e.rows == 0 ==> e.minTimestamp == e.maxTimestamp == TimeOf(env, row)
    ensures var o := AppendRow(env, s, w, path, TimeOf(env, row), row);
            o.result.Ok? ==>
              && Inv(env, w0, o.result.value, o.world)
              && path in o.result.value.active
              && o.result.value.active == s.active[path := o.result.value.active[path]]
              && o.result.value.active[path].rows >= 1
              && forall p :: Total(o.result.value, o.world, p) == Total(s, w, p) + (if p == path then [row] else [])
  {
    hide AppendRow, Describes, Contents, Flatten, BatchesFit, PartKey, Bytes, Keys, StoreOk, PartNumbered,
         RowAt, TimeOf, PartOk, Total, Stamped, Full;
    var o := AppendRow(env, s, w, path, TimeOf(env, row), row);
    AppendFacts(env, s, w, path, TimeOf(env, row), row);
    if o.result.Ok? {
      var s', w' := o.result.value, o.world;
      assert EntryOk(env, w, path, s.active[path]);
      AppendedOk(env, w, w', path, s.active[path], s'.active[path], row);
      AppendCount(s, w, path, s', w');
      QuietStep(env, w0, s, w, path, s', w');
      MoreTotal(s, w, path, s', w', row);
    }
  }

  lemma AppendCount(s: State, w: World, path: string, s': State, w': World)
    requires path in s.active && path in s'.active && s'.active == s.active[path := s'.active[path]]
    requires w'.open.Keys == w.open.Keys
    ensures |s'.active| == |s.active| && |w'.open| == |w.open|
  {
    assert s'.active.Keys == s.active.Keys;
    assert |w'.open| == |w'.open.Keys|;
  }

  lemma MoreTotal(s: State, w: World, path: string, s': State, w': World, row: Row)
    requires s'.reports == s.reports && w'.store == w.store
    requires path in s.active && s.active[path].writer in w.open
    requires path in s'.active && s'.active[path].writer in w'.open
    requires Contents(w', s'.active[path]) == Contents(w, s.active[path]) + [row]
    ensures Total(s', w', path) == Total(s, w, path) + [row]
  {
    hide Contents;
  }

  lemma AppendedOk(env: Env, w: World, w': World, path: string, e: Entry, e': Entry, row: Row)
    requires env.settings.Valid() && EntryOk(env, w, path, e)
    requires RowAt(env, path, row) && !Full(env, e, row)
    requires e.rows == 0 ==> e.minTimestamp == e.maxTimestamp == TimeOf(env, row)
    requires e' == AppendedEntry(env, e, e'.access, TimeOf(env, row), row).(buffer := e'.buffer)
    requires e.writer in w'.open && Contents(w', e') == Contents(w, e) + [row]
    requires |e'.buffer| < env.settings.batchRows && BatchesFit(env, w'.open[e.writer])
    ensures EntryOk(env, w', path, e') && e'.rows >= 1
  {
    hide Contents, RowAt, TimeOf, Bytes, PartKey;
    DescribesAppend(env, path, Contents(w, e), e, row);
  }

  lemma EnsureKeeps(env: Env, w0: World, s: State, w: World, path: string, row: Row)
    requires Inv(env, w0, s, w) && NonEmpty(s) && NamesUnused(env, w0)
    ensures var o := EnsureEntry(env, s, w, path, TimeOf(env, row), row);
            o.result.Ok? ==> Ensured(env, w0, s, w, path, row, o.result.value, o.world)
  {
    hide PublishEntry, OpenEntry, MakeRoom, EntryOk, PartOk, StoreOk, Total, TimeOf, NamesUnused, Stamped, RoomMade,
        NonEmpty;
    if path !in s.active || Full(env, s.active[path], row) {
      hide Ensured;
      RoomKeeps(env, w0, s, w, path, row);
      var room := if path in s.active then PublishEntry(env, s, w, path) else MakeRoom(env, s, w);
      if room.result.Ok? {
        OpenEnsures(env, w0, s, w, path, row, room.result.value, room.world);
      }
    } else {
      AlreadyEnsured(env, w0, s, w, path, row);
      hide Ensured;
    }
  }

  lemma AlreadyEnsured(env: Env, w0: World, s: State, w: World, path: string, row: Row)
    requires Inv(env, w0, s, w) && NonEmpty(s) && path in s.active && !Full(env, s.active[path], row)
    ensures Ensured(env, w0, s, w, path, row, s, w)
  {
    hide PartOk, StoreOk, Total, TimeOf, EntryOk, Stamped;
  }

  /** An open part for the path with space for the row; nothing else has changed. */
  ghost predicate Ensured(env: Env, w0: World, s: State, w: World, path: string, row: Row, s': State, w': World) {
    && Inv(env, w0, s', w')
    && path in s'.active && !Full(env, s'.active[path], row)
    && (s'.active[path].rows == 0 ==> s'.active[path].minTimestamp == s'.active[path].maxTimestamp == TimeOf(env, row))
    && (forall p :: p in s'.active && p != path ==> s'.active[p].rows >= 1)
    && (forall p :: Total(s', w', p) == Total(s, w, p))
  }

  /** Space for one more part, which is none for the path. */
  ghost predicate RoomMade(env: Env, w0: World, s: State, w: World, path: string, s': State, w': World) {
    && Inv(env, w0, s', w') && path !in s'.active && |s'.active| < env.settings.maxOpen
    && (forall p :: p in s'.active ==> s'.active[p].rows >= 1)
    && (forall p :: Total(s', w', p) == Total(s, w, p))
  }

  lemma OpenEnsures(env: Env, w0: World, s: State, w: World, path: string, row: Row, s': State, w': World)
    requires RoomMade(env, w0, s, w, path, s', w')
    ensures var o := OpenEntry(env, s', w', path, TimeOf(env, row));
            o.result.Ok? ==> Ensured(env, w0, s, w, path, row, o.result.value, o.world)
  {
    hide OpenEntry, EntryOk, PartOk, StoreOk, Ready, Total, TimeOf;
    OpenKeeps(env, w0, s', w', path, TimeOf(env, row));
  }

  /** Rotating a full part, or evicting the least recent one when all are taken, leaves room for one more. */
  lemma RoomKeeps(env: Env, w0: World, s: State, w: World, path: string, row: Row)
    requires Inv(env, w0, s, w) && NonEmpty(s) && NamesUnused(env, w0)
    requires path !in s.active || Full(env, s.active[path], row)
    ensures Ready(env, s, w)
    ensures var room := if path in s.active then PublishEntry(env, s, w, path) else MakeRoom(env, s, w);
            room.result.Ok? ==> RoomMade(env, w0, s, w, path, room.result.value, room.world)
  {
    hide PublishEntry, EntryOk, PartOk, StoreOk, Total, TimeOf, NamesUnused, Stamped;
    if path in s.active {
      PublishKeeps(env, w0, s, w, path);
    } else if |s.active| >= env.settings.maxOpen {
      PublishKeeps(env, w0, s, w, LeastRecent(s));
    }
  }

  /** Routing one row adds it at the end of its partition, and changes no other partition. */
  lemma RouteKeeps(env: Env, w0: World, s: State, w: World, row: Row)
    requires Inv(env, w0, s, w) && NonEmpty(s) && NamesUnused(env, w0)
    ensures var o := RouteRow(env, s, w, row);
            o.result.Ok? ==>
              && Inv(env, w0, o.result.value, o.world) && NonEmpty(o.result.value)
              && Locate(env.dataset, row).Ok?
              && forall p :: Total(o.result.value, o.world, p) ==
                             Total(s, w, p) + (if RowAt(env, p, row) then [row] else [])
  {
    hide EnsureEntry, AppendRow, Inv, Total, NamesUnused, Full;
    var located := Locate(env.dataset, row);
    if located.Ok? {
      var path := located.value.partition.path;
      assert Ready(env, s, w) by { InvReady(env, w0, s, w); }
      EnsureKeeps(env, w0, s, w, path, row);
      EnsureFacts(env, s, w, path, located.value.datetime, row);
      var ensured := EnsureEntry(env, s, w, path, located.value.datetime, row);
      if ensured.result.Ok? {
        AppendKeeps(env, w0, ensured.result.value, ensured.world, path, row);
      }
    }
  }

  lemma InvReady(env: Env, w0: World, s: State, w: World)
    requires Inv(env, w0, s, w)
    ensures Ready(env, s, w)
  {
  }
}
