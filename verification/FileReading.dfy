/**
 The dataset stream over the native reader: opening a part gives the batches that the reader's
 query path delivers, through projection, row groups and the prefetch queue, when the part is a
 file with the same rows.
 */
module FileReading {
  import opened Text
  import opened Sequences
  import opened Rows
  import opened Bags
  import opened ReadBack
  import opened DatasetRun
  import E = EndToEnd
  import S = DatasetStream
  import W = DatasetWriter
  import F = Prefetch
  import Q = ReaderQuery

  // ---------- Rows and records ----------

  function CellOf(v: Value): Q.Cell {
    match v
    case Null => Q.Null
    case Int(n) => Q.Int(n)
    case Real(x) => Q.Real(x)
    case Bool(b) => Q.Bool(b)
    case Text(s) => Q.Utf8(s)
  }

  function ValueOf(c: Q.Cell): Value {
    match c
    case Int(n) => Int(n)
    case Real(x) => Real(x)
    case Bool(b) => Bool(b)
    case Utf8(s) => Text(s)
    case _ => Null
  }

  /** The cells of a row in the order of the schema; the rows of a part have all its columns. */
  function RecordOf(names: seq<string>, row: Row): (record: Q.Record)
    ensures |record| == |names|
    ensures forall i :: 0 <= i < |names| && names[i] in row ==> record[i] == CellOf(row[names[i]])
  {
    seq(|names|, i requires 0 <= i < |names| => if names[i] in row then CellOf(row[names[i]]) else Q.Null)
  }

  function RowOf(names: seq<string>, record: Q.Record): Row {
    if names == [] || record == [] then map[]
    else RowOf(names[1..], record[1..])[names[0] := ValueOf(record[0])]
  }

  lemma {:induction false} RowOfCells(names: seq<string>, record: Q.Record)
    requires Distinct(names) && |record| == |names|
    ensures forall name :: name in RowOf(names, record) <==> name in names
    ensures forall i :: 0 <= i < |names| ==> RowOf(names, record)[names[i]] == ValueOf(record[i])
    decreases |names|
  {
    if names != [] {
      RowOfCells(names[1..], record[1..]);
      forall i | 0 <= i < |names| ensures RowOf(names, record)[names[i]] == ValueOf(record[i]) {
        if i > 0 {
          assert names[i] == names[1..][i - 1] && record[i] == record[1..][i - 1] && names[i] != names[0];
        }
      }
      assert names == [names[0]] + names[1..];
    }
  }

  function Records(names: seq<string>, rows: seq<Row>): seq<Q.Record> {
    Map((row: Row) => RecordOf(names, row), rows)
  }

  /** The file has the schema's columns and the given rows, in row groups of any size with sound statistics. */
  ghost predicate Holds(file: Q.File, names: seq<string>, rows: seq<Row>) {
    && Q.WellFormed(file) && Q.SoundStatistics(file)
    && |file.fields| == |names| && (forall i :: 0 <= i < |names| ==> file.fields[i].name == names[i])
    && (forall row, name :: row in rows && name in names ==> name in row)
    && Q.GroupRows(file.groups) == Records(names, rows)
  }

  // ---------- The reader's answer ----------

  /** The names of the columns at the given indices. */
  function NamesAt(names: seq<string>, indices: seq<nat>): (r: seq<string>)
    ensures |r| == |indices| && forall i :: 0 <= i < |indices| && indices[i] < |names| ==> r[i] == names[indices[i]]
  {
    seq(|indices|, i requires 0 <= i < |indices| => if indices[i] < |names| then names[indices[i]] else "")
  }

  function RowsOf(columns: seq<string>, records: seq<Q.Record>): seq<Row> {
    Map((record: Q.Record) => RowOf(columns, record), records)
  }

  /** The batches of `Parquex.stream`: those of the query without a predicate, through the prefetch queue, as rows. */
  function ReaderBatches(file: Q.File, names: seq<string>, columns: seq<string>, batchSize: nat,
                         sizeOf: seq<Q.Record> -> nat, depth: nat): Option<seq<seq<Row>>>
    requires Q.WellFormed(file) && batchSize > 0 && depth > 0
  {
    var found := Q.Open(file, columns, None);
    if found.None? then None
    else
      var delivered := F.Deliver([], F.Yielded(Q.Results(file, found.value, batchSize), sizeOf), depth);
      if delivered.failed then None
      else
        var output := NamesAt(names, found.value.requested);
        Some(BatchRows(output, delivered.batches))
  }

  function BatchRows(columns: seq<string>, batches: seq<F.Batch>): seq<seq<Row>> {
    Map((batch: F.Batch) => RowsOf(columns, batch.content), batches)
  }

  // ---------- Without a predicate ----------

  /** In increasing order the positions of the requested columns are 0, 1, 2, …: nothing is re-indexed. */
  lemma PositionsInOrder(indices: seq<nat>, j: nat)
    requires Q.Increasing(indices) && j < |indices|
    ensures Q.Position(indices, indices[j]) == j
  {
    var r := Q.Position(indices, indices[j]);
    assert !(r < j) && !(j < r);
  }

  lemma NothingReindexed(fields: seq<Q.Field>, columns: seq<string>, requested: seq<nat>)
    requires Q.DistinctNames(fields) && Distinct(columns) && columns != []
    requires Q.ProjectionIndices(fields, columns) == Some(requested)
    ensures var ix := Q.SetUp(fields, columns, requested, None);
            ix.read == requested && ix.output == Q.AllIndices(|ix.read|)
  {
    Q.ProjectionInFileOrder(fields, columns, 0);
    hide Q.ProjectionIndices, Q.Position;
    var ix := Q.SetUp(fields, columns, requested, None);
    forall j | 0 <= j < |requested| ensures ix.output[j] == j {
      PositionsInOrder(requested, j);
    }
  }

  /** Without a predicate the results are the requested cells of all rows, in batches. */
  lemma PlainResults(file: Q.File, columns: seq<string>, batchSize: nat)
    requires Q.WellFormed(file) && Distinct(columns) && columns != [] && batchSize > 0
    requires Q.Open(file, columns, None).Some?
    ensures var o := Q.Open(file, columns, None).value;
            && Q.ProjectionIndices(file.fields, columns) == Some(o.requested)
            && Q.Results(file, o, batchSize) == Chunk(Q.ProjectAll(Q.GroupRows(file.groups), o.requested), batchSize)
  {
    hide Q.ProjectionIndices, Q.SetUp, Q.ProjectAll, Q.GroupRows;
    var o := Q.Open(file, columns, None).value;
    NothingReindexed(file.fields, columns, o.requested);
    var decoded := Q.Decode(file, o, batchSize);
    forall i | 0 <= i < |decoded| ensures Q.Results(file, o, batchSize)[i] == decoded[i] {
    }
  }

  /** Every batch is delivered, in order, whatever the depth. */
  lemma {:induction false} AllGood(results: seq<seq<Q.Record>>, sizeOf: seq<Q.Record> -> nat)
    requires forall i :: 0 <= i < |results| ==> results[i] != []
    ensures F.Good(F.Yielded(results, sizeOf)) ==
            Map((rows: seq<Q.Record>) => F.Batch(rows, sizeOf(rows)), results)
  {
    if results != [] {
      AllGood(results[1..], sizeOf);
      assert F.Yielded(results, sizeOf)[1..] == F.Yielded(results[1..], sizeOf);
    }
  }

  lemma DeliversAll(results: seq<seq<Q.Record>>, sizeOf: seq<Q.Record> -> nat, depth: nat)
    requires depth > 0 && forall i :: 0 <= i < |results| ==> results[i] != []
    ensures F.Deliver([], F.Yielded(results, sizeOf), depth) ==
            F.Delivered(Map((rows: seq<Q.Record>) => F.Batch(rows, sizeOf(rows)), results), false)
  {
    hide Map, F.Deliver;
    AllGood(results, sizeOf);
    F.YieldedGood(results, sizeOf);
    F.DeliverExact([], F.Yielded(results, sizeOf), depth);
    assert [] + F.Good(F.Yielded(results, sizeOf)) == F.Good(F.Yielded(results, sizeOf));
  }

  // ---------- Opening a part ----------

  /** Projecting the cells of a row to some columns and naming them is restricting the row. */
  lemma ProjectedRow(names: seq<string>, columns: seq<string>, requested: seq<nat>, row: Row)
    requires Distinct(names) && Q.Increasing(requested)
    requires forall name :: name in names ==> name in row
    requires forall name :: name in columns ==> name in names
    requires forall i: nat :: i in requested <==> i < |names| && names[i] in columns
    ensures RowOf(NamesAt(names, requested), Q.Project(RecordOf(names, row), requested)) == S.Restrict(row, columns)
  {
    var output, record := NamesAt(names, requested), Q.Project(RecordOf(names, row), requested);
    OutputNames(names, columns, requested);
    RowOfCells(output, record);
    hide RowOf, Distinct, Q.Increasing;
    var got, expected := RowOf(output, record), S.Restrict(row, columns);
    forall j | 0 <= j < |output| ensures output[j] in row && got[output[j]] == row[output[j]] {
      CellBack(names, requested, row, j);
    }
    SameRow(output, columns, row, got);
  }

  lemma CellBack(names: seq<string>, requested: seq<nat>, row: Row, j: nat)
    requires j < |requested| && requested[j] < |names| && names[requested[j]] in row
    ensures ValueOf(Q.Project(RecordOf(names, row), requested)[j]) == row[NamesAt(names, requested)[j]]
  {
  }

  lemma SameRow(output: seq<string>, columns: seq<string>, row: Row, got: Row)
    requires forall name :: name in output <==> name in columns
    requires forall name :: name in got <==> name in output
    requires forall j :: 0 <= j < |output| ==> output[j] in row && got[output[j]] == row[output[j]]
    ensures got == S.Restrict(row, columns)
  {
    forall name | name in got ensures name in row && got[name] == row[name] {
      var j :| 0 <= j < |output| && output[j] == name;
    }
    assert forall name :: name in S.Restrict(row, columns) ==> name in got;
  }

  /** The names at the requested indices are exactly the columns, each once. */
  lemma OutputNames(names: seq<string>, columns: seq<string>, requested: seq<nat>)
    requires Distinct(names) && Q.Increasing(requested)
    requires forall name :: name in columns ==> name in names
    requires forall i: nat :: i in requested <==> i < |names| && names[i] in columns
    ensures var output := NamesAt(names, requested);
            && Distinct(output) && (forall name :: name in output <==> name in columns)
            && forall j :: 0 <= j < |requested| ==> requested[j] < |names|
  {
    var output := NamesAt(names, requested);
    forall j | 0 <= j < |requested| ensures requested[j] < |names| && names[requested[j]] in columns {
      assert requested[j] in requested;
    }
    forall i, j | 0 <= i < j < |output| ensures output[i] != output[j] {
      assert requested[i] < requested[j];
    }
    forall name | name in columns ensures name in output {
      var i: nat :| i < |names| && names[i] == name;
      assert i in requested;
      var j :| 0 <= j < |requested| && requested[j] == i;
      assert output[j] == name;
    }
  }

  /** All columns of the schema that the stream asks for are in the file, each at its index of the schema. */
  lemma Requested(file: Q.File, names: seq<string>, columns: seq<string>)
    requires Q.DistinctNames(file.fields) && Distinct(columns) && columns != []
    requires |file.fields| == |names| && (forall i :: 0 <= i < |names| ==> file.fields[i].name == names[i])
    requires forall name :: name in columns ==> name in names
    ensures var requested := Q.ProjectionIndices(file.fields, columns);
            && requested.Some? && Q.Increasing(requested.value)
            && forall i: nat :: i in requested.value <==> i < |names| && names[i] in columns
  {
    AllNamed(file.fields, names, columns);
    forall i: nat
      ensures i in Q.ProjectionIndices(file.fields, columns).value <==> i < |names| && names[i] in columns
    {
      Q.ProjectionInFileOrder(file.fields, columns, i);
    }
    Q.ProjectionInFileOrder(file.fields, columns, 0);
  }

  lemma {:induction false} AllNamed(fields: seq<Q.Field>, names: seq<string>, columns: seq<string>)
    requires |fields| == |names| && (forall i :: 0 <= i < |names| ==> fields[i].name == names[i])
    requires forall name :: name in columns ==> name in names
    ensures Q.NamedIndices(fields, columns).Some?
    decreases |columns|
  {
    if columns != [] {
      assert columns[0] in names;
      AllNamed(fields, names, columns[1..]);
    }
  }

  /** Naming the cells of the batches is naming those of all rows, then batching. */
  lemma NamedBatches(names: seq<string>, columns: seq<string>, requested: seq<nat>, rows: seq<Row>, n: nat)
    requires n > 0 && Distinct(names) && Q.Increasing(requested)
    requires forall row, name :: row in rows && name in names ==> name in row
    requires forall name :: name in columns ==> name in names
    requires forall i: nat :: i in requested <==> i < |names| && names[i] in columns
    ensures var records := Q.ProjectAll(Records(names, rows), requested);
            var output := NamesAt(names, requested);
            Map((batch: seq<Q.Record>) => RowsOf(output, batch), Chunk(records, n)) ==
            Chunk(Map((row: Row) => S.Restrict(row, columns), rows), n)
  {
    hide Map, Chunk, S.Restrict, RowOf, Distinct, Q.Increasing;
    var output := NamesAt(names, requested);
    var encode := (row: Row) => RecordOf(names, row);
    var project := (record: Q.Record) => Q.Project(record, requested);
    var decode := (record: Q.Record) => RowOf(output, record);
    var records := Q.ProjectAll(Map(encode, rows), requested);
    MapMap(encode, project, rows);
    var twice := (row: Row) => project(encode(row));
    MapMap(twice, decode, rows);
    forall i | 0 <= i < |rows| ensures decode(project(encode(rows[i]))) == S.Restrict(rows[i], columns) {
      assert rows[i] in rows;
      ProjectedRow(names, columns, requested, rows[i]);
    }
    MapSame((row: Row) => decode(twice(row)), (row: Row) => S.Restrict(row, columns), rows);
    assert Map(decode, records) == Map((row: Row) => S.Restrict(row, columns), rows);
    ChunkMap(decode, records, n);
    MapSame((batch: seq<Q.Record>) => Map(decode, batch), (batch: seq<Q.Record>) => RowsOf(output, batch),
            Chunk(records, n));
  }

  /** What the reader delivers, before the cells are named. */
  lemma ReaderDelivers(file: Q.File, names: seq<string>, columns: seq<string>, n: nat, sizeOf: seq<Q.Record> -> nat,
                       depth: nat)
    requires Q.WellFormed(file) && Distinct(columns) && columns != [] && n > 0 && depth > 0
    requires Q.Open(file, columns, None).Some?
    ensures var o := Q.Open(file, columns, None).value;
            var output := NamesAt(names, o.requested);
            && Q.ProjectionIndices(file.fields, columns) == Some(o.requested)
            && ReaderBatches(file, names, columns, n, sizeOf, depth) ==
               Some(Map((records: seq<Q.Record>) => RowsOf(output, records),
                        Chunk(Q.ProjectAll(Q.GroupRows(file.groups), o.requested), n)))
  {
    hide Q.Open, Q.WellFormed, Q.Results, Q.ProjectAll, Q.GroupRows, Q.ProjectionIndices, F.Deliver, F.Yielded, Map,
        Distinct, RowsOf, NamesAt, BatchRows, Chunk;
    PlainResults(file, columns, n);
    var o := Q.Open(file, columns, None).value;
    var results := Q.Results(file, o, n);
    NotEmpty(Q.ProjectAll(Q.GroupRows(file.groups), o.requested), n);
    DeliversAll(results, sizeOf, depth);
    BatchesNamed(NamesAt(names, o.requested), results, sizeOf);
  }

  lemma NotEmpty(records: seq<Q.Record>, n: nat)
    requires n > 0
    ensures forall i :: 0 <= i < |Chunk(records, n)| ==> Chunk(records, n)[i] != []
  {
    hide Chunk;
    forall i | 0 <= i < |Chunk(records, n)| ensures Chunk(records, n)[i] != [] {
      assert Chunk(records, n)[i] in Chunk(records, n);
    }
  }

  lemma BatchesNamed(columns: seq<string>, results: seq<seq<Q.Record>>, sizeOf: seq<Q.Record> -> nat)
    ensures BatchRows(columns, Map((rows: seq<Q.Record>) => F.Batch(rows, sizeOf(rows)), results)) ==
            Map((records: seq<Q.Record>) => RowsOf(columns, records), results)
  {
    hide RowsOf;
  }

  lemma OpensAll(env: S.Env, key: string)
    requires env.batchSize > 0 && key in env.objects
    requires forall row, name :: row in Flatten(env.objects[key]) && name in env.dataset.names ==> name in row
    requires forall name :: name in env.selection.internal ==> name in env.dataset.names
    ensures S.OpenReader(env, key) ==
            Some(Chunk(Map((row: Row) => S.Restrict(row, env.selection.internal), Flatten(env.objects[key])),
                       env.batchSize))
  {
    hide S.Restrict, Flatten, Chunk, Map;
  }

  /**
   Opening a part: the batches that the reader delivers for the stream's columns are the rows of the
   part restricted to these columns, in batches of the stream's size, for every prefetch depth, every
   division into row groups and every kind of column.
   */
  lemma ReaderReads(env: S.Env, key: string, file: Q.File, sizeOf: seq<Q.Record> -> nat, depth: nat)
    requires env.batchSize > 0 && depth > 0 && key in env.objects && Distinct(env.dataset.names)
    requires env.selection.internal != [] && Distinct(env.selection.internal)
    requires forall name :: name in env.selection.internal ==> name in env.dataset.names
    requires Holds(file, env.dataset.names, Flatten(env.objects[key]))
    ensures S.OpenReader(env, key) ==
            ReaderBatches(file, env.dataset.names, env.selection.internal, env.batchSize, sizeOf, depth)
    ensures S.OpenReader(env, key).Some?
  {
    hide Q.SoundStatistics, Q.ProjectAll, Q.GroupRows, Q.ProjectionIndices, Map, Chunk, S.Restrict, Distinct,
        Q.Increasing,
        ReaderBatches, RowsOf, NamesAt, Records;
    var names, columns, n := env.dataset.names, env.selection.internal, env.batchSize;
    var rows := Flatten(env.objects[key]);
    OpensAll(env, key);
    Requested(file, names, columns);
    ReaderDelivers(file, names, columns, n, sizeOf, depth);
    NamedBatches(names, columns, Q.ProjectionIndices(file.fields, columns).value, rows, n);
    assert S.OpenReader(env, key) == Some(Chunk(Map((row: Row) => S.Restrict(row, columns), rows), n));
    assert Q.GroupRows(file.groups) == Records(names, rows);
  }

  // ---------- End to end ----------

  /** Every part is a file that holds the rows which the dataset has written. */
  ghost predicate Files(env: S.Env, files: map<string, Q.File>) {
    forall key :: key in env.objects && S.IsParquet(key) ==>
      key in files && Holds(files[key], env.dataset.names, Flatten(env.objects[key]))
  }

  lemma FilesWellFormed(env: S.Env, files: map<string, Q.File>)
    requires Files(env, files)
    ensures forall key :: key in env.objects && S.IsParquet(key) ==> key in files && Q.WellFormed(files[key])
  {
    hide S.IsParquet, Q.WellFormed;
  }

  /** The columns that a planned query reads: some of the schema, each once. */
  lemma InternalColumns(env: S.Env, query: S.Query)
    requires Reads(env, query) && Distinct(env.dataset.names)
    ensures var internal := env.selection.internal;
            internal != [] && Distinct(internal) && forall name :: name in internal ==> name in env.dataset.names
  {
    hide S.Projection, Placed, Lists, FirstBucket, Distinct;
    var output, condition := env.selection.output, env.selection.condition;
    var required := [env.dataset.column] + output + (if condition.Some? then [condition.value.column] else []);
    FilterDistinct((name: string) => name in required, env.dataset.names);
    assert env.dataset.column in S.InternalNames(env.dataset, output, condition);
  }

  /**
   End to end through the native reader. What a drain returns after a successful run is as in
   `WriteThenRead`, and every part that it opens is read as the reader does it: the stream's columns
   of every row group, decoded in batches, queued up to the prefetch depth and handed out.
   */
  lemma WriteThenReadThroughReader(wenv: W.Env, w0: W.World, inputs: seq<seq<Row>>, env: S.Env, query: S.Query,
                                   files: map<string, Q.File>, sizeOf: seq<Q.Record> -> nat, depth: nat)
    requires Startable(wenv, w0) && Run(wenv, w0, inputs).result.Ok? && Placed(wenv.dataset, w0.store)
    requires env.dataset == wenv.dataset && env.objects == Run(wenv, w0, inputs).world.store
    requires Reads(env, query) && Distinct(env.dataset.names) && Files(env, files) && depth > 0
    requires E.SegmentScoped(env, FirstBucket(env.dataset, query), Partitions(env, query))
    requires S.Drain(env, S.Start(Partitions(env, query))).ok
    ensures forall key :: key in env.objects && S.IsParquet(key) ==>
              S.OpenReader(env, key) ==
              ReaderBatches(files[key], env.dataset.names, env.selection.internal, env.batchSize, sizeOf, depth)
    ensures multiset(Flatten(S.Drain(env, S.Start(Partitions(env, query))).batches)) ==
            multiset(S.Select(env.dataset.column, env.selection, Flatten(inputs)))
            + SumOver(PartKeys(env.dataset, w0.store), Bag(env))
  {
    hide *;
    E.WriteThenRead(wenv, w0, inputs, env, query);
    AllRead(env, query, files, sizeOf, depth);
  }

  lemma AllRead(env: S.Env, query: S.Query, files: map<string, Q.File>, sizeOf: seq<Q.Record> -> nat, depth: nat)
    requires Reads(env, query) && Distinct(env.dataset.names) && Files(env, files) && depth > 0
    ensures forall key :: key in env.objects && S.IsParquet(key) ==>
              && S.OpenReader(env, key).Some?
              && S.OpenReader(env, key) ==
                 ReaderBatches(files[key], env.dataset.names, env.selection.internal, env.batchSize, sizeOf, depth)
  {
    hide Holds, S.Open, Placed, Lists, FirstBucket, Distinct, S.OpenReader, ReaderBatches, S.IsParquet;
    InternalColumns(env, query);
    FilesWellFormed(env, files);
    forall key | key in env.objects && S.IsParquet(key)
      ensures S.OpenReader(env, key).Some?
      ensures S.OpenReader(env, key) ==
              ReaderBatches(files[key], env.dataset.names, env.selection.internal, env.batchSize, sizeOf, depth)
    {
      ReaderReads(env, key, files[key], sizeOf, depth);
    }
  }
}
