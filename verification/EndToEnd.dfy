/** From the rows given to a dataset writer to the rows that a dataset stream returns. */
module EndToEnd {
  import opened Text
  import opened Sequences
  import opened Rows
  import opened Datasets
  import opened Listing
  import opened Bags
  import opened ReadBack
  import S = DatasetStream
  import W = DatasetWriter
  import opened WriterRuns
  import opened DatasetRun
  import P = TimePartition

  // ---------- What a run leaves in the store ----------

  /** A part lies in the directory of one partition, and its rows belong there. */
  lemma PartBelow(wenv: W.Env, start: nat, w: W.World, part: W.Part)
    requires PartOk(wenv, start, w, part)
    ensures S.IsParquet(part.key)
    ensures exists k :: OfPartition(wenv.dataset, w.store, part.key, k) && Path(wenv.dataset, k) == part.partition
  {
    hide W.BatchesFit, Path, W.PartName, Below, RowIn, W.Locate, Bytes;
    var rows := Flatten(w.store[part.key]);
    assert RowAt(wenv, part.partition, rows[0]);
    var k := BucketOfRow(wenv, part.partition, rows[0]);
    var n: nat :| start <= n < w.writers && part.key == W.PartKey(wenv.dataset, part.partition, n);
    PartKeyShape(wenv.dataset, k, part.partition, n);
    forall row | row in rows ensures RowIn(wenv.dataset, k, row) {
      assert RowAt(wenv, part.partition, row);
      SamePlace(wenv, k, part.partition, row);
    }
    assert OfPartition(wenv.dataset, w.store, part.key, k);
  }

  ghost predicate OfPartition(dataset: Dataset, objects: map<string, File>, key: string, k: int) {
    && key in objects && Below(dataset, k, key)
    && forall row :: row in Flatten(objects[key]) ==> RowIn(dataset, k, row)
  }

  lemma SamePlace(wenv: W.Env, k: int, path: string, row: Row)
    requires RowAt(wenv, path, row) && Path(wenv.dataset, k) == path
    ensures RowIn(wenv.dataset, k, row)
  {
  }

  lemma BucketOfRow(wenv: W.Env, path: string, row: Row) returns (k: int)
    requires RowAt(wenv, path, row)
    ensures Path(wenv.dataset, k) == path
  {
    hide P.PathOf, P.BucketStart, RowAt, TimeOf;
    k := RowInPartition(wenv, path, row);
  }

  lemma PartKeyShape(dataset: Dataset, k: int, path: string, n: nat)
    requires Path(dataset, k) == path
    ensures S.IsParquet(W.PartKey(dataset, path, n)) && Below(dataset, k, W.PartKey(dataset, path, n))
  {
    hide Path, ShowInt;
    var name, key := W.PartName(n), W.PartKey(dataset, path, n);
    assert key == dataset.prefix + path + "/" + name;
    assert key[|key| - 8..] == name[|name| - 8..];
  }

  /** After a run every object is still placed, and the dataset has exactly the reported parts more. */
  lemma StoreAfterRun(wenv: W.Env, w0: W.World, s: W.State, w: W.World)
    requires StoreOk(w0, s, w) && Placed(wenv.dataset, w0.store)
    requires forall i :: 0 <= i < |s.reports| ==> PartOk(wenv, w0.writers, w, s.reports[i])
    ensures Placed(wenv.dataset, w.store)
    ensures PartKeys(wenv.dataset, w.store) == PartKeys(wenv.dataset, w0.store) + Keys(s.reports)
    ensures PartKeys(wenv.dataset, w0.store) !! Keys(s.reports)
  {
    hide PartOk, Below, S.IsParquet, RowIn, Flatten;
    forall key | key in Keys(s.reports)
      ensures S.IsParquet(key) && exists k :: OfPartition(wenv.dataset, w.store, key, k)
    {
      var i :| 0 <= i < |s.reports| && s.reports[i].key == key;
      PartBelow(wenv, w0.writers, w, s.reports[i]);
    }
    forall key, k, row | key in w.store && Below(wenv.dataset, k, key) && row in Flatten(w.store[key])
      ensures RowIn(wenv.dataset, k, row)
    {
      if key in Keys(s.reports) {
        var own :| OfPartition(wenv.dataset, w.store, key, own);
        BelowOnce(wenv.dataset, k, own, key);
      }
    }
    forall key | key in Keys(s.reports) ensures key in PartKeys(wenv.dataset, w.store) {
      var own :| OfPartition(wenv.dataset, w.store, key, own);
      assert Below(wenv.dataset, own, key);
    }
  }

  // ---------- Selected rows of the parts ----------

  lemma {:induction false} ReportsBag(env: S.Env, reports: seq<W.Part>)
    requires forall i :: 0 <= i < |reports| ==> reports[i].key in env.objects
    requires forall i, j :: 0 <= i < j < |reports| ==> reports[i].key != reports[j].key
    ensures SumOver(Keys(reports), Bag(env)) ==
            multiset(S.Select(env.dataset.column, env.selection, AllRows(reports, env.objects)))
  {
    hide S.Select, SumOver;
    if reports == [] {
      assert Keys(reports) == {};
      SumOverNoKeys(Bag(env));
      S.SelectNothing(env.dataset.column, env.selection);
    } else {
      var key := reports[0].key;
      ReportsBag(env, reports[1..]);
      KeysRest(reports);
      SumOverRemove(Keys(reports), Bag(env), key);
      S.SelectAppend(env.dataset.column, env.selection, AllRows(reports[1..], env.objects), Flatten(env.objects[key]));
    }
  }

  lemma KeysRest(reports: seq<W.Part>)
    requires reports != [] && forall i, j :: 0 <= i < j < |reports| ==> reports[i].key != reports[j].key
    ensures reports[0].key in Keys(reports) && Keys(reports) - {reports[0].key} == Keys(reports[1..])
  {
    forall k | k in Keys(reports) && k != reports[0].key ensures k in Keys(reports[1..]) {
      var i :| 0 <= i < |reports| && reports[i].key == k;
      assert reports[1..][i - 1].key == k;
    }
    forall k | k in Keys(reports[1..]) ensures k in Keys(reports) && k != reports[0].key {
      var i :| 0 <= i < |reports[1..]| && reports[1..][i].key == k;
      assert reports[i + 1].key == k;
    }
  }

  /** Selecting from the same rows in another order gives the same rows in another order. */
  lemma {:induction false} SelectBag(column: string, selection: S.Selection, a: seq<Row>, b: seq<Row>)
    requires multiset(a) == multiset(b)
    ensures multiset(S.Select(column, selection, a)) == multiset(S.Select(column, selection, b))
    decreases |a|
  {
    hide S.Select;
    if a == [] {
      assert |multiset(b)| == 0;
      assert b == [];
    } else {
      var i := FirstAmong(a, b);
      assert a[..0] + a[1..] == a[1..];
      SelectBag(column, selection, a[1..], b[..i] + b[i + 1..]);
      SelectRemove(column, selection, a, 0);
      SelectRemove(column, selection, b, i);
    }
  }

  /** The first element of one order, found in the other. */
  lemma FirstAmong<T>(a: seq<T>, b: seq<T>) returns (i: nat)
    requires multiset(a) == multiset(b) && a != []
    ensures i < |b| && b[i] == a[0] && multiset(a[1..]) == multiset(b[..i] + b[i + 1..])
  {
    assert a[0] in multiset(b);
    i :| 0 <= i < |b| && b[i] == a[0];
    RemoveAt(b, i);
    assert a == [a[0]] + a[1..];
    assert multiset(a) == multiset{a[0]} + multiset(a[1..]);
  }

  lemma RemoveAt<T>(rows: seq<T>, i: nat)
    requires i < |rows|
    ensures multiset(rows[..i] + rows[i + 1..]) == multiset(rows) - multiset{rows[i]}
  {
    assert rows == rows[..i] + [rows[i]] + rows[i + 1..];
  }

  lemma SelectRemove(column: string, selection: S.Selection, rows: seq<Row>, i: nat)
    requires i < |rows|
    ensures multiset(S.Select(column, selection, rows)) ==
            multiset(S.Select(column, selection, rows[..i] + rows[i + 1..]))
            + multiset(S.Select(column, selection, [rows[i]]))
  {
    hide S.Select;
    assert rows == rows[..i] + ([rows[i]] + rows[i + 1..]);
    S.SelectAppend(column, selection, rows[..i], [rows[i]] + rows[i + 1..]);
    S.SelectAppend(column, selection, [rows[i]], rows[i + 1..]);
    S.SelectAppend(column, selection, rows[..i], rows[i + 1..]);
  }

  // ---------- The theorem ----------

  /** Every listing of a planned partition names only parts of that partition. */
  ghost predicate SegmentScoped(env: S.Env, first: int, plans: seq<P.Partition>) {
    forall i :: 0 <= i < |plans| ==> ExtraKeys(env, first + i, plans[i]) == {}
  }

  lemma {:induction false} ScopedHasNoExtra(env: S.Env, first: int, plans: seq<P.Partition>)
    requires SegmentScoped(env, first, plans)
    ensures ExtraRows(env, first, plans) == multiset{}
    decreases |plans|
  {
    hide ExtraKeys, SumOver;
    if plans != [] {
      assert forall i :: 0 <= i < |plans[1..]| ==> plans[1..][i] == plans[i + 1];
      ScopedHasNoExtra(env, first + 1, plans[1..]);
      assert ExtraKeys(env, first + 0, plans[0]) == {};
      SumOverNoKeys(Bag(env));
    }
  }

  /** The parts written by the run hold exactly the accepted rows, for any query. */
  lemma WrittenRows(wenv: W.Env, w0: W.World, inputs: seq<seq<Row>>, env: S.Env)
    requires Startable(wenv, w0) && Run(wenv, w0, inputs).result.Ok? && Placed(wenv.dataset, w0.store)
    requires env.dataset == wenv.dataset && env.objects == Run(wenv, w0, inputs).world.store
    ensures Placed(env.dataset, env.objects)
    ensures SumOver(PartKeys(env.dataset, env.objects), Bag(env)) ==
            multiset(S.Select(env.dataset.column, env.selection, Flatten(inputs)))
            + SumOver(PartKeys(env.dataset, w0.store), Bag(env))
  {
    hide Run, S.Select, Placed, PartOk, SumOver, PartKeys, Bag, Startable;
    var o := Run(wenv, w0, inputs);
    var s := o.result.value;
    SuccessfulRun(wenv, w0, inputs);
    StoreAfterRun(wenv, w0, s, o.world);
    SumOverUnion(PartKeys(env.dataset, w0.store), Keys(s.reports), Bag(env));
    forall i | 0 <= i < |s.reports| ensures s.reports[i].key in env.objects {
      assert s.reports[i].key in Keys(s.reports);
    }
    ReportsBag(env, s.reports);
    SelectBag(env.dataset.column, env.selection, AllRows(s.reports, env.objects), Flatten(inputs));
  }

  /**
   End to end. After a successful run, draining a stream over any planned range returns,
   as a bag, exactly the accepted rows that the query selects, each once and projected,
   together with the selected rows of the parts that were in the dataset before; given
   that listings are scoped to path segments.
   */
  lemma WriteThenRead(wenv: W.Env, w0: W.World, inputs: seq<seq<Row>>, env: S.Env, query: S.Query)
    requires Startable(wenv, w0) && Run(wenv, w0, inputs).result.Ok? && Placed(wenv.dataset, w0.store)
    requires env.dataset == wenv.dataset && env.objects == Run(wenv, w0, inputs).world.store
    requires Reads(env, query)
    requires SegmentScoped(env, FirstBucket(env.dataset, query), Partitions(env, query))
    requires S.Drain(env, S.Start(Partitions(env, query))).ok
    ensures multiset(Flatten(S.Drain(env, S.Start(Partitions(env, query))).batches)) ==
            multiset(S.Select(env.dataset.column, env.selection, Flatten(inputs)))
            + SumOver(PartKeys(env.dataset, w0.store), Bag(env))
  {
    hide Run, S.Select, Placed, SumOver, PartKeys, Bag, Startable, S.Drain, Reads, SegmentScoped, FirstBucket,
         Partitions;
    WrittenRows(wenv, w0, inputs, env);
    ScopedHasNoExtra(env, FirstBucket(env.dataset, query), Partitions(env, query));
    DrainedRows(env, query);
  }

  // ---------- When the drain meets no error ----------

  /** The rows of every Parquet object have all columns of the schema. */
  ghost predicate Carries(dataset: Dataset, objects: map<string, File>) {
    forall key, row, name ::
      key in objects && S.IsParquet(key) && row in Flatten(objects[key]) && name in dataset.names ==>
      name in row
  }

  lemma {:induction false} FittingRows(wenv: W.Env, file: File, row: Row)
    requires W.BatchesFit(wenv, file) && row in Flatten(file)
    ensures forall name :: name in wenv.dataset.names ==> name in row
  {
    if row in file[0] {
      assert row.Keys == (set name | name in wenv.dataset.names);
    } else {
      FittingRows(wenv, file[1..], row);
    }
  }

  /** The rows that a run has written have all columns of the schema. */
  lemma StoreCarries(wenv: W.Env, w0: W.World, s: W.State, w: W.World)
    requires StoreOk(w0, s, w) && Carries(wenv.dataset, w0.store)
    requires forall i :: 0 <= i < |s.reports| ==> PartOk(wenv, w0.writers, w, s.reports[i])
    ensures Carries(wenv.dataset, w.store)
  {
    hide W.BatchesFit, Flatten, S.IsParquet, Describes, PartNumbered;
    forall key, row | key in w.store && S.IsParquet(key) && row in Flatten(w.store[key])
      ensures forall name :: name in wenv.dataset.names ==> name in row
    {
      if key in Keys(s.reports) {
        var i :| 0 <= i < |s.reports| && s.reports[i].key == key;
        assert PartOk(wenv, w0.writers, w, s.reports[i]);
        FittingRows(wenv, w.store[key], row);
      } else {
        assert key in w0.store && w.store[key] == w0.store[key];
      }
    }
  }

  /** Every planned partition can be listed, and the Parquet files that its listing names are there. */
  ghost predicate Listable(env: S.Env, plans: seq<P.Partition>) {
    forall i :: 0 <= i < |plans| ==>
      && env.list(S.Prefix(env, plans[i])).Listed?
      && forall key :: key in S.ListedFiles(env, plans[i]) ==> key in env.objects && S.IsParquet(key)
  }

  /** A stream without faults over such listings and complete rows opens everything that it finds. */
  lemma ListableServes(env: S.Env, query: S.Query)
    requires Reads(env, query) && Listable(env, Partitions(env, query)) && Carries(env.dataset, env.objects)
    requires forall n: nat :: !env.faults(n)
    ensures S.Drain(env, S.Start(Partitions(env, query))).ok
  {
    hide Placed, Lists, FirstBucket, S.Prefix, S.ListedFiles, S.IsParquet, S.Drain, S.Projection, Flatten, Chunk;
    var plans := Partitions(env, query);
    forall i, key | 0 <= i < |plans| && key in S.ListedFiles(env, plans[i]) ensures S.OpenReader(env, key).Some? {
      assert forall name :: name in env.selection.internal ==> name in env.dataset.names;
    }
    hide S.Open, S.OpenReader;
    S.DrainServed(env, S.Start(plans));
  }

  /** The store left by a successful run carries all columns. */
  lemma RunCarries(wenv: W.Env, w0: W.World, inputs: seq<seq<Row>>)
    requires Startable(wenv, w0) && Run(wenv, w0, inputs).result.Ok? && Carries(wenv.dataset, w0.store)
    ensures Carries(wenv.dataset, Run(wenv, w0, inputs).world.store)
  {
    hide Run, PartOk, StoreOk, Startable, Carries;
    SuccessfulRun(wenv, w0, inputs);
    StoreCarries(wenv, w0, Run(wenv, w0, inputs).result.value, Run(wenv, w0, inputs).world);
  }

  lemma ScopedIsListable(env: S.Env, first: int, plans: seq<P.Partition>)
    requires SegmentScoped(env, first, plans)
    requires forall i :: 0 <= i < |plans| ==> env.list(S.Prefix(env, plans[i])).Listed?
    ensures Listable(env, plans)
  {
    hide S.Prefix, S.ListedFiles, S.IsParquet, Below;
    forall i, key | 0 <= i < |plans| && key in S.ListedFiles(env, plans[i])
      ensures key in env.objects && S.IsParquet(key) {
      assert ExtraKeys(env, first + i, plans[i]) == {};
      assert key !in ExtraKeys(env, first + i, plans[i]);
    }
  }

  /**
   End to end without a hypothesis on the drain: over listings that are given and scoped, a stream without faults
   meets no error in the store that a run has left, and returns what was written.
   */
  lemma WriteThenReadServed(wenv: W.Env, w0: W.World, inputs: seq<seq<Row>>, env: S.Env, query: S.Query)
    requires Startable(wenv, w0) && Run(wenv, w0, inputs).result.Ok? && Placed(wenv.dataset, w0.store)
    requires env.dataset == wenv.dataset && env.objects == Run(wenv, w0, inputs).world.store
    requires Carries(wenv.dataset, w0.store) && forall n: nat :: !env.faults(n)
    requires Reads(env, query)
    requires SegmentScoped(env, FirstBucket(env.dataset, query), Partitions(env, query))
    requires forall i :: 0 <= i < |Partitions(env, query)| ==>
               env.list(S.Prefix(env, Partitions(env, query)[i])).Listed?
    ensures var d := S.Drain(env, S.Start(Partitions(env, query)));
            && d.ok
            && multiset(Flatten(d.batches)) ==
               multiset(S.Select(env.dataset.column, env.selection, Flatten(inputs)))
               + SumOver(PartKeys(env.dataset, w0.store), Bag(env))
  {
    hide *;
    RunCarries(wenv, w0, inputs);
    ScopedIsListable(env, FirstBucket(env.dataset, query), Partitions(env, query));
    ListableServes(env, query);
    WriteThenRead(wenv, w0, inputs, env, query);
  }
}
