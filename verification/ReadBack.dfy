/**
 What draining a dataset stream returns, in terms of the objects in the store: the
 selected rows of every part of the dataset once, plus whatever a listing returns
 from outside the listed partition.
 */
module ReadBack {
  import opened Text
  import opened Sequences
  import opened Rows
  import opened Datasets
  import opened Listing
  import opened DatasetStream
  import opened Bags
  import W = DatasetWriter
  import P = TimePartition

  // ---------- The parts of a dataset ----------

  function Path(dataset: Dataset, k: int): string {
    P.PathOf(dataset.granularity, P.BucketStart(dataset.granularity, k))
  }

  /** The key lies under the directory of partition k. */
  predicate Below(dataset: Dataset, k: int, key: string) {
    dataset.prefix + Path(dataset, k) + "/" <= key
  }

  predicate RowIn(dataset: Dataset, k: int, row: Row) {
    var located := W.Locate(dataset, row);
    located.Ok? && located.value.partition.path == Path(dataset, k)
  }

  /** Every row under a partition's directory belongs to that partition. */
  ghost predicate Placed(dataset: Dataset, objects: map<string, File>) {
    forall key, k, row :: key in objects && Below(dataset, k, key) && row in Flatten(objects[key]) ==>
      RowIn(dataset, k, row)
  }

  ghost predicate InDataset(dataset: Dataset, key: string) {
    exists k :: Below(dataset, k, key)
  }

  /** The parts of the dataset among the objects. */
  ghost function PartKeys(dataset: Dataset, objects: map<string, File>): set<string> {
    set key | key in objects && IsParquet(key) && InDataset(dataset, key)
  }

  ghost function OwnKeys(dataset: Dataset, objects: map<string, File>, k: int): set<string> {
    set key | key in objects && IsParquet(key) && Below(dataset, k, key)
  }

  /** The selected rows of one object, as a bag. */
  ghost function Bag(env: Env): string -> multiset<Row> {
    (key: string) => multiset(FileRows(env, key))
  }

  /** The directories of different partitions do not overlap. */
  lemma BelowOnce(dataset: Dataset, a: int, b: int, key: string)
    requires Below(dataset, a, key) && Below(dataset, b, key)
    ensures a == b
  {
    hide P.PathOf, P.BucketStart, Count;
    var g := dataset.granularity;
    P.PathSplits(g, P.BucketStart(g, a));
    P.PathSplits(g, P.BucketStart(g, b));
    hide P.Names, Split;
    SameSegments(dataset.prefix, Path(dataset, a), Path(dataset, b), key);
    P.PathInjective(g, a, b);
  }

  /** Of two paths with equally many slashes, both followed by one in a key, neither is longer. */
  lemma SameSegments(prefix: string, s: string, t: string, key: string)
    requires prefix + s + "/" <= key && prefix + t + "/" <= key && Count(s, '/') == Count(t, '/')
    ensures s == t
  {
    hide Count;
    var rest := key[|prefix|..];
    UnderPrefix(prefix, s, key);
    UnderPrefix(prefix, t, key);
    if |s| <= |t| {
      ShorterHasFewer(s, t, rest, '/');
    } else {
      ShorterHasFewer(t, s, rest, '/');
    }
  }

  lemma UnderPrefix(prefix: string, path: string, key: string)
    requires prefix + path + "/" <= key
    ensures path + ['/'] <= key[|prefix|..] && path <= key[|prefix|..]
  {
    var rest := key[|prefix|..];
    assert prefix + path + "/" == key[..|prefix| + |path| + 1];
    assert rest[..|path| + 1] == key[|prefix|..|prefix| + |path| + 1] == path + ['/'];
    assert rest[..|path|] == path;
  }

  // ---------- Rows and time ----------

  /** A selected row of partition k lies in the planned range. */
  lemma SelectedInRange(dataset: Dataset, query: Query, k: int, row: Row)
    requires IsI64(query.from) && IsI64(query.until) && Open(dataset, query).Some?
    requires RowIn(dataset, k, row)
    requires Selected(dataset.column, Open(dataset, query).value.selection, row)
    ensures var plans := Open(dataset, query).value.partitions;
            query.from < query.until && 0 <= k - FirstBucket(dataset, query) < |plans|
  {
    hide P.PathOf, P.BucketStart, P.Bucket, P.BuildPartition, P.InstantOf, P.OverlapCount;
    var g := dataset.granularity;
    var t := row[dataset.column].n * P.Factor(dataset.unit);
    RowBucket(dataset, k, row);
    var from, until := query.from * P.Factor(dataset.unit), query.until * P.Factor(dataset.unit);
    PlannedInstants(dataset, query);
    assert from <= t <= until - 1;
    P.BucketMonotone(g, from, t);
    P.BucketMonotone(g, t, until - 1);
    P.PlanEntry(dataset.window, from, until, g, query.limit, 0);
    CountIs(g, from, until);
  }

  lemma CountIs(g: P.Granularity, from: P.Instant, until: P.Instant)
    requires from < until
    ensures P.OverlapCount(g, from, until) == P.Bucket(g, until - 1) - P.Bucket(g, from) + 1
  {
  }

  function FirstBucket(dataset: Dataset, query: Query): int {
    P.Bucket(dataset.granularity, query.from * P.Factor(dataset.unit))
  }

  /** A plan exists only for instants of the window, in order. */
  lemma PlannedInstants(dataset: Dataset, query: Query)
    requires IsI64(query.from) && IsI64(query.until) && Open(dataset, query).Some?
    ensures var from, until := query.from * P.Factor(dataset.unit), query.until * P.Factor(dataset.unit);
            && dataset.window.Has(from) && dataset.window.Has(until) && from <= until
            && (from == until ==> Open(dataset, query).value.partitions == [])
            && (from < until ==>
                  P.Planned(dataset.window, from, until, dataset.granularity, query.limit)
                  == P.Ok(Open(dataset, query).value.partitions))
  {
    hide P.Planned, Projection, InternalNames;
  }

  /** The row's time lies in the partition that its path names. */
  lemma RowBucket(dataset: Dataset, k: int, row: Row)
    requires RowIn(dataset, k, row)
    ensures dataset.column in row && row[dataset.column].Int?
    ensures P.Bucket(dataset.granularity, row[dataset.column].n * P.Factor(dataset.unit)) == k
  {
    hide P.PathOf, P.BucketStart, P.Bucket, P.BuildPartition;
    var g := dataset.granularity;
    var t := row[dataset.column].n * P.Factor(dataset.unit);
    P.BuildIsBucket(dataset.window, t, g);
    P.PathInjective(g, P.Bucket(g, t), k);
  }

  // ---------- Listed keys ----------

  /** What the listing of partition i names beyond the parts of that partition. */
  ghost function ExtraKeys(env: Env, first: int, partition: P.Partition): set<string> {
    (set key | key in ListedFiles(env, partition)) - OwnKeys(env.dataset, env.objects, first)
  }

  /** The selected rows read from outside the listed partitions, over a plan that begins at partition `first`. */
  ghost function ExtraRows(env: Env, first: int, plans: seq<P.Partition>): multiset<Row>
    decreases |plans|
  {
    if plans == [] then multiset{}
    else SumOver(ExtraKeys(env, first, plans[0]), Bag(env)) + ExtraRows(env, first + 1, plans[1..])
  }

  /** Each listing names no key twice, and all parts of its partition. */
  ghost predicate Lists(env: Env, first: int, plans: seq<P.Partition>) {
    forall i :: 0 <= i < |plans| ==>
      && Distinct(ListedFiles(env, plans[i]))
      && forall key :: key in OwnKeys(env.dataset, env.objects, first + i) ==> key in ListedFiles(env, plans[i])
  }

  ghost function OwnRange(env: Env, first: int, count: nat): set<string> {
    set key | key in env.objects && IsParquet(key) &&
              exists k :: first <= k < first + count && Below(env.dataset, k, key)
  }

  lemma {:induction false} FilesBag(env: Env, keys: seq<string>)
    requires Distinct(keys)
    ensures multiset(FilesRows(env, keys)) == SumOver((set key | key in keys), Bag(env))
  {
    if keys != [] {
      FilesBag(env, keys[1..]);
      var all, rest := (set key | key in keys), (set key | key in keys[1..]);
      assert keys == [keys[0]] + keys[1..];
      assert keys[0] !in keys[1..];
      assert all - {keys[0]} == rest;
      SumOverRemove(all, Bag(env), keys[0]);
    }
  }

  /** The drained rows, as a bag: all parts of the planned partitions, and the extra rows. */
  lemma {:induction false} PlansBag(env: Env, first: int, plans: seq<P.Partition>)
    requires Lists(env, first, plans)
    ensures multiset(PlansRows(env, plans)) ==
            SumOver(OwnRange(env, first, |plans|), Bag(env)) + ExtraRows(env, first, plans)
    decreases |plans|
  {
    hide ListedFiles, FilesRows, Below, IsParquet, Distinct, SumOver, Bag, OwnKeys, OwnRange;
    if plans == [] {
      EmptyRange(env, first);
      SumOverNoKeys(Bag(env));
    } else {
      var files := ListedFiles(env, plans[0]);
      var own, extra := OwnKeys(env.dataset, env.objects, first), ExtraKeys(env, first, plans[0]);
      FilesBag(env, files);
      ListedKeys(env, first, plans[0]);
      SumOverUnion(own, extra, Bag(env));
      forall i | 0 <= i < |plans[1..]|
        ensures Distinct(ListedFiles(env, plans[1..][i]))
        ensures forall key :: key in OwnKeys(env.dataset, env.objects, first + 1 + i) ==>
            key in ListedFiles(env, plans[1..][i])
      {
        assert plans[1..][i] == plans[i + 1];
      }
      PlansBag(env, first + 1, plans[1..]);
      RangeSplits(env, first, |plans|);
      SumOverUnion(own, OwnRange(env, first + 1, |plans| - 1), Bag(env));
    }
  }

  lemma EmptyRange(env: Env, first: int)
    ensures OwnRange(env, first, 0) == {}
  {
  }

  lemma ListedKeys(env: Env, first: int, partition: P.Partition)
    requires forall key :: key in OwnKeys(env.dataset, env.objects, first) ==> key in ListedFiles(env, partition)
    ensures (set key | key in ListedFiles(env, partition)) ==
            OwnKeys(env.dataset, env.objects, first) + ExtraKeys(env, first, partition)
  {
    hide ListedFiles, OwnKeys;
  }

  lemma RangeSplits(env: Env, first: int, count: nat)
    requires count > 0
    ensures OwnRange(env, first, count) ==
            OwnKeys(env.dataset, env.objects, first) + OwnRange(env, first + 1, count - 1)
    ensures OwnKeys(env.dataset, env.objects, first) !! OwnRange(env, first + 1, count - 1)
  {
    hide Below, IsParquet;
    forall key | key in OwnKeys(env.dataset, env.objects, first) ensures key !in OwnRange(env, first + 1, count - 1) {
      if key in OwnRange(env, first + 1, count - 1) {
        var k :| first + 1 <= k < first + count && Below(env.dataset, k, key);
        BelowOnce(env.dataset, first, k, key);
      }
    }
    forall key | key in OwnRange(env, first, count)
      ensures key in OwnKeys(env.dataset, env.objects, first) || key in OwnRange(env, first + 1, count - 1)
    {
      var k :| first <= k < first + count && Below(env.dataset, k, key);
    }
    forall key | key in OwnRange(env, first + 1, count - 1) ensures key in OwnRange(env, first, count) {
      var k :| first + 1 <= k < first + count && Below(env.dataset, k, key);
      assert first <= k < first + count;
    }
  }

  // ---------- The theorem ----------

  /** The stream reads this query of this store. */
  ghost predicate Reads(env: Env, query: Query) {
    && env.batchSize > 0 && env.dataset.column in env.dataset.names
    && IsI64(query.from) && IsI64(query.until)
    && Open(env.dataset, query).Some? && env.selection == Open(env.dataset, query).value.selection
    && Placed(env.dataset, env.objects)
    && Lists(env, FirstBucket(env.dataset, query), Open(env.dataset, query).value.partitions)
  }

  function Partitions(env: Env, query: Query): seq<P.Partition> {
    if IsI64(query.from) && IsI64(query.until) && Open(env.dataset, query).Some?
    then Open(env.dataset, query).value.partitions else []
  }

  /**
   Draining returns the selected rows of every part of the dataset exactly once, no
   matter how they are spread over partitions, files and batches, plus the selected
   rows of the objects that a listing names from outside its partition.
   */
  lemma DrainedRows(env: Env, query: Query)
    requires Reads(env, query) && Drain(env, Start(Partitions(env, query))).ok
    ensures multiset(Flatten(Drain(env, Start(Partitions(env, query))).batches)) ==
            SumOver(PartKeys(env.dataset, env.objects), Bag(env))
            + ExtraRows(env, FirstBucket(env.dataset, query), Partitions(env, query))
  {
    hide Drain, PlansRows, Open, Placed, Lists, FirstBucket, Bag, SumOver, Covers, Select, ExtraRows;
    var plans, first := Partitions(env, query), FirstBucket(env.dataset, query);
    OpenCovers(env.dataset, query, env);
    DrainRows(env, Start(plans));
    assert Remaining(env, Start(plans)) == PlansRows(env, plans);
    PlansBag(env, first, plans);
    forall key | key in PartKeys(env.dataset, env.objects) && key !in OwnRange(env, first, |plans|)
      ensures Bag(env)(key) == multiset{}
    {
      OutsideRange(env, query, key);
    }
    forall key | key in OwnRange(env, first, |plans|) ensures key in PartKeys(env.dataset, env.objects) {
    }
    SumOverSubset(OwnRange(env, first, |plans|), PartKeys(env.dataset, env.objects), Bag(env));
  }

  /** A part outside the planned partitions holds no selected row. */
  lemma OutsideRange(env: Env, query: Query, key: string)
    requires Reads(env, query)
    requires var first := FirstBucket(env.dataset, query);
             && key in PartKeys(env.dataset, env.objects)
             && key !in OwnRange(env, first, |Partitions(env, query)|)
    ensures Bag(env)(key) == multiset{}
  {
    hide Open, Lists, FirstBucket, Below, RowIn, IsParquet, Selected;
    var k :| Below(env.dataset, k, key);
    var rows := Flatten(env.objects[key]);
    var keep := (row: Row) => Selected(env.dataset.column, env.selection, row);
    forall row | row in rows ensures !keep(row) {
      assert RowIn(env.dataset, k, row);
      if keep(row) {
        SelectedInRange(env.dataset, query, k, row);
      }
    }
    FilterNone(keep, rows);
  }

  /** Exactly when the drained rows are the selected rows of the dataset, each once. */
  lemma ExactWhen(env: Env, query: Query)
    requires Reads(env, query) && Drain(env, Start(Partitions(env, query))).ok
    ensures multiset(Flatten(Drain(env, Start(Partitions(env, query))).batches)) ==
            SumOver(PartKeys(env.dataset, env.objects), Bag(env))
            <==> ExtraRows(env, FirstBucket(env.dataset, query), Partitions(env, query)) == multiset{}
  {
    hide Drain, Open, Placed, Lists, FirstBucket, Bag, SumOver, ExtraRows;
    DrainedRows(env, query);
    NothingAdded(SumOver(PartKeys(env.dataset, env.objects), Bag(env)),
                 ExtraRows(env, FirstBucket(env.dataset, query), Partitions(env, query)));
  }

  lemma NothingAdded(a: multiset<Row>, b: multiset<Row>)
    ensures a + b == a <==> b == multiset{}
  {
    if a + b == a {
      assert |a + b| == |a| + |b|;
    }
  }
}
