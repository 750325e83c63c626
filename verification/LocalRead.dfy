/**
 Draining a stream over a local store. A planned partition whose directory does not
 exist is listed through the string fallback of the store, which can name parts of
 another partition: with hour=1 absent and hour=10 present, listing hour=1 names the
 parts of hour=10.
 */
module LocalRead {
  import opened Text
  import opened Sequences
  import opened Rows
  import opened Datasets
  import opened Listing
  import opened DatasetStream
  import opened Bags
  import opened ReadBack
  import opened DatasetRun
  import Calendar
  import E = EndToEnd
  import W = DatasetWriter
  import P = TimePartition

  /** The parts in the tree are the objects, and the stream lists the tree. */
  ghost predicate LocalStore(env: Env, root: seq<Entry>) {
    && WellFormed(root)
    && (forall key :: IsParquet(key) ==> (key in Walk(root) <==> key in env.objects))
    && (forall prefix :: env.list(prefix) == StoreList(root, prefix))
  }

  /** The directory of a partition, as the store looks it up. */
  function Directory(env: Env, partition: P.Partition): string {
    env.dataset.prefix + partition.path
  }

  predicate DirectoryMissing(env: Env, root: seq<Entry>, partition: P.Partition) {
    Resolve(root, Split(Directory(env, partition), '/')).Missing?
  }

  lemma {:induction false} LastOfJoin(pieces: seq<string>)
    requires |pieces| >= 1 && pieces[|pieces| - 1] != ""
    ensures Join(pieces, '/') != ""
    ensures Join(pieces, '/')[|Join(pieces, '/')| - 1] == pieces[|pieces| - 1][|pieces[|pieces| - 1]| - 1]
  {
    if |pieces| > 1 {
      LastOfJoin(pieces[1..]);
    }
  }

  /** A partition path ends in a digit. */
  lemma PathEnd(g: P.Granularity, start: P.Instant)
    ensures P.PathOf(g, start) != "" && IsDigit(P.PathOf(g, start)[|P.PathOf(g, start)| - 1])
  {
    hide P.Fields, P.Names, ShowInt, Join;
    var names, fields := P.Names(g), P.Fields(g, start);
    var segments := P.Segments(names, fields);
    var n := |names| - 1;
    assert segments[n] == P.Segment(names[n], fields[n]);
    DigitEnd(fields[n]);
    LastOfJoin(segments);
  }

  lemma DigitEnd(n: int)
    ensures ShowInt(n) != "" && IsDigit(ShowInt(n)[|ShowInt(n)| - 1])
  {
  }

  /** The trailing slash that the stream adds is the one that the store removes. */
  lemma ListsDirectory(env: Env, root: seq<Entry>, partition: P.Partition, k: int)
    requires LocalStore(env, root) && partition == P.Canonical(env.dataset.granularity, k)
    ensures env.list(Prefix(env, partition)) == LocalList(root, Directory(env, partition))
    ensures Directory(env, partition) != "" && !IsParquet(Directory(env, partition))
  {
    hide LocalList, P.PathOf, P.BucketStart;
    PathEnd(env.dataset.granularity, P.BucketStart(env.dataset.granularity, k));
    var directory := Directory(env, partition);
    assert IsDigit(directory[|directory| - 1]);
    assert Prefix(env, partition) == directory + "/";
    TrimOne(directory);
    if IsParquet(directory) {
      ParquetEnd(directory);
    }
  }

  lemma ParquetEnd(key: string)
    requires IsParquet(key)
    ensures key[|key| - 1] == 't'
  {
    assert key[|key| - 8..][7] == 't';
  }

  lemma TrimOne(s: string)
    requires s != "" && s[|s| - 1] != '/'
    ensures TrimSlashes(s + "/") == s
  {
    assert (s + "/")[..|s|] == s;
  }

  lemma ParquetKeysMember(keys: seq<string>, key: string)
    ensures key in ParquetKeys(keys) <==> key in keys && IsParquet(key)
  {
    SortSorts(Filter(IsParquet, keys));
  }

  lemma ParquetKeysDistinct(keys: seq<string>)
    requires Distinct(keys)
    ensures Distinct(ParquetKeys(keys))
  {
    hide IsParquet;
    FilterDistinct(IsParquet, keys);
    SortDistinct(Filter(IsParquet, keys));
  }

  /** What listing one planned partition names. */
  lemma ListedLocally(env: Env, root: seq<Entry>, partition: P.Partition, k: int, key: string)
    requires LocalStore(env, root) && partition == P.Canonical(env.dataset.granularity, k)
    ensures key in ListedFiles(env, partition) <==>
            && IsParquet(key) && key in env.objects
            && (if DirectoryMissing(env, root, partition) then Directory(env, partition) <= key
                else Below(env.dataset, k, key))
    ensures DirectoryMissing(env, root, partition) ==>
              !(IsParquet(key) && key in env.objects && Below(env.dataset, k, key))
  {
    hide LocalList, P.PathOf, P.BucketStart, Walk, Resolve, IsParquet, ParquetKeys, Split, Join, WellFormed;
    ListsDirectory(env, root, partition, k);
    var directory := Directory(env, partition);
    var path := Split(directory, '/');
    SplitPath(directory);
    var listed := LocalList(root, directory);
    if listed.Listed? {
      ParquetKeysMember(listed.keys, key);
    }
    assert Below(env.dataset, k, key) <==> directory + "/" <= key;
    var below := if directory + "/" <= key then key[|directory| + 1..] else "";
    assert directory + "/" <= key ==> key == directory + "/" + below;
    KeysBelow(root, path, below);
    match Resolve(root, path)
    case Found(_) => ListsExisting(root, directory, key);
    case Missing => ListsMissing(root, directory, key);
    case NotDirectory => NotListed(root, directory);
  }

  lemma NotListed(root: seq<Entry>, directory: string)
    requires directory != "" && Resolve(root, Split(directory, '/')).NotDirectory?
    ensures LocalList(root, directory) == ListFailed
  {
  }

  /** The plan of a query is the consecutive partitions from its first one. */
  lemma PlannedPartition(dataset: Dataset, query: Query, i: nat)
    requires IsI64(query.from) && IsI64(query.until) && Open(dataset, query).Some?
    requires i < |Open(dataset, query).value.partitions|
    ensures Open(dataset, query).value.partitions[i] ==
            P.Canonical(dataset.granularity, FirstBucket(dataset, query) + i)
  {
    hide P.PathOf, P.BucketStart, P.Bucket, Open, P.Planned, P.Canonical;
    PlannedInstants(dataset, query);
    var from, until := query.from * P.Factor(dataset.unit), query.until * P.Factor(dataset.unit);
    P.PlanEntry(dataset.window, from, until, dataset.granularity, query.limit, i);
  }

  /** A stream over a local store: everything `Reads` asks for follows. */
  ghost predicate LocalStream(env: Env, root: seq<Entry>, query: Query) {
    && LocalStore(env, root)
    && env.batchSize > 0 && env.dataset.column in env.dataset.names
    && IsI64(query.from) && IsI64(query.until)
    && Open(env.dataset, query).Some? && env.selection == Open(env.dataset, query).value.selection
    && Placed(env.dataset, env.objects)
  }

  lemma LocalReads(env: Env, root: seq<Entry>, query: Query)
    requires LocalStream(env, root, query)
    ensures Reads(env, query)
  {
    hide Open, Placed, FirstBucket, P.Canonical, ListedFiles, Below, IsParquet, DirectoryMissing, Distinct;
    var plans, first := Open(env.dataset, query).value.partitions, FirstBucket(env.dataset, query);
    forall i | 0 <= i < |plans|
      ensures Distinct(ListedFiles(env, plans[i]))
      ensures forall key :: key in OwnKeys(env.dataset, env.objects, first + i) ==> key in ListedFiles(env, plans[i])
    {
      PlannedPartition(env.dataset, query, i);
      ListedOnce(env, root, plans[i], first + i);
      forall key | key in OwnKeys(env.dataset, env.objects, first + i) ensures key in ListedFiles(env, plans[i]) {
        ListedLocally(env, root, plans[i], first + i, key);
      }
    }
  }

  lemma ListedOnce(env: Env, root: seq<Entry>, partition: P.Partition, k: int)
    requires LocalStore(env, root) && partition == P.Canonical(env.dataset.granularity, k)
    ensures Distinct(ListedFiles(env, partition))
  {
    hide LocalList, ParquetKeys, WellFormed, P.Canonical;
    ListsDirectory(env, root, partition, k);
    var listed := LocalList(root, Directory(env, partition));
    if listed.Listed? {
      ListsInOrder(root, Directory(env, partition));
      ParquetKeysDistinct(listed.keys);
    }
  }

  /** A part that only the fallback names for partition i, and that holds a selected row. */
  ghost predicate Intrudes(env: Env, root: seq<Entry>, partition: P.Partition, key: string) {
    && DirectoryMissing(env, root, partition)
    && key in env.objects && IsParquet(key) && Directory(env, partition) <= key
    && FileRows(env, key) != []
  }

  lemma ExtraOfOne(env: Env, root: seq<Entry>, partition: P.Partition, k: int)
    requires LocalStore(env, root) && partition == P.Canonical(env.dataset.granularity, k)
    ensures SumOver(ExtraKeys(env, k, partition), Bag(env)) == multiset{} <==>
            !exists key :: Intrudes(env, root, partition, key)
  {
    hide SumOver, ListedFiles, FileRows, DirectoryMissing, IsParquet, Directory, Below, P.Canonical;
    var extra := ExtraKeys(env, k, partition);
    SumOverEmpty(extra, Bag(env));
    forall key
      ensures key in extra && Bag(env)(key) != multiset{} <==> Intrudes(env, root, partition, key)
    {
      ListedLocally(env, root, partition, k, key);
      assert multiset(FileRows(env, key)) == multiset{} <==> FileRows(env, key) == [] by {
        assert |multiset(FileRows(env, key))| == |FileRows(env, key)|;
      }
    }
  }

  lemma {:induction false} ExtraOfAll(env: Env, root: seq<Entry>, first: int, plans: seq<P.Partition>)
    requires LocalStore(env, root)
    requires forall i :: 0 <= i < |plans| ==> plans[i] == P.Canonical(env.dataset.granularity, first + i)
    ensures ExtraRows(env, first, plans) == multiset{} <==>
            forall i, key :: 0 <= i < |plans| ==> !Intrudes(env, root, plans[i], key)
    decreases |plans|
  {
    hide SumOver, ExtraKeys, Bag, Intrudes, P.Canonical, LocalStore;
    if plans != [] {
      ExtraOfOne(env, root, plans[0], first);
      assert forall i :: 0 <= i < |plans[1..]| ==> plans[1..][i] == plans[i + 1];
      ExtraOfAll(env, root, first + 1, plans[1..]);
      NeitherAdds(SumOver(ExtraKeys(env, first, plans[0]), Bag(env)), ExtraRows(env, first + 1, plans[1..]));
      assert forall i :: 0 < i < |plans| ==> plans[i] == plans[1..][i - 1];
      hide ExtraRows;
    }
  }

  lemma NeitherAdds(a: multiset<Row>, b: multiset<Row>)
    ensures a + b == multiset{} <==> a == multiset{} && b == multiset{}
  {
    assert |a + b| == |a| + |b|;
  }

  /**
   A drain over a local store returns the selected rows of the dataset, each once, if
   and only if no planned partition without a directory is continued, as a string, by
   the key of a part with a selected row.
   */
  lemma LocalDrainExact(env: Env, root: seq<Entry>, query: Query)
    requires LocalStream(env, root, query) && Drain(env, Start(Partitions(env, query))).ok
    ensures multiset(Flatten(Drain(env, Start(Partitions(env, query))).batches)) ==
            SumOver(PartKeys(env.dataset, env.objects), Bag(env))
            <==>
            forall i, key :: 0 <= i < |Partitions(env, query)| ==> !Intrudes(env, root, Partitions(env, query)[i], key)
  {
    hide Drain, Open, Placed, FirstBucket, Bag, SumOver, ExtraRows, Intrudes, P.Canonical, LocalStore, Lists, PartKeys;
    LocalReads(env, root, query);
    ExactWhen(env, query);
    var plans, first := Partitions(env, query), FirstBucket(env.dataset, query);
    forall i | 0 <= i < |plans| ensures plans[i] == P.Canonical(env.dataset.granularity, first + i) {
      PlannedPartition(env.dataset, query, i);
    }
    ExtraOfAll(env, root, first, plans);
  }

  /**
   End to end over a local store: the same holds if and only if no planned partition without
   a directory is continued, as a string, by the key of a part with a selected row.
   */
  lemma WriteThenReadLocally(wenv: W.Env, w0: W.World, inputs: seq<seq<Row>>, env: Env, root: seq<Entry>, query: Query)
    requires Startable(wenv, w0) && Run(wenv, w0, inputs).result.Ok? && Placed(wenv.dataset, w0.store)
    requires env.dataset == wenv.dataset && env.objects == Run(wenv, w0, inputs).world.store
    requires LocalStream(env, root, query)
    requires Drain(env, Start(Partitions(env, query))).ok
    ensures multiset(Flatten(Drain(env, Start(Partitions(env, query))).batches)) ==
            multiset(Select(env.dataset.column, env.selection, Flatten(inputs)))
            + SumOver(PartKeys(env.dataset, w0.store), Bag(env))
            <==> forall i, key :: 0 <= i < |Partitions(env, query)| ==>
                   !Intrudes(env, root, Partitions(env, query)[i], key)
  {
    hide *;
    E.WrittenRows(wenv, w0, inputs, env);
    LocalDrainExact(env, root, query);
  }

  /** No directory of a planned partition lies below a file. */
  ghost predicate Directories(env: Env, root: seq<Entry>, plans: seq<P.Partition>) {
    forall i :: 0 <= i < |plans| ==> !Resolve(root, Split(Directory(env, plans[i]), '/')).NotDirectory?
  }

  lemma LocallyListable(env: Env, root: seq<Entry>, query: Query)
    requires LocalStream(env, root, query) && Directories(env, root, Partitions(env, query))
    ensures E.Listable(env, Partitions(env, query))
  {
    hide Open, Placed, FirstBucket, P.Canonical, ListedFiles, Below, IsParquet, Prefix, LocalStore, Resolve, Split;
    var plans, first := Partitions(env, query), FirstBucket(env.dataset, query);
    forall i | 0 <= i < |plans|
      ensures env.list(Prefix(env, plans[i])).Listed?
      ensures forall key :: key in ListedFiles(env, plans[i]) ==> key in env.objects && IsParquet(key)
    {
      PlannedPartition(env.dataset, query, i);
      ListsDirectory(env, root, plans[i], first + i);
      forall key ensures key in ListedFiles(env, plans[i]) ==> key in env.objects && IsParquet(key) {
        ListedLocally(env, root, plans[i], first + i, key);
      }
    }
  }

  /**
   The same with nothing assumed of the drain: without faults, and with no file in the place of a directory, it
   meets no error in the store that the run has left.
   */
  lemma LocalRoundTrip(wenv: W.Env, w0: W.World, inputs: seq<seq<Row>>, env: Env, root: seq<Entry>, query: Query)
    requires Startable(wenv, w0) && Run(wenv, w0, inputs).result.Ok? && Placed(wenv.dataset, w0.store)
    requires env.dataset == wenv.dataset && env.objects == Run(wenv, w0, inputs).world.store
    requires E.Carries(wenv.dataset, w0.store) && forall n: nat :: !env.faults(n)
    requires LocalStream(env, root, query) && Directories(env, root, Partitions(env, query))
    ensures var d := Drain(env, Start(Partitions(env, query)));
            && d.ok
            && (multiset(Flatten(d.batches)) ==
                multiset(Select(env.dataset.column, env.selection, Flatten(inputs)))
                + SumOver(PartKeys(env.dataset, w0.store), Bag(env))
                <==> forall i, key :: 0 <= i < |Partitions(env, query)| ==>
                       !Intrudes(env, root, Partitions(env, query)[i], key))
  {
    hide *;
    E.RunCarries(wenv, w0, inputs);
    LocalReads(env, root, query);
    LocallyListable(env, root, query);
    E.ListableServes(env, query);
    WriteThenReadLocally(wenv, w0, inputs, env, root, query);
  }

  // ---------- The family on which it fails ----------

  /** In every year, the path of January continues to the path of October. */
  lemma JanuaryBeforeOctober(year: int)
    ensures P.PathOf(P.Month, P.BucketStart(P.Month, 12 * year)) <=
            P.PathOf(P.Month, P.BucketStart(P.Month, 12 * year + 9))
  {
    hide P.BucketStart, ShowInt;
    MonthPath(year, 1);
    MonthPath(year, 10);
    assert ShowInt(1) == "1" && ShowInt(10) == "10" by { SmallNumbers(); }
  }

  lemma SmallNumbers()
    ensures ShowInt(1) == "1" && ShowInt(10) == "10"
  {
    assert ShowNat(10) == ShowNat(1) + ['0'];
  }

  lemma MonthPath(year: int, month: int)
    requires 1 <= month <= 12
    ensures P.PathOf(P.Month, P.BucketStart(P.Month, 12 * year + month - 1)) ==
            "year=" + ShowInt(year) + "/" + ("month=" + ShowInt(month))
  {
    hide ShowInt, P.BucketStart, Calendar.DateOf;
    var k := 12 * year + month - 1;
    P.StartsMonth(k);
    Calendar.MonthAtIndex(year, month);
    var segments := P.Segments(["year", "month"], [year, month]);
    assert P.Fields(P.Month, P.BucketStart(P.Month, k)) == [year, month];
    assert segments[1..] == [P.Segment("month", month)];
    assert Join(segments, '/') == P.Segment("year", year) + ['/'] + P.Segment("month", month);
  }

  /** What one listing adds is part of what all listings add. */
  lemma {:induction false} ExtraAt(env: Env, first: int, plans: seq<P.Partition>, i: nat)
    requires i < |plans|
    ensures SumOver(ExtraKeys(env, first + i, plans[i]), Bag(env)) <= ExtraRows(env, first, plans)
    decreases i
  {
    hide SumOver, ExtraKeys, Bag;
    if i > 0 {
      ExtraAt(env, first + 1, plans[1..], i - 1);
    }
  }

  /** A part of October is named by the listing of January, when that has no directory. */
  lemma OctoberListed(env: Env, root: seq<Entry>, partition: P.Partition, year: int)
    requires LocalStore(env, root) && env.dataset.granularity == P.Month
    requires partition == P.Canonical(P.Month, 12 * year) && DirectoryMissing(env, root, partition)
    ensures OwnKeys(env.dataset, env.objects, 12 * year + 9) <= ExtraKeys(env, 12 * year, partition)
  {
    hide P.PathOf, P.BucketStart, ListedFiles, IsParquet, DirectoryMissing, LocalStore;
    JanuaryBeforeOctober(year);
    var january, october := Path(env.dataset, 12 * year), Path(env.dataset, 12 * year + 9);
    forall key | key in OwnKeys(env.dataset, env.objects, 12 * year + 9)
      ensures key in ListedFiles(env, partition) && !Below(env.dataset, 12 * year, key)
    {
      PrefixChain(env.dataset.prefix, january, october, key);
      ListedLocally(env, root, partition, 12 * year, key);
      if Below(env.dataset, 12 * year, key) {
        BelowOnce(env.dataset, 12 * year, 12 * year + 9, key);
      }
    }
  }

  /**
   Reading from January to October of a year with no directory for January: besides the selected rows of
   the dataset, each once, the drain returns those of October once more, so that they come twice.
   */
  lemma OctoberTwice(env: Env, root: seq<Entry>, query: Query, year: int)
    requires LocalStream(env, root, query) && Drain(env, Start(Partitions(env, query))).ok
    requires env.dataset.granularity == P.Month
    requires var i := 12 * year - FirstBucket(env.dataset, query);
             && 0 <= i < |Partitions(env, query)|
             && DirectoryMissing(env, root, Partitions(env, query)[i])
    ensures var exact := SumOver(PartKeys(env.dataset, env.objects), Bag(env));
            var october := SumOver(OwnKeys(env.dataset, env.objects, 12 * year + 9), Bag(env));
            var drained := multiset(Flatten(Drain(env, Start(Partitions(env, query))).batches));
            && exact + october <= drained
            && (forall key :: key in OwnKeys(env.dataset, env.objects, 12 * year + 9) && FileRows(env, key) != [] ==>
                  drained != exact)
  {
    hide *;
    LocalReads(env, root, query);
    DrainedRows(env, query);
    OctoberAdded(env, root, query, year);
    MoreThanExact(SumOver(PartKeys(env.dataset, env.objects), Bag(env)),
                  SumOver(OwnKeys(env.dataset, env.objects, 12 * year + 9), Bag(env)),
                  ExtraRows(env, FirstBucket(env.dataset, query), Partitions(env, query)));
    forall key | key in OwnKeys(env.dataset, env.objects, 12 * year + 9) && FileRows(env, key) != []
      ensures SumOver(OwnKeys(env.dataset, env.objects, 12 * year + 9), Bag(env)) != multiset{}
    {
      SumOverEmpty(OwnKeys(env.dataset, env.objects, 12 * year + 9), Bag(env));
      BagOfRows(env, key);
    }
  }

  lemma OctoberAdded(env: Env, root: seq<Entry>, query: Query, year: int)
    requires LocalStream(env, root, query) && env.dataset.granularity == P.Month
    requires var i := 12 * year - FirstBucket(env.dataset, query);
             && 0 <= i < |Partitions(env, query)|
             && DirectoryMissing(env, root, Partitions(env, query)[i])
    ensures SumOver(OwnKeys(env.dataset, env.objects, 12 * year + 9), Bag(env)) <=
            ExtraRows(env, FirstBucket(env.dataset, query), Partitions(env, query))
  {
    hide Open, Placed, FirstBucket, Bag, SumOver, LocalStore, ExtraRows, OwnKeys, ExtraKeys, P.Canonical,
         DirectoryMissing;
    var plans, first := Partitions(env, query), FirstBucket(env.dataset, query);
    var i := 12 * year - first;
    PlannedPartition(env.dataset, query, i);
    OctoberListed(env, root, plans[i], year);
    ExtraAt(env, first, plans, i);
    SumOverPart(OwnKeys(env.dataset, env.objects, 12 * year + 9), ExtraKeys(env, 12 * year, plans[i]), Bag(env));
  }

  lemma MoreThanExact(exact: multiset<Row>, some: multiset<Row>, extra: multiset<Row>)
    requires some <= extra
    ensures exact + some <= exact + extra
    ensures some != multiset{} ==> exact + extra != exact
  {
    NothingAdded(exact, extra);
    if some != multiset{} {
      var row :| row in some;
      assert extra[row] >= some[row];
    }
  }

  lemma BagOfRows(env: Env, key: string)
    requires FileRows(env, key) != []
    ensures Bag(env)(key) != multiset{}
  {
    assert |multiset(FileRows(env, key))| == |FileRows(env, key)|;
  }

  lemma SumOverPart(few: set<string>, all: set<string>, f: string -> multiset<Row>)
    requires few <= all
    ensures SumOver(few, f) <= SumOver(all, f)
  {
    hide SumOver;
    assert all == few + (all - few);
    SumOverUnion(few, all - few, f);
  }

  lemma PrefixChain(prefix: string, a: string, b: string, key: string)
    requires a <= b && prefix + b + "/" <= key
    ensures prefix + a <= key
  {
    assert prefix + b == key[..|prefix + b|];
    assert prefix + a == (prefix + b)[..|prefix + a|];
  }
}
