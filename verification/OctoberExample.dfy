/**
 A dataset of months with one part, in October 1970, read from January to October: the part is
 listed for January, which has no directory, and again for October.
 */
module OctoberExample {
  import opened Text
  import opened Sequences
  import opened Rows
  import opened Datasets
  import opened Listing
  import opened DatasetStream
  import opened Bags
  import opened ReadBack
  import opened LocalRead
  import Calendar
  import W = DatasetWriter
  import P = TimePartition

  const MONTHLY: Dataset := Dataset("", ["t"], "t", P.Second, P.Month, P.Window(0, 400))

  const KEY: string := "year=1970/month=10/x.parquet"

  /** The row of the first second of October. */
  const ROW: Row := map["t" := Int(86400 * 273)]

  const MONTHS: seq<Entry> := [Entry("month=10", DirNode([Entry("x.parquet", FileNode)]))]

  const TREE: seq<Entry> := [Entry("year=1970", DirNode(MONTHS))]

  const QUERY: Query := Query(0, 86400 * 304, None, None, 10, 12)

  const FIRST: int := 12 * 1970

  function Stream(): Env {
    Env(MONTHLY, Selection(0, 86400 * 304, None, ["t"], ["t"]), prefix => StoreList(TREE, prefix),
        map[KEY := [[ROW]]], 10, n => false)
  }

  // ---------- Time ----------

  lemma MonthStarts()
    ensures P.BucketStart(P.Month, FIRST) == 0
    ensures P.BucketStart(P.Month, FIRST + 9) == 273 * P.NANOS_PER_DAY
    ensures P.BucketStart(P.Month, FIRST + 10) == 304 * P.NANOS_PER_DAY
    ensures P.BucketStart(P.Month, FIRST + 11) == 334 * P.NANOS_PER_DAY
  {
    assert Calendar.YearStart(1970) == 0;
    assert Calendar.DaysBeforeMonth(1970, 3) == 59;
    assert Calendar.DaysBeforeMonth(1970, 5) == 120;
    assert Calendar.DaysBeforeMonth(1970, 7) == 181;
    assert Calendar.DaysBeforeMonth(1970, 9) == 243;
    assert Calendar.DaysBeforeMonth(1970, 10) == 273;
    assert Calendar.DaysBeforeMonth(1970, 11) == 304;
    assert Calendar.DaysBeforeMonth(1970, 12) == 334;
    assert Calendar.MonthAt(FIRST) == Calendar.Date(1970, 1, 1);
    assert Calendar.MonthAt(FIRST + 9) == Calendar.Date(1970, 10, 1);
    assert Calendar.MonthAt(FIRST + 10) == Calendar.Date(1970, 11, 1);
    assert Calendar.MonthAt(FIRST + 11) == Calendar.Date(1970, 12, 1);
  }

  /** The ten months from January to October are planned. */
  lemma TenMonths()
    ensures Open(MONTHLY, QUERY).Some? && Open(MONTHLY, QUERY).value.selection == Stream().selection
    ensures FirstBucket(MONTHLY, QUERY) == FIRST && |Partitions(Stream(), QUERY)| == 10
  {
    hide P.BucketStart, P.Bucket, P.Canonical;
    MonthStarts();
    P.BucketRange(P.Month, 0, FIRST);
    P.BucketStartsAt(P.Month, FIRST);
    var until := 304 * P.NANOS_PER_DAY;
    P.BucketRange(P.Month, until - 1, FIRST + 9);
    FirstMonthEnds();
    assert InternalNames(MONTHLY, ["t"], None) == ["t"];
  }

  lemma FirstMonthEnds()
    ensures P.BucketStart(P.Month, FIRST) <= 0 < P.BucketStart(P.Month, FIRST + 1)
  {
    hide P.BucketStart;
    MonthStarts();
    P.BucketStartsAt(P.Month, FIRST);
  }

  lemma RowInOctober()
    ensures RowIn(MONTHLY, FIRST + 9, ROW)
  {
    hide P.BucketStart, P.Bucket, P.PathOf, P.BuildPartition;
    MonthStarts();
    var t := 273 * P.NANOS_PER_DAY;
    P.BuildIsBucket(MONTHLY.window, t, P.Month);
    P.BucketRange(P.Month, t, FIRST + 9);
  }

  // ---------- Paths ----------

  lemma Digits()
    ensures ShowInt(1970) == "1970" && ShowInt(10) == "10" && ShowInt(1) == "1"
  {
    SmallNumbers();
    assert ShowNat(19) == ShowNat(1) + ['9'];
    assert ShowNat(197) == ShowNat(19) + ['7'];
    assert ShowNat(1970) == ShowNat(197) + ['0'];
  }

  lemma Paths()
    ensures Path(MONTHLY, FIRST) == "year=1970/month=1" && Path(MONTHLY, FIRST + 9) == "year=1970/month=10"
  {
    hide ShowInt, P.PathOf, P.BucketStart;
    Digits();
    MonthPath(1970, 1);
    MonthPath(1970, 10);
  }

  lemma KeyInOctober()
    ensures Below(MONTHLY, FIRST + 9, KEY) && IsParquet(KEY)
  {
    hide Path;
    Paths();
    assert "year=1970/month=10" + "/" <= KEY;
    assert KEY[|KEY| - 8..] == ".parquet";
  }

  // ---------- The tree ----------

  lemma TreeHolds()
    ensures WellFormed(TREE) && Walk(TREE) == [KEY]
  {
    hide WellFormed, Walk;
    OneFile("year=1970", "month=10", "x.parquet");
    assert "year=1970" + "/" + ("month=10" + "/" + "x.parquet") == KEY;
    TreeNames();
  }

  lemma TreeNames()
    ensures WellFormed(TREE)
  {
    assert WellFormed(MONTHS);
  }

  lemma OneFile(year: string, month: string, name: string)
    ensures Walk([Entry(year, DirNode([Entry(month, DirNode([Entry(name, FileNode)]))]))])
         == [year + "/" + (month + "/" + name)]
  {
    var file := Entry(name, FileNode);
    var months := Entry(month, DirNode([file]));
    WalkOne(file);
    UnderOne(month + "/", name);
    WalkOne(months);
    UnderOne(year + "/", month + "/" + name);
    WalkOne(Entry(year, DirNode([months])));
  }

  lemma WalkOne(e: Entry)
    ensures Walk([e]) == EntryKeys(e)
  {
    assert [e][1..] == [] && Walk([e][1..]) == [];
  }

  lemma UnderOne(directory: string, key: string)
    ensures Under(directory, [key]) == [directory + key]
  {
  }

  /** Every path of two segments is a directory, a file or missing; only October's is not missing. */
  lemma TwoSegments(path: seq<string>)
    requires |path| == 2
    ensures !Resolve(TREE, path).NotDirectory?
    ensures path[0] == "year=1970" && path[1] != "month=10" ==> Resolve(TREE, path).Missing?
  {
    assert TREE[1..] == [] && MONTHS[1..] == [];
    assert |path[1..]| == 1 && path[1..][0] == path[1];
    assert FindEntry(MONTHS, path[1]).Some? <==> path[1] == "month=10";
  }

  lemma Stored()
    ensures LocalStore(Stream(), TREE)
    ensures Placed(MONTHLY, Stream().objects)
  {
    hide Below, RowIn, IsParquet, StoreList, Walk;
    TreeHolds();
    KeyInOctober();
    RowInOctober();
    forall key, k, row | key in Stream().objects && Below(MONTHLY, k, key) && row in Flatten(Stream().objects[key])
      ensures RowIn(MONTHLY, k, row)
    {
      BelowOnce(MONTHLY, k, FIRST + 9, key);
      OneRow();
    }
  }

  lemma OneRow()
    ensures Flatten([[ROW]]) == [ROW]
  {
    assert [[ROW]][1..] == [];
  }

  lemma Local()
    ensures LocalStream(Stream(), TREE, QUERY)
  {
    hide LocalStore, Placed, Open;
    TenMonths();
    Stored();
  }

  /** The directory of each planned month has two segments. */
  lemma MonthDirectory(k: int)
    ensures |Split(Path(MONTHLY, k), '/')| == 2
  {
    hide P.BucketStart, P.Fields, Split;
    P.PathSplits(P.Month, P.BucketStart(P.Month, k));
  }

  lemma JanuaryMissing(env: Env)
    requires env == Stream()
    ensures DirectoryMissing(env, TREE, P.Canonical(P.Month, FIRST))
  {
    hide P.BucketStart, P.PathOf, Resolve, Split;
    Paths();
    var directory := Directory(env, P.Canonical(P.Month, FIRST));
    assert directory == "" + Path(MONTHLY, FIRST) == Path(MONTHLY, FIRST);
    TwoPieces("year=1970", "month=1");
    assert "year=1970" + "/" + "month=1" == "year=1970/month=1";
    assert Split(directory, '/') == ["year=1970", "month=1"];
    TwoSegments(["year=1970", "month=1"]);
  }

  lemma TwoPieces(a: string, b: string)
    requires '/' !in a && '/' !in b
    ensures Split(a + "/" + b, '/') == [a, b]
  {
    var pieces := [a, b];
    assert pieces[1..] == [b];
    assert Join(pieces, '/') == a + "/" + b;
    SplitJoin(pieces, '/');
  }

  /** Every month is listed, by itself or through the fallback, and every part that is found can be opened. */
  lemma Served()
    ensures Serves(Stream(), Start(Partitions(Stream(), QUERY)))
  {
    hide P.BucketStart, P.PathOf, Open, ListedFiles, OpenReader, LocalStore, FirstBucket, StoreList, IsParquet;
    TenMonths();
    Stored();
    var plans := Partitions(Stream(), QUERY);
    forall i | 0 <= i < |plans|
      ensures Stream().list(Prefix(Stream(), plans[i])).Listed?
      ensures forall key :: key in ListedFiles(Stream(), plans[i]) ==> OpenReader(Stream(), key).Some?
    {
      PlannedPartition(MONTHLY, QUERY, i);
      MonthListed(plans[i], FIRST + i);
    }
  }

  lemma MonthListed(partition: P.Partition, k: int)
    requires partition == P.Canonical(P.Month, k)
    ensures Stream().list(Prefix(Stream(), partition)).Listed?
    ensures forall key :: key in ListedFiles(Stream(), partition) ==> OpenReader(Stream(), key).Some?
  {
    hide P.BucketStart, P.PathOf, ListedFiles, StoreList, ListDirectory, Split, Resolve, LocalStore, Prefix, IsParquet,
         DirectoryMissing, Below;
    Stored();
    ListsDirectory(Stream(), TREE, partition, k);
    MonthDirectory(k);
    assert "" + partition.path == partition.path;
    var path := Split(partition.path, '/');
    TwoSegments(path);
    forall key | key in ListedFiles(Stream(), partition) ensures OpenReader(Stream(), key).Some? {
      ListedLocally(Stream(), TREE, partition, k, key);
      assert key in Stream().objects;
      OneRow();
    }
  }

  // ---------- The drain ----------

  lemma BagOfKey()
    ensures FileRows(Stream(), KEY) == [ROW]
    ensures PartKeys(MONTHLY, Stream().objects) == {KEY} == OwnKeys(MONTHLY, Stream().objects, FIRST + 9)
    ensures SumOver({KEY}, Bag(Stream())) == multiset{ROW}
  {
    hide Below, IsParquet, SumOver;
    OneRow();
    SelectOne("t", Stream().selection, ROW);
    assert Restrict(ROW, ["t"]) == ROW;
    KeyInOctober();
    SumOverRemove({KEY}, Bag(Stream()), KEY);
    SumOverNoKeys(Bag(Stream()));
    assert {KEY} - {KEY} == {};
  }

  lemma Twice(env: Env, query: Query)
    requires env == Stream() && query == QUERY
    ensures Drain(env, Start(Partitions(env, query))).ok
    ensures multiset(Flatten(Drain(env, Start(Partitions(env, query))).batches))[ROW] >= 2
  {
    hide Drain, Open, P.Canonical, P.BucketStart, P.PathOf, DirectoryMissing, SumOver, Bag, PartKeys, OwnKeys, Serves,
        LocalStream, FirstBucket, FileRows;
    Local();
    TenMonths();
    JanuaryMissing(env);
    PlannedPartition(env.dataset, query, 0);
    Served();
    DrainServed(env, Start(Partitions(env, query)));
    OctoberTwice(env, TREE, query, 1970);
    BagOfKey();
  }

  /** The dataset has one selected row, and the drain returns it at least twice. */
  lemma RowTwice()
    ensures LocalStream(Stream(), TREE, QUERY)
    ensures DirectoryMissing(Stream(), TREE, P.Canonical(P.Month, FIRST))
    ensures SumOver(PartKeys(MONTHLY, Stream().objects), Bag(Stream())) == multiset{ROW}
    ensures var d := Drain(Stream(), Start(Partitions(Stream(), QUERY)));
            d.ok && multiset(Flatten(d.batches))[ROW] >= 2
  {
    hide Drain, Open, P.Canonical, DirectoryMissing, SumOver, Bag, PartKeys, OwnKeys, LocalStream, FileRows, Partitions;
    Local();
    JanuaryMissing(Stream());
    Twice(Stream(), QUERY);
    BagOfKey();
  }
}
