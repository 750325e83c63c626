/**
 Keys and listing of a remote store (native/parquex_nif/src/s3.rs): the base key is joined
 in front of every object key and stripped from every listed one. The provider's listing
 is scoped to path segments, so a dataset over a remote store reads back exactly.
 */
module RemoteListing {
  import opened Text
  import opened Sequences
  import opened Rows
  import opened Datasets
  import opened Listing
  import opened Bags
  import opened ReadBack
  import opened DatasetRun
  import L = LocalRead
  import E = EndToEnd
  import S = DatasetStream
  import W = DatasetWriter
  import P = TimePartition

  // ---------- Keys ----------

  function TrimLeading(s: string): string {
    if s != "" && s[0] == '/' then TrimLeading(s[1..]) else s
  }

  /** `trim_matches('/')`. */
  function Trim(s: string): string {
    TrimSlashes(TrimLeading(s))
  }

  /** `join_key`. */
  function JoinKey(base: string, suffix: string): string {
    if Trim(base) == "" then Trim(suffix)
    else if Trim(suffix) == "" then Trim(base)
    else Trim(base) + "/" + Trim(suffix)
  }

  predicate Bare(key: string) {
    key != "" && key[0] != '/' && key[|key| - 1] != '/'
  }

  lemma {:induction false} TrimIdempotent(s: string)
    ensures Trim(s) == "" || Bare(Trim(s))
    ensures Bare(s) ==> Trim(s) == s
    ensures Trim(Trim(s)) == Trim(s)
  {
    TrimLeadingStarts(s);
    TrimSlashesEnds(TrimLeading(s));
    TrimSlashesEnds(s);
    if Trim(s) != "" {
      assert TrimLeading(Trim(s)) == Trim(s);
    }
  }

  lemma {:induction false} TrimLeadingStarts(s: string)
    ensures TrimLeading(s) == "" || TrimLeading(s)[0] != '/'
    decreases |s|
  {
    if s != "" && s[0] == '/' {
      TrimLeadingStarts(s[1..]);
    }
  }

  lemma {:induction false} TrimSlashesEnds(s: string)
    ensures TrimSlashes(s) <= s
    ensures var t := TrimSlashes(s); t == "" || t[|t| - 1] != '/'
    ensures TrimSlashes(TrimSlashes(s)) == TrimSlashes(s)
    decreases |s|
  {
    if s != "" && s[|s| - 1] == '/' {
      TrimSlashesEnds(s[..|s| - 1]);
    }
  }

  // ---------- Listing ----------

  /** The provider's listing: the objects strictly below a path, or all of them. */
  function Listable(bucket: seq<string>, path: string): seq<string> {
    if path == "" then bucket else Filter((key: string) => path + "/" <= key, bucket)
  }

  function Stripped(marker: string, keys: seq<string>): seq<string> {
    if keys == [] then []
    else [if marker <= keys[0] then keys[0][|marker|..] else keys[0]] + Stripped(marker, keys[1..])
  }

  /** `RemoteStore::list`. */
  function RemoteList(base: string, bucket: seq<string>, prefix: string): seq<string> {
    var keys := Sort(Listable(bucket, JoinKey(JoinKey(base, ""), prefix)));
    if Trim(base) == "" then keys else Stripped(Trim(base) + "/", keys)
  }

  /** The key of an object in the bucket. */
  function FullKey(base: string, key: string): string {
    if Trim(base) == "" then key else Trim(base) + "/" + key
  }

  lemma FullKeyIsJoined(base: string, key: string)
    requires Bare(key)
    ensures JoinKey(base, key) == FullKey(base, key) && JoinKey(JoinKey(base, ""), key) == FullKey(base, key)
  {
    TrimIdempotent(key);
    TrimIdempotent(base);
    TrimNothing();
  }

  lemma TrimNothing()
    ensures Trim("") == ""
  {
  }

  lemma {:induction false} StrippedMember(marker: string, keys: seq<string>, key: string)
    requires forall k :: k in keys ==> marker <= k
    ensures key in Stripped(marker, keys) <==> marker + key in keys
  {
    if keys != [] {
      assert forall k :: k in keys[1..] ==> k in keys;
      StrippedMember(marker, keys[1..], key);
      assert keys == [keys[0]] + keys[1..];
      assert keys[0] in keys && marker <= keys[0];
      assert keys[0] == marker + keys[0][|marker|..];
      assert (marker + key)[|marker|..] == key;
    }
  }

  lemma {:induction false} StrippedDistinct(marker: string, keys: seq<string>)
    requires Distinct(keys) && forall k :: k in keys ==> marker <= k
    ensures |Stripped(marker, keys)| == |keys| && Distinct(Stripped(marker, keys))
  {
    if keys != [] {
      assert keys[0] in keys && marker <= keys[0];
      assert forall k :: k in keys[1..] ==> k in keys;
      StrippedDistinct(marker, keys[1..]);
      var first, rest := keys[0][|marker|..], Stripped(marker, keys[1..]);
      StrippedMember(marker, keys[1..], first);
      assert keys[0] == marker + first && keys[0] !in keys[1..];
      forall i, j | 0 <= i < j < |keys| ensures Stripped(marker, keys)[i] != Stripped(marker, keys)[j] {
        if i > 0 {
          assert rest[i - 1] != rest[j - 1];
        } else {
          assert rest[j - 1] in rest;
        }
      }
    }
  }

  /** Listing a directory of a remote store names exactly the objects below it, once, whatever the base key. */
  lemma RemoteListsBelow(base: string, bucket: seq<string>, directory: string, key: string)
    requires Bare(directory) && Distinct(bucket)
    ensures key in RemoteList(base, bucket, directory) <==> FullKey(base, key) in bucket && directory + "/" <= key
    ensures Distinct(RemoteList(base, bucket, directory))
  {
    hide Trim, Sort, JoinKey;
    FullKeyIsJoined(base, directory);
    var path := FullKey(base, directory);
    var below := (k: string) => path + "/" <= k;
    var listable := Filter(below, bucket);
    FilterDistinct(below, bucket);
    SortDistinct(listable);
    SortSorts(listable);
    var keys := Sort(listable);
    if Trim(base) != "" {
      var marker := Trim(base) + "/";
      assert path + "/" == marker + (directory + "/");
      forall k | k in keys ensures marker <= k {
        assert k[..|path + "/"|] == path + "/";
        assert k[..|marker|] == marker;
      }
      StrippedDistinct(marker, keys);
      StrippedMember(marker, keys, key);
      CommonPrefix(marker, directory + "/", key);
    }
  }

  lemma CommonPrefix(marker: string, path: string, key: string)
    ensures marker + path <= marker + key <==> path <= key
  {
    if path <= key {
      assert (marker + key)[..|marker + path|] == marker + path;
    }
    if marker + path <= marker + key {
      assert path == (marker + path)[|marker|..] && key == (marker + key)[|marker|..];
      assert (marker + key)[..|marker + path|] == marker + path;
      assert key[..|path|] == path;
    }
  }

  // ---------- Reading a dataset back ----------

  /** The objects lie in a bucket under the base key, and the stream lists the bucket. */
  ghost predicate RemoteStore(env: S.Env, base: string, bucket: seq<string>) {
    && Distinct(bucket)
    && (forall key :: S.IsParquet(key) ==> (FullKey(base, key) in bucket <==> key in env.objects))
    && (forall prefix :: env.list(prefix) == Listed(RemoteList(base, bucket, TrimSlashes(prefix))))
    && (env.dataset.prefix == "" || env.dataset.prefix[0] != '/')
  }

  ghost predicate RemoteStream(env: S.Env, base: string, bucket: seq<string>, query: S.Query) {
    && RemoteStore(env, base, bucket)
    && env.batchSize > 0 && env.dataset.column in env.dataset.names
    && IsI64(query.from) && IsI64(query.until)
    && S.Open(env.dataset, query).Some? && env.selection == S.Open(env.dataset, query).value.selection
    && Placed(env.dataset, env.objects)
  }

  lemma ListedRemotely(env: S.Env, base: string, bucket: seq<string>, partition: P.Partition, k: int, key: string)
    requires RemoteStore(env, base, bucket) && partition == P.Canonical(env.dataset.granularity, k)
    ensures key in S.ListedFiles(env, partition) <==> key in OwnKeys(env.dataset, env.objects, k)
    ensures Distinct(S.ListedFiles(env, partition))
  {
    hide P.PathOf, P.BucketStart, RemoteList, S.ParquetKeys, S.IsParquet, FullKey, Distinct;
    L.PathEnd(env.dataset.granularity, P.BucketStart(env.dataset.granularity, k));
    PathHead(env.dataset.granularity, P.BucketStart(env.dataset.granularity, k));
    var directory := env.dataset.prefix + partition.path;
    assert directory[|directory| - 1] == partition.path[|partition.path| - 1];
    assert directory[0] == if env.dataset.prefix == "" then partition.path[0] else env.dataset.prefix[0];
    assert S.Prefix(env, partition) == directory + "/";
    L.TrimOne(directory);
    RemoteListsBelow(base, bucket, directory, key);
    L.ParquetKeysMember(RemoteList(base, bucket, directory), key);
    L.ParquetKeysDistinct(RemoteList(base, bucket, directory));
  }

  /** A partition path does not begin with a slash. */
  lemma PathHead(g: P.Granularity, start: P.Instant)
    ensures P.PathOf(g, start) != "" && P.PathOf(g, start)[0] != '/'
  {
    hide P.Fields, ShowInt;
    var names, fields := P.Names(g), P.Fields(g, start);
    var segments := P.Segments(names, fields);
    assert segments[0] == P.Segment(names[0], fields[0]);
  }

  /** Over a remote store every listing of a planned partition is scoped to it. */
  lemma RemoteReads(env: S.Env, base: string, bucket: seq<string>, query: S.Query)
    requires RemoteStream(env, base, bucket, query)
    ensures Reads(env, query)
    ensures E.SegmentScoped(env, FirstBucket(env.dataset, query), Partitions(env, query))
  {
    hide S.Open, Placed, FirstBucket, P.Canonical, S.ListedFiles, Below, S.IsParquet, Distinct, OwnKeys;
    var plans, first := S.Open(env.dataset, query).value.partitions, FirstBucket(env.dataset, query);
    forall i | 0 <= i < |plans|
      ensures Distinct(S.ListedFiles(env, plans[i]))
      ensures forall key :: key in S.ListedFiles(env, plans[i]) <==> key in OwnKeys(env.dataset, env.objects, first + i)
      ensures ExtraKeys(env, first + i, plans[i]) == {}
    {
      L.PlannedPartition(env.dataset, query, i);
      forall key ensures key in S.ListedFiles(env, plans[i]) <==> key in OwnKeys(env.dataset, env.objects, first + i) {
        ListedRemotely(env, base, bucket, plans[i], first + i, key);
      }
      ListedRemotely(env, base, bucket, plans[i], first + i, "");
    }
  }

  /**
   End to end over a remote store: after a successful run, draining a stream over any
   planned range returns exactly the accepted rows that the query selects, and those of the
   parts that were in the dataset before, each once.
   */
  lemma WriteThenReadRemotely(wenv: W.Env, w0: W.World, inputs: seq<seq<Row>>, env: S.Env, base: string,
      bucket: seq<string>, query: S.Query)
    requires Startable(wenv, w0) && Run(wenv, w0, inputs).result.Ok? && Placed(wenv.dataset, w0.store)
    requires env.dataset == wenv.dataset && env.objects == Run(wenv, w0, inputs).world.store
    requires RemoteStream(env, base, bucket, query)
    requires S.Drain(env, S.Start(Partitions(env, query))).ok
    ensures multiset(Flatten(S.Drain(env, S.Start(Partitions(env, query))).batches)) ==
            multiset(S.Select(env.dataset.column, env.selection, Flatten(inputs)))
            + SumOver(PartKeys(env.dataset, w0.store), Bag(env))
  {
    hide *;
    RemoteReads(env, base, bucket, query);
    E.WriteThenRead(wenv, w0, inputs, env, query);
  }

  /** The same with nothing assumed of the drain: without faults it meets no error in the store that the run has
      left. */
  lemma RemoteRoundTrip(wenv: W.Env, w0: W.World, inputs: seq<seq<Row>>, env: S.Env, base: string,
      bucket: seq<string>, query: S.Query)
    requires Startable(wenv, w0) && Run(wenv, w0, inputs).result.Ok? && Placed(wenv.dataset, w0.store)
    requires env.dataset == wenv.dataset && env.objects == Run(wenv, w0, inputs).world.store
    requires E.Carries(wenv.dataset, w0.store) && forall n: nat :: !env.faults(n)
    requires RemoteStream(env, base, bucket, query)
    ensures var d := S.Drain(env, S.Start(Partitions(env, query)));
            && d.ok
            && multiset(Flatten(d.batches)) ==
               multiset(S.Select(env.dataset.column, env.selection, Flatten(inputs)))
               + SumOver(PartKeys(env.dataset, w0.store), Bag(env))
  {
    RemoteListed(env, base, bucket, Partitions(env, query));
    hide *;
    RemoteReads(env, base, bucket, query);
    E.WriteThenReadServed(wenv, w0, inputs, env, query);
  }

  lemma RemoteListed(env: S.Env, base: string, bucket: seq<string>, plans: seq<P.Partition>)
    requires RemoteStore(env, base, bucket)
    ensures forall i :: 0 <= i < |plans| ==> env.list(S.Prefix(env, plans[i])).Listed?
  {
    hide RemoteList, S.Prefix, S.IsParquet, FullKey, TrimSlashes;
  }
}
