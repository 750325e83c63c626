/** Whole runs of the dataset writer: a list of writes that all succeed, then a close that succeeds. */
module DatasetRun {
  import opened Text
  import opened Sequences
  import opened Rows
  import opened Datasets
  import opened DatasetWriter
  import opened WriterRuns

  /** The accepted rows of one partition, in input order. */
  function RowsAt(env: Env, rows: seq<Row>, path: string): seq<Row> {
    Filter((row: Row) => RowAt(env, path, row), rows)
  }

  lemma {:induction false} RouteRowsKeep(env: Env, w0: World, s: State, w: World, rows: seq<Row>)
    requires Inv(env, w0, s, w) && NonEmpty(s) && NamesUnused(env, w0)
    ensures Ready(env, s, w)
    ensures var o := RouteRows(env, s, w, rows);
            o.result.Ok? ==>
              && Inv(env, w0, o.result.value, o.world) && NonEmpty(o.result.value)
              && (forall i :: 0 <= i < |rows| ==> Locate(env.dataset, rows[i]).Ok?)
              && forall p :: Total(o.result.value, o.world, p) == Total(s, w, p) + RowsAt(env, rows, p)
    decreases |rows|
  {
    hide Inv, Total, RouteRow, NamesUnused, NonEmpty, Locate, RowAt, Ready;
    InvReady(env, w0, s, w);
    if rows == [] {
      assert forall p :: Total(s, w, p) + RowsAt(env, rows, p) == Total(s, w, p);
    } else {
      RouteKeeps(env, w0, s, w, rows[0]);
      RouteFacts(env, s, w, rows[0]);
      var first := RouteRow(env, s, w, rows[0]);
      if first.result.Ok? {
        RouteRowsKeep(env, w0, first.result.value, first.world, rows[1..]);
        var o := RouteRows(env, first.result.value, first.world, rows[1..]);
        if o.result.Ok? {
          forall p
            ensures Total(o.result.value, o.world, p) == Total(s, w, p) + RowsAt(env, rows, p)
          {
            assert RowsAt(env, rows, p) ==
                 (if RowAt(env, p, rows[0]) then [rows[0]] else []) + RowsAt(env, rows[1..], p);
          }
        }
      }
    }
  }

  /** Closing publishes every open part. */
  lemma {:induction false} PublishAllKeeps(env: Env, w0: World, s: State, w: World, paths: seq<string>)
    requires Inv(env, w0, s, w) && NonEmpty(s) && NamesUnused(env, w0) && AgeOrder(s.active, paths)
    ensures Ready(env, s, w) && (forall i, j :: 0 <= i < j < |paths| ==> paths[i] != paths[j])
    ensures var o := PublishAll(env, s, w, paths).0;
            o.result.Ok? ==>
              && Inv(env, w0, o.result.value, o.world)
              && o.result.value.active == map[]
              && forall p :: Total(o.result.value, o.world, p) == Total(s, w, p)
    decreases |paths|
  {
    hide Inv, Total, PublishEntry, NamesUnused, Ready;
    InvReady(env, w0, s, w);
    if paths != [] {
      PublishKeeps(env, w0, s, w, paths[0]);
      PublishFacts(env, s, w, paths[0]);
      var first := PublishEntry(env, s, w, paths[0]);
      if first.result.Ok? {
        RestInOrder(s.active, paths, first.result.value.active);
        PublishAllKeeps(env, w0, first.result.value, first.world, paths[1..]);
      }
    }
  }

  lemma RestInOrder(active: map<string, Entry>, paths: seq<string>, rest: map<string, Entry>)
    requires AgeOrder(active, paths) && paths != [] && rest == active - {paths[0]}
    ensures AgeOrder(rest, paths[1..])
  {
    var tail := paths[1..];
    forall i | 0 <= i < |tail| ensures tail[i] in rest && rest[tail[i]] == active[paths[i + 1]] {
      assert active[paths[0]].access < active[paths[i + 1]].access;
    }
  }

  // ---------- The report ----------

  /** The rows of one partition as a reader of the report sees them: its parts in report order. */
  function ReportRows(parts: seq<Part>, store: map<string, File>, path: string): seq<Row> {
    if parts == [] then []
    else
      (if parts[0].partition == path && parts[0].key in store then Flatten(store[parts[0].key]) else [])
      + ReportRows(parts[1..], store, path)
  }

  lemma {:induction false} ReportRowsAppend(a: seq<Part>, part: Part, store: map<string, File>, path: string)
    ensures ReportRows(a + [part], store, path) ==
            ReportRows(a, store, path)
            + (if part.partition == path && part.key in store then Flatten(store[part.key]) else [])
  {
    if a != [] {
      assert (a + [part])[1..] == a[1..] + [part];
      ReportRowsAppend(a[1..], part, store, path);
    }
  }

  lemma {:induction false} ReportInOrder(reports: seq<Part>, store: map<string, File>, path: string)
    ensures ReportRows(Reverse(reports), store, path) == PartRows(reports, store, path)
  {
    if reports != [] {
      ReportInOrder(reports[1..], store, path);
      ReportRowsAppend(Reverse(reports[1..]), reports[0], store, path);
    }
  }

  /** All published rows, whatever their partition. */
  function AllRows(reports: seq<Part>, store: map<string, File>): seq<Row> {
    if reports == [] then []
    else AllRows(reports[1..], store) + (if reports[0].key in store then Flatten(store[reports[0].key]) else [])
  }

  predicate Located(env: Env, reports: seq<Part>, store: map<string, File>) {
    forall i :: 0 <= i < |reports| ==>
      reports[i].key in store && forall row :: row in Flatten(store[reports[i].key]) ==>
          RowAt(env, reports[i].partition, row)
  }

  lemma {:induction false} CountAtPath(env: Env, reports: seq<Part>, store: map<string, File>, path: string, row: Row)
    requires Located(env, reports, store) && RowAt(env, path, row)
    ensures multiset(PartRows(reports, store, path))[row] == multiset(AllRows(reports, store))[row]
  {
    hide RowAt;
    if reports != [] {
      CountAtPath(env, reports[1..], store, path, row);
      var rows := Flatten(store[reports[0].key]);
      if reports[0].partition != path && row in rows {
        assert RowAt(env, reports[0].partition, row);
        OnePath(env, path, reports[0].partition, row);
      }
    }
  }

  lemma OnePath(env: Env, p: string, q: string, row: Row)
    requires RowAt(env, p, row) && RowAt(env, q, row)
    ensures p == q
  {
  }

  lemma {:induction false} PublishedLocated(env: Env, reports: seq<Part>, store: map<string, File>, row: Row)
    requires Located(env, reports, store) && row in AllRows(reports, store)
    ensures Locate(env.dataset, row).Ok?
  {
    if row in AllRows(reports[1..], store) {
      PublishedLocated(env, reports[1..], store, row);
    } else {
      assert row in Flatten(store[reports[0].key]);
      assert RowAt(env, reports[0].partition, row);
    }
  }

  lemma {:induction false} FilterCount(keep: Row -> bool, rows: seq<Row>, row: Row)
    ensures multiset(Filter(keep, rows))[row] == if keep(row) then multiset(rows)[row] else 0
  {
    if rows != [] {
      FilterCount(keep, rows[1..], row);
      assert rows == [rows[0]] + rows[1..];
    }
  }

  /** If every partition has exactly its rows, then all rows together are exactly the accepted ones. */
  lemma SameMultiset(env: Env, reports: seq<Part>, store: map<string, File>, accepted: seq<Row>)
    requires Located(env, reports, store)
    requires forall i :: 0 <= i < |accepted| ==> Locate(env.dataset, accepted[i]).Ok?
    requires forall p :: PartRows(reports, store, p) == RowsAt(env, accepted, p)
    ensures multiset(AllRows(reports, store)) == multiset(accepted)
    ensures |AllRows(reports, store)| == |accepted|
  {
    var published := AllRows(reports, store);
    forall row ensures multiset(published)[row] == multiset(accepted)[row] {
      if Locate(env.dataset, row).Ok? {
        var path := Locate(env.dataset, row).value.partition.path;
        CountAtPath(env, reports, store, path, row);
        FilterCount((r: Row) => RowAt(env, path, r), accepted, row);
      } else {
        if row in published {
          PublishedLocated(env, reports, store, row);
        }
        assert row !in accepted;
      }
    }
    assert |multiset(published)| == |published| && |multiset(accepted)| == |accepted|;
  }

  lemma {:induction false} CountRows(reports: seq<Part>, store: map<string, File>)
    requires forall i :: 0 <= i < |reports| ==>
               reports[i].key in store && reports[i].rows == |Flatten(store[reports[i].key])|
    ensures MakeReport(reports).rows == |AllRows(reports, store)|
  {
    if reports != [] {
      CountRows(reports[1..], store);
      var f := (p: Part) => p.rows;
      MapAppend(f, Reverse(reports[1..]), [reports[0]]);
      SumAppend(Map(f, Reverse(reports[1..])), Map(f, [reports[0]]));
      assert Map(f, [reports[0]]) == [reports[0].rows];
      assert Sum([reports[0].rows]) == reports[0].rows + Sum([]);
    }
  }

  // ---------- The run ----------

  /** Successive calls of `write`, stopping at the first failure. */
  function RunWrites(env: Env, s: State, w: World, inputs: seq<seq<Row>>): Outcome
    requires Ready(env, s, w)
    decreases |inputs|
  {
    if inputs == [] then Outcome(Ok(s), w)
    else
      var first := RouteRows(env, s, w, inputs[0]);
      RouteRowsReady(env, s, w, inputs[0]);
      if first.result.Err? then first else RunWrites(env, first.result.value, first.world, inputs[1..])
  }

  lemma {:induction false} RouteRowsReady(env: Env, s: State, w: World, rows: seq<Row>)
    requires Ready(env, s, w)
    ensures var o := RouteRows(env, s, w, rows); o.result.Ok? ==> Ready(env, o.result.value, o.world)
    decreases |rows|
  {
    hide Ready, RouteRow;
    if rows != [] {
      RouteFacts(env, s, w, rows[0]);
      var first := RouteRow(env, s, w, rows[0]);
      if first.result.Ok? {
        RouteRowsReady(env, first.result.value, first.world, rows[1..]);
      }
    }
  }

  lemma {:induction false} RunWritesKeep(env: Env, w0: World, s: State, w: World, inputs: seq<seq<Row>>)
    requires Inv(env, w0, s, w) && NonEmpty(s) && NamesUnused(env, w0)
    ensures Ready(env, s, w)
    ensures var o := RunWrites(env, s, w, inputs);
            o.result.Ok? ==>
              && Inv(env, w0, o.result.value, o.world) && NonEmpty(o.result.value)
              && (forall i :: 0 <= i < |Flatten(inputs)| ==> Locate(env.dataset, Flatten(inputs)[i]).Ok?)
              && forall p :: Total(o.result.value, o.world, p) == Total(s, w, p) + RowsAt(env, Flatten(inputs), p)
    decreases |inputs|
  {
    hide Inv, Total, RouteRows, NamesUnused, NonEmpty, Locate, RowAt, Ready, RowsAt;
    InvReady(env, w0, s, w);
    if inputs == [] {
      assert forall p :: RowsAt(env, [], p) == [] by { NoRows(env); }
      assert forall p :: Total(s, w, p) + RowsAt(env, [], p) == Total(s, w, p);
    } else {
      RouteRowsKeep(env, w0, s, w, inputs[0]);
      RouteRowsReady(env, s, w, inputs[0]);
      var first := RouteRows(env, s, w, inputs[0]);
      if first.result.Ok? {
        RunWritesKeep(env, w0, first.result.value, first.world, inputs[1..]);
        var o := RunWrites(env, first.result.value, first.world, inputs[1..]);
        if o.result.Ok? {
          forall p
            ensures Total(o.result.value, o.world, p) == Total(s, w, p) + RowsAt(env, Flatten(inputs), p)
          {
            RowsAtAppend(env, inputs[0], Flatten(inputs[1..]), p);
          }
        }
      }
    }
  }

  lemma NoRows(env: Env)
    ensures forall p :: RowsAt(env, [], p) == []
  {
  }

  lemma RowsAtAppend(env: Env, a: seq<Row>, b: seq<Row>, path: string)
    ensures RowsAt(env, a + b, path) == RowsAt(env, a, path) + RowsAt(env, b, path)
  {
    FilterAppend((row: Row) => RowAt(env, path, row), a, b);
  }

  /** Where a run may start: no writer open, positive settings, no generated name taken. */
  ghost predicate Startable(env: Env, w0: World) {
    env.settings.Valid() && w0.open == map[] && w0.peak <= env.settings.maxOpen && NamesUnused(env, w0)
  }

  lemma StartInv(env: Env, w0: World)
    requires Startable(env, w0)
    ensures Inv(env, w0, INITIAL, w0) && NonEmpty(INITIAL)
    ensures forall p :: Total(INITIAL, w0, p) == []
  {
    assert Keys([]) == {};
  }

  /** The state and world after all writes and the close. */
  function Run(env: Env, w0: World, inputs: seq<seq<Row>>): Outcome
    requires Startable(env, w0)
  {
    StartInv(env, w0);
    var written := RunWrites(env, INITIAL, w0, inputs);
    RunWritesKeep(env, w0, INITIAL, w0, inputs);
    if written.result.Err? then written
    else
      var s := written.result.value;
      PathsByAgeFacts(s);
      PublishAll(env, s, written.world, PathsByAge(s)).0
  }

  /**
   A successful run loses, duplicates and reorders nothing. In report order the parts
   of each partition hold exactly its accepted rows in input order; the report counts
   them; the store has grown by exactly the reported parts; each part describes its
   rows, which lie in its partition's time; no staged writer is left; and at no time
   were more than `maxOpen` writers open.
   */
  lemma SuccessfulRun(env: Env, w0: World, inputs: seq<seq<Row>>)
    requires Startable(env, w0) && Run(env, w0, inputs).result.Ok?
    ensures var o := Run(env, w0, inputs);
            var accepted := Flatten(inputs);
            var report := MakeReport(o.result.value.reports);
            && (forall p :: ReportRows(report.parts, o.world.store, p) == RowsAt(env, accepted, p))
            && report.rows == |accepted|
            && multiset(AllRows(o.result.value.reports, o.world.store)) == multiset(accepted)
            && (forall i :: 0 <= i < |accepted| ==> Locate(env.dataset, accepted[i]).Ok?)
            && StoreOk(w0, o.result.value, o.world)
            && (forall i :: 0 <= i < |o.result.value.reports| ==>
                  && PartOk(env, w0.writers, o.world, o.result.value.reports[i])
                  && InsidePartition(env, o.result.value.reports[i]))
            && o.world.open == map[]
            && o.world.peak <= env.settings.maxOpen
  {
    hide Locate, RowAt, RowsAt, PartOk, Ready, NamesUnused, StoreOk, Run, Total, InsidePartition;
    RunKeeps(env, w0, inputs);
    var o := Run(env, w0, inputs);
    PartsInside(env, w0.writers, o.world, o.result.value.reports);
    CloseReport(env, w0, o.result.value, o.world, Flatten(inputs));
  }

  lemma PartsInside(env: Env, start: nat, w: World, reports: seq<Part>)
    requires forall i :: 0 <= i < |reports| ==> PartOk(env, start, w, reports[i])
    ensures forall i :: 0 <= i < |reports| ==> InsidePartition(env, reports[i])
  {
    hide PartOk, InsidePartition;
    forall i | 0 <= i < |reports| ensures InsidePartition(env, reports[i]) {
      ExtremesInside(env, start, w, reports[i]);
    }
  }

  lemma ClosedTotal(s: State, w: World, path: string)
    requires s.active == map[]
    ensures Total(s, w, path) == PartRows(s.reports, w.store, path)
  {
  }

  lemma CloseReport(env: Env, w0: World, s: State, w: World, accepted: seq<Row>)
    requires Inv(env, w0, s, w) && s.active == map[]
    requires forall i :: 0 <= i < |accepted| ==> Locate(env.dataset, accepted[i]).Ok?
    requires forall p :: Total(s, w, p) == RowsAt(env, accepted, p)
    ensures var report := MakeReport(s.reports);
            && report.rows == |accepted|
            && (forall p :: ReportRows(report.parts, w.store, p) == RowsAt(env, accepted, p))
            && multiset(AllRows(s.reports, w.store)) == multiset(accepted)
  {
    hide Locate, RowAt, RowsAt, PartOk, Ready, StoreOk, Total;
    forall p
      ensures PartRows(s.reports, w.store, p) == RowsAt(env, accepted, p)
      ensures ReportRows(MakeReport(s.reports).parts, w.store, p) == RowsAt(env, accepted, p)
    {
      ClosedTotal(s, w, p);
      ReportInOrder(s.reports, w.store, p);
    }
    PartsLocated(env, w0, s, w);
    SameMultiset(env, s.reports, w.store, accepted);
    CountRows(s.reports, w.store);
  }

  lemma RunKeeps(env: Env, w0: World, inputs: seq<seq<Row>>)
    requires Startable(env, w0) && Run(env, w0, inputs).result.Ok?
    ensures var o := Run(env, w0, inputs);
            && Inv(env, w0, o.result.value, o.world)
            && o.result.value.active == map[] && o.world.open == map[]
            && (forall i :: 0 <= i < |Flatten(inputs)| ==> Locate(env.dataset, Flatten(inputs)[i]).Ok?)
            && forall p :: Total(o.result.value, o.world, p) == RowsAt(env, Flatten(inputs), p)
  {
    hide Locate, RowsAt, EntryOk, PartOk, Stamped, NamesUnused, StoreOk, Total, RunWrites, AgeOrder,
         PathsByAge, PublishAll;
    StartInv(env, w0);
    RunWritesKeep(env, w0, INITIAL, w0, inputs);
    var written := RunWrites(env, INITIAL, w0, inputs);
    var s := written.result.value;
    PathsByAgeFacts(s);
    PublishAllKeeps(env, w0, s, written.world, PathsByAge(s));
    forall p ensures [] + RowsAt(env, Flatten(inputs), p) == RowsAt(env, Flatten(inputs), p) {}
  }

  lemma PartsLocated(env: Env, w0: World, s: State, w: World)
    requires Inv(env, w0, s, w)
    ensures Located(env, s.reports, w.store)
    ensures forall i :: 0 <= i < |s.reports| ==> s.reports[i].rows == |Flatten(w.store[s.reports[i].key])|
  {
    hide RowAt, BatchesFit, PartNumbered, Ready, StoreOk;
    forall i | 0 <= i < |s.reports|
      ensures s.reports[i].key in w.store && s.reports[i].rows == |Flatten(w.store[s.reports[i].key])|
      ensures forall row :: row in Flatten(w.store[s.reports[i].key]) ==> RowAt(env, s.reports[i].partition, row)
    {
      assert PartOk(env, w0.writers, w, s.reports[i]);
    }
  }
}
