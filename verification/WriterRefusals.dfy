/**
 What a refused call of the dataset writer says about the store. The error carries a report of
 parts as its `published` detail; the theorems say exactly when that report names all objects
 that the run has left in the store.
 */
module WriterRefusals {
  import opened Text
  import opened Sequences
  import opened Rows
  import opened Datasets
  import opened DatasetWriter
  import opened WriterRuns
  import opened DatasetRun

  /** The report names every object that is in the store now and was not before the run, and no other. */
  ghost predicate Complete(w0: World, report: Report, w: World) {
    w.store.Keys == w0.store.Keys + Keys(report.parts)
  }

  // ---------- Keys of a report ----------

  lemma {:induction false} ReportedKeys(reports: seq<Part>)
    ensures Keys(MakeReport(reports).parts) == Keys(reports)
  {
    if reports != [] {
      ReportedKeys(reports[1..]);
      KeysAppend(Reverse(reports[1..]), reports[0]);
      KeysAppend([], reports[0]);
      assert reports == [reports[0]] + reports[1..];
      KeysPrepend(reports[0], reports[1..]);
    }
  }

  lemma KeysAppend(parts: seq<Part>, part: Part)
    ensures Keys(parts + [part]) == Keys(parts) + {part.key}
  {
    var all := parts + [part];
    assert all[|parts|] == part;
    forall k | k in Keys(parts) ensures k in Keys(all) {
      var i :| 0 <= i < |parts| && parts[i].key == k;
      assert all[i].key == k;
    }
  }

  lemma KeysPrepend(part: Part, parts: seq<Part>)
    ensures Keys([part] + parts) == {part.key} + Keys(parts)
  {
    var all := [part] + parts;
    assert all[0] == part;
    forall k | k in Keys(parts) ensures k in Keys(all) {
      var i :| 0 <= i < |parts| && parts[i].key == k;
      assert all[i + 1].key == k;
    }
  }

  lemma KnownKeys(env: Env, w0: World, s: State, w: World)
    requires Inv(env, w0, s, w)
    ensures w.store.Keys == w0.store.Keys + Keys(s.reports)
  {
    hide Keys, EntryOk, PartOk;
  }

  /** As long as the invariant holds, the report of the state is complete. */
  lemma RunningComplete(env: Env, w0: World, s: State, w: World, w': World)
    requires Inv(env, w0, s, w)
    ensures Complete(w0, MakeReport(s.reports), w') <==> w'.store.Keys == w.store.Keys
  {
    hide Inv, Keys, MakeReport;
    KnownKeys(env, w0, s, w);
    ReportedKeys(s.reports);
  }

  // ---------- A refused close ----------

  /**
   A publish that fails in flushing carries no detail and stores nothing. One that fails in closing
   carries the parts published before it, and that report is complete exactly if the failing close
   has not made its object visible.
   */
  lemma RefusedReport(env: Env, w0: World, s: State, w: World, path: string)
    requires Inv(env, w0, s, w) && NamesUnused(env, w0) && path in s.active
    ensures Ready(env, s, w)
    ensures var o := PublishEntry(env, s, w, path);
            o.result.Err? ==>
              && (!o.result.error.PublishFailed? ==> !Surfaces(env, s, w, path) && o.world.store == w.store)
              && (o.result.error.PublishFailed? ==>
                    && o.result.error.published == MakeReport(s.reports)
                    && (Complete(w0, o.result.error.published, o.world) <==> !Surfaces(env, s, w, path)))
  {
    hide Keys, MakeReport, PartOk, EntryOk, Stamped, PublishEntry, NamesUnused, Complete, Surfaces;
    InvReady(env, w0, s, w);
    PublishFacts(env, s, w, path);
    ErrorReports(env, s, w, path);
    KeyIsNew(env, w0, s, w, path);
    RunningComplete(env, w0, s, w, PublishEntry(env, s, w, path).world);
  }

  lemma ErrorReports(env: Env, s: State, w: World, path: string)
    requires Ready(env, s, w) && path in s.active
    ensures var o := PublishEntry(env, s, w, path);
            o.result.Err? ==>
              && (o.result.error.PublishFailed? ==> o.result.error.published == MakeReport(s.reports))
              && (!o.result.error.PublishFailed? ==> !Surfaces(env, s, w, path))
  {
    hide Flatten, Stamped, MakeReport, Fails, FlushEntry;
    FlushFacts(env, s, w, path);
    FlushErrors(env, s, w, path);
  }

  lemma FlushErrors(env: Env, s: State, w: World, path: string)
    requires Ready(env, s, w) && path in s.active
    ensures var o := FlushEntry(env, s, w, path); o.result.Err? ==> !o.result.error.PublishFailed?
  {
    hide Flatten, Stamped, Fails, WriteBatches;
  }

  /** A store that answers every close that it has carried out, as the local one does. */
  ghost predicate Answers(env: Env) {
    forall n: nat :: !env.unheard(n)
  }

  /** Over such a store the detail of a failed publish is always complete. */
  lemma AnsweredReport(env: Env, w0: World, s: State, w: World, path: string)
    requires Answers(env) && Inv(env, w0, s, w) && NamesUnused(env, w0) && path in s.active
    ensures Ready(env, s, w)
    ensures var o := PublishEntry(env, s, w, path);
            o.result.Err? && o.result.error.PublishFailed? ==> Complete(w0, o.result.error.published, o.world)
  {
    hide Inv, NamesUnused, Complete;
    RefusedReport(env, w0, s, w, path);
    SurfacedIsReported(env, s, w, path);
  }

  lemma SurfacedIsReported(env: Env, s: State, w: World, path: string)
    requires Answers(env) && Ready(env, s, w) && path in s.active
    ensures PublishEntry(env, s, w, path).result.Err? ==> !Surfaces(env, s, w, path)
  {
    hide FlushEntry, MakeReport, Stamped;
    FlushFacts(env, s, w, path);
  }

  datatype Attempt = Attempt(state: State, world: World, path: string)

  /** The publish at which closing stops, with the state and the world before it. */
  ghost function FirstRefused(env: Env, s: State, w: World, paths: seq<string>): (r: Option<Attempt>)
    requires Ready(env, s, w)
    requires forall i :: 0 <= i < |paths| ==> paths[i] in s.active
    requires forall i, j :: 0 <= i < j < |paths| ==> paths[i] != paths[j]
    ensures r.Some? ==> Ready(env, r.value.state, r.value.world) && r.value.path in r.value.state.active
    decreases |paths|
  {
    if paths == [] then None
    else
      hide PublishEntry, Surfaces, Stamped;
      var first := PublishEntry(env, s, w, paths[0]);
      PublishFacts(env, s, w, paths[0]);
      if first.result.Err? then Some(Attempt(s, w, paths[0]))
      else FirstRefused(env, first.result.value, first.world, paths[1..])
  }

  /** Closing fails exactly at that publish. */
  lemma {:induction false} FirstRefusedFails(env: Env, s: State, w: World, paths: seq<string>)
    requires Ready(env, s, w)
    requires forall i :: 0 <= i < |paths| ==> paths[i] in s.active
    requires forall i, j :: 0 <= i < j < |paths| ==> paths[i] != paths[j]
    ensures var r, all := FirstRefused(env, s, w, paths), PublishAll(env, s, w, paths);
            && (r.None? <==> all.0.result.Ok?)
            && (r.Some? ==>
                  all == (PublishEntry(env, r.value.state, r.value.world, r.value.path), r.value.state))
    decreases |paths|
  {
    hide PublishEntry, Surfaces, Stamped;
    if paths != [] {
      PublishFacts(env, s, w, paths[0]);
      var first := PublishEntry(env, s, w, paths[0]);
      if first.result.Ok? {
        FirstRefusedFails(env, first.result.value, first.world, paths[1..]);
      }
    }
  }

  /** Where `close` stops: the open parts are published least recently used first. */
  ghost function CloseStops(env: Env, s: State, w: World): (r: Option<Attempt>)
    requires Ready(env, s, w)
    ensures r.Some? ==> Ready(env, r.value.state, r.value.world) && r.value.path in r.value.state.active
  {
    hide Ready;
    ReadyStamped(env, s, w);
    PathsByAgeFacts(s);
    DistinctPaths(s.active, PathsByAge(s));
    FirstRefused(env, s, w, PathsByAge(s))
  }

  lemma ReadyStamped(env: Env, s: State, w: World)
    requires Ready(env, s, w)
    ensures Stamped(s)
  {
  }

  lemma DistinctPaths(active: map<string, Entry>, paths: seq<string>)
    requires AgeOrder(active, paths)
    ensures forall i :: 0 <= i < |paths| ==> paths[i] in active
    ensures forall i, j :: 0 <= i < j < |paths| ==> paths[i] != paths[j]
  {
    forall i, j | 0 <= i < j < |paths| ensures paths[i] != paths[j] {
      assert active[paths[i]].access < active[paths[j]].access;
    }
  }

  // ---------- A refused write ----------

  /**
   The open part that has to be published before the row can be routed: its partition's part if the
   row would overfill it, or the least recent one if a new partition finds every place taken.
   */
  function Displaced(env: Env, s: State, row: Row): Option<string>
    requires env.settings.Valid() && Stamped(s)
  {
    var located := Locate(env.dataset, row);
    if located.Err? then None
    else
      var path := located.value.partition.path;
      if path in s.active then if Full(env, s.active[path], row) then Some(path) else None
      else if |s.active| < env.settings.maxOpen then None
      else Some(LeastRecent(s))
  }

  /** Routing the row makes a new object visible, whether the row is accepted or not. */
  predicate Shows(env: Env, s: State, w: World, row: Row)
    requires Ready(env, s, w)
  {
    Displaced(env, s, row).Some? && Surfaces(env, s, w, Displaced(env, s, row).value)
  }

  /** Routing one row adds an object exactly if it displaces a part and publishing that part makes it visible. */
  lemma RouteShows(env: Env, w0: World, s: State, w: World, row: Row)
    requires Inv(env, w0, s, w) && NamesUnused(env, w0)
    ensures Ready(env, s, w)
    ensures var o := RouteRow(env, s, w, row);
            && w.store.Keys <= o.world.store.Keys
            && (o.world.store.Keys == w.store.Keys <==> !Shows(env, s, w, row))
            && (o.result.Ok? && Displaced(env, s, row).Some? ==> Shows(env, s, w, row))
  {
    hide EnsureEntry, AppendRow, Inv, NamesUnused, Full, Displaced, Surfaces, Stamped;
    InvReady(env, w0, s, w);
    var located := Locate(env.dataset, row);
    if located.Ok? {
      hide Locate;
      var path, datetime := located.value.partition.path, located.value.datetime;
      EnsureShows(env, w0, s, w, path, datetime, row);
      EnsureFacts(env, s, w, path, datetime, row);
      var ensured := EnsureEntry(env, s, w, path, datetime, row);
      if ensured.result.Ok? {
        AppendFacts(env, ensured.result.value, ensured.world, path, datetime, row);
      }
    } else {
      NotDisplaced(env, s, row);
    }
  }

  lemma NotDisplaced(env: Env, s: State, row: Row)
    requires env.settings.Valid() && Stamped(s) && Locate(env.dataset, row).Err?
    ensures Displaced(env, s, row).None?
  {
  }

  lemma EnsureShows(env: Env, w0: World, s: State, w: World, path: string, datetime: int, row: Row)
    requires Inv(env, w0, s, w) && NamesUnused(env, w0) && Ready(env, s, w)
    requires Locate(env.dataset, row).Ok? && Locate(env.dataset, row).value.partition.path == path
    ensures var o := EnsureEntry(env, s, w, path, datetime, row);
            && w.store.Keys <= o.world.store.Keys
            && (o.world.store.Keys == w.store.Keys <==> !Shows(env, s, w, row))
            && (o.result.Ok? && Displaced(env, s, row).Some? ==> Shows(env, s, w, row))
  {
    hide PublishEntry, OpenEntry, Inv, NamesUnused, Full, Locate, Surfaces, Stamped;
    if path in s.active && !Full(env, s.active[path], row) {
      return;
    }
    var room := if path in s.active then PublishEntry(env, s, w, path) else MakeRoom(env, s, w);
    if Displaced(env, s, row).Some? {
      var victim := Displaced(env, s, row).value;
      PublishFacts(env, s, w, victim);
      KeyIsNew(env, w0, s, w, victim);
      assert room == PublishEntry(env, s, w, victim);
    }
    if room.result.Ok? {
      OpenFacts(env, room.result.value, room.world, path, datetime);
    }
  }

  datatype Moment = Moment(state: State, world: World)

  /** The row finds no space without publishing a part first. */
  ghost predicate Displaces(env: Env, m: Moment, row: Row)
    requires Ready(env, m.state, m.world)
  {
    Displaced(env, m.state, row).Some?
  }

  ghost predicate AllReady(env: Env, trail: seq<Moment>) {
    forall i :: 0 <= i < |trail| ==> Ready(env, trail[i].state, trail[i].world)
  }

  /** The moments before each row, up to and with the first row that is refused. */
  ghost function Trail(env: Env, s: State, w: World, rows: seq<Row>): (trail: seq<Moment>)
    requires Ready(env, s, w)
    ensures |trail| <= |rows| && AllReady(env, trail)
    decreases |rows|
  {
    if rows == [] then []
    else
      var first := RouteRow(env, s, w, rows[0]);
      RouteFacts(env, s, w, rows[0]);
      [Moment(s, w)] + (if first.result.Err? then [] else Trail(env, first.result.value, first.world, rows[1..]))
  }

  /**
   None of the accepted rows has displaced a part, and the refused one, which is the last of the trail,
   has displaced none whose object became visible.
   */
  ghost predicate NothingShown(env: Env, rows: seq<Row>, trail: seq<Moment>)
    requires 1 <= |trail| <= |rows| && AllReady(env, trail)
  {
    var last := |trail| - 1;
    && (forall i :: 0 <= i < last ==> !Displaces(env, trail[i], rows[i]))
    && !Shows(env, trail[last].state, trail[last].world, rows[last])
  }

  /** The trail is the run of the write: each row but the last is accepted, and the last one is refused. */
  lemma {:induction false} TrailRuns(env: Env, s: State, w: World, rows: seq<Row>)
    requires Ready(env, s, w) && RouteRows(env, s, w, rows).result.Err?
    ensures var trail := Trail(env, s, w, rows);
            var last := |trail| - 1;
            && last >= 0 && trail[0] == Moment(s, w)
            && (forall i :: 0 <= i < last ==>
                  RouteRow(env, trail[i].state, trail[i].world, rows[i])
                  == Outcome(Ok(trail[i + 1].state), trail[i + 1].world))
            && RouteRow(env, trail[last].state, trail[last].world, rows[last]) == RouteRows(env, s, w, rows)
    decreases |rows|
  {
    hide RouteRow, Ready;
    var first := RouteRow(env, s, w, rows[0]);
    RouteFacts(env, s, w, rows[0]);
    if first.result.Ok? {
      TrailRuns(env, first.result.value, first.world, rows[1..]);
      var trail, rest := Trail(env, s, w, rows), Trail(env, first.result.value, first.world, rows[1..]);
      assert trail == [Moment(s, w)] + rest;
      assert forall i :: 0 <= i < |rest| ==> trail[i + 1] == rest[i] && rows[i + 1] == rows[1..][i];
    }
  }

  /**
   A refused write adds no object exactly if no accepted row of the call displaced a part and the
   refused row displaced none that became visible.
   */
  lemma {:induction false} RefusedWrite(env: Env, w0: World, s: State, w: World, rows: seq<Row>)
    requires Inv(env, w0, s, w) && NonEmpty(s) && NamesUnused(env, w0)
    requires Ready(env, s, w) && RouteRows(env, s, w, rows).result.Err?
    ensures |Trail(env, s, w, rows)| >= 1
    ensures var o := RouteRows(env, s, w, rows);
            && w.store.Keys <= o.world.store.Keys
            && (o.world.store.Keys == w.store.Keys <==> NothingShown(env, rows, Trail(env, s, w, rows)))
    decreases |rows|
  {
    hide Inv, NamesUnused, NonEmpty, RouteRow, Ready, Displaces, Shows, AllReady, NothingShown;
    RouteShows(env, w0, s, w, rows[0]);
    RouteKeeps(env, w0, s, w, rows[0]);
    var first := RouteRow(env, s, w, rows[0]);
    if first.result.Ok? {
      RouteFacts(env, s, w, rows[0]);
      RefusedWrite(env, w0, first.result.value, first.world, rows[1..]);
      AcceptedShows(env, w0, s, w, rows[0]);
      RestShown(env, s, w, rows, Trail(env, first.result.value, first.world, rows[1..]));
      BothSame(w.store.Keys, first.world.store.Keys, RouteRows(env, s, w, rows).world.store.Keys);
    } else {
      OneShown(env, s, w, rows);
      assert Trail(env, s, w, rows) == [Moment(s, w)];
    }
  }

  lemma AcceptedShows(env: Env, w0: World, s: State, w: World, row: Row)
    requires Inv(env, w0, s, w) && NamesUnused(env, w0) && Ready(env, s, w) && RouteRow(env, s, w, row).result.Ok?
    ensures RouteRow(env, s, w, row).world.store.Keys == w.store.Keys <==> !Displaces(env, Moment(s, w), row)
  {
    hide Inv, NamesUnused, RouteRow, Surfaces, Stamped;
    RouteShows(env, w0, s, w, row);
  }

  lemma BothSame<T>(a: set<T>, b: set<T>, c: set<T>)
    requires a <= b <= c
    ensures c == a <==> b == a && c == b
  {
  }

  lemma OneShown(env: Env, s: State, w: World, rows: seq<Row>)
    requires Ready(env, s, w) && rows != []
    ensures AllReady(env, [Moment(s, w)])
    ensures NothingShown(env, rows, [Moment(s, w)]) <==> !Shows(env, s, w, rows[0])
  {
    hide Ready, Displaces, Shows;
  }

  lemma RestShown(env: Env, s: State, w: World, rows: seq<Row>, rest: seq<Moment>)
    requires Ready(env, s, w) && rows != [] && 1 <= |rest| <= |rows| - 1
    requires AllReady(env, rest)
    ensures var trail := [Moment(s, w)] + rest;
            && AllReady(env, trail)
            && (NothingShown(env, rows, trail) <==>
                  !Displaces(env, Moment(s, w), rows[0]) && NothingShown(env, rows[1..], rest))
  {
    hide Ready, Displaces, Shows;
    var trail, last := [Moment(s, w)] + rest, |rest|;
    assert trail[last] == rest[last - 1] && rows[last] == rows[1..][last - 1];
    forall i | 0 < i < |trail| ensures trail[i] == rest[i - 1] && rows[i] == rows[1..][i - 1] {}
    if !Displaces(env, Moment(s, w), rows[0]) && NothingShown(env, rows[1..], rest) {
      forall i | 0 <= i < last ensures !Displaces(env, trail[i], rows[i]) {
        if i > 0 {
          assert trail[i] == rest[i - 1] && rows[i] == rows[1..][i - 1];
        }
      }
    }
    if NothingShown(env, rows, trail) {
      assert trail[0] == Moment(s, w);
      forall i | 0 <= i < last - 1 ensures !Displaces(env, rest[i], rows[1..][i]) {
        assert trail[i + 1] == rest[i] && rows[i + 1] == rows[1..][i];
      }
    }
  }
}
