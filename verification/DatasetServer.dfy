/**
 The writer as the process that callers see. It keeps the state between calls and
 replaces it row by row; a failing call stops it.
 */
module DatasetServer {
  import opened Text
  import opened Sequences
  import opened Rows
  import opened Datasets
  import opened DatasetWriter
  import opened WriterRuns
  import opened DatasetRun
  import opened WriterRefusals

  datatype Reply =
    | Accepted
    | Finished(report: Report)
    | Cancelled
    | Refused(error: Error, published: Option<Report>)
    | Closed

  /** The process ends: its open parts are cancelled, and any writer it still owns is aborted with it. */
  function Stop(s: State, w: World): (r: World)
    ensures r.store == w.store && r.writers == w.writers && r.open == map[]
  {
    CancelAll(s, w).1.(open := map[])
  }

  /**
   A close refused by this publish: the error is that of the publish, a failed flush carries no detail,
   and the detail of a failed publish is complete exactly if the part has not become visible.
   */
  ghost predicate RefusedAt(env: Env, start: World, at: Attempt, reply: Reply, world: World)
    requires Ready(env, at.state, at.world) && at.path in at.state.active
  {
    var o := PublishEntry(env, at.state, at.world, at.path);
    && o.result.Err? && reply.Refused? && reply.error == o.result.error && world.store == o.world.store
    && (reply.published.Some? <==> reply.error.PublishFailed?)
    && (reply.published.Some? ==>
          && reply.published.value == MakeReport(at.state.reports)
          && (Complete(start, reply.published.value, world) <==> !Surfaces(env, at.state, at.world, at.path)))
  }

  lemma RefusesAt(env: Env, w0: World, s: State, w: World, path: string)
    requires Inv(env, w0, s, w) && NamesUnused(env, w0) && path in s.active
    ensures Ready(env, s, w)
    ensures var o := PublishEntry(env, s, w, path);
            o.result.Err? ==>
              RefusedAt(env, w0, Attempt(s, w, path), Refused(o.result.error, Detail(o.result.error)), Stop(s, o.world))
  {
    hide Inv, NamesUnused, PublishEntry, MakeReport, Surfaces, CancelAll;
    RefusedReport(env, w0, s, w, path);
  }

  /** The `published` detail that a publish gives its error. */
  function Detail(error: Error): Option<Report> {
    if error.PublishFailed? then Some(error.published) else None
  }

  class Server {
    const env: Env
    var state: State
    var world: World
    var stopped: bool

    /** The world before the run, and the rows accepted so far. */
    ghost const start: World
    ghost var accepted: seq<Row>

    ghost predicate Valid()
      reads this
    {
      && NamesUnused(env, start)
      && (if stopped then world.open == map[]
          else
            && Inv(env, start, state, world) && NonEmpty(state)
            && Covers())
    }

    /** Every accepted row is in the right partition, in order, published or not. */
    ghost predicate Covers()
      reads this
    {
      && (forall i :: 0 <= i < |accepted| ==> Locate(env.dataset, accepted[i]).Ok?)
      && forall p :: Total(state, world, p) == RowsAt(env, accepted, p)
    }

    constructor (env: Env, world: World)
      requires Startable(env, world)
      ensures Valid() && !stopped && accepted == []
      ensures this.env == env && this.world == world && start == world && state == INITIAL
    {
      this.env, this.world, this.start := env, world, world;
      state, stopped, accepted := INITIAL, false, [];
      new;
      StartInv(env, world);
      NoRows(env);
    }

    /** `handle_call({:write, rows})`: all rows, or an error that ends the process. */
    method Write(rows: seq<Row>) returns (reply: Reply)
      requires Valid()
      modifies this
      ensures Valid()
      ensures old(stopped) ==> reply == Closed && stopped && world == old(world) && state == old(state)
      ensures !old(stopped) ==>
                && Ready(env, old(state), old(world))
                && var o := RouteRows(env, old(state), old(world), rows);
                && (o.result.Ok? ==>
                      && reply == Accepted && !stopped && state == o.result.value && world == o.world
                      && accepted == old(accepted) + rows)
                && (o.result.Err? ==>
                      && reply == Refused(o.result.error, Some(MakeReport(old(state).reports)))
                      && stopped && state.active == map[]
                      && world.store == o.world.store && world.open == map[]
                      && accepted == old(accepted))
      // The report is that of the state before the call: it is complete exactly if the call has published nothing.
      ensures !old(stopped) && reply.Refused? ==>
                && reply.published.Some?
                && |Trail(env, old(state), old(world), rows)| >= 1
                && (Complete(start, reply.published.value, world) <==>
                      NothingShown(env, rows, Trail(env, old(state), old(world), rows)))
    {
      hide Inv, Total, NamesUnused, NonEmpty, Locate, RowsAt, Ready, RouteRow, Complete, NothingShown, Stop, MakeReport;
      if stopped {
        return Closed;
      }
      InvReady(env, start, state, world);
      RouteRowsKeep(env, start, state, world, rows);
      var current, outside := state, world;
      var i := 0;
      while i < |rows|
        invariant 0 <= i <= |rows|
        invariant Ready(env, current, outside)
        invariant unchanged(this) && !stopped
        invariant RouteRows(env, state, world, rows) == RouteRows(env, current, outside, rows[i..])
      {
        var o := RouteRow(env, current, outside, rows[i]);
        RouteFacts(env, current, outside, rows[i]);
        assert rows[i..][0] == rows[i] && rows[i..][1..] == rows[i + 1..];
        if o.result.Err? {
          var published := MakeReport(state.reports);
          RefusedWrite(env, start, state, world, rows);
          RunningComplete(env, start, state, world, Stop(state, o.world));
          state, world, stopped := CancelAll(state, o.world).0, Stop(state, o.world), true;
          return Refused(o.result.error, Some(published));
        }
        current, outside := o.result.value, o.world;
        i := i + 1;
      }
      assert rows[i..] == [];
      ghost var before := accepted;
      state, world := current, outside;
      accepted := accepted + rows;
      forall p ensures Total(state, world, p) == RowsAt(env, accepted, p) {
        RowsAtAppend(env, before, rows, p);
      }
      return Accepted;
    }

    /** `handle_call(:close)`: publish the open parts, least recently used first, and report all parts. */
    method Close() returns (reply: Reply)
      requires Valid()
      modifies this
      ensures Valid() && accepted == old(accepted)
      ensures old(stopped) ==> reply == Closed && stopped && world == old(world) && state == old(state)
      ensures !old(stopped) ==> stopped && world.open == map[] && Ready(env, old(state), old(world))
      ensures !old(stopped) && CloseStops(env, old(state), old(world)).None? ==> reply.Finished?
      // Closing stops at the first publish that fails; the report is complete exactly if that one has shown nothing.
      ensures !old(stopped) && CloseStops(env, old(state), old(world)).Some? ==>
                RefusedAt(env, start, CloseStops(env, old(state), old(world)).value, reply, world)
      ensures reply.Finished? ==>
                && reply.report == MakeReport(state.reports)
                && reply.report.rows == |accepted|
                && (forall p :: ReportRows(reply.report.parts, world.store, p) == RowsAt(env, accepted, p))
                && StoreOk(start, state, world)
                && (forall i :: 0 <= i < |state.reports| ==>
                      PartOk(env, start.writers, world, state.reports[i]) && InsidePartition(env, state.reports[i]))
    {
      hide Inv, Total, NamesUnused, Locate, RowsAt, PartOk, EntryOk, StoreOk, PathsByAge, PublishEntry, Keys,
           ReportRows, MakeReport, Stamped, AgeOrder, Stop, Ready, RefusedAt, CloseStops, InsidePartition,
           CancelAll;
      if stopped {
        return Closed;
      }
      InvReady(env, start, state, world);
      var current, outside := state, world;
      var paths := PathsByAge(current);
      PathsByAgeFacts(current);
      StopsFirst(env, current, outside);
      var i := 0;
      while i < |paths|
        invariant 0 <= i <= |paths| && !stopped
        invariant unchanged(this)
        invariant Inv(env, start, current, outside) && NonEmpty(current)
        invariant AgeOrder(current.active, paths[i..])
        invariant forall p :: Total(current, outside, p) == Total(state, world, p)
        invariant Stops(env, current, outside, paths[i..]) == CloseStops(env, state, world)
      {
        CloseStep(env, start, current, outside, paths[i..]);
        var o := PublishEntry(env, current, outside, paths[i]);
        if o.result.Err? {
          state, world, stopped := CancelAll(current, o.world).0, Stop(current, o.world), true;
          return Refused(o.result.error, Detail(o.result.error));
        }
        assert paths[i..][1..] == paths[i + 1..];
        current, outside := o.result.value, o.world;
        i := i + 1;
      }
      NothingLeft(current.active, paths[i..]);
      StopsNowhere(env, current, outside, paths[i..]);
      CloseReport(env, start, current, outside, accepted);
      var report := MakeReport(current.reports);
      var ended := Stop(current, outside);
      InvParts(env, start, current, outside, ended);
      PartsInside(env, start.writers, ended, current.reports);
      state, world, stopped := current, ended, true;
      return Finished(report);
    }

    /** `handle_call(:cancel)`, and the owner going away: every open part is discarded. */
    method Cancel()
      requires Valid()
      modifies this
      ensures Valid() && stopped && accepted == old(accepted)
      ensures world.store == old(world).store && world.open == map[]
    {
      hide Inv, Total, NamesUnused, NonEmpty, Locate, RowsAt;
      if !stopped {
        state, world, stopped := CancelAll(state, world).0, Stop(state, world), true;
      }
    }
  }

  /** `FirstRefused` as a total function. */
  ghost function Stops(env: Env, s: State, w: World, paths: seq<string>): Option<Attempt> {
    if Ready(env, s, w) && AgeOrder(s.active, paths) then
      DistinctPaths(s.active, paths);
      FirstRefused(env, s, w, paths)
    else None
  }

  lemma StopsFirst(env: Env, s: State, w: World)
    requires Ready(env, s, w)
    ensures AgeOrder(s.active, PathsByAge(s)) && Stops(env, s, w, PathsByAge(s)) == CloseStops(env, s, w)
  {
    hide AgeOrder, FirstRefused, PathsByAge, Stamped;
    PathsByAgeFacts(s);
  }

  lemma StopsNext(env: Env, s: State, w: World, paths: seq<string>)
    requires Ready(env, s, w) && AgeOrder(s.active, paths) && paths != [] && paths[0] in s.active
    ensures var o := PublishEntry(env, s, w, paths[0]);
            Stops(env, s, w, paths) ==
            if o.result.Err? then Some(Attempt(s, w, paths[0])) else Stops(env, o.result.value, o.world, paths[1..])
  {
    hide PublishEntry, AgeOrder, Surfaces;
    PublishFacts(env, s, w, paths[0]);
    DistinctPaths(s.active, paths);
    var o := PublishEntry(env, s, w, paths[0]);
    if o.result.Ok? {
      RestInOrder(s.active, paths, o.result.value.active);
    }
  }

  lemma StopsNowhere(env: Env, s: State, w: World, paths: seq<string>)
    requires paths == []
    ensures Stops(env, s, w, paths) == None
  {
  }

  lemma InvParts(env: Env, w0: World, s: State, w: World, w': World)
    requires Inv(env, w0, s, w)
    requires w'.store == w.store && w'.writers == w.writers && w'.open == map[]
    ensures StoreOk(w0, s, w')
    ensures forall i :: 0 <= i < |s.reports| ==> PartOk(env, w0.writers, w', s.reports[i])
  {
    hide Describes, BatchesFit, Keys, Ready, EntryOk;
    forall i | 0 <= i < |s.reports| ensures PartOk(env, w0.writers, w', s.reports[i]) {
      PartFrame(env, w0.writers, w, w', s.reports[i]);
    }
  }

  /** One publish of a close. */
  lemma CloseStep(env: Env, w0: World, s: State, w: World, paths: seq<string>)
    requires Inv(env, w0, s, w) && NonEmpty(s) && NamesUnused(env, w0) && AgeOrder(s.active, paths) && paths != []
    ensures Ready(env, s, w) && env.settings.Valid() && paths[0] in s.active && s.active[paths[0]].writer in w.open
    ensures var o := PublishEntry(env, s, w, paths[0]);
            && (o.result.Ok? ==>
                  && Inv(env, w0, o.result.value, o.world) && NonEmpty(o.result.value)
                  && AgeOrder(o.result.value.active, paths[1..])
                  && Stops(env, o.result.value, o.world, paths[1..]) == Stops(env, s, w, paths)
                  && forall p :: Total(o.result.value, o.world, p) == Total(s, w, p))
            && (o.result.Err? ==>
                  && Stops(env, s, w, paths) == Some(Attempt(s, w, paths[0]))
                  && RefusedAt(env, w0, Attempt(s, w, paths[0]), Refused(o.result.error, Detail(o.result.error)),
                               Stop(s, o.world)))
  {
    hide Inv, Total, NamesUnused, PublishEntry, Ready, RefusedAt, Stop, Stops, Detail;
    InvReady(env, w0, s, w);
    StopsNext(env, s, w, paths);
    PublishKeeps(env, w0, s, w, paths[0]);
    var o := PublishEntry(env, s, w, paths[0]);
    if o.result.Ok? {
      RestInOrder(s.active, paths, o.result.value.active);
    } else {
      RefusesAt(env, w0, s, w, paths[0]);
    }
  }

  lemma NothingLeft(active: map<string, Entry>, paths: seq<string>)
    requires AgeOrder(active, paths) && paths == []
    ensures active == map[]
  {
  }
}
