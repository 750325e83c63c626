/** Two short runs of the dataset writer whose refused call reports fewer parts than are in the store. */
module WriterExamples {
  import opened Text
  import opened Sequences
  import opened Rows
  import opened Datasets
  import opened DatasetWriter
  import opened WriterRuns
  import opened DatasetRun
  import opened WriterRefusals
  import P = TimePartition

  /** Daily partitions, of which one may be open, and a store whose operation number `fault` fails. */
  const DAILY: Dataset := Dataset("", ["t"], "t", P.Second, P.Day, P.Window(0, 3))

  function OneAtATime(fault: nat, unheard: bool): Env {
    Env(DAILY, Settings(1, 10, 1000, 10), n => n == fault, n => unheard, row => true, row => 1, file => 1)
  }

  const EMPTY_WORLD: World := World(map[], map[], 0, 0, 0)

  function RowOn(day: int): Row {
    map["t" := Int(86400 * day)]
  }

  function DayPath(day: int): string {
    P.Canonical(P.Day, day).path
  }

  lemma LocatedOn(day: int)
    requires 0 <= day <= 2
    ensures var located := Locate(DAILY, RowOn(day));
            located.Ok? && located.value.partition.path == DayPath(day)
            && located.value.datetime == 86_400_000_000 * day
  {
    hide P.PathOf, P.BuildPartition;
    P.BuildIsBucket(DAILY.window, 86400 * day * P.Factor(P.Second), P.Day);
  }

  // ---------- The first row ----------

  function FirstEntry(): Entry {
    Entry(0, PartKey(DAILY, DayPath(0), 0), DayPath(0), 0, 0, [], 0, 0, 1)
  }

  function OpenedState(): State {
    State(map[DayPath(0) := FirstEntry()], 1, [])
  }

  /** The state after the row of day 0. */
  function FirstState(): State {
    State(map[DayPath(0) := FirstEntry().(rows := 1, bytes := 1, buffer := [RowOn(0)], access := 2)], 2, [])
  }

  const FIRST_WORLD: World := World(map[], map[0 := []], 1, 1, 1)

  lemma FirstOpened(fault: nat, unheard: bool)
    requires fault >= 1
    ensures var env := OneAtATime(fault, unheard);
            && Ready(env, INITIAL, EMPTY_WORLD)
            && EnsureEntry(env, INITIAL, EMPTY_WORLD, DayPath(0), 0, RowOn(0)) ==
               Outcome(Ok(OpenedState()), FIRST_WORLD)
  {
    hide PartKey, DayPath;
    assert EMPTY_WORLD.open[0 := []] == map[0 := []];
    assert INITIAL.active[DayPath(0) := FirstEntry()] == OpenedState().active;
  }

  lemma FirstRow(fault: nat, unheard: bool)
    requires fault >= 1
    ensures var env := OneAtATime(fault, unheard);
            && Ready(env, INITIAL, EMPTY_WORLD)
            && RouteRow(env, INITIAL, EMPTY_WORLD, RowOn(0)) == Outcome(Ok(FirstState()), FIRST_WORLD)
  {
    hide Locate, PartKey, DayPath, EnsureEntry;
    LocatedOn(0);
    FirstOpened(fault, unheard);
    var env := OneAtATime(fault, unheard);
    FirstAppended(env);
  }

  lemma FirstAppended(env: Env)
    requires env.settings == Settings(1, 10, 1000, 10) && env.rowBytes(RowOn(0)) == 1
    ensures AppendRow(env, OpenedState(), FIRST_WORLD, DayPath(0), 0, RowOn(0)) ==
            Outcome(Ok(FirstState()), FIRST_WORLD)
  {
    hide PartKey, DayPath;
    assert [RowOn(0)] + [] == [RowOn(0)];
    assert OpenedState().active[DayPath(0) := FirstState().active[DayPath(0)]] == FirstState().active;
  }

  // ---------- Publishing it ----------

  /** Writing the batch is operation 1. */
  lemma FirstFlushed(fault: nat, unheard: bool)
    requires fault >= 2
    ensures var env := OneAtATime(fault, unheard);
            var o := FlushEntry(env, FirstState(), FIRST_WORLD, DayPath(0));
            o.result.Ok? && o.world.operations == 2
  {
    hide PartKey, DayPath;
    var env := OneAtATime(fault, unheard);
    assert Reverse([RowOn(0)]) == [RowOn(0)];
    assert RowOn(0).Keys == (set name | name in DAILY.names);
    var batches := Chunk([RowOn(0)], 10);
    assert batches == [[RowOn(0)]];
    assert batches[1..] == [];
    assert WriteBatches(env, FIRST_WORLD, 0, batches).0;
  }

  /** Closing is operation 2. */
  lemma FirstPublished(fault: nat, unheard: bool)
    requires fault >= 2
    ensures var env := OneAtATime(fault, unheard);
            var o := PublishEntry(env, FirstState(), FIRST_WORLD, DayPath(0));
            && (Surfaces(env, FirstState(), FIRST_WORLD, DayPath(0)) <==> fault != 2 || unheard)
            && (o.result.Ok? <==> fault != 2)
            && (o.result.Err? ==> o.result.error.PublishFailed?)
            && o.world.operations == 3
  {
    hide PartKey, DayPath, FlushEntry, MakeReport;
    FirstFlushed(fault, unheard);
    FlushFacts(OneAtATime(fault, unheard), FirstState(), FIRST_WORLD, DayPath(0));
  }

  lemma FirstInv(fault: nat, unheard: bool)
    requires fault >= 1
    ensures var env := OneAtATime(fault, unheard);
            Startable(env, EMPTY_WORLD) && Inv(env, EMPTY_WORLD, FirstState(), FIRST_WORLD)
  {
    hide Inv, RouteRow, NonEmpty, PartKey, DayPath, OneAtATime, Ready;
    var env := OneAtATime(fault, unheard);
    ExampleStarts(fault, unheard);
    StartInv(env, EMPTY_WORLD);
    FirstRow(fault, unheard);
    RouteKeeps(env, EMPTY_WORLD, INITIAL, EMPTY_WORLD, RowOn(0));
  }

  lemma ExampleStarts(fault: nat, unheard: bool)
    ensures Startable(OneAtATime(fault, unheard), EMPTY_WORLD)
  {
    hide PartKey;
  }

  // ---------- Reports that miss an object ----------

  /**
   One row is written, and the close of its part fails after the upload was completed: the close is
   refused, the report in its detail has no part, and the part is in the store.
   */
  lemma IncompleteClose()
    ensures var env := OneAtATime(2, true);
            && Startable(env, EMPTY_WORLD)
            && Ready(env, INITIAL, EMPTY_WORLD) && Ready(env, FirstState(), FIRST_WORLD)
            && RouteRows(env, INITIAL, EMPTY_WORLD, [RowOn(0)]) == Outcome(Ok(FirstState()), FIRST_WORLD)
            && CloseStops(env, FirstState(), FIRST_WORLD) == Some(Attempt(FirstState(), FIRST_WORLD, DayPath(0)))
            && var o := PublishEntry(env, FirstState(), FIRST_WORLD, DayPath(0));
            && o.result.Err? && o.result.error.PublishFailed?
            && o.result.error.published.parts == [] && o.world.store.Keys == {FirstEntry().key}
            && !Complete(EMPTY_WORLD, o.result.error.published, o.world)
  {
    hide PartKey, DayPath, RouteRow, PublishEntry, Inv, Complete, Surfaces, NamesUnused, CloseStops;
    var env := OneAtATime(2, true);
    FirstRow(2, true);
    FirstInv(2, true);
    FirstPublished(2, true);
    RefusedReport(env, EMPTY_WORLD, FirstState(), FIRST_WORLD, DayPath(0));
    PublishFacts(env, FirstState(), FIRST_WORLD, DayPath(0));
    assert RouteRows(env, INITIAL, EMPTY_WORLD, [RowOn(0)]) == Outcome(Ok(FirstState()), FIRST_WORLD) by {
      assert [RowOn(0)][1..] == [];
    }
    StopsAtOnly(env, FirstState(), FIRST_WORLD, DayPath(0));
  }

  /** With one part open, closing publishes that one. */
  lemma StopsAtOnly(env: Env, s: State, w: World, path: string)
    requires Ready(env, s, w) && s.active.Keys == {path} && PublishEntry(env, s, w, path).result.Err?
    ensures CloseStops(env, s, w) == Some(Attempt(s, w, path))
  {
    hide PathsByAge, PublishEntry, Stamped;
    PathsByAgeFacts(s);
    var paths := PathsByAge(s);
    assert |s.active| == |s.active.Keys| == 1;
    assert paths[0] in s.active.Keys;
  }

  /**
   Two rows of different days with space for one part: the second row publishes the part of the
   first, and then its own part cannot be opened. The write is refused with a report of no part.
   */
  lemma IncompleteWrite()
    ensures var env := OneAtATime(3, false);
            && Startable(env, EMPTY_WORLD) && Ready(env, INITIAL, EMPTY_WORLD)
            && var o := RouteRows(env, INITIAL, EMPTY_WORLD, [RowOn(0), RowOn(1)]);
            && o.result == Err(StoreFailed)
            && MakeReport(INITIAL.reports).parts == [] && FirstEntry().key in o.world.store
            && !Complete(EMPTY_WORLD, MakeReport(INITIAL.reports), o.world)
  {
    hide PartKey, DayPath, RouteRow, Inv, Complete, Surfaces, NamesUnused;
    var env := OneAtATime(3, false);
    FirstRow(3, false);
    FirstInv(3, false);
    SecondRefused(env);
    StartInv(env, EMPTY_WORLD);
    var second := RouteRow(env, FirstState(), FIRST_WORLD, RowOn(1));
    RunningComplete(env, EMPTY_WORLD, INITIAL, EMPTY_WORLD, second.world);
    assert [RowOn(0), RowOn(1)][1..] == [RowOn(1)];
  }

  lemma SecondRefused(env: Env)
    requires env == OneAtATime(3, false)
    ensures Ready(env, FirstState(), FIRST_WORLD)
    ensures var o := RouteRow(env, FirstState(), FIRST_WORLD, RowOn(1));
            o.result == Err(StoreFailed) && FirstEntry().key in o.world.store
  {
    hide PartKey, DayPath, PublishEntry, Inv, Surfaces, NamesUnused, Locate, AppendRow;
    LocatedOn(1);
    FirstInv(3, false);
    InvReady(env, EMPTY_WORLD, FirstState(), FIRST_WORLD);
    FirstPublished(3, false);
    PublishFacts(env, FirstState(), FIRST_WORLD, DayPath(0));
    OtherDay();
    assert LeastRecent(FirstState()) == DayPath(0);
  }

  lemma OtherDay()
    ensures DayPath(0) != DayPath(1)
  {
    hide P.PathOf, P.BucketStart;
    if DayPath(0) == DayPath(1) {
      P.PathInjective(P.Day, 0, 1);
    }
  }
}
