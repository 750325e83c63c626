/**
 The dataset stream of lib/parquex/dataset/stream.ex: a lazy walk over planned
 partitions, then their files, then the batches of the open file, with an exact
 filter on every row.
 */
module DatasetStream {
  import opened Text
  import opened Sequences
  import opened Rows
  import opened Datasets
  import opened Listing
  import P = TimePartition

  // ---------- Query ----------

  datatype Operator = Eq | Gt | Gte | Lt | Lte

  datatype Condition = Condition(operator: Operator, column: string, literal: Value)

  datatype Query = Query(
    from: int,
    until: int,
    columns: Option<seq<string>>,
    condition: Option<Condition>,
    batchSize: nat,
    limit: nat
  )

  /** The order of scalar terms: numbers, then booleans, then text. */
  function Rank(v: Value): nat {
    match v
    case Int(_) => 0
    case Real(_) => 0
    case Null => 1
    case Bool(_) => 1
    case Text(_) => 2
  }

  predicate Number(v: Value) {
    v.Int? || v.Real?
  }

  function AsReal(v: Value): real
    requires Number(v)
  {
    if v.Int? then v.n as real else v.x
  }

  predicate TermLess(a: Value, b: Value) {
    if Number(a) && Number(b) then AsReal(a) < AsReal(b)
    else
      match (a, b)
      case (Bool(m), Bool(n)) => !m && n
      case (Text(m), Text(n)) => m != n && LessEq(m, n)
      case _ => Rank(a) < Rank(b)
  }

  /** `==`: an integer equals a float of the same value. */
  predicate TermEqual(a: Value, b: Value) {
    if Number(a) && Number(b) then AsReal(a) == AsReal(b) else a == b
  }

  predicate Compare(left: Value, right: Value, operator: Operator) {
    !left.Null? &&
    match operator
    case Eq => TermEqual(left, right)
    case Gt => TermLess(right, left)
    case Gte => !TermLess(left, right)
    case Lt => TermLess(left, right)
    case Lte => !TermLess(right, left)
  }

  /** The operators agree: exactly one of `<`, `==` and `>` holds, and the other two are its unions with `==`. */
  lemma CompareLaws(left: Value, right: Value)
    requires !left.Null? && !right.Null?
    ensures Compare(left, right, Gte) <==> Compare(left, right, Gt) || Compare(left, right, Eq)
    ensures Compare(left, right, Lte) <==> Compare(left, right, Lt) || Compare(left, right, Eq)
    ensures !(Compare(left, right, Gt) && Compare(left, right, Lte))
            && !(Compare(left, right, Lt) && Compare(left, right, Gte))
    ensures Compare(left, right, Gt) || Compare(left, right, Eq) || Compare(left, right, Lt)
  {
    if left.Text? && right.Text? {
      LessEqTotal(left.s, right.s);
      if LessEq(left.s, right.s) && LessEq(right.s, left.s) {
        LessEqAntisymmetric(left.s, right.s);
      }
    }
  }

  /** What is selected, and what is read and returned of it. */
  datatype Selection = Selection(
    from: int,
    until: int,
    condition: Option<Condition>,
    output: seq<string>,
    internal: seq<string>
  )

  /** `projection`: unique known columns, in schema order. */
  function Projection(names: seq<string>, columns: Option<seq<string>>): Option<seq<string>> {
    match columns
    case None => Some(names)
    case Some(wanted) =>
      if wanted == [] || (exists c :: c in wanted && c !in names) || !Distinct(wanted) then None
      else Some(Filter((name: string) => name in wanted, names))
  }

  /** `internal_names`: the time column, the output and the predicate's column, in schema order. */
  function InternalNames(dataset: Dataset, output: seq<string>, condition: Option<Condition>): (r: seq<string>)
    ensures forall n :: n in r <==>
              n in dataset.names &&
              (n == dataset.column || n in output || (condition.Some? && n == condition.value.column))
  {
    var required := [dataset.column] + output + (if condition.Some? then [condition.value.column] else []);
    Filter((name: string) => name in required, dataset.names)
  }

  datatype Plan = Plan(partitions: seq<P.Partition>, selection: Selection)

  /** `open`: plan, project and check the predicate; nothing is listed yet. */
  function Open(dataset: Dataset, query: Query): Option<Plan>
    requires IsI64(query.from) && IsI64(query.until)
  {
    var plans := P.PlanResult(dataset.window, query.from, query.until, dataset.unit, dataset.granularity, query.limit);
    var output := Projection(dataset.names, query.columns);
    if plans.Err? || output.None? then None
    else if query.condition.Some? &&
            (query.condition.value.column !in dataset.names || query.condition.value.literal.Null?)
    then None
    else
      Some(Plan(plans.value,
                Selection(query.from, query.until, query.condition, output.value,
                          InternalNames(dataset, output.value, query.condition))))
  }

  // ---------- State ----------

  datatype Env = Env(
    dataset: Dataset,
    selection: Selection,
    list: string -> Listed,
    objects: map<string, File>,
    batchSize: nat,
    faults: nat -> bool
  )

  datatype Counters = Counters(
    listed: nat,
    withFiles: nat,
    skipped: nat,
    discovered: nat,
    openedFiles: nat,
    skippedObjects: nat,
    batches: nat,
    rows: nat,
    peak: nat
  )

  /**
   Partitions still to list, files still to open, the batches left in the open file,
   the counters, the native readers now open, and the number of operations so far.
   */
  datatype State = State(
    plans: seq<P.Partition>,
    files: seq<string>,
    current: Option<seq<seq<Row>>>,
    counters: Counters,
    readers: int,
    operations: nat
  )

  datatype Step = Emit(batch: seq<Row>, next: State) | Halt(final: State) | Raise(final: State)

  function Start(plans: seq<P.Partition>): State {
    State(plans, [], None, Counters(0, 0, 0, 0, 0, 0, 0, 0, 0), 0, 0)
  }

  /** A row has the wanted columns if it has them all, and is unchanged if it has no others. */
  function Restrict(row: Row, names: seq<string>): (r: Row)
    ensures (forall name :: name in names ==> name in row) ==> r.Keys == set name | name in names
    ensures (forall name :: name in row ==> name in names) ==> r == row
  {
    map n | n in row && n in names :: row[n]
  }

  /** `in_range?` and `conditionmatch?`. */
  predicate Selected(column: string, selection: Selection, row: Row) {
    && column in row && row[column].Int? && selection.from <= row[column].n < selection.until
    && (selection.condition.Some? ==>
          var p := selection.condition.value;
          p.column in row && Compare(row[p.column], p.literal, p.operator))
  }

  function Select(column: string, selection: Selection, rows: seq<Row>): seq<Row> {
    Map((row: Row) => Restrict(row, selection.output),
        Filter((row: Row) => Selected(column, selection, row), rows))
  }

  /** `Parquex.stream`: the batches of a file, restricted to the internal columns. */
  function OpenReader(env: Env, key: string): Option<seq<seq<Row>>>
    requires env.batchSize > 0
  {
    if key !in env.objects then None
    else
      var rows := Flatten(env.objects[key]);
      if exists row, name :: row in rows && name in env.selection.internal && name !in row then None
      else Some(Chunk(Map((row: Row) => Restrict(row, env.selection.internal), rows), env.batchSize))
  }

  predicate IsParquet(key: string) {
    EndsWith(key, ".parquet")
  }

  function ParquetKeys(keys: seq<string>): seq<string> {
    Sort(Filter(IsParquet, keys))
  }

  function Prefix(env: Env, partition: P.Partition): string {
    env.dataset.prefix + partition.path + "/"
  }

  function Left(s: State): nat {
    if s.current.Some? then 1 + |s.current.value| else 0
  }

  /** The work left is smaller: fewer partitions, or else fewer files, or else fewer batches. */
  predicate Less(a: State, b: State) {
    |a.plans| < |b.plans| ||
    (|a.plans| == |b.plans| && (|a.files| < |b.files| || (|a.files| == |b.files| && Left(a) < Left(b))))
  }

  function Tick(s: State): State {
    s.(operations := s.operations + 1)
  }

  /** Native reader opened: the counters, and the readers now open. */
  function Opened(s: State, batches: seq<seq<Row>>): State
    requires s.files != []
  {
    s.(current := Some(batches), files := s.files[1..], readers := s.readers + 1,
       counters := s.counters.(openedFiles := s.counters.openedFiles + 1, peak := 1))
  }

  /** Native reader closed at the end of its file. */
  function Closed(s: State): State {
    s.(current := None, readers := s.readers - 1)
  }

  function Discovered(s: State, keys: seq<string>): State
    requires s.plans != []
  {
    var parquet := ParquetKeys(keys);
    var c := s.counters;
    s.(files := parquet, plans := s.plans[1..],
       counters := c.(
         listed := c.listed + 1,
         withFiles := c.withFiles + (if parquet == [] then 0 else 1),
         skipped := c.skipped + (if parquet == [] then 1 else 0),
         discovered := c.discovered + |parquet|,
         skippedObjects := c.skippedObjects + (if |keys| >= |parquet| then |keys| - |parquet| else 0)))
  }

  /** `next`: advance to the next non-empty filtered batch, or to the end. */
  function Next(env: Env, s: State): (r: Step)
    requires env.batchSize > 0
    ensures r.Emit? ==> Less(r.next, s) && r.batch != []
    decreases |s.plans|, |s.files|, Left(s)
  {
    if s.current.Some? then
      if env.faults(s.operations) then Raise(Tick(s))
      else if s.current.value == [] then
        Next(env, Closed(Tick(s)))
      else
        var output := Select(env.dataset.column, env.selection, s.current.value[0]);
        var s' := Tick(s).(current := Some(s.current.value[1..]));
        if output == [] then Next(env, s')
        else
          var c := s.counters;
          Emit(output, s'.(counters := c.(batches := c.batches + 1, rows := c.rows + |output|)))
    else if s.files != [] then
      var reader := OpenReader(env, s.files[0]);
      if env.faults(s.operations) || reader.None? then Raise(Tick(s))
      else Next(env, Opened(Tick(s), reader.value))
    else if s.plans != [] then
      var listed := env.list(Prefix(env, s.plans[0]));
      if env.faults(s.operations) || listed.ListFailed? then Raise(Tick(s))
      else Next(env, Discovered(Tick(s), listed.keys))
    else Halt(s)
  }

  datatype Drained = Drained(batches: seq<seq<Row>>, ok: bool, final: State)

  /** `Enum.to_list`: pull until the end; an error raised on the way ends the enumeration. */
  function Drain(env: Env, s: State): Drained
    requires env.batchSize > 0
    decreases |s.plans|, |s.files|, Left(s)
  {
    match Next(env, s)
    case Halt(final) => Drained([], true, final)
    case Raise(final) => Drained([], false, final)
    case Emit(batch, next) =>
      var rest := Drain(env, next);
      Drained([batch] + rest.batches, rest.ok, rest.final)
  }

  // ---------- The rows left to read ----------

  function FileRows(env: Env, key: string): seq<Row> {
    if key in env.objects then Select(env.dataset.column, env.selection, Flatten(env.objects[key])) else []
  }

  function FilesRows(env: Env, keys: seq<string>): seq<Row> {
    if keys == [] then [] else FileRows(env, keys[0]) + FilesRows(env, keys[1..])
  }

  function ListedFiles(env: Env, partition: P.Partition): seq<string> {
    var listed := env.list(Prefix(env, partition));
    if listed.Listed? then ParquetKeys(listed.keys) else []
  }

  function PlansRows(env: Env, plans: seq<P.Partition>): seq<Row> {
    if plans == [] then [] else FilesRows(env, ListedFiles(env, plans[0])) + PlansRows(env, plans[1..])
  }

  /** A plain scan of everything left: the open file, then the files found, then the partitions to list. */
  function Remaining(env: Env, s: State): seq<Row> {
    (if s.current.Some? then Select(env.dataset.column, env.selection, Flatten(s.current.value)) else [])
    + FilesRows(env, s.files) + PlansRows(env, s.plans)
  }

  /** The columns read are enough to decide and to produce the output. */
  predicate Covers(env: Env) {
    && env.dataset.column in env.selection.internal
    && (forall n :: n in env.selection.output ==> n in env.selection.internal)
    && (env.selection.condition.Some? ==> env.selection.condition.value.column in env.selection.internal)
  }

  lemma OpenCovers(dataset: Dataset, query: Query, env: Env)
    requires IsI64(query.from) && IsI64(query.until) && dataset.column in dataset.names
    requires Open(dataset, query).Some? && env.dataset == dataset
             && env.selection == Open(dataset, query).value.selection
    ensures Covers(env)
  {
  }

  lemma SelectAppend(column: string, selection: Selection, a: seq<Row>, b: seq<Row>)
    ensures Select(column, selection, a + b) == Select(column, selection, a) + Select(column, selection, b)
  {
    var keep := (row: Row) => Selected(column, selection, row);
    FilterAppend(keep, a, b);
    MapAppend((row: Row) => Restrict(row, selection.output), Filter(keep, a), Filter(keep, b));
  }

  /** Reading only the internal columns selects the same rows and returns the same columns. */
  lemma {:induction false} RestrictedSelect(env: Env, rows: seq<Row>)
    requires Covers(env)
    requires forall row, name :: row in rows && name in env.selection.internal ==> name in row
    ensures Select(env.dataset.column, env.selection, Map((row: Row) => Restrict(row, env.selection.internal), rows)) ==
            Select(env.dataset.column, env.selection, rows)
  {
    if rows != [] {
      hide Select, Covers, Restrict;
      RestrictedSelect(env, rows[1..]);
      var f := (row: Row) => Restrict(row, env.selection.internal);
      var column, selection := env.dataset.column, env.selection;
      assert rows == [rows[0]] + rows[1..];
      SelectAppend(column, selection, [rows[0]], rows[1..]);
      SelectAppend(column, selection, [f(rows[0])], Map(f, rows[1..]));
      RestrictedOne(env, rows[0]);
    }
  }

  lemma SelectOne(column: string, selection: Selection, row: Row)
    ensures Select(column, selection, [row]) ==
            if Selected(column, selection, row) then [Restrict(row, selection.output)] else []
  {
    var keep := (r: Row) => Selected(column, selection, r);
    FilterOne(keep, row);
  }

  lemma RestrictedOne(env: Env, row: Row)
    requires Covers(env)
    requires forall name :: name in env.selection.internal ==> name in row
    ensures Select(env.dataset.column, env.selection, [Restrict(row, env.selection.internal)]) ==
            Select(env.dataset.column, env.selection, [row])
  {
    var small := Restrict(row, env.selection.internal);
    SelectOne(env.dataset.column, env.selection, row);
    SelectOne(env.dataset.column, env.selection, small);
    assert Selected(env.dataset.column, env.selection, small) <==> Selected(env.dataset.column, env.selection, row);
    assert Restrict(small, env.selection.output) == Restrict(row, env.selection.output);
  }

  lemma OpenedRows(env: Env, key: string)
    requires env.batchSize > 0 && Covers(env) && OpenReader(env, key).Some?
    ensures Select(env.dataset.column, env.selection, Flatten(OpenReader(env, key).value)) == FileRows(env, key)
  {
    RestrictedSelect(env, Flatten(env.objects[key]));
  }

  /** Draining without an error returns exactly the rows of the plain scan, in its order. */
  lemma {:induction false} NextRows(env: Env, s: State)
    requires env.batchSize > 0 && Covers(env)
    ensures var r := Next(env, s);
            && (r.Halt? ==> Remaining(env, s) == [])
            && (r.Emit? ==> Remaining(env, s) == r.batch + Remaining(env, r.next))
    decreases |s.plans|, |s.files|, Left(s)
  {
    hide Select, ParquetKeys, OpenReader, FileRows, Remaining, Covers;
    if s.current.Some? {
      if !env.faults(s.operations) {
        if s.current.value == [] {
          ClosedRemaining(env, s);
          NextRows(env, Closed(Tick(s)));
        } else {
          var s' := Tick(s).(current := Some(s.current.value[1..]));
          BatchRemaining(env, s, s');
          if Select(env.dataset.column, env.selection, s.current.value[0]) == [] {
            NextRows(env, s');
          } else {
            SameRemaining(env, s', Next(env, s).next);
          }
        }
      }
    } else if s.files != [] {
      var reader := OpenReader(env, s.files[0]);
      if !env.faults(s.operations) && reader.Some? {
        OpenedRemaining(env, s, reader.value);
        NextRows(env, Opened(Tick(s), reader.value));
      }
    } else if s.plans != [] {
      var listed := env.list(Prefix(env, s.plans[0]));
      if !env.faults(s.operations) && listed.Listed? {
        ListedRemaining(env, s);
        NextRows(env, Discovered(Tick(s), listed.keys));
      }
    } else {
      assert Remaining(env, s) == [] by { NothingRemaining(env, s); }
    }
  }

  lemma NothingRemaining(env: Env, s: State)
    requires s.current.None? && s.files == [] && s.plans == []
    ensures Remaining(env, s) == []
  {
  }

  lemma SameRemaining(env: Env, s: State, s': State)
    requires s'.current == s.current && s'.files == s.files && s'.plans == s.plans
    ensures Remaining(env, s') == Remaining(env, s)
  {
  }

  lemma ClosedRemaining(env: Env, s: State)
    requires s.current == Some([])
    ensures Remaining(env, Closed(Tick(s))) == Remaining(env, s)
  {
    SelectNothing(env.dataset.column, env.selection);
    hide Select, FilesRows, PlansRows;
  }

  lemma BatchRemaining(env: Env, s: State, s': State)
    requires s.current.Some? && s.current.value != []
    requires s'.current == Some(s.current.value[1..]) && s'.files == s.files && s'.plans == s.plans
    ensures Remaining(env, s) ==
            Select(env.dataset.column, env.selection, s.current.value[0]) + Remaining(env, s')
  {
    hide Select, FilesRows, PlansRows;
    var column, selection, batches := env.dataset.column, env.selection, s.current.value;
    SelectAppend(column, selection, batches[0], Flatten(batches[1..]));
    Regroup(Select(column, selection, batches[0]), Select(column, selection, Flatten(batches[1..])),
            FilesRows(env, s.files), PlansRows(env, s.plans));
  }

  lemma Regroup(a: seq<Row>, b: seq<Row>, c: seq<Row>, d: seq<Row>)
    ensures a + b + c + d == a + (b + c + d)
  {
  }

  lemma OpenedRemaining(env: Env, s: State, batches: seq<seq<Row>>)
    requires env.batchSize > 0 && Covers(env)
    requires s.current.None? && s.files != [] && OpenReader(env, s.files[0]) == Some(batches)
    ensures Remaining(env, Opened(Tick(s), batches)) == Remaining(env, s)
  {
    hide Select, FileRows, PlansRows, OpenReader;
    OpenedRows(env, s.files[0]);
  }

  lemma ListedRemaining(env: Env, s: State)
    requires s.current.None? && s.files == [] && s.plans != []
    requires env.list(Prefix(env, s.plans[0])).Listed?
    ensures Remaining(env, Discovered(Tick(s), env.list(Prefix(env, s.plans[0])).keys)) == Remaining(env, s)
  {
    hide Select, FileRows, ParquetKeys;
  }

  lemma SelectNothing(column: string, selection: Selection)
    ensures Select(column, selection, []) == []
  {
  }

  lemma {:induction false} DrainRows(env: Env, s: State)
    requires env.batchSize > 0 && Covers(env)
    ensures var d := Drain(env, s); d.ok ==> Flatten(d.batches) == Remaining(env, s)
    decreases |s.plans|, |s.files|, Left(s)
  {
    hide Next, Remaining;
    NextRows(env, s);
    var step := Next(env, s);
    if step.Emit? {
      DrainRows(env, step.next);
    }
  }

  // ---------- Every state on the way ----------

  /** The state with which `next` goes on when it has nothing to return yet. */
  function Inner(env: Env, s: State): Option<State>
    requires env.batchSize > 0
  {
    if env.faults(s.operations) then None
    else if s.current.Some? then
      if s.current.value == [] then Some(Closed(Tick(s)))
      else if Select(env.dataset.column, env.selection, s.current.value[0]) == [] then
        Some(Tick(s).(current := Some(s.current.value[1..])))
      else None
    else if s.files != [] then
      var reader := OpenReader(env, s.files[0]);
      if reader.Some? then Some(Opened(Tick(s), reader.value)) else None
    else if s.plans != [] then
      var listed := env.list(Prefix(env, s.plans[0]));
      if listed.Listed? then Some(Discovered(Tick(s), listed.keys)) else None
    else None
  }

  /** Going on is what `next` does there, and where it does not go on it opens and closes no reader. */
  lemma NextInner(env: Env, s: State)
    requires env.batchSize > 0
    ensures var r := Next(env, s);
            match Inner(env, s)
            case Some(t) => Less(t, s) && r == Next(env, t)
            case None =>
              var t := if r.Emit? then r.next else r.final;
              t.readers == s.readers && t.counters.peak == s.counters.peak
  {
    hide Select, OpenReader, ParquetKeys, Prefix;
  }

  // ---------- Counters ----------

  function FilesIn(env: Env): P.Partition -> nat {
    (partition: P.Partition) => |ListedFiles(env, partition)|
  }

  /** How many keys of a partition's listing are not Parquet files. */
  function OthersIn(env: Env): P.Partition -> nat {
    (partition: P.Partition) =>
      var listed := env.list(Prefix(env, partition));
      if listed.Listed? then |Filter((key: string) => !IsParquet(key), listed.keys)| else 0
  }

  function AnyIn(env: Env): P.Partition -> nat {
    (partition: P.Partition) => if ListedFiles(env, partition) == [] then 0 else 1
  }

  function Total(f: P.Partition -> nat, plans: seq<P.Partition>): nat {
    Sum(Map(f, plans))
  }

  /**
   What the counters say about the work done: the partitions listed so far are the first of the plan; with files
   are those whose listing names a Parquet file; files were found and other objects skipped as these listings name
   them; and batches and rows are those emitted.
   */
  predicate Counted(env: Env, plans: seq<P.Partition>, emitted: seq<seq<Row>>, s: State) {
    var c := s.counters;
    && c.listed <= |plans| && s.plans == plans[c.listed..]
    && var done := plans[..c.listed];
    && c.withFiles == Total(AnyIn(env), done) && c.listed == c.withFiles + c.skipped
    && c.discovered == Total(FilesIn(env), done) == c.openedFiles + |s.files|
    && c.skippedObjects == Total(OthersIn(env), done)
    && c.batches == |emitted| && c.rows == |Flatten(emitted)|
    && s.readers == (if s.current.Some? then 1 else 0)
    && c.peak == (if c.openedFiles > 0 then 1 else 0)
  }

  lemma StartCounted(env: Env, plans: seq<P.Partition>)
    ensures Counted(env, plans, [], Start(plans))
  {
    hide AnyIn, FilesIn, OthersIn;
    assert plans[..0] == [] && plans[0..] == plans;
  }

  lemma TotalGrows(f: P.Partition -> nat, plans: seq<P.Partition>, n: nat)
    requires n < |plans|
    ensures Total(f, plans[..n + 1]) == Total(f, plans[..n]) + f(plans[n])
  {
    assert plans[..n + 1] == plans[..n] + [plans[n]];
    MapAppend(f, plans[..n], [plans[n]]);
    SumAppend(Map(f, plans[..n]), Map(f, [plans[n]]));
    MapOne(f, plans[n]);
    assert Sum([f(plans[n])]) == f(plans[n]) + Sum([]);
  }

  lemma SameLength<T>(a: seq<T>, b: seq<T>)
    requires multiset(a) == multiset(b)
    ensures |a| == |b|
  {
    assert |multiset(a)| == |a| && |multiset(b)| == |b|;
  }

  lemma ParquetAndOthers(keys: seq<string>)
    ensures |ParquetKeys(keys)| + |Filter((key: string) => !IsParquet(key), keys)| == |keys|
  {
    EitherKind(keys);
    hide IsParquet, Filter, Sort;
    SameLength(Sort(Filter(IsParquet, keys)), Filter(IsParquet, keys));
  }

  lemma {:induction false} EitherKind(keys: seq<string>)
    ensures |Filter(IsParquet, keys)| + |Filter((key: string) => !IsParquet(key), keys)| == |keys|
  {
    hide IsParquet;
    if keys != [] {
      EitherKind(keys[1..]);
    }
  }

  lemma DiscoveredCounts(env: Env, plans: seq<P.Partition>, emitted: seq<seq<Row>>, s: State)
    requires Counted(env, plans, emitted, s) && s.current.None? && s.files == [] && s.plans != []
    requires env.list(Prefix(env, s.plans[0])).Listed?
    ensures Counted(env, plans, emitted, Discovered(Tick(s), env.list(Prefix(env, s.plans[0])).keys))
  {
    hide ParquetKeys, IsParquet, Prefix, Total, Flatten;
    var keys, n := env.list(Prefix(env, s.plans[0])).keys, s.counters.listed;
    assert s.plans[0] == plans[n] && s.plans[1..] == plans[n + 1..];
    TotalGrows(AnyIn(env), plans, n);
    TotalGrows(FilesIn(env), plans, n);
    TotalGrows(OthersIn(env), plans, n);
    ParquetAndOthers(keys);
  }

  lemma InnerCounts(env: Env, plans: seq<P.Partition>, emitted: seq<seq<Row>>, s: State)
    requires env.batchSize > 0 && Counted(env, plans, emitted, s) && Inner(env, s).Some?
    ensures Counted(env, plans, emitted, Inner(env, s).value)
    ensures var t := Inner(env, s).value;
            s.readers <= s.counters.peak ==>
              && t.readers <= t.counters.peak && s.counters.peak <= t.counters.peak
              && (t.counters.peak == s.counters.peak || t.readers == t.counters.peak)
  {
    hide Select, OpenReader, Prefix;
    if s.current.None? && s.files == [] {
      DiscoveredCounts(env, plans, emitted, s);
      hide ParquetKeys, Counted;
      CountedReaders(env, plans, emitted, s);
    } else {
      ReaderCounts(env, plans, emitted, s, Inner(env, s).value);
      CountedReaders(env, plans, emitted, s);
      hide Counted;
    }
  }

  lemma CountedReaders(env: Env, plans: seq<P.Partition>, emitted: seq<seq<Row>>, s: State)
    requires Counted(env, plans, emitted, s)
    ensures s.readers == (if s.current.Some? then 1 else 0) && s.counters.peak <= 1
  {
    hide Total, Flatten;
  }

  /** Opening, reading and closing a file change only the reader and the counter of opened files. */
  lemma ReaderCounts(env: Env, plans: seq<P.Partition>, emitted: seq<seq<Row>>, s: State, t: State)
    requires Counted(env, plans, emitted, s)
    requires t.plans == s.plans && t.readers == (if t.current.Some? then 1 else 0)
    requires var c := t.counters;
             && t.counters == s.counters.(openedFiles := c.openedFiles, peak := c.peak)
             && c.openedFiles + |t.files| == s.counters.openedFiles + |s.files|
             && c.peak == (if c.openedFiles > 0 then 1 else 0)
    ensures Counted(env, plans, emitted, t)
  {
    hide Total, AnyIn, FilesIn, OthersIn, Flatten;
  }

  lemma LastCounts(env: Env, plans: seq<P.Partition>, emitted: seq<seq<Row>>, s: State)
    requires env.batchSize > 0 && Counted(env, plans, emitted, s) && Inner(env, s).None?
    ensures match Next(env, s)
            case Emit(batch, next) => Counted(env, plans, emitted + [batch], next)
            case Halt(final) => Counted(env, plans, emitted, final) && final.plans == [] && final.files == []
                && final.current.None?
            case Raise(final) => Counted(env, plans, emitted, final)
  {
    hide Select, OpenReader, ParquetKeys, Prefix, Total, AnyIn, FilesIn, OthersIn;
    if Next(env, s).Emit? {
      var batch := Next(env, s).batch;
      FlattenAppend(emitted, [batch]);
      assert Flatten([batch]) == batch + Flatten([]);
    }
    hide Flatten;
  }

  /** Each pull counts what it does, whatever it answers. */
  lemma {:induction false} NextCounts(env: Env, plans: seq<P.Partition>, emitted: seq<seq<Row>>, s: State)
    requires env.batchSize > 0 && Counted(env, plans, emitted, s)
    ensures match Next(env, s)
            case Emit(batch, next) => Counted(env, plans, emitted + [batch], next)
            case Halt(final) => Counted(env, plans, emitted, final) && final.plans == [] && final.files == []
                && final.current.None?
            case Raise(final) => Counted(env, plans, emitted, final)
    decreases |s.plans|, |s.files|, Left(s)
  {
    hide Next, Inner, Counted;
    NextInner(env, s);
    if Inner(env, s).Some? {
      InnerCounts(env, plans, emitted, s);
      NextCounts(env, plans, emitted, Inner(env, s).value);
    } else {
      LastCounts(env, plans, emitted, s);
    }
  }

  /**
   The counters at the end of a drain: every planned partition was listed and either
   had files or was skipped, every file found was opened, every batch and row emitted
   was counted, every other object listed was, and no reader is open.
   */
  lemma {:induction false} DrainCounts(env: Env, plans: seq<P.Partition>, emitted: seq<seq<Row>>, s: State)
    requires env.batchSize > 0 && Counted(env, plans, emitted, s)
    ensures var d := Drain(env, s);
            && Counted(env, plans, emitted + d.batches, d.final)
            && (d.ok ==>
                  && d.final.counters.listed == |plans|
                  && d.final.counters.withFiles == Total(AnyIn(env), plans)
                  && d.final.counters.openedFiles == d.final.counters.discovered == Total(FilesIn(env), plans)
                  && d.final.counters.skippedObjects == Total(OthersIn(env), plans)
                  && d.final.readers == 0)
    decreases |s.plans|, |s.files|, Left(s)
  {
    hide Next, Total, AnyIn, FilesIn, OthersIn, Flatten;
    NextCounts(env, plans, emitted, s);
    var step := Next(env, s);
    if step.Emit? {
      DrainCounts(env, plans, emitted + [step.batch], step.next);
      var rest := Drain(env, step.next);
      assert emitted + [step.batch] + rest.batches == emitted + ([step.batch] + rest.batches);
    } else {
      assert emitted + [] == emitted;
      if step.Halt? {
        assert plans[..|plans|] == plans;
      }
    }
  }

  /** All states of a drain, in order. */
  ghost function DrainStates(env: Env, s: State): (states: seq<State>)
    requires env.batchSize > 0
    ensures states != [] && states[0] == s
    decreases |s.plans|, |s.files|, Left(s)
  {
    NextInner(env, s);
    match Inner(env, s)
    case Some(t) => [s] + DrainStates(env, t)
    case None =>
      match Next(env, s)
      case Emit(_, next) => [s] + DrainStates(env, next)
      case Halt(final) => [s, final]
      case Raise(final) => [s, final]
  }

  ghost function MostReaders(states: seq<State>): int {
    if states == [] then 0
    else
      var rest := MostReaders(states[1..]);
      if states[0].readers > rest then states[0].readers else rest
  }

  /**
   In every state of a drain at most one reader is open, and the peak that the counters report at the
   end is the largest number of readers open in any state.
   */
  lemma {:induction false} DrainPeak(env: Env, plans: seq<P.Partition>, emitted: seq<seq<Row>>, s: State)
    requires env.batchSize > 0 && Counted(env, plans, emitted, s) && s.readers <= s.counters.peak
    ensures var states, peak := DrainStates(env, s), Drain(env, s).final.counters.peak;
            && (forall x :: x in states ==> 0 <= x.readers <= 1)
            && peak == (if s.counters.peak > MostReaders(states) then s.counters.peak else MostReaders(states))
    decreases |s.plans|, |s.files|, Left(s)
  {
    hide Next, Inner, Discovered, Total, AnyIn, FilesIn, OthersIn, Flatten;
    NextInner(env, s);
    var step := Next(env, s);
    var states := DrainStates(env, s);
    if Inner(env, s).Some? {
      var t := Inner(env, s).value;
      InnerCounts(env, plans, emitted, s);
      DrainPeak(env, plans, emitted, t);
      assert states == [s] + DrainStates(env, t) && states[1..] == DrainStates(env, t);
      assert Drain(env, s) == Drain(env, t);
      assert MostReaders(DrainStates(env, t)) >= t.readers;
    } else if step.Emit? {
      NextCounts(env, plans, emitted, s);
      DrainPeak(env, plans, emitted + [step.batch], step.next);
      assert states[1..] == DrainStates(env, step.next);
    } else {
      assert states == [s, step.final] && states[1..] == [step.final] && states[1..][1..] == [];
      assert MostReaders(states[1..]) == (if step.final.readers > 0 then step.final.readers else 0);
    }
  }

  // ---------- A store that serves ----------

  /** No operation fails, everything left can be listed, and every file left or found can be opened. */
  ghost predicate Serves(env: Env, s: State)
    requires env.batchSize > 0
  {
    && (forall n: nat :: !env.faults(n))
    && (forall i :: 0 <= i < |s.files| ==> OpenReader(env, s.files[i]).Some?)
    && (forall i :: 0 <= i < |s.plans| ==>
          && env.list(Prefix(env, s.plans[i])).Listed?
          && forall key :: key in ListedFiles(env, s.plans[i]) ==> OpenReader(env, key).Some?)
  }

  lemma ServesOn(env: Env, s: State)
    requires env.batchSize > 0 && Serves(env, s)
    ensures Inner(env, s).Some? ==> Serves(env, Inner(env, s).value)
    ensures Inner(env, s).None? ==>
              var r := Next(env, s);
              !r.Raise? && (r.Emit? ==> r.next.plans == s.plans && r.next.files == s.files)
  {
    hide Select, OpenReader, ParquetKeys, Prefix;
  }

  /** Over such a store a drain meets no error. */
  lemma {:induction false} DrainServed(env: Env, s: State)
    requires env.batchSize > 0 && Serves(env, s)
    ensures Drain(env, s).ok
    decreases |s.plans|, |s.files|, Left(s)
  {
    hide Next, Inner, Serves;
    NextInner(env, s);
    ServesOn(env, s);
    var step := Next(env, s);
    if Inner(env, s).Some? {
      DrainServed(env, Inner(env, s).value);
      assert Drain(env, s) == Drain(env, Inner(env, s).value);
    } else if step.Emit? {
      ServesSame(env, s, step.next);
      DrainServed(env, step.next);
    }
  }

  lemma ServesSame(env: Env, s: State, t: State)
    requires env.batchSize > 0 && Serves(env, s) && t.plans == s.plans && t.files == s.files
    ensures Serves(env, t)
  {
  }
}
