/**
 The dataset stream as it runs (lib/parquex/dataset/stream.ex): the cursor is passed from
 pull to pull, while the counters and the reader in the control process change in place.
 */
module StreamHandles {
  import opened Text
  import opened Sequences
  import opened Rows
  import opened DatasetStream
  import opened Listing
  import D = Datasets
  import P = TimePartition

  /** The part of the state that each pull returns. */
  datatype Cursor = Cursor(plans: seq<P.Partition>, files: seq<string>, current: Option<seq<seq<Row>>>)

  datatype Pulled = Batch(rows: seq<Row>) | End | Raised

  function Pending(current: Option<seq<seq<Row>>>): nat {
    if current.Some? then 1 + |current.value| else 0
  }

  /** The pull's result and the state after it, as the function gives them. */
  predicate Pulls(step: Step, pulled: Pulled, after: State) {
    match step
    case Emit(batch, next) => pulled == Batch(batch) && after == next
    case Halt(final) => pulled == End && after == final
    case Raise(final) => pulled == Raised && after == final
  }

  class StreamHandle {
    const env: Env
    var counters: Counters
    /** Native readers now open, and the operations so far. */
    var readers: int
    var operations: nat
    /** The reader known to the control process, numbered by the order of opening. */
    var control: Option<nat>

    ghost function View(c: Cursor): State
      reads this
    {
      State(c.plans, c.files, c.current, counters, readers, operations)
    }

    /** The control process knows the open reader, which is the last one opened. */
    ghost predicate Controlled(c: Cursor)
      reads this
    {
      && (c.current.Some? <==> control.Some?) && (control.Some? ==> control.value == counters.openedFiles)
      && readers == (if control.Some? then 1 else 0)
    }

    constructor (env: Env)
      ensures this.env == env && forall plans :: View(Cursor(plans, [], None)) == Start(plans)
      ensures forall plans :: Controlled(Cursor(plans, [], None))
    {
      this.env := env;
      counters, readers, operations, control := Counters(0, 0, 0, 0, 0, 0, 0, 0, 0), 0, 0, None;
    }

    /** `next`. */
    method Next(c: Cursor) returns (pulled: Pulled, next: Cursor)
      requires env.batchSize > 0 && Controlled(c)
      modifies this
      ensures Controlled(next) && Pulls(DatasetStream.Next(env, old(View(c))), pulled, View(next))
      decreases |c.plans|, |c.files|, Pending(c.current), 1
    {
      if c.current.None? && c.files == [] && c.plans == [] {
        NextAtEnd(env, View(c));
      }
      hide DatasetStream.Next;
      if c.current.Some? {
        pulled, next := NextBatch(c);
      } else if c.files != [] {
        pulled, next := NextFile(c);
      } else if c.plans != [] {
        pulled, next := NextPartition(c);
      } else {
        pulled, next := End, c;
      }
    }

    /** `next` with an open reader. */
    method NextBatch(c: Cursor) returns (pulled: Pulled, next: Cursor)
      requires env.batchSize > 0 && Controlled(c) && c.current.Some?
      modifies this
      ensures Controlled(next) && Pulls(DatasetStream.Next(env, old(View(c))), pulled, View(next))
      decreases |c.plans|, |c.files|, Pending(c.current), 0
    {
      NextOnBatch(env, View(c));
      hide DatasetStream.Next, Select;
      var faulty := env.faults(operations);
      operations := operations + 1;
      if faulty { return Raised, c; }
      if c.current.value == [] {
        readers := readers - 1;
        control := None;
        pulled, next := Next(c.(current := None));
      } else {
        var output := Select(env.dataset.column, env.selection, c.current.value[0]);
        var rest := c.(current := Some(c.current.value[1..]));
        if output == [] {
          pulled, next := Next(rest);
        } else {
          counters := counters.(batches := counters.batches + 1, rows := counters.rows + |output|);
          pulled, next := Batch(output), rest;
        }
      }
    }

    /** `next` with a file to open. */
    method NextFile(c: Cursor) returns (pulled: Pulled, next: Cursor)
      requires env.batchSize > 0 && Controlled(c) && c.current.None? && c.files != []
      modifies this
      ensures Controlled(next) && Pulls(DatasetStream.Next(env, old(View(c))), pulled, View(next))
      decreases |c.plans|, |c.files|, Pending(c.current), 0
    {
      NextOnFile(env, View(c));
      hide DatasetStream.Next, OpenReader;
      var faulty := env.faults(operations);
      var reader := OpenReader(env, c.files[0]);
      operations := operations + 1;
      if faulty || reader.None? { return Raised, c; }
      var rest := Attach(c, reader.value);
      pulled, next := Next(rest);
    }

    /** The counting of one opened file, and its reader handed to the control process. */
    method Attach(c: Cursor, batches: seq<seq<Row>>) returns (rest: Cursor)
      requires c.current.None? && c.files != [] && Controlled(c)
      modifies this
      ensures View(rest) == Opened(old(View(c)), batches) && Controlled(rest)
    {
      counters := counters.(openedFiles := counters.openedFiles + 1, peak := 1);
      readers := readers + 1;
      control := Some(counters.openedFiles);
      rest := Cursor(c.plans, c.files[1..], Some(batches));
    }

    /** `next` with a partition to list. */
    method NextPartition(c: Cursor) returns (pulled: Pulled, next: Cursor)
      requires env.batchSize > 0 && Controlled(c) && c.current.None? && c.files == [] && c.plans != []
      modifies this
      ensures Controlled(next) && Pulls(DatasetStream.Next(env, old(View(c))), pulled, View(next))
      decreases |c.plans|, |c.files|, Pending(c.current), 0
    {
      NextOnPartition(env, View(c));
      hide DatasetStream.Next, ParquetKeys, Prefix, PlanPrefix, Discovered;
      var faulty := env.faults(operations);
      var listed := env.list(PlanPrefix(env, c.plans[0]));
      operations := operations + 1;
      if faulty || listed.ListFailed? { return Raised, c; }
      var rest := Discover(c, listed.keys);
      pulled, next := Next(rest);
    }

    /** The counting of one listing. */
    method Discover(c: Cursor, keys: seq<string>) returns (rest: Cursor)
      requires c.current.None? && c.files == [] && c.plans != []
      modifies this`counters
      ensures View(rest) == Discovered(old(View(c)), keys) && rest.current.None? && |rest.plans| < |c.plans|
      ensures counters.openedFiles == old(counters).openedFiles
    {
      hide ParquetKeys;
      var parquet := ParquetKeys(keys);
      var others := if |keys| >= |parquet| then |keys| - |parquet| else 0;
      counters := counters.(
        listed := counters.listed + 1,
        withFiles := counters.withFiles + (if parquet == [] then 0 else 1),
        skipped := counters.skipped + (if parquet == [] then 1 else 0),
        discovered := counters.discovered + |parquet|,
        skippedObjects := counters.skippedObjects + others);
      rest := Cursor(c.plans[1..], parquet, None);
    }

    /** `finalize`, with the cursor of the last pull that returned; closing a closed reader does nothing. */
    method Finalize(c: Cursor, lastOpened: nat)
      modifies this
      ensures readers == old(readers) - if c.current.Some? && old(control) == Some(lastOpened) then 1 else 0
      ensures counters == old(counters) && operations == old(operations)
    {
      if c.current.Some? && control == Some(lastOpened) {
        readers := readers - 1;
        control := None;
      }
    }

    /**
     Enumerating the stream: the batches and the counters are those of `Drain`, and at the end no
     reader is open. After an error one is left exactly if the failing pull has opened one that it
     did not close: finalizing closes the reader of the last pull that returned.
     */
    method Enumerate(plans: seq<P.Partition>) returns (batches: seq<seq<Row>>, ok: bool)
      requires env.batchSize > 0 && Controlled(Cursor(plans, [], None))
      modifies this
      ensures var d := Drain(env, old(View(Cursor(plans, [], None))));
              && batches == d.batches && ok == d.ok && counters == d.final.counters && operations == d.final.operations
              && readers == (if LeavesReader(env, old(View(Cursor(plans, [], None)))) then 1 else 0)
    {
      var c := Cursor(plans, [], None);
      batches := [];
      ghost var start := View(c);
      hide DatasetStream.Next, Drain, LastPull;
      while true
        invariant Controlled(c)
        invariant Drain(env, start).batches == batches + Drain(env, View(c)).batches
        invariant Drain(env, start).ok == Drain(env, View(c)).ok
        invariant Drain(env, start).final == Drain(env, View(c)).final
        invariant LastPull(env, start) == LastPull(env, View(c))
        decreases |c.plans|, |c.files|, Pending(c.current)
      {
        var lastOpened := counters.openedFiles;
        DrainUnfolds(env, View(c));
        NextEnds(env, View(c));
        LastUnfolds(env, View(c));
        var pulled, next := Next(c);
        match pulled {
          case Batch(rows) =>
            batches := batches + [rows];
            c := next;
          case End =>
            return batches, true;
          case Raised =>
            Finalize(c, lastOpened);
            return batches, false;
        }
      }
    }
  }

  /** The state that the last pull is given: the one that ends the enumeration, in order or with an error. */
  ghost function LastPull(env: Env, s: State): State
    requires env.batchSize > 0
    decreases |s.plans|, |s.files|, Pending(s.current)
  {
    match DatasetStream.Next(env, s)
    case Emit(_, next) => LastPull(env, next)
    case _ => s
  }

  /** A reader is open at the end, and it is one that the last pull has opened. */
  ghost predicate LeavesReader(env: Env, s: State)
    requires env.batchSize > 0
  {
    var final := Drain(env, s).final;
    final.current.Some? && final.counters.openedFiles > LastPull(env, s).counters.openedFiles
  }

  /** The directory of a planned partition, with its slash. */
  function PlanPrefix(env: Env, partition: P.Partition): (prefix: string)
    ensures prefix == Prefix(env, partition)
  {
    env.dataset.prefix + partition.path + "/"
  }

  lemma NextOnBatch(env: Env, s: State)
    requires env.batchSize > 0 && s.current.Some?
    ensures DatasetStream.Next(env, s) ==
              if env.faults(s.operations) then Raise(Tick(s))
              else if s.current.value == [] then DatasetStream.Next(env, Closed(Tick(s)))
              else
                var output := Select(env.dataset.column, env.selection, s.current.value[0]);
                var s' := Tick(s).(current := Some(s.current.value[1..]));
                if output == [] then DatasetStream.Next(env, s')
                else Emit(output, s'.(counters := s.counters.(batches := s.counters.batches + 1,
                    rows := s.counters.rows + |output|)))
  {
    hide Select;
  }

  lemma NextOnFile(env: Env, s: State)
    requires env.batchSize > 0 && s.current.None? && s.files != []
    ensures DatasetStream.Next(env, s) ==
              var reader := OpenReader(env, s.files[0]);
              if env.faults(s.operations) || reader.None? then Raise(Tick(s))
              else DatasetStream.Next(env, Opened(Tick(s), reader.value))
  {
    hide OpenReader;
  }

  lemma NextOnPartition(env: Env, s: State)
    requires env.batchSize > 0 && s.current.None? && s.files == [] && s.plans != []
    ensures DatasetStream.Next(env, s) ==
              var listed := env.list(Prefix(env, s.plans[0]));
              if env.faults(s.operations) || listed.ListFailed? then Raise(Tick(s))
              else DatasetStream.Next(env, Discovered(Tick(s), listed.keys))
  {
    hide ParquetKeys, Prefix;
  }

  lemma NextAtEnd(env: Env, s: State)
    requires env.batchSize > 0 && s.current.None? && s.files == [] && s.plans == []
    ensures DatasetStream.Next(env, s) == Halt(s)
  {
  }

  lemma DrainUnfolds(env: Env, s: State)
    requires env.batchSize > 0
    ensures Drain(env, s) ==
              match DatasetStream.Next(env, s)
              case Halt(final) => Drained([], true, final)
              case Raise(final) => Drained([], false, final)
              case Emit(batch, next) => Drained([batch] + Drain(env, next).batches, Drain(env, next).ok,
                  Drain(env, next).final)
  {
    hide DatasetStream.Next;
  }

  lemma LastUnfolds(env: Env, s: State)
    requires env.batchSize > 0
    ensures LastPull(env, s) ==
              match DatasetStream.Next(env, s)
              case Emit(_, next) => LastPull(env, next)
              case _ => s
  {
    hide DatasetStream.Next;
  }

  /** A pull that does not return has either ended, or keeps the reader it was given unless it has opened another. */
  lemma {:induction false} NextEnds(env: Env, s: State)
    requires env.batchSize > 0
    ensures var r := DatasetStream.Next(env, s);
            && (r.Halt? ==> r.final.current.None?)
            && (r.Raise? ==>
                  && r.final.counters.openedFiles >= s.counters.openedFiles
                  && (r.final.current.Some? && r.final.counters.openedFiles == s.counters.openedFiles ==>
                        s.current.Some?))
    decreases |s.plans|, |s.files|, Pending(s.current)
  {
    hide Select, ParquetKeys, OpenReader, Prefix;
    if s.current.Some? {
      NextEnds(env, if s.current.value == [] then Closed(Tick(s)) else Tick(s).(current := Some(s.current.value[1..])));
    } else if s.files != [] {
      var reader := OpenReader(env, s.files[0]);
      if reader.Some? {
        NextEnds(env, Opened(Tick(s), reader.value));
      }
    } else if s.plans != [] {
      var listed := env.list(Prefix(env, s.plans[0]));
      if listed.Listed? {
        NextEnds(env, Discovered(Tick(s), listed.keys));
      }
    }
  }

  // ---------- A reader that stays open ----------

  const ONLY_FILE: string := "a.parquet"

  /** A store with one file of one row; the third operation, which reads from the file, fails. */
  function FailingRead(): Env {
    var dataset := D.Dataset("", ["t"], "t", P.Second, P.Day, P.Window(0, 3));
    Env(dataset, Selection(0, 1, None, ["t"], ["t"]), prefix => Listed([ONLY_FILE]),
        map[ONLY_FILE := [[map["t" := Int(0)]]]], 1, n => n == 2)
  }

  lemma OnlyFileListed()
    ensures ParquetKeys([ONLY_FILE]) == [ONLY_FILE]
  {
    assert ONLY_FILE[1..] == ".parquet";
    FilterOne(IsParquet, ONLY_FILE);
    assert [ONLY_FILE][1..] == [];
  }

  /** The file is listed and opened by the first pull, which then fails to read it: the reader stays open. */
  lemma ReaderLeftOpen()
    ensures var env, start := FailingRead(), Start([P.Canonical(P.Day, 0)]);
            && !Drain(env, start).ok
            && Drain(env, start).final.readers == 1
            && LeavesReader(env, start)
  {
    hide ParquetKeys, Prefix, P.Canonical;
    var env, start := FailingRead(), Start([P.Canonical(P.Day, 0)]);
    OnlyFileListed();
    NextOnPartition(env, start);
    var found := Discovered(Tick(start), [ONLY_FILE]);
    NextOnFile(env, found);
    var reader := OpenReader(env, ONLY_FILE);
    assert reader.Some?;
    NextOnBatch(env, Opened(Tick(found), reader.value));
  }
}
