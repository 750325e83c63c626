/**
 The prefetching reader state of native/parquex_nif/src/reader.rs: a queue of at most
 `prefetchDepth` filtered batches is refilled before one is handed out.
 */
module Prefetch {
  import opened Text
  import opened Sequences
  import opened Cancellation
  import Q = ReaderQuery

  /** A decoded and filtered batch has rows and a size in memory. */
  datatype Batch = Batch(content: seq<Q.Record>, bytes: nat)

  /** What the underlying reader yields: a batch, after mask and projection, or a failure. */
  datatype Item = Decoded(batch: Batch) | Broken

  // ---------- Filling the queue ----------

  datatype Filled = Filled(queue: seq<Batch>, items: seq<Item>, failed: bool)

  function Fill(queue: seq<Batch>, items: seq<Item>, depth: nat): Filled
    decreases |items|
  {
    if |queue| >= depth || items == [] then Filled(queue, items, false)
    else match items[0]
      case Broken => Filled(queue, items[1..], true)
      case Decoded(batch) => Fill(if batch.content == [] then queue else queue + [batch], items[1..], depth)
  }

  /** The non-empty batches before the first failure. */
  function Good(items: seq<Item>): seq<Batch> {
    if items == [] || items[0].Broken? then []
    else (if items[0].batch.content == [] then [] else [items[0].batch]) + Good(items[1..])
  }

  predicate Sound(items: seq<Item>) {
    forall i :: 0 <= i < |items| ==> items[i].Decoded?
  }

  function TotalBytes(queue: seq<Batch>): nat {
    if queue == [] then 0 else queue[0].bytes + TotalBytes(queue[1..])
  }

  lemma {:induction false} TotalBytesAppend(queue: seq<Batch>, batch: Batch)
    ensures TotalBytes(queue + [batch]) == TotalBytes(queue) + batch.bytes
  {
    if queue != [] {
      assert (queue + [batch])[1..] == queue[1..] + [batch];
      TotalBytesAppend(queue[1..], batch);
    }
  }

  lemma TotalBytesFirst(queue: seq<Batch>)
    requires queue != []
    ensures TotalBytes(queue) == queue[0].bytes + TotalBytes(queue[1..])
  {
  }

  lemma FillUnfolds(queue: seq<Batch>, items: seq<Item>, depth: nat)
    ensures Fill(queue, items, depth) ==
              if |queue| >= depth || items == [] then Filled(queue, items, false)
              else match items[0]
                case Broken => Filled(queue, items[1..], true)
                case Decoded(batch) => Fill(if batch.content == [] then queue else queue + [batch], items[1..], depth)
  {
  }

  /** Filling moves batches from the front of what is left to the back of the queue, up to the depth or a failure. */
  lemma {:induction false} FillFacts(queue: seq<Batch>, items: seq<Item>, depth: nat)
    requires |queue| <= depth
    ensures var f := Fill(queue, items, depth);
            var all := queue + Good(items);
            && |f.queue| <= depth
            && |f.items| <= |items|
            && (f.failed <==> |all| < depth && !Sound(items))
            && (f.failed ==> f.queue == all)
            && (!f.failed ==>
                  && f.queue + Good(f.items) == all
                  && (Sound(f.items) <==> Sound(items))
                  && (|f.queue| == depth || f.items == []))
    decreases |items|
  {
    if |queue| < depth && items != [] && items[0].Decoded? {
      var batch := items[0].batch;
      var next := if batch.content == [] then queue else queue + [batch];
      FillFacts(next, items[1..], depth);
      assert next + Good(items[1..]) == queue + Good(items);
      assert Sound(items) <==> Sound(items[1..]) by {
        assert forall i :: 0 < i < |items| ==> items[i] == items[1..][i - 1];
      }
    } else if |queue| >= depth {
      assert Fill(queue, items, depth).queue + Good(items) == queue + Good(items);
    }
  }

  // ---------- A whole enumeration ----------

  datatype Delivered = Delivered(batches: seq<Batch>, failed: bool)

  /** Calls of `next_batch` until the end or the first error. */
  function Deliver(queue: seq<Batch>, items: seq<Item>, depth: nat): Delivered
    requires depth > 0 && |queue| <= depth
    decreases |queue| + |items|, |items|
  {
    var f := Fill(queue, items, depth);
    FillFacts(queue, items, depth);
    FillShrinks(queue, items, depth);
    if f.failed then Delivered([], true)
    else if f.queue == [] then Delivered([], false)
    else
      var rest := Deliver(f.queue[1..], f.items, depth);
      Delivered([f.queue[0]] + rest.batches, rest.failed)
  }

  lemma {:induction false} FillShrinks(queue: seq<Batch>, items: seq<Item>, depth: nat)
    ensures |Fill(queue, items, depth).queue| + |Fill(queue, items, depth).items| <= |queue| + |items|
    decreases |items|
  {
    if |queue| < depth && items != [] && items[0].Decoded? {
      FillShrinks(if items[0].batch.content == [] then queue else queue + [items[0].batch], items[1..], depth);
    }
  }

  /** How many batches are delivered when a failure comes after them. */
  function Kept(count: nat, depth: nat): (n: nat)
    requires depth > 0
    ensures n <= count
  {
    if count + 1 >= depth then count + 1 - depth else 0
  }

  /** With more batches than the queue holds, one is delivered and the rest is as before. */
  lemma OneDelivered(all: seq<Batch>, depth: nat)
    requires all != [] && depth > 0
    ensures [all[0]] + all[1..] == all
    ensures |all| >= depth ==> [all[0]] + all[1..][..Kept(|all| - 1, depth)] == all[..Kept(|all|, depth)]
  {
  }

  lemma NothingGood(items: seq<Item>)
    requires items == []
    ensures Good(items) == [] && Sound(items)
  {
  }

  /**
   What an enumeration with a given depth delivers. Without a failure it is every
   non-empty batch in order, whatever the depth. With a failure, the batches that
   the queue still holds when the failure is met are never delivered: a depth of d
   loses up to d - 1 of the batches that precede the failure.
   */
  lemma {:induction false} DeliverExact(queue: seq<Batch>, items: seq<Item>, depth: nat)
    requires depth > 0 && |queue| <= depth
    ensures var all := queue + Good(items);
            var d := Deliver(queue, items, depth);
            && (d.failed <==> !Sound(items))
            && (Sound(items) ==> d.batches == all)
            && (!Sound(items) ==> d.batches == all[..Kept(|all|, depth)])
    decreases |queue| + |items|, |items|
  {
    var f := Fill(queue, items, depth);
    var all := queue + Good(items);
    FillFacts(queue, items, depth);
    FillShrinks(queue, items, depth);
    hide Fill, Good, Sound;
    if !f.failed && f.queue != [] {
      DeliverExact(f.queue[1..], f.items, depth);
      assert f.queue[1..] + Good(f.items) == all[1..] && all[0] == f.queue[0];
      OneDelivered(all, depth);
    } else if !f.failed {
      NothingGood(f.items);
      assert all == [];
    }
  }

  /**
   Prefetching is invisible exactly when nothing fails, it is no deeper than one, or no batch
   precedes the failure.
   */
  lemma PrefetchInvisible(items: seq<Item>, depth: nat)
    requires depth > 0
    ensures Deliver([], items, depth) == Deliver([], items, 1) <==> Sound(items) || depth == 1 || Good(items) == []
  {
    DeliverExact([], items, depth);
    DeliverExact([], items, 1);
    var all := [] + Good(items);
    assert all == Good(items);
    assert all[..|all|] == all;
  }

  /** One batch and then a failure: a depth of one delivers the batch, a depth of two does not. */
  lemma LostBatch()
    ensures var batch := Batch([[]], 1);
            var items := [Decoded(batch), Broken];
            Deliver([], items, 1) == Delivered([batch], true) && Deliver([], items, 2) == Delivered([], true)
  {
    var batch := Batch([[]], 1);
    var items := [Decoded(batch), Broken];
    assert Good(items) == [batch] by {
      assert Good(items[1..]) == [];
    }
    assert !Sound(items) by {
      assert items[1].Broken?;
    }
    assert [] + Good(items) == [batch];
    DeliverExact([], items, 1);
    DeliverExact([], items, 2);
  }

  // ---------- The reader state ----------

  datatype Result<+T> = Ok(value: T) | Cancelled | Malformed

  class ReaderState {
    var reader: Option<seq<Item>>
    var queue: seq<Batch>
    const cancellation: CancellationToken
    const prefetchDepth: nat
    var currentBufferedBytes: nat
    var peakBufferedBytes: nat
    var peakBufferedBatches: nat
    var active: bool
    var eof: bool

    /** The queue is within the depth and the byte counter is its size; a closed reader holds nothing. */
    ghost predicate Valid()
      reads this
    {
      && prefetchDepth > 0
      && |queue| <= prefetchDepth
      && currentBufferedBytes == TotalBytes(queue)
      && currentBufferedBytes <= peakBufferedBytes
      && |queue| <= peakBufferedBatches <= prefetchDepth
      && (active <==> reader.Some?)
      && (active && eof ==> reader.value == [])
      && (!active ==> queue == [])
    }

    function Items(): seq<Item>
      reads this
    {
      if reader.Some? then reader.value else []
    }

    constructor (items: seq<Item>, cancellation: CancellationToken, prefetchDepth: nat)
      requires prefetchDepth > 0
      ensures Valid() && active && reader == Some(items) && queue == []
      ensures this.cancellation == cancellation && this.prefetchDepth == prefetchDepth
    {
      this.reader, this.queue := Some(items), [];
      this.cancellation, this.prefetchDepth := cancellation, prefetchDepth;
      currentBufferedBytes, peakBufferedBytes, peakBufferedBatches := 0, 0, 0;
      active, eof := true, false;
    }

    /** The loop of `next_batch`; stops early at a batch that does not decode. */
    method Refill() returns (ok: bool)
      requires Valid() && active
      modifies this
      ensures Valid() && active
      ensures var f := Fill(old(queue), old(Items()), prefetchDepth);
              reader == Some(f.items) && queue == f.queue && ok == !f.failed
    {
      while |queue| < prefetchDepth && !eof
        invariant Valid() && active
        invariant Fill(queue, reader.value, prefetchDepth) == Fill(old(queue), old(Items()), prefetchDepth)
        decreases if eof then 0 else |reader.value| + 1
      {
        FillUnfolds(queue, reader.value, prefetchDepth);
        hide Fill, TotalBytes;
        if reader.value == [] {
          eof := true;
        } else {
          var next := reader.value[0];
          reader := Some(reader.value[1..]);
          match next {
            case Decoded(batch) =>
              if batch.content == [] {
                continue;
              }
              TotalBytesAppend(queue, batch);
              currentBufferedBytes := currentBufferedBytes + batch.bytes;
              queue := queue + [batch];
              peakBufferedBytes := if currentBufferedBytes > peakBufferedBytes then currentBufferedBytes
                  else peakBufferedBytes;
              peakBufferedBatches := if |queue| > peakBufferedBatches then |queue| else peakBufferedBatches;
            case Broken =>
              return false;
          }
        }
      }
      ok := true;
    }

    /** `next_batch`: refill the queue, then hand out its head. */
    method NextBatch() returns (r: Result<Option<Batch>>)
      requires Valid()
      modifies this
      ensures Valid()
      ensures old(cancellation.cancelled) || !old(active) ==>
                r == Cancelled && queue == old(queue) && reader == old(reader) && active == old(active)
      ensures !old(cancellation.cancelled) && old(active) ==>
                && active
                && var f := Fill(old(queue), old(Items()), prefetchDepth);
                && reader == Some(f.items)
                && (if f.failed then r == Malformed && queue == f.queue
                    else if f.queue == [] then r == Ok(None) && queue == []
                    else r == Ok(Some(f.queue[0])) && queue == f.queue[1..])
    {
      if !cancellation.Check() {
        return Cancelled;
      }
      if !active {
        return Cancelled;
      }
      hide Fill, TotalBytes;
      var filled := Refill();
      if !filled {
        return Malformed;
      }
      if queue == [] {
        return Ok(None);
      }
      TotalBytesFirst(queue);
      var batch := queue[0];
      queue := queue[1..];
      // The subtraction in the source saturates at zero; it never has to.
      assert currentBufferedBytes >= batch.bytes;
      currentBufferedBytes := currentBufferedBytes - batch.bytes;
      return Ok(Some(batch));
    }

    /** `close`: cancel, drop everything that is buffered; only the first call does so. */
    method Close() returns (closed: bool)
      requires Valid()
      modifies this, cancellation
      ensures Valid() && !active && queue == [] && currentBufferedBytes == 0
      ensures closed == old(active)
      ensures old(active) ==> cancellation.cancelled
    {
      if !active {
        return false;
      }
      cancellation.Cancel();
      reader, queue, currentBufferedBytes, active := None, [], 0, false;
      return true;
    }
  }

  /** One call more or less. */
  lemma DeliverStep(queue: seq<Batch>, items: seq<Item>, depth: nat)
    requires depth > 0 && |queue| <= depth
    ensures var f := Fill(queue, items, depth);
            && |f.queue| <= depth
            && (f.failed ==> Deliver(queue, items, depth) == Delivered([], true))
            && (!f.failed && f.queue == [] ==> Deliver(queue, items, depth) == Delivered([], false))
            && (!f.failed && f.queue != [] ==>
                  && |f.queue| - 1 + |f.items| < |queue| + |items|
                  && var rest := Deliver(f.queue[1..], f.items, depth);
                  Deliver(queue, items, depth) == Delivered([f.queue[0]] + rest.batches, rest.failed))
  {
    FillFacts(queue, items, depth);
    FillShrinks(queue, items, depth);
  }

  /** Pulling until the end or the first error, as an enumeration does. */
  method Enumerate(state: ReaderState) returns (batches: seq<Batch>, failed: bool)
    requires state.Valid() && state.active && !state.cancellation.cancelled
    modifies state
    ensures state.Valid()
    ensures Delivered(batches, failed) == Deliver(old(state.queue), old(state.Items()), state.prefetchDepth)
    ensures old(state.queue) == [] && Sound(old(state.Items())) ==> batches == Good(old(state.Items())) && !failed
  {
    hide Fill, Deliver, Good, Sound;
    batches, failed := [], false;
    DeliverExact(state.queue, state.Items(), state.prefetchDepth);
    ghost var goal := Deliver(state.queue, state.Items(), state.prefetchDepth);
    assert [] + goal.batches == goal.batches;
    assert state.queue == [] ==> state.queue + Good(state.Items()) == Good(state.Items());
    while true
      invariant state.Valid() && state.active && !state.cancellation.cancelled
      invariant var rest := Deliver(state.queue, state.Items(), state.prefetchDepth);
                goal == Delivered(batches + rest.batches, rest.failed)
      decreases |state.queue| + |state.Items()|, |state.Items()|
    {
      DeliverStep(state.queue, state.Items(), state.prefetchDepth);
      ghost var rest := Deliver(state.queue, state.Items(), state.prefetchDepth);
      var r := state.NextBatch();
      match r {
        case Malformed =>
          assert batches + [] == batches;
          failed := true;
          return;
        case Ok(None) =>
          assert batches + [] == batches;
          return;
        case Ok(Some(batch)) =>
          ghost var next := Deliver(state.queue, state.Items(), state.prefetchDepth);
          assert batches + rest.batches == batches + [batch] + next.batches;
          batches := batches + [batch];
        case Cancelled =>
          assert false;
      }
    }
  }

  // ---------- A query, end to end ----------

  /** The results of a query as the reader yields them, with any sizes in memory. */
  function Yielded(results: seq<seq<Q.Record>>, sizeOf: seq<Q.Record> -> nat): seq<Item> {
    Map((rows: seq<Q.Record>) => Decoded(Batch(rows, sizeOf(rows))), results)
  }

  function Contents(batches: seq<Batch>): seq<Q.Record> {
    if batches == [] then [] else batches[0].content + Contents(batches[1..])
  }

  lemma {:induction false} YieldedGood(results: seq<seq<Q.Record>>, sizeOf: seq<Q.Record> -> nat)
    ensures Sound(Yielded(results, sizeOf)) && Contents(Good(Yielded(results, sizeOf))) == Flatten(results)
    ensures forall batch :: batch in Good(Yielded(results, sizeOf)) ==> batch.content != []
  {
    if results != [] {
      YieldedGood(results[1..], sizeOf);
      var items := Yielded(results, sizeOf);
      assert items[1..] == Yielded(results[1..], sizeOf);
      if results[0] != [] {
        assert Good(items) == [items[0].batch] + Good(items[1..]);
        assert Good(items)[1..] == Good(items[1..]);
      } else {
        assert Good(items) == Good(items[1..]);
      }
    }
  }

  /**
   A whole query through the prefetch queue: for every depth, the batches handed out are not
   empty, and together they are the naive scan: every full row filtered, then projected.
   */
  lemma PrefetchedQueryIsNaiveScan(file: Q.File, columns: seq<string>, p: Option<Q.Predicate>, batchSize: nat,
                                   sizeOf: seq<Q.Record> -> nat, depth: nat)
    requires Q.WellFormed(file) && Q.SoundStatistics(file) && Distinct(columns) && batchSize > 0 && depth > 0
    requires Q.Open(file, columns, p).Some?
    ensures var o := Q.Open(file, columns, p).value;
            var d := Deliver([], Yielded(Q.Results(file, o, batchSize), sizeOf), depth);
            && !d.failed && Contents(d.batches) == Q.NaiveScan(file, o)
            && forall batch :: batch in d.batches ==> batch.content != []
  {
    hide *;
    var o := Q.Open(file, columns, p).value;
    var items := Yielded(Q.Results(file, o, batchSize), sizeOf);
    Q.QueryEqualsNaiveScan(file, columns, p, batchSize);
    YieldedGood(Q.Results(file, o, batchSize), sizeOf);
    DeliverExact([], items, depth);
    assert [] + Good(items) == Good(items);
  }
}
