/**
 The multipart writer of native/parquex_nif/src/s3.rs: chunks go to an upload that is
 completed by publishing or given up by aborting. The provider makes a completed upload
 visible at once; its failures, and answers that are lost, are parameters.
 */
module RemoteWriters {
  import opened ByteStrings
  import opened Text
  import opened Cancellation

  /** How completing an upload ends: it can succeed without the answer being heard. */
  datatype Completion = Completed | CompletedUnheard | NotCompleted

  datatype Call =
    | CallWrite(bytes: Bytes, capacity: bool)
    | CallPublish(completion: Completion, headFails: bool)
    | CallAbort(abortFails: bool)
    | CallDrop(dropFails: bool)
    | CancelToken

  datatype Outcome = Wrote(count: nat) | Published(size: nat) | Aborted(done: bool) | Dropped | Cancelled
                   | Refused | RemoteError

  /** A writer; its upload is there until it is completed or given up. */
  datatype Writer = Writer(upload: Option<Bytes>, active: bool, bytesWritten: nat, cancelled: bool)

  /** The writer after a call, and the bytes that the call makes visible under the key, if any. */
  datatype After = After(writer: Writer, visible: Option<Bytes>, outcome: Outcome)

  const OPENED: Writer := Writer(Some([]), true, 0, false)

  predicate Heard(completion: Completion, headFails: bool) {
    completion.Completed? && !headFails
  }

  function GivenUp(w: Writer): Writer {
    w.(upload := None, active := false, cancelled := true)
  }

  function Step(w: Writer, call: Call): After {
    match call
    case CallWrite(bytes, capacity) =>
      if w.cancelled || w.upload.None? then After(w, None, Refused)
      else if !capacity then After(w, None, RemoteError)
      else
        After(w.(upload := Some(w.upload.value + bytes), bytesWritten := w.bytesWritten + |bytes|), None,
              Wrote(|bytes|))
    case CallPublish(completion, headFails) =>
      if w.cancelled || w.upload.None? then After(w, None, Refused)
      else
        var ended := w.(upload := None, active := false);
        if completion.NotCompleted? then After(ended, None, RemoteError)
        else After(ended, w.upload, if Heard(completion, headFails) then Published(|w.upload.value|) else RemoteError)
    case CallAbort(fails) =>
      if !w.active then After(w, None, Aborted(false))
      else After(GivenUp(w), None, if fails && w.upload.Some? then RemoteError else Aborted(true))
    case CallDrop(_) => After(if w.active then GivenUp(w) else w, None, Dropped)
    case CancelToken => After(w.(cancelled := true), None, Cancelled)
  }

  function Run(calls: seq<Call>): Writer {
    if calls == [] then OPENED else Step(Run(calls[..|calls| - 1]), calls[|calls| - 1]).writer
  }

  /** The step of call `k` in a run. */
  function At(calls: seq<Call>, k: nat): After
    requires k < |calls|
  {
    Step(Run(calls[..k]), calls[k])
  }

  /** The chunks that the calls so far have accepted, concatenated. */
  function AcceptedBytes(calls: seq<Call>): Bytes {
    if calls == [] then []
    else
      var before, last := calls[..|calls| - 1], calls[|calls| - 1];
      AcceptedBytes(before) + if last.CallWrite? && Step(Run(before), last).outcome.Wrote? then last.bytes else []
  }

  /** While the upload is there the writer is active, and the upload is exactly the accepted chunks. */
  lemma {:induction false} UploadIsAccepted(calls: seq<Call>)
    ensures var w := Run(calls);
            && (w.upload.Some? ==> w.active && w.upload.value == AcceptedBytes(calls))
            && w.bytesWritten == |AcceptedBytes(calls)|
  {
    if calls != [] {
      UploadIsAccepted(calls[..|calls| - 1]);
    }
  }

  predicate Ended(w: Writer) {
    w.upload.None? || w.cancelled
  }

  lemma {:induction false} EndedStays(calls: seq<Call>, k: nat)
    requires k <= |calls| && Ended(Run(calls[..k]))
    ensures Ended(Run(calls))
    ensures forall j :: k <= j < |calls| ==> At(calls, j).visible.None? && !At(calls, j).outcome.Wrote?
  {
    var last := |calls| - 1;
    if k <= last {
      EndedStays(calls[..last], k) by {
        assert calls[..last][..k] == calls[..k];
      }
      forall j | k <= j < last ensures At(calls, j) == At(calls[..last], j) {
        assert calls[..last][..j] == calls[..j];
      }
    } else {
      assert calls[..k] == calls;
    }
  }

  /**
   Whatever the calls and the failures, at most one call makes anything visible, it is a publish,
   and what becomes visible is exactly the concatenation of the chunks accepted before it; nothing
   is accepted after it.
   */
  lemma VisibleOnceAndWhole(calls: seq<Call>, k: nat, j: nat)
    requires k < |calls| && At(calls, k).visible.Some? && k < j < |calls|
    ensures calls[k].CallPublish? && At(calls, k).visible == Some(AcceptedBytes(calls[..k]))
    ensures At(calls, j).visible.None? && !At(calls, j).outcome.Wrote?
  {
    UploadIsAccepted(calls[..k]);
    assert calls[..k + 1][..k] == calls[..k];
    assert Run(calls[..k + 1]) == At(calls, k).writer;
    EndedStays(calls, k + 1);
  }

  /**
   What a caller can conclude. A publish that returns has made the accepted chunks visible, with
   their size; one that fails has made them visible exactly if the upload was completed all the
   same, its answer or the later look-up having failed. Abort, drop and cancellation make nothing
   visible, ever.
   */
  lemma PublishTells(calls: seq<Call>, k: nat)
    requires k < |calls|
    ensures var a := At(calls, k);
            && (a.outcome.Published? ==>
                  a.visible == Some(AcceptedBytes(calls[..k])) && a.outcome.size == |AcceptedBytes(calls[..k])|)
            && (calls[k].CallPublish? && a.outcome.RemoteError? ==>
                (a.visible.Some? <==> !calls[k].completion.NotCompleted?))
            && (!calls[k].CallPublish? ==> a.visible.None?)
  {
    UploadIsAccepted(calls[..k]);
  }

  /** The upload is completed and its look-up fails: the publish reports an error, and the object is visible. */
  lemma FailedPublishVisible()
    ensures var a := At([CallWrite([1], true), CallPublish(Completed, true)], 1);
            a.outcome == RemoteError && a.visible == Some([1])
  {
    var calls := [CallWrite([1], true), CallPublish(Completed, true)];
    assert calls[..1] == [calls[0]] && [calls[0]][..0] == [];
    UploadIsAccepted(calls[..1]);
    assert Run([calls[0]]) == Step(OPENED, calls[0]).writer;
    assert [] + [1 as bv8] == [1];
    PublishTells(calls, 1);
  }

  lemma EndingCalls(calls: seq<Call>, k: nat, j: nat)
    requires k < j < |calls| && (calls[k].CallAbort? || calls[k].CallDrop? || calls[k].CancelToken? || At(calls,
        k).outcome.Published?)
    ensures At(calls, j).visible.None?
  {
    UploadIsAccepted(calls[..k]);
    assert calls[..k + 1][..k] == calls[..k];
    assert Run(calls[..k + 1]) == At(calls, k).writer;
    EndedStays(calls, k + 1);
  }

  // ---------- The writer as it runs ----------

  class RemoteBucket {
    var objects: map<string, Bytes>
    var activeMultipart: int
  }

  class RemoteMultipartWriter {
    const bucket: RemoteBucket
    const destination: string
    const cancellation: CancellationToken
    var upload: Option<Bytes>
    var active: bool
    var bytesWritten: nat

    ghost function View(): Writer
      reads this, cancellation
    {
      Writer(upload, active, bytesWritten, cancellation.cancelled)
    }

    /** What a call leaves in the bucket. */
    twostate predicate Shows(after: After)
      reads this, bucket
    {
      && bucket.objects == (if after.visible.Some? then old(bucket.objects)[destination := after.visible.value]
          else old(bucket.objects))
      && bucket.activeMultipart == old(bucket.activeMultipart) - (if old(active) && !active then 1 else 0)
    }

    /** `open_multipart`. */
    constructor (bucket: RemoteBucket, destination: string, cancellation: CancellationToken)
      requires !cancellation.cancelled
      modifies bucket`activeMultipart
      ensures View() == OPENED && bucket.activeMultipart == old(bucket.activeMultipart) + 1
      ensures this.bucket == bucket && this.destination == destination && this.cancellation == cancellation
    {
      this.bucket, this.destination, this.cancellation := bucket, destination, cancellation;
      upload, active, bytesWritten := Some([]), true, 0;
      new;
      bucket.activeMultipart := bucket.activeMultipart + 1;
    }

    method FinishActive()
      modifies this`active, bucket`activeMultipart
      ensures !active
      ensures bucket.activeMultipart == old(bucket.activeMultipart) - if old(active) then 1 else 0
    {
      if active {
        active := false;
        bucket.activeMultipart := bucket.activeMultipart - 1;
      }
    }

    method Write(bytes: Bytes, capacity: bool) returns (outcome: Outcome)
      modifies this
      ensures var after := Step(old(View()), CallWrite(bytes, capacity));
              View() == after.writer && outcome == after.outcome && Shows(after)
    {
      if !cancellation.Check() || upload.None? { return Refused; }
      if !capacity { return RemoteError; }
      upload := Some(upload.value + bytes);
      bytesWritten := bytesWritten + |bytes|;
      outcome := Wrote(|bytes|);
    }

    method Publish(completion: Completion, headFails: bool) returns (outcome: Outcome)
      modifies this, bucket
      ensures var after := Step(old(View()), CallPublish(completion, headFails));
              View() == after.writer && outcome == after.outcome && Shows(after)
    {
      if !cancellation.Check() || upload.None? { return Refused; }
      var staged := upload.value;
      upload := None;
      if !completion.NotCompleted? {
        bucket.objects := bucket.objects[destination := staged];
      }
      FinishActive();
      if !completion.Completed? || headFails { return RemoteError; }
      outcome := Published(|staged|);
    }

    method Abort(abortFails: bool) returns (outcome: Outcome)
      modifies this, bucket, cancellation
      ensures var after := Step(old(View()), CallAbort(abortFails));
              View() == after.writer && outcome == after.outcome && Shows(after)
    {
      if !active { return Aborted(false); }
      cancellation.Cancel();
      var failed := upload.Some? && abortFails;
      upload := None;
      FinishActive();
      outcome := if failed then RemoteError else Aborted(true);
    }

    /** The destructor. */
    method Drop(dropFails: bool)
      modifies this, bucket, cancellation
      ensures var after := Step(old(View()), CallDrop(dropFails));
              View() == after.writer && Shows(after)
    {
      if active {
        var ignored := Abort(dropFails);
      }
    }
  }
}
