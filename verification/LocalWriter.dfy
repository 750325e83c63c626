/**
 The staged writer of native/parquex_nif/src/local.rs as it runs: methods that update the
 writer, the shared files and the global counters step by step, tied to the protocol's
 functions. The faults of the file system are parameters.
 */
module LocalWriters {
  import opened ByteStrings
  import opened Text
  import opened Cancellation
  import opened StagedWrite

  /** The directory tree and the process-wide counters. */
  class SharedDisk {
    var files: map<string, Bytes>
    var active: int
    var sequence: nat

    function View(): Disk
      reads this
    {
      Disk(files, active, sequence)
    }

    method RemoveFile(path: string, removes: bool)
      modifies this`files
      ensures View() == Remove(old(View()), path, removes)
    {
      if removes {
        files := files - {path};
      }
    }
  }

  class LocalWriter {
    const disk: SharedDisk
    const cancellation: CancellationToken
    ghost const token: nat
    const stagePath: string
    const destination: Destination
    const flush: FlushPolicy
    var open: bool
    var active: bool

    ghost function View(): Writer
      reads this
    {
      Writer(open, stagePath, destination, flush, token, active)
    }

    constructor (disk: SharedDisk, stagePath: string, destination: Destination, flush: FlushPolicy,
                 cancellation: CancellationToken, ghost token: nat)
      ensures View() == Writer(true, stagePath, destination, flush, token, true)
      ensures this.disk == disk && this.cancellation == cancellation
    {
      this.disk, this.stagePath, this.destination, this.flush := disk, stagePath, destination, flush;
      this.cancellation, this.token := cancellation, token;
      open, active := true, true;
    }

    /** `open`: up to 64 staging names are tried. */
    static method Open(disk: SharedDisk, destination: Destination, flush: FlushPolicy, process: nat,
                       cancellation: CancellationToken, ghost token: nat, failsAt: int)
      returns (writer: Option<LocalWriter>, outcome: Outcome)
      modifies disk
      ensures var (after, expected, result) := StagedWrite.Open(old(disk.View()), destination, flush, process, token,
          failsAt);
              && disk.View() == after && outcome == result
              && (writer.Some? <==> expected.Some?)
              && (writer.Some? ==>
                    && fresh(writer.value) && writer.value.disk == disk && writer.value.cancellation == cancellation
                    && writer.value.View() == expected.value)
    {
      hide Allocate, StagePath;
      ghost var start := disk.View();
      var attempt := 0;
      while attempt < ATTEMPTS
        invariant 0 <= attempt <= ATTEMPTS
        invariant Allocate(start, destination, process, ATTEMPTS, failsAt)
               == Allocate(disk.View(), destination, process, ATTEMPTS - attempt, failsAt - attempt)
      {
        AllocateUnfolds(disk.View(), destination, process, ATTEMPTS - attempt, failsAt - attempt);
        var path := StagePath(destination, process, disk.sequence);
        disk.sequence := disk.sequence + 1;
        if failsAt == attempt {
          return None, IoError;
        }
        if path !in disk.files {
          disk.files := disk.files[path := []];
          disk.active := disk.active + 1;
          var created := new LocalWriter(disk, path, destination, flush, cancellation, token);
          return Some(created), Opened(0);
        }
        attempt := attempt + 1;
      }
      AllocateUnfolds(disk.View(), destination, process, 0, failsAt - ATTEMPTS);
      return None, Conflict;
    }

    method Finish()
      modifies this, disk`active
      ensures (disk.View(), View()) == StagedWrite.Finish(old(disk.View()), old(View()))
    {
      open := false;
      if active {
        active := false;
        disk.active := disk.active - 1;
      }
    }

    method CleanupStage(removes: bool)
      modifies this, disk
      ensures (disk.View(), View()) == Cleanup(old(disk.View()), old(View()), removes)
    {
      open := false;
      disk.RemoveFile(stagePath, removes);
      Finish();
    }

    /** `ensure_open`. */
    predicate EnsureOpen()
      reads this, cancellation
    {
      cancellation.Check() && active && open
    }

    method Write(bytes: Bytes, fault: WriteFault) returns (outcome: Outcome)
      modifies disk`files
      ensures var after := StagedWrite.Write(old(disk.View()), View(), cancellation.cancelled, bytes, fault);
              disk.View() == after.disk && View() == after.writer && outcome == after.outcome
    {
      if !EnsureOpen() { return Refused; }
      if stagePath in disk.files {
        disk.files := disk.files[stagePath := disk.files[stagePath] + Reaching(bytes, fault)];
      }
      if fault.ShortWrite? { return IoError; }
      if flush.EachChunk? && fault.FlushFails? { return IoError; }
      outcome := Wrote(|bytes|);
    }

    method Publish(fault: PublishFault, removes: bool) returns (outcome: Outcome)
      modifies this, disk
      ensures var after := StagedWrite.Publish(old(disk.View()), old(View()), cancellation.cancelled, fault, removes);
              disk.View() == after.disk && View() == after.writer && outcome == after.outcome
    {
      if !EnsureOpen() { return Refused; }
      if !flush.NoFlush? && fault.PrepareFails? {
        CleanupStage(removes);
        return IoError;
      }
      if stagePath !in disk.files || fault.MetadataFails? {
        CleanupStage(removes);
        return IoError;
      }
      var size := |disk.files[stagePath]|;
      open := false;
      if fault.RenameFails? {
        CleanupStage(removes);
        return IoError;
      }
      var content := disk.files[stagePath];
      disk.files := (disk.files - {stagePath})[Path(destination) := content];
      Finish();
      outcome := Published(size);
    }

    method Abort(removes: bool) returns (outcome: Outcome)
      modifies this, disk, cancellation
      ensures var after := StagedWrite.Abort(old(disk.View()), old(View()), removes);
              && disk.View() == after.disk && View() == after.writer && outcome == after.outcome
              && cancellation.cancelled == (old(cancellation.cancelled) || after.cancels)
    {
      if !active { return Aborted(false); }
      cancellation.Cancel();
      open := false;
      disk.RemoveFile(stagePath, removes);
      Finish();
      outcome := if removes then Aborted(true) else IoError;
    }

    /** The destructor. */
    method Drop(removes: bool)
      modifies this, disk, cancellation
      ensures var after := StagedWrite.Drop(old(disk.View()), old(View()), removes);
              && disk.View() == after.disk && View() == after.writer
              && cancellation.cancelled == (old(cancellation.cancelled) || after.cancels)
    {
      if active {
        cancellation.Cancel();
        CleanupStage(removes);
      }
    }
  }
}
