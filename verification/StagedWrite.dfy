/**
 The staged-write protocol of native/parquex_nif/src/local.rs: many writers share one
 directory tree, each appends to a staging file of its own, and publishing renames that
 file over the destination. Every step of every writer is one event; a run is any
 interleaving of events, with input and output faults chosen freely.
 */
module StagedWrite {
  import opened ByteStrings
  import opened Text

  datatype FlushPolicy = NoFlush | EachChunk | BeforePublish

  /** Where an object goes: a resolved directory and a file name. */
  datatype Destination = Destination(directory: string, name: string)

  function Path(d: Destination): string {
    d.directory + "/" + d.name
  }

  /** `stage_name`, joined to the destination's directory. */
  function StagePath(d: Destination, process: nat, sequence: nat): string {
    d.directory + "/." + d.name + ".parquex-" + ShowNat(process) + "-" + ShowNat(sequence) + ".tmp"
  }

  ghost predicate IsStage(path: string) {
    exists d, process, sequence :: path == StagePath(d, process, sequence)
  }

  /** The files, the global count of active writers and the global stage sequence. */
  datatype Disk = Disk(files: map<string, Bytes>, active: int, sequence: nat)

  datatype Writer = Writer(
    open: bool,
    stage: string,
    destination: Destination,
    flush: FlushPolicy,
    token: nat,
    active: bool
  )

  datatype WriteFault = NoWriteFault | ShortWrite(reached: nat) | FlushFails
  datatype PublishFault = NoPublishFault | PrepareFails | MetadataFails | RenameFails

  datatype Outcome =
    | Opened(id: nat)
    | Wrote(count: nat)
    | Published(size: nat)
    | Aborted(done: bool)
    | Dropped
    | Deleted
    | Cancelled
    | Refused
    | IoError
    | Conflict

  const ATTEMPTS := 64

  // ---------- One writer ----------

  /** The disk and the writer after a call, and whether the call cancels the writer's token. */
  datatype After = After(disk: Disk, writer: Writer, cancels: bool, outcome: Outcome)

  /** `ensure_open`. */
  predicate Usable(w: Writer, cancelled: bool) {
    !cancelled && w.active && w.open
  }

  /** The bytes of a chunk that reach the staging file. */
  function Reaching(bytes: Bytes, fault: WriteFault): Bytes {
    if fault.ShortWrite? then bytes[..Min(fault.reached, |bytes|)] else bytes
  }

  function Fails(flush: FlushPolicy, fault: WriteFault): bool {
    fault.ShortWrite? || (fault.FlushFails? && flush.EachChunk?)
  }

  function Append(disk: Disk, path: string, bytes: Bytes): Disk {
    if path in disk.files then disk.(files := disk.files[path := disk.files[path] + bytes]) else disk
  }

  /** `write`: a fault leaves the writer active and whatever reached the file in place. */
  function Write(disk: Disk, w: Writer, cancelled: bool, bytes: Bytes, fault: WriteFault): After {
    if !Usable(w, cancelled) then After(disk, w, false, Refused)
    else
      After(Append(disk, w.stage, Reaching(bytes, fault)), w, false, if Fails(w.flush, fault) then IoError
          else Wrote(|bytes|))
  }

  /** `finish`. */
  function Finish(disk: Disk, w: Writer): (Disk, Writer) {
    if w.active then (disk.(active := disk.active - 1), w.(active := false, open := false))
    else (disk, w.(open := false))
  }

  function Remove(disk: Disk, path: string, removes: bool): Disk {
    if removes then disk.(files := disk.files - {path}) else disk
  }

  /** `cleanup_stage`: a failed removal is ignored. */
  function Cleanup(disk: Disk, w: Writer, removes: bool): (Disk, Writer) {
    Finish(Remove(disk, w.stage, removes), w)
  }

  /** The faults that a publish meets: preparing flushes unless the policy is to never flush. */
  predicate PublishFails(w: Writer, fault: PublishFault, found: bool) {
    (fault.PrepareFails? && !w.flush.NoFlush?) || fault.MetadataFails? || fault.RenameFails? || !found
  }

  /** `publish`. */
  function Publish(disk: Disk, w: Writer, cancelled: bool, fault: PublishFault, removes: bool): After {
    if !Usable(w, cancelled) then After(disk, w, false, Refused)
    else if PublishFails(w, fault, w.stage in disk.files) then
      var (d, v) := Cleanup(disk, w, removes);
      After(d, v, false, IoError)
    else
      var content := disk.files[w.stage];
      var renamed := disk.(files := (disk.files - {w.stage})[Path(w.destination) := content]);
      var (d, v) := Finish(renamed, w);
      After(d, v, false, Published(|content|))
  }

  /** `abort`. */
  function Abort(disk: Disk, w: Writer, removes: bool): After {
    if !w.active then After(disk, w, false, Aborted(false))
    else
      var (d, v) := Cleanup(disk, w, removes);
      After(d, v, true, if removes then Aborted(true) else IoError)
  }

  /** The destructor. */
  function Drop(disk: Disk, w: Writer, removes: bool): After {
    if !w.active then After(disk, w, false, Dropped)
    else
      var (d, v) := Cleanup(disk, w, removes);
      After(d, v, true, Dropped)
  }

  /**
   The attempts of `open`: the first staging name that is not in use is created, and
   `failsAt` is the attempt at which creating a file fails for another reason.
   */
  function Allocate(disk: Disk, d: Destination, process: nat, attempts: nat, failsAt: int): (Disk, Outcome, string)
    decreases attempts
  {
    if attempts == 0 then (disk, Conflict, "")
    else
      var path, next := StagePath(d, process, disk.sequence), disk.(sequence := disk.sequence + 1);
      if failsAt == 0 then (next, IoError, "")
      else if path in disk.files then
        Allocate(next, d, process, attempts - 1, failsAt - 1)
      else (next.(files := next.files[path := []], active := next.active + 1), Opened(0), path)
  }

  lemma AllocateUnfolds(disk: Disk, d: Destination, process: nat, attempts: nat, failsAt: int)
    ensures attempts == 0 ==> Allocate(disk, d, process, attempts, failsAt) == (disk, Conflict, "")
    ensures attempts > 0 ==>
            var path, next := StagePath(d, process, disk.sequence), disk.(sequence := disk.sequence + 1);
            Allocate(disk, d, process, attempts, failsAt) ==
              if failsAt == 0 then (next, IoError, "")
              else if path in disk.files then
                Allocate(next, d, process, attempts - 1, failsAt - 1)
              else (next.(files := next.files[path := []], active := next.active + 1), Opened(0), path)
  {
  }

  /** `open`. */
  function Open(disk: Disk, d: Destination, flush: FlushPolicy, process: nat, token: nat, failsAt: int): (Disk,
      Option<Writer>, Outcome) {
    var (after, outcome, stage) := Allocate(disk, d, process, ATTEMPTS, failsAt);
    (after, if outcome.Opened? then Some(Writer(true, stage, d, flush, token, true)) else None, outcome)
  }

  datatype Call =
    | CallWrite(bytes: Bytes, writeFault: WriteFault)
    | CallPublish(publishFault: PublishFault, removes: bool)
    | CallAbort(removes: bool)
    | CallDrop(removes: bool)

  function Use(disk: Disk, w: Writer, cancelled: bool, call: Call): After {
    match call
    case CallWrite(bytes, fault) => Write(disk, w, cancelled, bytes, fault)
    case CallPublish(fault, removes) => Publish(disk, w, cancelled, fault, removes)
    case CallAbort(removes) => Abort(disk, w, removes)
    case CallDrop(removes) => Drop(disk, w, removes)
  }

  // ---------- Interleavings ----------

  datatype Event =
    | OpenWriter(destination: Destination, flush: FlushPolicy, process: nat, newToken: nat, failsAt: int)
    | UseWriter(id: nat, call: Call)
    | CancelToken(token: nat)
    | DeleteObject(path: string, deletes: bool)

  /** Everything the writers share; a writer is known by its place in the order of opening. */
  datatype State = State(disk: Disk, writers: seq<Writer>, cancelled: set<nat>)

  datatype Entry = Entry(event: Event, outcome: Outcome)

  function Step(s: State, e: Event): (State, Outcome) {
    match e
    case OpenWriter(d, flush, process, token, failsAt) =>
      var (disk, writer, outcome) := Open(s.disk, d, flush, process, token, failsAt);
      if writer.None? then (s.(disk := disk), outcome)
      else (s.(disk := disk, writers := s.writers + [writer.value]), Opened(|s.writers|))
    case UseWriter(id, call) =>
      if id >= |s.writers| then (s, Refused)
      else
        var w := s.writers[id];
        var after := Use(s.disk, w, w.token in s.cancelled, call);
        (State(after.disk, s.writers[id := after.writer],
               if after.cancels then s.cancelled + {w.token} else s.cancelled),
         after.outcome)
    case CancelToken(token) => (s.(cancelled := s.cancelled + {token}), Cancelled)
    case DeleteObject(path, deletes) =>
      if path in s.disk.files && deletes then (s.(disk := Remove(s.disk, path, true)), Deleted) else (s, IoError)
  }

  function Run(s: State, events: seq<Event>): State {
    if events == [] then s else Step(Run(s, events[..|events| - 1]), events[|events| - 1]).0
  }

  /** What a caller sees of a run: the calls and their results. */
  function Log(s: State, events: seq<Event>): (log: seq<Entry>)
    ensures |log| == |events|
  {
    if events == [] then []
    else
      var before := events[..|events| - 1];
      Log(s, before) + [Entry(events[|events| - 1], Step(Run(s, before), events[|events| - 1]).1)]
  }

  /** Callers name no staging files. */
  ghost predicate Proper(e: Event) {
    (e.OpenWriter? ==> !IsStage(Path(e.destination))) && (e.DeleteObject? ==> !IsStage(e.path))
  }

  ghost predicate AllProper(events: seq<Event>) {
    forall i :: 0 <= i < |events| ==> Proper(events[i])
  }

  // ---------- What the log says ----------

  /** The destination that writer `id` was opened for. */
  function DestinationIn(log: seq<Entry>, id: nat): Option<Destination> {
    if log == [] then None
    else
      var last := log[|log| - 1];
      if last.event.OpenWriter? && last.outcome == Opened(id) then Some(last.event.destination)
      else DestinationIn(log[..|log| - 1], id)
  }

  predicate Writes(e: Event, id: nat) {
    e.UseWriter? && e.id == id && e.call.CallWrite?
  }

  /** The chunks that writer `id` accepted, concatenated. */
  function AcceptedBytes(log: seq<Entry>, id: nat): Bytes {
    if log == [] then []
    else
      var last, before := log[|log| - 1], AcceptedBytes(log[..|log| - 1], id);
      if Writes(last.event, id) && last.outcome.Wrote? then before + last.event.call.bytes else before
  }

  /** The accepted chunks, and what reached the staging file of each failed one. */
  function StagedBytes(log: seq<Entry>, id: nat): Bytes {
    if log == [] then []
    else
      var last, before := log[|log| - 1], StagedBytes(log[..|log| - 1], id);
      if Writes(last.event, id) && (last.outcome.Wrote? || last.outcome.IoError?)
      then before + Reaching(last.event.call.bytes, last.event.call.writeFault) else before
  }

  /** How many bytes failed writes of writer `id` left in its staging file. */
  function TornBytes(log: seq<Entry>, id: nat): nat {
    if log == [] then 0
    else
      var last, before := log[|log| - 1], TornBytes(log[..|log| - 1], id);
      if Writes(last.event, id) && last.outcome.IoError?
      then before + |Reaching(last.event.call.bytes, last.event.call.writeFault)| else before
  }

  /** What the log says an object holds: the bytes of the last publisher, unless deleted since. */
  function Expected(initial: map<string, Bytes>, log: seq<Entry>, path: string): Option<Bytes> {
    if log == [] then if path in initial then Some(initial[path]) else None
    else
      var last, before := log[|log| - 1], log[..|log| - 1];
      if last.event.UseWriter? && last.outcome.Published? && DestinationIn(before, last.event.id).Some?
         && Path(DestinationIn(before, last.event.id).value) == path
      then Some(StagedBytes(before, last.event.id))
      else if last.event.DeleteObject? && last.outcome.Deleted? && last.event.path == path then None
      else Expected(initial, before, path)
  }

  // ---------- What every step keeps ----------

  function CountActive(writers: seq<Writer>): nat {
    if writers == [] then 0
    else CountActive(writers[..|writers| - 1]) + if writers[|writers| - 1].active then 1 else 0
  }

  /**
   The counter counts the active writers; each of them has an open staging file that no other
   active writer shares; and no destination is a staging file.
   */
  ghost predicate Sound(s: State) {
    && s.disk.active == CountActive(s.writers)
    && (forall i :: 0 <= i < |s.writers| ==> WriterSound(s.disk.files, s.writers[i]))
    && (forall i, j :: 0 <= i < j < |s.writers| && s.writers[i].active && s.writers[j].active ==>
          s.writers[i].stage != s.writers[j].stage)
  }

  ghost predicate WriterSound(files: map<string, Bytes>, w: Writer) {
    && !IsStage(Path(w.destination)) && IsStage(w.stage)
    && (w.active ==> w.open && w.stage in files)
  }

  function Lookup(files: map<string, Bytes>, path: string): Option<Bytes> {
    if path in files then Some(files[path]) else None
  }

  /** The chunk bytes that a call adds to the staging file. */
  function Added(call: Call, outcome: Outcome): Bytes {
    if call.CallWrite? && (outcome.Wrote? || outcome.IoError?) then Reaching(call.bytes, call.writeFault) else []
  }

  /** A call touches its own staging file, and its destination when it publishes; nothing else. */
  lemma UseEffect(disk: Disk, w: Writer, cancelled: bool, call: Call)
    requires WriterSound(disk.files, w)
    ensures var a := Use(disk, w, cancelled, call);
            && a.writer == w.(active := a.writer.active, open := a.writer.open)
            && (a.writer.active ==> w.active) && WriterSound(a.disk.files, a.writer)
            && a.disk.active == disk.active - (if w.active && !a.writer.active then 1 else 0)
            && (a.writer.active ==> a.disk.files[w.stage] == disk.files[w.stage] + Added(call, a.outcome))
            && (a.outcome.Published? ==>
                  w.active && !cancelled && !a.writer.active
                      && a.disk.files == (disk.files - {w.stage})[Path(w.destination) := disk.files[w.stage]])
            && (!a.outcome.Published? ==> forall p :: p != w.stage ==> Lookup(a.disk.files, p) == Lookup(disk.files, p))
            && (!w.active ==> a.disk == disk)
            && (!w.active || cancelled ==> Added(call, a.outcome) == [])
  {
  }

  lemma {:induction false} CountUpdated(writers: seq<Writer>, id: nat, w: Writer)
    requires id < |writers|
    ensures CountActive(writers[id := w])
         == CountActive(writers) - (if writers[id].active then 1 else 0) + (if w.active then 1 else 0)
  {
    var last := |writers| - 1;
    if id < last {
      CountUpdated(writers[..last], id, w);
      assert writers[id := w][..last] == writers[..last][id := w];
    } else {
      assert writers[id := w][..last] == writers[..last];
    }
  }

  lemma {:induction false} AllocateEffect(disk: Disk, d: Destination, process: nat, attempts: nat, failsAt: int)
    ensures var (after, outcome, stage) := Allocate(disk, d, process, attempts, failsAt);
            && after.sequence >= disk.sequence
            && (!outcome.Opened? ==> after.files == disk.files && after.active == disk.active)
            && (outcome.Opened? ==>
                  IsStage(stage) && stage !in disk.files && after.files == disk.files[stage := []]
                      && after.active == disk.active + 1)
    decreases attempts
  {
    if attempts > 0 {
      var path, next := StagePath(d, process, disk.sequence), disk.(sequence := disk.sequence + 1);
      if failsAt != 0 && path in disk.files {
        AllocateEffect(next, d, process, attempts - 1, failsAt - 1);
      }
    }
  }

  lemma OpenSound(s: State, e: Event)
    requires Sound(s) && Proper(e) && e.OpenWriter?
    ensures Sound(Step(s, e).0)
  {
    var n, t := |s.writers|, Step(s, e).0;
    AllocateEffect(s.disk, e.destination, e.process, ATTEMPTS, e.failsAt);
    hide Allocate, IsStage;
    if |t.writers| > n {
      assert t.writers[..n] == s.writers && t.writers[n].active;
      assert CountActive(t.writers) == CountActive(s.writers) + 1;
      hide CountActive;
      forall i | 0 <= i < n
        ensures t.writers[i] == s.writers[i] && WriterSound(t.disk.files, t.writers[i])
        ensures t.writers[i].active ==> t.writers[i].stage != t.writers[n].stage
      {
        assert WriterSound(s.disk.files, s.writers[i]);
      }
    }
  }

  lemma UseSound(s: State, id: nat, call: Call)
    requires Sound(s) && id < |s.writers|
    ensures Sound(Step(s, UseWriter(id, call)).0)
  {
    var w := s.writers[id];
    UseEffect(s.disk, w, w.token in s.cancelled, call);
    CountUpdated(s.writers, id, Use(s.disk, w, w.token in s.cancelled, call).writer);
    UseKeepsOthers(s, id, call);
    hide Use, IsStage, CountActive;
  }

  lemma StepSound(s: State, e: Event)
    requires Sound(s) && Proper(e)
    ensures Sound(Step(s, e).0)
  {
    if e.OpenWriter? {
      OpenSound(s, e);
    } else if e.UseWriter? {
      hide Use, Sound;
      if e.id < |s.writers| {
        UseSound(s, e.id, e.call);
      }
    } else {
      hide Use, Open, IsStage, CountActive;
    }
  }

  lemma UseKeepsOthers(s: State, id: nat, call: Call)
    requires Sound(s) && id < |s.writers|
    ensures var w := s.writers[id];
            var a := Use(s.disk, w, w.token in s.cancelled, call);
            forall i :: 0 <= i < |s.writers| && i != id ==>
              WriterSound(a.disk.files, s.writers[i])
              && (s.writers[i].active && w.active ==>
                    a.disk.files[s.writers[i].stage] == s.disk.files[s.writers[i].stage])
  {
    var w := s.writers[id];
    var a := Use(s.disk, w, w.token in s.cancelled, call);
    UseEffect(s.disk, w, w.token in s.cancelled, call);
    hide Use, IsStage;
    forall i | 0 <= i < |s.writers| && i != id
      ensures WriterSound(a.disk.files, s.writers[i])
      ensures s.writers[i].active && w.active ==> a.disk.files[s.writers[i].stage] == s.disk.files[s.writers[i].stage]
    {
      var v := s.writers[i];
      assert WriterSound(s.disk.files, v) && WriterSound(s.disk.files, w);
      if v.active && w.active {
        assert v.stage != w.stage && v.stage != Path(w.destination);
        assert Lookup(a.disk.files, v.stage) == Lookup(s.disk.files, v.stage);
      }
    }
  }

  // ---------- What the log determines ----------

  /** The state agrees with the log on destinations, staging files and objects. */
  ghost predicate Tracks(initial: map<string, Bytes>, s: State, log: seq<Entry>) {
    WritersTracked(s, log) && ObjectsTracked(initial, s, log)
  }

  ghost predicate WritersTracked(s: State, log: seq<Entry>) {
    && (forall id :: 0 <= id < |s.writers| ==> DestinationIn(log, id) == Some(s.writers[id].destination))
    && (forall id :: 0 <= id < |s.writers| && s.writers[id].active && s.writers[id].stage in s.disk.files ==>
          s.disk.files[s.writers[id].stage] == StagedBytes(log, id))
    && (forall id: nat :: id >= |s.writers| ==> StagedBytes(log, id) == [])
  }

  ghost predicate ObjectsTracked(initial: map<string, Bytes>, s: State, log: seq<Entry>) {
    forall path :: !IsStage(path) ==> Lookup(s.disk.files, path) == Expected(initial, log, path)
  }

  /** One more entry in the log. */
  lemma LogGrows(initial: map<string, Bytes>, log: seq<Entry>, entry: Entry, id: nat, path: string)
    ensures var longer, e, outcome := log + [entry], entry.event, entry.outcome;
            && DestinationIn(longer, id) == (if e.OpenWriter? && outcome == Opened(id) then Some(e.destination)
                else DestinationIn(log, id))
            && StagedBytes(longer, id) == StagedBytes(log, id) + (if e.UseWriter?
                && e.id == id then Added(e.call, outcome) else [])
            && (!e.UseWriter? && !e.DeleteObject? ==> Expected(initial, longer, path) == Expected(initial, log, path))
            && (e.DeleteObject? ==>
                  Expected(initial, longer, path) == if outcome.Deleted? && e.path == path then None
                      else Expected(initial, log, path))
            && (e.UseWriter? && !outcome.Deleted? ==>
                  Expected(initial, longer, path) ==
                    if outcome.Published? && DestinationIn(log, e.id).Some?
                       && Path(DestinationIn(log, e.id).value) == path
                    then Some(StagedBytes(log, e.id)) else Expected(initial, log, path))
  {
    assert (log + [entry])[..|log|] == log;
  }

  /** Opening adds a writer with an empty staging file of its own, or changes nothing that counts. */
  lemma OpenEffect(s: State, e: Event)
    requires Sound(s) && e.OpenWriter?
    ensures var (t, outcome) := Step(s, e);
            && (forall path :: path in s.disk.files ==>
                  path in t.disk.files && t.disk.files[path] == s.disk.files[path])
            && (forall path :: !IsStage(path) ==> Lookup(t.disk.files, path) == Lookup(s.disk.files, path))
            && (forall id :: outcome == Opened(id) ==> id == |s.writers|)
            && (outcome.Opened? ==>
                  && |t.writers| == |s.writers| + 1 && t.writers[..|s.writers|] == s.writers
                  && t.writers[|s.writers|].destination == e.destination
                  && t.writers[|s.writers|].stage in t.disk.files && t.disk.files[t.writers[|s.writers|].stage] == [])
            && (!outcome.Opened? ==> t.writers == s.writers)
  {
    AllocateEffect(s.disk, e.destination, e.process, ATTEMPTS, e.failsAt);
    hide Allocate, IsStage, CountActive;
  }

  lemma OpenTracks(initial: map<string, Bytes>, s: State, log: seq<Entry>, e: Event)
    requires Sound(s) && Tracks(initial, s, log) && e.OpenWriter?
    ensures Tracks(initial, Step(s, e).0, log + [Entry(e, Step(s, e).1)])
  {
    var (t, outcome) := Step(s, e);
    OpenEffect(s, e);
    forall i | 0 <= i < |s.writers|
      ensures t.writers[i] == s.writers[i] && (s.writers[i].active ==> s.writers[i].stage in s.disk.files)
    {
      assert outcome.Opened? ==> t.writers[..|s.writers|][i] == s.writers[i];
      assert WriterSound(s.disk.files, s.writers[i]);
    }
    hide Step, IsStage, CountActive, DestinationIn, StagedBytes, Expected, Sound;
    OpenObjectsTracked(initial, s, t, log, Entry(e, outcome));
    OpenWritersTracked(s, t, log, Entry(e, outcome));
  }

  lemma OpenObjectsTracked(initial: map<string, Bytes>, s: State, t: State, log: seq<Entry>, entry: Entry)
    requires entry.event.OpenWriter? && ObjectsTracked(initial, s, log)
    requires forall path :: !IsStage(path) ==> Lookup(t.disk.files, path) == Lookup(s.disk.files, path)
    ensures ObjectsTracked(initial, t, log + [entry])
  {
    hide IsStage, DestinationIn, StagedBytes, Expected;
    forall path | !IsStage(path) ensures Lookup(t.disk.files, path) == Expected(initial, log + [entry], path) {
      LogGrows(initial, log, entry, 0, path);
    }
  }

  lemma OpenWritersTracked(s: State, t: State, log: seq<Entry>, entry: Entry)
    requires entry.event.OpenWriter? && WritersTracked(s, log)
    requires forall i :: 0 <= i < |s.writers| ==> s.writers[i].active ==> s.writers[i].stage in s.disk.files
    requires forall path :: path in s.disk.files ==> path in t.disk.files && t.disk.files[path] == s.disk.files[path]
    requires forall id :: entry.outcome == Opened(id) ==> id == |s.writers|
    requires |t.writers| == |s.writers| + if entry.outcome.Opened? then 1 else 0
    requires forall i :: 0 <= i < |s.writers| ==> t.writers[i] == s.writers[i]
    requires entry.outcome.Opened? ==>
               var w := t.writers[|s.writers|];
               w.destination == entry.event.destination && w.stage in t.disk.files && t.disk.files[w.stage] == []
    ensures WritersTracked(t, log + [entry])
  {
    hide IsStage, DestinationIn, StagedBytes, Expected;
    forall i: nat
      ensures StagedBytes(log + [entry], i) == StagedBytes(log, i)
      ensures DestinationIn(log + [entry], i) == if entry.outcome == Opened(i) then Some(entry.event.destination)
          else DestinationIn(log, i)
    {
      LogGrows(map[], log, entry, i, "");
    }
    if entry.outcome.Opened? {
      assert entry.outcome == Opened(entry.outcome.id);
    }
  }

  /** A call of one writer, as the others and the objects see it. */
  lemma UseStepEffect(s: State, id: nat, call: Call)
    requires Sound(s) && id < |s.writers|
    ensures var (t, outcome) := Step(s, UseWriter(id, call));
            && |t.writers| == |s.writers|
            && (forall i :: 0 <= i < |s.writers| ==>
                  && t.writers[i].destination == s.writers[i].destination && t.writers[i].stage == s.writers[i].stage
                  && (t.writers[i].active ==>
                        && s.writers[i].active && s.writers[i].stage in s.disk.files
                        && s.writers[i].stage in t.disk.files
                        && t.disk.files[s.writers[i].stage] ==
                           s.disk.files[s.writers[i].stage] + if i == id then Added(call, outcome) else []))
            && (outcome.Published? ==> s.writers[id].active && s.writers[id].stage in s.disk.files)
            && (forall path :: !IsStage(path) ==>
                  Lookup(t.disk.files, path) ==
                    if outcome.Published? && Path(s.writers[id].destination) == path
                    then Some(s.disk.files[s.writers[id].stage])
                    else Lookup(s.disk.files, path))
            && (outcome.Published? ==> call.CallPublish?) && !outcome.Deleted?
  {
    var w := s.writers[id];
    var a := Use(s.disk, w, w.token in s.cancelled, call);
    UseEffect(s.disk, w, w.token in s.cancelled, call);
    UseOutcome(s.disk, w, w.token in s.cancelled, call);
    UseKeepsOthers(s, id, call);
    assert WriterSound(s.disk.files, w);
    hide Use, IsStage, CountActive;
    forall i | 0 <= i < |s.writers| && i != id && s.writers[i].active
      ensures a.disk.files[s.writers[i].stage] == s.disk.files[s.writers[i].stage] + []
    {
    }
  }

  lemma UseTracks(initial: map<string, Bytes>, s: State, log: seq<Entry>, id: nat, call: Call)
    requires Sound(s) && Tracks(initial, s, log) && id < |s.writers|
    ensures Tracks(initial, Step(s, UseWriter(id, call)).0,
        log + [Entry(UseWriter(id, call), Step(s, UseWriter(id, call)).1)])
  {
    var (t, outcome) := Step(s, UseWriter(id, call));
    UseStepEffect(s, id, call);
    hide Step, Use, IsStage, CountActive, DestinationIn, StagedBytes, Expected, Sound;
    UseObjectsTracked(initial, s, t, log, Entry(UseWriter(id, call), outcome));
    UseWritersTracked(s, t, log, Entry(UseWriter(id, call), outcome));
  }

  lemma UseObjectsTracked(initial: map<string, Bytes>, s: State, t: State, log: seq<Entry>, entry: Entry)
    requires entry.event.UseWriter? && entry.event.id < |s.writers| && !entry.outcome.Deleted?
    requires Tracks(initial, s, log)
    requires entry.outcome.Published? ==>
               s.writers[entry.event.id].active && s.writers[entry.event.id].stage in s.disk.files
    requires forall path :: !IsStage(path) ==>
               Lookup(t.disk.files, path) ==
                 if entry.outcome.Published? && Path(s.writers[entry.event.id].destination) == path
                 then Some(s.disk.files[s.writers[entry.event.id].stage]) else Lookup(s.disk.files, path)
    ensures ObjectsTracked(initial, t, log + [entry])
  {
    hide IsStage, DestinationIn, StagedBytes, Expected;
    forall path | !IsStage(path) ensures Lookup(t.disk.files, path) == Expected(initial, log + [entry], path) {
      LogGrows(initial, log, entry, 0, path);
      assert Lookup(s.disk.files, path) == Expected(initial, log, path);
    }
  }

  lemma UseWritersTracked(s: State, t: State, log: seq<Entry>, entry: Entry)
    requires entry.event.UseWriter? && entry.event.id < |s.writers| == |t.writers|
    requires WritersTracked(s, log)
    requires forall i :: 0 <= i < |s.writers| ==>
               && t.writers[i].destination == s.writers[i].destination && t.writers[i].stage == s.writers[i].stage
               && (t.writers[i].active ==>
                     && s.writers[i].active && s.writers[i].stage in s.disk.files && s.writers[i].stage in t.disk.files
                     && t.disk.files[s.writers[i].stage] == s.disk.files[s.writers[i].stage]
                          + if i == entry.event.id then Added(entry.event.call, entry.outcome) else [])
    ensures WritersTracked(t, log + [entry])
  {
    hide IsStage, DestinationIn, StagedBytes, Expected, Added;
    forall i: nat
      ensures StagedBytes(log + [entry], i) == StagedBytes(log,
          i) + if i == entry.event.id then Added(entry.event.call, entry.outcome) else []
      ensures DestinationIn(log + [entry], i) == DestinationIn(log, i)
    {
      LogGrows(map[], log, entry, i, "");
    }
  }

  /** The outcomes of the calls, so that the log tells them apart. */
  lemma UseOutcome(disk: Disk, w: Writer, cancelled: bool, call: Call)
    ensures var outcome := Use(disk, w, cancelled, call).outcome;
            && (outcome.Published? ==> call.CallPublish?) && (outcome.Wrote? ==> call.CallWrite?)
            && !outcome.Deleted? && !outcome.Opened?
  {
  }

  lemma StepTracks(initial: map<string, Bytes>, s: State, log: seq<Entry>, e: Event)
    requires Sound(s) && Tracks(initial, s, log) && Proper(e)
    ensures Tracks(initial, Step(s, e).0, log + [Entry(e, Step(s, e).1)])
  {
    if e.OpenWriter? {
      OpenTracks(initial, s, log, e);
    } else if e.UseWriter? && e.id < |s.writers| {
      UseTracks(initial, s, log, e.id, e.call);
    } else {
      hide Step, Tracks, Sound;
      OtherTracks(initial, s, log, e);
    }
  }

  lemma OtherTracks(initial: map<string, Bytes>, s: State, log: seq<Entry>, e: Event)
    requires Sound(s) && Tracks(initial, s, log) && Proper(e)
    requires e.CancelToken? || e.DeleteObject? || (e.UseWriter? && e.id >= |s.writers|)
    ensures Tracks(initial, Step(s, e).0, log + [Entry(e, Step(s, e).1)])
  {
    var (t, outcome) := Step(s, e);
    var longer := log + [Entry(e, outcome)];
    assert forall i :: 0 <= i < |s.writers| ==> WriterSound(s.disk.files, s.writers[i]);
    assert t.writers == s.writers;
    assert forall path :: !IsStage(path) ==>
      Lookup(t.disk.files, path) == if e.DeleteObject? && outcome.Deleted? && e.path == path then None
          else Lookup(s.disk.files, path);
    hide IsStage, CountActive, Use, Open, DestinationIn, StagedBytes, Expected, Sound;
    forall path | !IsStage(path) ensures Lookup(t.disk.files, path) == Expected(initial, longer, path) {
      LogGrows(initial, log, Entry(e, outcome), 0, path);
      assert Lookup(s.disk.files, path) == Expected(initial, log, path);
    }
    hide ObjectsTracked;
    forall i: nat
      ensures StagedBytes(longer, i) == StagedBytes(log, i) && DestinationIn(longer, i) == DestinationIn(log, i)
    {
      LogGrows(initial, log, Entry(e, outcome), i, "");
    }
  }

  /** A state before any writer is opened; staging files of earlier processes may be about. */
  predicate Fresh(s: State) {
    s.writers == [] && s.disk.active == 0
  }

  lemma {:induction false} RunTracks(s: State, events: seq<Event>)
    requires Fresh(s) && AllProper(events)
    ensures Sound(Run(s, events)) && Tracks(s.disk.files, Run(s, events), Log(s, events))
  {
    if events != [] {
      var before, e := events[..|events| - 1], events[|events| - 1];
      RunTracks(s, before);
      StepSound(Run(s, before), e);
      StepTracks(s.disk.files, Run(s, before), Log(s, before), e);
      hide Sound, Tracks, Step;
    }
  }

  // ---------- Objects are whole ----------

  /** In a run, a write that returns has put its whole chunk into the staging file. */
  predicate Honest(log: seq<Entry>) {
    forall i :: 0 <= i < |log| && log[i].event.UseWriter? && log[i].event.call.CallWrite? && log[i].outcome.Wrote? ==>
      Reaching(log[i].event.call.bytes, log[i].event.call.writeFault) == log[i].event.call.bytes
  }

  lemma StepHonest(s: State, e: Event)
    requires e.UseWriter? && e.call.CallWrite? && Step(s, e).1.Wrote?
    ensures Reaching(e.call.bytes, e.call.writeFault) == e.call.bytes
  {
  }

  lemma HonestGrows(log: seq<Entry>, entry: Entry)
    requires Honest(log)
    requires entry.event.UseWriter? && entry.event.call.CallWrite? && entry.outcome.Wrote? ==>
               Reaching(entry.event.call.bytes, entry.event.call.writeFault) == entry.event.call.bytes
    ensures Honest(log + [entry])
  {
    var longer := log + [entry];
    assert forall i :: 0 <= i < |log| ==> longer[i] == log[i];
  }

  lemma {:induction false} RunHonest(s: State, events: seq<Event>)
    ensures Honest(Log(s, events))
    ensures forall i :: 0 <= i < |events| ==> Log(s, events)[i].event == events[i]
  {
    hide Honest, Step, Run;
    if events != [] {
      var before, e := events[..|events| - 1], events[|events| - 1];
      RunHonest(s, before);
      var entry := Entry(e, Step(Run(s, before), e).1);
      if e.UseWriter? && e.call.CallWrite? && entry.outcome.Wrote? {
        StepHonest(Run(s, before), e);
      }
      HonestGrows(Log(s, before), entry);
      assert Log(s, events) == Log(s, before) + [entry];
    } else {
      NoEntries();
    }
  }

  lemma NoEntries()
    ensures Honest([])
  {
  }

  /** A staging file is exactly the accepted chunks if and only if failed writes left nothing behind. */
  lemma {:induction false} WholeUnlessTorn(log: seq<Entry>, id: nat)
    requires Honest(log)
    ensures |StagedBytes(log, id)| == |AcceptedBytes(log, id)| + TornBytes(log, id)
    ensures StagedBytes(log, id) == AcceptedBytes(log, id) <==> TornBytes(log, id) == 0
  {
    if log != [] {
      WholeUnlessTorn(log[..|log| - 1], id);
    }
  }

  /** The entry publishes to the path or deletes it. */
  predicate Touches(log: seq<Entry>, i: nat, path: string)
    requires i < |log|
  {
    var e, outcome := log[i].event, log[i].outcome;
    || (e.UseWriter? && outcome.Published? && DestinationIn(log[..i], e.id).Some?
        && Path(DestinationIn(log[..i], e.id).value) == path)
    || (e.DeleteObject? && outcome.Deleted? && e.path == path)
  }

  lemma {:induction false} ExpectedIsLastTouch(initial: map<string, Bytes>, log: seq<Entry>, path: string, k: nat)
    requires k < |log| && Touches(log, k, path) && forall i :: k < i < |log| ==> !Touches(log, i, path)
    ensures Expected(initial, log, path) == if log[k].event.UseWriter? then Some(StagedBytes(log[..k],
        log[k].event.id)) else None
  {
    var last := |log| - 1;
    if k < last {
      assert !Touches(log, last, path);
      forall i | 0 <= i < last ensures Touches(log[..last], i, path) == Touches(log, i, path) {
        assert log[..last][..i] == log[..i];
      }
      ExpectedIsLastTouch(initial, log[..last], path, k);
      assert log[..last][..k] == log[..k];
    }
  }

  lemma {:induction false} ExpectedUntouched(initial: map<string, Bytes>, log: seq<Entry>, path: string)
    requires forall i :: 0 <= i < |log| ==> !Touches(log, i, path)
    ensures Expected(initial, log, path) == Lookup(initial, path)
  {
    if log != [] {
      var last := |log| - 1;
      assert !Touches(log, last, path);
      forall i | 0 <= i < last ensures !Touches(log[..last], i, path) {
        assert log[..last][..i] == log[..i];
        assert !Touches(log, i, path);
      }
      ExpectedUntouched(initial, log[..last], path);
    }
  }

  /**
   Whatever the interleaving and the faults, an object that nobody published to or deleted
   holds its initial bytes, and otherwise the last one to publish decides: the object holds
   what that writer staged, which is the concatenation of the chunks it accepted if and only
   if no failed write of that writer left bytes behind.
   */
  lemma LastPublisherWins(s: State, events: seq<Event>, path: string, k: nat)
    requires Fresh(s) && AllProper(events) && !IsStage(path) && k < |events|
    requires Touches(Log(s, events), k, path) && forall i :: k < i < |events| ==> !Touches(Log(s, events), i, path)
    ensures var log := Log(s, events);
            if events[k].UseWriter? then
              && Lookup(Run(s, events).disk.files, path) == Some(StagedBytes(log[..k], events[k].id))
              && (Lookup(Run(s, events).disk.files, path) == Some(AcceptedBytes(log[..k], events[k].id))
                  <==> TornBytes(log[..k], events[k].id) == 0)
            else Lookup(Run(s, events).disk.files, path) == None
  {
    var log := Log(s, events);
    RunTracks(s, events);
    RunHonest(s, events);
    ExpectedIsLastTouch(s.disk.files, log, path, k);
    hide Run, Log, Sound, Expected, IsStage;
    if events[k].UseWriter? {
      WholeUnlessTorn(log[..k], events[k].id);
    }
  }

  /** A write that fails halfway followed by a publish that succeeds: the object ends in the torn chunk. */
  lemma TornWriteIsPublished(s: State, d: Destination, process: nat, token: nat)
    requires Fresh(s) && s.disk.files == map[] && token !in s.cancelled
    ensures var events := [OpenWriter(d, NoFlush, process, token, -1),
                           UseWriter(0, CallWrite([1, 2], ShortWrite(1))),
                           UseWriter(0, CallPublish(NoPublishFault, true))];
            && Log(s, events)[1].outcome == IoError && Log(s, events)[2].outcome == Published(1)
            && Lookup(Run(s, events).disk.files, Path(d)) == Some([1])
  {
    hide Allocate, StagePath, Run, Log;
    var opening := OpenWriter(d, NoFlush, process, token, -1);
    var writing := UseWriter(0, CallWrite([1, 2], ShortWrite(1)));
    var publishing := UseWriter(0, CallPublish(NoPublishFault, true));
    var stage := StagePath(d, process, s.disk.sequence);
    var w := Writer(true, stage, d, NoFlush, token, true);
    assert Step(s, opening).0 == State(Disk(map[stage := []], 1, s.disk.sequence + 1), [w], s.cancelled) by {
      AllocateUnfolds(s.disk, d, process, ATTEMPTS, -1);
    }
    var one := Step(s, opening).0;
    TornStep(one, stage, w);
    var two := Step(one, writing).0;
    assert Step(two, publishing).1 == Published(1) && Lookup(Step(two, publishing).0.disk.files, Path(d)) == Some([1]);
    hide Step;
    RunOneMore(s, [], opening);
    RunOneMore(s, [opening], writing);
    RunOneMore(s, [opening, writing], publishing);
    RunNothing(s);
    assert [] + [opening] == [opening] && [opening] + [writing] == [opening, writing];
    assert [opening, writing] + [publishing] == [opening, writing, publishing];
  }

  lemma RunNothing(s: State)
    ensures Run(s, []) == s && Log(s, []) == []
  {
  }

  lemma TornStep(one: State, stage: string, w: Writer)
    requires one.writers == [w] && w.stage == stage && w.active && w.open && w.token !in one.cancelled
    requires one.disk.files == map[stage := []]
    ensures Step(one, UseWriter(0, CallWrite([1, 2], ShortWrite(1))))
         == (one.(disk := one.disk.(files := map[stage := [1]])), IoError)
  {
    var chunk: Bytes := [1, 2];
    assert chunk[..1] == [1] && Reaching(chunk, ShortWrite(1)) == [1];
    var after := Write(one.disk, w, false, chunk, ShortWrite(1));
    assert after.disk == Append(one.disk, stage, [1]);
    assert one.disk.files[stage] + [1] == [1];
    assert after.disk.files == map[stage := [1]];
    assert one.writers[0 := after.writer] == one.writers;
    assert Use(one.disk, w, false, CallWrite(chunk, ShortWrite(1))) == after;
  }

  lemma RunOneMore(s: State, events: seq<Event>, e: Event)
    ensures Run(s, events + [e]) == Step(Run(s, events), e).0
    ensures Log(s, events + [e]) == Log(s, events) + [Entry(e, Step(Run(s, events), e).1)]
  {
    assert (events + [e])[..|events|] == events;
  }

  lemma UntouchedObjectKept(s: State, events: seq<Event>, path: string)
    requires Fresh(s) && AllProper(events) && !IsStage(path)
    requires forall i :: 0 <= i < |Log(s, events)| ==> !Touches(Log(s, events), i, path)
    ensures Lookup(Run(s, events).disk.files, path) == Lookup(s.disk.files, path)
  {
    RunTracks(s, events);
    ExpectedUntouched(s.disk.files, Log(s, events), path);
    hide Run, Log, Sound, Expected, IsStage, Touches;
  }

  // ---------- Ended writers stay ended ----------

  /** The writer can never publish again. */
  predicate Ended(s: State, id: nat) {
    id < |s.writers| && (!s.writers[id].active || s.writers[id].token in s.cancelled)
  }

  /** Publishing, aborting and dropping end the writer; so does cancelling its token. */
  lemma EndingSteps(s: State, id: nat, e: Event)
    requires Sound(s) && Proper(e) && id < |s.writers|
    requires (e.UseWriter? && e.id == id && (e.call.CallAbort? || e.call.CallDrop? || Step(s, e).1.Published?))
             || (e.CancelToken? && e.token == s.writers[id].token)
    ensures Ended(Step(s, e).0, id)
    ensures !Step(s, e).1.Published? ==>
              forall path :: !IsStage(path) ==> Lookup(Step(s, e).0.disk.files, path) == Lookup(s.disk.files, path)
  {
    if e.UseWriter? {
      UseStepEffect(s, id, e.call);
      hide IsStage, CountActive;
    }
  }

  lemma EndedStays(s: State, id: nat, e: Event)
    requires Ended(s, id)
    ensures Ended(Step(s, e).0, id)
    ensures e.UseWriter? && e.id == id ==> !Step(s, e).1.Published?
  {
    hide Allocate;
  }

  /** No run gives an ended writer another publish, so none of its bytes reach an object again. */
  lemma {:induction false} EndedForever(s: State, events: seq<Event>, id: nat)
    requires Ended(s, id)
    ensures Ended(Run(s, events), id)
    ensures forall i :: 0 <= i < |Log(s, events)| ==>
              Log(s, events)[i].event.UseWriter? && Log(s, events)[i].event.id == id ==>
                  !Log(s, events)[i].outcome.Published?
  {
    if events != [] {
      var before := events[..|events| - 1];
      EndedForever(s, before, id);
      EndedStays(Run(s, before), id, events[|events| - 1]);
      hide Step, Ended;
    }
  }

  // ---------- Staging files ----------

  ghost function StagedFiles(disk: Disk): set<string> {
    set path | path in disk.files && IsStage(path)
  }

  /** The staging files of the active writers. */
  function LiveStages(writers: seq<Writer>): set<string> {
    set i | 0 <= i < |writers| && writers[i].active :: writers[i].stage
  }

  /** The staging files left behind by an event: its writer ends without publishing and the removal fails. */
  function LeakedBy(s: State, e: Event): set<string> {
    if e.UseWriter? && e.id < |s.writers| && s.writers[e.id].active && !Step(s, e).0.writers[e.id].active
       && !Step(s, e).1.Published? && !e.call.removes
    then {s.writers[e.id].stage} else {}
  }

  function Leaked(s: State, events: seq<Event>): set<string> {
    if events == [] then {}
    else
      var before := events[..|events| - 1];
      Leaked(s, before) + LeakedBy(Run(s, before), events[|events| - 1])
  }

  /** The staging files are those found at the start, those leaked, and one for each active writer. */
  ghost predicate Accounted(initial: Disk, s: State, leaked: set<string>) {
    && StagedFiles(s.disk) == StagedFiles(initial) + leaked + LiveStages(s.writers)
    && LiveStages(s.writers) !! StagedFiles(initial) + leaked
  }

  lemma OpenAccounted(initial: Disk, s: State, leaked: set<string>, e: Event)
    requires Sound(s) && Accounted(initial, s, leaked) && e.OpenWriter?
    ensures Accounted(initial, Step(s, e).0, leaked)
  {
    var n, t := |s.writers|, Step(s, e).0;
    AllocateEffect(s.disk, e.destination, e.process, ATTEMPTS, e.failsAt);
    hide Allocate, IsStage, CountActive, Sound;
    if |t.writers| > n {
      var w := t.writers[n];
      assert t.writers[..n] == s.writers;
      LiveGrows(s.writers, w);
      assert t.writers == s.writers + [w];
      hide LiveStages;
      assert StagedFiles(t.disk) == StagedFiles(s.disk) + {w.stage};
      assert w.stage !in StagedFiles(s.disk);
    } else {
      hide LiveStages;
      assert StagedFiles(t.disk) == StagedFiles(s.disk);
    }
  }

  lemma LiveGrows(writers: seq<Writer>, w: Writer)
    ensures LiveStages(writers + [w]) == LiveStages(writers) + if w.active then {w.stage} else {}
  {
    var longer := writers + [w];
    assert w.active ==> longer[|writers|].active;
    forall i | 0 <= i < |writers| && writers[i].active ensures writers[i].stage in LiveStages(longer) {
      assert longer[i] == writers[i];
    }
  }

  /** A writer that ends without publishing loses its staging file exactly if the removal succeeds. */
  lemma UseEnds(disk: Disk, w: Writer, cancelled: bool, call: Call)
    requires WriterSound(disk.files, w) && w.active
    ensures var a := Use(disk, w, cancelled, call);
            && (!a.writer.active && !a.outcome.Published? ==>
                  !call.CallWrite? && a.disk.files.Keys == disk.files.Keys - (if call.removes then {w.stage} else {}))
            && (a.writer.active ==> a.disk.files.Keys == disk.files.Keys)
            && (a.outcome.Published? ==> a.disk.files.Keys == disk.files.Keys - {w.stage} + {Path(w.destination)})
  {
  }

  lemma LiveWithout(writers: seq<Writer>, id: nat, w: Writer)
    requires id < |writers| && writers[id].active && w.stage == writers[id].stage
    requires forall i, j :: 0 <= i < j < |writers| && writers[i].active && writers[j].active ==>
        writers[i].stage != writers[j].stage
    ensures LiveStages(writers[id := w]) == if w.active then LiveStages(writers) else LiveStages(writers) - {w.stage}
    ensures w.stage in LiveStages(writers)
  {
    var changed := writers[id := w];
    forall i | 0 <= i < |writers| && writers[i].active
        && (i != id || w.active) ensures writers[i].stage in LiveStages(changed) {
      assert changed[i].active && changed[i].stage == writers[i].stage;
    }
    forall i | 0 <= i < |changed| && changed[i].active ensures changed[i].stage in LiveStages(writers) {
      assert writers[i].active && writers[i].stage == changed[i].stage;
    }
  }

  /** The step of a call, put together: the writer and the disk after it. */
  lemma UseStep(s: State, id: nat, call: Call)
    requires id < |s.writers|
    ensures var a := Use(s.disk, s.writers[id], s.writers[id].token in s.cancelled, call);
            var (t, outcome) := Step(s, UseWriter(id, call));
            && t.disk == a.disk && t.writers == s.writers[id := a.writer] && outcome == a.outcome
            && LeakedBy(s, UseWriter(id, call))
            == if s.writers[id].active && !a.writer.active && !outcome.Published? && !call.CallWrite? && !call.removes
               then {s.writers[id].stage} else {}
  {
    var w, cancelled := s.writers[id], s.writers[id].token in s.cancelled;
    if w.active && call.CallWrite? {
      assert Use(s.disk, w, cancelled, call).writer.active;
    }
    hide Publish, Abort, Drop;
  }

  lemma UseAccounted(initial: Disk, s: State, leaked: set<string>, id: nat, call: Call)
    requires Sound(s) && Accounted(initial, s, leaked) && id < |s.writers|
    ensures Accounted(initial, Step(s, UseWriter(id, call)).0, leaked + LeakedBy(s, UseWriter(id, call)))
  {
    UseStep(s, id, call);
    hide Step, LeakedBy, IsStage, CountActive;
    if s.writers[id].active {
      ActiveAccounted(initial, s, leaked, id, call);
    } else {
      var a := Use(s.disk, s.writers[id], s.writers[id].token in s.cancelled, call);
      UseEffect(s.disk, s.writers[id], s.writers[id].token in s.cancelled, call);
      hide Use;
      assert LiveStages(s.writers[id := a.writer]) == LiveStages(s.writers) by {
        var changed := s.writers[id := a.writer];
        assert forall i :: 0 <= i < |s.writers| ==>
            changed[i].active == s.writers[i].active && changed[i].stage == s.writers[i].stage;
      }
    }
  }

  lemma ActiveAccounted(initial: Disk, s: State, leaked: set<string>, id: nat, call: Call)
    requires Sound(s) && Accounted(initial, s, leaked) && id < |s.writers| && s.writers[id].active
    ensures Accounted(initial, Step(s, UseWriter(id, call)).0, leaked + LeakedBy(s, UseWriter(id, call)))
  {
    var w, cancelled := s.writers[id], s.writers[id].token in s.cancelled;
    var a := Use(s.disk, w, cancelled, call);
    UseStep(s, id, call);
    assert WriterSound(s.disk.files, w);
    UseEffect(s.disk, w, cancelled, call);
    UseEnds(s.disk, w, cancelled, call);
    LiveWithout(s.writers, id, a.writer);
    hide Step, Use, LeakedBy, IsStage, CountActive, LiveStages, Sound;
    var ends := !a.writer.active;
    var removed := ends && (a.outcome.Published? || call.removes);
    assert StagedFiles(a.disk) == if removed then StagedFiles(s.disk) - {w.stage} else StagedFiles(s.disk);
    hide StagedFiles;
    StageMoves(StagedFiles(s.disk), StagedFiles(initial), leaked, LiveStages(s.writers), w.stage, ends, removed);
  }

  /** A live staging file that ends is removed or counts as leaked. */
  lemma StageMoves(files: set<string>, initial: set<string>, leaked: set<string>, live: set<string>, stage: string,
      ends: bool, removed: bool)
    requires files == initial + leaked + live && live !! initial + leaked && stage in live && (removed ==> ends)
    ensures var live' := if ends then live - {stage} else live;
            var leaked' := leaked + if ends && !removed then {stage} else {};
            (if removed then files - {stage} else files) == initial + leaked' + live' && live' !! initial + leaked'
  {
  }

  lemma OtherAccounted(initial: Disk, s: State, leaked: set<string>, e: Event)
    requires Accounted(initial, s, leaked) && Proper(e)
    requires e.CancelToken? || e.DeleteObject? || (e.UseWriter? && e.id >= |s.writers|)
    ensures Accounted(initial, Step(s, e).0, leaked) && LeakedBy(s, e) == {}
  {
    hide Use, Open, LiveStages;
    assert StagedFiles(Step(s, e).0.disk) == StagedFiles(s.disk);
  }

  lemma {:induction false} RunAccounted(s: State, events: seq<Event>)
    requires Fresh(s) && AllProper(events)
    ensures Accounted(s.disk, Run(s, events), Leaked(s, events))
  {
    if events != [] {
      var before, e := events[..|events| - 1], events[|events| - 1];
      var r := Run(s, before);
      RunAccounted(s, before);
      RunTracks(s, before);
      hide Tracks, Sound, IsStage, Accounted, Step, LeakedBy;
      StepAccounted(s.disk, r, Leaked(s, before), e);
    }
  }

  lemma StepAccounted(initial: Disk, s: State, leaked: set<string>, e: Event)
    requires Sound(s) && Accounted(initial, s, leaked) && Proper(e)
    ensures Accounted(initial, Step(s, e).0, leaked + LeakedBy(s, e))
  {
    if e.OpenWriter? {
      OpenAccounted(initial, s, leaked, e);
      assert LeakedBy(s, e) == {} && leaked + {} == leaked;
    } else if e.UseWriter? && e.id < |s.writers| {
      UseAccounted(initial, s, leaked, e.id, e.call);
    } else {
      OtherAccounted(initial, s, leaked, e);
      assert leaked + {} == leaked;
    }
    hide *;
  }

  lemma {:induction false} LiveCounted(writers: seq<Writer>)
    requires forall i, j :: 0 <= i < j < |writers| && writers[i].active && writers[j].active ==>
        writers[i].stage != writers[j].stage
    ensures |LiveStages(writers)| == CountActive(writers)
  {
    if writers != [] {
      var last := |writers| - 1;
      LiveCounted(writers[..last]);
      assert writers == writers[..last] + [writers[last]];
      LiveGrows(writers[..last], writers[last]);
      forall i | 0 <= i < last && writers[i].active
          && writers[last].active ensures writers[..last][i].stage != writers[last].stage {
      }
    }
  }

  /**
   After any run the counter of active writers is the number of live staging files, and the
   only other staging files are those found at the start and those whose removal failed.
   */
  lemma CounterCountsLiveStages(s: State, events: seq<Event>)
    requires Fresh(s) && AllProper(events)
    ensures var t := Run(s, events);
            && t.disk.active == |LiveStages(t.writers)|
            && StagedFiles(t.disk) == StagedFiles(s.disk) + Leaked(s, events) + LiveStages(t.writers)
            && LiveStages(t.writers) !! StagedFiles(s.disk) + Leaked(s, events)
  {
    RunTracks(s, events);
    RunAccounted(s, events);
    LiveCounted(Run(s, events).writers);
    hide Run, Leaked, IsStage, Tracks, CountActive;
  }
}
