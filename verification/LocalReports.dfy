/** What a refused call of the dataset writer says about a local store: the published detail is always complete. */
module LocalReports {
  import opened DatasetWriter
  import opened WriterRuns
  import opened WriterRefusals
  import G = StagedWrite

  /** A close of a part: the staged writer that is published, on the disk as it is then, with the faults it meets. */
  datatype Close = Close(disk: G.Disk, writer: G.Writer, cancelled: bool, fault: G.PublishFault, removes: bool)

  function Closed(c: Close): G.After {
    G.Use(c.disk, c.writer, c.cancelled, G.CallPublish(c.fault, c.removes))
  }

  /** The object of the part is there, or has changed, after the close. */
  predicate Visible(c: Close) {
    var path := G.Path(c.writer.destination);
    G.Lookup(Closed(c).disk.files, path) != G.Lookup(c.disk.files, path)
  }

  /** The dataset writer runs over a local store: a close fails, and its object is visible, as the publish says. */
  ghost predicate OverLocalStore(env: Env, closes: nat -> Close) {
    forall n: nat ::
      && G.WriterSound(closes(n).disk.files, closes(n).writer)
      && (env.unheard(n) <==> !Closed(closes(n)).outcome.Published? && Visible(closes(n)))
  }

  /** A local publish that fails has made nothing visible, so every close that was carried out is answered. */
  lemma LocalStoreAnswers(env: Env, closes: nat -> Close)
    requires OverLocalStore(env, closes)
    ensures Answers(env)
  {
    hide Closed;
    forall n: nat ensures !env.unheard(n) {
      assert G.WriterSound(closes(n).disk.files, closes(n).writer);
      if !Closed(closes(n)).outcome.Published? {
        FailedPublishShowsNothing(closes(n));
      }
    }
  }

  lemma FailedPublishShowsNothing(c: Close)
    requires G.WriterSound(c.disk.files, c.writer) && !Closed(c).outcome.Published?
    ensures !Visible(c)
  {
    hide G.Use;
    G.UseEffect(c.disk, c.writer, c.cancelled, G.CallPublish(c.fault, c.removes));
  }

  /** Over a local store the detail of a failed publish always names exactly the objects of the run. */
  lemma LocalReport(env: Env, closes: nat -> Close, w0: World, s: State, w: World, path: string)
    requires OverLocalStore(env, closes) && Inv(env, w0, s, w) && NamesUnused(env, w0) && path in s.active
    ensures Ready(env, s, w)
    ensures var o := PublishEntry(env, s, w, path);
            o.result.Err? && o.result.error.PublishFailed? ==> Complete(w0, o.result.error.published, o.world)
  {
    hide Inv, NamesUnused, Complete, PublishEntry;
    LocalStoreAnswers(env, closes);
    AnsweredReport(env, w0, s, w, path);
  }
}
