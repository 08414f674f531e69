/** What UploadByMultipart answers, and when an attempt is given up. */
module UploadOutcome {
  import opened Basics
  import opened FileSplit
  import opened UploadPipeline
  import opened UploadProof
  import opened UploadTheorems

  // ---------------------------------------------------------------- the answer

  /** The steps that end the main loop with an error. */
  predicate Fails(l: Label) {
    l == Complete(false) || l.MainError? || l.MainStops?
  }

  predicate Finished(m: Main) {
    m.Completed? || m.Failed?
  }

  lemma AnswerStep(c: Config, s: State, l: Label)
    requires Enabled(c, s, l)
    ensures var m, m' := s.main, Step(c, s, l).main;
      && (l == Complete(true) || Fails(l) ==> !Finished(m))
      && (m'.Completed? <==> m.Completed? || l == Complete(true))
      && (m'.Failed? <==> m.Failed? || Fails(l))
  {
  }

  /** The upload has succeeded exactly when the object store has said yes to completing it, and
      it has failed exactly when the store said no, a goroutine's error was received, or the loop
      was stopped. */
  lemma {:induction false} AnswerIs(c: Config, run: seq<State>, labels: seq<Label>, i: nat)
    requires IsRun(c, run, labels) && i < |run|
    ensures run[i].main.Completed? <==> exists j :: 0 <= j < i && labels[j] == Complete(true)
    ensures run[i].main.Failed? <==> exists j :: 0 <= j < i && Fails(labels[j])
  {
    hide Step, Enabled, Fails;
    if i > 0 {
      AnswerIs(c, run, labels, i - 1);
      assert IsStep(c, run[i - 1], labels[i - 1], run[i]);
      AnswerStep(c, run[i - 1], labels[i - 1]);
      assert forall j :: 0 <= j < i && labels[j] == Complete(true) ==> j == i - 1 || j < i - 1;
    } else {
      assert run[0].main == Looping;
    }
  }

  /** Once the loop has received an error or was stopped, everything is cancelled. */
  lemma {:induction false} FailureCancels(c: Config, run: seq<State>, labels: seq<Label>, j: nat, i: nat)
    requires IsRun(c, run, labels) && j < i < |run| && (labels[j].MainError? || labels[j].MainStops?)
    ensures run[i].cancelled
  {
    assert IsStep(c, run[i - 1], labels[i - 1], run[i]);
    if j < i - 1 { FailureCancels(c, run, labels, j, i - 1); }
  }

  /** A run that has come to an end, in which nobody gave up, nothing was cancelled and the object
      store did not refuse, has completed the upload with one part per chunk. */
  lemma HealthyUploadsComplete(c: Config, run: seq<State>, labels: seq<Label>)
    requires IsRun(c, run, labels) && Healthy(run[|labels|])
    requires forall l :: Forward(l) ==> !Enabled(c, run[|labels|], l)
    requires forall j :: 0 <= j < |labels| ==> labels[j] != Complete(false)
    ensures run[|labels|].main.Completed? && |run[|labels|].main.parts| == N(c)
  {
    hide Forward, Step, IsStep, CountInv, ChunksInv, OrderInv, PartsInv, StopInv, TriesInv;
    var n := |labels|;
    AnswerIs(c, run, labels, n);
    InvAlways(c, run, labels, n);
    if run[n].main.Looping? || run[n].main.Completing? {
      NeverStuck(c, run, labels, n);
    }
    if run[n].main.Failed? {
      var j :| 0 <= j < n && Fails(labels[j]);
      FailureCancels(c, run, labels, j, n);
    }
  }

  // ---------------------------------------------------------------- failures are reported

  /** Every goroutine that gave up has its error in the channel, until one is received. */
  ghost predicate Reported(s: State) {
    |s.readers| == READERS && (!s.cancelled ==> s.errs == Dead(s.readers, s.writer))
  }

  lemma DeadReader(readers: seq<Reader>, writer: Writer, r: nat, x: Reader)
    requires |readers| == READERS && r < READERS && !readers[r].ReaderGone?
    ensures Dead(readers[r := x], writer) == Dead(readers, writer) + if x.ReaderGone? then 1 else 0
  {
  }

  lemma StepReports(c: Config, s: State, l: Label)
    requires Reported(s) && Enabled(c, s, l)
    ensures Reported(Step(c, s, l))
  {
    hide Good, ReadAt;
    if ByReader(l) {
      hide Dead;
      DeadReader(s.readers, s.writer, l.r, Step(c, s, l).readers[l.r]);
    }
  }

  lemma {:induction false} ReportedAlways(c: Config, run: seq<State>, labels: seq<Label>, i: nat)
    requires IsRun(c, run, labels) && i < |run|
    ensures Reported(run[i])
  {
    hide Step, Enabled, Reported;
    if i == 0 {
      StartReports(c);
    } else {
      ReportedAlways(c, run, labels, i - 1);
      assert IsStep(c, run[i - 1], labels[i - 1], run[i]);
      StepReports(c, run[i - 1], labels[i - 1]);
    }
  }

  lemma StartReports(c: Config)
    ensures Reported(Start(c))
  {
  }

  lemma TwoReaders(readers: seq<Reader>)
    requires |readers| == READERS
    ensures NoneGone(readers) <==> !readers[0].ReaderGone? && !readers[1].ReaderGone?
  {
  }

  /** A goroutine that gave up does not leave the main loop waiting: unless everything is cancelled
      the loop can receive its error. */
  lemma FailuresEndTheUpload(c: Config, run: seq<State>, labels: seq<Label>, i: nat)
    requires IsRun(c, run, labels) && i < |run| && !run[i].cancelled && run[i].main.Looping?
    ensures !Healthy(run[i]) <==> Enabled(c, run[i], MainError)
  {
    hide IsStep;
    ReportedAlways(c, run, labels, i);
    TwoReaders(run[i].readers);
  }

  // ---------------------------------------------------------------- attempts

  /** The failed attempts to upload the chunk that the writer was handed last. */
  function UploadAttempts(labels: seq<Label>): nat {
    if labels == [] then 0
    else
      var l, before := labels[|labels| - 1], labels[..|labels| - 1];
      if l.Hand? then 0 else UploadAttempts(before) + if l.UploadFails? then 1 else 0
  }

  /** The failed attempts of reader `r` to read the chunk it was sent last. */
  function ReadAttempts(labels: seq<Label>, r: nat): nat {
    if labels == [] then 0
    else
      var l, before := labels[|labels| - 1], labels[..|labels| - 1];
      if l == SendJob(r) then 0 else ReadAttempts(before, r) + if l == ReadFails(r) then 1 else 0
  }

  ghost predicate TriesCount(s: State, labels: seq<Label>) {
    && |s.readers| == READERS
    && (s.writer.Uploading? ==> s.writer.tries == UploadAttempts(labels))
    && (forall r: nat :: r < READERS ==> ReaderCount(s.readers[r], labels, r))
  }

  ghost predicate ReaderCount(x: Reader, labels: seq<Label>, r: nat) {
    x.Reading? ==> x.tries == ReadAttempts(labels, r)
  }

  lemma ReaderStepCounts(c: Config, s: State, labels: seq<Label>, l: Label, r: nat)
    requires r < |s.readers| == READERS && ReaderCount(s.readers[r], labels, r) && Enabled(c, s, l)
    ensures |Step(c, s, l).readers| == READERS && ReaderCount(Step(c, s, l).readers[r], labels + [l], r)
  {
    hide Good, ReadAt, ReadAttempts;
    OneMoreFor(labels, l, r);
  }

  lemma StepCountsTries(c: Config, s: State, labels: seq<Label>, l: Label)
    requires TriesCount(s, labels) && Enabled(c, s, l)
    ensures TriesCount(Step(c, s, l), labels + [l])
  {
    hide Good, ReadAt, ReaderCount, UploadAttempts;
    OneMoreLabel(labels, l);
    forall r: nat | r < READERS
      ensures |Step(c, s, l).readers| == READERS && ReaderCount(Step(c, s, l).readers[r], labels + [l], r)
    {
      ReaderStepCounts(c, s, labels, l, r);
    }
  }

  lemma OneMoreLabel(labels: seq<Label>, l: Label)
    ensures UploadAttempts(labels + [l]) == if l.Hand? then 0 else UploadAttempts(labels) + if l.UploadFails? then 1 else 0
  {
    assert (labels + [l])[..|labels|] == labels;
  }

  lemma OneMoreFor(labels: seq<Label>, l: Label, r: nat)
    ensures ReadAttempts(labels + [l], r) == if l == SendJob(r) then 0 else ReadAttempts(labels, r) + if l == ReadFails(r) then 1 else 0
  {
    assert (labels + [l])[..|labels|] == labels;
  }

  lemma {:induction false} TriesAreCounted(c: Config, run: seq<State>, labels: seq<Label>, i: nat)
    requires IsRun(c, run, labels) && i < |run|
    ensures TriesCount(run[i], labels[..i])
  {
    hide Step, Enabled, TriesCount;
    if i == 0 {
      assert TriesCount(run[0], []) by { NoTries(c); }
      assert labels[..0] == [];
    } else {
      TriesAreCounted(c, run, labels, i - 1);
      assert IsStep(c, run[i - 1], labels[i - 1], run[i]);
      StepCountsTries(c, run[i - 1], labels[..i - 1], labels[i - 1]);
      assert labels[..i - 1] + [labels[i - 1]] == labels[..i];
    }
  }

  lemma NoTries(c: Config)
    ensures TriesCount(Start(c), [])
  {
  }

  /** A goroutine gives up on its third failed attempt, and until then it tries the same chunk again. */
  lemma GivesUpAfterThree(c: Config, run: seq<State>, labels: seq<Label>, i: nat, r: nat)
    requires IsRun(c, run, labels) && i < |labels|
    ensures labels[i].UploadFails? ==>
      if UploadAttempts(labels[..i]) + 1 == 3 then run[i + 1].writer.WriterGone?
      else UploadAttempts(labels[..i]) + 1 < 3 && run[i].writer.Uploading? && run[i + 1].writer.Uploading?
           && run[i + 1].writer.d == run[i].writer.d
    ensures labels[i] == ReadFails(r) ==>
      && r < |run[i].readers| == |run[i + 1].readers|
      && if ReadAttempts(labels[..i], r) + 1 == 3 then run[i + 1].readers[r].ReaderGone?
         else ReadAttempts(labels[..i], r) + 1 < 3 && run[i].readers[r].Reading? && run[i + 1].readers[r].Reading?
              && run[i + 1].readers[r].i == run[i].readers[r].i
  {
    hide ReadersInv, WaitersInv, FoundInv, PartsInv, OrderInv;
    InvAlways(c, run, labels, i);
    TriesAreCounted(c, run, labels, i);
    assert IsStep(c, run[i], labels[i], run[i + 1]);
  }
}
