/** The recorded size of a backup: when it is what the check was told, and when it can still change. */
module Sizes {
  import opened Text
  import opened Runners
  import opened Failures

  // ---------- the size ----------

  /** The worker has been told another size than the recorded one and has not written it yet. */
  predicate HoldsOtherSize(r: Runner) {
    r.worker.Sizing? && r.worker.size.Some? && r.worker.size.value != r.status.backupSize
  }

  /** Some continuation changes the size. */
  ghost predicate SizeMayChange(r: Runner) {
    exists rs: seq<Runner>, ms, j: nat ::
      Continues(rs, ms) && rs[0] == r && j < |rs| && rs[j].status.backupSize != r.status.backupSize
  }

  /** Exactly when the size that was announced can still change: when the worker holds another one
      that it was told before the timer fired. */
  lemma SizeChangesExactly(r: Runner)
    requires Valid(r) && Announced(r.listener)
    ensures SizeMayChange(r) <==> HoldsOtherSize(r)
    ensures SizeMayChange(r) ==> r.listener.cause.Timeout?
  {
    if HoldsOtherSize(r) {
      var rs, ms := Extend([r], [], SizeWritten);
      assert rs[1].status.backupSize != r.status.backupSize;
    } else {
      forall rs: seq<Runner>, ms, j: nat | Continues(rs, ms) && rs[0] == r && j < |rs|
        ensures rs[j].status.backupSize == r.status.backupSize
      {
        SizeStays(rs, ms, j);
      }
    }
  }

  lemma {:induction false} SizeStays(rs: seq<Runner>, ms: seq<Move>, j: nat)
    requires Continues(rs, ms) && j < |rs| && Valid(rs[0]) && Announced(rs[0].listener) && !HoldsOtherSize(rs[0])
    ensures Valid(rs[j]) && Announced(rs[j].listener) && !HoldsOtherSize(rs[j])
    ensures rs[j].status.backupSize == rs[0].status.backupSize
  {
    if j > 0 {
      SizeStays(rs, ms, j - 1);
      RunStep(rs, ms, j - 1);
      StepValid(rs[j - 1], ms[j - 1]);
      SizeStaysOnce(rs[j - 1], ms[j - 1]);
    }
  }

  lemma SizeStaysOnce(r: Runner, m: Move)
    requires Valid(r) && Enabled(r, m) && Announced(r.listener) && !HoldsOtherSize(r)
    ensures Announced(Step(r, m).listener) && !HoldsOtherSize(Step(r, m))
    ensures Step(r, m).status.backupSize == r.status.backupSize
  {
  }

  /** And there is a run to such a change, for every size: the listing of the check is answered, the
      timer fires and the timeout is announced, and only then the size is written. */
  lemma SizeChangesAfterTimeout(job: Job, size: int)
    requires size != 0
    ensures exists rs: seq<Runner>, ms, i: nat, j: nat :: IsRun(rs, ms) && i < j < |rs| && rs[0] == Spawned(job)
              && Announced(rs[i].listener) && rs[i].status.backupSize == 0 && rs[j].status.backupSize == size
  {
    var rs, ms := RunToCheck(job);
    rs, ms := Extend(rs, ms, CheckReply(Ok(Some(size))));
    rs, ms := Extend(rs, ms, TimerFires);
    rs, ms := Extend(rs, ms, OutcomeWritten(0));
    var i := |rs| - 1;
    var r := rs[i];
    rs, ms := Extend(rs, ms, SizeWritten);
    assert i < i + 1 < |rs| && rs[i] == r && rs[i + 1].status.backupSize == size;
    assert IsRun(rs, ms) && Announced(rs[i].listener) && rs[i].status.backupSize == 0;
  }

  /** What the size is after it was written at move k: what the check was told, unless the worker was
      faster than Start, which resets the status when it returns. */
  lemma {:induction false} SizeWrittenExactly(rs: seq<Runner>, ms: seq<Move>, k: nat, n: nat)
    requires IsRun(rs, ms) && k < n < |rs| && ms[k] == SizeWritten
    ensures rs[k].worker.Sizing? && (rs[n].worker.Closing? || rs[n].worker.Closed?)
    ensures rs[n].listener.Unborn? ==> rs[k].listener.Unborn?
    ensures rs[n].status.backupSize ==
              if rs[k].worker.size.None? || (rs[k].listener.Unborn? && !rs[n].listener.Unborn?) then 0
              else rs[k].worker.size.value
    decreases n
  {
    RunStep(rs, ms, k);
    RunValid(rs, ms, k);
    SizeUnwritten(rs, ms, k);
    RunStep(rs, ms, n - 1);
    if k < n - 1 {
      SizeWrittenExactly(rs, ms, k, n - 1);
    }
  }

  /** Before the size is written it is zero. */
  lemma {:induction false} SizeUnwritten(rs: seq<Runner>, ms: seq<Move>, k: nat)
    requires IsRun(rs, ms) && k < |rs| && (AtWork(rs[k].worker) || rs[k].worker.Sizing?)
    ensures rs[k].status.backupSize == 0
  {
    if k > 0 {
      RunValid(rs, ms, k - 1);
      RunStep(rs, ms, k - 1);
      SizeUnwritten(rs, ms, k - 1);
    }
  }

  /** A worker that is done before Start returns is announced as a success of size zero. */
  lemma SizeLostAtStart(job: Job, size: int)
    ensures exists rs: seq<Runner>, ms, k: nat :: IsRun(rs, ms) && rs[0] == Spawned(job) && k < |rs| &&
              var r := rs[|rs| - 1];
              && rs[k].worker == Sizing(Some(size)) && Announced(r.listener)
              && r.status.error.None? && r.status.backupSize == 0
  {
    var rs, ms := Extend([Spawned(job)], [], LastSaveReply(Ok(1)));
    rs, ms := Extend(rs, ms, BgSaveReply(None));
    rs, ms := Extend(rs, ms, LastSaveReply(Ok(2)));
    rs, ms := Extend(rs, ms, TagsReply(None));
    rs, ms := Extend(rs, ms, UploadReply(None));
    rs, ms := Extend(rs, ms, CheckReply(Ok(Some(size))));
    var k := |rs| - 1;
    var told := rs[k];
    rs, ms := FinishedEarly(rs, ms);
    assert rs[k] == told && IsRun(rs, ms) && rs[0] == Spawned(job);
  }

  lemma FinishedEarly(rs: seq<Runner>, ms: seq<Move>) returns (rs': seq<Runner>, ms': seq<Move>)
    requires IsRun(rs, ms) && rs[|rs| - 1].worker.Sizing? && rs[|rs| - 1].listener.Unborn?
    ensures IsRun(rs', ms') && rs <= rs'
    ensures var r := rs'[|rs'| - 1];
            Announced(r.listener) && r.status.error.None? && r.status.backupSize == 0
  {
    rs', ms' := Extend(rs, ms, SizeWritten);
    rs', ms' := Extend(rs', ms', CloseDone);
    rs', ms' := Extend(rs', ms', StartReturns);
    rs', ms' := Extend(rs', ms', DoneReceived);
    rs', ms' := Extend(rs', ms', OutcomeWritten(0));
    rs', ms' := Extend(rs', ms', OutcomeWritten(0));
  }
}
