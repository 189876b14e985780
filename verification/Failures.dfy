/** Runners that fail, are cancelled or time out: what becomes of them, and that each can happen. */
module Failures {
  import opened Text
  import opened Runners

  /** The worker has not had the answer of the check. */
  predicate AtWork(w: Worker) {
    || w.ReadingLastSave? || w.RequestingSave? || w.Polling? || w.Tagging? || w.Uploading? || w.Checking?
  }

  lemma {:induction false} ContinuesValid(rs: seq<Runner>, ms: seq<Move>, n: nat)
    requires Continues(rs, ms) && Valid(rs[0]) && n < |rs|
    ensures Valid(rs[n])
  {
    if n > 0 {
      ContinuesValid(rs, ms, n - 1);
      RunStep(rs, ms, n - 1);
      StepValid(rs[n - 1], ms[n - 1]);
    }
  }

  // ---------- failures ----------

  /** In this state of the worker the move says that a call failed with this error; a reading that
      fails while polling is only skipped. */
  predicate FailsWith(w: Worker, m: Move, e: string) {
    || m == BgSaveReply(Some(e)) || m == TagsReply(Some(e)) || m == UploadReply(Some(e)) || m == CheckReply(Err(e))
    || (m == LastSaveReply(Err(e)) && w.ReadingLastSave?)
    || (m == SaveCancelled && e == "context cancelled")
  }

  /** The worker can hand over this error, or has handed it over, and nothing else; no success is
      announced, and what is announced is this error or the timeout. */
  ghost predicate FailedWith(r: Runner, seen: seq<Observation>, e: string) {
    && r.seen == seen && !Verdict(r.listener) && (r.worker == SendingError(e) || r.worker == Gone)
    && (r.listener.Marked? || Announced(r.listener) ==>
          r.listener.cause == (if r.worker.Gone? then WorkerError(e) else Timeout))
    && (r.worker.Gone? ==> r.listener.Marked? || Announced(r.listener))
    && (Announced(r.listener) ==> r.status.error == Some(if r.worker.Gone? then e else TIMEOUT_MESSAGE))
  }

  lemma FailureStarts(r: Runner, m: Move, e: string)
    requires Valid(r) && Enabled(r, m) && FailsWith(r.worker, m, e)
    ensures FailedWith(Step(r, m), r.seen, e)
  {
  }

  lemma FailureStays(r: Runner, m: Move, seen: seq<Observation>, e: string)
    requires Valid(r) && Enabled(r, m) && FailedWith(r, seen, e)
    ensures FailedWith(Step(r, m), seen, e)
  {
  }

  /** After a failed call the worker does nothing more: it observes nothing, no success is ever
      announced, and the outcome is this very error, or the timeout if the timer was faster. */
  lemma {:induction false} FailureEnds(rs: seq<Runner>, ms: seq<Move>, k: nat, n: nat, e: string)
    requires Continues(rs, ms) && Valid(rs[0]) && k < n < |rs| && FailsWith(rs[k].worker, ms[k], e)
    ensures FailedWith(rs[n], rs[k].seen, e)
    decreases n
  {
    ContinuesValid(rs, ms, n - 1);
    RunStep(rs, ms, n - 1);
    if k == n - 1 {
      FailureStarts(rs[k], ms[k], e);
    } else {
      FailureEnds(rs, ms, k, n - 1, e);
      FailureStays(rs[n - 1], ms[n - 1], rs[k].seen, e);
    }
  }

  // ---------- cancellation ----------

  /** A runner is cancelled exactly when its timer has fired or its caller has stopped it; and only
      then its save stage ends for that reason. */
  lemma {:induction false} CancelledExactly(rs: seq<Runner>, ms: seq<Move>, n: nat)
    requires Continues(rs, ms) && !rs[0].cancelled && n < |rs|
    ensures rs[n].cancelled <==> TimerFires in ms[..n] || Stop in ms[..n]
    ensures !rs[n].cancelled ==> SaveCancelled !in ms[..n]
  {
    if n > 0 {
      CancelledExactly(rs, ms, n - 1);
      RunStep(rs, ms, n - 1);
      assert ms[..n] == ms[..n - 1] + [ms[n - 1]];
    }
  }

  /** A cancelled worker observes nothing more, except that an upload that is on its way succeeds. */
  ghost predicate CutOff(r: Runner, seen: seq<Observation>, uploading: bool) {
    && r.cancelled && !Verdict(r.listener)
    && (AtWork(r.worker) || r.worker.SendingError? || r.worker.Gone?)
    && (r.seen == seen || (uploading && r.seen == seen + [Uploaded]))
    && (r.worker.Uploading? ==> uploading && r.seen == seen)
  }

  lemma CutOffStays(r: Runner, m: Move, seen: seq<Observation>, uploading: bool)
    requires Valid(r) && Enabled(r, m) && CutOff(r, seen, uploading)
    ensures CutOff(Step(r, m), seen, uploading)
  {
  }

  /** Once a runner is cancelled before its check was answered it never succeeds, whatever is still
      answered; the most that still happens is that the upload finishes. */
  lemma {:induction false} CancelledNeverSucceeds(rs: seq<Runner>, ms: seq<Move>, n: nat)
    requires Continues(rs, ms) && Valid(rs[0]) && rs[0].cancelled && AtWork(rs[0].worker) && n < |rs|
    ensures CutOff(rs[n], rs[0].seen, rs[0].worker.Uploading?)
  {
    if n > 0 {
      CancelledNeverSucceeds(rs, ms, n - 1);
      ContinuesValid(rs, ms, n - 1);
      RunStep(rs, ms, n - 1);
      CutOffStays(rs[n - 1], ms[n - 1], rs[0].seen, rs[0].worker.Uploading?);
    }
  }

  /** A worker that was cut off by an announced timeout is never done: it is at work, or it waits for
      ever to hand over an error that nobody takes. */
  lemma {:induction false} TimeoutLeaksWorker(rs: seq<Runner>, ms: seq<Move>, n: nat)
    requires Continues(rs, ms) && Valid(rs[0]) && Announced(rs[0].listener) && rs[0].listener.cause.Timeout?
    requires (AtWork(rs[0].worker) || rs[0].worker.SendingError?) && n < |rs|
    ensures Announced(rs[n].listener) && (AtWork(rs[n].worker) || rs[n].worker.SendingError?)
    ensures rs[0].worker.SendingError? ==> rs[n].worker == rs[0].worker
  {
    if n > 0 {
      TimeoutLeaksWorker(rs, ms, n - 1);
      ContinuesValid(rs, ms, n - 1);
      RunStep(rs, ms, n - 1);
      LeakStays(rs[n - 1], ms[n - 1]);
      OutcomeKeptOn(rs, ms, n - 1);
    }
  }

  lemma LeakStays(r: Runner, m: Move)
    requires Valid(r) && Enabled(r, m) && Announced(r.listener) && r.cancelled
    requires AtWork(r.worker) || r.worker.SendingError?
    ensures Announced(Step(r, m).listener) && (AtWork(Step(r, m).worker) || Step(r, m).worker.SendingError?)
    ensures r.worker.SendingError? ==> Step(r, m).worker == r.worker
  {
  }

  lemma {:induction false} OutcomeKeptOn(rs: seq<Runner>, ms: seq<Move>, n: nat)
    requires Continues(rs, ms) && Valid(rs[0]) && Announced(rs[0].listener) && n < |rs|
    ensures SameOutcome(rs[0], rs[n])
  {
    if n > 0 {
      OutcomeKeptOn(rs, ms, n - 1);
      ContinuesValid(rs, ms, n - 1);
      RunStep(rs, ms, n - 1);
      AnnouncedFrozen(rs[n - 1], ms[n - 1]);
      SameOutcomeChain(rs[0], rs[n - 1], rs[n]);
    }
  }

  // ---------- every outcome can come about ----------

  /** From every stage of the work of a runner that is not cancelled a success can be announced and
      taken. */
  lemma CanSucceed(r: Runner) returns (rs: seq<Runner>, ms: seq<Move>)
    requires AtWork(r.worker) && r.listener.Waiting? && !r.cancelled
    ensures Continues(rs, ms) && rs[0] == r && rs[|rs| - 1].listener == Returned(Success)
  {
    rs, ms := CanCheck(r);
    rs, ms := Extend(rs, ms, CheckReply(Ok(None)));
    rs, ms := Extend(rs, ms, SizeWritten);
    rs, ms := Extend(rs, ms, CloseDone);
    rs, ms := Extend(rs, ms, DoneReceived);
    rs, ms := AnnouncedAndTaken(rs, ms);
  }

  lemma CanCheck(r: Runner) returns (rs: seq<Runner>, ms: seq<Move>)
    requires AtWork(r.worker) && r.listener.Waiting? && !r.cancelled
    ensures Continues(rs, ms) && rs[0] == r
    ensures rs[|rs| - 1] == r.(worker := Checking, seen := rs[|rs| - 1].seen)
  {
    rs, ms := [r], [];
    if rs[|rs| - 1].worker.ReadingLastSave? { rs, ms := Extend(rs, ms, LastSaveReply(Ok(0))); }
    if rs[|rs| - 1].worker.RequestingSave? { rs, ms := Extend(rs, ms, BgSaveReply(None)); }
    if rs[|rs| - 1].worker.Polling? { rs, ms := Extend(rs, ms, LastSaveReply(Ok(rs[|rs| - 1].worker.prev + 1))); }
    if rs[|rs| - 1].worker.Tagging? { rs, ms := Extend(rs, ms, TagsReply(None)); }
    if rs[|rs| - 1].worker.Uploading? { rs, ms := Extend(rs, ms, UploadReply(None)); }
  }

  lemma AnnouncedAndTaken(rs: seq<Runner>, ms: seq<Move>) returns (rs': seq<Runner>, ms': seq<Move>)
    requires Continues(rs, ms) && rs[|rs| - 1].listener.Marked?
    ensures Continues(rs', ms') && rs'[0] == rs[0]
    ensures rs'[|rs'| - 1].listener == Returned(rs[|rs| - 1].listener.cause)
  {
    rs', ms' := Extend(rs, ms, OutcomeWritten(0));
    if rs'[|rs'| - 1].listener.Filed? { rs', ms' := Extend(rs', ms', OutcomeWritten(0)); }
    rs', ms' := Extend(rs', ms', EventTaken);
  }

  /** While the listener waits its timer can fire, and the timeout is announced and taken. */
  lemma CanTimeOut(r: Runner) returns (rs: seq<Runner>, ms: seq<Move>)
    requires r.listener.Waiting?
    ensures Continues(rs, ms) && rs[0] == r && rs[|rs| - 1].listener == Returned(Timeout)
  {
    rs, ms := Extend([r], [], TimerFires);
    rs, ms := AnnouncedAndTaken(rs, ms);
  }

  /** Every call can fail at once with any error, which is then announced and taken; and so can a
      cancelled poll. */
  lemma CanFail(r: Runner, e: string) returns (rs: seq<Runner>, ms: seq<Move>)
    requires AtWork(r.worker) && r.listener.Waiting?
    requires r.worker.Polling? ==> r.cancelled && e == "context cancelled"
    ensures Continues(rs, ms) && |rs| > 1 && rs[0] == r && rs[1].worker == SendingError(e)
    ensures FailsWith(r.worker, ms[0], e)
    ensures rs[|rs| - 1].listener == Returned(WorkerError(e))
  {
    var m :=
      match r.worker
      case ReadingLastSave => LastSaveReply(Err(e))
      case RequestingSave(_) => BgSaveReply(Some(e))
      case Tagging => TagsReply(Some(e))
      case Uploading => UploadReply(Some(e))
      case Checking => CheckReply(Err(e))
      case _ => SaveCancelled;
    rs, ms := Extend([r], [], m);
    var first := rs;
    rs, ms := FailureTaken(rs, ms, e);
    assert rs[0] == first[0] && rs[1] == first[1];
  }

  lemma FailureTaken(rs: seq<Runner>, ms: seq<Move>, e: string) returns (rs': seq<Runner>, ms': seq<Move>)
    requires Continues(rs, ms) && |ms| == 1 && rs[1].worker == SendingError(e) && rs[1].listener.Waiting?
    ensures Continues(rs', ms') && |rs'| > 2 && rs'[..2] == rs && ms'[0] == ms[0]
    ensures rs'[|rs'| - 1].listener == Returned(WorkerError(e))
  {
    rs', ms' := Extend(rs, ms, ErrorReceived);
    rs', ms' := Extend(rs', ms', OutcomeWritten(0));
    rs', ms' := Extend(rs', ms', EventTaken);
  }
}
