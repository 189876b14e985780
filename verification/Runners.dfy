/** The backup runner: a worker goroutine that saves, uploads and checks, and a listener
    goroutine that waits for the worker, for its error or for a timer
    (internal/pkg/redis/backup/manager.go, check.go). */
module Runners {
  import opened Text
  import Threads

  // ---------- identity ----------

  function ID(shard: string, alias: string, ts: Instant): string {
    shard + "-" + alias + "-" + PrintInt(ts)
  }

  /** The sign of an instant; before 1970 it reads like one more dash. */
  function Sign(t: Instant): string { if t < 0 then "-" else "" }

  function Magnitude(t: Instant): nat { if t < 0 then -t else t }

  /** Two backups share a runner id exactly when their instants agree but for the sign, and shard,
      alias and sign read the same once joined by a dash. */
  lemma IDExact(s: string, a: string, t: Instant, s': string, a': string, t': Instant)
    ensures ID(s, a, t) == ID(s', a', t') <==>
              Magnitude(t) == Magnitude(t') && s + "-" + a + "-" + Sign(t) == s' + "-" + a' + "-" + Sign(t')
  {
    var x, x' := s + "-" + a + "-" + Sign(t), s' + "-" + a' + "-" + Sign(t');
    assert ID(s, a, t) == x + Decimal(Magnitude(t)) && ID(s', a', t') == x' + Decimal(Magnitude(t'));
    if ID(s, a, t) == ID(s', a', t') {
      DecimalHasNoDash(Magnitude(t));
      DecimalHasNoDash(Magnitude(t'));
      assert x == x[..|x| - 1] + "-" && x' == x'[..|x'| - 1] + "-";
      SplitAtLast(x[..|x| - 1], Decimal(Magnitude(t)), x'[..|x'| - 1], Decimal(Magnitude(t')), '-');
      DecimalInjective(Magnitude(t), Magnitude(t'));
    }
  }

  /** With shard names free of dashes and both instants on the same side of 1970, the id names
      shard, server and instant. */
  lemma IDUnambiguous(s: string, a: string, t: Instant, s': string, a': string, t': Instant)
    requires (t < 0 <==> t' < 0) && '-' !in s && '-' !in s'
    requires ID(s, a, t) == ID(s', a', t')
    ensures s == s' && a == a' && t == t'
  {
    IDExact(s, a, t, s', a', t');
    var tail := "-" + Sign(t);
    assert s + "-" + a + tail == s + "-" + (a + tail) && s' + "-" + a' + tail == s' + "-" + (a' + tail);
    assert s + "-" + a + "-" + Sign(t) == s + "-" + a + tail && s' + "-" + a' + "-" + Sign(t') == s' + "-" + a' + tail;
    SplitAtFirst(s, a + tail, s', a' + tail, '-');
    assert a == (a + tail)[..|a + tail| - |tail|] == (a' + tail)[..|a' + tail| - |tail|] == a';
  }

  /** With dashes it may not: shard a on server b-c and shard a-b on server c share a runner. */
  lemma IDAmbiguous(t: Instant)
    ensures ID("a", "b-c", t) == ID("a-b", "c", t)
  {
    assert "a" + "-" + "b-c" == "a-b-c" == "a-b" + "-" + "c";
  }

  // ---------- state ----------

  /** Where an upload goes: "s3://<bucket>/<path>/<file>", so never empty. */
  type Location = s: string | s != "" witness "s3://"

  datatype Job = Job(
    instance: Threads.Owner,
    shard: string,
    alias: string,
    scheduledFor: Instant,
    timestamp: Instant,
    timeout: nat,
    destination: Location,
    id: string,
    key: string)
  {
    /** `id` is what GetID returns and `key` the key of the runner in the thread manager. */
    predicate WellKeyed() { id == ID(shard, alias, scheduledFor) && key == instance.Prefix() + id }

    /** Whether the runner may leave the manager's map when the clock shows `clock`. */
    predicate CanBeDeleted(clock: Instant) { clock - timestamp > timeout * 2 }
  }

  datatype RunnerStatus = RunnerStatus(
    started: bool,
    finished: bool,
    error: Option<string>,
    backupFile: string,
    backupSize: int,
    finishedAt: Instant)

  /** What the worker has been told by redis, by the upload and by the check, in order. */
  datatype Observation = LastSave(at: int) | BgSave | Uploaded | Checked

  datatype Worker =
    | Unstarted
    | ReadingLastSave
    | RequestingSave(prev: int)
    | Polling(prev: int)
    | Tagging
    | Uploading
    | Checking
    | Sizing(size: Option<int>)
    | Closing
    | Closed
    | SendingError(error: string)
    | Gone

  datatype Cause = Timeout | WorkerError(error: string) | Success

  /** The listener writes `Finished` and then, one by one, what goes with it. */
  datatype Listener =
    | Unborn
    | Waiting
    | Marked(cause: Cause)
    | Filed
    | Offering(cause: Cause)
    | Returned(cause: Cause)

  datatype Runner = Runner(
    job: Job,
    worker: Worker,
    listener: Listener,
    cancelled: bool,
    status: RunnerStatus,
    seen: seq<Observation>)

  const BLANK := RunnerStatus(false, false, None, "", 0, 0)
  const TIMEOUT_MESSAGE := "timeout reached"

  /** A runner object on which Start has not been called. */
  function Created(job: Job): Runner {
    Runner(job, Unstarted, Unborn, false, BLANK, [])
  }

  /** A runner at the moment its worker goroutine has been spawned. */
  function Spawned(job: Job): Runner {
    Created(job).(worker := ReadingLastSave)
  }

  /** A runner whose Start has returned before the worker took a step. */
  function Launched(job: Job): Runner {
    Spawned(job).(listener := Waiting, status := BLANK.(started := true))
  }

  // ---------- steps ----------

  datatype Reply<T> = Ok(value: T) | Err(error: string)

  datatype Move =
    | LastSaveReply(reading: Reply<int>)
    | BgSaveReply(failure: Option<string>)
    | SaveCancelled
    | TagsReply(failure: Option<string>)
    | UploadReply(failure: Option<string>)
    | CheckReply(size: Reply<Option<int>>)
    | SizeWritten
    | CloseDone
    | StartReturns
    | TimerFires
    | ErrorReceived
    | DoneReceived
    | OutcomeWritten(at: Instant)
    | EventTaken
    | Stop

  predicate Enabled(r: Runner, m: Move) {
    match m
    case StartReturns => r.listener.Unborn? && !r.worker.Unstarted?
    case TimerFires => r.listener.Waiting?
    case ErrorReceived => r.listener.Waiting? && r.worker.SendingError?
    case DoneReceived => r.listener.Waiting? && r.worker.Closed?
    case OutcomeWritten(_) => r.listener.Marked? || r.listener.Filed?
    case EventTaken => r.listener.Offering?
    case Stop => true
    case SaveCancelled => r.worker.Polling? && r.cancelled
    case _ => CanWork(r.worker, m) && (r.cancelled ==> !NeedsContext(m))
  }

  /** A call that was given the context and succeeds: not once the context is cancelled.  The upload
      itself is not given the context. */
  predicate NeedsContext(m: Move) {
    match m
    case LastSaveReply(reading) => reading.Ok?
    case BgSaveReply(failure) => failure.None?
    case TagsReply(failure) => failure.None?
    case CheckReply(size) => size.Ok?
    case _ => false
  }

  predicate CanWork(w: Worker, m: Move) {
    match m
    case LastSaveReply(_) => w.ReadingLastSave? || w.Polling?
    case BgSaveReply(_) => w.RequestingSave?
    case SaveCancelled => w.Polling?
    case TagsReply(_) => w.Tagging?
    case UploadReply(_) => w.Uploading?
    case CheckReply(_) => w.Checking?
    case SizeWritten => w.Sizing?
    case CloseDone => w.Closing?
    case _ => false
  }

  /** What the worker does next. */
  function Work(w: Worker, m: Move): Worker
    requires CanWork(w, m)
  {
    match m
    case LastSaveReply(Ok(at)) =>
      if w.ReadingLastSave? then RequestingSave(at) else if at > w.prev then Tagging else w
    case LastSaveReply(Err(e)) => if w.ReadingLastSave? then SendingError(e) else w
    case BgSaveReply(Some(e)) => SendingError(e)
    case BgSaveReply(None) => Polling(w.prev)
    case SaveCancelled => SendingError("context cancelled")
    case TagsReply(Some(e)) => SendingError(e)
    case TagsReply(None) => Uploading
    case UploadReply(Some(e)) => SendingError(e)
    case UploadReply(None) => Checking
    case CheckReply(Err(e)) => SendingError(e)
    case CheckReply(Ok(size)) => Sizing(size)
    case SizeWritten => Closing
    case CloseDone => Closed
  }

  /** What the worker has observed after a move. */
  function Note(seen: seq<Observation>, m: Move): seq<Observation> {
    match m
    case LastSaveReply(Ok(at)) => seen + [LastSave(at)]
    case BgSaveReply(None) => seen + [BgSave]
    case UploadReply(None) => seen + [Uploaded]
    case CheckReply(Ok(_)) => seen + [Checked]
    case _ => seen
  }

  /** The check writes the size it was told. */
  function SizeAfter(w: Worker, m: Move, size: int): int {
    if m.SizeWritten? && w.Sizing? && w.size.Some? then w.size.value else size
  }

  function Mark(r: Runner, cause: Cause): Runner {
    r.(listener := Marked(cause), status := r.status.(finished := true))
  }

  function Step(r: Runner, m: Move): Runner
    requires Enabled(r, m)
  {
    match m
    case StartReturns => r.(listener := Waiting, status := BLANK.(started := true))
    case TimerFires => Mark(r, Timeout).(cancelled := true)
    case ErrorReceived => Mark(r, WorkerError(r.worker.error)).(worker := Gone)
    case DoneReceived => Mark(r, Success)
    case OutcomeWritten(at) =>
      if r.listener.Filed? then
        r.(listener := Offering(Success), status := r.status.(finishedAt := at))
      else if r.listener.cause.Success? then
        r.(listener := Filed, status := r.status.(backupFile := r.job.destination))
      else
        r.(listener := Offering(r.listener.cause), status := r.status.(error := ErrorOf(r.listener.cause)))
    case EventTaken => r.(listener := Returned(r.listener.cause))
    case Stop => r.(cancelled := true)
    case _ =>
      r.(worker := Work(r.worker, m), seen := Note(r.seen, m),
         status := r.status.(backupSize := SizeAfter(r.worker, m, r.status.backupSize)))
  }

  function ErrorOf(c: Cause): Option<string> {
    match c case Timeout => Some(TIMEOUT_MESSAGE) case WorkerError(e) => Some(e) case Success => None
  }

  // ---------- what the observations amount to ----------

  /** LASTSAVE was read, BGSAVE accepted, and no later reading exceeded the first. */
  ghost predicate SavePending(seen: seq<Observation>, prev: int) {
    && |seen| >= 2 && seen[0] == LastSave(prev) && seen[1] == BgSave
    && forall i :: 2 <= i < |seen| ==> seen[i].LastSave? && seen[i].at <= prev
  }

  /** The last reading is the first to exceed the one taken before BGSAVE. */
  ghost predicate SaveDone(seen: seq<Observation>) {
    && |seen| >= 3 && seen[0].LastSave? && SavePending(seen[..|seen| - 1], seen[0].at)
    && seen[|seen| - 1].LastSave? && seen[|seen| - 1].at > seen[0].at
  }

  ghost predicate UploadDone(seen: seq<Observation>) {
    seen != [] && seen[|seen| - 1] == Uploaded && SaveDone(seen[..|seen| - 1])
  }

  /** Save, upload and check succeeded, in that order. */
  ghost predicate AllDone(seen: seq<Observation>) {
    seen != [] && seen[|seen| - 1] == Checked && UploadDone(seen[..|seen| - 1])
  }

  ghost predicate WorkerValid(w: Worker, seen: seq<Observation>) {
    match w
    case Unstarted => seen == []
    case ReadingLastSave => seen == []
    case RequestingSave(prev) => seen == [LastSave(prev)]
    case Polling(prev) => SavePending(seen, prev)
    case Tagging => SaveDone(seen)
    case Uploading => SaveDone(seen)
    case Checking => UploadDone(seen)
    case Sizing(_) => AllDone(seen)
    case Closing => AllDone(seen)
    case Closed => AllDone(seen)
    case SendingError(_) => true
    case Gone => true
  }

  predicate Verdict(l: Listener) {
    l.Filed? || ((l.Marked? || l.Offering? || l.Returned?) && l.cause.Success?)
  }

  predicate BlamesWorker(l: Listener) {
    (l.Marked? || l.Offering? || l.Returned?) && l.cause.WorkerError?
  }

  predicate BlamesTimer(l: Listener) {
    (l.Marked? || l.Offering? || l.Returned?) && l.cause.Timeout?
  }

  predicate Announced(l: Listener) { l.Offering? || l.Returned? }

  ghost predicate StatusValid(r: Runner) {
    && (r.status.finished <==> !r.listener.Unborn? && !r.listener.Waiting?)
    && (r.status.started <==> !r.listener.Unborn?)
    && (Verdict(r.listener) ==> r.worker.Closed?)
    && (BlamesWorker(r.listener) ==> r.worker.Gone?)
    && (BlamesTimer(r.listener) ==> r.cancelled)
    && r.status.error == (if Announced(r.listener) then ErrorOf(r.listener.cause) else None)
    && r.status.backupFile == (if Verdict(r.listener) && !r.listener.Marked? then r.job.destination else "")
    && (!(Announced(r.listener) && r.listener.cause.Success?) ==> r.status.finishedAt == 0)
  }

  /** What every interleaving keeps. */
  ghost predicate Valid(r: Runner) {
    WorkerValid(r.worker, r.seen) && StatusValid(r)
  }

  lemma SpawnedValid(job: Job)
    ensures Valid(Created(job)) && Valid(Spawned(job)) && Valid(Launched(job))
  {
  }

  lemma PollAdds(seen: seq<Observation>, prev: int, at: int)
    requires SavePending(seen, prev)
    ensures if at > prev then SaveDone(seen + [LastSave(at)]) else SavePending(seen + [LastSave(at)], prev)
  {
    assert (seen + [LastSave(at)])[..|seen|] == seen;
  }

  lemma UploadAdds(seen: seq<Observation>)
    requires SaveDone(seen)
    ensures UploadDone(seen + [Uploaded])
  {
    assert (seen + [Uploaded])[..|seen|] == seen;
  }

  lemma CheckAdds(seen: seq<Observation>)
    requires UploadDone(seen)
    ensures AllDone(seen + [Checked])
  {
    assert (seen + [Checked])[..|seen|] == seen;
  }

  lemma WorkValid(w: Worker, seen: seq<Observation>, m: Move)
    requires WorkerValid(w, seen) && CanWork(w, m)
    ensures WorkerValid(Work(w, m), Note(seen, m))
  {
    match m
    case LastSaveReply(Ok(at)) => if w.Polling? { PollAdds(seen, w.prev, at); }
    case UploadReply(None) => UploadAdds(seen);
    case CheckReply(Ok(_)) => CheckAdds(seen);
    case _ =>
  }

  /** A worker that has done everything has nothing more to observe. */
  lemma DoneStays(r: Runner, m: Move)
    requires Valid(r) && Enabled(r, m) && AllDone(r.seen)
    ensures Step(r, m).seen == r.seen
  {
    assert r.seen[|r.seen| - 1] == Checked;
  }

  lemma StatusStep(r: Runner, m: Move)
    requires StatusValid(r) && Enabled(r, m)
    ensures StatusValid(Step(r, m))
  {
  }

  lemma StepValid(r: Runner, m: Move)
    requires Valid(r) && Enabled(r, m)
    ensures Valid(Step(r, m))
  {
    if CanWork(r.worker, m) { WorkValid(r.worker, r.seen, m); }
    StatusStep(r, m);
  }

  /** The same announced outcome: only the size may differ, and only after a failure. */
  ghost predicate SameOutcome(r: Runner, n: Runner) {
    && Announced(r.listener) && Announced(n.listener) && n.listener.cause == r.listener.cause
    && n.status == r.status.(backupSize := n.status.backupSize)
    && (r.listener.cause.Success? ==> n.status == r.status && n.seen == r.seen)
  }

  /** Once the outcome is announced no interleaving changes what it says. */
  lemma AnnouncedFrozen(r: Runner, m: Move)
    requires Valid(r) && Enabled(r, m) && Announced(r.listener)
    ensures SameOutcome(r, Step(r, m))
  {
  }

  lemma SameOutcomeChain(a: Runner, b: Runner, c: Runner)
    requires SameOutcome(a, b) && SameOutcome(b, c)
    ensures SameOutcome(a, c)
  {
  }

  // ---------- runs ----------

  ghost predicate Leads(r: Runner, m: Move, r': Runner) { Enabled(r, m) && r' == Step(r, m) }

  /** Steps one after the other, from any state. */
  ghost predicate Continues(rs: seq<Runner>, ms: seq<Move>) {
    && |rs| == |ms| + 1
    && forall i, j :: 0 <= i && j == i + 1 < |rs| ==> Leads(rs[i], ms[i], rs[j])
  }

  ghost predicate IsRun(rs: seq<Runner>, ms: seq<Move>) {
    Continues(rs, ms) && rs[0] == Spawned(rs[0].job)
  }

  lemma RunStep(rs: seq<Runner>, ms: seq<Move>, i: nat)
    requires Continues(rs, ms) && i < |ms|
    ensures Enabled(rs[i], ms[i]) && rs[i + 1] == Step(rs[i], ms[i])
  {
    var next := rs[i + 1];
  }

  lemma {:induction false} RunValid(rs: seq<Runner>, ms: seq<Move>, i: nat)
    requires IsRun(rs, ms) && i < |rs|
    ensures Valid(rs[i])
  {
    if i > 0 {
      RunValid(rs, ms, i - 1);
      RunStep(rs, ms, i - 1);
      StepValid(rs[i - 1], ms[i - 1]);
    }
  }

  /** The number of times the event was handed over in the first n moves. */
  function Events(ms: seq<Move>, n: nat): nat
    requires n <= |ms|
  {
    if n == 0 then 0 else Events(ms, n - 1) + if ms[n - 1].EventTaken? then 1 else 0
  }

  /** The number of times `Finished` went from false to true. */
  ghost function Finishes(rs: seq<Runner>, n: nat): nat
    requires n < |rs|
  {
    if n == 0 then 0
    else Finishes(rs, n - 1) + if !rs[n - 1].status.finished && rs[n].status.finished then 1 else 0
  }

  /** In every run `Finished` becomes true at most once and stays so, the event is handed
      over at most once, and only after `Finished` and the error are in place. */
  lemma {:induction false} FinishedOnce(rs: seq<Runner>, ms: seq<Move>, n: nat)
    requires IsRun(rs, ms) && n < |rs|
    ensures Finishes(rs, n) == if rs[n].status.finished then 1 else 0
    ensures Events(ms, n) == if rs[n].listener.Returned? then 1 else 0
    ensures rs[n].listener.Offering? || Events(ms, n) == 1 ==>
              rs[n].status.finished && rs[n].status.error == ErrorOf(rs[n].listener.cause)
  {
    RunValid(rs, ms, n);
    if n > 0 {
      FinishedOnce(rs, ms, n - 1);
      RunValid(rs, ms, n - 1);
      RunStep(rs, ms, n - 1);
    }
  }

  lemma AnnouncedStep(rs: seq<Runner>, ms: seq<Move>, i: nat)
    requires IsRun(rs, ms) && i < |ms| && Announced(rs[i].listener)
    ensures SameOutcome(rs[i], rs[i + 1])
  {
    RunValid(rs, ms, i);
    RunStep(rs, ms, i);
    AnnouncedFrozen(rs[i], ms[i]);
  }

  /** From the moment the event is offered, finished, error, file and time never change. */
  lemma {:induction false} OutcomeStable(rs: seq<Runner>, ms: seq<Move>, i: nat, j: nat)
    requires IsRun(rs, ms) && i <= j < |rs| && Announced(rs[i].listener)
    ensures SameOutcome(rs[i], rs[j])
    decreases j
  {
    if i < j {
      OutcomeStable(rs, ms, i, j - 1);
      AnnouncedStep(rs, ms, j - 1);
      SameOutcomeChain(rs[i], rs[j - 1], rs[j]);
    }
  }

  /** And if it was announced without an error, save, upload and check had all succeeded. */
  lemma AnnouncedSuccess(rs: seq<Runner>, ms: seq<Move>, i: nat)
    requires IsRun(rs, ms) && i < |rs| && Announced(rs[i].listener) && rs[i].status.error.None?
    ensures AllDone(rs[i].seen) && rs[i].status.finished && rs[i].status.backupFile == rs[i].job.destination
  {
    RunValid(rs, ms, i);
  }

  /** What a reader of the status is told. */
  predicate LooksComplete(r: Runner) { r.status.finished && r.status.error.None? }

  /** The window between the write of `Finished` and the write of the error. */
  predicate Torn(r: Runner) { r.listener.Marked? && !r.listener.cause.Success? }

  /** A status that reads as complete is the truth exactly when it was not read inside the
      window, and then save, upload and check all succeeded in that order. */
  lemma ReadsTrueExactly(r: Runner)
    requires Valid(r) && LooksComplete(r)
    ensures Verdict(r.listener) <==> !Torn(r)
    ensures !Torn(r) ==> AllDone(r.seen)
  {
  }

  /** Nothing a reader is told can change any more, except the size. */
  ghost predicate Fixed(r: Runner) {
    forall m :: Enabled(r, m) ==> Step(r, m).status == r.status.(backupSize := Step(r, m).status.backupSize)
  }

  /** A finished status is fixed exactly when its event is offered; before that the next write of
      the listener changes the error, the file or the finish time. */
  lemma FixedExactly(r: Runner)
    requires Valid(r) && r.status.finished
    ensures Fixed(r) <==> Announced(r.listener)
  {
    if !Announced(r.listener) {
      var m := OutcomeWritten(1);
      assert Enabled(r, m) && Step(r, m).status != r.status.(backupSize := Step(r, m).status.backupSize);
    }
  }

  /** A worker that fails at once can be read as a completed backup. */
  lemma TornReadPossible(job: Job, e: string)
    ensures exists rs: seq<Runner>, ms :: IsRun(rs, ms) && rs[0] == Spawned(job) &&
              var r := rs[|rs| - 1]; LooksComplete(r) && Torn(r) && r.seen == []
  {
    var rs, ms := [Spawned(job)], [];
    rs, ms := Extend(rs, ms, StartReturns);
    rs, ms := Extend(rs, ms, LastSaveReply(Err(e)));
    rs, ms := Extend(rs, ms, ErrorReceived);
    var r := rs[|rs| - 1];
    assert IsRun(rs, ms) && rs[0] == Spawned(job) && LooksComplete(r) && Torn(r) && r.seen == [];
  }

  /** A backup that succeeded can be read as complete before its file is filed. */
  lemma UnfiledReadPossible(job: Job)
    ensures exists rs: seq<Runner>, ms :: IsRun(rs, ms) && rs[0] == Spawned(job) &&
              var r := rs[|rs| - 1];
              LooksComplete(r) && !Torn(r) && AllDone(r.seen) && r.status.backupFile == "" != job.destination
  {
    var rs, ms := RunToMarked(job);
    var r := rs[|rs| - 1];
    RunValid(rs, ms, |rs| - 1);
    assert IsRun(rs, ms) && rs[0] == Spawned(job);
  }

  lemma RunToMarked(job: Job) returns (rs: seq<Runner>, ms: seq<Move>)
    ensures IsRun(rs, ms) && rs[0] == Spawned(job) && rs[|rs| - 1].job == job
    ensures rs[|rs| - 1].listener == Marked(Success) && rs[|rs| - 1].worker == Closed
  {
    rs, ms := RunToCheck(job);
    rs, ms := Extend(rs, ms, CheckReply(Ok(None)));
    rs, ms := Extend(rs, ms, SizeWritten);
    rs, ms := Extend(rs, ms, CloseDone);
    rs, ms := Extend(rs, ms, DoneReceived);
  }

  lemma Extend(rs: seq<Runner>, ms: seq<Move>, m: Move) returns (rs': seq<Runner>, ms': seq<Move>)
    requires Continues(rs, ms) && Enabled(rs[|rs| - 1], m)
    ensures rs' == rs + [Step(rs[|rs| - 1], m)] && ms' == ms + [m] && Continues(rs', ms') && rs'[0] == rs[0]
  {
    rs', ms' := rs + [Step(rs[|rs| - 1], m)], ms + [m];
    assert rs'[0] == rs[0];
    forall i, j | 0 <= i && j == i + 1 < |rs'| ensures Leads(rs'[i], ms'[i], rs'[j]) {
      if j < |rs| {
        RunStep(rs, ms, i);
        assert rs'[i] == rs[i] && rs'[j] == rs[j] && ms'[i] == ms[i];
      } else {
        assert rs'[i] == rs[|rs| - 1] && rs'[j] == Step(rs[|rs| - 1], m) && ms'[i] == m;
      }
    }
  }

  lemma RunToCheck(job: Job) returns (rs: seq<Runner>, ms: seq<Move>)
    ensures IsRun(rs, ms) && rs[0] == Spawned(job)
    ensures rs[|rs| - 1].worker == Checking && rs[|rs| - 1].listener == Waiting
    ensures rs[|rs| - 1].status == BLANK.(started := true) && rs[|rs| - 1].job == job && !rs[|rs| - 1].cancelled
  {
    rs, ms := Extend([Spawned(job)], [], StartReturns);
    rs, ms := Extend(rs, ms, LastSaveReply(Ok(1)));
    rs, ms := Extend(rs, ms, BgSaveReply(None));
    rs, ms := Extend(rs, ms, LastSaveReply(Ok(2)));
    rs, ms := Extend(rs, ms, TagsReply(None));
    rs, ms := Extend(rs, ms, UploadReply(None));
  }
}
