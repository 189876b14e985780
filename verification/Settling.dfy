/** What repeated reconciles come to: which pending backups rescheduling drops, and how
    soon a frozen world is left alone. */
module Settling {
  import opened Text
  import opened Backups
  import opened Threads
  import opened Runners
  import opened Clusters
  import opened Controller
  import opened Phases

  // ---------- rescheduling ----------

  /** x is what the schedule's Next returns at t: its least instant strictly after t. */
  ghost predicate NextAfter(schedule: iset<Instant>, t: Instant, x: Instant) {
    x in schedule && t < x && forall y :: y in schedule && t < y ==> x <= y
  }

  /** No instant of the schedule lies after the clock and before a pending backup. */
  ghost predicate FromSchedule(list: BackupList, schedule: iset<Instant>, clock: Instant) {
    forall b :: b in list && b.state.Pending? ==>
      b.scheduledFor in schedule && forall y :: y in schedule && clock < y ==> b.scheduledFor <= y
  }

  lemma FromScheduleKept(list: BackupList, threads: ThreadMap, runners: seq<Runner>, owner: Owner, env: Env,
                         clock: Instant, d: nat, schedule: iset<Instant>)
    requires Consistent(list, clock, d) && clock <= env.now && Sane(env, d) && HandlesBelow(threads, |runners|)
    requires FromSchedule(list, schedule, clock)
    requires env.next.Some? ==> NextAfter(schedule, env.now, env.next.value)
    ensures FromSchedule(Reconcile(list, threads, runners, owner, env).list, schedule, env.now)
  {
    var l := RunPending(list, owner, env.shards, env);
    var m := ReconcileMap(threads, owner.Prefix(), ThreadsFor(l.jobs, |runners|), env.expired);
    RunPendingList(list, owner, env.shards, env);
    forall b | b in l.list && b.state.Pending? ensures b in list {
      var i :| 0 <= i < |l.list| && l.list[i] == b;
      assert list[i] in list;
    }
    if m.ok && l.jobs == [] && !l.requeue {
      HandlesStayBelow(threads, owner.Prefix(), env.expired, |runners|);
      ObserveEnds(list, owner, env.shards, m.threads, runners);
      var seen := ObserveAll(list, owner, env.shards, m.threads, runners);
      forall b | b in seen && b.state.Pending? ensures b in list {
        var i :| 0 <= i < |seen| && seen[i] == b;
        assert list[i] in list;
      }
      if env.next.Some? {
        ShardNamesMeaning(env.shards);
        RescheduleConsistent(list, ShardNames(env.shards), env.historyLimit, env.next.value, env.now, d);
      }
    }
  }

  ghost predicate Survives(b: BackupStatus, list: BackupList) {
    exists x :: x in list && x.SameAs(b)
  }

  lemma InPlaceSurvives(list: BackupList, r: BackupList, b: BackupStatus)
    requires |r| == |list| && b in list && forall i :: 0 <= i < |list| ==> r[i].SameAs(list[i])
    ensures Survives(b, r)
  {
    var i :| 0 <= i < |list| && list[i] == b;
    assert r[i] in r && r[i].SameAs(b);
  }

  /** When phase 4 replaces a pending backup of a listed shard. */
  lemma RescheduleDrops(list: BackupList, shards: seq<string>, limit: nat, next: Instant, clock: Instant, d: nat,
                        b: BackupStatus)
    requires Consistent(list, clock, d) && clock <= next && HasDigits(next, d) && Distinct(shards) && limit >= 1
    requires b in list && b.state.Pending? && b.shard in shards
    ensures var r := Reschedule(list, shards, limit, next);
            && (Survives(b, r.list) <==> b.scheduledFor == next)
            && (b.scheduledFor != next ==> r.changed)
  {
    RescheduleConsistent(list, shards, limit, next, clock, d);
    ScheduleAllMeaning(list, shards, next, clock, d);
    var s, r := ScheduleAll(list, shards, next), Reschedule(list, shards, limit, next);
    if b.scheduledFor == next {
      assert b in s.list;
      TrimKeepsActive(s.list, limit, shards, d, b);
      assert b in r.list && b.SameAs(b);
    } else {
      forall x | x in r.list ensures !x.SameAs(b) {
        if x in list && x.SameAs(b) && x != b {
          assert b.Active();
        }
      }
      forall x | x in list && x.shard == b.shard
        ensures !(x.state.Running? || (x.state.Pending? && x.scheduledFor == next))
      {
        assert x != b && x.Active() ==> b.scheduledFor < x.scheduledFor;
      }
      assert !Covered(list, b.shard, next);
    }
  }

  lemma PendingDroppedByPhase(list: BackupList, threads: ThreadMap, runners: seq<Runner>, owner: Owner, env: Env,
                              clock: Instant, d: nat, schedule: iset<Instant>, b: BackupStatus)
    requires Consistent(list, clock, d) && clock <= env.now && Sane(env, d) && HandlesBelow(threads, |runners|)
    requires FromSchedule(list, schedule, clock) && env.historyLimit >= 1
    requires env.next.Some? ==> NextAfter(schedule, env.now, env.next.value)
    requires b in list && b.state.Pending? && ShardNamed(env.shards, b.shard).Some?
    ensures var o := Reconcile(list, threads, runners, owner, env);
            !Survives(b, o.list) <==> o.phase.Scheduled? && b.scheduledFor == env.now
  {
    var l := RunPending(list, owner, env.shards, env);
    if l.jobs == [] && !l.requeue {
      var m := ReconcileMap(threads, owner.Prefix(), [], env.expired).threads;
      NotDueWhenSettled(list, owner, env, b);
      HandlesStayBelow(threads, owner.Prefix(), env.expired, |runners|);
      SettledDropsExactly(list, m, runners, owner, env, d, b);
      assert ThreadsFor([], |runners|) == [];
    } else {
      RunPendingList(list, owner, env.shards, env);
      InPlaceSurvives(list, l.list, b);
      InPlaceSurvives(list, list, b);
    }
  }

  /** The threads phase 3 looks at when phase 2 starts nothing. */
  function AfterStops(threads: ThreadMap, owner: Owner, env: Env, n: nat): (m: ThreadMap)
    requires HandlesBelow(threads, n)
    ensures HandlesBelow(m, n)
  {
    HandlesStayBelow(threads, owner.Prefix(), env.expired, n);
    ReconcileMap(threads, owner.Prefix(), [], env.expired).threads
  }

  /** No entry would be started. */
  ghost predicate Calm(list: BackupList, env: Env) {
    forall b :: b in list ==> !Startable(b, env.shards, env.now)
  }

  /** No due backup, startable or stuck, and no news of a running one. */
  ghost predicate NothingToDo(list: BackupList, threads: ThreadMap, runners: seq<Runner>, owner: Owner, env: Env)
    requires HandlesBelow(threads, |runners|)
  {
    && Calm(list, env) && !AnyStuck(list, env.shards, env.now)
    && ObserveAll(list, owner, env.shards, AfterStops(threads, owner, env, |runners|), runners) == list
  }

  /** With a fixed schedule and room in the history, a reconcile drops a pending backup of a
      monitored shard exactly when it has nothing to do before phase 4, may schedule, and is
      made at the very instant the backup is scheduled for. */
  lemma PendingDroppedExactly(list: BackupList, threads: ThreadMap, runners: seq<Runner>, owner: Owner, env: Env,
                              clock: Instant, d: nat, schedule: iset<Instant>, b: BackupStatus)
    requires Consistent(list, clock, d) && clock <= env.now && Sane(env, d) && HandlesBelow(threads, |runners|)
    requires FromSchedule(list, schedule, clock) && env.historyLimit >= 1
    requires env.next.Some? ==> NextAfter(schedule, env.now, env.next.value)
    requires b in list && b.state.Pending? && ShardNamed(env.shards, b.shard).Some?
    ensures !Survives(b, Reconcile(list, threads, runners, owner, env).list) <==>
              b.scheduledFor == env.now && NothingToDo(list, threads, runners, owner, env) && env.next.Some? &&
                  !env.paused
  {
    PendingDroppedByPhase(list, threads, runners, owner, env, clock, d, schedule, b);
    SettledExactly(list, owner, env);
    var l := RunPending(list, owner, env.shards, env);
    if l.jobs == [] && !l.requeue {
      TurnSettled(Stage(list, threads, runners), owner, env);
      if env.next.Some? && b.scheduledFor == env.now {
        ShardNamesMeaning(env.shards);
        assert ShardNamed(env.shards, b.shard).value in env.shards;
        RescheduleDrops(list, ShardNames(env.shards), env.historyLimit, env.next.value, env.now, d, b);
      }
    }
  }

  lemma SettledExactly(list: BackupList, owner: Owner, env: Env)
    requires NewestFirst(list) && OneActive(list) && Monitored(env.shards)
    ensures var l := RunPending(list, owner, env.shards, env);
            l.jobs == [] && !l.requeue <==> Calm(list, env) && !AnyStuck(list, env.shards, env.now)
  {
    CalmMeansNoJobs(list, owner, env);
    RunPendingStuck(list, owner, env.shards, env);
  }

  /** It does occur: a lone pending backup of a shard without servers, reconciled at its instant. */
  lemma PendingDropped(b: BackupStatus, owner: Owner, env: Env, d: nat, next: Instant)
    requires b.state.Pending? && HasDigits(b.scheduledFor, d) && HasDigits(next, d) && b.scheduledFor < next
    requires env.now == b.scheduledFor && env.shards == [Shard(b.shard, [])] && env.historyLimit >= 1
    requires !env.paused && env.next == Some(next)
    ensures !Survives(b, Reconcile([b], map[], [], owner, env).list)
  {
    assert env.shards[0] in env.shards && env.shards[0].name == b.shard;
    assert ShardNamed(env.shards, b.shard).Some?;
    assert NewestFirst([b]) && OneActive([b]);
    var m := AfterStops(map[], owner, env, 0);
    assert ObserveAll([b], owner, env.shards, m, [])[0] == b;
    assert ObserveAll([b], owner, env.shards, m, []) == [b];
    PendingDroppedExactly([b], map[], [], owner, env, env.now, d, iset{b.scheduledFor, next}, b);
  }

  /** Past phase 2: a pending backup that is not due and is not the next one is for this instant. */
  lemma SettledDropsExactly(list: BackupList, m: ThreadMap, runners: seq<Runner>, owner: Owner, env: Env, d: nat,
                            b: BackupStatus)
    requires Consistent(list, env.now, d) && Sane(env, d) && HandlesBelow(m, |runners|) && env.historyLimit >= 1
    requires b in list && b.state.Pending? && ShardNamed(env.shards, b.shard).Some? && env.now <= b.scheduledFor
    requires env.next.Some? && env.now < b.scheduledFor ==> b.scheduledFor == env.next.value
    ensures var o := Settle(list, m, runners, owner, env);
            !Survives(b, o.list) <==> o.phase.Scheduled? && b.scheduledFor == env.now
  {
    ObserveEnds(list, owner, env.shards, m, runners);
    InPlaceSurvives(list, ObserveAll(list, owner, env.shards, m, runners), b);
    InPlaceSurvives(list, list, b);
    if env.next.Some? {
      ShardNamesMeaning(env.shards);
      assert ShardNamed(env.shards, b.shard).value in env.shards;
      RescheduleDrops(list, ShardNames(env.shards), env.historyLimit, env.next.value, env.now, d, b);
    }
  }

  /** Past phase 2 no monitored shard has a due backup. */
  lemma NotDueWhenSettled(list: BackupList, owner: Owner, env: Env, b: BackupStatus)
    requires NewestFirst(list) && OneActive(list) && Monitored(env.shards)
    requires var l := RunPending(list, owner, env.shards, env); l.jobs == [] && !l.requeue
    requires b in list && ShardNamed(env.shards, b.shard).Some?
    ensures !Due(b, env.now)
  {
    RunPendingJobs(list, owner, env.shards, env);
    RunPendingStuck(list, owner, env.shards, env);
    if Startable(b, env.shards, env.now) {
      assert IsLaunchJob(LaunchJob(b, owner, env.shards, env), list, owner, env.shards, env);
    }
    assert !Stuck(b, env.shards, env.now);
  }

  // ---------- repeated reconciles in a frozen world ----------

  /** Every thread in the map runs. */
  ghost predicate AllRunning(threads: ThreadMap) {
    forall k :: k in threads ==> threads[k].started && !threads[k].startFails
  }

  /** A runner that was made: started if the manager took it. */
  function Made(job: Job, handle: nat, threads: ThreadMap): Runner {
    if job.key in threads && threads[job.key].handle == handle then Launched(job) else Created(job)
  }

  function MadeAll(jobs: seq<Job>, base: nat, threads: ThreadMap): (r: seq<Runner>)
    ensures |r| == |jobs| && forall i :: 0 <= i < |jobs| ==> r[i] == Made(jobs[i], base + i, threads)
  {
    seq(|jobs|, i requires 0 <= i < |jobs| => Made(jobs[i], base + i, threads))
  }

  /** The persisted list, the thread map and the runner objects. */
  datatype Stage = Stage(list: BackupList, threads: ThreadMap, runners: seq<Runner>)

  ghost predicate StageOk(s: Stage, clock: Instant, d: nat) {
    Consistent(s.list, clock, d) && HandlesBelow(s.threads, |s.runners|) && AllRunning(s.threads)
  }

  function Turn(s: Stage, owner: Owner, env: Env): Outcome
    requires HandlesBelow(s.threads, |s.runners|)
  {
    Reconcile(s.list, s.threads, s.runners, owner, env)
  }

  /** The stage after a reconcile whose status update, if any, is accepted. */
  function After(s: Stage, owner: Owner, env: Env): Stage
    requires HandlesBelow(s.threads, |s.runners|)
  {
    var o := Turn(s, owner, env);
    Stage(if o.phase.Writes() then o.list else s.list, o.threads, s.runners + MadeAll(o.jobs, |s.runners|, o.threads))
  }

  /** With threads that start, starting them succeeds, and the map stays in order. */
  lemma {:induction false} RunAllOk(threads: ThreadMap, prefix: string, wanted: seq<Thread>)
    requires AllRunning(threads) && forall t :: t in wanted ==> !t.startFails
    ensures RunAll(threads, prefix, wanted).ok && AllRunning(RunAll(threads, prefix, wanted).threads)
    decreases |wanted|
  {
    if wanted != [] {
      RunAllOk(RunOne(threads, prefix + wanted[0].id, wanted[0]).threads, prefix, wanted[1..]);
    }
  }

  lemma {:induction false} RunAllHandles(threads: ThreadMap, prefix: string, wanted: seq<Thread>, n: nat)
    requires HandlesBelow(threads, n) && forall t :: t in wanted ==> t.handle < n
    ensures HandlesBelow(RunAll(threads, prefix, wanted).threads, n)
    decreases |wanted|
  {
    if wanted != [] {
      RunAllHandles(RunOne(threads, prefix + wanted[0].id, wanted[0]).threads, prefix, wanted[1..], n);
    }
  }

  lemma MapStaysOk(threads: ThreadMap, prefix: string, jobs: seq<Job>, base: nat, expired: set<string>)
    requires AllRunning(threads) && HandlesBelow(threads, base)
    ensures var r := ReconcileMap(threads, prefix, ThreadsFor(jobs, base), expired);
            r.ok && AllRunning(r.threads) && HandlesBelow(r.threads, base + |jobs|)
  {
    RunAllOk(threads, prefix, ThreadsFor(jobs, base));
    RunAllHandles(threads, prefix, ThreadsFor(jobs, base), base + |jobs|);
  }

  lemma AfterOk(s: Stage, owner: Owner, env: Env, clock: Instant, d: nat)
    requires StageOk(s, clock, d) && clock <= env.now && Sane(env, d)
    ensures StageOk(After(s, owner, env), env.now, d)
    ensures !Turn(s, owner, env).phase.ThreadError?
  {
    ReconcileConsistent(s.list, s.threads, s.runners, owner, env, clock, d);
    var l := RunPending(s.list, owner, env.shards, env);
    MapStaysOk(s.threads, owner.Prefix(), l.jobs, |s.runners|, env.expired);
  }

  lemma CalmMeansNoJobs(list: BackupList, owner: Owner, env: Env)
    requires NewestFirst(list) && OneActive(list) && Monitored(env.shards)
    ensures RunPending(list, owner, env.shards, env).jobs == [] <==> Calm(list, env)
  {
    RunPendingJobs(list, owner, env.shards, env);
    var jobs := RunPending(list, owner, env.shards, env).jobs;
    if jobs != [] {
      assert jobs[0] in jobs;
    }
    forall b | b in list && Startable(b, env.shards, env.now) ensures jobs != [] {
      assert IsLaunchJob(LaunchJob(b, owner, env.shards, env), list, owner, env.shards, env);
    }
  }

  lemma LaunchLeavesCalm(list: BackupList, owner: Owner, env: Env)
    requires NewestFirst(list) && OneActive(list) && Monitored(env.shards)
    ensures Calm(RunPending(list, owner, env.shards, env).list, env)
  {
    RunPendingList(list, owner, env.shards, env);
    var r := RunPending(list, owner, env.shards, env).list;
    forall b | b in r ensures !Startable(b, env.shards, env.now) {
      var i :| 0 <= i < |r| && r[i] == b;
      assert b == Launch(list[i], env.shards, env.now);
    }
  }

  /** A reconcile that starts backups is not followed by another that does. */
  lemma AfterStarted(s: Stage, owner: Owner, env: Env, clock: Instant, d: nat)
    requires StageOk(s, clock, d) && clock <= env.now && Sane(env, d) && Turn(s, owner, env).phase.Started?
    ensures StageOk(After(s, owner, env), env.now, d) && !Turn(After(s, owner, env), owner, env).phase.Started?
  {
    AfterOk(s, owner, env, clock, d);
    LaunchLeavesCalm(s.list, owner, env);
    assert After(s, owner, env).list == RunPending(s.list, owner, env.shards, env).list;
    CalmNotStarted(After(s, owner, env), owner, env);
  }

  lemma CalmNotStarted(s: Stage, owner: Owner, env: Env)
    requires HandlesBelow(s.threads, |s.runners|) && NewestFirst(s.list) && OneActive(s.list)
    requires Monitored(env.shards) && Calm(s.list, env)
    ensures !Turn(s, owner, env).phase.Started?
  {
    CalmMeansNoJobs(s.list, owner, env);
  }

  /** The same pending backups give the same phase 2, if it starts nothing. */
  lemma SamePendingSettled(list: BackupList, r: BackupList, owner: Owner, env: Env)
    requires NewestFirst(list) && OneActive(list) && NewestFirst(r) && OneActive(r) && Monitored(env.shards)
    requires var l := RunPending(list, owner, env.shards, env); l.jobs == [] && !l.requeue
    requires forall b :: b in r && Due(b, env.now) ==> b in list
    ensures var l := RunPending(r, owner, env.shards, env); l.jobs == [] && !l.requeue && l.list == r
  {
    forall b | b in r ensures !Startable(b, env.shards, env.now) && !Stuck(b, env.shards, env.now) {
      if Due(b, env.now) && ShardNamed(env.shards, b.shard).Some? {
        NotDueWhenSettled(list, owner, env, b);
      }
    }
    CalmMeansNoJobs(r, owner, env);
    RunPendingStuck(r, owner, env.shards, env);
    NoJobsNoChange(r, owner, env.shards, env);
  }

  /** Stopping expired threads twice is stopping them once. */
  lemma StopTwice(threads: ThreadMap, prefix: string, expired: set<string>)
    ensures var m := ReconcileMap(threads, prefix, [], expired);
            m.ok && ReconcileMap(m.threads, prefix, [], expired) == m
  {
    var m := ReconcileMap(threads, prefix, [], expired).threads;
    assert StopExpired(m, prefix, WantedKeys(prefix, []), expired) == m;
  }

  /** What a reconcile past phase 2 comes to. */
  lemma TurnSettled(s: Stage, owner: Owner, env: Env)
    requires HandlesBelow(s.threads, |s.runners|)
    requires var l := RunPending(s.list, owner, env.shards, env); l.jobs == [] && !l.requeue
    ensures var m := ReconcileMap(s.threads, owner.Prefix(), [], env.expired).threads;
            && HandlesBelow(m, |s.runners|)
            && Turn(s, owner, env) == Settle(s.list, m, s.runners, owner, env)
            && After(s, owner, env).threads == m && After(s, owner, env).runners == s.runners
  {
    HandlesStayBelow(s.threads, owner.Prefix(), env.expired, |s.runners|);
    assert ThreadsFor([], |s.runners|) == [];
    var m := ReconcileMap(s.threads, owner.Prefix(), [], env.expired).threads;
    assert s.runners + MadeAll([], |s.runners|, m) == s.runners;
  }

  /** A reconcile that records what it observed is not followed by one that starts or observes. */
  lemma AfterObserved(s: Stage, owner: Owner, env: Env, clock: Instant, d: nat)
    requires StageOk(s, clock, d) && clock <= env.now && Sane(env, d) && Turn(s, owner, env).phase.Observed?
    ensures StageOk(After(s, owner, env), env.now, d)
    ensures var p := Turn(After(s, owner, env), owner, env).phase; !p.Started? && !p.Observed?
  {
    AfterOk(s, owner, env, clock, d);
    TurnSettled(s, owner, env);
    var t := After(s, owner, env);
    ObserveEnds(s.list, owner, env.shards, t.threads, s.runners);
    forall b | b in t.list && b.state.Pending? ensures b in s.list {
      var i :| 0 <= i < |t.list| && t.list[i] == b;
    }
    SamePendingSettled(s.list, t.list, owner, env);
    TurnSettled(t, owner, env);
    StopTwice(s.threads, owner.Prefix(), env.expired);
    ObserveTwice(s.list, owner, env.shards, t.threads, s.runners);
  }

  lemma ObserveTwice(list: BackupList, owner: Owner, shards: seq<Shard>, threads: ThreadMap, runners: seq<Runner>)
    requires HandlesBelow(threads, |runners|)
    ensures var r := ObserveAll(list, owner, shards, threads, runners);
            ObserveAll(r, owner, shards, threads, runners) == r
  {
    var r := ObserveAll(list, owner, shards, threads, runners);
    forall i | 0 <= i < |r| ensures Observe(r[i], owner, shards, threads, runners) == r[i] {
      ObserveEntry(list[i], owner, shards, threads, runners);
    }
  }

  lemma {:induction false} ScheduleNothing(list: BackupList, shards: seq<string>, next: Instant)
    ensures var r := ScheduleAll(list, shards, next); !r.changed ==> r.list == list
  {
    if shards != [] { ScheduleNothing(list, shards[..|shards| - 1], next); }
  }

  /** With room for one entry, rescheduling twice is rescheduling once. */
  lemma RescheduleTwice(list: BackupList, shards: seq<string>, limit: nat, next: Instant, clock: Instant, d: nat)
    requires Consistent(list, clock, d) && clock <= next && HasDigits(next, d) && Distinct(shards) && limit >= 1
    ensures var r := Reschedule(list, shards, limit, next).list;
            Reschedule(r, shards, limit, next) == Schedules(r, false)
  {
    RescheduleConsistent(list, shards, limit, next, clock, d);
    ScheduleAllMeaning(list, shards, next, clock, d);
    var s := ScheduleAll(list, shards, next).list;
    var r := Reschedule(list, shards, limit, next).list;
    forall z | z in shards ensures Covered(r, z, next) {
      var b: BackupStatus;
      if Covered(list, z, next) {
        b :| b in list && b.shard == z && (b.state.Running? || (b.state.Pending? && b.scheduledFor == next));
      } else {
        b := NewBackup(z, next);
      }
      assert AfterSchedule(b, list, shards, next);
      TrimKeepsActive(s, limit, shards, d, b);
      assert b in r;
    }
    ScheduleAllMeaning(r, shards, next, clock, d);
    ScheduleNothing(r, shards, next);
    HistoryLimitIsTrim(r, limit, shards);
    TrimIdempotent(s, limit, shards);
  }

  /** A reconcile that schedules is not followed by one that writes. */
  lemma AfterScheduled(s: Stage, owner: Owner, env: Env, clock: Instant, d: nat)
    requires StageOk(s, clock, d) && clock <= env.now && Sane(env, d) && env.historyLimit >= 1
    requires Turn(s, owner, env).phase.Scheduled?
    ensures StageOk(After(s, owner, env), env.now, d) && !Turn(After(s, owner, env), owner, env).phase.Writes()
  {
    AfterOk(s, owner, env, clock, d);
    TurnSettled(s, owner, env);
    var t := After(s, owner, env);
    var names, next := ShardNames(env.shards), env.next.value;
    ShardNamesMeaning(env.shards);
    RescheduleConsistent(s.list, names, env.historyLimit, next, env.now, d);
    assert t.list == Reschedule(s.list, names, env.historyLimit, next).list;
    SamePendingSettled(s.list, t.list, owner, env);
    TurnSettled(t, owner, env);
    StopTwice(s.threads, owner.Prefix(), env.expired);
    RunningUnobserved(s.list, t.list, owner, env, t.threads, s.runners);
    RescheduleTwice(s.list, names, env.historyLimit, next, env.now, d);
  }

  lemma RunningUnobserved(list: BackupList, r: BackupList, owner: Owner, env: Env, threads: ThreadMap,
                          runners: seq<Runner>)
    requires HandlesBelow(threads, |runners|) && ObserveAll(list, owner, env.shards, threads, runners) == list
    requires forall b :: b in r && b.state.Running? ==> b in list
    ensures ObserveAll(r, owner, env.shards, threads, runners) == r
  {
    forall i | 0 <= i < |r| ensures Observe(r[i], owner, env.shards, threads, runners) == r[i] {
      ObserveEntry(r[i], owner, env.shards, threads, runners);
      if r[i].state.Running? {
        assert r[i] in r;
        var j :| 0 <= j < |list| && list[j] == r[i];
      }
    }
  }

  /** A reconcile that writes nothing is followed by one that writes nothing. */
  lemma AfterQuiet(s: Stage, owner: Owner, env: Env, clock: Instant, d: nat)
    requires StageOk(s, clock, d) && clock <= env.now && Sane(env, d) && !Turn(s, owner, env).phase.Writes()
    ensures StageOk(After(s, owner, env), env.now, d) && !Turn(After(s, owner, env), owner, env).phase.Writes()
    ensures After(s, owner, env).list == s.list
  {
    AfterOk(s, owner, env, clock, d);
    var l := RunPending(s.list, owner, env.shards, env);
    StopTwice(s.threads, owner.Prefix(), env.expired);
    if !l.requeue {
      TurnSettled(s, owner, env);
      TurnSettled(After(s, owner, env), owner, env);
    }
  }

  /** Reconcile after reconcile with nothing else happening. */
  ghost predicate FrozenRun(stages: seq<Stage>, owner: Owner, env: Env) {
    && stages != []
    && (forall i :: 0 <= i < |stages| ==> HandlesBelow(stages[i].threads, |stages[i].runners|))
    && (forall i, j :: 0 <= i && j == i + 1 < |stages| ==> stages[j] == After(stages[i], owner, env))
  }

  function PhaseRank(p: Phase): nat {
    match p case Started => 0 case Observed => 1 case Scheduled => 2 case _ => 3
  }

  /** A reconcile that writes is followed by one of a later phase; one that does not, by another. */
  lemma NextRank(s: Stage, owner: Owner, env: Env, d: nat)
    requires StageOk(s, env.now, d) && Sane(env, d) && env.historyLimit >= 1
    ensures var t := After(s, owner, env);
            var p, q := Turn(s, owner, env).phase, PhaseRank(Turn(s, owner, env).phase);
            && StageOk(t, env.now, d)
            && (q < 3 ==> PhaseRank(Turn(t, owner, env).phase) > q)
            && (q == 3 ==> PhaseRank(Turn(t, owner, env).phase) == 3 && t.list == s.list)
  {
    match Turn(s, owner, env).phase
    case Started => AfterStarted(s, owner, env, env.now, d);
    case Observed => AfterObserved(s, owner, env, env.now, d);
    case Scheduled => AfterScheduled(s, owner, env, env.now, d);
    case _ => AfterQuiet(s, owner, env, env.now, d);
  }

  lemma {:induction false} FrozenOk(stages: seq<Stage>, owner: Owner, env: Env, d: nat, n: nat)
    requires FrozenRun(stages, owner, env) && n < |stages| && StageOk(stages[0], env.now, d) && Sane(env, d)
    ensures StageOk(stages[n], env.now, d)
  {
    if n > 0 {
      FrozenOk(stages, owner, env, d, n - 1);
      AfterOk(stages[n - 1], owner, env, env.now, d);
    }
  }

  function RankAt(s: Stage, owner: Owner, env: Env): nat {
    if HandlesBelow(s.threads, |s.runners|) then PhaseRank(Turn(s, owner, env).phase) else 0
  }

  lemma RankStep(stages: seq<Stage>, owner: Owner, env: Env, d: nat, i: nat, j: nat)
    requires FrozenRun(stages, owner, env) && j == i + 1 < |stages| && StageOk(stages[0], env.now, d)
    requires Sane(env, d) && env.historyLimit >= 1
    ensures if RankAt(stages[i], owner, env) < 3 then RankAt(stages[j], owner, env) > RankAt(stages[i], owner, env)
            else RankAt(stages[j], owner, env) == 3 && stages[j].list == stages[i].list
  {
    FrozenOk(stages, owner, env, d, i);
    NextRank(stages[i], owner, env, d);
  }

  lemma {:induction false} RankAtLeast(stages: seq<Stage>, owner: Owner, env: Env, d: nat, n: nat)
    requires FrozenRun(stages, owner, env) && n < |stages| && StageOk(stages[0], env.now, d)
    requires Sane(env, d) && env.historyLimit >= 1
    ensures RankAt(stages[n], owner, env) >= if n < 3 then n else 3
  {
    if n > 0 {
      RankAtLeast(stages, owner, env, d, n - 1);
      RankStep(stages, owner, env, d, n - 1, n);
    }
  }

  lemma {:induction false} StaysSettled(stages: seq<Stage>, owner: Owner, env: Env, d: nat, n: nat)
    requires FrozenRun(stages, owner, env) && 3 <= n < |stages| && StageOk(stages[0], env.now, d)
    requires Sane(env, d) && env.historyLimit >= 1
    ensures stages[n].list == stages[3].list
  {
    if n > 3 {
      StaysSettled(stages, owner, env, d, n - 1);
      RankAtLeast(stages, owner, env, d, n - 1);
      RankStep(stages, owner, env, d, n - 1, n);
    }
  }

  /** With clock, cluster, spec and runners frozen and every update accepted, at most the first
      three reconciles write the status; from then on it stays as it is. */
  lemma SettlesInThree(stages: seq<Stage>, owner: Owner, env: Env, clock: Instant, d: nat, n: nat)
    requires FrozenRun(stages, owner, env) && StageOk(stages[0], clock, d) && clock <= env.now
    requires Sane(env, d) && env.historyLimit >= 1 && 3 <= n < |stages|
    ensures !Turn(stages[n], owner, env).phase.Writes() && stages[n].list == stages[3].list
  {
    assert StageOk(stages[0], env.now, d);
    RankAtLeast(stages, owner, env, d, n);
    StaysSettled(stages, owner, env, d, n);
  }

  /** The schedule and the history ask for no change of the list. */
  ghost predicate OnPlan(list: BackupList, env: Env) {
    || env.next.None? || env.paused
    || ((forall shard :: shard in env.shards ==> Covered(list, shard.name, env.next.value))
        && Trim(list, env.historyLimit, ShardNames(env.shards)) == list)
  }

  /** Exactly when a reconcile writes nothing: nothing can be started, and either some due backup
      has no slave to run on, which stops all the rest, or there is no news of a running backup
      and nothing to schedule. */
  lemma QuietExactly(s: Stage, owner: Owner, env: Env, clock: Instant, d: nat)
    requires StageOk(s, clock, d) && clock <= env.now && Sane(env, d)
    ensures !Turn(s, owner, env).phase.Writes() <==>
              Calm(s.list, env) && (AnyStuck(s.list, env.shards, env.now)
                || (NothingToDo(s.list, s.threads, s.runners, owner, env) && OnPlan(s.list, env)))
  {
    AfterOk(s, owner, env, clock, d);
    CalmMeansNoJobs(s.list, owner, env);
    SettledExactly(s.list, owner, env);
    var l := RunPending(s.list, owner, env.shards, env);
    if l.jobs == [] && !l.requeue {
      TurnSettled(s, owner, env);
      if env.next.Some? && !env.paused { RescheduleChanges(s.list, env, d); }
    }
  }

  /** How a reconcile ends, in all cases. */
  lemma PhaseExactly(s: Stage, owner: Owner, env: Env, clock: Instant, d: nat)
    requires StageOk(s, clock, d) && clock <= env.now && Sane(env, d)
    ensures var p := Turn(s, owner, env).phase;
            var calm, stuck := Calm(s.list, env), AnyStuck(s.list, env.shards, env.now);
            var idle := NothingToDo(s.list, s.threads, s.runners, owner, env);
            && (p.Started? <==> !calm) && (p.NoSlaves? <==> calm && stuck)
            && (p.Observed? <==> calm && !stuck && !idle)
            && (p.BadSchedule? <==> idle && env.next.None?)
            && (p.Scheduled? <==> idle && !OnPlan(s.list, env))
            && (p.Idle? <==> idle && env.next.Some? && OnPlan(s.list, env))
            && (p.Writes() <==> !calm || (!stuck && (!idle || !OnPlan(s.list, env))))
  {
    AfterOk(s, owner, env, clock, d);
    CalmMeansNoJobs(s.list, owner, env);
    SettledExactly(s.list, owner, env);
    var l := RunPending(s.list, owner, env.shards, env);
    if l.jobs == [] && !l.requeue {
      TurnSettled(s, owner, env);
      if env.next.Some? && !env.paused { RescheduleChanges(s.list, env, d); }
    }
  }

  lemma RescheduleChanges(list: BackupList, env: Env, d: nat)
    requires Consistent(list, env.now, d) && Sane(env, d) && env.next.Some? && !env.paused
    ensures !Reschedule(list, ShardNames(env.shards), env.historyLimit, env.next.value).changed <==> OnPlan(list, env)
  {
    var names, next := ShardNames(env.shards), env.next.value;
    ShardNamesMeaning(env.shards);
    ScheduleAllMeaning(list, names, next, env.now, d);
    RescheduleConsistent(list, names, env.historyLimit, next, env.now, d);
    ScheduleNothing(list, names, next);
  }

  /** With a history limit of zero a reconcile keeps no entry, and it writes nothing only if a
      due backup has no slave, scheduling is off, or there are neither shards nor entries. */
  lemma ZeroLimitRestsExactly(s: Stage, owner: Owner, env: Env, clock: Instant, d: nat)
    requires StageOk(s, clock, d) && clock <= env.now && Sane(env, d) && env.historyLimit == 0
    ensures !Turn(s, owner, env).phase.Writes() <==>
              Calm(s.list, env) && (AnyStuck(s.list, env.shards, env.now)
                || (NothingToDo(s.list, s.threads, s.runners, owner, env)
                    && (env.next.None? || env.paused || (env.shards == [] && s.list == []))))
    ensures Turn(s, owner, env).phase.Scheduled? ==> After(s, owner, env).list == []
    ensures s.list == [] ==> After(s, owner, env).list == []
  {
    QuietExactly(s, owner, env, clock, d);
    TrimToNothing(s.list, ShardNames(env.shards));
    if s.list == [] && env.shards != [] { assert env.shards[0] in env.shards; }
    ZeroLimitKeepsNothing(s, owner, env, clock, d);
  }

  lemma ZeroLimitKeepsNothing(s: Stage, owner: Owner, env: Env, clock: Instant, d: nat)
    requires StageOk(s, clock, d) && clock <= env.now && Sane(env, d) && env.historyLimit == 0
    ensures Turn(s, owner, env).phase.Scheduled? ==> After(s, owner, env).list == []
    ensures s.list == [] ==> After(s, owner, env).list == []
  {
    RunPendingList(s.list, owner, env.shards, env);
    RunPendingJobs(s.list, owner, env.shards, env);
    RunPendingStuck(s.list, owner, env.shards, env);
    var l := RunPending(s.list, owner, env.shards, env);
    if l.jobs != [] { assert l.jobs[0] in l.jobs; }
    if l.jobs == [] && !l.requeue {
      TurnSettled(s, owner, env);
      if env.next.Some? {
        ShardNamesMeaning(env.shards);
        RescheduleConsistent(s.list, ShardNames(env.shards), 0, env.next.value, env.now, d);
        TrimToNothing(ScheduleAll(s.list, ShardNames(env.shards), env.next.value).list, ShardNames(env.shards));
      }
    }
  }

  lemma {:induction false} TrimToNothing(list: BackupList, shards: seq<string>)
    ensures Trim(list, 0, shards) == []
  {
    if list != [] { TrimToNothing(list[..|list| - 1], shards); }
  }
}
