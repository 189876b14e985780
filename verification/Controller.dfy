/** One reconcile of a ShardedRedisBackup resource, phases 2 to 4
    (internal/controller/shardedredisbackup_controller.go). */
module Controller {
  import opened Text
  import opened Backups
  import opened Threads
  import opened Runners
  import opened Clusters

  /** What a reconcile reads besides the status list: the clock, the cluster, the spec, and
      which threads answer that they can be deleted.  `next` is the first instant of the
      schedule after `now`, or None when the schedule does not parse. */
  datatype Env = Env(
    now: Instant,
    shards: seq<Shard>,
    timeout: nat,
    historyLimit: nat,
    paused: bool,
    next: Option<Instant>,
    target: string,
    stamp: string,
    expired: set<string>)

  /** How a reconcile ends.  The first three write the status. */
  datatype Phase = Started | Observed | Scheduled | NoSlaves | BadSchedule | Idle | ThreadError {
    predicate Writes() { Started? || Observed? || Scheduled? }
  }

  datatype Outcome = Outcome(list: BackupList, threads: ThreadMap, jobs: seq<Job>, phase: Phase)

  // ---------- phase 2: run pending backups ----------

  predicate Due(b: BackupStatus, now: Instant) { b.state.Pending? && b.scheduledFor < now }

  function Begin(b: BackupStatus, srv: Server, now: Instant): BackupStatus {
    b.(serverAlias := Some(srv.GetAlias()), serverID := Some(srv.id), startedAt := Some(now),
       message := "backup is running", state := Running)
  }

  function JobFor(owner: Owner, b: BackupStatus, srv: Server, env: Env): Job {
    Job(owner, b.shard, srv.GetAlias(), b.scheduledFor, env.now, env.timeout,
        env.target + "/redis-backup_" + b.shard + "_" + env.stamp + ".rdb.gz",
        ID(b.shard, srv.GetAlias(), b.scheduledFor),
        owner.Prefix() + ID(b.shard, srv.GetAlias(), b.scheduledFor))
  }

  datatype Launches = Launches(list: BackupList, jobs: seq<Job>, requeue: bool)

  function RunShard(r: Launches, owner: Owner, shard: Shard, env: Env): Launches {
    var pos := FindLast(r.list, shard.name, Pending);
    if pos < 0 || !Due(r.list[pos], env.now) then r
    else
      var slaves := SlavesRO(shard.servers);
      if slaves == [] then r.(requeue := true)
      else Launches(r.list[pos := Begin(r.list[pos], slaves[0], env.now)],
                    r.jobs + [JobFor(owner, r.list[pos], slaves[0], env)], r.requeue)
  }

  function RunPending(list: BackupList, owner: Owner, shards: seq<Shard>, env: Env): Launches {
    if shards == [] then Launches(list, [], false)
    else RunShard(RunPending(list, owner, shards[..|shards| - 1], env), owner, shards[|shards| - 1], env)
  }

  lemma RunPendingStep(list: BackupList, owner: Owner, shards: seq<Shard>, env: Env, n: nat)
    requires n < |shards|
    ensures RunPending(list, owner, shards[..n + 1], env) ==
        RunShard(RunPending(list, owner, shards[..n], env), owner, shards[n], env)
  {
    assert shards[..n + 1][..n] == shards[..n];
  }

  /** The runner objects as threads, numbered from `base`. */
  function ThreadsFor(jobs: seq<Job>, base: nat): (ts: seq<Thread>)
    ensures |ts| == |jobs|
    ensures forall i :: 0 <= i < |jobs| ==> ts[i] == Thread(jobs[i].id, base + i, false, false)
  {
    seq(|jobs|, i requires 0 <= i < |jobs| => Thread(jobs[i].id, base + i, false, false))
  }

  // ---------- phase 3: reconcile the status of running backups ----------

  predicate HandlesBelow(threads: ThreadMap, n: nat) {
    forall k :: k in threads ==> threads[k].handle < n
  }

  function Report(b: BackupStatus, status: RunnerStatus): BackupStatus {
    if !status.finished then b
    else if status.error.Some? then b.(state := Failed, message := status.error.value)
    else b.(state := Completed, message := "backup complete", backupFile := Some(status.backupFile),
            backupSize := Some(status.backupSize), finishedAt := Some(status.finishedAt))
  }

  function Observe(b: BackupStatus, owner: Owner, shards: seq<Shard>, threads: ThreadMap,
                   runners: seq<Runner>): BackupStatus
    requires HandlesBelow(threads, |runners|)
  {
    if !b.state.Running? || b.serverID.None? then b
    else
      var srv := LookupServer(shards, b.serverID.value);
      if srv.None? then b.(state := Unknown, message := "server not found in cluster")
      else
        var key := owner.Prefix() + ID(b.shard, srv.value.GetAlias(), b.scheduledFor);
        if key !in threads then b.(state := Unknown, message := "runner not found")
        else Report(b, runners[threads[key].handle].status)
  }

  function ObserveAll(list: BackupList, owner: Owner, shards: seq<Shard>, threads: ThreadMap,
                      runners: seq<Runner>): (r: BackupList)
    requires HandlesBelow(threads, |runners|)
    ensures |r| == |list| && forall i :: 0 <= i < |list| ==> r[i] == Observe(list[i], owner, shards, threads, runners)
  {
    seq(|list|, i requires 0 <= i < |list| => Observe(list[i], owner, shards, threads, runners))
  }

  // ---------- phase 4: schedule backups ----------

  function NewBackup(shard: string, next: Instant): BackupStatus {
    BackupStatus(shard, None, None, next, None, None, "backup scheduled", Pending, None, None)
  }

  datatype Schedules = Schedules(list: BackupList, changed: bool)

  function ScheduleShard(s: Schedules, shard: string, next: Instant): Schedules {
    if FindLast(s.list, shard, Running) >= 0 then s
    else
      var pos := FindLast(s.list, shard, Pending);
      if pos >= 0 && s.list[pos].scheduledFor == next then s
      else
        var rest := if pos >= 0 then Without(s.list, pos) else s.list;
        Schedules(With(rest, NewBackup(shard, next)), true)
  }

  function ScheduleAll(list: BackupList, shards: seq<string>, next: Instant): Schedules {
    if shards == [] then Schedules(list, false)
    else ScheduleShard(ScheduleAll(list, shards[..|shards| - 1], next), shards[|shards| - 1], next)
  }

  function Reschedule(list: BackupList, shards: seq<string>, limit: nat, next: Instant): Schedules {
    var s := ScheduleAll(list, shards, next);
    var trimmed := ApplyLimit(s.list, limit, shards);
    Schedules(trimmed, s.changed || trimmed != s.list)
  }

  // ---------- the reconcile ----------

  function Settle(list: BackupList, threads: ThreadMap, runners: seq<Runner>, owner: Owner, env: Env): Outcome
    requires HandlesBelow(threads, |runners|)
  {
    var seen := ObserveAll(list, owner, env.shards, threads, runners);
    if seen != list then Outcome(seen, threads, [], Observed)
    else if env.next.None? then Outcome(list, threads, [], BadSchedule)
    else if env.paused then Outcome(list, threads, [], Idle)
    else
      var s := Reschedule(list, ShardNames(env.shards), env.historyLimit, env.next.value);
      Outcome(s.list, threads, [], if s.changed then Scheduled else Idle)
  }

  /** The whole reconcile as a function: the list in memory at its end, the thread map, the
      runner objects it made, and how it ended. */
  function Reconcile(list: BackupList, threads: ThreadMap, runners: seq<Runner>, owner: Owner, env: Env): Outcome
    requires HandlesBelow(threads, |runners|)
  {
    var l := RunPending(list, owner, env.shards, env);
    var m := ReconcileMap(threads, owner.Prefix(), ThreadsFor(l.jobs, |runners|), env.expired);
    if !m.ok then Outcome(l.list, m.threads, l.jobs, ThreadError)
    else if l.jobs != [] then Outcome(l.list, m.threads, l.jobs, Started)
    else if l.requeue then Outcome(list, m.threads, [], NoSlaves)
    else
      HandlesStayBelow(threads, owner.Prefix(), env.expired, |runners|);
      Settle(list, m.threads, runners, owner, env)
  }

  lemma HandlesStayBelow(threads: ThreadMap, prefix: string, expired: set<string>, n: nat)
    requires HandlesBelow(threads, n)
    ensures HandlesBelow(ReconcileMap(threads, prefix, [], expired).threads, n)
  {
  }

  lemma {:induction false} NoJobsNoChange(list: BackupList, owner: Owner, shards: seq<Shard>, env: Env)
    ensures var r := RunPending(list, owner, shards, env); r.jobs == [] ==> r.list == list
  {
    if shards != [] { NoJobsNoChange(list, owner, shards[..|shards| - 1], env); }
  }

  /** The first n of these positions already hold the goal, all else is as it was. */
  ghost predicate Replacing(cur: BackupList, was: BackupList, goal: BackupList, positions: seq<nat>, n: nat)
    requires n <= |positions|
  {
    |cur| == |was| == |goal| && forall i :: 0 <= i < |was| ==> cur[i] == if i in positions[..n] then goal[i] else was[i]
  }

  lemma ReplaceOneMore(cur: BackupList, was: BackupList, goal: BackupList, positions: seq<nat>, n: nat)
    requires n < |positions| && Replacing(cur, was, goal, positions, n) && positions[n] < |was|
    requires forall a, b :: 0 <= a < b < |positions| ==> positions[a] < positions[b]
    ensures Replacing(cur[positions[n] := goal[positions[n]]], was, goal, positions, n + 1)
    ensures cur[positions[n]] == was[positions[n]]
    ensures cur[positions[n] := goal[positions[n]]] == was <==> cur == was && goal[positions[n]] == was[positions[n]]
  {
    var pos := positions[n];
    assert pos !in positions[..n];
    assert positions[..n + 1] == positions[..n] + [pos];
    var next := cur[pos := goal[pos]];
    assert next[pos] == goal[pos];
    if next == was {
      assert cur == next[pos := was[pos]] == was;
    }
    if cur == was && goal[pos] == was[pos] {
      assert next == was;
    }
  }

  /** If its threads start, a reconcile starts backups exactly when it makes runners. */
  lemma ReconcileShape(list: BackupList, threads: ThreadMap, runners: seq<Runner>, owner: Owner, env: Env)
    requires HandlesBelow(threads, |runners|)
    ensures var o, l := Reconcile(list, threads, runners, owner, env), RunPending(list, owner, env.shards, env);
            var m := ReconcileMap(threads, owner.Prefix(), ThreadsFor(l.jobs, |runners|), env.expired);
            && o.jobs == l.jobs && o.threads == m.threads
            && (m.ok ==> !o.phase.ThreadError? && (o.phase.Started? <==> l.jobs != []))
  {
  }

  class ShardedRedisBackupReconciler {
    const BackupRunner: Manager

    constructor (manager: Manager)
      ensures BackupRunner == manager
    {
      BackupRunner := manager;
    }

    /** Runs phases 2 to 4 on the status object read from the API.  A running backup must name
        its server, else the controller dereferences nil. */
    method Run(owner: Owner, status: ShardedRedisBackupStatus, runners: seq<Runner>, env: Env)
      returns (jobs: seq<Job>, phase: Phase)
      requires !BackupRunner.locked && HandlesBelow(BackupRunner.threads, |runners|)
      requires Attributed(status.Backups)
      modifies status, BackupRunner
      ensures !BackupRunner.locked
      ensures Outcome(status.Backups, BackupRunner.threads, jobs, phase)
           == Reconcile(old(status.Backups), old(BackupRunner.threads), runners, owner, env)
    {
      ghost var list, threads := status.Backups, BackupRunner.threads;
      var requeue;
      jobs, requeue := RunPendingBackups(owner, status, env);
      NoJobsNoChange(list, owner, env.shards, env);
      var ok := BackupRunner.ReconcileThreads(owner, ThreadsFor(jobs, |runners|), env.expired);
      if !ok {
        return jobs, ThreadError;
      }
      if jobs != [] {
        return jobs, Started;
      }
      if requeue {
        return jobs, NoSlaves;
      }
      HandlesStayBelow(threads, owner.Prefix(), env.expired, |runners|);
      var statusChanged := ObserveRunningBackups(owner, status, runners, env);
      if statusChanged {
        return jobs, Observed;
      }
      if env.next.None? {
        return jobs, BadSchedule;
      }
      if !env.paused {
        var changed := ReconcileBackupList(status, env.next.value, ShardNames(env.shards), env.historyLimit);
        if changed {
          return jobs, Scheduled;
        }
      }
      return jobs, Idle;
    }

    method RunPendingBackups(owner: Owner, status: ShardedRedisBackupStatus, env: Env)
      returns (jobs: seq<Job>, requeue: bool)
      modifies status
      ensures Launches(status.Backups, jobs, requeue) == RunPending(old(status.Backups), owner, env.shards, env)
    {
      jobs, requeue := [], false;
      for n := 0 to |env.shards|
        invariant Launches(status.Backups, jobs, requeue) ==
            RunPending(old(status.Backups), owner, env.shards[..n], env)
      {
        var shard := env.shards[n];
        ghost var before := Launches(status.Backups, jobs, requeue);
        var pos := status.FindLastBackup(shard.name, Pending);
        if pos >= 0 && status.Backups[pos].scheduledFor < env.now {
          var roSlaves := GetSlavesRO(shard);
          if |roSlaves| == 0 {
            requeue := true;
          } else {
            var b := status.Backups[pos];
            jobs := jobs + [JobFor(owner, b, roSlaves[0], env)];
            b := b.(serverAlias := Some(roSlaves[0].GetAlias()));
            b := b.(serverID := Some(roSlaves[0].id));
            b := b.(startedAt := Some(env.now));
            b := b.(message := "backup is running");
            b := b.(state := Running);
            assert b == Begin(status.Backups[pos], roSlaves[0], env.now);
            status.Backups := status.Backups[pos := b];
          }
        }
        assert Launches(status.Backups, jobs, requeue) == RunShard(before, owner, shard, env);
        RunPendingStep(old(status.Backups), owner, env.shards, env, n);
      }
      assert env.shards[..|env.shards|] == env.shards;
    }

    method ObserveRunningBackups(owner: Owner, status: ShardedRedisBackupStatus, runners: seq<Runner>, env: Env)
      returns (statusChanged: bool)
      requires HandlesBelow(BackupRunner.threads, |runners|) && Attributed(status.Backups)
      modifies status
      ensures status.Backups == ObserveAll(old(status.Backups), owner, env.shards, BackupRunner.threads, runners)
      ensures statusChanged <==> status.Backups != old(status.Backups)
    {
      var positions := status.GetRunningBackups();
      statusChanged := false;
      ghost var was := status.Backups;
      ghost var goal := ObserveAll(was, owner, env.shards, BackupRunner.threads, runners);
      for n := 0 to |positions|
        invariant Replacing(status.Backups, was, goal, positions, n)
        invariant statusChanged <==> status.Backups != was
      {
        var pos := positions[n];
        assert pos in positions && was[pos] in was;
        ReplaceOneMore(status.Backups, was, goal, positions, n);
        var b := ObserveBackup(owner, status.Backups[pos], runners, env);
        assert b == goal[pos];
        if b.state != Running {
          status.Backups := status.Backups[pos := b];
          statusChanged := true;
        } else {
          assert status.Backups == status.Backups[pos := b];
        }
      }
      assert positions[..|positions|] == positions;
      forall i | 0 <= i < |was| ensures status.Backups[i] == goal[i] {
        if i !in positions { assert !was[i].state.Running?; }
      }
      assert status.Backups == goal;
    }

    /** The body of the loop of phase 3: what becomes of one running backup. */
    method ObserveBackup(owner: Owner, b: BackupStatus, runners: seq<Runner>, env: Env) returns (r: BackupStatus)
      requires HandlesBelow(BackupRunner.threads, |runners|) && b.state.Running? && b.serverID.Some?
      ensures r == Observe(b, owner, env.shards, BackupRunner.threads, runners)
      ensures r.state.Running? <==> r == b
    {
      r := b;
      var srv := LookupServerByID(env.shards, b.serverID.value);
      if srv.None? {
        return b.(state := Unknown, message := "server not found in cluster");
      }
      var t := BackupRunner.GetThread(ID(b.shard, srv.value.GetAlias(), b.scheduledFor), owner);
      if t.None? {
        return b.(state := Unknown, message := "runner not found");
      }
      var status := runners[t.value.handle].status;
      if status.finished {
        if status.error.Some? {
          r := r.(state := Failed, message := status.error.value);
        } else {
          r := r.(state := Completed, message := "backup complete");
          r := r.(backupFile := Some(status.backupFile), backupSize := Some(status.backupSize));
          r := r.(finishedAt := Some(status.finishedAt));
        }
      }
    }

    method ReconcileBackupList(status: ShardedRedisBackupStatus, next: Instant, shards: seq<string>, limit: nat)
      returns (changed: bool)
      modifies status
      ensures Schedules(status.Backups, changed) == Reschedule(old(status.Backups), shards, limit, next)
    {
      changed := false;
      for n := 0 to |shards|
        invariant Schedules(status.Backups, changed) == ScheduleAll(old(status.Backups), shards[..n], next)
      {
        var shard := shards[n];
        assert shards[..n + 1][..n] == shards[..n];
        var running := status.FindLastBackup(shard, Running);
        if running < 0 {
          var pos := status.FindLastBackup(shard, Pending);
          if pos >= 0 && next == status.Backups[pos].scheduledFor {
            continue;
          }
          if pos >= 0 {
            status.DeleteBackup(pos);
          }
          status.AddBackup(NewBackup(shard, next));
          changed := true;
        }
      }
      assert shards[..|shards|] == shards;
      var trimmed := status.ApplyHistoryLimit(limit, shards);
      if trimmed {
        changed := true;
      }
    }
  }
}
