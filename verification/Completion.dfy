/** A backup that is recorded as completed was saved, uploaded and checked, over every run. */
module Completion {
  import opened Text
  import opened Backups
  import opened Threads
  import opened Runners
  import opened Clusters
  import opened Controller
  import opened Phases
  import opened Settling
  import opened World
  import opened Keeping
  import opened Recording
  import Retentions

  /** The entry shows file, size and finish time of this status. */
  predicate Shows(b: BackupStatus, status: RunnerStatus) {
    b.backupFile == Some(status.backupFile) && b.backupSize == Some(status.backupSize) &&
        b.finishedAt == Some(status.finishedAt)
  }

  /** This runner, under a key for this backup, saved, uploaded and checked.  If `whole`, the
      entry also shows what the runner announced for good; else the file may be missing. */
  ghost predicate BackedBy(w: World, owner: Owner, b: BackupStatus, h: nat, alias: string, whole: bool) {
    && h < |w.runners| && w.runners[h].job.key == RunnerKey(owner, b.shard, alias, b.scheduledFor)
    && AllDone(w.runners[h].seen)
    && (b.backupFile == Some(w.runners[h].job.destination) || (!whole && b.backupFile == Some("")))
    && (whole ==>
          && Announced(w.runners[h].listener) && w.runners[h].listener.cause.Success?
          && Shows(b, w.runners[h].status))
  }

  ghost predicate Backed(w: World, owner: Owner, b: BackupStatus, whole: bool) {
    exists h: nat, alias :: BackedBy(w, owner, b, h, alias, whole)
  }

  /** Every entry for the backup b that was ever recorded as completed is backed. */
  ghost predicate CompletedBacked(c: Setting, w: World, b: BackupStatus, whole: bool) {
    forall i, a :: 0 <= i < |w.versions| && a in w.versions[i] && a.SameAs(b) && a.state.Completed? ==>
      Backed(w, c.me, a, whole)
  }

  /** A status read between the write of `Finished` and the write of the error is not clean; nor
      is, if `whole`, one read before all that goes with a success is written. */
  predicate ReadsClean(r: Runner, whole: bool) {
    !Torn(r) && (whole && r.status.finished ==> Announced(r.listener))
  }

  /** A reconcile of the last list that reads the status of the runner of b reads it clean. */
  ghost predicate CleanRead(c: Setting, w: World, e: Event, b: BackupStatus, whole: bool) {
    e.Reconciles? && w.versions != [] ==>
      forall a :: a in w.Last() && a.SameAs(b) && a.state.Running? && ServerNow(e.env, a).Some? ==>
        var key := KeyNow(c, e.env, a);
        key in w.threads && w.threads[key].handle < |w.runners| ==> ReadsClean(w.runners[w.threads[key].handle], whole)
  }

  lemma BackedStays(w: World, w': World, owner: Owner, b: BackupStatus, whole: bool)
    requires HandlesBelow(w.threads, |w.runners|) && Carries(w.threads, w.runners, w'.threads, w'.runners)
    requires KeepsOutcomes(w.runners, w'.runners) && Backed(w, owner, b, whole)
    ensures Backed(w', owner, b, whole)
  {
    var h: nat, alias :| BackedBy(w, owner, b, h, alias, whole);
    assert BackedBy(w', owner, b, h, alias, whole);
  }

  /** A backup that is observed as completed has a runner that looks complete, and shows its status. */
  lemma ObservedCompleted(c: Setting, a: BackupStatus, env: Env, threads: ThreadMap, runners: seq<Runner>)
    requires HandlesBelow(threads, |runners|) && a.state.Running?
    requires Observe(a, c.me, env.shards, threads, runners).state.Completed?
    ensures ServerNow(env, a).Some?
    ensures var key := KeyNow(c, env, a);
            && key in threads && LooksComplete(runners[threads[key].handle])
            && Shows(Observe(a, c.me, env.shards, threads, runners), runners[threads[key].handle].status)
  {
  }

  /** How a completed backup may come about in one reconcile: a running entry for it is observed. */
  lemma CompletedOrigin(c: Setting, list: BackupList, threads: ThreadMap, runners: seq<Runner>, env: Env,
                        clock: Instant, b: BackupStatus) returns (a: BackupStatus)
    requires Consistent(list, clock, c.digits) && clock <= env.now && Sane(env, c.digits) &&
        ThreadsValid(threads, runners)
    requires b in Reconcile(list, threads, runners, c.me, env).list && b.state.Completed? && b !in list
    ensures a in list && a.SameAs(b) && a.state.Running? && ServerNow(env, a).Some?
    ensures var key := KeyNow(c, env, a);
            && key in threads && LooksComplete(runners[threads[key].handle])
            && Shows(b, runners[threads[key].handle].status)
  {
    OutcomeThreads(list, threads, runners, c.me, env);
    var l := RunPending(list, c.me, env.shards, env);
    RunPendingList(list, c.me, env.shards, env);
    NoJobsNoChange(list, c.me, env.shards, env);
    forall x | x in l.list ensures x in list || x.state.Running? {
      var i :| 0 <= i < |l.list| && l.list[i] == x;
      assert list[i] in list && x == Launch(list[i], env.shards, env.now);
    }
    assert l.jobs == [] && !l.requeue;
    TurnSettled(Stage(list, threads, runners), c.me, env);
    var m := ReconcileMap(threads, c.me.Prefix(), [], env.expired).threads;
    var seen := ObserveAll(list, c.me, env.shards, m, runners);
    if env.next.Some? {
      ShardNamesMeaning(env.shards);
      RescheduleConsistent(list, ShardNames(env.shards), env.historyLimit, env.next.value, env.now, c.digits);
    }
    assert b in seen;
    var i :| 0 <= i < |seen| && seen[i] == b;
    a := list[i];
    ObserveEntry(a, c.me, env.shards, m, runners);
    ObservedCompleted(c, a, env, m, runners);
  }

  /** A runner that looks complete to a clean read backs the entry that shows its status. */
  lemma CleanlyBacked(c: Setting, w: World, b: BackupStatus, alias: string, whole: bool)
    requires ThreadsValid(w.threads, w.runners)
    requires var key := RunnerKey(c.me, b.shard, alias, b.scheduledFor);
             && key in w.threads && LooksComplete(w.runners[w.threads[key].handle])
             && ReadsClean(w.runners[w.threads[key].handle], whole)
             && Shows(b, w.runners[w.threads[key].handle].status)
    ensures Backed(w, c.me, b, whole)
  {
    var h := w.threads[RunnerKey(c.me, b.shard, alias, b.scheduledFor)].handle;
    ReadsTrueExactly(w.runners[h]);
    assert BackedBy(w, c.me, b, h, alias, whole);
  }

  /** An entry that an event newly records as completed is backed already before it. */
  lemma NewlyCompleted(c: Setting, w: World, e: Event, w': World, a: BackupStatus, whole: bool)
    requires Inv(c, w) && Next(c, w, e, w') && w'.versions != w.versions && CleanRead(c, w, e, a, whole)
    requires a in w'.Last() && a !in w.Last() && a.state.Completed?
    ensures Backed(w, c.me, a, whole)
  {
    VersionsGrow(c, w, e, w');
    var o := CompletedOrigin(c, w.Last(), w.threads, w.runners, e.env, w.clock, a);
    assert KeyNow(c, e.env, o) == RunnerKey(c.me, a.shard, ServerNow(e.env, o).value.GetAlias(), a.scheduledFor);
    CleanlyBacked(c, w, a, ServerNow(e.env, o).value.GetAlias(), whole);
  }

  lemma CleanForSame(c: Setting, w: World, e: Event, a: BackupStatus, b: BackupStatus, whole: bool)
    requires CleanRead(c, w, e, b, whole) && a.SameAs(b)
    ensures CleanRead(c, w, e, a, whole)
  {
  }

  lemma CompletedStep(c: Setting, w: World, e: Event, w': World, b: BackupStatus, whole: bool)
    requires Inv(c, w) && CompletedBacked(c, w, b, whole) && Next(c, w, e, w') && CleanRead(c, w, e, b, whole)
    ensures CompletedBacked(c, w', b, whole)
  {
    ThreadsStep(c, w, e, w');
    OutcomesStep(c, w, e, w');
    forall i, a | 0 <= i < |w'.versions| && a in w'.versions[i] && a.SameAs(b) && a.state.Completed?
      ensures Backed(w', c.me, a, whole)
    {
      if i < |w.versions| {
        assert w'.versions[i] == w.versions[i];
      } else {
        VersionsGrow(c, w, e, w');
        if a !in w.Last() {
          CleanForSame(c, w, e, a, b, whole);
          NewlyCompleted(c, w, e, w', a, whole);
        }
      }
      BackedStays(w, w', c.me, a, whole);
    }
  }

  lemma {:induction false} AlwaysBacked(c: Setting, ws: seq<World>, es: seq<Event>, n: nat, b: BackupStatus,
                                        whole: bool)
    requires IsTrace(c, ws, es) && n < |ws| && forall i :: 0 <= i < n ==> CleanRead(c, ws[i], es[i], b, whole)
    ensures CompletedBacked(c, ws[n], b, whole)
  {
    if n > 0 {
      AlwaysBacked(c, ws, es, n - 1, b, whole);
      AlwaysConsistent(c, ws, es, n - 1);
      CompletedStep(c, ws[n - 1], es[n - 1], ws[n], b, whole);
    }
  }

  // ---------- and names the backup ----------

  /** Every runner is filed under its own id, and those of this resource back up shards whose
      names hold no dash. */
  ghost predicate JobsNamed(c: Setting, runners: seq<Runner>) {
    forall h :: 0 <= h < |runners| ==>
      var j := runners[h].job;
      && j.WellKeyed() && j.instance.Plain()
      && (j.instance == c.me ==> '-' !in j.shard && j.scheduledFor >= 0)
  }

  /** The names this event brings in are as Kubernetes and the cluster give them. */
  ghost predicate WellNamed(e: Event) {
    && (e.Reconciles? ==> forall s :: s in e.env.shards ==> '-' !in s.name)
    && (e.OtherReconciles? ==> e.other.Plain())
  }

  lemma JobsNamedAppend(c: Setting, runners: seq<Runner>, jobs: seq<Job>, threads: ThreadMap)
    requires JobsNamed(c, runners)
    requires forall j :: j in jobs ==>
        j.WellKeyed() && j.instance.Plain() && (j.instance == c.me ==> '-' !in j.shard && j.scheduledFor >= 0)
    ensures JobsNamed(c, runners + MadeAll(jobs, |runners|, threads))
  {
    var all := runners + MadeAll(jobs, |runners|, threads);
    forall h | |runners| <= h < |all| ensures all[h].job in jobs {
      assert all[h] == Made(jobs[h - |runners|], h, threads);
    }
  }

  lemma OwnJobsNamed(list: BackupList, owner: Owner, env: Env, clock: Instant, d: nat, j: Job)
    requires Consistent(list, clock, d) && Monitored(env.shards) && j in RunPending(list, owner, env.shards, env).jobs
    requires forall s :: s in env.shards ==> '-' !in s.name
    ensures j.WellKeyed() && j.instance == owner && '-' !in j.shard && j.scheduledFor >= 0
  {
    RunPendingJobs(list, owner, env.shards, env);
    JobsOwned(list, owner, env.shards, env);
    var b :| b in list && Startable(b, env.shards, env.now) && j == LaunchJob(b, owner, env.shards, env);
    assert HasDigits(b.scheduledFor, d);
  }

  lemma NamesStep(c: Setting, w: World, e: Event, w': World)
    requires Inv(c, w) && JobsNamed(c, w.runners) && Next(c, w, e, w') && WellNamed(e) && c.me.Plain()
    ensures JobsNamed(c, w'.runners)
  {
    match e
    case Reconciles(env, read, accepted, end) =>
      var o := Reconcile(w.versions[read], w.threads, w.runners, c.me, env);
      OutcomeThreads(w.versions[read], w.threads, w.runners, c.me, env);
      forall j | j in o.jobs ensures j.WellKeyed() && j.instance == c.me && '-' !in j.shard && j.scheduledFor >= 0 {
        OwnJobsNamed(w.versions[read], c.me, env, w.clock, c.digits, j);
      }
      JobsNamedAppend(c, w.runners, o.jobs, o.threads);
    case OtherReconciles(other, jobs, expired, end) =>
      JobsNamedAppend(c, w.runners, jobs, w'.threads);
    case RunnerMoves(handle, m) => StepKeepsJob(w.runners[handle], m);
    case _ =>
  }

  lemma {:induction false} AlwaysNamed(c: Setting, ws: seq<World>, es: seq<Event>, n: nat)
    requires IsTrace(c, ws, es) && n < |ws| && c.me.Plain() && forall i :: 0 <= i < n ==> WellNamed(es[i])
    ensures JobsNamed(c, ws[n].runners)
  {
    if n > 0 {
      AlwaysNamed(c, ws, es, n - 1);
      AlwaysConsistent(c, ws, es, n - 1);
      NamesStep(c, ws[n - 1], es[n - 1], ws[n]);
    }
  }

  /** Keys of different owners differ. */
  lemma KeyNamesOwner(a: Owner, x: string, b: Owner, y: string)
    requires a.Plain() && b.Plain() && a.Prefix() + x == b.Prefix() + y
    ensures a == b && x == y
  {
    assert a.Prefix() + x == a.namespace + "/" + (a.name + "_" + x);
    assert b.Prefix() + y == b.namespace + "/" + (b.name + "_" + y);
    SplitAtFirst(a.namespace, a.name + "_" + x, b.namespace, b.name + "_" + y, '/');
    SplitAtFirst(a.name, x, b.name, y, '_');
  }

  /** A key names what its runner backs up. */
  lemma BackedNames(c: Setting, w: World, b: BackupStatus, h: nat, alias: string, whole: bool)
    requires JobsNamed(c, w.runners) && c.me.Plain() && BackedBy(w, c.me, b, h, alias, whole)
    requires '-' !in b.shard && b.scheduledFor >= 0
    ensures var j := w.runners[h].job; j.instance == c.me && j.shard == b.shard && j.scheduledFor == b.scheduledFor
  {
    var j := w.runners[h].job;
    KeyNamesOwner(j.instance, j.id, c.me, ID(b.shard, alias, b.scheduledFor));
    IDUnambiguous(j.shard, j.alias, j.scheduledFor, b.shard, alias, b.scheduledFor);
  }

  /** In every run in which no status of its runner is read inside the window and shard names hold no
      dash, each backup ever recorded as completed has a runner of its own resource, shard and
      instant that saw LASTSAVE rise above a reading taken before BGSAVE, then uploaded, then
      checked.  The recorded file is where that runner uploaded to, or empty; and if no status
      is read before its event is offered, file, size and finish time are what the runner
      announced for good. */
  lemma CompletedMeansDone(c: Setting, ws: seq<World>, es: seq<Event>, n: nat, v: nat, b: BackupStatus, whole: bool)
    returns (h: nat)
    requires IsTrace(c, ws, es) && n < |ws| && c.me.Plain()
    requires forall i :: 0 <= i < n ==> CleanRead(c, ws[i], es[i], b, whole) && WellNamed(es[i])
    requires v < |ws[n].versions| && b in ws[n].versions[v] && b.state.Completed? && '-' !in b.shard
    ensures h < |ws[n].runners| && AllDone(ws[n].runners[h].seen)
    ensures var j := ws[n].runners[h].job;
            && j.instance == c.me && j.shard == b.shard && j.scheduledFor == b.scheduledFor
            && (b.backupFile == Some(j.destination) || (!whole && b.backupFile == Some("")))
    ensures whole ==>
              && Announced(ws[n].runners[h].listener) && ws[n].runners[h].listener.cause.Success?
              && Shows(b, ws[n].runners[h].status)
  {
    AlwaysBacked(c, ws, es, n, b, whole);
    AlwaysNamed(c, ws, es, n);
    AlwaysConsistent(c, ws, es, n);
    var k: nat, alias :| BackedBy(ws[n], c.me, b, k, alias, whole);
    h := k;
    assert HasDigits(b.scheduledFor, c.digits);
    BackedNames(c, ws[n], b, h, alias, whole);
  }

  // ---------- where it is ----------

  /** The recorded file is the place of the upload: the target and the name the upload goes by. */
  lemma FileIsUpload(owner: Owner, b: BackupStatus, srv: Server, env: Env, s: Retentions.Stamp)
    requires s.InRange() && env.stamp == Retentions.Rfc3339(s)
    ensures JobFor(owner, b, srv, env).destination == env.target + "/" + Retentions.FileCompressed(b.shard, s)
  {
    var file := Retentions.FileCompressed(b.shard, s);
    assert file == "redis-backup_" + b.shard + "_" + env.stamp + ".rdb.gz" by {
      FileParts(b.shard, env.stamp);
    }
    SlashIn(env.target, b.shard, env.stamp);
  }

  lemma FileParts(shard: string, stamp: string)
    ensures "redis-backup" + "_" + shard + "_" + stamp + ".rdb" + ".gz" ==
        "redis-backup_" + shard + "_" + stamp + ".rdb.gz"
  {
    var p := "redis-backup_" + shard + "_" + stamp;
    assert "redis-backup" + "_" == "redis-backup_";
    assert p + ".rdb" + ".gz" == p + (".rdb" + ".gz") == p + ".rdb.gz";
  }

  lemma SlashIn(target: string, shard: string, stamp: string)
    ensures target + "/redis-backup_" + shard + "_" + stamp + ".rdb.gz" ==
            target + "/" + ("redis-backup_" + shard + "_" + stamp + ".rdb.gz")
  {
    var p := target + "/";
    assert target + "/redis-backup_" == p + "redis-backup_";
    assert p + "redis-backup_" + shard == p + ("redis-backup_" + shard);
    assert p + ("redis-backup_" + shard) + "_" == p + ("redis-backup_" + shard + "_");
    assert p + ("redis-backup_" + shard + "_") + stamp == p + ("redis-backup_" + shard + "_" + stamp);
    assert p + ("redis-backup_" + shard + "_" + stamp) + ".rdb.gz" ==
        p + ("redis-backup_" + shard + "_" + stamp + ".rdb.gz");
  }

  /** Runners of one reconcile for different shards upload to different places. */
  lemma FilesApart(owner: Owner, a: BackupStatus, x: Server, b: BackupStatus, y: Server, env: Env)
    requires a.shard != b.shard
    ensures JobFor(owner, a, x, env).destination != JobFor(owner, b, y, env).destination
  {
    var p, q := env.target + "/redis-backup_", "_" + env.stamp + ".rdb.gz";
    var i, j := JobFor(owner, a, x, env).destination, JobFor(owner, b, y, env).destination;
    assert i == p + a.shard + q && j == p + b.shard + q;
    Middle(p, a.shard, q);
    Middle(p, b.shard, q);
  }

  lemma Middle(p: string, x: string, q: string)
    ensures (p + x + q)[|p|..|p + x + q| - |q|] == x
  {
  }
}
