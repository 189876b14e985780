/** The runner of a running backup stays in the thread map. */
module Keeping {
  import opened Text
  import opened Sorting
  import opened Backups
  import opened Threads
  import opened Runners
  import opened Clusters
  import opened Controller
  import opened Phases
  import opened Settling
  import opened World

  function RunnerKey(owner: Owner, shard: string, alias: string, at: Instant): string {
    owner.Prefix() + ID(shard, alias, at)
  }

  /** The runner under which a backup was recorded as running is in the map under the key the
      controller will ask for, unless its time has passed. */
  ghost predicate HasRunner(w: World, b: BackupStatus, key: string) {
    && (b.shard, b.scheduledFor) in w.runnerOf
    && var h := w.runnerOf[(b.shard, b.scheduledFor)];
       && h < |w.runners| && w.runners[h].job.key == key
       && var job := w.runners[h].job;
          (key in w.threads && w.threads[key].handle == h) || w.clock - job.timestamp > 2 * job.timeout
  }

  function KeyOf(c: Setting, b: BackupStatus): string
    requires b.serverAlias.Some?
  {
    RunnerKey(c.me, b.shard, b.serverAlias.value, b.scheduledFor)
  }

  /** Neither a restart nor a clean-up that takes this key. */
  predicate Spares(e: Event, key: string) {
    !e.Restarts? && (e.CleansUp? ==> !Contains(key, e.other.Prefix()))
  }

  /** A clean-up by another resource of the same namespace never takes it, if the id holds no slash. */
  lemma NeighbourSpares(c: Setting, b: BackupStatus, other: Owner)
    requires c.me.Plain() && other.Plain() && c.me.namespace == other.namespace && c.me.name != other.name
    requires b.serverAlias.Some? && '/' !in ID(b.shard, b.serverAlias.value, b.scheduledFor)
    ensures Spares(CleansUp(other), KeyOf(c, b))
  {
    NeighboursApart(c.me, ID(b.shard, b.serverAlias.value, b.scheduledFor), other);
  }

  lemma RunnerKept(w: World, w': World, b: BackupStatus, key: string)
    requires HandlesBelow(w.threads, |w.runners|) && HasRunner(w, b, key)
    requires Carries(w.threads, w.runners, w'.threads, w'.runners) && w.clock <= w'.clock
    requires (b.shard, b.scheduledFor) in w'.runnerOf
    requires w'.runnerOf[(b.shard, b.scheduledFor)] == w.runnerOf[(b.shard, b.scheduledFor)]
    requires key in w.threads && key !in w'.threads ==>
              var job := w.runners[w.threads[key].handle].job;
              w'.clock - job.timestamp > 2 * job.timeout
    ensures HasRunner(w', b, key)
  {
  }

  lemma {:induction false} AssignAbsent(m: map<(string, Instant), nat>, jobs: seq<Job>, threads: ThreadMap,
                                        id: (string, Instant))
    requires forall j :: j in jobs ==> (j.shard, j.scheduledFor) != id
    ensures id in AssignAll(m, jobs, threads) <==> id in m
    ensures id in m ==> AssignAll(m, jobs, threads)[id] == m[id]
  {
    if jobs != [] {
      assert jobs[|jobs| - 1] in jobs;
      AssignAbsent(m, jobs[..|jobs| - 1], threads, id);
    }
  }

  lemma {:induction false} AssignPresent(m: map<(string, Instant), nat>, jobs: seq<Job>, threads: ThreadMap, job: Job)
    requires job in jobs && job.key in threads
    requires forall j :: j in jobs && j.shard == job.shard && j.scheduledFor == job.scheduledFor ==> j == job
    ensures (job.shard, job.scheduledFor) in AssignAll(m, jobs, threads)
    ensures AssignAll(m, jobs, threads)[(job.shard, job.scheduledFor)] == threads[job.key].handle
  {
    var last := jobs[|jobs| - 1];
    assert last in jobs;
    if last != job {
      AssignPresent(m, jobs[..|jobs| - 1], threads, job);
    }
  }

  /** An entry that runs after phase 2 ran before, or is a pending one that was started. */
  lemma RunningOrigin(list: BackupList, owner: Owner, env: Env, b: BackupStatus) returns (a: BackupStatus)
    requires NewestFirst(list) && OneActive(list) && Monitored(env.shards)
    requires b in RunPending(list, owner, env.shards, env).list && b.state.Running?
    ensures a in list && a.SameAs(b) && b == Launch(a, env.shards, env.now)
    ensures a == b || Startable(a, env.shards, env.now)
  {
    RunPendingList(list, owner, env.shards, env);
    var r := RunPending(list, owner, env.shards, env).list;
    var i :| 0 <= i < |r| && r[i] == b;
    a := list[i];
  }

  /** Jobs of one reconcile are told apart by what they back up. */
  lemma JobsUnique(list: BackupList, owner: Owner, env: Env, j: Job, k: Job)
    requires NewestFirst(list) && OneActive(list) && Monitored(env.shards)
    requires j in RunPending(list, owner, env.shards, env).jobs && k in RunPending(list, owner, env.shards, env).jobs
    requires j.shard == k.shard && j.scheduledFor == k.scheduledFor
    ensures j == k
  {
    RunPendingJobs(list, owner, env.shards, env);
    var a :| a in list && Startable(a, env.shards, env.now) && j == LaunchJob(a, owner, env.shards, env);
    var b :| b in list && Startable(b, env.shards, env.now) && k == LaunchJob(b, owner, env.shards, env);
    SameInList(list, a, b);
  }

  /** The runner made for a backup that is started carries the key the controller will ask for. */
  lemma LaunchedJob(c: Setting, list: BackupList, env: Env, a: BackupStatus) returns (job: Job)
    requires NewestFirst(list) && OneActive(list) && Monitored(env.shards) && a in list &&
        Startable(a, env.shards, env.now)
    ensures job in RunPending(list, c.me, env.shards, env).jobs
    ensures job.shard == a.shard && job.scheduledFor == a.scheduledFor && job.key == c.me.Prefix() + job.id
    ensures var b := Launch(a, env.shards, env.now); b.serverAlias.Some? && job.key == KeyOf(c, b)
  {
    RunPendingJobs(list, c.me, env.shards, env);
    job := LaunchJob(a, c.me, env.shards, env);
    assert IsLaunchJob(job, list, c.me, env.shards, env);
  }

  lemma AssignedHandle(c: Setting, w: World, env: Env, o: Outcome, job: Job)
    requires Inv(c, w) && Monitored(env.shards)
    requires o.jobs == RunPending(w.Last(), c.me, env.shards, env).jobs && job in o.jobs &&
        job.key == c.me.Prefix() + job.id
    requires o.threads == ReconcileMap(w.threads, c.me.Prefix(), ThreadsFor(o.jobs, |w.runners|), env.expired).threads
    ensures job.key in o.threads
    ensures var m := AssignAll(w.runnerOf, o.jobs, o.threads);
            (job.shard, job.scheduledFor) in m && m[(job.shard, job.scheduledFor)] == o.threads[job.key].handle
  {
    JobInMap(w, c.me, env, o, job);
    forall j | j in o.jobs && j.shard == job.shard && j.scheduledFor == job.scheduledFor ensures j == job {
      JobsUnique(w.Last(), c.me, env, j, job);
    }
    AssignPresent(w.runnerOf, o.jobs, o.threads, job);
  }

  /** A backup that was just recorded as running has its runner in the map. */
  lemma StartedHasRunner(c: Setting, w: World, env: Env, o: Outcome, w': World, a: BackupStatus)
    requires Inv(c, w) && Monitored(env.shards) && a in w.Last() && Startable(a, env.shards, env.now)
    requires o.jobs == RunPending(w.Last(), c.me, env.shards, env).jobs
    requires o.threads == ReconcileMap(w.threads, c.me.Prefix(), ThreadsFor(o.jobs, |w.runners|), env.expired).threads
    requires w'.threads == o.threads && w'.runnerOf == AssignAll(w.runnerOf, o.jobs, o.threads)
    requires ThreadsValid(w'.threads, w'.runners)
    ensures var b := Launch(a, env.shards, env.now); b.serverAlias.Some? && HasRunner(w', b, KeyOf(c, b))
  {
    var job := LaunchedJob(c, w.Last(), env, a);
    AssignedHandle(c, w, env, o, job);
    assert Launch(a, env.shards, env.now).SameAs(a);
  }

  lemma CommitShape(c: Setting, w: World, env: Env, read: nat, accepted: bool, end: Instant, w': World)
    requires w.versions != [] && ReconcileNext(c, w, env, read, accepted, end, w') && w'.versions != w.versions
    ensures var o := Reconcile(w.Last(), w.threads, w.runners, c.me, env);
            && w'.threads == o.threads
            && w'.runnerOf == if o.phase.Started? then AssignAll(w.runnerOf, o.jobs, o.threads) else w.runnerOf
  {
  }

  lemma JobInMap(w: World, me: Owner, env: Env, o: Outcome, job: Job)
    requires ThreadsValid(w.threads, w.runners) && job in o.jobs && job.key == me.Prefix() + job.id
    requires o.threads == ReconcileMap(w.threads, me.Prefix(), ThreadsFor(o.jobs, |w.runners|), env.expired).threads
    ensures job.key in o.threads
  {
    var wanted := ThreadsFor(o.jobs, |w.runners|);
    var i :| 0 <= i < |o.jobs| && o.jobs[i] == job;
    assert wanted[i] in wanted && me.Prefix() + wanted[i].id == job.key;
    assert job.key in WantedKeys(me.Prefix(), wanted);
    MapStaysOk(w.threads, me.Prefix(), o.jobs, |w.runners|, env.expired);
    ReconcileMeaning(w.threads, me.Prefix(), wanted, env.expired);
  }

  lemma NoJobForRunning(list: BackupList, owner: Owner, env: Env, b: BackupStatus, j: Job)
    requires NewestFirst(list) && OneActive(list) && Monitored(env.shards)
    requires b in list && b.state.Running? && j in RunPending(list, owner, env.shards, env).jobs
    ensures (j.shard, j.scheduledFor) != (b.shard, b.scheduledFor)
  {
    RunPendingJobs(list, owner, env.shards, env);
    var a :| a in list && Startable(a, env.shards, env.now) && j == LaunchJob(a, owner, env.shards, env);
    if a.SameAs(b) { SameInList(list, a, b); }
  }

  lemma AssignKeepsRunning(list: BackupList, owner: Owner, env: Env, m: map<(string, Instant), nat>, jobs: seq<Job>,
                           threads: ThreadMap, b: BackupStatus)
    requires NewestFirst(list) && OneActive(list) && Monitored(env.shards)
    requires b in list && b.state.Running? && jobs == RunPending(list, owner, env.shards, env).jobs
    requires (b.shard, b.scheduledFor) in m
    ensures (b.shard, b.scheduledFor) in AssignAll(m, jobs, threads)
    ensures AssignAll(m, jobs, threads)[(b.shard, b.scheduledFor)] == m[(b.shard, b.scheduledFor)]
  {
    forall j | j in jobs ensures (j.shard, j.scheduledFor) != (b.shard, b.scheduledFor) {
      NoJobForRunning(list, owner, env, b, j);
    }
    AssignAbsent(m, jobs, threads, (b.shard, b.scheduledFor));
  }

  lemma RunnerOfKept(c: Setting, w: World, env: Env, read: nat, accepted: bool, end: Instant, w': World,
                     b: BackupStatus)
    requires Inv(c, w) && ReconcileNext(c, w, env, read, accepted, end, w') && w'.versions != w.versions
    requires b in w.Last() && b.state.Running? && (b.shard, b.scheduledFor) in w.runnerOf
    ensures (b.shard, b.scheduledFor) in w'.runnerOf
    ensures w'.runnerOf[(b.shard, b.scheduledFor)] == w.runnerOf[(b.shard, b.scheduledFor)]
  {
    var o := Reconcile(w.Last(), w.threads, w.runners, c.me, env);
    OutcomeThreads(w.Last(), w.threads, w.runners, c.me, env);
    CommitShape(c, w, env, read, accepted, end, w');
    AssignKeepsRunning(w.Last(), c.me, env, w.runnerOf, o.jobs, o.threads, b);
  }

  /** A backup that ran before a reconcile started others still has its runner. */
  lemma KeptThroughStart(c: Setting, w: World, env: Env, read: nat, accepted: bool, end: Instant, w': World,
                         b: BackupStatus)
    requires Inv(c, w) && ReconcileNext(c, w, env, read, accepted, end, w') && w'.versions != w.versions
    requires b in w.Last() && b.state.Running? && b.serverAlias.Some? && HasRunner(w, b, KeyOf(c, b))
    ensures HasRunner(w', b, KeyOf(c, b))
  {
    RunnerOfKept(c, w, env, read, accepted, end, w', b);
    ReconcileThreadsStep(c, w, env, read, accepted, end, w');
    RunnerKept(w, w', b, KeyOf(c, b));
  }

  /** Outside phase 2 no backup starts running. */
  lemma RunningUnlessStarted(list: BackupList, threads: ThreadMap, runners: seq<Runner>, owner: Owner, env: Env,
                             clock: Instant, d: nat, b: BackupStatus)
    requires Consistent(list, clock, d) && clock <= env.now && Sane(env, d) && ThreadsValid(threads, runners)
    requires var o := Reconcile(list, threads, runners, owner, env);
             !o.phase.Started? && b in o.list && b.state.Running?
    ensures b in list
  {
    OutcomeThreads(list, threads, runners, owner, env);
    NoJobsNoChange(list, owner, env.shards, env);
    var l := RunPending(list, owner, env.shards, env);
    if !l.requeue {
      HandlesStayBelow(threads, owner.Prefix(), env.expired, |runners|);
      var m := ReconcileMap(threads, owner.Prefix(), [], env.expired).threads;
      var seen := ObserveAll(list, owner, env.shards, m, runners);
      ObserveEnds(list, owner, env.shards, m, runners);
      if b in seen {
        var i :| 0 <= i < |seen| && seen[i] == b;
      }
      if env.next.Some? {
        ShardNamesMeaning(env.shards);
        RescheduleConsistent(list, ShardNames(env.shards), env.historyLimit, env.next.value, env.now, d);
      }
    }
  }

  /** A backup that a reconcile newly records as running has its runner. */
  lemma RecordedHasRunner(c: Setting, w: World, env: Env, read: nat, accepted: bool, end: Instant, w': World,
                          b: BackupStatus)
    requires Inv(c, w) && ReconcileNext(c, w, env, read, accepted, end, w') && w'.versions != w.versions
    requires b in Reconcile(w.Last(), w.threads, w.runners, c.me, env).list && b !in w.Last()
    requires b.state.Running? && b.serverAlias.Some?
    ensures HasRunner(w', b, KeyOf(c, b))
  {
    var o := Reconcile(w.Last(), w.threads, w.runners, c.me, env);
    if !o.phase.Started? {
      RunningUnlessStarted(w.Last(), w.threads, w.runners, c.me, env, w.clock, c.digits, b);
    }
    var a := RunningOrigin(w.Last(), c.me, env, b);
    OutcomeThreads(w.Last(), w.threads, w.runners, c.me, env);
    CommitShape(c, w, env, read, accepted, end, w');
    ReconcileThreadsStep(c, w, env, read, accepted, end, w');
    StartedHasRunner(c, w, env, o, w', a);
  }

  /** An event that writes no status leaves a recorded runner where it was, or old. */
  lemma RunnersUnwritten(c: Setting, w: World, e: Event, w': World, b: BackupStatus)
    requires Inv(c, w) && Next(c, w, e, w') && w'.versions == w.versions
    requires b in w.Last() && b.state.Running? && b.serverAlias.Some? && Spares(e, KeyOf(c, b))
    requires HasRunner(w, b, KeyOf(c, b))
    ensures HasRunner(w', b, KeyOf(c, b))
  {
    ThreadsStep(c, w, e, w');
    SameRunnerOf(c, w, e, w');
    RunnerKept(w, w', b, KeyOf(c, b));
  }

  lemma SameRunnerOf(c: Setting, w: World, e: Event, w': World)
    requires Next(c, w, e, w') && w'.versions == w.versions
    ensures w'.runnerOf == w.runnerOf
  {
  }

  lemma RunnerStep(c: Setting, w: World, e: Event, w': World, b: BackupStatus)
    requires Inv(c, w) && Next(c, w, e, w') && w'.versions != [] && b in w'.Last()
    requires b.state.Running? && b.serverAlias.Some? && Spares(e, KeyOf(c, b))
    requires b in w.Last() ==> HasRunner(w, b, KeyOf(c, b))
    ensures HasRunner(w', b, KeyOf(c, b))
  {
    if w'.versions == w.versions {
      RunnersUnwritten(c, w, e, w', b);
    } else {
      VersionsGrow(c, w, e, w');
      if b in w.Last() {
        KeptThroughStart(c, w, e.env, e.read, e.accepted, e.end, w', b);
      } else {
        RecordedHasRunner(c, w, e.env, e.read, e.accepted, e.end, w', b);
      }
    }
  }

  /** The i-th world is the first of a stretch up to the n-th in which the list holds this entry. */
  ghost predicate ListedSince(ws: seq<World>, i: nat, n: nat, b: BackupStatus) {
    && 1 <= i <= n < |ws| && (forall m :: 0 <= m < |ws| ==> ws[m].versions != [])
    && b !in ws[i - 1].Last() && forall m :: i <= m <= n ==> b in ws[m].Last()
  }

  lemma VersionsNeverEmpty(c: Setting, ws: seq<World>, es: seq<Event>)
    requires IsTrace(c, ws, es)
    ensures forall m :: 0 <= m < |ws| ==> ws[m].versions != []
  {
    forall m | 0 <= m < |ws| ensures ws[m].versions != [] { AlwaysConsistent(c, ws, es, m); }
  }

  /** Every entry was listed at some point. */
  lemma {:induction false} FindSince(c: Setting, ws: seq<World>, es: seq<Event>, n: nat, b: BackupStatus)
    returns (i: nat)
    requires IsTrace(c, ws, es) && n < |ws| && ws[n].versions != [] && b in ws[n].Last()
    ensures ListedSince(ws, i, n, b)
  {
    VersionsNeverEmpty(c, ws, es);
    if n > 0 && b in ws[n - 1].Last() {
      i := FindSince(c, ws, es, n - 1, b);
    } else {
      i := n;
    }
  }

  /** In every run, from the step at which a backup is recorded as running, and whatever happened
      before: the runner it was recorded under stays in the map under its key, unless a restart or a
      clean-up takes the key, or until the runner is more than two timeouts old. */
  lemma {:induction false} RunnerStays(c: Setting, ws: seq<World>, es: seq<Event>, i: nat, n: nat, b: BackupStatus)
    requires IsTrace(c, ws, es) && ListedSince(ws, i, n, b) && b.state.Running? && b.serverAlias.Some?
    requires forall m :: i <= m < n ==> Spares(es[m], KeyOf(c, b))
    ensures HasRunner(ws[n], b, KeyOf(c, b))
    decreases n
  {
    AlwaysConsistent(c, ws, es, n - 1);
    assert Next(c, ws[n - 1], es[n - 1], ws[n]);
    if i < n {
      RunnerStays(c, ws, es, i, n - 1, b);
    } else {
      VersionsGrow(c, ws[n - 1], es[n - 1], ws[n]);
    }
    RunnerStep(c, ws[n - 1], es[n - 1], ws[n], b);
  }

  /** No runner is made for this key by the event. */
  ghost predicate MakesNone(w: World, w': World, key: string) {
    forall h :: |w.runners| <= h < |w'.runners| ==> w'.runners[h].job.key != key
  }

  /** A key that is gone comes back only with a new runner. */
  lemma {:induction false} GoneStaysGone(c: Setting, ws: seq<World>, es: seq<Event>, i: nat, j: nat, key: string)
    requires IsTrace(c, ws, es) && i <= j < |ws| && key !in ws[i].threads
    requires forall m :: i <= m < j ==> MakesNone(ws[m], ws[m + 1], key)
    ensures key !in ws[j].threads
    decreases j
  {
    if i < j {
      GoneStaysGone(c, ws, es, i, j - 1, key);
      AlwaysConsistent(c, ws, es, j - 1);
      ThreadsStep(c, ws[j - 1], es[j - 1], ws[j]);
      assert MakesNone(ws[j - 1], ws[j - 1 + 1], key);
    }
  }

  /** A clean-up takes every key that holds the prefix of its owner, such as all of that owner, and no
      other; and none of them returns until a runner is made for it. */
  lemma CleanUpTakesAll(c: Setting, ws: seq<World>, es: seq<Event>, n: nat, m: nat, o: Owner, key: string)
    requires IsTrace(c, ws, es) && n < m < |ws| && es[n] == CleansUp(o)
    requires forall i :: n < i < m ==> MakesNone(ws[i], ws[i + 1], key)
    ensures Contains(key, o.Prefix()) ==> key !in ws[m].threads
    ensures o.Prefix() <= key ==> Contains(key, o.Prefix())
    ensures !Contains(key, o.Prefix()) && key in ws[n].threads ==>
              key in ws[n + 1].threads && ws[n + 1].threads[key] == ws[n].threads[key]
  {
    AlwaysStep(c, ws, es, n);
    if Contains(key, o.Prefix()) { GoneStaysGone(c, ws, es, n + 1, m, key); }
  }

  /** A restart empties the map, and the runners of the old process never do anything again. */
  lemma {:induction false} RestartEnds(c: Setting, ws: seq<World>, es: seq<Event>, n: nat, m: nat, h: nat)
    requires IsTrace(c, ws, es) && n < m < |ws| && es[n].Restarts? && h < |ws[n].runners|
    ensures ws[n + 1].threads == map[] && |ws[n].runners| <= ws[m].dead <= |ws[m].runners|
    ensures h < |ws[m].runners| && ws[m].runners[h] == ws[n].runners[h]
    decreases m
  {
    if n < m - 1 {
      RestartEnds(c, ws, es, n, m - 1, h);
      AlwaysStep(c, ws, es, m - 1);
      DeadStay(c, ws[m - 1], es[m - 1], ws[m], h);
    } else {
      AlwaysStep(c, ws, es, n);
      AtRestart(c, ws[n], es[n], ws[m]);
    }
  }

  lemma AtRestart(c: Setting, w: World, e: Event, w': World)
    requires Next(c, w, e, w') && e.Restarts?
    ensures w'.threads == map[] && w'.dead == |w.runners| && w'.runners == w.runners
  {
  }

  lemma DeadStay(c: Setting, w: World, e: Event, w': World, h: nat)
    requires Next(c, w, e, w') && h < w.dead <= |w.runners|
    ensures h < |w'.runners| && w'.runners[h] == w.runners[h] && w.dead <= w'.dead <= |w'.runners|
  {
  }

  /** In every run, a running backup names a read-only slave of its shard, as the cluster was in the
      reconcile that recorded it, by id and by alias, and the instant of that reconcile. */
  lemma RunningNamesServer(c: Setting, ws: seq<World>, es: seq<Event>, i: nat, n: nat, b: BackupStatus)
    returns (shard: Shard, x: Server)
    requires IsTrace(c, ws, es) && ListedSince(ws, i, n, b) && b.state.Running?
    ensures es[i - 1].Reconciles? && shard in es[i - 1].env.shards && shard.name == b.shard
    ensures x in shard.servers && x.ReadOnlySlave()
    ensures b.serverID == Some(x.id) && b.serverAlias == Some(if x.alias == "" then x.id else x.alias)
    ensures b.startedAt == Some(es[i - 1].env.now)
  {
    SinceMeans(ws, i, n, b);
    var m := i - 1;
    AlwaysStep(c, ws, es, m);
    shard, x := NewlyRunning(c, ws[m], es[m], ws[m + 1], b);
  }

  lemma SinceMeans(ws: seq<World>, i: nat, n: nat, b: BackupStatus)
    requires ListedSince(ws, i, n, b)
    ensures 1 <= i < |ws| && ws[i].versions != [] && ws[i - 1].versions != []
    ensures b in ws[i].Last() && b !in ws[i - 1].Last()
  {
  }

  lemma NewlyRunning(c: Setting, w: World, e: Event, w': World, b: BackupStatus) returns (shard: Shard, x: Server)
    requires Inv(c, w) && Next(c, w, e, w') && w'.versions != [] && b in w'.Last() && b !in w.Last() && b.state.Running?
    ensures e.Reconciles? && shard in e.env.shards && shard.name == b.shard && x in shard.servers && x.ReadOnlySlave()
    ensures b.serverID == Some(x.id) && b.serverAlias == Some(if x.alias == "" then x.id else x.alias)
    ensures b.startedAt == Some(e.env.now)
  {
    VersionsGrow(c, w, e, w');
    shard, x := StartedOn(c, w, e.env, b);
  }

  lemma StartedOn(c: Setting, w: World, env: Env, b: BackupStatus) returns (shard: Shard, x: Server)
    requires Inv(c, w) && w.clock <= env.now && Sane(env, c.digits)
    requires b in Reconcile(w.Last(), w.threads, w.runners, c.me, env).list && b !in w.Last() && b.state.Running?
    ensures shard in env.shards && shard.name == b.shard && x in shard.servers && x.ReadOnlySlave()
    ensures b.serverID == Some(x.id) && b.serverAlias == Some(if x.alias == "" then x.id else x.alias)
    ensures b.startedAt == Some(env.now)
  {
    StartedShape(w.Last(), w.threads, w.runners, c.me, env);
    if !Reconcile(w.Last(), w.threads, w.runners, c.me, env).phase.Started? {
      RunningUnlessStarted(w.Last(), w.threads, w.runners, c.me, env, w.clock, c.digits, b);
    }
    var a := RunningOrigin(w.Last(), c.me, env, b);
    shard := ShardNamed(env.shards, a.shard).value;
    x := SlavesRO(shard.servers)[0];
    ReadOnlySlavesElements(shard.servers);
    SortElements(ByID, ReadOnlySlaves(shard.servers));
    assert x in SlavesRO(shard.servers);
  }

  lemma StartedShape(list: BackupList, threads: ThreadMap, runners: seq<Runner>, owner: Owner, env: Env)
    requires HandlesBelow(threads, |runners|)
    ensures var o := Reconcile(list, threads, runners, owner, env);
            o.phase.Started? ==> o.list == RunPending(list, owner, env.shards, env).list
  {
  }
}
