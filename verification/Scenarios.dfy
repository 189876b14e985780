/** Runs in which the shortcomings occur, built step by step from the initial world. */
module Scenarios {
  import opened Text
  import opened Backups
  import opened Threads
  import opened Runners
  import opened Clusters
  import opened Controller
  import opened Phases
  import opened Settling
  import opened World
  import opened Keeping
  import opened Recording
  import opened Starvation

  // ---------- building runs ----------

  function Last<T>(s: seq<T>): T
    requires s != []
  {
    s[|s| - 1]
  }

  lemma OneMore(c: Setting, ws: seq<World>, es: seq<Event>, e: Event, w': World)
    requires IsTrace(c, ws, es) && Next(c, Last(ws), e, w')
    ensures IsTrace(c, ws + [w'], es + [e])
  {
    var vs, fs := ws + [w'], es + [e];
    forall i, j | 0 <= i && j == i + 1 < |vs| ensures Next(c, vs[i], fs[i], vs[j]) {
      if j < |ws| { assert Next(c, ws[i], es[i], ws[j]); }
    }
  }

  /** The threads that answer that they can be deleted, all at the same instant. */
  function ExpiredAt(w: World, now: Instant): set<string> {
    set k | k in w.threads && w.threads[k].handle < |w.runners| && w.runners[w.threads[k].handle].job.CanBeDeleted(now)
  }

  /** What a reconcile of the last list sees at an instant, if it takes no time. */
  function Sight(w: World, env: Env): Env { env.(expired := ExpiredAt(w, env.now)) }

  function Reconciled(c: Setting, w: World, env: Env, accepted: bool): World
    requires w.versions != [] && HandlesBelow(w.threads, |w.runners|)
  {
    Commit(w, Reconcile(w.Last(), w.threads, w.runners, c.me, env), |w.versions| - 1, accepted, env.now)
  }

  function Reconciling(w: World, env: Env, accepted: bool): Event
    requires w.versions != []
  {
    Reconciles(env, |w.versions| - 1, accepted, env.now)
  }

  lemma ReconciledNext(c: Setting, w: World, env: Env, accepted: bool)
    requires Inv(c, w) && w.clock <= env.now && Sane(env, c.digits) && env.expired == ExpiredAt(w, env.now)
    ensures ReconcileNext(c, w, env, |w.versions| - 1, accepted, env.now, Reconciled(c, w, env, accepted))
  {
  }

  lemma OneReconcile(c: Setting, ws: seq<World>, es: seq<Event>, env: Env, accepted: bool)
    requires IsTrace(c, ws, es) && Last(ws).clock <= env.now && Sane(env, c.digits)
    requires env.expired == ExpiredAt(Last(ws), env.now)
    ensures Inv(c, Last(ws))
    ensures var w := Last(ws);
            IsTrace(c, ws + [Reconciled(c, w, env, accepted)], es + [Reconciling(w, env, accepted)])
  {
    AlwaysConsistent(c, ws, es, |ws| - 1);
    var w := Last(ws);
    ReconciledNext(c, w, env, accepted);
    OneMore(c, ws, es, Reconciling(w, env, accepted), Reconciled(c, w, env, accepted));
  }

  /** The run goes on with one reconcile. */
  ghost predicate GoesOn(ws: seq<World>, es: seq<Event>, ws': seq<World>, es': seq<Event>, shards: seq<Shard>,
                         now: Instant) {
    && ws != [] && |ws'| == |ws| + 1 && |es'| == |es| + 1 && ws <= ws' && es <= es'
    && Last(es').Reconciles? && Last(es').env.shards == shards && Last(es').env.now == now
    && Last(es').accepted && Last(es').read == |Last(ws).versions| - 1
  }

  /** It does so at an instant, for any environment that fits. */
  lemma Goes(c: Setting, ws: seq<World>, es: seq<Event>, env: Env) returns (ws': seq<World>, es': seq<Event>)
    requires IsTrace(c, ws, es) && Last(ws).clock <= env.now && Sane(env, c.digits)
    ensures Inv(c, Last(ws)) && IsTrace(c, ws', es') && GoesOn(ws, es, ws', es', env.shards, env.now)
    ensures Last(ws') == Reconciled(c, Last(ws), Sight(Last(ws), env), true) && Last(ws').clock == env.now
    ensures Last(es').env == Sight(Last(ws), env)
  {
    OneReconcile(c, ws, es, Sight(Last(ws), env), true);
    ws' := ws + [Reconciled(c, Last(ws), Sight(Last(ws), env), true)];
    es' := es + [Reconciling(Last(ws), Sight(Last(ws), env), true)];
  }

  /** A runner takes all these steps, and nothing else happens. */
  lemma {:induction false} AllMoves(c: Setting, ws: seq<World>, es: seq<Event>, h: nat, rs: seq<Runner>, ms: seq<Move>)
    returns (ws': seq<World>, es': seq<Event>)
    requires IsTrace(c, ws, es) && Last(ws).dead <= h < |Last(ws).runners|
    requires Continues(rs, ms) && rs[0] == Last(ws).runners[h]
    ensures IsTrace(c, ws', es') && |es'| == |es| + |ms| && ws <= ws' && es <= es'
    ensures Last(ws') == Last(ws).(runners := Last(ws).runners[h := Last(rs)])
    ensures forall m :: |es| <= m < |es'| ==> es'[m].RunnerMoves?
    decreases |ms|
  {
    if ms == [] {
      ws', es' := ws, es;
    } else {
      RunStep(rs, ms, 0);
      var w := Last(ws);
      var v := w.(runners := w.runners[h := rs[1]]);
      OneMore(c, ws, es, RunnerMoves(h, ms[0]), v);
      TailContinues(rs, ms);
      ws', es' := AllMoves(c, ws + [v], es + [RunnerMoves(h, ms[0])], h, rs[1..], ms[1..]);
      assert es'[|es|] == (es + [RunnerMoves(h, ms[0])])[|es|];
    }
  }

  lemma TailContinues(rs: seq<Runner>, ms: seq<Move>)
    requires Continues(rs, ms) && ms != []
    ensures Continues(rs[1..], ms[1..])
  {
    forall i, j | 0 <= i && j == i + 1 < |rs[1..]| ensures Leads(rs[1..][i], ms[1..][i], rs[1..][j]) {
      assert Leads(rs[i + 1], ms[i + 1], rs[j + 1]);
    }
  }

  /** All goes well with a runner up to the check. */
  lemma WellToCheck(job: Job) returns (rs: seq<Runner>, ms: seq<Move>)
    ensures Continues(rs, ms) && rs[0] == Launched(job)
    ensures Last(rs) == Launched(job).(worker := Checking, seen := Last(rs).seen)
  {
    rs, ms := Extend([Launched(job)], [], LastSaveReply(Ok(1)));
    rs, ms := Extend(rs, ms, BgSaveReply(None));
    rs, ms := Extend(rs, ms, LastSaveReply(Ok(2)));
    rs, ms := Extend(rs, ms, TagsReply(None));
    rs, ms := Extend(rs, ms, UploadReply(None));
  }

  lemma WellToClose(job: Job) returns (rs: seq<Runner>, ms: seq<Move>)
    ensures Continues(rs, ms) && rs[0] == Launched(job)
    ensures Last(rs) == Launched(job).(worker := Closed, seen := Last(rs).seen)
  {
    rs, ms := WellToCheck(job);
    rs, ms := Extend(rs, ms, CheckReply(Ok(None)));
    rs, ms := Extend(rs, ms, SizeWritten);
    rs, ms := Extend(rs, ms, CloseDone);
  }

  /** And it announces its success. */
  lemma AllWell(job: Job) returns (rs: seq<Runner>, ms: seq<Move>)
    ensures Continues(rs, ms) && rs[0] == Launched(job) && Last(rs).job == job
    ensures Announced(Last(rs).listener) && Last(rs).listener.cause.Success?
  {
    rs, ms := WellToClose(job);
    rs, ms := Extend(rs, ms, DoneReceived);
    rs, ms := Extend(rs, ms, OutcomeWritten(0));
    rs, ms := Extend(rs, ms, OutcomeWritten(0));
  }

  // ---------- first steps ----------

  const START := World(0, [[]], map[], [], map[], 0)

  /** Rescheduling an empty list schedules every shard. */
  lemma FirstList(env: Env, d: nat)
    requires Sane(env, d) && env.next.Some? && env.historyLimit >= 1 && env.shards != []
    ensures var s := Reschedule([], ShardNames(env.shards), env.historyLimit, env.next.value);
            && s.changed
            && (forall x :: x in s.list ==> exists z :: z in env.shards && x == NewBackup(z.name, env.next.value))
            && (forall z :: z in env.shards ==> NewBackup(z.name, env.next.value) in s.list)
  {
    var names, next := ShardNames(env.shards), env.next.value;
    ShardNamesMeaning(env.shards);
    ScheduleAllMeaning([], names, next, env.now, d);
    RescheduleConsistent([], names, env.historyLimit, next, env.now, d);
    var all := ScheduleAll([], names, next).list;
    forall s | s in env.shards ensures NewBackup(s.name, next) in Trim(all, env.historyLimit, names) {
      assert AfterSchedule(NewBackup(s.name, next), [], names, next);
      TrimKeepsActive(all, env.historyLimit, names, d, NewBackup(s.name, next));
    }
    assert env.shards[0] in env.shards;
  }

  /** From the empty list the first reconcile schedules every shard. */
  lemma FirstScheduled(owner: Owner, env: Env, d: nat)
    requires Sane(env, d) && env.next.Some? && !env.paused && env.historyLimit >= 1 && env.shards != []
    ensures var o := Reconcile([], map[], [], owner, env);
            && o.phase.Scheduled? && o.jobs == [] && o.threads == map[]
            && o.list == Reschedule([], ShardNames(env.shards), env.historyLimit, env.next.value).list
  {
    SettledExactly([], owner, env);
    TurnSettled(Stage([], map[], []), owner, env);
    FirstList(env, d);
  }

  /** What the manager makes of jobs that are all the same one, whose key is free. */
  lemma OnlyJob(threads: ThreadMap, base: nat, prefix: string, jobs: seq<Job>, after: ThreadMap, job: Job)
    returns (h: nat)
    requires jobs != [] && (forall j :: j in jobs ==> j == job) && job.key == prefix + job.id && job.key !in threads
    requires ReconcileMap(threads, prefix, ThreadsFor(jobs, base), {}) == RunResult(after, true)
    ensures after.Keys == threads.Keys + {job.key} && after[job.key].handle == h && base <= h < base + |jobs|
    ensures MadeAll(jobs, base, after)[h - base] == Launched(job)
    ensures forall i :: 0 <= i < |jobs| ==> MadeAll(jobs, base, after)[i].job == job
  {
    var wanted := ThreadsFor(jobs, base);
    ReconcileMeaning(threads, prefix, wanted, {});
    assert forall i :: 0 <= i < |jobs| ==> jobs[i] in jobs;
    assert WantedKeys(prefix, wanted) == {job.key} by {
      assert wanted[0] in wanted;
      assert forall t :: t in wanted ==> prefix + t.id == job.key;
    }
    NewThreads(threads, base, prefix, jobs, {}, after, job.key);
    h := after[job.key].handle;
    forall i | 0 <= i < |jobs| ensures MadeAll(jobs, base, after)[i].job == job {
      assert MadeAll(jobs, base, after)[i] == Made(jobs[i], base + i, after);
    }
    assert MadeAll(jobs, base, after)[h - base] == Made(job, h, after);
  }

  /** A reconcile has started one runner, and no other. */
  ghost predicate StartedOne(w: World, w': World, h: nat, job: Job) {
    && w'.threads.Keys == w.threads.Keys + {job.key} && w'.threads[job.key].handle == h
    && |w.runners| <= h < |w'.runners| && w'.runners[h] == Launched(job) && w.runners <= w'.runners
    && forall i :: |w.runners| <= i < |w'.runners| ==> w'.runners[i].job == job
  }

  lemma OnlyJobs(list: BackupList, owner: Owner, env: Env, b: BackupStatus)
    requires NewestFirst(list) && OneActive(list) && Monitored(env.shards) && b in list
    requires Startable(b, env.shards, env.now) && forall x :: x in list && Startable(x, env.shards, env.now) ==> x == b
    ensures var jobs := RunPending(list, owner, env.shards, env).jobs;
            jobs != [] && forall j :: j in jobs ==> j == LaunchJob(b, owner, env.shards, env)
  {
    RunPendingJobs(list, owner, env.shards, env);
    assert IsLaunchJob(LaunchJob(b, owner, env.shards, env), list, owner, env.shards, env);
  }

  /** A reconcile that can start one backup, whose key is free, and no other. */
  lemma OneStart(c: Setting, w: World, env: Env, accepted: bool, b: BackupStatus) returns (h: nat, job: Job)
    requires Inv(c, w) && Sane(env, c.digits) && b in w.Last() && env.expired == {}
    requires Startable(b, env.shards, env.now) && LaunchJob(b, c.me, env.shards, env).key !in w.threads
    requires forall x :: x in w.Last() && Startable(x, env.shards, env.now) ==> x == b
    ensures job == LaunchJob(b, c.me, env.shards, env) && !PastPhase2(c, w, env)
    ensures StartedOne(w, Reconciled(c, w, env, accepted), h, job)
    ensures accepted ==>
              Reconciled(c, w, env, true).versions == w.versions + [RunPending(w.Last(), c.me, env.shards, env).list]
    ensures !accepted ==> Reconciled(c, w, env, false).versions == w.versions
  {
    var list, prefix, base := w.Last(), c.me.Prefix(), |w.runners|;
    OnlyJobs(list, c.me, env, b);
    OutcomeThreads(list, w.threads, w.runners, c.me, env);
    var o := Reconcile(list, w.threads, w.runners, c.me, env);
    job := LaunchJob(b, c.me, env.shards, env);
    MapStaysOk(w.threads, prefix, o.jobs, base, env.expired);
    h := OnlyJob(w.threads, base, prefix, o.jobs, o.threads, job);
    StartCommitted(w, o, |w.versions| - 1, accepted, env.now, h, job);
    StartedShape(list, w.threads, w.runners, c.me, env);
  }

  lemma StartCommitted(w: World, o: Outcome, read: nat, accepted: bool, end: Instant, h: nat, job: Job)
    requires w.versions != [] && read == |w.versions| - 1 && o.phase.Started?
    requires o.threads.Keys == w.threads.Keys + {job.key} && o.threads[job.key].handle == h
    requires |w.runners| <= h < |w.runners| + |o.jobs|
    requires MadeAll(o.jobs, |w.runners|, o.threads)[h - |w.runners|] == Launched(job)
    requires forall i :: 0 <= i < |o.jobs| ==> MadeAll(o.jobs, |w.runners|, o.threads)[i].job == job
    ensures var w' := Commit(w, o, read, accepted, end);
            && StartedOne(w, w', h, job)
            && (accepted ==> w'.versions == w.versions + [o.list]) && (!accepted ==> w'.versions == w.versions)
  {
  }

  /** A read-only slave. */
  function Box(id: string, alias: string): Server { Server(id, alias, Slave, map["slave-read-only" := "yes"]) }

  function At(now: Instant, shards: seq<Shard>, timeout: nat, next: Instant): Env {
    Env(now, shards, timeout, 1, false, Some(next), "s3://bucket", "", {})
  }

  lemma OnlySlave(shards: seq<Shard>, name: string, srv: Server)
    requires Monitored(shards) && Shard(name, [srv]) in shards && srv.ReadOnlySlave()
    ensures ServerFor(shards, name) == Some(srv)
  {
    var i :| 0 <= i < |shards| && shards[i] == Shard(name, [srv]);
    var found := ShardNamed(shards, name).value;
    var j :| 0 <= j < |shards| && shards[j] == found;
    assert Names(shards)[i] == Names(shards)[j];
    ChosenSlave([srv], srv);
  }

  lemma NoPendingPasses(c: Setting, w: World, env: Env)
    requires Inv(c, w) && Monitored(env.shards) && forall x :: x in w.Last() ==> !x.state.Pending?
    ensures PastPhase2(c, w, env)
  {
    SettledExactly(w.Last(), c.me, env);
  }

  /** The entries of one list are those of another after phase 2. */
  ghost predicate LaunchedFrom(list: BackupList, r: BackupList, shards: seq<Shard>, now: Instant) {
    && (forall x :: x in list ==> Launch(x, shards, now) in r)
    && (forall y :: y in r ==> exists x :: x in list && y == Launch(x, shards, now))
  }

  lemma AfterPhase2(c: Setting, w: World, env: Env)
    requires Inv(c, w) && Monitored(env.shards)
    ensures LaunchedFrom(w.Last(), RunPending(w.Last(), c.me, env.shards, env).list, env.shards, env.now)
  {
    var r := RunPending(w.Last(), c.me, env.shards, env).list;
    RunPendingList(w.Last(), c.me, env.shards, env);
    forall x | x in w.Last() ensures Launch(x, env.shards, env.now) in r {
      var i :| 0 <= i < |w.Last()| && w.Last()[i] == x;
      assert r[i] in r;
    }
    forall y | y in r ensures exists x :: x in w.Last() && y == Launch(x, env.shards, env.now) {
      var i :| 0 <= i < |r| && r[i] == y;
      assert w.Last()[i] in w.Last();
    }
  }

  /** One reconcile has scheduled a backup for every shard, for instant t. */
  lemma Scheduled(c: Setting, shards: seq<Shard>, timeout: nat, t: Instant) returns (ws: seq<World>, es: seq<Event>)
    requires Monitored(shards) && shards != [] && 0 < t && HasDigits(t, c.digits)
    ensures IsTrace(c, ws, es) && |ws| == 2 && ws[1].clock == 0 && ws[1].dead == 0
    ensures ws[1].threads == map[] && ws[1].runners == [] && |ws[1].versions| == 2
    ensures HoldsFirst(ws[1], shards, t, false)
  {
    var env := At(0, shards, timeout, t);
    FirstScheduled(c.me, env, c.digits);
    FirstList(env, c.digits);
    assert IsTrace(c, [START], []);
    OneReconcile(c, [START], [], env, true);
    ws, es := [START] + [Reconciled(c, START, env, true)], [] + [Reconciling(START, env, true)];
  }

  /** The setting of the scenarios: one shard has a slave, and no other shard has a server. */
  ghost predicate OneHealthy(shards: seq<Shard>, name: string, srv: Server) {
    && Monitored(shards) && Shard(name, [srv]) in shards && srv.ReadOnlySlave()
    && forall s :: s in shards && s.name != name ==> ServerFor(shards, s.name).None?
  }

  /** The instants of the scenarios: t is scheduled first, and `next` much later. */
  ghost predicate Instants(c: Setting, t: Instant, next: Instant) {
    0 < t && t + 1 < next && HasDigits(t, c.digits) && HasDigits(next, c.digits)
  }

  /** What the job of the first start is. */
  ghost predicate FirstJob(c: Setting, job: Job, timeout: nat, t: Instant, name: string, srv: Server) {
    && job.shard == name && job.scheduledFor == t && job.timestamp == t + 1 && job.timeout == timeout
    && job.key == RunnerKey(c.me, name, srv.GetAlias(), t)
  }

  lemma StartsTheOne(c: Setting, w: World, shards: seq<Shard>, timeout: nat, t: Instant, next: Instant, name: string,
                     srv: Server, accepted: bool) returns (h: nat, job: Job)
    requires Inv(c, w) && OneHealthy(shards, name, srv) && Instants(c, t, next)
    requires RunnerKey(c.me, name, srv.GetAlias(), t) !in w.threads && HoldsFirst(w, shards, t, false)
    ensures FirstJob(c, job, timeout, t, name, srv)
    ensures var env := At(t + 1, shards, timeout, next);
            var w' := Reconciled(c, w, env, accepted);
            && StartedOne(w, w', h, job) && !PastPhase2(c, w, env)
            && (accepted ==> w'.versions == w.versions + [RunPending(w.Last(), c.me, shards, env).list])
            && (!accepted ==> w'.versions == w.versions)
  {
    OnlySlave(shards, name, srv);
    var b := NewBackup(name, t);
    var env := At(t + 1, shards, timeout, next);
    assert LaunchJob(b, c.me, shards, env).key == RunnerKey(c.me, name, srv.GetAlias(), t);
    forall x | x in w.Last() && Startable(x, shards, t + 1) ensures x == b {
      var s :| s in shards && x == FirstEntry(s.name, shards, t, false);
    }
    assert FirstEntry(Shard(name, [srv]).name, shards, t, false) in w.Last();
    h, job := OneStart(c, w, env, accepted, b);
  }

  /** The entry of a shard after the first start. */
  function FirstEntry(name: string, shards: seq<Shard>, t: Instant, accepted: bool): BackupStatus {
    if accepted then Launch(NewBackup(name, t), shards, t + 1) else NewBackup(name, t)
  }

  /** The list holds exactly the first entries of all shards. */
  ghost predicate AllFirst(list: BackupList, shards: seq<Shard>, t: Instant, accepted: bool) {
    && (forall x :: x in list ==> exists s :: s in shards && x == FirstEntry(s.name, shards, t, accepted))
    && (forall s :: s in shards ==> FirstEntry(s.name, shards, t, accepted) in list)
  }

  ghost predicate HoldsFirst(w: World, shards: seq<Shard>, t: Instant, accepted: bool) {
    w.versions != [] && AllFirst(w.Last(), shards, t, accepted)
  }

  lemma EntriesLaunched(list: BackupList, r: BackupList, shards: seq<Shard>, t: Instant)
    requires LaunchedFrom(list, r, shards, t + 1) && AllFirst(list, shards, t, false)
    ensures AllFirst(r, shards, t, true)
  {
    forall y | y in r ensures exists s :: s in shards && y == FirstEntry(s.name, shards, t, true) {
      var x :| x in list && y == Launch(x, shards, t + 1);
      var s :| s in shards && x == FirstEntry(s.name, shards, t, false);
      assert y == FirstEntry(s.name, shards, t, true);
    }
    forall s | s in shards ensures FirstEntry(s.name, shards, t, true) in r {
      assert FirstEntry(s.name, shards, t, false) in list;
    }
  }

  lemma FirstEntries(c: Setting, w: World, env: Env, t: Instant, accepted: bool, w': World)
    requires Inv(c, w) && Monitored(env.shards) && HoldsFirst(w, env.shards, t, false) && env.now == t + 1
    requires accepted ==> w'.versions == w.versions + [RunPending(w.Last(), c.me, env.shards, env).list]
    requires !accepted ==> w'.versions == w.versions
    ensures HoldsFirst(w', env.shards, t, accepted)
  {
    if accepted {
      AfterPhase2(c, w, env);
      EntriesLaunched(w.Last(), w'.Last(), env.shards, t);
    }
  }

  /** Every shard is scheduled, and the one with a slave is started a millisecond after its instant. */
  lemma Started(c: Setting, shards: seq<Shard>, timeout: nat, t: Instant, next: Instant, name: string, srv: Server,
                accepted: bool) returns (ws: seq<World>, es: seq<Event>, h: nat, job: Job)
    requires OneHealthy(shards, name, srv) && Instants(c, t, next)
    ensures IsTrace(c, ws, es) && |ws| == 3 && ws[2].clock == t + 1 && ws[2].dead == 0
    ensures FirstJob(c, job, timeout, t, name, srv) && HoldsFirst(ws[2], shards, t, accepted)
    ensures ws[2].threads.Keys == {job.key} && ws[2].threads[job.key].handle == h
    ensures h < |ws[2].runners| && ws[2].runners[h] == Launched(job)
  {
    ws, es := Scheduled(c, shards, timeout, t);
    var env, w1 := At(t + 1, shards, timeout, next), ws[1];
    OneReconcile(c, ws, es, env, accepted);
    h, job := StartsTheOne(c, w1, shards, timeout, t, next, name, srv, accepted);
    var w2 := Reconciled(c, w1, env, accepted);
    FirstEntries(c, w1, env, t, accepted, w2);
    ws, es := ws + [w2], es + [Reconciling(w1, env, accepted)];
  }

  // ---------- a pending backup is dropped ----------

  /** Two reconciles drop a backup that never ran: one that schedules it, and one at the very instant
      it is scheduled for. */
  lemma DropReachable(c: Setting, shard: string, t: Instant, next: Instant) returns (ws: seq<World>, es: seq<Event>)
    requires 0 < t < next && HasDigits(t, c.digits) && HasDigits(next, c.digits)
    ensures IsTrace(c, ws, es) && |ws| == 3 && ws[1].versions != [] && ws[1].Last() == [NewBackup(shard, t)]
    ensures ws[2].versions != [] && !Survives(NewBackup(shard, t), ws[2].Last())
  {
    var shards, b := [Shard(shard, [])], NewBackup(shard, t);
    ws, es := Scheduled(c, shards, 0, t);
    AlwaysConsistent(c, ws, es, 1);
    assert shards[0] in shards && FirstEntry(shard, shards, t, false) == b;
    OnlyElement(ws[1].Last(), b);
    var w, env := ws[1], At(t, shards, 0, next);
    assert Sight(w, env) == env;
    ws, es := Goes(c, ws, es, env);
    DropTurn(c, w, b, env, next);
  }

  lemma DropTurn(c: Setting, w: World, b: BackupStatus, env: Env, next: Instant)
    requires w.versions != [] && w.Last() == [b] && w.threads == map[] && w.runners == []
    requires b.state.Pending? && HasDigits(b.scheduledFor, c.digits) && HasDigits(next, c.digits)
    requires env == At(b.scheduledFor, [Shard(b.shard, [])], 0, next) && b.scheduledFor < next
    ensures Reconciled(c, w, env, true).versions != [] && !Survives(b, Reconciled(c, w, env, true).Last())
  {
    PendingDropped(b, c.me, env, c.digits, next);
    DropWrites(b, c.me, env, c.digits, next);
  }

  lemma OnlyElement(list: BackupList, b: BackupStatus)
    requires NewestFirst(list) && b in list && forall x :: x in list ==> x == b
    ensures list == [b]
  {
    if |list| > 1 {
      assert list[0] in list && list[1] in list;
      OrderedOnce(list, 0, 1);
    }
  }

  lemma DropWrites(b: BackupStatus, owner: Owner, env: Env, d: nat, next: Instant)
    requires b.state.Pending? && HasDigits(b.scheduledFor, d) && HasDigits(next, d) && b.scheduledFor < next
    requires env.now == b.scheduledFor && env.shards == [Shard(b.shard, [])] && env.historyLimit >= 1
    requires env.next == Some(next) && !Survives(b, Reconcile([b], map[], [], owner, env).list)
    ensures Reconcile([b], map[], [], owner, env).phase.Scheduled?
  {
    assert env.shards[0] in env.shards && env.shards[0].name == b.shard;
    assert ShardNamed(env.shards, b.shard).Some? && b in [b];
    assert NewestFirst([b]) && OneActive([b]) && Monitored(env.shards);
    PendingDroppedByPhase([b], map[], [], owner, env, env.now, d, iset{b.scheduledFor, next}, b);
  }

  // ---------- a server gets another alias ----------

  /** A young, running backup is recorded as "runner not found" when its server gets an alias. */
  lemma AliasLosesRunner(c: Setting, timeout: nat, t: Instant, next: Instant)
    returns (ws: seq<World>, es: seq<Event>, b: BackupStatus)
    requires Instants(c, t, next)
    ensures IsTrace(c, ws, es) && |ws| == 4 && es[2].Reconciles? && ws[2].versions != [] && ws[3].versions != []
    ensures b in ws[2].Last() && b.state.Running? && b.serverAlias.Some? && KeyOf(c, b) in ws[2].threads
    ensures ServerNow(es[2].env, b).Some?
    ensures var h := ws[2].threads[KeyOf(c, b)].handle;
            h < |ws[2].runners| && ws[3].clock - ws[2].runners[h].job.timestamp <= 2 * ws[2].runners[h].job.timeout
    ensures NotFound(b) in ws[3].Last()
  {
    var before, after := [Shard("a", [Box("x", "")])], [Shard("a", [Box("x", "pod")])];
    assert before[0] in before && after[0] in after;
    OnlySlave(before, "a", Box("x", ""));
    var h, job;
    ws, es, h, job := Started(c, before, timeout, t, next, "a", Box("x", ""), true);
    b := Begin(NewBackup("a", t), Box("x", ""), t + 1);
    assert FirstEntry("a", before, t, true) == b && before[0].name == "a";
    var env := At(t + 1, after, timeout, next);
    assert job.key == KeyOf(c, b) && t + 1 - job.timestamp <= 2 * job.timeout;
    assert ServerNow(env, b) == Some(Box("x", "pod")) by { assert after[0].servers[0] == Box("x", "pod"); }
    OnlyEntry(ws[2], before, t, b);
    ws, es := GoesUnderAlias(c, ws, es, env, b);
  }

  lemma OnlyEntry(w: World, shards: seq<Shard>, t: Instant, b: BackupStatus)
    requires |shards| == 1 && HoldsFirst(w, shards, t, true) && b == FirstEntry(shards[0].name, shards, t, true)
    ensures b in w.Last() && forall x :: x in w.Last() ==> x == b
  {
    assert shards[0] in shards;
  }

  /** The reconcile under the new alias. */
  lemma GoesUnderAlias(c: Setting, ws: seq<World>, es: seq<Event>, env: Env, b: BackupStatus)
    returns (ws': seq<World>, es': seq<Event>)
    requires IsTrace(c, ws, es) && Last(ws).clock <= env.now && Sane(env, c.digits) && Last(ws).versions != []
    requires b in Last(ws).Last() && (forall x :: x in Last(ws).Last() ==> x == b) && b.state.Running?
    requires b.serverAlias.Some? && ServerNow(env, b).Some? && !StableAlias(env, b)
    requires Last(ws).threads.Keys == {KeyOf(c, b)}
    ensures IsTrace(c, ws', es') && GoesOn(ws, es, ws', es', env.shards, env.now) && Last(ws').clock == env.now
    ensures Last(ws').versions != [] && NotFound(b) in Last(ws').Last()
  {
    ws', es' := Goes(c, ws, es, env);
    AliasGone(c, Last(ws), Sight(Last(ws), env), b);
  }

  lemma AliasGone(c: Setting, w: World, env: Env, b: BackupStatus)
    requires Inv(c, w) && w.clock <= env.now && Sane(env, c.digits) && env.expired == ExpiredAt(w, env.now)
    requires b in w.Last() && (forall x :: x in w.Last() ==> x == b) && b.state.Running?
    requires b.serverAlias.Some? && ServerNow(env, b).Some? && !StableAlias(env, b)
    requires w.threads.Keys == {KeyOf(c, b)}
    ensures Reconciled(c, w, env, true).versions != [] && NotFound(b) in Reconciled(c, w, env, true).Last()
  {
    NoPendingPasses(c, w, env);
    KeyTellsAlias(c, env, b);
    IsLost(c, w, env, b);
  }

  lemma IsLost(c: Setting, w: World, env: Env, b: BackupStatus)
    requires Inv(c, w) && w.clock <= env.now && Sane(env, c.digits) && env.expired == ExpiredAt(w, env.now)
    requires PastPhase2(c, w, env) && b in w.Last() && b.state.Running? && ServerNow(env, b).Some?
    requires KeyNow(c, env, b) !in w.threads
    ensures Reconciled(c, w, env, true).versions != [] && NotFound(b) in Reconciled(c, w, env, true).Last()
  {
    ReconciledNext(c, w, env, true);
    NotFoundExactly(c, w, env, |w.versions| - 1, true, env.now, Reconciled(c, w, env, true), b);
  }

  // ---------- between one and two timeouts ----------

  /** A runner that is older than one timeout, and exactly two old, is still in the map, and the
      success it announced is recorded. */
  lemma RecordedAfterTwoTimeouts(c: Setting, timeout: nat, t: Instant, next: Instant)
    returns (ws: seq<World>, es: seq<Event>, job: Job)
    requires Instants(c, t, next) && timeout > 0 && t + 1 + 2 * timeout < next
    ensures IsTrace(c, ws, es) && Last(ws).versions != [] && job.shard == "a" && job.timeout == timeout
    ensures Last(ws).clock - job.timestamp == 2 * timeout && job.key in Last(ws).threads
    ensures exists b :: b in Last(ws).Last() && b.shard == "a" && b.scheduledFor == t && b.state.Completed?
                     && b.backupFile == Some(job.destination)
  {
    var shards := [Shard("a", [Box("x", "")])];
    assert shards[0] in shards && shards[0].name == "a";
    OnlySlave(shards, "a", Box("x", ""));
    var h;
    ws, es, h, job := Started(c, shards, timeout, t, next, "a", Box("x", ""), true);
    var b := Begin(NewBackup("a", t), Box("x", ""), t + 1);
    assert FirstEntry("a", shards, t, true) == b && job.key == KeyOf(c, b);
    OnlyEntry(ws[2], shards, t, b);
    var rs, ms := AllWell(job);
    ws, es := AllMoves(c, ws, es, h, rs, ms);
    var env := At(t + 1 + 2 * timeout, shards, timeout, next);
    assert ServerNow(env, b) == Some(Box("x", "")) by { assert shards[0].servers[0] == Box("x", ""); }
    ws, es := GoesAndRecords(c, ws, es, env, b, h, job);
  }

  lemma GoesAndRecords(c: Setting, ws: seq<World>, es: seq<Event>, env: Env, b: BackupStatus, h: nat, job: Job)
    returns (ws': seq<World>, es': seq<Event>)
    requires IsTrace(c, ws, es) && Last(ws).clock <= env.now && Sane(env, c.digits) && Last(ws).versions != []
    requires b in Last(ws).Last() && (forall x :: x in Last(ws).Last() ==> x == b)
    requires b.state.Running? && StableAlias(env, b) && env.now - job.timestamp == 2 * job.timeout
    requires Last(ws).threads.Keys == {KeyOf(c, b)} && Last(ws).threads[KeyOf(c, b)].handle == h < |Last(ws).runners|
    requires Last(ws).runners[h].job == job
    requires Announced(Last(ws).runners[h].listener) && Last(ws).runners[h].listener.cause.Success?
    ensures IsTrace(c, ws', es') && Last(ws').clock == env.now && Last(ws').versions != []
    ensures KeyOf(c, b) in Last(ws').threads
    ensures exists r :: r in Last(ws').Last() && r.SameAs(b) && r.state.Completed?
                     && r.backupFile == Some(job.destination)
  {
    ws', es' := Goes(c, ws, es, env);
    StillRecorded(c, Last(ws), Sight(Last(ws), env), b, h);
  }

  lemma StillRecorded(c: Setting, w: World, env: Env, b: BackupStatus, h: nat)
    requires Inv(c, w) && w.clock <= env.now && Sane(env, c.digits) && env.expired == ExpiredAt(w, env.now)
    requires b in w.Last() && (forall x :: x in w.Last() ==> x == b) && b.state.Running? && StableAlias(env, b)
    requires w.threads.Keys == {KeyOf(c, b)} && w.threads[KeyOf(c, b)].handle == h < |w.runners|
    requires env.now - w.runners[h].job.timestamp == 2 * w.runners[h].job.timeout
    requires Announced(w.runners[h].listener) && w.runners[h].listener.cause.Success?
    ensures Reconciled(c, w, env, true).versions != [] && KeyOf(c, b) in Reconciled(c, w, env, true).threads
    ensures exists r :: r in Reconciled(c, w, env, true).Last() && r.SameAs(b) && r.state.Completed?
                     && r.backupFile == Some(w.runners[h].job.destination)
  {
    NoPendingPasses(c, w, env);
    ReconciledNext(c, w, env, true);
    var w', read := Reconciled(c, w, env, true), |w.versions| - 1;
    assert env.expired == {};
    SettledThreads(c, w, env, read, true, env.now, w');
    SettledTurn(c, w, env, read, true, env.now, w');
    ObservedIsWritten(c, w, env, read, true, env.now, w', b);
    KeyTellsAlias(c, env, b);
    ObserveCases(c, env, b, w'.threads, w.runners);
    ReportExactly(b, w.runners[h]);
    var r := Report(b, w.runners[h].status);
    assert r in w'.Last() && r.SameAs(b);
  }

  // ---------- a second runner ----------

  /** An update is refused, the shard gets another slave, and a second runner starts for the same
      backup while the first one works. */
  lemma SecondRunnerReachable(c: Setting, timeout: nat, t: Instant, next: Instant)
    returns (ws: seq<World>, es: seq<Event>, g: nat, h: nat)
    requires Instants(c, t, next)
    ensures IsTrace(c, ws, es) && |ws| == 4 && g < h < |ws[3].runners|
    ensures ws[3].runners[g] == Launched(ws[3].runners[g].job) && ws[3].runners[h] == Launched(ws[3].runners[h].job)
    ensures ws[3].runners[g].job.shard == ws[3].runners[h].job.shard == "a"
    ensures ws[3].runners[g].job.scheduledFor == ws[3].runners[h].job.scheduledFor == t
  {
    var first, second := [Shard("a", [Box("x", "")])], [Shard("a", [Box("w", "")])];
    assert first[0] in first && second[0] in second;
    var job, job';
    ws, es, g, job := Started(c, first, timeout, t, next, "a", Box("x", ""), false);
    KeysDiffer(c, "a", t, "x", "w");
    assert HoldsFirst(ws[2], second, t, false) && ExpiredAt(ws[2], t + 1) == {};
    ws, es, h, job' := StartsAgain(c, ws, es, second, timeout, t, next, Box("w", ""), g);
  }

  lemma StartsAgain(c: Setting, ws: seq<World>, es: seq<Event>, shards: seq<Shard>, timeout: nat, t: Instant,
                    next: Instant, srv: Server, g: nat)
    returns (ws': seq<World>, es': seq<Event>, h: nat, job: Job)
    requires IsTrace(c, ws, es) && Last(ws).clock == t + 1 && HoldsFirst(Last(ws), shards, t, false)
    requires OneHealthy(shards, "a", srv) && Instants(c, t, next) && g < |Last(ws).runners|
    requires ExpiredAt(Last(ws), t + 1) == {} && RunnerKey(c.me, "a", srv.GetAlias(), t) !in Last(ws).threads
    ensures IsTrace(c, ws', es') && |ws'| == |ws| + 1 && g < h < |Last(ws').runners|
    ensures Last(ws').runners[g] == Last(ws).runners[g] && Last(ws').runners[h] == Launched(job)
    ensures job.shard == "a" && job.scheduledFor == t
  {
    ws', es' := Goes(c, ws, es, At(t + 1, shards, timeout, next));
    h, job := StartsBeside(c, Last(ws), shards, timeout, t, next, srv, g);
  }

  lemma StartsBeside(c: Setting, w: World, shards: seq<Shard>, timeout: nat, t: Instant, next: Instant, srv: Server,
                     g: nat)
    returns (h: nat, job: Job)
    requires Inv(c, w) && OneHealthy(shards, "a", srv) && Instants(c, t, next) && g < |w.runners|
    requires RunnerKey(c.me, "a", srv.GetAlias(), t) !in w.threads && HoldsFirst(w, shards, t, false)
    ensures var w' := Reconciled(c, w, At(t + 1, shards, timeout, next), true);
            g < h < |w'.runners| && w'.runners[g] == w.runners[g] && w'.runners[h] == Launched(job)
    ensures job.shard == "a" && job.scheduledFor == t
  {
    h, job := StartsTheOne(c, w, shards, timeout, t, next, "a", srv, true);
    var w' := Reconciled(c, w, At(t + 1, shards, timeout, next), true);
    assert w'.runners[g] == w.runners[g];
  }

  lemma KeysDiffer(c: Setting, shard: string, t: Instant, x: string, y: string)
    requires '-' !in shard && x != y
    ensures RunnerKey(c.me, shard, x, t) != RunnerKey(c.me, shard, y, t)
  {
    var p, i, j := c.me.Prefix(), ID(shard, x, t), ID(shard, y, t);
    if p + i == p + j {
      assert i == (p + i)[|p|..] && j == (p + j)[|p|..];
      IDUnambiguous(shard, x, t, shard, y, t);
    }
  }

  // ---------- a blocked shard ----------

  /** A reconcile that only finds a stuck backup writes nothing and makes nothing. */
  lemma BlockedTurn(c: Setting, w: World, env: Env, p: BackupStatus)
    requires Inv(c, w) && Monitored(env.shards) && p in w.Last() && Due(p, env.now) && Blocked(p, env)
    requires Calm(w.Last(), env)
    ensures var w' := Reconciled(c, w, env, true);
            w'.versions == w.versions && w'.runners == w.runners && w'.dead == w.dead
  {
    CalmMeansNoJobs(w.Last(), c.me, env);
    OutcomeThreads(w.Last(), w.threads, w.runners, c.me, env);
    RunPendingStuck(w.Last(), c.me, env.shards, env);
    assert Stuck(p, env.shards, env.now);
    NoSlavesCommitted(c, w, env);
  }

  lemma NoSlavesCommitted(c: Setting, w: World, env: Env)
    requires Inv(c, w)
    requires var l := RunPending(w.Last(), c.me, env.shards, env); l.jobs == [] && l.requeue
    ensures var w' := Reconciled(c, w, env, true);
            w'.versions == w.versions && w'.runners == w.runners && w'.dead == w.dead
  {
  }

  /** A reconcile that starts one backup makes no runner for the key of another. */
  lemma StartsOther(c: Setting, w: World, env: Env, p: BackupStatus, key: string)
    requires Inv(c, w) && Monitored(env.shards) && p in w.Last() && Startable(p, env.shards, env.now)
    requires (forall x :: x in w.Last() && Startable(x, env.shards, env.now) ==> x == p)
    requires LaunchJob(p, c.me, env.shards, env).key != key
    ensures !PastPhase2(c, w, env) && MakesNone(w, Reconciled(c, w, env, true), key)
    ensures Reconciled(c, w, env, true).versions == w.versions + [RunPending(w.Last(), c.me, env.shards, env).list]
  {
    OnlyJobs(w.Last(), c.me, env, p);
    OutcomeThreads(w.Last(), w.threads, w.runners, c.me, env);
    StartedShape(w.Last(), w.threads, w.runners, c.me, env);
    var o := Reconcile(w.Last(), w.threads, w.runners, c.me, env);
    var made := MadeAll(o.jobs, |w.runners|, o.threads);
    forall h | 0 <= h < |made| ensures made[h].job.key != key {
      assert o.jobs[h] in o.jobs && made[h] == Made(o.jobs[h], |w.runners| + h, o.threads);
    }
    OthersCommitted(w, o, env.now, key);
  }

  lemma OthersCommitted(w: World, o: Outcome, end: Instant, key: string)
    requires w.versions != [] && o.phase.Started?
    requires forall h :: 0 <= h < |o.jobs| ==> MadeAll(o.jobs, |w.runners|, o.threads)[h].job.key != key
    ensures MakesNone(w, Commit(w, o, |w.versions| - 1, true, end), key)
    ensures Commit(w, o, |w.versions| - 1, true, end).versions == w.versions + [o.list]
  {
  }

  const HEALTHY := Shard("a", [Box("x", "")])
  const EMPTY := Shard("b", [])
  const FILLED := Shard("b", [Box("y", "")])

  lemma TwoShards()
    ensures OneHealthy([HEALTHY, EMPTY], "a", Box("x", "")) && Monitored([HEALTHY, FILLED])
    ensures ShardNamed([HEALTHY, EMPTY], "b") == Some(EMPTY) && ServerFor([HEALTHY, EMPTY], "b").None?
    ensures ServerFor([HEALTHY, FILLED], "b") == Some(Box("y", ""))
    ensures LookupServer([HEALTHY, FILLED], "x") == Some(Box("x", ""))
    ensures ServerFor([HEALTHY, EMPTY], "a") == Some(Box("x", ""))
  {
    var e, f := [HEALTHY, EMPTY], [HEALTHY, FILLED];
    assert e[0] in e && e[1] in e && f[0] in f && f[1] in f;
    assert Names(e)[0] == "a" && Names(e)[1] == "b" && Names(f)[0] == "a" && Names(f)[1] == "b";
    assert e[|e| - 1] == EMPTY && SlavesRO([]) == [];
    OnlySlave(e, "a", Box("x", ""));
    OnlySlave(f, "b", Box("y", ""));
    assert f[0] == HEALTHY && HEALTHY.servers[0] == Box("x", "");
  }

  /** The two backups of this scenario: one runs on the slave of its shard, the other is stuck. */
  function RunningOne(t: Instant): BackupStatus { Begin(NewBackup("a", t), Box("x", ""), t + 1) }

  function StuckOne(t: Instant): BackupStatus { NewBackup("b", t) }

  /** The first backup has run to its announced success, while the second is stuck. */
  lemma RanWell(c: Setting, timeout: nat, t: Instant, next: Instant)
    returns (ws: seq<World>, es: seq<Event>, h: nat, job: Job)
    requires Instants(c, t, next)
    ensures IsTrace(c, ws, es) && |ws| >= 3 && FirstJob(c, job, timeout, t, "a", Box("x", ""))
    ensures ws[2].clock == Last(ws).clock == t + 1 && HoldsBoth(ws[2], t) && HoldsBoth(Last(ws), t)
    ensures Last(ws).threads.Keys == {job.key} && Last(ws).threads[job.key].handle == h < |Last(ws).runners|
    ensures Last(ws).runners[h].job == job
    ensures Announced(Last(ws).runners[h].listener) && Last(ws).runners[h].listener.cause.Success?
    ensures forall m :: 2 <= m < |es| ==> !es[m].Reconciles?
  {
    TwoShards();
    var e := [HEALTHY, EMPTY];
    assert e[0] in e && e[1] in e;
    ws, es, h, job := Started(c, e, timeout, t, next, "a", Box("x", ""), true);
    assert Launch(NewBackup("a", t), e, t + 1) == RunningOne(t) && Launch(NewBackup("b", t), e, t + 1) == StuckOne(t);
    var w2 := ws[2];
    var rs, ms := AllWell(job);
    var before := es;
    ws, es := AllMoves(c, ws, es, h, rs, ms);
    assert ws[2] == w2;
  }

  /** The slave is back: the stuck backup starts, and nothing is left to start after that. */
  lemma SlaveIsBack(c: Setting, w: World, t: Instant, env: Env, key: string)
    requires Inv(c, w) && Sane(env, c.digits) && env.shards == [HEALTHY, FILLED] && t < env.now && HoldsBoth(w, t)
    requires key == RunnerKey(c.me, "a", "x", t)
    ensures !PastPhase2(c, w, env) && MakesNone(w, Reconciled(c, w, env, true), key)
    ensures Reconciled(c, w, env, true).versions != []
    ensures forall x :: x in Reconciled(c, w, env, true).Last() ==> !x.state.Pending?
  {
    TwoShards();
    StuckKeyDiffers(c, t, env, key);
    StartsOther(c, w, env, StuckOne(t), key);
    NothingLeft(c, w, t, env);
  }

  lemma NothingLeft(c: Setting, w: World, t: Instant, env: Env)
    requires Inv(c, w) && Monitored(env.shards) && HoldsBoth(w, t) && Startable(StuckOne(t), env.shards, env.now)
    ensures forall x :: x in RunPending(w.Last(), c.me, env.shards, env).list ==> !x.state.Pending?
  {
    AfterPhase2(c, w, env);
    forall y | y in RunPending(w.Last(), c.me, env.shards, env).list ensures !y.state.Pending? {
      var x :| x in w.Last() && y == Launch(x, env.shards, env.now);
      NotPendingAfter(x, t, env);
    }
  }

  lemma NotPendingAfter(x: BackupStatus, t: Instant, env: Env)
    requires x == RunningOne(t) || x == StuckOne(t)
    requires x == StuckOne(t) ==> Startable(x, env.shards, env.now)
    ensures !Launch(x, env.shards, env.now).state.Pending?
  {
  }

  lemma StuckKeyDiffers(c: Setting, t: Instant, env: Env, key: string)
    requires ServerFor(env.shards, "b") == Some(Box("y", "")) && key == RunnerKey(c.me, "a", "x", t)
    ensures LaunchJob(StuckOne(t), c.me, env.shards, env).key != key
  {
    var p, i, j := c.me.Prefix(), ID("b", "y", t), ID("a", "x", t);
    assert LaunchJob(StuckOne(t), c.me, env.shards, env).key == p + i && key == p + j;
    assert (p + i)[|p|] == i[0] == 'b' && (p + j)[|p|] == j[0] == 'a';
  }

  /** While one shard has no slave, the runner of another finishes and expires; the slave comes back;
      and the outcome of the finished backup is recorded as "runner not found". */
  lemma BlockedLosesOutcome(c: Setting, timeout: nat, t: Instant, next: Instant)
    returns (ws: seq<World>, es: seq<Event>, m: nat, h: nat)
    requires Instants(c, t, next) && t + 2 + 2 * timeout < next
    ensures IsTrace(c, ws, es) && m < |ws| && ws[m].versions != [] && Last(ws).versions != []
    ensures RunningOne(t) in ws[m].Last() && h < |ws[m].runners|
    ensures ws[m].runners[h].job.shard == "a" && ws[m].runners[h].job.scheduledFor == t
    ensures Announced(ws[m].runners[h].listener) && ws[m].runners[h].listener.cause.Success?
    ensures NotFound(RunningOne(t)) in Last(ws).Last()
  {
    var job;
    ws, es, h, job := RanWell(c, timeout, t, next);
    m := |es|;
    var now := t + 2 + 2 * timeout;
    TwoShards();
    ws, es := StaysBlocked(c, ws, es, t, At(now, [HEALTHY, EMPTY], timeout, next), job, h);
    ws, es := ComesBack(c, ws, es, t, At(now, [HEALTHY, FILLED], timeout, next), job);
    ws, es := GetsPast(c, ws, es, At(now, [HEALTHY, FILLED], timeout, next));
    LosesIt(c, ws, es, m, t, job.key);
  }

  /** The list holds the running backup and the stuck one, and no other. */
  ghost predicate HoldsBoth(w: World, t: Instant) {
    && w.versions != [] && RunningOne(t) in w.Last() && StuckOne(t) in w.Last()
    && forall x :: x in w.Last() ==> x == RunningOne(t) || x == StuckOne(t)
  }

  /** A reconcile while the second shard has no slave. */
  lemma StaysBlocked(c: Setting, ws: seq<World>, es: seq<Event>, t: Instant, env: Env, job: Job, h: nat)
    returns (ws': seq<World>, es': seq<Event>)
    requires IsTrace(c, ws, es) && HoldsBoth(Last(ws), t) && Last(ws).clock <= env.now && Sane(env, c.digits)
    requires env.shards == [HEALTHY, EMPTY] && t < env.now
    ensures IsTrace(c, ws', es') && GoesOn(ws, es, ws', es', env.shards, env.now)
    ensures HoldsBoth(Last(ws'), t) && Last(ws').clock == env.now && MakesNone(Last(ws), Last(ws'), job.key)
  {
    ws', es' := Goes(c, ws, es, env);
    BlockedOne(c, Last(ws), Sight(Last(ws), env), t, job.key);
  }

  lemma BlockedOne(c: Setting, w: World, env: Env, t: Instant, key: string)
    requires Inv(c, w) && HoldsBoth(w, t) && Monitored(env.shards) && env.shards == [HEALTHY, EMPTY] && t < env.now
    ensures HoldsBoth(Reconciled(c, w, env, true), t) && MakesNone(w, Reconciled(c, w, env, true), key)
  {
    TwoShards();
    BlockedTurn(c, w, env, StuckOne(t));
  }

  /** Then the slave comes back. */
  lemma ComesBack(c: Setting, ws: seq<World>, es: seq<Event>, t: Instant, env: Env, job: Job)
    returns (ws': seq<World>, es': seq<Event>)
    requires IsTrace(c, ws, es) && HoldsBoth(Last(ws), t) && Last(ws).clock <= env.now && Sane(env, c.digits)
    requires env.shards == [HEALTHY, FILLED] && 0 < t < env.now && job.key == RunnerKey(c.me, "a", "x", t)
    ensures IsTrace(c, ws', es') && GoesOn(ws, es, ws', es', env.shards, env.now)
    ensures !PastPhase2(c, Last(ws), Last(es').env) && MakesNone(Last(ws), Last(ws'), job.key)
    ensures Last(ws').clock == env.now && Last(ws').versions != []
    ensures forall x :: x in Last(ws').Last() ==> !x.state.Pending?
  {
    ws', es' := Goes(c, ws, es, env);
    SlaveIsBack(c, Last(ws), t, Sight(Last(ws), env), job.key);
  }

  /** And then a reconcile gets past phase 2. */
  lemma GetsPast(c: Setting, ws: seq<World>, es: seq<Event>, env: Env) returns (ws': seq<World>, es': seq<Event>)
    requires IsTrace(c, ws, es) && Last(ws).clock <= env.now && Sane(env, c.digits) && Last(ws).versions != []
    requires forall x :: x in Last(ws).Last() ==> !x.state.Pending?
    ensures IsTrace(c, ws', es') && GoesOn(ws, es, ws', es', env.shards, env.now)
    ensures PastPhase2(c, Last(ws), Last(es').env)
  {
    ws', es' := Goes(c, ws, es, env);
    NoPendingPasses(c, Last(ws), Sight(Last(ws), env));
  }

  /** The last three events of the run above: blocked, unblocked, past phase 2. */
  ghost predicate ThreeTurns(c: Setting, ws: seq<World>, es: seq<Event>, m: nat) {
    && 2 <= m && |es| == m + 3 == |ws| - 1 && (forall i :: 2 <= i < m ==> !es[i].Reconciles?)
    && es[m].Reconciles? && es[m + 1].Reconciles? && es[m + 2].Reconciles? && es[m + 2].accepted
    && es[m].env.shards == [HEALTHY, EMPTY] && es[m + 2].env.shards == [HEALTHY, FILLED]
    && !PastPhase2(c, ws[m + 1], es[m + 1].env) && PastPhase2(c, ws[m + 2], es[m + 2].env)
    && es[m + 2].read == |ws[m + 2].versions| - 1
  }

  lemma TurnsGo(c: Setting, ws: seq<World>, es: seq<Event>, m: nat, t: Instant, key: string)
    requires ThreeTurns(c, ws, es, m) && key == RunnerKey(c.me, "a", "x", t) &&
        HandlesBelow(ws[m].threads, |ws[m].runners|)
    requires key in ws[m].threads ==>
              var job := ws[m].runners[ws[m].threads[key].handle].job;
              es[m].env.now - job.timestamp > 2 * job.timeout
    requires MakesNone(ws[m], ws[m + 1], key) && MakesNone(ws[m + 1], ws[m + 2], key)
    ensures forall i :: 2 <= i < m + 1 && es[i].Reconciles? ==> Blocked(StuckOne(t), es[i].env)
    ensures HeldUp(c, ws[m + 1], es[m + 1])
    ensures ServerNow(es[m + 2].env, RunningOne(t)).Some? && KeyNow(c, es[m + 2].env, RunningOne(t)) == key
    ensures GoesAt(ws, es, m, m + 2, key)
  {
    TwoShards();
    var env := es[m + 2].env;
    assert ServerNow(env, RunningOne(t)) == Some(Box("x", ""));
  }

  /** They lose the outcome. */
  lemma LosesIt(c: Setting, ws: seq<World>, es: seq<Event>, m: nat, t: Instant, key: string)
    requires IsTrace(c, ws, es) && ThreeTurns(c, ws, es, m) && HoldsBoth(ws[2], t) && ws[2].clock == t + 1
    requires key == RunnerKey(c.me, "a", "x", t) && HandlesBelow(ws[m].threads, |ws[m].runners|)
    requires key in ws[m].threads ==>
              var job := ws[m].runners[ws[m].threads[key].handle].job;
              es[m].env.now - job.timestamp > 2 * job.timeout
    requires MakesNone(ws[m], ws[m + 1], key) && MakesNone(ws[m + 1], ws[m + 2], key)
    ensures ws[m + 3].versions != [] && NotFound(RunningOne(t)) in ws[m + 3].Last()
  {
    TurnsGo(c, ws, es, m, t, key);
    BlockedBackupIsLost(c, ws, es, 2, m, m + 1, m + 2, StuckOne(t), RunningOne(t));
  }
}
