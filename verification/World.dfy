/** The controller, the thread manager, the runners and the API server together: every run,
    with stale reads, refused updates, other owners of the manager, clean-ups and restarts. */
module World {
  import opened Text
  import opened Backups
  import opened Threads
  import opened Runners
  import opened Clusters
  import opened Controller
  import opened Phases
  import opened Settling

  /** `versions` holds every status list the API server has accepted; a reconcile may read any
      of them and can only overwrite the last.  `runnerOf` remembers under which runner a
      backup was recorded as running, `dead` how many runners ended with an earlier process. */
  datatype World = World(
    clock: Instant,
    versions: seq<BackupList>,
    threads: ThreadMap,
    runners: seq<Runner>,
    runnerOf: map<(string, Instant), nat>,
    dead: nat)
  {
    function Last(): BackupList
      requires versions != []
    {
      versions[|versions| - 1]
    }
  }

  datatype Event =
    | Reconciles(env: Env, read: nat, accepted: bool, end: Instant)
    | OtherReconciles(other: Owner, jobs: seq<Job>, expired: set<string>, end: Instant)
    | CleansUp(other: Owner)
    | RunnerMoves(handle: nat, move: Move)
    | TimePasses(to: Instant)
    | Restarts

  /** The resource under study, and the number of digits of every instant. */
  datatype Setting = Setting(me: Owner, digits: nat)

  /** A thread only answers that it can be deleted once its time has passed. */
  ghost predicate TimelyExpired(threads: ThreadMap, runners: seq<Runner>, expired: set<string>, clock: Instant)
    requires HandlesBelow(threads, |runners|)
  {
    forall k :: k in threads && k in expired ==> runners[threads[k].handle].job.CanBeDeleted(clock)
  }

  /** And every thread whose time had passed before it was asked says so. */
  ghost predicate SurelyExpired(threads: ThreadMap, runners: seq<Runner>, expired: set<string>, clock: Instant)
    requires HandlesBelow(threads, |runners|)
  {
    forall k :: k in threads && runners[threads[k].handle].job.CanBeDeleted(clock) ==> k in expired
  }

  function AssignAll(m: map<(string, Instant), nat>, jobs: seq<Job>, threads: ThreadMap): map<(string, Instant), nat> {
    if jobs == [] then m
    else
      var job := jobs[|jobs| - 1];
      var rest := AssignAll(m, jobs[..|jobs| - 1], threads);
      if job.key in threads then rest[(job.shard, job.scheduledFor) := threads[job.key].handle] else rest
  }

  predicate Saved(w: World, o: Outcome, read: nat, accepted: bool) {
    o.phase.Writes() && accepted && read == |w.versions| - 1
  }

  /** The world after a reconcile with the given outcome. */
  function Commit(w: World, o: Outcome, read: nat, accepted: bool, end: Instant): World {
    var saved := Saved(w, o, read, accepted);
    World(end,
          if saved then w.versions + [o.list] else w.versions,
          o.threads,
          w.runners + MadeAll(o.jobs, |w.runners|, o.threads),
          if saved && o.phase.Started? then AssignAll(w.runnerOf, o.jobs, o.threads) else w.runnerOf,
          w.dead)
  }

  ghost predicate ReconcileNext(c: Setting, w: World, env: Env, read: nat, accepted: bool, end: Instant, w': World) {
    && read < |w.versions| && HandlesBelow(w.threads, |w.runners|)
    && w.clock <= env.now <= end && Sane(env, c.digits)
    && SurelyExpired(w.threads, w.runners, env.expired, env.now)
    && TimelyExpired(w.threads, w.runners, env.expired, end)
    && w' == Commit(w, Reconcile(w.versions[read], w.threads, w.runners, c.me, env), read, accepted, end)
  }

  ghost predicate OtherNext(c: Setting, w: World, other: Owner, jobs: seq<Job>, expired: set<string>, end: Instant,
                            w': World) {
    && other != c.me && w.clock <= end && HandlesBelow(w.threads, |w.runners|)
    && (forall j :: j in jobs ==> j.instance == other && j.WellKeyed())
    && SurelyExpired(w.threads, w.runners, expired, w.clock) && TimelyExpired(w.threads, w.runners, expired, end)
    && var m := ReconcileMap(w.threads, other.Prefix(), ThreadsFor(jobs, |w.runners|), expired).threads;
       w' == w.(clock := end, threads := m, runners := w.runners + MadeAll(jobs, |w.runners|, m))
  }

  /** A runner of this process may take any step at any time: no result depends on when its timer fires, so that a
      step that falls inside a reconcile can be taken to come before or after it. */
  ghost predicate MoveNext(w: World, handle: nat, m: Move, w': World) {
    && w.dead <= handle < |w.runners| && Enabled(w.runners[handle], m)
    && w' == w.(runners := w.runners[handle := Step(w.runners[handle], m)])
  }

  ghost predicate Next(c: Setting, w: World, e: Event, w': World) {
    match e
    case Reconciles(env, read, accepted, end) => ReconcileNext(c, w, env, read, accepted, end, w')
    case OtherReconciles(other, jobs, expired, end) => OtherNext(c, w, other, jobs, expired, end, w')
    case CleansUp(other) => w' == w.(threads := CleanMap(w.threads, other.Prefix()))
    case RunnerMoves(handle, m) => MoveNext(w, handle, m, w')
    case TimePasses(to) => w.clock <= to && w' == w.(clock := to)
    case Restarts => w' == w.(threads := map[], dead := |w.runners|)
  }

  ghost predicate Init(w: World) {
    w.versions == [[]] && w.threads == map[] && w.runners == [] && w.runnerOf == map[] && w.dead == 0
  }

  ghost predicate IsTrace(c: Setting, ws: seq<World>, es: seq<Event>) {
    && |ws| == |es| + 1 && Init(ws[0])
    && forall i, j :: 0 <= i && j == i + 1 < |ws| ==> Next(c, ws[i], es[i], ws[j])
  }

  // ---------- threads and runners ----------

  ghost predicate ThreadsValid(threads: ThreadMap, runners: seq<Runner>) {
    && HandlesBelow(threads, |runners|) && AllRunning(threads)
    && (forall k :: k in threads ==>
          var r := runners[threads[k].handle]; r.job.key == k && !r.worker.Unstarted?)
    && (forall h :: 0 <= h < |runners| ==> Valid(runners[h]))
  }

  /** What any event does to threads and runners: a key that stays keeps its runner, a key that is
      new points to a new runner, runners are
      only added, keep their job, are not started later and do not unlearn that all is done, and
      a runner that starts is the one in the map under its key, which was free before. */
  ghost predicate Carries(threads: ThreadMap, runners: seq<Runner>, threads': ThreadMap, runners': seq<Runner>)
    requires HandlesBelow(threads, |runners|)
  {
    && |runners| <= |runners'|
    && (forall k :: k in threads && k in threads' ==> threads'[k].handle == threads[k].handle)
    && (forall k :: k in threads' && k !in threads ==> threads'[k].handle >= |runners|)
    && (forall h :: 0 <= h < |runners| ==>
          && runners'[h].job == runners[h].job
          && (runners'[h].worker.Unstarted? <==> runners[h].worker.Unstarted?)
          && (AllDone(runners[h].seen) ==> AllDone(runners'[h].seen)))
    && (forall h :: |runners| <= h < |runners'| && !runners'[h].worker.Unstarted? ==>
          && runners'[h].job.key in threads' && threads'[runners'[h].job.key].handle == h
          && runners'[h].job.key !in threads)
  }

  /** Threads leave the map only when their time has passed. */
  ghost predicate LosesOnlyExpired(threads: ThreadMap, runners: seq<Runner>, threads': ThreadMap, clock: Instant)
    requires HandlesBelow(threads, |runners|)
  {
    forall k :: k in threads && k !in threads' ==> runners[threads[k].handle].job.CanBeDeleted(clock)
  }

  ghost predicate KeyedBy(jobs: seq<Job>, prefix: string) {
    forall i :: 0 <= i < |jobs| ==> jobs[i].key == prefix + jobs[i].id
  }

  /** The runners made for jobs whose keys are new are the ones the map points to. */
  lemma NewThreads(threads: ThreadMap, base: nat, prefix: string, jobs: seq<Job>, expired: set<string>,
                   after: ThreadMap, k: string)
    requires KeyedBy(jobs, prefix) && k in after && k !in threads
    requires ReconcileMap(threads, prefix, ThreadsFor(jobs, base), expired) == RunResult(after, true)
    ensures var i := after[k].handle - base; 0 <= i < |jobs| && jobs[i].key == k
  {
    var i := RunAllFresh(threads, prefix, ThreadsFor(jobs, base), k);
  }

  lemma MadeValid(jobs: seq<Job>, base: nat, threads: ThreadMap, i: nat)
    requires i < |jobs|
    ensures var r := MadeAll(jobs, base, threads)[i];
            && Valid(r) && r.job == jobs[i]
            && (!r.worker.Unstarted? ==> jobs[i].key in threads && threads[jobs[i].key].handle == base + i)
  {
    SpawnedValid(jobs[i]);
  }

  /** The threads that are new in a map point to runners made for them. */
  ghost predicate NewFit(threads: ThreadMap, base: nat, after: ThreadMap, made: seq<Runner>) {
    && (forall k :: k in threads && k in after ==> after[k] == threads[k])
    && (forall k :: k in after && k !in threads ==>
          var i := after[k].handle - base; 0 <= i < |made| && made[i].job.key == k && !made[i].worker.Unstarted?)
  }

  /** The runners made are started only if the map took them. */
  ghost predicate MadeFit(base: nat, after: ThreadMap, made: seq<Runner>) {
    forall i :: 0 <= i < |made| ==> Valid(made[i]) && (!made[i].worker.Unstarted? ==>
      made[i].job.key in after && after[made[i].job.key].handle == base + i)
  }

  lemma FitsValid(threads: ThreadMap, runners: seq<Runner>, after: ThreadMap, made: seq<Runner>)
    requires ThreadsValid(threads, runners) && AllRunning(after) && HandlesBelow(after, |runners| + |made|)
    requires NewFit(threads, |runners|, after, made) && MadeFit(|runners|, after, made)
    ensures ThreadsValid(after, runners + made)
  {
    var all := runners + made;
    forall h | |runners| <= h < |all| ensures all[h] == made[h - |runners|] {}
    forall k | k in after ensures all[after[k].handle].job.key == k && !all[after[k].handle].worker.Unstarted? {
      if k in threads { assert all[after[k].handle] == runners[threads[k].handle]; }
    }
  }

  lemma FitsCarries(threads: ThreadMap, runners: seq<Runner>, after: ThreadMap, made: seq<Runner>)
    requires ThreadsValid(threads, runners)
    requires NewFit(threads, |runners|, after, made) && MadeFit(|runners|, after, made)
    ensures Carries(threads, runners, after, runners + made)
  {
    var all := runners + made;
    forall h | |runners| <= h < |all| && !all[h].worker.Unstarted?
      ensures all[h].job.key in after && after[all[h].job.key].handle == h && all[h].job.key !in threads
    {
      assert all[h] == made[h - |runners|];
    }
  }

  lemma StartedStay(threads: ThreadMap, prefix: string, wanted: seq<Thread>, expired: set<string>)
    requires AllRunning(threads)
    ensures var m := ReconcileMap(threads, prefix, wanted, expired).threads;
            forall k :: k in threads && k in m ==> m[k] == threads[k]
  {
    RunAllFrame(threads, prefix, wanted);
  }

  lemma ManagerNewFit(threads: ThreadMap, base: nat, prefix: string, jobs: seq<Job>, expired: set<string>,
                      after: ThreadMap)
    requires AllRunning(threads) && KeyedBy(jobs, prefix)
    requires ReconcileMap(threads, prefix, ThreadsFor(jobs, base), expired) == RunResult(after, true)
    ensures NewFit(threads, base, after, MadeAll(jobs, base, after))
  {
    StartedStay(threads, prefix, ThreadsFor(jobs, base), expired);
    var made := MadeAll(jobs, base, after);
    forall k | k in after && k !in threads
      ensures var i := after[k].handle - base; 0 <= i < |made| && made[i].job.key == k && !made[i].worker.Unstarted?
    {
      NewThreads(threads, base, prefix, jobs, expired, after, k);
    }
  }

  lemma ManagerMadeFit(jobs: seq<Job>, base: nat, after: ThreadMap)
    ensures MadeFit(base, after, MadeAll(jobs, base, after))
  {
    var made := MadeAll(jobs, base, after);
    forall i | 0 <= i < |made|
      ensures Valid(made[i]) && (!made[i].worker.Unstarted? ==>
                made[i].job.key in after && after[made[i].job.key].handle == base + i)
    {
      MadeValid(jobs, base, after, i);
    }
  }

  /** One ReconcileThreads for jobs of one owner. */
  lemma ManagerTurn(threads: ThreadMap, runners: seq<Runner>, prefix: string, jobs: seq<Job>, expired: set<string>,
                    clock: Instant)
    requires ThreadsValid(threads, runners) && TimelyExpired(threads, runners, expired, clock) && KeyedBy(jobs, prefix)
    ensures var m := ReconcileMap(threads, prefix, ThreadsFor(jobs, |runners|), expired);
            var runners' := runners + MadeAll(jobs, |runners|, m.threads);
            && m.ok && ThreadsValid(m.threads, runners') && Carries(threads, runners, m.threads, runners')
            && LosesOnlyExpired(threads, runners, m.threads, clock)
  {
    var m := ReconcileMap(threads, prefix, ThreadsFor(jobs, |runners|), expired);
    MapStaysOk(threads, prefix, jobs, |runners|, expired);
    ManagerNewFit(threads, |runners|, prefix, jobs, expired, m.threads);
    ManagerMadeFit(jobs, |runners|, m.threads);
    FitsValid(threads, runners, m.threads, MadeAll(jobs, |runners|, m.threads));
    FitsCarries(threads, runners, m.threads, MadeAll(jobs, |runners|, m.threads));
    ReconcileMeaning(threads, prefix, ThreadsFor(jobs, |runners|), expired);
  }

  lemma {:induction false} JobsOwned(list: BackupList, owner: Owner, shards: seq<Shard>, env: Env)
    ensures forall j :: j in RunPending(list, owner, shards, env).jobs ==>
              && j.instance == owner && j.WellKeyed() && j.timestamp == env.now
              && exists s :: s in shards && s.name == j.shard
  {
    if shards != [] {
      JobsOwned(list, owner, shards[..|shards| - 1], env);
      assert shards[|shards| - 1] in shards;
    }
  }

  /** The threads a reconcile leaves are those of ReconcileThreads. */
  lemma OutcomeThreads(list: BackupList, threads: ThreadMap, runners: seq<Runner>, owner: Owner, env: Env)
    requires ThreadsValid(threads, runners)
    ensures var o := Reconcile(list, threads, runners, owner, env);
            && o.threads == ReconcileMap(threads, owner.Prefix(), ThreadsFor(o.jobs, |runners|), env.expired).threads
            && o.jobs == RunPending(list, owner, env.shards, env).jobs
            && !o.phase.ThreadError? && (o.phase.Started? <==> o.jobs != [])
  {
    MapStaysOk(threads, owner.Prefix(), RunPending(list, owner, env.shards, env).jobs, |runners|, env.expired);
    ReconcileShape(list, threads, runners, owner, env);
  }

  lemma ReconcileThreadsStep(c: Setting, w: World, env: Env, read: nat, accepted: bool, end: Instant, w': World)
    requires ThreadsValid(w.threads, w.runners) && ReconcileNext(c, w, env, read, accepted, end, w')
    ensures ThreadsValid(w'.threads, w'.runners) && Carries(w.threads, w.runners, w'.threads, w'.runners)
    ensures LosesOnlyExpired(w.threads, w.runners, w'.threads, w'.clock)
  {
    var o := Reconcile(w.versions[read], w.threads, w.runners, c.me, env);
    OutcomeThreads(w.versions[read], w.threads, w.runners, c.me, env);
    JobsOwned(w.versions[read], c.me, env.shards, env);
    ManagerTurn(w.threads, w.runners, c.me.Prefix(), o.jobs, env.expired, end);
  }

  lemma ReplaceRunner(threads: ThreadMap, runners: seq<Runner>, handle: nat, r: Runner)
    requires ThreadsValid(threads, runners) && handle < |runners|
    requires Valid(r) && r.job == runners[handle].job && (r.worker.Unstarted? <==> runners[handle].worker.Unstarted?)
    requires AllDone(runners[handle].seen) ==> AllDone(r.seen)
    ensures ThreadsValid(threads, runners[handle := r]) && Carries(threads, runners, threads, runners[handle := r])
  {
  }

  lemma MoveThreadsStep(w: World, handle: nat, m: Move, w': World)
    requires ThreadsValid(w.threads, w.runners) && MoveNext(w, handle, m, w')
    ensures ThreadsValid(w'.threads, w'.runners) && Carries(w.threads, w.runners, w'.threads, w'.runners)
  {
    var r := w.runners[handle];
    StepValid(r, m);
    if AllDone(r.seen) { DoneStays(r, m); }
    StepKeepsJob(r, m);
    ReplaceRunner(w.threads, w.runners, handle, Step(r, m));
  }

  lemma StepKeepsJob(r: Runner, m: Move)
    requires Enabled(r, m)
    ensures Step(r, m).job == r.job && (Step(r, m).worker.Unstarted? <==> r.worker.Unstarted?)
  {
  }

  /** Every event keeps threads and runners in order. */
  lemma ThreadsStep(c: Setting, w: World, e: Event, w': World)
    requires ThreadsValid(w.threads, w.runners) && Next(c, w, e, w')
    ensures ThreadsValid(w'.threads, w'.runners) && Carries(w.threads, w.runners, w'.threads, w'.runners)
    ensures !e.CleansUp? && !e.Restarts? ==> LosesOnlyExpired(w.threads, w.runners, w'.threads, w'.clock)
    ensures w.clock <= w'.clock
  {
    match e
    case Reconciles(env, read, accepted, end) => ReconcileThreadsStep(c, w, env, read, accepted, end, w');
    case OtherReconciles(other, jobs, expired, end) =>
      ManagerTurn(w.threads, w.runners, other.Prefix(), jobs, expired, end);
    case RunnerMoves(handle, m) => MoveThreadsStep(w, handle, m, w');
    case _ =>
  }

  // ---------- the status lists ----------

  ghost predicate ListsValid(c: Setting, w: World) {
    w.versions != [] && forall i :: 0 <= i < |w.versions| ==> Consistent(w.versions[i], w.clock, c.digits)
  }

  ghost predicate Inv(c: Setting, w: World) {
    ThreadsValid(w.threads, w.runners) && ListsValid(c, w)
  }

  lemma ConsistentLater(list: BackupList, clock: Instant, clock': Instant, d: nat)
    requires Consistent(list, clock, d) && clock <= clock'
    ensures Consistent(list, clock', d)
  {
  }

  lemma InvStep(c: Setting, w: World, e: Event, w': World)
    requires Inv(c, w) && Next(c, w, e, w')
    ensures Inv(c, w')
  {
    ThreadsStep(c, w, e, w');
    if e.Reconciles? {
      ReconcileConsistent(w.versions[e.read], w.threads, w.runners, c.me, e.env, w.clock, c.digits);
    }
    forall i | 0 <= i < |w'.versions| ensures Consistent(w'.versions[i], w'.clock, c.digits) {
      if i < |w.versions| {
        assert w'.versions[i] == w.versions[i];
        ConsistentLater(w.versions[i], w.clock, w'.clock, c.digits);
      } else {
        ConsistentLater(w'.versions[i], e.env.now, w'.clock, c.digits);
      }
    }
  }

  /** In every reachable world every accepted list is newest first, and a pending or running
      backup is scheduled strictly later than every other one of its shard. */
  lemma {:induction false} AlwaysConsistent(c: Setting, ws: seq<World>, es: seq<Event>, n: nat)
    requires IsTrace(c, ws, es) && n < |ws|
    ensures Inv(c, ws[n])
  {
    if n > 0 {
      AlwaysConsistent(c, ws, es, n - 1);
      InvStep(c, ws[n - 1], es[n - 1], ws[n]);
    }
  }

  lemma AlwaysStep(c: Setting, ws: seq<World>, es: seq<Event>, n: nat)
    requires IsTrace(c, ws, es) && n < |es|
    ensures Inv(c, ws[n]) && Next(c, ws[n], es[n], ws[n + 1])
  {
    AlwaysConsistent(c, ws, es, n);
    var next := ws[n + 1];
  }

  /** So no shard ever has two backups that are pending or running. */
  lemma NeverTwoActive(c: Setting, ws: seq<World>, es: seq<Event>, n: nat, v: nat, a: BackupStatus, b: BackupStatus)
    requires IsTrace(c, ws, es) && n < |ws| && v < |ws[n].versions|
    requires a in ws[n].versions[v] && b in ws[n].versions[v] && a.shard == b.shard && a.Active()
    ensures a == b || (!b.Active() && b.scheduledFor < a.scheduledFor)
  {
    AlwaysConsistent(c, ws, es, n);
  }

  /** What is known of each step of a trace. */
  lemma TraceStep(c: Setting, ws: seq<World>, es: seq<Event>, n: nat)
    requires IsTrace(c, ws, es) && n < |es|
    ensures Inv(c, ws[n]) && Carries(ws[n].threads, ws[n].runners, ws[n + 1].threads, ws[n + 1].runners)
  {
    AlwaysConsistent(c, ws, es, n);
    ThreadsStep(c, ws[n], es[n], ws[n + 1]);
  }

  // ---------- how entries evolve ----------

  /** A backup in an earlier list and the same backup in a later one. */
  ghost predicate Follows(a: BackupStatus, b: BackupStatus) {
    a.state.Rank() <= b.state.Rank() && (a.Terminal() ==> a == b)
  }

  ghost predicate AllFollow(l: BackupList, r: BackupList) {
    forall a, b :: a in l && b in r && a.SameAs(b) ==> Follows(a, b)
  }

  ghost predicate HistoryValid(versions: seq<BackupList>) {
    forall i, j :: 0 <= i <= j < |versions| ==> AllFollow(versions[i], versions[j])
  }

  lemma SameInList(list: BackupList, a: BackupStatus, b: BackupStatus)
    requires NewestFirst(list) && a in list && b in list && a.SameAs(b)
    ensures a == b
  {
    SortKeyInjective(a, b);
    var i :| 0 <= i < |list| && list[i] == a;
    var j :| 0 <= j < |list| && list[j] == b;
    StringLessAsymmetric(a.SortKey(), b.SortKey());
  }

  /** A list whose entries descend from the last one follows every list the last one follows. */
  lemma DescendantsFollow(l: BackupList, last: BackupList, r: BackupList, clock: Instant, now: Instant)
    requires AllFollow(l, last) && AllDescend(r, last, now) && StartedBefore(l, clock) && clock <= now
    ensures AllFollow(l, r)
  {
    forall a, b | a in l && b in r && a.SameAs(b) ensures Follows(a, b) {
      assert Descends(b, last, now);
      if b !in last && !(b.state.Pending? && now < b.scheduledFor) {
        var m :| m in last && m.SameAs(b) &&
            (if m.state.Pending? then b.state.Running? else m.state.Running? && b.Terminal());
        assert Follows(a, m);
      }
    }
  }

  lemma SelfFollows(list: BackupList)
    requires NewestFirst(list)
    ensures AllFollow(list, list)
  {
    forall a, b | a in list && b in list && a.SameAs(b) ensures Follows(a, b) {
      SameInList(list, a, b);
    }
  }

  lemma HistoryAppend(versions: seq<BackupList>, r: BackupList, clock: Instant, now: Instant)
    requires versions != [] && HistoryValid(versions) && clock <= now
    requires forall i :: 0 <= i < |versions| ==> StartedBefore(versions[i], clock)
    requires AllDescend(r, versions[|versions| - 1], now) && NewestFirst(r)
    ensures HistoryValid(versions + [r])
  {
    SelfFollows(r);
    forall i | 0 <= i < |versions| ensures AllFollow(versions[i], r) {
      DescendantsFollow(versions[i], versions[|versions| - 1], r, clock, now);
    }
  }

  /** Only an accepted reconcile of the last version adds one. */
  lemma VersionsGrow(c: Setting, w: World, e: Event, w': World)
    requires w.versions != [] && HandlesBelow(w.threads, |w.runners|) && Next(c, w, e, w') && w'.versions != w.versions
    ensures e.Reconciles? && w'.versions == w.versions + [Reconcile(w.Last(), w.threads, w.runners, c.me, e.env).list]
    ensures w.clock <= e.env.now <= w'.clock && Sane(e.env, c.digits)
  {
  }

  lemma HistoryStep(c: Setting, w: World, e: Event, w': World)
    requires Inv(c, w) && HistoryValid(w.versions) && Next(c, w, e, w')
    ensures HistoryValid(w'.versions)
  {
    if w'.versions != w.versions {
      VersionsGrow(c, w, e, w');
      ReconcileDescends(w.Last(), w.threads, w.runners, c.me, e.env, w.clock, c.digits);
      ReconcileConsistent(w.Last(), w.threads, w.runners, c.me, e.env, w.clock, c.digits);
      HistoryAppend(w.versions, Reconcile(w.Last(), w.threads, w.runners, c.me, e.env).list, w.clock, e.env.now);
    }
  }

  lemma {:induction false} AlwaysHistory(c: Setting, ws: seq<World>, es: seq<Event>, n: nat)
    requires IsTrace(c, ws, es) && n < |ws|
    ensures HistoryValid(ws[n].versions)
  {
    if n > 0 {
      AlwaysHistory(c, ws, es, n - 1);
      AlwaysConsistent(c, ws, es, n - 1);
      HistoryStep(c, ws[n - 1], es[n - 1], ws[n]);
    }
  }

  /** Over every run a backup only moves from pending to running to one of the final states,
      and once it has reached one it never changes. */
  lemma EntriesOnlyAdvance(c: Setting, ws: seq<World>, es: seq<Event>, n: nat, i: nat, j: nat, a: BackupStatus,
                           b: BackupStatus)
    requires IsTrace(c, ws, es) && n < |ws| && i <= j < |ws[n].versions|
    requires a in ws[n].versions[i] && b in ws[n].versions[j] && a.SameAs(b)
    ensures a.state.Rank() <= b.state.Rank() && (a.Terminal() ==> a == b)
  {
    AlwaysHistory(c, ws, es, n);
    assert AllFollow(ws[n].versions[i], ws[n].versions[j]);
  }

  // ---------- one start per key ----------

  /** The runners ever started under a key. */
  ghost function StartedUnder(w: World, key: string): set<nat> {
    set h: nat | h < |w.runners| && w.runners[h].job.key == key && !w.runners[h].worker.Unstarted?
  }

  lemma KeyStays(w: World, w': World, key: string)
    requires HandlesBelow(w.threads, |w.runners|) && Carries(w.threads, w.runners, w'.threads, w'.runners)
    requires key in w.threads && key in w'.threads
    ensures w'.threads[key].handle == w.threads[key].handle && StartedUnder(w', key) == StartedUnder(w, key)
  {
    forall h: nat ensures h in StartedUnder(w', key) <==> h in StartedUnder(w, key) {
      if |w.runners| <= h < |w'.runners| && !w'.runners[h].worker.Unstarted? {
        assert w'.runners[h].job.key !in w.threads;
      }
    }
  }

  ghost predicate CarriesOn(ws: seq<World>) {
    && (forall m :: 0 <= m < |ws| ==> HandlesBelow(ws[m].threads, |ws[m].runners|))
    && (forall m, n :: 0 <= m && n == m + 1 < |ws| ==>
        Carries(ws[m].threads, ws[m].runners, ws[n].threads, ws[n].runners))
  }

  lemma {:induction false} KeyStaysOn(ws: seq<World>, i: nat, j: nat, key: string)
    requires CarriesOn(ws) && i <= j < |ws| && forall m :: i <= m <= j ==> key in ws[m].threads
    ensures ws[j].threads[key].handle == ws[i].threads[key].handle
    ensures StartedUnder(ws[j], key) == StartedUnder(ws[i], key)
    decreases j
  {
    if i < j {
      KeyStaysOn(ws, i, j - 1, key);
      KeyStays(ws[j - 1], ws[j], key);
    }
  }

  lemma TraceCarriesOn(c: Setting, ws: seq<World>, es: seq<Event>)
    requires IsTrace(c, ws, es)
    ensures CarriesOn(ws)
  {
    forall m | 0 <= m < |ws| ensures HandlesBelow(ws[m].threads, |ws[m].runners|) {
      AlwaysConsistent(c, ws, es, m);
    }
    forall m, n | 0 <= m && n == m + 1 < |ws|
      ensures Carries(ws[m].threads, ws[m].runners, ws[n].threads, ws[n].runners)
    {
      TraceStep(c, ws, es, m);
    }
  }

  /** While a key stays in the map, whatever else happens, it keeps its runner and no other
      runner is started under it. */
  lemma StartedOnce(c: Setting, ws: seq<World>, es: seq<Event>, i: nat, j: nat, key: string)
    requires IsTrace(c, ws, es) && i <= j < |ws| && forall m :: i <= m <= j ==> key in ws[m].threads
    ensures ws[j].threads[key].handle == ws[i].threads[key].handle
    ensures StartedUnder(ws[j], key) == StartedUnder(ws[i], key)
  {
    TraceCarriesOn(c, ws, es);
    KeyStaysOn(ws, i, j, key);
  }

  // ---------- settling from any reachable world ----------

  /** From every reachable world, freezing all but accepted reconciles, at most three write. */
  lemma ReachableSettles(c: Setting, ws: seq<World>, es: seq<Event>, n: nat, stages: seq<Stage>, env: Env, k: nat)
    requires IsTrace(c, ws, es) && n < |ws| && FrozenRun(stages, c.me, env) && ws[n].versions != []
    requires stages[0] == Stage(ws[n].Last(), ws[n].threads, ws[n].runners)
    requires ws[n].clock <= env.now && Sane(env, c.digits) && env.historyLimit >= 1 && 3 <= k < |stages|
    ensures !Turn(stages[k], c.me, env).phase.Writes() && stages[k].list == stages[3].list
  {
    AlwaysConsistent(c, ws, es, n);
    SettlesInThree(stages, c.me, env, ws[n].clock, c.digits, k);
  }
}
