/** What becomes of a running backup while no reconcile gets past phase 2, as when another shard has
    a due backup and no slave to run it on: its runner leaves the thread map, but nobody looks at it. */
module Starvation {
  import opened Text
  import opened Backups
  import opened Threads
  import opened Runners
  import opened Controller
  import opened Phases
  import opened Settling
  import opened World
  import opened Keeping
  import opened Recording

  // ---------- held up ----------

  /** A reconcile of the last list stops at phase 2: it starts a backup or asks for a retry.  A
      reconcile of an older list cannot write anything. */
  ghost predicate HeldUp(c: Setting, w: World, e: Event) {
    e.Reconciles? && w.versions != [] && e.read == |w.versions| - 1 ==> !PastPhase2(c, w, e.env)
  }

  /** A reconcile that stops at phase 2 leaves every entry that it does not start. */
  lemma StoppedReconcile(list: BackupList, threads: ThreadMap, runners: seq<Runner>, owner: Owner, env: Env,
                         b: BackupStatus)
    requires NewestFirst(list) && OneActive(list) && Monitored(env.shards) && ThreadsValid(threads, runners)
    requires b in list && !Startable(b, env.shards, env.now)
    requires var l := RunPending(list, owner, env.shards, env); l.jobs != [] || l.requeue
    ensures var o := Reconcile(list, threads, runners, owner, env);
            b in o.list && (o.phase.Started? || o.phase.NoSlaves?)
  {
    RunPendingList(list, owner, env.shards, env);
    var l := RunPending(list, owner, env.shards, env);
    var i :| 0 <= i < |list| && list[i] == b;
    assert l.list[i] == b;
    MapStaysOk(threads, owner.Prefix(), l.jobs, |runners|, env.expired);
  }

  /** So while reconciles are held up, over any run, every running backup stays as it is. */
  lemma {:induction false} HeldUpFreezes(c: Setting, ws: seq<World>, es: seq<Event>, i: nat, j: nat, b: BackupStatus)
    requires IsTrace(c, ws, es) && i <= j < |ws| && ws[i].versions != []
    requires b in ws[i].Last() && b.state.Running?
    requires forall m :: i <= m < j ==> HeldUp(c, ws[m], es[m])
    ensures ws[j].versions != [] && b in ws[j].Last()
    decreases j
  {
    if i < j {
      var m := j - 1;
      HeldUpFreezes(c, ws, es, i, m, b);
      assert HeldUp(c, ws[m], es[m]);
      HeldUpOnce(c, ws, es, m, b);
    }
  }

  lemma HeldUpOnce(c: Setting, ws: seq<World>, es: seq<Event>, m: nat, b: BackupStatus)
    requires IsTrace(c, ws, es) && m < |es| && ws[m].versions != [] && b in ws[m].Last() && b.state.Running?
    requires HeldUp(c, ws[m], es[m])
    ensures ws[m + 1].versions != [] && b in ws[m + 1].Last()
  {
    AlwaysStep(c, ws, es, m);
    HeldUpStep(c, ws[m], es[m], ws[m + 1], b);
  }

  lemma HeldUpStep(c: Setting, w: World, e: Event, w': World, b: BackupStatus)
    requires Inv(c, w) && Next(c, w, e, w') && HeldUp(c, w, e) && !(b.state.Pending?) && b in w.Last()
    ensures w'.versions != [] && b in w'.Last()
  {
    if w'.versions != w.versions {
      VersionsGrow(c, w, e, w');
      WritesLast(c, w, e, w');
      StoppedReconcile(w.Last(), w.threads, w.runners, c.me, e.env, b);
    }
  }

  lemma WritesLast(c: Setting, w: World, e: Event, w': World)
    requires Next(c, w, e, w') && e.Reconciles? && w'.versions != w.versions
    ensures e.read == |w.versions| - 1
  {
  }

  // ---------- the runner goes ----------

  /** Every reconcile stops a runner of its resource that is more than two timeouts old when it
      starts, unless it makes a runner for the same key. */
  lemma OldRunnerStops(c: Setting, w: World, env: Env, read: nat, accepted: bool, end: Instant, w': World, key: string)
    requires Inv(c, w) && ReconcileNext(c, w, env, read, accepted, end, w') && MakesNone(w, w', key)
    requires c.me.Prefix() <= key
    requires key in w.threads ==>
              var job := w.runners[w.threads[key].handle].job;
              env.now - job.timestamp > 2 * job.timeout
    ensures key !in w'.threads
  {
    var list := w.versions[read];
    OutcomeThreads(list, w.threads, w.runners, c.me, env);
    JobsOwned(list, c.me, env.shards, env);
    var o := Reconcile(list, w.threads, w.runners, c.me, env);
    var made := MadeAll(o.jobs, |w.runners|, o.threads);
    forall h | 0 <= h < |made| ensures made[h].job.key != key {
      assert w'.runners[|w.runners| + h] == made[h];
    }
    NotWanted(o.jobs, c.me.Prefix(), |w.runners|, o.threads, key);
    MapStaysOk(w.threads, c.me.Prefix(), o.jobs, |w.runners|, env.expired);
    ReconcileMeaning(w.threads, c.me.Prefix(), ThreadsFor(o.jobs, |w.runners|), env.expired);
  }

  lemma NotWanted(jobs: seq<Job>, prefix: string, base: nat, threads: ThreadMap, key: string)
    requires KeyedBy(jobs, prefix) && forall i :: 0 <= i < |jobs| ==> MadeAll(jobs, base, threads)[i].job.key != key
    ensures key !in WantedKeys(prefix, ThreadsFor(jobs, base))
  {
    var wanted := ThreadsFor(jobs, base);
    forall t | t in wanted ensures prefix + t.id != key {
      var i :| 0 <= i < |wanted| && wanted[i] == t;
      assert MadeAll(jobs, base, threads)[i] == Made(jobs[i], base + i, threads);
    }
  }

  /** The n-th event is a reconcile that finds nothing under the key, or a runner more than two
      timeouts old; and from then on no runner is made for the key up to the j-th world. */
  ghost predicate GoesAt(ws: seq<World>, es: seq<Event>, n: nat, j: nat, key: string) {
    && n < j < |es| == |ws| - 1 && es[n].Reconciles? && HandlesBelow(ws[n].threads, |ws[n].runners|)
    && (key in ws[n].threads ==>
              var job := ws[n].runners[ws[n].threads[key].handle].job;
              es[n].env.now - job.timestamp > 2 * job.timeout)
    && forall m :: n <= m < j ==> MakesNone(ws[m], ws[m + 1], key)
  }

  lemma KeyGone(c: Setting, ws: seq<World>, es: seq<Event>, n: nat, j: nat, key: string)
    requires IsTrace(c, ws, es) && GoesAt(ws, es, n, j, key) && c.me.Prefix() <= key
    ensures key !in ws[j].threads
  {
    AlwaysConsistent(c, ws, es, n);
    assert Next(c, ws[n], es[n], ws[n + 1]);
    assert MakesNone(ws[n], ws[n + 1], key);
    OldRunnerStops(c, ws[n], es[n].env, es[n].read, es[n].accepted, es[n].end, ws[n + 1], key);
    GoneStaysGone(c, ws, es, n + 1, j, key);
  }

  /** A running backup is lost, whatever its runner has to tell: while reconciles are held up its
      runner gets more than two timeouts old, one of them stops it, and the first reconcile that
      gets past phase 2 records "runner not found". */
  lemma HeldUpBackupIsLost(c: Setting, ws: seq<World>, es: seq<Event>, i: nat, n: nat, j: nat, b: BackupStatus)
    requires IsTrace(c, ws, es) && i <= n < j < |es| && ws[i].versions != []
    requires b in ws[i].Last() && b.state.Running? && forall m :: i <= m < j ==> HeldUp(c, ws[m], es[m])
    requires es[j].Reconciles? && es[j].accepted && es[j].read == |ws[j].versions| - 1
    requires PastPhase2(c, ws[j], es[j].env) && ServerNow(es[j].env, b).Some?
    requires GoesAt(ws, es, n, j, KeyNow(c, es[j].env, b))
    ensures ws[j + 1].versions != [] && NotFound(b) in ws[j + 1].Last()
  {
    var key := KeyNow(c, es[j].env, b);
    assert c.me.Prefix() <= key;
    HeldUpFreezes(c, ws, es, i, j, b);
    KeyGone(c, ws, es, n, j, key);
    AlwaysConsistent(c, ws, es, j);
    assert Next(c, ws[j], es[j], ws[j + 1]);
    NotFoundExactly(c, ws[j], es[j].env, es[j].read, es[j].accepted, es[j].end, ws[j + 1], b);
  }

  // ---------- a shard that blocks the others ----------

  /** A due backup of this shard cannot run. */
  predicate Blocked(p: BackupStatus, env: Env) {
    ShardNamed(env.shards, p.shard).Some? && ServerFor(env.shards, p.shard).None?
  }

  lemma BlockedHoldsUp(c: Setting, w: World, env: Env, p: BackupStatus)
    requires Inv(c, w) && Monitored(env.shards) && p in w.Last() && Due(p, env.now) && Blocked(p, env)
    ensures !PastPhase2(c, w, env) && !Startable(p, env.shards, env.now)
  {
    RunPendingStuck(w.Last(), c.me, env.shards, env);
    assert Stuck(p, env.shards, env.now);
  }

  /** While one due backup is blocked, over any run, it stays pending and due, and holds up every
      reconcile; so every running backup of every shard stays as it is. */
  lemma {:induction false} BlockedFreezes(c: Setting, ws: seq<World>, es: seq<Event>, i: nat, j: nat, p: BackupStatus)
    requires IsTrace(c, ws, es) && i <= j < |ws| && ws[i].versions != []
    requires p in ws[i].Last() && p.state.Pending? && p.scheduledFor < ws[i].clock
    requires forall m :: i <= m < j && es[m].Reconciles? ==> Blocked(p, es[m].env)
    ensures ws[j].versions != [] && p in ws[j].Last() && p.scheduledFor < ws[j].clock
    ensures forall m :: i <= m < j ==> HeldUp(c, ws[m], es[m])
    decreases j
  {
    if i < j {
      BlockedFreezes(c, ws, es, i, j - 1, p);
      AlwaysStep(c, ws, es, j - 1);
      BlockedStep(c, ws[j - 1], es[j - 1], ws[j], p);
    }
  }

  lemma BlockedStep(c: Setting, w: World, e: Event, w': World, p: BackupStatus)
    requires Inv(c, w) && Next(c, w, e, w') && p in w.Last() && p.state.Pending? && p.scheduledFor < w.clock
    requires e.Reconciles? ==> Blocked(p, e.env)
    ensures HeldUp(c, w, e) && w'.versions != [] && p in w'.Last() && p.scheduledFor < w'.clock
  {
    ThreadsStep(c, w, e, w');
    if e.Reconciles? { BlockedHoldsUp(c, w, e.env, p); }
    if w'.versions != w.versions {
      VersionsGrow(c, w, e, w');
      StoppedReconcile(w.Last(), w.threads, w.runners, c.me, e.env, p);
    }
  }

  /** So a backup of a healthy shard is lost: p is blocked up to the k-th world; the reconciles
      between k and j, such as the one that starts p once a slave is there, stop at phase 2 as well;
      and the reconcile at j, the first to get past it, records "runner not found". */
  lemma BlockedBackupIsLost(c: Setting, ws: seq<World>, es: seq<Event>, i: nat, n: nat, k: nat, j: nat, p: BackupStatus,
                            b: BackupStatus)
    requires IsTrace(c, ws, es) && i <= n < j < |es| && i <= k <= j && ws[i].versions != []
    requires p in ws[i].Last() && p.state.Pending? && p.scheduledFor < ws[i].clock
    requires forall m :: i <= m < k && es[m].Reconciles? ==> Blocked(p, es[m].env)
    requires b in ws[i].Last() && b.state.Running? && forall m :: k <= m < j ==> HeldUp(c, ws[m], es[m])
    requires es[j].Reconciles? && es[j].accepted && es[j].read == |ws[j].versions| - 1
    requires PastPhase2(c, ws[j], es[j].env) && ServerNow(es[j].env, b).Some?
    requires GoesAt(ws, es, n, j, KeyNow(c, es[j].env, b))
    ensures ws[j + 1].versions != [] && NotFound(b) in ws[j + 1].Last()
  {
    BlockedFreezes(c, ws, es, i, k, p);
    HeldUpBackupIsLost(c, ws, es, i, n, j, b);
  }
}
