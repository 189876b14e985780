/** Retries: a reconcile whose status update was refused, or that read a stale list, starts the
    same backup again, and the thread manager turns that into nothing. */
module Retries {
  import opened Backups
  import opened Controller
  import opened Phases
  import opened World
  import opened Keeping

  lemma KeyStep(c: Setting, w: World, e: Event, w': World, key: string)
    requires Inv(c, w) && Next(c, w, e, w') && key in w.threads && Spares(e, key)
    requires var job := w.runners[w.threads[key].handle].job;
             w'.clock - job.timestamp <= 2 * job.timeout
    ensures key in w'.threads && w'.threads[key].handle == w.threads[key].handle
    ensures w.threads[key].handle < |w'.runners|
    ensures w'.runners[w.threads[key].handle].job == w.runners[w.threads[key].handle].job
  {
    ThreadsStep(c, w, e, w');
  }

  /** A key stays in the map as long as its runner is at most two timeouts old. */
  lemma {:induction false} KeyStaysUntilExpiry(c: Setting, ws: seq<World>, es: seq<Event>, i: nat, j: nat, key: string)
    requires IsTrace(c, ws, es) && i <= j < |ws| && key in ws[i].threads
    requires forall m :: i <= m < j ==> Spares(es[m], key)
    ensures ws[i].threads[key].handle < |ws[i].runners|
    ensures var h := ws[i].threads[key].handle;
            ws[j].clock - ws[i].runners[h].job.timestamp <= 2 * ws[i].runners[h].job.timeout ==>
              && key in ws[j].threads && ws[j].threads[key].handle == h
              && h < |ws[j].runners| && ws[j].runners[h].job == ws[i].runners[h].job
    decreases j
  {
    AlwaysConsistent(c, ws, es, i);
    if i < j {
      KeyStaysUntilExpiry(c, ws, es, i, j - 1, key);
      AlwaysConsistent(c, ws, es, j - 1);
      ThreadsStep(c, ws[j - 1], es[j - 1], ws[j]);
      var job := ws[i].runners[ws[i].threads[key].handle].job;
      if ws[j].clock - job.timestamp <= 2 * job.timeout {
        KeyStep(c, ws[j - 1], es[j - 1], ws[j], key);
      }
    }
  }

  lemma {:induction false} ClockGrows(c: Setting, ws: seq<World>, es: seq<Event>, i: nat, j: nat)
    requires IsTrace(c, ws, es) && i <= j < |ws|
    ensures ws[i].clock <= ws[j].clock
    decreases j
  {
    if i < j {
      ClockGrows(c, ws, es, i, j - 1);
      AlwaysConsistent(c, ws, es, j - 1);
      ThreadsStep(c, ws[j - 1], es[j - 1], ws[j]);
    }
  }

  /** The n-th event is a reconcile that read a list with this backup and starts it on a server
      of this alias. */
  ghost predicate Starts(ws: seq<World>, es: seq<Event>, n: nat, b: BackupStatus, alias: string) {
    && n < |es| == |ws| - 1 && es[n].Reconciles? && es[n].read < |ws[n].versions|
    && Monitored(es[n].env.shards) && b in ws[n].versions[es[n].read]
    && Startable(b, es[n].env.shards, es[n].env.now)
    && ServerFor(es[n].env.shards, b.shard).value.GetAlias() == alias
  }

  /** Whatever becomes of its status update, it leaves a started runner under the key. */
  lemma StartLeavesRunner(c: Setting, ws: seq<World>, es: seq<Event>, n: nat, b: BackupStatus, alias: string)
    requires IsTrace(c, ws, es) && Starts(ws, es, n, b, alias)
    ensures RunnerKey(c.me, b.shard, alias, b.scheduledFor) in ws[n + 1].threads
  {
    var w, w', env := ws[n], ws[n + 1], es[n].env;
    var list := w.versions[es[n].read];
    AlwaysConsistent(c, ws, es, n);
    assert Next(c, w, es[n], w');
    var job := LaunchedJob(c, list, env, b);
    OutcomeThreads(list, w.threads, w.runners, c.me, env);
    JobInMap(w, c.me, env, Reconcile(list, w.threads, w.runners, c.me, env), job);
  }

  /** While that runner is young the key stays through every world up to a later one. */
  lemma KeyHeld(c: Setting, ws: seq<World>, es: seq<Event>, i: nat, j: nat, key: string)
    requires IsTrace(c, ws, es) && i <= j < |ws| && key in ws[i].threads
    requires forall m :: i <= m < j ==> Spares(es[m], key)
    ensures ws[i].threads[key].handle < |ws[i].runners|
    ensures var job := ws[i].runners[ws[i].threads[key].handle].job;
            ws[j].clock - job.timestamp <= 2 * job.timeout ==>
              forall m :: i <= m <= j ==> key in ws[m].threads
  {
    KeyStaysUntilExpiry(c, ws, es, i, i, key);
    var job := ws[i].runners[ws[i].threads[key].handle].job;
    if ws[j].clock - job.timestamp <= 2 * job.timeout {
      forall m | i <= m <= j ensures key in ws[m].threads {
        ClockGrows(c, ws, es, m, j);
        KeyStaysUntilExpiry(c, ws, es, i, m, key);
      }
    }
  }

  ghost predicate SameRunner(w: World, w': World, key: string) {
    key in w.threads && key in w'.threads && w'.threads[key].handle == w.threads[key].handle &&
        StartedUnder(w', key) == StartedUnder(w, key)
  }

  /** So it is the same runner all along, and no other is started under the key. */
  lemma HeldMeansOnce(c: Setting, ws: seq<World>, es: seq<Event>, i: nat, j: nat, key: string)
    requires IsTrace(c, ws, es) && i <= j < |ws| && key in ws[i].threads
    requires forall m :: i <= m < j ==> Spares(es[m], key)
    ensures ws[i].threads[key].handle < |ws[i].runners|
    ensures var job := ws[i].runners[ws[i].threads[key].handle].job;
            ws[j].clock - job.timestamp <= 2 * job.timeout ==> SameRunner(ws[i], ws[j], key)
  {
    KeyHeld(c, ws, es, i, j, key);
    var job := ws[i].runners[ws[i].threads[key].handle].job;
    if ws[j].clock - job.timestamp <= 2 * job.timeout {
      StartedOnce(c, ws, es, i, j, key);
    }
  }

  lemma BothLeaveRunners(c: Setting, ws: seq<World>, es: seq<Event>, i: nat, j: nat, a: BackupStatus, b: BackupStatus,
                         alias: string, key: string)
    requires IsTrace(c, ws, es) && Starts(ws, es, i, a, alias) && Starts(ws, es, j, b, alias) && a.SameAs(b)
    requires key == RunnerKey(c.me, a.shard, alias, a.scheduledFor)
    ensures key in ws[i + 1].threads && key in ws[j + 1].threads
  {
    StartLeavesRunner(c, ws, es, i, a, alias);
    StartLeavesRunner(c, ws, es, j, b, alias);
  }

  /** Two reconciles that start the same backup under the same alias, whatever happened to the
      first one's update: unless a restart or a clean-up takes the key, and until the first runner
      is more than two timeouts old, the second starts nothing and the first runner stays. */
  lemma RetryStartsNothing(c: Setting, ws: seq<World>, es: seq<Event>, i: nat, j: nat, a: BackupStatus,
                           b: BackupStatus, alias: string, key: string)
    requires IsTrace(c, ws, es) && i < j && Starts(ws, es, i, a, alias) && Starts(ws, es, j, b, alias) && a.SameAs(b)
    requires key == RunnerKey(c.me, a.shard, alias, a.scheduledFor) && forall m :: i < m < j ==> Spares(es[m], key)
    ensures key in ws[i + 1].threads && key in ws[j + 1].threads
    ensures var h := ws[i + 1].threads[key].handle;
            h < |ws[i + 1].runners| &&
            var job := ws[i + 1].runners[h].job;
            ws[j + 1].clock - job.timestamp <= 2 * job.timeout ==> SameRunner(ws[i + 1], ws[j + 1], key)
  {
    BothLeaveRunners(c, ws, es, i, j, a, b, alias, key);
    HeldMeansOnce(c, ws, es, i + 1, j + 1, key);
  }

  /** A reconcile that starts a backup starts a new runner exactly when its key is not in the map. */
  lemma StartsNewExactly(c: Setting, ws: seq<World>, es: seq<Event>, n: nat, b: BackupStatus, alias: string,
                         key: string)
    requires IsTrace(c, ws, es) && Starts(ws, es, n, b, alias) && key == RunnerKey(c.me, b.shard, alias, b.scheduledFor)
    ensures StartedUnder(ws[n + 1], key) != StartedUnder(ws[n], key) <==> key !in ws[n].threads
  {
    StartLeavesRunner(c, ws, es, n, b, alias);
    AlwaysConsistent(c, ws, es, n);
    AlwaysConsistent(c, ws, es, n + 1);
    TraceStep(c, ws, es, n);
    if key in ws[n].threads {
      KeyStays(ws[n], ws[n + 1], key);
    } else {
      var h := ws[n + 1].threads[key].handle;
      assert h in StartedUnder(ws[n + 1], key) && h !in StartedUnder(ws[n], key);
    }
  }

  /** Two reconciles that start the same backup, while the first runner is young and no restart or
      clean-up took its key, and with nobody else making a runner for the key of the second: the
      second starts another runner exactly when it does so under another alias. */
  lemma SecondRunnerExactly(c: Setting, ws: seq<World>, es: seq<Event>, i: nat, j: nat, a: BackupStatus,
                            b: BackupStatus, x: string, y: string, key: string)
    requires IsTrace(c, ws, es) && i < j && Starts(ws, es, i, a, x) && Starts(ws, es, j, b, y) && a.SameAs(b)
    requires key == RunnerKey(c.me, b.shard, y, b.scheduledFor)
    requires forall m :: i < m < j ==> Spares(es[m], RunnerKey(c.me, a.shard, x, a.scheduledFor))
    requires x != y ==> key !in ws[i + 1].threads && forall m :: i < m < j ==> MakesNone(ws[m], ws[m + 1], key)
    requires var first := RunnerKey(c.me, a.shard, x, a.scheduledFor);
             first in ws[i + 1].threads ==>
               var h := ws[i + 1].threads[first].handle;
               h < |ws[i + 1].runners| ==>
                         var job := ws[i + 1].runners[h].job;
                         ws[j].clock - job.timestamp <= 2 * job.timeout
    ensures StartedUnder(ws[j + 1], key) != StartedUnder(ws[j], key) <==> x != y
  {
    StartsNewExactly(c, ws, es, j, b, y, key);
    if x == y {
      StartLeavesRunner(c, ws, es, i, a, x);
      KeyHeld(c, ws, es, i + 1, j, key);
    } else {
      GoneStaysGone(c, ws, es, i + 1, j, key);
    }
  }
}
