/** What a reconcile records about running backups, and whether it is true, over every run. */
module Recording {
  import opened Text
  import opened Backups
  import opened Threads
  import opened Runners
  import opened Clusters
  import opened Controller
  import opened Phases
  import opened Settling
  import opened World
  import opened Keeping

  /** A commit of what a reconcile past phase 2 settled on. */
  lemma SettledCommit(w: World, m: ThreadMap, owner: Owner, env: Env, read: nat, accepted: bool, end: Instant)
    requires w.versions != [] && read == |w.versions| - 1 && HandlesBelow(m, |w.runners|)
    ensures var w' := Commit(w, Settle(w.Last(), m, w.runners, owner, env), read, accepted, end);
            var seen := ObserveAll(w.Last(), owner, env.shards, m, w.runners);
            w'.threads == m && (seen != w.Last() && accepted ==> w'.versions != [] && w'.Last() == seen)
  {
  }

  /** What a reconcile past phase 2 does to the world. */
  lemma SettledTurn(c: Setting, w: World, env: Env, read: nat, accepted: bool, end: Instant, w': World)
    requires Inv(c, w) && ReconcileNext(c, w, env, read, accepted, end, w') && read == |w.versions| - 1
    requires PastPhase2(c, w, env)
    ensures HandlesBelow(w'.threads, |w.runners|)
    ensures forall k :: k in w'.threads ==> k in w.threads && w'.threads[k] == w.threads[k]
    ensures var seen := ObserveAll(w.Last(), c.me, env.shards, w'.threads, w.runners);
            seen != w.Last() && accepted ==> w'.versions != [] && w'.Last() == seen
  {
    TurnSettled(Stage(w.Last(), w.threads, w.runners), c.me, env);
    var m := ReconcileMap(w.threads, c.me.Prefix(), [], env.expired).threads;
    SettledCommit(w, m, c.me, env, read, accepted, end);
  }

  /** What a reconcile past phase 2 leaves of the thread map. */
  lemma SettledThreads(c: Setting, w: World, env: Env, read: nat, accepted: bool, end: Instant, w': World)
    requires Inv(c, w) && ReconcileNext(c, w, env, read, accepted, end, w') && read == |w.versions| - 1
    requires PastPhase2(c, w, env)
    ensures forall k :: k in w'.threads <==> k in w.threads && !(Contains(k, c.me.Prefix()) && k in env.expired)
  {
    TurnSettled(Stage(w.Last(), w.threads, w.runners), c.me, env);
    var m := ReconcileMap(w.threads, c.me.Prefix(), [], env.expired).threads;
    SettledCommit(w, m, c.me, env, read, accepted, end);
  }

  /** Phase 2 of a reconcile of the last list neither starts a backup nor asks for a retry. */
  ghost predicate PastPhase2(c: Setting, w: World, env: Env) {
    w.versions != [] && var l := RunPending(w.Last(), c.me, env.shards, env); l.jobs == [] && !l.requeue
  }

  // ---------- when a runner is not found ----------

  /** How a running backup without a runner is recorded. */
  function NotFound(b: BackupStatus): BackupStatus { b.(state := Unknown, message := "runner not found") }

  /** How a running backup without a server is recorded. */
  function NoServer(b: BackupStatus): BackupStatus { b.(state := Unknown, message := "server not found in cluster") }

  /** The server of a running backup, as the cluster lists it now. */
  function ServerNow(env: Env, b: BackupStatus): Option<Server> {
    if b.serverID.None? then None else LookupServer(env.shards, b.serverID.value)
  }

  /** The key the controller asks for: it goes by the alias the server has now. */
  function KeyNow(c: Setting, env: Env, b: BackupStatus): string
    requires ServerNow(env, b).Some?
  {
    RunnerKey(c.me, b.shard, ServerNow(env, b).value.GetAlias(), b.scheduledFor)
  }

  /** The cluster still lists the server of a backup, under the alias it had at the start. */
  predicate StableAlias(env: Env, b: BackupStatus) {
    b.serverAlias.Some? && ServerNow(env, b).Some? && ServerNow(env, b).value.GetAlias() == b.serverAlias.value
  }

  /** A key tells the alias. */
  lemma KeyTellsAlias(c: Setting, env: Env, b: BackupStatus)
    requires b.serverAlias.Some? && ServerNow(env, b).Some?
    ensures KeyNow(c, env, b) == KeyOf(c, b) <==> StableAlias(env, b)
  {
    var x, y := ServerNow(env, b).value.GetAlias(), b.serverAlias.value;
    var p, q := c.me.Prefix() + (b.shard + "-"), "-" + PrintInt(b.scheduledFor);
    assert KeyNow(c, env, b) == p + x + q && KeyOf(c, b) == p + y + q;
    if p + x + q == p + y + q {
      assert |x| == |y| && x == (p + x + q)[|p|..|p| + |x|] && y == (p + y + q)[|p|..|p| + |y|];
    }
  }

  lemma NeverNotFound(b: BackupStatus, status: RunnerStatus)
    requires b.state.Running?
    ensures Report(b, status) != NotFound(b) && Report(b, status) != NoServer(b) && NoServer(b) != NotFound(b)
  {
    assert |NotFound(b).message| != |NoServer(b).message|;
  }

  /** What an accepted reconcile past phase 2 writes about a running backup is what it observed. */
  lemma ObservedIsWritten(c: Setting, w: World, env: Env, read: nat, accepted: bool, end: Instant, w': World,
                          b: BackupStatus)
    requires Inv(c, w) && ReconcileNext(c, w, env, read, accepted, end, w') && read == |w.versions| - 1
    requires PastPhase2(c, w, env) && b in w.Last()
    ensures HandlesBelow(w'.threads, |w.runners|)
    ensures var o := Observe(b, c.me, env.shards, w'.threads, w.runners);
            o != b && accepted ==> w'.versions != [] && o in w'.Last()
  {
    SettledTurn(c, w, env, read, accepted, end, w');
    var i :| 0 <= i < |w.Last()| && w.Last()[i] == b;
    var seen := ObserveAll(w.Last(), c.me, env.shards, w'.threads, w.runners);
    assert seen[i] == Observe(b, c.me, env.shards, w'.threads, w.runners);
  }

  /** A reconcile past phase 2 records a running backup as "runner not found" exactly when the
      cluster lists its server, and the key under the current alias is not in the map or is stopped
      by this very reconcile; the latter surely if the runner is more than two timeouts old at the
      start of the reconcile, and only if it is at the end. */
  lemma NotFoundExactly(c: Setting, w: World, env: Env, read: nat, accepted: bool, end: Instant, w': World,
                        b: BackupStatus)
    requires Inv(c, w) && ReconcileNext(c, w, env, read, accepted, end, w') && read == |w.versions| - 1
    requires PastPhase2(c, w, env) && b in w.Last() && b.state.Running?
    ensures HandlesBelow(w'.threads, |w.runners|)
    ensures var o := Observe(b, c.me, env.shards, w'.threads, w.runners);
            && (o == NotFound(b) <==>
                  ServerNow(env, b).Some? && (KeyNow(c, env, b) !in w.threads || KeyNow(c, env, b) in env.expired))
            && (o == NotFound(b) && accepted ==> w'.versions != [] && o in w'.Last())
    ensures ServerNow(env, b).Some? && KeyNow(c, env, b) in w.threads ==>
              var job := w.runners[w.threads[KeyNow(c, env, b)].handle].job;
              && (env.now - job.timestamp > 2 * job.timeout ==> KeyNow(c, env, b) in env.expired)
              && (KeyNow(c, env, b) in env.expired ==> end - job.timestamp > 2 * job.timeout)
  {
    ObservedIsWritten(c, w, env, read, accepted, end, w', b);
    SettledThreads(c, w, env, read, accepted, end, w');
    assert b.serverID.Some?;
    ObserveCases(c, env, b, w'.threads, w.runners);
    if ServerNow(env, b).Some? {
      assert c.me.Prefix() <= KeyNow(c, env, b);
    }
  }

  /** What phase 3 makes of a running backup, in all cases. */
  lemma ObserveCases(c: Setting, env: Env, b: BackupStatus, threads: ThreadMap, runners: seq<Runner>)
    requires HandlesBelow(threads, |runners|) && b.state.Running? && b.serverID.Some?
    ensures var o := Observe(b, c.me, env.shards, threads, runners);
            && (ServerNow(env, b).None? <==> o == NoServer(b))
            && (ServerNow(env, b).Some? && KeyNow(c, env, b) !in threads <==> o == NotFound(b))
            && (ServerNow(env, b).Some? && KeyNow(c, env, b) in threads ==>
                  o == Report(b, runners[threads[KeyNow(c, env, b)].handle].status))
            && (o == b <==>
                  && ServerNow(env, b).Some? && KeyNow(c, env, b) in threads
                  && !runners[threads[KeyNow(c, env, b)].handle].status.finished)
  {
    if ServerNow(env, b).Some? && KeyNow(c, env, b) in threads {
      NeverNotFound(b, runners[threads[KeyNow(c, env, b)].handle].status);
    } else {
      NeverNotFound(b, BLANK);
    }
  }

  /** No shard has a server of the id that the backup names. */
  ghost predicate ServerGone(env: Env, b: BackupStatus) {
    forall shard, x :: shard in env.shards && x in shard.servers ==> b.serverID != Some(x.id)
  }

  /** In every run, what an accepted reconcile past phase 2 of the last list makes of a running
      backup: if no shard has its server any more it ends as unknown; it stays running exactly when
      the server is listed, the key under its current alias is in the map after the stops, and the
      runner there has not finished; and in all other cases it is replaced. */
  lemma EndsExactly(c: Setting, ws: seq<World>, es: seq<Event>, n: nat, b: BackupStatus)
    requires IsTrace(c, ws, es) && n < |es| && es[n].Reconciles? && es[n].accepted && ws[n].versions != []
    requires es[n].read == |ws[n].versions| - 1 && PastPhase2(c, ws[n], es[n].env)
    requires b in ws[n].Last() && b.state.Running?
    ensures ws[n + 1].versions != [] && HandlesBelow(ws[n + 1].threads, |ws[n].runners|)
    ensures ServerGone(es[n].env, b) ==>
              b.(state := Unknown, message := "server not found in cluster") in ws[n + 1].Last()
    ensures var env, threads, runners := es[n].env, ws[n + 1].threads, ws[n].runners;
            var o := Observe(b, c.me, env.shards, threads, runners);
            && (o.state.Running? <==>
                  && !ServerGone(env, b) && KeyNow(c, env, b) in threads
                  && !runners[threads[KeyNow(c, env, b)].handle].status.finished)
            && (!o.state.Running? ==> o in ws[n + 1].Last() && b !in ws[n + 1].Last())
            && (o == NoServer(b) <==> ServerGone(env, b))
  {
    AlwaysStep(c, ws, es, n);
    AlwaysConsistent(c, ws, es, n + 1);
    EndsInStep(c, ws[n], es[n].env, es[n].end, ws[n + 1], b);
    assert ServerGone(es[n].env, b) <==> ServerNow(es[n].env, b).None?;
    ObserveCases(c, es[n].env, b, ws[n + 1].threads, ws[n].runners);
  }

  lemma EndsInStep(c: Setting, w: World, env: Env, end: Instant, w': World, b: BackupStatus)
    requires Inv(c, w) && Inv(c, w') && ReconcileNext(c, w, env, |w.versions| - 1, true, end, w')
    requires PastPhase2(c, w, env) && b in w.Last() && b.state.Running?
    ensures HandlesBelow(w'.threads, |w.runners|) && b.serverID.Some?
    ensures var o := Observe(b, c.me, env.shards, w'.threads, w.runners);
            && (o.state.Running? <==> o == b)
            && (o != b ==> o in w'.Last() && b !in w'.Last())
  {
    ObservedIsWritten(c, w, env, |w.versions| - 1, true, end, w', b);
    var o := Observe(b, c.me, env.shards, w'.threads, w.runners);
    ObserveEntry(b, c.me, env.shards, w'.threads, w.runners);
    if o != b && b in w'.Last() {
      SameInList(w'.Last(), o, b);
    }
  }

  // ---------- what is recorded of a runner ----------

  /** A running backup is observed as its runner r says, if its server has kept its alias; and as
      "runner not found" exactly when the alias has changed and nothing is under the new key. */
  ghost predicate ToldBy(c: Setting, env: Env, threads: ThreadMap, runners: seq<Runner>, b: BackupStatus, r: Runner)
    requires HandlesBelow(threads, |runners|)
  {
    var o := Observe(b, c.me, env.shards, threads, runners);
    && (StableAlias(env, b) ==> o == Report(b, r.status))
    && (o == NotFound(b) <==> ServerNow(env, b).Some? && !StableAlias(env, b) && KeyNow(c, env, b) !in threads)
  }

  lemma RunnerObserved(c: Setting, w: World, env: Env, read: nat, accepted: bool, end: Instant, w': World,
                       b: BackupStatus)
    requires Inv(c, w) && ReconcileNext(c, w, env, read, accepted, end, w') && read == |w.versions| - 1
    requires PastPhase2(c, w, env) && b in w.Last() && b.state.Running? && b.serverAlias.Some?
    requires HasRunner(w, b, KeyOf(c, b))
    requires var job := w.runners[w.runnerOf[(b.shard, b.scheduledFor)]].job;
             end - job.timestamp <= 2 * job.timeout
    ensures HandlesBelow(w'.threads, |w.runners|)
    ensures ToldBy(c, env, w'.threads, w.runners, b, w.runners[w.runnerOf[(b.shard, b.scheduledFor)]])
  {
    SettledTurn(c, w, env, read, accepted, end, w');
    ReconcileThreadsStep(c, w, env, read, accepted, end, w');
    ObserveCases(c, env, b, w'.threads, w.runners);
    if ServerNow(env, b).Some? {
      KeyTellsAlias(c, env, b);
      assert KeyOf(c, b) in w.threads && KeyOf(c, b) in w'.threads;
    }
  }

  /** In every run, a reconcile past phase 2 that comes while the runner of a running backup is at
      most two timeouts old, no restart and no clean-up having taken its key since the backup was
      recorded: it records what that runner says, if the server has kept its alias; and it says
      "runner not found" exactly when the alias has changed and no runner is in the map under the
      new key. */
  lemma RecordsTrueOutcome(c: Setting, ws: seq<World>, es: seq<Event>, i: nat, n: nat, b: BackupStatus)
    requires IsTrace(c, ws, es) && n < |es| && ListedSince(ws, i, n, b) && b.state.Running? && b.serverAlias.Some?
    requires forall m :: i <= m < n ==> Spares(es[m], KeyOf(c, b))
    requires es[n].Reconciles? && es[n].read == |ws[n].versions| - 1 && PastPhase2(c, ws[n], es[n].env)
    ensures HasRunner(ws[n], b, KeyOf(c, b)) && HandlesBelow(ws[n + 1].threads, |ws[n].runners|)
    ensures var r := ws[n].runners[ws[n].runnerOf[(b.shard, b.scheduledFor)]];
            es[n].end - r.job.timestamp <= 2 * r.job.timeout ==>
              ToldBy(c, es[n].env, ws[n + 1].threads, ws[n].runners, b, r)
    ensures var o := Observe(b, c.me, es[n].env.shards, ws[n + 1].threads, ws[n].runners);
            o != b && es[n].accepted ==> ws[n + 1].versions != [] && o in ws[n + 1].Last()
  {
    RunnerStays(c, ws, es, i, n, b);
    AlwaysConsistent(c, ws, es, n);
    var w, e, w' := ws[n], es[n], ws[n + 1];
    assert Next(c, w, e, w');
    ObservedIsWritten(c, w, e.env, e.read, e.accepted, e.end, w', b);
    var job := w.runners[w.runnerOf[(b.shard, b.scheduledFor)]].job;
    if e.end - job.timestamp <= 2 * job.timeout {
      RunnerObserved(c, w, e.env, e.read, e.accepted, e.end, w', b);
    }
  }

  /** Not found only if the runner the backup was recorded under is more than two timeouts old or
      the server has another alias now; and surely if it is that old when the reconcile starts,
      unless a later runner has taken the key. */
  lemma NotFoundWhenOld(c: Setting, ws: seq<World>, es: seq<Event>, i: nat, n: nat, b: BackupStatus)
    requires IsTrace(c, ws, es) && n < |es| && ListedSince(ws, i, n, b) && b.state.Running? && b.serverAlias.Some?
    requires forall m :: i <= m < n ==> Spares(es[m], KeyOf(c, b))
    requires es[n].Reconciles? && es[n].read == |ws[n].versions| - 1 && PastPhase2(c, ws[n], es[n].env)
    requires ServerNow(es[n].env, b).Some?
    ensures HasRunner(ws[n], b, KeyOf(c, b)) && HandlesBelow(ws[n + 1].threads, |ws[n].runners|)
    ensures var h := ws[n].runnerOf[(b.shard, b.scheduledFor)];
            var job, key := ws[n].runners[h].job, KeyNow(c, es[n].env, b);
            var lost := Observe(b, c.me, es[n].env.shards, ws[n + 1].threads, ws[n].runners) == NotFound(b);
            && (lost ==> es[n].end - job.timestamp > 2 * job.timeout || !StableAlias(es[n].env, b))
            && (es[n].env.now - job.timestamp > 2 * job.timeout ==>
                  (key in ws[n].threads ==> ws[n].threads[key].handle == h) ==> lost)
  {
    RecordsTrueOutcome(c, ws, es, i, n, b);
    AlwaysConsistent(c, ws, es, n);
    assert Next(c, ws[n], es[n], ws[n + 1]);
    NotFoundExactly(c, ws[n], es[n].env, es[n].read, es[n].accepted, es[n].end, ws[n + 1], b);
  }

  /** What runners have announced stays. */
  ghost predicate KeepsOutcomes(runners: seq<Runner>, runners': seq<Runner>) {
    |runners| <= |runners'| && forall h :: 0 <= h < |runners| && Announced(runners[h].listener) ==>
        SameOutcome(runners[h], runners'[h])
  }

  lemma OutcomesStep(c: Setting, w: World, e: Event, w': World)
    requires Inv(c, w) && Next(c, w, e, w')
    ensures KeepsOutcomes(w.runners, w'.runners)
  {
    if e.RunnerMoves? && Announced(w.runners[e.handle].listener) {
      AnnouncedFrozen(w.runners[e.handle], e.move);
    }
  }

  /** Whatever happens, an announced outcome is the outcome for good. */
  lemma {:induction false} OutcomesKept(c: Setting, ws: seq<World>, es: seq<Event>, i: nat, j: nat, h: nat)
    requires IsTrace(c, ws, es) && i <= j < |ws| && h < |ws[i].runners| && Announced(ws[i].runners[h].listener)
    ensures h < |ws[j].runners| && SameOutcome(ws[i].runners[h], ws[j].runners[h])
    decreases j
  {
    if i < j {
      OutcomesKept(c, ws, es, i, j - 1, h);
      AlwaysConsistent(c, ws, es, j - 1);
      OutcomesStep(c, ws[j - 1], es[j - 1], ws[j]);
      SameOutcomeChain(ws[i].runners[h], ws[j - 1].runners[h], ws[j].runners[h]);
    }
  }

  /** What is recorded of a runner, by the moment its status is read: the state is its true
      outcome exactly outside the window before the error is written; a success comes with its
      file exactly once the file is written; and nothing but the size can change later exactly
      once the event is offered. */
  lemma ReportExactly(b: BackupStatus, r: Runner)
    requires Valid(r) && r.status.finished && b.state.Running?
    ensures var b' := Report(b, r.status);
            && (b'.state.Completed? || b'.state.Failed?)
            && ((b'.state.Completed? <==> Verdict(r.listener)) <==> !Torn(r))
            && (b'.state.Completed? && b'.backupFile == Some(r.job.destination) <==>
                Verdict(r.listener) && !r.listener.Marked?)
            && (b'.state.Completed? && b'.backupFile != Some(r.job.destination) <==> r.listener.Marked?)
            && (b'.state.Completed? ==> b' == b.(state := Completed, message := "backup complete",
                  backupFile := Some(r.status.backupFile), backupSize := Some(r.status.backupSize),
                  finishedAt := Some(r.status.finishedAt)))
            && (b'.state.Failed? <==> Announced(r.listener) && !r.listener.cause.Success?)
            && (b'.state.Failed? ==> b' == b.(state := Failed,
                  message := if r.listener.cause.Timeout? then TIMEOUT_MESSAGE else r.listener.cause.error))
            && (Fixed(r) <==> Announced(r.listener))
  {
    FixedExactly(r);
  }

  /** The same for what a reconcile records in a run of a finished runner whose server has kept its
      alias; and what was announced by then stays so in all the rest of the run. */
  lemma RecordedTruthExactly(c: Setting, ws: seq<World>, es: seq<Event>, i: nat, n: nat, b: BackupStatus)
    requires IsTrace(c, ws, es) && n < |es| && ListedSince(ws, i, n, b) && b.state.Running?
    requires forall m :: i <= m < n ==> b.serverAlias.Some? && Spares(es[m], KeyOf(c, b))
    requires es[n].Reconciles? && es[n].read == |ws[n].versions| - 1 && es[n].accepted
    requires PastPhase2(c, ws[n], es[n].env) && StableAlias(es[n].env, b)
    ensures HasRunner(ws[n], b, KeyOf(c, b))
    ensures var h := ws[n].runnerOf[(b.shard, b.scheduledFor)];
            var r := ws[n].runners[h];
            var b' := Report(b, r.status);
            es[n].end - r.job.timestamp <= 2 * r.job.timeout && r.status.finished ==>
              && b' in ws[n + 1].Last() && (b'.state.Completed? || b'.state.Failed?)
              && ((b'.state.Completed? <==> Verdict(r.listener)) <==> !Torn(r))
              && (b'.state.Completed? && b'.backupFile == Some(r.job.destination) <==>
                    Verdict(r.listener) && !r.listener.Marked?)
              && (Fixed(r) <==> Announced(r.listener))
              && (Announced(r.listener) ==>
                    forall m :: n <= m < |ws| ==> h < |ws[m].runners| && SameOutcome(r, ws[m].runners[h]))
  {
    RecordsTrueOutcome(c, ws, es, i, n, b);
    AlwaysConsistent(c, ws, es, n);
    var h := ws[n].runnerOf[(b.shard, b.scheduledFor)];
    if ws[n].runners[h].status.finished {
      ReportExactly(b, ws[n].runners[h]);
    }
    if Announced(ws[n].runners[h].listener) {
      forall m | n <= m < |ws| ensures h < |ws[m].runners| && SameOutcome(ws[n].runners[h], ws[m].runners[h]) {
        OutcomesKept(c, ws, es, n, m, h);
      }
    }
  }
}
