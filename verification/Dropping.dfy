/** Which pending backups are dropped, over every run on a fixed schedule. */
module Dropping {
  import opened Text
  import opened Backups
  import opened Controller
  import opened Phases
  import opened Settling
  import opened World

  // ---------- what rescheduling drops ----------

  /** Every reconcile schedules by the same schedule. */
  ghost predicate OnSchedule(e: Event, schedule: iset<Instant>) {
    e.Reconciles? && e.env.next.Some? ==> NextAfter(schedule, e.env.now, e.env.next.value)
  }

  ghost predicate ListsOnSchedule(w: World, schedule: iset<Instant>) {
    forall i :: 0 <= i < |w.versions| ==> FromSchedule(w.versions[i], schedule, w.clock)
  }

  lemma FromScheduleLater(list: BackupList, schedule: iset<Instant>, clock: Instant, clock': Instant)
    requires FromSchedule(list, schedule, clock) && clock <= clock'
    ensures FromSchedule(list, schedule, clock')
  {
  }

  lemma ScheduleStep(c: Setting, w: World, e: Event, w': World, schedule: iset<Instant>)
    requires Inv(c, w) && ListsOnSchedule(w, schedule) && Next(c, w, e, w') && OnSchedule(e, schedule)
    ensures ListsOnSchedule(w', schedule)
  {
    ThreadsStep(c, w, e, w');
    forall i | 0 <= i < |w'.versions| ensures FromSchedule(w'.versions[i], schedule, w'.clock) {
      if i < |w.versions| {
        assert w'.versions[i] == w.versions[i];
        FromScheduleLater(w.versions[i], schedule, w.clock, w'.clock);
      } else {
        VersionsGrow(c, w, e, w');
        FromScheduleKept(w.Last(), w.threads, w.runners, c.me, e.env, w.clock, c.digits, schedule);
        FromScheduleLater(w'.versions[i], schedule, e.env.now, w'.clock);
      }
    }
  }

  lemma {:induction false} AlwaysOnSchedule(c: Setting, ws: seq<World>, es: seq<Event>, n: nat, schedule: iset<Instant>)
    requires IsTrace(c, ws, es) && n < |ws| && forall i :: 0 <= i < n ==> OnSchedule(es[i], schedule)
    ensures ListsOnSchedule(ws[n], schedule)
  {
    if n > 0 {
      AlwaysOnSchedule(c, ws, es, n - 1, schedule);
      AlwaysConsistent(c, ws, es, n - 1);
      ScheduleStep(c, ws[n - 1], es[n - 1], ws[n], schedule);
    }
  }

  /** In every run on a fixed schedule, with room in the history, a reconcile drops a pending
      backup of a monitored shard exactly when it has nothing to do before phase 4, may schedule,
      and is made at the very instant the backup is scheduled for. */
  lemma DroppedExactlyAtItsInstant(c: Setting, ws: seq<World>, es: seq<Event>, n: nat, schedule: iset<Instant>,
                                   b: BackupStatus)
    requires IsTrace(c, ws, es) && n < |es| && forall i :: 0 <= i <= n ==> OnSchedule(es[i], schedule)
    requires es[n].Reconciles? && es[n].read < |ws[n].versions| && es[n].env.historyLimit >= 1
    requires b in ws[n].versions[es[n].read] && b.state.Pending? && ShardNamed(es[n].env.shards, b.shard).Some?
    ensures HandlesBelow(ws[n].threads, |ws[n].runners|)
    ensures var w, list, env := ws[n], ws[n].versions[es[n].read], es[n].env;
            !Survives(b, Reconcile(list, w.threads, w.runners, c.me, env).list) <==>
              b.scheduledFor == env.now && NothingToDo(list, w.threads, w.runners, c.me, env) && env.next.Some? &&
                  !env.paused
  {
    AlwaysConsistent(c, ws, es, n);
    AlwaysOnSchedule(c, ws, es, n, schedule);
    assert Next(c, ws[n], es[n], ws[n + 1]);
    PendingDroppedExactly(ws[n].versions[es[n].read], ws[n].threads, ws[n].runners, c.me, es[n].env,
                          ws[n].clock, c.digits, schedule, b);
  }
}
