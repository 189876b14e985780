/** What each phase of a reconcile does to a consistent list, entry by entry. */
module Phases {
  import opened Text
  import opened Sorting
  import opened Backups
  import opened Threads
  import opened Runners
  import opened Clusters
  import opened Controller

  // ---------- phase 2 ----------

  function ShardNamed(shards: seq<Shard>, name: string): (r: Option<Shard>)
    ensures r.Some? ==> r.value in shards && r.value.name == name
    ensures r.None? <==> forall s :: s in shards ==> s.name != name
  {
    if shards == [] then None
    else if shards[|shards| - 1].name == name then Some(shards[|shards| - 1])
    else
      assert forall s :: s in shards <==> s == shards[|shards| - 1] || s in shards[..|shards| - 1];
      ShardNamed(shards[..|shards| - 1], name)
  }

  /** The server that would take the backup of a shard. */
  function ServerFor(shards: seq<Shard>, name: string): Option<Server> {
    var shard := ShardNamed(shards, name);
    if shard.None? || SlavesRO(shard.value.servers) == [] then None
    else Some(SlavesRO(shard.value.servers)[0])
  }

  predicate Startable(b: BackupStatus, shards: seq<Shard>, now: Instant) {
    Due(b, now) && ServerFor(shards, b.shard).Some?
  }

  /** Due, monitored, and without a slave to run on. */
  predicate Stuck(b: BackupStatus, shards: seq<Shard>, now: Instant) {
    Due(b, now) && ShardNamed(shards, b.shard).Some? && ServerFor(shards, b.shard).None?
  }

  function Launch(b: BackupStatus, shards: seq<Shard>, now: Instant): BackupStatus {
    if Startable(b, shards, now) then Begin(b, ServerFor(shards, b.shard).value, now) else b
  }

  function LaunchJob(b: BackupStatus, owner: Owner, shards: seq<Shard>, env: Env): Job
    requires ServerFor(shards, b.shard).Some?
  {
    JobFor(owner, b, ServerFor(shards, b.shard).value, env)
  }

  ghost predicate Monitored(shards: seq<Shard>) { Distinct(Names(shards)) }

  lemma MonitoredFront(shards: seq<Shard>)
    requires Monitored(shards) && shards != []
    ensures Monitored(shards[..|shards| - 1])
    ensures ShardNamed(shards[..|shards| - 1], shards[|shards| - 1].name).None?
  {
    var n := |shards| - 1;
    assert forall i :: 0 <= i < n ==> Names(shards)[i] != Names(shards)[n];
    assert Names(shards[..n]) == Names(shards)[..n];
  }

  /** In a consistent list the pending backup that FindLast returns is the only one. */
  lemma OnlyPending(list: BackupList, shard: string, i: nat)
    requires NewestFirst(list) && OneActive(list)
    requires i < |list| && list[i].shard == shard && list[i].state.Pending?
    ensures FindLast(list, shard, Pending) == i
  {
    var pos := FindLast(list, shard, Pending);
    if pos != i { OrderedOnce(list, pos, i); }
  }

  lemma LaunchOneMore(b: BackupStatus, shards: seq<Shard>, now: Instant)
    requires Monitored(shards) && shards != []
    ensures var front, shard := shards[..|shards| - 1], shards[|shards| - 1];
            && (b.shard != shard.name ==> Launch(b, shards, now) == Launch(b, front, now)
                                          && (Startable(b, shards, now) <==> Startable(b, front, now))
                                          && (Stuck(b, shards, now) <==> Stuck(b, front, now)))
            && (b.shard == shard.name ==>
                Launch(b, front, now) == b && !Startable(b, front, now) && !Stuck(b, front, now)
                                          && ShardNamed(shards, b.shard) == Some(shard))
  {
    MonitoredFront(shards);
  }

  /** What the loop body leaves at a position. */
  lemma RunShardAt(list: BackupList, r: Launches, owner: Owner, shards: seq<Shard>, env: Env, i: nat)
    requires NewestFirst(list) && OneActive(list) && Monitored(shards) && shards != [] && i < |list| == |r.list|
    requires forall k :: 0 <= k < |list| ==> r.list[k] == Launch(list[k], shards[..|shards| - 1], env.now)
    ensures var r' := RunShard(r, owner, shards[|shards| - 1], env);
            |r'.list| == |list| && r'.list[i] == Launch(list[i], shards, env.now)
  {
    var name := shards[|shards| - 1].name;
    forall k | 0 <= k < |list|
      ensures r.list[k].shard == list[k].shard && (list[k].shard == name ==> r.list[k] == list[k])
    {
      LaunchOneMore(list[k], shards, env.now);
    }
    LaunchOneMore(list[i], shards, env.now);
    FindSame(list, r.list, name);
    if list[i].shard == name && list[i].state.Pending? {
      OnlyPending(list, name, i);
    }
  }

  /** The loop over the shards starts exactly the due backups of monitored shards that have a
      read-only slave, each on the slave with the least id, and changes nothing else. */
  lemma {:induction false} RunPendingList(list: BackupList, owner: Owner, shards: seq<Shard>, env: Env)
    requires NewestFirst(list) && OneActive(list) && Monitored(shards)
    ensures var r := RunPending(list, owner, shards, env).list;
            |r| == |list| && forall i :: 0 <= i < |list| ==> r[i] == Launch(list[i], shards, env.now)
  {
    if shards != [] {
      var front := shards[..|shards| - 1];
      MonitoredFront(shards);
      RunPendingList(list, owner, front, env);
      var r := RunPending(list, owner, front, env);
      forall i | 0 <= i < |list|
        ensures |RunPending(list, owner, shards, env).list| == |list|
        ensures RunPending(list, owner, shards, env).list[i] == Launch(list[i], shards, env.now)
      {
        RunShardAt(list, r, owner, shards, env, i);
      }
    }
  }

  /** The entry of a backup that is started, spelled out: it names the read-only slave with the least
      id, by its id and by its alias (or its id, if it has none), and the instant of the reconcile. */
  lemma StartedNames(list: BackupList, owner: Owner, env: Env, b: BackupStatus, shard: Shard, x: Server)
    returns (r: BackupStatus)
    requires NewestFirst(list) && OneActive(list) && Monitored(env.shards)
    requires b in list && b.state.Pending? && b.scheduledFor < env.now
    requires shard in env.shards && shard.name == b.shard && DistinctIDs(shard.servers)
    requires x in shard.servers && ConfiguredReadOnly(x)
    requires forall y :: y in shard.servers && ConfiguredReadOnly(y) && y != x ==> StringLess(x.id, y.id)
    ensures r in RunPending(list, owner, env.shards, env).list && r.state.Running?
    ensures r.shard == b.shard && r.scheduledFor == b.scheduledFor
    ensures r.serverID == Some(x.id) && r.serverAlias == Some(if x.alias == "" then x.id else x.alias)
    ensures r.startedAt == Some(env.now) && r.message == "backup is running"
    ensures r.finishedAt == b.finishedAt && r.backupFile == b.backupFile && r.backupSize == b.backupSize
  {
    RunPendingList(list, owner, env.shards, env);
    var i :| 0 <= i < |list| && list[i] == b;
    r := RunPending(list, owner, env.shards, env).list[i];
    OnlyShardNamed(env.shards, shard);
    ChosenSlave(shard.servers, x);
  }

  lemma OnlyShardNamed(shards: seq<Shard>, shard: Shard)
    requires Monitored(shards) && shard in shards
    ensures ShardNamed(shards, shard.name) == Some(shard)
  {
    var found := ShardNamed(shards, shard.name).value;
    var i :| 0 <= i < |shards| && shards[i] == shard;
    var j :| 0 <= j < |shards| && shards[j] == found;
    assert Names(shards)[i] == Names(shards)[j];
  }

  /** Lists that agree on one shard agree on its pending backup. */
  lemma {:induction false} FindSame(a: BackupList, b: BackupList, shard: string)
    requires |a| == |b|
    requires forall i :: 0 <= i < |a| ==> a[i].shard == b[i].shard && (a[i].shard == shard ==> a[i] == b[i])
    ensures FindLast(a, shard, Pending) == FindLast(b, shard, Pending)
  {
    var i, j := FindLast(a, shard, Pending), FindLast(b, shard, Pending);
    assert i >= 0 ==> b[i] == a[i];
    assert j >= 0 ==> a[j] == b[j];
  }

  ghost predicate IsLaunchJob(j: Job, list: BackupList, owner: Owner, shards: seq<Shard>, env: Env) {
    exists b :: b in list && Startable(b, shards, env.now) && j == LaunchJob(b, owner, shards, env)
  }

  ghost predicate AnyStuck(list: BackupList, shards: seq<Shard>, now: Instant) {
    exists b :: b in list && Stuck(b, shards, now)
  }

  /** What becomes of one more shard at the end of the loop. */
  lemma RunShardMeaning(list: BackupList, owner: Owner, shards: seq<Shard>, env: Env)
    requires NewestFirst(list) && OneActive(list) && Monitored(shards) && shards != []
    ensures var front, shard := shards[..|shards| - 1], shards[|shards| - 1];
            var r0, r := RunPending(list, owner, front, env), RunPending(list, owner, shards, env);
            var pos := FindLast(list, shard.name, Pending);
            if pos >= 0 && Startable(list[pos], shards, env.now)
            then r.jobs == r0.jobs + [LaunchJob(list[pos], owner, shards, env)] && r.requeue == r0.requeue
            else r.jobs == r0.jobs && (r.requeue <==> r0.requeue || (pos >= 0 && Stuck(list[pos], shards, env.now)))
  {
    var front, shard := shards[..|shards| - 1], shards[|shards| - 1];
    MonitoredFront(shards);
    RunPendingList(list, owner, front, env);
    var r0 := RunPending(list, owner, front, env);
    forall k | 0 <= k < |list|
      ensures r0.list[k].shard == list[k].shard && (list[k].shard == shard.name ==> r0.list[k] == list[k])
    {
      LaunchOneMore(list[k], shards, env.now);
    }
    FindSame(list, r0.list, shard.name);
    var pos := FindLast(list, shard.name, Pending);
    if pos >= 0 { LaunchOneMore(list[pos], shards, env.now); }
  }

  /** The pending backup of the last shard is the only one the last round can concern. */
  lemma LastRound(list: BackupList, shards: seq<Shard>, now: Instant, b: BackupStatus)
    requires NewestFirst(list) && OneActive(list) && Monitored(shards) && shards != [] && b in list
    ensures var front, name := shards[..|shards| - 1], shards[|shards| - 1].name;
            var pos := FindLast(list, name, Pending);
            var here := pos >= 0 && b == list[pos];
            && (Startable(b, shards, now) <==> Startable(b, front, now) || (here && Startable(list[pos], shards, now)))
            && (Stuck(b, shards, now) <==> Stuck(b, front, now) || (here && Stuck(list[pos], shards, now)))
  {
    LaunchOneMore(b, shards, now);
    if b.shard == shards[|shards| - 1].name && b.state.Pending? {
      var i :| 0 <= i < |list| && list[i] == b;
      OnlyPending(list, b.shard, i);
    }
  }

  lemma JobOneMore(b: BackupStatus, owner: Owner, shards: seq<Shard>, env: Env)
    requires Monitored(shards) && shards != [] && Startable(b, shards[..|shards| - 1], env.now)
    ensures Startable(b, shards, env.now)
    ensures LaunchJob(b, owner, shards, env) == LaunchJob(b, owner, shards[..|shards| - 1], env)
  {
    LaunchOneMore(b, shards, env.now);
  }

  /** A runner is made for exactly the backups that are started. */
  lemma {:induction false} RunPendingJobs(list: BackupList, owner: Owner, shards: seq<Shard>, env: Env)
    requires NewestFirst(list) && OneActive(list) && Monitored(shards)
    ensures forall j :: j in RunPending(list, owner, shards, env).jobs <==> IsLaunchJob(j, list, owner, shards, env)
  {
    if shards != [] {
      var front, name := shards[..|shards| - 1], shards[|shards| - 1].name;
      MonitoredFront(shards);
      RunPendingJobs(list, owner, front, env);
      RunShardMeaning(list, owner, shards, env);
      var r0, r := RunPending(list, owner, front, env).jobs, RunPending(list, owner, shards, env).jobs;
      var pos := FindLast(list, name, Pending);
      forall j | IsLaunchJob(j, list, owner, shards, env) ensures j in r {
        var b :| b in list && Startable(b, shards, env.now) && j == LaunchJob(b, owner, shards, env);
        LastRound(list, shards, env.now, b);
        if Startable(b, front, env.now) {
          JobOneMore(b, owner, shards, env);
          assert IsLaunchJob(j, list, owner, front, env);
        }
      }
      forall j | j in r ensures IsLaunchJob(j, list, owner, shards, env) {
        if j in r0 {
          var b :| b in list && Startable(b, front, env.now) && j == LaunchJob(b, owner, front, env);
          JobOneMore(b, owner, shards, env);
        } else {
          assert list[pos] in list;
        }
      }
    }
  }

  /** The reconcile is repeated in a minute exactly when a due backup has no slave to run on. */
  lemma {:induction false} RunPendingStuck(list: BackupList, owner: Owner, shards: seq<Shard>, env: Env)
    requires NewestFirst(list) && OneActive(list) && Monitored(shards)
    ensures RunPending(list, owner, shards, env).requeue <==> AnyStuck(list, shards, env.now)
  {
    if shards != [] {
      var front, name := shards[..|shards| - 1], shards[|shards| - 1].name;
      MonitoredFront(shards);
      RunPendingStuck(list, owner, front, env);
      RunShardMeaning(list, owner, shards, env);
      var pos := FindLast(list, name, Pending);
      forall b | b in list
        ensures Stuck(b, shards, env.now) <==>
                Stuck(b, front, env.now) || (pos >= 0 && b == list[pos] && Stuck(list[pos], shards, env.now))
      {
        LastRound(list, shards, env.now, b);
      }
      assert pos >= 0 ==> list[pos] in list;
    }
  }

  // ---------- changing entries in place ----------

  /** Changing entries in place, without touching shard or instant and without reviving any,
      keeps the list consistent. */
  lemma PointwiseConsistent(list: BackupList, r: BackupList, clock: Instant, clock': Instant, d: nat)
    requires Consistent(list, clock, d) && |r| == |list|
    requires forall i :: 0 <= i < |list| ==> r[i].SameAs(list[i]) && (r[i].Active() ==> list[i].Active())
    requires forall b :: b in r && !b.state.Pending? ==> b.scheduledFor < clock'
    requires Attributed(r)
    ensures Consistent(r, clock', d)
  {
    forall i, j | 0 <= i < j < |r| ensures Newer(r[i], r[j]) {
      assert Newer(list[i], list[j]);
    }
    forall a, b | a in r && b in r && a.shard == b.shard && a.Active() && a != b
      ensures b.scheduledFor < a.scheduledFor
    {
      var i :| 0 <= i < |r| && r[i] == a;
      var j :| 0 <= j < |r| && r[j] == b;
      OrderedOnce(list, i, j);
      assert list[i] in list && list[j] in list;
    }
    forall b | b in r ensures HasDigits(b.scheduledFor, d) {
      var i :| 0 <= i < |r| && r[i] == b;
      assert list[i] in list;
    }
  }

  lemma LaunchConsistent(list: BackupList, owner: Owner, env: Env, clock: Instant, d: nat)
    requires Consistent(list, clock, d) && clock <= env.now && Monitored(env.shards)
    ensures Consistent(RunPending(list, owner, env.shards, env).list, env.now, d)
  {
    RunPendingList(list, owner, env.shards, env);
    var r := RunPending(list, owner, env.shards, env).list;
    forall b | b in r
      ensures (!b.state.Pending? ==> b.scheduledFor < env.now) &&
          (b.state.Running? ==> b.serverID.Some? && b.serverAlias.Some?)
    {
      var i :| 0 <= i < |r| && r[i] == b;
      assert list[i] in list;
    }
    PointwiseConsistent(list, r, clock, env.now, d);
  }

  /** Looking at a running backup leaves it as it is or ends it; it never changes any other. */
  lemma ObserveEntry(b: BackupStatus, owner: Owner, shards: seq<Shard>, threads: ThreadMap, runners: seq<Runner>)
    requires HandlesBelow(threads, |runners|)
    ensures var r := Observe(b, owner, shards, threads, runners);
            r == b || (r.SameAs(b) && b.state.Running? && r.Terminal())
  {
  }

  ghost predicate EndsSome(list: BackupList, r: BackupList) {
    |r| == |list| && forall i :: 0 <= i < |list| ==>
        r[i] == list[i] || (r[i].SameAs(list[i]) && list[i].state.Running? && r[i].Terminal())
  }

  lemma ObserveEnds(list: BackupList, owner: Owner, shards: seq<Shard>, threads: ThreadMap, runners: seq<Runner>)
    requires HandlesBelow(threads, |runners|)
    ensures EndsSome(list, ObserveAll(list, owner, shards, threads, runners))
  {
    var r := ObserveAll(list, owner, shards, threads, runners);
    forall i | 0 <= i < |list|
      ensures r[i] == list[i] || (r[i].SameAs(list[i]) && list[i].state.Running? && r[i].Terminal())
    {
      ObserveEntry(list[i], owner, shards, threads, runners);
    }
  }

  lemma EndsConsistent(list: BackupList, r: BackupList, clock: Instant, clock': Instant, d: nat)
    requires Consistent(list, clock, d) && clock <= clock' && EndsSome(list, r)
    ensures Consistent(r, clock', d)
  {
    forall b | b in r
      ensures (!b.state.Pending? ==> b.scheduledFor < clock') &&
          (b.state.Running? ==> b.serverID.Some? && b.serverAlias.Some?)
    {
      var i :| 0 <= i < |r| && r[i] == b;
      assert list[i] in list;
    }
    PointwiseConsistent(list, r, clock, clock', d);
  }

  // ---------- phase 4 ----------

  /** Another pending backup than the one the schedule asks for. */
  predicate Replaced(b: BackupStatus, shards: seq<string>, next: Instant) {
    b.state.Pending? && b.shard in shards && b.scheduledFor != next
  }

  /** The shard needs no new backup: one is running, or is pending for the next instant. */
  predicate Covered(list: BackupList, shard: string, next: Instant) {
    exists b | b in list :: b.shard == shard && (b.state.Running? || (b.state.Pending? && b.scheduledFor == next))
  }

  ghost predicate AfterSchedule(x: BackupStatus, list: BackupList, shards: seq<string>, next: Instant) {
    || (x in list && !Replaced(x, shards, next))
    || (x.shard in shards && x == NewBackup(x.shard, next) && !Covered(list, x.shard, next))
  }

  /** What is added is pending for that instant, and nothing is known of it yet. */
  lemma AddedIsBlank(x: BackupStatus, list: BackupList, shards: seq<string>, next: Instant)
    requires AfterSchedule(x, list, shards, next) && x !in list
    ensures x.state == Pending && x.scheduledFor == next && x.message == "backup scheduled" && x.shard in shards
    ensures x.serverAlias == x.serverID == x.backupFile == None && x.startedAt == x.finishedAt == None
    ensures x.backupSize == None
  {
  }

  lemma SubsetConsistent(list: BackupList, r: BackupList, clock: Instant, d: nat)
    requires Consistent(list, clock, d) && NewestFirst(r) && forall x :: x in r ==> x in list
    ensures Consistent(r, clock, d)
  {
  }

  lemma FindAny(list: BackupList, shard: string, state: State)
    ensures FindLast(list, shard, state) >= 0 <==> exists b :: b in list && b.shard == shard && b.state == state
  {
    var pos := FindLast(list, shard, state);
    if pos >= 0 { assert list[pos] in list; }
  }

  /** What scheduling one shard does. */
  lemma ScheduleShardMeaning(s: Schedules, shard: string, next: Instant, clock: Instant, d: nat)
    requires Consistent(s.list, clock, d) && clock <= next && HasDigits(next, d)
    ensures var r := ScheduleShard(s, shard, next);
            && Consistent(r.list, clock, d)
            && (forall x :: x in r.list <==> AfterSchedule(x, s.list, [shard], next))
            && (r.changed <==> s.changed || !Covered(s.list, shard, next))
  {
    var list := s.list;
    FindAny(list, shard, Running);
    FindAny(list, shard, Pending);
    var running, pos := FindLast(list, shard, Running), FindLast(list, shard, Pending);
    if running >= 0 {
      assert list[running] in list;
    } else if pos >= 0 && list[pos].scheduledFor == next {
      assert list[pos] in list;
      assert forall x :: x in list && Replaced(x, [shard], next) ==> x != list[pos];
    } else {
      AddsNewBackup(list, shard, next, clock, d);
    }
  }

  /** Dropping the pending backup of a shard without a running one leaves no active one. */
  lemma DropPending(list: BackupList, shard: string, clock: Instant, d: nat) returns (rest: BackupList)
    requires Consistent(list, clock, d) && FindLast(list, shard, Running) < 0
    ensures var pos := FindLast(list, shard, Pending); rest == if pos >= 0 then Without(list, pos) else list
    ensures Consistent(rest, clock, d)
    ensures forall x :: x in rest <==> x in list && !(x.shard == shard && x.Active())
  {
    FindAny(list, shard, Running);
    FindAny(list, shard, Pending);
    var pos := FindLast(list, shard, Pending);
    if pos >= 0 {
      rest := Without(list, pos);
      WithoutKeepsOrder(list, pos);
      SubsetConsistent(list, rest, clock, d);
      assert list[pos] in list;
    } else {
      rest := list;
    }
  }

  lemma AddPending(rest: BackupList, added: BackupStatus, clock: Instant, d: nat)
    requires Consistent(rest, clock, d) && added.state.Pending?
    requires clock <= added.scheduledFor && HasDigits(added.scheduledFor, d)
    requires forall x :: x in rest && x.shard == added.shard ==> !x.Active()
    ensures Consistent(With(rest, added), clock, d)
    ensures forall x :: x in With(rest, added) <==> x in rest || x == added
  {
    WithKeepsOrder(rest, added);
  }

  lemma AddsNewBackup(list: BackupList, shard: string, next: Instant, clock: Instant, d: nat)
    requires Consistent(list, clock, d) && clock <= next && HasDigits(next, d)
    requires FindLast(list, shard, Running) < 0
    requires var pos := FindLast(list, shard, Pending); pos < 0 || list[pos].scheduledFor != next
    ensures var r := ScheduleShard(Schedules(list, false), shard, next).list;
            && Consistent(r, clock, d) && !Covered(list, shard, next)
            && (forall x :: x in r <==> AfterSchedule(x, list, [shard], next))
  {
    var rest := DropPending(list, shard, clock, d);
    AddPending(rest, NewBackup(shard, next), clock, d);
    var r := With(rest, NewBackup(shard, next));
    forall x | x in list && x.shard == shard
      ensures !(x.state.Running? || (x.state.Pending? && x.scheduledFor == next))
    {
      var i :| 0 <= i < |list| && list[i] == x;
      if x.state.Pending? { OnlyPending(list, shard, i); }
    }
    AfterOne(list, rest, r, shard, next);
  }

  lemma AfterOne(list: BackupList, rest: BackupList, r: BackupList, shard: string, next: Instant)
    requires forall x :: x in rest <==> x in list && !(x.shard == shard && x.Active())
    requires forall x :: x in r <==> x in rest || x == NewBackup(shard, next)
    requires forall x :: x in list && x.shard == shard ==>
        !(x.state.Running? || (x.state.Pending? && x.scheduledFor == next))
    ensures !Covered(list, shard, next)
    ensures forall x :: x in r <==> AfterSchedule(x, list, [shard], next)
  {
  }

  /** What scheduling every shard does: replace the pending backups of listed shards that are
      for another instant, and add one for every shard that is not covered. */
  lemma {:induction false} ScheduleAllMeaning(list: BackupList, shards: seq<string>, next: Instant, clock: Instant,
                                              d: nat)
    requires Consistent(list, clock, d) && clock <= next && HasDigits(next, d) && Distinct(shards)
    ensures var r := ScheduleAll(list, shards, next);
            && Consistent(r.list, clock, d)
            && (forall x :: x in r.list <==> AfterSchedule(x, list, shards, next))
            && (r.changed <==> exists z :: z in shards && !Covered(list, z, next))
  {
    if shards != [] {
      var front, z := shards[..|shards| - 1], shards[|shards| - 1];
      ScheduleAllMeaning(list, front, next, clock, d);
      var s := ScheduleAll(list, front, next);
      ScheduleShardMeaning(s, z, next, clock, d);
      assert z !in front;
      CoveredSame(list, s.list, front, z, next);
      forall x ensures AfterSchedule(x, s.list, [z], next) <==> AfterSchedule(x, list, shards, next) {
        assert x in s.list <==> AfterSchedule(x, list, front, next);
        assert x.shard in shards <==> x.shard in front || x.shard == z;
      }
    }
  }

  lemma CoveredSame(list: BackupList, s: BackupList, front: seq<string>, z: string, next: Instant)
    requires forall x :: x in s <==> AfterSchedule(x, list, front, next)
    requires z !in front
    ensures Covered(s, z, next) <==> Covered(list, z, next)
  {
    assert forall x: BackupStatus :: x.shard == z ==> (x in s <==> x in list);
  }

  /** Scheduling for an instant at which a backup of the shard has already ended lists both: this
      is what a schedule that never matches again comes to, whose next instant is the zero time. */
  lemma EndedInstantListedTwice(b: BackupStatus)
    requires b.Terminal()
    ensures var r := ScheduleShard(Schedules([b], false), b.shard, b.scheduledFor).list;
            b in r && NewBackup(b.shard, b.scheduledFor) in r && !NewestFirst(r)
  {
    var list := [b];
    assert list[1..] == [];
    var n := NewBackup(b.shard, b.scheduledFor);
    var r := With(list, n);
    SortElements(Newer, list + [n]);
    assert b in list + [n] && n in list + [n];
    assert b in r && n in r;
    SortKeyInjective(b, n);
    var i :| 0 <= i < |r| && r[i] == b;
    var j :| 0 <= j < |r| && r[j] == n;
    StringLessAsymmetric(b.SortKey(), n.SortKey());
    assert !Newer(b, n) && !Newer(n, b);
  }

  lemma RescheduleConsistent(list: BackupList, shards: seq<string>, limit: nat, next: Instant, clock: Instant, d: nat)
    requires Consistent(list, clock, d) && clock <= next && HasDigits(next, d) && Distinct(shards)
    ensures Consistent(Reschedule(list, shards, limit, next).list, clock, d)
    ensures forall x :: x in Reschedule(list, shards, limit, next).list ==> AfterSchedule(x, list, shards, next)
    ensures Reschedule(list, shards, limit, next).list == Trim(ScheduleAll(list, shards, next).list, limit, shards)
  {
    ScheduleAllMeaning(list, shards, next, clock, d);
    var s := ScheduleAll(list, shards, next).list;
    HistoryLimitIsTrim(s, limit, shards);
    TrimElements(s, limit, shards);
    TrimOrdered(s, limit, shards);
    SubsetConsistent(s, Trim(s, limit, shards), clock, d);
  }

  // ---------- the whole reconcile ----------

  /** What the clock, the cron schedule and the cluster owe to a reconcile. */
  ghost predicate Sane(env: Env, d: nat) {
    && Monitored(env.shards)
    && (env.next.Some? ==> env.now < env.next.value && HasDigits(env.next.value, d))
  }

  lemma ReconcileConsistent(list: BackupList, threads: ThreadMap, runners: seq<Runner>, owner: Owner, env: Env,
                            clock: Instant, d: nat)
    requires Consistent(list, clock, d) && clock <= env.now && Sane(env, d) && HandlesBelow(threads, |runners|)
    ensures Consistent(Reconcile(list, threads, runners, owner, env).list, env.now, d)
  {
    var l := RunPending(list, owner, env.shards, env);
    var m := ReconcileMap(threads, owner.Prefix(), ThreadsFor(l.jobs, |runners|), env.expired);
    LaunchConsistent(list, owner, env, clock, d);
    if m.ok && l.jobs == [] && !l.requeue {
      HandlesStayBelow(threads, owner.Prefix(), env.expired, |runners|);
      ObserveEnds(list, owner, env.shards, m.threads, runners);
      EndsConsistent(list, ObserveAll(list, owner, env.shards, m.threads, runners), clock, env.now, d);
      if env.next.Some? {
        ShardNamesMeaning(env.shards);
        RescheduleConsistent(list, ShardNames(env.shards), env.historyLimit, env.next.value, env.now, d);
      }
    }
  }

  /** How an entry may come about in one reconcile. */
  ghost predicate Descends(b: BackupStatus, list: BackupList, now: Instant) {
    || b in list
    || (b.state.Pending? && now < b.scheduledFor)
    || (exists a ::
          a in list && a.SameAs(b) && (if a.state.Pending? then b.state.Running? else a.state.Running? && b.Terminal()))
  }

  ghost predicate AllDescend(r: BackupList, list: BackupList, now: Instant) {
    forall b :: b in r ==> Descends(b, list, now)
  }

  lemma LaunchDescends(list: BackupList, owner: Owner, env: Env)
    requires NewestFirst(list) && OneActive(list) && Monitored(env.shards)
    ensures AllDescend(RunPending(list, owner, env.shards, env).list, list, env.now)
  {
    RunPendingList(list, owner, env.shards, env);
    var r := RunPending(list, owner, env.shards, env).list;
    forall b | b in r ensures Descends(b, list, env.now) {
      var i :| 0 <= i < |r| && r[i] == b;
      assert list[i] in list && list[i].SameAs(b);
    }
  }

  lemma EndsDescend(list: BackupList, r: BackupList, now: Instant)
    requires EndsSome(list, r)
    ensures AllDescend(r, list, now)
  {
    forall b | b in r ensures Descends(b, list, now) {
      var i :| 0 <= i < |r| && r[i] == b;
      assert list[i] in list && list[i].SameAs(b);
    }
  }

  /** Every entry a reconcile leaves was there, is new and in the future, or is the next
      stage of one that was there. */
  lemma ReconcileDescends(list: BackupList, threads: ThreadMap, runners: seq<Runner>, owner: Owner, env: Env,
                          clock: Instant, d: nat)
    requires Consistent(list, clock, d) && clock <= env.now && Sane(env, d) && HandlesBelow(threads, |runners|)
    ensures AllDescend(Reconcile(list, threads, runners, owner, env).list, list, env.now)
  {
    var l := RunPending(list, owner, env.shards, env);
    var m := ReconcileMap(threads, owner.Prefix(), ThreadsFor(l.jobs, |runners|), env.expired);
    LaunchDescends(list, owner, env);
    if m.ok && l.jobs == [] && !l.requeue {
      HandlesStayBelow(threads, owner.Prefix(), env.expired, |runners|);
      ObserveEnds(list, owner, env.shards, m.threads, runners);
      EndsDescend(list, ObserveAll(list, owner, env.shards, m.threads, runners), env.now);
      if env.next.Some? {
        ShardNamesMeaning(env.shards);
        RescheduleConsistent(list, ShardNames(env.shards), env.historyLimit, env.next.value, env.now, d);
      }
    }
  }
}
