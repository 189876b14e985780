/** The persisted list of backups of a ShardedRedisBackup resource
    (api/v1alpha1/shardedredisbackup_types.go). */
module Backups {
  import opened Text
  import opened Sorting

  datatype State = Pending | Running | Completed | Failed | Unknown {
    /** How far along its life a backup is. */
    function Rank(): nat {
      match this case Pending => 0 case Running => 1 case _ => 2
    }
  }

  datatype BackupStatus = BackupStatus(
    shard: string,
    serverAlias: Option<string>,
    serverID: Option<string>,
    scheduledFor: Instant,
    startedAt: Option<Instant>,
    finishedAt: Option<Instant>,
    message: string,
    state: State,
    backupFile: Option<string>,
    backupSize: Option<int>)
  {
    predicate Active() { state.Pending? || state.Running? }

    predicate Terminal() { !Active() }

    /** The text by which BackupStatusList.Less compares. */
    function SortKey(): string { PrintInt(scheduledFor) + "-" + shard }

    /** A backup is identified by its shard and the instant it is scheduled for. */
    predicate SameAs(other: BackupStatus) {
      shard == other.shard && scheduledFor == other.scheduledFor
    }
  }

  type BackupList = seq<BackupStatus>

  /** sort.Reverse of BackupStatusList.Less. */
  predicate Newer(a: BackupStatus, b: BackupStatus) {
    StringLess(b.SortKey(), a.SortKey())
  }

  lemma NewerIsOrder()
    ensures StrictWeakOrder(Newer)
  {
    forall a, b | Newer(a, b) ensures !Newer(b, a) {
      StringLessAsymmetric(a.SortKey(), b.SortKey());
    }
    forall a, b, c | Newer(a, c) ensures Newer(a, b) || Newer(b, c) {
      StringLessTotal(a.SortKey(), b.SortKey());
      if StringLess(a.SortKey(), b.SortKey()) {
        StringLessTransitive(c.SortKey(), a.SortKey(), b.SortKey());
      }
    }
  }

  /** The sort key identifies the backup. */
  lemma SortKeyInjective(a: BackupStatus, b: BackupStatus)
    ensures a.SortKey() == b.SortKey() <==> a.SameAs(b)
    ensures a.SameAs(b) || Newer(a, b) || Newer(b, a)
  {
    StringLessTotal(a.SortKey(), b.SortKey());
    if a.SortKey() == b.SortKey() {
      var m, n := a.scheduledFor, b.scheduledFor;
      var x, y := Decimal(if m < 0 then -m else m), Decimal(if n < 0 then -n else n);
      DecimalIsDigits(if m < 0 then -m else m);
      DecimalIsDigits(if n < 0 then -n else n);
      assert a.SortKey()[0] == (if m < 0 then '-' else x[0]);
      assert b.SortKey()[0] == (if n < 0 then '-' else y[0]);
      assert x + "-" + a.shard == (if m < 0 then a.SortKey()[1..] else a.SortKey());
      assert y + "-" + b.shard == (if n < 0 then b.SortKey()[1..] else b.SortKey());
      SplitAtFirst(x, a.shard, y, b.shard, '-');
      DecimalInjective(if m < 0 then -m else m, if n < 0 then -n else n);
    }
  }

  /** Instants that print with d digits, as every instant between 2001 and 2286 does for d = 13. */
  predicate HasDigits(t: Instant, d: nat) {
    t >= 0 && |Decimal(t)| == d
  }

  /** With as many digits on both sides, the list order is newest first, then by shard name. */
  lemma NewerIsLater(a: BackupStatus, b: BackupStatus, d: nat)
    requires HasDigits(a.scheduledFor, d) && HasDigits(b.scheduledFor, d)
    ensures Newer(a, b) <==> a.scheduledFor > b.scheduledFor
                             || (a.scheduledFor == b.scheduledFor && StringLess(b.shard, a.shard))
  {
    NumberedOrder(b.scheduledFor, b.shard, a.scheduledFor, a.shard);
  }

  /** The number does not exceed the larger one cut to as many digits. */
  predicate FitsIn(m: nat, n: nat)
    requires |Decimal(m)| <= |Decimal(n)|
  {
    m <= DropDigits(n, |Decimal(n)| - |Decimal(m)|)
  }

  /** For any two instants: exactly when a later one is listed as newer.  From 1970 on the earlier
      must fit in the later; across 1970 always; before 1970 the order is reversed. */
  lemma NewerIsLaterExactly(a: BackupStatus, b: BackupStatus)
    requires b.scheduledFor < a.scheduledFor
    ensures var s, t := b.scheduledFor, a.scheduledFor;
            && (0 <= s ==> |Decimal(s)| <= |Decimal(t)| && (Newer(a, b) <==> FitsIn(s, t)))
            && (s < 0 <= t ==> Newer(a, b))
            && (t < 0 ==> |Decimal(-t)| <= |Decimal(-s)| && (Newer(a, b) <==> !FitsIn(-t, -s)))
  {
    var s, t := b.scheduledFor, a.scheduledFor;
    if 0 <= s {
      NumberedOrderExact(s, b.shard, t, a.shard);
    } else if 0 <= t {
      DecimalIsDigits(t);
      assert a.SortKey()[0] == Decimal(t)[0] && b.SortKey()[0] == '-';
    } else {
      NumberedOrderExact(-t, a.shard, -s, b.shard);
      var x, y := Decimal(-t) + "-" + a.shard, Decimal(-s) + "-" + b.shard;
      assert a.SortKey() == "-" + x && b.SortKey() == "-" + y;
      StringLessBlocks("-", y, "-", x);
      SortKeyInjective(a, b);
      StringLessTotal(x, y);
      StringLessAsymmetric(x, y);
    }
  }

  /** Without that, an older backup can be listed first: 999 ms before 1000 ms. */
  lemma OlderListedFirst()
    ensures exists a: BackupStatus, b: BackupStatus ::
              a.scheduledFor == 1000 && b.scheduledFor == 999 && !Newer(a, b) && Newer(b, a)
  {
    var b := BackupStatus("s", None, None, 999, None, None, "", Pending, None, None);
    var a := b.(scheduledFor := 1000);
    assert Decimal(99) == "99" && Decimal(999) == "999";
    assert Decimal(10) == "10" && Decimal(100) == "100" && Decimal(1000) == "1000";
    NewerIsLaterExactly(a, b);
    SortKeyInjective(a, b);
    assert DropDigits(1000, 1) == DropDigits(100, 0) == 100;
  }

  // ---------- what holds of the list in every reachable state ----------

  ghost predicate NewestFirst(s: BackupList) { StrictlySorted(Newer, s) }

  /** A pending or running backup is scheduled later than every other one of its shard;
      so there is at most one per shard. */
  ghost predicate OneActive(s: BackupList) {
    forall a, b :: a in s && b in s && a.shard == b.shard && a.Active() && a != b
                   ==> b.scheduledFor < a.scheduledFor
  }

  ghost predicate AllDigits(s: BackupList, d: nat) {
    forall b :: b in s ==> HasDigits(b.scheduledFor, d)
  }

  /** Whatever was started was due before `clock`. */
  ghost predicate StartedBefore(s: BackupList, clock: Instant) {
    forall b :: b in s && !b.state.Pending? ==> b.scheduledFor < clock
  }

  /** A running backup names its server. */
  ghost predicate Attributed(s: BackupList) {
    forall b :: b in s && b.state.Running? ==> b.serverID.Some? && b.serverAlias.Some?
  }

  ghost predicate Consistent(s: BackupList, clock: Instant, d: nat) {
    NewestFirst(s) && OneActive(s) && AllDigits(s, d) && StartedBefore(s, clock) && Attributed(s)
  }

  // ---------- searching ----------

  /** The position of the first backup of a shard in a state, or -1. */
  function FindLast(s: BackupList, shard: string, state: State): (pos: int)
    ensures -1 <= pos < |s|
    ensures pos >= 0 ==> s[pos].shard == shard && s[pos].state == state
    ensures forall i :: 0 <= i < (if pos < 0 then |s| else pos) ==> !(s[i].shard == shard && s[i].state == state)
  {
    if s == [] then -1
    else if s[0].shard == shard && s[0].state == state then 0
    else
      var rest := FindLast(s[1..], shard, state);
      assert forall i :: 0 < i < |s| ==> s[i] == s[1..][i - 1];
      if rest < 0 then -1 else rest + 1
  }

  /** In a list in order the first match is the latest one. */
  lemma FindLastIsLatest(s: BackupList, shard: string, state: State, d: nat, b: BackupStatus)
    requires NewestFirst(s) && AllDigits(s, d)
    requires b in s && b.shard == shard && b.state == state
    ensures var pos := FindLast(s, shard, state);
            pos >= 0 && (s[pos] == b || b.scheduledFor < s[pos].scheduledFor)
  {
    var pos := FindLast(s, shard, state);
    var i :| 0 <= i < |s| && s[i] == b;
    if pos < i {
      SortKeyInjective(s[pos], b);
      NewerIsLater(s[pos], b, d);
      NewerIsOrder();
    }
  }

  // ---------- history ----------

  function CountShard(s: BackupList, shard: string): nat {
    if s == [] then 0
    else CountShard(s[..|s| - 1], shard) + if s[|s| - 1].shard == shard then 1 else 0
  }

  /** The first `limit` backups of one shard. */
  function TakeShard(s: BackupList, shard: string, limit: nat): BackupList {
    if s == [] then []
    else
      var taken := TakeShard(s[..|s| - 1], shard, limit);
      if |taken| == limit || s[|s| - 1].shard != shard then taken else taken + [s[|s| - 1]]
  }

  function TakeShards(s: BackupList, shards: seq<string>, limit: nat): BackupList {
    if shards == [] then []
    else TakeShards(s, shards[..|shards| - 1], limit) + TakeShard(s, shards[|shards| - 1], limit)
  }

  /** Group by shard, cut each group, flatten, sort again. */
  function ApplyLimit(s: BackupList, limit: nat, shards: seq<string>): BackupList {
    Sort(Newer, TakeShards(s, shards, limit))
  }

  /** The simple form: keep a backup when its shard is listed and fewer than `limit`
      backups of that shard precede it. */
  function Trim(s: BackupList, limit: nat, shards: seq<string>): BackupList {
    if s == [] then []
    else
      var front, b := s[..|s| - 1], s[|s| - 1];
      var kept := Trim(front, limit, shards);
      if b.shard in shards && CountShard(front, b.shard) < limit then kept + [b] else kept
  }

  ghost predicate Distinct<T>(s: seq<T>) {
    forall i, j :: 0 <= i < j < |s| ==> s[i] != s[j]
  }

  function Min(a: nat, b: nat): nat { if a < b then a else b }

  lemma {:induction false} TakeShardOfTrim(s: BackupList, shard: string, limit: nat, shards: seq<string>)
    requires shard in shards
    ensures |TakeShard(s, shard, limit)| == Min(limit, CountShard(s, shard)) ==
        CountShard(Trim(s, limit, shards), shard)
    ensures forall b :: b in TakeShard(s, shard, limit) <==> b in Trim(s, limit, shards) && b.shard == shard
  {
    if s != [] {
      var front, b := s[..|s| - 1], s[|s| - 1];
      TakeShardOfTrim(front, shard, limit, shards);
      var t := Trim(front, limit, shards);
      assert (t + [b])[..|t|] == t;
    }
  }

  lemma {:induction false} TrimElements(s: BackupList, limit: nat, shards: seq<string>)
    ensures forall b :: b in Trim(s, limit, shards) ==> b in s && b.shard in shards
  {
    if s != [] { TrimElements(s[..|s| - 1], limit, shards); }
  }

  lemma {:induction false} TakeShardsElements(s: BackupList, limit: nat, shards: seq<string>, listed: seq<string>)
    requires listed <= shards
    ensures forall b :: b in TakeShards(s, listed, limit) <==> b in Trim(s, limit, shards) && b.shard in listed
  {
    if listed != [] {
      var front, shard := listed[..|listed| - 1], listed[|listed| - 1];
      TakeShardsElements(s, limit, shards, front);
      TakeShardOfTrim(s, shard, limit, shards);
    }
  }

  lemma {:induction false} TrimOrdered(s: BackupList, limit: nat, shards: seq<string>)
    requires NewestFirst(s)
    ensures NewestFirst(Trim(s, limit, shards))
  {
    if s != [] {
      var front, b := s[..|s| - 1], s[|s| - 1];
      TrimOrdered(front, limit, shards);
      TrimElements(front, limit, shards);
      var t := Trim(front, limit, shards);
      forall i | 0 <= i < |t| ensures Newer(t[i], b) {
        assert t[i] in front;
      }
    }
  }

  lemma {:induction false} TakeShardOrdered(s: BackupList, shard: string, limit: nat)
    requires NewestFirst(s)
    ensures NewestFirst(TakeShard(s, shard, limit))
    ensures forall b :: b in TakeShard(s, shard, limit) ==> b in s && b.shard == shard
  {
    if s != [] {
      var front, b := s[..|s| - 1], s[|s| - 1];
      TakeShardOrdered(front, shard, limit);
      var t := TakeShard(front, shard, limit);
      forall i | 0 <= i < |t| ensures Newer(t[i], b) {
        assert t[i] in front;
      }
    }
  }

  lemma {:induction false} TakeShardsApart(s: BackupList, shards: seq<string>, limit: nat)
    requires NewestFirst(s) && Distinct(shards)
    ensures Apart(Newer, TakeShards(s, shards, limit))
    ensures forall b :: b in TakeShards(s, shards, limit) ==> b.shard in shards
  {
    if shards != [] {
      var front, shard := shards[..|shards| - 1], shards[|shards| - 1];
      TakeShardsApart(s, front, limit);
      TakeShardOrdered(s, shard, limit);
      var a, t := TakeShards(s, front, limit), TakeShard(s, shard, limit);
      forall i, j | 0 <= i < |a| && 0 <= j < |t| ensures Newer(a[i], t[j]) || Newer(t[j], a[i]) {
        assert a[i] in a && a[i].shard in front && t[j] in t;
        SortKeyInjective(a[i], t[j]);
      }
    }
  }

  /** Grouping, cutting, flattening and sorting again is the simple filter. */
  lemma HistoryLimitIsTrim(s: BackupList, limit: nat, shards: seq<string>)
    requires NewestFirst(s) && Distinct(shards)
    ensures ApplyLimit(s, limit, shards) == Trim(s, limit, shards)
  {
    var flat := TakeShards(s, shards, limit);
    NewerIsOrder();
    TakeShardsApart(s, shards, limit);
    SortStrict(Newer, flat);
    SortElements(Newer, flat);
    TakeShardsElements(s, limit, shards, shards);
    TrimElements(s, limit, shards);
    TrimOrdered(s, limit, shards);
    StrictUnique(Newer, ApplyLimit(s, limit, shards), Trim(s, limit, shards));
  }

  /** A second application changes nothing. */
  lemma {:induction false} TrimIdempotent(s: BackupList, limit: nat, shards: seq<string>)
    ensures Trim(Trim(s, limit, shards), limit, shards) == Trim(s, limit, shards)
  {
    if s != [] {
      var front, b := s[..|s| - 1], s[|s| - 1];
      TrimIdempotent(front, limit, shards);
      var t := Trim(front, limit, shards);
      if b.shard in shards && CountShard(front, b.shard) < limit {
        TakeShardOfTrim(front, b.shard, limit, shards);
        assert (t + [b])[..|t|] == t;
      }
    }
  }

  lemma {:induction false} CountZero(s: BackupList, shard: string)
    requires forall b :: b in s ==> b.shard != shard
    ensures CountShard(s, shard) == 0
  {
    if s != [] { CountZero(s[..|s| - 1], shard); }
  }

  /** With room for one entry, cutting the history never drops the pending or running
      backup of a listed shard. */
  lemma {:induction false} TrimKeepsActive(s: BackupList, limit: nat, shards: seq<string>, d: nat, b: BackupStatus)
    requires NewestFirst(s) && OneActive(s) && AllDigits(s, d)
    requires limit >= 1 && b in s && b.Active() && b.shard in shards
    ensures b in Trim(s, limit, shards)
  {
    var front, last := s[..|s| - 1], s[|s| - 1];
    if b in front {
      TrimKeepsActive(front, limit, shards, d, b);
    } else {
      forall x | x in front ensures x.shard != b.shard {
        var i :| 0 <= i < |front| && front[i] == x;
        assert Newer(s[i], last) && x in s;
        NewerIsLater(x, b, d);
        NewerIsOrder();
      }
      CountZero(front, b.shard);
    }
  }

  /** A shard listed twice is kept twice: the filter form needs distinct shards. */
  lemma RepeatedShardDuplicates(b: BackupStatus)
    ensures ApplyLimit([b], 1, [b.shard, b.shard]) == [b, b] != Trim([b], 1, [b.shard, b.shard])
  {
    var sh := b.shard;
    assert [sh, sh][..1] == [sh] && [sh][..0] == [];
    assert TakeShard([b], sh, 1) == [b];
    assert TakeShards([b], [sh], 1) == TakeShards([b], [], 1) + [b];
    assert TakeShards([b], [sh, sh], 1) == [b] + [b];
    NewerIsOrder();
    assert [b, b][1..] == [b] && [b][1..] == [];
    assert Sort(Newer, [b]) == [b];
  }

  // ---------- the status object ----------

  function Without(s: BackupList, pos: nat): BackupList
    requires pos < |s|
  {
    s[..pos] + s[pos + 1..]
  }

  function With(s: BackupList, b: BackupStatus): BackupList {
    Sort(Newer, s + [b])
  }

  /** Adding a backup that is not in the list yet keeps the order and everything else. */
  lemma WithKeepsOrder(s: BackupList, b: BackupStatus)
    requires NewestFirst(s) && forall x :: x in s ==> !x.SameAs(b)
    ensures NewestFirst(With(s, b))
    ensures forall x :: x in With(s, b) <==> x in s || x == b
  {
    NewerIsOrder();
    forall i | 0 <= i < |s| ensures Newer(s[i], b) || Newer(b, s[i]) {
      assert s[i] in s;
      SortKeyInjective(s[i], b);
    }
    SortStrict(Newer, s + [b]);
    SortElements(Newer, s + [b]);
  }

  lemma OrderedOnce(s: BackupList, i: nat, j: nat)
    requires NewestFirst(s) && i < |s| && j < |s| && i != j
    ensures s[i] != s[j]
  {
    StringLessAsymmetric(s[i].SortKey(), s[j].SortKey());
    assert Newer(s[i], s[j]) || Newer(s[j], s[i]);
  }

  lemma WithoutKeepsOrder(s: BackupList, pos: nat)
    requires NewestFirst(s) && pos < |s|
    ensures NewestFirst(Without(s, pos))
    ensures forall x :: x in Without(s, pos) <==> x in s && x != s[pos]
  {
    NewerIsOrder();
    RemoveStrict(Newer, s, pos);
  }

  class ShardedRedisBackupStatus {
    var Backups: BackupList

    constructor (backups: BackupList)
      ensures Backups == backups
    {
      Backups := backups;
    }

    method AddBackup(b: BackupStatus)
      modifies this
      ensures Backups == With(old(Backups), b)
    {
      Backups := Backups + [b];
      Backups := Sort(Newer, Backups);
    }

    method DeleteBackup(pos: nat)
      requires pos < |Backups|
      modifies this
      ensures Backups == Without(old(Backups), pos)
    {
      Backups := Backups[..pos] + Backups[pos + 1..];
    }

    /** The position stands for the pointer into the list; -1 for nil. */
    method FindLastBackup(shard: string, state: State) returns (pos: int)
      ensures pos == FindLast(Backups, shard, state)
    {
      for i := 0 to |Backups|
        invariant forall j :: 0 <= j < i ==> !(Backups[j].shard == shard && Backups[j].state == state)
      {
        if Backups[i].shard == shard && Backups[i].state == state {
          return i;
        }
      }
      return -1;
    }

    method GetRunningBackups() returns (positions: seq<nat>)
      ensures forall i: nat :: i in positions <==> i < |Backups| && Backups[i].state.Running?
      ensures forall a, b :: 0 <= a < b < |positions| ==> positions[a] < positions[b]
    {
      positions := [];
      for i := 0 to |Backups|
        invariant forall j: nat :: j in positions <==> j < i && Backups[j].state.Running?
        invariant forall a, b :: 0 <= a < b < |positions| ==> positions[a] < positions[b]
      {
        if Backups[i].state.Running? {
          assert forall a :: 0 <= a < |positions| ==> positions[a] in positions;
          positions := positions + [i];
        }
      }
    }

    method ApplyHistoryLimit(limit: nat, shards: seq<string>) returns (changed: bool)
      modifies this
      ensures Backups == ApplyLimit(old(Backups), limit, shards)
      ensures changed <==> Backups != old(Backups)
    {
      var flat: BackupList := [];
      for idx := 0 to |shards|
        invariant Backups == old(Backups)
        invariant flat == TakeShards(Backups, shards[..idx], limit)
      {
        var truncated: BackupList := [];
        var i := 0;
        while i < |Backups| && |truncated| != limit
          invariant 0 <= i <= |Backups|
          invariant Backups == old(Backups)
          invariant truncated == TakeShard(Backups[..i], shards[idx], limit)
        {
          assert Backups[..i + 1][..i] == Backups[..i];
          if Backups[i].shard == shards[idx] {
            truncated := truncated + [Backups[i]];
          }
          i := i + 1;
        }
        TakeShardFull(Backups, i, shards[idx], limit);
        assert shards[..idx + 1][..idx] == shards[..idx];
        flat := flat + truncated;
      }
      assert shards[..|shards|] == shards;
      flat := Sort(Newer, flat);
      changed := flat != Backups;
      if changed {
        Backups := flat;
      }
    }
  }

  /** Once `limit` backups are taken the rest of the list does not matter. */
  lemma {:induction false} TakeShardFull(s: BackupList, i: nat, shard: string, limit: nat)
    requires i <= |s|
    requires i == |s| || |TakeShard(s[..i], shard, limit)| == limit
    ensures TakeShard(s, shard, limit) == TakeShard(s[..i], shard, limit)
  {
    if i == |s| {
      assert s[..i] == s;
    } else {
      assert s[..|s| - 1][..i] == s[..i];
      TakeShardFull(s[..|s| - 1], i, shard, limit);
    }
  }
}
