/** How uploads are named and for how long each is kept
    (internal/pkg/redis/backup/s3upload.go, check.go). */
module Retentions {
  import opened Text

  // ---------- timestamps ----------

  /** A wall clock reading; the zone is its offset from UTC in minutes. */
  datatype Stamp = Stamp(year: nat, month: nat, day: nat, hour: nat, minute: nat, second: nat, offset: int) {
    predicate InRange() {
      year < 10000 && month < 100 && day < 100 && hour < 24 && minute < 60 && second < 60 && -1440 < offset < 1440
    }

    /** The instant it shows, in milliseconds, given the instant of each midnight in UTC. */
    function Instant(midnight: (nat, nat, nat) -> int): int {
      midnight(year, month, day) + (hour * 60 + minute - offset) * 60_000 + second * 1_000
    }
  }

  function Zone(offset: int): string
    requires -1440 < offset < 1440
  {
    if offset == 0 then "Z"
    else
      var m := if offset < 0 then -offset else offset;
      (if offset < 0 then "-" else "+") + Pad2(m / 60) + ":" + Pad2(m % 60)
  }

  function Pad2(n: nat): string
    requires n < 100
  {
    [Digit(n / 10), Digit(n % 10)]
  }

  /** Layout 2006-01-02. */
  function DayLabel(s: Stamp): string
    requires s.InRange()
  {
    Pad2(s.year / 100) + Pad2(s.year % 100) + "-" + Pad2(s.month) + "-" + Pad2(s.day)
  }

  /** Layout 2006-01-02T15. */
  function HourLabel(s: Stamp): string
    requires s.InRange()
  {
    DayLabel(s) + "T" + Pad2(s.hour)
  }

  /** The date-time form of section 5.6 of RFC 3339. */
  function Rfc3339(s: Stamp): string
    requires s.InRange()
  {
    Pad2(s.year / 100) + Pad2(s.year % 100) + "-" + Pad2(s.month) + "-" + Pad2(s.day) + "T" +
    Pad2(s.hour) + ":" + Pad2(s.minute) + ":" + Pad2(s.second) + Zone(s.offset)
  }

  /** The labels are what the full timestamp starts with. */
  lemma LabelsAreHeads(s: Stamp)
    requires s.InRange()
    ensures |DayLabel(s)| == 10 && |HourLabel(s)| == 13 && |Rfc3339(s)| >= 13
    ensures Rfc3339(s)[..10] == DayLabel(s) && Rfc3339(s)[..13] == HourLabel(s)
  {
  }

  lemma PadInjective(a: nat, b: nat)
    requires a < 100 && b < 100 && Pad2(a) == Pad2(b)
    ensures a == b
  {
    assert Pad2(a)[0] == Pad2(b)[0] && Pad2(a)[1] == Pad2(b)[1];
    assert Digit(a / 10) == Digit(b / 10) && Digit(a % 10) == Digit(b % 10);
  }

  lemma PadOrder(a: nat, b: nat)
    requires a < 100 && b < 100
    ensures StringLess(Pad2(a), Pad2(b)) <==> a < b
  {
    StringLessBlocks([Digit(a / 10)], [Digit(a % 10)], [Digit(b / 10)], [Digit(b % 10)]);
    assert [Digit(a / 10)] + [Digit(a % 10)] == Pad2(a) && [Digit(b / 10)] + [Digit(b % 10)] == Pad2(b);
  }

  lemma ZoneInjective(a: int, b: int)
    requires -1440 < a < 1440 && -1440 < b < 1440 && Zone(a) == Zone(b)
    ensures a == b
  {
    var m, n := (if a < 0 then -a else a), (if b < 0 then -b else b);
    assert a != 0 ==> Zone(a)[1..3] == Pad2(m / 60) && Zone(a)[4..6] == Pad2(m % 60) && Zone(a)[0] in "+-";
    assert b != 0 ==> Zone(b)[1..3] == Pad2(n / 60) && Zone(b)[4..6] == Pad2(n % 60) && Zone(b)[0] in "+-";
    if a != 0 && b != 0 {
      PadInjective(m / 60, n / 60);
      PadInjective(m % 60, n % 60);
    }
  }

  /** The fields of a stamp, most significant first, below a hundred each. */
  function Fields(s: Stamp): (f: seq<nat>)
    requires s.InRange()
    ensures |f| == 7 && forall i :: 0 <= i < 7 ==> f[i] < 100
  {
    [s.year / 100, s.year % 100, s.month, s.day, s.hour, s.minute, s.second]
  }

  /** Lexicographic order, the first field counting most. */
  predicate Before(f: seq<nat>, g: seq<nat>)
    requires |f| == |g|
  {
    f != [] &&
    var n := |f| - 1;
    Before(f[..n], g[..n]) || (f[..n] == g[..n] && f[n] < g[n])
  }

  const SEPARATORS := ["", "", "-", "-", "T", ":", ":"]

  /** Two digits for each of the first n fields, and what stands in front of them. */
  function Print(f: seq<nat>, n: nat): string
    requires n <= |f| <= 7 && forall i :: 0 <= i < |f| ==> f[i] < 100
  {
    if n == 0 then "" else Print(f, n - 1) + SEPARATORS[n - 1] + Pad2(f[n - 1])
  }

  lemma {:induction false} PrintOrder(f: seq<nat>, g: seq<nat>, n: nat)
    requires n <= |f| == |g| <= 7 && forall i :: 0 <= i < |f| ==> f[i] < 100 && g[i] < 100
    ensures |Print(f, n)| == |Print(g, n)|
    ensures Print(f, n) == Print(g, n) <==> f[..n] == g[..n]
    ensures StringLess(Print(f, n), Print(g, n)) <==> Before(f[..n], g[..n])
  {
    if n > 0 {
      PrintOrder(f, g, n - 1);
      assert f[..n] == f[..n - 1] + [f[n - 1]] && g[..n] == g[..n - 1] + [g[n - 1]];
      assert f[..n][..n - 1] == f[..n - 1] && g[..n][..n - 1] == g[..n - 1];
      FieldOrder(Print(f, n - 1), Print(g, n - 1), SEPARATORS[n - 1], f[n - 1], g[n - 1]);
    }
  }

  lemma FieldOrder(x: string, y: string, sep: string, a: nat, b: nat)
    requires |x| == |y| && a < 100 && b < 100
    ensures |x + sep + Pad2(a)| == |y + sep + Pad2(b)|
    ensures x + sep + Pad2(a) == y + sep + Pad2(b) <==> x == y && a == b
    ensures StringLess(x + sep + Pad2(a), y + sep + Pad2(b)) <==> StringLess(x, y) || (x == y && a < b)
  {
    var p, q := x + sep, y + sep;
    StringLessBlocks(p, Pad2(a), q, Pad2(b));
    StringLessBlocks(x, sep, y, sep);
    StringLessAsymmetric(sep, sep);
    PadOrder(a, b);
    assert x == p[..|x|] && y == q[..|y|];
    assert p == (p + Pad2(a))[..|p|] && q == (q + Pad2(b))[..|q|];
    assert Pad2(a) == (p + Pad2(a))[|p|..] && Pad2(b) == (q + Pad2(b))[|q|..];
    if Pad2(a) == Pad2(b) { PadInjective(a, b); }
  }

  lemma Rfc3339IsPrint(s: Stamp)
    requires s.InRange()
    ensures Rfc3339(s) == Print(Fields(s), 7) + Zone(s.offset)
  {
    var f := Fields(s);
    assert Print(f, 1) == Pad2(s.year / 100) by { assert Print(f, 0) == ""; }
    assert Print(f, 2) == Pad2(s.year / 100) + Pad2(s.year % 100);
    assert Print(f, 3) == Pad2(s.year / 100) + Pad2(s.year % 100) + "-" + Pad2(s.month);
    assert Print(f, 4) == DayLabel(s);
    assert Print(f, 5) == DayLabel(s) + "T" + Pad2(s.hour);
    assert Print(f, 6) == DayLabel(s) + "T" + Pad2(s.hour) + ":" + Pad2(s.minute);
    assert Print(f, 7) == DayLabel(s) + "T" + Pad2(s.hour) + ":" + Pad2(s.minute) + ":" + Pad2(s.second);
  }

  /** A timestamp tells every field and the zone; and timestamps of one zone sort by time. */
  lemma TimestampsSort(s: Stamp, t: Stamp)
    requires s.InRange() && t.InRange()
    ensures Rfc3339(s) == Rfc3339(t) <==> s == t
    ensures s.offset == t.offset ==> (StringLess(Rfc3339(s), Rfc3339(t)) <==> Before(Fields(s), Fields(t)))
  {
    Rfc3339IsPrint(s);
    Rfc3339IsPrint(t);
    var x, y := Zone(s.offset), Zone(t.offset);
    PrintOrder(Fields(s), Fields(t), 7);
    assert Fields(s)[..7] == Fields(s) && Fields(t)[..7] == Fields(t);
    var p, q := Print(Fields(s), 7), Print(Fields(t), 7);
    StringLessBlocks(p, x, q, y);
    StringLessAsymmetric(x, x);
    if p + x == q + y {
      assert p == (p + x)[..|p|] == (q + y)[..|q|] == q && x == (p + x)[|p|..] == (q + y)[|q|..] == y;
      ZoneInjective(s.offset, t.offset);
      FieldsInjective(s, t);
    }
  }

  lemma FieldsInjective(s: Stamp, t: Stamp)
    requires s.InRange() && t.InRange() && Fields(s) == Fields(t) && s.offset == t.offset
    ensures s == t
  {
    assert Fields(s)[0] == Fields(t)[0] && Fields(s)[1] == Fields(t)[1] && Fields(s)[2] == Fields(t)[2];
    assert Fields(s)[3] == Fields(t)[3] && Fields(s)[4] == Fields(t)[4] && Fields(s)[5] == Fields(t)[5];
    assert Fields(s)[6] == Fields(t)[6];
    assert s.year == 100 * (s.year / 100) + s.year % 100 && t.year == 100 * (t.year / 100) + t.year % 100;
  }

  // ---------- names ----------

  const FILE_PREFIX := "redis-backup"

  function BaseName(shard: string, suffix: string): string {
    FILE_PREFIX + "_" + shard + "_" + suffix
  }

  function FileCompressed(shard: string, s: Stamp): string
    requires s.InRange()
  {
    BaseName(shard, Rfc3339(s)) + ".rdb" + ".gz"
  }

  /** The key of an upload: `base` is what filepath.Join leaves of the path in front of the name. */
  function ObjectKey(base: string, shard: string, s: Stamp): string
    requires s.InRange()
  {
    base + FileCompressed(shard, s)
  }

  /** The uploads of one shard in one zone sort by time. */
  lemma FilesSort(shard: string, s: Stamp, t: Stamp)
    requires s.InRange() && t.InRange() && s.offset == t.offset
    ensures StringLess(FileCompressed(shard, s), FileCompressed(shard, t)) <==> Before(Fields(s), Fields(t))
  {
    TimestampsSort(s, t);
    var p, x, y, e := FILE_PREFIX + "_" + shard + "_", Rfc3339(s), Rfc3339(t), ".rdb" + ".gz";
    assert FileCompressed(shard, s) == p + (x + e) && FileCompressed(shard, t) == p + (y + e);
    StringLessBlocks(p, x + e, p, y + e);
    StringLessAsymmetric(p, p);
    SameLength(s, t);
    StringLessBlocks(x, e, y, e);
    StringLessAsymmetric(e, e);
  }

  lemma SameLength(s: Stamp, t: Stamp)
    requires s.InRange() && t.InRange() && s.offset == t.offset
    ensures |Rfc3339(s)| == |Rfc3339(t)|
  {
  }

  function ListPrefix(path: string, shard: string, mark: string): string {
    path + "/" + BaseName(shard, mark)
  }

  /** A path that filepath.Join leaves alone. */
  predicate Clean(path: string, base: string) { base == path + "/" }

  /** What filepath.Join can make of a path: nothing else than the path and a slash, or less. */
  predicate Joined(path: string, base: string) { Clean(path, base) || |base| <= |path| }

  lemma PrefixCancels(x: string, a: string, b: string)
    ensures x + a <= x + b <==> a <= b
  {
    if a <= b {
      assert (x + b)[..|x + a|] == x + b[..|a|];
    }
    if x + a <= x + b {
      assert (x + a)[|x|..] == a && (x + b)[..|x + a|][|x|..] == b[..|a|];
    }
  }

  /** Names compare by shard first. */
  lemma NameListing(shard: string, mark: string, other: string, text: string)
    requires '_' !in shard && '_' !in other
    ensures shard + "_" + mark <= other + "_" + text <==> shard == other && mark <= text
  {
    var a, b := shard + "_" + mark, other + "_" + text;
    if a <= b {
      var tail := b[|a|..];
      assert shard + "_" + (mark + tail) == a + tail == b;
      SplitAtFirst(shard, mark + tail, other, text, '_');
    }
    if shard == other && mark <= text {
      assert b[..|a|] == shard + "_" + text[..|mark|];
    }
  }

  /** A listing finds an object exactly when the shard is the same and the label heads its timestamp. */
  lemma ListingFinds(path: string, shard: string, mark: string, other: string, s: Stamp)
    requires s.InRange() && '_' !in shard && '_' !in other && |mark| <= |Rfc3339(s)|
    ensures ListPrefix(path, shard, mark) <= ObjectKey(path + "/", other, s)
       <==> shard == other && Rfc3339(s)[..|mark|] == mark
  {
    var stamp := Rfc3339(s);
    var text := stamp + ".rdb" + ".gz";
    NameParts(path, shard, mark);
    NameParts(path, other, text);
    assert BaseName(other, stamp) + ".rdb" + ".gz" == BaseName(other, text);
    PrefixCancels(path + "/" + FILE_PREFIX + "_", shard + "_" + mark, other + "_" + text);
    NameListing(shard, mark, other, text);
    assert text[..|mark|] == stamp[..|mark|];
  }

  lemma NameParts(path: string, shard: string, suffix: string)
    ensures path + "/" + BaseName(shard, suffix) == (path + "/" + FILE_PREFIX + "_") + (shard + "_" + suffix)
  {
  }

  /** With any other path, such as one that ends in a slash, no listing finds anything: the key
      is cleaned, the prefix is not, and asks for a slash where the name already is. */
  lemma UncleanFindsNothing(path: string, base: string, shard: string, mark: string, other: string, s: Stamp)
    requires s.InRange() && '/' !in other && |base| <= |path|
    ensures !(ListPrefix(path, shard, mark) <= ObjectKey(base, other, s))
  {
    var prefix, key := ListPrefix(path, shard, mark), ObjectKey(base, other, s);
    assert prefix[|path|] == '/';
    NoSlashInName(other, s);
    if |path| < |key| {
      assert key[|path|] == FileCompressed(other, s)[|path| - |base|];
    }
  }

  lemma NoSlashInName(shard: string, s: Stamp)
    requires s.InRange() && '/' !in shard
    ensures '/' !in FileCompressed(shard, s)
  {
    assert '/' !in Rfc3339(s);
    assert '/' !in FILE_PREFIX && '/' !in ".rdb" && '/' !in ".gz";
  }

  // ---------- retention ----------

  datatype Retention = R90d | R7d | R24h {
    /** In milliseconds. */
    function Duration(): nat {
      match this case R90d => 90 * 86_400_000 case R7d => 7 * 86_400_000 case R24h => 86_400_000
    }
  }

  function Choose(firstOfDay: bool, firstOfHour: bool): Retention {
    if firstOfDay then R90d else if firstOfHour then R7d else R24h
  }

  /** An upload: the shard and the timestamp in its name, the instant its tag was chosen, and the
      instant it reached the bucket. */
  datatype Upload = Upload(shard: string, stamp: Stamp, taggedAt: int, at: int) {
    /** Shard names hold no slash and no underscore, by assumption. */
    predicate Plain() { stamp.InRange() && '_' !in shard && '/' !in shard }
  }

  type PlainUpload = u: Upload | u.Plain() witness Upload("", Stamp(1970, 1, 1, 0, 0, 0, 0), 0, 0)

  predicate SameDay(a: Upload, b: Upload)
    requires a.stamp.InRange() && b.stamp.InRange()
  {
    a.shard == b.shard && DayLabel(a.stamp) == DayLabel(b.stamp)
  }

  predicate SameHour(a: Upload, b: Upload)
    requires a.stamp.InRange() && b.stamp.InRange()
  {
    a.shard == b.shard && HourLabel(a.stamp) == HourLabel(b.stamp)
  }

  lemma SameHourSameDay(a: Upload, b: Upload)
    requires a.stamp.InRange() && b.stamp.InRange() && SameHour(a, b)
    ensures SameDay(a, b)
  {
    assert DayLabel(a.stamp) == HourLabel(a.stamp)[..10];
    assert DayLabel(b.stamp) == HourLabel(b.stamp)[..10];
  }

  predicate Listed(path: string, base: string, u: Upload, mark: string, o: Upload)
    requires o.stamp.InRange()
  {
    ListPrefix(path, u.shard, mark) <= ObjectKey(base, o.shard, o.stamp)
  }

  /** What the two listings for u say about an object o. */
  lemma ListedMeans(path: string, base: string, u: Upload, o: Upload)
    requires u.Plain() && o.Plain() && Joined(path, base)
    ensures Listed(path, base, u, DayLabel(u.stamp), o) <==> Clean(path, base) && SameDay(o, u)
    ensures Listed(path, base, u, HourLabel(u.stamp), o) <==> Clean(path, base) && SameHour(o, u)
  {
    LabelsAreHeads(u.stamp);
    LabelsAreHeads(o.stamp);
    if Clean(path, base) {
      ListingFinds(path, u.shard, DayLabel(u.stamp), o.shard, o.stamp);
      ListingFinds(path, u.shard, HourLabel(u.stamp), o.shard, o.stamp);
    } else {
      UncleanFindsNothing(path, base, u.shard, DayLabel(u.stamp), o.shard, o.stamp);
      UncleanFindsNothing(path, base, u.shard, HourLabel(u.stamp), o.shard, o.stamp);
    }
  }

  /** The keys of a bucket that start with a prefix. */
  function Listing(bucket: seq<PlainUpload>, base: string, prefix: string): (keys: seq<string>)
    ensures keys == [] <==> forall o :: o in bucket ==> !(prefix <= ObjectKey(base, o.shard, o.stamp))
  {
    if bucket == [] then []
    else
      var key := ObjectKey(base, bucket[0].shard, bucket[0].stamp);
      (if prefix <= key then [key] else []) + Listing(bucket[1..], base, prefix)
  }

  /** The tag of an upload: with a clean path 90 days if the bucket holds nothing of its shard and
      day, a day if it holds something of its shard and hour, else a week; with any other path
      always 90 days. */
  method ResolveTags(path: string, base: string, u: PlainUpload, bucket: seq<PlainUpload>)
    returns (retention: Retention)
    requires Joined(path, base)
    ensures Clean(path, base) ==> (retention == R90d <==> forall o :: o in bucket ==> !SameDay(o, u))
    ensures Clean(path, base) ==> (retention == R24h <==> exists o :: o in bucket && SameHour(o, u))
    ensures !Clean(path, base) ==> retention == R90d
  {
    var dayResult := Listing(bucket, base, ListPrefix(path, u.shard, DayLabel(u.stamp)));
    var hourResult := Listing(bucket, base, ListPrefix(path, u.shard, HourLabel(u.stamp)));
    if |dayResult| == 0 {
      retention := R90d;
    } else if |hourResult| == 0 {
      retention := R7d;
    } else {
      retention := R24h;
    }
    forall o | o in bucket
      ensures Listed(path, base, u, DayLabel(u.stamp), o) <==> Clean(path, base) && SameDay(o, u)
      ensures Listed(path, base, u, HourLabel(u.stamp), o) <==> Clean(path, base) && SameHour(o, u)
      ensures SameHour(o, u) ==> SameDay(o, u)
    {
      ListedMeans(path, base, u, o);
      if SameHour(o, u) { SameHourSameDay(o, u); }
    }
  }

  // ---------- runs of uploads ----------

  /** Uploads in the order in which their tags are chosen.  `path` is the configured path, `base`
      what object keys start with. */
  datatype Plan = Plan(path: string, base: string, uploads: seq<Upload>)

  predicate WellFormed(p: Plan) {
    Joined(p.path, p.base) && forall i :: 0 <= i < |p.uploads| ==> p.uploads[i].Plain()
  }

  /** Upload j had arrived when upload i was tagged. */
  predicate Arrived(p: Plan, i: nat, j: nat)
    requires i < |p.uploads|
  {
    j < i && p.uploads[j].at <= p.uploads[i].taggedAt
  }

  /** And, kept for so long, it was still there. */
  predicate Present(p: Plan, i: nat, j: nat, kept: Retention)
    requires i < |p.uploads|
  {
    Arrived(p, i, j) && p.uploads[i].taggedAt - p.uploads[j].at < kept.Duration()
  }

  /** `live[i]` are the uploads in the bucket when upload i is tagged: an object may be gone once its
      own retention has passed, and not before. */
  datatype Run = Run(plan: Plan, tags: seq<Retention>, live: seq<set<nat>>)

  ghost predicate DayFound(p: Plan, i: nat, live: set<nat>)
    requires WellFormed(p) && i < |p.uploads|
  {
    exists j: nat :: j in live && j < i &&
        Listed(p.path, p.base, p.uploads[i], DayLabel(p.uploads[i].stamp), p.uploads[j])
  }

  ghost predicate HourFound(p: Plan, i: nat, live: set<nat>)
    requires WellFormed(p) && i < |p.uploads|
  {
    exists j: nat :: j in live && j < i &&
        Listed(p.path, p.base, p.uploads[i], HourLabel(p.uploads[i].stamp), p.uploads[j])
  }

  ghost predicate IsRun(r: Run) {
    && WellFormed(r.plan) && |r.tags| == |r.live| == |r.plan.uploads|
    && forall i :: 0 <= i < |r.tags| ==> TaggedRight(r.plan, i, r.tags, r.live[i])
  }

  ghost predicate TaggedRight(p: Plan, i: nat, tags: seq<Retention>, live: set<nat>)
    requires WellFormed(p) && i < |tags| <= |p.uploads|
  {
    && (forall j :: j in live ==> Arrived(p, i, j))
    && (forall j :: 0 <= j < i && Present(p, i, j, tags[j]) ==> j in live)
    && tags[i] == Choose(!DayFound(p, i, live), !HourFound(p, i, live))
  }

  ghost predicate FirstOfDay(p: Plan, i: nat)
    requires WellFormed(p) && i < |p.uploads|
  {
    forall j :: 0 <= j < i ==> !SameDay(p.uploads[j], p.uploads[i])
  }

  ghost predicate FirstOfHour(p: Plan, i: nat)
    requires WellFormed(p) && i < |p.uploads|
  {
    forall j :: 0 <= j < i ==> !SameHour(p.uploads[j], p.uploads[i])
  }

  /** The rotation the tags are for: the first of a day for 90 days, the first of any other hour
      for a week, all others for a day. */
  ghost function Intended(p: Plan, i: nat): Retention
    requires WellFormed(p) && i < |p.uploads|
  {
    Choose(FirstOfDay(p, i), FirstOfHour(p, i))
  }

  ghost predicate Rotates(r: Run)
    requires IsRun(r)
  {
    forall i :: 0 <= i < |r.tags| ==> r.tags[i] == Intended(r.plan, i)
  }

  /** Some earlier upload of the day is there, if kept as intended. */
  ghost predicate DayPresent(p: Plan, i: nat)
    requires WellFormed(p) && i < |p.uploads|
  {
    exists j: nat :: j < i && Present(p, i, j, Intended(p, j)) && SameDay(p.uploads[j], p.uploads[i])
  }

  ghost predicate HourPresent(p: Plan, i: nat)
    requires WellFormed(p) && i < |p.uploads|
  {
    exists j: nat :: j < i && Present(p, i, j, Intended(p, j)) && SameHour(p.uploads[j], p.uploads[i])
  }

  /** Whenever a tag is chosen that is not the first of its day or hour, some earlier one of that
      day or hour has arrived and, kept as intended, has not expired. */
  ghost predicate InTime(p: Plan)
    requires WellFormed(p)
  {
    forall i :: 0 <= i < |p.uploads| ==>
        (FirstOfDay(p, i) || DayPresent(p, i)) && (FirstOfHour(p, i) || HourPresent(p, i))
  }

  /** The listings find what is in the bucket of the same shard and day or hour. */
  lemma FoundMeans(p: Plan, i: nat, live: set<nat>)
    requires WellFormed(p) && i < |p.uploads|
    ensures DayFound(p, i, live) <==>
        Clean(p.path, p.base) && exists j: nat :: j in live && j < i && SameDay(p.uploads[j], p.uploads[i])
    ensures HourFound(p, i, live) <==>
        Clean(p.path, p.base) && exists j: nat :: j in live && j < i && SameHour(p.uploads[j], p.uploads[i])
  {
    forall j | 0 <= j < i
      ensures Listed(p.path, p.base, p.uploads[i], DayLabel(p.uploads[i].stamp), p.uploads[j]) <==>
          Clean(p.path, p.base) && SameDay(p.uploads[j], p.uploads[i])
      ensures Listed(p.path, p.base, p.uploads[i], HourLabel(p.uploads[i].stamp), p.uploads[j]) <==>
          Clean(p.path, p.base) && SameHour(p.uploads[j], p.uploads[i])
    {
      ListedMeans(p.path, p.base, p.uploads[i], p.uploads[j]);
    }
  }

  /** In time with a clean path, every tag is as intended, whatever expired objects linger. */
  lemma {:induction false} InTimeRotates(r: Run, i: nat)
    requires IsRun(r) && Clean(r.plan.path, r.plan.base) && InTime(r.plan) && i < |r.tags|
    ensures r.tags[i] == Intended(r.plan, i)
  {
    var p := r.plan;
    FoundMeans(p, i, r.live[i]);
    assert TaggedRight(p, i, r.tags, r.live[i]);
    if !FirstOfDay(p, i) {
      var j: nat :| j < i && Present(p, i, j, Intended(p, j)) && SameDay(p.uploads[j], p.uploads[i]);
      InTimeRotates(r, j);
    }
    if !FirstOfHour(p, i) {
      var j: nat :| j < i && Present(p, i, j, Intended(p, j)) && SameHour(p.uploads[j], p.uploads[i]);
      InTimeRotates(r, j);
    }
  }

  // ---------- the run in which everything expires at once ----------

  function MustLive(p: Plan, i: nat, tags: seq<Retention>): set<nat>
    requires i < |p.uploads| && i <= |tags|
  {
    set j: nat | j < i && Present(p, i, j, tags[j])
  }

  /** TaggedRight for any way of choosing a tag by what is in the bucket. */
  ghost predicate TaggedBy(p: Plan, i: nat, tags: seq<Retention>, live: set<nat>, choose: (nat, set<nat>) -> Retention)
    requires i < |tags| <= |p.uploads|
  {
    && (forall j :: j in live ==> Arrived(p, i, j))
    && (forall j :: 0 <= j < i && Present(p, i, j, tags[j]) ==> j in live)
    && tags[i] == choose(i, live)
  }

  lemma EagerOneMore(p: Plan, front: seq<Retention>, tags: seq<Retention>, choose: (nat, set<nat>) -> Retention, i: nat)
    requires i < |tags| <= |p.uploads| && |front| == |tags| - 1 && front <= tags
    requires i < |front| ==> TaggedBy(p, i, front, MustLive(p, i, front), choose)
    requires i == |front| ==> tags[i] == choose(i, MustLive(p, i, front))
    ensures TaggedBy(p, i, tags, MustLive(p, i, tags), choose)
  {
    assert forall j :: 0 <= j < |front| ==> tags[j] == front[j];
    assert MustLive(p, i, tags) == MustLive(p, i, front);
  }

  lemma {:induction false} EagerTags(p: Plan, n: nat, choose: (nat, set<nat>) -> Retention)
    returns (tags: seq<Retention>)
    requires n <= |p.uploads|
    ensures |tags| == n && forall i :: 0 <= i < n ==> TaggedBy(p, i, tags, MustLive(p, i, tags), choose)
  {
    tags := [];
    if n > 0 {
      var front := EagerTags(p, n - 1, choose);
      tags := front + [choose(n - 1, MustLive(p, n - 1, front))];
      forall i | 0 <= i < n ensures TaggedBy(p, i, tags, MustLive(p, i, tags), choose) {
        EagerOneMore(p, front, tags, choose, i);
      }
    }
  }

  lemma EagerRun(p: Plan) returns (r: Run)
    requires WellFormed(p)
    ensures r.plan == p && IsRun(r)
    ensures forall i :: 0 <= i < |r.tags| ==> r.live[i] == MustLive(p, i, r.tags)
  {
    ghost var choose := (i: nat, live: set<nat>) =>
      if i < |p.uploads| then Choose(!DayFound(p, i, live), !HourFound(p, i, live)) else R90d;
    var tags := EagerTags(p, |p.uploads|, choose);
    r := Run(p, tags, seq(|tags|, i requires 0 <= i < |tags| => MustLive(p, i, tags)));
    forall i | 0 <= i < |tags| ensures TaggedRight(p, i, tags, r.live[i]) {
      assert TaggedBy(p, i, tags, r.live[i], choose);
    }
  }

  /** What that run finds is there if kept as intended. */
  lemma EagerFinds(r: Run, i: nat)
    requires IsRun(r) && Rotates(r) && Clean(r.plan.path, r.plan.base) && i < |r.tags| &&
        r.live[i] == MustLive(r.plan, i, r.tags)
    ensures DayFound(r.plan, i, r.live[i]) ==> DayPresent(r.plan, i)
    ensures HourFound(r.plan, i, r.live[i]) ==> HourPresent(r.plan, i)
  {
    var p := r.plan;
    FoundMeans(p, i, r.live[i]);
    forall j | j in r.live[i] ensures j < i && Present(p, i, j, Intended(p, j)) {
      assert r.tags[j] == Intended(p, j);
    }
  }

  lemma DayBeforeHour(p: Plan, i: nat)
    requires WellFormed(p) && i < |p.uploads| && FirstOfDay(p, i)
    ensures FirstOfHour(p, i)
  {
    forall j | 0 <= j < i ensures !SameHour(p.uploads[j], p.uploads[i]) {
      if SameHour(p.uploads[j], p.uploads[i]) { SameHourSameDay(p.uploads[j], p.uploads[i]); }
    }
  }

  /** If that run rotates, everything was in time. */
  lemma EagerRotates(r: Run)
    requires IsRun(r) && Rotates(r) && Clean(r.plan.path, r.plan.base)
    requires forall i :: 0 <= i < |r.tags| ==> r.live[i] == MustLive(r.plan, i, r.tags)
    ensures InTime(r.plan)
  {
    var p := r.plan;
    forall i | 0 <= i < |p.uploads|
      ensures (FirstOfDay(p, i) || DayPresent(p, i)) && (FirstOfHour(p, i) || HourPresent(p, i))
    {
      EagerFinds(r, i);
      if FirstOfDay(p, i) { DayBeforeHour(p, i); }
      assert TaggedRight(p, i, r.tags, r.live[i]) && r.tags[i] == Intended(p, i);
    }
  }

  /** With any other path every upload is kept for 90 days. */
  lemma UncleanKeepsAll(r: Run, i: nat)
    requires IsRun(r) && !Clean(r.plan.path, r.plan.base) && i < |r.tags|
    ensures r.tags[i] == R90d
  {
    FoundMeans(r.plan, i, r.live[i]);
    assert TaggedRight(r.plan, i, r.tags, r.live[i]);
  }

  /** The rotation comes about in every run of these uploads exactly when the path is clean and
      they are in time, or the path is not clean and no shard uploads twice on a day. */
  lemma RotatesExactly(p: Plan)
    requires WellFormed(p)
    ensures (forall r: Run :: r.plan == p && IsRun(r) ==> Rotates(r)) <==>
            if Clean(p.path, p.base) then InTime(p) else forall i :: 0 <= i < |p.uploads| ==> FirstOfDay(p, i)
  {
    var eager := EagerRun(p);
    if Clean(p.path, p.base) {
      if Rotates(eager) { EagerRotates(eager); }
      forall r: Run | InTime(p) && r.plan == p && IsRun(r) ensures Rotates(r) {
        forall i | 0 <= i < |r.tags| ensures r.tags[i] == Intended(p, i) { InTimeRotates(r, i); }
      }
    } else {
      forall r: Run, i | r.plan == p && IsRun(r) && 0 <= i < |r.tags|
        ensures r.tags[i] == R90d
      {
        UncleanKeepsAll(r, i);
      }
      if Rotates(eager) {
        forall i | 0 <= i < |p.uploads| ensures FirstOfDay(p, i) {
          assert eager.tags[i] == R90d == Intended(p, i);
        }
      }
    }
  }

  // ---------- what is enough ----------

  /** Uploads of one shard one after the other: each has arrived before the next is tagged. */
  predicate Serial(p: Plan) {
    forall i, j :: 0 <= j < i < |p.uploads| && p.uploads[j].shard == p.uploads[i].shard ==>
        p.uploads[j].at <= p.uploads[i].taggedAt
  }

  /** Every tag is chosen within four days of the timestamp, as it is when the timeout is below
      that: after the timeout the listings fail.  The upload may take any time. */
  ghost predicate Prompt(p: Plan, midnight: (nat, nat, nat) -> int) {
    forall i :: 0 <= i < |p.uploads| ==>
      var u := p.uploads[i];
      u.stamp.Instant(midnight) <= u.taggedAt <= u.stamp.Instant(midnight) + 4 * 86_400_000 && u.taggedAt <= u.at
  }

  /** A day label tells the date. */
  lemma DayLabelInjective(a: Stamp, b: Stamp)
    requires a.InRange() && b.InRange() && DayLabel(a) == DayLabel(b)
    ensures a.year == b.year && a.month == b.month && a.day == b.day
  {
    DayParts(a);
    DayParts(b);
    PadInjective(a.year / 100, b.year / 100);
    PadInjective(a.year % 100, b.year % 100);
    PadInjective(a.month, b.month);
    PadInjective(a.day, b.day);
  }

  lemma DayParts(s: Stamp)
    requires s.InRange()
    ensures var l := DayLabel(s);
            |l| == 10 && l[0..2] == Pad2(s.year / 100) && l[2..4] == Pad2(s.year % 100) &&
                l[5..7] == Pad2(s.month) && l[8..10] == Pad2(s.day)
  {
  }

  /** Whatever the zones and the calendar, of uploads that share a day label the later is tagged
      less than a week after the earlier has arrived. */
  lemma DaysAreShort(p: Plan, midnight: (nat, nat, nat) -> int, i: nat, j: nat)
    requires WellFormed(p) && Prompt(p, midnight) && i < |p.uploads| && j < |p.uploads| &&
        SameDay(p.uploads[j], p.uploads[i])
    ensures p.uploads[i].taggedAt - p.uploads[j].at < R7d.Duration()
  {
    DayLabelInjective(p.uploads[i].stamp, p.uploads[j].stamp);
  }

  /** Some earlier upload with the same label is the first of it. */
  lemma {:induction false} FindFirst(p: Plan, i: nat, j: nat, hour: bool) returns (k: nat)
    requires WellFormed(p) && j < i < |p.uploads|
    requires if hour then SameHour(p.uploads[j], p.uploads[i]) else SameDay(p.uploads[j], p.uploads[i])
    ensures k < i && if hour then SameHour(p.uploads[k], p.uploads[i]) && FirstOfHour(p, k)
                     else SameDay(p.uploads[k], p.uploads[i]) && FirstOfDay(p, k)
    decreases j
  {
    if l :| 0 <= l < j && (if hour then SameHour(p.uploads[l], p.uploads[j]) else SameDay(p.uploads[l], p.uploads[j])) {
      k := FindFirst(p, i, l, hour);
    } else {
      k := j;
    }
  }

  /** Serial and prompt uploads are in time. */
  lemma PromptInTime(p: Plan, midnight: (nat, nat, nat) -> int)
    requires WellFormed(p) && Prompt(p, midnight) && Serial(p)
    ensures InTime(p)
  {
    forall i | 0 <= i < |p.uploads|
      ensures (FirstOfDay(p, i) || DayPresent(p, i)) && (FirstOfHour(p, i) || HourPresent(p, i))
    {
      if j :| 0 <= j < i && SameDay(p.uploads[j], p.uploads[i]) {
        var k := FindFirst(p, i, j, false);
        DaysAreShort(p, midnight, i, k);
        assert Present(p, i, k, Intended(p, k));
      }
      if j :| 0 <= j < i && SameHour(p.uploads[j], p.uploads[i]) {
        var k := FindFirst(p, i, j, true);
        SameHourSameDay(p.uploads[k], p.uploads[i]);
        DaysAreShort(p, midnight, i, k);
        assert Present(p, i, k, Intended(p, k));
      }
    }
  }

  /** So in any run of serial, prompt uploads to a clean path, even with objects expiring, the first
      upload of a day is kept for 90 days, the first of any other hour for 7 days, and all others
      for one. */
  lemma RetentionExactly(r: Run, midnight: (nat, nat, nat) -> int, i: nat)
    requires IsRun(r) && Prompt(r.plan, midnight) && Serial(r.plan) && Clean(r.plan.path, r.plan.base) && i < |r.tags|
    ensures r.tags[i] == Choose(FirstOfDay(r.plan, i), FirstOfHour(r.plan, i))
  {
    PromptInTime(r.plan, midnight);
    InTimeRotates(r, i);
  }

  /** Then every day of a shard has exactly one upload that is kept for 90 days, its first; and every
      hour exactly one that is kept for longer than a day, its first. */
  lemma OnePerLabel(r: Run, midnight: (nat, nat, nat) -> int, i: nat) returns (d: nat, h: nat)
    requires IsRun(r) && Prompt(r.plan, midnight) && Serial(r.plan) && Clean(r.plan.path, r.plan.base) && i < |r.tags|
    ensures d <= i && SameDay(r.plan.uploads[d], r.plan.uploads[i]) && FirstOfDay(r.plan, d)
    ensures forall j :: 0 <= j < |r.tags| && SameDay(r.plan.uploads[j], r.plan.uploads[i]) ==>
        (r.tags[j] == R90d <==> j == d)
    ensures h <= i && SameHour(r.plan.uploads[h], r.plan.uploads[i]) && FirstOfHour(r.plan, h)
    ensures forall j :: 0 <= j < |r.tags| && SameHour(r.plan.uploads[j], r.plan.uploads[i]) ==>
        (r.tags[j] != R24h <==> j == h)
  {
    var p := r.plan;
    d, h := i, i;
    if j :| 0 <= j < i && SameDay(p.uploads[j], p.uploads[i]) { d := FindFirst(p, i, j, false); }
    if j :| 0 <= j < i && SameHour(p.uploads[j], p.uploads[i]) { h := FindFirst(p, i, j, true); }
    forall j | 0 <= j < |r.tags|
      ensures SameDay(p.uploads[j], p.uploads[i]) ==> (r.tags[j] == R90d <==> j == d)
      ensures SameHour(p.uploads[j], p.uploads[i]) ==> (r.tags[j] != R24h <==> j == h)
    {
      RetentionExactly(r, midnight, j);
      if FirstOfDay(p, j) { DayBeforeHour(p, j); }
      OnlyFirst(p, i, j, d, h);
    }
  }

  /** A label has one first upload. */
  lemma OnlyFirst(p: Plan, i: nat, j: nat, d: nat, h: nat)
    requires WellFormed(p) && i < |p.uploads| && j < |p.uploads| && d < |p.uploads| && h < |p.uploads|
    requires SameDay(p.uploads[d], p.uploads[i]) && FirstOfDay(p, d)
    requires SameHour(p.uploads[h], p.uploads[i]) && FirstOfHour(p, h)
    ensures SameDay(p.uploads[j], p.uploads[i]) ==> (FirstOfDay(p, j) <==> j == d)
    ensures SameHour(p.uploads[j], p.uploads[i]) ==> (FirstOfHour(p, j) <==> j == h)
  {
  }

  /** Uploads that overlap can both be kept for 90 days: a backup that timed out goes on uploading
      while the next one of its shard is tagged. */
  lemma OverlapKeepsBoth(path: string, a: Upload, b: Upload)
    requires a.Plain() && b.Plain() && SameDay(a, b) && b.taggedAt < a.at
    ensures IsRun(Run(Plan(path, path + "/", [a, b]), [R90d, R90d], [{}, {}]))
    ensures !InTime(Plan(path, path + "/", [a, b]))
  {
    var p := Plan(path, path + "/", [a, b]);
    assert p.uploads[0] == a && p.uploads[1] == b;
    assert !FirstOfDay(p, 1);
  }

  /** The check after an upload indexes the last object of the hour's listing.  The listing holds
      the upload itself exactly when the path is clean; else it is empty and the index is -1. */
  lemma CheckListsUpload(path: string, base: string, shard: string, s: Stamp)
    requires s.InRange() && '_' !in shard && '/' !in shard && Joined(path, base)
    ensures ListPrefix(path, shard, HourLabel(s)) <= ObjectKey(base, shard, s) <==> Clean(path, base)
  {
    LabelsAreHeads(s);
    if Clean(path, base) {
      ListingFinds(path, shard, HourLabel(s), shard, s);
    } else {
      UncleanFindsNothing(path, base, shard, HourLabel(s), shard, s);
    }
  }
}
