/** The manager of concurrent threads shared by all resources of a controller
    (internal/pkg/reconcilers/threads/manager.go). */
module Threads {
  import opened Text

  /** The resource that owns threads. */
  datatype Owner = Owner(namespace: string, name: string) {
    /** What marks the keys of this owner's threads. */
    function Prefix(): string { namespace + "/" + name + "_" }

    /** What Kubernetes guarantees of namespaces and names. */
    predicate Plain() {
      '/' !in namespace && '_' !in namespace && '/' !in name && '_' !in name
    }
  }

  /** The ownership test, spelled out: a key passes another owner's test exactly when both names
      are equal and the tester's namespace ends the key's namespace, or when the thread id
      itself contains the tester's prefix. */
  lemma OwnershipTest(owner: Owner, id: string, other: Owner)
    requires owner.Plain() && other.Plain()
    ensures Contains(owner.Prefix() + id, other.Prefix())
       <==> (owner.name == other.name && IsSuffix(other.namespace, owner.namespace)) || Contains(id, other.Prefix())
  {
    var key, p := owner.Prefix() + id, other.Prefix();
    var n := |owner.Prefix()|;
    if Contains(key, p) {
      var i := ContainsOccurs(key, p);
      if i < n {
        OccurrenceInPrefix(owner, id, other, i);
      } else {
        OccursInTail(owner.Prefix(), id, p, i - n);
        OccursContains(id, p, i - n);
      }
    }
    if Contains(id, p) {
      var i := ContainsOccurs(id, p);
      OccursInTail(owner.Prefix(), id, p, i);
      OccursContains(key, p, n + i);
    }
    if owner.name == other.name && IsSuffix(other.namespace, owner.namespace) {
      SuffixOccurs(owner, id, other);
    }
  }

  lemma SuffixOccurs(owner: Owner, id: string, other: Owner)
    requires owner.name == other.name && IsSuffix(other.namespace, owner.namespace)
    ensures Contains(owner.Prefix() + id, other.Prefix())
  {
    var key, p := owner.Prefix() + id, other.Prefix();
    var i := |owner.namespace| - |other.namespace|;
    assert key[i..i + |p|] == owner.namespace[i..] + "/" + owner.name + "_";
    OccursContains(key, p, i);
  }

  lemma OccurrenceInPrefix(owner: Owner, id: string, other: Owner, i: nat)
    requires owner.Plain() && other.Plain()
    requires OccursAt(owner.Prefix() + id, other.Prefix(), i) && i < |owner.Prefix()|
    ensures owner.name == other.name && IsSuffix(other.namespace, owner.namespace)
  {
    var key, p := owner.Prefix() + id, other.Prefix();
    var slash, under := |owner.namespace|, |owner.Prefix()| - 1;
    forall k | 0 <= k < |p| ensures key[i + k] == p[k] {
      assert key[i..i + |p|][k] == key[i + k];
    }
    assert key[under] == '_' && key[slash] == '/';
    // The tester's slash cannot lie beyond the underscore, nor be any other slash before it.
    var at := i + |other.namespace|;
    assert p[|other.namespace|] == '/' && key[at] == '/';
    assert at <= under;
    assert at == slash;
    // Then the tester's underscore is the owner's.
    var end := i + |p| - 1;
    assert p[|p| - 1] == '_' && key[end] == '_';
    assert end == under;
    assert owner.name == key[slash + 1..under] == p[|other.namespace| + 1..|p| - 1] == other.name;
    assert owner.namespace[i..] == key[i..slash] == p[..|other.namespace|] == other.namespace;
  }

  /** Owners in one namespace never see each other's threads, as long as thread ids hold no slash. */
  lemma NeighboursApart(owner: Owner, id: string, other: Owner)
    requires owner.Plain() && other.Plain() && '/' !in id
    requires owner.namespace == other.namespace && owner.name != other.name
    ensures !Contains(owner.Prefix() + id, other.Prefix())
  {
    OwnershipTest(owner, id, other);
    PrefixHasSlash(id, other);
  }

  lemma PrefixHasSlash(id: string, other: Owner)
    ensures Contains(id, other.Prefix()) ==> '/' in id
  {
    if Contains(id, other.Prefix()) {
      var i := ContainsOccurs(id, other.Prefix());
      var k := |other.namespace|;
      assert other.Prefix()[k] == '/';
      assert id[i + k] == id[i..i + |other.Prefix()|][k];
    }
  }

  /** Across namespaces they can: b/x sees the threads of a-b/x. */
  lemma NamespaceSuffixCollides(id: string)
    ensures Contains(Owner("a-b", "x").Prefix() + id, Owner("b", "x").Prefix())
  {
    OwnershipTest(Owner("a-b", "x"), id, Owner("b", "x"));
  }

  // ---------- the map of threads ----------

  /** A thread as the manager sees it; `handle` stands for the object behind the interface. */
  datatype Thread = Thread(id: string, handle: nat, startFails: bool, started: bool) {
    function Start(): Thread { if startFails then this else this.(started := true) }
  }

  type ThreadMap = map<string, Thread>

  datatype RunResult = RunResult(threads: ThreadMap, ok: bool)

  /** Starting a thread under a key leaves a started thread alone, and gives a thread that
      could not be started another try. */
  function RunOne(threads: ThreadMap, key: string, t: Thread): RunResult {
    if key in threads && threads[key].started then RunResult(threads, true)
    else
      var thread := (if key in threads then threads[key] else t).Start();
      RunResult(threads[key := thread], thread.started)
  }

  /** Starting threads one after the other, up to the first that fails. */
  function RunAll(threads: ThreadMap, prefix: string, wanted: seq<Thread>): RunResult
    decreases |wanted|
  {
    if wanted == [] then RunResult(threads, true)
    else
      var r := RunOne(threads, prefix + wanted[0].id, wanted[0]);
      if r.ok then RunAll(r.threads, prefix, wanted[1..]) else r
  }

  function WantedKeys(prefix: string, wanted: seq<Thread>): set<string> {
    set t | t in wanted :: prefix + t.id
  }

  predicate MustStop(key: string, prefix: string, keep: set<string>, expired: set<string>) {
    Contains(key, prefix) && key !in keep && key in expired
  }

  function StopExpired(threads: ThreadMap, prefix: string, keep: set<string>, expired: set<string>): ThreadMap {
    map key | key in threads && !MustStop(key, prefix, keep, expired) :: threads[key]
  }

  /** `expired` holds the keys whose thread answers that it can be deleted. */
  function ReconcileMap(threads: ThreadMap, prefix: string, wanted: seq<Thread>, expired: set<string>): RunResult {
    var r := RunAll(threads, prefix, wanted);
    if r.ok then RunResult(StopExpired(r.threads, prefix, WantedKeys(prefix, wanted), expired), true) else r
  }

  lemma WantedKeysSplit(prefix: string, wanted: seq<Thread>)
    requires wanted != []
    ensures WantedKeys(prefix, wanted) == {prefix + wanted[0].id} + WantedKeys(prefix, wanted[1..])
  {
    assert wanted == [wanted[0]] + wanted[1..];
  }

  /** Starting threads keeps every key, keeps every object in place, and leaves alone what
      runs already or is not wanted. */
  lemma {:induction false} RunAllFrame(threads: ThreadMap, prefix: string, wanted: seq<Thread>)
    ensures var r := RunAll(threads, prefix, wanted);
            && threads.Keys <= r.threads.Keys <= threads.Keys + WantedKeys(prefix, wanted)
            && (forall k :: k in threads && (threads[k].started || k !in WantedKeys(prefix, wanted)) ==>
                r.threads[k] == threads[k])
            && (forall k :: k in threads ==> r.threads[k].handle == threads[k].handle)
    decreases |wanted|
  {
    if wanted != [] {
      WantedKeysSplit(prefix, wanted);
      RunAllFrame(RunOne(threads, prefix + wanted[0].id, wanted[0]).threads, prefix, wanted[1..]);
    }
  }

  /** A thread that is new in the map is one of those asked for, after its Start. */
  lemma {:induction false} RunAllFresh(threads: ThreadMap, prefix: string, wanted: seq<Thread>, k: string)
    returns (i: nat)
    requires k in RunAll(threads, prefix, wanted).threads && k !in threads
    ensures i < |wanted| && prefix + wanted[i].id == k &&
        RunAll(threads, prefix, wanted).threads[k].handle == wanted[i].handle
    ensures RunAll(threads, prefix, wanted).ok ==> RunAll(threads, prefix, wanted).threads[k] == wanted[i].Start()
    decreases |wanted|
  {
    var key := prefix + wanted[0].id;
    var r := RunOne(threads, key, wanted[0]);
    if k == key {
      i := 0;
      if r.ok { RunAllFrame(r.threads, prefix, wanted[1..]); }
    } else {
      i := RunAllFresh(r.threads, prefix, wanted[1..], k);
      i := i + 1;
    }
  }

  lemma {:induction false} RunAllStarted(threads: ThreadMap, prefix: string, wanted: seq<Thread>, k: string)
    requires RunAll(threads, prefix, wanted).ok && k in WantedKeys(prefix, wanted)
    ensures k in RunAll(threads, prefix, wanted).threads && RunAll(threads, prefix, wanted).threads[k].started
    decreases |wanted|
  {
    var key := prefix + wanted[0].id;
    var r := RunOne(threads, key, wanted[0]);
    WantedKeysSplit(prefix, wanted);
    if k == key {
      RunAllFrame(r.threads, prefix, wanted[1..]);
    } else {
      RunAllStarted(r.threads, prefix, wanted[1..], k);
    }
  }

  /** A start that fails ends the loop: the threads before it were started, the one that failed is in
      the map and not started, and the ones after it were not touched. */
  lemma {:induction false} RunAllFailure(threads: ThreadMap, prefix: string, wanted: seq<Thread>) returns (f: nat)
    requires !RunAll(threads, prefix, wanted).ok
    ensures f < |wanted|
    ensures var before, key := RunAll(threads, prefix, wanted[..f]), prefix + wanted[f].id;
            var after := RunAll(threads, prefix, wanted).threads;
            && before.ok && after.Keys == before.threads.Keys + {key} && !after[key].started
            && (forall k :: k in before.threads && k != key ==> after[k] == before.threads[k])
            && after[key].handle == if key in before.threads then before.threads[key].handle else wanted[f].handle
    decreases |wanted|
  {
    var r := RunOne(threads, prefix + wanted[0].id, wanted[0]);
    if !r.ok {
      f := 0;
    } else {
      var g := RunAllFailure(r.threads, prefix, wanted[1..]);
      f := g + 1;
      assert wanted[..f][0] == wanted[0] && wanted[..f][1..] == wanted[1..][..g];
    }
  }

  /** A successful reconcile leaves every wanted key present and started, stops exactly the
      keys that pass the ownership test, are not wanted and may go, and touches no other;
      a failed one stops nothing. */
  lemma ReconcileMeaning(threads: ThreadMap, prefix: string, wanted: seq<Thread>, expired: set<string>)
    ensures var r := ReconcileMap(threads, prefix, wanted, expired);
            var keep := WantedKeys(prefix, wanted);
            && (r.ok ==> forall k :: k in keep ==> k in r.threads && r.threads[k].started)
            && (r.ok ==> forall k :: k in threads ==> (k !in r.threads <==> MustStop(k, prefix, keep, expired)))
            && (forall k :: k in threads && k in r.threads && (threads[k].started || k !in keep) ==>
                r.threads[k] == threads[k])
            && (forall k :: k in r.threads ==> k in threads || k in keep)
            && (!r.ok ==> threads.Keys <= r.threads.Keys)
  {
    RunAllFrame(threads, prefix, wanted);
    forall k | RunAll(threads, prefix, wanted).ok && k in WantedKeys(prefix, wanted)
      ensures k in RunAll(threads, prefix, wanted).threads && RunAll(threads, prefix, wanted).threads[k].started
    {
      RunAllStarted(threads, prefix, wanted, k);
    }
  }

  /** The objects under keys that are in one map and not in another. */
  function Dropped(before: ThreadMap, after: ThreadMap): set<nat> {
    set k | k in before && k !in after :: before[k].handle
  }

  class Manager {
    var threads: ThreadMap
    var locked: bool
    /** The thread objects that were told to stop. */
    var stopped: set<nat>

    constructor ()
      ensures threads == map[] && !locked && stopped == {}
    {
      threads := map[];
      locked := false;
      stopped := {};
    }

    method RunThread(key: string, thread: Thread) returns (ok: bool)
      requires !locked
      modifies this
      ensures !locked && stopped == old(stopped)
      ensures RunResult(threads, ok) == RunOne(old(threads), key, thread)
    {
      if key in threads && threads[key].started {
        return true;
      }
      locked := true;
      if key !in threads {
        threads := threads[key := thread];
      }
      threads := threads[key := threads[key].Start()];
      ok := threads[key].started;
      locked := false;
    }

    /** Tells the thread to stop and removes it.  For a key that is not there, the early return
        keeps the mutex. */
    method StopThread(key: string)
      requires !locked
      modifies this
      ensures threads == old(threads) - {key}
      ensures locked <==> key !in old(threads)
      ensures stopped == old(stopped) + if key in old(threads) then {old(threads)[key].handle} else {}
    {
      locked := true;
      if key !in threads {
        return;
      }
      stopped := stopped + {threads[key].handle};
      threads := threads - {key};
      locked := false;
    }

    method ReconcileThreads(owner: Owner, wanted: seq<Thread>, expired: set<string>) returns (ok: bool)
      requires !locked
      modifies this
      ensures !locked
      ensures RunResult(threads, ok) == ReconcileMap(old(threads), owner.Prefix(), wanted, expired)
      ensures stopped == old(stopped) + Dropped(RunAll(old(threads), owner.Prefix(), wanted).threads, threads)
      ensures forall k :: k in old(threads) && k !in threads ==> old(threads)[k].handle in stopped
    {
      var shouldRun: set<string> := {};
      for i := 0 to |wanted|
        invariant !locked && stopped == old(stopped)
        invariant shouldRun == WantedKeys(owner.Prefix(), wanted[..i])
        invariant RunAll(threads, owner.Prefix(), wanted[i..]) == RunAll(old(threads), owner.Prefix(), wanted)
      {
        var key := owner.Prefix() + wanted[i].id;
        assert wanted[..i + 1] == wanted[..i] + [wanted[i]];
        shouldRun := shouldRun + {key};
        ok := RunThread(key, wanted[i]);
        if !ok {
          RunAllFrame(old(threads), owner.Prefix(), wanted);
          return;
        }
        assert wanted[i..][1..] == wanted[i + 1..];
      }
      assert wanted[..|wanted|] == wanted;
      RunAllFrame(old(threads), owner.Prefix(), wanted);
      StopUnwanted(owner, shouldRun, expired);
      ok := true;
    }

    /** The second loop: walks the keys in any order. */
    method StopUnwanted(owner: Owner, shouldRun: set<string>, expired: set<string>)
      requires !locked
      modifies this
      ensures !locked
      ensures threads == StopExpired(old(threads), owner.Prefix(), shouldRun, expired)
      ensures stopped == old(stopped) + Dropped(old(threads), threads)
    {
      var todo := threads.Keys;
      while todo != {}
        invariant !locked && todo <= threads.Keys
        invariant forall k :: k in threads <==>
            k in old(threads) && (k in todo || !MustStop(k, owner.Prefix(), shouldRun, expired))
        invariant forall k :: k in threads ==> threads[k] == old(threads)[k]
        invariant stopped == old(stopped) + Dropped(old(threads), threads)
      {
        var key :| key in todo;
        todo := todo - {key};
        if Contains(key, owner.Prefix()) {
          if key !in shouldRun && key in expired {
            StopThread(key);
          }
        }
      }
    }

    /** Stops every thread that passes the owner's test; leaves the mutex free. */
    method CleanupThreads(owner: Owner)
      requires !locked
      modifies this
      ensures !locked
      ensures threads == CleanMap(old(threads), owner.Prefix())
      ensures forall k :: k in threads <==> k in old(threads) && !Contains(k, owner.Prefix())
      ensures forall k :: k in threads ==> threads[k] == old(threads)[k]
      ensures forall k :: k in old(threads) && Contains(k, owner.Prefix()) ==> old(threads)[k].handle in stopped
      ensures stopped == old(stopped) + Dropped(old(threads), threads)
    {
      var todo := threads.Keys;
      while todo != {}
        invariant !locked && todo <= threads.Keys
        invariant forall k :: k in threads <==> k in old(threads) && (k in todo || !Contains(k, owner.Prefix()))
        invariant forall k :: k in threads ==> threads[k] == old(threads)[k]
        invariant stopped == old(stopped) + Dropped(old(threads), threads)
      {
        var key :| key in todo;
        todo := todo - {key};
        if Contains(key, owner.Prefix()) {
          StopThread(key);
        }
      }
    }

    method GetThread(id: string, owner: Owner) returns (t: Option<Thread>)
      ensures t.Some? <==> owner.Prefix() + id in threads
      ensures t.Some? ==> t.value == threads[owner.Prefix() + id]
    {
      var key := owner.Prefix() + id;
      if key in threads {
        return Some(threads[key]);
      } else {
        return None;
      }
    }
  }

  function CleanMap(threads: ThreadMap, prefix: string): ThreadMap {
    map key | key in threads && !Contains(key, prefix) :: threads[key]
  }
}
