/** The sharded redis cluster as the backup controller sees it (api/v1alpha1/sentinel_types.go,
    internal/pkg/redis/sharded/redis_shard.go, redis_sharded_cluster.go). */
module Clusters {
  import opened Text
  import opened Sorting
  import opened Backups

  datatype Role = Master | Slave | UnknownRole

  datatype Server = Server(id: string, alias: string, role: Role, config: map<string, string>) {
    function GetAlias(): string { if alias != "" then alias else id }

    predicate ReadOnlySlave() {
      role.Slave? && "slave-read-only" in config && config["slave-read-only"] == "yes"
    }
  }

  datatype Shard = Shard(name: string, servers: seq<Server>)

  predicate ByID(a: Server, b: Server) { StringLess(a.id, b.id) }

  lemma ByIDIsOrder()
    ensures StrictWeakOrder(ByID)
  {
    forall a, b | ByID(a, b) ensures !ByID(b, a) { StringLessAsymmetric(a.id, b.id); }
    forall a, b, c | ByID(a, c) ensures ByID(a, b) || ByID(b, c) {
      StringLessTotal(a.id, b.id);
      if StringLess(b.id, a.id) { StringLessTransitive(b.id, a.id, c.id); }
    }
  }

  ghost predicate DistinctIDs(s: seq<Server>) {
    forall i, j :: 0 <= i < j < |s| ==> s[i].id != s[j].id
  }

  lemma DistinctIDsApart(s: seq<Server>)
    requires DistinctIDs(s)
    ensures Apart(ByID, s)
  {
    forall i, j | 0 <= i < j < |s| ensures ByID(s[i], s[j]) || ByID(s[j], s[i]) {
      StringLessTotal(s[i].id, s[j].id);
    }
  }

  // ---------- from the Sentinel status ----------

  /** The order in which a Go map hands out its entries: any order, each key once. */
  ghost predicate Enumerates(keys: seq<string>, m: map<string, Option<Server>>) {
    Distinct(keys) && forall k :: k in keys <==> k in m
  }

  /** The servers behind the entries of a status map, in a given order. */
  function ServersAt(keys: seq<string>, m: map<string, Option<Server>>): (s: seq<Server>)
    requires forall k :: k in keys ==> k in m && m[k].Some?
    ensures |s| == |keys| && forall i :: 0 <= i < |keys| ==> s[i] == m[keys[i]].value
  {
    if keys == [] then []
    else ServersAt(keys[..|keys| - 1], m) + [m[keys[|keys| - 1]].value]
  }

  ghost predicate DistinctServers(m: map<string, Option<Server>>) {
    forall k, l :: k in m && l in m && k != l && m[k].Some? && m[l].Some? ==> m[k].value.id != m[l].value.id
  }

  /** Builds the server list of one shard.  An entry is None when its address cannot be parsed.
      Whatever order the map is enumerated in, the list is the same. */
  method ShardServers(m: map<string, Option<Server>>) returns (servers: Option<seq<Server>>)
    requires DistinctServers(m)
    ensures servers.None? <==> exists k :: k in m && m[k].None?
    ensures servers.Some? ==> forall keys :: Enumerates(keys, m) ==> servers.value == Sort(ByID, ServersAt(keys, m))
  {
    var todo := m.Keys;
    var list: seq<Server> := [];
    ghost var keys: seq<string> := [];
    while todo != {}
      invariant todo <= m.Keys && Collected(list, keys, todo, m)
    {
      var k :| k in todo;
      if m[k].None? {
        return None;
      }
      CollectOneMore(list, keys, todo, m, k);
      todo := todo - {k};
      list := list + [m[k].value];
      keys := keys + [k];
    }
    AnyEnumeration(keys, m);
    servers := Some(Sort(ByID, list));
  }

  /** The list holds the servers of the entries that were walked, in the order of the walk. */
  ghost predicate Collected(list: seq<Server>, keys: seq<string>, todo: set<string>, m: map<string, Option<Server>>) {
    && Distinct(keys) && (forall k :: k in keys <==> k in m && k !in todo)
    && (forall k :: k in keys ==> m[k].Some?) && list == ServersAt(keys, m)
  }

  lemma CollectOneMore(list: seq<Server>, keys: seq<string>, todo: set<string>, m: map<string, Option<Server>>,
                       k: string)
    requires Collected(list, keys, todo, m) && k in todo && k in m && m[k].Some?
    ensures Collected(list + [m[k].value], keys + [k], todo - {k}, m)
  {
    assert (keys + [k])[..|keys|] == keys;
  }

  lemma AnyEnumeration(keys: seq<string>, m: map<string, Option<Server>>)
    requires DistinctServers(m) && Enumerates(keys, m) && forall k :: k in m ==> m[k].Some?
    ensures forall keys' :: Enumerates(keys', m) ==> Sort(ByID, ServersAt(keys', m)) == Sort(ByID, ServersAt(keys, m))
  {
    forall keys' | Enumerates(keys', m) ensures Sort(ByID, ServersAt(keys', m)) == Sort(ByID, ServersAt(keys, m)) {
      EnumerationIrrelevant(keys', keys, m);
    }
  }

  lemma EnumerationIrrelevant(a: seq<string>, b: seq<string>, m: map<string, Option<Server>>)
    requires DistinctServers(m) && Enumerates(a, m) && Enumerates(b, m)
    requires forall k :: k in m ==> m[k].Some?
    ensures Sort(ByID, ServersAt(a, m)) == Sort(ByID, ServersAt(b, m))
  {
    ByIDIsOrder();
    ServersApart(a, m);
    ServersApart(b, m);
    ServersInclude(a, b, m);
    ServersInclude(b, a, m);
    SortSame(ByID, ServersAt(a, m), ServersAt(b, m));
  }

  lemma ServersInclude(a: seq<string>, b: seq<string>, m: map<string, Option<Server>>)
    requires Enumerates(a, m) && Enumerates(b, m) && forall k :: k in m ==> m[k].Some?
    ensures forall x :: x in ServersAt(a, m) ==> x in ServersAt(b, m)
  {
    var s, t := ServersAt(a, m), ServersAt(b, m);
    forall x | x in s ensures x in t {
      var i :| 0 <= i < |s| && s[i] == x;
      assert a[i] in a && a[i] in b;
      var j :| 0 <= j < |b| && b[j] == a[i];
      assert t[j] == x;
    }
  }

  lemma ServersApart(keys: seq<string>, m: map<string, Option<Server>>)
    requires DistinctServers(m) && Distinct(keys) && forall k :: k in keys ==> k in m && m[k].Some?
    ensures Apart(ByID, ServersAt(keys, m))
  {
    var s := ServersAt(keys, m);
    forall i, j | 0 <= i < j < |s| ensures s[i].id != s[j].id {
      assert keys[i] in keys && keys[j] in keys;
    }
    DistinctIDsApart(s);
  }

  // ---------- choosing a slave ----------

  function ReadOnlySlaves(s: seq<Server>): seq<Server> {
    if s == [] then []
    else
      var front := ReadOnlySlaves(s[..|s| - 1]);
      if s[|s| - 1].ReadOnlySlave() then front + [s[|s| - 1]] else front
  }

  function SlavesRO(s: seq<Server>): seq<Server> { Sort(ByID, ReadOnlySlaves(s)) }

  lemma {:induction false} ReadOnlySlavesElements(s: seq<Server>)
    ensures forall x :: x in ReadOnlySlaves(s) <==> x in s && x.ReadOnlySlave()
    ensures DistinctIDs(s) ==> DistinctIDs(ReadOnlySlaves(s))
  {
    if s != [] {
      ReadOnlySlavesElements(s[..|s| - 1]);
      var front := ReadOnlySlaves(s[..|s| - 1]);
      if DistinctIDs(s) {
        forall i | 0 <= i < |front| ensures front[i].id != s[|s| - 1].id {
          assert front[i] in s[..|s| - 1];
        }
      }
    }
  }

  /** A slave that redis itself keeps from taking writes. */
  ghost predicate ConfiguredReadOnly(y: Server) {
    y.role == Slave && exists k :: k in y.config && k == "slave-read-only" && y.config[k] == "yes"
  }

  lemma ReadOnlyMeaning(y: Server)
    ensures y.ReadOnlySlave() <==> ConfiguredReadOnly(y)
  {
  }

  /** A slave that takes writes is never chosen, nor is a master. */
  lemma WritableNeverChosen(s: seq<Server>, x: Server)
    requires DistinctIDs(s) && SlavesRO(s) != [] && SlavesRO(s)[0] == x
    ensures x.role == Slave && "slave-read-only" in x.config && x.config["slave-read-only"] == "yes"
    ensures x in s
  {
    ChosenSlave(s, x);
  }

  /** The slave chosen for a backup is the read-only slave with the least id, so it does not
      depend on the order of the servers: a retry picks the same one. */
  lemma ChosenSlave(s: seq<Server>, x: Server)
    requires DistinctIDs(s)
    ensures SlavesRO(s) == [] <==> forall y :: y in s ==> !ConfiguredReadOnly(y)
    ensures SlavesRO(s) != [] && SlavesRO(s)[0] == x <==>
            && x in s && ConfiguredReadOnly(x)
            && forall y :: y in s && ConfiguredReadOnly(y) && y != x ==> StringLess(x.id, y.id)
  {
    var ro := ReadOnlySlaves(s);
    forall y: Server ensures y.ReadOnlySlave() <==> ConfiguredReadOnly(y) { ReadOnlyMeaning(y); }
    ByIDIsOrder();
    ReadOnlySlavesElements(s);
    DistinctIDsApart(ro);
    SortStrict(ByID, ro);
    SortElements(ByID, ro);
    var sorted := SlavesRO(s);
    assert sorted == [] || sorted[0] in sorted;
    forall y | y in s && y.ReadOnlySlave() ensures y in sorted && (y == sorted[0] || ByID(sorted[0], y)) {
      var i :| 0 <= i < |sorted| && sorted[i] == y;
    }
  }

  method GetSlavesRO(shard: Shard) returns (servers: seq<Server>)
    ensures servers == SlavesRO(shard.servers)
  {
    servers := [];
    for i := 0 to |shard.servers|
      invariant servers == ReadOnlySlaves(shard.servers[..i])
    {
      assert shard.servers[..i + 1][..i] == shard.servers[..i];
      if shard.servers[i].ReadOnlySlave() {
        servers := servers + [shard.servers[i]];
      }
    }
    assert shard.servers[..|shard.servers|] == shard.servers;
    servers := Sort(ByID, servers);
  }

  // ---------- looking things up ----------

  function FindServer(s: seq<Server>, id: string): (r: Option<Server>)
    ensures r.Some? ==> r.value in s && r.value.id == id
    ensures r.None? <==> forall x :: x in s ==> x.id != id
  {
    if s == [] then None else if s[0].id == id then Some(s[0]) else FindServer(s[1..], id)
  }

  function LookupServer(shards: seq<Shard>, id: string): (r: Option<Server>)
    ensures r.Some? ==> r.value.id == id && exists shard :: shard in shards && r.value in shard.servers
    ensures r.None? <==> forall shard, x :: shard in shards && x in shard.servers ==> x.id != id
  {
    if shards == [] then None
    else if FindServer(shards[0].servers, id).Some? then FindServer(shards[0].servers, id)
    else LookupServer(shards[1..], id)
  }

  method LookupServerByID(shards: seq<Shard>, id: string) returns (r: Option<Server>)
    ensures r == LookupServer(shards, id)
  {
    for i := 0 to |shards|
      invariant LookupServer(shards[i..], id) == LookupServer(shards, id)
    {
      var servers := shards[i].servers;
      for j := 0 to |servers|
        invariant FindServer(servers[j..], id) == FindServer(servers, id)
      {
        if servers[j].id == id {
          assert servers[j..][0] == servers[j];
          return Some(servers[j]);
        }
        assert servers[j..][1..] == servers[j + 1..];
      }
      assert shards[i..][0] == shards[i] && shards[i..][1..] == shards[i + 1..];
    }
    return None;
  }

  function Names(shards: seq<Shard>): (names: seq<string>)
    ensures |names| == |shards| && forall i :: 0 <= i < |shards| ==> names[i] == shards[i].name
  {
    seq(|shards|, i requires 0 <= i < |shards| => shards[i].name)
  }

  /** Cluster.GetShardNames. */
  function ShardNames(shards: seq<Shard>): seq<string> { Sort(StringLess, Names(shards)) }

  lemma ShardNamesMeaning(shards: seq<Shard>)
    requires Distinct(Names(shards))
    ensures Distinct(ShardNames(shards)) && StrictlySorted(StringLess, ShardNames(shards))
    ensures forall n :: n in ShardNames(shards) <==> exists shard :: shard in shards && shard.name == n
  {
    var names := Names(shards);
    forall a, b | StringLess(a, b) ensures !StringLess(b, a) { StringLessAsymmetric(a, b); }
    forall a, b, c | StringLess(a, c) ensures StringLess(a, b) || StringLess(b, c) {
      StringLessTotal(a, b);
      if StringLess(b, a) { StringLessTransitive(b, a, c); }
    }
    forall i, j | 0 <= i < j < |names| ensures StringLess(names[i], names[j]) || StringLess(names[j], names[i]) {
      StringLessTotal(names[i], names[j]);
    }
    SortStrict(StringLess, names);
    SortElements(StringLess, names);
    forall n ensures n in names <==> exists shard :: shard in shards && shard.name == n {
      if n in names {
        var i :| 0 <= i < |names| && names[i] == n;
        assert shards[i] in shards;
      }
    }
    forall i, j | 0 <= i < j < |names| ensures ShardNames(shards)[i] != ShardNames(shards)[j] {
      StringLessAsymmetric(ShardNames(shards)[i], ShardNames(shards)[j]);
    }
  }
}
