/** The nodes of a RedisShard, by pod index and by address
    (internal/controller/redisshard_controller.go, api/v1alpha1/redisshard_types.go). */
module RedisNodes {
  import opened Text
  import opened Clusters

  /** The name of a pod, which is also the alias of its server. */
  function PodName(service: string, i: nat): string { service + "-" + Decimal(i) }

  /** net.JoinHostPort with the redis port. */
  function HostPort(ip: string): string {
    if ':' in ip then "[" + ip + "]:6379" else ip + ":6379"
  }

  const SCHEME := "redis://"

  /** An address reads as host and port: the host in brackets, or bare and without a colon. */
  ghost predicate Reads(s: string, host: string, port: string) {
    ':' !in port &&
    (s == "[" + host + "]:" + port || (s == host + ":" + port && ':' !in host && '[' !in host && ']' !in host))
  }

  /** The address of an IP, of version 4 or 6, reads as that IP and the redis port and in no other way. */
  lemma HostPortReads(ip: string, host: string, port: string)
    requires '[' !in ip && ']' !in ip
    ensures Reads(HostPort(ip), host, port) <==> host == ip && port == "6379"
  {
    var s := HostPort(ip);
    assert ':' !in "6379";
    if ':' in ip {
      assert s == "[" + ip + "]:" + "6379" == ("[" + ip + "]") + ":" + "6379" && s[0] == '[';
    } else {
      assert s == ip + ":" + "6379" && s[0] != '[';
    }
    if Reads(s, host, port) {
      if s == "[" + host + "]:" + port {
        assert s[0] == '[' && s == ("[" + host + "]") + ":" + port;
        SplitAtLast("[" + host + "]", port, "[" + ip + "]", "6379", ':');
        assert host == ("[" + host + "]")[1..|host| + 1] == ("[" + ip + "]")[1..|ip| + 1] == ip;
      } else {
        assert s[0] == (if host == "" then ':' else host[0]) != '[';
        SplitAtLast(host, port, ip, "6379", ':');
      }
    }
  }

  lemma HostPortInjective(ip: string, jp: string)
    requires '[' !in ip && ']' !in ip && '[' !in jp && ']' !in jp && HostPort(ip) == HostPort(jp)
    ensures ip == jp
  {
    HostPortReads(ip, ip, "6379");
    HostPortReads(jp, ip, "6379");
  }

  /** The number at the end of a pod name. */
  function PodIndex(alias: string): int { Atoi(AfterLastDash(alias)) }

  lemma PodIndexOfName(service: string, i: nat)
    ensures PodIndex(PodName(service, i)) == i
  {
    DecimalHasNoDash(i);
    AfterLastDashOf(service, Decimal(i));
    AtoiOfDecimal(i);
  }

  /** The names of the first n pods. */
  function PodNames(service: string, n: nat): (names: seq<string>)
    ensures |names| == n
  {
    if n == 0 then [] else PodNames(service, n - 1) + [PodName(service, n - 1)]
  }

  /** Each name ends in its position; so no two are equal. */
  ghost predicate Numbered(names: seq<string>) {
    forall i :: 0 <= i < |names| ==> PodIndex(names[i]) == i
  }

  lemma {:induction false} PodNamesNumbered(service: string, n: nat)
    ensures Numbered(PodNames(service, n))
  {
    if n > 0 {
      PodNamesNumbered(service, n - 1);
      PodIndexOfName(service, n - 1);
    }
  }

  // ---------- gathering the pods ----------

  datatype Roles = GetFailed | WaitForIP | Topology(urls: map<string, string>, master: string)

  /** The map from pod names to the URLs of their addresses. */
  function UrlsOf(names: seq<string>, addresses: seq<string>): map<string, string>
    requires |names| == |addresses|
  {
    if names == [] then map[]
    else
      var n := |names| - 1;
      UrlsOf(names[..n], addresses[..n])[names[n] := SCHEME + addresses[n]]
  }

  ghost predicate Different(names: seq<string>) {
    forall i, j :: 0 <= i < j < |names| ==> names[i] != names[j]
  }

  lemma NumberedDifferent(names: seq<string>)
    requires Numbered(names)
    ensures Different(names)
  {
    forall i, j | 0 <= i < j < |names| ensures names[i] != names[j] {
      assert PodIndex(names[i]) == i && PodIndex(names[j]) == j;
    }
  }

  lemma {:induction false} UrlsMeaning(names: seq<string>, addresses: seq<string>)
    requires |names| == |addresses| && Different(names)
    ensures forall k :: k in UrlsOf(names, addresses) <==> k in names
    ensures forall i :: 0 <= i < |names| ==> UrlsOf(names, addresses)[names[i]] == SCHEME + addresses[i]
  {
    if names != [] {
      var n := |names| - 1;
      UrlsMeaning(names[..n], addresses[..n]);
      assert names == names[..n] + [names[n]];
    }
  }

  lemma UrlsGrow(names: seq<string>, addresses: seq<string>, name: string, address: string)
    requires |names| == |addresses|
    ensures UrlsOf(names + [name], addresses + [address]) == UrlsOf(names, addresses)[name := SCHEME + address]
  {
    assert (names + [name])[..|names|] == names && (addresses + [address])[..|names|] == addresses;
  }

  predicate Ready(pods: seq<Option<string>>) {
    forall i :: 0 <= i < |pods| ==> pods[i].Some? && pods[i].value != ""
  }

  /** The addresses of pods that have one. */
  function Addresses(pods: seq<Option<string>>): (r: seq<string>)
    requires Ready(pods)
    ensures |r| == |pods|
  {
    if pods == [] then [] else Addresses(pods[..|pods| - 1]) + [HostPort(pods[|pods| - 1].value)]
  }

  /** Looks up every pod.  A pod is None when the API call fails; its IP is empty until allocated. */
  method SetRedisRoles(service: string, pods: seq<Option<string>>, masterIndex: int) returns (r: Roles)
    ensures r.Topology? <==> Ready(pods)
    ensures r.Topology? ==> r.urls == UrlsOf(PodNames(service, |pods|), Addresses(pods))
    ensures r.Topology? ==> r.master == if 0 <= masterIndex < |pods| then Addresses(pods)[masterIndex] else ""
  {
    var urls: map<string, string> := map[];
    var master := "";
    ghost var names: seq<string>, addresses: seq<string> := [], [];
    for i := 0 to |pods|
      invariant Ready(pods[..i]) && addresses == Addresses(pods[..i]) && names == PodNames(service, i)
      invariant urls == UrlsOf(names, addresses)
      invariant master == if 0 <= masterIndex < i then addresses[masterIndex] else ""
    {
      if pods[i].None? {
        return GetFailed;
      }
      if pods[i].value == "" {
        return WaitForIP;
      }
      var name, address := PodName(service, i), HostPort(pods[i].value);
      urls := urls[name := SCHEME + address];
      UrlsGrow(names, addresses, name, address);
      assert pods[..i + 1][..i] == pods[..i];
      assert PodNames(service, i + 1) == names + [name];
      names, addresses := names + [name], addresses + [address];
      if masterIndex == i {
        master := address;
      }
    }
    assert pods[..|pods|] == pods;
    r := Topology(urls, master);
  }

  // ---------- the status ----------

  datatype Nodes = Nodes(master: map<string, string>, slaves: map<string, string>) {
    /** util.MergeMaps of both. */
    function All(): map<string, string> { master + slaves }
  }

  ghost predicate KnownRole(s: Server) { s.role.Master? || s.role.Slave? }

  /** Servers with different aliases. */
  ghost predicate DistinctAliases(servers: seq<Server>) {
    forall i, j :: 0 <= i < j < |servers| ==> servers[i].GetAlias() != servers[j].GetAlias()
  }

  /** Each server of known role is in the map of its role, no other name is, and none is in both. */
  ghost predicate SplitByRole(nodes: Nodes, servers: seq<Server>) {
    && nodes.master.Keys !! nodes.slaves.Keys
    && (forall s :: s in servers && KnownRole(s) ==>
          s.GetAlias() in (if s.role.Master? then nodes.master else nodes.slaves) && nodes.All()[s.GetAlias()] == s.id)
    && (forall k :: k in nodes.All() ==> exists s :: s in servers && KnownRole(s) && s.GetAlias() == k)
  }

  lemma InsertEither(m: map<string, string>, l: map<string, string>, k: string, v: string)
    requires m.Keys !! l.Keys && k !in m && k !in l
    ensures m[k := v].Keys !! l.Keys && m.Keys !! l[k := v].Keys
    ensures m[k := v] + l == (m + l)[k := v] && m + l[k := v] == (m + l)[k := v]
  {
  }

  lemma SplitOneMore(nodes: Nodes, servers: seq<Server>, server: Server, nodes': Nodes)
    requires SplitByRole(nodes, servers) && forall s :: s in servers ==> s.GetAlias() != server.GetAlias()
    requires var k := server.GetAlias();
             nodes' == if server.role.Master? then nodes.(master := nodes.master[k := server.id])
                       else if server.role.Slave? then nodes.(slaves := nodes.slaves[k := server.id]) else nodes
    ensures SplitByRole(nodes', servers + [server])
  {
    var k := server.GetAlias();
    assert k !in nodes.All();
    InsertEither(nodes.master, nodes.slaves, k, server.id);
    assert nodes'.All() == if KnownRole(server) then nodes.All()[k := server.id] else nodes.All();
    var more := servers + [server];
    assert server in more && forall s :: s in more <==> s in servers || s == server;
    forall s | s in more && KnownRole(s)
      ensures s.GetAlias() in (if s.role.Master? then nodes'.master else nodes'.slaves) &&
          nodes'.All()[s.GetAlias()] == s.id
    {
      if s in servers { assert s.GetAlias() != k; }
    }
    forall l | l in nodes'.All() ensures exists s :: s in more && KnownRole(s) && s.GetAlias() == l {
      if l in nodes.All() {
        var s :| s in servers && KnownRole(s) && s.GetAlias() == l;
        assert s in more;
      }
    }
  }

  /** Splits the servers by role; servers of unknown role are in neither part. */
  method StatusNodes(servers: seq<Server>) returns (nodes: Nodes)
    requires DistinctAliases(servers)
    ensures SplitByRole(nodes, servers)
  {
    nodes := Nodes(map[], map[]);
    for n := 0 to |servers|
      invariant SplitByRole(nodes, servers[..n])
    {
      var server := servers[n];
      assert servers[..n + 1] == servers[..n] + [server];
      forall s | s in servers[..n] ensures s.GetAlias() != server.GetAlias() {
        var i :| 0 <= i < n && servers[i] == s;
      }
      ghost var before := nodes;
      if server.role.Master? {
        nodes := nodes.(master := nodes.master[server.GetAlias() := server.id]);
      } else if server.role.Slave? {
        nodes := nodes.(slaves := nodes.slaves[server.GetAlias() := server.id]);
      }
      SplitOneMore(before, servers[..n], server, nodes);
    }
    assert servers[..|servers|] == servers;
  }

  /** The status holds the pods in `known` and no others. */
  ghost predicate Describes(all: map<string, string>, names: seq<string>, addresses: seq<string>, known: set<nat>) {
    && |names| == |addresses| && Numbered(names)
    && (forall i :: i in known ==> i < |names| && names[i] in all && all[names[i]] == addresses[i])
    && (forall k :: k in all ==> exists i :: i in known && i < |names| && names[i] == k)
  }

  /** The node whose name ends in the pod index: the map is walked in any order, and yet the
      answer is the pod with that number when its role is known, else empty. */
  method GetNodeByPodIndex(nodes: Nodes, podIndex: int) returns (alias: string, hostport: string)
    ensures forall names, addresses, known :: Describes(nodes.All(), names, addresses, known) ==>
              (alias, hostport) ==
                if podIndex >= 0 && podIndex in known then (names[podIndex], addresses[podIndex]) else ("", "")
  {
    var all := nodes.All();
    var todo := all.Keys;
    while todo != {}
      invariant todo <= all.Keys
      invariant forall k :: k in all && k !in todo ==> PodIndex(k) != podIndex
    {
      var k :| k in todo;
      todo := todo - {k};
      if PodIndex(k) == podIndex {
        return k, all[k];
      }
    }
    return "", "";
  }

  method GetIndexByHostPort(nodes: Nodes, hostport: string) returns (index: int)
    ensures forall names, addresses, known ::
              Describes(nodes.All(), names, addresses, known) && DistinctAddresses(addresses) ==>
              if hostport in addresses then
                exists i: nat :: i < |addresses| && addresses[i] == hostport && index == if i in known then i else -1
              else index == -1
  {
    var all := nodes.All();
    var todo := all.Keys;
    while todo != {}
      invariant todo <= all.Keys
      invariant forall k :: k in all && k !in todo ==> all[k] != hostport
    {
      var k :| k in todo;
      todo := todo - {k};
      if hostport == all[k] {
        return PodIndex(k);
      }
    }
    return -1;
  }

  ghost predicate DistinctAddresses(addresses: seq<string>) {
    forall i, j :: 0 <= i < j < |addresses| ==> addresses[i] != addresses[j]
  }

  /** The servers of a shard made from a topology: one per entry, under its name, with the address
      of its URL as id. */
  ghost predicate ServersOf(servers: seq<Server>, urls: map<string, string>) {
    && DistinctAliases(servers)
    && (forall s :: s in servers ==> s.GetAlias() in urls && urls[s.GetAlias()] == SCHEME + s.id)
    && (forall k :: k in urls ==> exists s :: s in servers && s.GetAlias() == k)
  }

  ghost predicate KnownUnder(servers: seq<Server>, name: string) {
    exists s :: s in servers && s.GetAlias() == name && KnownRole(s)
  }

  /** The status made from such servers holds the pods whose role is known. */
  lemma StatusDescribes(all: map<string, string>, servers: seq<Server>, names: seq<string>, addresses: seq<string>)
    returns (known: set<nat>)
    requires |names| == |addresses| && Numbered(names) && ServersOf(servers, UrlsOf(names, addresses))
    requires forall s :: s in servers && KnownRole(s) ==> s.GetAlias() in all && all[s.GetAlias()] == s.id
    requires forall k :: k in all ==> exists s :: s in servers && KnownRole(s) && s.GetAlias() == k
    ensures Describes(all, names, addresses, known)
    ensures forall i: nat :: i in known <==> i < |names| && KnownUnder(servers, names[i])
  {
    NumberedDifferent(names);
    UrlsMeaning(names, addresses);
    forall s, i | s in servers && 0 <= i < |names| && s.GetAlias() == names[i] ensures s.id == addresses[i] {
      assert SCHEME + s.id == SCHEME + addresses[i];
      assert s.id == (SCHEME + s.id)[|SCHEME|..] && addresses[i] == (SCHEME + addresses[i])[|SCHEME|..];
    }
    known := set i: nat | i < |names| && KnownUnder(servers, names[i]);
    forall k | k in all ensures exists i :: i in known && i < |names| && names[i] == k {
      var s :| s in servers && KnownRole(s) && s.GetAlias() == k;
      assert k in names;
      var i: nat :| i < |names| && names[i] == k;
      assert i in known;
    }
  }

  lemma {:induction false} AddressAt(pods: seq<Option<string>>, i: nat)
    requires Ready(pods) && i < |pods|
    ensures Addresses(pods)[i] == HostPort(pods[i].value)
  {
    if i < |pods| - 1 { AddressAt(pods[..|pods| - 1], i); }
  }

  /** Pods with different IPs have different addresses. */
  lemma AddressesDiffer(pods: seq<Option<string>>)
    requires Ready(pods) && forall i, j :: 0 <= i < j < |pods| ==> pods[i] != pods[j]
    requires forall i :: 0 <= i < |pods| ==> '[' !in pods[i].value && ']' !in pods[i].value
    ensures DistinctAddresses(Addresses(pods))
  {
    forall i, j | 0 <= i < j < |pods| ensures Addresses(pods)[i] != Addresses(pods)[j] {
      AddressAt(pods, i);
      AddressAt(pods, j);
      if HostPort(pods[i].value) == HostPort(pods[j].value) { HostPortInjective(pods[i].value, pods[j].value); }
    }
  }

  lemma {:induction false} AddressesNotEmpty(pods: seq<Option<string>>)
    requires Ready(pods)
    ensures "" !in Addresses(pods)
  {
    if pods != [] { AddressesNotEmpty(pods[..|pods| - 1]); }
  }

  method RoundTrip(nodes: Nodes, podIndex: nat, ghost names: seq<string>, ghost addresses: seq<string>,
                   ghost known: set<nat>)
    returns (index: int)
    requires Describes(nodes.All(), names, addresses, known) && DistinctAddresses(addresses)
    requires "" !in addresses && podIndex < |names|
    ensures index == podIndex <==> podIndex in known
  {
    var alias, hostport := GetNodeByPodIndex(nodes, podIndex);
    assert (alias, hostport) == if podIndex in known then (names[podIndex], addresses[podIndex]) else ("", "");
    index := GetIndexByHostPort(nodes, hostport);
  }

  /** Looking up an address by pod index and then the index by that address comes back to the
      same index exactly when the role of that pod is known. */
  method IndexOfAddressOfIndex(service: string, pods: seq<Option<string>>, servers: seq<Server>, podIndex: nat)
    returns (index: int)
    requires Ready(pods) && podIndex < |pods| && DistinctAddresses(Addresses(pods))
    requires ServersOf(servers, UrlsOf(PodNames(service, |pods|), Addresses(pods)))
    ensures index == podIndex <==> KnownUnder(servers, PodNames(service, |pods|)[podIndex])
  {
    var nodes := StatusNodes(servers);
    PodNamesNumbered(service, |pods|);
    AddressesNotEmpty(pods);
    ghost var names, addresses := PodNames(service, |pods|), Addresses(pods);
    ghost var known := StatusDescribes(nodes.All(), servers, names, addresses);
    index := RoundTrip(nodes, podIndex, names, addresses, known);
  }
}
