/** The summaries that `summarize` publishes, and what they conserve. */
module MetricsSummary {
  import opened Aggregates
  import opened Counting
  import opened Metrics
  import opened Wrappers

  // ----- One node -----

  /** The groups of sums that a node itself contributes to the cluster. */
  datatype Group = CpuMemory | OwnNetwork | OwnFs

  function GroupShare(stats: Stats, group: Group, field: Field): nat {
    match (group, field)
    case (CpuMemory, TotalMillicores) => stats.totalMillicores
    case (CpuMemory, MemTotalBytes) => stats.totalMemoryBytes
    case (CpuMemory, UsageNanoCores) => stats.usageNanoCores
    case (CpuMemory, MemUsageBytes) => stats.memUsageBytes
    case (OwnNetwork, NetworkTxBytes) => if stats.network.Some? then stats.network.value.txBytes else 0
    case (OwnNetwork, NetworkRxBytes) => if stats.network.Some? then stats.network.value.rxBytes else 0
    case (OwnNetwork, NetworkSeconds) => if stats.network.Some? then stats.network.value.seconds else 0
    case (OwnFs, FsCapacityBytes) => stats.fsCapacityBytes
    case (OwnFs, FsUsedBytes) => stats.fsUsedBytes
    case _ => 0
  }

  ghost predicate GrownByGroup(sums: Sums, sums': Sums, stats: Stats, group: Group) {
    forall key :: Sum(sums', key)
                  == Sum(sums, key) + if key.scope == Cluster then GroupShare(stats, group, key.field) else 0
  }

  method AddCpuMemory(table: Table, ghost sums: Sums, stats: Stats) returns (table': Table, ghost sums': Sums)
    requires Agrees(table, sums)
    ensures Agrees(table', sums') && GrownByGroup(sums, sums', stats, CpuMemory)
  {
    table', sums' := Post(table, sums, Key(Cluster, TotalMillicores), stats.totalMillicores);
    table', sums' := Post(table', sums', Key(Cluster, MemTotalBytes), stats.totalMemoryBytes);
    table', sums' := Post(table', sums', Key(Cluster, UsageNanoCores), stats.usageNanoCores);
    table', sums' := Post(table', sums', Key(Cluster, MemUsageBytes), stats.memUsageBytes);
  }

  method AddOwnNetwork(table: Table, ghost sums: Sums, stats: Stats) returns (table': Table, ghost sums': Sums)
    requires Agrees(table, sums)
    ensures Agrees(table', sums') && GrownByGroup(sums, sums', stats, OwnNetwork)
  {
    table', sums' := table, sums;
    if stats.network.Some? {
      table', sums' := Post(table', sums', Key(Cluster, NetworkTxBytes), stats.network.value.txBytes);
      table', sums' := Post(table', sums', Key(Cluster, NetworkRxBytes), stats.network.value.rxBytes);
      table', sums' := Post(table', sums', Key(Cluster, NetworkSeconds), stats.network.value.seconds);
    }
  }

  method AddFs(table: Table, ghost sums: Sums, stats: Stats) returns (table': Table, ghost sums': Sums)
    requires Agrees(table, sums)
    ensures Agrees(table', sums') && GrownByGroup(sums, sums', stats, OwnFs)
  {
    table', sums' := Post(table, sums, Key(Cluster, FsCapacityBytes), stats.fsCapacityBytes);
    table', sums' := Post(table', sums', Key(Cluster, FsUsedBytes), stats.fsUsedBytes);
  }

  function DiskDelta(disks: map<string, nat>, key: Key): nat {
    if key.scope.Namespace? && key.field == FsUsedBytes && key.scope.name in disks then disks[key.scope.name] else 0
  }

  ghost predicate GrownByDisks(sums: Sums, sums': Sums, disks: map<string, nat>) {
    forall key :: Sum(sums', key) == Sum(sums, key) + DiskDelta(disks, key)
  }

  /** The loop over the namespaces of a node, in whatever order the map yields them. */
  method AddDisks(table: Table, ghost sums: Sums, disks: map<string, nat>) returns (table': Table, ghost sums': Sums)
    requires Agrees(table, sums)
    ensures Agrees(table', sums') && GrownByDisks(sums, sums', disks)
  {
    table', sums' := table, sums;
    var rest := disks;
    while rest != map[]
      invariant Agrees(table', sums') && rest.Keys <= disks.Keys
      invariant forall ns :: ns in rest ==> rest[ns] == disks[ns]
      invariant forall key :: Sum(sums', key) + DiskDelta(rest, key) == Sum(sums, key) + DiskDelta(disks, key)
      decreases |rest|
    {
      var ns :| ns in rest;
      table', sums' := Post(table', sums', Key(Namespace(ns), FsUsedBytes), rest[ns]);
      table', sums' := Post(table', sums', Key(Namespace(ns), FsCapacityBytes), 0);
      rest := rest - {ns};
    }
  }

  /** What a node itself adds to a sum; its pods are counted apart. */
  function OwnDelta(stats: Stats, key: Key): nat {
    match key.scope
    case Cluster =>
      GroupShare(stats, CpuMemory, key.field) + GroupShare(stats, OwnNetwork, key.field)
      + GroupShare(stats, OwnFs, key.field)
    case Namespace(ns) =>
      if key.field == FsUsedBytes then Wrap(DiskIn(stats.pods, ns)) else 0
  }

  function NodeDelta(stats: Stats, key: Key): nat {
    OwnDelta(stats, key) + PodsDelta(stats.pods, key)
  }

  ghost predicate GrownByNode(sums: Sums, sums': Sums, stats: Stats) {
    forall key :: Sum(sums', key) == Sum(sums, key) + NodeDelta(stats, key)
  }

  lemma DisksAreOwn(stats: Stats, disks: map<string, nat>, key: Key)
    requires DisksConverted(stats.pods, disks)
    requires key.scope.Namespace?
    ensures DiskDelta(disks, key) == OwnDelta(stats, key)
  {
    var ns := key.scope.name;
    if ns !in disks {
      NoDiskElsewhere(stats.pods, ns);
    }
  }

  lemma GrownInSteps(s0: Sums, s1: Sums, s2: Sums, s3: Sums, s4: Sums, s5: Sums, stats: Stats, disks: map<string, nat>)
    requires GrownByGroup(s0, s1, stats, CpuMemory) && GrownByGroup(s1, s2, stats, OwnNetwork)
    requires GrownByGroup(s2, s3, stats, OwnFs)
    requires DisksConverted(stats.pods, disks) && GrownByDisks(s3, s4, disks)
    requires GrownByPods(s4, s5, stats.pods)
    ensures GrownByNode(s0, s5, stats)
  {
    forall key ensures Sum(s5, key) == Sum(s0, key) + NodeDelta(stats, key) {
      assert Sum(s5, key) == Sum(s4, key) + PodsDelta(stats.pods, key);
      assert Sum(s4, key) == Sum(s3, key) + DiskDelta(disks, key);
      if key.scope.Namespace? {
        DisksAreOwn(stats, disks, key);
      }
    }
  }

  /** The summary of a node that answered. */
  function SummaryOfNode(stats: Stats): Summary {
    NodeSummary(stats, Stat(Wrap(CapacityIn(stats.pods)), Wrap(UsedIn(stats.pods))),
                Wrap(|stats.pods|), Wrap(ContainersIn(stats.pods)))
  }

  /** One round of the loop over the nodes, for a node that answered. */
  method AddNode(table: Table, ghost sums: Sums, stats: Stats, namespaces: set<string>)
    returns (table': Table, ghost sums': Sums, namespaces': set<string>, summary: Summary)
    requires Agrees(table, sums)
    ensures Agrees(table', sums') && GrownByNode(sums, sums', stats)
    ensures namespaces' == namespaces + NamespacesOf(stats.pods)
    ensures summary == SummaryOfNode(stats)
  {
    var volumes, disks := ConvertPods(stats.pods);
    ghost var s1, s2, s3, s4;
    table', s1 := AddCpuMemory(table, sums, stats);
    table', s2 := AddOwnNetwork(table', s1, stats);
    table', s3 := AddFs(table', s2, stats);
    table', s4 := AddDisks(table', s3, disks);
    var done;
    done, sums' := AddPods(table', s4, stats.pods, namespaces);
    GrownInSteps(sums, s1, s2, s3, s4, sums', stats, disks);
    table', namespaces' := done.table, done.namespaces;
    summary := NodeSummary(stats, volumes, done.pods, done.containers);
  }

  // ----- The whole cluster -----

  /** The sum of a field over everything listed: the meaning of a key of the table. */
  function NodesDelta(nodes: seq<Node>, key: Key): nat {
    if nodes == [] then 0
    else
      var last := nodes[|nodes| - 1];
      NodesDelta(nodes[..|nodes| - 1], key) + if last.stats.Some? then NodeDelta(last.stats.value, key) else 0
  }

  function PodsOf(nodes: seq<Node>): seq<Pod> {
    if nodes == [] then []
    else
      var last := nodes[|nodes| - 1];
      PodsOf(nodes[..|nodes| - 1]) + if last.stats.Some? then last.stats.value.pods else []
  }

  /** A later node of the same name takes the place of an earlier one. */
  function NodeSummaries(nodes: seq<Node>): map<string, Summary> {
    if nodes == [] then map[]
    else
      var last, before := nodes[|nodes| - 1], NodeSummaries(nodes[..|nodes| - 1]);
      if last.stats.Some? then before[last.name := SummaryOfNode(last.stats.value)] else before
  }

  /** `makeSummary`. */
  function MakeSummary(prefix: string, table: Table): Summary {
    var seconds := Get(table, prefix + ":" + Name(NetworkSeconds));
    var networkSeconds := if seconds == 0 then U64 - 1 else seconds;
    Summary(
      Stat(Get(table, prefix + ":" + Name(UsageNanoCores)) / 1000000, Get(table, prefix + ":" + Name(TotalMillicores))),
      Stat(Get(table, prefix + ":" + Name(MemUsageBytes)), Get(table, prefix + ":" + Name(MemTotalBytes))),
      Stat(Get(table, prefix + ":" + Name(FsUsedBytes)), Get(table, prefix + ":" + Name(FsCapacityBytes))),
      Stat(Get(table, prefix + ":" + Name(VolUsedBytes)), Get(table, prefix + ":" + Name(VolCapacityBytes))),
      Some(Stat(SafeDivideInt(Get(table, prefix + ":" + Name(NetworkRxBytes)), networkSeconds), 1)),
      Some(Stat(SafeDivideInt(Get(table, prefix + ":" + Name(NetworkTxBytes)), networkSeconds), 1)),
      Get(table, prefix + ":" + Name(Pods)),
      Get(table, prefix + ":" + Name(Containers)))
  }

  /** The sum of a field at a scope, in 64 bits. */
  function At(nodes: seq<Node>, scope: Scope, field: Field): nat {
    Wrap(NodesDelta(nodes, Key(scope, field)))
  }

  /** The summary of a scope, from the structured sums alone. */
  function ScopeSummary(nodes: seq<Node>, scope: Scope): Summary {
    var seconds := At(nodes, scope, NetworkSeconds);
    var networkSeconds := if seconds == 0 then U64 - 1 else seconds;
    Summary(
      Stat(At(nodes, scope, UsageNanoCores) / 1000000, At(nodes, scope, TotalMillicores)),
      Stat(At(nodes, scope, MemUsageBytes), At(nodes, scope, MemTotalBytes)),
      Stat(At(nodes, scope, FsUsedBytes), At(nodes, scope, FsCapacityBytes)),
      Stat(At(nodes, scope, VolUsedBytes), At(nodes, scope, VolCapacityBytes)),
      Some(Stat(SafeDivideInt(At(nodes, scope, NetworkRxBytes), networkSeconds), 1)),
      Some(Stat(SafeDivideInt(At(nodes, scope, NetworkTxBytes), networkSeconds), 1)),
      At(nodes, scope, Pods),
      At(nodes, scope, Containers))
  }

  /** A namespace is measured against the whole cluster. */
  function NamespaceSummary(nodes: seq<Node>, ns: string): Summary {
    var own, cluster := ScopeSummary(nodes, Namespace(ns)), ScopeSummary(nodes, Cluster);
    own.(cpu := Stat(own.cpu.usage, cluster.cpu.total), memory := Stat(own.memory.usage, cluster.memory.total))
  }

  ghost predicate Holds(table: Table, nodes: seq<Node>) {
    forall key: Key :: Get(table, Text(key)) == Wrap(NodesDelta(nodes, key))
  }

  lemma MakeSummaryReadsScope(table: Table, nodes: seq<Node>, scope: Scope)
    requires Holds(table, nodes)
    ensures MakeSummary(Prefix(scope), table) == ScopeSummary(nodes, scope)
  {
    forall f: Field ensures Get(table, Prefix(scope) + ":" + Name(f)) == At(nodes, scope, f) {
      assert Text(Key(scope, f)) == Prefix(scope) + ":" + Name(f);
    }
  }

  /** Where the loop over the nodes stands. */
  datatype NodeLoop = NodeLoop(table: Table, namespaces: set<string>, nodes: map<string, Summary>)

  ghost predicate NodesAdded(now: NodeLoop, sums: Sums, nodes: seq<Node>) {
    && Agrees(now.table, sums)
    && (forall key :: Sum(sums, key) == NodesDelta(nodes, key))
    && now.namespaces == NamespacesOf(PodsOf(nodes))
    && now.nodes == NodeSummaries(nodes)
  }

  lemma {:induction false} NamespacesOfBoth(a: seq<Pod>, b: seq<Pod>)
    ensures NamespacesOf(a + b) == NamespacesOf(a) + NamespacesOf(b)
  {
    if b == [] {
      assert a + b == a;
    } else {
      NamespacesOfBoth(a, b[..|b| - 1]);
      assert (a + b)[..|a + b| - 1] == a + b[..|b| - 1];
    }
  }

  lemma NodePushed(nodes: seq<Node>, node: Node)
    ensures PodsOf(nodes + [node]) == PodsOf(nodes) + if node.stats.Some? then node.stats.value.pods else []
    ensures NodeSummaries(nodes + [node])
            == if node.stats.Some? then NodeSummaries(nodes)[node.name := SummaryOfNode(node.stats.value)]
               else NodeSummaries(nodes)
    ensures forall key :: NodesDelta(nodes + [node], key)
                          == NodesDelta(nodes, key) + if node.stats.Some? then NodeDelta(node.stats.value, key) else 0
  {
    var longer := nodes + [node];
    assert longer[..|longer| - 1] == nodes;
  }

  lemma NodeAdded(now: NodeLoop, sums: Sums, sums': Sums, nodes: seq<Node>, node: Node, table: Table)
    requires NodesAdded(now, sums, nodes) && node.stats.Some?
    requires Agrees(table, sums') && GrownByNode(sums, sums', node.stats.value)
    ensures NodesAdded(NodeLoop(table, now.namespaces + NamespacesOf(node.stats.value.pods),
                                now.nodes[node.name := SummaryOfNode(node.stats.value)]),
                       sums', nodes + [node])
  {
    NodePushed(nodes, node);
    NamespacesOfBoth(PodsOf(nodes), node.stats.value.pods);
  }

  lemma NodeSkipped(now: NodeLoop, sums: Sums, nodes: seq<Node>, node: Node)
    requires NodesAdded(now, sums, nodes) && node.stats.None?
    ensures NodesAdded(now, sums, nodes + [node])
  {
    NodePushed(nodes, node);
    assert PodsOf(nodes) + [] == PodsOf(nodes);
  }

  method AddNodeAt(now: NodeLoop, ghost sums: Sums, nodes: seq<Node>, i: nat)
    returns (next: NodeLoop, ghost sums': Sums)
    requires i < |nodes| && NodesAdded(now, sums, nodes[..i])
    ensures NodesAdded(next, sums', nodes[..i + 1])
  {
    var node := nodes[i];
    assert nodes[..i + 1] == nodes[..i] + [node];
    next, sums' := now, sums;
    if node.stats.Some? {
      var table, namespaces, summary;
      table, sums', namespaces, summary := AddNode(now.table, sums, node.stats.value, now.namespaces);
      NodeAdded(now, sums, sums', nodes[..i], node, table);
      next := NodeLoop(table, namespaces, now.nodes[node.name := summary]);
    } else {
      NodeSkipped(now, sums, nodes[..i], node);
    }
  }

  /** The summary of a namespace, read from the table. */
  function NamespaceFrom(table: Table, cluster: Summary, ns: string): Summary {
    var summary := MakeSummary("Namespace:" + ns, table);
    summary.(cpu := Stat(summary.cpu.usage, cluster.cpu.total),
             memory := Stat(summary.memory.usage, cluster.memory.total))
  }

  ghost predicate NamespacesPublished(nodes: seq<Node>, summaries: map<string, Summary>, names: set<string>) {
    && summaries.Keys == names
    && forall ns :: ns in summaries ==> summaries[ns] == NamespaceSummary(nodes, ns)
  }

  lemma NamespacesFromTable(
    table: Table, cluster: Summary, nodes: seq<Node>, summaries: map<string, Summary>, names: set<string>)
    requires Holds(table, nodes) && cluster == ScopeSummary(nodes, Cluster)
    requires summaries.Keys == names
    requires forall ns :: ns in summaries ==> summaries[ns] == NamespaceFrom(table, cluster, ns)
    ensures NamespacesPublished(nodes, summaries, names)
  {
    forall ns | ns in summaries ensures summaries[ns] == NamespaceSummary(nodes, ns) {
      MakeSummaryReadsScope(table, nodes, Namespace(ns));
    }
  }

  /** A loop over a set of keys, in any order, that fills a map. */
  method FillMap<K(==), V>(keys: set<K>, value: K -> V) returns (filled: map<K, V>)
    ensures filled == map k | k in keys :: value(k)
  {
    filled := map[];
    var rest := keys;
    while rest != {}
      invariant rest <= keys && filled == map k | k in keys && k !in rest :: value(k)
      decreases |rest|
    {
      var k :| k in rest;
      filled := filled[k := value(k)];
      rest := rest - {k};
    }
  }

  /** What `summarize` publishes. */
  ghost predicate Published(nodes: seq<Node>, result: Summaries) {
    && result.cluster == ScopeSummary(nodes, Cluster)
    && result.nodes == NodeSummaries(nodes)
    && NamespacesPublished(nodes, result.namespaces, NamespacesOf(PodsOf(nodes)))
  }

  method Summarize(nodes: seq<Node>) returns (result: Summaries)
    ensures Published(nodes, result)
  {
    var done := NodeLoop(map[], {}, map[]);
    ghost var sums: Sums := map[];
    assert nodes[..0] == [];
    for i := 0 to |nodes|
      invariant NodesAdded(done, sums, nodes[..i])
    {
      done, sums := AddNodeAt(done, sums, nodes, i);
    }
    assert nodes[..|nodes|] == nodes;
    MakeSummaryReadsScope(done.table, nodes, Cluster);
    var cluster := MakeSummary("Cluster", done.table);
    var namespaces := FillMap(done.namespaces, ns => NamespaceFrom(done.table, cluster, ns));
    NamespacesFromTable(done.table, cluster, nodes, namespaces, done.namespaces);
    result := Summaries(cluster, namespaces, done.nodes);
  }
}
