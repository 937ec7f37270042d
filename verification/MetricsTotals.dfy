/** Conservation: the cluster's figures against those of its namespaces and its nodes. */
module MetricsTotals {
  import opened Aggregates
  import opened Counting
  import opened Metrics
  import opened MetricsSummary
  import opened Wrappers

  // ----- Sums in 64 bits -----

  ghost function Wrapped<K(!new)>(m: map<K, nat>): map<K, nat> {
    map k | k in m :: Wrap(m[k])
  }

  lemma WrappedRemove<K(!new)>(m: map<K, nat>, k: K)
    requires k in m
    ensures Total(Wrapped(m)) == Wrap(m[k]) + Total(Wrapped(m - {k}))
  {
    TotalRemove(Wrapped(m), k);
    assert Wrapped(m) - {k} == Wrapped(m - {k});
  }

  /** Cutting every summand to 64 bits does not change the sum in 64 bits. */
  lemma {:induction false} WrapTotal<K(!new)>(m: map<K, nat>)
    ensures Wrap(Total(Wrapped(m))) == Wrap(Total(m))
    decreases |m|
  {
    if m == map[] {
      assert Wrapped(m) == map[];
    } else {
      var k :| k in m && Total(m) == m[k] + Total(m - {k});
      WrapTotal(m - {k});
      WrappedRemove(m, k);
      WrapCongruent(m[k], Total(Wrapped(m - {k})), Total(m - {k}));
    }
  }

  // ----- Namespaces -----

  /** The share of each namespace in a sum over pods. */
  ghost function ByNamespace(pods: seq<Pod>, names: set<string>, field: Field): map<string, nat> {
    map ns | ns in names :: PodsDelta(pods, Key(Namespace(ns), field))
  }

  lemma {:induction false} ItemsInOneNamespace(ns: string, items: seq<Item>, field: Field, other: string)
    requires Shared(field)
    ensures ItemsDelta(ns, items, Key(Cluster, field)) == ItemsDelta(ns, items, Key(Namespace(ns), field))
    ensures other != ns ==> ItemsDelta(ns, items, Key(Namespace(other), field)) == 0
  {
    if items == [] {
    } else {
      ItemsInOneNamespace(ns, items[..|items| - 1], field, other);
    }
  }

  lemma {:induction false} TotalOfZeros<K(!new)>(m: map<K, nat>)
    requires forall k :: k in m ==> m[k] == 0
    ensures Total(m) == 0
    decreases |m|
  {
    if m == map[] {
    } else {
      var k :| k in m && Total(m) == m[k] + Total(m - {k});
      TotalOfZeros(m - {k});
    }
  }

  lemma PodMovesShareOf(pods: seq<Pod>, pod: Pod, field: Field, other: string)
    requires Shared(field)
    ensures PodsDelta(pods + [pod], Key(Namespace(other), field))
            == PodsDelta(pods, Key(Namespace(other), field))
               + if other == pod.namespace then PodDelta(Key(Cluster, field))(pod) else 0
  {
    PodsDeltaPush(pods, pod, Key(Namespace(other), field));
    ItemsInOneNamespace(pod.namespace, Items(pod), field, other);
  }

  lemma MovedMap<K>(m: map<K, nat>, m': map<K, nat>, k: K, more: nat)
    requires k in m && m'.Keys == m.Keys
    requires forall j :: j in m ==> m'[j] == m[j] + if j == k then more else 0
    ensures m' == m[k := m[k] + more]
  {
  }

  /** A pod moves the share of its own namespace only. */
  lemma PodMovesOneShare(pods: seq<Pod>, pod: Pod, names: set<string>, field: Field)
    requires Shared(field) && pod.namespace in names
    ensures var m := ByNamespace(pods, names, field);
            var ns := pod.namespace;
            ByNamespace(pods + [pod], names, field) == m[ns := m[ns] + PodDelta(Key(Cluster, field))(pod)]
  {
    var m, m' := ByNamespace(pods, names, field), ByNamespace(pods + [pod], names, field);
    var more := PodDelta(Key(Cluster, field))(pod);
    forall other | other in m ensures m'[other] == m[other] + if other == pod.namespace then more else 0 {
      PodMovesShareOf(pods, pod, field, other);
    }
    MovedMap(m, m', pod.namespace, more);
  }

  lemma PodMovesTotal(pods: seq<Pod>, pod: Pod, names: set<string>, field: Field)
    requires Shared(field) && pod.namespace in names
    ensures Total(ByNamespace(pods + [pod], names, field))
            == Total(ByNamespace(pods, names, field)) + PodDelta(Key(Cluster, field))(pod)
  {
    PodMovesOneShare(pods, pod, names, field);
    TotalMoved(ByNamespace(pods, names, field), ByNamespace(pods + [pod], names, field), pod.namespace,
               PodDelta(Key(Cluster, field))(pod));
  }

  lemma NamespacesOneMore(pods: seq<Pod>, pod: Pod, names: set<string>, field: Field)
    requires Shared(field) && pod.namespace in names
    requires Total(ByNamespace(pods, names, field)) == PodsDelta(pods, Key(Cluster, field))
    ensures Total(ByNamespace(pods + [pod], names, field)) == PodsDelta(pods + [pod], Key(Cluster, field))
  {
    PodsDeltaPush(pods, pod, Key(Cluster, field));
    PodMovesTotal(pods, pod, names, field);
  }

  /** What the pods contribute to the cluster is what they contribute to all namespaces. */
  lemma {:induction false} NamespacesAddUp(pods: seq<Pod>, names: set<string>, field: Field)
    requires Shared(field) && NamespacesOf(pods) <= names
    ensures Total(ByNamespace(pods, names, field)) == PodsDelta(pods, Key(Cluster, field))
  {
    if pods == [] {
      TotalOfZeros(ByNamespace(pods, names, field));
    } else {
      var before, pod := pods[..|pods| - 1], pods[|pods| - 1];
      assert NamespacesOf(before) <= NamespacesOf(pods) && pod.namespace in NamespacesOf(pods);
      NamespacesAddUp(before, names, field);
      NamespacesOneMore(before, pod, names, field);
      assert pods == before + [pod];
    }
  }

  lemma PodsDeltaPush(pods: seq<Pod>, pod: Pod, key: Key)
    ensures PodsDelta(pods + [pod], key) == PodsDelta(pods, key) + PodDelta(key)(pod)
  {
    SumByPush(pods, pod, PodDelta(key));
  }

  lemma NodeAddsNothing(stats: Stats, scope: Scope, field: Field)
    requires Shared(field)
    ensures OwnDelta(stats, Key(scope, field)) == 0
  {
  }

  /** Nodes themselves add nothing to the shared fields. */
  lemma {:induction false} SharedIsOfPods(nodes: seq<Node>, scope: Scope, field: Field)
    requires Shared(field)
    ensures NodesDelta(nodes, Key(scope, field)) == PodsDelta(PodsOf(nodes), Key(scope, field))
  {
    if nodes == [] {
    } else {
      var before, last := nodes[..|nodes| - 1], nodes[|nodes| - 1];
      SharedIsOfPods(before, scope, field);
      if last.stats.Some? {
        NodeAddsNothing(last.stats.value, scope, field);
        SumByBoth(PodsOf(before), last.stats.value.pods, PodDelta(Key(scope, field)));
      } else {
        assert PodsOf(before) + [] == PodsOf(before);
      }
    }
  }

  lemma NamespaceShare(nodes: seq<Node>, ns: string, names: set<string>, field: Field)
    requires Shared(field) && ns in names
    ensures At(nodes, Namespace(ns), field) == Wrapped(ByNamespace(PodsOf(nodes), names, field))[ns]
  {
    SharedIsOfPods(nodes, Namespace(ns), field);
  }

  /** A figure of the cluster is, in 64 bits, the sum over the namespaces. */
  lemma ClusterIsSumOfNamespaces(nodes: seq<Node>, field: Field, figures: map<string, nat>)
    requires Shared(field)
    requires figures.Keys == NamespacesOf(PodsOf(nodes))
    requires forall ns :: ns in figures ==> figures[ns] == At(nodes, Namespace(ns), field)
    ensures At(nodes, Cluster, field) == Wrap(Total(figures))
  {
    var exact := ByNamespace(PodsOf(nodes), figures.Keys, field);
    forall ns | ns in figures ensures figures[ns] == Wrapped(exact)[ns] {
      NamespaceShare(nodes, ns, figures.Keys, field);
    }
    assert figures == Wrapped(exact);
    WrapTotal(exact);
    NamespacesAddUp(PodsOf(nodes), figures.Keys, field);
    SharedIsOfPods(nodes, Cluster, field);
  }

  // ----- What the shared fields count -----

  lemma ItemsDeltaBothPush(ns: string, a: seq<Item>, b: seq<Item>, item: Item, key: Key)
    requires ItemsDelta(ns, a + b, key) == ItemsDelta(ns, a, key) + ItemsDelta(ns, b, key)
    ensures ItemsDelta(ns, a + (b + [item]), key) == ItemsDelta(ns, a, key) + ItemsDelta(ns, b + [item], key)
  {
    assert a + (b + [item]) == (a + b) + [item];
    ItemsDeltaPush(ns, b, item, key);
    ItemsDeltaPush(ns, a + b, item, key);
  }

  lemma {:induction false} ItemsDeltaBoth(ns: string, a: seq<Item>, b: seq<Item>, key: Key)
    ensures ItemsDelta(ns, a + b, key) == ItemsDelta(ns, a, key) + ItemsDelta(ns, b, key)
  {
    if b == [] {
      assert a + b == a;
    } else {
      var before, item := b[..|b| - 1], b[|b| - 1];
      ItemsDeltaBoth(ns, a, before, key);
      ItemsDeltaBothPush(ns, a, before, item, key);
      assert b == before + [item];
    }
  }

  function VolumeMeasure(v: Volume, field: Field): nat {
    if field == VolCapacityBytes then v.capacityBytes else if field == VolUsedBytes then v.usedBytes else 0
  }

  lemma VolumeMeasured(ns: string, items: seq<Item>, v: Volume, field: Field)
    requires Shared(field)
    ensures ItemsDelta(ns, items + [OfVolume(v)], Key(Cluster, field))
            == ItemsDelta(ns, items, Key(Cluster, field)) + VolumeMeasure(v, field)
  {
    ItemsDeltaPush(ns, items, OfVolume(v), Key(Cluster, field));
  }

  function VolumesMeasure(vs: seq<Volume>, field: Field): nat {
    if field == VolCapacityBytes then CapacityOf(vs) else if field == VolUsedBytes then UsedOf(vs) else 0
  }

  lemma {:induction false} VolumesMeasured(ns: string, vs: seq<Volume>, field: Field)
    requires Shared(field)
    ensures ItemsDelta(ns, VolumesItems(vs), Key(Cluster, field)) == VolumesMeasure(vs, field)
  {
    if vs == [] {
    } else {
      var before, v := vs[..|vs| - 1], vs[|vs| - 1];
      VolumesMeasured(ns, before, field);
      VolumeMeasured(ns, VolumesItems(before), v, field);
      assert VolumesMeasure(vs, field) == VolumesMeasure(before, field) + VolumeMeasure(v, field);
    }
  }

  lemma SingleMeasured(ns: string, item: Item, key: Key)
    ensures ItemsDelta(ns, [item], key) == ItemDelta(ns, item, key)
  {
    ItemsDeltaPush(ns, [], item, key);
    assert [] + [item] == [item];
  }

  lemma ThreeParts(ns: string, a: seq<Item>, b: seq<Item>, c: seq<Item>, key: Key)
    ensures ItemsDelta(ns, a + b + c, key) == ItemsDelta(ns, a, key) + ItemsDelta(ns, b, key) + ItemsDelta(ns, c, key)
  {
    ItemsDeltaBoth(ns, a + b, c, key);
    ItemsDeltaBoth(ns, a, b, key);
  }

  lemma CpuUnshared(ns: string, cpu: Option<Cpu>, field: Field)
    requires Shared(field)
    ensures ItemsDelta(ns, if cpu.Some? then [OfCpu(cpu.value)] else [], Key(Cluster, field)) == 0
  {
    if cpu.Some? {
      SingleMeasured(ns, OfCpu(cpu.value), Key(Cluster, field));
    }
  }

  lemma MemoryUnshared(ns: string, memory: Option<Memory>, field: Field)
    requires Shared(field)
    ensures ItemsDelta(ns, if memory.Some? then [OfMemory(memory.value)] else [], Key(Cluster, field)) == 0
  {
    if memory.Some? {
      SingleMeasured(ns, OfMemory(memory.value), Key(Cluster, field));
    }
  }

  lemma ContainerMeasured(ns: string, c: Container, field: Field)
    requires Shared(field)
    ensures ItemsDelta(ns, ContainerItems(c), Key(Cluster, field)) == if field == Containers then 1 else 0
  {
    SingleMeasured(ns, OfContainer, Key(Cluster, field));
    CpuUnshared(ns, c.cpu, field);
    MemoryUnshared(ns, c.memory, field);
    ThreeParts(ns, [OfContainer], if c.cpu.Some? then [OfCpu(c.cpu.value)] else [],
               if c.memory.Some? then [OfMemory(c.memory.value)] else [], Key(Cluster, field));
  }

  lemma {:induction false} ContainersMeasured(ns: string, cs: seq<Container>, field: Field)
    requires Shared(field)
    ensures ItemsDelta(ns, ContainersItems(cs), Key(Cluster, field)) == if field == Containers then |cs| else 0
  {
    if cs == [] {
    } else {
      ContainersMeasured(ns, cs[..|cs| - 1], field);
      ContainerMeasured(ns, cs[|cs| - 1], field);
      ItemsDeltaBoth(ns, ContainersItems(cs[..|cs| - 1]), ContainerItems(cs[|cs| - 1]), Key(Cluster, field));
    }
  }

  function PodMeasure(pod: Pod, field: Field): nat {
    match field
    case Pods => 1
    case Containers => |pod.containers|
    case VolCapacityBytes => CapacityOf(pod.volumes)
    case VolUsedBytes => UsedOf(pod.volumes)
    case _ => 0
  }

  lemma PartsMeasured(ns: string, first: Item, a: seq<Item>, b: seq<Item>, last: Item, key: Key)
    ensures ItemsDelta(ns, [first] + a + b + [last], key)
            == ItemDelta(ns, first, key) + ItemsDelta(ns, a, key) + ItemsDelta(ns, b, key) + ItemDelta(ns, last, key)
  {
    SingleMeasured(ns, first, key);
    ItemsDeltaBoth(ns, [first], a, key);
    ItemsDeltaBoth(ns, [first] + a, b, key);
    ItemsDeltaPush(ns, [first] + a + b, last, key);
  }

  lemma PodMeasured(pod: Pod, field: Field)
    requires Shared(field)
    ensures ItemsDelta(pod.namespace, Items(pod), Key(Cluster, field)) == PodMeasure(pod, field)
  {
    var ns := pod.namespace;
    PartsMeasured(ns, OfPod, VolumesItems(pod.volumes), ContainersItems(pod.containers), OfNetwork(pod.network),
                  Key(Cluster, field));
    VolumesMeasured(ns, pod.volumes, field);
    ContainersMeasured(ns, pod.containers, field);
  }

  function Measure(pods: seq<Pod>, field: Field): nat {
    match field
    case Pods => |pods|
    case Containers => ContainersIn(pods)
    case VolCapacityBytes => CapacityIn(pods)
    case VolUsedBytes => UsedIn(pods)
    case _ => 0
  }

  lemma {:induction false} PodsMeasured(pods: seq<Pod>, field: Field)
    requires Shared(field)
    ensures PodsDelta(pods, Key(Cluster, field)) == Measure(pods, field)
  {
    if pods == [] {
    } else {
      PodsMeasured(pods[..|pods| - 1], field);
      PodMeasured(pods[|pods| - 1], field);
    }
  }

  // ----- Nodes -----

  /** Every node that answered has a name of its own. */
  predicate DistinctNames(nodes: seq<Node>) {
    forall i, j ::
      0 <= i < j < |nodes| && nodes[i].stats.Some? && nodes[j].stats.Some? ==> nodes[i].name != nodes[j].name
  }

  ghost function Picked(summaries: map<string, Summary>, pick: Summary -> nat): map<string, nat> {
    map name | name in summaries :: pick(summaries[name])
  }

  function SumOver(nodes: seq<Node>, pick: Summary -> nat): nat {
    if nodes == [] then 0
    else
      var last := nodes[|nodes| - 1];
      SumOver(nodes[..|nodes| - 1], pick) + if last.stats.Some? then pick(SummaryOfNode(last.stats.value)) else 0
  }

  lemma {:induction false} NodeIsNamed(nodes: seq<Node>, name: string)
    requires name in NodeSummaries(nodes)
    ensures exists i :: 0 <= i < |nodes| && nodes[i].stats.Some? && nodes[i].name == name
  {
    var last := |nodes| - 1;
    if nodes[last].stats.Some? && nodes[last].name == name {
    } else {
      NodeIsNamed(nodes[..last], name);
    }
  }

  lemma {:induction false} NodesAddUp(nodes: seq<Node>, pick: Summary -> nat)
    requires DistinctNames(nodes)
    ensures Total(Picked(NodeSummaries(nodes), pick)) == SumOver(nodes, pick)
  {
    if nodes == [] {
      assert Picked(NodeSummaries(nodes), pick) == map[];
    } else {
      var before, last := nodes[..|nodes| - 1], nodes[|nodes| - 1];
      NodesAddUp(before, pick);
      if last.stats.Some? {
        var summaries, summary := NodeSummaries(before), SummaryOfNode(last.stats.value);
        if last.name in summaries {
          NodeIsNamed(before, last.name);
        }
        PickedInsert(summaries, last.name, summary, pick);
      }
    }
  }

  lemma PickedInsert(summaries: map<string, Summary>, name: string, summary: Summary, pick: Summary -> nat)
    requires name !in summaries
    ensures Total(Picked(summaries[name := summary], pick)) == Total(Picked(summaries, pick)) + pick(summary)
  {
    assert Picked(summaries[name := summary], pick) == Picked(summaries, pick)[name := pick(summary)];
    TotalInsert(Picked(summaries, pick), name, pick(summary));
  }

  // ----- Conservation -----

  /** The figure of a node's summary that a shared field feeds. A node's volumes carry the
      capacity as usage and the used bytes as total. */
  function NodeFigure(summary: Summary, field: Field): nat {
    match field
    case Pods => summary.pods
    case Containers => summary.containers
    case VolCapacityBytes => summary.volumes.usage
    case VolUsedBytes => summary.volumes.total
    case _ => 0
  }

  /** The figure of a cluster's or a namespace's summary that a shared field feeds. */
  function ScopeFigure(summary: Summary, field: Field): nat {
    match field
    case Pods => summary.pods
    case Containers => summary.containers
    case VolCapacityBytes => summary.volumes.total
    case VolUsedBytes => summary.volumes.usage
    case _ => 0
  }

  function NodeFigures(field: Field): Summary -> nat {
    summary => NodeFigure(summary, field)
  }

  function ScopeFigures(field: Field): Summary -> nat {
    summary => ScopeFigure(summary, field)
  }

  lemma NodeMeasured(stats: Stats, field: Field)
    requires Shared(field)
    ensures NodeFigures(field)(SummaryOfNode(stats)) == Wrap(PodsDelta(stats.pods, Key(Cluster, field)))
    ensures NodeDelta(stats, Key(Cluster, field)) == PodsDelta(stats.pods, Key(Cluster, field))
  {
    NodeAddsNothing(stats, Cluster, field);
    PodsMeasured(stats.pods, field);
  }

  lemma NodesOneMore(nodes: seq<Node>, node: Node, key: Key, pick: Summary -> nat)
    ensures NodesDelta(nodes + [node], key)
            == NodesDelta(nodes, key) + if node.stats.Some? then NodeDelta(node.stats.value, key) else 0
    ensures SumOver(nodes + [node], pick)
            == SumOver(nodes, pick) + if node.stats.Some? then pick(SummaryOfNode(node.stats.value)) else 0
  {
    NodePushed(nodes, node);
    var longer := nodes + [node];
    assert longer[..|longer| - 1] == nodes;
  }

  lemma NodesMeasuredOneMore(nodes: seq<Node>, node: Node, field: Field)
    requires Shared(field)
    requires Wrap(SumOver(nodes, NodeFigures(field))) == At(nodes, Cluster, field)
    ensures Wrap(SumOver(nodes + [node], NodeFigures(field))) == At(nodes + [node], Cluster, field)
  {
    var key := Key(Cluster, field);
    NodesOneMore(nodes, node, key, NodeFigures(field));
    if node.stats.Some? {
      NodeMeasured(node.stats.value, field);
      WrapCongruent(PodsDelta(node.stats.value.pods, key), SumOver(nodes, NodeFigures(field)), NodesDelta(nodes, key));
    }
  }

  lemma {:induction false} NodesMeasured(nodes: seq<Node>, field: Field)
    requires Shared(field)
    ensures Wrap(SumOver(nodes, NodeFigures(field))) == At(nodes, Cluster, field)
  {
    if nodes == [] {
    } else {
      var before, last := nodes[..|nodes| - 1], nodes[|nodes| - 1];
      NodesMeasured(before, field);
      NodesMeasuredOneMore(before, last, field);
      assert nodes == before + [last];
    }
  }

  lemma NamespaceFigure(nodes: seq<Node>, ns: string, field: Field)
    requires Shared(field)
    ensures ScopeFigures(field)(NamespaceSummary(nodes, ns)) == At(nodes, Namespace(ns), field)
  {
  }

  lemma ClusterFigure(nodes: seq<Node>, field: Field)
    requires Shared(field)
    ensures ScopeFigure(ScopeSummary(nodes, Cluster), field) == At(nodes, Cluster, field)
  {
  }

  lemma NamespaceFigures(nodes: seq<Node>, summaries: map<string, Summary>, names: set<string>, field: Field)
    requires NamespacesPublished(nodes, summaries, names) && Shared(field)
    ensures Picked(summaries, ScopeFigures(field)).Keys == names
    ensures forall ns :: ns in names ==> Picked(summaries, ScopeFigures(field))[ns] == At(nodes, Namespace(ns), field)
  {
    forall ns | ns in names ensures Picked(summaries, ScopeFigures(field))[ns] == At(nodes, Namespace(ns), field) {
      NamespaceFigure(nodes, ns, field);
    }
  }

  /** In 64 bits, the pods, the containers and both volume figures of the cluster are the
      sums over the namespaces, whatever the reports. */
  lemma ClusterMatchesNamespaces(nodes: seq<Node>, result: Summaries, field: Field)
    requires Published(nodes, result) && Shared(field)
    ensures ScopeFigure(result.cluster, field) == Wrap(Total(Picked(result.namespaces, ScopeFigures(field))))
  {
    NamespaceFigures(nodes, result.namespaces, NamespacesOf(PodsOf(nodes)), field);
    ClusterFigure(nodes, field);
    ClusterIsSumOfNamespaces(nodes, field, Picked(result.namespaces, ScopeFigures(field)));
  }

  /** The same over the nodes, if those that answered have names of their own; for the
      volumes, a node's usage adds up to the cluster's total and the other way round. */
  lemma ClusterMatchesNodes(nodes: seq<Node>, result: Summaries, field: Field)
    requires Published(nodes, result) && Shared(field) && DistinctNames(nodes)
    ensures ScopeFigure(result.cluster, field)
            == Wrap(Total(Picked(result.nodes, NodeFigures(field))))
  {
    NodesAddUp(nodes, NodeFigures(field));
    NodesMeasured(nodes, field);
    ClusterFigure(nodes, field);
  }

  function VolumeUsage(summary: Summary): nat {
    summary.volumes.usage
  }

  /** So the nodes' volume usage adds up to the cluster's exactly when, over all pods, as
      much is used as there is capacity, in 64 bits. */
  lemma NodeVolumesAgreeIff(nodes: seq<Node>, result: Summaries)
    requires Published(nodes, result) && DistinctNames(nodes)
    ensures Wrap(Total(Picked(result.nodes, VolumeUsage))) == result.cluster.volumes.usage
            <==> Wrap(CapacityIn(PodsOf(nodes))) == Wrap(UsedIn(PodsOf(nodes)))
  {
    ClusterMatchesNodes(nodes, result, VolCapacityBytes);
    assert Picked(result.nodes, VolumeUsage) == Picked(result.nodes, NodeFigures(VolCapacityBytes));
    ClusterCounts(nodes, result);
  }

  lemma OneVolume(node: Node, pod: Pod, volume: Volume)
    requires node.stats.Some? && node.stats.value.pods == [pod] && pod.volumes == [volume]
    ensures CapacityIn(PodsOf([node])) == volume.capacityBytes && UsedIn(PodsOf([node])) == volume.usedBytes
  {
    assert [node][..0] == [] && [pod][..0] == [] && [volume][..0] == [];
    assert PodsOf([node]) == PodsOf([node][..0]) + [pod];
    assert CapacityIn([pod]) == CapacityIn([pod][..0]) + CapacityOf([volume]);
    assert UsedIn([pod]) == UsedIn([pod][..0]) + UsedOf([volume]);
  }

  /** A single half-filled volume makes them differ. */
  lemma HalfFilledVolume() returns (nodes: seq<Node>)
    ensures DistinctNames(nodes)
    ensures forall result :: Published(nodes, result) ==>
              Wrap(Total(Picked(result.nodes, VolumeUsage))) != result.cluster.volumes.usage
  {
    var volume := Volume(2, 1);
    var pod := Pod("ns", [volume], [], Traffic(0, 0, 0));
    var node := Node("node", Some(Stats(0, 0, 0, 0, None, 0, 0, 0, [pod])));
    OneVolume(node, pod, volume);
    nodes := [node];
    forall result | Published(nodes, result)
      ensures Wrap(Total(Picked(result.nodes, VolumeUsage))) != result.cluster.volumes.usage
    {
      NodeVolumesAgreeIff(nodes, result);
    }
  }

  lemma ClusterMeasured(nodes: seq<Node>, field: Field)
    requires Shared(field)
    ensures ScopeFigure(ScopeSummary(nodes, Cluster), field) == Wrap(Measure(PodsOf(nodes), field))
  {
    ClusterFigure(nodes, field);
    SharedIsOfPods(nodes, Cluster, field);
    PodsMeasured(PodsOf(nodes), field);
  }

  lemma ClusterVolumes(nodes: seq<Node>, result: Summaries)
    requires Published(nodes, result)
    ensures result.cluster.volumes == Stat(Wrap(UsedIn(PodsOf(nodes))), Wrap(CapacityIn(PodsOf(nodes))))
  {
    ClusterMeasured(nodes, VolUsedBytes);
    ClusterMeasured(nodes, VolCapacityBytes);
  }

  lemma ClusterSizes(nodes: seq<Node>, result: Summaries)
    requires Published(nodes, result)
    ensures result.cluster.pods == Wrap(|PodsOf(nodes)|)
    ensures result.cluster.containers == Wrap(ContainersIn(PodsOf(nodes)))
  {
    ClusterMeasured(nodes, Pods);
    ClusterMeasured(nodes, Containers);
  }

  /** Each counts what it is called after. */
  lemma ClusterCounts(nodes: seq<Node>, result: Summaries)
    requires Published(nodes, result)
    ensures result.cluster.pods == Wrap(|PodsOf(nodes)|)
    ensures result.cluster.containers == Wrap(ContainersIn(PodsOf(nodes)))
    ensures result.cluster.volumes == Stat(Wrap(UsedIn(PodsOf(nodes))), Wrap(CapacityIn(PodsOf(nodes))))
  {
    ClusterSizes(nodes, result);
    ClusterVolumes(nodes, result);
  }

  // ----- Rounding -----

  function Millicores(nanoCores: nat): nat {
    nanoCores / 1000000
  }

  lemma MillicoresOfSum(a: nat, b: nat)
    ensures Millicores(a) + Millicores(b) <= Millicores(a + b) <= Millicores(a) + Millicores(b) + 1
  {
  }

  function CpuUsage(summary: Summary): nat {
    summary.cpu.usage
  }

  function NanoCores(nodes: seq<Node>): nat {
    NodesDelta(nodes, Key(Cluster, UsageNanoCores))
  }

  lemma {:induction false} PodsUseNoClusterCpu(pods: seq<Pod>)
    ensures PodsDelta(pods, Key(Cluster, UsageNanoCores)) == 0
  {
    if pods == [] {
    } else {
      PodsUseNoClusterCpu(pods[..|pods| - 1]);
      ItemsUseNoClusterCpu(pods[|pods| - 1].namespace, Items(pods[|pods| - 1]));
    }
  }

  lemma {:induction false} ItemsUseNoClusterCpu(ns: string, items: seq<Item>)
    ensures ItemsDelta(ns, items, Key(Cluster, UsageNanoCores)) == 0
  {
    if items == [] {
    } else {
      ItemsUseNoClusterCpu(ns, items[..|items| - 1]);
    }
  }

  /** How many nodes answered. */
  function Answered(nodes: seq<Node>): nat {
    if nodes == [] then 0
    else Answered(nodes[..|nodes| - 1]) + if nodes[|nodes| - 1].stats.Some? then 1 else 0
  }

  lemma {:induction false} RoundingLoses(nodes: seq<Node>)
    ensures var rounded := SumOver(nodes, CpuUsage);
            && rounded <= Millicores(NanoCores(nodes))
            && (Answered(nodes) > 0 ==> Millicores(NanoCores(nodes)) <= rounded + Answered(nodes) - 1)
            && (Answered(nodes) == 0 ==> NanoCores(nodes) == 0)
  {
    if nodes == [] {
    } else {
      var before, last := nodes[..|nodes| - 1], nodes[|nodes| - 1];
      RoundingLoses(before);
      if last.stats.Some? {
        PodsUseNoClusterCpu(last.stats.value.pods);
        MillicoresOfSum(NanoCores(before), last.stats.value.usageNanoCores);
      }
    }
  }

  lemma {:induction false} AnsweredAreSummarized(nodes: seq<Node>)
    requires DistinctNames(nodes)
    ensures |NodeSummaries(nodes)| == Answered(nodes)
  {
    if nodes == [] {
    } else {
      var before, last := nodes[..|nodes| - 1], nodes[|nodes| - 1];
      AnsweredAreSummarized(before);
      if last.stats.Some? && last.name in NodeSummaries(before) {
        NodeIsNamed(before, last.name);
      }
    }
  }

  /** As long as the cluster's nanocores fit into 64 bits, its millicores are at least the
      sum of its nodes' millicores, and exceed it by less than the number of nodes. */
  lemma ClusterCpu(nodes: seq<Node>, result: Summaries)
    requires Published(nodes, result) && DistinctNames(nodes)
    requires NanoCores(nodes) < U64
    ensures var rounded := Total(Picked(result.nodes, CpuUsage));
            && rounded <= result.cluster.cpu.usage
            && (result.nodes != map[] ==> result.cluster.cpu.usage <= rounded + |result.nodes| - 1)
            && (result.nodes == map[] ==> result.cluster.cpu.usage == 0)
  {
    NodesAddUp(nodes, CpuUsage);
    RoundingLoses(nodes);
    AnsweredAreSummarized(nodes);
  }
}
