/** What the published summaries show, told from the reports of the nodes alone. */
module MetricsFigures {
  import opened Aggregates
  import opened Counting
  import opened Metrics
  import opened MetricsSummary
  import opened MetricsTotals
  import opened Wrappers

  // ----- What is reported -----

  /** The reports of the nodes that answered. */
  function Answers(nodes: seq<Node>): seq<Stats> {
    if nodes == [] then []
    else
      var last := nodes[|nodes| - 1];
      Answers(nodes[..|nodes| - 1]) + if last.stats.Some? then [last.stats.value] else []
  }

  function Bytes(network: Option<Traffic>, field: Field): nat {
    if network.None? then 0
    else
      match field
      case NetworkTxBytes => network.value.txBytes
      case NetworkRxBytes => network.value.rxBytes
      case NetworkSeconds => network.value.seconds
      case _ => 0
  }

  /** What a node reports of itself. */
  function Reported(field: Field): Stats -> nat {
    (stats: Stats) =>
      match field
      case TotalMillicores => stats.totalMillicores
      case MemTotalBytes => stats.totalMemoryBytes
      case UsageNanoCores => stats.usageNanoCores
      case MemUsageBytes => stats.memUsageBytes
      case FsCapacityBytes => stats.fsCapacityBytes
      case FsUsedBytes => stats.fsUsedBytes
      case _ => Bytes(stats.network, field)
  }

  /** What it reports of a container and of a pod. */
  function ContainerReported(field: Field): Container -> nat {
    (c: Container) =>
      match field
      case Containers => 1
      case UsageCoreNanoSeconds => if c.cpu.Some? then c.cpu.value.usageCoreNanoSeconds else 0
      case UsageNanoCores => if c.cpu.Some? then c.cpu.value.usageNanoCores else 0
      case MemAvailableBytes => if c.memory.Some? then c.memory.value.availableBytes else 0
      case MemUsageBytes => if c.memory.Some? then c.memory.value.usageBytes else 0
      case MemRSSBytes => if c.memory.Some? then c.memory.value.rssBytes else 0
      case MemWorkingSetBytes => if c.memory.Some? then c.memory.value.workingSetBytes else 0
      case _ => 0
  }

  function PodReported(pod: Pod, field: Field): nat {
    match field
    case Pods => 1
    case VolCapacityBytes => CapacityOf(pod.volumes)
    case VolUsedBytes => UsedOf(pod.volumes)
    case NetworkTxBytes => pod.network.txBytes
    case NetworkRxBytes => pod.network.rxBytes
    case NetworkSeconds => pod.network.seconds
    case FsUsedBytes => DiskOf(pod.containers)
    case _ => SumBy(pod.containers, ContainerReported(field))
  }

  function InNamespace(ns: string, field: Field): Pod -> nat {
    (pod: Pod) => if pod.namespace == ns then PodReported(pod, field) else 0
  }

  // ----- Sums at the cluster -----

  lemma {:induction false} ItemsElsewhere(ns: string, items: seq<Item>, key: Key)
    requires key.scope != Namespace(ns) && (key.scope == Cluster ==> !Shared(key.field))
    ensures ItemsDelta(ns, items, key) == 0
  {
    if items == [] {
    } else {
      ItemsElsewhere(ns, items[..|items| - 1], key);
    }
  }

  lemma {:induction false} PodsAddNothing(pods: seq<Pod>, field: Field)
    requires !Shared(field)
    ensures PodsDelta(pods, Key(Cluster, field)) == 0
  {
    if pods == [] {
    } else {
      PodsAddNothing(pods[..|pods| - 1], field);
      ItemsElsewhere(pods[|pods| - 1].namespace, Items(pods[|pods| - 1]), Key(Cluster, field));
    }
  }

  lemma OwnIsReported(stats: Stats, field: Field)
    requires !Shared(field)
    ensures OwnDelta(stats, Key(Cluster, field)) == Reported(field)(stats)
  {
  }

  /** The sums at the cluster add up what the nodes report of themselves. */
  lemma {:induction false} ClusterSum(nodes: seq<Node>, field: Field)
    requires !Shared(field)
    ensures NodesDelta(nodes, Key(Cluster, field)) == SumBy(Answers(nodes), Reported(field))
  {
    if nodes == [] {
    } else {
      var before, last := nodes[..|nodes| - 1], nodes[|nodes| - 1];
      ClusterSum(before, field);
      if last.stats.Some? {
        OwnIsReported(last.stats.value, field);
        PodsAddNothing(last.stats.value.pods, field);
        SumByPush(Answers(before), last.stats.value, Reported(field));
      } else {
        assert Answers(before) + [] == Answers(before);
      }
    }
  }

  // ----- Sums at a namespace -----

  lemma {:induction false} VolumesAt(ns: string, vs: seq<Volume>, field: Field)
    ensures ItemsDelta(ns, VolumesItems(vs), Key(Namespace(ns), field)) == VolumesMeasure(vs, field)
  {
    if vs == [] {
    } else {
      var before, v := vs[..|vs| - 1], vs[|vs| - 1];
      VolumesAt(ns, before, field);
      ItemsDeltaPush(ns, VolumesItems(before), OfVolume(v), Key(Namespace(ns), field));
    }
  }

  function CpuShare(c: Container, field: Field): nat {
    if field.UsageCoreNanoSeconds? || field.UsageNanoCores? then ContainerReported(field)(c) else 0
  }

  function MemoryShare(c: Container, field: Field): nat {
    if field.MemAvailableBytes? || field.MemUsageBytes? || field.MemRSSBytes? || field.MemWorkingSetBytes?
    then ContainerReported(field)(c) else 0
  }

  lemma SharesAddUp(c: Container, field: Field)
    ensures ContainerReported(field)(c)
            == (if field == Containers then 1 else 0) + CpuShare(c, field) + MemoryShare(c, field)
  {
  }

  lemma CpuAt(ns: string, c: Container, field: Field)
    ensures ItemsDelta(ns, if c.cpu.Some? then [OfCpu(c.cpu.value)] else [], Key(Namespace(ns), field))
            == CpuShare(c, field)
  {
    if c.cpu.Some? {
      SingleMeasured(ns, OfCpu(c.cpu.value), Key(Namespace(ns), field));
    }
  }

  lemma MemoryAt(ns: string, c: Container, field: Field)
    ensures ItemsDelta(ns, if c.memory.Some? then [OfMemory(c.memory.value)] else [], Key(Namespace(ns), field))
            == MemoryShare(c, field)
  {
    if c.memory.Some? {
      SingleMeasured(ns, OfMemory(c.memory.value), Key(Namespace(ns), field));
      MemoryDelta(ns, c.memory.value, Key(Namespace(ns), field));
    }
  }

  lemma ContainerPartsAt(ns: string, c: Container, field: Field)
    ensures ItemsDelta(ns, ContainerItems(c), Key(Namespace(ns), field))
            == (if field == Containers then 1 else 0) + CpuShare(c, field) + MemoryShare(c, field)
  {
    SingleMeasured(ns, Item.OfContainer, Key(Namespace(ns), field));
    CpuAt(ns, c, field);
    MemoryAt(ns, c, field);
    ThreeParts(ns, [Item.OfContainer], if c.cpu.Some? then [OfCpu(c.cpu.value)] else [],
               if c.memory.Some? then [OfMemory(c.memory.value)] else [], Key(Namespace(ns), field));
  }

  lemma ContainerAt(ns: string, c: Container, field: Field)
    ensures ItemsDelta(ns, ContainerItems(c), Key(Namespace(ns), field)) == ContainerReported(field)(c)
  {
    ContainerPartsAt(ns, c, field);
    SharesAddUp(c, field);
  }

  lemma {:induction false} ContainersAt(ns: string, cs: seq<Container>, field: Field)
    ensures ItemsDelta(ns, ContainersItems(cs), Key(Namespace(ns), field)) == SumBy(cs, ContainerReported(field))
  {
    if cs == [] {
    } else {
      ContainersAt(ns, cs[..|cs| - 1], field);
      ContainerAt(ns, cs[|cs| - 1], field);
      ItemsDeltaBoth(ns, ContainersItems(cs[..|cs| - 1]), ContainerItems(cs[|cs| - 1]), Key(Namespace(ns), field));
    }
  }

  lemma {:induction false} NoneOfContainers(cs: seq<Container>, field: Field)
    requires forall c :: ContainerReported(field)(c) == 0
    ensures SumBy(cs, ContainerReported(field)) == 0
  {
    if cs == [] {
    } else {
      NoneOfContainers(cs[..|cs| - 1], field);
    }
  }

  lemma PodAt(pod: Pod, field: Field)
    requires field != FsUsedBytes
    ensures PodDelta(Key(Namespace(pod.namespace), field))(pod) == PodReported(pod, field)
  {
    var ns := pod.namespace;
    PartsMeasured(ns, Item.OfPod, VolumesItems(pod.volumes), ContainersItems(pod.containers), OfNetwork(pod.network),
                  Key(Namespace(ns), field));
    VolumesAt(ns, pod.volumes, field);
    ContainersAt(ns, pod.containers, field);
    if field.Pods? || field.VolCapacityBytes? || field.VolUsedBytes? || field.NetworkTxBytes?
       || field.NetworkRxBytes? || field.NetworkSeconds? {
      NoneOfContainers(pod.containers, field);
    }
  }

  lemma PodIn(pod: Pod, ns: string, field: Field)
    requires field != FsUsedBytes
    ensures PodDelta(Key(Namespace(ns), field))(pod) == InNamespace(ns, field)(pod)
  {
    if pod.namespace == ns {
      PodAt(pod, field);
    } else {
      ItemsElsewhere(pod.namespace, Items(pod), Key(Namespace(ns), field));
    }
  }

  lemma {:induction false} PodsIn(pods: seq<Pod>, ns: string, field: Field)
    requires field != FsUsedBytes
    ensures PodsDelta(pods, Key(Namespace(ns), field)) == SumBy(pods, InNamespace(ns, field))
  {
    if pods == [] {
    } else {
      PodsIn(pods[..|pods| - 1], ns, field);
      PodIn(pods[|pods| - 1], ns, field);
    }
  }

  /** The sums at a namespace add up what is reported of its pods. */
  lemma {:induction false} NamespaceSum(nodes: seq<Node>, ns: string, field: Field)
    requires field != FsUsedBytes
    ensures NodesDelta(nodes, Key(Namespace(ns), field)) == SumBy(PodsOf(nodes), InNamespace(ns, field))
  {
    if nodes == [] {
    } else {
      var before, last := nodes[..|nodes| - 1], nodes[|nodes| - 1];
      NamespaceSum(before, ns, field);
      if last.stats.Some? {
        PodsIn(last.stats.value.pods, ns, field);
        SumByBoth(PodsOf(before), last.stats.value.pods, InNamespace(ns, field));
      } else {
        assert PodsOf(before) + [] == PodsOf(before);
      }
    }
  }

  lemma {:induction false} DisksIn(pods: seq<Pod>, ns: string)
    ensures DiskIn(pods, ns) == SumBy(pods, InNamespace(ns, FsUsedBytes))
  {
    if pods == [] {
    } else {
      DisksIn(pods[..|pods| - 1], ns);
    }
  }

  lemma {:induction false} PodsHaveNoDisk(pods: seq<Pod>, ns: string)
    ensures PodsDelta(pods, Key(Namespace(ns), FsUsedBytes)) == 0
  {
    if pods == [] {
    } else {
      PodsHaveNoDisk(pods[..|pods| - 1], ns);
      ItemsHaveNoDisk(pods[|pods| - 1].namespace, Items(pods[|pods| - 1]), ns);
    }
  }

  lemma {:induction false} ItemsHaveNoDisk(own: string, items: seq<Item>, ns: string)
    ensures ItemsDelta(own, items, Key(Namespace(ns), FsUsedBytes)) == 0
  {
    if items == [] {
    } else {
      ItemsHaveNoDisk(own, items[..|items| - 1], ns);
    }
  }

  lemma CutBeforeAdded(a: nat, b: nat, more: nat)
    requires Wrap(a) == Wrap(b)
    ensures Wrap(a + Wrap(more)) == Wrap(b + more)
  {
    WrapAdd(a, more);
    WrapAdd(b, more);
  }

  lemma DiskDeltaIs(stats: Stats, ns: string)
    ensures NodeDelta(stats, Key(Namespace(ns), FsUsedBytes))
            == Wrap(SumBy(stats.pods, InNamespace(ns, FsUsedBytes)))
  {
    PodsHaveNoDisk(stats.pods, ns);
    DisksIn(stats.pods, ns);
  }

  lemma DeltaPushed(nodes: seq<Node>, node: Node, key: Key)
    ensures NodesDelta(nodes + [node], key)
            == NodesDelta(nodes, key) + if node.stats.Some? then NodeDelta(node.stats.value, key) else 0
  {
    assert (nodes + [node])[..|nodes|] == nodes;
  }

  lemma PodSumPushed(nodes: seq<Node>, node: Node, count: Pod -> nat)
    ensures SumBy(PodsOf(nodes + [node]), count)
            == SumBy(PodsOf(nodes), count) + if node.stats.Some? then SumBy(node.stats.value.pods, count) else 0
  {
    assert (nodes + [node])[..|nodes|] == nodes;
    if node.stats.Some? {
      SumByBoth(PodsOf(nodes), node.stats.value.pods, count);
    } else {
      assert PodsOf(nodes) + [] == PodsOf(nodes);
    }
  }

  lemma CutNext(a: nat, a': nat, b: nat, b': nat, more: nat)
    requires Wrap(a) == Wrap(b) && a' == a + Wrap(more) && b' == b + more
    ensures Wrap(a') == Wrap(b')
  {
    CutBeforeAdded(a, b, more);
  }

  ghost predicate DisksAgree(nodes: seq<Node>, ns: string) {
    Wrap(NodesDelta(nodes, Key(Namespace(ns), FsUsedBytes))) == Wrap(SumBy(PodsOf(nodes), InNamespace(ns, FsUsedBytes)))
  }

  lemma NamespaceDiskNext(nodes: seq<Node>, node: Node, ns: string)
    requires DisksAgree(nodes, ns)
    ensures DisksAgree(nodes + [node], ns)
  {
    var key, count := Key(Namespace(ns), FsUsedBytes), InNamespace(ns, FsUsedBytes);
    DeltaPushed(nodes, node, key);
    PodSumPushed(nodes, node, count);
    if node.stats.Some? {
      DiskDeltaIs(node.stats.value, ns);
      CutNext(NodesDelta(nodes, key), NodesDelta(nodes + [node], key),
              SumBy(PodsOf(nodes), count), SumBy(PodsOf(nodes + [node]), count), SumBy(node.stats.value.pods, count));
    }
  }

  lemma {:induction false} NamespaceDisksAgree(nodes: seq<Node>, ns: string)
    ensures DisksAgree(nodes, ns)
  {
    if nodes == [] {
    } else {
      var before, last := nodes[..|nodes| - 1], nodes[|nodes| - 1];
      NamespaceDisksAgree(before, ns);
      NamespaceDiskNext(before, last, ns);
      assert nodes == before + [last];
    }
  }

  /** The same for the disks, in 64 bits: each node's share is cut before it is added. */
  lemma NamespaceDisk(nodes: seq<Node>, ns: string)
    ensures At(nodes, Namespace(ns), FsUsedBytes) == Wrap(SumBy(PodsOf(nodes), InNamespace(ns, FsUsedBytes)))
  {
    NamespaceDisksAgree(nodes, ns);
  }

  // ----- What is shown -----

  /** Bytes per second, rounded down. */
  predicate IsRate(stat: Stat, bytes: nat, seconds: nat) {
    stat.total == 1
    && if seconds == 0 then stat.usage == 0 else stat.usage * seconds <= bytes < (stat.usage + 1) * seconds
  }

  lemma RateIs(bytes: nat, seconds: nat)
    ensures IsRate(Stat(SafeDivideInt(bytes, seconds), 1), bytes, seconds)
  {
  }

  /** A million nanocores are a millicore. */
  predicate IsCpu(millicores: nat, nanoCores: nat) {
    1000000 * millicores <= nanoCores < 1000000 * millicores + 1000000
  }

  /** The summary of a node shows what the node reports. */
  predicate ShowsNode(summary: Summary, stats: Stats) {
    && IsCpu(summary.cpu.usage, stats.usageNanoCores) && summary.cpu.total == stats.totalMillicores
    && summary.memory == Stat(stats.memUsageBytes, stats.totalMemoryBytes)
    && summary.disk == Stat(stats.fsUsedBytes, stats.fsCapacityBytes)
    && summary.volumes == Stat(Wrap(CapacityIn(stats.pods)), Wrap(UsedIn(stats.pods)))
    && (summary.netRx == None <==> stats.network == None) && (summary.netTx == None <==> stats.network == None)
    && (stats.network.Some? ==> IsRate(summary.netRx.value, stats.network.value.rxBytes, stats.unixSeconds))
    && (stats.network.Some? ==> IsRate(summary.netTx.value, stats.network.value.txBytes, stats.unixSeconds))
    && summary.pods == Wrap(|stats.pods|)
    && summary.containers == Wrap(ContainersIn(stats.pods))
  }

  lemma SummaryShows(stats: Stats)
    ensures ShowsNode(SummaryOfNode(stats), stats)
  {
    if stats.network.Some? {
      RateIs(stats.network.value.rxBytes, stats.unixSeconds);
      RateIs(stats.network.value.txBytes, stats.unixSeconds);
    }
  }

  lemma {:induction false} NodeKept(nodes: seq<Node>, i: nat)
    requires DistinctNames(nodes) && i < |nodes| && nodes[i].stats.Some?
    ensures nodes[i].name in NodeSummaries(nodes)
    ensures NodeSummaries(nodes)[nodes[i].name] == SummaryOfNode(nodes[i].stats.value)
  {
    var last := |nodes| - 1;
    if i == last {
    } else {
      NodeKept(nodes[..last], i);
    }
  }

  /** Every node that answered is published under its name with what it reports, and nothing
      else is. */
  lemma NodeFiguresShown(nodes: seq<Node>, result: Summaries, i: nat)
    requires Published(nodes, result) && DistinctNames(nodes) && i < |nodes| && nodes[i].stats.Some?
    ensures nodes[i].name in result.nodes && ShowsNode(result.nodes[nodes[i].name], nodes[i].stats.value)
  {
    NodeKept(nodes, i);
    SummaryShows(nodes[i].stats.value);
  }

  lemma OnlyNodesShown(nodes: seq<Node>, result: Summaries, name: string)
    requires Published(nodes, result) && name in result.nodes
    ensures exists i :: 0 <= i < |nodes| && nodes[i].stats.Some? && nodes[i].name == name
  {
    NodeIsNamed(nodes, name);
  }

  /** Where no time is known, the traffic is divided by the largest number of 64 bits. */
  function RateSeconds(seconds: nat): nat {
    if seconds == 0 then 0xFFFF_FFFF_FFFF_FFFF else seconds
  }

  /** The summary of a scope shows the sums of `total` in 64 bits. */
  ghost predicate ShowsScope(summary: Summary, total: Field -> nat) {
    && IsCpu(summary.cpu.usage, total(UsageNanoCores))
    && summary.memory.usage == total(MemUsageBytes)
    && summary.disk == Stat(total(FsUsedBytes), total(FsCapacityBytes))
    && summary.volumes == Stat(total(VolUsedBytes), total(VolCapacityBytes))
    && summary.netRx.Some? && IsRate(summary.netRx.value, total(NetworkRxBytes), RateSeconds(total(NetworkSeconds)))
    && summary.netTx.Some? && IsRate(summary.netTx.value, total(NetworkTxBytes), RateSeconds(total(NetworkSeconds)))
    && summary.pods == total(Pods)
    && summary.containers == total(Containers)
  }

  lemma ScopeShows(nodes: seq<Node>, scope: Scope, total: Field -> nat)
    requires forall field :: total(field) == At(nodes, scope, field)
    ensures ShowsScope(ScopeSummary(nodes, scope), total)
    ensures ScopeSummary(nodes, scope).cpu.total == total(TotalMillicores)
    ensures ScopeSummary(nodes, scope).memory.total == total(MemTotalBytes)
  {
    RateIs(total(NetworkRxBytes), RateSeconds(total(NetworkSeconds)));
    RateIs(total(NetworkTxBytes), RateSeconds(total(NetworkSeconds)));
  }

  /** What the cluster shows: the nodes' own reports, and for the shared fields their pods. */
  function ClusterTotal(nodes: seq<Node>): Field -> nat {
    (field: Field) =>
      Wrap(if Shared(field) then Measure(PodsOf(nodes), field) else SumBy(Answers(nodes), Reported(field)))
  }

  lemma ClusterTotalIs(nodes: seq<Node>, field: Field)
    ensures ClusterTotal(nodes)(field) == At(nodes, Cluster, field)
  {
    if Shared(field) {
      SharedIsOfPods(nodes, Cluster, field);
      PodsMeasured(PodsOf(nodes), field);
    } else {
      ClusterSum(nodes, field);
    }
  }

  lemma ClusterShown(nodes: seq<Node>, result: Summaries)
    requires Published(nodes, result)
    ensures ShowsScope(result.cluster, ClusterTotal(nodes))
    ensures result.cluster.cpu.total == Wrap(SumBy(Answers(nodes), Reported(TotalMillicores)))
    ensures result.cluster.memory.total == Wrap(SumBy(Answers(nodes), Reported(MemTotalBytes)))
  {
    forall field ensures ClusterTotal(nodes)(field) == At(nodes, Cluster, field) {
      ClusterTotalIs(nodes, field);
    }
    ScopeShows(nodes, Cluster, ClusterTotal(nodes));
  }

  /** What a namespace shows: its pods. */
  function NamespaceTotal(nodes: seq<Node>, ns: string): Field -> nat {
    (field: Field) => Wrap(SumBy(PodsOf(nodes), InNamespace(ns, field)))
  }

  lemma NamespaceTotalIs(nodes: seq<Node>, ns: string, field: Field)
    ensures NamespaceTotal(nodes, ns)(field) == At(nodes, Namespace(ns), field)
  {
    if field == FsUsedBytes {
      NamespaceDisk(nodes, ns);
    } else {
      NamespaceSum(nodes, ns, field);
    }
  }

  lemma {:induction false} NamespaceOccurs(pods: seq<Pod>, ns: string)
    ensures ns in NamespacesOf(pods) <==> exists i :: 0 <= i < |pods| && pods[i].namespace == ns
  {
    if pods == [] {
    } else {
      var before, last := pods[..|pods| - 1], |pods| - 1;
      NamespaceOccurs(before, ns);
      if ns in NamespacesOf(before) {
        var i :| 0 <= i < |before| && before[i].namespace == ns;
        assert pods[i].namespace == ns;
      } else if pods[last].namespace != ns {
        assert forall i :: 0 <= i < last ==> pods[i] == before[i];
      }
    }
  }

  /** Exactly the namespaces of some pod are published, each with the figures of its pods
      measured against the cluster. */
  lemma NamespaceShown(nodes: seq<Node>, result: Summaries, ns: string)
    requires Published(nodes, result)
    ensures ns in result.namespaces <==> exists i :: 0 <= i < |PodsOf(nodes)| && PodsOf(nodes)[i].namespace == ns
    ensures ns in result.namespaces ==>
              && ShowsScope(result.namespaces[ns], NamespaceTotal(nodes, ns))
              && result.namespaces[ns].cpu.total == result.cluster.cpu.total
              && result.namespaces[ns].memory.total == result.cluster.memory.total
  {
    NamespaceOccurs(PodsOf(nodes), ns);
    if ns in result.namespaces {
      forall field ensures NamespaceTotal(nodes, ns)(field) == At(nodes, Namespace(ns), field) {
        NamespaceTotalIs(nodes, ns, field);
      }
      ScopeShows(nodes, Namespace(ns), NamespaceTotal(nodes, ns));
    }
  }

  // ----- Memory and disk are conserved -----

  datatype Figure = MemoryUsage | MemoryTotal | DiskUsage | DiskTotal | CpuTotal

  function Shown(figure: Figure): Summary -> nat {
    (summary: Summary) =>
      match figure
      case MemoryUsage => summary.memory.usage
      case MemoryTotal => summary.memory.total
      case DiskUsage => summary.disk.usage
      case DiskTotal => summary.disk.total
      case CpuTotal => summary.cpu.total
  }

  function Source(figure: Figure): Field {
    match figure
    case MemoryUsage => MemUsageBytes
    case MemoryTotal => MemTotalBytes
    case DiskUsage => FsUsedBytes
    case DiskTotal => FsCapacityBytes
    case CpuTotal => TotalMillicores
  }

  lemma AnswerSumPushed(nodes: seq<Node>, node: Node, count: Stats -> nat)
    ensures SumBy(Answers(nodes + [node]), count)
            == SumBy(Answers(nodes), count) + if node.stats.Some? then count(node.stats.value) else 0
  {
    assert (nodes + [node])[..|nodes|] == nodes;
    if node.stats.Some? {
      SumByPush(Answers(nodes), node.stats.value, count);
    } else {
      assert Answers(nodes) + [] == Answers(nodes);
    }
  }

  lemma ShownBy(stats: Stats, figure: Figure)
    ensures Shown(figure)(SummaryOfNode(stats)) == Reported(Source(figure))(stats)
  {
  }

  lemma {:induction false} ShownIsReported(nodes: seq<Node>, figure: Figure)
    ensures SumOver(nodes, Shown(figure)) == SumBy(Answers(nodes), Reported(Source(figure)))
  {
    if nodes == [] {
    } else {
      var before, last := nodes[..|nodes| - 1], nodes[|nodes| - 1];
      ShownIsReported(before, figure);
      AnswerSumPushed(before, last, Reported(Source(figure)));
      assert nodes == before + [last];
      if last.stats.Some? {
        ShownBy(last.stats.value, figure);
      }
    }
  }

  /** Memory, disk and the available cpu of the cluster are those of its nodes, in 64 bits. */
  lemma NodesConserved(nodes: seq<Node>, result: Summaries, figure: Figure)
    requires Published(nodes, result) && DistinctNames(nodes)
    ensures Shown(figure)(result.cluster) == Wrap(Total(Picked(result.nodes, Shown(figure))))
  {
    NodesAddUp(nodes, Shown(figure));
    ShownIsReported(nodes, figure);
    ClusterShown(nodes, result);
  }
}
