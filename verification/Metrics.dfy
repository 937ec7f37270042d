/** `summarize` and its helpers against structured sums over nodes, pods, volumes and
    containers. */
module Metrics {
  import opened Aggregates
  import opened Counting
  import opened Wrappers

  // ----- What the nodes report -----

  datatype Volume = Volume(capacityBytes: nat, usedBytes: nat)
  datatype Cpu = Cpu(usageCoreNanoSeconds: nat, usageNanoCores: nat)
  datatype Memory = Memory(availableBytes: nat, usageBytes: nat, rssBytes: nat, workingSetBytes: nat)
  datatype Traffic = Traffic(txBytes: nat, rxBytes: nat, seconds: nat)
  datatype Container = Container(cpu: Option<Cpu>, memory: Option<Memory>, rootfsUsedBytes: Option<nat>)
  datatype Pod = Pod(namespace: string, volumes: seq<Volume>, containers: seq<Container>, network: Traffic)

  /** `seconds` of the network is the truncated duration, `unixSeconds` the difference of
      the truncated times. */
  datatype Stats = Stats(
    totalMillicores: nat,
    totalMemoryBytes: nat,
    usageNanoCores: nat,
    memUsageBytes: nat,
    network: Option<Traffic>,
    unixSeconds: nat,
    fsCapacityBytes: nat,
    fsUsedBytes: nat,
    pods: seq<Pod>)

  /** A listed node, and its statistics if it answered. */
  datatype Node = Node(name: string, stats: Option<Stats>)

  datatype Stat = Stat(usage: nat, total: nat)
  datatype Summary = Summary(
    cpu: Stat,
    memory: Stat,
    disk: Stat,
    volumes: Stat,
    netRx: Option<Stat>,
    netTx: Option<Stat>,
    pods: nat,
    containers: nat)

  datatype Summaries = Summaries(cluster: Summary, namespaces: map<string, Summary>, nodes: map<string, Summary>)

  // ----- Contributions of a pod -----

  /** The pieces of a pod that are added up one by one. */
  datatype Item =
    | OfPod
    | OfVolume(volume: Volume)
    | OfContainer
    | OfCpu(cpu: Cpu)
    | OfMemory(memory: Memory)
    | OfNetwork(network: Traffic)

  function ContainerItems(c: Container): seq<Item> {
    [OfContainer]
    + (if c.cpu.Some? then [OfCpu(c.cpu.value)] else [])
    + (if c.memory.Some? then [OfMemory(c.memory.value)] else [])
  }

  function VolumesItems(vs: seq<Volume>): seq<Item> {
    if vs == [] then [] else VolumesItems(vs[..|vs| - 1]) + [OfVolume(vs[|vs| - 1])]
  }

  function ContainersItems(cs: seq<Container>): seq<Item> {
    if cs == [] then [] else ContainersItems(cs[..|cs| - 1]) + ContainerItems(cs[|cs| - 1])
  }

  function Items(pod: Pod): seq<Item> {
    [OfPod] + VolumesItems(pod.volumes) + ContainersItems(pod.containers) + [OfNetwork(pod.network)]
  }

  /** What a piece counts for in a sum of its namespace. */
  function Share(item: Item, field: Field): nat {
    match (item, field)
    case (OfPod, Pods) => 1
    case (OfVolume(v), VolCapacityBytes) => v.capacityBytes
    case (OfVolume(v), VolUsedBytes) => v.usedBytes
    case (OfContainer, Containers) => 1
    case (OfCpu(c), UsageCoreNanoSeconds) => c.usageCoreNanoSeconds
    case (OfCpu(c), UsageNanoCores) => c.usageNanoCores
    case (OfMemory(m), MemAvailableBytes) => m.availableBytes
    case (OfMemory(m), MemUsageBytes) => m.usageBytes
    case (OfMemory(m), MemRSSBytes) => m.rssBytes
    case (OfMemory(m), MemWorkingSetBytes) => m.workingSetBytes
    case (OfNetwork(n), NetworkTxBytes) => n.txBytes
    case (OfNetwork(n), NetworkRxBytes) => n.rxBytes
    case (OfNetwork(n), NetworkSeconds) => n.seconds
    case _ => 0
  }

  /** The fields that pods contribute to the cluster as well. */
  predicate Shared(field: Field) {
    field == Pods || field == Containers || field == VolCapacityBytes || field == VolUsedBytes
  }

  function ItemDelta(ns: string, item: Item, key: Key): nat {
    match key.scope
    case Cluster => if Shared(key.field) then Share(item, key.field) else 0
    case Namespace(name) => if name == ns then Share(item, key.field) else 0
  }

  function ItemsDelta(ns: string, items: seq<Item>, key: Key): nat {
    if items == [] then 0
    else ItemsDelta(ns, items[..|items| - 1], key) + ItemDelta(ns, items[|items| - 1], key)
  }

  function PodDelta(key: Key): Pod -> nat {
    (pod: Pod) => ItemsDelta(pod.namespace, Items(pod), key)
  }

  function PodsDelta(pods: seq<Pod>, key: Key): nat {
    SumBy(pods, PodDelta(key))
  }

  lemma ItemsDeltaPush(ns: string, items: seq<Item>, item: Item, key: Key)
    ensures ItemsDelta(ns, items + [item], key) == ItemsDelta(ns, items, key) + ItemDelta(ns, item, key)
  {
    var longer := items + [item];
    assert longer[..|longer| - 1] == items;
  }

  ghost predicate Grown(sums: Sums, sums': Sums, ns: string, items: seq<Item>) {
    forall key :: Sum(sums', key) == Sum(sums, key) + ItemsDelta(ns, items, key)
  }

  ghost predicate GrownBy(sums: Sums, sums': Sums, ns: string, item: Item) {
    forall key :: Sum(sums', key) == Sum(sums, key) + ItemDelta(ns, item, key)
  }

  lemma GrownByOne(sums: Sums, sums': Sums, sums'': Sums, ns: string, items: seq<Item>, item: Item)
    requires Grown(sums, sums', ns, items) && GrownBy(sums', sums'', ns, item)
    ensures Grown(sums, sums'', ns, items + [item])
  {
    forall key ensures Sum(sums'', key) == Sum(sums, key) + ItemsDelta(ns, items + [item], key) {
      ItemsDeltaPush(ns, items, item, key);
    }
  }

  // ----- Adding up a piece -----

  method CountPod(table: Table, ghost sums: Sums, ns: string) returns (table': Table, ghost sums': Sums)
    requires Agrees(table, sums)
    ensures Agrees(table', sums') && GrownBy(sums, sums', ns, OfPod)
  {
    table', sums' := Post(table, sums, Key(Namespace(ns), Pods), 1);
    table', sums' := Post(table', sums', Key(Cluster, Pods), 1);
  }

  method AddVolume(table: Table, ghost sums: Sums, ns: string, v: Volume) returns (table': Table, ghost sums': Sums)
    requires Agrees(table, sums)
    ensures Agrees(table', sums') && GrownBy(sums, sums', ns, OfVolume(v))
  {
    table', sums' := Post(table, sums, Key(Cluster, VolCapacityBytes), v.capacityBytes);
    table', sums' := Post(table', sums', Key(Cluster, VolUsedBytes), v.usedBytes);
    table', sums' := Post(table', sums', Key(Namespace(ns), VolCapacityBytes), v.capacityBytes);
    table', sums' := Post(table', sums', Key(Namespace(ns), VolUsedBytes), v.usedBytes);
  }

  method CountContainer(table: Table, ghost sums: Sums, ns: string) returns (table': Table, ghost sums': Sums)
    requires Agrees(table, sums)
    ensures Agrees(table', sums') && GrownBy(sums, sums', ns, OfContainer)
  {
    table', sums' := Post(table, sums, Key(Namespace(ns), Containers), 1);
    table', sums' := Post(table', sums', Key(Cluster, Containers), 1);
  }

  method AddCpu(table: Table, ghost sums: Sums, ns: string, c: Cpu) returns (table': Table, ghost sums': Sums)
    requires Agrees(table, sums)
    ensures Agrees(table', sums') && GrownBy(sums, sums', ns, OfCpu(c))
  {
    table', sums' := Post(table, sums, Key(Namespace(ns), UsageCoreNanoSeconds), c.usageCoreNanoSeconds);
    table', sums' := Post(table', sums', Key(Namespace(ns), UsageNanoCores), c.usageNanoCores);
  }

  lemma MemoryDelta(ns: string, m: Memory, key: Key)
    ensures key.scope != Namespace(ns) ==> ItemDelta(ns, OfMemory(m), key) == 0
    ensures key.scope == Namespace(ns) ==>
              ItemDelta(ns, OfMemory(m), key)
              == if key.field == MemAvailableBytes then m.availableBytes
                 else if key.field == MemUsageBytes then m.usageBytes
                 else if key.field == MemRSSBytes then m.rssBytes
                 else if key.field == MemWorkingSetBytes then m.workingSetBytes else 0
  {
  }

  method AddMemory(table: Table, ghost sums: Sums, ns: string, m: Memory) returns (table': Table, ghost sums': Sums)
    requires Agrees(table, sums)
    ensures Agrees(table', sums') && GrownBy(sums, sums', ns, OfMemory(m))
  {
    var n := Namespace(ns);
    table', sums' :=
      PostTwo(table, sums, Key(n, MemAvailableBytes), m.availableBytes, Key(n, MemUsageBytes), m.usageBytes);
    table', sums' :=
      PostTwo(table', sums', Key(n, MemRSSBytes), m.rssBytes, Key(n, MemWorkingSetBytes), m.workingSetBytes);
    forall key ensures Sum(sums', key) == Sum(sums, key) + ItemDelta(ns, OfMemory(m), key) {
      MemoryDelta(ns, m, key);
    }
  }

  method AddNetwork(table: Table, ghost sums: Sums, ns: string, n: Traffic) returns (table': Table, ghost sums': Sums)
    requires Agrees(table, sums)
    ensures Agrees(table', sums') && GrownBy(sums, sums', ns, OfNetwork(n))
  {
    table', sums' := Post(table, sums, Key(Namespace(ns), NetworkTxBytes), n.txBytes);
    table', sums' := Post(table', sums', Key(Namespace(ns), NetworkRxBytes), n.rxBytes);
    table', sums' := Post(table', sums', Key(Namespace(ns), NetworkSeconds), n.seconds);
  }


  // ----- Adding up a pod -----

  method AddVolumes(table: Table, ghost sums: Sums, pod: Pod, ghost before: Sums, ghost items: seq<Item>)
    returns (table': Table, ghost sums': Sums)
    requires Agrees(table, sums) && Grown(before, sums, pod.namespace, items)
    ensures Agrees(table', sums')
    ensures Grown(before, sums', pod.namespace, items + VolumesItems(pod.volumes))
  {
    table', sums' := table, sums;
    ghost var done := items;
    for i := 0 to |pod.volumes|
      invariant Agrees(table', sums') && Grown(before, sums', pod.namespace, done)
      invariant done == items + VolumesItems(pod.volumes[..i])
    {
      ghost var earlier := sums';
      table', sums' := AddVolume(table', sums', pod.namespace, pod.volumes[i]);
      GrownByOne(before, earlier, sums', pod.namespace, done, OfVolume(pod.volumes[i]));
      done := done + [OfVolume(pod.volumes[i])];
      assert pod.volumes[..i + 1][..i] == pod.volumes[..i];
    }
    assert pod.volumes[..|pod.volumes|] == pod.volumes;
  }

  method AddContainer(
    table: Table, ghost sums: Sums, ns: string, c: Container, ghost before: Sums, ghost items: seq<Item>)
    returns (table': Table, ghost sums': Sums)
    requires Agrees(table, sums) && Grown(before, sums, ns, items)
    ensures Agrees(table', sums') && Grown(before, sums', ns, items + ContainerItems(c))
  {
    ghost var done := items + [OfContainer];
    ghost var earlier := sums;
    table', sums' := CountContainer(table, sums, ns);
    GrownByOne(before, earlier, sums', ns, items, OfContainer);
    if c.cpu.Some? {
      earlier := sums';
      table', sums' := AddCpu(table', sums', ns, c.cpu.value);
      GrownByOne(before, earlier, sums', ns, done, OfCpu(c.cpu.value));
      done := done + [OfCpu(c.cpu.value)];
    }
    if c.memory.Some? {
      earlier := sums';
      table', sums' := AddMemory(table', sums', ns, c.memory.value);
      GrownByOne(before, earlier, sums', ns, done, OfMemory(c.memory.value));
      done := done + [OfMemory(c.memory.value)];
    }
    assert done == items + ContainerItems(c);
  }

  lemma ContainersItemsNext(cs: seq<Container>, i: nat)
    requires i < |cs|
    ensures ContainersItems(cs[..i + 1]) == ContainersItems(cs[..i]) + ContainerItems(cs[i])
  {
    assert cs[..i + 1][..i] == cs[..i];
  }

  method AddContainers(
    table: Table, ghost sums: Sums, pod: Pod, ghost before: Sums, ghost items: seq<Item>, counted: nat)
    returns (table': Table, ghost sums': Sums, counted': nat)
    requires Agrees(table, sums) && Grown(before, sums, pod.namespace, items)
    requires counted < U64
    ensures Agrees(table', sums')
    ensures Grown(before, sums', pod.namespace, items + ContainersItems(pod.containers))
    ensures counted' == Wrap(counted + |pod.containers|)
  {
    table', sums', counted' := table, sums, counted;
    ghost var done := items;
    for i := 0 to |pod.containers|
      invariant Agrees(table', sums') && Grown(before, sums', pod.namespace, done)
      invariant done == items + ContainersItems(pod.containers[..i])
      invariant counted' == Wrap(counted + i)
    {
      var c := pod.containers[i];
      table', sums' := AddContainer(table', sums', pod.namespace, c, before, done);
      WrapAdd(counted + i, 1);
      counted' := Wrap(counted' + 1);
      ContainersItemsNext(pod.containers, i);
      assert done + ContainerItems(c) == items + (ContainersItems(pod.containers[..i]) + ContainerItems(c));
      done := done + ContainerItems(c);
    }
    assert pod.containers[..|pod.containers|] == pod.containers;
  }

  /** One round of the loop over the pods of a node; the two counters are the node's. */
  method AddPod(table: Table, ghost sums: Sums, pod: Pod, pods: nat, containers: nat)
    returns (table': Table, ghost sums': Sums, pods': nat, containers': nat)
    requires Agrees(table, sums)
    requires pods < U64 && containers < U64
    ensures Agrees(table', sums') && Grown(sums, sums', pod.namespace, Items(pod))
    ensures pods' == Wrap(pods + 1) && containers' == Wrap(containers + |pod.containers|)
  {
    var ns := pod.namespace;
    table', sums' := CountPod(table, sums, ns);
    GrownByOne(sums, sums, sums', ns, [], OfPod);
    pods' := Wrap(pods + 1);
    ghost var items := [OfPod];
    assert [] + [OfPod] == items;
    table', sums' := AddVolumes(table', sums', pod, sums, items);
    items := items + VolumesItems(pod.volumes);
    table', sums', containers' := AddContainers(table', sums', pod, sums, items, containers);
    items := items + ContainersItems(pod.containers);
    ghost var earlier := sums';
    table', sums' := AddNetwork(table', sums', ns, pod.network);
    GrownByOne(sums, earlier, sums', ns, items, OfNetwork(pod.network));
  }

  function ContainersIn(pods: seq<Pod>): nat {
    if pods == [] then 0 else ContainersIn(pods[..|pods| - 1]) + |pods[|pods| - 1].containers|
  }

  ghost predicate GrownByPods(sums: Sums, sums': Sums, pods: seq<Pod>) {
    forall key :: Sum(sums', key) == Sum(sums, key) + PodsDelta(pods, key)
  }

  function NamespacesOf(pods: seq<Pod>): set<string> {
    if pods == [] then {} else NamespacesOf(pods[..|pods| - 1]) + {pods[|pods| - 1].namespace}
  }

  lemma GrownByOnePod(sums: Sums, sums': Sums, sums'': Sums, pods: seq<Pod>, i: nat)
    requires i < |pods|
    requires GrownByPods(sums, sums', pods[..i]) && Grown(sums', sums'', pods[i].namespace, Items(pods[i]))
    ensures GrownByPods(sums, sums'', pods[..i + 1])
  {
    assert pods[..i + 1][..i] == pods[..i];
  }

  lemma CountedOneMore(pods: seq<Pod>, i: nat)
    requires i < |pods|
    ensures ContainersIn(pods[..i + 1]) == ContainersIn(pods[..i]) + |pods[i].containers|
    ensures NamespacesOf(pods[..i + 1]) == NamespacesOf(pods[..i]) + {pods[i].namespace}
    ensures Wrap(Wrap(i) + 1) == Wrap(i + 1)
    ensures Wrap(Wrap(ContainersIn(pods[..i])) + |pods[i].containers|) == Wrap(ContainersIn(pods[..i + 1]))
  {
    assert pods[..i + 1][..i] == pods[..i];
    WrapAdd(i, 1);
    WrapAdd(ContainersIn(pods[..i]), |pods[i].containers|);
  }

  /** The counters of the loop over the pods of a node. */
  datatype PodLoop = PodLoop(table: Table, namespaces: set<string>, pods: nat, containers: nat)

  /** Where the loop over the pods stands after i of them. */
  ghost predicate PodsAdded(start: PodLoop, before: Sums, now: PodLoop, sums: Sums, pods: seq<Pod>) {
    && Agrees(now.table, sums)
    && GrownByPods(before, sums, pods)
    && now.namespaces == start.namespaces + NamespacesOf(pods)
    && now.pods == Wrap(|pods|)
    && now.containers == Wrap(ContainersIn(pods))
  }

  method AddPodAt(ghost start: PodLoop, ghost before: Sums, now: PodLoop, ghost sums: Sums, pods: seq<Pod>, i: nat)
    returns (next: PodLoop, ghost sums': Sums)
    requires i < |pods| && PodsAdded(start, before, now, sums, pods[..i])
    ensures PodsAdded(start, before, next, sums', pods[..i + 1])
  {
    var table, podCount, containerCount;
    table, sums', podCount, containerCount := AddPod(now.table, sums, pods[i], now.pods, now.containers);
    GrownByOnePod(before, sums, sums', pods, i);
    CountedOneMore(pods, i);
    next := PodLoop(table, now.namespaces + {pods[i].namespace}, podCount, containerCount);
  }

  lemma NoPodsAdded(start: PodLoop, sums: Sums)
    requires Agrees(start.table, sums) && start.pods == start.containers == 0
    ensures PodsAdded(start, sums, start, sums, [])
  {
  }

  /** The loop over the pods of a node. */
  method AddPods(table: Table, ghost sums: Sums, pods: seq<Pod>, namespaces: set<string>)
    returns (done: PodLoop, ghost sums': Sums)
    requires Agrees(table, sums)
    ensures PodsAdded(PodLoop(table, namespaces, 0, 0), sums, done, sums', pods)
  {
    ghost var start := PodLoop(table, namespaces, 0, 0);
    done, sums' := PodLoop(table, namespaces, 0, 0), sums;
    NoPodsAdded(start, sums);
    assert pods[..0] == [];
    for i := 0 to |pods|
      invariant PodsAdded(start, sums, done, sums', pods[..i])
    {
      done, sums' := AddPodAt(start, sums, done, sums', pods, i);
    }
    assert pods[..|pods|] == pods;
  }

  // ----- Converting a node -----

  function CapacityOf(vs: seq<Volume>): nat {
    if vs == [] then 0 else CapacityOf(vs[..|vs| - 1]) + vs[|vs| - 1].capacityBytes
  }

  function UsedOf(vs: seq<Volume>): nat {
    if vs == [] then 0 else UsedOf(vs[..|vs| - 1]) + vs[|vs| - 1].usedBytes
  }

  function RootfsOf(c: Container): nat {
    if c.rootfsUsedBytes.Some? then c.rootfsUsedBytes.value else 0
  }

  function DiskOf(cs: seq<Container>): nat {
    if cs == [] then 0 else DiskOf(cs[..|cs| - 1]) + RootfsOf(cs[|cs| - 1])
  }

  function CapacityIn(pods: seq<Pod>): nat {
    if pods == [] then 0 else CapacityIn(pods[..|pods| - 1]) + CapacityOf(pods[|pods| - 1].volumes)
  }

  function UsedIn(pods: seq<Pod>): nat {
    if pods == [] then 0 else UsedIn(pods[..|pods| - 1]) + UsedOf(pods[|pods| - 1].volumes)
  }

  function DiskIn(pods: seq<Pod>, ns: string): nat {
    if pods == [] then 0
    else
      var pod := pods[|pods| - 1];
      DiskIn(pods[..|pods| - 1], ns) + if pod.namespace == ns then DiskOf(pod.containers) else 0
  }

  /** The volume figures of `convertPodSummary`: the volumes' capacities are added up as
      the usage, their used bytes as the total. */
  method ConvertPodVolumes(vs: seq<Volume>) returns (volumes: Stat)
    ensures volumes == Stat(Wrap(CapacityOf(vs)), Wrap(UsedOf(vs)))
  {
    volumes := Stat(0, 0);
    assert vs[..0] == [];
    for i := 0 to |vs|
      invariant volumes == Stat(Wrap(CapacityOf(vs[..i])), Wrap(UsedOf(vs[..i])))
    {
      assert vs[..i + 1][..i] == vs[..i];
      WrapAdd(CapacityOf(vs[..i]), vs[i].capacityBytes);
      WrapAdd(UsedOf(vs[..i]), vs[i].usedBytes);
      volumes := Stat(Wrap(volumes.usage + vs[i].capacityBytes), Wrap(volumes.total + vs[i].usedBytes));
    }
    assert vs[..|vs|] == vs;
  }

  /** The disk figure of `convertPodSummary`. */
  method ConvertPodDisk(cs: seq<Container>) returns (disk: nat)
    ensures disk == Wrap(DiskOf(cs))
  {
    disk := 0;
    assert cs[..0] == [];
    for i := 0 to |cs|
      invariant disk == Wrap(DiskOf(cs[..i]))
    {
      assert cs[..i + 1][..i] == cs[..i];
      WrapAdd(DiskOf(cs[..i]), RootfsOf(cs[i]));
      if cs[i].rootfsUsedBytes.Some? {
        disk := Wrap(disk + cs[i].rootfsUsedBytes.value);
      }
    }
    assert cs[..|cs|] == cs;
  }

  /** What the loop of `convertSummary` has added up over some pods. */
  ghost predicate VolumesConverted(pods: seq<Pod>, volumes: Stat) {
    volumes == Stat(Wrap(CapacityIn(pods)), Wrap(UsedIn(pods)))
  }

  ghost predicate DisksConverted(pods: seq<Pod>, disks: map<string, nat>) {
    && disks.Keys == NamespacesOf(pods)
    && forall ns :: ns in disks ==> disks[ns] == Wrap(DiskIn(pods, ns))
  }

  lemma {:induction false} NoDiskElsewhere(pods: seq<Pod>, ns: string)
    requires ns !in NamespacesOf(pods)
    ensures DiskIn(pods, ns) == 0
  {
    if pods == [] {
    } else {
      NoDiskElsewhere(pods[..|pods| - 1], ns);
    }
  }

  /** `disks[ns] += disk`, from a fresh entry if there is none. */
  function AddDisk(disks: map<string, nat>, ns: string, disk: nat): map<string, nat> {
    disks[ns := Wrap((if ns in disks then disks[ns] else 0) + disk)]
  }

  function AddStat(a: Stat, b: Stat): Stat {
    Stat(Wrap(a.usage + b.usage), Wrap(a.total + b.total))
  }

  lemma VolumesOneMore(pods: seq<Pod>, i: nat, volumes: Stat, more: Stat)
    requires i < |pods| && VolumesConverted(pods[..i], volumes)
    requires more == Stat(Wrap(CapacityOf(pods[i].volumes)), Wrap(UsedOf(pods[i].volumes)))
    ensures VolumesConverted(pods[..i + 1], AddStat(volumes, more))
  {
    assert pods[..i + 1][..i] == pods[..i];
    WrapSum(CapacityIn(pods[..i]), CapacityOf(pods[i].volumes));
    WrapSum(UsedIn(pods[..i]), UsedOf(pods[i].volumes));
  }

  lemma DisksOneMore(pods: seq<Pod>, i: nat, disks: map<string, nat>, disk: nat)
    requires i < |pods| && DisksConverted(pods[..i], disks)
    requires disk == Wrap(DiskOf(pods[i].containers))
    ensures DisksConverted(pods[..i + 1], AddDisk(disks, pods[i].namespace, disk))
  {
    var before, pod := pods[..i], pods[i];
    assert pods[..i + 1][..i] == before;
    WrapSum(DiskIn(before, pod.namespace), DiskOf(pod.containers));
    if pod.namespace !in disks {
      NoDiskElsewhere(before, pod.namespace);
    }
  }

  method ConvertPods(pods: seq<Pod>) returns (volumes: Stat, disks: map<string, nat>)
    ensures VolumesConverted(pods, volumes) && DisksConverted(pods, disks)
  {
    volumes, disks := Stat(0, 0), map[];
    assert pods[..0] == [];
    for i := 0 to |pods|
      invariant VolumesConverted(pods[..i], volumes) && DisksConverted(pods[..i], disks)
    {
      var podVolumes := ConvertPodVolumes(pods[i].volumes);
      var disk := ConvertPodDisk(pods[i].containers);
      VolumesOneMore(pods, i, volumes, podVolumes);
      DisksOneMore(pods, i, disks, disk);
      disks := AddDisk(disks, pods[i].namespace, disk);
      volumes := AddStat(volumes, podVolumes);
    }
    assert pods[..|pods|] == pods;
  }

  function SafeDivideInt(dividend: nat, divisor: nat): nat {
    if divisor == 0 then 0 else dividend / divisor
  }

  /** The summary of a node, with the counters that the loop over its pods fills in. */
  function NodeSummary(stats: Stats, volumes: Stat, pods: nat, containers: nat): Summary {
    Summary(
      Stat(stats.usageNanoCores / 1000000, stats.totalMillicores),
      Stat(stats.memUsageBytes, stats.totalMemoryBytes),
      Stat(stats.fsUsedBytes, stats.fsCapacityBytes),
      volumes,
      if stats.network.None? then None
      else Some(Stat(SafeDivideInt(stats.network.value.rxBytes, stats.unixSeconds), 1)),
      if stats.network.None? then None
      else Some(Stat(SafeDivideInt(stats.network.value.txBytes, stats.unixSeconds), 1)),
      pods,
      containers)
  }
}
