/** The flat table of sums behind the metrics summaries: one unsigned 64-bit number for
    each string key. */
module Aggregates {

  const U64: nat := 0x1_0000_0000_0000_0000

  function Wrap(n: nat): (r: nat)
    ensures r < U64
    ensures n < U64 ==> r == n
  {
    n % U64
  }

  lemma WrapDrops(q: nat, n: nat)
    ensures Wrap(q * U64 + n) == Wrap(n)
  {
    var k, r := n / U64, n % U64;
    assert q * U64 + n == (q + k) * U64 + r;
  }

  lemma WrapAdd(a: nat, b: nat)
    ensures Wrap(Wrap(a) + b) == Wrap(a + b)
    ensures Wrap(a + Wrap(b)) == Wrap(a + b)
  {
    WrapDrops(a / U64, Wrap(a) + b);
    WrapDrops(b / U64, a + Wrap(b));
  }

  lemma WrapSum(a: nat, b: nat)
    ensures Wrap(Wrap(a) + Wrap(b)) == Wrap(a + b)
  {
    WrapAdd(a, b);
    WrapAdd(Wrap(a), b);
  }

  lemma WrapCongruent(a: nat, s: nat, t: nat)
    requires Wrap(s) == Wrap(t)
    ensures Wrap(Wrap(a) + s) == Wrap(a + t)
  {
    WrapAdd(a, s);
    WrapAdd(a, t);
  }

  // ----- Keys -----

  datatype Field =
    | TotalMillicores | MemTotalBytes | UsageNanoCores | MemUsageBytes
    | NetworkTxBytes | NetworkRxBytes | NetworkSeconds
    | FsCapacityBytes | FsUsedBytes | VolCapacityBytes | VolUsedBytes | Pods | Containers
    | UsageCoreNanoSeconds | MemAvailableBytes | MemRSSBytes | MemWorkingSetBytes

  datatype Scope = Cluster | Namespace(name: string)
  datatype Key = Key(scope: Scope, field: Field)

  function Name(field: Field): string {
    match field
    case TotalMillicores => "totalMillicores"
    case MemTotalBytes => "memTotalBytes"
    case UsageNanoCores => "usageNanoCores"
    case MemUsageBytes => "memUsageBytes"
    case NetworkTxBytes => "networkTxBytes"
    case NetworkRxBytes => "networkRxBytes"
    case NetworkSeconds => "networkSeconds"
    case FsCapacityBytes => "fsCapacityBytes"
    case FsUsedBytes => "fsUsedBytes"
    case VolCapacityBytes => "volCapacityBytes"
    case VolUsedBytes => "volUsedBytes"
    case Pods => "pods"
    case Containers => "containers"
    case UsageCoreNanoSeconds => "usageCoreNanoSeconds"
    case MemAvailableBytes => "memAvailableBytes"
    case MemRSSBytes => "memRSSBytes"
    case MemWorkingSetBytes => "memWorkingSetBytes"
  }

  function Prefix(scope: Scope): string {
    match scope
    case Cluster => "Cluster"
    case Namespace(name) => "Namespace:" + name
  }

  function Text(key: Key): string {
    Prefix(key.scope) + ":" + Name(key.field)
  }

  lemma NodeNameHasNoColon(f: Field)
    requires f.TotalMillicores? || f.MemTotalBytes? || f.UsageNanoCores? || f.MemUsageBytes? || f.NetworkTxBytes?
             || f.NetworkRxBytes? || f.NetworkSeconds? || f.FsCapacityBytes? || f.FsUsedBytes?
    ensures ':' !in Name(f)
  {
  }

  lemma PodNameHasNoColon(f: Field)
    requires f.VolCapacityBytes? || f.VolUsedBytes? || f.Pods? || f.Containers? || f.UsageCoreNanoSeconds?
             || f.MemAvailableBytes? || f.MemRSSBytes? || f.MemWorkingSetBytes?
    ensures ':' !in Name(f)
  {
  }

  lemma NameHasNoColon(f: Field)
    ensures ':' !in Name(f)
  {
    match f {
      case VolCapacityBytes | VolUsedBytes | Pods | Containers | UsageCoreNanoSeconds
         | MemAvailableBytes | MemRSSBytes | MemWorkingSetBytes =>
        PodNameHasNoColon(f);
      case _ =>
        NodeNameHasNoColon(f);
    }
  }

  lemma NamesDiffer(f: Field, g: Field)
    requires Name(f) == Name(g)
    ensures f == g
  {
    assert |Name(f)| == |Name(g)| && Name(f)[0] == Name(g)[0] && Name(f)[3] == Name(g)[3];
    assert |Name(f)| > 7 ==> Name(f)[7] == Name(g)[7];
  }

  lemma NoColonBehind(a: string, x: string)
    requires ':' !in x
    ensures var s := a + ":" + x; forall i :: |a| < i < |s| ==> s[i] != ':'
  {
    var s := a + ":" + x;
    forall i | |a| < i < |s| ensures s[i] != ':' {
      assert s[i] == x[i - |a| - 1];
    }
  }

  /** What stands behind the last colon, and before it. */
  lemma LastColon(a: string, x: string, b: string, y: string)
    requires ':' !in x && ':' !in y
    requires a + ":" + x == b + ":" + y
    ensures a == b && x == y
  {
    var s := a + ":" + x;
    NoColonBehind(a, x);
    NoColonBehind(b, y);
    assert s[|a|] == ':' && s[|b|] == ':';
    assert a == s[..|a|] && b == s[..|b|];
    assert x == s[|a| + 1..] && y == s[|b| + 1..];
  }

  lemma PrefixesDiffer(s: Scope, t: Scope)
    requires Prefix(s) == Prefix(t)
    ensures s == t
  {
    assert Prefix(s)[0] == Prefix(t)[0];
    if s.Namespace? && t.Namespace? {
      assert s.name == Prefix(s)[10..] && t.name == Prefix(t)[10..];
    }
  }

  /** No two sums share a key, whatever the namespaces are called. */
  lemma KeysDiffer(j: Key, k: Key)
    requires Text(j) == Text(k)
    ensures j == k
  {
    NameHasNoColon(j.field);
    NameHasNoColon(k.field);
    LastColon(Prefix(j.scope), Name(j.field), Prefix(k.scope), Name(k.field));
    NamesDiffer(j.field, k.field);
    PrefixesDiffer(j.scope, k.scope);
  }

  // ----- The table -----

  type Table = map<string, nat>

  function Get(table: Table, text: string): nat {
    if text in table then table[text] else 0
  }

  /** The sums without the limit of 64 bits. */
  type Sums = map<Key, nat>

  function Sum(sums: Sums, key: Key): nat {
    if key in sums then sums[key] else 0
  }

  /** The table holds every sum, as far as 64 bits hold it. */
  ghost predicate Agrees(table: Table, sums: Sums) {
    forall key: Key :: Get(table, Text(key)) == Wrap(Sum(sums, key))
  }

  /** `aggregates[key] += amount`. */
  method Post(table: Table, ghost sums: Sums, key: Key, amount: nat) returns (table': Table, ghost sums': Sums)
    requires Agrees(table, sums)
    ensures Agrees(table', sums')
    ensures forall k :: Sum(sums', k) == Sum(sums, k) + if k == key then amount else 0
  {
    table' := table[Text(key) := Wrap(Get(table, Text(key)) + amount)];
    sums' := sums[key := Sum(sums, key) + amount];
    forall k: Key ensures Get(table', Text(k)) == Wrap(Sum(sums', k)) {
      if Text(k) == Text(key) {
        KeysDiffer(k, key);
        WrapAdd(Sum(sums, key), amount);
      }
    }
  }

  method PostTwo(table: Table, ghost sums: Sums, key: Key, amount: nat, key': Key, amount': nat)
    returns (table': Table, ghost sums': Sums)
    requires Agrees(table, sums) && key != key'
    ensures Agrees(table', sums')
    ensures forall k :: Sum(sums', k) == Sum(sums, k) + if k == key then amount else if k == key' then amount' else 0
  {
    table', sums' := Post(table, sums, key, amount);
    table', sums' := Post(table', sums', key', amount');
  }
}
