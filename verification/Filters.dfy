/** Filter strings, and the marking of resources by the filters in force. */
module Filters {
  import opened FieldOrder
  import opened Strings

  // ----- Filter strings -----

  const BANG: char := '!'
  const COLON: char := ':'

  predicate Negates(s: string) {
    s != "" && s[0] == BANG
  }

  /** A key and a value. */
  type Parts = (string, string)

  function SplitFilter(filter: string): Parts {
    var parts := Split(filter, COLON);
    if |parts| == 1 then ("*", parts[0])
    else if Negates(parts[1]) then ([BANG] + parts[0], Join([parts[1][1..]] + parts[2..], COLON))
    else (parts[0], Join(parts[1..], COLON))
  }

  /** `normalizeFilter` on a key and a value. */
  function NormalizeParts(parts: Parts): string {
    if Negates(parts.0) then parts.0[1..] + [COLON, BANG] + parts.1
    else parts.0 + [COLON] + parts.1
  }

  /** `normalizeFilter` on a string. */
  function NormalizeFilter(filter: string): string {
    NormalizeParts(SplitFilter(filter))
  }

  /** The text after the first colon is read whole, without a leading exclamation mark. */
  lemma SplitAtColon(key: string, value: string)
    requires COLON !in key
    ensures SplitFilter(key + [COLON] + value)
            == if Negates(value) then ([BANG] + key, value[1..]) else (key, value)
  {
    var rest := Split(value, COLON);
    SplitFirst(key, value, COLON);
    JoinSplit(value, COLON);
    FirstPart(value);
    assert ([key] + rest)[1..] == rest;
    if Negates(value) {
      assert ([key] + rest)[2..] == rest[1..];
    }
  }

  /** A leading exclamation mark stays with the first part. */
  lemma FirstPart(value: string)
    ensures Negates(Split(value, COLON)[0]) <==> Negates(value)
    ensures Negates(value) ==>
              var rest := Split(value, COLON);
              Join([rest[0][1..]] + rest[1..], COLON) == value[1..]
  {
    if Negates(value) {
      var tail := Split(value[1..], COLON);
      JoinSplit(value[1..], COLON);
      assert Split(value, COLON) == [[BANG] + tail[0]] + tail[1..];
      assert [tail[0]] + tail[1..] == tail;
    }
  }

  /** A text with a colon is a key without one, a colon, and a value. */
  lemma {:induction false} AtFirstColon(filter: string) returns (key: string, value: string)
    requires COLON in filter
    ensures COLON !in key && filter == key + [COLON] + value
  {
    if filter[0] == COLON {
      key, value := "", filter[1..];
    } else {
      key, value := AtFirstColon(filter[1..]);
      key := [filter[0]] + key;
    }
  }

  /** Printing a key and a value and reading them back gives them again exactly when the
      key holds no colon and no exclamation mark of the value can be taken for the key's. */
  lemma PartsRoundTrip(parts: Parts)
    ensures SplitFilter(NormalizeParts(parts)) == parts
            <==> COLON !in parts.0 && (Negates(parts.0) || !Negates(parts.1))
  {
    var (key, value) := parts;
    if COLON !in key {
      if Negates(key) {
        SplitAtColon(key[1..], [BANG] + value);
        assert NormalizeParts(parts) == key[1..] + [COLON] + ([BANG] + value);
        assert [BANG] + key[1..] == key;
      } else {
        SplitAtColon(key, value);
      }
    } else {
      var printed := NormalizeParts(parts);
      assert COLON in printed;
      var key', value' := AtFirstColon(printed);
      SplitAtColon(key', value');
    }
  }

  /** What `splitFilter` reads is what it reads from the normal form, for every string
      with a colon; without a colon, for every string that does not begin with an
      exclamation mark, and for no other. */
  lemma NormalizeKeepsMeaning(filter: string)
    ensures SplitFilter(NormalizeFilter(filter)) == SplitFilter(filter)
            <==> COLON in filter || !Negates(filter)
  {
    PartsRoundTrip(SplitFilter(filter));
    if COLON in filter {
      var key, value := AtFirstColon(filter);
      SplitAtColon(key, value);
    } else {
      SplitWhole(filter, COLON);
    }
  }

  lemma NormalizeIdempotent(filter: string)
    ensures NormalizeFilter(NormalizeFilter(filter)) == NormalizeFilter(filter)
  {
    NormalizeKeepsMeaning(filter);
    if COLON !in filter && Negates(filter) {
      SplitWhole(filter, COLON);
      assert NormalizeFilter(filter) == "*" + [COLON] + filter;
      SplitAtColon("*", filter);
      assert [BANG] + "*" == "!*";
    }
  }

  /** The filter `!x` is read as the text `!x` anywhere; its normal form as not `x` anywhere. */
  lemma BangWithoutColon()
    ensures SplitFilter("!x") == ("*", "!x") && SplitFilter(NormalizeFilter("!x")) == ("!*", "x")
  {
    SplitWhole("!x", COLON);
    assert NormalizeFilter("!x") == "*" + [COLON] + "!x";
    SplitAtColon("*", "!x");
    assert [BANG] + "*" == "!*";
  }

  // ----- Resources -----

  const DETACHED_OWNER_REFS: string := "kuill/detachedOwnerReferences"

  const UNDEFINED: string := "undefined"

  /** What the filters read of a resource. Attribute values are given as the text that `in`
      compares; an absent one reads as the text `undefined`. */
  datatype Data = Data(
    isDeleted: bool,
    attributes: map<string, string>,
    metadata: map<string, string>,
    labels: Table,
    annotations: Table,
    parameters: Table,
    roleRef: Table,
    nodeName: string,
    subjects: seq<string>)

  /** An optional object of attributes. */
  datatype Table = Absent | Table(entries: map<string, string>)

  function Lookup(entries: map<string, string>, key: string): string {
    if key in entries then entries[key] else UNDEFINED
  }

  predicate Has(table: Table, key: string, values: set<string>) {
    table.Table? && Lookup(table.entries, key) in values
  }

  predicate IncludesAt(s: string, sub: string, i: nat) {
    i + |sub| <= |s| && s[i..i + |sub|] == sub
  }

  predicate Includes(s: string, sub: string) {
    exists i :: 0 <= i <= |s| && IncludesAt(s, sub, i)
  }

  datatype Filter = Filter(field: string, values: set<string>)

  /** The `*` field: some metadata value is, or includes, a value, or some label is one. */
  predicate MatchesAny(data: Data, values: set<string>) {
    || (exists m :: m in data.metadata &&
          (data.metadata[m] in values || exists v :: v in values && Includes(data.metadata[m], v)))
    || (data.labels.Table? && exists name :: name in data.labels.entries && data.labels.entries[name] in values)
  }

  /** `resource[field]`; the flag that the loop keeps is an attribute like any other. */
  function Attribute(data: Data, flag: bool, field: string): string {
    if field == "isFiltered" then if flag then "true" else "false"
    else Lookup(data.attributes, field)
  }

  /** The long `if`, from the field name without its exclamation mark. */
  predicate Matches(data: Data, flag: bool, field: string, values: set<string>) {
    var zone := "failure-domain.beta.kubernetes.io/zone";
    var region := "failure-domain.beta.kubernetes.io/region";
    var instanceType := "beta.kubernetes.io/instance-type";
    var isPod := Lookup(data.attributes, "kind") == "Pod";
    if field == "*" then MatchesAny(data, values)
    else if field == "status" then Lookup(data.attributes, "statusSummary") in values
    else if field == "zone" then Has(data.labels, zone, values) || Has(data.parameters, "zone", values)
    else if field == "region" then Has(data.labels, region, values)
    else if field == "instanceType" then Has(data.labels, instanceType, values)
    else if field == "role" then Has(data.labels, "kubernetes.io/role", values) || Has(data.roleRef, "name", values)
    else if field == "hostname" then Has(data.labels, "kubernetes.io/hostname", values)
    else if field == "node" then isPod && data.nodeName in values
    else if field == "subject" then exists s :: s in data.subjects && s in values
    else if field == "freeMemory" || field == "freeCPU" then false
    else if field == "detached" && isPod && "true" in values && data.annotations.Table?
            && DETACHED_OWNER_REFS in data.annotations.entries then true
    else if field == "namespace" then
      Lookup(data.metadata, "namespace") in values && "namespace" in data.metadata && data.metadata["namespace"] != ""
    else
      || Lookup(data.metadata, field) in values
      || Attribute(data, flag, field) in values
      || Has(data.labels, field, values)
  }

  // ----- Marking -----

  function FieldName(filter: Filter): string {
    if Negates(filter.field) then filter.field[1..] else filter.field
  }

  predicate Fails(data: Data, flag: bool, filter: Filter) {
    Matches(data, flag, FieldName(filter), filter.values) == Negates(filter.field)
  }

  /** The flag as the loop over the fields leaves it. */
  function Run(data: Data, flag: bool, filters: seq<Filter>): bool {
    if filters == [] then flag
    else if Fails(data, flag, filters[0]) then true
    else Run(data, false, filters[1..])
  }

  predicate Marked(data: Data, filters: seq<Filter>) {
    data.isDeleted || Run(data, filters != [], filters)
  }

  class Resource {
    const data: Data
    var isFiltered: bool

    constructor (data: Data, isFiltered: bool)
      ensures this.data == data && this.isFiltered == isFiltered
    {
      this.data := data;
      this.isFiltered := isFiltered;
    }
  }

  /** The answer of the JavaScript function is `true` or `undefined`; the latter is `false`
      here. */
  method ApplyFiltersToResource(filters: seq<Filter>, resource: Resource) returns (filtered: bool)
    modifies resource
    ensures filtered == resource.isFiltered == Marked(resource.data, filters)
  {
    var data := resource.data;
    if data.isDeleted {
      resource.isFiltered := true;
      return true;
    }
    resource.isFiltered := |filters| > 0;
    for i := 0 to |filters|
      invariant i > 0 ==> !resource.isFiltered
      invariant i == 0 ==> resource.isFiltered == (filters != [])
      invariant Marked(data, filters) == Run(data, resource.isFiltered, filters[i..])
    {
      assert filters[i..][0] == filters[i] && filters[i..][1..] == filters[i + 1..];
      var found := Matches(data, resource.isFiltered, FieldName(filters[i]), filters[i].values);
      if Negates(filters[i].field) {
        found := !found;
      }
      resource.isFiltered := !found;
      if resource.isFiltered {
        return true;
      }
    }
    return false;
  }

  method ApplyFilters(globalFilters: seq<Filter>, dynamicFilters: seq<Filter>, resource: Resource)
    returns (globally: bool)
    modifies resource
    ensures globally == Marked(resource.data, globalFilters)
    ensures resource.isFiltered == (Marked(resource.data, globalFilters) || Marked(resource.data, dynamicFilters))
  {
    globally := ApplyFiltersToResource(globalFilters, resource);
    if !globally {
      var _ := ApplyFiltersToResource(dynamicFilters, resource);
    }
  }

  // ----- What each field reads -----

  /** With a single field, a resource that is not deleted keeps its mark cleared exactly if
      it matches. */
  ghost predicate Kept(data: Data, field: string, values: set<string>) {
    !Marked(data, [Filter(field, values)])
  }

  lemma KeptMatches(data: Data, field: string, values: set<string>)
    requires !data.isDeleted && !Negates(field)
    ensures Kept(data, field, values) <==> Matches(data, true, field, values)
  {
    assert [Filter(field, values)][1..] == [];
    assert Run(data, false, []) == false;
  }

  lemma IncludesMeaning(s: string, sub: string)
    ensures Includes(s, sub) <==> exists a, b :: s == a + sub + b
  {
    if Includes(s, sub) {
      var i :| 0 <= i <= |s| && IncludesAt(s, sub, i);
      assert s == s[..i] + sub + s[i + |sub|..];
    }
    if a, b :| s == a + sub + b {
      assert IncludesAt(s, sub, |a|);
    }
  }

  /** A text anywhere: in some metadata value, or as some label's value. */
  lemma AnywhereField(data: Data, values: set<string>)
    requires !data.isDeleted
    ensures Kept(data, "*", values)
            <==> (exists m, a, v, b :: m in data.metadata && v in values && data.metadata[m] == a + v + b)
                 || (data.labels.Table? && exists l :: l in data.labels.entries && data.labels.entries[l] in values)
  {
    KeptMatches(data, "*", values);
    if m :| m in data.metadata && data.metadata[m] in values {
      assert data.metadata[m] == "" + data.metadata[m] + "";
    }
    if m, v :| m in data.metadata && v in values && Includes(data.metadata[m], v) {
      IncludesMeaning(data.metadata[m], v);
    }
    if m, a, v, b :| m in data.metadata && v in values && data.metadata[m] == a + v + b {
      IncludesMeaning(data.metadata[m], v);
    }
  }

  /** The text that a script reads at a key of an object: the value, or `undefined`. */
  ghost predicate Reads(entries: map<string, string>, key: string, v: string) {
    (key in entries && entries[key] == v) || (key !in entries && v == "undefined")
  }

  ghost predicate TableReads(table: Table, key: string, v: string) {
    table.Table? && Reads(table.entries, key, v)
  }

  lemma EntryRead(entries: map<string, string>, key: string, values: set<string>)
    ensures Lookup(entries, key) in values <==> exists v :: v in values && Reads(entries, key, v)
  {
    assert Reads(entries, key, Lookup(entries, key));
  }

  lemma TableRead(table: Table, key: string, values: set<string>)
    ensures Has(table, key, values) <==> exists v :: v in values && TableReads(table, key, v)
  {
    if table.Table? {
      EntryRead(table.entries, key, values);
      assert forall v :: TableReads(table, key, v) <==> Reads(table.entries, key, v);
    }
  }

  lemma StatusField(data: Data, values: set<string>)
    requires !data.isDeleted
    ensures Kept(data, "status", values) <==> exists v :: v in values && Reads(data.attributes, "statusSummary", v)
  {
    KeptMatches(data, "status", values);
    EntryRead(data.attributes, "statusSummary", values);
  }

  lemma ZoneField(data: Data, values: set<string>)
    requires !data.isDeleted
    ensures Kept(data, "zone", values)
            <==> exists v :: v in values && (TableReads(data.labels, "failure-domain.beta.kubernetes.io/zone", v)
                                             || TableReads(data.parameters, "zone", v))
  {
    KeptMatches(data, "zone", values);
    TableRead(data.labels, "failure-domain.beta.kubernetes.io/zone", values);
    TableRead(data.parameters, "zone", values);
  }

  lemma RegionField(data: Data, values: set<string>)
    requires !data.isDeleted
    ensures Kept(data, "region", values)
            <==> exists v :: v in values && TableReads(data.labels, "failure-domain.beta.kubernetes.io/region", v)
  {
    KeptMatches(data, "region", values);
    TableRead(data.labels, "failure-domain.beta.kubernetes.io/region", values);
  }

  lemma InstanceTypeField(data: Data, values: set<string>)
    requires !data.isDeleted
    ensures Kept(data, "instanceType", values)
            <==> exists v :: v in values && TableReads(data.labels, "beta.kubernetes.io/instance-type", v)
  {
    KeptMatches(data, "instanceType", values);
    TableRead(data.labels, "beta.kubernetes.io/instance-type", values);
  }

  lemma RoleField(data: Data, values: set<string>)
    requires !data.isDeleted
    ensures Kept(data, "role", values)
            <==> exists v :: v in values && (TableReads(data.labels, "kubernetes.io/role", v)
                                             || TableReads(data.roleRef, "name", v))
  {
    KeptMatches(data, "role", values);
    TableRead(data.labels, "kubernetes.io/role", values);
    TableRead(data.roleRef, "name", values);
  }

  lemma HostnameField(data: Data, values: set<string>)
    requires !data.isDeleted
    ensures Kept(data, "hostname", values)
            <==> exists v :: v in values && TableReads(data.labels, "kubernetes.io/hostname", v)
  {
    KeptMatches(data, "hostname", values);
    TableRead(data.labels, "kubernetes.io/hostname", values);
  }

  /** Only a pod has a kind that runs on a node. */
  lemma NodeField(data: Data, values: set<string>)
    requires !data.isDeleted
    ensures Kept(data, "node", values) <==> Reads(data.attributes, "kind", "Pod") && data.nodeName in values
  {
    KeptMatches(data, "node", values);
    KindRead(data);
  }

  lemma KindRead(data: Data)
    ensures Lookup(data.attributes, "kind") == "Pod" <==> Reads(data.attributes, "kind", "Pod")
  {
  }

  lemma SubjectField(data: Data, values: set<string>)
    requires !data.isDeleted
    ensures Kept(data, "subject", values) <==> exists i :: 0 <= i < |data.subjects| && data.subjects[i] in values
  {
    KeptMatches(data, "subject", values);
  }

  /** Nothing passes the two fields whose rule is commented out. */
  lemma FreeFields(data: Data, values: set<string>)
    requires !data.isDeleted
    ensures !Kept(data, "freeMemory", values) && !Kept(data, "freeCPU", values)
  {
    KeptMatches(data, "freeMemory", values);
    KeptMatches(data, "freeCPU", values);
  }

  lemma NamespaceField(data: Data, values: set<string>)
    requires !data.isDeleted
    ensures Kept(data, "namespace", values)
            <==> exists v :: v in values && v != "" && "namespace" in data.metadata && data.metadata["namespace"] == v
  {
    KeptMatches(data, "namespace", values);
  }

  /** What is read under any other name: a metadata value, an attribute or a label. The mark
      itself is set while the first field is judged. */
  ghost predicate Named(data: Data, field: string, values: set<string>) {
    exists v :: v in values &&
      (Reads(data.metadata, field, v) || TableReads(data.labels, field, v)
       || if field == "isFiltered" then v == "true" else Reads(data.attributes, field, v))
  }

  ghost predicate DetachedPod(data: Data) {
    Reads(data.attributes, "kind", "Pod") && data.annotations.Table?
    && "kuill/detachedOwnerReferences" in data.annotations.entries
  }

  lemma NamedRead(data: Data, field: string, values: set<string>)
    ensures Named(data, field, values)
            <==> Lookup(data.metadata, field) in values || Attribute(data, true, field) in values
                 || Has(data.labels, field, values)
  {
    EntryRead(data.metadata, field, values);
    EntryRead(data.attributes, field, values);
    TableRead(data.labels, field, values);
  }

  lemma DetachedField(data: Data, values: set<string>)
    requires !data.isDeleted
    ensures Kept(data, "detached", values)
            <==> (DetachedPod(data) && "true" in values) || Named(data, "detached", values)
  {
    KeptMatches(data, "detached", values);
    KindRead(data);
    NamedRead(data, "detached", values);
  }

  lemma OtherField(data: Data, field: string, values: set<string>)
    requires !data.isDeleted && !Negates(field)
    requires field !in {"*", "status", "zone", "region", "instanceType", "role", "hostname", "node", "subject",
                        "freeMemory", "freeCPU", "detached", "namespace"}
    ensures Kept(data, field, values) <==> Named(data, field, values)
  {
    KeptMatches(data, field, values);
    NamedRead(data, field, values);
  }

  /** Behind another field the mark is read cleared. */
  lemma MarkFieldSecond(data: Data, first: Filter, values: set<string>)
    requires !data.isDeleted
    ensures !Marked(data, [first, Filter("isFiltered", values)])
            <==> !Marked(data, [first])
                 && exists v :: v in values && (Reads(data.metadata, "isFiltered", v)
                                                || TableReads(data.labels, "isFiltered", v) || v == "false")
  {
    var second := Filter("isFiltered", values);
    assert [first, second][1..] == [second] && [second][1..] == [] && [first][1..] == [];
    assert Run(data, false, []) == false;
    assert Run(data, false, [second]) == Fails(data, false, second);
    EntryRead(data.metadata, "isFiltered", values);
    TableRead(data.labels, "isFiltered", values);
  }

  predicate ReadsFlag(filter: Filter) {
    FieldName(filter) == "isFiltered"
  }

  /** Some field fails. */
  predicate SomeFails(data: Data, filters: seq<Filter>) {
    exists f :: f in filters && Fails(data, false, f)
  }

  lemma {:induction false} RunMeaning(data: Data, flag: bool, filters: seq<Filter>)
    requires forall f :: f in filters ==> !ReadsFlag(f)
    requires filters == [] ==> !flag
    ensures Run(data, flag, filters) <==> SomeFails(data, filters)
  {
    if filters == [] {
    } else {
      var first, rest := filters[0], filters[1..];
      assert first in filters;
      FlagIgnored(data, flag, first);
      RunMeaning(data, false, rest);
      assert forall f :: f in filters <==> f == first || f in rest;
    }
  }

  lemma FlagIgnored(data: Data, flag: bool, filter: Filter)
    requires !ReadsFlag(filter)
    ensures Fails(data, flag, filter) == Fails(data, false, filter)
  {
  }

  /** An exclamation mark turns a field into its complement. */
  lemma NegationComplements(data: Data, flag: bool, field: string, values: set<string>)
    requires !Negates(field)
    ensures Fails(data, flag, Filter([BANG] + field, values)) <==> !Fails(data, flag, Filter(field, values))
  {
    assert ([BANG] + field)[1..] == field;
  }

  /** A resource is marked exactly if it is deleted or some field fails, for fields that do
      not read the mark itself. */
  lemma MarkedMeaning(data: Data, filters: seq<Filter>)
    requires forall f :: f in filters ==> !ReadsFlag(f)
    ensures Marked(data, filters) <==> data.isDeleted || SomeFails(data, filters)
  {
    RunMeaning(data, filters != [], filters);
  }

  /** The order of the fields does not matter, nor whether they are global or dynamic. */
  lemma MarkedAnyOrder(data: Data, globalFilters: seq<Filter>, dynamicFilters: seq<Filter>, all: seq<Filter>)
    requires multiset(all) == multiset(globalFilters) + multiset(dynamicFilters)
    requires forall f :: f in all ==> !ReadsFlag(f)
    ensures Marked(data, globalFilters) || Marked(data, dynamicFilters) <==> Marked(data, all)
  {
    forall f ensures f in all <==> f in globalFilters || f in dynamicFilters {
      assert f in all <==> f in multiset(all);
      assert f in globalFilters <==> f in multiset(globalFilters);
      assert f in dynamicFilters <==> f in multiset(dynamicFilters);
    }
    MarkedMeaning(data, globalFilters);
    MarkedMeaning(data, dynamicFilters);
    MarkedMeaning(data, all);
  }

  // ----- When the order matters -----

  /** The first field is judged while the mark is set, every later one while it is cleared. */
  function JudgedBy(data: Data): Tests<Filter> {
    Tests(f => Fails(data, true, f), f => Fails(data, false, f))
  }

  lemma {:induction false} RunCleared(data: Data, filters: seq<Filter>)
    ensures Run(data, false, filters) <==> LaterFails(JudgedBy(data), filters)
  {
    if filters == [] {
    } else {
      RunCleared(data, filters[1..]);
    }
  }

  lemma MarkedByLoop(data: Data, filters: seq<Filter>)
    ensures Marked(data, filters) <==> data.isDeleted || LoopFails(JudgedBy(data), filters)
  {
    if filters != [] {
      RunCleared(data, filters[1..]);
    }
  }

  ghost predicate SameInEveryOrder(data: Data, filters: seq<Filter>) {
    forall others :: multiset(others) == multiset(filters) ==> Marked(data, others) == Marked(data, filters)
  }

  ghost predicate SameInEveryDivision(data: Data, filters: seq<Filter>) {
    forall globalFilters, dynamicFilters ::
      Divides(globalFilters, dynamicFilters, filters) ==>
        (Marked(data, globalFilters) || Marked(data, dynamicFilters)) == Marked(data, filters)
  }

  /** Whatever the fields, every order of them gives the same mark if and only if the
      resource is deleted, or at least two fields fail with the mark cleared, or one does
      and it is the only field or fails with the mark set as well, or none does and with
      the mark set all fields fail or none. */
  lemma SameInEveryOrderIff(data: Data, filters: seq<Filter>)
    ensures SameInEveryOrder(data, filters) <==> data.isDeleted || Settled(JudgedBy(data), filters)
  {
    forall others ensures Marked(data, others) <==> data.isDeleted || LoopFails(JudgedBy(data), others) {
      MarkedByLoop(data, others);
    }
    OrderFreeIff(JudgedBy(data), filters);
  }

  /** Neither the order nor what is global and what is dynamic decides if and only if, in
      addition, when exactly two fields fail with the mark cleared one of them fails with
      the mark set. */
  lemma SameInEveryDivisionIff(data: Data, filters: seq<Filter>)
    ensures SameInEveryDivision(data, filters) <==> data.isDeleted || SettledDivided(JudgedBy(data), filters)
  {
    forall others ensures Marked(data, others) <==> data.isDeleted || LoopFails(JudgedBy(data), others) {
      MarkedByLoop(data, others);
    }
    DivisionFreeIff(JudgedBy(data), filters);
  }

  lemma OrderDecides(data: Data, filters: seq<Filter>, others: seq<Filter>)
    requires multiset(others) == multiset(filters) && Marked(data, others) != Marked(data, filters)
    ensures !SameInEveryOrder(data, filters)
  {
  }

  /** Two fields whose order decides: the one sees the mark that the other has cleared. */
  lemma FlagReaderNeedsOrder() returns (data: Data, a: Filter, b: Filter)
    ensures ReadsFlag(a) && !ReadsFlag(b)
    ensures !Marked(data, [a, b]) && Marked(data, [b, a]) && !SameInEveryOrder(data, [a, b])
  {
    data := Data(false, map[], map[], Absent, Absent, Absent, Absent, UNDEFINED, []);
    a, b := Filter("isFiltered", {"true"}), Filter("status", {UNDEFINED});
    assert "isFiltered"[0] != "freeMemory"[0] && "status"[0] != "isFiltered"[0];
    assert "status"[0] != "region"[0];
    assert "false"[0] != "true"[0] && UNDEFINED[0] != "true"[0];
    assert [a, b][1..] == [b] && [b, a][1..] == [a];
    assert Matches(data, true, "isFiltered", a.values);
    assert !Matches(data, false, "isFiltered", a.values);
    assert Matches(data, true, "status", b.values) && Matches(data, false, "status", b.values);
    assert Run(data, false, [b]) == Run(data, false, []);
    assert Run(data, false, [a]);
    OrderDecides(data, [a, b], [b, a]);
  }
}
