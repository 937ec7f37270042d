/** `completionsForPath`: the loop over the paths of a position and, for each path, the walk
    of the document and of the schema along it. */
module ManifestCompletion {
  import opened ManifestPaths
  import opened Strings
  import opened Wrappers

  // ----- The schema -----

  datatype Property = Property(kind: Option<string>, ref: Option<string>, items: Option<ItemsType>)
  datatype ItemsType = ItemsType(kind: Option<string>, ref: Option<string>)
  datatype Definition = Definition(properties: Option<map<string, Property>>)

  type Definitions = map<string, Definition>

  const DEFINITIONS := "#/definitions"

  /** What the variable `def` holds: a definition, the name of a type, or `undefined`. */
  datatype Def = Object(definition: Definition) | Named(name: string) | Undefined

  /** `a || b` on texts that may be missing. */
  function Or(a: Option<string>, b: Option<string>): Option<string> {
    if a.Some? && a.value != "" then a else b
  }

  /** The type of a property, or that of its items if it is an array. */
  function TypeOf(p: Property): Option<string> {
    if p.kind != Some("array") then Or(p.kind, p.ref)
    else if p.items.None? then None
    else Or(p.items.value.ref, p.items.value.kind)
  }

  function Resolve(definitions: Definitions, name: string): Def {
    if !(DEFINITIONS <= name) then Named(name)
    else
      var defName := Substr(name, 14);
      if defName in definitions then Object(definitions[defName]) else Undefined
  }

  /** From a definition to that of one of its properties; `None` for a `TypeError`. */
  function SubDef(definitions: Definitions, def: Def, key: string): Option<Def> {
    match def
    case Undefined => None
    case Object(Definition(Some(properties))) =>
      if key !in properties || TypeOf(properties[key]).None? then None
      else Some(Resolve(definitions, TypeOf(properties[key]).value))
    case _ => Some(def)
  }

  function DefAt(definitions: Definitions, start: Def, keys: seq<string>): Option<Def> {
    if keys == [] then Some(start)
    else
      var above := DefAt(definitions, start, keys[..|keys| - 1]);
      if above.None? then None else SubDef(definitions, above.value, keys[|keys| - 1])
  }

  // ----- One path -----

  /** The variables `doc` and `def`. */
  datatype Cursor = Cursor(doc: Place, def: Def)

  /** Where the place and the definition end, each on its own way along the parts; `None`
      if one of the ways ends in a `TypeError`. */
  function Followed(root: Node, definitions: Definitions, start: Cursor, parts: seq<string>): Option<Cursor> {
    var doc, def := Walk(root, start.doc, parts), DefAt(definitions, start.def, KeysOf(parts));
    if doc.Failed? || def.None? then None else Some(Cursor(doc, def.value))
  }

  lemma DefNext(definitions: Definitions, start: Def, keys: seq<string>, key: string)
    ensures var above := DefAt(definitions, start, keys);
            DefAt(definitions, start, keys + [key])
            == if above.None? then None else SubDef(definitions, above.value, key)
  {
    var longer := keys + [key];
    assert longer[..|longer| - 1] == keys;
  }

  lemma FollowedNext(root: Node, definitions: Definitions, start: Cursor, parts: seq<string>, i: nat)
    requires i < |parts|
    ensures var before := Followed(root, definitions, start, parts[..i]);
            var after := Followed(root, definitions, start, parts[..i + 1]);
            if before.None? then after.None?
            else
              var doc := WalkPart(root, before.value.doc, parts[i]);
              var def := SubDef(definitions, before.value.def, KeyOf(parts[i]));
              after == if doc.Failed? || def.None? then None else Some(Cursor(doc, def.value))
  {
    WalkNext(root, start.doc, parts, i);
    KeysExtend(parts[..i], parts[i]);
    assert parts[..i] + [parts[i]] == parts[..i + 1];
    DefNext(definitions, start.def, KeysOf(parts[..i]), KeyOf(parts[i]));
  }

  lemma {:induction false} ThrownStays(
    root: Node, definitions: Definitions, start: Cursor, parts: seq<string>, i: nat)
    requires i <= |parts| && Followed(root, definitions, start, parts[..i]).None?
    ensures Followed(root, definitions, start, parts).None?
    decreases |parts| - i
  {
    if i == |parts| {
      assert parts[..i] == parts;
    } else {
      FollowedNext(root, definitions, start, parts, i);
      ThrownStays(root, definitions, start, parts, i + 1);
    }
  }

  /** One round of the loop. */
  method FollowPart(root: Node, definitions: Definitions, at: Cursor, text: string) returns (next: Option<Cursor>)
    requires !at.doc.Failed?
    ensures var doc, def := WalkPart(root, at.doc, text), SubDef(definitions, at.def, KeyOf(text));
            next == if doc.Failed? || def.None? then None else Some(Cursor(doc, def.value))
  {
    var matched := MatchPart(text);
    if matched.None? {
      return None;
    }
    var doc := SubAst(root, at.doc, matched.value);
    if doc.Failed? {
      return None;
    }
    var def := SubDef(definitions, at.def, matched.value.name);
    if def.None? {
      return None;
    }
    next := Some(Cursor(doc, def.value));
  }

  /** The loop over the parts of one path in `completionsForPath`: the place in the document
      and the definition take a step for each part, and whatever throws first ends it. */
  method CompletionsForPath(root: Node, definitions: Definitions, start: Cursor, path: string)
    returns (end: Option<Cursor>)
    requires !start.doc.Failed?
    ensures end == Followed(root, definitions, start, Split(WithoutFirst(path), '.'))
  {
    var parts := Split(WithoutFirst(path), '.');
    end := Some(start);
    for i := 0 to |parts|
      invariant end.Some? && end == Followed(root, definitions, start, parts[..i])
    {
      FollowedNext(root, definitions, start, parts, i);
      end := FollowPart(root, definitions, end.value, parts[i]);
      if end.None? {
        ThrownStays(root, definitions, start, parts, i + 1);
        return;
      }
    }
    assert parts[..|parts|] == parts;
  }

  // ----- Where the schema leads -----

  /** The reference to the definition `name`, as a schema writes it. */
  function Reference(name: string): string {
    "#/definitions/" + name
  }

  predicate Missing(text: Option<string>) {
    text == None || text == Some("")
  }

  /** A type that is named and not referred to. */
  predicate TypeName(text: Option<string>) {
    text.Some? && !(DEFINITIONS <= text.value)
  }

  /** The definition behind a property, case by case. */
  ghost predicate LeadsTo(definitions: Definitions, p: Property, end: Option<Def>) {
    && (forall name :: p.kind == Some("array") && p.items.Some? && p.items.value.ref == Some(Reference(name)) ==>
          end == Some(if name in definitions then Object(definitions[name]) else Undefined))
    && (forall name :: Missing(p.kind) && p.ref == Some(Reference(name)) ==>
          end == Some(if name in definitions then Object(definitions[name]) else Undefined))
    && (forall t :: p.kind == Some("array") && p.items == Some(t) && Missing(t.ref) && TypeName(t.kind) ==>
          end == Some(Named(t.kind.value)))
    && (TypeName(p.kind) && p.kind != Some("") && p.kind != Some("array") ==> end == Some(Named(p.kind.value)))
    && (p.kind == Some("array") && p.items == None ==> end == None)
    && (forall t :: p.kind == Some("array") && p.items == Some(t) && Missing(t.ref) && t.kind == None ==> end == None)
    && (Missing(p.kind) && p.ref == None ==> end == None)
  }

  lemma ReferenceResolved(definitions: Definitions, name: string)
    ensures Resolve(definitions, Reference(name))
            == if name in definitions then Object(definitions[name]) else Undefined
    ensures Reference(name) != ""
  {
    assert DEFINITIONS <= Reference(name) && Reference(name)[14..] == name;
  }

  /** A text that merely begins like a reference is cut at the same place. */
  lemma OddReference(definitions: Definitions, c: char, name: string)
    ensures Resolve(definitions, "#/definitions" + [c] + name)
            == if name in definitions then Object(definitions[name]) else Undefined
    ensures Resolve(definitions, "#/definitions") == if "" in definitions then Object(definitions[""]) else Undefined
  {
    var text := "#/definitions" + [c] + name;
    assert DEFINITIONS <= text && text[14..] == name;
  }

  lemma PropertyLeads(definitions: Definitions, properties: map<string, Property>, key: string)
    ensures var end := SubDef(definitions, Object(Definition(Some(properties))), key);
            if key in properties then LeadsTo(definitions, properties[key], end) else end == None
  {
    if key in properties {
      forall name ensures Reference(name) != ""
        ensures Resolve(definitions, Reference(name))
                == if name in definitions then Object(definitions[name]) else Undefined
      {
        ReferenceResolved(definitions, name);
      }
    }
  }

  /** One more part of a path: where the definition before it has properties, the part's key
      leads to the definition behind that property, and throws if there is none; where it
      has not, nothing changes; behind a reference to nothing everything throws. */
  lemma LastPart(root: Node, definitions: Definitions, start: Cursor, parts: seq<string>, text: string)
    requires Followed(root, definitions, start, parts).Some? && !Walk(root, start.doc, parts + [text]).Failed?
    ensures var before := Followed(root, definitions, start, parts).value.def;
            var end := Followed(root, definitions, start, parts + [text]);
            var def := if end.Some? then Some(end.value.def) else None;
            match before
            case Object(Definition(Some(properties))) =>
              if KeyOf(text) in properties then LeadsTo(definitions, properties[KeyOf(text)], def) else def == None
            case Undefined => def == None
            case _ => def == Some(before)
  {
    var longer := parts + [text];
    FollowedNext(root, definitions, start, longer, |parts|);
    assert longer[..|parts|] == parts && longer[..|parts| + 1] == longer;
    match Followed(root, definitions, start, parts).value.def {
      case Object(Definition(Some(properties))) => PropertyLeads(definitions, properties, KeyOf(text));
      case _ =>
    }
  }

  // ----- All paths -----

  /** What `defForKind` comes to: nothing that is true, an exception, or a definition. */
  datatype KindDef = Unknown | Throwing | Known(definition: Definition)

  const KIND := "kind"

  function TextOf(value: Option<Node>): string {
    match value
    case Some(Scalar(text)) => text
    case _ => ""
  }

  /** The text of the field `kind` where the walk stands, or nothing that is true. */
  function KindAt(root: Node, doc: Place): string {
    if !doc.At? then ""
    else
      match NodeAt(root, doc.loc)
      case Some(Map(mappings)) =>
        var m := FindKey(mappings, KIND);
        if m < |mappings| then TextOf(mappings[m].value) else ""
      case _ => ""
  }

  /** What the loop works with: the document, the definitions of the schema and the function
      from kinds to definitions. */
  datatype Setup = Setup(root: Node, definitions: Definitions, defForKind: string -> KindDef) {
    function ObjectDef(doc: Place): KindDef {
      if KindAt(root, doc) == "" then Unknown else defForKind(KindAt(root, doc))
    }

    /** What the round for a path comes to from the place where the one before has left
        the walk. */
    function Round(doc: Place, path: string): Round {
      if Special(path) then Passed
      else
        match ObjectDef(doc)
        case Unknown => Passed
        case Throwing => Thrown
        case Known(definition) =>
          var end := Followed(root, definitions, Cursor(doc, Object(definition)), Split(WithoutFirst(path), '.'));
          if end.None? || end.value.def.Undefined? then Thrown else Offered(end.value)
    }

    /** Where the walk stands after the paths. */
    function DocAfter(start: Place, paths: seq<string>): Option<Place> {
      if paths == [] then Some(start)
      else
        var before := DocAfter(start, paths[..|paths| - 1]);
        if before.None? then None else Round(before.value, paths[|paths| - 1]).Leaves(before.value)
    }
  }

  /** The paths that are answered without a walk. */
  predicate Special(path: string) {
    path == "." || path == ".kind" || path == ".apiVersion"
  }

  /** No walk, an exception, or the completions at its end. */
  datatype Round = Passed | Thrown | Offered(end: Cursor) {
    function Leaves(doc: Place): Option<Place> {
      match this
      case Passed => Some(doc)
      case Thrown => None
      case Offered(end) => Some(end.doc)
    }
  }

  method CompletionsForRound(setup: Setup, doc: Place, path: string) returns (round: Round)
    requires !doc.Failed?
    ensures round == setup.Round(doc, path)
  {
    if Special(path) {
      return Passed;
    }
    var def := setup.ObjectDef(doc);
    if def.Unknown? {
      return Passed;
    }
    if def.Throwing? {
      return Thrown;
    }
    var end := CompletionsForPath(setup.root, setup.definitions, Cursor(doc, Object(def.definition)), path);
    if end.None? || end.value.def.Undefined? {
      return Thrown;
    }
    round := Offered(end.value);
  }

  lemma DocNext(setup: Setup, start: Place, paths: seq<string>, k: nat)
    requires k < |paths|
    ensures var before := setup.DocAfter(start, paths[..k]);
            setup.DocAfter(start, paths[..k + 1])
            == if before.None? then None else setup.Round(before.value, paths[k]).Leaves(before.value)
  {
    assert paths[..k + 1][..k] == paths[..k];
  }

  lemma {:induction false} ThrownForGood(setup: Setup, start: Place, paths: seq<string>, k: nat)
    requires k <= |paths| && setup.DocAfter(start, paths[..k]).None?
    ensures setup.DocAfter(start, paths).None?
    decreases |paths| - k
  {
    if k == |paths| {
      assert paths[..k] == paths;
    } else {
      DocNext(setup, start, paths, k);
      ThrownForGood(setup, start, paths, k + 1);
    }
  }

  ghost predicate RoundIs(setup: Setup, start: Place, paths: seq<string>, k: nat, round: Round)
    requires k < |paths|
  {
    var doc := setup.DocAfter(start, paths[..k]);
    doc.Some? && round == setup.Round(doc.value, paths[k])
  }

  /** The rounds for the paths come to what they would one by one, each from the place where
      the walk stands by then. */
  ghost predicate RoundsAre(setup: Setup, start: Place, paths: seq<string>, rounds: seq<Round>) {
    |rounds| <= |paths| && forall k :: 0 <= k < |rounds| ==> RoundIs(setup, start, paths, k, rounds[k])
  }

  lemma NoFailedDoc(setup: Setup, doc: Place, path: string)
    requires !doc.Failed?
    ensures var after := setup.Round(doc, path).Leaves(doc); after.Some? ==> !after.value.Failed?
  {
  }

  lemma RoundsPush(setup: Setup, start: Place, paths: seq<string>, rounds: seq<Round>, doc: Place, round: Round)
    requires |rounds| < |paths| && RoundsAre(setup, start, paths, rounds)
    requires setup.DocAfter(start, paths[..|rounds|]) == Some(doc) && round == setup.Round(doc, paths[|rounds|])
    ensures RoundsAre(setup, start, paths, rounds + [round])
  {
    assert RoundIs(setup, start, paths, |rounds|, round);
  }

  /** What a round does to the walk. */
  lemma RoundMoves(setup: Setup, start: Place, paths: seq<string>, k: nat, doc: Place)
    requires k < |paths| && setup.DocAfter(start, paths[..k]) == Some(doc) && !doc.Failed?
    ensures var round := setup.Round(doc, paths[k]);
            && (round.Thrown? ==> setup.DocAfter(start, paths).None?)
            && (!round.Thrown? ==>
                  var after := if round.Offered? then round.end.doc else doc;
                  setup.DocAfter(start, paths[..k + 1]) == Some(after) && !after.Failed?)
  {
    DocNext(setup, start, paths, k);
    NoFailedDoc(setup, doc, paths[k]);
    if setup.Round(doc, paths[k]).Thrown? {
      ThrownForGood(setup, start, paths, k + 1);
    }
  }

  /** The loop of `completionsForPath` over all paths: `doc` is not set back in between. */
  method CompletionsForPaths(setup: Setup, start: Place, paths: seq<string>) returns (rounds: Option<seq<Round>>)
    requires !start.Failed?
    ensures rounds.None? <==> setup.DocAfter(start, paths).None?
    ensures rounds.Some? ==> |rounds.value| == |paths| && RoundsAre(setup, start, paths, rounds.value)
  {
    var doc, done := start, [];
    for k := 0 to |paths|
      invariant !doc.Failed? && setup.DocAfter(start, paths[..k]) == Some(doc)
      invariant |done| == k && RoundsAre(setup, start, paths, done)
    {
      RoundMoves(setup, start, paths, k, doc);
      var round := CompletionsForRound(setup, doc, paths[k]);
      if round.Thrown? {
        return None;
      }
      RoundsPush(setup, start, paths, done, doc, round);
      done := done + [round];
      if round.Offered? {
        doc := round.end.doc;
      }
    }
    assert paths[..|paths|] == paths;
    rounds := Some(done);
  }

  // ----- Which paths are found -----

  lemma FollowedTo(root: Node, definitions: Definitions, start: Cursor, parts: seq<string>, loc: Location)
    ensures var end, def := Followed(root, definitions, start, parts), DefAt(definitions, start.def, KeysOf(parts));
            && (end.Some? && end.value.doc == At(loc) <==> Walk(root, start.doc, parts) == At(loc) && def.Some?)
            && (Walk(root, start.doc, parts) == At(loc) && def.Some? ==> end == Some(Cursor(At(loc), def.value)))
  {
  }

  /** With the schema taken into account, the walk along the printed path of a node below
      the root, from the root or any other tellable location, ends at that node if and only
      if its location is tellable, the path repeats itself, and the schema has a definition
      for the keys on the way; it then holds that definition. */
  lemma PathRoundTrip(root: Node, definitions: Definitions, l: Location, start: Def, loc: Location)
    requires Reached(root, At(l)) && NodeAt(root, loc).Some? && loc != Root
    ensures var end := Followed(root, definitions, Cursor(At(l), start), PartsTo(root, loc));
            var def := DefAt(definitions, start, KeysTo(root, loc));
            && (end.Some? && end.value.doc == At(loc)
                <==> Walkable(root, loc) && Repeats(root, l, loc) && def.Some?)
            && (end.Some? && end.value.doc == At(loc) ==> end.value.def == def.value)
  {
    WalkFromElsewhere(root, l, loc);
    WalkRoundTrip(root, loc);
    FollowedTo(root, definitions, Cursor(At(l), start), PartsTo(root, loc), loc);
  }

  /** The completions offered in a round are those of the node. */
  ghost predicate OffersAt(round: Round, loc: Location) {
    round.Offered? && round.end.doc == At(loc)
  }

  /** A definition is known for the kind where the walk stands, and it leads on along the
      keys to one that exists. */
  predicate Defined(setup: Setup, doc: Place, keys: seq<string>) {
    var def := setup.ObjectDef(doc);
    def.Known? &&
    var end := DefAt(setup.definitions, Object(def.definition), keys);
    end.Some? && !end.value.Undefined?
  }

  /** What is left of a round once the definition for the kind is known. */
  lemma KnownRound(setup: Setup, doc: Place, path: string, loc: Location)
    requires !Special(path) && setup.ObjectDef(doc).Known?
    ensures var start := Cursor(doc, Object(setup.ObjectDef(doc).definition));
            var end := Followed(setup.root, setup.definitions, start, Split(WithoutFirst(path), '.'));
            OffersAt(setup.Round(doc, path), loc)
            <==> end.Some? && end.value.doc == At(loc) && !end.value.def.Undefined?
  {
  }

  lemma RoundOffers(setup: Setup, l: Location, loc: Location)
    requires Reached(setup.root, At(l)) && NodeAt(setup.root, loc).Some? && loc != Root
    requires !Special(PathForNode(setup.root, loc)) && setup.ObjectDef(At(l)).Known?
    ensures OffersAt(setup.Round(At(l), PathForNode(setup.root, loc)), loc)
            <==> Walkable(setup.root, loc) && Repeats(setup.root, l, loc)
                 && Defined(setup, At(l), KeysTo(setup.root, loc))
  {
    var path, start := PathForNode(setup.root, loc), Object(setup.ObjectDef(At(l)).definition);
    KnownRound(setup, At(l), path, loc);
    PathRoundTrip(setup.root, setup.definitions, l, start, loc);
    assert Split(WithoutFirst(path), '.') == PartsTo(setup.root, loc);
  }

  lemma RoundReaches(setup: Setup, doc: Place, path: string)
    requires Reached(setup.root, doc)
    ensures var after := setup.Round(doc, path).Leaves(doc); after.Some? ==> Reached(setup.root, after.value)
  {
    WalkReaches(setup.root, doc, Split(WithoutFirst(path), '.'));
  }

  lemma {:induction false} DocReaches(setup: Setup, start: Place, paths: seq<string>)
    requires Reached(setup.root, start)
    ensures var doc := setup.DocAfter(start, paths); doc.Some? ==> Reached(setup.root, doc.value)
  {
    if paths == [] {
    } else {
      var last := |paths| - 1;
      DocReaches(setup, start, paths[..last]);
      var before := setup.DocAfter(start, paths[..last]);
      if before.Some? {
        RoundReaches(setup, before.value, paths[last]);
      }
    }
  }

  /** After any paths, the printed path of a node below the root gets the completions of that
      very node if and only if the walk stands on a node by then, with a kind whose
      definition leads on along the keys, the node's location is tellable, and the walk has
      not left the root or the path repeats itself. */
  lemma OfferedIff(setup: Setup, start: Place, paths: seq<string>, loc: Location)
    requires Reached(setup.root, start) && setup.DocAfter(start, paths).Some?
    requires NodeAt(setup.root, loc).Some? && loc != Root && !Special(PathForNode(setup.root, loc))
    ensures var doc := setup.DocAfter(start, paths).value;
            OffersAt(setup.Round(doc, PathForNode(setup.root, loc)), loc)
            <==> doc.At? && NodeAt(setup.root, doc.loc).Some? && Walkable(setup.root, loc)
                 && Repeats(setup.root, doc.loc, loc) && Defined(setup, doc, KeysTo(setup.root, loc))
  {
    DocReaches(setup, start, paths);
    var doc := setup.DocAfter(start, paths).value;
    if doc.At? && setup.ObjectDef(doc).Known? {
      RoundOffers(setup, doc.loc, loc);
    }
  }

  /** Once the walk stands where there is no known kind, every later path is passed over. */
  lemma {:induction false} PassedForGood(setup: Setup, doc: Place, paths: seq<string>)
    requires setup.ObjectDef(doc) == Unknown
    ensures setup.DocAfter(doc, paths) == Some(doc)
    ensures forall k :: 0 <= k < |paths| ==> setup.Round(doc, paths[k]) == Passed
  {
    if paths == [] {
    } else {
      PassedForGood(setup, doc, paths[..|paths| - 1]);
    }
  }

  /** The paths that leave the walk alone, by name. */
  lemma SpecialPassed(setup: Setup, doc: Place)
    ensures setup.Round(doc, ".") == setup.Round(doc, ".kind") == setup.Round(doc, ".apiVersion") == Passed
  {
  }

  lemma NotSpecial(key: string)
    requires key != "" && key != KIND && key != "apiVersion"
    ensures !Special("." + key)
  {
    assert ("." + key)[1..] == key && ".kind"[1..] == KIND && ".apiVersion"[1..] == "apiVersion";
  }

  lemma SecondField(root: Node, key: string, value: Node)
    requires key != "" && AllWord(key) && key != KIND
    requires root == Map([Mapping("kind", Some(Scalar("Pod"))), Mapping(key, Some(value))])
    ensures var loc := Under(Root, Field(1));
            && NodeAt(root, loc) == Some(value) && Walkable(root, loc)
            && PathForNode(root, loc) == "." + key && KeysTo(root, loc) == [key]
    ensures KindAt(root, At(Root)) == "Pod"
  {
    assert root.mappings[1..] == [root.mappings[1]];
    assert FindKey(root.mappings, KIND) == 0 && FindKey(root.mappings, key) == 1;
    var loc := Under(Root, Field(1));
    assert NodeAt(root, Root) == Some(root) && StepText(root, Field(1)) == "." + key;
    assert PathForNode(root, loc) == "" + ("." + key) == "." + key;
  }

  lemma TextDefined(definitions: Definitions, key: string)
    ensures var start := Object(Definition(Some(map[key := Property(Some("string"), None, None)])));
            DefAt(definitions, start, [key]) == Some(Named("string"))
  {
    var start := Object(Definition(Some(map[key := Property(Some("string"), None, None)])));
    assert [key][..0] == [];
    assert "string"[0] != "array"[0] && "string"[0] != DEFINITIONS[0];
    assert SubDef(definitions, start, key) == Some(Resolve(definitions, "string"));
  }

  /** The same path twice: the completions are offered for the first and not for the
      second, since the walk now stands on a node without a kind. */
  lemma SecondPathLost(key: string, definitions: Definitions)
    requires key != "" && AllWord(key) && key != KIND && key != "apiVersion"
    ensures var root := Map([Mapping("kind", Some(Scalar("Pod"))), Mapping(key, Some(Scalar("")))]);
            var definition := Definition(Some(map[key := Property(Some("string"), None, None)]));
            var setup, loc := Setup(root, definitions, kind => Known(definition)), Under(Root, Field(1));
            && OffersAt(setup.Round(At(Root), "." + key), loc)
            && setup.Round(At(loc), "." + key) == Passed
  {
    var root := Map([Mapping("kind", Some(Scalar("Pod"))), Mapping(key, Some(Scalar("")))]);
    var definition := Definition(Some(map[key := Property(Some("string"), None, None)]));
    var setup, loc := Setup(root, definitions, kind => Known(definition)), Under(Root, Field(1));
    SecondField(root, key, Scalar(""));
    NotSpecial(key);
    TextDefined(definitions, key);
    RoundOffers(setup, Root, loc);
    FromRoot(root, loc);
  }

  lemma FromRoot(root: Node, loc: Location)
    requires NodeAt(root, loc).Some?
    ensures Repeats(root, Root, loc)
  {
    assert PartsTo(root, Root) == [];
  }
}
