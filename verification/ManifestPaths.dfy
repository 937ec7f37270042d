/** The path that `YamlIndex` prints for a node, and the walk that
    `ManifestAutocompleter` takes along such a path. A node is identified by its location,
    so that two nodes that merely look alike stay apart. */
module ManifestPaths {
  import opened Stepping
  import opened Strings
  import opened Wrappers

  datatype Node = Map(mappings: seq<Mapping>) | Items(items: seq<Option<Node>>) | Scalar(text: string)
  datatype Mapping = Mapping(key: string, value: Option<Node>)

  /** From a map to the value of its i-th mapping, or from a sequence to its i-th item. */
  datatype Step = Field(i: nat) | Item(i: nat)

  /** A chain of `parent` links, up to the root of the document. */
  datatype Location = Root | Under(parent: Location, step: Step)

  function Child(node: Node, step: Step): Option<Node> {
    match step
    case Field(i) => if node.Map? && i < |node.mappings| then node.mappings[i].value else None
    case Item(i) => if node.Items? && i < |node.items| then node.items[i] else None
  }

  function NodeAt(root: Node, loc: Location): Option<Node> {
    match loc
    case Root => Some(root)
    case Under(parent, step) =>
      var above := NodeAt(root, parent);
      if above.None? then None else Child(above.value, step)
  }

  // ----- Decimal numbers -----

  predicate IsDigit(c: char) { '0' <= c <= '9' }

  function Decimal(n: nat): (s: string)
    ensures s != "" && forall c :: c in s ==> IsDigit(c)
  {
    var last := [('0' as int + n % 10) as char];
    if n < 10 then last else Decimal(n / 10) + last
  }

  function DigitValue(c: char): nat
    requires IsDigit(c)
  {
    c as int - '0' as int
  }

  function ParseInt(s: string): nat
    requires forall c :: c in s ==> IsDigit(c)
  {
    if s == "" then 0
    else
      var last := s[|s| - 1];
      assert last in s;
      ParseInt(s[..|s| - 1]) * 10 + DigitValue(last)
  }

  lemma {:induction false} ParseIntInverts(n: nat)
    ensures ParseInt(Decimal(n)) == n
  {
    var s := Decimal(n);
    if n < 10 {
      assert s[..0] == "";
    } else {
      ParseIntInverts(n / 10);
      assert s[..|s| - 1] == Decimal(n / 10);
    }
  }

  // ----- Printing -----

  /** What the step into a child adds to the path: `.key` or `[index]`. */
  function StepText(parent: Node, step: Step): string
    requires Child(parent, step).Some?
  {
    match step
    case Field(i) => "." + parent.mappings[i].key
    case Item(i) => "[" + Decimal(i) + "]"
  }

  function PathForNode(root: Node, loc: Location): string
    requires NodeAt(root, loc).Some?
  {
    match loc
    case Root => ""
    case Under(parent, step) => PathForNode(root, parent) + StepText(NodeAt(root, parent).value, step)
  }

  // ----- Reading a path -----

  predicate IsWord(c: char) {
    'a' <= c <= 'z' || 'A' <= c <= 'Z' || IsDigit(c) || c == '_'
  }

  /** `\w` by character codes. */
  lemma WordCodes(c: char)
    ensures var u := c as int;
            IsWord(c) <==> 48 <= u <= 57 || 65 <= u <= 90 || 97 <= u <= 122 || u == 95
  {
  }

  predicate AllWord(s: string) {
    forall c :: c in s ==> IsWord(c)
  }

  /** How far a run of characters reaches from the start of the text. */
  function Run(s: string, f: char -> bool): (n: nat)
    ensures n <= |s|
    ensures forall k :: 0 <= k < n ==> f(s[k])
    ensures n < |s| ==> !f(s[n])
  {
    if s == "" || !f(s[0]) then 0
    else
      var n := Run(s[1..], f);
      assert forall k :: 1 <= k <= n ==> s[k] == s[1..][k - 1];
      1 + n
  }

  lemma {:induction false} RunOf(run: string, rest: string, f: char -> bool)
    requires forall c :: c in run ==> f(c)
    requires rest == "" || !f(rest[0])
    ensures Run(run + rest, f) == |run|
  {
    if run != "" {
      RunOf(run[1..], rest, f);
      assert (run + rest)[1..] == run[1..] + rest;
    } else {
      assert run + rest == rest;
    }
  }

  /** A word, and the number in the square brackets behind it. */
  datatype Part = Part(name: string, arrayPos: Option<nat>)

  /** `[digits]` at the start of the text, already read by `parseInt`. */
  function Index(s: string): Option<nat> {
    if s == "" || s[0] != '[' then None
    else
      var n := Run(s[1..], IsDigit);
      if n > 0 && n + 1 < |s| && s[n + 1] == ']' then Some(ParseInt(s[1..][..n])) else None
  }

  /** The match of `(\w+)(?:\[(\d+)\]|\s*)`: the first word, and the digits in square
      brackets if they follow it. */
  function MatchPart(s: string): (p: Option<Part>)
    ensures p.Some? ==> p.value.name != "" && AllWord(p.value.name)
  {
    var skip := Run(s, c => !IsWord(c));
    var word := s[skip..];
    var n := Run(word, IsWord);
    if n == 0 then None else Some(Part(word[..n], Index(word[n..])))
  }

  lemma IndexPrinted(i: nat)
    ensures Index("[" + Decimal(i) + "]") == Some(i)
  {
    var digits := Decimal(i);
    var s := "[" + digits + "]";
    assert s[1..] == digits + "]";
    RunOf(digits, "]", IsDigit);
    ParseIntInverts(i);
    assert s[1..][..|digits|] == digits;
  }

  /** The text that a part is read from. */
  function PartText(p: Part): string {
    p.name + if p.arrayPos.Some? then "[" + Decimal(p.arrayPos.value) + "]" else ""
  }

  /** A part that reads back as it is written. */
  predicate Printed(text: string) {
    MatchPart(text).Some? && PartText(MatchPart(text).value) == text
  }

  /** A run of word characters is read back, with the index if one is behind it. */
  lemma MatchPrinted(key: string, index: string)
    requires key != "" && AllWord(key)
    requires index == "" || !IsWord(index[0])
    ensures MatchPart(key + index) == Some(Part(key, Index(index)))
  {
    var s := key + index;
    assert s[0] == key[0] && IsWord(s[0]);
    assert s[0..] == s;
    RunOf(key, index, IsWord);
    assert s[..|key|] == key && s[|key|..] == index;
  }

  /** The number in square brackets is read only if nothing but digits stands in them. */
  lemma IndexMeans(s: string)
    ensures Index(s).Some?
            <==> exists digits, rest :: digits != "" && (forall c :: c in digits ==> IsDigit(c))
                                        && s == "[" + digits + "]" + rest
  {
    if Index(s).Some? {
      var n := Run(s[1..], IsDigit);
      var digits, rest := s[1..][..n], s[n + 2..];
      assert forall c :: c in digits ==> IsDigit(c);
      assert s == "[" + digits + "]" + rest;
    }
    if digits, rest :| digits != "" && (forall c :: c in digits ==> IsDigit(c)) && s == "[" + digits + "]" + rest {
      IndexReads(digits, rest);
    }
  }

  lemma IndexReads(digits: string, rest: string)
    requires digits != "" && forall c :: c in digits ==> IsDigit(c)
    ensures Index("[" + digits + "]" + rest) == Some(ParseInt(digits))
  {
    var s := "[" + digits + "]" + rest;
    assert s[1..] == digits + ("]" + rest);
    RunOf(digits, "]" + rest, IsDigit);
    assert s[1..][..|digits|] == digits;
  }

  /** The last digit counts for itself, the others for ten times as much. */
  lemma ParseIntPush(digits: string, c: char)
    requires (forall d :: d in digits ==> IsDigit(d)) && IsDigit(c)
    ensures forall d :: d in digits + [c] ==> IsDigit(d)
    ensures ParseInt(digits + [c]) == 10 * ParseInt(digits) + (c as int - '0' as int)
    ensures ParseInt("") == 0
  {
    assert (digits + [c])[..|digits|] == digits;
  }

  /** The first word is read wherever it begins; without one there is no match. */
  lemma MatchAnywhere(skipped: string, word: string, rest: string)
    requires forall c :: c in skipped ==> !IsWord(c)
    requires word != "" && AllWord(word) && (rest == "" || !IsWord(rest[0]))
    ensures MatchPart(skipped + word + rest) == Some(Part(word, Index(rest)))
  {
    var s := skipped + word + rest;
    assert s == skipped + (word + rest);
    assert (word + rest)[0] == word[0] && word[0] in word;
    RunOf(skipped, word + rest, c => !IsWord(c));
    assert s[|skipped|..] == word + rest;
    RunOf(word, rest, IsWord);
    assert (word + rest)[..|word|] == word && (word + rest)[|word|..] == rest;
  }

  lemma NoWordNoMatch(s: string)
    requires forall c :: c in s ==> !IsWord(c)
    ensures MatchPart(s) == None
  {
    RunOf(s, "", c => !IsWord(c));
    assert s + "" == s;
  }

  // ----- Walking -----

  /** Where a walk stands: on a node, on nothing (`undefined` or `null`), or stopped by a
      `TypeError`. */
  datatype Place = At(loc: Location) | Nothing | Failed

  /** The first mapping with the key, or the number of mappings. */
  function FindKey(mappings: seq<Mapping>, key: string): (i: nat)
    ensures i <= |mappings|
    ensures i < |mappings| ==> mappings[i].key == key
    ensures forall j :: 0 <= j < i ==> mappings[j].key != key
  {
    if mappings == [] || mappings[0].key == key then 0 else 1 + FindKey(mappings[1..], key)
  }

  /** Into an item of the value found, if an index was given. */
  function IntoItem(field: Location, value: Node, arrayPos: Option<nat>): Place {
    if arrayPos.None? then At(field)
    else if !value.Items? then Failed
    else if Child(value, Item(arrayPos.value)).None? then Nothing
    else At(Under(field, Item(arrayPos.value)))
  }

  function SubAst(root: Node, place: Place, part: Part): Place {
    if !place.At? then place
    else
      match NodeAt(root, place.loc)
      case Some(Map(mappings)) =>
        var m := FindKey(mappings, part.name);
        if m == |mappings| || mappings[m].value.None? then Nothing
        else IntoItem(Under(place.loc, Field(m)), mappings[m].value.value, part.arrayPos)
      case _ => place
  }

  /** What a step from a map comes to: the value of the first mapping with the key, or the
      item of it with the index, if there is one; an index into anything but items throws. */
  lemma SubAstMeans(root: Node, p: Location, mappings: seq<Mapping>, i: nat, j: nat)
    requires NodeAt(root, p) == Some(Map(mappings)) && i < |mappings|
    requires forall k :: 0 <= k < i ==> mappings[k].key != mappings[i].key
    ensures var key, value, field := mappings[i].key, mappings[i].value, Under(p, Field(i));
            && NodeAt(root, field) == value
            && SubAst(root, At(p), Part(key, None)) == (if value == None then Nothing else At(field))
            && match value
               case None => SubAst(root, At(p), Part(key, Some(j))) == Nothing
               case Some(Items(items)) =>
                 if j < |items| && items[j] != None then
                   NodeAt(root, Under(field, Item(j))) == items[j]
                   && SubAst(root, At(p), Part(key, Some(j))) == At(Under(field, Item(j)))
                 else SubAst(root, At(p), Part(key, Some(j))) == Nothing
               case _ => SubAst(root, At(p), Part(key, Some(j))) == Failed
  {
    var m := FindKey(mappings, mappings[i].key);
    assert m == i;
  }

  lemma SubAstElsewhere(root: Node, p: Location, part: Part)
    requires NodeAt(root, p).Some?
    ensures SubAst(root, Nothing, part) == Nothing
    ensures !NodeAt(root, p).value.Map? ==> SubAst(root, At(p), part) == At(p)
    ensures NodeAt(root, p).value.Map? && (forall m :: m in NodeAt(root, p).value.mappings ==> m.key != part.name) ==>
              SubAst(root, At(p), part) == Nothing
  {
    if NodeAt(root, p).value.Map? {
      var mappings := NodeAt(root, p).value.mappings;
      var m := FindKey(mappings, part.name);
      assert m < |mappings| ==> mappings[m] in mappings;
    }
  }

  function WalkPart(root: Node, place: Place, text: string): Place {
    if place.Failed? || MatchPart(text).None? then Failed
    else SubAst(root, place, MatchPart(text).value)
  }

  /** Where the parts lead from a place. */
  function Walk(root: Node, from: Place, parts: seq<string>): Place {
    if parts == [] then from
    else WalkPart(root, Walk(root, from, parts[..|parts| - 1]), parts[|parts| - 1])
  }

  /** `substr(n)`. */
  function Substr(s: string, n: nat): string {
    if n <= |s| then s[n..] else ""
  }

  function WithoutFirst(s: string): string {
    Substr(s, 1)
  }

  /** The key in a part of a path. */
  function KeyOf(text: string): string {
    var part := MatchPart(text);
    if part.Some? then part.value.name else ""
  }

  function KeysOf(parts: seq<string>): (keys: seq<string>)
    ensures |keys| == |parts|
    ensures forall i :: 0 <= i < |parts| ==> keys[i] == KeyOf(parts[i])
  {
    seq(|parts|, i requires 0 <= i < |parts| => KeyOf(parts[i]))
  }

  lemma WalkNext(root: Node, from: Place, parts: seq<string>, i: nat)
    requires i < |parts|
    ensures Walk(root, from, parts[..i + 1]) == WalkPart(root, Walk(root, from, parts[..i]), parts[i])
  {
    var longer := parts[..i + 1];
    assert longer[..|longer| - 1] == parts[..i];
  }

  lemma KeysExtend(parts: seq<string>, text: string)
    ensures KeysOf(parts + [text]) == KeysOf(parts) + [KeyOf(text)]
  {
  }

  // ----- Which paths lead back -----

  /** The last step is one the path notation can tell: a field is the first mapping of its
      map with that key, and the key is a word; an item is an item of a field. */
  predicate Tellable(root: Node, parent: Location, step: Step)
    requires NodeAt(root, Under(parent, step)).Some?
  {
    match step
    case Item(_) => parent.Under? && parent.step.Field?
    case Field(i) =>
      var mappings := NodeAt(root, parent).value.mappings;
      var key := mappings[i].key;
      key != "" && AllWord(key) && FindKey(mappings, key) == i
  }

  predicate Walkable(root: Node, loc: Location)
    requires NodeAt(root, loc).Some?
  {
    match loc
    case Root => true
    case Under(parent, step) => Tellable(root, parent, step) && Walkable(root, parent)
  }

  /** Where walks stand. */
  predicate Reached(root: Node, place: Place) {
    place.At? ==> NodeAt(root, place.loc).Some? && Walkable(root, place.loc)
  }

  lemma SubAstReaches(root: Node, place: Place, part: Part)
    requires Reached(root, place)
    requires part.name != "" && AllWord(part.name)
    ensures Reached(root, SubAst(root, place, part))
  {
    if place.At? && NodeAt(root, place.loc).value.Map? {
      var mappings := NodeAt(root, place.loc).value.mappings;
      var m := FindKey(mappings, part.name);
      if m < |mappings| && mappings[m].value.Some? {
        var field := Under(place.loc, Field(m));
        assert NodeAt(root, field) == mappings[m].value;
        assert Tellable(root, place.loc, Field(m));
        assert Walkable(root, field);
      }
    }
  }

  /** Whatever the path, a walk only ever stands on tellable locations. */
  lemma {:induction false} WalkReaches(root: Node, from: Place, parts: seq<string>)
    requires Reached(root, from)
    ensures Reached(root, Walk(root, from, parts))
  {
    if parts == [] {
    } else {
      var before, text := Walk(root, from, parts[..|parts| - 1]), parts[|parts| - 1];
      WalkReaches(root, from, parts[..|parts| - 1]);
      if !before.Failed? && MatchPart(text).Some? {
        SubAstReaches(root, before, MatchPart(text).value);
      }
    }
  }

  // ----- Round trip -----

  /** The parts of a path as far as `loc`. */
  function PartsTo(root: Node, loc: Location): seq<string>
    requires NodeAt(root, loc).Some?
  {
    if loc == Root then [] else Split(WithoutFirst(PathForNode(root, loc)), '.')
  }

  /** The keys of the fields on the way to a node. */
  function KeysTo(root: Node, loc: Location): seq<string>
    requires NodeAt(root, loc).Some?
  {
    match loc
    case Root => []
    case Under(parent, Field(i)) => KeysTo(root, parent) + [NodeAt(root, parent).value.mappings[i].key]
    case Under(parent, Item(_)) => KeysTo(root, parent)
  }

  lemma {:induction false} WalkableStartsWithDot(root: Node, loc: Location)
    requires NodeAt(root, loc).Some? && loc != Root && Walkable(root, loc)
    ensures PathForNode(root, loc) != "" && PathForNode(root, loc)[0] == '.'
  {
    if loc.parent == Root {
    } else {
      WalkableStartsWithDot(root, loc.parent);
    }
  }

  lemma SplitPath(path: string, text: string)
    requires '.' !in text
    ensures Split(WithoutFirst(path + "." + text), '.')
            == (if path == "" then [] else Split(WithoutFirst(path), '.')) + [text]
  {
    var longer := path + "." + text;
    if path == "" {
      assert longer[1..] == text;
      SplitWhole(text, '.');
    } else {
      assert longer[1..] == path[1..] + "." + text;
      SplitLast(path[1..], text, '.');
    }
  }

  /** One more field, with or without an index, is one more part. */
  lemma PartsExtend(root: Node, loc: Location, text: string, target: Location)
    requires NodeAt(root, loc).Some? && Walkable(root, loc)
    requires NodeAt(root, target).Some? && target != Root
    requires PathForNode(root, target) == PathForNode(root, loc) + "." + text
    requires '.' !in text
    ensures PartsTo(root, target) == PartsTo(root, loc) + [text]
  {
    if loc != Root {
      WalkableStartsWithDot(root, loc);
    }
    SplitPath(PathForNode(root, loc), text);
  }

  lemma WalkOneMore(root: Node, from: Place, parts: seq<string>, text: string, part: Part)
    requires !Walk(root, from, parts).Failed? && MatchPart(text) == Some(part)
    ensures Walk(root, from, parts + [text]) == SubAst(root, Walk(root, from, parts), part)
  {
    var longer := parts + [text];
    assert longer[..|longer| - 1] == parts;
  }

  /** What `SubAst` makes of the key of a tellable field. */
  lemma FieldFound(root: Node, loc: Location, i: nat, arrayPos: Option<nat>)
    requires NodeAt(root, Under(loc, Field(i))).Some? && Tellable(root, loc, Field(i))
    ensures var mapping := NodeAt(root, loc).value.mappings[i];
            SubAst(root, At(loc), Part(mapping.key, arrayPos))
            == IntoItem(Under(loc, Field(i)), mapping.value.value, arrayPos)
  {
  }

  /** The part that a tellable field prints, alone or with an item behind it. */
  lemma FieldRead(root: Node, loc: Location, i: nat, index: string)
    requires NodeAt(root, Under(loc, Field(i))).Some? && Tellable(root, loc, Field(i))
    requires index == "" || index[0] == '['
    requires '.' !in index
    ensures var key := NodeAt(root, loc).value.mappings[i].key;
            && '.' !in key + index
            && MatchPart(key + index) == Some(Part(key, Index(index)))
  {
    MatchPrinted(NodeAt(root, loc).value.mappings[i].key, index);
    assert !IsWord('.');
  }

  /** The path of a field, and of an item behind it, is the path above, a dot, and one
      part of text. */
  lemma FieldPath(root: Node, loc: Location, i: nat)
    requires NodeAt(root, Under(loc, Field(i))).Some?
    ensures PathForNode(root, Under(loc, Field(i)))
            == PathForNode(root, loc) + "." + (NodeAt(root, loc).value.mappings[i].key + "")
  {
    Join(PathForNode(root, loc), NodeAt(root, loc).value.mappings[i].key, "");
  }

  lemma ItemPath(root: Node, loc: Location, i: nat, j: nat)
    requires NodeAt(root, Under(loc, Field(i))).Some?
    requires NodeAt(root, Under(Under(loc, Field(i)), Item(j))).Some?
    ensures PathForNode(root, Under(Under(loc, Field(i)), Item(j)))
            == PathForNode(root, loc) + "." + (NodeAt(root, loc).value.mappings[i].key + ("[" + Decimal(j) + "]"))
  {
    Join(PathForNode(root, loc), NodeAt(root, loc).value.mappings[i].key, "[" + Decimal(j) + "]");
  }

  lemma Join(above: string, key: string, index: string)
    ensures above + "." + (key + index) == (above + ("." + key)) + index
    ensures above + ("." + key) + "" == above + ("." + key)
  {
  }

  /** The part of the path behind `loc` and what is read from it. */
  lemma PartOfField(root: Node, loc: Location, i: nat, index: string, target: Location)
    requires NodeAt(root, target).Some? && target != Root
    requires NodeAt(root, Under(loc, Field(i))).Some? && Walkable(root, Under(loc, Field(i)))
    requires index == "" || index[0] == '['
    requires '.' !in index
    requires PathForNode(root, target)
             == PathForNode(root, loc) + "." + (NodeAt(root, loc).value.mappings[i].key + index)
    ensures var key := NodeAt(root, loc).value.mappings[i].key;
            && PartsTo(root, target) == PartsTo(root, loc) + [key + index]
            && MatchPart(key + index) == Some(Part(key, Index(index)))
  {
    FieldRead(root, loc, i, index);
    PartsExtend(root, loc, NodeAt(root, loc).value.mappings[i].key + index, target);
  }

  /** One more part of the path is one more step of the walk, and one more key. */
  lemma WalkFieldPart(root: Node, loc: Location, i: nat, index: string, target: Location)
    requires NodeAt(root, target).Some? && target != Root
    requires NodeAt(root, Under(loc, Field(i))).Some? && Walkable(root, Under(loc, Field(i)))
    requires index == "" || index[0] == '['
    requires '.' !in index
    requires var mapping := NodeAt(root, loc).value.mappings[i];
             && At(target) == IntoItem(Under(loc, Field(i)), mapping.value.value, Index(index))
             && PathForNode(root, target) == PathForNode(root, loc) + "." + (mapping.key + index)
    requires Walk(root, At(Root), PartsTo(root, loc)) == At(loc)
    ensures Walk(root, At(Root), PartsTo(root, target)) == At(target)
    ensures KeysOf(PartsTo(root, target)) == KeysOf(PartsTo(root, loc)) + [NodeAt(root, loc).value.mappings[i].key]
  {
    var key := NodeAt(root, loc).value.mappings[i].key;
    PartOfField(root, loc, i, index, target);
    FieldFound(root, loc, i, Index(index));
    WalkOneMore(root, At(Root), PartsTo(root, loc), key + index, Part(key, Index(index)));
    KeysExtend(PartsTo(root, loc), key + index);
  }

  lemma IndexUndotted(j: nat)
    ensures '.' !in "[" + Decimal(j) + "]"
  {
    assert !IsDigit('.');
  }

  ghost predicate Walks(root: Node, loc: Location)
    requires NodeAt(root, loc).Some?
  {
    && Walk(root, At(Root), PartsTo(root, loc)) == At(loc)
    && KeysOf(PartsTo(root, loc)) == KeysTo(root, loc)
  }

  lemma FieldWalks(root: Node, parent: Location, i: nat)
    requires NodeAt(root, Under(parent, Field(i))).Some? && Walkable(root, Under(parent, Field(i)))
    requires Walks(root, parent)
    ensures Walks(root, Under(parent, Field(i)))
  {
    FieldPath(root, parent, i);
    WalkFieldPart(root, parent, i, "", Under(parent, Field(i)));
  }

  lemma ItemWalks(root: Node, above: Location, i: nat, j: nat)
    requires NodeAt(root, Under(above, Field(i))).Some? && Walkable(root, Under(above, Field(i)))
    requires NodeAt(root, Under(Under(above, Field(i)), Item(j))).Some?
    requires Walks(root, above)
    ensures Walks(root, Under(Under(above, Field(i)), Item(j)))
  {
    ItemPath(root, above, i, j);
    IndexPrinted(j);
    IndexUndotted(j);
    WalkFieldPart(root, above, i, "[" + Decimal(j) + "]", Under(Under(above, Field(i)), Item(j)));
  }

  lemma {:induction false} WalkableWalks(root: Node, loc: Location)
    requires NodeAt(root, loc).Some? && Walkable(root, loc)
    ensures Walk(root, At(Root), PartsTo(root, loc)) == At(loc)
    ensures KeysOf(PartsTo(root, loc)) == KeysTo(root, loc)
  {
    match loc {
      case Root =>
      case Under(parent, Field(i)) =>
        WalkableWalks(root, parent);
        FieldWalks(root, parent, i);
      case Under(Under(above, Field(i)), Item(j)) =>
        WalkableWalks(root, above);
        ItemWalks(root, above, i, j);
    }
  }

  predicate AllPrinted(parts: seq<string>) {
    forall i :: 0 <= i < |parts| ==> Printed(parts[i])
  }

  lemma PrintedPush(parts: seq<string>, text: string, part: Part)
    requires AllPrinted(parts) && MatchPart(text) == Some(part) && PartText(part) == text
    ensures AllPrinted(parts + [text])
  {
  }

  lemma FieldPrinted(root: Node, parent: Location, i: nat)
    requires NodeAt(root, Under(parent, Field(i))).Some? && Walkable(root, Under(parent, Field(i)))
    requires AllPrinted(PartsTo(root, parent))
    ensures AllPrinted(PartsTo(root, Under(parent, Field(i))))
  {
    var key := NodeAt(root, parent).value.mappings[i].key;
    FieldPath(root, parent, i);
    PartOfField(root, parent, i, "", Under(parent, Field(i)));
    PrintedPush(PartsTo(root, parent), key + "", Part(key, None));
  }

  lemma ItemPrinted(root: Node, above: Location, i: nat, j: nat)
    requires NodeAt(root, Under(above, Field(i))).Some? && Walkable(root, Under(above, Field(i)))
    requires NodeAt(root, Under(Under(above, Field(i)), Item(j))).Some?
    requires AllPrinted(PartsTo(root, above))
    ensures AllPrinted(PartsTo(root, Under(Under(above, Field(i)), Item(j))))
  {
    var key, index := NodeAt(root, above).value.mappings[i].key, "[" + Decimal(j) + "]";
    ItemPath(root, above, i, j);
    IndexPrinted(j);
    IndexUndotted(j);
    PartOfField(root, above, i, index, Under(Under(above, Field(i)), Item(j)));
    PrintedPush(PartsTo(root, above), key + index, Part(key, Some(j)));
  }

  lemma {:induction false} WalkablePrinted(root: Node, loc: Location)
    requires NodeAt(root, loc).Some? && Walkable(root, loc)
    ensures AllPrinted(PartsTo(root, loc))
  {
    match loc {
      case Root =>
      case Under(parent, Field(i)) =>
        WalkablePrinted(root, parent);
        FieldPrinted(root, parent, i);
      case Under(Under(above, Field(i)), Item(j)) =>
        WalkablePrinted(root, above);
        ItemPrinted(root, above, i, j);
    }
  }

  /** Paths are faithful exactly where they are tellable: the walk along the path of a
      node below the root ends at that very node if and only if every field on the way is
      the first of its map with its key, that key is a word, and every item is an item of
      a field. */
  lemma WalkRoundTrip(root: Node, loc: Location)
    requires NodeAt(root, loc).Some? && loc != Root
    ensures Walk(root, At(Root), PartsTo(root, loc)) == At(loc) <==> Walkable(root, loc)
    ensures Walkable(root, loc) ==> KeysOf(PartsTo(root, loc)) == KeysTo(root, loc)
  {
    WalkReaches(root, At(Root), PartsTo(root, loc));
    if Walkable(root, loc) {
      WalkableWalks(root, loc);
    }
  }

  // ----- Walking on from another place -----

  /** The field that a part leads to, and the text of the part. */
  lemma MovesToField(root: Node, p: Location, i: nat, text: string, part: Part)
    requires NodeAt(root, Under(p, Field(i))).Some? && Walkable(root, Under(p, Field(i)))
    requires part.name == NodeAt(root, p).value.mappings[i].key && part.arrayPos.None? && text == PartText(part)
    ensures PartsTo(root, Under(p, Field(i))) == PartsTo(root, p) + [text]
  {
    FieldPath(root, p, i);
    PartOfField(root, p, i, "", Under(p, Field(i)));
    assert part.name + "" == text;
  }

  lemma MovesToItem(root: Node, p: Location, i: nat, j: nat, text: string, part: Part)
    requires NodeAt(root, Under(p, Field(i))).Some? && Walkable(root, Under(p, Field(i)))
    requires NodeAt(root, Under(Under(p, Field(i)), Item(j))).Some?
    requires part.name == NodeAt(root, p).value.mappings[i].key && part.arrayPos == Some(j) && text == PartText(part)
    ensures PartsTo(root, Under(Under(p, Field(i)), Item(j))) == PartsTo(root, p) + [text]
  {
    ItemPath(root, p, i, j);
    IndexUndotted(j);
    PartOfField(root, p, i, "[" + Decimal(j) + "]", Under(Under(p, Field(i)), Item(j)));
  }

  /** Where a part leads on from a map. */
  lemma SubAstMoves(root: Node, p: Location, part: Part, q: Location)
    requires NodeAt(root, p).Some? && NodeAt(root, p).value.Map? && SubAst(root, At(p), part) == At(q)
    ensures var i := FindKey(NodeAt(root, p).value.mappings, part.name);
            && NodeAt(root, Under(p, Field(i))).Some? && NodeAt(root, p).value.mappings[i].key == part.name
            && if part.arrayPos.None? then q == Under(p, Field(i))
               else q == Under(Under(p, Field(i)), Item(part.arrayPos.value)) && NodeAt(root, q).Some?
  {
  }

  /** A step from a map adds its part to the path. */
  lemma MovesByPart(root: Node, p: Location, text: string, q: Location)
    requires Reached(root, At(p)) && NodeAt(root, p).value.Map? && Printed(text)
    requires WalkPart(root, At(p), text) == At(q)
    ensures NodeAt(root, q).Some? && PartsTo(root, q) == PartsTo(root, p) + [text]
  {
    var part := MatchPart(text).value;
    var i := FindKey(NodeAt(root, p).value.mappings, part.name);
    SubAstMoves(root, p, part, q);
    SubAstReaches(root, At(p), Part(part.name, None));
    if part.arrayPos.None? {
      MovesToField(root, p, i, text, part);
    } else {
      MovesToItem(root, p, i, part.arrayPos.value, text, part);
    }
  }

  /** The path of a place on a node. */
  function PathTo(root: Node, place: Place): seq<string> {
    if place.At? && NodeAt(root, place.loc).Some? then PartsTo(root, place.loc) else []
  }

  predicate OnMap(root: Node, place: Place) {
    place.At? && NodeAt(root, place.loc).Some? && NodeAt(root, place.loc).value.Map?
  }

  function StepsOf(root: Node): Steps<Place, string> {
    Steps(
      (place: Place, text: string) => WalkPart(root, place, text),
      (place: Place) => PathTo(root, place),
      (place: Place) => place.At?,
      (place: Place) => OnMap(root, place))
  }

  function InReach(root: Node): Place -> bool {
    place => Reached(root, place)
  }

  lemma {:induction false} WalkIsFold(root: Node, from: Place, parts: seq<string>)
    ensures Walk(root, from, parts) == Fold(StepsOf(root).step, from, parts)
  {
    if parts == [] {
    } else {
      WalkIsFold(root, from, parts[..|parts| - 1]);
    }
  }

  lemma PartLeads(root: Node, place: Place, text: string)
    requires Reached(root, place) && Printed(text)
    ensures Reached(root, WalkPart(root, place, text))
    ensures WalkPart(root, place, text).At? ==>
              if OnMap(root, place) then PathTo(root, WalkPart(root, place, text)) == PathTo(root, place) + [text]
              else WalkPart(root, place, text) == place
  {
    if !place.Failed? {
      SubAstReaches(root, place, MatchPart(text).value);
    }
    if WalkPart(root, place, text).At? && OnMap(root, place) {
      MovesByPart(root, place.loc, text, WalkPart(root, place, text).loc);
    }
  }

  lemma PartsLead(root: Node)
    ensures Leads(StepsOf(root), InReach(root), Printed)
  {
    forall place, text | Reached(root, place) && Printed(text)
      ensures Reached(root, WalkPart(root, place, text))
      ensures WalkPart(root, place, text).At? ==>
                if OnMap(root, place) then PathTo(root, WalkPart(root, place, text)) == PathTo(root, place) + [text]
                else WalkPart(root, place, text) == place
    {
      PartLeads(root, place, text);
    }
  }

  /** The path of `loc` goes on behind that of `l` as it began, and ends on a node on which
      a walk stays; for the root there is nothing to ask. */
  predicate Repeats(root: Node, l: Location, loc: Location)
    requires NodeAt(root, l).Some? && NodeAt(root, loc).Some?
  {
    Repeated(PartsTo(root, l), PartsTo(root, loc)) && (l == Root || !NodeAt(root, loc).value.Map?)
  }

  lemma PathReturns(root: Node, loc: Location)
    requires Reached(root, At(loc))
    ensures Returns(StepsOf(root), At(Root), At(loc)) && AllKnown(PartsTo(root, loc), Printed)
  {
    WalkableWalks(root, loc);
    WalkIsFold(root, At(Root), PartsTo(root, loc));
    WalkablePrinted(root, loc);
  }

  lemma StaysOn(root: Node, loc: Location)
    requires NodeAt(root, loc).Some? && !NodeAt(root, loc).value.Map?
    ensures forall text :: Printed(text) ==> WalkPart(root, At(loc), text) == At(loc)
  {
  }

  lemma FoldReturns(root: Node, l: Location, loc: Location)
    requires Reached(root, At(l)) && Reached(root, At(loc))
    requires Returns(StepsOf(root), At(Root), At(l)) && Returns(StepsOf(root), At(Root), At(loc))
    requires AllKnown(PathTo(root, At(loc)), Printed)
    ensures Fold(StepsOf(root).step, At(l), PathTo(root, At(loc))) == At(loc)
            <==> Repeated(PathTo(root, At(l)), PathTo(root, At(loc)))
                 && (PathTo(root, At(l)) == [] || !OnMap(root, At(loc)))
  {
    PartsLead(root);
    if !OnMap(root, At(loc)) {
      StaysOn(root, loc);
    }
    ReturnsFrom(StepsOf(root), InReach(root), Printed, At(Root), At(l), At(loc));
  }

  lemma WalkReturns(root: Node, l: Location, loc: Location)
    requires Reached(root, At(l)) && Reached(root, At(loc))
    ensures Walk(root, At(l), PartsTo(root, loc)) == At(loc) <==> Repeats(root, l, loc)
  {
    PathReturns(root, l);
    PathReturns(root, loc);
    FoldReturns(root, l, loc);
    WalkIsFold(root, At(l), PartsTo(root, loc));
  }

  /** A walk along the path of a node that starts at another tellable location ends at the
      node if and only if it would from the root and the path repeats itself. */
  lemma WalkFromElsewhere(root: Node, l: Location, loc: Location)
    requires Reached(root, At(l)) && NodeAt(root, loc).Some?
    ensures Walk(root, At(l), PartsTo(root, loc)) == At(loc) <==> Walkable(root, loc) && Repeats(root, l, loc)
  {
    WalkReaches(root, At(l), PartsTo(root, loc));
    if Walkable(root, loc) {
      WalkReturns(root, l, loc);
    }
  }

  // ----- Keys that are no words -----

  lemma FirstWordRead(word: string, rest: string)
    requires word != "" && AllWord(word) && rest != "" && !IsWord(rest[0]) && rest[0] != '['
    ensures MatchPart(word + rest) == Some(Part(word, None))
  {
    MatchPrinted(word, rest);
  }

  /** Only the first word of a key is looked up. */
  lemma KeyCutShort(root: Node, word: string, rest: string)
    requires word != "" && AllWord(word) && rest != "" && !IsWord(rest[0]) && rest[0] != '['
    requires root == Map([Mapping(word + rest, Some(Scalar("")))])
    ensures Walk(root, At(Root), [word + rest]) == Nothing
  {
    var key := word + rest;
    FirstWordRead(word, rest);
    assert [key][..|[key]| - 1] == [];
    assert Walk(root, At(Root), [key]) == WalkPart(root, At(Root), key);
    assert |key| > |word|;
    assert FindKey(root.mappings, word) == 1 by {
      assert root.mappings[1..] == [];
    }
  }

  lemma OnlyField(root: Node, key: string)
    requires root == Map([Mapping(key, Some(Scalar("")))]) && '.' !in key
    ensures NodeAt(root, Under(Root, Field(0))).Some? && PartsTo(root, Under(Root, Field(0))) == [key]
  {
    var path := "." + key;
    assert NodeAt(root, Root) == Some(root) && StepText(root, Field(0)) == path;
    assert PathForNode(root, Under(Root, Field(0))) == "" + path == path;
    assert path[1..] == key;
    SplitWhole(key, '.');
  }

  /** So a field whose key holds a dash is not found again. */
  lemma DashedKey()
    ensures var root, loc := Map([Mapping("a-b", Some(Scalar("")))]), Under(Root, Field(0));
            NodeAt(root, loc).Some? && Walk(root, At(Root), PartsTo(root, loc)) == Nothing
  {
    var key := "a" + "-b";
    assert key == "a-b";
    var root := Map([Mapping(key, Some(Scalar("")))]);
    OnlyField(root, key);
    KeyCutShort(root, "a", "-b");
  }
}
