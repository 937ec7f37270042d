/** Splitting text at a separator, as `split` and `join` do. */
module Strings {

  function Split(s: string, sep: char): (parts: seq<string>)
    ensures parts != []
  {
    if s == "" then [""]
    else
      var rest := Split(s[1..], sep);
      if s[0] == sep then [""] + rest else [[s[0]] + rest[0]] + rest[1..]
  }

  function Join(parts: seq<string>, sep: char): string
    requires parts != []
  {
    if |parts| == 1 then parts[0] else parts[0] + [sep] + Join(parts[1..], sep)
  }

  lemma {:induction false} SplitWhole(part: string, sep: char)
    requires sep !in part
    ensures Split(part, sep) == [part]
  {
    if part == "" {
    } else {
      assert part[0] in part;
      SplitWhole(part[1..], sep);
      assert [part[0]] + part[1..] == part;
    }
  }

  lemma {:induction false} SplitFirst(part: string, s: string, sep: char)
    requires sep !in part
    ensures Split(part + [sep] + s, sep) == [part] + Split(s, sep)
  {
    var whole := part + [sep] + s;
    if part == "" {
      assert whole[1..] == s;
    } else {
      assert part[0] in part;
      SplitFirst(part[1..], s, sep);
      assert whole[1..] == part[1..] + [sep] + s;
      assert [part[0]] + part[1..] == part;
    }
  }

  lemma {:induction false} SplitLast(s: string, part: string, sep: char)
    requires sep !in part
    ensures Split(s + [sep] + part, sep) == Split(s, sep) + [part]
  {
    var whole := s + [sep] + part;
    if s == "" {
      SplitWhole(part, sep);
      assert whole[1..] == part;
    } else {
      SplitLast(s[1..], part, sep);
      assert whole[1..] == s[1..] + [sep] + part;
    }
  }

  lemma JoinCons(first: string, rest: seq<string>, sep: char)
    requires rest != []
    ensures Join([first] + rest, sep) == first + [sep] + Join(rest, sep)
  {
    assert ([first] + rest)[1..] == rest;
  }

  lemma JoinLonger(c: char, parts: seq<string>, sep: char)
    requires parts != []
    ensures Join([[c] + parts[0]] + parts[1..], sep) == [c] + Join(parts, sep)
  {
    if |parts| > 1 {
      JoinCons([c] + parts[0], parts[1..], sep);
    }
  }

  lemma {:induction false} PartsHoldNoSeparator(s: string, sep: char)
    ensures forall part :: part in Split(s, sep) ==> sep !in part
  {
    if s == "" {
    } else {
      var rest := Split(s[1..], sep);
      PartsHoldNoSeparator(s[1..], sep);
      assert rest[0] in rest;
      assert forall part :: part in rest[1..] ==> part in rest;
    }
  }

  /** Joining undoes splitting. */
  lemma {:induction false} JoinSplit(s: string, sep: char)
    ensures Join(Split(s, sep), sep) == s
  {
    if s == "" {
    } else {
      var rest := Split(s[1..], sep);
      JoinSplit(s[1..], sep);
      if s[0] == sep {
        JoinCons("", rest, sep);
      } else {
        JoinLonger(s[0], rest, sep);
      }
    }
  }

  /** Splitting undoes joining exactly when no part holds the separator. */
  lemma SplitJoin(parts: seq<string>, sep: char)
    requires parts != []
    ensures Split(Join(parts, sep), sep) == parts <==> forall part :: part in parts ==> sep !in part
  {
    PartsHoldNoSeparator(Join(parts, sep), sep);
    if forall part :: part in parts ==> sep !in part {
      SplitJoined(parts, sep);
    }
  }

  lemma {:induction false} SplitJoined(parts: seq<string>, sep: char)
    requires parts != []
    requires forall part :: part in parts ==> sep !in part
    ensures Split(Join(parts, sep), sep) == parts
  {
    assert parts[0] in parts;
    if |parts| == 1 {
      SplitWhole(parts[0], sep);
    } else {
      var rest := parts[1..];
      assert forall part :: part in rest ==> part in parts;
      SplitJoined(rest, sep);
      SplitFirst(parts[0], Join(rest, sep), sep);
    }
  }
}
