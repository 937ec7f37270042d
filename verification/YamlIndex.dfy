/** The row table of `YamlIndex` and the search that turns a position into a row and a
    column. */
module YamlIndex {
  import opened Strings
  import opened Wrappers

  const NEWLINE: char := '\n'

  // ----- Lines -----

  /** `contents.split(/\n/g, -1)`. */
  function Lines(contents: string): (lines: seq<string>)
    ensures lines != []
  {
    Split(contents, NEWLINE)
  }

  /** The position of the first character of a row: every row above takes its length and
      the newline. */
  function Start(lines: seq<string>, row: nat): nat
    requires row <= |lines|
  {
    if row == 0 then 0 else Start(lines, row - 1) + |lines[row - 1]| + 1
  }

  lemma {:induction false} StartsGrow(lines: seq<string>, i: nat, j: nat)
    requires i < j <= |lines|
    ensures Start(lines, i) + |lines[i]| < Start(lines, j)
    decreases j
  {
    if i >= j - 1 {
    } else {
      StartsGrow(lines, i, j - 1);
    }
  }

  lemma {:induction false} StartShifts(first: string, rest: seq<string>, row: nat)
    requires row <= |rest|
    ensures Start([first] + rest, row + 1) == |first| + 1 + Start(rest, row)
  {
    if row == 0 {
    } else {
      StartShifts(first, rest, row - 1);
      assert ([first] + rest)[row] == rest[row - 1];
    }
  }

  lemma {:induction false} StartLengthens(c: char, lines: seq<string>, row: nat)
    requires lines != [] && 0 < row <= |lines|
    ensures Start([[c] + lines[0]] + lines[1..], row) == Start(lines, row) + 1
  {
    if row <= 1 {
    } else {
      StartLengthens(c, lines, row - 1);
    }
  }

  /** Column `col` of row `row` is position `pos`. */
  predicate Locates(lines: seq<string>, pos: int, row: nat, col: nat) {
    row < |lines| && col <= |lines[row]| && Start(lines, row) + col == pos
  }

  lemma LocatesAtMostOnce(lines: seq<string>, pos: int, row: nat, col: nat, row': nat, col': nat)
    requires Locates(lines, pos, row, col) && Locates(lines, pos, row', col')
    ensures row == row' && col == col'
  {
    if row < row' {
      StartsGrow(lines, row, row');
    } else if row' < row {
      StartsGrow(lines, row', row);
    }
  }

  /** What stands at a row and column stands at its position in the text: the same
      character inside a line; behind a line a newline, or the end of the text. */
  ghost predicate SameText(contents: string, lines: seq<string>, pos: int, row: nat, col: nat)
    requires Locates(lines, pos, row, col)
  {
    && pos <= |contents|
    && (col < |lines[row]| ==> pos < |contents| && contents[pos] == lines[row][col] != NEWLINE)
    && (col == |lines[row]| && row < |lines| - 1 ==> pos < |contents| && contents[pos] == NEWLINE)
    && (col == |lines[row]| && row == |lines| - 1 ==> pos == |contents|)
  }

  lemma {:induction false} LocatedText(contents: string, pos: int, row: nat, col: nat)
    requires Locates(Lines(contents), pos, row, col)
    ensures SameText(contents, Lines(contents), pos, row, col)
  {
    if contents == "" {
    } else {
      var text, rest := contents[1..], Lines(contents[1..]);
      var lines := Lines(contents);
      if contents[0] == NEWLINE {
        if row > 0 {
          StartShifts("", rest, row - 1);
          LocatedText(text, pos - 1, row - 1, col);
        }
      } else if row > 0 {
        StartLengthens(contents[0], rest, row);
        LocatedText(text, pos - 1, row, col);
      } else if col > 0 {
        LocatedText(text, pos - 1, 0, col - 1);
      }
    }
  }

  /** Every position of the text, its end included, has a row and a column. */
  lemma {:induction false} LocatesSomewhere(contents: string, pos: nat) returns (row: nat, col: nat)
    requires pos <= |contents|
    ensures Locates(Lines(contents), pos, row, col)
  {
    if pos == 0 {
      row, col := 0, 0;
    } else {
      var rest := Lines(contents[1..]);
      row, col := LocatesSomewhere(contents[1..], pos - 1);
      if contents[0] == NEWLINE {
        StartShifts("", rest, row);
        row := row + 1;
      } else if row > 0 {
        StartLengthens(contents[0], rest, row);
      } else {
        col := col + 1;
      }
    }
  }

  /** The table ends one past the text. */
  lemma {:induction false} StartOfEnd(contents: string)
    ensures Start(Lines(contents), |Lines(contents)|) == |contents| + 1
  {
    if contents == "" {
    } else {
      var rest := Lines(contents[1..]);
      StartOfEnd(contents[1..]);
      if contents[0] == NEWLINE {
        StartShifts("", rest, |rest|);
      } else {
        StartLengthens(contents[0], rest, |rest|);
      }
    }
  }

  // ----- The table and the search -----

  /** The first `rows` rows of the table, each with its start and its length. */
  ghost predicate TableOf(table: seq<(nat, nat)>, lines: seq<string>, rows: nat) {
    && |table| == rows <= |lines|
    && forall row :: 0 <= row < rows ==> table[row] == (Start(lines, row), |lines[row]|)
  }

  lemma TableGrows(table: seq<(nat, nat)>, lines: seq<string>, rows: nat)
    requires TableOf(table, lines, rows) && rows < |lines|
    ensures TableOf(table + [(Start(lines, rows), |lines[rows]|)], lines, rows + 1)
  {
  }

  /** The rows before `min` end before the position, the rows behind `max` start after it. */
  ghost predicate Between(table: seq<(nat, nat)>, position: int, min: int, max: int) {
    && 0 <= min <= max + 1 <= |table|
    && (min > 0 ==> position > table[min - 1].0 + table[min - 1].1)
    && (max < |table| - 1 ==> position < table[max + 1].0)
  }

  /** What `positionToRowCol` answers. */
  ghost predicate Answers(contents: string, position: int, found: Option<(nat, nat)>) {
    var lines := Lines(contents);
    && (position < 0 ==> found == None)
    && (0 <= position <= |contents| ==>
          && found.Some?
          && Locates(lines, position, found.value.0, found.value.1)
          && SameText(contents, lines, position, found.value.0, found.value.1))
    && (position > |contents| ==> found == Some((|lines| - 1, |lines[|lines| - 1]|)))
  }

  lemma HitAnswers(contents: string, row: nat, position: int)
    requires row < |Lines(contents)|
    requires Start(Lines(contents), row) <= position <= Start(Lines(contents), row) + |Lines(contents)[row]|
    ensures Answers(contents, position, Some((row, position - Start(Lines(contents), row))))
  {
    LocatedText(contents, position, row, position - Start(Lines(contents), row));
  }

  lemma LastRowEnds(lines: seq<string>, end: int)
    requires lines != [] && Start(lines, |lines|) == end + 1
    ensures Start(lines, |lines| - 1) + |lines[|lines| - 1]| == end
  {
  }

  lemma NeighborsTouch(lines: seq<string>, table: seq<(nat, nat)>, row: int)
    requires lines != [] && TableOf(table, lines, |lines|)
    ensures table[0].0 == 0
    ensures 0 < row < |lines| ==> table[row].0 == table[row - 1].0 + table[row - 1].1 + 1
  {
    assert table[0].0 == Start(lines, 0);
    if 0 < row < |lines| {
      assert table[row].0 == Start(lines, row) == Start(lines, row - 1) + |lines[row - 1]| + 1;
    }
  }

  /** Neighbouring rows leave no position between them, so a search that comes to nothing
      was for a position outside the text. */
  lemma NothingBetween(lines: seq<string>, table: seq<(nat, nat)>, position: int, min: int)
    requires lines != [] && TableOf(table, lines, |lines|)
    requires Between(table, position, min, min - 1)
    ensures position < 0 || position > table[|lines| - 1].0 + table[|lines| - 1].1
  {
    NeighborsTouch(lines, table, min);
  }

  class Index {
    var contents: string
    var lines: seq<string>
    var posToRow: seq<(nat, nat)>

    ghost predicate Valid()
      reads this
    {
      lines == Lines(contents) && TableOf(posToRow, lines, |lines|)
    }

    constructor (text: string)
      ensures Valid() && contents == text
    {
      contents := text;
      lines := Lines(text);
      posToRow := [];
      new;
      var pos := 0;
      for s := 0 to |lines|
        invariant contents == text && lines == Lines(text)
        invariant TableOf(posToRow, lines, s) && pos == Start(lines, s)
      {
        TableGrows(posToRow, lines, s);
        posToRow := posToRow + [(pos, |lines[s]|)];
        pos := pos + |lines[s]| + 1;
      }
    }

    /** The first line of `lookupPathAndIndent`. */
    method PositionOf(row: nat, column: nat) returns (pos: nat)
      requires Valid() && row < |lines|
      ensures column <= |lines[row]| ==>
                Locates(lines, pos, row, column) && SameText(contents, lines, pos, row, column)
    {
      pos := posToRow[row].0 + column;
      if column <= |lines[row]| {
        LocatedText(contents, pos, row, column);
      }
    }

    method PositionToRowCol(position: int) returns (found: Option<(nat, nat)>)
      requires Valid()
      ensures Answers(contents, position, found)
    {
      var row, gap := Search(posToRow, position);
      if row.Some? {
        HitAnswers(contents, row.value, position);
        return Some((row.value, position - posToRow[row.value].0));
      }
      NothingBetween(lines, posToRow, position, gap);
      StartOfEnd(contents);
      LastRowEnds(lines, |contents|);
      var lastRow := posToRow[|posToRow| - 1];
      if position > lastRow.0 + lastRow.1 {
        return Some((|posToRow| - 1, lastRow.1));
      }
      return None;
    }
  }

  /** The binary search: the row that holds the position, or the gap it falls into. */
  method Search(posToRow: seq<(nat, nat)>, position: int) returns (row: Option<nat>, ghost gap: int)
    ensures row.Some? ==>
              && row.value < |posToRow|
              && posToRow[row.value].0 <= position <= posToRow[row.value].0 + posToRow[row.value].1
    ensures row.None? ==> Between(posToRow, position, gap, gap - 1)
  {
    var max := |posToRow| - 1;
    var min := 0;
    while min <= max
      invariant Between(posToRow, position, min, max)
    {
      var mid := (max + min) / 2;
      var (pos, rowLen) := posToRow[mid];
      if position < pos {
        max := mid - 1;
      } else if position > pos + rowLen {
        min := mid + 1;
      } else {
        return Some(mid), min;
      }
    }
    return None, min;
  }

  /** The search inverts the table: whatever is answered for the position of a row and
      column is that row and column. */
  lemma RowColRoundTrip(contents: string, row: nat, column: nat, pos: nat, found: Option<(nat, nat)>)
    requires Locates(Lines(contents), pos, row, column)
    requires Answers(contents, pos, found)
    ensures found == Some((row, column))
  {
    LocatedText(contents, pos, row, column);
    LocatesAtMostOnce(Lines(contents), pos, row, column, found.value.0, found.value.1);
  }
}
