/**
 * The table detector of `extract_tables`: lines that mention one of six header
 * phrases open a table that runs up to the next blank line; each captured line
 * is stripped and cut at every double space, and the rows are handed, first row
 * as header, to a grid renderer whose output is joined with newlines.
 */
module Tables {
  import opened Wrappers
  import opened Text

  /** The phrases whose presence on a line opens a table, in the source's order. */
  const Keywords: seq<string> :=
    ["Sl No", "University Name", "Country", "City/State", "Commission to Associate",
     "Country University Name Commission to Associate"]

  /** The column separator: exactly two spaces. */
  const ColumnSeparator: string := "  "

  /** A line opens a table when it contains any of the keywords. */
  predicate IsTableStart(line: string)
  {
    exists k :: 0 <= k < |Keywords| && Contains(line, Keywords[k])
  }

  /** The indices at or after `i`, in increasing order, of the lines that open a table. */
  function StartsFrom(lines: seq<string>, i: nat): (starts: seq<nat>)
    requires i <= |lines|
    ensures forall k :: k in starts <==> i <= k < |lines| && IsTableStart(lines[k])
    ensures forall k :: 0 <= k < |starts| ==> i <= starts[k] < |lines|
    ensures forall a, b :: 0 <= a < b < |starts| ==> starts[a] < starts[b]
    decreases |lines| - i
  {
    if i == |lines| then []
    else if IsTableStart(lines[i]) then [i] + StartsFrom(lines, i + 1)
    else StartsFrom(lines, i + 1)
  }

  /** The indices of all lines that open a table. */
  function StartIndices(lines: seq<string>): seq<nat>
  {
    StartsFrom(lines, 0)
  }

  /** The first index at or after `i` whose line strips to nothing, or `|lines|`. */
  function BlankFrom(lines: seq<string>, i: nat): (e: nat)
    requires i <= |lines|
    ensures i <= e <= |lines|
    ensures forall j :: i <= j < e ==> Strip(lines[j]) != ""
    ensures e < |lines| ==> Strip(lines[e]) == ""
    decreases |lines| - i
  {
    if i == |lines| || Strip(lines[i]) == "" then i else BlankFrom(lines, i + 1)
  }

  /** Where the table opened at `start` ends (exclusive): the first blank line after
      the header, or the end of the text. */
  function EndIndex(lines: seq<string>, start: nat): (e: nat)
    requires start < |lines|
    ensures start < e <= |lines|
    ensures forall j :: start < j < e ==> Strip(lines[j]) != ""
    ensures e < |lines| ==> Strip(lines[e]) == ""
  {
    BlankFrom(lines, start + 1)
  }

  /** The cells of one captured line. */
  function Row(line: string): seq<string>
  {
    Split(Strip(line), ColumnSeparator)
  }

  /** The cells of each of a run of lines. */
  function Rows(lines: seq<string>): (rows: seq<seq<string>>)
  {
    seq(|lines|, k requires 0 <= k < |lines| => Row(lines[k]))
  }

  /** A captured table as handed to the renderer: the first row is the header. */
  datatype Grid = Grid(header: seq<string>, body: seq<seq<string>>)

  /** The grid renderer; `None` stands for a call that raises. */
  type Renderer = Grid -> Option<string>

  /** The table opened by the line at `start`: its header is that line's row and its
      body the rows of the following lines up to the end of the table. */
  function GridAt(lines: seq<string>, start: nat): (g: Grid)
    requires start < |lines|
    ensures g.header == Row(lines[start])
    ensures |g.body| == EndIndex(lines, start) - start - 1
    ensures forall j :: 0 <= j < |g.body| ==> g.body[j] == Row(lines[start + 1 + j])
  {
    var rows := Rows(lines[start..EndIndex(lines, start)]);
    Grid(rows[0], rows[1..])
  }

  /** One grid per table-opening line, in the order of those lines. */
  function TableGrids(lines: seq<string>): (grids: seq<Grid>)
    ensures |grids| == |StartIndices(lines)|
  {
    var starts := StartIndices(lines);
    seq(|starts|, k requires 0 <= k < |starts| => GridAt(lines, starts[k]))
  }

  /** The rendered tables, in order, up to the first grid whose rendering raises. */
  function RenderAll(grids: seq<Grid>, render: Renderer): seq<string>
  {
    if grids == [] then []
    else match render(grids[0])
      case None => []
      case Some(t) => [t] + RenderAll(grids[1..], render)
  }

  /** `RenderAll` keeps exactly the renderings before the first one that raises. */
  lemma {:induction false} RenderAllSpec(grids: seq<Grid>, render: Renderer)
    ensures var tables := RenderAll(grids, render);
      && |tables| <= |grids|
      && (forall k :: 0 <= k < |tables| ==> render(grids[k]) == Some(tables[k]))
      && (|tables| < |grids| ==> render(grids[|tables|]).None?)
  {
    if grids != [] && render(grids[0]).Some? {
      RenderAllSpec(grids[1..], render);
      var tables := RenderAll(grids, render);
      var rest := RenderAll(grids[1..], render);
      assert tables == [render(grids[0]).value] + rest;
      assert forall k :: 1 <= k < |tables| ==> tables[k] == rest[k - 1] && grids[k] == grids[1..][k - 1];
    }
  }

  /** One step of `RenderAll` from position `i`. */
  lemma RenderAllAt(grids: seq<Grid>, i: nat, render: Renderer)
    requires i < |grids|
    ensures RenderAll(grids[i..], render) ==
      match render(grids[i])
      case None => []
      case Some(t) => [t] + RenderAll(grids[i + 1..], render)
  {
    assert grids[i..][1..] == grids[i + 1..];
  }

  /** What `extract_tables` returns for `text`. */
  function TablesOf(text: string, render: Renderer): string
  {
    Join("\n", RenderAll(TableGrids(SplitLines(text)), render))
  }

  /** `extract_tables`: scan the table-opening lines in order, capture and render each
      table, and stop at the first rendering that raises, keeping the earlier ones. */
  method ExtractTables(text: string, render: Renderer) returns (r: string)
    ensures r == TablesOf(text, render)
  {
    var lines := SplitLines(text);
    var starts := StartIndices(lines);
    ghost var grids := TableGrids(lines);
    var tables: seq<string> := [];
    var i := 0;
    while i < |starts|
      invariant 0 <= i <= |starts|
      invariant RenderAll(grids, render) == tables + RenderAll(grids[i..], render)
    {
      var start := starts[i];
      var stop := EndIndex(lines, start);
      var rows := Rows(lines[start..stop]);
      var grid := Grid(rows[0], rows[1..]);
      assert grid == grids[i];
      RenderAllAt(grids, i, render);
      match render(grid) {
        case None =>
          assert tables == RenderAll(grids, render);
          break;
        case Some(t) =>
          tables := tables + [t];
      }
      i := i + 1;
    }
    assert grids[|grids|..] == [];
    assert tables == RenderAll(grids, render);
    r := Join("\n", tables);
  }

  /** When the renderer never raises, every table-opening line yields exactly one table. */
  lemma {:induction false} RenderAllTotal(grids: seq<Grid>, render: Renderer)
    requires forall g :: render(g).Some?
    ensures |RenderAll(grids, render)| == |grids|
  {
    if grids != [] {
      RenderAllTotal(grids[1..], render);
    }
  }

  /** A captured row joined back with the separator is the stripped line, and no cell
      contains the separator. */
  lemma RowRoundTrip(line: string)
    ensures Join(ColumnSeparator, Row(line)) == Strip(line)
    ensures forall k :: 0 <= k < |Row(line)| ==> !Contains(Row(line)[k], ColumnSeparator)
  {
    JoinSplit(Strip(line), ColumnSeparator);
    SplitPiecesFree(Strip(line), ColumnSeparator);
  }

  /** Four spaces make an empty cell between two cells: runs are not merged. */
  lemma FourSpacesMakeEmptyCell()
    ensures Row("a    b") == ["a", "", "b"]
  {
    var line := "a    b";
    assert TrimStart(line) == line;
    assert TrimEnd(line) == line;
    assert Split("b", ColumnSeparator) == ["b"];
    var four := "    b";
    assert four[..2] == ColumnSeparator && four[2..] == "  b";
    assert four[2..][..2] == ColumnSeparator && four[2..][2..] == "b";
    assert Split(four[2..], ColumnSeparator) == ["", "b"];
    assert Split(four, ColumnSeparator) == ["", "", "b"];
    assert line[1..] == four;
    assert line[..2] != ColumnSeparator;
    assert Split(line, ColumnSeparator) == [[line[0]] + ""] + ["", "b"];
    assert [line[0]] + "" == "a";
    assert Strip(line) == line;
    assert Row(line) == Split(line, ColumnSeparator);
  }

  /** A line built from clean cells, with no white space at either end, yields exactly
      those cells as its row. */
  lemma RowOfCells(line: string, cells: seq<string>)
    requires line == Join(ColumnSeparator, cells) && CleanPieces(cells, ColumnSeparator)
    requires line != [] && !IsSpace(line[0]) && !IsSpace(line[|line| - 1])
    ensures Row(line) == cells
  {
    assert TrimStart(line) == line;
    assert TrimEnd(line) == line;
    SplitJoin(cells, ColumnSeparator);
  }

  /** A table-opening line followed by `n` non-blank lines and then a blank line (or
      the end of the text) gives the table whose header is the opening line's row and
      whose body is the rows of exactly those `n` lines; it is among the detector's
      grids at the position of its opening line among all opening lines. */
  lemma TableOfHeader(lines: seq<string>, start: nat, n: nat)
    requires start + n < |lines| && IsTableStart(lines[start])
    requires forall j :: start < j <= start + n ==> Strip(lines[j]) != ""
    requires start + n + 1 == |lines| || Strip(lines[start + n + 1]) == ""
    ensures GridAt(lines, start) == Grid(Row(lines[start]), Rows(lines[start + 1..start + n + 1]))
    ensures exists k :: 0 <= k < |TableGrids(lines)| && StartIndices(lines)[k] == start &&
                        TableGrids(lines)[k] == GridAt(lines, start)
  {
    var e := EndIndex(lines, start);
    assert e == start + n + 1;
    var g := GridAt(lines, start);
    var body := Rows(lines[start + 1..start + n + 1]);
    assert |g.body| == n == |body|;
    forall j | 0 <= j < n ensures g.body[j] == body[j] {
      assert lines[start + 1..start + n + 1][j] == lines[start + 1 + j];
    }
    var starts := StartIndices(lines);
    assert start in starts;
    var k :| 0 <= k < |starts| && starts[k] == start;
    assert TableGrids(lines)[k] == g;
  }
}
