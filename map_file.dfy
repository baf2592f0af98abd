/** The map-file format the planner reads: a `height N` line, a `width N` line, the column
    line `X Y Length Width`, then one obstacle per line as four integers. This module is the
    pure meaning of a file given as its sequence of lines; Planner.ReadMap is the procedure. */
module MapFile {
  import opened Wrappers
  import opened Decimal
  import opened Utils

  datatype ObstacleRow = ObstacleRow(x: int, y: int, length: int, width: int)

  /** What a well-formed file describes: the map's height (mapY), width (mapX) and obstacles. */
  datatype MapSpec = MapSpec(height: int, width: int, rows: seq<ObstacleRow>)

  /** The header line whose assertion fails. */
  datatype MapError = BadHeightLine | BadWidthLine | BadColumnsLine

  const ColumnsLine := "X Y Length Width"

  /** std::string::find(' ') from position i. */
  function IndexOfSpace(line: string, i: nat): (r: Option<nat>)
    requires i <= |line|
    ensures r.Some? ==> i <= r.value < |line| && line[r.value] == ' '
    ensures r.Some? ==> forall k :: i <= k < r.value ==> line[k] != ' '
    ensures r.None? ==> forall k :: i <= k < |line| ==> line[k] != ' '
    decreases |line| - i
  {
    if i == |line| then None else if line[i] == ' ' then Some(i) else IndexOfSpace(line, i + 1)
  }

  /** A `key value` header line: the text before the first space must be key, and what follows
      that space must read as an integer (std::stoi). */
  function HeaderValue(line: string, key: string): (v: Option<int>)
    ensures v.Some? ==> |key| < |line| && line[..|key|] == key && line[|key|] == ' ' && ' ' !in key
  {
    match IndexOfSpace(line, 0)
    case None => None
    case Some(pos) =>
      if line[..pos] != key then None
      else
        match ScanInt(line[pos + 1..], 0)
        case None => None
        case Some((v, _)) => Some(v)
  }

  /** n integers read one after another from position i, each as ScanInt reads it. */
  function ScanInts(line: string, i: nat, n: nat): (r: Option<seq<int>>)
    requires i <= |line|
    ensures r.Some? ==> |r.value| == n
    decreases n
  {
    if n == 0 then Some([])
    else
      match ScanInt(line, i)
      case None => None
      case Some((v, e)) =>
        match ScanInts(line, e, n - 1)
        case None => None
        case Some(rest) => Some([v] + rest)
  }

  /** `iss >> x >> y >> length >> width` on one line: four integers in a row, or None. */
  function ParseRow(line: string): (r: Option<ObstacleRow>)
    ensures r.Some? <==> ScanInts(line, 0, 4).Some?
    ensures r.Some? ==> ScanInts(line, 0, 4) == Some([r.value.x, r.value.y, r.value.length, r.value.width])
  {
    match ScanInts(line, 0, 4)
    case None => None
    case Some(v) =>
      assert v == [v[0], v[1], v[2], v[3]];
      Some(ObstacleRow(v[0], v[1], v[2], v[3]))
  }

  /** The obstacle lines: one row per line while lines parse, stopping at the first that does
      not; that line and all after it are ignored. */
  function ObstacleRows(lines: seq<string>): (rows: seq<ObstacleRow>)
    ensures |rows| <= |lines|
  {
    if lines == [] then []
    else
      match ParseRow(lines[0])
      case None => []
      case Some(r) => [r] + ObstacleRows(lines[1..])
  }

  /** Row i is what line i parses to, and the line after the last row, if any, does not
      parse. */
  lemma {:induction false} ObstacleRowsParse(lines: seq<string>)
    ensures forall i :: 0 <= i < |ObstacleRows(lines)| ==> ParseRow(lines[i]) == Some(ObstacleRows(lines)[i])
    ensures |ObstacleRows(lines)| < |lines| ==> ParseRow(lines[|ObstacleRows(lines)|]).None?
  {
    if lines != [] && ParseRow(lines[0]).Some? {
      ObstacleRowsParse(lines[1..]);
      var rows := ObstacleRows(lines);
      forall i | 0 <= i < |rows| ensures ParseRow(lines[i]) == Some(rows[i]) {
        if i > 0 {
          assert lines[i] == lines[1..][i - 1];
        }
      }
    }
  }

  /** readMap over the file's lines. A header line missing from the file is checked as empty
      text: std::getline at the end of the file either empties the line or, when the last line
      had no line feed, keeps the previous one, and each header check fails on both. */
  function ParseMap(lines: seq<string>): (r: Result<MapSpec, MapError>)
    ensures r.Err? ==> (r.error == BadHeightLine <==> |lines| == 0 || HeaderValue(lines[0], "height").None?)
    ensures r.Ok? ==> |lines| >= 3 && lines[2] == ColumnsLine && |r.value.rows| <= |lines| - 3
  {
    var heightLine := if |lines| >= 1 then lines[0] else "";
    match HeaderValue(heightLine, "height")
    case None => Err(BadHeightLine)
    case Some(h) =>
      var widthLine := if |lines| >= 2 then lines[1] else "";
      match HeaderValue(widthLine, "width")
      case None => Err(BadWidthLine)
      case Some(w) =>
        var columns := if |lines| >= 3 then lines[2] else "";
        if columns != ColumnsLine then Err(BadColumnsLine)
        else Ok(MapSpec(h, w, ObstacleRows(lines[3..])))
  }

  /** A file is accepted exactly when it has the three header lines in order; then the height
      comes from the first line, the width from the second, and the obstacles from the rest. */
  lemma ParseMapAccepts(lines: seq<string>)
    ensures ParseMap(lines).Ok? <==>
      |lines| >= 3 && HeaderValue(lines[0], "height").Some? &&
      HeaderValue(lines[1], "width").Some? && lines[2] == ColumnsLine
    ensures ParseMap(lines).Ok? ==>
      ParseMap(lines).value == MapSpec(HeaderValue(lines[0], "height").value,
                                       HeaderValue(lines[1], "width").value,
                                       ObstacleRows(lines[3..]))
  {
  }

  /** The obstacle rows stop at the first line that does not parse: whatever follows it is
      never read. */
  lemma {:induction false} LinesAfterStopIgnored(lines: seq<string>, more: seq<string>)
    requires |ObstacleRows(lines)| < |lines|
    ensures ObstacleRows(lines + more) == ObstacleRows(lines)
  {
    if ParseRow(lines[0]).Some? {
      assert (lines + more)[1..] == lines[1..] + more;
      LinesAfterStopIgnored(lines[1..], more);
    }
  }

  /** The text of one obstacle line, as a map writer would print it: the four numbers
      separated by single spaces. */
  function RenderRow(r: ObstacleRow): string
  {
    Join([r.x, r.y, r.length, r.width])
  }

  function RenderRows(rows: seq<ObstacleRow>): (lines: seq<string>)
    ensures |lines| == |rows|
    ensures forall i :: 0 <= i < |rows| ==> lines[i] == RenderRow(rows[i])
  {
    if rows == [] then [] else [RenderRow(rows[0])] + RenderRows(rows[1..])
  }

  /** A header line as a map writer would print it: the key, one space, the value. */
  function HeaderLine(key: string, v: int): string
  {
    key + " " + DecimalString(v)
  }

  /** The lines of a map file describing height h, width w and the given obstacles. */
  function RenderMap(h: int, w: int, rows: seq<ObstacleRow>): seq<string>
  {
    [HeaderLine("height", h), HeaderLine("width", w), ColumnsLine] + RenderRows(rows)
  }

  /** The text w sits in s from index j on. */
  predicate Placed(s: string, j: nat, w: string)
  {
    j + |w| <= |s| && s[j..j + |w|] == w
  }

  /** Index p of s ends a number: it is the end of s or holds something other than a digit. */
  predicate Delimited(s: string, p: nat)
  {
    p <= |s| && (p == |s| || !IsDigit(s[p]))
  }

  /** Reading numbers back: white space, then numbers separated by single spaces, then the end
      of the line or a character that is not a digit. */
  lemma {:induction false} ScanIntsReadsJoin(s: string, i: nat, j: nat, vs: seq<int>)
    requires vs != [] && i <= j
    requires Placed(s, j, Join(vs)) && Delimited(s, j + |Join(vs)|)
    requires forall k :: i <= k < j ==> IsSpace(s[k])
    ensures ScanInts(s, i, |vs|) == Some(vs)
    decreases |vs|, 1
  {
    if |vs| == 1 {
      assert Join(vs) == DecimalString(vs[0]);
      ScanIntsReadsOne(s, i, j, vs[0]);
      assert [vs[0]] == vs;
    } else {
      JoinSplit(s, j, vs);
      ScanIntsReadsCons(s, i, j, vs[0], vs[1..]);
      assert [vs[0]] + vs[1..] == vs;
    }
  }

  /** White space and then one rendered number, delimited, read back as that number. */
  lemma ScanIntsReadsOne(s: string, i: nat, j: nat, v: int)
    requires i <= j
    requires Placed(s, j, DecimalString(v)) && Delimited(s, j + |DecimalString(v)|)
    requires forall k :: i <= k < j ==> IsSpace(s[k])
    ensures ScanInts(s, i, 1) == Some([v])
  {
    ScanIntReadsDecimal(s, i, j, v);
    assert ScanInts(s, j + |DecimalString(v)|, 0) == Some([]);
    assert [v] + [] == [v];
  }

  /** One number, its separating space and the rendering of the rest read back as the number
      followed by the rest. */
  lemma {:induction false} ScanIntsReadsCons(s: string, i: nat, j: nat, v: int, rest: seq<int>)
    requires rest != [] && i <= j
    requires Placed(s, j, DecimalString(v)) && j + |DecimalString(v)| < |s|
    requires s[j + |DecimalString(v)|] == ' '
    requires Placed(s, j + |DecimalString(v)| + 1, Join(rest))
    requires Delimited(s, j + |DecimalString(v)| + 1 + |Join(rest)|)
    requires forall k :: i <= k < j ==> IsSpace(s[k])
    ensures ScanInts(s, i, 1 + |rest|) == Some([v] + rest)
    decreases |rest| + 1, 0
  {
    var e := j + |DecimalString(v)|;
    ScanIntsReadsJoin(s, e, e + 1, rest);
    ScanIntReadsDecimal(s, i, j, v);
    ScanIntsStep(s, i, 1 + |rest|, v, e, rest);
  }

  lemma ScanIntsStep(s: string, i: nat, n: nat, v: int, e: nat, rest: seq<int>)
    requires i <= |s| && n > 0
    requires ScanInt(s, i) == Some((v, e))
    requires ScanInts(s, e, n - 1) == Some(rest)
    ensures ScanInts(s, i, n) == Some([v] + rest)
  {
  }

  /** Where a rendering of two or more numbers sits in s, its first number, the separating
      space and the rest sit one after another. */
  lemma JoinSplit(s: string, j: nat, vs: seq<int>)
    requires |vs| > 1
    requires Placed(s, j, Join(vs))
    ensures Placed(s, j, DecimalString(vs[0])) && j + |DecimalString(vs[0])| < |s|
    ensures s[j + |DecimalString(vs[0])|] == ' '
    ensures Placed(s, j + |DecimalString(vs[0])| + 1, Join(vs[1..]))
    ensures j + |DecimalString(vs[0])| + 1 + |Join(vs[1..])| == j + |Join(vs)|
  {
    var d, tail := DecimalString(vs[0]), Join(vs[1..]);
    assert Join(vs) == d + " " + tail;
    SplitAround(s, j, d, tail);
  }

  lemma SplitAround(s: string, j: nat, a: string, b: string)
    requires j + |a| + 1 + |b| <= |s|
    requires s[j..j + |a| + 1 + |b|] == a + " " + b
    ensures s[j..j + |a|] == a && s[j + |a|] == ' ' && s[j + |a| + 1..j + |a| + 1 + |b|] == b
  {
    var w := s[j..j + |a| + 1 + |b|];
    assert s[j..j + |a|] == w[..|a|];
    assert s[j + |a|] == w[|a|];
    assert s[j + |a| + 1..j + |a| + 1 + |b|] == w[|a| + 1..];
  }

  lemma ParseRowReadsRender(r: ObstacleRow)
    ensures ParseRow(RenderRow(r)) == Some(r)
  {
    var line := RenderRow(r);
    assert line[0..|line|] == line;
    assert Placed(line, 0, line);
    ScanIntsReadsJoin(line, 0, 0, [r.x, r.y, r.length, r.width]);
  }

  lemma HeaderValueReadsRender(key: string, v: int)
    requires ' ' !in key
    ensures HeaderValue(HeaderLine(key, v), key) == Some(v)
  {
    var line := HeaderLine(key, v);
    assert line[|key|] == ' ';
    assert forall k :: 0 <= k < |key| ==> line[k] == key[k];
    assert IndexOfSpace(line, 0) == Some(|key|);
    assert line[|key| + 1..] == DecimalString(v);
    ScanIntReadsDecimal(DecimalString(v), 0, 0, v);
  }

  lemma {:induction false} ObstacleRowsReadRender(rows: seq<ObstacleRow>)
    ensures ObstacleRows(RenderRows(rows)) == rows
  {
    if rows != [] {
      var lines := RenderRows(rows);
      assert lines[0] == RenderRow(rows[0]);
      ParseRowReadsRender(rows[0]);
      assert lines[1..] == RenderRows(rows[1..]);
      ObstacleRowsReadRender(rows[1..]);
      assert ObstacleRows(lines) == [rows[0]] + ObstacleRows(lines[1..]);
    }
  }

  /** Round trip: a file written from a height, a width and obstacles reads back as them. */
  lemma ParseMapRoundTrip(h: int, w: int, rows: seq<ObstacleRow>)
    ensures ParseMap(RenderMap(h, w, rows)) == Ok(MapSpec(h, w, rows))
  {
    var lines := RenderMap(h, w, rows);
    HeaderValueReadsRender("height", h);
    HeaderValueReadsRender("width", w);
    assert lines[3..] == RenderRows(rows);
    ObstacleRowsReadRender(rows);
    ParseMapAccepts(lines);
  }
}
