/** The SVG picture of a QR code: one filled path, with a rectangle for each run of dark cells in a row. */
module QrSvg {
  import opened Wrappers
  import opened Decimals
  import Orders

  type Bitmap = seq<seq<bool>>

  /** A rectangle one cell high: `length` cells from `start`. */
  datatype Run = Run(start: nat, length: nat)

  predicate Covers(r: Run, x: int) {
    r.start <= x < r.start + r.length
  }

  predicate Dark(row: seq<bool>, x: int) {
    0 <= x < |row| && row[x]
  }

  /** The first cell from x on that is not dark. */
  function RunEnd(row: seq<bool>, x: nat): (e: nat)
    requires x <= |row|
    ensures x <= e <= |row| && (forall i :: x <= i < e ==> row[i]) && (e < |row| ==> !row[e])
    decreases |row| - x
  {
    if x < |row| && row[x] then RunEnd(row, x + 1) else x
  }

  /** The runs of a row from x on, left to right. */
  function Runs(row: seq<bool>, x: nat): seq<Run>
    requires x <= |row|
    decreases |row| - x
  {
    if x == |row| then []
    else if !row[x] then Runs(row, x + 1)
    else [Run(x, RunEnd(row, x) - x)] + Runs(row, RunEnd(row, x))
  }

  function RunText(r: Run, y: nat): string {
    "M" + Decimal(r.start) + " " + Decimal(y) + "h" + Decimal(r.length) + "v1h-" + Decimal(r.length) + "z"
  }

  function RunTexts(runs: seq<Run>, y: nat): string {
    if runs == [] then "" else RunText(runs[0], y) + RunTexts(runs[1..], y)
  }

  /** The path data for the rows from y on. */
  function PathData(bitmap: Bitmap, y: nat): string
    requires y <= |bitmap|
    decreases |bitmap| - y
  {
    if y == |bitmap| then "" else RunTexts(Runs(bitmap[y], 0), y) + PathData(bitmap, y + 1)
  }

  function Head(size: nat): string {
    var n := Decimal(size);
    "<svg xmlns=\"http://www.w3.org/2000/svg\" width=\"" + n + "\" height=\"" + n + "\" viewBox=\"0 0 " + n + " " + n
    + "\" shape-rendering=\"crispEdges\"><rect width=\"" + n + "\" height=\"" + n + "\" fill=\"#ffffff\"/>"
    + "<path fill=\"#000000\" d=\""
  }

  const FOOT := "\"/></svg>"

  method RenderSvg(bitmap: Bitmap) returns (svg: string)
    ensures svg == Head(|bitmap|) + PathData(bitmap, 0) + FOOT
  {
    var b := Head(|bitmap|);
    var y := 0;
    while y < |bitmap|
      invariant 0 <= y <= |bitmap|
      invariant Head(|bitmap|) + PathData(bitmap, 0) == b + PathData(bitmap, y)
    {
      var row := RenderRow(bitmap[y], y);
      Regroup(b, row, PathData(bitmap, y + 1));
      b := b + row;
      y := y + 1;
    }
    svg := b + FOOT;
  }

  method RenderRow(row: seq<bool>, y: nat) returns (b: string)
    ensures b == RunTexts(Runs(row, 0), y)
  {
    b := "";
    var x := 0;
    while x < |row|
      invariant 0 <= x <= |row|
      invariant RunTexts(Runs(row, 0), y) == b + RunTexts(Runs(row, x), y)
      decreases |row| - x
    {
      if !row[x] {
        x := x + 1;
      } else {
        var start := x;
        while x < |row| && row[x]
          invariant start <= x <= |row| && RunEnd(row, x) == RunEnd(row, start)
        {
          x := x + 1;
        }
        RowStep(row, y, start, x, b);
        b := b + RunText(Run(start, x - start), y);
      }
    }
  }

  lemma RowStep(row: seq<bool>, y: nat, start: nat, x: nat, b: string)
    requires start < x <= |row| && row[start] && RunEnd(row, start) == x
    ensures b + RunTexts(Runs(row, start), y) == b + RunText(Run(start, x - start), y) + RunTexts(Runs(row, x), y)
  {
    assert Runs(row, start) == [Run(start, x - start)] + Runs(row, x);
    assert Runs(row, start)[1..] == Runs(row, x);
    Regroup(b, RunText(Run(start, x - start), y), RunTexts(Runs(row, x), y));
  }

  lemma Regroup(a: string, b: string, c: string)
    ensures a + (b + c) == a + b + c
  {
  }

  // ---------------------------------------------------------------- reading path data (SVG 1.1, section 8.3)

  datatype Command = MoveTo(x: int, y: int) | Horizontal(dx: int) | Vertical(dy: int) | Close

  function Minus(n: int): int {
    -n
  }

  function ReadDigits(s: string, acc: nat): (r: (nat, string))
    ensures |r.1| <= |s|
    decreases |s|
  {
    if s != "" && IsDigit(s[0]) then ReadDigits(s[1..], 10 * acc + (s[0] - '0') as nat) else (acc, s)
  }

  /** A number: an optional minus sign and as many digits as follow. */
  function ReadNumber(s: string): (r: Option<(int, string)>)
    ensures r.Some? ==> |r.value.1| < |s|
  {
    if s != "" && IsDigit(s[0]) then
      var (n, rest) := ReadDigits(s[1..], (s[0] - '0') as nat); Some((n, rest))
    else if |s| > 1 && s[0] == '-' && IsDigit(s[1]) then
      var (n, rest) := ReadDigits(s[2..], (s[1] - '0') as nat);
      var value := Minus(n);
      Some((value, rest))
    else None
  }

  /** The next command; None if there is none that can be read. */
  function ReadCommand(s: string): (r: Option<(Command, string)>)
    ensures r.Some? ==> |r.value.1| < |s|
  {
    if s == "" then None
    else if s[0] == 'M' then
      var x := ReadNumber(s[1..]);
      if x.None? || x.value.1 == "" || x.value.1[0] != ' ' then None
      else
        var y := ReadNumber(x.value.1[1..]);
        if y.None? then None else Some((MoveTo(x.value.0, y.value.0), y.value.1))
    else if s[0] == 'h' then
      var n := ReadNumber(s[1..]);
      if n.None? then None else Some((Horizontal(n.value.0), n.value.1))
    else if s[0] == 'v' then
      var n := ReadNumber(s[1..]);
      if n.None? then None else Some((Vertical(n.value.0), n.value.1))
    else if s[0] == 'z' then Some((Close, s[1..]))
    else None
  }

  function Parse(s: string): Option<seq<Command>>
    decreases |s|
  {
    if s == "" then Some([])
    else
      var c := ReadCommand(s);
      if c.None? then None
      else
        var rest := Parse(c.value.1);
        if rest.None? then None else Some([c.value.0] + rest.value)
  }

  lemma {:induction false} DigitsRead(n: nat, t: string, acc: nat)
    requires acc == 0
    ensures ReadDigits(Decimal(n) + t, acc) == ReadDigits(t, n)
  {
    if n < 10 {
      assert ([Digit(n)] + t)[1..] == t;
    } else {
      DigitsRead(n / 10, [Digit(n % 10)] + t, acc);
      assert Decimal(n) + t == Decimal(n / 10) + ([Digit(n % 10)] + t);
      assert ([Digit(n % 10)] + t)[1..] == t;
    }
  }

  /** What ends a number. */
  predicate Stops(t: string) {
    t == "" || !IsDigit(t[0])
  }

  lemma NumberRead(n: nat, t: string)
    requires Stops(t)
    ensures ReadNumber(Decimal(n) + t) == Some((n, t))
  {
    DigitsRead(n, t, 0);
    assert Decimal(n)[0] in Decimal(n);
    assert (Decimal(n) + t)[0] == Decimal(n)[0];
  }

  lemma NegativeRead(n: nat, t: string)
    requires Stops(t)
    ensures var r := ReadNumber("-" + (Decimal(n) + t));
            r.Some? && r.value.0 == Minus(n) && r.value.1 == t
  {
    var s := Decimal(n) + t;
    DigitsRead(n, t, 0);
    assert Decimal(n)[0] in Decimal(n);
    assert s[0] == Decimal(n)[0] && ("-" + s)[1] == s[0];
    assert ("-" + s)[2..] == s[1..];
  }

  function Commands(r: Run, y: nat): seq<Command> {
    [MoveTo(r.start, y), Horizontal(r.length), Vertical(1), Horizontal(Minus(r.length)), Close]
  }

  /** The commands of a row's runs, then those that follow. */
  function RowThen(runs: seq<Run>, y: nat, tail: seq<Command>): seq<Command> {
    if runs == [] then tail else Commands(runs[0], y) + RowThen(runs[1..], y, tail)
  }

  function Picture(bitmap: Bitmap, y: nat): seq<Command>
    requires y <= |bitmap|
    decreases |bitmap| - y
  {
    if y == |bitmap| then [] else RowThen(Runs(bitmap[y], 0), y, Picture(bitmap, y + 1))
  }

  lemma MoveRead(x: nat, y: nat, t: string)
    requires Stops(t)
    ensures ReadCommand("M" + (Decimal(x) + (" " + (Decimal(y) + t)))) == Some((MoveTo(x, y), t))
  {
    var rest := " " + (Decimal(y) + t);
    NumberRead(x, rest);
    assert ("M" + (Decimal(x) + rest))[1..] == Decimal(x) + rest;
    NumberRead(y, t);
    assert rest[1..] == Decimal(y) + t;
  }

  lemma RightRead(n: nat, t: string)
    requires Stops(t)
    ensures ReadCommand("h" + (Decimal(n) + t)) == Some((Horizontal(n), t))
  {
    NumberRead(n, t);
    assert ("h" + (Decimal(n) + t))[1..] == Decimal(n) + t;
  }

  lemma LeftRead(n: nat, t: string)
    requires Stops(t)
    ensures ReadCommand("h" + ("-" + (Decimal(n) + t))) == Some((Horizontal(Minus(n)), t))
  {
    NegativeRead(n, t);
    assert ("h" + ("-" + (Decimal(n) + t)))[1..] == "-" + (Decimal(n) + t);
  }

  lemma DownRead(t: string)
    requires Stops(t)
    ensures ReadCommand("v" + (Decimal(1) + t)) == Some((Vertical(1), t))
  {
    NumberRead(1, t);
    assert ("v" + (Decimal(1) + t))[1..] == Decimal(1) + t;
  }

  lemma CloseRead(t: string)
    ensures ReadCommand("z" + t) == Some((Close, t))
  {
    assert ("z" + t)[1..] == t;
  }

  lemma OneParsed(s: string, c: Command, t: string, rest: seq<Command>)
    requires ReadCommand(s) == Some((c, t)) && Parse(t) == Some(rest)
    ensures Parse(s) == Some([c] + rest)
  {
  }

  lemma BackRead(r: Run, t: string, rest: seq<Command>)
    requires Parse(t) == Some(rest)
    ensures Parse("h" + ("-" + (Decimal(r.length) + ("z" + t)))) == Some([Horizontal(Minus(r.length))] + ([Close] + rest))
  {
    var t5 := "z" + t;
    CloseRead(t);
    OneParsed(t5, Close, t, rest);
    LeftRead(r.length, t5);
    OneParsed("h" + ("-" + (Decimal(r.length) + t5)), Horizontal(Minus(r.length)), t5, [Close] + rest);
  }

  lemma ForthRead(r: Run, y: nat, t: string, rest: seq<Command>)
    requires Parse(t) == Some(rest) && Stops(t)
    ensures Parse("M" + (Decimal(r.start) + (" " + (Decimal(y) + ("h" + (Decimal(r.length) + ("v" + (Decimal(1) + t))))))))
         == Some([MoveTo(r.start, y)] + ([Horizontal(r.length)] + ([Vertical(1)] + rest)))
  {
    var t3 := "v" + (Decimal(1) + t);
    var t2 := "h" + (Decimal(r.length) + t3);
    DownRead(t);
    OneParsed(t3, Vertical(1), t, rest);
    RightRead(r.length, t3);
    OneParsed(t2, Horizontal(r.length), t3, [Vertical(1)] + rest);
    MoveRead(r.start, y, t2);
    OneParsed("M" + (Decimal(r.start) + (" " + (Decimal(y) + t2))), MoveTo(r.start, y), t2, [Horizontal(r.length)] + ([Vertical(1)] + rest));
  }

  lemma TextSplit(r: Run, y: nat, t: string)
    ensures RunText(r, y) + t == "M" + (Decimal(r.start) + (" " + (Decimal(y) + ("h" + (Decimal(r.length) + ("v" + (Decimal(1)
      + ("h" + ("-" + (Decimal(r.length) + ("z" + t)))))))))))
  {
    Pieces(Decimal(r.start), Decimal(y), Decimal(r.length), t);
    assert Decimal(1) == "1";
  }

  lemma Pieces(a: string, b: string, c: string, t: string)
    ensures "M" + a + " " + b + "h" + c + "v1h-" + c + "z" + t
         == "M" + (a + (" " + (b + ("h" + (c + ("v" + ("1" + ("h" + ("-" + (c + ("z" + t)))))))))))
  {
    assert "v1h-" == "v" + "1" + "h" + "-";
  }

  lemma CommandsSplit(r: Run, y: nat, rest: seq<Command>)
    ensures Commands(r, y) + rest
         == [MoveTo(r.start, y)] + ([Horizontal(r.length)] + ([Vertical(1)] + ([Horizontal(Minus(r.length))] + ([Close] + rest))))
  {
  }

  lemma RunRead(r: Run, y: nat, t: string, rest: seq<Command>)
    requires Parse(t) == Some(rest)
    ensures Parse(RunText(r, y) + t) == Some(Commands(r, y) + rest)
  {
    BackRead(r, t, rest);
    ForthRead(r, y, "h" + ("-" + (Decimal(r.length) + ("z" + t))), [Horizontal(Minus(r.length))] + ([Close] + rest));
    TextSplit(r, y, t);
    CommandsSplit(r, y, rest);
  }

  lemma {:induction false} RowRead(runs: seq<Run>, y: nat, t: string, rest: seq<Command>)
    requires Parse(t) == Some(rest)
    ensures Parse(RunTexts(runs, y) + t) == Some(RowThen(runs, y, rest))
  {
    if runs == [] {
      assert "" + t == t;
    } else {
      RowRead(runs[1..], y, t, rest);
      RunRead(runs[0], y, RunTexts(runs[1..], y) + t, RowThen(runs[1..], y, rest));
      Regroup(RunText(runs[0], y), RunTexts(runs[1..], y), t);
    }
  }

  /** The path data reads back as the commands of the runs. */
  lemma {:induction false} PathRead(bitmap: Bitmap, y: nat)
    requires y <= |bitmap|
    ensures Parse(PathData(bitmap, y)) == Some(Picture(bitmap, y))
    decreases |bitmap| - y
  {
    if y < |bitmap| {
      PathRead(bitmap, y + 1);
      RowRead(Runs(bitmap[y], 0), y, PathData(bitmap, y + 1), Picture(bitmap, y + 1));
    }
  }

  // ---------------------------------------------------------------- what a path fills

  datatype Segment = Segment(x0: int, y0: int, x1: int, y1: int)

  /** Where the pen is, and where its subpath began. */
  datatype Pen = Pen(startX: int, startY: int, x: int, y: int)

  function Drawn(c: Command, pen: Pen): seq<Segment> {
    match c
    case MoveTo(x, y) => []
    case Horizontal(dx) => [Segment(pen.x, pen.y, pen.x + dx, pen.y)]
    case Vertical(dy) => [Segment(pen.x, pen.y, pen.x, pen.y + dy)]
    case Close => [Segment(pen.x, pen.y, pen.startX, pen.startY)]
  }

  function Moved(c: Command, pen: Pen): Pen {
    match c
    case MoveTo(x, y) => Pen(x, y, x, y)
    case Horizontal(dx) => pen.(x := pen.x + dx)
    case Vertical(dy) => pen.(y := pen.y + dy)
    case Close => pen.(x := pen.startX, y := pen.startY)
  }

  /** The segments a path is made of. */
  function Trace(path: seq<Command>, pen: Pen): seq<Segment> {
    if path == [] then [] else Drawn(path[0], pen) + Trace(path[1..], Moved(path[0], pen))
  }

  predicate AllUpright(segments: seq<Segment>) {
    forall i :: 0 <= i < |segments| ==> segments[i].x0 == segments[i].x1 || segments[i].y0 == segments[i].y1
  }

  /** How an upright or level segment crosses the ray that leaves the middle of cell (x, y) to the right. */
  function Crossing(s: Segment, x: int, y: int): int {
    if s.x0 != s.x1 || s.x0 <= x then 0
    else if s.y0 <= y < s.y1 then 1
    else if s.y1 <= y < s.y0 then -1
    else 0
  }

  /** The winding number of a path around the middle of a cell; the path fills the cell when it is not zero. */
  function Winding(segments: seq<Segment>, x: int, y: int): int {
    if segments == [] then 0 else Crossing(segments[0], x, y) + Winding(segments[1..], x, y)
  }

  lemma {:induction false} WindingAdds(a: seq<Segment>, b: seq<Segment>, x: int, y: int)
    ensures Winding(a + b, x, y) == Winding(a, x, y) + Winding(b, x, y)
  {
    if a == [] {
      assert a + b == b;
    } else {
      WindingAdds(a[1..], b, x, y);
      assert (a + b)[1..] == a[1..] + b;
    }
  }

  function Box(r: Run, y: nat): seq<Segment> {
    [Segment(r.start, y, r.start + r.length, y), Segment(r.start + r.length, y, r.start + r.length, y + 1),
     Segment(r.start + r.length, y + 1, r.start, y + 1), Segment(r.start, y + 1, r.start, y)]
  }

  lemma OneTraced(c: Command, rest: seq<Command>, pen: Pen)
    ensures Trace([c] + rest, pen) == Drawn(c, pen) + Trace(rest, Moved(c, pen))
  {
    assert ([c] + rest)[1..] == rest;
  }

  lemma BoxTraced(r: Run, y: nat, rest: seq<Command>, pen: Pen)
    ensures Trace(Commands(r, y) + rest, pen) == Box(r, y) + Trace(rest, Pen(r.start, y, r.start, y))
  {
    var s, e := r.start, r.start + r.length;
    var c5: seq<Command> := [Close] + rest;
    var c4: seq<Command> := [Horizontal(Minus(r.length))] + c5;
    var c3: seq<Command> := [Vertical(1)] + c4;
    var c2: seq<Command> := [Horizontal(r.length)] + c3;
    CommandsSplit(r, y, rest);
    OneTraced(MoveTo(s, y), c2, pen);
    OneTraced(Horizontal(r.length), c3, Pen(s, y, s, y));
    OneTraced(Vertical(1), c4, Pen(s, y, e, y));
    OneTraced(Horizontal(Minus(r.length)), c5, Pen(s, y, e, y + 1));
    OneTraced(Close, rest, Pen(s, y, s, y + 1));
    BoxPieces(Box(r, y), Trace(rest, Pen(s, y, s, y)));
  }

  lemma BoxPieces(b: seq<Segment>, t: seq<Segment>)
    requires |b| == 4
    ensures [] + ([b[0]] + ([b[1]] + ([b[2]] + ([b[3]] + t)))) == b + t
  {
  }

  lemma BoxWinding(r: Run, y: nat, cx: int, cy: int)
    ensures Winding(Box(r, y), cx, cy) == if cy == y && Covers(r, cx) then 1 else 0
  {
    FourWindings(Box(r, y), cx, cy);
  }

  lemma FourWindings(b: seq<Segment>, cx: int, cy: int)
    requires |b| == 4
    ensures Winding(b, cx, cy) == Crossing(b[0], cx, cy) + Crossing(b[1], cx, cy) + Crossing(b[2], cx, cy) + Crossing(b[3], cx, cy)
  {
    assert Winding(b[3..], cx, cy) == Crossing(b[3], cx, cy);
    assert b[2..][1..] == b[3..] && b[1..][1..] == b[2..];
    assert Winding(b[2..], cx, cy) == Crossing(b[2], cx, cy) + Winding(b[3..], cx, cy);
    assert Winding(b[1..], cx, cy) == Crossing(b[1], cx, cy) + Winding(b[2..], cx, cy);
  }

  lemma {:induction false} RowUpright(runs: seq<Run>, y: nat, tail: seq<Command>, pen: Pen)
    requires forall p :: AllUpright(Trace(tail, p))
    ensures AllUpright(Trace(RowThen(runs, y, tail), pen))
  {
    if runs != [] {
      BoxTraced(runs[0], y, RowThen(runs[1..], y, tail), pen);
      RowUpright(runs[1..], y, tail, Pen(runs[0].start, y, runs[0].start, y));
    }
  }

  /** The path has no slanted segment. */
  lemma {:induction false} PictureUpright(bitmap: Bitmap, y: nat, pen: Pen)
    requires y <= |bitmap|
    ensures AllUpright(Trace(Picture(bitmap, y), pen))
    decreases |bitmap| - y
  {
    if y < |bitmap| {
      var tail := Picture(bitmap, y + 1);
      forall p ensures AllUpright(Trace(tail, p)) {
        PictureUpright(bitmap, y + 1, p);
      }
      RowUpright(Runs(bitmap[y], 0), y, tail, pen);
    }
  }

  function CoverCount(runs: seq<Run>, x: int): nat {
    if runs == [] then 0 else (if Covers(runs[0], x) then 1 else 0) + CoverCount(runs[1..], x)
  }

  lemma {:induction false} RowWinding(runs: seq<Run>, y: nat, tail: seq<Command>, pen: Pen, cx: int, cy: int, w: int)
    requires forall p :: Winding(Trace(tail, p), cx, cy) == w
    ensures Winding(Trace(RowThen(runs, y, tail), pen), cx, cy) == w + if cy == y then CoverCount(runs, cx) else 0
  {
    if runs != [] {
      var rest := RowThen(runs[1..], y, tail);
      var after := Pen(runs[0].start, y, runs[0].start, y);
      BoxTraced(runs[0], y, rest, pen);
      WindingAdds(Box(runs[0], y), Trace(rest, after), cx, cy);
      BoxWinding(runs[0], y, cx, cy);
      RowWinding(runs[1..], y, tail, after, cx, cy, w);
    }
  }

  /** Each dark cell lies in exactly one run of its row, a light one in none. */
  lemma {:induction false} RunsCover(row: seq<bool>, x: nat, cx: int)
    requires x <= |row|
    ensures CoverCount(Runs(row, x), cx) == if x <= cx && Dark(row, cx) then 1 else 0
    decreases |row| - x
  {
    if x < |row| && !row[x] {
      RunsCover(row, x + 1, cx);
    } else if x < |row| {
      RunsCover(row, RunEnd(row, x), cx);
    }
  }

  predicate DarkCell(bitmap: Bitmap, x: int, y: int) {
    0 <= y < |bitmap| && Dark(bitmap[y], x)
  }

  lemma {:induction false} PictureWinding(bitmap: Bitmap, y: nat, pen: Pen, cx: int, cy: int)
    requires y <= |bitmap|
    ensures Winding(Trace(Picture(bitmap, y), pen), cx, cy) == if y <= cy && DarkCell(bitmap, cx, cy) then 1 else 0
    decreases |bitmap| - y
  {
    if y < |bitmap| {
      var w := if y + 1 <= cy && DarkCell(bitmap, cx, cy) then 1 else 0;
      var tail := Picture(bitmap, y + 1);
      forall p ensures Winding(Trace(tail, p), cx, cy) == w {
        PictureWinding(bitmap, y + 1, p, cx, cy);
      }
      RowWinding(Runs(bitmap[y], 0), y, tail, pen, cx, cy, w);
      RunsCover(bitmap[y], 0, cx);
    }
  }

  /** The path data, read back, winds once around every dark cell and not at all around any other. */
  lemma ReadsBack(bitmap: Bitmap, x: int, y: int)
    ensures var path := Parse(PathData(bitmap, 0));
            && path.Some? && AllUpright(Trace(path.value, Pen(0, 0, 0, 0)))
            && Winding(Trace(path.value, Pen(0, 0, 0, 0)), x, y) == if DarkCell(bitmap, x, y) then 1 else 0
  {
    PictureUpright(bitmap, 0, Pen(0, 0, 0, 0));
    PathRead(bitmap, 0);
    PictureWinding(bitmap, 0, Pen(0, 0, 0, 0), x, y);
  }

  /** Two bitmaps with the same path data have the same dark cells. */
  lemma PathTellsBitmap(a: Bitmap, b: Bitmap, x: int, y: int)
    requires PathData(a, 0) == PathData(b, 0)
    ensures DarkCell(a, x, y) <==> DarkCell(b, x, y)
  {
    ReadsBack(a, x, y);
    ReadsBack(b, x, y);
  }

  // ---------------------------------------------------------------- no row can do with fewer rectangles

  predicate Begins(row: seq<bool>, x: int) {
    Dark(row, x) && !Dark(row, x - 1)
  }

  /** Runs do not touch: each begins where the cell before it is light. */
  ghost predicate Separate(row: seq<bool>, runs: seq<Run>, x: int) {
    (forall i :: 0 <= i < |runs| ==> x <= runs[i].start && Begins(row, runs[i].start)) &&
    (forall i, j :: 0 <= i < j < |runs| ==> runs[i].start < runs[j].start)
  }

  lemma {:induction false} RunsAreSeparate(row: seq<bool>, x: nat)
    requires x <= |row| && (x < |row| && row[x] ==> Begins(row, x))
    ensures Separate(row, Runs(row, x), x)
    decreases |row| - x
  {
    if x < |row| && !row[x] {
      RunsAreSeparate(row, x + 1);
    } else if x < |row| {
      RunsAreSeparate(row, RunEnd(row, x));
    }
  }

  /** Rectangles that cover exactly the dark cells of a row. */
  ghost predicate IsCover(row: seq<bool>, cover: seq<Run>) {
    forall x :: Dark(row, x) <==> Covered(cover, x)
  }

  ghost predicate Covered(cover: seq<Run>, x: int) {
    exists i :: 0 <= i < |cover| && Covers(cover[i], x)
  }

  ghost function Starts(runs: seq<Run>): set<int> {
    if runs == [] then {} else Starts(runs[..|runs| - 1]) + {runs[|runs| - 1].start}
  }

  lemma {:induction false} StartsMember(runs: seq<Run>, x: int)
    ensures x in Starts(runs) <==> exists i :: 0 <= i < |runs| && runs[i].start == x
    ensures |Starts(runs)| <= |runs|
  {
    if runs != [] {
      StartsMember(runs[..|runs| - 1], x);
      StartsMember(runs[..|runs| - 1], runs[|runs| - 1].start);
    }
  }

  lemma {:induction false} StartsCount(row: seq<bool>, runs: seq<Run>, x: int)
    requires Separate(row, runs, x)
    ensures |Starts(runs)| == |runs|
  {
    if runs != [] {
      StartsCount(row, runs[..|runs| - 1], x);
      StartsMember(runs[..|runs| - 1], runs[|runs| - 1].start);
    }
  }

  /** The runs are as few rectangles as can cover exactly the dark cells of the row. */
  lemma FewestRectangles(row: seq<bool>, cover: seq<Run>)
    requires IsCover(row, cover)
    ensures |Runs(row, 0)| <= |cover|
  {
    var runs := Runs(row, 0);
    RunsAreSeparate(row, 0);
    StartsCount(row, runs, 0);
    StartsMember(cover, 0);
    forall x | x in Starts(runs) ensures x in Starts(cover) {
      StartsMember(runs, x);
      BeginsInCover(row, cover, x);
      StartsMember(cover, x);
    }
    Orders.Smaller(Starts(runs), Starts(cover));
  }

  lemma BeginsInCover(row: seq<bool>, cover: seq<Run>, x: int)
    requires IsCover(row, cover) && Begins(row, x)
    ensures exists i :: 0 <= i < |cover| && cover[i].start == x
  {
    assert Covered(cover, x);
    var i :| 0 <= i < |cover| && Covers(cover[i], x);
    assert !Covered(cover, x - 1);
    assert !Covers(cover[i], x - 1);
  }

  /** The runs themselves are such a cover. */
  lemma RunsAreCover(row: seq<bool>)
    ensures IsCover(row, Runs(row, 0))
  {
    forall x ensures Dark(row, x) <==> Covered(Runs(row, 0), x) {
      RunsCover(row, 0, x);
      CountedIffCovered(Runs(row, 0), x);
    }
  }

  lemma {:induction false} CountedIffCovered(runs: seq<Run>, x: int)
    ensures CoverCount(runs, x) > 0 <==> Covered(runs, x)
  {
    if runs != [] {
      CountedIffCovered(runs[1..], x);
      if Covered(runs[1..], x) {
        var i :| 0 <= i < |runs[1..]| && Covers(runs[1..][i], x);
        assert Covers(runs[i + 1], x);
      }
      if Covered(runs, x) && !Covers(runs[0], x) {
        var i :| 0 <= i < |runs| && Covers(runs[i], x);
        assert Covers(runs[1..][i - 1], x);
      }
    }
  }
}
