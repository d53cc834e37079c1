/**
  The terminal emulator of kernel/console/vt.c: a grid of cells, and a screen of
  which only the rows that changed are drawn again.
*/
module Vt {
  const TAB_STOP := 8
  const WORD := 0x1_0000_0000
  const DEFAULT_FG := 15
  const DEFAULT_BG := 0

  /** A byte as the signed char it is handed over as. */
  type byte = x: int | -128 <= x < 128

  datatype Cell = Cell(ch: byte, fg: nat, bg: nat)

  /** What the screen shows for a cell: under the cursor, the colours are exchanged. */
  function Render(c: Cell, isCursor: bool): Cell {
    if isCursor then Cell(c.ch, c.bg, c.fg) else c
  }

  /** struct screen, as kernel/console/screen/fb.c draws it. */
  class Screen {
    const shown: array2<Cell>
    var cx: nat
    var cy: nat
    var visible: bool

    constructor (rows: nat, columns: nat)
      ensures fresh(shown) && shown.Length0 == rows && shown.Length1 == columns && !visible && cx == cy == 0
    {
      shown := new Cell[rows, columns]((_, _) => Cell(0, 0, 0));
      cx, cy, visible := 0, 0, false;
    }

    predicate CursorAt(x: nat, y: nat)
      reads this
    {
      visible && x == cx && y == cy
    }

    method Put(x: nat, y: nat, c: Cell)
      requires y < shown.Length0 && x < shown.Length1
      modifies shown
      ensures shown[y, x] == Render(c, CursorAt(x, y))
      ensures forall i, j :: 0 <= i < shown.Length0 && 0 <= j < shown.Length1 && (i != y || j != x) ==>
        shown[i, j] == old(shown[i, j])
    {
      shown[y, x] := if CursorAt(x, y) then Cell(c.ch, c.bg, c.fg) else c;
    }

    method SetCursor(x: nat, y: nat, visible: bool)
      modifies this
      ensures cx == x && cy == y && this.visible == visible
    {
      cx, cy, this.visible := x, y, visible;
    }

    method Clear(bg: nat)
      modifies shown
    {
      forall i, j | 0 <= i < shown.Length0 && 0 <= j < shown.Length1 { shown[i, j] := Cell(32, bg, bg); }
    }
  }

  // --------------------------------------------------------- what characters mean

  /** Where a character sends the cursor, whether the grid scrolls, and where the character goes, if anywhere. */
  datatype Move = Move(x: nat, y: nat, stomp: bool, scrolls: bool, prints: bool, atX: nat, atY: nat)

  function RoundUp(n: nat, align: nat): nat
    requires align > 0
  {
    (n + align - 1) / align * align
  }

  /** A cursor that ran over the right edge waits there for the next character. */
  function AtEdge(x: nat, y: nat, columns: nat): (nat, nat, bool)
    requires columns > 0
  {
    if x >= columns then (columns - 1, y, true) else (x, y, false)
  }

  /** handle_ground on everything but the escape character. */
  function GroundMove(c: byte, x: nat, y: nat, stomp: bool, columns: nat, rows: nat): (m: Move)
    requires x < columns && y < rows
    ensures m.x < columns && m.y < rows && (m.prints ==> m.atX < columns && m.atY < rows)
  {
    if c == 13 then Move(0, y, false, false, false, 0, 0)
    else if c == 10 then
      if y + 1 < rows then Move(0, y + 1, false, false, false, 0, 0) else Move(0, rows - 1, false, true, false, 0, 0)
    else if c == 8 then
      if x > 0 then Move(x - 1, y, false, false, false, 0, 0) else Move(x, y, stomp, false, false, 0, 0)
    else if c == 9 then
      var (x', y', edge) := AtEdge(RoundUp(x + 1, TAB_STOP), y, columns);
      Move(x', y', edge, false, false, 0, 0)
    else if c < 0 then Move(x, y, stomp, false, false, 0, 0)
    else
      var atX := if stomp then 0 else x;
      var below := if stomp then y + 1 else y;
      var scrolls := below >= rows;
      var atY := if scrolls then rows - 1 else below;
      var (x', y', edge) := AtEdge(atX + 1, atY, columns);
      Move(x', y', edge, scrolls, true, atX, atY)
  }

  // ---------------------------------------------------------- control sequences

  /** An int as 32-bit arithmetic leaves it. */
  function AsInt(n: int): int {
    var r := n % WORD;
    if r >= WORD / 2 then r - WORD else r
  }

  function AsUnsigned(n: int): (r: nat)
    ensures r < WORD
  {
    n % WORD
  }

  predicate IsSpace(c: char) { c == ' ' || 9 <= c as int <= 13 }

  predicate IsDigit(c: char) { '0' <= c <= '9' }

  /** atoi's loop over digits */
  function Digits(s: string, value: int): int
    decreases |s|
  {
    if s == "" || !IsDigit(s[0]) then value else Digits(s[1..], AsInt(AsInt(value * 10) + (s[0] as int - '0' as int)))
  }

  function Atoi(s: string): int
    decreases |s|
  {
    if s == "" then 0
    else if IsSpace(s[0]) then Atoi(s[1..])
    else if s[0] == '-' then AsInt(-Atoi(s[1..]))
    else Digits(s, 0)
  }

  /** The parameters between semicolons, as strtok_r gives them: without empty ones. */
  function Fields(s: string, current: string): seq<string>
    decreases |s|
  {
    if s == "" then (if current == "" then [] else [current])
    else if s[0] == ';' then (if current == "" then [] else [current]) + Fields(s[1..], "")
    else Fields(s[1..], current + [s[0]])
  }

  /** A count that is 1 if it was not given. */
  function CountOf(param: string): nat {
    var n := AsUnsigned(Atoi(param));
    if n == 0 then 1 else n
  }

  /** A place counted from 1, or 0. */
  function PlaceOf(param: string): nat {
    var n := AsUnsigned(Atoi(param));
    if n > 0 then n - 1 else 0
  }

  /** The 32-bit sum of two 32-bit numbers. */
  function Plus(a: nat, b: nat): nat
    requires a < WORD && b < WORD
  {
    if a + b < WORD then a + b else a + b - WORD
  }

  /** Forward by n of `limit` places; the sum is a 32-bit one, so that it can come out too small. */
  function Forward(at: nat, n: nat, limit: nat): (r: nat)
    requires at < limit < WORD && n < WORD
    ensures r < limit
    ensures at + n < WORD ==> r == if at + n >= limit then limit - 1 else at + n
  {
    var sum := Plus(n, at);
    if sum >= limit then limit - 1 else sum
  }

  function Back(at: nat, n: nat): (r: nat)
    ensures r <= at
  {
    if n > at then 0 else at - n
  }

  function Clamp(n: nat, limit: nat): (r: nat)
    requires limit > 0
    ensures r < limit
  {
    if n >= limit then limit - 1 else n
  }

  /** Where a control sequence sends the cursor (control functions of section 8.3 of ECMA-48). */
  function CsiCursor(c: byte, param: string, x: nat, y: nat, columns: nat, rows: nat): (r: (nat, nat))
    requires x < columns < WORD && y < rows < WORD
    ensures r.0 < columns && r.1 < rows
  {
    var n := CountOf(param);
    if c == 65 then (x, Back(y, n))                    // A: CUU
    else if c == 66 then (x, Forward(y, n, rows))      // B: CUD
    else if c == 67 then (Forward(x, n, columns), y)   // C: CUF
    else if c == 68 then (Back(x, n), y)               // D: CUB
    else if c == 69 then (0, Forward(y, n, rows))      // E: CNL
    else if c == 70 then (0, Back(y, n))               // F: CPL
    else if c == 71 then (Clamp(PlaceOf(param), columns), y)   // G: CHA
    else if c == 72 then                               // H: CUP
      var f := Fields(param, "");
      (Clamp(if |f| > 1 then PlaceOf(f[1]) else 0, columns), Clamp(if |f| > 0 then PlaceOf(f[0]) else 0, rows))
    else (x, y)
  }

  /** Whether a control sequence clears the cell at row i, column j, with the cursor at (x, y). */
  predicate CsiErases(c: byte, param: string, x: nat, y: nat, i: nat, j: nat) {
    var n := Atoi(param);
    if c == 74 then                                    // J: ED
      (n == 0 && (i > y || (i == y && j >= x))) || (n == 1 && (i < y || (i == y && j <= x))) || n == 2
    else if c == 75 then                               // K: EL
      i == y && ((n == 0 && j >= x) || (n == 1 && j <= x) || n == 2)
    else false
  }

  /** The string that a buffer holds: what is before its first NUL. */
  function CString(s: string): (r: string)
    ensures r <= s && '\0' !in r && (r == s || s[|r|] == '\0')
  {
    if s == "" || s[0] == '\0' then "" else [s[0]] + CString(s[1..])
  }

  const TO_VGA := [0, 4, 2, 6, 1, 5, 3, 7]
  const BRIGHT := 8

  datatype Colours = Colours(fg: nat, bg: nat, bold: bool)

  /** One parameter of SGR. */
  function Sgr(k: Colours, num: int): Colours {
    if num == 0 then Colours(DEFAULT_FG, DEFAULT_BG, false)
    else if num == 1 then k.(bold := true)
    else if num == 7 then k.(fg := k.bg, bg := k.fg)
    else if num == 22 then k.(fg := DEFAULT_FG, bold := false)
    else if 30 <= num <= 37 then k.(fg := TO_VGA[num - 30] + if k.bold then BRIGHT else 0)
    else if num == 38 then k.(fg := DEFAULT_FG)
    else if 40 <= num <= 47 then k.(bg := TO_VGA[num - 40] + if k.bold then BRIGHT else 0)
    else if num == 48 then k.(bg := DEFAULT_BG)
    else if 90 <= num <= 97 then k.(fg := TO_VGA[num - 90] + BRIGHT)
    else if 100 <= num <= 107 then k.(bg := TO_VGA[num - 100] + BRIGHT)
    else k
  }

  function SgrAll(k: Colours, fields: seq<string>): Colours
    decreases |fields|
  {
    if fields == [] then k else SgrAll(Sgr(k, Atoi(fields[0])), fields[1..])
  }

  /** What of the terminal is not cells: the cursor and the colours to write with. */
  datatype Look = Look(x: nat, y: nat, visible: bool, stomp: bool, fg: nat, bg: nat)

  /** handle_csi_sgr */
  function SgrLook(k: Look, param: string): Look {
    if param == "" then k.(fg := DEFAULT_FG, bg := DEFAULT_BG)
    else
      var c := SgrAll(Colours(k.fg, k.bg, false), Fields(param, ""));
      k.(fg := c.fg, bg := c.bg)
  }

  /** A control sequence moves the cursor, selects colours, or shows or hides the cursor. */
  function CsiLook(c: byte, param: string, k: Look, columns: nat, rows: nat): Look
    requires k.x < columns < WORD && k.y < rows < WORD
  {
    if 65 <= c <= 72 then
      var at := CsiCursor(c, param, k.x, k.y, columns, rows);
      k.(x := at.0, y := at.1, stomp := false)
    else if c == 109 then SgrLook(k, param)
    else if (c == 104 || c == 108) && param == "?25" then k.(visible := c == 104)
    else k
  }

  function GroundLook(m: Move, k: Look): Look { k.(x := m.x, y := m.y, stomp := m.stomp) }

  datatype Mode = Ground | Esc | Csi

  // ------------------------------------------------------------ strings of bytes

  type Grid = seq<seq<Cell>>

  /** A terminal as a value; `param` are the parameters of the control sequence it is in, if it is in one. */
  datatype Term = Term(look: Look, mode: Mode, param: string, grid: Grid)

  ghost predicate Fits(k: Term, columns: nat, rows: nat) {
    && k.look.x < columns < WORD && k.look.y < rows < WORD
    && |k.grid| == rows && forall i :: 0 <= i < rows ==> |k.grid[i]| == columns
  }

  ghost function MakeGrid(columns: nat, rows: nat, f: (nat, nat) -> Cell): (g: Grid)
    ensures |g| == rows && forall i :: 0 <= i < rows ==> |g[i]| == columns
    ensures forall i, j :: 0 <= i < rows && 0 <= j < columns ==> g[i][j] == f(i, j)
  {
    seq(rows, i requires 0 <= i => seq(columns, j requires 0 <= j => f(i, j)))
  }

  /** The grid after a move: the character, the cell below if the grid scrolled, or as before. */
  ghost function MovedCell(g: Grid, m: Move, c: byte, fg: nat, bg: nat, i: nat, j: nat): Cell {
    if m.prints && i == m.atY && j == m.atX then Cell(c, fg, bg)
    else if !m.scrolls then (if i < |g| && j < |g[i]| then g[i][j] else Cell(32, fg, bg))
    else if i + 1 < |g| && j < |g[i + 1]| then g[i + 1][j] else Cell(32, fg, bg)
  }

  ghost function ErasedCell(g: Grid, c: byte, param: string, k: Look, i: nat, j: nat): Cell {
    if CsiErases(c, param, k.x, k.y, i, j) then Cell(32, k.fg, k.bg)
    else if i < |g| && j < |g[i]| then g[i][j] else Cell(32, k.fg, k.bg)
  }

  function AsChar(c: byte): char { (if c >= 0 then c else c + 256) as char }

  /** What one byte does to a terminal. */
  ghost function Next(k: Term, c: byte, columns: nat, rows: nat): (r: Term)
    requires Fits(k, columns, rows)
    ensures Fits(r, columns, rows)
  {
    if k.mode == Csi && c < 64 then k.(param := k.param + [AsChar(c)])
    else if k.mode == Csi then
      var s := CString(k.param);
      Term(CsiLook(c, s, k.look, columns, rows), Ground, "",
           MakeGrid(columns, rows, (i: nat, j: nat) => ErasedCell(k.grid, c, s, k.look, i, j)))
    else if c == 27 then k.(mode := Esc)
    else if k.mode == Esc && c == 91 then k.(mode := Csi)
    else
      var m := GroundMove(c, k.look.x, k.look.y, k.look.stomp, columns, rows);
      Term(GroundLook(m, k.look), Ground, "",
           MakeGrid(columns, rows, (i: nat, j: nat) => MovedCell(k.grid, m, c, k.look.fg, k.look.bg, i, j)))
  }

  /** What bytes do, one after the other. */
  ghost function NextAll(k: Term, buf: seq<byte>, columns: nat, rows: nat): (r: Term)
    requires Fits(k, columns, rows)
    ensures Fits(r, columns, rows)
  {
    if buf == [] then k else Next(NextAll(k, buf[..|buf| - 1], columns, rows), buf[|buf| - 1], columns, rows)
  }

  /** Bytes that are neither control characters nor negative. */
  predicate Printable(buf: seq<byte>) { forall i :: 0 <= i < |buf| ==> buf[i] >= 32 }

  /** The place of row i, column j in reading order. */
  function Place(i: nat, j: nat, columns: nat): nat { i * columns + j }

  lemma {:induction false} RowBelow(i: nat, a: nat, columns: nat)
    requires i < a
    ensures i * columns + columns <= a * columns
    decreases a
  {
    assert a * columns == (a - 1) * columns + columns;
    if i < a - 1 { RowBelow(i, a - 1, columns); }
  }

  lemma PlaceUnique(i: nat, j: nat, a: nat, b: nat, columns: nat)
    requires j < columns && b < columns && Place(i, j, columns) == Place(a, b, columns)
    ensures i == a && j == b
  {
    if i < a { RowBelow(i, a, columns); }
    if a < i { RowBelow(a, i, columns); }
  }

  lemma PlaceBelow(i: nat, j: nat, rows: nat, columns: nat)
    requires Place(i, j, columns) < rows * columns
    ensures i < rows
  {
    if rows < i { RowBelow(rows, i, columns); }
  }

  /** Where the next character goes: behind the cursor's cell if the cursor waits at the edge. */
  ghost function NextPlace(k: Look, columns: nat): nat { Place(k.y, k.x, columns) + if k.stomp then 1 else 0 }

  /** A cursor waits at the right edge only. */
  ghost predicate WaitsAtEdge(k: Look, columns: nat) { k.stomp ==> k.x + 1 == columns }

  lemma PrintOne(k: Look, c: byte, columns: nat, rows: nat)
    requires k.x < columns && k.y < rows && WaitsAtEdge(k, columns) && c >= 32
    requires NextPlace(k, columns) < rows * columns
    ensures var m := GroundMove(c, k.x, k.y, k.stomp, columns, rows);
      && m.prints && !m.scrolls && Place(m.atY, m.atX, columns) == NextPlace(k, columns)
      && NextPlace(GroundLook(m, k), columns) == NextPlace(k, columns) + 1
      && WaitsAtEdge(GroundLook(m, k), columns)
  {
    if k.stomp {
      assert Place(k.y + 1, 0, columns) == NextPlace(k, columns);
      PlaceBelow(k.y + 1, 0, rows, columns);
    }
  }

  /** The cell at row i, column j once text was written in reading order from place `at` on. */
  ghost function TextCell(g: Grid, buf: seq<byte>, at: nat, fg: nat, bg: nat, columns: nat, i: nat, j: nat): Cell
    requires i < |g| && j < |g[i]|
  {
    var p := Place(i, j, columns);
    if at <= p < at + |buf| then Cell(buf[p - at], fg, bg) else g[i][j]
  }

  ghost predicate Written(g: Grid, g': Grid, buf: seq<byte>, at: nat, fg: nat, bg: nat, columns: nat, rows: nat)
    requires |g| == |g'| == rows && forall i :: 0 <= i < rows ==> |g[i]| == |g'[i]| == columns
  {
    forall i, j :: 0 <= i < rows && 0 <= j < columns ==> g'[i][j] == TextCell(g, buf, at, fg, bg, columns, i, j)
  }

  /**
    Printable text fills the grid in reading order, going on in the next row at
    the right edge, as long as there is room; nothing else changes.
  */
  lemma {:induction false} TextFills(k: Term, buf: seq<byte>, columns: nat, rows: nat)
    requires Fits(k, columns, rows) && k.mode == Ground && WaitsAtEdge(k.look, columns) && Printable(buf)
    requires NextPlace(k.look, columns) + |buf| <= rows * columns
    ensures var r := NextAll(k, buf, columns, rows);
      && Written(k.grid, r.grid, buf, NextPlace(k.look, columns), k.look.fg, k.look.bg, columns, rows)
      && NextPlace(r.look, columns) == NextPlace(k.look, columns) + |buf| && WaitsAtEdge(r.look, columns)
      && r.mode == Ground && r.look == k.look.(x := r.look.x, y := r.look.y, stomp := r.look.stomp)
  {
    if buf != [] {
      var n := |buf| - 1;
      TextFills(k, buf[..n], columns, rows);
      var m := NextAll(k, buf[..n], columns, rows);
      PrintOne(m.look, buf[n], columns, rows);
      WrittenNext(k.grid, m, buf, NextPlace(k.look, columns), columns, rows);
    }
  }

  lemma WrittenNext(g: Grid, m: Term, buf: seq<byte>, at: nat, columns: nat, rows: nat)
    requires Fits(m, columns, rows) && m.mode == Ground && WaitsAtEdge(m.look, columns) && buf != [] && Printable(buf)
    requires |g| == rows && forall i :: 0 <= i < rows ==> |g[i]| == columns
    requires NextPlace(m.look, columns) == at + |buf| - 1 < rows * columns
    requires Written(g, m.grid, buf[..|buf| - 1], at, m.look.fg, m.look.bg, columns, rows)
    ensures Written(g, Next(m, buf[|buf| - 1], columns, rows).grid, buf, at, m.look.fg, m.look.bg, columns, rows)
  {
    var n := |buf| - 1;
    PrintOne(m.look, buf[n], columns, rows);
    var v := GroundMove(buf[n], m.look.x, m.look.y, m.look.stomp, columns, rows);
    var g' := Next(m, buf[n], columns, rows).grid;
    hide GroundMove, Place;
    forall i, j | 0 <= i < rows && 0 <= j < columns
      ensures g'[i][j] == TextCell(g, buf, at, m.look.fg, m.look.bg, columns, i, j)
    {
      if Place(i, j, columns) == at + n { PlaceUnique(i, j, v.atY, v.atX, columns); }
    }
  }

  /** Text that fits in the rest of the row is found there, byte for byte. */
  ghost predicate InRow(g: Grid, g': Grid, buf: seq<byte>, x: nat, y: nat, fg: nat, bg: nat)
    requires |g| == |g'| && forall i :: 0 <= i < |g| ==> |g[i]| == |g'[i]|
  {
    forall i, j :: 0 <= i < |g| && 0 <= j < |g[i]| ==>
      g'[i][j] == if i == y && x <= j < x + |buf| then Cell(buf[j - x], fg, bg) else g[i][j]
  }

  lemma TextInRow(k: Term, buf: seq<byte>, columns: nat, rows: nat)
    requires Fits(k, columns, rows) && k.mode == Ground && !k.look.stomp && Printable(buf)
    requires k.look.x + |buf| <= columns
    ensures InRow(k.grid, NextAll(k, buf, columns, rows).grid, buf, k.look.x, k.look.y, k.look.fg, k.look.bg)
  {
    hide NextAll, Next, Place, Written;
    PlaceInRow(k.look.x, k.look.y, |buf|, columns, rows);
    TextFills(k, buf, columns, rows);
    WrittenInRow(k.grid, NextAll(k, buf, columns, rows).grid, buf, k.look, columns, rows);
  }

  lemma PlaceInRow(x: nat, y: nat, n: nat, columns: nat, rows: nat)
    requires x + n <= columns && y < rows
    ensures Place(y, x, columns) + n <= rows * columns
  {
    RowBelow(y, rows, columns);
  }

  lemma WrittenInRow(g: Grid, g': Grid, buf: seq<byte>, k: Look, columns: nat, rows: nat)
    requires |g| == |g'| == rows && forall i :: 0 <= i < rows ==> |g[i]| == |g'[i]| == columns
    requires Written(g, g', buf, Place(k.y, k.x, columns), k.fg, k.bg, columns, rows) && k.x + |buf| <= columns
    ensures InRow(g, g', buf, k.x, k.y, k.fg, k.bg)
  {
    forall i, j | 0 <= i < rows && 0 <= j < columns
      ensures g'[i][j] == if i == k.y && k.x <= j < k.x + |buf| then Cell(buf[j - k.x], k.fg, k.bg) else g[i][j]
    {
      assert g'[i][j] == TextCell(g, buf, Place(k.y, k.x, columns), k.fg, k.bg, columns, i, j);
      if i < k.y { RowBelow(i, k.y, columns); }
      if k.y < i { RowBelow(k.y, i, columns); }
    }
  }

  class Vt {
    const screen: Screen
    const columns: nat
    const rows: nat
    const cells: array2<Cell>
    const dirty: array<bool>        // one for every row, and one to spare
    var cursorX: nat
    var cursorY: nat
    var visible: bool
    var mode: Mode
    var stomp: bool
    var param: string
    var fg: nat
    var bg: nat
    var cursorDirty: bool
    var clearOnFlush: bool

    ghost function Seen(): Look reads this { Look(cursorX, cursorY, visible, stomp, fg, bg) }

    ghost function CurrentGrid(): (g: Grid)
      requires Shape()
      reads cells
      ensures |g| == rows && forall i :: 0 <= i < rows ==> |g[i]| == columns
      ensures forall i, j :: 0 <= i < rows && 0 <= j < columns ==> g[i][j] == cells[i, j]
    {
      seq(rows, i requires 0 <= i < rows reads cells =>
        seq(columns, j requires 0 <= j < columns reads cells => cells[i, j]))
    }

    ghost function Now(): Term
      requires Shape()
      reads this, cells
    {
      Term(Seen(), mode, if mode == Csi then param else "", CurrentGrid())
    }

    ghost predicate Shape() {
      && 0 < columns < WORD && 0 < rows < WORD
      && cells.Length0 == rows && cells.Length1 == columns && dirty.Length == rows + 1
      && screen.shown.Length0 == rows && screen.shown.Length1 == columns && cells != screen.shown
    }

    /** A row that is not marked shows its cells. */
    ghost predicate RowShown(y: nat)
      requires Shape() && y < rows
      reads screen, screen.shown, cells
    {
      forall x :: 0 <= x < columns ==> screen.shown[y, x] == Render(cells[y, x], screen.CursorAt(x, y))
    }

    ghost predicate Synced()
      reads this, screen
    {
      screen.cx == cursorX && screen.cy == cursorY && screen.visible == visible
    }

    /** What holds between any two calls of helpers. */
    ghost predicate Sound()
      reads this, screen, screen.shown, cells, dirty
    {
      && Shape() && cursorY <= rows
      && (clearOnFlush ==> forall y :: 0 <= y < rows ==> dirty[y])
      && (forall y :: 0 <= y < rows && !dirty[y] ==> RowShown(y))
      && (if cursorDirty then dirty[cursorY] && (screen.visible && screen.cy < rows ==> dirty[screen.cy])
          else Synced() || !screen.visible)
    }

    /** What holds between characters: the cursor is inside the grid. */
    ghost predicate Valid()
      reads this, screen, screen.shown, cells, dirty
    {
      Shape() && Sound() && cursorX < columns && cursorY < rows
    }

    /** set_cursor */
    method SetCursor(x: nat, y: nat)
      requires Sound() && y <= rows
      modifies this`stomp, this`cursorX, this`cursorY, this`cursorDirty, dirty
      ensures Sound() && cursorX == x && cursorY == y && !stomp && cursorDirty
      ensures forall i :: 0 <= i <= rows ==> dirty[i] == (old(dirty[i]) || i == y || i == old(cursorY))
    {
      stomp := false;
      dirty[cursorY] := true;
      dirty[y] := true;
      cursorX, cursorY := x, y;
      cursorDirty := true;
    }

    /** write_char_at */
    method WriteCharAt(x: nat, y: nat, c: byte)
      requires Sound() && x < columns && y < rows
      modifies cells, dirty
      ensures Sound() && cells[y, x] == Cell(c, fg, bg)
      ensures forall i, j :: 0 <= i < rows && 0 <= j < columns && (i != y || j != x) ==> cells[i, j] == old(cells[i, j])
    {
      cells[y, x] := Cell(c, fg, bg);
      dirty[y] := true;
    }

    /** clear_line_at */
    method ClearLineAt(x: nat, y: nat, length: nat)
      requires Sound() && x + length <= columns && y < rows
      modifies cells, dirty
      ensures Sound() && dirty[y] && forall i :: 0 <= i <= rows && old(dirty[i]) ==> dirty[i]
      ensures forall i, j :: 0 <= i < rows && 0 <= j < columns ==>
                cells[i, j] == if i == y && x <= j < x + length then Cell(32, fg, bg) else old(cells[i, j])
    {
      for k := 0 to length
        invariant forall i, j :: 0 <= i < rows && 0 <= j < columns ==>
                    cells[i, j] == if i == y && x <= j < x + k then Cell(32, fg, bg) else old(cells[i, j])
        modifies cells
      {
        cells[y, x + k] := Cell(32, fg, bg);
      }
      dirty[y] := true;
      assert forall i :: 0 <= i < rows && !dirty[i] ==> old(RowShown(i));
    }

    /** Rows from one to another are cleared. */
    method ClearRows(from: nat, to: nat)
      requires Sound() && from <= to <= rows
      modifies cells, dirty
      ensures Sound() && forall i :: 0 <= i <= rows && old(dirty[i]) ==> dirty[i]
      ensures forall i :: from <= i < to ==> dirty[i]
      ensures forall i, j :: 0 <= i < rows && 0 <= j < columns ==>
                cells[i, j] == if from <= i < to then Cell(32, fg, bg) else old(cells[i, j])
    {
      for y := from to to
        invariant Sound() && forall i :: 0 <= i <= rows && old(dirty[i]) ==> dirty[i]
        invariant forall i :: from <= i < y ==> dirty[i]
        invariant forall i, j :: 0 <= i < rows && 0 <= j < columns ==>
                    cells[i, j] == if from <= i < y then Cell(32, fg, bg) else old(cells[i, j])
      {
        ClearLineAt(0, y, columns);
      }
    }

    /** clear_screen */
    method ClearScreen()
      requires Sound()
      modifies cells, dirty, this`clearOnFlush
      ensures Sound() && clearOnFlush
      ensures forall i, j :: 0 <= i < rows && 0 <= j < columns ==> cells[i, j] == Cell(32, fg, bg)
    {
      ClearRows(0, rows);
      clearOnFlush := true;
    }

    /** scroll_up */
    method ScrollUp()
      requires Sound()
      modifies cells, dirty
      ensures Sound() && forall i :: 0 <= i <= rows && old(dirty[i]) ==> dirty[i]
      ensures forall i, j :: 0 <= i < rows && 0 <= j < columns ==>
                cells[i, j] == if i + 1 < rows then old(cells[i + 1, j]) else Cell(32, fg, bg)
    {
      forall i, j | 0 <= i < rows - 1 && 0 <= j < columns { cells[i, j] := cells[i + 1, j]; }
      for y := 0 to rows - 1
        invariant forall i :: 0 <= i <= rows ==> dirty[i] == (old(dirty[i]) || i < y)
        modifies dirty
      {
        dirty[y] := true;
      }
      assert forall y :: 0 <= y < rows && !dirty[y] ==> old(RowShown(y));
      ClearLineAt(0, rows - 1, columns);
    }

    /** One row of vt_flush. */
    method DrawRow(y: nat)
      requires Shape() && y < rows
      modifies screen.shown
      ensures RowShown(y)
      ensures forall i, j :: 0 <= i < rows && 0 <= j < columns && i != y ==>
        screen.shown[i, j] == old(screen.shown[i, j])
    {
      for x := 0 to columns
        invariant forall j :: 0 <= j < x ==> screen.shown[y, j] == Render(cells[y, j], screen.CursorAt(j, y))
        invariant forall i, j :: 0 <= i < rows && 0 <= j < columns && i != y ==>
          screen.shown[i, j] == old(screen.shown[i, j])
      {
        screen.Put(x, y, cells[y, x]);
      }
    }

    /**
      vt_flush: although only the marked rows are drawn, every row shows its cells
      afterwards. The screen has the cursor where the terminal has it, exactly if
      the cursor was marked or was there already.
    */
    method Flush()
      requires Sound()
      modifies this`clearOnFlush, this`cursorDirty, dirty, screen, screen.shown
      ensures Sound() && !clearOnFlush && !cursorDirty
      ensures forall y :: 0 <= y < rows ==> !dirty[y] && RowShown(y)
      ensures Synced() <==> old(cursorDirty) || old(Synced())
    {
      ghost var cleared := clearOnFlush;
      if clearOnFlush {
        screen.Clear(bg);
        clearOnFlush := false;
      }
      if cursorDirty {
        screen.SetCursor(cursorX, cursorY, visible);
        cursorDirty := false;
      }
      for y := 0 to rows
        invariant Sound() && !clearOnFlush && !cursorDirty
        invariant Synced() <==> old(cursorDirty) || old(Synced())
        invariant forall i :: 0 <= i < y ==> !dirty[i]
      {
        if dirty[y] {
          ghost var before := dirty[..];
          DrawRow(y);
          dirty[y] := false;
          assert forall i :: 0 <= i < rows && i != y ==> dirty[i] == before[i];
        }
      }
    }

    /** vt_create */
    constructor (screen: Screen)
      requires 0 < screen.shown.Length0 < WORD && 0 < screen.shown.Length1 < WORD && !screen.visible
      modifies screen, screen.shown
      ensures Valid() && this.screen == screen && fresh(cells) && fresh(dirty)
      ensures cursorX == cursorY == 0 && visible && mode == Ground && !stomp
      ensures forall y :: 0 <= y < rows ==> !dirty[y] && RowShown(y)
      ensures !Synced()
    {
      this.screen := screen;
      rows, columns := screen.shown.Length0, screen.shown.Length1;
      cells := new Cell[screen.shown.Length0, screen.shown.Length1]((_, _) => Cell(0, 0, 0));
      dirty := new bool[screen.shown.Length0 + 1](_ => true);
      cursorX, cursorY, visible, mode, stomp, param := 0, 0, true, Ground, false, "";
      fg, bg := DEFAULT_FG, DEFAULT_BG;
      cursorDirty, clearOnFlush := false, false;
      new;
      ClearScreen();
      Flush();
    }

    /** The cell at row i, column j after a move: the character, the cell below if the grid scrolled, or as before. */
    twostate predicate CellsMoved(m: Move, c: byte)
      requires Shape()
      reads this, cells
    {
      forall i, j :: 0 <= i < rows && 0 <= j < columns ==>
        cells[i, j] ==
          if m.prints && i == m.atY && j == m.atX then Cell(c, fg, bg)
          else if !m.scrolls then old(cells[i, j])
          else if i + 1 < rows then old(cells[i + 1, j]) else Cell(32, fg, bg)
    }

    /** The scrolling at the bottom edge. */
    method ScrollIfBelow()
      requires Sound()
      modifies this`stomp, this`cursorX, this`cursorY, this`cursorDirty, dirty, cells
      ensures Sound() && cursorY < rows && cursorX == old(cursorX)
      ensures old(cursorY) < rows ==> cursorY == old(cursorY) && stomp == old(stomp)
      ensures old(cursorY) >= rows ==> cursorY == rows - 1 && !stomp
      ensures forall i, j :: 0 <= i < rows && 0 <= j < columns ==>
        cells[i, j] ==
          if old(cursorY) < rows then old(cells[i, j])
          else if i + 1 < rows then old(cells[i + 1, j])
          else Cell(32, fg, bg)
    {
      if cursorY >= rows {
        ScrollUp();
        SetCursor(cursorX, rows - 1);
      }
    }

    /** handle_ground's last lines */
    method StopAtEdge()
      requires Sound() && cursorY < rows
      modifies this`stomp, this`cursorX, this`cursorY, this`cursorDirty, dirty
      ensures Valid() && (cursorX, cursorY) == (AtEdge(old(cursorX), old(cursorY), columns).0, old(cursorY))
      ensures stomp == if old(cursorX) >= columns then true else old(stomp)
    {
      if cursorX >= columns {
        SetCursor(columns - 1, cursorY);
        stomp := true;
      }
    }

    /** handle_ground's default case, for a character that is not negative. */
    method Print(c: byte)
      requires Valid() && c >= 0 && c !in {8, 9, 10, 13, 27}
      modifies this`stomp, this`cursorX, this`cursorY, this`cursorDirty, dirty, cells
      ensures Valid()
      ensures var m := GroundMove(c, old(cursorX), old(cursorY), old(stomp), columns, rows);
        cursorX == m.x && cursorY == m.y && stomp == m.stomp && CellsMoved(m, c)
    {
      if stomp { SetCursor(0, cursorY + 1); }
      ScrollIfBelow();
      WriteCharAt(cursorX, cursorY, c);
      SetCursor(cursorX + 1, cursorY);
      StopAtEdge();
    }

    /** handle_ground */
    method HandleGround(c: byte)
      requires Valid()
      modifies this`stomp, this`cursorX, this`cursorY, this`cursorDirty, this`mode, dirty, cells
      ensures Valid() && mode == if c == 27 then Esc else old(mode)
      ensures c == 27 ==> cursorX == old(cursorX) && cursorY == old(cursorY) && stomp == old(stomp) && unchanged(cells)
      ensures c != 27 ==> var m := GroundMove(c, old(cursorX), old(cursorY), old(stomp), columns, rows);
        cursorX == m.x && cursorY == m.y && stomp == m.stomp && CellsMoved(m, c)
    {
      if c == 27 {
        mode := Esc;
      } else if c == 13 {
        SetCursor(0, cursorY);
      } else if c == 10 {
        SetCursor(0, cursorY + 1);
        ScrollIfBelow();
      } else if c == 8 {
        if cursorX > 0 { SetCursor(cursorX - 1, cursorY); }
      } else if c == 9 {
        SetCursor(RoundUp(cursorX + 1, TAB_STOP), cursorY);
        StopAtEdge();
      } else if c >= 0 {
        Print(c);
      }
    }

    /** handle_csi_cuu, cud, cuf, cub, cnl and cpl */
    method MoveCursor(c: byte)
      requires Valid() && 65 <= c <= 70
      modifies this`stomp, this`cursorX, this`cursorY, this`cursorDirty, dirty
      ensures Valid() && !stomp
      ensures (cursorX, cursorY) == CsiCursor(c, param, old(cursorX), old(cursorY), columns, rows)
    {
      hide Sound, Atoi, Fields, AsUnsigned;
      var n := AsUnsigned(Atoi(param));
      if n == 0 { n := 1; }
      SoundShape();
      if c == 65 {
        if n > cursorY { SetCursor(cursorX, 0); } else { SetCursor(cursorX, cursorY - n); }
      } else if c == 66 {
        if Plus(n, cursorY) >= rows { SetCursor(cursorX, rows - 1); } else { SetCursor(cursorX, Plus(cursorY, n)); }
      } else if c == 67 {
        if Plus(n, cursorX) >= columns {
          SetCursor(columns - 1, cursorY);
        } else {
          SetCursor(Plus(cursorX, n), cursorY);
        }
      } else if c == 68 {
        if n > cursorX { SetCursor(0, cursorY); } else { SetCursor(cursorX - n, cursorY); }
      } else if c == 69 {
        if Plus(n, cursorY) >= rows { SetCursor(0, rows - 1); } else { SetCursor(0, Plus(cursorY, n)); }
      } else {
        if n > cursorY { SetCursor(0, 0); } else { SetCursor(0, cursorY - n); }
      }
    }

    lemma SoundShape()
      requires Sound()
      ensures Shape()
    {
    }

    /** handle_csi_cha and handle_csi_cup */
    method PlaceCursor(c: byte)
      requires Valid() && 71 <= c <= 72
      modifies this`stomp, this`cursorX, this`cursorY, this`cursorDirty, dirty
      ensures Valid() && !stomp
      ensures (cursorX, cursorY) == CsiCursor(c, param, old(cursorX), old(cursorY), columns, rows)
    {
      hide Sound, Atoi, Fields;
      SoundShape();
      if c == 71 {
        var n := AsUnsigned(Atoi(param));
        if n > 0 { n := n - 1; }
        if n >= columns { n := columns - 1; }
        SetCursor(n, cursorY);
      } else {
        var f := Fields(param, "");
        var x, y := 0, 0;
        if |f| > 0 { y := PlaceOf(f[0]); }
        if |f| > 1 { x := PlaceOf(f[1]); }
        if x >= columns { x := columns - 1; }
        if y >= rows { y := rows - 1; }
        SetCursor(x, y);
      }
    }

    /** handle_csi_ed and handle_csi_el */
    method Erase(c: byte)
      requires Valid() && (c == 74 || c == 75)
      modifies cells, dirty, this`clearOnFlush
      ensures Valid()
      ensures forall i, j :: 0 <= i < rows && 0 <= j < columns ==>
                cells[i, j] == if CsiErases(c, param, cursorX, cursorY, i, j) then Cell(32, fg, bg)
                  else old(cells[i, j])
    {
      var n := Atoi(param);
      if c == 74 {
        if n == 0 {
          ClearLineAt(cursorX, cursorY, columns - cursorX);
          ClearRows(cursorY + 1, rows);
        } else if n == 1 {
          ClearRows(0, cursorY);
          ClearLineAt(0, cursorY, cursorX + 1);
        } else if n == 2 {
          ClearScreen();
        }
      } else if n == 0 {
        ClearLineAt(cursorX, cursorY, columns - cursorX);
      } else if n == 1 {
        ClearLineAt(0, cursorY, cursorX + 1);
      } else if n == 2 {
        ClearLineAt(0, cursorY, columns);
      }
    }

    /** handle_csi_sgr */
    method SelectGraphicRendition()
      requires Valid()
      modifies this`fg, this`bg
      ensures Valid()
      ensures var k := SgrAll(Colours(old(fg), old(bg), false), Fields(param, ""));
        if param == "" then fg == DEFAULT_FG && bg == DEFAULT_BG else fg == k.fg && bg == k.bg
    {
      if param == "" {
        fg, bg := DEFAULT_FG, DEFAULT_BG;
        return;
      }
      var fields, k := Fields(param, ""), Colours(fg, bg, false);
      var i := 0;
      assert fields[0..] == fields;
      while i < |fields|
        invariant i <= |fields| && Valid()
        invariant SgrAll(k, fields[i..]) == SgrAll(Colours(old(fg), old(bg), false), fields)
      {
        assert fields[i..][0] == fields[i] && fields[i..][1..] == fields[i + 1..];
        k := Sgr(k, Atoi(fields[i]));
        i := i + 1;
      }
      fg, bg := k.fg, k.bg;
    }

    /** handle_csi_dectcem */
    method CursorMode(c: byte)
      requires Valid() && (c == 104 || c == 108)
      modifies this`visible, this`cursorDirty, dirty
      ensures Valid() && visible == if param == "?25" then c == 104 else old(visible)
      ensures param == "?25" ==> dirty[cursorY] && cursorDirty
      ensures forall i :: 0 <= i <= rows ==> dirty[i] == (old(dirty[i]) || (param == "?25" && i == cursorY))
    {
      if param != "?25" { return; }
      visible := c == 104;
      dirty[cursorY] := true;
      cursorDirty := true;
    }

    /** Exactly the cells that the control sequence erases are cleared. */
    twostate predicate CellsErased(c: byte, s: string)
      requires Shape()
      reads this, cells
    {
      forall i, j :: 0 <= i < rows && 0 <= j < columns ==>
        cells[i, j] == if CsiErases(c, s, old(cursorX), old(cursorY), i, j) then Cell(32, old(fg), old(bg))
          else old(cells[i, j])
    }

    /** The switch of handle_state_csi */
    method Dispatch(c: byte)
      requires Valid() && c >= 64
      modifies this, dirty, cells
      ensures Valid() && mode == old(mode) && param == old(param)
      ensures Seen() == CsiLook(c, param, old(Seen()), columns, rows) && CellsErased(c, param)
    {
      hide Sound, Atoi, Fields, CsiCursor, SgrAll;
      if 65 <= c <= 70 { MoveCursor(c); }
      else if c == 71 || c == 72 { PlaceCursor(c); }
      else if c == 74 || c == 75 { Erase(c); }
      else if c == 109 { SelectGraphicRendition(); }
      else if c == 104 || c == 108 { CursorMode(c); }
    }

    /** handle_state_csi: parameters are collected; a final byte acts on the string they form. */
    method HandleCsi(c: byte)
      requires Valid()
      modifies this, dirty, cells
      ensures Valid()
      ensures c < 64 ==> mode == old(mode) && Seen() == old(Seen()) && unchanged(cells)
      ensures c < 64 ==> param == old(param) + [(if c >= 0 then c else c + 256) as char]
      ensures c >= 64 ==> mode == Ground && Seen() == CsiLook(c, CString(old(param)), old(Seen()), columns, rows)
      ensures c >= 64 ==> CellsErased(c, CString(old(param)))
    {
      if c < 64 {
        param := param + [(if c >= 0 then c else c + 256) as char];
        return;
      }
      param := CString(param);
      Dispatch(c);
      mode := Ground;
    }

    /** on_char */
    method OnChar(c: byte)
      requires Valid()
      modifies this, dirty, cells
      ensures Valid()
      ensures (old(mode) == Ground && c != 27) || (old(mode) == Esc && c !in {27, 91}) ==>
        var m := GroundMove(c, old(cursorX), old(cursorY), old(stomp), columns, rows);
        mode == Ground && Seen() == GroundLook(m, old(Seen())) && CellsMoved(m, c)
      ensures old(mode) == Csi && c >= 64 ==>
        mode == Ground && Seen() == CsiLook(c, CString(old(param)), old(Seen()), columns, rows)
      ensures old(mode) == Csi && c >= 64 ==> CellsErased(c, CString(old(param)))
      ensures (old(mode) == Csi && c < 64) || (old(mode) != Csi && c == 27) || (old(mode) == Esc && c == 91) ==>
        Seen() == old(Seen()) && unchanged(cells)
      ensures c == 27 && old(mode) != Csi ==> mode == Esc
      ensures c == 91 && old(mode) == Esc ==> mode == Csi && param == ""
      ensures old(mode) == Csi && c < 64 ==>
        mode == Csi && param == old(param) + [(if c >= 0 then c else c + 256) as char]
    {
      match mode
      case Ground => HandleGround(c);
      case Esc =>
        if c == 91 {
          param := "";
          mode := Csi;
        } else {
          mode := Ground;
          HandleGround(c);
        }
      case Csi => HandleCsi(c);
    }

    lemma GridIs(g: Grid)
      requires Shape() && |g| == rows && forall i :: 0 <= i < rows ==> |g[i]| == columns
      requires forall i, j :: 0 <= i < rows && 0 <= j < columns ==> cells[i, j] == g[i][j]
      ensures CurrentGrid() == g
    {
      forall i | 0 <= i < rows ensures CurrentGrid()[i] == g[i] {
        forall j | 0 <= j < columns ensures CurrentGrid()[i][j] == g[i][j] { assert cells[i, j] == g[i][j]; }
      }
    }

    /** on_char, as a step of the terminal as a value. */
    method OneByte(c: byte)
      requires Valid()
      modifies this, dirty, cells
      ensures Valid() && Now() == Next(old(Now()), c, columns, rows)
    {
      hide Sound, GroundMove, CsiLook, CsiErases, CString, Atoi;
      ghost var k := Now();
      OnChar(c);
      if k.mode == Csi && c >= 64 {
        GridIs(MakeGrid(columns, rows, (i: nat, j: nat) => ErasedCell(k.grid, c, CString(k.param), k.look, i, j)));
      } else if k.mode == Csi || c == 27 || (k.mode == Esc && c == 91) {
        GridIs(k.grid);
      } else {
        ghost var m := GroundMove(c, k.look.x, k.look.y, k.look.stomp, columns, rows);
        GridIs(MakeGrid(columns, rows, (i: nat, j: nat) => MovedCell(k.grid, m, c, k.look.fg, k.look.bg, i, j)));
      }
    }

    /** vt_write: the effects of the bytes, in order. */
    method Write(buf: seq<byte>)
      requires Valid()
      modifies this, dirty, cells
      ensures Valid() && Now() == NextAll(old(Now()), buf, columns, rows)
      ensures old(mode == Ground && !stomp && cursorX + |buf| <= columns) && Printable(buf) ==>
        InRow(old(CurrentGrid()), CurrentGrid(), buf, old(cursorX), old(cursorY), old(fg), old(bg))
    {
      hide Sound, Next, InRow;
      for i := 0 to |buf|
        invariant Valid() && Now() == NextAll(old(Now()), buf[..i], columns, rows)
      {
        OneByte(buf[i]);
        assert buf[..i + 1][..i] == buf[..i];
      }
      assert buf[..|buf|] == buf;
      if old(mode == Ground && !stomp && cursorX + |buf| <= columns) && Printable(buf) {
        TextInRow(old(Now()), buf, columns, rows);
      }
    }

    /** The screen shows the bytes in row y from column x on. */
    ghost predicate ShownInRow(buf: seq<byte>, x: nat, y: nat, fg: nat, bg: nat)
      requires Shape() && y < rows && x + |buf| <= columns
      reads screen, screen.shown
    {
      forall i :: 0 <= i < |buf| ==>
        screen.shown[y, x + i] == Render(Cell(buf[i], fg, bg), screen.CursorAt(x + i, y))
    }

    /** vt_write and vt_flush: the screen shows what the bytes, in order, made of the grid. */
    method WriteAndFlush(buf: seq<byte>)
      requires Valid()
      modifies this, dirty, cells, screen, screen.shown
      ensures Valid() && Now() == NextAll(old(Now()), buf, columns, rows)
      ensures forall y, x :: 0 <= y < rows && 0 <= x < columns ==>
        screen.shown[y, x] == Render(Now().grid[y][x], screen.CursorAt(x, y))
      ensures old(mode == Ground && !stomp && cursorX + |buf| <= columns) && Printable(buf) ==>
        ShownInRow(buf, old(cursorX), old(cursorY), old(fg), old(bg))
    {
      Write(buf);
      Flush();
      forall y, x | 0 <= y < rows && 0 <= x < columns
        ensures screen.shown[y, x] == Render(cells[y, x], screen.CursorAt(x, y))
      {
        assert RowShown(y);
      }
    }

    /** vt_invalidate_all */
    method InvalidateAll()
      requires Valid()
      modifies this`cursorDirty, this`clearOnFlush, dirty
      ensures Valid() && cursorDirty && clearOnFlush
    {
      for y := 0 to rows
        invariant Valid() && forall i :: 0 <= i < y ==> dirty[i]
        invariant cursorDirty == old(cursorDirty)
      {
        dirty[y] := true;
      }
      cursorDirty, clearOnFlush := true, true;
    }
  }
}
