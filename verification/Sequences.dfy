/**
  Control sequences as programs send them to the terminal of kernel/console/vt.c:
  ESC [, parameters in decimal, and a final byte.
*/
module Sequences {
  import opened Vt

  // ------------------------------------------------------------------- decimals

  function Digit(d: nat): char
    requires d < 10
  {
    '0' + d as char
  }

  /** A number in decimal, as printf writes it. */
  function Decimal(n: nat): (s: string)
    ensures s != "" && forall i :: 0 <= i < |s| ==> IsDigit(s[i])
  {
    if n < 10 then [Digit(n)] else Decimal(n / 10) + [Digit(n % 10)]
  }

  lemma {:induction false} DigitsAppend(s: string, d: nat, v: int)
    requires d < 10 && forall i :: 0 <= i < |s| ==> IsDigit(s[i])
    ensures Digits(s + [Digit(d)], v) == AsInt(AsInt(Digits(s, v) * 10) + d)
    decreases |s|
  {
    var t := s + [Digit(d)];
    if s == "" {
      assert t == [Digit(d)] && t[1..] == "";
    } else {
      assert t[0] == s[0] && t[1..] == s[1..] + [Digit(d)];
      DigitsAppend(s[1..], d, AsInt(AsInt(v * 10) + (s[0] as int - '0' as int)));
    }
  }

  lemma SmallInt(n: int)
    requires 0 <= n < WORD / 2
    ensures AsInt(n) == n && AsUnsigned(n) == n
  {
  }

  lemma {:induction false} DigitsRead(n: nat)
    requires n < WORD / 2
    ensures Digits(Decimal(n), 0) == n
  {
    if n < 10 {
      assert Decimal(n) == "" + [Digit(n)];
      DigitsAppend("", n, 0);
      SmallInt(n);
    } else {
      DigitsRead(n / 10);
      DigitsAppend(Decimal(n / 10), n % 10, 0);
      SmallInt(n / 10 * 10);
      SmallInt(n);
    }
  }

  /** atoi reads a number that was written in decimal. */
  lemma AtoiReads(n: nat)
    requires n < WORD / 2
    ensures Atoi(Decimal(n)) == n && AsUnsigned(Atoi(Decimal(n))) == n
  {
    DigitsRead(n);
    SmallInt(n);
    assert IsDigit(Decimal(n)[0]);
  }

  lemma {:induction false} FieldsRun(s: string, rest: string, current: string)
    requires ';' !in s
    ensures Fields(s + rest, current) == Fields(rest, current + s)
    decreases |s|
  {
    if s == "" {
      assert s + rest == rest && current + s == current;
    } else {
      assert (s + rest)[1..] == s[1..] + rest && current + [s[0]] + s[1..] == current + s;
      FieldsRun(s[1..], rest, current + [s[0]]);
    }
  }

  /** Two numbers with a semicolon between them are read as two fields. */
  lemma TwoFields(a: nat, b: nat)
    ensures Fields(Decimal(a) + ";" + Decimal(b), "") == [Decimal(a), Decimal(b)]
  {
    var x, y := Decimal(a), Decimal(b);
    assert x + ";" + y == x + (";" + y) && "" + x == x && (";" + y)[1..] == y && "" + y == y && y + "" == y;
    FieldsRun(x, ";" + y, "");
    FieldsRun(y, "", "");
  }

  // ------------------------------------------------------------- whole sequences

  /** Characters that can be parameters: they end no sequence. */
  predicate IsParam(s: string) { forall i :: 0 <= i < |s| ==> 0 < s[i] as int < 64 }

  function Bytes(s: string): (b: seq<byte>)
    requires IsParam(s)
    ensures |b| == |s| && forall i :: 0 <= i < |s| ==> b[i] == s[i] as int
  {
    seq(|s|, i requires 0 <= i < |s| => s[i] as int)
  }

  /** ESC [ parameters final */
  function Sequence(s: string, final: byte): seq<byte>
    requires IsParam(s)
  {
    [27, 91] + Bytes(s) + [final]
  }

  lemma {:induction false} Collects(k: Term, s: string, columns: nat, rows: nat)
    requires Fits(k, columns, rows) && k.mode != Csi && IsParam(s) && k.param == ""
    ensures NextAll(k, [27, 91] + Bytes(s), columns, rows) == k.(mode := Csi, param := s)
    decreases |s|
  {
    hide Next;
    var b: seq<byte> := [27, 91] + Bytes(s);
    if s == "" {
      Introduces(k, columns, rows);
      var esc: seq<byte> := [27];
      assert esc[..0] == [] && NextAll(k, esc, columns, rows) == k.(mode := Esc);
      assert b == [27, 91] && b[..1] == esc;
    } else {
      var n := |s| - 1;
      assert b[..|b| - 1] == [27, 91] + Bytes(s[..n]) && b[|b| - 1] == s[n] as int;
      Collects(k, s[..n], columns, rows);
      CollectsOne(k.(mode := Csi, param := s[..n]), s[n], columns, rows);
      assert s[..n] + [s[n]] == s;
    }
  }

  lemma Introduces(k: Term, columns: nat, rows: nat)
    requires Fits(k, columns, rows) && k.mode != Csi
    ensures Next(k, 27, columns, rows) == k.(mode := Esc)
    ensures Next(k.(mode := Esc), 91, columns, rows) == k.(mode := Csi)
  {
  }

  lemma CollectsOne(k: Term, c: char, columns: nat, rows: nat)
    requires Fits(k, columns, rows) && k.mode == Csi && c as int < 64
    ensures Next(k, c as int, columns, rows) == k.(param := k.param + [c])
  {
  }

  /** The grid where the sequence has cleared what it erases. */
  ghost predicate Erased(k: Term, r: Term, s: string, final: byte, columns: nat, rows: nat)
    requires Fits(k, columns, rows) && Fits(r, columns, rows)
  {
    forall i, j :: 0 <= i < rows && 0 <= j < columns ==>
      r.grid[i][j] == if CsiErases(final, s, k.look.x, k.look.y, i, j) then Cell(32, k.look.fg, k.look.bg)
                      else k.grid[i][j]
  }

  lemma FinalActs(k: Term, s: string, final: byte, columns: nat, rows: nat)
    requires Fits(k, columns, rows) && IsParam(s) && final >= 64
    ensures var r := Next(k.(mode := Csi, param := s), final, columns, rows);
      && r.mode == Ground && r.param == "" && r.look == CsiLook(final, s, k.look, columns, rows)
      && Erased(k, r, s, final, columns, rows)
  {
    hide CsiLook, CsiErases, GroundMove;
    assert CString(s) == s;
  }

  lemma SequenceSplit(s: string, final: byte)
    requires IsParam(s)
    ensures var b := Sequence(s, final);
      b != [] && b[..|b| - 1] == [27, 91] + Bytes(s) && b[|b| - 1] == final
  {
  }

  /** A sequence does what its final byte stands for, with the parameters between; it leaves no trace else. */
  lemma SequenceActs(k: Term, s: string, final: byte, columns: nat, rows: nat)
    requires Fits(k, columns, rows) && k.mode != Csi && k.param == "" && IsParam(s) && final >= 64
    ensures var r := NextAll(k, Sequence(s, final), columns, rows);
      && r.mode == Ground && r.param == "" && r.look == CsiLook(final, s, k.look, columns, rows)
      && Erased(k, r, s, final, columns, rows)
  {
    hide CsiLook, Next, Sequence, Bytes, Erased;
    SequenceSplit(s, final);
    Collects(k, s, columns, rows);
    FinalActs(k, s, final, columns, rows);
  }

  lemma DecimalParam(n: nat)
    ensures IsParam(Decimal(n)) && ';' !in Decimal(n)
  {
  }

  /** Row and column, as parameters. */
  function Position(row: nat, column: nat): string { Decimal(row) + ";" + Decimal(column) }

  /** CSI row ; column H puts the cursor there, counted from 1, or at the edge of the grid. */
  lemma CursorPosition(k: Term, row: nat, column: nat, columns: nat, rows: nat)
    requires Fits(k, columns, rows) && k.mode != Csi && k.param == ""
    requires 0 < row < WORD / 2 && 0 < column < WORD / 2
    ensures IsParam(Position(row, column))
    ensures var r := NextAll(k, Sequence(Position(row, column), 72), columns, rows);
      && r.look == k.look.(x := (if column <= columns then column else columns) - 1,
                           y := (if row <= rows then row else rows) - 1, stomp := false)
      && r.grid == k.grid && r.mode == Ground
  {
    hide Decimal, Atoi, Fields, NextAll, Sequence, CsiLook;
    DecimalParam(row);
    DecimalParam(column);
    var s := Position(row, column);
    SequenceActs(k, s, 72, columns, rows);
    PositionLook(k.look, row, column, columns, rows);
    SameGrid(k, NextAll(k, Sequence(s, 72), columns, rows), columns, rows);
  }

  lemma PositionLook(k: Look, row: nat, column: nat, columns: nat, rows: nat)
    requires k.x < columns < WORD && k.y < rows < WORD && 0 < row < WORD / 2 && 0 < column < WORD / 2
    ensures CsiLook(72, Position(row, column), k, columns, rows)
         == k.(x := (if column <= columns then column else columns) - 1,
               y := (if row <= rows then row else rows) - 1, stomp := false)
  {
    hide Decimal, Atoi, Fields;
    TwoFields(row, column);
    AtoiReads(row);
    AtoiReads(column);
  }

  lemma SameGrid(k: Term, r: Term, columns: nat, rows: nat)
    requires Fits(k, columns, rows) && Fits(r, columns, rows)
    requires forall i, j :: 0 <= i < rows && 0 <= j < columns ==> r.grid[i][j] == k.grid[i][j]
    ensures r.grid == k.grid
  {
    forall i | 0 <= i < rows ensures r.grid[i] == k.grid[i] {
      assert forall j :: 0 <= j < columns ==> r.grid[i][j] == k.grid[i][j];
    }
  }

  /** CSI n A, B, C and D move the cursor up, down, right and left by n, as far as the grid reaches. */
  lemma CursorMoves(k: Term, n: nat, final: byte, columns: nat, rows: nat)
    requires Fits(k, columns, rows) && k.mode != Csi && k.param == "" && 65 <= final <= 68
    requires 0 < n < WORD / 2 && columns <= WORD / 2 && rows <= WORD / 2
    ensures IsParam(Decimal(n))
    ensures var r, x, y := NextAll(k, Sequence(Decimal(n), final), columns, rows), k.look.x, k.look.y;
      && r.grid == k.grid
      && (final == 65 ==> r.look.x == x && r.look.y == if n <= y then y - n else 0)
      && (final == 66 ==> r.look.x == x && r.look.y == if y + n < rows then y + n else rows - 1)
      && (final == 67 ==> r.look.y == y && r.look.x == if x + n < columns then x + n else columns - 1)
      && (final == 68 ==> r.look.y == y && r.look.x == if n <= x then x - n else 0)
  {
    hide Decimal, Atoi, Fields, NextAll, Sequence;
    DecimalParam(n);
    SequenceActs(k, Decimal(n), final, columns, rows);
    AtoiReads(n);
    SameGrid(k, NextAll(k, Sequence(Decimal(n), final), columns, rows), columns, rows);
  }

  /** CSI 2 J clears every cell and leaves the cursor. */
  lemma ClearsAll(k: Term, columns: nat, rows: nat)
    requires Fits(k, columns, rows) && k.mode != Csi && k.param == ""
    ensures IsParam(Decimal(2))
    ensures var r := NextAll(k, Sequence(Decimal(2), 74), columns, rows);
      && r.look == k.look
      && forall i, j :: 0 <= i < rows && 0 <= j < columns ==> r.grid[i][j] == Cell(32, k.look.fg, k.look.bg)
  {
    hide Decimal, Atoi, Fields, NextAll, Sequence;
    DecimalParam(2);
    SequenceActs(k, Decimal(2), 74, columns, rows);
    AtoiReads(2);
  }

  /** CSI K clears the rest of the row, from the cursor on. */
  lemma ClearsRestOfRow(k: Term, columns: nat, rows: nat)
    requires Fits(k, columns, rows) && k.mode != Csi && k.param == ""
    ensures var r := NextAll(k, Sequence("", 75), columns, rows);
      && r.look == k.look
      && forall i, j :: 0 <= i < rows && 0 <= j < columns ==>
        r.grid[i][j] == if i == k.look.y && j >= k.look.x then Cell(32, k.look.fg, k.look.bg) else k.grid[i][j]
  {
    hide NextAll, Sequence;
    SequenceActs(k, "", 75, columns, rows);
  }

  /** Text sent behind a cursor position is found at that position. */
  lemma TextAt(k: Term, row: nat, column: nat, text: seq<byte>, columns: nat, rows: nat)
    requires Fits(k, columns, rows) && k.mode != Csi && k.param == "" && Printable(text)
    requires 0 < row <= rows && 0 < column && column - 1 + |text| <= columns && column <= columns
    requires rows < WORD / 2 && columns < WORD / 2
    ensures IsParam(Position(row, column))
    ensures var r := NextAll(NextAll(k, Sequence(Position(row, column), 72), columns, rows), text, columns, rows);
      InRow(k.grid, r.grid, text, column - 1, row - 1, k.look.fg, k.look.bg)
  {
    hide NextAll, InRow, Position, Printable, Sequence, IsParam;
    CursorPosition(k, row, column, columns, rows);
    TextInRow(NextAll(k, Sequence(Position(row, column), 72), columns, rows), text, columns, rows);
  }

  lemma OneField(n: nat)
    ensures Fields(Decimal(n), "") == [Decimal(n)] && Decimal(n) != ""
  {
    DecimalParam(n);
    assert Decimal(n) + "" == Decimal(n) && "" + Decimal(n) == Decimal(n);
    FieldsRun(Decimal(n), "", "");
  }

  predicate IsColour(n: nat) { n == 0 || 30 <= n <= 37 || 40 <= n <= 47 || 90 <= n <= 97 || 100 <= n <= 107 }

  /** Numbers from 30 choose the colour of the text, from 40 that behind it, from 90 and 100 the bright ones. */
  function Coloured(k: Look, n: nat): Look
    requires IsColour(n)
  {
    if n == 0 then k.(fg := 15, bg := 0)
    else
      var colour, bright := [0, 4, 2, 6, 1, 5, 3, 7][n % 10], if n < 90 then 0 else 8;
      if n / 10 == 3 || n / 10 == 9 then k.(fg := colour + bright) else k.(bg := colour + bright)
  }

  lemma ColourLook(k: Look, n: nat)
    requires IsColour(n)
    ensures SgrLook(k, Decimal(n)) == Coloured(k, n)
  {
    hide Decimal, Atoi, Fields;
    OneField(n);
    AtoiReads(n);
    var d, c := [Decimal(n)], Colours(k.fg, k.bg, false);
    assert d[1..] == [];
    assert SgrAll(c, d) == SgrAll(Sgr(c, n), []) == Sgr(c, n);
  }

  /** CSI n m selects a colour to write with or on; CSI 0 m the usual ones. */
  lemma SelectsColour(k: Term, n: nat, columns: nat, rows: nat)
    requires Fits(k, columns, rows) && k.mode != Csi && k.param == ""
    requires IsColour(n)
    ensures IsParam(Decimal(n))
    ensures var r := NextAll(k, Sequence(Decimal(n), 109), columns, rows);
      && r.grid == k.grid
      && r.look == Coloured(k.look, n)
  {
    hide Decimal, Atoi, Fields, NextAll, Sequence;
    DecimalParam(n);
    SequenceActs(k, Decimal(n), 109, columns, rows);
    ColourLook(k.look, n);
    SameGrid(k, NextAll(k, Sequence(Decimal(n), 109), columns, rows), columns, rows);
  }

  /** CSI ? 25 l and CSI ? 25 h hide and show the cursor. */
  lemma HidesCursor(k: Term, show: bool, columns: nat, rows: nat)
    requires Fits(k, columns, rows) && k.mode != Csi && k.param == ""
    ensures IsParam("?25")
    ensures var r := NextAll(k, Sequence("?25", if show then 104 else 108), columns, rows);
      r.look == k.look.(visible := show) && r.grid == k.grid
  {
    hide NextAll, Sequence, Atoi;
    var final := if show then 104 else 108;
    SequenceActs(k, "?25", final, columns, rows);
    SameGrid(k, NextAll(k, Sequence("?25", final), columns, rows), columns, rows);
  }

  // ------------------------------------------------------------ control characters

  /** As many backspaces as there were characters bring the cursor back, if the text did not reach the edge. */
  lemma {:induction false} Backspaces(k: Term, n: nat, columns: nat, rows: nat)
    requires Fits(k, columns, rows) && k.mode == Ground && n <= k.look.x && k.param == ""
    ensures var r := NextAll(k, seq(n, _ => 8), columns, rows);
      && r.mode == Ground && r.grid == k.grid && r.param == ""
      && r.look == k.look.(x := k.look.x - n, stomp := k.look.stomp && n == 0)
  {
    hide Next;
    var b: seq<byte> := seq(n, _ => 8);
    if n == 0 {
      assert b == [];
    } else {
      var less: seq<byte> := seq(n - 1, _ => 8);
      assert b[..n - 1] == less && b[n - 1] == 8;
      Backspaces(k, n - 1, columns, rows);
      OneBack(NextAll(k, less, columns, rows), columns, rows);
    }
  }

  lemma OneBack(k: Term, columns: nat, rows: nat)
    requires Fits(k, columns, rows) && k.mode == Ground && 0 < k.look.x && k.param == ""
    ensures Next(k, 8, columns, rows) == k.(look := k.look.(x := k.look.x - 1, stomp := false))
  {
    SameGrid(k, Next(k, 8, columns, rows), columns, rows);
  }

  /** Typing text and taking it back. */
  lemma TypeAndTakeBack(k: Term, text: seq<byte>, columns: nat, rows: nat)
    requires Fits(k, columns, rows) && k.mode == Ground && !k.look.stomp && Printable(text) && k.param == ""
    requires k.look.x + |text| < columns
    ensures NextAll(NextAll(k, text, columns, rows), seq(|text|, _ => 8), columns, rows).look == k.look
  {
    hide NextAll, Place, Written;
    PlaceInRow(k.look.x, k.look.y, |text|, columns, rows);
    TextFills(k, text, columns, rows);
    var m := NextAll(k, text, columns, rows);
    if text == [] { NoText(k, columns, rows); } else { SamePlace(m.look, k.look, |text|, columns); }
    TextParam(k, text, columns, rows);
    Backspaces(m, |text|, columns, rows);
  }

  lemma NoText(k: Term, columns: nat, rows: nat)
    requires Fits(k, columns, rows)
    ensures NextAll(k, [], columns, rows) == k
  {
  }

  lemma SamePlace(m: Look, k: Look, n: nat, columns: nat)
    requires m.x < columns && k.x + n < columns && WaitsAtEdge(m, columns) && !k.stomp && 0 < n
    requires NextPlace(m, columns) == NextPlace(k, columns) + n
    ensures m.x == k.x + n && m.y == k.y && !m.stomp
  {
    if m.stomp {
      PlaceUnique(m.y + 1, 0, k.y, k.x + n, columns);
    } else {
      PlaceUnique(m.y, m.x, k.y, k.x + n, columns);
    }
  }

  lemma {:induction false} TextParam(k: Term, text: seq<byte>, columns: nat, rows: nat)
    requires Fits(k, columns, rows) && k.mode == Ground && Printable(text) && k.param == ""
    ensures NextAll(k, text, columns, rows).mode == Ground && NextAll(k, text, columns, rows).param == ""
  {
    if text != [] { TextParam(k, text[..|text| - 1], columns, rows); }
  }

  /** A line feed goes to the start of the next row; in the last row the grid moves up instead. */
  lemma LineFeed(k: Term, columns: nat, rows: nat)
    requires Fits(k, columns, rows) && k.mode == Ground
    ensures var r := Next(k, 10, columns, rows);
      && r.mode == Ground && r.look == k.look.(x := 0, y := if k.look.y + 1 < rows then k.look.y + 1 else k.look.y,
                                               stomp := false)
      && forall i, j :: 0 <= i < rows && 0 <= j < columns ==>
        r.grid[i][j] == if k.look.y + 1 < rows then k.grid[i][j]
                        else if i + 1 < rows then k.grid[i + 1][j] else Cell(32, k.look.fg, k.look.bg)
  {
  }

  /** A tab goes to the next column that is a multiple of eight, or to the right edge. */
  lemma Tab(k: Term, columns: nat, rows: nat)
    requires Fits(k, columns, rows) && k.mode == Ground
    ensures var x, r := k.look.x, Next(k, 9, columns, rows);
      && r.look.y == k.look.y && r.grid == k.grid
      && x <= r.look.x && (r.look.x % 8 == 0 || r.look.x + 1 == columns)
      && (forall t :: x < t < r.look.x ==> t % 8 != 0)
      && (r.look.x == x ==> x + 1 == columns)
  {
    hide RoundUp;
    NextStop(k.look.x);
    SameGrid(k, Next(k, 9, columns, rows), columns, rows);
  }

  lemma NextStop(x: nat)
    ensures x < RoundUp(x + 1, TAB_STOP) && RoundUp(x + 1, TAB_STOP) % 8 == 0
    ensures forall t :: x < t < RoundUp(x + 1, TAB_STOP) ==> t % 8 != 0
  {
    var q := (x + 8) / 8;
    forall t | x < t < q * 8 ensures t % 8 != 0 { NotAStop(x, t, q); }
  }

  lemma NotAStop(x: nat, t: nat, q: nat)
    requires q * 8 <= x + 8 && x < t < q * 8
    ensures t % 8 != 0
  {
    assert t == 8 * (t / 8) + t % 8;
  }
}
