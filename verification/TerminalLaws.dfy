/** What the bytes of a control sequence do to the screen: laws about Terminal.Written, told in cells, rows and
    columns, with the numbers typed as digits. */
module TerminalLaws {
  import opened Terminal

  // ---- Control sequences as they are typed ----

  function Decimal(n: nat): (s: seq<Char>)
    ensures s != [] && forall i | 0 <= i < |s| :: '0' as int <= s[i] <= '9' as int
  {
    if n < 10 then [48 + n] else Decimal(n / 10) + [48 + n % 10]
  }

  /** The numbers with semicolons between them. */
  function Joined(ns: seq<nat>): seq<Char> {
    if ns == [] then []
    else if |ns| == 1 then Decimal(ns[0])
    else Joined(ns[..|ns| - 1]) + [';' as int] + Decimal(ns[|ns| - 1])
  }

  /** `ESC [`, the numbers and the letter. */
  function Sequence(ns: seq<nat>, c: char): seq<Char>
    requires c < 128 as char
  {
    [27, '[' as int] + Joined(ns) + [c as int]
  }

  /** Number i of a sequence, kept in an unsigned long; 0 when it is missing. */
  function Number(ns: seq<nat>, i: nat): nat { if i < |ns| then ns[i] % 0x1_0000_0000 else 0 }

  lemma {:induction false} WrittenMore(d: Size, t: Term, a: seq<Char>, b: seq<Char>, erase: nat)
    requires TermOk(d, t) && SizeOk(d)
    ensures Written(d, t, a + b, erase) == Written(d, Written(d, t, a, erase), b, erase)
  {
    hide Step, TermOk;
    if b == [] {
      assert a + b == a;
      WrittenNone(d, Written(d, t, a, erase), erase);
    } else {
      hide Written;
      var n := |b| - 1;
      WrittenOne(d, Written(d, t, a, erase), b[..n], b[n], erase);
      assert b[..n] + [b[n]] == b;
      WrittenMore(d, t, a, b[..n], erase);
      WrittenOne(d, t, a + b[..n], b[n], erase);
      assert (a + b[..n]) + [b[n]] == a + b;
    }
  }

  /** What the parameters are before the next digit. */
  function Open(e: Escape): Escape { if e.state == 2 then Cleared(e) else e }

  /** n is the number that is being read. */
  function Reading(e: Escape, n: nat): (r: Escape)
    requires EscapeOk(e)
    ensures EscapeOk(r)
  {
    Open(e).(par := Open(e).par[Open(e).npar := n % WRAP])
  }

  lemma {:induction false} Typed(d: Size, t: Term, n: nat, erase: nat)
    requires TermOk(d, t) && SizeOk(d)
    requires t.esc.state == 2 || (t.esc.state == 3 && t.esc.par[t.esc.npar] == 0)
    ensures Written(d, t, Decimal(n), erase) == t.(esc := Reading(t.esc, n))
  {
    hide Written, Step, TermOk, Reading;
    if n < 10 {
      FirstDigit(d, t, n, erase);
      WrittenNone(d, t, erase);
      WrittenOne(d, t, [], 48 + n, erase);
      assert [] + [48 + n] == Decimal(n);
    } else {
      Typed(d, t, n / 10, erase);
      WrittenOne(d, t, Decimal(n / 10), 48 + n % 10, erase);
      NextDigit(d, t, n, erase);
    }
  }

  lemma FirstDigit(d: Size, t: Term, n: nat, erase: nat)
    requires TermOk(d, t) && SizeOk(d) && n < 10
    requires t.esc.state == 2 || (t.esc.state == 3 && t.esc.par[t.esc.npar] == 0)
    ensures Step(d, t, 48 + n, erase) == t.(esc := Reading(t.esc, n))
  {
    DigitRead(d, t, n, erase);
    hide Step, TermOk;
  }

  lemma NextDigit(d: Size, t: Term, n: nat, erase: nat)
    requires TermOk(d, t) && SizeOk(d) && (t.esc.state == 2 || t.esc.state == 3)
    ensures Step(d, t.(esc := Reading(t.esc, n / 10)), 48 + n % 10, erase) == t.(esc := Reading(t.esc, n))
  {
    DigitRead(d, t.(esc := Reading(t.esc, n / 10)), n % 10, erase);
    Digits(n);
    hide Step, TermOk;
  }

  lemma WrittenNone(d: Size, t: Term, erase: nat)
    requires TermOk(d, t) && SizeOk(d)
    ensures Written(d, t, [], erase) == t
  {}

  /** A digit joins the number being read. */
  lemma DigitRead(d: Size, t: Term, k: nat, erase: nat)
    requires TermOk(d, t) && SizeOk(d) && (t.esc.state == 2 || t.esc.state == 3) && k < 10
    ensures var e := Open(t.esc);
            Step(d, t, 48 + k, erase) == t.(esc := e.(par := e.par[e.npar := (10 * e.par[e.npar] + k) % WRAP]))
  {}

  lemma SemicolonRead(d: Size, t: Term, erase: nat)
    requires TermOk(d, t) && SizeOk(d) && t.esc.state == 3 && t.esc.npar < NPAR - 1
    ensures Step(d, t, ';' as int, erase) == t.(esc := t.esc.(npar := t.esc.npar + 1))
  {}

  lemma LetterRead(d: Size, t: Term, c: Char, erase: nat)
    requires TermOk(d, t) && SizeOk(d) && (t.esc.state == 2 || t.esc.state == 3) && '?' as int < c
    ensures Step(d, t, c, erase) == Control(d, t.(esc := Open(t.esc).(state := 0)), c)
  {}

  lemma Digits(n: nat)
    ensures (10 * (n / 10 % WRAP) + n % 10) % WRAP == n % WRAP
  {
    var a := n / 10;
    assert a == WRAP * (a / WRAP) + a % WRAP;
    var b := 10 * (a % WRAP) + n % 10;
    assert n == WRAP * (10 * (a / WRAP)) + b;
    Turns(10 * (a / WRAP), b);
  }

  lemma Turns(k: nat, b: nat)
    ensures (WRAP * k + b) % WRAP == b % WRAP
  {}

  /** The parameters after the numbers. */
  function Read(ns: seq<nat>, state: nat): (e: Escape)
    requires |ns| <= NPAR && state <= 3
    ensures EscapeOk(e)
  {
    Escape(state, if ns == [] then 0 else |ns| - 1, seq(NPAR, i requires 0 <= i < NPAR => Number(ns, i)))
  }

  lemma {:induction false} NumbersTyped(d: Size, t: Term, ns: seq<nat>, erase: nat)
    requires TermOk(d, t) && SizeOk(d) && t.esc.state == 2 && 0 < |ns| <= NPAR
    ensures Written(d, t, Joined(ns), erase) == t.(esc := Read(ns, 3))
  {
    hide Written, Step, TermOk;
    var n := |ns| - 1;
    if n == 0 {
      Typed(d, t, ns[0], erase);
    } else {
      var ms, sep: seq<Char> := ns[..n], [';' as int];
      var u := t.(esc := Read(ms, 3));
      NumbersTyped(d, t, ms, erase);
      WrittenOne(d, t, Joined(ms), ';' as int, erase);
      SemicolonRead(d, u, erase);
      WrittenMore(d, t, Joined(ms) + sep, Decimal(ns[n]), erase);
      Typed(d, u.(esc := u.esc.(npar := n)), ns[n], erase);
    }
  }

  /** The letter of a sequence finds the numbers. */
  lemma ControlWritten(d: Size, t: Term, ns: seq<nat>, c: char, erase: nat)
    requires TermOk(d, t) && SizeOk(d) && t.esc.state == 0 && |ns| <= NPAR && '?' < c < 128 as char
    ensures Written(d, t, Sequence(ns, c), erase) == Control(d, t.(esc := Read(ns, 0)), c as int)
  {
    var u, start := t.(esc := t.esc.(state := 2)), Esc('[');
    hide Written, Step, TermOk, Joined, Control;
    WrittenNone(d, u, erase);
    EscWritten(d, t, '[', erase);
    if ns != [] { NumbersTyped(d, u, ns, erase); }
    WrittenMore(d, t, start, Joined(ns), erase);
    var v := Written(d, t, start + Joined(ns), erase);
    WrittenOne(d, t, start + Joined(ns), c as int, erase);
    LetterRead(d, v, c as int, erase);
    assert Open(v.esc).(state := 0) == Read(ns, 0);
    assert Sequence(ns, c) == start + Joined(ns) + [c as int];
  }

  // ---- The cursor ----

  /** Nothing but the cursor differs, and no sequence is open. */
  ghost predicate OnlyCursor(t: Term, u: Term) {
    && u.grid == t.grid && u.top == t.top && u.bottom == t.bottom && u.attr == t.attr
    && u.savedX == t.savedX && u.savedY == t.savedY && u.esc.state == 0
  }

  /** The cursor goes to column x of row y, both unsigned, and stays where it is when that is off the screen;
      the place behind the last column is on it. */
  ghost predicate Moves(d: Size, t: Term, u: Term, x: int, y: int) {
    var nx, ny := x % 0x1_0000_0000, y % 0x1_0000_0000;
    && OnlyCursor(t, u)
    && (nx <= d.columns && ny < d.lines ==> u.x == nx && u.y == ny)
    && (nx > d.columns || ny >= d.lines ==> u.x == t.x && u.y == t.y)
  }

  /** The letter c with the numbers p and q: missing and zero distances are one, missing and zero positions are
      the first. */
  ghost predicate CursorMoved(d: Size, t: Term, u: Term, c: char, p: nat, q: nat) {
    var k, row, col := if p == 0 then 1 else p, if p == 0 then 0 else p - 1, if q == 0 then 0 else q - 1;
    && (c == 'A' ==> Moves(d, t, u, t.x, t.y - k))
    && (c == 'B' || c == 'e' ==> Moves(d, t, u, t.x, t.y + k))
    && (c == 'C' || c == 'a' ==> Moves(d, t, u, t.x + k, t.y))
    && (c == 'D' ==> Moves(d, t, u, t.x - k, t.y))
    && (c == 'E' ==> Moves(d, t, u, 0, t.y + k))
    && (c == 'F' ==> Moves(d, t, u, 0, t.y - k))
    && (c == 'G' || c == '`' ==> Moves(d, t, u, row, t.y))
    && (c == 'd' ==> Moves(d, t, u, t.x, row))
    && (c == 'H' || c == 'f' ==> Moves(d, t, u, col, row))
  }

  lemma CursorMovesControl(d: Size, t: Term, v: Term, c: char)
    requires TermOk(d, v) && SizeOk(d) && v == t.(esc := v.esc) && v.esc.state == 0 && '?' < c < 128 as char
    ensures CursorMoved(d, t, Control(d, v, c as int), c, v.esc.par[0], v.esc.par[1])
  {
    hide TermOk, Row, Cells;
  }

  lemma CursorMoves(d: Size, t: Term, ns: seq<nat>, c: char, erase: nat)
    requires TermOk(d, t) && SizeOk(d) && t.esc.state == 0 && |ns| <= NPAR && '?' < c < 128 as char
    ensures CursorMoved(d, t, Written(d, t, Sequence(ns, c), erase), c, Number(ns, 0), Number(ns, 1))
  {
    ControlWritten(d, t, ns, c, erase);
    CursorMovesControl(d, t, t.(esc := Read(ns, 0)), c);
    hide *;
  }

  // ---- Blanks ----

  /** Nothing but the grid differs, and no sequence is open. */
  ghost predicate OnlyGrid(t: Term, u: Term) {
    && |u.grid| == |t.grid| && u.x == t.x && u.y == t.y && u.top == t.top && u.bottom == t.bottom && u.attr == t.attr
    && u.savedX == t.savedX && u.savedY == t.savedY && u.esc.state == 0
  }

  /** The cells from `from` up to `to` are blank and the others as they were. */
  ghost predicate Blanked(t: Term, u: Term, from: nat, to: nat) {
    && |u.grid| == |t.grid|
    && forall i | 0 <= i < |t.grid| :: u.grid[i] == if from <= i < to then 0x0720 else t.grid[i]
  }

  /** `J` and `K` blank from the cursor on with 0, up to it with 1 and everything with 2; other numbers blank
      nothing. */
  ghost predicate Erased(d: Size, t: Term, u: Term, c: char, p: nat) {
    var row := t.y * d.columns;
    var (start, end) := if c == 'J' then (0, d.lines * d.columns) else (row, row + d.columns);
    && OnlyGrid(t, u)
    && (p == 0 ==> Blanked(t, u, row + t.x, end))
    && (p == 1 ==> Blanked(t, u, start, row + t.x))
    && (p == 2 ==> Blanked(t, u, start, end))
    && (p > 2 ==> u.grid == t.grid)
  }

  lemma ErasesControl(d: Size, t: Term, v: Term, c: char)
    requires TermOk(d, v) && SizeOk(d) && v == t.(esc := v.esc) && v.esc.state == 0 && (c == 'J' || c == 'K')
    ensures Erased(d, t, Control(d, v, c as int), c, v.esc.par[0])
  {
    hide TermOk, Goto;
  }

  lemma Erases(d: Size, t: Term, ns: seq<nat>, c: char, erase: nat)
    requires TermOk(d, t) && SizeOk(d) && t.esc.state == 0 && |ns| <= NPAR && (c == 'J' || c == 'K')
    ensures Erased(d, t, Written(d, t, Sequence(ns, c), erase), c, Number(ns, 0))
  {
    ControlWritten(d, t, ns, c, erase);
    ErasesControl(d, t, t.(esc := Read(ns, 0)), c);
    hide *;
  }

  // ---- Lines and characters that move ----

  /** Everything from cell `from` up to cell `to` is k cells further down, blanks before it. */
  ghost predicate Later(t: Term, u: Term, from: nat, to: nat, k: nat) {
    && |u.grid| == |t.grid|
    && forall i {:trigger u.grid[i]} | 0 <= i < |t.grid| ::
         u.grid[i] == if i < from || to <= i then t.grid[i] else if i < from + k then 0x0720 else t.grid[i - k]
  }

  ghost predicate Earlier(t: Term, u: Term, from: nat, to: nat, k: nat) {
    && |u.grid| == |t.grid| && to <= |t.grid|
    && forall i {:trigger u.grid[i]} | 0 <= i < |t.grid| ::
         u.grid[i] == if i < from || to <= i then t.grid[i] else if i + k < to then t.grid[i + k] else 0x0720
  }

  lemma LaterTwice(t: Term, u: Term, v: Term, from: nat, to: nat, a: nat, b: nat)
    requires Later(t, u, from, to, a) && Later(u, v, from, to, b)
    ensures Later(t, v, from, to, a + b)
  {
    forall i | from <= i < to && i < |t.grid|
      ensures v.grid[i] == if i < from + a + b then 0x0720 else t.grid[i - a - b]
    {
      if i >= from + b { assert v.grid[i] == u.grid[i - b]; }
    }
  }

  lemma EarlierTwice(t: Term, u: Term, v: Term, from: nat, to: nat, a: nat, b: nat)
    requires Earlier(t, u, from, to, a) && Earlier(u, v, from, to, b)
    ensures Earlier(t, v, from, to, a + b)
  {
    forall i | from <= i < to ensures v.grid[i] == if i + a + b < to then t.grid[i + a + b] else 0x0720 {
      if i + b < to { assert v.grid[i] == u.grid[i + b]; }
    }
  }

  lemma {:induction false} LinesLater(d: Size, t: Term, n: nat)
    requires TermOk(d, t)
    ensures var u := InsertLines(d, t, n);
            u == t.(grid := u.grid) && Later(t, u, Row(d, t.y), Cells(d), Row(d, n))
  {
    if n > 0 {
      LinesLater(d, t, n - 1);
      Rows(d, n - 1, n);
      var u, v := InsertLines(d, t, n - 1), InsertLines(d, t, n);
      LineLater(d, u, v, t.y);
      LaterTwice(t, u, v, Row(d, t.y), Cells(d), Row(d, n - 1), d.columns);
    }
  }

  lemma LineLater(d: Size, u: Term, v: Term, y: nat)
    requires y < d.lines && |u.grid| == Cells(d) && v.grid == Down(d, u.grid, y, d.lines)
    ensures Later(u, v, Row(d, y), Cells(d), d.columns)
  {
    Rows(d, y, d.lines);
    hide Row;
  }

  lemma {:induction false} LinesEarlier(d: Size, t: Term, n: nat)
    requires TermOk(d, t)
    ensures var u := DeleteLines(d, t, n);
            u == t.(grid := u.grid) && Earlier(t, u, Row(d, t.y), Cells(d), Row(d, n))
  {
    if n > 0 {
      LinesEarlier(d, t, n - 1);
      Rows(d, n - 1, n);
      var u, v := DeleteLines(d, t, n - 1), DeleteLines(d, t, n);
      LineEarlier(d, u, v, t.y);
      EarlierTwice(t, u, v, Row(d, t.y), Cells(d), Row(d, n - 1), d.columns);
    }
  }

  lemma LineEarlier(d: Size, u: Term, v: Term, y: nat)
    requires y < d.lines && |u.grid| == Cells(d) && v.grid == Up(d, u.grid, y, d.lines)
    ensures Earlier(u, v, Row(d, y), Cells(d), d.columns)
  {
    Rows(d, y, d.lines - 1);
    Rows(d, d.lines - 1, d.lines);
    hide Row;
  }

  lemma CellLater(d: Size, t: Term, u: Term, n: nat)
    requires TermOk(d, t) && 0 < n && u == InsertChars(d, t, n - 1) && u == t.(grid := u.grid)
    ensures var v := InsertChars(d, t, n);
            v == t.(grid := v.grid) && Later(u, v, Cursor(d, t), Row(d, t.y) + d.columns, 1)
  {
    CursorInside(d, t);
    hide TermOk, Row, Cells;
  }

  lemma {:induction false} CellsLater(d: Size, t: Term, n: nat)
    requires TermOk(d, t)
    ensures var u := InsertChars(d, t, n);
            u == t.(grid := u.grid) && Later(t, u, Cursor(d, t), Row(d, t.y) + d.columns, n)
  {
    CursorInside(d, t);
    if n > 0 {
      var u := InsertChars(d, t, n - 1);
      CellsLater(d, t, n - 1);
      CellLater(d, t, u, n);
      hide *;
      LaterTwice(t, u, InsertChars(d, t, n), Cursor(d, t), Row(d, t.y) + d.columns, n - 1, 1);
    }
  }

  lemma CellEarlier(d: Size, t: Term, u: Term, n: nat)
    requires TermOk(d, t) && 0 < n && u == DeleteChars(d, t, n - 1) && u == t.(grid := u.grid)
    ensures var v := DeleteChars(d, t, n);
            v == t.(grid := v.grid) && Earlier(u, v, Cursor(d, t), Row(d, t.y) + d.columns, 1)
  {
    CursorInside(d, t);
    hide TermOk, Row, Cells;
  }

  lemma {:induction false} CellsEarlier(d: Size, t: Term, n: nat)
    requires TermOk(d, t)
    ensures var u := DeleteChars(d, t, n);
            u == t.(grid := u.grid) && Earlier(t, u, Cursor(d, t), Row(d, t.y) + d.columns, n)
  {
    CursorInside(d, t);
    if n > 0 {
      var u := DeleteChars(d, t, n - 1);
      CellsEarlier(d, t, n - 1);
      CellEarlier(d, t, u, n);
      hide *;
      EarlierTwice(t, u, DeleteChars(d, t, n), Cursor(d, t), Row(d, t.y) + d.columns, n - 1, 1);
    }
  }

  /** `L` and `M` move the rows from the cursor's to the end of the screen by as many rows as the number
      says, but not by more than there are. */
  ghost predicate LinesMoved(d: Size, t: Term, u: Term, c: char, p: nat) {
    var k := if p > d.lines then d.lines else if p == 0 then 1 else p;
    && OnlyGrid(t, u)
    && (c == 'L' ==> Later(t, u, t.y * d.columns, d.lines * d.columns, k * d.columns))
    && (c == 'M' ==> Earlier(t, u, t.y * d.columns, d.lines * d.columns, k * d.columns))
  }

  lemma LinesMoveControl(d: Size, t: Term, v: Term, c: char)
    requires TermOk(d, v) && SizeOk(d) && v == t.(esc := v.esc) && v.esc.state == 0 && (c == 'L' || c == 'M')
    ensures LinesMoved(d, t, Control(d, v, c as int), c, v.esc.par[0])
  {
    var n := Count(v.esc.par[0], d.lines);
    LinesLater(d, v, n);
    LinesEarlier(d, v, n);
    LaterSame(v, t, InsertLines(d, v, n), Row(d, v.y), Cells(d), Row(d, n));
    EarlierSame(v, t, DeleteLines(d, v, n), Row(d, v.y), Cells(d), Row(d, n));
    assert Row(d, v.y) == t.y * d.columns && Row(d, n) == n * d.columns && Cells(d) == d.lines * d.columns;
    hide TermOk, InsertLines, DeleteLines, Row, Cells, Later, Earlier;
  }

  lemma LinesMove(d: Size, t: Term, ns: seq<nat>, c: char, erase: nat)
    requires TermOk(d, t) && SizeOk(d) && t.esc.state == 0 && |ns| <= NPAR && (c == 'L' || c == 'M')
    ensures LinesMoved(d, t, Written(d, t, Sequence(ns, c), erase), c, Number(ns, 0))
  {
    ControlWritten(d, t, ns, c, erase);
    LinesMoveControl(d, t, t.(esc := Read(ns, 0)), c);
    hide *;
  }

  /** `@` and `P` move the rest of the cursor's row by as many cells, but not by more than there are in a row. */
  ghost predicate CellsMoved(d: Size, t: Term, u: Term, c: char, p: nat) {
    var k, row := if p > d.columns then d.columns else if p == 0 then 1 else p, t.y * d.columns;
    && OnlyGrid(t, u)
    && (c == '@' ==> Later(t, u, row + t.x, row + d.columns, k))
    && (c == 'P' ==> Earlier(t, u, row + t.x, row + d.columns, k))
  }

  lemma CellsMoveControl(d: Size, t: Term, v: Term, c: char)
    requires TermOk(d, v) && SizeOk(d) && v == t.(esc := v.esc) && v.esc.state == 0 && (c == '@' || c == 'P')
    ensures CellsMoved(d, t, Control(d, v, c as int), c, v.esc.par[0])
  {
    var n := Count(v.esc.par[0], d.columns);
    CellsLater(d, v, n);
    CellsEarlier(d, v, n);
    LaterSame(v, t, InsertChars(d, v, n), Cursor(d, v), Row(d, v.y) + d.columns, n);
    EarlierSame(v, t, DeleteChars(d, v, n), Cursor(d, v), Row(d, v.y) + d.columns, n);
    assert Row(d, v.y) == t.y * d.columns && Cursor(d, v) == t.y * d.columns + t.x;
    hide TermOk, InsertChars, DeleteChars, Row, Cursor, Later, Earlier;
  }

  lemma LaterSame(v: Term, t: Term, u: Term, from: nat, to: nat, k: nat)
    requires v.grid == t.grid && Later(v, u, from, to, k)
    ensures Later(t, u, from, to, k)
  {}

  lemma EarlierSame(v: Term, t: Term, u: Term, from: nat, to: nat, k: nat)
    requires v.grid == t.grid && Earlier(v, u, from, to, k)
    ensures Earlier(t, u, from, to, k)
  {}

  lemma CellsMove(d: Size, t: Term, ns: seq<nat>, c: char, erase: nat)
    requires TermOk(d, t) && SizeOk(d) && t.esc.state == 0 && |ns| <= NPAR && (c == '@' || c == 'P')
    ensures CellsMoved(d, t, Written(d, t, Sequence(ns, c), erase), c, Number(ns, 0))
  {
    ControlWritten(d, t, ns, c, erase);
    CellsMoveControl(d, t, t.(esc := Read(ns, 0)), c);
    hide *;
  }

  // ---- Attributes and the region ----

  ghost predicate OnlyAttr(t: Term, u: Term) {
    && u.grid == t.grid && u.x == t.x && u.y == t.y && u.top == t.top && u.bottom == t.bottom
    && u.savedX == t.savedX && u.savedY == t.savedY && u.esc.state == 0
  }

  predicate Colour(n: nat) { n == 0 || n == 1 || n == 4 || n == 7 || n == 27 }

  /** `m` takes the last number it knows of the first n, and one number missing is a 0: 0 and 27 stand for
      normal, 1 and 4 for bright, 7 for reverse characters. */
  ghost predicate Coloured(was: nat, attr: nat, ns: seq<nat>, i: nat, n: nat) {
    && ((forall j | i <= j < n :: !Colour(Number(ns, j))) ==> attr == was)
    && forall j | i <= j < n && Colour(Number(ns, j)) && (forall k | j < k < n :: !Colour(Number(ns, k))) ::
         && (Number(ns, j) == 0 || Number(ns, j) == 27 ==> attr == 0x07)
         && (Number(ns, j) == 1 || Number(ns, j) == 4 ==> attr == 0x0f)
         && (Number(ns, j) == 7 ==> attr == 0x70)
  }

  lemma AttributeIs(d: Size, t: Term, ns: seq<nat>, erase: nat)
    requires TermOk(d, t) && SizeOk(d) && t.esc.state == 0 && |ns| <= NPAR
    ensures var u := Written(d, t, Sequence(ns, 'm'), erase);
            OnlyAttr(t, u) && Coloured(t.attr, u.attr, ns, 0, if ns == [] then 1 else |ns|)
  {
    ControlWritten(d, t, ns, 'm', erase);
    AttributesLast(t.attr, ns, 0);
    hide Written, Sequence, Joined, Attributes, Coloured, TermOk;
  }

  lemma {:induction false} AttributesLast(attr: nat, ns: seq<nat>, i: nat)
    requires |ns| <= NPAR && attr < 256
    ensures var e := Read(ns, 0); Coloured(attr, Attributes(attr, e.par, e.npar, i), ns, i, e.npar + 1)
    decreases NPAR - i
  {
    var e := Read(ns, 0);
    if i <= e.npar {
      var a := match Number(ns, i)
               case 0 => 0x07
               case 1 => 0x0f
               case 4 => 0x0f
               case 7 => 0x70
               case 27 => 0x07
               case _ => attr;
      AttributesLast(a, ns, i + 1);
      hide Number, Read;
    }
  }

  /** `r` sets the scroll region to the rows p - 1 up to q, all of the screen when they are missing, if there
      is a row in it. */
  lemma RegionSet(d: Size, t: Term, ns: seq<nat>, erase: nat)
    requires TermOk(d, t) && SizeOk(d) && t.esc.state == 0 && |ns| <= NPAR
    ensures var u, p, q := Written(d, t, Sequence(ns, 'r'), erase), Number(ns, 0), Number(ns, 1);
            var top, bottom := if p == 0 then 0 else p - 1, if q == 0 then d.lines else q;
            && OnlyGrid(t, u.(top := t.top, bottom := t.bottom)) && u.grid == t.grid
            && (top < bottom <= d.lines ==> u.top == top && u.bottom == bottom)
            && (!(top < bottom <= d.lines) ==> u.top == t.top && u.bottom == t.bottom)
  {
    ControlWritten(d, t, ns, 'r', erase);
    hide Written, Sequence, Joined;
  }

  // ---- Characters outside sequences ----

  /** One row down, or the region scrolled up by one row below its end. */
  ghost predicate FedDown(d: Size, t: Term, u: Term) {
    if t.y + 1 < t.bottom then u == t.(y := t.y + 1)
    else OnlyGrid(t, u.(esc := u.esc.(state := 0))) && u.esc == t.esc
         && Earlier(t, u, t.top * d.columns, t.bottom * d.columns, d.columns)
  }

  ghost predicate FedUp(d: Size, t: Term, u: Term) {
    if t.y > t.top then u == t.(y := t.y - 1)
    else OnlyGrid(t, u.(esc := u.esc.(state := 0))) && u.esc == t.esc
         && Later(t, u, t.top * d.columns, t.bottom * d.columns, d.columns)
  }

  lemma LineFed(d: Size, t: Term)
    requires TermOk(d, t)
    ensures FedDown(d, t, LineFeed(d, t)) && FedUp(d, t, ReverseFeed(d, t))
  {
    Rows(d, t.top, t.bottom - 1);
    Rows(d, t.bottom - 1, t.bottom);
    Rows(d, t.bottom, d.lines);
  }

  /** What a single character does. */
  ghost predicate Did(d: Size, t: Term, u: Term, c: Char, erase: nat) {
    var at, tab := t.y * d.columns + t.x, (t.x / 8 + 1) * 8;
    && (31 < c < 127 && t.x < d.columns ==>
          && |u.grid| == |t.grid| > at && u == t.(grid := u.grid, x := t.x + 1) && u.grid[at] == t.attr * 256 + c
          && forall i | 0 <= i < |t.grid| && i != at :: u.grid[i] == t.grid[i])
    && (10 <= c <= 12 ==> FedDown(d, t, u))
    && (c == 13 ==> u == t.(x := 0))
    && (c == 27 ==> u == t.(esc := t.esc.(state := 1)))
    && (c == erase && !(31 < c < 127) && !(10 <= c <= 13) && c != 27 ==>
          if t.x == 0 then u == t
          else u == t.(grid := u.grid, x := t.x - 1) && Blanked(t, u, at - 1, at))
    && (c == 8 && c != erase ==> u == t.(x := if t.x > 0 then t.x - 1 else 0))
    && (c == 9 && c != erase ==>
          if tab <= d.columns then u == t.(x := tab) else FedDown(d, t.(x := tab - d.columns), u))
    && (c != erase && !(8 <= c <= 13) && c != 27 && !(31 < c < 127) ==> u == t)
  }

  lemma PlainDid(d: Size, t: Term, c: Char, erase: nat)
    requires TermOk(d, t) && SizeOk(d)
    ensures Did(d, t, Plain(d, t, c, erase), c, erase)
  {
    CursorInside(d, t);
    LineFed(d, t);
    var tab := (t.x / 8 + 1) * 8;
    if tab > d.columns { LineFed(d, t.(x := tab - d.columns)); }
    hide LineFeed, FedDown, TermOk, Cells;
  }

  lemma CharacterWritten(d: Size, t: Term, c: Char, erase: nat)
    requires TermOk(d, t) && SizeOk(d) && t.esc.state == 0
    ensures Did(d, t, Written(d, t, [c], erase), c, erase)
  {
    var one: seq<Char> := [c];
    assert [] + one == one;
    WrittenNone(d, t, erase);
    WrittenOne(d, t, [], c, erase);
    PlainDid(d, t, c, erase);
    hide Written, Did, Plain, TermOk;
  }

  /** A printable character behind the last column starts the next row first. */
  lemma CharacterWraps(d: Size, t: Term, c: Char, erase: nat)
    requires TermOk(d, t) && SizeOk(d) && t.esc.state == 0 && t.x == d.columns && 31 < c < 127
    ensures Written(d, t, [c], erase) == Written(d, t, [13, 10, c], erase)
  {
    var one: seq<Char>, cr: seq<Char>, feed: seq<Char> := [c], [13], [13, 10];
    assert [] + one == one && [] + cr == cr && cr + [10] == feed && feed + [c] == [13, 10, c];
    WrittenNone(d, t, erase);
    WrittenOne(d, t, [], c, erase);
    WrittenOne(d, t, [], 13, erase);
    WrittenOne(d, t, cr, 10, erase);
    WrittenOne(d, t, feed, c, erase);
    hide Written, TermOk, Up;
  }

  /** `ESC E`, `ESC D` and `ESC M`. */
  lemma FeedsWritten(d: Size, t: Term, erase: nat)
    requires TermOk(d, t) && SizeOk(d) && t.esc.state == 0
    ensures Moves(d, t, Written(d, t, [27, 'E' as int], erase), 0, t.y + 1)
    ensures FedDown(d, t, Written(d, t, [27, 'D' as int], erase))
    ensures FedUp(d, t, Written(d, t, [27, 'M' as int], erase))
  {
    EscWritten(d, t, 'E', erase);
    EscWritten(d, t, 'D', erase);
    EscWritten(d, t, 'M', erase);
    FeedsAfterEsc(d, t);
    hide Written, AfterEsc, FedDown, FedUp, TermOk, Moves;
  }

  lemma FeedsAfterEsc(d: Size, t: Term)
    requires TermOk(d, t) && t.esc.state == 0
    ensures var u := t.(esc := t.esc.(state := 1));
            && Moves(d, t, AfterEsc(d, u, 'E' as int), 0, t.y + 1)
            && FedDown(d, t, AfterEsc(d, u, 'D' as int)) && FedUp(d, t, AfterEsc(d, u, 'M' as int))
  {
    LineFed(d, t);
    var u := t.(esc := t.esc.(state := 1));
    assert u.(esc := u.esc.(state := 0)) == t;
    hide FedDown, FedUp, TermOk, LineFeed, ReverseFeed;
  }
}
