/** The terminal that kernel/chr_drv/console.c shows: a plain grid of cells, a cursor, a scroll region and
    the escape sequence being read.  Nothing here knows where the grid is in video memory. */
module Terminal {
  const NPAR := 16
  const ERASE: Word := 0x0720
  const WRAP := 0x1_0000_0000

  type Word = w: nat | w < 0x1_0000

  /** signed char */
  type Char = c: int | -128 <= c < 128

  /** A whole number of longs in a row, as the copying loops need, and room for a tab. */
  datatype Size = Size(columns: nat, lines: nat)

  predicate SizeOk(d: Size) { 8 <= d.columns < WRAP && d.columns % 2 == 0 && 0 < d.lines < WRAP }

  function Row(d: Size, y: nat): nat { y * d.columns }

  function Cells(d: Size): nat { Row(d, d.lines) }

  /** par are unsigned longs. */
  datatype Escape = Escape(state: nat, npar: nat, par: seq<nat>)

  datatype Term = Term(grid: seq<Word>, x: nat, y: nat, top: nat, bottom: nat, attr: nat, savedX: nat, savedY: nat,
      esc: Escape)

  predicate EscapeOk(e: Escape) { e.state <= 3 && e.npar < NPAR && |e.par| == NPAR }

  /** x == columns is the place behind the last column, where the next character wraps. */
  predicate TermOk(d: Size, t: Term) {
    && |t.grid| == Cells(d) && t.x <= d.columns && t.y < d.lines && t.top < t.bottom <= d.lines && t.attr < 256
    && t.savedX <= d.columns && t.savedY < d.lines && EscapeOk(t.esc)
  }

  lemma {:induction false} Rows(d: Size, a: nat, b: nat)
    requires a <= b
    ensures Row(d, a) <= Row(d, b) && Row(d, a + 1) == Row(d, a) + d.columns && (a < b ==> Row(d, a + 1) <= Row(d, b))
  {
    assert (a + 1) * d.columns == a * d.columns + d.columns;
    if a < b {
      Rows(d, a, b - 1);
      assert (b - 1 + 1) * d.columns == (b - 1) * d.columns + d.columns;
      assert a == b - 1 || Row(d, a + 1) <= Row(d, b - 1);
    }
  }

  // ---- Cells ----

  /** Rows top up to bottom move up by one; the last of them is blank. */
  function Up(d: Size, g: seq<Word>, top: nat, bottom: nat): (r: seq<Word>)
    requires top < bottom <= d.lines && |g| == Cells(d)
    ensures |r| == |g|
  {
    Rows(d, bottom - 1, bottom);
    Rows(d, bottom, d.lines);
    seq(|g|, i requires 0 <= i < |g| =>
      if Row(d, top) <= i < Row(d, bottom - 1) then g[i + d.columns]
      else if Row(d, bottom - 1) <= i < Row(d, bottom) then ERASE else g[i])
  }

  function Down(d: Size, g: seq<Word>, top: nat, bottom: nat): (r: seq<Word>)
    requires top < bottom <= d.lines && |g| == Cells(d)
    ensures |r| == |g|
  {
    Rows(d, top, top);
    seq(|g|, i requires 0 <= i < |g| =>
      if Row(d, top + 1) <= i < Row(d, bottom) then g[i - d.columns]
      else if Row(d, top) <= i < Row(d, top + 1) then ERASE else g[i])
  }

  /** Blanks from cell `from` up to cell `to`. */
  function Blank(g: seq<Word>, from: nat, to: nat): (r: seq<Word>)
    ensures |r| == |g|
  {
    seq(|g|, i requires 0 <= i < |g| => if from <= i < to then ERASE else g[i])
  }

  /** The cells from `at` up to `end` move right by one; the last falls out. */
  function Inserted(g: seq<Word>, at: nat, end: nat): (r: seq<Word>)
    ensures |r| == |g|
  {
    seq(|g|, i requires 0 <= i < |g| => if at < i < end then g[i - 1] else if i == at < end then ERASE else g[i])
  }

  function Deleted(g: seq<Word>, at: nat, end: nat): (r: seq<Word>)
    ensures |r| == |g|
  {
    seq(|g|, i requires 0 <= i < |g| =>
      if at <= i && i + 1 < end && i + 1 < |g| then g[i + 1] else if at <= i && i + 1 == end then ERASE else g[i])
  }

  // ---- The cursor ----

  function Cursor(d: Size, t: Term): nat { Row(d, t.y) + t.x }

  /** gotoxy takes unsigned numbers and ignores what is off the screen. */
  function Goto(d: Size, t: Term, x: int, y: int): (r: Term)
    requires TermOk(d, t)
    ensures TermOk(d, r)
  {
    var nx, ny := x % WRAP, y % WRAP;
    if nx > d.columns || ny >= d.lines then t else t.(x := nx, y := ny)
  }

  lemma GotoInside(d: Size, t: Term, x: nat, y: nat)
    requires TermOk(d, t) && SizeOk(d) && x <= d.columns && y < d.lines
    ensures Goto(d, t, x, y) == t.(x := x, y := y)
  {}

  function LineFeed(d: Size, t: Term): (r: Term)
    requires TermOk(d, t)
    ensures TermOk(d, r)
  {
    if t.y + 1 < t.bottom then t.(y := t.y + 1) else t.(grid := Up(d, t.grid, t.top, t.bottom))
  }

  function ReverseFeed(d: Size, t: Term): (r: Term)
    requires TermOk(d, t)
    ensures TermOk(d, r)
  {
    if t.y > t.top then t.(y := t.y - 1) else t.(grid := Down(d, t.grid, t.top, t.bottom))
  }

  /** The cursor has run over the end of its line. */
  function Wrapped(d: Size, t: Term, x: nat): (r: Term)
    requires TermOk(d, t) && x >= d.columns && x - d.columns <= d.columns
    ensures TermOk(d, r)
  {
    LineFeed(d, t.(x := x - d.columns))
  }

  // ---- Characters ----

  lemma CursorInside(d: Size, t: Term)
    requires TermOk(d, t)
    ensures Cursor(d, t) <= Row(d, t.y) + d.columns <= Cells(d) && (t.x < d.columns ==> Cursor(d, t) < Cells(d))
  {
    Rows(d, t.y, d.lines);
  }

  function PutAtCursor(d: Size, t: Term, c: Char): (r: Term)
    requires TermOk(d, t) && 31 < c < 127 && t.x < d.columns
    ensures TermOk(d, r)
  {
    CursorInside(d, t);
    t.(grid := t.grid[Cursor(d, t) := t.attr * 256 + c], x := t.x + 1)
  }

  function Printed(d: Size, t: Term, c: Char): (r: Term)
    requires TermOk(d, t) && 31 < c < 127 && SizeOk(d)
    ensures TermOk(d, r)
  {
    PutAtCursor(d, if t.x >= d.columns then Wrapped(d, t, t.x) else t, c)
  }

  function Tabbed(d: Size, t: Term): (r: Term)
    requires TermOk(d, t) && SizeOk(d)
    ensures TermOk(d, r)
  {
    var x := t.x + 8 - t.x % 8;
    if x > d.columns then Wrapped(d, t, x) else t.(x := x)
  }

  /** A character outside escape sequences; `erase` is the terminal's erase character. */
  function Plain(d: Size, t: Term, c: Char, erase: nat): (r: Term)
    requires TermOk(d, t) && SizeOk(d)
    ensures TermOk(d, r)
  {
    if 31 < c < 127 then Printed(d, t, c)
    else if c == 27 then t.(esc := t.esc.(state := 1))
    else if c == 10 || c == 11 || c == 12 then LineFeed(d, t)
    else if c == 13 then t.(x := 0)
    else if c == erase then
      if t.x == 0 then t else t.(x := t.x - 1, grid := Blank(t.grid, Cursor(d, t) - 1, Cursor(d, t)))
    else if c == 8 then t.(x := if t.x > 0 then t.x - 1 else 0)
    else if c == 9 then Tabbed(d, t)
    else t
  }

  /** The character after ESC.  Saving and restoring look at the column where they mean the character. */
  function AfterEsc(d: Size, t0: Term, c: Char): (r: Term)
    requires TermOk(d, t0)
    ensures TermOk(d, r)
  {
    var t := t0.(esc := t0.esc.(state := 0));
    if c == '[' as int then t.(esc := t.esc.(state := 2))
    else if c == 'E' as int then Goto(d, t, 0, t.y + 1)
    else if c == 'M' as int then ReverseFeed(d, t)
    else if c == 'D' as int then LineFeed(d, t)
    else if c == 'Z' as int then t
    else if t.x == '7' as int then t.(savedX := t.x, savedY := t.y)
    else if t.x == '8' as int then Goto(d, t, t.savedX, t.savedY)
    else t
  }

  predicate Digit(c: Char) { '0' as int <= c <= '9' as int }

  /** A character of the parameters, in state 3: None when it ends them. */
  function Parameter(e: Escape, c: Char): (r: (bool, Escape))
    requires EscapeOk(e)
    ensures EscapeOk(r.1)
  {
    if c == ';' as int && e.npar < NPAR - 1 then (true, e.(npar := e.npar + 1))
    else if Digit(c) then (true, e.(par := e.par[e.npar := (10 * e.par[e.npar] + c - '0' as int) % WRAP]))
    else (false, e.(state := 0))
  }

  function Cleared(e: Escape): (r: Escape)
    ensures EscapeOk(r) && r.state == 3
  {
    Escape(3, 0, seq(NPAR, _ => 0))
  }

  /** Zero stands for one. */
  function Atleast1(n: nat): nat { if n == 0 then 1 else n }

  function Less1(n: nat): nat { if n == 0 then 0 else n - 1 }

  /** How often insertions and deletions are done. */
  function Count(n: nat, max: nat): nat { if n > max then max else Atleast1(n) }

  function InsertChars(d: Size, t: Term, n: nat): (r: Term)
    requires TermOk(d, t)
    ensures TermOk(d, r)
  {
    if n == 0 then t
    else
      var u := InsertChars(d, t, n - 1);
      u.(grid := Inserted(u.grid, Cursor(d, t), Row(d, t.y) + d.columns))
  }

  function DeleteChars(d: Size, t: Term, n: nat): (r: Term)
    requires TermOk(d, t)
    ensures TermOk(d, r)
  {
    if n == 0 then t
    else
      var u := DeleteChars(d, t, n - 1);
      u.(grid := if t.x >= d.columns then u.grid else Deleted(u.grid, Cursor(d, t), Row(d, t.y) + d.columns))
  }

  function InsertLines(d: Size, t: Term, n: nat): (r: Term)
    requires TermOk(d, t)
    ensures TermOk(d, r) && r.y == t.y
  {
    if n == 0 then t
    else
      var u := InsertLines(d, t, n - 1);
      u.(grid := Down(d, u.grid, t.y, d.lines))
  }

  function DeleteLines(d: Size, t: Term, n: nat): (r: Term)
    requires TermOk(d, t)
    ensures TermOk(d, r) && r.y == t.y
  {
    if n == 0 then t
    else
      var u := DeleteLines(d, t, n - 1);
      u.(grid := Up(d, u.grid, t.y, d.lines))
  }

  function EraseDisplay(d: Size, t: Term, par: nat): (r: Term)
    requires TermOk(d, t)
    ensures TermOk(d, r)
  {
    match par
    case 0 => t.(grid := Blank(t.grid, Cursor(d, t), Cells(d)))
    case 1 => t.(grid := Blank(t.grid, 0, Cursor(d, t)))
    case 2 => t.(grid := Blank(t.grid, 0, Cells(d)))
    case _ => t
  }

  function EraseLine(d: Size, t: Term, par: nat): (r: Term)
    requires TermOk(d, t)
    ensures TermOk(d, r)
  {
    match par
    case 0 => if t.x >= d.columns then t else t.(grid := Blank(t.grid, Cursor(d, t), Row(d, t.y) + d.columns))
    case 1 => t.(grid := Blank(t.grid, Row(d, t.y), Cursor(d, t)))
    case 2 => t.(grid := Blank(t.grid, Row(d, t.y), Row(d, t.y) + d.columns))
    case _ => t
  }

  /** csi_m for the parameters from i on. */
  function Attributes(attr: nat, par: seq<nat>, npar: nat, i: nat): (r: nat)
    requires npar < |par| && attr < 256
    ensures r < 256
    decreases npar + 1 - i
  {
    if i > npar then attr
    else
      var a := match par[i]
               case 0 => 0x07
               case 1 => 0x0f
               case 4 => 0x0f
               case 7 => 0x70
               case 27 => 0x07
               case _ => attr;
      Attributes(a, par, npar, i + 1)
  }

  function Region(d: Size, t: Term, from: nat, to: nat): (r: Term)
    requires TermOk(d, t)
    ensures TermOk(d, r)
  {
    var bottom := if to == 0 then d.lines else to;
    if Less1(from) < bottom <= d.lines then t.(top := Less1(from), bottom := bottom) else t
  }

  /** The last character of a control sequence, with the parameters p and q. */
  function Control(d: Size, t: Term, c: Char): (r: Term)
    requires TermOk(d, t)
    ensures TermOk(d, r)
  {
    var p, q := t.esc.par[0], t.esc.par[1];
    if c == 'G' as int || c == '`' as int then Goto(d, t, Less1(p), t.y)
    else if c == 'A' as int then Goto(d, t, t.x, t.y - Atleast1(p))
    else if c == 'B' as int || c == 'e' as int then Goto(d, t, t.x, t.y + Atleast1(p))
    else if c == 'C' as int || c == 'a' as int then Goto(d, t, t.x + Atleast1(p), t.y)
    else if c == 'D' as int then Goto(d, t, t.x - Atleast1(p), t.y)
    else if c == 'E' as int then Goto(d, t, 0, t.y + Atleast1(p))
    else if c == 'F' as int then Goto(d, t, 0, t.y - Atleast1(p))
    else if c == 'd' as int then Goto(d, t, t.x, Less1(p))
    else if c == 'H' as int || c == 'f' as int then Goto(d, t, Less1(q), Less1(p))
    else if c == 'J' as int then EraseDisplay(d, t, p)
    else if c == 'K' as int then EraseLine(d, t, p)
    else if c == 'L' as int then InsertLines(d, t, Count(p, d.lines))
    else if c == 'M' as int then DeleteLines(d, t, Count(p, d.lines))
    else if c == 'P' as int then DeleteChars(d, t, Count(p, d.columns))
    else if c == '@' as int then InsertChars(d, t, Count(p, d.columns))
    else if c == 'm' as int then t.(attr := Attributes(t.attr, t.esc.par, t.esc.npar, 0))
    else if c == 'r' as int then Region(d, t, p, q)
    else if c == 's' as int then t.(savedX := t.x, savedY := t.y)
    else if c == 'u' as int then Goto(d, t, t.savedX, t.savedY)
    else t
  }

  /** One character of con_write. */
  function Step(d: Size, t: Term, c: Char, erase: nat): (r: Term)
    requires TermOk(d, t) && SizeOk(d)
    ensures TermOk(d, r)
  {
    if t.esc.state == 0 then Plain(d, t, c, erase)
    else if t.esc.state == 1 then AfterEsc(d, t, c)
    else if t.esc.state == 2 && c == '?' as int then t.(esc := Cleared(t.esc))
    else
      var (more, e) := Parameter(if t.esc.state == 2 then Cleared(t.esc) else t.esc, c);
      if more then t.(esc := e) else Control(d, t.(esc := e), c)
  }

  function Written(d: Size, t: Term, s: seq<Char>, erase: nat): (r: Term)
    requires TermOk(d, t) && SizeOk(d)
    ensures TermOk(d, r)
  {
    if s == [] then t
    else
      var u := Written(d, t, s[..|s| - 1], erase);
      Step(d, u, s[|s| - 1], erase)
  }

  // ---- Saving and restoring the cursor ----

  lemma WrittenOne(d: Size, t: Term, s: seq<Char>, c: Char, erase: nat)
    requires TermOk(d, t) && SizeOk(d)
    ensures Written(d, t, s + [c], erase) == Step(d, Written(d, t, s, erase), c, erase)
  {
    assert (s + [c])[..|s|] == s;
  }

  function Esc(c: char): (s: seq<Char>)
    requires c < 128 as char
  {
    [27, c as int]
  }

  /** `ESC [ c` without parameters. */
  function Csi(c: char): seq<Char>
    requires c < 128 as char
  {
    [27, '[' as int, c as int]
  }

  lemma EscWritten(d: Size, t: Term, c: char, erase: nat)
    requires TermOk(d, t) && SizeOk(d) && t.esc.state == 0 && c < 128 as char
    ensures Written(d, t, Esc(c), erase) == AfterEsc(d, t.(esc := t.esc.(state := 1)), c as int)
  {
    var one: seq<Char> := [27];
    WrittenOne(d, t, [], 27, erase);
    WrittenOne(d, t, one, c as int, erase);
  }

  lemma CsiWritten(d: Size, t: Term, c: char, erase: nat)
    requires TermOk(d, t) && SizeOk(d) && t.esc.state == 0 && '?' < c < 128 as char
    ensures Written(d, t, Csi(c), erase) == Control(d, t.(esc := Cleared(t.esc).(state := 0)), c as int)
  {
    EscWritten(d, t, '[', erase);
    WrittenOne(d, t, Esc('['), c as int, erase);
    assert Esc('[') + [c as int] == Csi(c);
  }

  /** `ESC 7` saves the cursor exactly when it is in column 55, the code of `7`, or there is nothing to do. */
  lemma SaveWorks(d: Size, t: Term, erase: nat)
    requires TermOk(d, t) && SizeOk(d) && t.esc.state == 0
    ensures var u := Written(d, t, Esc('7'), erase);
            u.savedX == t.x && u.savedY == t.y <==> t.x == '7' as int || (t.savedX == t.x && t.savedY == t.y)
  {
    EscWritten(d, t, '7', erase);
  }

  /** `ESC 8` goes back to it exactly when the cursor is in column 56, or there already. */
  lemma RestoreWorks(d: Size, t: Term, erase: nat)
    requires TermOk(d, t) && SizeOk(d) && t.esc.state == 0
    ensures var u := Written(d, t, Esc('8'), erase);
            u.x == t.savedX && u.y == t.savedY <==> t.x == '8' as int || (t.x == t.savedX && t.y == t.savedY)
  {
    EscWritten(d, t, '8', erase);
    hide Written;
    GotoInside(d, t.(esc := t.esc.(state := 1)).(esc := t.esc.(state := 0)), t.savedX, t.savedY);
  }

  /** `ESC [ s` and `ESC [ u` always do: after the second the cursor is where the first one found it, if
      nothing between them saves it again. */
  lemma ControlSaves(d: Size, t: Term, between: seq<Char>, erase: nat)
    requires TermOk(d, t) && SizeOk(d) && t.esc.state == 0
    requires var u, v := Written(d, t, Csi('s'), erase), Written(d, t, Csi('s') + between, erase);
             v.esc.state == 0 && v.savedX == u.savedX && v.savedY == u.savedY
    ensures var w := Written(d, Written(d, t, Csi('s') + between, erase), Csi('u'), erase); w.x == t.x && w.y == t.y
  {
    CsiWritten(d, t, 's', erase);
    var v := Written(d, t, Csi('s') + between, erase);
    CsiWritten(d, v, 'u', erase);
    hide Written;
    GotoInside(d, v.(esc := Cleared(v.esc).(state := 0)), v.savedX, v.savedY);
  }

  /** On a screen of 80 columns `ESC 7` in column 10 saves nothing. */
  lemma SaveFails(erase: nat)
    ensures var d, t := Size(80, 25), Term(seq(2000, _ => ERASE), 10, 3, 0, 25, 7, 0, 0,
            Escape(0, 0, seq(NPAR, _ => 0)));
            TermOk(d, t) && SizeOk(d) && Written(d, t, Esc('7'), erase) == t
  {
    var d, t := Size(80, 25), Term(seq(2000, _ => ERASE), 10, 3, 0, 25, 7, 0, 0, Escape(0, 0, seq(NPAR, _ => 0)));
    assert Cells(d) == 2000;
    EscWritten(d, t, '7', erase);
  }
}
