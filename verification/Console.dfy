/** kernel/chr_drv/console.c in video memory.  A screen is a window of that memory; on an EGA a full-screen
    scroll moves the window instead of the cells. */
module Console {
  import opened Terminal

  /** n words have been copied from `from` to `to`. */
  ghost predicate Moved(was: seq<Word>, now: seq<Word>, to: nat, from: nat, n: nat) {
    && |was| == |now| && to + n <= |was| && from + n <= |was|
    && (forall k | to <= k < to + n :: now[k] == was[k - to + from])
    && forall k | 0 <= k < |was| && !(to <= k < to + n) :: now[k] == was[k]
  }

  ghost predicate Erased(was: seq<Word>, now: seq<Word>, at: nat, n: nat) {
    |was| == |now| && at + n <= |was| && forall k | 0 <= k < |was| ::
        now[k] == if at <= k < at + n then ERASE else was[k]
  }

  class Video {
    const mem: array<Word>           // from video_mem_start to video_mem_end
    const d: Size
    const ega: bool
    var origin: nat                  // in words, like scrEnd and pos
    var scrEnd: nat
    var pos: nat
    var x: nat
    var y: nat
    var top: nat
    var bottom: nat
    var attr: nat
    var savedX: nat
    var savedY: nat
    var esc: Escape

    ghost function T(): Term
      reads this, mem
    {
      Term(if origin <= scrEnd <= mem.Length then mem[origin..scrEnd] else [],
           x, y, top, bottom, attr, savedX, savedY, esc)
    }

    /** pos is where the cursor is, and the screen is inside video memory. */
    ghost predicate Valid()
      reads this, mem
    {
      && SizeOk(d) && origin + Cells(d) == scrEnd <= mem.Length && pos == origin + Row(d, y) + x
      && TermOk(d, T())
    }

    /** con_init: the screen at the start of video memory as the machine left it, with its cursor. */
    constructor (memory: array<Word>, size: Size, isEga: bool, x0: nat, y0: nat)
      requires SizeOk(size) && Cells(size) <= memory.Length && x0 <= size.columns && y0 < size.lines
      ensures Valid() && mem == memory && d == size && ega == isEga && origin == 0
      ensures T() == Term(memory[..Cells(size)], x0, y0, 0, size.lines, 0x07, 0, 0, Escape(0, 0, seq(NPAR, _ => 0)))
    {
      mem, d, ega := memory, size, isEga;
      origin, scrEnd, pos := 0, Cells(size), Row(size, y0) + x0;
      x, y, top, bottom, attr, savedX, savedY := x0, y0, 0, size.lines, 0x07, 0, 0;
      esc := Escape(0, 0, seq(NPAR, _ => 0));
    }

    // ---- The string instructions ----

    /** rep movsl with the direction flag clear, for n words. */
    method CopyDownwards(to: nat, from: nat, n: nat)
      requires to < from && from + n <= mem.Length
      modifies mem
      ensures Moved(old(mem[..]), mem[..], to, from, n)
    {
      ghost var was := mem[..];
      var i := 0;
      while i < n
        invariant 0 <= i <= n
        invariant forall k | to <= k < to + i :: mem[k] == was[k - to + from]
        invariant forall k | 0 <= k < mem.Length && !(to <= k < to + i) :: mem[k] == was[k]
      {
        mem[to + i] := mem[from + i];
        i := i + 1;
      }
    }

    /** The same with the direction flag set, from the last word on. */
    method CopyUpwards(to: nat, from: nat, n: nat)
      requires from < to && to + n <= mem.Length
      modifies mem
      ensures Moved(old(mem[..]), mem[..], to, from, n)
    {
      ghost var was := mem[..];
      var i := n;
      while i > 0
        invariant 0 <= i <= n
        invariant forall k | to + i <= k < to + n :: mem[k] == was[k - to + from]
        invariant forall k | 0 <= k < mem.Length && !(to + i <= k < to + n) :: mem[k] == was[k]
      {
        i := i - 1;
        mem[to + i] := mem[from + i];
      }
    }

    /** rep stosw */
    method Erase(at: nat, n: nat)
      requires at + n <= mem.Length
      modifies mem
      ensures Erased(old(mem[..]), mem[..], at, n)
    {
      ghost var was := mem[..];
      var i := 0;
      while i < n
        invariant 0 <= i <= n
        invariant forall k | 0 <= k < mem.Length :: mem[k] == if at <= k < at + i then ERASE else was[k]
      {
        mem[at + i] := ERASE;
        i := i + 1;
      }
    }

    // ---- Scrolling ----

    /** scrup, for the region from `from` up to `to`; the cursor stays where it is on the screen. */
    method ScrUp(from: nat, to: nat)
      requires Valid() && from < to <= d.lines
      modifies `origin, `scrEnd, `pos, mem
      ensures Valid() && T() == old(T()).(grid := Up(d, old(T()).grid, from, to))
    {
      if ega && from == 0 && to == d.lines { MoveOrigin(); } else { ScrollUp(from, to); }
    }

    /** The copying scroll. */
    method ScrollUp(from: nat, to: nat)
      requires Valid() && from < to <= d.lines
      modifies mem
      ensures Valid() && T() == old(T()).(grid := Up(d, old(T()).grid, from, to))
    {
      CopyRows(from, to);
    }

    method CopyRows(from: nat, to: nat)
      requires from < to <= d.lines && d.columns > 0 && origin + Cells(d) <= mem.Length
      modifies mem
      ensures mem[origin..origin + Cells(d)] == Up(d, old(mem[origin..origin + Cells(d)]), from, to)
    {
      RowsOf(d, from, to);
      hide *;
      ghost var was, cells := mem[..], Cells(d);
      var a, b, n := origin + Row(d, from), origin + Row(d, from + 1), Span(d, from, to);
      CopyDownwards(a, b, n);
      ghost var mid := mem[..];
      Erase(a + n, d.columns);
      UpMade(d, was, mid, mem[..], origin, from, to, a, b, n);
      assert mem[origin..origin + cells] == mem[..][origin..origin + cells];
    }

    /** The EGA's: the window moves down by a row, or back to the start of memory when that runs out. */
    method MoveOrigin()
      requires Valid()
      modifies `origin, `scrEnd, `pos, mem
      ensures Valid() && T() == old(T()).(grid := Up(d, old(T()).grid, 0, d.lines))
    {
      hide Row, Up, Cells;
      ghost var at := origin;
      origin := origin + d.columns;
      pos := pos + d.columns;
      scrEnd := scrEnd + d.columns;
      if scrEnd > mem.Length {
        BackToStart(at);
        scrEnd := scrEnd - origin;
        pos := pos - origin;
        origin := 0;
      } else {
        OneFurther(at);
      }
    }

    method BackToStart(ghost at: nat)
      requires d.lines > 0 && d.columns > 0 && origin == at + d.columns && at + Cells(d) <= mem.Length
      modifies mem
      ensures mem[0..Cells(d)] == Up(d, old(mem[at..at + Cells(d)]), 0, d.lines)
    {
      RowsOf(d, 0, d.lines);
      hide Row, Up, Cells, Moved, Erased;
      ghost var was := mem[..];
      CopyDownwards(0, origin, Row(d, d.lines - 1));
      ghost var mid := mem[..];
      Erase(Row(d, d.lines - 1), d.columns);
      MovedBack(d, was, mid, mem[..], at);
      assert mem[0..Cells(d)] == mem[..][0..Cells(d)] && was[at..at + Cells(d)] == old(mem[at..at + Cells(d)]);
    }

    method OneFurther(ghost at: nat)
      requires d.lines > 0 && scrEnd == at + Cells(d) + d.columns <= mem.Length
      modifies mem
      ensures mem[at + d.columns..scrEnd] == Up(d, old(mem[at..at + Cells(d)]), 0, d.lines)
    {
      ghost var was := mem[..];
      Erase(scrEnd - d.columns, d.columns);
      MovedOn(d, was, mem[..], at);
      assert was[at..at + Cells(d)] == old(mem[at..at + Cells(d)]);
    }

    /** scrdown, for the region from `from` up to `to`. */
    method ScrDown(from: nat, to: nat)
      requires Valid() && from < to <= d.lines
      modifies mem
      ensures Valid() && T() == old(T()).(grid := Down(d, old(T()).grid, from, to))
    {
      CopyRowsDown(from, to);
    }

    method CopyRowsDown(from: nat, to: nat)
      requires from < to <= d.lines && d.columns > 0 && origin + Cells(d) <= mem.Length
      modifies mem
      ensures mem[origin..origin + Cells(d)] == Down(d, old(mem[origin..origin + Cells(d)]), from, to)
    {
      RowsOf(d, from, to);
      hide *;
      ghost var was, cells := mem[..], Cells(d);
      var a, b, n := origin + Row(d, from), origin + Row(d, from + 1), Span(d, from, to);
      CopyUpwards(b, a, n);
      ghost var mid := mem[..];
      Erase(a, d.columns);
      DownMade(d, was, mid, mem[..], origin, from, to, a, b, n);
      assert mem[origin..origin + cells] == mem[..][origin..origin + cells];
    }

    // ---- Moving the cursor ----

    method GotoXY(newX: int, newY: int)
      requires Valid()
      modifies `x, `y, `pos
      ensures Valid() && T() == Goto(d, old(T()), newX, newY)
    {
      if newX % WRAP > d.columns || newY % WRAP >= d.lines { return; }
      x := newX % WRAP;
      y := newY % WRAP;
      pos := origin + y * d.columns + x;
    }

    method Lf()
      requires Valid()
      modifies `origin, `scrEnd, `pos, `y, mem
      ensures Valid() && T() == LineFeed(d, old(T()))
    {
      if y + 1 < bottom {
        Rows(d, y, y);
        hide Row;
        y := y + 1;
        pos := pos + d.columns;
        return;
      }
      ScrUp(top, bottom);
    }

    method Ri()
      requires Valid()
      modifies `pos, `y, mem
      ensures Valid() && T() == ReverseFeed(d, old(T()))
    {
      if y > top {
        Rows(d, y - 1, y);
        hide Row;
        y := y - 1;
        pos := pos - d.columns;
        return;
      }
      ScrDown(top, bottom);
    }

    /** `x -= columns; pos -= row; lf()`, with the cursor at newX already. */
    method WrapAt(newX: nat)
      requires Valid() && d.columns <= newX <= 2 * d.columns
      modifies `origin, `scrEnd, `pos, `x, `y, mem
      ensures Valid() && T() == Wrapped(d, old(T()), newX)
    {
      pos := pos + newX - x;
      x := newX - d.columns;
      pos := pos - d.columns;
      Lf();
    }

    // ---- Storing ----

    /** A stosw inside the screen. */
    method EraseCells(at: nat, n: nat)
      requires Valid() && origin <= at && at + n <= scrEnd
      modifies mem
      ensures Valid() && T() == old(T()).(grid := Blank(old(T()).grid, at - origin, at - origin + n))
    {
      ghost var was := mem[..];
      Erase(at, n);
      BlankMade(was, mem[..], origin, scrEnd, at, n);
      assert mem[origin..scrEnd] == mem[..][origin..scrEnd] && was[origin..scrEnd] == old(mem[origin..scrEnd]);
    }

    method PutChar(c: Char)
      requires Valid() && 31 < c < 127
      modifies `origin, `scrEnd, `pos, `x, `y, mem
      ensures Valid() && T() == Printed(d, old(T()), c)
    {
      if x >= d.columns { WrapAt(x); }
      PutHere(c);
    }

    method PutHere(c: Char)
      requires Valid() && 31 < c < 127 && x < d.columns
      modifies `pos, `x, mem
      ensures Valid() && T() == PutAtCursor(d, old(T()), c)
    {
      CursorInside(d, T());
      hide Row;
      mem[pos] := attr * 256 + c;
      pos := pos + 1;
      x := x + 1;
    }

    method Cr()
      requires Valid()
      modifies `pos, `x
      ensures Valid() && T() == old(T()).(x := 0)
    {
      pos := pos - x;
      x := 0;
    }

    method Del()
      requires Valid()
      modifies `pos, `x, mem
      ensures Valid()
      ensures T() == if old(x) == 0 then old(T())
                     else old(T()).(x := old(x) - 1,
                                    grid := Blank(old(T()).grid, Cursor(d, old(T())) - 1, Cursor(d, old(T()))))
    {
      if x != 0 {
        CursorInside(d, T());
        hide Row;
        pos := pos - 1;
        x := x - 1;
        EraseCells(pos, 1);
      }
    }

    method Tab()
      requires Valid()
      modifies `origin, `scrEnd, `pos, `x, `y, mem
      ensures Valid() && T() == Tabbed(d, old(T()))
    {
      var c := 8 - x % 8;
      if x + c > d.columns {
        WrapAt(x + c);
      } else {
        x := x + c;
        pos := pos + c;
      }
    }

    // ---- Control sequences ----

    method CsiJ(par: nat)
      requires Valid()
      modifies mem
      ensures Valid() && T() == EraseDisplay(d, old(T()), par)
    {
      CursorInside(d, T());
      hide Row, Blank;
      if par == 0 {
        EraseCells(pos, scrEnd - pos);
      } else if par == 1 {
        EraseCells(origin, pos - origin);
      } else if par == 2 {
        EraseCells(origin, d.columns * d.lines);
      }
    }

    method CsiK(par: nat)
      requires Valid()
      modifies mem
      ensures Valid() && T() == EraseLine(d, old(T()), par)
    {
      CursorInside(d, T());
      hide Row, Blank;
      if par == 0 {
        if x >= d.columns { return; }
        EraseCells(pos, d.columns - x);
      } else if par == 1 {
        EraseCells(pos - x, if x < d.columns then x else d.columns);
      } else if par == 2 {
        EraseCells(pos - x, d.columns);
      }
    }

    method CsiSgr()
      requires Valid()
      modifies `attr
      ensures Valid() && T() == old(T()).(attr := Attributes(old(attr), esc.par, esc.npar, 0))
    {
      var i := 0;
      while i <= esc.npar
        invariant 0 <= i <= esc.npar + 1 && attr < 256
        invariant Attributes(attr, esc.par, esc.npar, i) == Attributes(old(attr), esc.par, esc.npar, 0)
      {
        match esc.par[i] {
          case 0 => attr := 0x07;
          case 1 => attr := 0x0f;
          case 4 => attr := 0x0f;
          case 7 => attr := 0x70;
          case 27 => attr := 0x07;
          case _ =>
        }
        i := i + 1;
      }
    }

    /** insert_char */
    method InsertChar()
      requires Valid()
      modifies mem
      ensures Valid()
      ensures T() == old(T()).(grid := Inserted(old(T()).grid, Cursor(d, old(T())), Row(d, old(T()).y) + d.columns))
    {
      CursorInside(d, T());
      hide Row;
      ghost var was := mem[..];
      ShiftRight();
      InsertMade(was, mem[..], origin, scrEnd, pos, pos + d.columns - x);
      assert mem[origin..scrEnd] == mem[..][origin..scrEnd] && was[origin..scrEnd] == old(mem[origin..scrEnd]);
    }

    /** Its loop. */
    method ShiftRight()
      requires x <= d.columns && pos + d.columns - x <= mem.Length
      modifies mem
      ensures ShiftedRight(old(mem[..]), mem[..], pos, pos + d.columns - x)
    {
      ghost var was := mem[..];
      var i, p, carry := x, pos, ERASE;
      while i < d.columns
        invariant x <= i <= d.columns && p == pos + (i - x)
        invariant carry == (if p == pos then ERASE else was[p - 1]) && ShiftedRight(was, mem[..], pos, p)
      {
        var tmp := mem[p];
        mem[p] := carry;
        carry := tmp;
        p := p + 1;
        i := i + 1;
      }
    }

    /** delete_char */
    method DeleteChar()
      requires Valid()
      modifies mem
      ensures Valid()
      ensures T() == if old(T()).x >= d.columns then old(T())
                     else old(T()).(grid := Deleted(old(T()).grid, Cursor(d, old(T())), Row(d, old(T()).y) + d.columns))
    {
      if x >= d.columns { return; }
      CursorInside(d, T());
      hide Row;
      ghost var was := mem[..];
      ShiftLeft();
      DeleteMade(was, mem[..], origin, scrEnd, pos, pos + d.columns - x - 1);
      assert mem[origin..scrEnd] == mem[..][origin..scrEnd] && was[origin..scrEnd] == old(mem[origin..scrEnd]);
    }

    method ShiftLeft()
      requires x < d.columns && pos + d.columns - x <= mem.Length
      modifies mem
      ensures var last := pos + d.columns - x - 1;
              ShiftedLeft(old(mem[..]), mem[..], pos, last, last + 1) && mem[last] == ERASE
    {
      ghost var was := mem[..];
      var i, p := x + 1, pos;
      while i < d.columns
        invariant x < i <= d.columns && p == pos + (i - x - 1) && ShiftedLeft(was, mem[..], pos, p, p)
      {
        mem[p] := mem[p + 1];
        p := p + 1;
        i := i + 1;
      }
      mem[p] := ERASE;
    }

    method CsiAt(nr: nat)
      requires Valid()
      modifies mem
      ensures Valid() && T() == InsertChars(d, old(T()), Count(nr, d.columns))
    {
      RepeatInsert(if nr > d.columns then d.columns else if nr == 0 then 1 else nr);
    }

    method RepeatInsert(n: nat)
      requires Valid()
      modifies mem
      ensures Valid() && T() == InsertChars(d, old(T()), n)
    {
      ghost var t := T();
      InsertNone(d, t);
      hide *;
      var i := 0;
      while i < n
        invariant 0 <= i <= n && Valid() && CharsInserted(d, t, i, T())
      {
        InsertMore(d, t, i, T());
        InsertChar();
        i := i + 1;
      }
      InsertAll(d, t, n, T());
    }

    method CsiP(nr: nat)
      requires Valid()
      modifies mem
      ensures Valid() && T() == DeleteChars(d, old(T()), Count(nr, d.columns))
    {
      RepeatDelete(if nr > d.columns then d.columns else if nr == 0 then 1 else nr);
    }

    method RepeatDelete(n: nat)
      requires Valid()
      modifies mem
      ensures Valid() && T() == DeleteChars(d, old(T()), n)
    {
      ghost var t := T();
      DeleteNone(d, t);
      hide *;
      var i := 0;
      while i < n
        invariant 0 <= i <= n && Valid() && CharsDeleted(d, t, i, T())
      {
        DeleteMore(d, t, i, T());
        DeleteChar();
        i := i + 1;
      }
      DeleteAll(d, t, n, T());
    }

    /** insert_line is a scrdown of the rows from the cursor on. */
    method CsiL(nr: nat)
      requires Valid()
      modifies mem
      ensures Valid() && T() == InsertLines(d, old(T()), Count(nr, d.lines))
    {
      var n, i := if nr > d.lines then d.lines else if nr == 0 then 1 else nr, 0;
      ghost var t := T();
      while i < n
        invariant 0 <= i <= n && Valid() && LinesInserted(d, t, i, T())
      {
        LinesMore(d, t, i, T());
        assert y < d.lines && T().y == y;
        hide *;
        ScrDown(y, d.lines);
        i := i + 1;
      }
    }

    /** delete_line is a scrup, on an EGA in the top row one that moves the window. */
    method CsiM(nr: nat)
      requires Valid()
      modifies `origin, `scrEnd, `pos, mem
      ensures Valid() && T() == DeleteLines(d, old(T()), Count(nr, d.lines))
    {
      var n, i := if nr > d.lines then d.lines else if nr == 0 then 1 else nr, 0;
      ghost var t := T();
      assert n == Count(nr, d.lines);
      hide DeleteLines, Up, Count, TermOk, LinesDeleted;
      LinesNone(d, t);
      while i < n
        invariant 0 <= i <= n && Valid() && LinesDeleted(d, t, i, T())
      {
        LinesFewer(d, t, i, T());
        assert y < d.lines && T().y == y;
        hide *;
        ScrUp(y, d.lines);
        i := i + 1;
      }
      LinesAllDeleted(d, t, n, T());
    }

    // ---- con_write ----

    /** A character outside escape sequences. */
    method WritePlain(c: Char, erase: nat)
      requires Valid()
      modifies `origin, `scrEnd, `pos, `x, `y, `esc, mem
      ensures Valid() && T() == Plain(d, old(T()), c, erase)
    {
      hide Row, Printed, LineFeed, Tabbed, Blank;
      if c > 31 && c < 127 {
        PutChar(c);
      } else if c == 27 {
        esc := esc.(state := 1);
      } else if c == 10 || c == 11 || c == 12 {
        Lf();
      } else if c == 13 {
        Cr();
      } else if c == erase {
        Del();
      } else if c == 8 {
        if x != 0 {
          x := x - 1;
          pos := pos - 1;
        }
      } else if c == 9 {
        Tab();
      }
    }

    method WriteAfterEsc(c: Char)
      requires Valid()
      modifies `origin, `scrEnd, `pos, `x, `y, `esc, `savedX, `savedY, mem
      ensures Valid() && T() == AfterEsc(d, old(T()), c)
    {
      hide Row, Goto, LineFeed, ReverseFeed;
      esc := esc.(state := 0);
      if c == '[' as int {
        esc := esc.(state := 2);
      } else if c == 'E' as int {
        GotoXY(0, y + 1);
      } else if c == 'M' as int {
        Ri();
      } else if c == 'D' as int {
        Lf();
      } else if c == 'Z' as int {
      } else if x == '7' as int {
        savedX, savedY := x, y;
      } else if x == '8' as int {
        GotoXY(savedX, savedY);
      }
    }

    /** The last character of a control sequence.  The parameters are not used again after it. */
    method WriteControl(c: Char)
      requires Valid()
      modifies `origin, `scrEnd, `pos, `x, `y, `top, `bottom, `attr, `savedX, `savedY, mem
      ensures Valid() && T() == Control(d, old(T()), c)
    {
      hide Row, Goto, EraseDisplay, EraseLine, InsertLines, DeleteLines, InsertChars, DeleteChars, Attributes, Count,
           Region, Less1, Atleast1;
      var p, q := esc.par[0], esc.par[1];
      if c == 'G' as int || c == '`' as int { GotoXY(Less1(p), y); }
      else if c == 'A' as int { GotoXY(x, y - Atleast1(p)); }
      else if c == 'B' as int || c == 'e' as int { GotoXY(x, y + Atleast1(p)); }
      else if c == 'C' as int || c == 'a' as int { GotoXY(x + Atleast1(p), y); }
      else if c == 'D' as int { GotoXY(x - Atleast1(p), y); }
      else if c == 'E' as int { GotoXY(0, y + Atleast1(p)); }
      else if c == 'F' as int { GotoXY(0, y - Atleast1(p)); }
      else if c == 'd' as int { GotoXY(x, Less1(p)); }
      else if c == 'H' as int || c == 'f' as int { GotoXY(Less1(q), Less1(p)); }
      else if c == 'J' as int { CsiJ(p); }
      else if c == 'K' as int { CsiK(p); }
      else if c == 'L' as int { CsiL(p); }
      else if c == 'M' as int { CsiM(p); }
      else if c == 'P' as int { CsiP(p); }
      else if c == '@' as int { CsiAt(p); }
      else if c == 'm' as int { CsiSgr(); }
      else if c == 'r' as int { SetRegion(p, q); }
      else if c == 's' as int { savedX, savedY := x, y; }
      else if c == 'u' as int { GotoXY(savedX, savedY); }
    }

    method SetRegion(p: nat, q: nat)
      requires Valid()
      modifies `top, `bottom
      ensures Valid() && T() == Region(d, old(T()), p, q)
    {
      var par0 := if p != 0 then p - 1 else p;
      var par1 := if q == 0 then d.lines else q;
      if par0 < par1 && par1 <= d.lines { top, bottom := par0, par1; }
    }

    /** A character of the parameters: whether it was one. */
    method WriteParameter(c: Char) returns (more: bool)
      requires Valid() && esc.state == 3
      modifies `esc
      ensures Valid() && T() == old(T()).(esc := esc) && (more, esc) == Parameter(old(esc), c)
    {
      if c == ';' as int && esc.npar < NPAR - 1 {
        esc := esc.(npar := esc.npar + 1);
        more := true;
      } else if '0' as int <= c <= '9' as int {
        esc := esc.(par := esc.par[esc.npar := (10 * esc.par[esc.npar] + c - '0' as int) % WRAP]);
        more := true;
      } else {
        esc := esc.(state := 0);
        more := false;
      }
    }

    method ClearParameters()
      requires Valid()
      modifies `esc
      ensures Valid() && T() == old(T()).(esc := Cleared(old(esc)))
    {
      var par := esc.par;
      var n := 0;
      while n < NPAR
        invariant 0 <= n <= NPAR && |par| == NPAR && forall i | 0 <= i < n :: par[i] == 0
      {
        par := par[n := 0];
        n := n + 1;
      }
      assert par == seq(NPAR, _ => 0);
      esc := Escape(3, 0, par);
    }

    /** One turn of the loop of con_write. */
    method WriteChar(c: Char, erase: nat)
      requires Valid()
      modifies this, mem
      ensures Valid() && T() == Step(d, old(T()), c, erase)
    {
      hide Row, Plain, AfterEsc, Control, Parameter, Cleared;
      if esc.state == 0 {
        WritePlain(c, erase);
      } else if esc.state == 1 {
        WriteAfterEsc(c);
      } else {
        if esc.state == 2 {
          ClearParameters();
          if c == '?' as int { return; }
        }
        var more := WriteParameter(c);
        if !more { WriteControl(c); }
      }
    }

    /** con_write, for the characters that wait. */
    method ConWrite(chars: seq<Char>, erase: nat)
      requires Valid()
      modifies this, mem
      ensures Valid() && T() == Written(d, old(T()), chars, erase)
    {
      ghost var t := T();
      var i := 0;
      while i < |chars|
        invariant 0 <= i <= |chars| && Valid() && T() == Written(d, t, chars[..i], erase)
      {
        assert chars[..i + 1][..i] == chars[..i];
        hide Step;
        WriteChar(chars[i], erase);
        i := i + 1;
      }
      assert chars[..i] == chars;
    }
  }

  ghost predicate CharsInserted(d: Size, t: Term, n: nat, u: Term) {
    TermOk(d, t) && u == InsertChars(d, t, n) && u == t.(grid := u.grid)
  }

  lemma InsertNone(d: Size, t: Term)
    requires TermOk(d, t)
    ensures CharsInserted(d, t, 0, t)
  {}

  lemma InsertAll(d: Size, t: Term, n: nat, u: Term)
    requires CharsInserted(d, t, n, u)
    ensures TermOk(d, t) && u == InsertChars(d, t, n)
  {}

  lemma InsertMore(d: Size, t: Term, n: nat, u: Term)
    requires CharsInserted(d, t, n, u)
    ensures CharsInserted(d, t, n + 1, u.(grid := Inserted(u.grid, Cursor(d, u), Row(d, u.y) + d.columns)))
  {}

  ghost predicate CharsDeleted(d: Size, t: Term, n: nat, u: Term) {
    TermOk(d, t) && u == DeleteChars(d, t, n) && u == t.(grid := u.grid)
  }

  lemma DeleteNone(d: Size, t: Term)
    requires TermOk(d, t)
    ensures CharsDeleted(d, t, 0, t)
  {}

  lemma DeleteAll(d: Size, t: Term, n: nat, u: Term)
    requires CharsDeleted(d, t, n, u)
    ensures TermOk(d, t) && u == DeleteChars(d, t, n)
  {}

  lemma DeleteMore(d: Size, t: Term, n: nat, u: Term)
    requires CharsDeleted(d, t, n, u)
    ensures CharsDeleted(d, t, n + 1,
              if u.x >= d.columns then u else u.(grid := Deleted(u.grid, Cursor(d, u), Row(d, u.y) + d.columns)))
  {}

  ghost predicate LinesInserted(d: Size, t: Term, n: nat, u: Term) {
    TermOk(d, t) && u == InsertLines(d, t, n) && u == t.(grid := u.grid)
  }

  lemma LinesMore(d: Size, t: Term, n: nat, u: Term)
    requires LinesInserted(d, t, n, u)
    ensures TermOk(d, u) && LinesInserted(d, t, n + 1, u.(grid := Down(d, u.grid, u.y, d.lines)))
  {}

  ghost predicate LinesDeleted(d: Size, t: Term, n: nat, u: Term) {
    TermOk(d, t) && u == DeleteLines(d, t, n) && u == t.(grid := u.grid)
  }

  lemma LinesAllDeleted(d: Size, t: Term, n: nat, u: Term)
    requires LinesDeleted(d, t, n, u)
    ensures TermOk(d, t) && u == DeleteLines(d, t, n)
  {}

  lemma LinesNone(d: Size, t: Term)
    requires TermOk(d, t)
    ensures LinesDeleted(d, t, 0, t)
  {}

  lemma LinesFewer(d: Size, t: Term, n: nat, u: Term)
    requires LinesDeleted(d, t, n, u)
    ensures TermOk(d, u) && LinesDeleted(d, t, n + 1, u.(grid := Up(d, u.grid, u.y, d.lines)))
  {}

  /** The words from `at` up to `to` have moved right by one, behind a blank. */
  ghost predicate ShiftedRight(was: seq<Word>, now: seq<Word>, at: nat, to: nat) {
    && |was| == |now| && at <= to <= |was|
    && (forall k | at < k < to :: now[k] == was[k - 1])
    && (at < to ==> now[at] == ERASE)
    && forall k | 0 <= k < |was| && !(at <= k < to) :: now[k] == was[k]
  }

  /** The words behind `at` up to `to` have moved left by one; nothing else up to `end` is known to be kept. */
  ghost predicate ShiftedLeft(was: seq<Word>, now: seq<Word>, at: nat, to: nat, end: nat) {
    && |was| == |now| && at <= to <= end <= |was|
    && (forall k | at <= k < to && k + 1 < |was| :: now[k] == was[k + 1])
    && forall k | 0 <= k < |was| && !(at <= k < end) :: now[k] == was[k]
  }

  lemma InsertMade(was: seq<Word>, now: seq<Word>, origin: nat, end: nat, at: nat, to: nat)
    requires origin <= at <= to <= end <= |was| && ShiftedRight(was, now, at, to)
    ensures now[origin..end] == Inserted(was[origin..end], at - origin, to - origin)
  {
    var u := Inserted(was[origin..end], at - origin, to - origin);
    forall i | 0 <= i < end - origin ensures now[origin + i] == u[i] {}
  }

  lemma DeleteMade(was: seq<Word>, now: seq<Word>, origin: nat, end: nat, at: nat, last: nat)
    requires origin <= at <= last < end <= |was| && ShiftedLeft(was, now, at, last, last + 1) && now[last] == ERASE
    ensures now[origin..end] == Deleted(was[origin..end], at - origin, last + 1 - origin)
  {
    var u := Deleted(was[origin..end], at - origin, last + 1 - origin);
    forall i | 0 <= i < end - origin ensures now[origin + i] == u[i] {}
  }

  lemma BlankMade(was: seq<Word>, now: seq<Word>, origin: nat, end: nat, at: nat, n: nat)
    requires origin <= at && at + n <= end <= |was| && Erased(was, now, at, n)
    ensures now[origin..end] == Blank(was[origin..end], at - origin, at - origin + n)
  {}

  lemma DownMade(d: Size, was: seq<Word>, mid: seq<Word>, now: seq<Word>, at: nat, from: nat, to: nat, a: nat, b: nat,
                 n: nat)
    requires from < to <= d.lines && at + Cells(d) <= |was| == |mid| == |now|
    requires a == at + Row(d, from) && b == at + Row(d, from + 1) && n == Span(d, from, to)
    requires Moved(was, mid, b, a, n) && Erased(mid, now, a, d.columns)
    ensures now[at..at + Cells(d)] == Down(d, was[at..at + Cells(d)], from, to)
  {
    RowsOf(d, from, to);
    var u := Down(d, was[at..at + Cells(d)], from, to);
    forall i | 0 <= i < Cells(d) ensures now[at + i] == u[i] {
      hide Row;
      if Row(d, from + 1) <= i < Row(d, to) { assert mid[at + i] == was[at + i - d.columns]; }
    }
  }

  /** The words of a region but its last row. */
  function Span(d: Size, from: nat, to: nat): nat
    requires from < to
  {
    (to - from - 1) * d.columns
  }

  /** Where the rows of a region are. */
  lemma RowsOf(d: Size, from: nat, to: nat)
    requires from < to <= d.lines
    ensures Row(d, from) + Span(d, from, to) == Row(d, to - 1) && Row(d, from + 1) == Row(d, from) + d.columns
    ensures Row(d, to) == Row(d, to - 1) + d.columns <= Cells(d) && Row(d, 0) == 0
    ensures Row(d, d.lines) == Cells(d) == Row(d, d.lines - 1) + d.columns
  {
    Rows(d, to - 1, d.lines);
    Rows(d, to, d.lines);
    Rows(d, d.lines - 1, d.lines);
    Rows(d, from, from);
    Rows(d, from, to - 1);
  }

  lemma UpMade(d: Size, was: seq<Word>, mid: seq<Word>, now: seq<Word>, at: nat, from: nat, to: nat, a: nat, b: nat,
               n: nat)
    requires from < to <= d.lines && at + Cells(d) <= |was| == |mid| == |now|
    requires a == at + Row(d, from) && b == at + Row(d, from + 1) && n == Span(d, from, to)
    requires Moved(was, mid, a, b, n) && Erased(mid, now, a + n, d.columns)
    ensures now[at..at + Cells(d)] == Up(d, was[at..at + Cells(d)], from, to)
  {
    RowsOf(d, from, to);
    var g, u := was[at..at + Cells(d)], Up(d, was[at..at + Cells(d)], from, to);
    forall i | 0 <= i < Cells(d) ensures now[at + i] == u[i] {
      hide Row;
      if Row(d, from) <= i < Row(d, to - 1) { assert mid[at + i] == was[at + i + d.columns]; }
    }
  }

  /** The window has gone back to the start. */
  lemma MovedBack(d: Size, was: seq<Word>, mid: seq<Word>, now: seq<Word>, at: nat)
    requires d.lines > 0 && at + Cells(d) <= |was| == |mid| == |now|
    requires Moved(was, mid, 0, at + d.columns, Row(d, d.lines - 1)) && Erased(mid, now, Row(d, d.lines - 1), d.columns)
    ensures now[0..Cells(d)] == Up(d, was[at..at + Cells(d)], 0, d.lines)
  {
    RowsOf(d, 0, d.lines);
    var u := Up(d, was[at..at + Cells(d)], 0, d.lines);
    forall i | 0 <= i < Cells(d) ensures now[i] == u[i] {
      hide Row;
      if i < Row(d, d.lines - 1) { assert mid[i] == was[at + i + d.columns]; }
    }
  }

  /** The window has gone on. */
  lemma MovedOn(d: Size, was: seq<Word>, now: seq<Word>, at: nat)
    requires d.lines > 0 && at + d.columns + Cells(d) <= |was| == |now|
    requires Erased(was, now, at + Cells(d), d.columns)
    ensures now[at + d.columns..at + d.columns + Cells(d)] == Up(d, was[at..at + Cells(d)], 0, d.lines)
  {
    RowsOf(d, 0, d.lines);
    var u := Up(d, was[at..at + Cells(d)], 0, d.lines);
    forall i | 0 <= i < Cells(d) ensures now[at + d.columns + i] == u[i] { hide Row; }
  }
}
