/** kernel/chr_drv/tty_io.c: the line discipline, between the characters that come in and the lines a reader
    gets. */
module Tty {
  import opened Options

  const SIZE := 1024

  /** signed char */
  type Char = c: int | -128 <= c < 128

  const CR: Char := 13
  const NL: Char := 10

  /** The flags and control characters of termios that matter here; a control character is unsigned. */
  datatype Termios = Termios(crnl: bool, nocr: bool, nlcr: bool, uclc: bool, canon: bool, isig: bool,
                             intr: nat, quit: nat, erase: nat, kill: nat, eof: nat, start: nat, stop: nat)

  /** q: what waits in the secondary queue; data: its count of line ends; the signals that have been sent. */
  datatype State = State(q: seq<Char>, data: int, stopped: bool, intrs: nat, quits: nat)

  function Lower(c: Char): Char { if 65 <= c <= 90 then c + 32 else c }

  /** The input mappings; None is a character that is ignored. */
  function Mapped(t: Termios, c: Char): Option<Char> {
    if c == CR && !t.crnl && t.nocr then None
    else
      var d := if c == CR then (if t.crnl then NL else CR) else if c == NL && t.nlcr then CR else c;
      Some(if t.uclc then Lower(d) else d)
  }

  /** A newline or the end-of-file character ends a line. */
  predicate Mark(t: Termios, c: Char) { c == NL || c == t.eof }

  /** The finished lines of a queue. */
  function Completed(t: Termios, q: seq<Char>): (r: seq<Char>)
    ensures |r| <= |q|
  {
    if q == [] || Mark(t, q[|q| - 1]) then q else Completed(t, q[..|q| - 1])
  }

  /** They are all of the queue up to its last line end. */
  lemma {:induction false} CompletedIs(t: Termios, q: seq<Char>)
    ensures var r := Completed(t, q);
            r == q[..|r|] && (r == [] || Mark(t, r[|r| - 1])) && forall i | |r| <= i < |q| :: !Mark(t, q[i])
  {
    if q != [] && !Mark(t, q[|q| - 1]) { CompletedIs(t, q[..|q| - 1]); }
  }

  function Marks(t: Termios, q: seq<Char>): nat {
    if q == [] then 0 else Marks(t, q[..|q| - 1]) + if Mark(t, q[|q| - 1]) then 1 else 0
  }

  datatype Edit = Ignore | Kill | Erase | Stop | Start | Intr | Quit | Put(c: Char)

  /** What a character asks for. */
  function EditOf(t: Termios, c: Char): Edit {
    match Mapped(t, c)
    case None => Ignore
    case Some(d) =>
      if t.canon && d == t.kill then Kill
      else if t.canon && d == t.erase then Erase
      else if t.canon && d == t.stop then Stop
      else if t.canon && d == t.start then Start
      else if t.isig && d == t.intr then Intr
      else if t.isig && d == t.quit then Quit
      else Put(d)
  }

  function Apply(t: Termios, s: State, e: Edit): State {
    match e
    case Ignore => s
    case Kill => s.(q := Completed(t, s.q))
    case Erase => s.(q := Shorter(t, s.q))
    case Stop => s.(stopped := true)
    case Start => s.(stopped := false)
    case Intr => s.(intrs := s.intrs + 1)
    case Quit => s.(quits := s.quits + 1)
    case Put(d) => s.(q := s.q + [d], data := s.data + if Mark(t, d) then 1 else 0)
  }

  /** The last character is taken back, unless it ended a line. */
  function Shorter(t: Termios, q: seq<Char>): seq<Char> {
    if q == [] || Mark(t, q[|q| - 1]) then q else q[..|q| - 1]
  }

  /** One turn of the loop of copy_to_cooked. */
  function Cook(t: Termios, s: State, c: Char): State { Apply(t, s, EditOf(t, c)) }

  function Fold(t: Termios, s: State, input: seq<Char>): State {
    if input == [] then s else Cook(t, Fold(t, s, input[..|input| - 1]), input[|input| - 1])
  }

  lemma FoldOne(t: Termios, s: State, x: seq<Char>, c: Char)
    ensures Fold(t, s, x + [c]) == Cook(t, Fold(t, s, x), c)
  {
    hide Cook;
    assert (x + [c])[..|x|] == x;
  }

  // ---- What a character does ----

  predicate EndsLine(t: Termios, c: Char) { c == 10 || c == t.eof }

  /** The effect of a character after the input mappings; the control characters are looked for in this
      order. */
  ghost predicate Did(t: Termios, s: State, u: State, c: Char) {
    if t.canon && c == t.kill then
      && u == s.(q := u.q) && u.q <= s.q && (u.q == [] || EndsLine(t, u.q[|u.q| - 1]))
      && forall i | |u.q| <= i < |s.q| :: !EndsLine(t, s.q[i])
    else if t.canon && c == t.erase then
      if s.q == [] || EndsLine(t, s.q[|s.q| - 1]) then u == s else u == s.(q := s.q[..|s.q| - 1])
    else if t.canon && c == t.stop then u == s.(stopped := true)
    else if t.canon && c == t.start then u == s.(stopped := false)
    else if t.isig && c == t.intr then u == s.(intrs := s.intrs + 1)
    else if t.isig && c == t.quit then u == s.(quits := s.quits + 1)
    else u == s.(q := s.q + [c], data := if EndsLine(t, c) then s.data + 1 else s.data)
  }

  /** A carriage return is a newline, nothing or itself, a newline may be a carriage return, a capital letter
      a small one, as the flags say; any other character stands for itself. */
  lemma CookMeans(t: Termios, s: State, c: Char)
    ensures var u := Cook(t, s, c);
            && (c == 13 && t.crnl ==> Did(t, s, u, 10))
            && (c == 13 && !t.crnl && t.nocr ==> u == s)
            && (c == 13 && !t.crnl && !t.nocr ==> Did(t, s, u, 13))
            && (c == 10 ==> Did(t, s, u, if t.nlcr then 13 else 10))
            && ('A' as int <= c <= 'Z' as int ==> Did(t, s, u, if t.uclc then c + 32 else c))
            && (c != 13 && c != 10 && !('A' as int <= c <= 'Z' as int) ==> Did(t, s, u, c))
  {
    CompletedIs(t, s.q);
    hide Completed;
  }

  // ---- Lines ----

  lemma MarksPushed(t: Termios, q: seq<Char>, c: Char)
    ensures Marks(t, q + [c]) == Marks(t, q) + if Mark(t, c) then 1 else 0
  {
    assert (q + [c])[..|q|] == q;
  }

  lemma {:induction false} MarksCompleted(t: Termios, q: seq<Char>)
    ensures Marks(t, Completed(t, q)) == Marks(t, q)
  {
    if q != [] && !Mark(t, q[|q| - 1]) { MarksCompleted(t, q[..|q| - 1]); }
  }

  lemma {:induction false} MarksFirst(t: Termios, q: seq<Char>)
    requires q != []
    ensures Marks(t, q) == Marks(t, q[1..]) + if Mark(t, q[0]) then 1 else 0
  {
    var n := |q| - 1;
    if n > 0 {
      MarksFirst(t, q[..n]);
      assert q[..n][1..] == q[1..][..n - 1];
    }
  }

  /** data counts the line ends that wait. */
  lemma CookCounts(t: Termios, s: State, c: Char)
    requires s.data == Marks(t, s.q)
    ensures Cook(t, s, c).data == Marks(t, Cook(t, s, c).q)
  {
    hide EditOf, Mark;
    MarksCompleted(t, s.q);
    var e := EditOf(t, c);
    if e.Put? { MarksPushed(t, s.q, e.c); }
  }

  lemma CompletedPushed(t: Termios, q: seq<Char>, c: Char)
    ensures Completed(t, q + [c]) == if Mark(t, c) then q + [c] else Completed(t, q)
  {
    assert (q + [c])[..|q|] == q;
  }

  lemma CompletedTwice(t: Termios, q: seq<Char>)
    ensures Completed(t, Completed(t, q)) == Completed(t, q) == Completed(t, Shorter(t, q))
  {}

  /** No character, erase and kill included, changes a line that is finished. */
  lemma CookKeepsLines(t: Termios, s: State, c: Char)
    ensures Completed(t, s.q) <= Completed(t, Cook(t, s, c).q)
  {
    var e := EditOf(t, c);
    CompletedTwice(t, s.q);
    CompletedIs(t, s.q);
    if e.Put? { CompletedPushed(t, s.q, e.c); }
  }

  lemma {:induction false} FoldKeepsLines(t: Termios, s: State, input: seq<Char>)
    requires s.data == Marks(t, s.q)
    ensures Completed(t, s.q) <= Completed(t, Fold(t, s, input).q)
    ensures Fold(t, s, input).data == Marks(t, Fold(t, s, input).q)
  {
    if input != [] {
      var n := |input| - 1;
      FoldKeepsLines(t, s, input[..n]);
      CookKeepsLines(t, Fold(t, s, input[..n]), input[n]);
      CookCounts(t, Fold(t, s, input[..n]), input[n]);
    }
  }

  /** The first k characters taken out of the queue. */
  function Drop(t: Termios, s: State, k: nat): State
    requires k <= |s.q|
  {
    s.(q := s.q[k..], data := s.data - Marks(t, s.q[..k]))
  }

  lemma {:induction false} CompletedDrop(t: Termios, q: seq<Char>, k: nat)
    requires k <= |Completed(t, q)|
    ensures k <= |q| && Completed(t, q[k..]) == Completed(t, q)[k..]
  {
    var n := |q| - 1;
    if q != [] && !Mark(t, q[n]) {
      CompletedDrop(t, q[..n], k);
      assert q[..n][k..] == q[k..][..n - k];
      assert k <= n;
    }
  }

  lemma ShorterDrop(t: Termios, q: seq<Char>, k: nat)
    requires k <= |Completed(t, q)|
    ensures k <= |Shorter(t, q)| && Shorter(t, q[k..]) == Shorter(t, q)[k..]
  {
    var n := |q| - 1;
    if |q| > k { assert q[k..][n - k] == q[n] && q[k..][..n - k] == q[..n][k..]; }
  }

  lemma ApplyDrop(t: Termios, s: State, e: Edit, k: nat)
    requires k <= |Completed(t, s.q)| && k <= |Apply(t, s, e).q|
    ensures Apply(t, Drop(t, s, k), e) == Drop(t, Apply(t, s, e), k)
  {
    var q, r := s.q, Completed(t, s.q);
    CompletedIs(t, q);
    assert r[..k] == q[..k];
    match e
    case Kill => CompletedDrop(t, q, k);
    case Erase =>
      ShorterDrop(t, q, k);
      assert Shorter(t, q)[..k] == q[..k];
    case Put(d) => PutDrop(t, s, d, k);
    case _ =>
  }

  lemma PutDrop(t: Termios, s: State, d: Char, k: nat)
    requires k <= |s.q|
    ensures Apply(t, s, Put(d)).q[..k] == s.q[..k]
    ensures Apply(t, Drop(t, s, k), Put(d)) == Drop(t, Apply(t, s, Put(d)), k)
  {
    assert (s.q + [d])[k..] == s.q[k..] + [d] && (s.q + [d])[..k] == s.q[..k];
  }

  /** Something that takes characters back can be typed. */
  ghost predicate CanEdit(t: Termios) { exists c :: EditOf(t, c) == Kill || EditOf(t, c) == Erase }

  /** Nothing can take the first k characters back any more. */
  ghost predicate Settled(t: Termios, q: seq<Char>, k: nat) { k <= |Completed(t, q)| || (!CanEdit(t) && k <= |q|) }

  /** A reader who takes what is settled does not disturb the editing of the rest. */
  lemma CookDrop(t: Termios, s: State, c: Char, k: nat)
    requires Settled(t, s.q, k)
    ensures Settled(t, Cook(t, s, c).q, k) && s.q[..k] == Cook(t, s, c).q[..k]
    ensures Cook(t, Drop(t, s, k), c) == Drop(t, Cook(t, s, c), k)
  {
    if k <= |Completed(t, s.q)| {
      CookKeepsLines(t, s, c);
      LinesFirst(t, s.q, Cook(t, s, c).q, k);
      hide EditOf, Completed, CanEdit;
      ApplyDrop(t, s, EditOf(t, c), k);
    } else {
      assert EditOf(t, c) != Kill && EditOf(t, c) != Erase;
      AddedDrop(t, s, EditOf(t, c), k);
    }
  }

  lemma LinesFirst(t: Termios, q: seq<Char>, u: seq<Char>, k: nat)
    requires k <= |Completed(t, q)| && Completed(t, q) <= Completed(t, u)
    ensures k <= |Completed(t, u)| && q[..k] == u[..k]
  {
    CompletedIs(t, q);
    CompletedIs(t, u);
    hide *;
    var r, v := Completed(t, q), Completed(t, u);
    assert q[..k] == r[..k] == v[..k] == u[..k];
  }

  lemma AddedDrop(t: Termios, s: State, e: Edit, k: nat)
    requires e != Kill && e != Erase && k <= |s.q|
    ensures var u := Apply(t, s, e);
            |s.q| <= |u.q| && s.q[..k] == u.q[..k] && Apply(t, Drop(t, s, k), e) == Drop(t, u, k)
  {
    hide Completed, Marks, Mark;
    if e.Put? { PutDrop(t, s, e.c, k); }
  }

  lemma {:induction false} FoldDrop(t: Termios, s: State, input: seq<Char>, k: nat)
    requires Settled(t, s.q, k)
    ensures Settled(t, Fold(t, s, input).q, k) && s.q[..k] == Fold(t, s, input).q[..k]
    ensures Fold(t, Drop(t, s, k), input) == Drop(t, Fold(t, s, input), k)
  {
    if input != [] {
      var n := |input| - 1;
      FoldDrop(t, s, input[..n], k);
      CookDrop(t, Fold(t, s, input[..n]), input[n], k);
    }
  }

  // ---- What editing means ----

  /** A character that goes into the line as it is. */
  predicate Plain(t: Termios, c: Char) { EditOf(t, c) == Put(c) && !Mark(t, c) }

  /** erase takes back the character before it. */
  lemma EraseUndoes(t: Termios, s: State, c: Char, erase: Char)
    requires Plain(t, c) && EditOf(t, erase) == Erase
    ensures Fold(t, s, [c, erase]) == s
  {
    var one: seq<Char> := [c];
    assert [c, erase][..1] == one && one[..0] == [];
    assert Fold(t, s, one) == Cook(t, s, c);
    assert (s.q + [c])[..|s.q|] == s.q;
  }

  lemma {:induction false} PlainTyped(t: Termios, s: State, x: seq<Char>)
    requires forall i | 0 <= i < |x| :: Plain(t, x[i])
    ensures Fold(t, s, x) == s.(q := s.q + x) && Completed(t, s.q + x) == Completed(t, s.q)
  {
    if x == [] {
      assert s.q + x == s.q;
    } else {
      var n := |x| - 1;
      PlainTyped(t, s, x[..n]);
      PlainCooked(t, s.(q := s.q + x[..n]), x[n]);
      FoldOne(t, s, x[..n], x[n]);
      hide *;
      Snoc(s.q, x);
    }
  }

  lemma Snoc(a: seq<Char>, x: seq<Char>)
    requires x != []
    ensures var n := |x| - 1; x == x[..n] + [x[n]] && a + x == (a + x[..n]) + [x[n]]
  {}

  lemma PlainCooked(t: Termios, s: State, c: Char)
    requires Plain(t, c)
    ensures Cook(t, s, c) == s.(q := s.q + [c]) && Completed(t, s.q + [c]) == Completed(t, s.q)
  {
    CompletedPushed(t, s.q, c);
  }

  /** kill takes back the whole line, and nothing of the lines before. */
  lemma KillUndoes(t: Termios, s: State, x: seq<Char>, kill: Char)
    requires (forall i | 0 <= i < |x| :: Plain(t, x[i])) && EditOf(t, kill) == Kill
    ensures Fold(t, s, x + [kill]) == s.(q := Completed(t, s.q))
  {
    PlainTyped(t, s, x);
    assert (x + [kill])[..|x|] == x;
  }

  // ---- Readers and input at any times ----

  datatype Event = Input(c: Char) | Read(k: nat)

  ghost predicate Enabled(s: State, e: Event) { e.Read? ==> e.k <= |s.q| }

  function Next(t: Termios, s: State, e: Event): State
    requires Enabled(s, e)
  {
    match e
    case Input(c) => Cook(t, s, c)
    case Read(k) => Drop(t, s, k)
  }

  ghost predicate Ran(t: Termios, run: seq<State>, events: seq<Event>) {
    && |run| == |events| + 1
    && forall i | 0 <= i < |events| :: Enabled(run[i], events[i]) && run[i + 1] == Next(t, run[i], events[i])
  }

  function Inputs(events: seq<Event>): seq<Char> {
    if events == [] then []
    else
      var n := |events| - 1;
      Inputs(events[..n]) + if events[n].Input? then [events[n].c] else []
  }

  /** The characters that readers have taken. */
  function Taken(run: seq<State>, events: seq<Event>): seq<Char>
    requires |run| == |events| + 1
  {
    if events == [] then []
    else
      var n := |events| - 1;
      Taken(run[..n + 1], events[..n]) + if events[n].Read?
          && events[n].k <= |run[n].q| then run[n].q[..events[n].k] else []
  }

  /** The reader takes only what is settled. */
  ghost predicate TakesSettled(t: Termios, s: State, e: Event) { e.Read? ==> Settled(t, s.q, e.k) }

  /** data counts the waiting line ends in every run. */
  lemma {:induction false} RunCounts(t: Termios, run: seq<State>, events: seq<Event>)
    requires Ran(t, run, events) && run[0].data == Marks(t, run[0].q)
    ensures var s := run[|events|]; s.data == Marks(t, s.q)
    decreases |events|
  {
    if events != [] {
      var n := |events| - 1;
      assert Ran(t, run[..n + 1], events[..n]);
      RunCounts(t, run[..n + 1], events[..n]);
      match events[n]
      case Input(c) => CookCounts(t, run[n], c);
      case Read(k) => MarksSplit(t, run[n].q, k);
    }
  }

  lemma {:induction false} MarksSplit(t: Termios, q: seq<Char>, k: nat)
    requires k <= |q|
    ensures Marks(t, q) == Marks(t, q[..k]) + Marks(t, q[k..])
  {
    if k == |q| {
      assert q[..k] == q;
    } else {
      var n := |q| - 1;
      MarksSplit(t, q[..n], k);
      assert q[..n][..k] == q[..k] && q[..n][k..] == q[k..][..n - k] && q[k..][n - k] == q[n];
    }
  }

  lemma LastEvent(run: seq<State>, events: seq<Event>)
    requires |run| == |events| + 1 && events != []
    ensures var n := |events| - 1;
            var got := Taken(run[..n + 1], events[..n]);
            && (events[n].Input? ==> Inputs(events) == Inputs(events[..n]) + [events[n].c] && Taken(run, events) == got)
            && (events[n].Read? && events[n].k <= |run[n].q| ==>
                 Inputs(events) == Inputs(events[..n]) && Taken(run, events) == got + run[n].q[..events[n].k])
  {}

  /** got has been read of the edited input f, and s is left. */
  ghost predicate Split(t: Termios, f: State, got: seq<Char>, s: State) { f.q == got + s.q && s == Drop(t, f, |got|) }

  /** After the first i events and then `input`, what readers have got followed by what waits is the edited
      input. */
  ghost predicate IsFold(t: Termios, run: seq<State>, events: seq<Event>, i: nat, input: seq<Char>)
    requires |run| == |events| + 1
  {
    i <= |events| ==>
      Split(t, Fold(t, run[0], Inputs(events[..i]) + input), Taken(run[..i + 1], events[..i]), Fold(t, run[i], input))
  }

  /** What readers have got, followed by what waits, is and stays the edited input, whatever is typed next,
      exactly when no reader ever takes a character that can still be taken back. */
  lemma RunIsFold(t: Termios, run: seq<State>, events: seq<Event>)
    requires Ran(t, run, events) && run[0] == State([], 0, false, 0, 0)
    ensures (forall i: nat, input :: IsFold(t, run, events, i, input))
            <==> forall i: nat | i < |events| :: TakesSettled(t, run[i], events[i])
  {
    if forall i: nat | i < |events| :: TakesSettled(t, run[i], events[i]) {
      forall i: nat, input ensures IsFold(t, run, events, i, input) {
        if i <= |events| {
          assert Ran(t, run[..i + 1], events[..i]);
          SettledSplits(t, run[..i + 1], events[..i]);
          var f, got := Fold(t, run[0], Inputs(events[..i])), Taken(run[..i + 1], events[..i]);
          FoldDrop(t, f, input, |got|);
          FoldFold(t, run[0], Inputs(events[..i]), input);
          SplitMade(t, f, Fold(t, f, input), got, Fold(t, run[i], input));
        }
      }
    }
    if forall i: nat, input :: IsFold(t, run, events, i, input) {
      forall i: nat | i < |events| ensures TakesSettled(t, run[i], events[i]) {
        if !TakesSettled(t, run[i], events[i]) {
          assert Enabled(run[i], events[i]);
          var c :| EditOf(t, c) == Kill || EditOf(t, c) == Erase;
          UnsettledShows(t, run, events, i, c);
        }
      }
    }
  }

  lemma SplitMade(t: Termios, f: State, g: State, got: seq<Char>, s: State)
    requires |got| <= |f.q| && |got| <= |g.q| && f.q[..|got|] == got == g.q[..|got|] && s == Drop(t, g, |got|)
    ensures Split(t, g, got, s)
  {}

  lemma {:induction false} FoldFold(t: Termios, s: State, x: seq<Char>, y: seq<Char>)
    ensures Fold(t, s, x + y) == Fold(t, Fold(t, s, x), y)
  {
    if y == [] {
      assert x + y == x;
    } else {
      var n := |y| - 1;
      FoldFold(t, s, x, y[..n]);
      Snoc(x, y);
      FoldOne(t, s, x + y[..n], y[n]);
    }
  }

  /** While readers take what is settled, what they have got is settled and the first part of the edited input. */
  lemma {:induction false} SettledSplits(t: Termios, run: seq<State>, events: seq<Event>)
    requires Ran(t, run, events) && run[0] == State([], 0, false, 0, 0)
    requires forall i: nat | i < |events| :: TakesSettled(t, run[i], events[i])
    ensures var f, got := Fold(t, run[0], Inputs(events)), Taken(run, events);
            && Settled(t, f.q, |got|) && Split(t, f, got, run[|events|]) && f.q[..|got|] == got
    decreases |events|
  {
    if events != [] {
      var n := |events| - 1;
      assert Ran(t, run[..n + 1], events[..n]);
      assert TakesSettled(t, run[n], events[n]) && Enabled(run[n], events[n])
             && run[n + 1] == Next(t, run[n], events[n]);
      SettledSplits(t, run[..n + 1], events[..n]);
      LastEvent(run, events);
      var f, got := Fold(t, run[0], Inputs(events[..n])), Taken(run[..n + 1], events[..n]);
      match events[n]
      case Input(c) =>
        CookDrop(t, f, c, |got|);
        FoldOne(t, run[0], Inputs(events[..n]), c);
        SplitMade(t, f, Cook(t, f, c), got, run[n + 1]);
      case Read(k) => ReadKeeps(t, f, got, run[n], k);
    }
  }

  lemma ReadKeeps(t: Termios, f: State, got: seq<Char>, s: State, k: nat)
    requires Split(t, f, got, s) && Settled(t, f.q, |got|) && Settled(t, s.q, k)
    ensures var more := got + s.q[..k];
            Settled(t, f.q, |more|) && Split(t, f, more, Drop(t, s, k)) && f.q[..|more|] == more
  {
    var more := got + s.q[..k];
    Parts(f.q, got, s.q, k);
    if |got| <= |Completed(t, f.q)| { CompletedDrop(t, f.q, |got|); }
    DropTwice(t, f, |got|, k);
    hide Completed, CanEdit, Marks;
  }

  lemma Parts(f: seq<Char>, got: seq<Char>, q: seq<Char>, k: nat)
    requires f == got + q && k <= |q|
    ensures var more := got + q[..k];
            f == more + q[k..] && f[..|more|] == more && f[|got|..] == q && |more| == |got| + k
  {
    assert q == q[..k] + q[k..];
  }

  lemma DropTwice(t: Termios, f: State, n: nat, k: nat)
    requires n + k <= |f.q|
    ensures Drop(t, Drop(t, f, n), k) == Drop(t, f, n + k)
  {
    var x := f.q[..n + k];
    MarksSplit(t, x, n);
    assert x[..n] == f.q[..n] && x[n..] == f.q[n..][..k];
    assert f.q[n..][k..] == f.q[n + k..];
  }

  function Repeated(c: Char, n: nat): seq<Char> { if n == 0 then [] else Repeated(c, n - 1) + [c] }

  /** Enough of kill or erase leaves no more than the finished lines. */
  lemma {:induction false} TakenBack(t: Termios, s: State, c: Char, n: nat)
    requires EditOf(t, c) == Kill || EditOf(t, c) == Erase
    ensures var u, r := Fold(t, s, Repeated(c, n)), Completed(t, s.q);
            Completed(t, u.q) == r && (|u.q| <= |r| || |u.q| <= |s.q| - n)
  {
    if n > 0 {
      TakenBack(t, s, c, n - 1);
      var u := Fold(t, s, Repeated(c, n - 1));
      FoldOne(t, s, Repeated(c, n - 1), c);
      CompletedTwice(t, u.q);
    }
  }

  lemma CompletedBehind(t: Termios, got: seq<Char>, q: seq<Char>)
    ensures |Completed(t, got + q)| <= |got| + |Completed(t, q)|
  {
    CompletedIs(t, q);
    var n := |got| + |Completed(t, q)|;
    forall i | n <= i < |got + q| ensures !Mark(t, (got + q)[i]) { assert (got + q)[i] == q[i - |got|]; }
    CompletedIs(t, got + q);
  }

  /** A reader who takes a character that is not settled can be found out: typing kill or erase often
      enough leaves less than he has got. */
  lemma UnsettledShows(t: Termios, run: seq<State>, events: seq<Event>, i: nat, c: Char)
    requires |run| == |events| + 1 && i < |events| && events[i].Read? && (EditOf(t, c) == Kill || EditOf(t, c) == Erase)
    requires |Completed(t, run[i].q)| < events[i].k <= |run[i].q| && IsFold(t, run, events, i, [])
    ensures !IsFold(t, run, events, i + 1, Repeated(c, |run[i].q| - events[i].k + 1))
  {
    hide *;
    var q, k := run[i].q, events[i].k;
    var x, input := Inputs(events[..i]), Repeated(c, |q| - k + 1);
    ReadShows(t, run, events, i, input);
    FoldFold(t, run[0], x, input);
    FewerLeft(t, Fold(t, run[0], x), c, Taken(run[..i + 1], events[..i]), q, k);
  }

  lemma FewerLeft(t: Termios, f: State, c: Char, got: seq<Char>, q: seq<Char>, k: nat)
    requires (EditOf(t, c) == Kill || EditOf(t, c) == Erase) && f.q == got + q && |Completed(t, q)| < k <= |q|
    ensures |Fold(t, f, Repeated(c, |q| - k + 1)).q| < |got| + k
  {
    TakenBack(t, f, c, |q| - k + 1);
    CompletedBehind(t, got, q);
  }

  /** One read of k characters: whatever is typed afterwards comes to the same as if it had been typed before,
      exactly when the k characters are settled. */
  lemma ReadHarmless(t: Termios, s: State, k: nat)
    requires k <= |s.q|
    ensures (forall input :: Commutes(t, s, k, input)) <==> Settled(t, s.q, k)
  {
    if Settled(t, s.q, k) {
      forall input ensures Commutes(t, s, k, input) { SettledCommutes(t, s, k, input); }
    } else {
      var c :| EditOf(t, c) == Kill || EditOf(t, c) == Erase;
      assert |Completed(t, s.q)| < k;
      hide *;
      UnsettledFails(t, s, k, c);
    }
  }

  lemma SettledCommutes(t: Termios, s: State, k: nat, input: seq<Char>)
    requires Settled(t, s.q, k)
    ensures k <= |s.q| && Commutes(t, s, k, input)
  {
    FoldDrop(t, s, input, k);
    CompletedIs(t, s.q);
    hide Fold, Drop, Completed, CanEdit;
  }

  lemma UnsettledFails(t: Termios, s: State, k: nat, c: Char)
    requires (EditOf(t, c) == Kill || EditOf(t, c) == Erase) && |Completed(t, s.q)| < k <= |s.q|
    ensures !Commutes(t, s, k, Repeated(c, |s.q| - k + 1))
  {
    hide Fold, Drop, Completed, EditOf, Repeated;
    assert [] + s.q == s.q;
    FewerLeft(t, s, c, [], s.q, k);
  }

  ghost predicate Commutes(t: Termios, s: State, k: nat, input: seq<Char>)
    requires k <= |s.q|
  {
    k <= |Fold(t, s, input).q| && Fold(t, Drop(t, s, k), input) == Drop(t, Fold(t, s, input), k)
  }

  lemma ReadShows(t: Termios, run: seq<State>, events: seq<Event>, i: nat, input: seq<Char>)
    requires |run| == |events| + 1 && i < |events| && events[i].Read? && events[i].k <= |run[i].q|
    requires IsFold(t, run, events, i, [])
    ensures var x, got := Inputs(events[..i]), Taken(run[..i + 1], events[..i]);
            && Fold(t, run[0], x).q == got + run[i].q
            && (IsFold(t, run, events, i + 1, input) ==> |Fold(t, run[0], x + input).q| >= |got| + events[i].k)
  {
    var x := Inputs(events[..i]);
    assert x + [] == x;
    assert events[..i + 1][..i] == events[..i] && run[..i + 2][..i + 1] == run[..i + 1];
    LastEvent(run[..i + 2], events[..i + 1]);
    hide Drop, Cook;
  }
}
