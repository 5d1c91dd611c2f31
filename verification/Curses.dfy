/** The screen update of prog/curses.h: what is sent is the difference between two screens,
    and what a terminal makes of it is the new one. */
module Curses {
  import opened Common
  import opened Utf
  import opened Terminal
  import opened CursesCells

  const OBUF: nat := 2048

  ghost predicate Differ(n: seq<nat>, p: seq<nat>, y: nat, x: nat) {
    |n| == CELLS && |p| == CELLS && y < MAXLINES && x < STRIDE && Cell(n, y, x) != Cell(p, y, x)
  }

  /** A stretch of GAP + 1 cells that do not all agree. */
  ghost predicate Busy(n: seq<nat>, p: seq<nat>, y: nat, x: nat) {
    exists k: nat :: x <= k <= x + GAP && Differ(n, p, y, k)
  }

  lemma DifferIs(n: seq<nat>, p: seq<nat>, y: nat, x: nat)
    requires |n| == CELLS && |p| == CELLS && y < MAXLINES && x < STRIDE
    ensures y * STRIDE + x < CELLS && (Differ(n, p, y, x) <==> n[y * STRIDE + x] != p[y * STRIDE + x])
  {
  }

  lemma BusyMore(n: seq<nat>, p: seq<nat>, y: nat, x: nat, end: nat, j: nat)
    requires x < end <= j <= end + GAP && Differ(n, p, y, end - 1) && Differ(n, p, y, j)
    requires forall k: nat {:trigger Busy(n, p, y, k)} :: x <= k && k + GAP < end ==> Busy(n, p, y, k)
    ensures forall k: nat {:trigger Busy(n, p, y, k)} :: x <= k && k + GAP < j + 1 ==> Busy(n, p, y, k)
  {
    hide Differ;
  }

  method Digits(v: nat) returns (t: seq<byte>)
    requires v > 0
    ensures Backwards(t) == Decimal(v)
  {
    hide Decimal;
    t := [];
    var n := v;
    while n > 0
      invariant Rest(n) + Backwards(t) == Decimal(v)
    {
      DigitsOne(n, t);
      t := t + [0x30 + n % 10];
      n := n / 10;
    }
  }

  function Rest(n: nat): seq<byte> { if n > 0 then Decimal(n) else [] }

  lemma DigitsOne(n: nat, t: seq<byte>)
    requires n > 0
    ensures Rest(n / 10) + Backwards(t + [0x30 + n % 10]) == Rest(n) + Backwards(t)
  {
    hide Rest, Backwards;
    RestOne(n);
    BackwardsOne(t, 0x30 + n % 10);
    var a, b, c: byte := Rest(n / 10), Backwards(t), 0x30 + n % 10;
    assert a + ([c] + b) == (a + [c]) + b;
  }

  lemma RestOne(n: nat)
    requires n > 0
    ensures Rest(n) == Rest(n / 10) + [0x30 + n % 10]
  {
  }

  function Backwards(t: seq<byte>): seq<byte> {
    if t == [] then [] else [t[|t| - 1]] + Backwards(t[..|t| - 1])
  }

  lemma BackwardsOne(t: seq<byte>, c: byte)
    ensures Backwards(t + [c]) == [c] + Backwards(t)
  {
    assert (t + [c])[..|t|] == t;
  }

  lemma ReadyIs(t: Term, lines: nat, cols: nat)
    requires Ready(t, lines, cols)
    ensures Shaped(t) && t.lines == lines && t.cols == cols && t.mode == Ground && Calm(t, t)
  {
  }

  lemma AttrSame(t: Term, t': Term, attr: nat, ps: Pairs)
    requires AttrOk(t, attr, ps) && t'.look == t.look
    ensures AttrOk(t', attr, ps)
  {
  }

  lemma NotUnknown(a: nat)
    ensures Attrs(a) != UNKNOWN
  {
  }

  lemma LookSync(t: Term, t': Term, phy: seq<nat>, ps: Pairs, lines: nat, cols: nat)
    requires Ready(t, lines, cols) && Sync(t, phy, ps) && t' == t.(look := t'.look)
    ensures Ready(t', lines, cols) && Sync(t', phy, ps) && Calm(t, t')
  {
    SyncSame(t, t', phy, ps);
  }

  /** The sequence for an attribute word, up to its first k options. */
  ghost function AttrHead(a: nat, ps: Pairs, k: nat): seq<byte>
    requires |ps| == 64 && k <= 7
  {
    [0x1B, 0x5B, 0x30] + OptBytes(AttrOpts(a, ps)[..k])
  }

  lemma HeadNone(a: nat, ps: Pairs)
    requires |ps| == 64
    ensures AttrHead(a, ps, 0) == [0x1B, 0x5B, 0x30]
  {
  }

  lemma HeadGrows(l: seq<byte>, a: nat, ps: Pairs, k: nat)
    requires |ps| == 64 && k < 7
    ensures l + AttrHead(a, ps, k) + OptByte(AttrOpts(a, ps)[k]) == l + AttrHead(a, ps, k + 1)
  {
    hide OptByte, OptBytes, AttrOpts;
    OptStep(AttrOpts(a, ps), k);
  }

  lemma HeadAll(l: seq<byte>, a: nat, ps: Pairs)
    requires |ps| == 64
    ensures l + AttrHead(a, ps, 7) + [0x6D] == l + AttrBytes(a, ps)
  {
    hide OptBytes, AttrOpts;
    assert AttrOpts(a, ps)[..7] == AttrOpts(a, ps);
  }

  lemma CellIs(s: seq<nat>, y: nat, x: nat)
    requires |s| == CELLS && y < MAXLINES && x < STRIDE
    ensures y * STRIDE + x < CELLS && Cell(s, y, x) == s[y * STRIDE + x]
  {
  }

  /** Cells x to end of row y are the new ones, and no other cell changed. */
  ghost predicate Written(now: seq<nat>, phy: seq<nat>, phy': seq<nat>, y: nat, x: nat, end: nat) {
    && |now| == CELLS && |phy| == CELLS && |phy'| == CELLS
    && forall r: nat, c: nat {:trigger Cell(phy', r, c)} ::
        r < MAXLINES && c < STRIDE ==> Cell(phy', r, c) == if r == y && x <= c < end then Cell(now, r, c)
        else Cell(phy, r, c)
  }

  lemma NoneWritten(now: seq<nat>, phy: seq<nat>, y: nat, x: nat)
    requires |now| == CELLS && |phy| == CELLS
    ensures Written(now, phy, phy, y, x, x)
  {
  }

  lemma OneWritten(now: seq<nat>, phy: seq<nat>, phy': seq<nat>, y: nat, x: nat, j: nat)
    requires Written(now, phy, phy', y, x, j) && x <= j < STRIDE && y < MAXLINES
    ensures y * STRIDE + j < CELLS && Written(now, phy, phy'[y * STRIDE + j := Cell(now, y, j)], y, x, j + 1)
  {
    CellIs(now, y, j);
    var q := phy'[y * STRIDE + j := Cell(now, y, j)];
    forall r: nat, c: nat | r < MAXLINES && c < STRIDE
        ensures Cell(q, r, c) == if r == y && x <= c < j + 1 then Cell(now, r, c) else Cell(phy, r, c) {
      CellPut(phy', y, j, Cell(now, y, j), r, c);
      assert Cell(phy', r, c) == if r == y && x <= c < j then Cell(now, r, c) else Cell(phy, r, c);
    }
  }

  lemma DrawableAt(now: seq<nat>, lines: nat, cols: nat, y: nat, x: nat)
    requires |now| == CELLS && lines <= MAXLINES && cols <= STRIDE && Drawable(now, lines, cols) && y < lines
             && x < cols
    ensures Printable(Code(Cell(now, y, x)))
  {
  }

  lemma SameRows(phy: seq<nat>, y: nat)
    requires |phy| == CELLS
    ensures OtherRows(phy, phy, y)
  {
  }

  /** What is believed of the corner binds nobody. */
  lemma CornerFree(t: Term, phy: seq<nat>, ps: Pairs, v: nat)
    requires Sync(t, phy, ps)
    ensures (t.lines - 1) * STRIDE + (t.cols - 1) < CELLS
            && Sync(t, phy[(t.lines - 1) * STRIDE + (t.cols - 1) := v], ps)
  {
    var q := phy[(t.lines - 1) * STRIDE + (t.cols - 1) := v];
    forall y: nat, x: nat | y < t.lines && x < t.cols && !Corner(t.lines, t.cols, y, x)
        ensures Matches(t, q, ps, y, x) {
      assert Matches(t, phy, ps, y, x);
      CellPut(phy, t.lines - 1, t.cols - 1, v, y, x);
    }
  }

  lemma CornerRows(phy: seq<nat>, now: seq<nat>, y: nat, cols: nat)
    requires |phy| == CELLS && |now| == CELLS && y < MAXLINES && 0 < cols <= STRIDE
    ensures y * STRIDE + (cols - 1) < CELLS
    ensures var q := phy[y * STRIDE + (cols - 1) := Cell(now, y, cols - 1)];
            OtherRows(phy, q, y) && Cell(q, y, cols - 1) == Cell(now, y, cols - 1)
                && (RowDone(now, phy, y, cols) ==> q == phy)
  {
    var q := phy[y * STRIDE + (cols - 1) := Cell(now, y, cols - 1)];
    forall r: nat, x: nat | r < MAXLINES && x < STRIDE && r != y ensures Cell(q, r, x) == Cell(phy, r, x) {
      CellPut(phy, y, cols - 1, Cell(now, y, cols - 1), r, x);
    }
    if RowDone(now, phy, y, cols) { assert Cell(phy, y, cols - 1) == Cell(now, y, cols - 1); }
  }

  lemma NoneDone(now: seq<nat>, phy: seq<nat>, y: nat)
    requires |phy| == CELLS && |now| == CELLS && y < MAXLINES
    ensures RowDone(now, phy, y, 0)
  {
  }

  lemma DoneCell(now: seq<nat>, phy: seq<nat>, y: nat, x: nat)
    requires |phy| == CELLS && |now| == CELLS && y < MAXLINES && x < STRIDE && RowDone(now, phy, y, x)
             && !Differ(now, phy, y, x)
    ensures RowDone(now, phy, y, x + 1)
  {
  }

  /** Where a difference is found, there was one to begin with. */
  lemma WasBusy(now: seq<nat>, p0: seq<nat>, p1: seq<nat>, y: nat, x: nat, cols: nat)
    requires |p0| == CELLS && |p1| == CELLS && |now| == CELLS && y < MAXLINES && x < cols <= STRIDE
    ensures RowDone(now, p0, y, cols) && p1 == p0 ==> !Differ(now, p1, y, x)
  {
    hide Cell;
  }

  lemma CursorThere(t: Term, y: nat, x: nat)
    requires CursorOk(t, y, x) && y < t.lines && x < t.cols
    ensures CursorAt(t, y, x)
  {
  }

  lemma CursorAfter(t: Term, y: nat, end: nat, py: int)
    requires (end < t.cols ==> CursorAt(t, y, end)) && (py == y || py == -1)
    ensures CursorOk(t, py, end)
  {
  }

  lemma DoneRun(now: seq<nat>, p0: seq<nat>, p: seq<nat>, p': seq<nat>, y: nat, x: nat, end: nat, cols: nat, last: nat)
    requires |p0| == CELLS && Written(now, p, p', y, x, end) && x <= end <= last <= cols <= STRIDE && y < MAXLINES
             && OtherRows(p0, p, y) && RowDone(now, p, y, x) && cols > 0
    ensures OtherRows(p0, p', y) && RowDone(now, p', y, end)
            && (Cell(p, y, cols - 1) == Cell(now, y, cols - 1) ==> Cell(p', y, cols - 1) == Cell(now, y, cols - 1))
  {
    hide Cell;
    forall r: nat, c: nat | r < MAXLINES && c < STRIDE && r != y ensures Cell(p', r, c) == Cell(p0, r, c) {
      assert Cell(p, r, c) == Cell(p0, r, c);
    }
    forall c: nat | c < end ensures Cell(p', y, c) == Cell(now, y, c) {
      assert c < x ==> Cell(p, y, c) == Cell(now, y, c);
    }
    assert Cell(p', y, cols - 1) == if x <= cols - 1 < end then Cell(now, y, cols - 1) else Cell(p, y, cols - 1);
  }

  lemma DoneLine(now: seq<nat>, phy: seq<nat>, y: nat, last: nat, cols: nat)
    requires |phy| == CELLS && |now| == CELLS && y < MAXLINES && 0 < cols <= STRIDE && cols - 1 <= last <= cols
             && RowDone(now, phy, y, last)
    requires last < cols ==> Cell(phy, y, cols - 1) == Cell(now, y, cols - 1)
    ensures RowDone(now, phy, y, cols)
  {
    hide Cell;
  }

  lemma NoRows(now: seq<nat>, phy: seq<nat>, cols: nat)
    requires |now| == CELLS && |phy| == CELLS && cols <= STRIDE
    ensures Done(now, phy, 0, cols)
  {
  }

  lemma RowOf(now: seq<nat>, phy: seq<nat>, lines: nat, cols: nat, y: nat)
    requires |now| == CELLS && |phy| == CELLS && cols <= STRIDE && y < lines <= MAXLINES
    ensures Done(now, phy, lines, cols) ==> RowDone(now, phy, y, cols)
  {
  }

  lemma RowsStay(now: seq<nat>, phy: seq<nat>, phy': seq<nat>, y: nat, lines: nat, cols: nat)
    requires |now| == CELLS && |phy| == CELLS && |phy'| == CELLS && y < lines <= MAXLINES && cols <= STRIDE
             && OtherRows(phy, phy', y) && RowDone(now, phy', y, cols)
    ensures Done(now, phy, lines, cols) ==> Done(now, phy', lines, cols)
  {
    if Done(now, phy, lines, cols) {
      forall r: nat | r < lines ensures RowDone(now, phy', r, cols) {
        if r != y {
          assert RowDone(now, phy, r, cols);
          forall x: nat | x < cols ensures Cell(phy', r, x) == Cell(now, r, x) {
            assert Cell(phy', r, x) == Cell(phy, r, x);
          }
        }
      }
    }
  }

  lemma Blank(t: Term, phy: seq<nat>, ps: Pairs)
    requires Shaped(t) && t.lines <= MAXLINES && t.cols <= STRIDE && |phy| == CELLS && |ps| == 64
             && forall k :: 0 <= k < CELLS ==> phy[k] == UNKNOWN
    ensures Sync(t, phy, ps)
  {
  }

  /** If the place is in the window and on the screen it holds c in a; no other cell
      changed. */
  ghost predicate Added(now: seq<nat>, now': seq<nat>, lines: nat, cols: nat, within: bool, y: int, x: int, c: nat,
      a: nat)
    requires lines <= MAXLINES && cols <= STRIDE
  {
    && |now| == CELLS && |now'| == CELLS
    && (forall r: nat, k: nat {:trigger Cell(now', r, k)} ::
        r < MAXLINES && k < STRIDE && !(within && r == y && k == x && r < lines && k < cols) ==>
        Cell(now', r, k) == Cell(now, r, k))
    && (within && 0 <= y < lines && 0 <= x < cols ==> Code(Cell(now', y, x)) == c && Attrs(Cell(now', y, x)) == a)
  }

  lemma AddedAt(now: seq<nat>, lines: nat, cols: nat, y: nat, x: nat, c: nat, a: nat)
    requires |now| == CELLS && y < lines <= MAXLINES && x < cols <= STRIDE && c < 0x20_0000 && a % 0x20_0000 == 0
    ensures y * STRIDE + x < CELLS && Added(now, now[y * STRIDE + x := c + a], lines, cols, true, y, x, c, a)
  {
    var q := now[y * STRIDE + x := c + a];
    forall r: nat, k: nat | r < MAXLINES && k < STRIDE ensures Cell(q, r, k) == if r == y && k == x then c + a
        else Cell(now, r, k) {
      CellPut(now, y, x, c + a, r, k);
    }
  }

  lemma BlankSync(t: Term, t': Term, phy: seq<nat>, ps: Pairs)
    requires Ready(t, 24, 80) && t' == t.(grid := BlankGrid(24, 80, t.look), y := 0, x := 0, pending := false)
    requires |phy| == CELLS && PairsOk(ps) && (forall k :: 0 <= k < CELLS ==> phy[k] == 32)
             && forall k :: 0 <= k < 64 ==> ps[k] == (-1, -1)
    ensures Ready(t', 24, 80) && (AttrOk(t', 0, ps) <==> t.look == PLAIN) && (t.look == PLAIN ==> Sync(t', phy, ps))
  {
    assert LookOf(0, ps) == PLAIN;
    if t.look == PLAIN {
      forall y: nat, x: nat | y < 24 && x < 80 ensures Matches(t', phy, ps, y, x) {
        assert t'.grid[y] == BlankRow(80, PLAIN);
        assert Cell(phy, y, x) == 32;
      }
    }
  }

  /** A colour as a terminal is asked for it; below 0 is none. */
  function Asked(c: int): int { if c < 0 then -1 else c }

  /** Two definitions of a pair no terminal can tell apart. */
  predicate SameColours(p: (int, int), q: (int, int)) { Asked(p.0) == Asked(q.0) && Asked(p.1) == Asked(q.1) }

  /** The cell is believed to be on the glass, in this pair. */
  ghost predicate InPair(phy: seq<nat>, y: nat, x: nat, pair: int)
    requires |phy| == CELLS && y < MAXLINES && x < STRIDE
  {
    Cell(phy, y, x) != UNKNOWN && Pair(Attrs(Cell(phy, y, x))) == pair
  }

  /** The pair is in use: it is what is drawn in now, or some cell of the screen is in it. */
  ghost predicate InUse(phy: seq<nat>, lines: nat, cols: nat, attr: nat, pair: int)
    requires |phy| == CELLS && lines <= MAXLINES && cols <= STRIDE
  {
    || (attr != UNKNOWN && Pair(attr) == pair)
    || exists y: nat, x: nat :: y < lines && x < cols && !Corner(lines, cols, y, x) && InPair(phy, y, x, pair)
  }

  lemma OtherLook(a: nat, ps: Pairs, pair: int, f: int, b: int)
    requires PairsOk(ps) && 0 < pair < 64
    ensures LookOf(a, ps[pair := (f, b)]) == LookOf(a, ps) <==> Pair(a) != pair || SameColours(ps[pair], (f, b))
  {
    hide Bold, Dim, Underline, Blink, Reverse, Pair;
    PairLow(a);
  }

  /** A pair can be given other colours exactly while it is not in use. */
  lemma NewPair(t: Term, phy: seq<nat>, ps: Pairs, pair: int, f: int, b: int, attr: nat)
    requires Sync(t, phy, ps) && PairsOk(ps) && 0 < pair < 64 && AttrOk(t, attr, ps)
    ensures Sync(t, phy, ps[pair := (f, b)]) && AttrOk(t, attr, ps[pair := (f, b)]) <==>
            SameColours(ps[pair], (f, b)) || !InUse(phy, t.lines, t.cols, attr, pair)
  {
    hide Pair, Attrs, Code, LookOf, SameColours;
    var q := ps[pair := (f, b)];
    forall y: nat, x: nat | y < t.lines && x < t.cols && !Corner(t.lines, t.cols, y, x)
        ensures Matches(t, phy, q, y, x) <==> SameColours(ps[pair], (f, b)) || !InPair(phy, y, x, pair) {
      assert Matches(t, phy, ps, y, x);
      OtherLook(Attrs(Cell(phy, y, x)), ps, pair, f, b);
    }
    OtherLook(attr, ps, pair, f, b);
  }

  lemma PairLow(a: nat)
    ensures Pair(a) < 64
  {
  }

  class Window {
    var begy: int
    var begx: int
    var maxy: int
    var maxx: int
    var cury: int
    var curx: int
    var attrs: nat
  }

  class Screen {
    var lines: nat
    var cols: nat
    const now: array<nat>
    const phy: array<nat>
    var attr: nat
    var py: int
    var px: int
    var wy: int
    var wx: int
    var visible: bool
    var started: bool
    var pairs: Pairs
    var ob: seq<byte>

    /** Everything the terminal was sent since it looked like start. */
    ghost var sent: seq<byte>
    ghost var start: Term

    ghost function Log(): seq<byte>
      reads this
    {
      sent + ob
    }

    /** The terminal, once it has read what is still in the buffer. */
    ghost function T(): Term
      reads this
    {
      Run(start, Log())
    }

    ghost predicate Sized()
      reads this
    {
      now != phy && now.Length == CELLS && phy.Length == CELLS && 0 < lines <= MAXLINES && 0 < cols <= STRIDE
          && |ob| <= OBUF && PairsOk(pairs)
    }

    /** Everything believed of the terminal but where its cursor is. */
    ghost predicate Settled()
      reads this, phy
    {
      Sized() && Ready(T(), lines, cols) && AttrOk(T(), attr, pairs) && Sync(T(), phy[..], pairs)
    }

    ghost predicate Valid()
      reads this, phy
    {
      Settled() && CursorOk(T(), py, px)
    }

    /** The console takes every byte. */
    method Flush()
      modifies this`ob, this`sent
      ensures Log() == old(Log()) && ob == []
    {
      sent := sent + ob;
      ob := [];
    }

    method Ch(c: byte)
      requires |ob| <= OBUF
      modifies this`ob, this`sent
      ensures Log() == old(Log()) + [c] && |ob| <= OBUF
    {
      if |ob| == OBUF { Flush(); }
      ob := ob + [c];
    }

    method Str(s: seq<byte>)
      requires |ob| <= OBUF
      modifies this`ob, this`sent
      ensures Log() == old(Log()) + s && |ob| <= OBUF
    {
      var i := 0;
      while i < |s|
        invariant i <= |s| && |ob| <= OBUF && Log() == old(Log()) + s[..i]
      {
        Ch(s[i]);
        i := i + 1;
      }
    }

    /** cur__num: decimal digits, collected backwards. */
    method Num(v: int)
      requires |ob| <= OBUF
      modifies this`ob, this`sent
      ensures Log() == old(Log()) + Decimal(Up(v)) && |ob| <= OBUF
    {
      if v <= 0 {
        Ch(0x30);
        return;
      }
      var t := Digits(v);
      ghost var all := t;
      while t != []
        invariant |ob| <= OBUF && t <= all && Log() + Backwards(t) == old(Log()) + Backwards(all)
        decreases |t|
      {
        var k := |t| - 1;
        BackwardsOne(t[..k], t[k]);
        assert t[..k] + [t[k]] == t;
        Ch(t[k]);
        t := t[..k];
      }
    }

    method Utf8(v: nat)
      requires |ob| <= OBUF && v < 0x110000
      modifies this`ob, this`sent
      ensures Log() == old(Log()) + Enc8One(v) && |ob| <= OBUF
    {
      if v < 0x80 {
        Ch(v);
      } else if v < 0x800 {
        Ch(0xC0 + v / 0x40);
        Ch(0x80 + v % 0x40);
      } else if v < 0x10000 {
        Ch(0xE0 + v / 0x1000);
        Ch(0x80 + v / 0x40 % 0x40);
        Ch(0x80 + v % 0x40);
      } else {
        Ch(0xF0 + v / 0x40000);
        Ch(0x80 + v / 0x1000 % 0x40);
        Ch(0x80 + v / 0x40 % 0x40);
        Ch(0x80 + v % 0x40);
      }
    }

    method GotoBytes(y: int, x: int)
      requires |ob| <= OBUF
      modifies this`ob, this`sent
      ensures Log() == old(Log()) + MoveBytes(Up(y + 1), Up(x + 1)) && |ob| <= OBUF
    {
      Str([0x1B, 0x5B]);
      Num(y + 1);
      Ch(0x3B);
      Num(x + 1);
      Ch(0x48);
    }

    /** cur__goto: the cursor is where it should be, moved or not. */
    method Goto(y: int, x: int)
      requires Valid()
      modifies this`ob, this`sent, this`py, this`px
      ensures Valid() && py == y && px == x && Calm(old(T()), T()) && T().look == old(T()).look
      ensures old(py) == y && old(px) == x ==> Log() == old(Log())
    {
      hide Ready, AttrOk, CursorOk, Sync, Run, MoveBytes, Place;
      ghost var t := T();
      ReadyIs(t, lines, cols);
      if py == y && px == x { return; }
      ghost var l := Log();
      GotoBytes(y, x);
      RunCat(start, l, MoveBytes(Up(y + 1), Up(x + 1)));
      MovePlaces(t, Up(y + 1), Up(x + 1));
      PlaceSync(t, phy[..], pairs, y, x);
      AttrSame(t, T(), attr, pairs);
      py := y;
      px := x;
    }

    method Option(c: bool, k: nat)
      requires |ob| <= OBUF && k < 10
      modifies this`ob, this`sent
      ensures Log() == old(Log()) + OptByte((c, k)) && |ob| <= OBUF
    {
      if c { Str([0x3B, 0x30 + k]); }
    }

    method Colour(c: int, d: nat)
      requires |ob| <= OBUF && (d == 3 || d == 4) && c < 8
      modifies this`ob, this`sent
      ensures Log() == old(Log()) + OptByte((c >= 0, 10 * d + if c < 0 then 0 else c)) && |ob| <= OBUF
    {
      if c >= 0 {
        ColourParam(d, c);
        Str([0x3B, 0x30 + d]);
        Num(c);
      }
    }

    method Flags(a: nat, ghost l: seq<byte>)
      requires |ob| <= OBUF && |pairs| == 64 && Log() == l + AttrHead(a, pairs, 0)
      modifies this`ob, this`sent
      ensures |ob| <= OBUF && Log() == l + AttrHead(a, pairs, 5)
    {
      hide OptByte, Bold, Dim, Underline, Blink, Reverse, Fg, Bg, AttrHead;
      HeadGrows(l, a, pairs, 0);
      Option(Bold(a), 1);
      HeadGrows(l, a, pairs, 1);
      Option(Dim(a), 2);
      HeadGrows(l, a, pairs, 2);
      Option(Underline(a), 4);
      HeadGrows(l, a, pairs, 3);
      Option(Blink(a), 5);
      HeadGrows(l, a, pairs, 4);
      Option(Reverse(a), 7);
    }

    method AttrOut(a: nat)
      requires |ob| <= OBUF && PairsOk(pairs)
      modifies this`ob, this`sent
      ensures Log() == old(Log()) + AttrBytes(a, pairs) && |ob| <= OBUF
    {
      hide OptByte, OptBytes, Bold, Dim, Underline, Blink, Reverse, Fg, Bg, AttrHead, AttrBytes;
      ghost var l := Log();
      FgLow(a, pairs);
      HeadNone(a, pairs);
      Str([0x1B, 0x5B, 0x30]);
      Flags(a, l);
      HeadGrows(l, a, pairs, 5);
      Colour(Fg(a, pairs), 3);
      HeadGrows(l, a, pairs, 6);
      Colour(Bg(a, pairs), 4);
      HeadAll(l, a, pairs);
      Ch(0x6D);
    }

    /** cur__setattr: what is drawn next looks like a. */
    method SetAttr(a: nat)
      requires Settled()
      modifies this`ob, this`sent, this`attr
      ensures Settled() && attr == Attrs(a) && T().look == LookOf(Attrs(a), pairs) && Calm(old(T()), T())
              && T().y == old(T()).y && T().x == old(T()).x && T().pending == old(T()).pending
    {
      hide Ready, Sync, Run, AttrBytes, LookOf;
      ghost var t := T();
      ReadyIs(t, lines, cols);
      var b := Attrs(a);
      NotUnknown(a);
      if b == attr { return; }
      attr := b;
      ghost var l := Log();
      AttrOut(b);
      RunCat(start, l, AttrBytes(b, pairs));
      AttrSets(t, b, pairs);
      LookSync(t, T(), phy[..], pairs, lines, cols);
    }

    /** The end of a run of differences at x: short stretches that agree are part of it. */
    method RunEnd(y: nat, x: nat, last: nat) returns (end: nat)
      requires Sized() && y < lines && x < last <= cols && Differ(now[..], phy[..], y, x)
      ensures x < end <= last && Differ(now[..], phy[..], y, end - 1)
      ensures forall j: nat {:trigger Differ(now[..], phy[..], y, j)} ::
              end <= j < last && j <= end + GAP ==> !Differ(now[..], phy[..], y, j)
      ensures forall j: nat {:trigger Busy(now[..], phy[..], y, j)} ::
              x <= j && j + GAP < end ==> Busy(now[..], phy[..], y, j)
    {
      hide Cell, Differ, Busy;
      ghost var n, p := now[..], phy[..];
      end := x + 1;
      var gap, j := 0, x + 1;
      while j < last
        invariant x < end <= j <= last && end + gap == j && gap <= GAP && Differ(n, p, y, end - 1)
        invariant forall k: nat {:trigger Differ(n, p, y, k)} :: end <= k < j ==> !Differ(n, p, y, k)
        invariant forall k: nat {:trigger Busy(n, p, y, k)} :: x <= k && k + GAP < end ==> Busy(n, p, y, k)
      {
        DifferIs(n, p, y, j);
        if now[y * STRIDE + j] != phy[y * STRIDE + j] {
          BusyMore(n, p, y, x, end, j);
          end := j + 1;
          gap := 0;
        } else {
          gap := gap + 1;
          if gap > GAP { break; }
        }
        j := j + 1;
      }
    }

    /** One cell, written where the cursor is. */
    method Put(y: nat, x: nat)
      requires Settled() && y < lines && x < cols && !Corner(lines, cols, y, x) && CursorAt(T(), y, x)
               && Printable(Code(Cell(now[..], y, x)))
      modifies this`ob, this`sent, this`attr, phy
      ensures Settled() && (x + 1 < cols ==> CursorAt(T(), y, x + 1)) && Calm(old(T()), T())
      ensures y * STRIDE + x < CELLS && phy[..] == old(phy[..])[y * STRIDE + x := Cell(now[..], y, x)]
    {
      hide Ready, Sync, Run, LookOf, Show, Cell, Calm, Enc8One;
      CellIs(now[..], y, x);
      var v := now[y * STRIDE + x];
      ghost var t0 := T();
      SetAttr(v);
      ghost var t1, l := T(), Log();
      ReadyIs(t1, lines, cols);
      Utf8(Code(v));
      RunCat(start, l, Enc8One(Code(v)));
      CharShows(t1, Code(v));
      ShowSync(t1, phy[..], pairs, y, x, v);
      ghost var p := phy[..];
      phy[y * STRIDE + x] := v;
      assert phy[..] == p[y * STRIDE + x := v];
      AttrSame(t1, T(), attr, pairs);
      CalmTwice(t0, t1, T());
    }

    /** The cells x to end of line y, one after another. */
    method Emit(y: nat, x: nat, end: nat)
      requires Settled() && y < lines && x < end <= cols && !(y + 1 == lines && end == cols) && CursorAt(T(), y, x)
               && Drawable(now[..], lines, cols)
      modifies this`ob, this`sent, this`attr, phy
      ensures Settled() && (end < cols ==> CursorAt(T(), y, end)) && Calm(old(T()), T())
      ensures Written(now[..], old(phy[..]), phy[..], y, x, end)
    {
      hide Ready, Sync, Run, Cell, Calm, Written, AttrOk, Drawable, Code;
      ghost var t0, p0, n := T(), phy[..], now[..];
      ReadyIs(t0, lines, cols);
      NoneWritten(n, p0, y, x);
      var j := x;
      while j < end
        invariant x <= j <= end && Settled() && (j < cols ==> CursorAt(T(), y, j)) && Calm(t0, T()) && now[..] == n
        invariant Written(n, p0, phy[..], y, x, j)
      {
        ghost var t1, p1 := T(), phy[..];
        DrawableAt(n, lines, cols, y, j);
        Put(y, j);
        CalmTwice(t0, t1, T());
        OneWritten(n, p0, p1, y, x, j);
        j := j + 1;
      }
    }

    /** One run of differences, and where the cursor is left by it. */
    method Difference(y: nat, x: nat, last: nat) returns (end: nat)
      requires Valid() && y < lines && x < last <= cols && !(y + 1 == lines && last == cols)
               && Drawable(now[..], lines, cols) && Differ(now[..], phy[..], y, x)
      modifies this`ob, this`sent, this`attr, this`py, this`px, phy
      ensures Valid() && Calm(old(T()), T()) && x < end <= last && Written(now[..], old(phy[..]), phy[..], y, x, end)
    {
      hide Ready, Sync, Run, Cell, Calm, Written, AttrOk, Drawable, CursorOk, Differ, Busy;
      end := RunEnd(y, x, last);
      ghost var t1 := T();
      Goto(y, x);
      ghost var t2 := T();
      ReadyIs(t2, lines, cols);
      CursorThere(t2, y, x);
      Emit(y, x, end);
      ReadyIs(T(), lines, cols);
      CalmTwice(t1, t2, T());
      px := end;
      if end >= cols { py := -1; }
      CursorAfter(T(), y, end, py);
    }

    /** One line: its differences, run by run. */
    method Line(y: nat)
      requires Valid() && y < lines && Drawable(now[..], lines, cols)
      modifies this`ob, this`sent, this`attr, this`py, this`px, phy
      ensures Valid() && Calm(old(T()), T()) && OtherRows(old(phy[..]), phy[..], y)
              && RowDone(now[..], phy[..], y, cols)
      ensures old(RowDone(now[..], phy[..], y, cols)) ==>
              Log() == old(Log()) && py == old(py) && px == old(px) && attr == old(attr)
    {
      hide Ready, Sync, Run, Cell, Calm, Written, AttrOk, Drawable, CursorOk, RowDone, OtherRows;
      ghost var t0, p0, n := T(), phy[..], now[..];
      ReadyIs(t0, lines, cols);
      var last := if y + 1 == lines then cols - 1 else cols;
      SameRows(p0, y);
      if y + 1 == lines {
        CellIs(now[..], y, cols - 1);
        phy[y * STRIDE + (cols - 1)] := now[y * STRIDE + (cols - 1)];
        assert phy[..] == p0[y * STRIDE + (cols - 1) := Cell(n, y, cols - 1)];
        CornerFree(T(), p0, pairs, Cell(n, y, cols - 1));
        CornerRows(p0, n, y, cols);
      }
      NoneDone(n, phy[..], y);
      ghost var p1 := phy[..];
      var x := 0;
      while x < last
        invariant x <= last && Valid() && Calm(t0, T()) && now[..] == n && OtherRows(p0, phy[..], y)
                  && RowDone(n, phy[..], y, x)
        invariant y + 1 == lines ==> Cell(phy[..], y, cols - 1) == Cell(n, y, cols - 1)
        invariant RowDone(n, p0, y, cols) ==>
                  phy[..] == p1 && Log() == old(Log()) && py == old(py) && px == old(px) && attr == old(attr)
      {
        DifferIs(n, phy[..], y, x);
        ghost var p := phy[..];
        if now[y * STRIDE + x] == phy[y * STRIDE + x] {
          DoneCell(n, p, y, x);
          x := x + 1;
        } else {
          WasBusy(n, p0, p1, y, x, cols);
          ghost var t1 := T();
          var end := Difference(y, x, last);
          CalmTwice(t0, t1, T());
          DoneRun(n, p0, p, phy[..], y, x, end, cols, last);
          x := end;
        }
      }
      DoneLine(n, phy[..], y, last, cols);
    }

    method Lines()
      requires Valid() && Drawable(now[..], lines, cols)
      modifies this`ob, this`sent, this`attr, this`py, this`px, phy
      ensures Valid() && Calm(old(T()), T()) && Done(now[..], phy[..], lines, cols)
      ensures old(Done(now[..], phy[..], lines, cols)) ==> Log() == old(Log()) && py == old(py) && px == old(px)
    {
      hide Ready, Sync, Run, Cell, Calm, AttrOk, Drawable, CursorOk, Done;
      ghost var t0, p0, n := T(), phy[..], now[..];
      ReadyIs(t0, lines, cols);
      NoRows(n, p0, cols);
      var y := 0;
      while y < lines
        invariant y <= lines && Valid() && Calm(t0, T()) && now[..] == n && Done(n, phy[..], y, cols)
        invariant Done(n, p0, lines, cols) ==>
                  Done(n, phy[..], lines, cols) && Log() == old(Log()) && py == old(py) && px == old(px)
      {
        ghost var t1, p1 := T(), phy[..];
        RowOf(n, p1, lines, cols, y);
        Line(y);
        CalmTwice(t0, t1, T());
        DoneMore(n, p1, phy[..], y, cols);
        RowsStay(n, p1, phy[..], y, lines, cols);
        y := y + 1;
      }
    }

    /** doupdate: whatever the two screens held, the terminal shows the new one, without
        scrolling and without touching the corner. */
    method DoUpdate() returns (r: int)
      requires Valid() && Drawable(now[..], lines, cols)
      modifies this`ob, this`sent, this`attr, this`py, this`px, phy
      ensures Valid() && (r == 0 <==> started) && (r != 0 ==> r == -1 && Log() == old(Log()))
      ensures r == 0 ==>
              Shows(T(), now[..], pairs) && Done(now[..], phy[..], lines, cols) && Calm(old(T()), T()) && ob == []
      ensures r == 0 && visible && 0 <= wy < lines && 0 <= wx < cols ==> CursorAt(T(), wy, wx)
      ensures old(Done(now[..], phy[..], lines, cols)) && old(py) == wy && old(px) == wx ==> Log() == old(Log())
    {
      hide Ready, Sync, Run, Cell, Calm, AttrOk, Drawable, CursorOk, Done, Shows;
      if !started { return -1; }
      ghost var t0, n := T(), now[..];
      Lines();
      ghost var t2 := T();
      ReadyIs(t2, lines, cols);
      if visible {
        Goto(wy, wx);
        CalmTwice(t0, t2, T());
      }
      Flush();
      ReadyIs(T(), lines, cols);
      DoneShows(T(), n, phy[..], pairs);
      if visible && 0 <= wy < lines && 0 <= wx < cols { CursorThere(T(), wy, wx); }
      r := 0;
    }

    /** initscr on a console of the usual size. The library then believes the screen blank
        and its look plain: true exactly if the look was plain before. */
    constructor (ghost t: Term)
      requires Ready(t, 24, 80)
      ensures Sized() && fresh(now) && fresh(phy) && started && ob == [] && lines == 24 && cols == 80
      ensures T() == t.(grid := BlankGrid(24, 80, t.look), y := 0, x := 0, pending := false)
      ensures Valid() <==> t.look == PLAIN
      ensures attr == 0 && pairs == seq(64, _ => (-1, -1))
              && forall k :: 0 <= k < CELLS ==> now[k] == 32 && phy[k] == 32
    {
      hide Run, Ready, Sync, AttrOk, BlankGrid, MoveBytes, LookOf;
      lines, cols := 24, 80;
      now := new nat[CELLS](_ => 32);
      phy := new nat[CELLS](_ => 32);
      attr, py, px, wy, wx := 0, -1, -1, 0, 0;
      visible, started := true, true;
      pairs := seq(64, _ => (-1, -1));
      ob := [];
      sent, start := [], t;
      new;
      Str(OPENING);
      Flush();
      assert Log() == OPENING;
      ReadyIs(t, 24, 80);
      OpeningClears(t);
      BlankSync(t, T(), phy[..], pairs);
    }

    /** init_pair: what is on the glass is still what the library believes, exactly if the
        pair was not in use or looks as it did. */
    method InitPair(pair: int, f: int, b: int) returns (r: int)
      requires Valid() && f < 8 && b < 8
      modifies this`pairs
      ensures r == (if 0 < pair < 64 then 0 else -1) && (r == -1 ==> pairs == old(pairs))
              && (r == 0 ==> pairs == old(pairs)[pair := (f, b)])
      ensures Sized() && (r == -1 ==> Valid())
      ensures r == 0 ==>
              (Valid() <==> SameColours(old(pairs)[pair], (f, b)) || !InUse(phy[..], lines, cols, attr, pair))
    {
      hide Ready, Run, Sync, AttrOk, CursorOk, InUse, SameColours;
      if pair <= 0 || pair >= 64 { return -1; }
      ghost var ps := pairs;
      ReadyIs(T(), lines, cols);
      pairs := pairs[pair := (f, b)];
      NewPair(T(), phy[..], ps, pair, f, b, attr);
      r := 0;
    }

    /** curses_touchall: nothing is believed of the terminal any more, whatever it shows. */
    method TouchAll(ghost t: Term)
      requires Sized() && ob == [] && Ready(t, lines, cols)
      modifies this`attr, this`py, this`px, this`sent, this`start, phy
      ensures Valid() && T() == t
    {
      var i := 0;
      while i < phy.Length
        invariant i <= phy.Length && forall k :: 0 <= k < i ==> phy[k] == UNKNOWN
      {
        phy[i] := UNKNOWN;
        i := i + 1;
      }
      attr := UNKNOWN;
      py, px := -1, -1;
      sent, start := [], t;
      Blank(t, phy[..], pairs);
    }

    /** cur__resize: a size the arrays can hold is taken over; the terminal has it already. */
    method Resize(w: int, h: int, ghost t: Term)
      requires Sized() && ob == []
      requires Ready(t, if 5 <= h <= MAXLINES then h else lines, if 20 <= w <= STRIDE then w else cols)
      modifies this, phy
      ensures Valid() && T() == t && unchanged(`pairs) && unchanged(`started)
    {
      if 20 <= w <= STRIDE { cols := w; }
      if 5 <= h <= MAXLINES { lines := h; }
      TouchAll(t);
    }

    /** wnoutrefresh: where the cursor should be left. What is below the screen or to its
        right is brought back to the edge, what is above it or to its left is not. */
    method NoutRefresh(w: Window)
      requires Valid()
      modifies this`wy, this`wx
      ensures Valid() && wy == (if w.begy + w.cury < lines then w.begy + w.cury else lines - 1)
              && wx == (if w.begx + w.curx < cols then w.begx + w.curx else cols - 1)
    {
      wy, wx := w.begy + w.cury, w.begx + w.curx;
      if wy >= lines { wy := lines - 1; }
      if wx >= cols { wx := cols - 1; }
    }

    /** waddch: at most one cell changes, inside the window and on the screen, and it is
        the character in the attributes asked for. */
    method AddCh(w: Window, ch: nat)
      requires Valid() && w.attrs % 0x20_0000 == 0
      modifies w, now
      ensures Valid() && w.begy == old(w.begy) && w.begx == old(w.begx) && w.maxy == old(w.maxy)
              && w.maxx == old(w.maxx) && w.attrs == old(w.attrs)
      ensures Code(ch) == 10 ==>
              w.curx == 0 && w.cury == (if old(w.cury) + 1 < w.maxy then old(w.cury) + 1 else old(w.cury))
              && now[..] == old(now[..])
      ensures Code(ch) == 13 ==> w.curx == 0 && w.cury == old(w.cury) && now[..] == old(now[..])
      ensures Code(ch) != 10 && Code(ch) != 13 ==>
              w.cury == old(w.cury) && w.curx ==
              (if old(w.curx) < w.maxx && w.cury < w.maxy then old(w.curx) + 1 else old(w.curx))
      ensures Code(ch) != 10 && Code(ch) != 13 ==>
              Added(old(now[..]), now[..], lines, cols, old(w.cury) < w.maxy
              && old(w.curx) < w.maxx, w.begy + w.cury, w.begx + old(w.curx), Code(ch),
              if Attrs(ch) != 0 then Attrs(ch) else w.attrs)
    {
      var c: nat, a: nat := Code(ch), if Attrs(ch) != 0 then Attrs(ch) else w.attrs;
      if c == 10 {
        w.curx := 0;
        if w.cury + 1 < w.maxy { w.cury := w.cury + 1; }
        return;
      }
      if c == 13 {
        w.curx := 0;
        return;
      }
      if w.curx >= w.maxx || w.cury >= w.maxy { return; }
      var y, x := w.begy + w.cury, w.begx + w.curx;
      if 0 <= y < lines && 0 <= x < cols {
        ghost var n := now[..];
        var v: nat := c + a;
        now[y * STRIDE + x] := v;
        assert now[..] == n[y * STRIDE + x := v];
        AddedAt(n, lines, cols, y, x, c, a);
      }
      w.curx := w.curx + 1;
    }
  }

  // ---- runs

  /** A terminal of the usual size that draws in look l. */
  function Idle(l: Look): Term { Term(24, 80, true, BlankGrid(24, 80, l), 0, 0, false, l, Ground, 0) }

  lemma IdleReady(l: Look)
    ensures Ready(Idle(l), 24, 80)
  {
    forall r | 0 <= r < 24 ensures |Idle(l).grid[r]| == 80 { assert Idle(l).grid[r] == BlankRow(80, l); }
  }

  /** Started on a terminal that was left drawing in bold, the library is wrong about it
      from the beginning. */
  method StartBold() returns (s: Screen)
    ensures fresh(s) && s.Sized() && !s.Valid()
  {
    ghost var bold := PLAIN.(bold := true);
    IdleReady(bold);
    s := new Screen(Idle(bold));
  }

  /** Nothing of a blank screen is in pair 1, */
  lemma BlankUnused(phy: seq<nat>)
    requires |phy| == CELLS && forall k :: 0 <= k < CELLS ==> phy[k] == 32
    ensures !InUse(phy, 24, 80, 0, 1)
  {
    forall y: nat, x: nat | y < 24 && x < 80 ensures !InPair(phy, y, x, 1) { assert Cell(phy, y, x) == 32; }
  }

  /** until it is written in it, */
  lemma OneDrawn(now: seq<nat>, now': seq<nat>)
    requires |now| == CELLS && (forall k :: 0 <= k < CELLS ==> now[k] == 32)
             && Added(now, now', 24, 80, true, 0, 0, 88, 0x400_0000)
    ensures Drawable(now', 24, 80) && Pair(Attrs(Cell(now', 0, 0))) == 1 && Cell(now', 0, 0) != UNKNOWN
  {
    forall y: nat, x: nat | y < 24 && x < 80 ensures Printable(Code(Cell(now', y, x))) {
      if y != 0 || x != 0 { assert Cell(now', y, x) == Cell(now, y, x) == 32; }
    }
  }

  /** and that is on the glass. */
  lemma OneOnGlass(now: seq<nat>, phy: seq<nat>, attr: nat)
    requires |now| == |phy| == CELLS && Done(now, phy, 24, 80) && Pair(Attrs(Cell(now, 0, 0))) == 1
             && Cell(now, 0, 0) != UNKNOWN
    ensures InUse(phy, 24, 80, attr, 1)
  {
    hide Pair, Attrs;
    assert RowDone(now, phy, 0, 80);
    assert Cell(phy, 0, 0) == Cell(now, 0, 0);
    assert InPair(phy, 0, 0, 1);
  }

  lemma PlainX()
    ensures Attrs(88) == 0 && Code(88) == 88
  {
  }

  /** A pair that is on the glass is given other colours. */
  method Recolour() returns (s: Screen)
    ensures fresh(s) && s.Sized() && !s.Valid()
  {
    hide Ready, Sync, AttrOk, CursorOk, Run, Shows, Done, Drawable, InUse, Added, Calm, Pair, Attrs;
    IdleReady(PLAIN);
    s := new Screen(Idle(PLAIN));
    BlankUnused(s.phy[..]);
    var r := s.InitPair(1, 1, 2);
    var w := new Window;
    w.begy, w.begx, w.maxy, w.maxx := 0, 0, 24, 80;
    w.cury, w.curx, w.attrs := 0, 0, 0x400_0000;
    ghost var n := s.now[..];
    PlainX();
    s.AddCh(w, 88);
    OneDrawn(n, s.now[..]);
    r := s.DoUpdate();
    OneOnGlass(s.now[..], s.phy[..], s.attr);
    r := s.InitPair(1, 2, 1);
  }
}
