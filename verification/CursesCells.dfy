/** The cells of prog/curses.h, and when a terminal agrees with what the library believes
    about it. */
module CursesCells {
  import opened Common
  import opened Terminal

  const STRIDE: nat := 160
  const MAXLINES: nat := 48
  const CELLS: nat := 7680
  const GAP: nat := 6
  const UNKNOWN: nat := 0xFFFF_FFFF

  // ---- a character and how it looks, in thirty-two bits

  function Code(v: nat): nat { v % 0x20_0000 }

  /** v & A_ATTRIBUTES. */
  function Attrs(v: nat): nat { v - v % 0x20_0000 }

  predicate Bold(v: nat) { v / 0x20_0000 % 2 == 1 }
  predicate Underline(v: nat) { v / 0x40_0000 % 2 == 1 }
  predicate Reverse(v: nat) { v / 0x80_0000 % 2 == 1 }
  predicate Blink(v: nat) { v / 0x100_0000 % 2 == 1 }
  predicate Dim(v: nat) { v / 0x200_0000 % 2 == 1 }
  function Pair(v: nat): nat { v / 0x400_0000 % 64 }

  type Pairs = seq<(int, int)>

  ghost predicate PairsOk(ps: Pairs) { |ps| == 64 && forall i :: 0 <= i < 64 ==> ps[i].0 < 8 && ps[i].1 < 8 }

  function Fg(a: nat, ps: Pairs): int
    requires |ps| == 64
  {
    if Pair(a) > 0 && ps[Pair(a)].0 >= 0 then ps[Pair(a)].0 else -1
  }

  function Bg(a: nat, ps: Pairs): int
    requires |ps| == 64
  {
    if Pair(a) > 0 && ps[Pair(a)].1 >= 0 then ps[Pair(a)].1 else -1
  }

  /** How a terminal should draw an attribute word. */
  function LookOf(a: nat, ps: Pairs): Look
    requires |ps| == 64
  {
    Look(Bold(a), Dim(a), Underline(a), Blink(a), Reverse(a), Fg(a, ps), Bg(a, ps))
  }

  function GlyphOf(v: nat, ps: Pairs): Glyph
    requires |ps| == 64
  {
    Glyph(Code(v), LookOf(Attrs(v), ps))
  }

  // ---- the bytes of an attribute word

  /** A parameter that may be left out. */
  type Opt = (bool, nat)

  function OptByte(o: Opt): seq<byte> { if o.0 then Param(o.1) else [] }

  function OptBytes(os: seq<Opt>): seq<byte> {
    if os == [] then [] else OptBytes(os[..|os| - 1]) + OptByte(os[|os| - 1])
  }

  function OptParams(os: seq<Opt>): seq<nat> {
    if os == [] then [] else OptParams(os[..|os| - 1]) + if os[|os| - 1].0 then [os[|os| - 1].1] else []
  }

  function AttrOpts(a: nat, ps: Pairs): (os: seq<Opt>)
    requires |ps| == 64
    ensures |os| == 7
  {
    var fg: nat, bg: nat := if Fg(a, ps) < 0 then 0 else Fg(a, ps), if Bg(a, ps) < 0 then 0 else Bg(a, ps);
    [(Bold(a), 1), (Dim(a), 2), (Underline(a), 4), (Blink(a), 5), (Reverse(a), 7), (Fg(a, ps) >= 0, 30 + fg),
        (Bg(a, ps) >= 0, 40 + bg)]
  }

  function AttrBytes(a: nat, ps: Pairs): seq<byte>
    requires |ps| == 64
  {
    [0x1B, 0x5B, 0x30] + OptBytes(AttrOpts(a, ps)) + [0x6D]
  }

  lemma OptStep(os: seq<Opt>, k: nat)
    requires k < |os|
    ensures OptBytes(os[..k + 1]) == OptBytes(os[..k]) + OptByte(os[k])
    ensures OptParams(os[..k + 1]) == OptParams(os[..k]) + if os[k].0 then [os[k].1] else []
  {
    assert os[..k + 1][..k] == os[..k];
  }

  lemma {:induction false} OptsRead(t: Term, os: seq<Opt>)
    requires t.mode == Csi([0])
    ensures Run(t, OptBytes(os)) == t.(mode := Csi([0] + OptParams(os)))
  {
    if os == [] {
      assert [0] + OptParams(os) == [0];
    } else {
      var n := |os| - 1;
      OptsRead(t, os[..n]);
      RunCat(t, OptBytes(os[..n]), OptByte(os[n]));
      var ps := [0] + OptParams(os[..n]);
      if os[n].0 {
        ParamReads(t.(mode := Csi(ps)), ps, os[n].1);
        assert ps + [os[n].1] == [0] + OptParams(os);
      } else {
        assert OptParams(os) == OptParams(os[..n]);
      }
    }
  }

  lemma RenditionStep(l: Look, os: seq<Opt>, k: nat)
    requires k < |os|
    ensures Rendition(l, [0] + OptParams(os[..k + 1])) == if os[k].0
            then Sgr(Rendition(l, [0] + OptParams(os[..k])), os[k].1) else Rendition(l, [0] + OptParams(os[..k]))
  {
    hide Sgr;
    OptStep(os, k);
    var ps := [0] + OptParams(os[..k]);
    if os[k].0 {
      assert [0] + OptParams(os[..k + 1]) == ps + [os[k].1];
      RenditionOne(l, ps, os[k].1);
    } else {
      assert OptParams(os[..k + 1]) == OptParams(os[..k]);
    }
  }

  lemma RenditionAll(l: Look, a: nat, ps: Pairs)
    requires PairsOk(ps)
    ensures Rendition(l, [0] + OptParams(AttrOpts(a, ps))) == LookOf(a, ps)
  {
    hide OptParams, Rendition, Bold, Dim, Underline, Blink, Reverse, Fg, Bg;
    var os := AttrOpts(a, ps);
    FgLow(a, ps);
    RenditionNone(l, os);
    RenditionStep(l, os, 0);
    RenditionStep(l, os, 1);
    RenditionStep(l, os, 2);
    RenditionStep(l, os, 3);
    RenditionStep(l, os, 4);
    RenditionStep(l, os, 5);
    RenditionStep(l, os, 6);
    assert os[..7] == os;
  }

  lemma FgLow(a: nat, ps: Pairs)
    requires PairsOk(ps)
    ensures -1 <= Fg(a, ps) < 8 && -1 <= Bg(a, ps) < 8
  {
  }

  lemma RenditionNone(l: Look, os: seq<Opt>)
    ensures Rendition(l, [0] + OptParams(os[..0])) == PLAIN
  {
    var none: seq<nat> := [];
    assert [0] + OptParams(os[..0]) == none + [0];
    RenditionOne(l, none, 0);
  }

  /** One attribute sequence sets exactly that look. */
  lemma AttrSets(t: Term, a: nat, ps: Pairs)
    requires t.mode == Ground && PairsOk(ps)
    ensures Run(t, AttrBytes(a, ps)) == t.(look := LookOf(a, ps))
  {
    hide Rendition, LookOf, OptBytes, OptParams, AttrOpts;
    var os := AttrOpts(a, ps);
    Run3(t, 0x1B, 0x5B, 0x30);
    var u := t.(mode := Csi([0]));
    FeedDigit(t, [], 0, 0);
    var none: seq<nat> := [];
    assert none + [0] == [0];
    assert Run(t, [0x1B, 0x5B, 0x30]) == u;
    RunCat(t, [0x1B, 0x5B, 0x30], OptBytes(os));
    OptsRead(u, os);
    RunOne(t, [0x1B, 0x5B, 0x30] + OptBytes(os), 0x6D);
    RenditionAll(t.look, a, ps);
  }

  lemma ColourParam(d: nat, c: nat)
    requires (d == 3 || d == 4) && c < 10
    ensures [0x3B, (0x30 + d) as byte] + Decimal(c) == Param(10 * d + c)
  {
    assert Decimal(10 * d + c) == Decimal(d) + [0x30 + c];
  }

  // ---- two screens

  function Cell(s: seq<nat>, y: nat, x: nat): nat
    requires |s| == CELLS && y < MAXLINES && x < STRIDE
  {
    s[y * STRIDE + x]
  }

  lemma CellPut(s: seq<nat>, y: nat, x: nat, v: nat, y': nat, x': nat)
    requires |s| == CELLS && y < MAXLINES && x < STRIDE && y' < MAXLINES && x' < STRIDE
    ensures Cell(s[y * STRIDE + x := v], y', x') == if y' == y && x' == x then v else Cell(s, y', x')
  {
  }

  /** The last cell of the last line, which is never written. */
  predicate Corner(lines: nat, cols: nat, y: nat, x: nat) { y + 1 == lines && x + 1 == cols }

  ghost predicate Ready(t: Term, lines: nat, cols: nat) {
    Shaped(t) && t.lines == lines <= MAXLINES && t.cols == cols <= STRIDE && t.mode == Ground
  }

  ghost predicate AttrOk(t: Term, attr: nat, ps: Pairs) {
    |ps| == 64 && (attr != UNKNOWN ==> t.look == LookOf(attr, ps))
  }

  ghost predicate CursorAt(t: Term, y: int, x: int) { t.y == y && t.x == x && !t.pending }

  /** Where the library thinks the cursor is, if that is a place on the screen. */
  ghost predicate CursorOk(t: Term, y: int, x: int) { 0 <= y < t.lines && 0 <= x < t.cols ==> CursorAt(t, y, x) }

  ghost predicate Matches(t: Term, phy: seq<nat>, ps: Pairs, y: nat, x: nat)
    requires Shaped(t) && t.lines <= MAXLINES && t.cols <= STRIDE && |phy| == CELLS && |ps| == 64 && y < t.lines
             && x < t.cols
  {
    Cell(phy, y, x) != UNKNOWN ==> t.grid[y][x] == GlyphOf(Cell(phy, y, x), ps)
  }

  /** Every cell believed to be on the glass is there, but for the corner. */
  ghost predicate Sync(t: Term, phy: seq<nat>, ps: Pairs) {
    && Shaped(t) && t.lines <= MAXLINES && t.cols <= STRIDE && |phy| == CELLS && |ps| == 64
    && forall y: nat, x: nat {:trigger Matches(t, phy, ps, y, x)} ::
        y < t.lines && x < t.cols && !Corner(t.lines, t.cols, y, x) ==> Matches(t, phy, ps, y, x)
  }

  /** What no update may disturb. */
  ghost predicate Calm(t: Term, t': Term) {
    && Shaped(t) && Shaped(t') && t'.lines == t.lines && t'.cols == t.cols && t'.scrolled == t.scrolled
    && t'.grid[t.lines - 1][t.cols - 1] == t.grid[t.lines - 1][t.cols - 1]
  }

  lemma CalmTwice(a: Term, b: Term, c: Term)
    requires Calm(a, b) && Calm(b, c)
    ensures Calm(a, c)
  {
  }

  lemma SyncSame(t: Term, t': Term, phy: seq<nat>, ps: Pairs)
    requires Sync(t, phy, ps) && Shaped(t') && t'.grid == t.grid && t'.lines == t.lines && t'.cols == t.cols
    ensures Sync(t', phy, ps)
  {
    forall y: nat, x: nat | y < t.lines && x < t.cols && !Corner(t.lines, t.cols, y, x)
        ensures Matches(t', phy, ps, y, x) {
      assert Matches(t, phy, ps, y, x);
    }
  }

  /** A glyph written where the cursor is, anywhere but in the corner. */
  lemma ShowSync(t: Term, phy: seq<nat>, ps: Pairs, y: nat, x: nat, v: nat)
    requires Sync(t, phy, ps) && Ready(t, t.lines, t.cols) && CursorAt(t, y, x) && !Corner(t.lines, t.cols, y, x)
             && t.look == LookOf(Attrs(v), ps)
    ensures var t' := Show(t, Code(v));
            && y * STRIDE + x < CELLS && Sync(t', phy[y * STRIDE + x := v], ps) && Ready(t', t.lines, t.cols)
            && t'.look == t.look && Calm(t, t')
            && (x + 1 < t.cols ==> CursorAt(t', y, x + 1))
  {
    hide LookOf;
    var t', phy' := Show(t, Code(v)), phy[y * STRIDE + x := v];
    assert t'.grid == t.grid[y := t.grid[y][x := Glyph(Code(v), t.look)]];
    forall r: nat, c: nat | r < t.lines && c < t.cols && !Corner(t.lines, t.cols, r, c)
        ensures Matches(t', phy', ps, r, c) {
      assert Matches(t, phy, ps, r, c);
      CellPut(phy, y, x, v, r, c);
    }
  }

  lemma PlaceSync(t: Term, phy: seq<nat>, ps: Pairs, y: int, x: int)
    requires Sync(t, phy, ps) && Ready(t, t.lines, t.cols)
    ensures var t' := Place(t, [Up(y + 1), Up(x + 1)]);
            Sync(t', phy, ps) && Ready(t', t.lines, t.cols) && t'.look == t.look && Calm(t, t') && CursorOk(t', y, x)
  {
    SyncSame(t, Place(t, [Up(y + 1), Up(x + 1)]), phy, ps);
  }

  /** What cur__num prints. */
  function Up(v: int): nat { if v <= 0 then 0 else v }

  ghost predicate RowDone(now: seq<nat>, phy: seq<nat>, y: nat, n: nat)
    requires |now| == CELLS && |phy| == CELLS && y < MAXLINES && n <= STRIDE
  {
    forall x: nat {:trigger Cell(phy, y, x)} :: x < n ==> Cell(phy, y, x) == Cell(now, y, x)
  }

  ghost predicate Done(now: seq<nat>, phy: seq<nat>, lines: nat, cols: nat)
    requires |now| == CELLS && |phy| == CELLS && lines <= MAXLINES && cols <= STRIDE
  {
    forall y: nat {:trigger RowDone(now, phy, y, cols)} :: y < lines ==> RowDone(now, phy, y, cols)
  }

  /** Outside row y nothing changed. */
  ghost predicate OtherRows(phy: seq<nat>, phy': seq<nat>, y: nat)
    requires |phy| == CELLS && |phy'| == CELLS
  {
    forall r: nat, x: nat {:trigger Cell(phy', r, x)} ::
        r < MAXLINES && x < STRIDE && r != y ==> Cell(phy', r, x) == Cell(phy, r, x)
  }

  ghost predicate Drawable(now: seq<nat>, lines: nat, cols: nat)
    requires |now| == CELLS && lines <= MAXLINES && cols <= STRIDE
  {
    forall y: nat, x: nat {:trigger Cell(now, y, x)} :: y < lines && x < cols ==> Printable(Code(Cell(now, y, x)))
  }

  /** The terminal shows the virtual screen, but for the corner. */
  ghost predicate Shows(t: Term, now: seq<nat>, ps: Pairs) {
    && Shaped(t) && t.lines <= MAXLINES && t.cols <= STRIDE && |now| == CELLS && |ps| == 64
    && forall y: nat, x: nat {:trigger t.grid[y][x]} ::
        y < t.lines && x < t.cols && !Corner(t.lines, t.cols, y, x) ==> t.grid[y][x] == GlyphOf(Cell(now, y, x), ps)
  }

  lemma DoneShows(t: Term, now: seq<nat>, phy: seq<nat>, ps: Pairs)
    requires Sync(t, phy, ps) && |now| == CELLS && Done(now, phy, t.lines, t.cols) && Drawable(now, t.lines, t.cols)
    ensures Shows(t, now, ps)
  {
    hide GlyphOf;
    forall y: nat, x: nat | y < t.lines && x < t.cols && !Corner(t.lines, t.cols, y, x)
        ensures t.grid[y][x] == GlyphOf(Cell(now, y, x), ps) {
      assert Matches(t, phy, ps, y, x) && RowDone(now, phy, y, t.cols);
      assert Cell(phy, y, x) == Cell(now, y, x) && Printable(Code(Cell(now, y, x)));
    }
  }

  lemma DoneMore(now: seq<nat>, phy: seq<nat>, phy': seq<nat>, y: nat, cols: nat)
    requires |now| == CELLS && |phy| == CELLS && |phy'| == CELLS && y < MAXLINES && cols <= STRIDE
    requires Done(now, phy, y, cols) && OtherRows(phy, phy', y) && RowDone(now, phy', y, cols)
    ensures Done(now, phy', y + 1, cols)
  {
    forall r: nat | r < y + 1 ensures RowDone(now, phy', r, cols) {
      if r < y {
        assert RowDone(now, phy, r, cols);
        forall x: nat | x < cols ensures Cell(phy', r, x) == Cell(now, r, x) {
          assert Cell(phy', r, x) == Cell(phy, r, x);
        }
      }
    }
  }
}
