/** A terminal as prog/curses.h believes in it: a grid of glyphs, a cursor that either wraps
    at once or waits, and the two control sequences the library sends. */
module Terminal {
  import opened Common
  import opened Utf

  /** How a glyph looks; a colour of -1 is the terminal's own. */
  datatype Look = Look(bold: bool, dim: bool, underline: bool, blink: bool, reverse: bool, fg: int, bg: int)

  datatype Glyph = Glyph(code: nat, look: Look)

  /** What the bytes so far are the middle of: nothing, a character with need bytes to
      come, an escape, or a control sequence with its parameters. */
  datatype Mode = Ground | More(need: nat, acc: nat) | Esc | Csi(ps: seq<nat>)

  datatype Term = Term(lines: nat, cols: nat, deferred: bool, grid: seq<seq<Glyph>>, y: nat, x: nat, pending: bool,
      look: Look, mode: Mode, scrolled: nat)

  ghost predicate Shaped(t: Term) {
    && t.lines > 0 && t.cols > 0 && |t.grid| == t.lines && t.y < t.lines && t.x < t.cols
    && (forall r :: 0 <= r < t.lines ==> |t.grid[r]| == t.cols)
  }

  /** Down a line, scrolling at the bottom. */
  function Wrap(t: Term): Term {
    if t.y + 1 < t.lines then t.(y := t.y + 1, x := 0, pending := false)
    else t.(grid := if t.grid == [] then []
        else t.grid[1..] + [BlankRow(t.cols, t.look)], x := 0, pending := false, scrolled := t.scrolled + 1)
  }

  /** A printing character: the last column wraps now, or before the next one. */
  function Show(t: Term, code: nat): Term {
    var t := if t.pending then Wrap(t) else t;
    if t.y >= |t.grid| || t.x >= |t.grid[t.y]| then t else
    var t := t.(grid := t.grid[t.y := t.grid[t.y][t.x := Glyph(code, t.look)]]);
    if t.x + 1 < t.cols then t.(x := t.x + 1) else if t.deferred then t.(pending := true) else Wrap(t)
  }

  function Clamp(n: nat, size: nat): nat {
    if n == 0 then 0 else if n <= size then n - 1 else if size == 0 then 0 else size - 1
  }

  /** Cursor position; lines and columns count from one, and 0 or nothing means one. */
  function Place(t: Term, ps: seq<nat>): Term {
    t.(y := Clamp(if |ps| > 0 then ps[0] else 0, t.lines), x := Clamp(if |ps| > 1 then ps[1] else 0, t.cols),
        pending := false)
  }

  function BlankRow(n: nat, l: Look): (r: seq<Glyph>)
    ensures |r| == n && forall i :: 0 <= i < n ==> r[i] == Glyph(32, l)
  {
    seq(n, _ => Glyph(32, l))
  }

  function BlankGrid(lines: nat, cols: nat, l: Look): (g: seq<seq<Glyph>>)
    ensures |g| == lines && forall i :: 0 <= i < lines ==> g[i] == BlankRow(cols, l)
  {
    seq(lines, _ => BlankRow(cols, l))
  }

  /** Erase in display; 2 is all of it. */
  function Erase(t: Term, ps: seq<nat>): Term {
    if ps == [2] then t.(grid := BlankGrid(t.lines, t.cols, t.look)) else t
  }

  const PLAIN := Look(false, false, false, false, false, -1, -1)

  function Sgr(l: Look, p: nat): Look {
    if p == 0 then PLAIN
    else if p == 1 then l.(bold := true)
    else if p == 2 then l.(dim := true)
    else if p == 4 then l.(underline := true)
    else if p == 5 then l.(blink := true)
    else if p == 7 then l.(reverse := true)
    else if 30 <= p < 38 then l.(fg := p - 30)
    else if 40 <= p < 48 then l.(bg := p - 40)
    else l
  }

  /** Select graphic rendition, one parameter after another. */
  function Rendition(l: Look, ps: seq<nat>): Look {
    if ps == [] then l else Sgr(Rendition(l, ps[..|ps| - 1]), ps[|ps| - 1])
  }

  function Feed(t: Term, b: byte): Term {
    match t.mode
    case Ground =>
      if b == 0x1B then t.(mode := Esc)
      else if b >= 0xF0 then t.(mode := More(3, b % 8))
      else if b >= 0xE0 then t.(mode := More(2, b % 16))
      else if b >= 0xC0 then t.(mode := More(1, b % 32))
      else if 0x20 <= b < 0x7F then Show(t, b)
      else t
    case More(n, acc) =>
      if !(0x80 <= b < 0xC0) then t.(mode := Ground)
      else if n <= 1 then Show(t.(mode := Ground), acc * 64 + b % 64)
      else t.(mode := More(n - 1, acc * 64 + b % 64))
    case Esc => t.(mode := if b == 0x5B then Csi([0]) else Ground)
    case Csi(ps) =>
      if ps == [] then t.(mode := Ground)
      else if 0x30 <= b < 0x3A then t.(mode := Csi(ps[..|ps| - 1] + [ps[|ps| - 1] * 10 + (b - 0x30)]))
      else if b == 0x3B then t.(mode := Csi(ps + [0]))
      else if b == 0x48 then Place(t.(mode := Ground), ps)
      else if b == 0x4A then Erase(t.(mode := Ground), ps)
      else if b == 0x6D then t.(mode := Ground, look := Rendition(t.look, ps))
      else if 0x40 <= b < 0x7F then t.(mode := Ground)
      else t
  }

  function Run(t: Term, s: seq<byte>): Term {
    if s == [] then t else Feed(Run(t, s[..|s| - 1]), s[|s| - 1])
  }

  lemma {:induction false} RunCat(t: Term, a: seq<byte>, b: seq<byte>)
    ensures Run(t, a + b) == Run(Run(t, a), b)
  {
    if b == [] {
      assert a + b == a;
    } else {
      var n := |b| - 1;
      assert (a + b)[..|a + b| - 1] == a + b[..n];
      RunCat(t, a, b[..n]);
    }
  }

  lemma RunOne(t: Term, a: seq<byte>, c: byte)
    ensures Run(t, a + [c]) == Feed(Run(t, a), c)
  {
    assert (a + [c])[..|a + [c]| - 1] == a;
  }

  lemma Run2(t: Term, a: byte, b: byte)
    ensures Run(t, [a, b]) == Feed(Feed(t, a), b)
  {
    RunOne(t, [], a);
    RunOne(t, [a], b);
    assert [] + [a] == [a] && [a] + [b] == [a, b];
  }

  lemma Run3(t: Term, a: byte, b: byte, c: byte)
    ensures Run(t, [a, b, c]) == Feed(Feed(Feed(t, a), b), c)
  {
    Run2(t, a, b);
    RunOne(t, [a, b], c);
    assert [a, b] + [c] == [a, b, c];
  }

  // ---- what the library's sequences do

  predicate Printable(c: nat) { 0x20 <= c < 0x7F || 0xA0 <= c < 0xD800 || 0xE000 <= c < 0x110000 }

  lemma Shows2(t: Term, a: byte, b: byte)
    requires t.mode == Ground && 0xC0 <= a < 0xE0 && 0x80 <= b < 0xC0
    ensures Run(t, [a, b]) == Show(t, a % 32 * 64 + b % 64)
  {
    hide Show;
    Run2(t, a, b);
    assert t.(mode := Ground) == t;
  }

  lemma Shows3(t: Term, a: byte, b: byte, c: byte)
    requires t.mode == Ground && 0xE0 <= a < 0xF0 && 0x80 <= b < 0xC0 && 0x80 <= c < 0xC0
    ensures Run(t, [a, b, c]) == Show(t, (a % 16 * 64 + b % 64) * 64 + c % 64)
  {
    hide Show;
    Run2(t, a, b);
    assert Run(t, [a, b]) == t.(mode := More(1, a % 16 * 64 + b % 64));
    RunOne(t, [a, b], c);
    assert [a, b] + [c] == [a, b, c];
    assert t.(mode := Ground) == t;
  }

  lemma Shows4(t: Term, a: byte, b: byte, c: byte, d: byte)
    requires t.mode == Ground && 0xF0 <= a && 0x80 <= b < 0xC0 && 0x80 <= c < 0xC0 && 0x80 <= d < 0xC0
    ensures Run(t, [a, b, c, d]) == Show(t, ((a % 8 * 64 + b % 64) * 64 + c % 64) * 64 + d % 64)
  {
    hide Show;
    Run3(t, a, b, c);
    assert Run(t, [a, b, c]) == t.(mode := More(1, (a % 8 * 64 + b % 64) * 64 + c % 64));
    RunOne(t, [a, b, c], d);
    assert [a, b, c] + [d] == [a, b, c, d];
    assert t.(mode := Ground) == t;
  }

  /** A character arrives as itself, however many bytes it takes. */
  lemma CharShows(t: Term, c: nat)
    requires t.mode == Ground && Printable(c)
    ensures Run(t, Enc8One(c)) == Show(t, c)
  {
    hide Show, Run, Feed;
    if c < 0x80 {
      ShowsAscii(t, c);
    } else if c < 0x800 {
      Split2(c);
      Shows2(t, 0xC0 + c / 0x40, 0x80 + c % 0x40);
    } else if c < 0x10000 {
      Split3(c);
      Shows3(t, 0xE0 + c / 0x1000, 0x80 + c / 0x40 % 0x40, 0x80 + c % 0x40);
    } else {
      Split4(c);
      Shows4(t, 0xF0 + c / 0x40000, 0x80 + c / 0x1000 % 0x40, 0x80 + c / 0x40 % 0x40, 0x80 + c % 0x40);
    }
  }

  lemma ShowsAscii(t: Term, b: byte)
    requires t.mode == Ground && 0x20 <= b < 0x7F
    ensures Run(t, [b]) == Show(t, b)
  {
    hide Show;
    RunOne(t, [], b);
    assert [] + [b] == [b];
  }

  lemma Split2(c: nat)
    requires c < 0x800
    ensures (0xC0 + c / 0x40) % 32 * 64 + (0x80 + c % 0x40) % 64 == c
  {
  }

  lemma Split3(c: nat)
    requires c < 0x10000
    ensures ((0xE0 + c / 0x1000) % 16 * 64 + (0x80 + c / 0x40 % 0x40) % 64) * 64 + (0x80 + c % 0x40) % 64 == c
  {
    assert (0x80 + c / 0x40 % 0x40) % 64 == c / 0x40 % 0x40 && (0x80 + c % 0x40) % 64 == c % 0x40;
    assert (0xE0 + c / 0x1000) % 16 == c / 0x1000;
    assert c / 0x40 == c / 0x1000 * 64 + c / 0x40 % 0x40;
  }

  lemma Split4(c: nat)
    requires c < 0x110000
    ensures (((0xF0 + c / 0x40000) % 8 * 64 + (0x80 + c / 0x1000 % 0x40) % 64) * 64
            + (0x80 + c / 0x40 % 0x40) % 64) * 64 + (0x80 + c % 0x40) % 64 == c
  {
    assert (0x80 + c / 0x1000 % 0x40) % 64 == c / 0x1000 % 0x40 && (0x80 + c / 0x40 % 0x40) % 64 == c / 0x40 % 0x40
        && (0x80 + c % 0x40) % 64 == c % 0x40;
    assert (0xF0 + c / 0x40000) % 8 == c / 0x40000;
    assert c / 0x1000 == c / 0x40000 * 64 + c / 0x1000 % 0x40;
    assert c / 0x40 == c / 0x1000 * 64 + c / 0x40 % 0x40;
  }

  function Decimal(v: nat): seq<byte> {
    if v < 10 then [0x30 + v] else Decimal(v / 10) + [0x30 + v % 10]
  }

  lemma FeedDigit(t: Term, ps: seq<nat>, v: nat, d: nat)
    requires d < 10
    ensures Feed(t.(mode := Csi(ps + [v])), 0x30 + d) == t.(mode := Csi(ps + [v * 10 + d]))
  {
    assert (ps + [v])[..|ps + [v]| - 1] == ps;
  }

  lemma {:induction false} DecimalReads(t: Term, ps: seq<nat>, v: nat)
    ensures Run(t.(mode := Csi(ps + [0])), Decimal(v)) == t.(mode := Csi(ps + [v]))
  {
    hide Feed;
    var u := t.(mode := Csi(ps + [0]));
    if v < 10 {
      FeedDigit(t, ps, 0, v);
      RunOne(u, [], 0x30 + v);
      assert [] + [(0x30 + v) as byte] == Decimal(v);
    } else {
      DecimalReads(t, ps, v / 10);
      RunOne(u, Decimal(v / 10), 0x30 + v % 10);
      FeedDigit(t, ps, v / 10, v % 10);
    }
  }

  function MoveBytes(y: nat, x: nat): seq<byte> {
    [0x1B, 0x5B] + Decimal(y) + [0x3B] + Decimal(x) + [0x48]
  }

  /** A cursor move moves the cursor. */
  lemma MovePlaces(t: Term, y: nat, x: nat)
    requires t.mode == Ground
    ensures Run(t, MoveBytes(y, x)) == Place(t, [y, x])
  {
    hide Place;
    var none: seq<nat> := [];
    Run2(t, 0x1B, 0x5B);
    assert [0] == none + [0] && none + [y] == [y] && [y] + [0] == [y, 0] && [y] + [x] == [y, x];
    DecimalReads(t, [], y);
    RunCat(t, [0x1B, 0x5B], Decimal(y));
    RunOne(t, [0x1B, 0x5B] + Decimal(y), 0x3B);
    DecimalReads(t, [y], x);
    RunCat(t, [0x1B, 0x5B] + Decimal(y) + [0x3B], Decimal(x));
    RunOne(t, [0x1B, 0x5B] + Decimal(y) + [0x3B] + Decimal(x), 0x48);
    assert t.(mode := Ground) == t;
  }

  /** What initscr sends: clear, to the far corner, report, home. */
  const OPENING: seq<byte> :=
      [0x1B, 0x5B, 0x32, 0x4A] + MoveBytes(999, 999) + [0x1B, 0x5B, 0x36, 0x6E] + [0x1B, 0x5B, 0x48]

  lemma OpeningClears(t: Term)
    requires t.mode == Ground
    ensures Run(t, OPENING) == t.(grid := BlankGrid(t.lines, t.cols, t.look), y := 0, x := 0, pending := false)
  {
    hide Run, Feed, MoveBytes;
    var a, b, c := [0x1B, 0x5B, 0x32, 0x4A], MoveBytes(999, 999), [0x1B, 0x5B, 0x36, 0x6E];
    var t1 := t.(grid := BlankGrid(t.lines, t.cols, t.look));
    ShortSequence(t, 2, 0x4A);
    RunCat(t, a, b);
    MovePlaces(t1, 999, 999);
    RunCat(t, a + b, c);
    ShortSequence(Place(t1, [999, 999]), 6, 0x6E);
    RunCat(t, a + b + c, [0x1B, 0x5B, 0x48]);
    HomeSequence(Place(t1, [999, 999]));
  }

  lemma CsiOpens(t: Term)
    requires t.mode == Ground
    ensures Run(t, [0x1B, 0x5B]) == t.(mode := Csi([0]))
  {
    Run2(t, 0x1B, 0x5B);
  }

  lemma FeedFinal(t: Term, d: nat, b: byte)
    requires b == 0x4A || b == 0x6E
    ensures Feed(t.(mode := Csi([d])), b) == if b == 0x4A then Erase(t.(mode := Ground), [d]) else t.(mode := Ground)
  {
    hide Erase;
  }

  lemma ShortSequence(t: Term, d: nat, b: byte)
    requires t.mode == Ground && d < 10 && (b == 0x4A || b == 0x6E)
    ensures Run(t, [0x1B, 0x5B, 0x30 + d, b]) == if b == 0x4A then Erase(t, [d]) else t
  {
    hide Erase, Feed, Run;
    var none: seq<nat> := [];
    assert none + [0] == [0] && none + [d] == [d];
    CsiOpens(t);
    DecimalReads(t, none, d);
    RunCat(t, [0x1B, 0x5B], Decimal(d));
    RunOne(t, [0x1B, 0x5B] + Decimal(d), b);
    FeedFinal(t, d, b);
    assert [0x1B, 0x5B] + Decimal(d) + [b] == [0x1B, 0x5B, 0x30 + d, b];
    assert t.(mode := Ground) == t;
  }

  lemma HomeSequence(t: Term)
    requires t.mode == Ground
    ensures Run(t, [0x1B, 0x5B, 0x48]) == t.(y := 0, x := 0, pending := false)
  {
    CsiOpens(t);
    RunOne(t, [0x1B, 0x5B], 0x48);
    assert [0x1B, 0x5B] + [0x48] == [0x1B, 0x5B, 0x48];
  }

  function Param(k: nat): seq<byte> { [0x3B] + Decimal(k) }

  lemma ParamReads(t: Term, ps: seq<nat>, k: nat)
    requires ps != [] && t.mode == Csi(ps)
    ensures Run(t, Param(k)) == t.(mode := Csi(ps + [k]))
  {
    RunOne(t, [], 0x3B);
    var none: seq<byte> := [];
    assert none + [0x3B] == [0x3B];
    RunCat(t, [0x3B], Decimal(k));
    DecimalReads(t, ps, k);
  }

  lemma RenditionOne(l: Look, ps: seq<nat>, k: nat)
    ensures Rendition(l, ps + [k]) == Sgr(Rendition(l, ps), k)
  {
    assert (ps + [k])[..|ps + [k]| - 1] == ps;
  }
}
