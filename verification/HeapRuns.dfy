/** The size-class side of src/malloc.h: pages carved into slots of one size, the
    per-class lists of runs with room, and the page map that lets a bare pointer
    be classified. */
module HeapRuns {
  import opened Cells
  import opened HeapModel

  const CLASSES: seq<nat> := [16, 32, 48, 64, 80, 96, 112, 128, 160, 192, 224, 256, 320, 384, 448, 512]

  function ClassSize(c: nat): (r: nat)
    requires c < NCLASS
    ensures 16 <= r <= MAXSMALL && r % 16 == 0
  {
    CLASSES[c]
  }

  function SlotCount(c: nat): (r: nat)
    requires c < NCLASS
    ensures 1 <= r
  {
    (PGSIZE - MRUNHDR) / ClassSize(c)
  }

  /** p is the address of one of the slots of the run at page r. Slots are laid
      down from the end of the page. */
  predicate IsSlot(c: nat, r: nat, p: nat)
    requires c < NCLASS
  {
    r + MRUNHDR <= p < r + PGSIZE && (r + PGSIZE - p) % ClassSize(c) == 0
  }

  // ---- chains threaded through memory, each element's link in its first cell

  ghost predicate Chain(mem: Mem, head: nat, l: seq<nat>)
    decreases l
  {
    if l == [] then head == 0
    else head == l[0] && head != 0 && Chain(mem, Rd(mem, head), l[1..])
  }

  ghost predicate Distinct(l: seq<nat>) {
    l == [] || (l[0] !in l[1..] && Distinct(l[1..]))
  }

  lemma {:induction false} ChainFrame(mem: Mem, mem': Mem, head: nat, l: seq<nat>)
    requires Chain(mem, head, l)
    requires forall x :: x in l ==> Rd(mem', x) == Rd(mem, x)
    ensures Chain(mem', head, l)
    decreases l
  {
    if l != [] {
      ChainFrame(mem, mem', Rd(mem, head), l[1..]);
    }
  }

  /** Taking the first element of rest out of a chain: its predecessor, or the
      head when there is none, is pointed past it. */
  lemma {:induction false} ChainCut(mem: Mem, head: nat, done: seq<nat>, rest: seq<nat>)
    requires Chain(mem, head, done + rest) && Distinct(done + rest) && rest != []
    ensures done == [] ==> head == rest[0] && Chain(mem, Rd(mem, rest[0]), rest[1..])
    ensures done != [] ==> Chain(mem[done[|done| - 1] := Rd(mem, rest[0])], head, done + rest[1..])
    decreases done
  {
    var l := done + rest;
    if done == [] {
      assert l == rest;
    } else {
      var d := done[1..];
      assert l[1..] == d + rest;
      ChainCut(mem, Rd(mem, head), d, rest);
      var m' := mem[done[|done| - 1] := Rd(mem, rest[0])];
      assert (done + rest[1..])[1..] == d + rest[1..];
      if d == [] {
        assert d + rest[1..] == rest[1..] && d + rest == rest;
        assert done[0] !in rest;
        ChainFrame(mem, m', Rd(mem, rest[0]), rest[1..]);
      } else {
        assert done[|done| - 1] == d[|d| - 1] && d[|d| - 1] in d + rest;
        assert head != done[|done| - 1];
      }
    }
  }

  lemma {:induction false} CutDistinct(done: seq<nat>, rest: seq<nat>)
    requires Distinct(done + rest) && rest != []
    ensures Distinct(done + rest[1..]) && rest[0] !in done + rest[1..]
    decreases done
  {
    if done == [] {
      assert done + rest == rest && done + rest[1..] == rest[1..];
    } else {
      assert (done + rest)[1..] == done[1..] + rest;
      assert (done + rest[1..])[1..] == done[1..] + rest[1..];
      CutDistinct(done[1..], rest);
      assert rest[0] in done[1..] + rest;
    }
  }

  // ---- one run

  ghost predicate RunOk(mem: Mem, r: nat, c: nat, fs: seq<nat>, us: set<nat>)
    requires c < NCLASS
  {
    && r != 0
    && Rd(mem, r + 16) == c
    && Rd(mem, r + 18) == |us|
    && Chain(mem, Rd(mem, r + 8), fs)
    && Distinct(fs)
    && (forall p :: p in fs ==> IsSlot(c, r, p) && p !in us)
    && (forall p :: p in us ==> IsSlot(c, r, p))
    && |fs| + |us| == SlotCount(c)
  }

  /** What the allocator knows about its runs: the list of runs with room for
      each class, and for each run its free slots and the slots in use. */
  datatype Runs = Runs(lists: seq<seq<nat>>, free: map<nat, seq<nat>>, used: map<nat, set<nat>>)

  ghost predicate RunAt(t: Tiles, r: nat) {
    r in t && t[r].Run?
  }

  ghost predicate HasRoom(t: Tiles, g: Runs, r: nat, c: nat) {
    r in g.free && RunAt(t, r) && t[r].cls == c && g.free[r] != []
  }

  ghost predicate ClassList(mem: Mem, head: nat, l: seq<nat>, c: nat, g: Runs, t: Tiles) {
    && Chain(mem, head, l) && Distinct(l)
    && (forall r :: r in l ==> HasRoom(t, g, r, c))
    && (forall r {:trigger HasRoom(t, g, r, c)} :: HasRoom(t, g, r, c) ==> r in l)
  }

  ghost predicate RunsOk(mem: Mem, heads: seq<nat>, g: Runs, t: Tiles) {
    && |heads| == NCLASS && |g.lists| == NCLASS
    && (forall r {:trigger RunAt(t, r)} {:trigger r in g.free} :: RunAt(t, r) <==> r in g.free)
    && (forall r {:trigger RunAt(t, r)} {:trigger r in g.free} :: r in g.free && RunAt(t, r) ==> t[r].cls < NCLASS)
    && g.used.Keys == g.free.Keys
    && (forall r {:trigger RunOk(mem, r, t[r].cls, g.free[r], g.used[r])} ::
          r in g.free ==> RunOk(mem, r, t[r].cls, g.free[r], g.used[r]))
    && (forall c {:trigger ClassList(mem, heads[c], g.lists[c], c, g, t)} ::
          0 <= c < NCLASS ==> ClassList(mem, heads[c], g.lists[c], c, g, t))
  }

  /** The same runs, and not a cell of them written. */
  ghost predicate RunsKept(mem: Mem, mem': Mem, t: Tiles, t': Tiles) {
    && (forall r {:trigger RunAt(t', r)} {:trigger RunAt(t, r)} :: RunAt(t', r) <==> RunAt(t, r))
    && (forall r {:trigger RunAt(t, r)} :: RunAt(t, r) ==> RunAt(t', r) && t'[r] == t[r])
    && (forall r: nat, a: nat :: RunAt(t, r) && r <= a < r + PGSIZE ==> Rd(mem', a) == Rd(mem, a))
  }

  lemma RunFrame(mem: Mem, mem': Mem, r: nat, c: nat, fs: seq<nat>, us: set<nat>)
    requires c < NCLASS && RunOk(mem, r, c, fs, us)
    requires forall a :: r < a < r + PGSIZE ==> Rd(mem', a) == Rd(mem, a)
    ensures RunOk(mem', r, c, fs, us)
  {
    ChainFrame(mem, mem', Rd(mem, r + 8), fs);
  }

  lemma RunsFrame(mem: Mem, mem': Mem, heads: seq<nat>, g: Runs, t: Tiles, t': Tiles)
    requires RunsOk(mem, heads, g, t) && RunsKept(mem, mem', t, t')
    ensures RunsOk(mem', heads, g, t')
  {
    forall r | r in g.free ensures t'[r].cls < NCLASS && RunOk(mem', r, t'[r].cls, g.free[r], g.used[r]) {
      assert RunAt(t, r) && RunOk(mem, r, t[r].cls, g.free[r], g.used[r]);
      RunFrame(mem, mem', r, t[r].cls, g.free[r], g.used[r]);
    }
    forall c | 0 <= c < NCLASS ensures ClassList(mem', heads[c], g.lists[c], c, g, t') {
      var l := g.lists[c];
      assert ClassList(mem, heads[c], l, c, g, t);
      forall r | r in l ensures HasRoom(t', g, r, c) && Rd(mem', r) == Rd(mem, r) {
        assert HasRoom(t, g, r, c) && RunAt(t, r);
      }
      ChainFrame(mem, mem', heads[c], l);
      forall r | HasRoom(t', g, r, c) ensures r in l {
        assert RunAt(t', r) && HasRoom(t, g, r, c);
      }
    }
  }

  /** Apart from the run at page r, of class c, the runs are the same ones. */
  ghost predicate OnlyShape(g: Runs, g': Runs, t: Tiles, t': Tiles, r: nat, c: nat) {
    && (forall x {:trigger RunAt(t', x)} {:trigger RunAt(t, x)} :: x != r ==> (RunAt(t', x) <==> RunAt(t, x)))
    && (forall x {:trigger RunAt(t, x)} :: x != r && RunAt(t, x) ==> t'[x] == t[x] && x in g'.free && x in g'.used)
    && (forall x {:trigger RunAt(t, x)} ::
          x != r && RunAt(t, x) && x in g.free && x in g.used && x in g'.free && x in g'.used ==>
            g'.free[x] == g.free[x] && g'.used[x] == g.used[x])
    && (forall x {:trigger x in g'.free} :: x in g'.free && x != r ==> x in g.free)
    && (RunAt(t, r) ==> t[r].cls == c)
    && g'.used.Keys == g'.free.Keys
  }

  /** No other run was written, except for the links of its class list. */
  ghost predicate OnlyCells(mem: Mem, mem': Mem, t: Tiles, r: nat, c: nat) {
    && (forall x: nat, a: nat :: RunAt(t, x) && x != r && x < a < x + PGSIZE ==> Rd(mem', a) == Rd(mem, a))
    && (forall x {:trigger RunAt(t, x)} :: RunAt(t, x) && x != r && t[x].cls != c ==> Rd(mem', x) == Rd(mem, x))
  }

  ghost predicate OnlyRun(mem: Mem, mem': Mem, g: Runs, g': Runs, t: Tiles, t': Tiles, r: nat, c: nat) {
    OnlyShape(g, g', t, t', r, c) && OnlyCells(mem, mem', t, r, c)
  }

  lemma OnlyRunOk(mem: Mem, mem': Mem, heads: seq<nat>, h: nat, g: Runs, g': Runs, t: Tiles, t': Tiles, r: nat, c: nat)
    requires c < NCLASS && RunsOk(mem, heads, g, t) && OnlyRun(mem, mem', g, g', t, t', r, c)
    requires RunAt(t', r) <==> r in g'.free
    requires r in g'.free ==> t'[r].cls == c && RunOk(mem', r, c, g'.free[r], g'.used[r])
    requires |g'.lists| == NCLASS && g'.lists == g.lists[c := g'.lists[c]]
    requires ClassList(mem', h, g'.lists[c], c, g', t')
    ensures RunsOk(mem', heads[c := h], g', t')
  {
    hide RunOk, ClassList;
    AllRuns(mem, mem', heads, g, g', t, t', r, c);
    forall d | 0 <= d < NCLASS ensures ClassList(mem', heads[c := h][d], g'.lists[d], d, g', t') {
      if d != c {
        OtherClass(mem, mem', heads[d], g, g', t, t', r, c, d);
      }
    }
  }

  lemma AllRuns(mem: Mem, mem': Mem, heads: seq<nat>, g: Runs, g': Runs, t: Tiles, t': Tiles, r: nat, c: nat)
    requires c < NCLASS && RunsOk(mem, heads, g, t) && OnlyRun(mem, mem', g, g', t, t', r, c)
    requires RunAt(t', r) <==> r in g'.free
    requires r in g'.free ==> t'[r].cls == c && RunOk(mem', r, c, g'.free[r], g'.used[r])
    ensures forall x {:trigger RunAt(t', x)} {:trigger x in g'.free} :: RunAt(t', x) <==> x in g'.free
    ensures forall x :: x in g'.free ==> t'[x].cls < NCLASS && RunOk(mem', x, t'[x].cls, g'.free[x], g'.used[x])
  {
    forall x ensures RunAt(t', x) <==> x in g'.free {
      assert RunAt(t, x) <==> x in g.free;
    }
    forall x | x in g'.free ensures t'[x].cls < NCLASS && RunOk(mem', x, t'[x].cls, g'.free[x], g'.used[x]) {
      if x != r {
        OtherRun(mem, mem', heads, g, g', t, t', r, c, x);
      }
    }
  }

  lemma OtherRun(mem: Mem, mem': Mem, heads: seq<nat>, g: Runs, g': Runs, t: Tiles, t': Tiles, r: nat, c: nat, x: nat)
    requires c < NCLASS && RunsOk(mem, heads, g, t) && OnlyRun(mem, mem', g, g', t, t', r, c)
    requires x in g'.free && x != r
    ensures x in t' && t'[x].Run? && t'[x].cls < NCLASS && RunOk(mem', x, t'[x].cls, g'.free[x], g'.used[x])
  {
    assert x in g.free && RunAt(t, x) && RunAt(t', x) && RunOk(mem, x, t[x].cls, g.free[x], g.used[x]);
    RunFrame(mem, mem', x, t[x].cls, g.free[x], g.used[x]);
  }

  lemma OtherClass(mem: Mem, mem': Mem, head: nat, g: Runs, g': Runs, t: Tiles, t': Tiles, r: nat, c: nat, d: nat)
    requires |g.lists| == NCLASS && d < NCLASS && d != c && OnlyRun(mem, mem', g, g', t, t', r, c)
    requires forall x {:trigger RunAt(t, x)} :: RunAt(t, x) <==> x in g.free
    requires g.used.Keys == g.free.Keys
    requires RunAt(t', r) ==> t'[r].cls == c
    requires ClassList(mem, head, g.lists[d], d, g, t)
    ensures ClassList(mem', head, g.lists[d], d, g', t')
  {
    var l := g.lists[d];
    forall x | x in l ensures HasRoom(t', g', x, d) && Rd(mem', x) == Rd(mem, x) {
      assert HasRoom(t, g, x, d) && RunAt(t, x) && x != r;
    }
    ChainFrame(mem, mem', head, l);
    forall x | HasRoom(t', g', x, d) ensures x in l {
      assert x != r && RunAt(t', x) && RunAt(t, x) && HasRoom(t, g, x, d);
    }
  }

  // ---- slot arithmetic

  lemma MultiplesApart(x: nat, y: nat, m: nat)
    requires 0 < m && x % m == 0 && y % m == 0 && x < y
    ensures x + m <= y
  {
    assert x == m * (x / m) && y == m * (y / m);
    assert x / m < y / m;
    assert m * (x / m) + m == m * (x / m + 1) <= m * (y / m) by {
      MulMono(m, x / m + 1, y / m);
    }
  }

  lemma MulMono(m: nat, a: nat, b: nat)
    requires a <= b
    ensures m * a <= m * b
  {
  }

  /** Slots of one run do not overlap, and each lies inside the page behind the
      run's header. */
  lemma SlotsApart(c: nat, r: nat, p: nat, q: nat)
    requires c < NCLASS && IsSlot(c, r, p) && IsSlot(c, r, q) && p < q
    ensures p + ClassSize(c) <= q
  {
    MultiplesApart(r + PGSIZE - q, r + PGSIZE - p, ClassSize(c));
  }

  lemma SlotInPage(c: nat, r: nat, p: nat)
    requires c < NCLASS && IsSlot(c, r, p)
    ensures r + MRUNHDR <= p && p + ClassSize(c) <= r + PGSIZE
  {
    MultiplesApart(0, r + PGSIZE - p, ClassSize(c));
  }

  // ---- taking a slot and giving one back

  lemma RunsApart(t: Tiles, top: nat, r: nat, x: nat)
    requires Tiled(t, top) && RunAt(t, r) && x in t && x != r
    ensures r + PGSIZE <= x || End(t, x) <= r
  {
    assert Before(t, r, x) && Before(t, x, r);
  }

  function PopMem(mem: Mem, r: nat): Mem {
    mem[r + 8 := Rd(mem, Rd(mem, r + 8))][r + 18 := Rd(mem, r + 18) + 1]
  }

  function PopRuns(g: Runs, r: nat, c: nat): Runs
    requires r in g.free && r in g.used && g.free[r] != [] && |g.lists| == NCLASS && c < NCLASS && g.lists[c] != []
  {
    Runs(if |g.free[r]| == 1 then g.lists[c := g.lists[c][1..]] else g.lists,
         g.free[r := g.free[r][1..]], g.used[r := g.used[r] + {g.free[r][0]}])
  }

  lemma PopRunOk(mem: Mem, r: nat, c: nat, fs: seq<nat>, us: set<nat>)
    requires c < NCLASS && RunOk(mem, r, c, fs, us) && fs != []
    ensures RunOk(PopMem(mem, r), r, c, fs[1..], us + {fs[0]})
    ensures Rd(PopMem(mem, r), r + 8) == 0 <==> |fs| == 1
  {
    assert fs[0] in fs && forall x :: x in fs[1..] ==> x in fs;
    ChainFrame(mem, PopMem(mem, r), Rd(mem, fs[0]), fs[1..]);
  }

  lemma PopClass(mem: Mem, heads: seq<nat>, g: Runs, t: Tiles, top: nat, c: nat)
    requires c < NCLASS && RunsOk(mem, heads, g, t) && Tiled(t, top) && heads[c] != 0
    ensures var r := heads[c];
            && g.lists[c] != [] && g.lists[c][0] == r && HasRoom(t, g, r, c) && r in g.used
            && var g' := PopRuns(g, r, c);
               ClassList(PopMem(mem, r), if |g.free[r]| == 1 then Rd(mem, r) else r, g'.lists[c], c, g', t)
  {
    var r := heads[c];
    var l := g.lists[c];
    assert ClassList(mem, r, l, c, g, t);
    assert l[0] in l && HasRoom(t, g, r, c);
    var g' := PopRuns(g, r, c);
    var l' := g'.lists[c];
    forall x | x in l ensures Rd(PopMem(mem, r), x) == Rd(mem, x) && (x != r ==> HasRoom(t, g', x, c)) {
      assert HasRoom(t, g, x, c);
      if x != r { RunsApart(t, top, r, x); }
    }
    ChainFrame(mem, PopMem(mem, r), r, l);
    forall x | HasRoom(t, g', x, c) ensures x in l' {
      assert x != r ==> HasRoom(t, g, x, c);
    }
  }

  lemma PageOnly(mem: Mem, mem': Mem, t: Tiles, top: nat, r: nat)
    requires Tiled(t, top) && RunAt(t, r)
    requires forall a: nat :: a < r || r + PGSIZE <= a ==> Rd(mem', a) == Rd(mem, a)
    ensures forall x: nat, a: nat :: RunAt(t, x) && x != r && x <= a < x + PGSIZE ==> Rd(mem', a) == Rd(mem, a)
  {
    forall x: nat, a: nat | RunAt(t, x) && x != r && x <= a < x + PGSIZE ensures Rd(mem', a) == Rd(mem, a) {
      RunsApart(t, top, r, x);
    }
  }

  function PopHead(mem: Mem, g: Runs, r: nat): nat
    requires r in g.free
  {
    if |g.free[r]| == 1 then Rd(mem, r) else r
  }

  /** m__malloc's last step: a slot leaves its run's free list, and a run that has
      just run out of slots leaves its class list. */
  lemma PopSlot(mem: Mem, heads: seq<nat>, g: Runs, t: Tiles, top: nat, c: nat)
    requires c < NCLASS && RunsOk(mem, heads, g, t) && Tiled(t, top) && heads[c] != 0
    ensures var r := heads[c];
            && HasRoom(t, g, r, c) && r in g.used && g.lists[c] != []
            && RunsOk(PopMem(mem, r), heads[c := PopHead(mem, g, r)], PopRuns(g, r, c), t)
  {
    PopClass(mem, heads, g, t, top, c);
    var r := heads[c];
    var m', g' := PopMem(mem, r), PopRuns(g, r, c);
    PopRunOk(mem, r, c, g.free[r], g.used[r]);
    assert OnlyRun(mem, m', g, g', t, t, r, c) by {
      PageOnly(mem, m', t, top, r);
    }
    OnlyRunOk(mem, m', heads, PopHead(mem, g, r), g, g', t, t, r, c);
  }

  function PushMem(mem: Mem, heads: seq<nat>, r: nat, c: nat, p: nat): Mem
    requires |heads| == NCLASS && c < NCLASS
  {
    var m := if Rd(mem, r + 8) == 0 then mem[r := heads[c]] else mem;
    m[p := Rd(mem, r + 8)][r + 8 := p][r + 18 := if Rd(mem, r + 18) == 0 then 0 else Rd(mem, r + 18) - 1]
  }

  function PushRuns(g: Runs, r: nat, c: nat, p: nat): Runs
    requires r in g.free && r in g.used && |g.lists| == NCLASS && c < NCLASS
  {
    Runs(if g.free[r] == [] then g.lists[c := [r] + g.lists[c]] else g.lists,
         g.free[r := [p] + g.free[r]], g.used[r := g.used[r] - {p}])
  }

  lemma PushRunOk(mem: Mem, heads: seq<nat>, r: nat, c: nat, fs: seq<nat>, us: set<nat>, p: nat)
    requires |heads| == NCLASS && c < NCLASS && RunOk(mem, r, c, fs, us) && p in us
    ensures RunOk(PushMem(mem, heads, r, c, p), r, c, [p] + fs, us - {p})
    ensures Rd(mem, r + 8) == 0 <==> fs == []
    ensures |us| > 0
  {
    var m' := PushMem(mem, heads, r, c, p);
    assert IsSlot(c, r, p);
    assert ([p] + fs)[1..] == fs;
    ChainFrame(mem, m', Rd(mem, r + 8), fs);
  }

  lemma PushClass(mem: Mem, heads: seq<nat>, g: Runs, t: Tiles, top: nat, r: nat, c: nat, p: nat)
    requires c < NCLASS && RunsOk(mem, heads, g, t) && Tiled(t, top)
    requires r in g.free && r in t && t[r].Run? && t[r].cls == c && p in g.used[r]
    ensures var g' := PushRuns(g, r, c, p);
            ClassList(PushMem(mem, heads, r, c, p), if g.free[r] == [] then r else heads[c], g'.lists[c], c, g', t)
  {
    var l := g.lists[c];
    assert ClassList(mem, heads[c], l, c, g, t);
    assert RunOk(mem, r, c, g.free[r], g.used[r]) && IsSlot(c, r, p);
    var g' := PushRuns(g, r, c, p);
    var l' := g'.lists[c];
    var m' := PushMem(mem, heads, r, c, p);
    forall x | x in l ensures Rd(m', x) == Rd(mem, x) && HasRoom(t, g', x, c) {
      assert HasRoom(t, g, x, c);
      if x != r { RunsApart(t, top, r, x); }
    }
    ChainFrame(mem, m', heads[c], l);
    assert ([r] + l)[1..] == l;
    assert r in l ==> HasRoom(t, g, r, c);
    forall x | HasRoom(t, g', x, c) ensures x in l' {
      assert x != r ==> HasRoom(t, g, x, c);
      assert g.free[r] != [] ==> HasRoom(t, g, r, c);
    }
  }

  function PushHead(heads: seq<nat>, g: Runs, r: nat, c: nat): nat
    requires r in g.free && |heads| == NCLASS && c < NCLASS
  {
    if g.free[r] == [] then r else heads[c]
  }

  /** m__free's first step on a run: the slot goes back to the run, and a run that
      was full goes back to its class list. */
  lemma PushSlot(mem: Mem, heads: seq<nat>, g: Runs, t: Tiles, top: nat, r: nat, c: nat, p: nat)
    requires c < NCLASS && RunsOk(mem, heads, g, t) && Tiled(t, top)
    requires r in g.free && r in t && t[r].Run? && t[r].cls == c && p in g.used[r]
    ensures RunsOk(PushMem(mem, heads, r, c, p), heads[c := PushHead(heads, g, r, c)], PushRuns(g, r, c, p), t)
  {
    var m', g' := PushMem(mem, heads, r, c, p), PushRuns(g, r, c, p);
    assert RunOk(mem, r, c, g.free[r], g.used[r]) && IsSlot(c, r, p) && RunAt(t, r);
    PushRunOk(mem, heads, r, c, g.free[r], g.used[r], p);
    PushClass(mem, heads, g, t, top, r, c, p);
    assert OnlyRun(mem, m', g, g', t, t, r, c) by {
      PageOnly(mem, m', t, top, r);
    }
    OnlyRunOk(mem, m', heads, PushHead(heads, g, r, c), g, g', t, t, r, c);
  }

  // ---- a run given up, and a new one

  function DropRuns(g: Runs, r: nat, c: nat, l: seq<nat>): Runs
    requires |g.lists| == NCLASS && c < NCLASS
  {
    Runs(g.lists[c := l], g.free - {r}, g.used - {r})
  }

  /** The empty run has been cut out of its class list; its page is no longer a run. */
  lemma DropRun(mem: Mem, mem': Mem, heads: seq<nat>, h: nat, g: Runs, t: Tiles, top: nat, r: nat, c: nat,
                done: seq<nat>, rest: seq<nat>)
    requires c < NCLASS && RunsOk(mem, heads, g, t) && Tiled(t, top) && RunAt(t, r) && t[r].cls == c
    requires g.lists[c] == done + rest && rest != [] && rest[0] == r
    requires if done == [] then mem' == mem && h == Rd(mem, r)
             else mem' == mem[done[|done| - 1] := Rd(mem, r)] && h == heads[c]
    ensures RunsOk(mem', heads[c := h], DropRuns(g, r, c, done + rest[1..]), t[r := Held(PGSIZE)])
  {
    var l, l' := g.lists[c], done + rest[1..];
    var g', t' := DropRuns(g, r, c, l'), t[r := Held(PGSIZE)];
    assert ClassList(mem, heads[c], l, c, g, t);
    ChainCut(mem, heads[c], done, rest);
    CutDistinct(done, rest);
    assert done == [] ==> l' == rest[1..];
    forall x | x in l' ensures HasRoom(t', g', x, c) {
      assert x in l && x != r && HasRoom(t, g, x, c);
    }
    forall x | HasRoom(t', g', x, c) ensures x in l' {
      assert HasRoom(t, g, x, c) && x in l;
    }
    if done != [] {
      assert done[|done| - 1] in l;
      DropCells(mem, mem', heads, g, t, top, r, c, done[|done| - 1]);
    }
    assert OnlyShape(g, g', t, t', r, c);
    OnlyRunOk(mem, mem', heads, h, g, g', t, t', r, c);
  }

  lemma DropCells(mem: Mem, mem': Mem, heads: seq<nat>, g: Runs, t: Tiles, top: nat, r: nat, c: nat, w: nat)
    requires c < NCLASS && RunsOk(mem, heads, g, t) && Tiled(t, top)
    requires w in g.lists[c] && mem' == mem[w := Rd(mem, r)]
    ensures OnlyCells(mem, mem', t, r, c)
  {
    assert ClassList(mem, heads[c], g.lists[c], c, g, t);
    assert HasRoom(t, g, w, c) && RunAt(t, w);
    forall x: nat | RunAt(t, x) && x != w ensures w < x || x + PGSIZE <= w {
      RunsApart(t, top, x, w);
    }
  }

  function AddRuns(g: Runs, r: nat, c: nat, fs: seq<nat>): Runs
    requires |g.lists| == NCLASS && c < NCLASS
  {
    Runs(g.lists[c := [r] + g.lists[c]], g.free[r := fs], g.used[r := {}])
  }

  /** A page taken from the pool becomes a run at the head of its class list. */
  lemma AddRun(mem: Mem, mem': Mem, heads: seq<nat>, g: Runs, t: Tiles, top: nat, r: nat, c: nat, fs: seq<nat>)
    requires c < NCLASS && RunsOk(mem, heads, g, t) && Tiled(t, top) && r in t && t[r] == Held(PGSIZE)
    requires forall a: nat :: a < r || r + PGSIZE <= a ==> Rd(mem', a) == Rd(mem, a)
    requires Rd(mem', r) == heads[c] && RunOk(mem', r, c, fs, {}) && fs != []
    ensures RunsOk(mem', heads[c := r], AddRuns(g, r, c, fs), t[r := Run(c)])
  {
    var t', g' := t[r := Run(c)], AddRuns(g, r, c, fs);
    var l := g.lists[c];
    assert !RunAt(t, r);
    forall x: nat | RunAt(t, x) ensures r + PGSIZE <= x || x + PGSIZE <= r {
      RunsApart(t, top, x, r);
    }
    assert ClassList(mem, heads[c], l, c, g, t);
    forall x | x in l ensures HasRoom(t', g', x, c) && Rd(mem', x) == Rd(mem, x) && x != r {
      assert HasRoom(t, g, x, c) && RunAt(t, x);
    }
    ChainFrame(mem, mem', heads[c], l);
    assert ([r] + l)[1..] == l;
    forall x | HasRoom(t', g', x, c) ensures x in [r] + l {
      assert x != r ==> HasRoom(t, g, x, c);
    }
    assert ClassList(mem', r, [r] + l, c, g', t');
    OnlyRunOk(mem, mem', heads, r, g, g', t, t', r, c);
  }

  // ---- the page map

  function PageNo(x: nat): nat
    requires UHEAP_BASE <= x
  {
    (x - UHEAP_BASE) / PGSIZE
  }

  function PageAt(i: nat): nat {
    UHEAP_BASE + i * PGSIZE
  }

  function Mark(t: Tiles, page: nat): nat {
    if page in t && t[page].Run? then t[page].cls + 1 else 0
  }

  /** One byte a page: the class of the run that lives there plus one, or zero. The
      map itself is an ordinary large block. */
  ghost predicate DirOk(mem: Mem, dir: nat, dirlen: nat, t: Tiles) {
    && (dirlen == 0 ==> dir == 0)
    && (dirlen > 0 ==> MHDR <= dir && dir - MHDR in t && t[dir - MHDR].Big? && dirlen + MHDR <= t[dir - MHDR].size)
    && (forall i: nat {:trigger PageAt(i)} :: i < dirlen ==> Rd(mem, dir + i) == Mark(t, PageAt(i)))
    && (forall r {:trigger RunAt(t, r)} :: RunAt(t, r) ==> UHEAP_BASE <= r && PageNo(r) < dirlen)
  }

  /** The test at the top of m__free: it holds of exactly the pointers into runs. */
  predicate InRun(mem: Mem, dir: nat, dirlen: nat, p: nat)
    requires UHEAP_BASE <= p
  {
    PageNo(p) < dirlen && Rd(mem, dir + PageNo(p)) != 0
  }

  lemma Classify(mem: Mem, dir: nat, dirlen: nat, t: Tiles, p: nat)
    requires DirOk(mem, dir, dirlen, t) && UHEAP_BASE <= p
    ensures InRun(mem, dir, dirlen, p) <==> RunAt(t, PgDown(p))
    ensures InRun(mem, dir, dirlen, p) ==> Rd(mem, dir + PageNo(p)) == t[PgDown(p)].cls + 1
  {
    assert PageAt(PageNo(p)) == PgDown(p);
    assert RunAt(t, PgDown(p)) ==> PageNo(PgDown(p)) == PageNo(p);
  }

  lemma DirFrame(mem: Mem, mem': Mem, dir: nat, dirlen: nat, t: Tiles, t': Tiles)
    requires DirOk(mem, dir, dirlen, t)
    requires forall r {:trigger RunAt(t', r)} {:trigger RunAt(t, r)} :: RunAt(t', r) <==> RunAt(t, r)
    requires forall r {:trigger RunAt(t, r)} :: RunAt(t, r) ==> RunAt(t', r) && t'[r] == t[r]
    requires dirlen > 0 ==> dir - MHDR in t' && t'[dir - MHDR] == t[dir - MHDR]
    requires forall a: nat :: dir <= a < dir + dirlen ==> Rd(mem', a) == Rd(mem, a)
    ensures DirOk(mem', dir, dirlen, t')
  {
    forall i: nat | i < dirlen ensures Rd(mem', dir + i) == Mark(t', PageAt(i)) {
      assert Rd(mem, dir + i) == Mark(t, PageAt(i)) && Rd(mem', dir + i) == Rd(mem, dir + i);
      assert RunAt(t, PageAt(i)) <==> RunAt(t', PageAt(i));
    }
    forall r | RunAt(t', r) ensures UHEAP_BASE <= r && PageNo(r) < dirlen {
      assert RunAt(t, r);
    }
  }

  // ---- everything that is not the free list

  ghost predicate BigHeader(mem: Mem, t: Tiles, s: nat)
    requires s in t && t[s].Big?
  {
    Rd(mem, s) == t[s].size
  }

  ghost predicate BigOk(mem: Mem, t: Tiles) {
    forall s {:trigger BigHeader(mem, t, s)} :: s in t && t[s].Big? ==> BigHeader(mem, t, s)
  }

  ghost predicate Rest(mem: Mem, heads: seq<nat>, g: Runs, dir: nat, dirlen: nat, t: Tiles) {
    RunsOk(mem, heads, g, t) && BigOk(mem, t) && DirOk(mem, dir, dirlen, t)
  }

  /** At b there is at most a region in transit or a freshly headed large block. */
  ghost predicate Transit(t: Tiles, b: nat) {
    !Taken(t, b).Run? && !Taken(t, b).Big?
  }

  ghost predicate Claimed(mem: Mem, t: Tiles, b: nat) {
    !Taken(t, b).Run? && (Taken(t, b).Big? ==> Rd(mem, b) == Taken(t, b).size)
  }

  lemma RunsTaken(mem: Mem, mem': Mem, t: Tiles, t': Tiles, b: nat)
    requires Kept(mem, mem', t, b) && SameTaken(t, t', b) && !Taken(t, b).Run? && !Taken(t', b).Run?
    ensures RunsKept(mem, mem', t, t')
  {
    forall r ensures RunAt(t', r) <==> RunAt(t, r) {
      assert r != b ==> Taken(t', r) == Taken(t, r);
    }
    forall r | RunAt(t, r) ensures RunAt(t', r) && t'[r] == t[r] {
      assert r != b && Taken(t', r) == Taken(t, r);
    }
    forall r: nat, a: nat | RunAt(t, r) && r <= a < r + PGSIZE ensures Rd(mem', a) == Rd(mem, a) {
      assert r != b && Taken(t, r) == t[r];
    }
  }

  lemma BigTaken(mem: Mem, mem': Mem, t: Tiles, top: nat, t': Tiles, b: nat)
    requires Kept(mem, mem', t, b) && SameTaken(t, t', b) && Claimed(mem', t', b) && BigOk(mem, t) && Tiled(t, top)
    ensures BigOk(mem', t')
  {
    forall s | s in t' && t'[s].Big? ensures BigHeader(mem', t', s) {
      if s != b {
        assert Taken(t', s) == Taken(t, s) && Before(t, s, s) && BigHeader(mem, t, s);
      }
    }
  }

  lemma DirTaken(mem: Mem, mem': Mem, dir: nat, dirlen: nat, t: Tiles, t': Tiles, b: nat)
    requires DirOk(mem, dir, dirlen, t) && RunsKept(mem, mem', t, t')
    requires Kept(mem, mem', t, b) && SameTaken(t, t', b) && (0 < dirlen ==> b != dir - MHDR)
    ensures DirOk(mem', dir, dirlen, t')
  {
    if dirlen > 0 {
      var d := dir - MHDR;
      assert Taken(t', d) == Taken(t, d) && Taken(t, d) == t[d];
      assert dir + dirlen <= End(t, d);
    }
    DirFrame(mem, mem', dir, dirlen, t, t');
  }

  /** Work on the free list, on a region in transit, or on a new large block
      disturbs nothing else. */
  lemma RestFrame(mem: Mem, mem': Mem, heads: seq<nat>, g: Runs, dir: nat, dirlen: nat, t: Tiles, top: nat, t': Tiles,
      b: nat)
    requires Rest(mem, heads, g, dir, dirlen, t) && Tiled(t, top)
    requires Kept(mem, mem', t, b) && SameTaken(t, t', b) && Transit(t, b) && Claimed(mem', t', b)
    ensures Rest(mem', heads, g, dir, dirlen, t')
  {
    RunsTaken(mem, mem', t, t', b);
    RunsFrame(mem, mem', heads, g, t, t');
    BigTaken(mem, mem', t, top, t', b);
    DirTaken(mem, mem', dir, dirlen, t, t', b);
  }

  /** A large block other than the page map is about to be given back. */
  lemma RestDrop(mem: Mem, heads: seq<nat>, g: Runs, dir: nat, dirlen: nat, t: Tiles, b: nat)
    requires Rest(mem, heads, g, dir, dirlen, t) && b in t && t[b].Big? && (0 < dirlen ==> b != dir - MHDR)
    ensures Rest(mem, heads, g, dir, dirlen, t[b := Held(t[b].size)])
  {
    var t' := t[b := Held(t[b].size)];
    assert RunsKept(mem, mem, t, t');
    RunsFrame(mem, mem, heads, g, t, t');
    forall s | s in t' && t'[s].Big? ensures BigHeader(mem, t', s) {
      assert BigHeader(mem, t, s);
    }
    DirFrame(mem, mem, dir, dirlen, t, t');
  }

  /** Writing inside the page of a run leaves large blocks and the page map alone. */
  lemma RestPage(mem: Mem, mem': Mem, dir: nat, dirlen: nat, t: Tiles, top: nat, r: nat)
    requires Tiled(t, top) && RunAt(t, r) && BigOk(mem, t) && DirOk(mem, dir, dirlen, t) && Kept(mem, mem', t, r)
    ensures BigOk(mem', t) && DirOk(mem', dir, dirlen, t)
  {
    forall s | s in t && t[s].Big? ensures BigHeader(mem', t, s) {
      assert Taken(t, s) == t[s] && Before(t, s, s) && BigHeader(mem, t, s);
    }
    if dirlen > 0 {
      var d := dir - MHDR;
      assert Taken(t, d) == t[d] && d != r;
      assert dir + dirlen <= End(t, d);
    }
    DirFrame(mem, mem', dir, dirlen, t, t);
  }

  /** The page of an emptied run loses its mark and its class. */
  lemma RestUnmark(mem: Mem, dir: nat, dirlen: nat, t: Tiles, top: nat, r: nat)
    requires Tiled(t, top) && RunAt(t, r) && r % PGSIZE == 0 && BigOk(mem, t) && DirOk(mem, dir, dirlen, t)
    ensures var m', t' := mem[dir + PageNo(r) := 0], t[r := Held(PGSIZE)];
            BigOk(m', t') && DirOk(m', dir, dirlen, t')
  {
    assert TileOk(r, t[r], top);
    MarkPage(mem, dir, dirlen, t, top, r, Held(PGSIZE));
  }

  lemma MarkPage(mem: Mem, dir: nat, dirlen: nat, t: Tiles, top: nat, r: nat, x: Tile)
    requires Tiled(t, top) && r in t && !t[r].Big? && !x.Big? && r % PGSIZE == 0 && FIRST <= r
    requires BigOk(mem, t) && DirOk(mem, dir, dirlen, t) && PageNo(r) < dirlen
    ensures var m' := mem[dir + PageNo(r) := if x.Run? then x.cls + 1 else 0];
            BigOk(m', t[r := x]) && DirOk(m', dir, dirlen, t[r := x])
  {
    var m' := mem[dir + PageNo(r) := if x.Run? then x.cls + 1 else 0];
    var t' := t[r := x];
    var d := dir - MHDR;
    forall s | s in t' && t'[s].Big? ensures BigHeader(m', t', s) {
      assert Before(t, s, d) && Before(t, d, s) && BigHeader(mem, t, s);
    }
    forall i: nat | i < dirlen ensures Rd(m', dir + i) == Mark(t', PageAt(i)) {
      assert Rd(mem, dir + i) == Mark(t, PageAt(i));
      assert PageAt(i) == r <==> i == PageNo(r);
    }
    forall s | RunAt(t', s) ensures UHEAP_BASE <= s && PageNo(s) < dirlen {
      assert s != r ==> RunAt(t, s);
    }
  }

  /** The new run's mark, its list and its slots, all at once. */
  lemma RestAddRun(mem: Mem, mem': Mem, heads: seq<nat>, g: Runs, dir: nat, dirlen: nat, t: Tiles, top: nat,
                   r: nat, c: nat, fs: seq<nat>)
    requires Rest(mem, heads, g, dir, dirlen, t) && Tiled(t, top) && c < NCLASS
    requires r in t && t[r] == Held(PGSIZE) && r % PGSIZE == 0 && FIRST <= r && PageNo(r) < dirlen
    requires forall a: nat :: a < r || r + PGSIZE <= a ==> Rd(mem', a) == Rd(mem[dir + PageNo(r) := c + 1], a)
    requires Rd(mem', r) == heads[c] && RunOk(mem', r, c, fs, {}) && fs != []
    ensures Rest(mem', heads[c := r], AddRuns(g, r, c, fs), dir, dirlen, t[r := Run(c)])
  {
    var m1, t' := mem[dir + PageNo(r) := c + 1], t[r := Run(c)];
    MarkKeepsRuns(mem, m1, dir, dirlen, t, top, r);
    RunsFrame(mem, m1, heads, g, t, t);
    AddRun(m1, mem', heads, g, t, top, r, c, fs);
    MarkPage(mem, dir, dirlen, t, top, r, Run(c));
    RelabelTiled(t, top, r, Run(c));
    assert RunAt(t', r);
    assert Kept(m1, mem', t', r) by {
      forall s, a | s in t' && !t'[s].Free? && s != r && s <= a < End(t', s) ensures Rd(mem', a) == Rd(m1, a) {
        assert Before(t', s, r) && Before(t', r, s);
      }
    }
    RestPage(m1, mem', dir, dirlen, t', top, r);
  }

  lemma MarkKeepsRuns(mem: Mem, m1: Mem, dir: nat, dirlen: nat, t: Tiles, top: nat, r: nat)
    requires DirOk(mem, dir, dirlen, t) && Tiled(t, top) && FIRST <= r && PageNo(r) < dirlen
    requires forall a: nat :: a != dir + PageNo(r) ==> Rd(m1, a) == Rd(mem, a)
    ensures RunsKept(mem, m1, t, t)
  {
    var d := dir - MHDR;
    forall x: nat | RunAt(t, x) ensures End(t, d) <= x || x + PGSIZE <= d {
      RunsApart(t, top, x, d);
    }
  }

  // ---- objects

  /** p is the address of a live object of z bytes: a large block that is not the
      page map, or a slot in use. */
  ghost predicate IsObj(t: Tiles, g: Runs, dir: nat, p: nat, z: nat) {
    || (MHDR <= p && p != dir && Taken(t, p - MHDR).Big? && z == Taken(t, p - MHDR).size - MHDR)
    || (p != 0 && PgDown(p) in g.used && p in g.used[PgDown(p)] && Taken(t, PgDown(p)).Run?
        && Taken(t, PgDown(p)).cls < NCLASS && z == ClassSize(Taken(t, PgDown(p)).cls))
  }

  /** Live objects never overlap, whatever their kinds, and each starts on a
      sixteen-byte boundary inside the heap. */
  lemma ObjectsApart(mem: Mem, heads: seq<nat>, g: Runs, dir: nat, dirlen: nat, t: Tiles, top: nat,
                     p: nat, z: nat, q: nat, y: nat)
    requires Tiled(t, top) && Rest(mem, heads, g, dir, dirlen, t)
    requires IsObj(t, g, dir, p, z) && IsObj(t, g, dir, q, y) && p < q
    ensures p + z <= q
  {
    var a := Home(mem, heads, g, dir, dirlen, t, top, p, z);
    var b := Home(mem, heads, g, dir, dirlen, t, top, q, y);
    assert Before(t, a, b) && Before(t, b, a);
    if a == b && t[a].Run? {
      assert RunOk(mem, a, t[a].cls, g.free[a], g.used[a]);
      SlotsApart(t[a].cls, a, p, q);
    }
  }

  lemma ObjectAligned(mem: Mem, head: nat, heads: seq<nat>, g: Runs, dir: nat, dirlen: nat, t: Tiles, top: nat,
      p: nat, z: nat)
    requires Core(mem, head, t, top) && Rest(mem, heads, g, dir, dirlen, t) && IsObj(t, g, dir, p, z)
    ensures p % 16 == 0 && FIRST <= p && p + z <= top
  {
    var a := Home(mem, heads, g, dir, dirlen, t, top, p, z);
    assert AlignedTile(a, t[a]) && TileOk(a, t[a], top);
    if t[a].Run? {
      assert RunOk(mem, a, t[a].cls, g.free[a], g.used[a]);
      SlotAligned(t[a].cls, a, p);
    }
  }

  lemma SlotAligned(c: nat, r: nat, p: nat)
    requires c < NCLASS && IsSlot(c, r, p) && r % PGSIZE == 0
    ensures p % 16 == 0
  {
    Multiple16(r + PGSIZE - p, ClassSize(c));
  }

  lemma Multiple16(x: nat, sz: nat)
    requires 0 < sz && sz % 16 == 0 && x % sz == 0
    ensures x % 16 == 0
  {
    assert x == sz * (x / sz) && sz == 16 * (sz / 16);
    SixteenTimes(sz / 16, x / sz);
  }

  lemma SixteenTimes(k: nat, m: nat)
    ensures (16 * k) * m % 16 == 0
  {
    assert (16 * k) * m == 16 * (k * m);
  }

  /** The tile an object lives in. */
  lemma Home(mem: Mem, heads: seq<nat>, g: Runs, dir: nat, dirlen: nat, t: Tiles, top: nat, p: nat, z: nat)
      returns (s: nat)
    requires Tiled(t, top) && Rest(mem, heads, g, dir, dirlen, t) && IsObj(t, g, dir, p, z)
    ensures s in t && s + MHDR <= p && p + z <= End(t, s)
    ensures t[s].Big? ==> p == s + MHDR && p != dir
    ensures t[s].Run? ==> s in g.used && p in g.used[s] && z == ClassSize(t[s].cls)
    ensures t[s].Big? || t[s].Run?
  {
    if MHDR <= p && p != dir && Taken(t, p - MHDR).Big? && z == Taken(t, p - MHDR).size - MHDR {
      s := p - MHDR;
    } else {
      s := PgDown(p);
      assert s in g.free && RunOk(mem, s, t[s].cls, g.free[s], g.used[s]);
      SlotInPage(t[s].cls, s, p);
    }
  }

  // ---- what one step may do to the objects of others

  datatype Snap = Snap(mem: Mem, t: Tiles, g: Runs, dir: nat)

  ghost predicate Obj(s: Snap, p: nat, z: nat) {
    IsObj(s.t, s.g, s.dir, p, z)
  }

  /** Every object except those at addresses in qs exists after exactly if it did
      before, with the same size and the same contents. */
  ghost predicate Quiet(s: Snap, s': Snap, qs: set<nat>) {
    && (forall p: nat, z: nat {:trigger Obj(s', p, z)} {:trigger Obj(s, p, z)} ::
        p !in qs ==> (Obj(s', p, z) <==> Obj(s, p, z)))
    && (forall p: nat, z: nat, a: nat {:trigger Obj(s, p, z), Rd(s'.mem, a)} ::
          p !in qs && Obj(s, p, z) && p <= a < p + z ==> Rd(s'.mem, a) == Rd(s.mem, a))
  }

  lemma QuietTrans(s: Snap, s1: Snap, s2: Snap, qs: set<nat>, rs: set<nat>)
    requires Quiet(s, s1, qs) && Quiet(s1, s2, rs)
    ensures Quiet(s, s2, qs + rs)
  {
    forall p: nat, z: nat | p !in qs + rs ensures Obj(s2, p, z) <==> Obj(s, p, z) {
      assert Obj(s1, p, z) <==> Obj(s, p, z);
    }
    forall p: nat, z: nat, x: nat | p !in qs + rs && Obj(s, p, z) && p <= x < p + z
        ensures Rd(s2.mem, x) == Rd(s.mem, x) {
      assert Obj(s1, p, z);
      assert Rd(s1.mem, x) == Rd(s.mem, x);
    }
  }

  lemma QuietTrans0(s: Snap, s1: Snap, s2: Snap)
    requires Quiet(s, s1, {}) && Quiet(s1, s2, {})
    ensures Quiet(s, s2, {})
  {
    var none: set<nat> := {};
    QuietTrans(s, s1, s2, none, none);
    assert none + none == none;
  }

  lemma QuietWiden(s: Snap, s': Snap, qs: set<nat>, rs: set<nat>)
    requires Quiet(s, s', qs) && qs <= rs
    ensures Quiet(s, s', rs)
  {
  }

  function Byte(m: Mem, p: nat, i: nat): nat {
    Rd(m, p + i)
  }

  /** The n cells from q on in m' hold what those from p on hold in m. */
  ghost predicate SameBytes(m': Mem, q: nat, m: Mem, p: nat, n: nat) {
    forall i: nat {:trigger Byte(m', q, i)} {:trigger Byte(m, p, i)} :: i < n ==> Byte(m', q, i) == Byte(m, p, i)
  }

  lemma SameBytesTrans(m0: Mem, p: nat, m1: Mem, q: nat, m2: Mem, r: nat, n: nat, k: nat)
    requires SameBytes(m1, q, m0, p, n) && SameBytes(m2, r, m1, q, k) && n <= k
    ensures SameBytes(m2, r, m0, p, n)
  {
    forall i: nat | i < n ensures Byte(m2, r, i) == Byte(m0, p, i) {
      assert Byte(m1, q, i) == Byte(m0, p, i);
    }
  }

  lemma QuietAt(s: Snap, s': Snap, qs: set<nat>, p: nat, z: nat)
    requires Quiet(s, s', qs) && p !in qs && Obj(s, p, z)
    ensures Obj(s', p, z) && SameBytes(s'.mem, p, s.mem, p, z)
  {
    forall i: nat | i < z ensures Byte(s'.mem, p, i) == Byte(s.mem, p, i) {
    }
  }

  lemma TwoObjects(s: Snap, head: nat, heads: seq<nat>, dirlen: nat, top: nat, p: nat, z: nat, q: nat, y: nat)
    requires Core(s.mem, head, s.t, top) && Rest(s.mem, heads, s.g, s.dir, dirlen, s.t)
    requires Obj(s, p, z) && Obj(s, q, y) && p != q
    ensures p + z <= q || q + y <= p
  {
    if p < q {
      ObjectsApart(s.mem, heads, s.g, s.dir, dirlen, s.t, top, p, z, q, y);
    } else {
      ObjectsApart(s.mem, heads, s.g, s.dir, dirlen, s.t, top, q, y, p, z);
    }
  }

  lemma QuietSelf(s: Snap)
    ensures Quiet(s, s, {}) && Quiet(s, s, {0})
  {
  }

  lemma QuietNot(s: Snap, s': Snap, p: nat)
    requires Quiet(s, s', {}) && forall z: nat :: !Obj(s', p, z)
    ensures forall z: nat :: !Obj(s, p, z)
  {
    forall z: nat ensures !Obj(s, p, z) {
      assert !Obj(s', p, z);
    }
  }

  lemma QuietShrink(s: Snap, s': Snap, qs: set<nat>)
    requires Quiet(s, s', qs)
    requires forall q: nat, z: nat :: q in qs ==> !Obj(s, q, z) && !Obj(s', q, z)
    ensures Quiet(s, s', {})
  {
    forall p: nat, z: nat ensures Obj(s', p, z) <==> Obj(s, p, z) {
      assert p in qs || p !in qs;
    }
  }

  /** Work on the free list, on a region in transit, or on one new large block. */
  lemma QuietTaken(s: Snap, s': Snap, heads: seq<nat>, dirlen: nat, top: nat, b: nat)
    requires Tiled(s.t, top) && Rest(s.mem, heads, s.g, s.dir, dirlen, s.t) && s'.g == s.g && s'.dir == s.dir
    requires Kept(s.mem, s'.mem, s.t, b) && SameTaken(s.t, s'.t, b) && Transit(s.t, b) && !Taken(s'.t, b).Run?
    ensures Quiet(s, s', if Transit(s'.t, b) then {} else {b + MHDR})
  {
    var qs := if Transit(s'.t, b) then {} else {b + MHDR};
    forall p: nat, z: nat | p !in qs ensures Obj(s', p, z) <==> Obj(s, p, z) {
      assert PgDown(p) != b ==> Taken(s'.t, PgDown(p)) == Taken(s.t, PgDown(p));
      assert MHDR <= p && p - MHDR != b ==> Taken(s'.t, p - MHDR) == Taken(s.t, p - MHDR);
    }
    forall p: nat, z: nat, x: nat | p !in qs && Obj(s, p, z) && p <= x < p + z ensures Rd(s'.mem, x) == Rd(s.mem, x) {
      var h := Home(s.mem, heads, s.g, s.dir, dirlen, s.t, top, p, z);
      assert Taken(s.t, h) == s.t[h] && h != b;
    }
  }

  /** The large block behind q is about to be given back. */
  lemma QuietDrop(s: Snap, s': Snap, q: nat)
    requires MHDR <= q && q - MHDR in s.t && s.t[q - MHDR].Big?
    requires s' == s.(t := s.t[q - MHDR := Held(s.t[q - MHDR].size)])
    ensures Quiet(s, s', {q})
  {
  }

  /** The address behind a large block's header is no slot. */
  lemma BigNotSlot(mem: Mem, heads: seq<nat>, g: Runs, t: Tiles, top: nat, b: nat)
    requires Tiled(t, top) && RunsOk(mem, heads, g, t) && b in t && t[b].Big?
    ensures PgDown(b + MHDR) in g.used ==> b + MHDR !in g.used[PgDown(b + MHDR)]
  {
    var r := PgDown(b + MHDR);
    assert r in g.used ==> RunAt(t, r) && RunOk(mem, r, t[r].cls, g.free[r], g.used[r]);
    assert r in t ==> Before(t, r, b) && Before(t, b, r) && TileOk(b, t[b], top);
  }

  // ---- the page map moves to a larger block

  /** What the new map holds for page i: the old byte, or zero past its end. */
  function MapByte(mem: Mem, dir: nat, dirlen: nat, i: nat): nat {
    if i < dirlen then Rd(mem, dir + i) else 0
  }

  lemma DirMoved(mem: Mem, mem': Mem, heads: seq<nat>, g: Runs, dir: nat, dirlen: nat, t: Tiles, top: nat, d: nat,
      len: nat)
    requires Rest(mem, heads, g, dir, dirlen, t) && Tiled(t, top) && dirlen <= len && 0 < len
    requires MHDR <= d && d - MHDR in t && t[d - MHDR].Big? && len + MHDR <= t[d - MHDR].size
    requires forall a: nat :: a < d || d + len <= a ==> Rd(mem', a) == Rd(mem, a)
    requires forall a: nat :: d <= a < d + len ==> Rd(mem', a) == MapByte(mem, dir, dirlen, a - d)
    ensures Rest(mem', heads, g, d, len, t)
  {
    var b := d - MHDR;
    assert Kept(mem, mem', t, b) by {
      forall s, a | s in t && !t[s].Free? && s != b && s <= a < End(t, s) ensures Rd(mem', a) == Rd(mem, a) {
        assert Before(t, s, b) && Before(t, b, s);
      }
    }
    assert Taken(t, b) == t[b] && BigHeader(mem, t, b);
    RunsTaken(mem, mem', t, t, b);
    RunsFrame(mem, mem', heads, g, t, t);
    BigTaken(mem, mem', t, top, t, b);
    forall i: nat | i < len ensures Rd(mem', d + i) == Mark(t, PageAt(i)) {
      assert Rd(mem', d + i) == MapByte(mem, dir, dirlen, i);
      assert i < dirlen ==> Rd(mem, dir + i) == Mark(t, PageAt(i));
      assert RunAt(t, PageAt(i)) ==> PageNo(PageAt(i)) == i;
    }
    forall r | RunAt(t, r) ensures UHEAP_BASE <= r && PageNo(r) < len {
    }
  }

  /** The old map and the new one are the only blocks whose status changes. */
  lemma QuietMove(s: Snap, s': Snap, heads: seq<nat>, dirlen: nat, top: nat, d: nat)
    requires Tiled(s.t, top) && Rest(s.mem, heads, s.g, s.dir, dirlen, s.t) && s'.t == s.t && s'.g == s.g && s'.dir == d
    requires MHDR <= d && d - MHDR in s.t && s.t[d - MHDR].Big?
    requires forall a: nat :: a < d || End(s.t, d - MHDR) <= a ==> Rd(s'.mem, a) == Rd(s.mem, a)
    ensures Quiet(s, s', {d, s.dir})
  {
    var b := d - MHDR;
    forall p: nat, z: nat, x: nat | p !in {d, s.dir} && Obj(s, p, z) && p <= x < p + z
        ensures Rd(s'.mem, x) == Rd(s.mem, x) {
      var h := Home(s.mem, heads, s.g, s.dir, dirlen, s.t, top, p, z);
      assert Before(s.t, h, b) && Before(s.t, b, h);
    }
  }

  /** Releasing the large block at b, behind which q points, in one step. */
  lemma Released(s: Snap, s': Snap, heads: seq<nat>, dirlen: nat, top: nat, b: nat, q: nat)
    requires Tiled(s.t, top) && Rest(s.mem, heads, s.g, s.dir, dirlen, s.t) && (0 < dirlen ==> b != s.dir - MHDR)
    requires b in s.t && s.t[b].Big? && s'.g == s.g && s'.dir == s.dir && q == b + MHDR
    requires Kept(s.mem, s'.mem, s.t, b) && SameTaken(s.t, s'.t, b) && Taken(s'.t, b) == Free(0)
    ensures Rest(s'.mem, heads, s'.g, s'.dir, dirlen, s'.t)
    ensures Quiet(s, s', {q}) && forall z: nat :: !Obj(s', q, z)
  {
    var t1 := s.t[b := Held(s.t[b].size)];
    var s1 := s.(t := t1);
    RestDrop(s.mem, heads, s.g, s.dir, dirlen, s.t, b);
    RelabelTiled(s.t, top, b, Held(s.t[b].size));
    forall x | x != b ensures Taken(s'.t, x) == Taken(t1, x) {
      assert Taken(s'.t, x) == Taken(s.t, x);
    }
    forall x, a | x in t1 && !t1[x].Free? && x != b && x <= a < End(t1, x) ensures Rd(s'.mem, a) == Rd(s.mem, a) {
      assert Taken(s.t, x) == s.t[x];
    }
    RestFrame(s.mem, s'.mem, heads, s.g, s.dir, dirlen, t1, top, s'.t, b);
    QuietDrop(s, s1, q);
    QuietTaken(s1, s', heads, dirlen, top, b);
    QuietTrans(s, s1, s', {q}, {});
    BigNotSlot(s.mem, heads, s.g, s.t, top, b);
    assert {q} + {} == {q};
  }

  /** The tile of the page map, or 0 when there is none. */
  function MapTile(dir: nat): nat {
    if MHDR <= dir then dir - MHDR else 0
  }

  ghost predicate SameHeld(t: Tiles, t': Tiles) {
    forall s {:trigger Taken(t', s)} :: Taken(t, s).Held? || Taken(t', s).Held? ==> Taken(t', s) == Taken(t, s)
  }

  lemma HeldThrough(t0: Tiles, t1: Tiles, t2: Tiles, b: nat, m: nat)
    requires SameTaken(t0, t1, b) && SameTaken(t1, t2, m)
    requires !Taken(t0, b).Held? && !Taken(t2, b).Held? && !Taken(t0, m).Held? && !Taken(t2, m).Held?
    ensures SameHeld(t0, t2)
  {
    forall s ensures Taken(t0, s).Held? || Taken(t2, s).Held? ==> Taken(t2, s) == Taken(t0, s) {
      assert s != b ==> Taken(t1, s) == Taken(t0, s);
      assert s != m ==> Taken(t2, s) == Taken(t1, s);
    }
  }

  /** Neither map is an object, before or after the move. */
  lemma MapsNotObjs(s0: Snap, s1: Snap, s': Snap, heads: seq<nat>, len0: nat, len: nat, top1: nat, top: nat)
    requires Tiled(s1.t, top1) && Rest(s1.mem, heads, s1.g, s1.dir, len0, s1.t) && s0.g == s1.g && s0.dir == s1.dir
    requires Tiled(s'.t, top) && Rest(s'.mem, heads, s'.g, s'.dir, len, s'.t) && 0 < len && s'.g == s1.g
    requires s'.dir - MHDR in s1.t && s1.t[s'.dir - MHDR].Big? && Taken(s0.t, s'.dir - MHDR) == Free(0)
    requires 0 < s1.dir ==> Taken(s'.t, MapTile(s1.dir)) == Free(0)
    ensures forall z {:trigger Obj(s0, s'.dir, z)} {:trigger Obj(s', s'.dir, z)} ::
            !Obj(s0, s'.dir, z) && !Obj(s', s'.dir, z)
    ensures forall z {:trigger Obj(s0, s0.dir, z)} {:trigger Obj(s', s0.dir, z)} ::
            !Obj(s0, s0.dir, z) && !Obj(s', s0.dir, z)
  {
    BigNotSlot(s1.mem, heads, s1.g, s1.t, top1, s'.dir - MHDR);
    if 0 < s1.dir {
      BigNotSlot(s1.mem, heads, s1.g, s1.t, top1, s1.dir - MHDR);
    }
  }

  // ---- the objects when runs change

  /** The cells of slot objects lie behind the run's header. */
  lemma SlotCells(mem: Mem, heads: seq<nat>, g: Runs, dir: nat, dirlen: nat, t: Tiles, top: nat, r: nat, p: nat, z: nat)
    requires Tiled(t, top) && Rest(mem, heads, g, dir, dirlen, t) && RunAt(t, r) && IsObj(t, g, dir, p, z)
    ensures p + z <= r || r + MRUNHDR <= p
  {
    var h := Home(mem, heads, g, dir, dirlen, t, top, p, z);
    assert Before(t, h, r) && Before(t, r, h);
    if h == r {
      assert r in g.free && RunOk(mem, r, t[r].cls, g.free[r], g.used[r]);
    }
  }

  lemma QuietPop(s: Snap, s': Snap, heads: seq<nat>, dirlen: nat, top: nat, c: nat)
    requires c < NCLASS && Tiled(s.t, top) && Aligned(s.t, top) && Rest(s.mem, heads, s.g, s.dir, dirlen, s.t)
             && heads[c] != 0
    requires HasRoom(s.t, s.g, heads[c], c) && heads[c] in s.g.used && s.g.lists[c] != []
    requires s' == Snap(PopMem(s.mem, heads[c]), s.t, PopRuns(s.g, heads[c], c), s.dir)
    ensures var p := s.g.free[heads[c]][0];
            Quiet(s, s', {p}) && (forall z: nat :: !Obj(s, p, z)) && PgDown(p) == heads[c] && p != 0
  {
    var r := heads[c];
    var p := s.g.free[r][0];
    assert p in s.g.free[r] && RunAt(s.t, r) && RunOk(s.mem, r, c, s.g.free[r], s.g.used[r]);
    assert AlignedTile(r, s.t[r]);
    PageOf(s.mem, heads, s.g, s.t, top, r, p);
    forall x: nat, z: nat, a: nat | x !in {p} && Obj(s, x, z) && x <= a < x + z ensures Rd(s'.mem, a) == Rd(s.mem, a) {
      SlotCells(s.mem, heads, s.g, s.dir, dirlen, s.t, top, r, x, z);
    }
  }

  /** A slot's page is its run, and no large block's pointer is a slot. */
  lemma PageOf(mem: Mem, heads: seq<nat>, g: Runs, t: Tiles, top: nat, r: nat, p: nat)
    requires Tiled(t, top) && RunsOk(mem, heads, g, t) && RunAt(t, r) && r % PGSIZE == 0
    requires t[r].cls < NCLASS && IsSlot(t[r].cls, r, p)
    ensures PgDown(p) == r && (MHDR <= p ==> !Taken(t, p - MHDR).Big?)
  {
    forall x | x in t ensures x + MHDR != p {
      assert Before(t, r, x) && Before(t, x, r);
    }
  }

  lemma QuietPush(s: Snap, s': Snap, heads: seq<nat>, dirlen: nat, top: nat, r: nat, c: nat, p: nat)
    requires c < NCLASS && Tiled(s.t, top) && Aligned(s.t, top) && Rest(s.mem, heads, s.g, s.dir, dirlen, s.t)
    requires RunAt(s.t, r) && s.t[r].cls == c && r in s.g.free && r in s.g.used && p in s.g.used[r]
    requires s' == Snap(PushMem(s.mem, heads, r, c, p), s.t, PushRuns(s.g, r, c, p), s.dir)
    ensures Quiet(s, s', {p}) && forall z: nat :: !Obj(s', p, z)
  {
    assert RunOk(s.mem, r, c, s.g.free[r], s.g.used[r]) && AlignedTile(r, s.t[r]);
    PageOf(s.mem, heads, s.g, s.t, top, r, p);
    var cz := ClassSize(c);
    assert Obj(s, p, cz);
    forall x: nat, z: nat, a: nat | x !in {p} && Obj(s, x, z) && x <= a < x + z ensures Rd(s'.mem, a) == Rd(s.mem, a) {
      SlotCells(s.mem, heads, s.g, s.dir, dirlen, s.t, top, r, x, z);
      ObjNotAt(s, heads, dirlen, top, x, z, p, cz);
    }
  }

  lemma ObjNotAt(s: Snap, heads: seq<nat>, dirlen: nat, top: nat, x: nat, z: nat, p: nat, y: nat)
    requires Tiled(s.t, top) && Rest(s.mem, heads, s.g, s.dir, dirlen, s.t)
    requires Obj(s, x, z) && Obj(s, p, y) && x != p
    ensures p < x || x + z <= p
  {
    if x < p {
      ObjectsApart(s.mem, heads, s.g, s.dir, dirlen, s.t, top, x, z, p, y);
    }
  }

  lemma QuietAdd(s: Snap, s': Snap, heads: seq<nat>, dirlen: nat, top: nat, r: nat, c: nat, fs: seq<nat>)
    requires Tiled(s.t, top) && Rest(s.mem, heads, s.g, s.dir, dirlen, s.t) && c < NCLASS && 0 < dirlen
    requires r in s.t && s.t[r] == Held(PGSIZE) && FIRST <= r && PageNo(r) < dirlen
    requires s'.t == s.t[r := Run(c)] && s'.g == AddRuns(s.g, r, c, fs) && s'.dir == s.dir
    requires forall a: nat :: (a < r || r + PGSIZE <= a) && a != s.dir + PageNo(r) ==> Rd(s'.mem, a) == Rd(s.mem, a)
    ensures Quiet(s, s', {})
  {
    assert !RunAt(s.t, r);
    forall p: nat, z: nat | p !in {} ensures Obj(s', p, z) <==> Obj(s, p, z) {
    }
    forall x: nat, z: nat, a: nat | x !in {} && Obj(s, x, z) && x <= a < x + z ensures Rd(s'.mem, a) == Rd(s.mem, a) {
      var h := Home(s.mem, heads, s.g, s.dir, dirlen, s.t, top, x, z);
      var d := s.dir - MHDR;
      assert Before(s.t, h, r) && Before(s.t, r, h) && Before(s.t, h, d) && Before(s.t, d, h);
    }
  }

  /** An empty run's page stops being a run: no slot of it was an object. */
  lemma QuietUnrun(s: Snap, s': Snap, heads: seq<nat>, dirlen: nat, top: nat, r: nat, c: nat, l: seq<nat>)
    requires Tiled(s.t, top) && Rest(s.mem, heads, s.g, s.dir, dirlen, s.t) && c < NCLASS && 0 < dirlen
    requires RunAt(s.t, r) && r in s.g.used && s.g.used[r] == {} && FIRST <= r && PageNo(r) < dirlen
    requires s'.t == s.t[r := Held(PGSIZE)] && s'.g == DropRuns(s.g, r, c, l) && s'.dir == s.dir
    requires forall a: nat {:trigger Rd(s'.mem, a)} ::
               a != s.dir + PageNo(r) && !RunAt(s.t, a) ==> Rd(s'.mem, a) == Rd(s.mem, a)
    ensures Quiet(s, s', {})
  {
    forall p: nat, z: nat | p !in {} ensures Obj(s', p, z) <==> Obj(s, p, z) {
    }
    forall x: nat, z: nat, a: nat | x !in {} && Obj(s, x, z) && x <= a < x + z ensures Rd(s'.mem, a) == Rd(s.mem, a) {
      var h := Home(s.mem, heads, s.g, s.dir, dirlen, s.t, top, x, z);
      var d := s.dir - MHDR;
      assert Before(s.t, h, d) && Before(s.t, d, h);
      assert RunAt(s.t, a) ==> Before(s.t, h, a) && Before(s.t, a, h);
    }
  }

  lemma HeldBack(t0: Tiles, t1: Tiles, t2: Tiles, t3: Tiles, b: nat)
    requires SameTaken(t0, t1, b) && SameHeld(t1, t2) && SameTaken(t2, t3, b)
    requires !Taken(t0, b).Held? && !Taken(t3, b).Held?
    ensures SameHeld(t0, t3)
  {
    forall s ensures Taken(t0, s).Held? || Taken(t3, s).Held? ==> Taken(t3, s) == Taken(t0, s) {
      assert s != b ==> Taken(t1, s) == Taken(t0, s) && Taken(t3, s) == Taken(t2, s);
      assert Taken(t1, s).Held? || Taken(t2, s).Held? ==> Taken(t2, s) == Taken(t1, s);
    }
  }

  /** Where a large block is about to appear, there is no object yet. */
  lemma FreshNotObj(s: Snap, s': Snap, heads: seq<nat>, dirlen: nat, top: nat, d: nat)
    requires MHDR <= d && Taken(s.t, d - MHDR) == Free(0) && SameTaken(s.t, s'.t, d - MHDR) && s'.g == s.g
             && s'.dir == s.dir
    requires Tiled(s'.t, top) && Rest(s'.mem, heads, s'.g, s'.dir, dirlen, s'.t)
    requires d - MHDR in s'.t && s'.t[d - MHDR].Big? && (0 < dirlen ==> !Taken(s'.t, s.dir - MHDR).Free?)
    requires 0 < dirlen ==> Taken(s.t, s.dir - MHDR).Big?
    ensures (forall z: nat :: !Obj(s, d, z)) && d != s.dir
  {
    BigNotSlot(s'.mem, heads, s'.g, s'.t, top, d - MHDR);
  }

  /** Everything about taking a slot from the first run of a class. */
  lemma PopAll(s: Snap, head: nat, heads: seq<nat>, dirlen: nat, top: nat, c: nat)
    requires Core(s.mem, head, s.t, top) && Rest(s.mem, heads, s.g, s.dir, dirlen, s.t) && c < NCLASS && heads[c] != 0
    ensures var r := heads[c];
            && HasRoom(s.t, s.g, r, c) && r in s.g.used && s.g.lists[c] != []
            && var s', p := Snap(PopMem(s.mem, r), s.t, PopRuns(s.g, r, c), s.dir), s.g.free[r][0];
               && Core(s'.mem, head, s.t, top)
               && Rest(s'.mem, heads[c := PopHead(s.mem, s.g, r)], s'.g, s.dir, dirlen, s.t)
               && Quiet(s, s', {p}) && (forall z: nat :: !Obj(s, p, z)) && p != 0 && Obj(s', p, ClassSize(c))
               && p == Rd(s.mem, r + 8) && (Rd(s'.mem, r + 8) == 0 <==> |s.g.free[r]| == 1)
               && Rd(s'.mem, r) == Rd(s.mem, r)
  {
    var r := heads[c];
    PopSlot(s.mem, heads, s.g, s.t, top, c);
    assert RunAt(s.t, r) && RunOk(s.mem, r, c, s.g.free[r], s.g.used[r]);
    PopRunOk(s.mem, r, c, s.g.free[r], s.g.used[r]);
    var s' := Snap(PopMem(s.mem, r), s.t, PopRuns(s.g, r, c), s.dir);
    WriteCore(s.mem, s'.mem, head, s.t, top, r);
    RestPage(s.mem, s'.mem, s.dir, dirlen, s.t, top, r);
    QuietPop(s, s', heads, dirlen, top, c);
  }

  /** Everything about making a page into a run. */
  lemma InstallAll(s: Snap, s': Snap, head: nat, heads: seq<nat>, dirlen: nat, top: nat, page: nat, c: nat,
      fs: seq<nat>)
    requires Core(s.mem, head, s.t, top) && Rest(s.mem, heads, s.g, s.dir, dirlen, s.t) && c < NCLASS
    requires page in s.t && s.t[page] == Held(PGSIZE) && page % PGSIZE == 0 && FIRST <= page && PageNo(page) < dirlen
    requires s' == Snap(s'.mem, s.t[page := Run(c)], AddRuns(s.g, page, c, fs), s.dir)
    requires forall a: nat ::
             a < page || page + PGSIZE <= a ==> Rd(s'.mem, a) == Rd(s.mem[s.dir + PageNo(page) := c + 1], a)
    requires Rd(s'.mem, page) == heads[c] && RunOk(s'.mem, page, c, fs, {}) && fs != []
    ensures Core(s'.mem, head, s'.t, top)
    ensures Rest(s'.mem, heads[c := page], s'.g, s.dir, dirlen, s'.t)
    ensures Quiet(s, s', {}) && SameTaken(s.t, s'.t, page) && page !in s.g.free
  {
    var m1 := s.mem[s.dir + PageNo(page) := c + 1];
    assert !RunAt(s.t, page);
    RestAddRun(s.mem, s'.mem, heads, s.g, s.dir, dirlen, s.t, top, page, c, fs);
    WriteCore(s.mem, m1, head, s.t, top, s.dir - MHDR);
    WriteCore(m1, s'.mem, head, s.t, top, page);
    RelabelCore(s'.mem, head, s.t, top, page, Run(c));
    QuietAdd(s, s', heads, dirlen, top, page, c, fs);
    RelabelSame(s.t, s.t, page, Run(c));
  }

  /** An object's pointer lands on a run page exactly when it is a slot of that
      run: m__free can never take the wrong branch. */
  lemma FreeBranch(s: Snap, heads: seq<nat>, dirlen: nat, top: nat, p: nat, z: nat)
    requires Tiled(s.t, top) && Aligned(s.t, top) && Rest(s.mem, heads, s.g, s.dir, dirlen, s.t) && Obj(s, p, z)
    ensures UHEAP_BASE <= p && MHDR <= p
    ensures InRun(s.mem, s.dir, dirlen, p) <==> RunAt(s.t, PgDown(p))
    ensures InRun(s.mem, s.dir, dirlen, p) ==> PgDown(p) in s.g.used && p in s.g.used[PgDown(p)]
    ensures !InRun(s.mem, s.dir, dirlen, p) ==> p != s.dir && p - MHDR in s.t && s.t[p - MHDR].Big?
  {
    var h := Home(s.mem, heads, s.g, s.dir, dirlen, s.t, top, p, z);
    var r := PgDown(p);
    assert TileOk(h, s.t[h], top);
    Classify(s.mem, s.dir, dirlen, s.t, p);
    if s.t[h].Big? {
      assert RunAt(s.t, r) ==> Before(s.t, h, r) && Before(s.t, r, h);
    } else {
      assert RunAt(s.t, h) && RunOk(s.mem, h, s.t[h].cls, s.g.free[h], s.g.used[h]) && AlignedTile(h, s.t[h]);
      PageOf(s.mem, heads, s.g, s.t, top, h, p);
    }
  }

  /** Everything about giving a slot back. */
  lemma PushAll(s: Snap, head: nat, heads: seq<nat>, dirlen: nat, top: nat, r: nat, c: nat, p: nat)
    requires Core(s.mem, head, s.t, top) && Rest(s.mem, heads, s.g, s.dir, dirlen, s.t) && c < NCLASS
    requires RunAt(s.t, r) && s.t[r].cls == c && r in s.g.free && r in s.g.used && p in s.g.used[r]
    ensures var s' := Snap(PushMem(s.mem, heads, r, c, p), s.t, PushRuns(s.g, r, c, p), s.dir);
            && Core(s'.mem, head, s.t, top)
            && Rest(s'.mem, heads[c := PushHead(heads, s.g, r, c)], s'.g, s.dir, dirlen, s.t)
            && Quiet(s, s', {p}) && (forall z: nat :: !Obj(s', p, z))
            && (Rd(s.mem, r + 8) == 0 <==> s.g.free[r] == []) && Rd(s.mem, r + 18) > 0
            && Rd(s'.mem, r + 18) == |s'.g.used[r]|
  {
    var s' := Snap(PushMem(s.mem, heads, r, c, p), s.t, PushRuns(s.g, r, c, p), s.dir);
    assert RunOk(s.mem, r, c, s.g.free[r], s.g.used[r]);
    PushRunOk(s.mem, heads, r, c, s.g.free[r], s.g.used[r], p);
    PushSlot(s.mem, heads, s.g, s.t, top, r, c, p);
    WriteCore(s.mem, s'.mem, head, s.t, top, r);
    RestPage(s.mem, s'.mem, s.dir, dirlen, s.t, top, r);
    QuietPush(s, s', heads, dirlen, top, r, c, p);
  }

  /** Everything about a run that has just become empty: off its list, out of the
      page map, its page in transit back to the pool. */
  lemma RetireAll(s: Snap, s': Snap, m1: Mem, head: nat, heads: seq<nat>, h: nat, dirlen: nat, top: nat, r: nat, c: nat,
                  done: seq<nat>, rest: seq<nat>)
    requires Core(s.mem, head, s.t, top) && Rest(s.mem, heads, s.g, s.dir, dirlen, s.t) && c < NCLASS
    requires RunAt(s.t, r) && s.t[r].cls == c && r in s.g.used && s.g.used[r] == {}
    requires s.g.lists[c] == done + rest && rest != [] && rest[0] == r
    requires if done == [] then m1 == s.mem && h == Rd(s.mem, r)
             else m1 == s.mem[done[|done| - 1] := Rd(s.mem, r)] && h == heads[c]
    requires FIRST <= r && PageNo(r) < dirlen
    requires s' == Snap(m1[s.dir + PageNo(r) := 0], s.t[r := Held(PGSIZE)], DropRuns(s.g, r, c, done + rest[1..]),
             s.dir)
    ensures Core(s'.mem, head, s'.t, top)
    ensures Rest(s'.mem, heads[c := h], s'.g, s.dir, dirlen, s'.t)
    ensures Quiet(s, s', {})
  {
    hide Quiet, RunsOk, BigOk, DirOk;
    RunFacts(s, head, heads, dirlen, top, r);
    assert AlignedTile(r, s.t[r]);
    RetireCut(s, m1, head, heads, dirlen, top, r, c, done, rest);
    DropRun(s.mem, m1, heads, h, s.g, s.t, top, r, c, done, rest);
    RestUnmark(m1, s.dir, dirlen, s.t, top, r);
    RelabelTiled(s.t, top, r, Held(PGSIZE));
    assert RunsKept(m1, s'.mem, s'.t, s'.t) by {
      var d := s.dir - MHDR;
      forall x: nat | RunAt(s'.t, x) ensures End(s'.t, d) <= x || x + PGSIZE <= d {
        RunsApart(s'.t, top, x, d);
      }
    }
    RunsFrame(m1, s'.mem, heads[c := h], s'.g, s'.t, s'.t);
    WriteCore(m1, s'.mem, head, s.t, top, s.dir - MHDR);
    RelabelCore(s'.mem, head, s.t, top, r, Held(PGSIZE));
    forall a: nat | a != s.dir + PageNo(r) && !RunAt(s.t, a) ensures Rd(s'.mem, a) == Rd(s.mem, a) {
      assert Rd(m1, a) == Rd(s.mem, a);
    }
    QuietUnrun(s, s', heads, dirlen, top, r, c, done + rest[1..]);
  }

  lemma RetireCut(s: Snap, m1: Mem, head: nat, heads: seq<nat>, dirlen: nat, top: nat, r: nat, c: nat,
                  done: seq<nat>, rest: seq<nat>)
    requires Core(s.mem, head, s.t, top) && Rest(s.mem, heads, s.g, s.dir, dirlen, s.t) && c < NCLASS
    requires s.g.lists[c] == done + rest
    requires m1 == s.mem || (done != [] && m1 == s.mem[done[|done| - 1] := Rd(s.mem, r)])
    ensures Core(m1, head, s.t, top) && BigOk(m1, s.t) && DirOk(m1, s.dir, dirlen, s.t)
    ensures forall a: nat {:trigger Rd(m1, a)} :: !RunAt(s.t, a) ==> Rd(m1, a) == Rd(s.mem, a)
  {
    if m1 != s.mem {
      var w := done[|done| - 1];
      assert w in s.g.lists[c] && ClassList(s.mem, heads[c], s.g.lists[c], c, s.g, s.t);
      assert HasRoom(s.t, s.g, w, c) && RunAt(s.t, w);
      WriteCore(s.mem, m1, head, s.t, top, w);
      RestPage(s.mem, m1, s.dir, dirlen, s.t, top, w);
    }
  }

  lemma RestLengths(mem: Mem, heads: seq<nat>, g: Runs, dir: nat, dirlen: nat, t: Tiles)
    requires Rest(mem, heads, g, dir, dirlen, t)
    ensures |heads| == NCLASS && |g.lists| == NCLASS && g.used.Keys == g.free.Keys
  {
  }

  lemma RunFacts(s: Snap, head: nat, heads: seq<nat>, dirlen: nat, top: nat, r: nat)
    requires Core(s.mem, head, s.t, top) && Rest(s.mem, heads, s.g, s.dir, dirlen, s.t) && RunAt(s.t, r)
    ensures r in s.g.free && r in s.g.used && |heads| == NCLASS && |s.g.lists| == NCLASS
    ensures var c := s.t[r].cls;
            && c < NCLASS && Rd(s.mem, r + 16) == c && FIRST <= r && PageNo(r) < dirlen
            && MHDR <= s.dir && s.dir - MHDR in s.t && s.t[s.dir - MHDR].Big?
            && s.dir + dirlen <= End(s.t, s.dir - MHDR)
            && Chain(s.mem, heads[c], s.g.lists[c]) && (s.g.free[r] != [] ==> r in s.g.lists[c])
  {
    var c := s.t[r].cls;
    assert RunOk(s.mem, r, c, s.g.free[r], s.g.used[r]) && TileOk(r, s.t[r], top);
    assert ClassList(s.mem, heads[c], s.g.lists[c], c, s.g, s.t);
    assert s.g.free[r] != [] ==> HasRoom(s.t, s.g, r, c);
  }

  // ---- programs write into their own objects

  /** Memory changed only inside the object at p. */
  ghost predicate OnlyInside(mem: Mem, mem': Mem, p: nat, z: nat) {
    forall a: nat :: a < p || p + z <= a ==> Rd(mem', a) == Rd(mem, a)
  }

  lemma SlotWrite(mem: Mem, mem': Mem, r: nat, c: nat, fs: seq<nat>, us: set<nat>, p: nat)
    requires c < NCLASS && RunOk(mem, r, c, fs, us) && p in us && OnlyInside(mem, mem', p, ClassSize(c))
    ensures RunOk(mem', r, c, fs, us) && Rd(mem', r) == Rd(mem, r)
  {
    forall x | x in fs ensures Rd(mem', x) == Rd(mem, x) {
      assert IsSlot(c, r, x) && IsSlot(c, r, p) && x != p;
      if p < x { SlotsApart(c, r, p, x); }
    }
    ChainFrame(mem, mem', Rd(mem, r + 8), fs);
  }

  lemma SlotWriteRuns(s: Snap, mem': Mem, heads: seq<nat>, dirlen: nat, top: nat, r: nat, p: nat)
    requires Tiled(s.t, top) && Rest(s.mem, heads, s.g, s.dir, dirlen, s.t) && RunAt(s.t, r) && r in s.g.used
             && p in s.g.used[r]
    requires s.t[r].cls < NCLASS && OnlyInside(s.mem, mem', p, ClassSize(s.t[r].cls))
    ensures RunsOk(mem', heads, s.g, s.t)
  {
    var c := s.t[r].cls;
    assert RunOk(s.mem, r, c, s.g.free[r], s.g.used[r]) && IsSlot(c, r, p);
    SlotWrite(s.mem, mem', r, c, s.g.free[r], s.g.used[r], p);
    SlotInPage(c, r, p);
    assert OnlyCells(s.mem, mem', s.t, r, c) by {
      PageOnly(s.mem, mem', s.t, top, r);
    }
    var l := s.g.lists[c];
    assert ClassList(s.mem, heads[c], l, c, s.g, s.t);
    forall x | x in l ensures Rd(mem', x) == Rd(s.mem, x) {
      assert HasRoom(s.t, s.g, x, c);
      if x != r { RunsApart(s.t, top, r, x); }
    }
    ChainFrame(s.mem, mem', heads[c], l);
    OnlyRunOk(s.mem, mem', heads, heads[c], s.g, s.g, s.t, s.t, r, c);
    assert heads[c := heads[c]] == heads;
  }

  /** Whatever a program writes into one of its objects, the allocator's own state
      and everybody else's objects stay as they were. */
  lemma ObjectWrite(s: Snap, s': Snap, head: nat, heads: seq<nat>, dirlen: nat, top: nat, p: nat, z: nat)
    requires Core(s.mem, head, s.t, top) && Rest(s.mem, heads, s.g, s.dir, dirlen, s.t) && Obj(s, p, z)
    requires s' == s.(mem := s'.mem) && OnlyInside(s.mem, s'.mem, p, z)
    ensures Core(s'.mem, head, s.t, top) && Rest(s'.mem, heads, s.g, s.dir, dirlen, s.t)
    ensures Quiet(s, s', {p}) && Obj(s', p, z)
  {
    hide RunsOk;
    var h := Home(s.mem, heads, s.g, s.dir, dirlen, s.t, top, p, z);
    WriteCore(s.mem, s'.mem, head, s.t, top, h);
    if s.t[h].Run? {
      RunFacts(s, head, heads, dirlen, top, h);
      SlotWriteRuns(s, s'.mem, heads, dirlen, top, h, p);
      RestPage(s.mem, s'.mem, s.dir, dirlen, s.t, top, h);
    } else {
      assert Taken(s.t, h) == s.t[h] && BigHeader(s.mem, s.t, h);
      RunsTaken(s.mem, s'.mem, s.t, s.t, h);
      RunsFrame(s.mem, s'.mem, heads, s.g, s.t, s.t);
      BigTaken(s.mem, s'.mem, s.t, top, s.t, h);
      DirTaken(s.mem, s'.mem, s.dir, dirlen, s.t, s.t, h);
    }
    forall x: nat, y: nat, a: nat | x !in {p} && Obj(s, x, y) && x <= a < x + y ensures Rd(s'.mem, a) == Rd(s.mem, a) {
      if x < p { ObjectsApart(s.mem, heads, s.g, s.dir, dirlen, s.t, top, x, y, p, z); }
      else { ObjectsApart(s.mem, heads, s.g, s.dir, dirlen, s.t, top, p, z, x, y); }
    }
  }

  // ---- the first page

  const INIT_TOP: nat := UHEAP_BASE + PGSIZE

  function InitTiles(): Tiles {
    map[FIRST := Held(INIT_TOP - FIRST)]
  }

  function InitRuns(): Runs {
    Runs(seq(NCLASS, i => []), map[], map[])
  }

  function InitHeads(): seq<nat> {
    seq(NCLASS, i => 0)
  }

  lemma InitOk()
    ensures Core(map[], 0, InitTiles(), INIT_TOP)
    ensures Rest(map[], InitHeads(), InitRuns(), 0, 0, InitTiles())
  {
    var t := InitTiles();
    assert TileOk(FIRST, t[FIRST], INIT_TOP) && Followed(t, FIRST, INIT_TOP) && AlignedTile(FIRST, t[FIRST]);
  }

  /** What m__realloc reads back is the object's size. */
  lemma SizeRead(s: Snap, heads: seq<nat>, dirlen: nat, top: nat, p: nat, z: nat)
    requires Tiled(s.t, top) && Aligned(s.t, top) && Rest(s.mem, heads, s.g, s.dir, dirlen, s.t) && Obj(s, p, z)
    ensures UHEAP_BASE <= p && MHDR <= p
    ensures InRun(s.mem, s.dir, dirlen, p) ==>
              var m := Rd(s.mem, s.dir + PageNo(p)); 0 < m <= NCLASS && z == ClassSize(m - 1)
    ensures !InRun(s.mem, s.dir, dirlen, p) ==> z + MHDR == Rd(s.mem, p - MHDR)
  {
    FreeBranch(s, heads, dirlen, top, p, z);
    Classify(s.mem, s.dir, dirlen, s.t, p);
    if InRun(s.mem, s.dir, dirlen, p) {
      PageOf(s.mem, heads, s.g, s.t, top, PgDown(p), p) by {
        assert AlignedTile(PgDown(p), s.t[PgDown(p)]);
        assert RunOk(s.mem, PgDown(p), s.t[PgDown(p)].cls, s.g.free[PgDown(p)], s.g.used[PgDown(p)]);
      }
    } else {
      assert BigHeader(s.mem, s.t, p - MHDR) && TileOk(p - MHDR, s.t[p - MHDR], top);
    }
  }

  // ---- fragmentation

  ghost function FreeSet(t: Tiles): set<nat> {
    set s | s in t && t[s].Free?
  }

  ghost function TakenSet(t: Tiles): set<nat> {
    set s | s in t && !t[s].Free?
  }

  /** Each free block short of the break is followed by a taken one of its own. */
  lemma {:induction false} Followers(t: Tiles, top: nat, fs: set<nat>) returns (es: set<nat>)
    requires Tiled(t, top) && NoTouch(t) && fs <= FreeSet(t)
    requires forall s :: s in fs ==> End(t, s) != top
    ensures |es| == |fs| && es <= TakenSet(t) && forall e :: e in es ==> exists s :: s in fs && End(t, s) == e
    decreases fs
  {
    if fs == {} {
      es := {};
    } else {
      var x :| x in fs;
      var rest := Followers(t, top, fs - {x});
      var e := End(t, x);
      assert Followed(t, x, top) && !Touches(t, x);
      forall s | s in fs - {x} ensures End(t, s) != e {
        assert Before(t, s, x) && Before(t, x, s);
      }
      es := rest + {e};
      assert |fs| == |fs - {x}| + 1;
    }
  }

  lemma {:induction false} SubsetCard(a: set<nat>, b: set<nat>)
    requires a <= b
    ensures |a| <= |b|
    decreases a
  {
    if a != {} {
      var x :| x in a;
      SubsetCard(a - {x}, b - {x});
      assert |a| == |a - {x}| + 1 && |b| == |b - {x}| + 1;
    }
  }

  /** Coalescing leaves at most one more free piece than there are blocks in use. */
  lemma FewPieces(t: Tiles, top: nat)
    requires Tiled(t, top) && NoTouch(t)
    ensures |FreeSet(t)| <= |TakenSet(t)| + 1
  {
    var f := FreeSet(t);
    var last := set s | s in f && End(t, s) == top;
    var es := Followers(t, top, f - last);
    SubsetCard(es, TakenSet(t));
    if last != {} {
      var x :| x in last;
      forall y | y in last ensures y == x {
        assert Before(t, x, y) && Before(t, y, x);
      }
      assert last == {x};
    }
    assert f == (f - last) + last && |f| == |f - last| + |last|;
  }

  /** Once every object has been freed, the whole heap is at most two free pieces:
      only the page map can stand between them. */
  lemma AllFreed(s: Snap, head: nat, heads: seq<nat>, dirlen: nat, top: nat)
    requires Core(s.mem, head, s.t, top) && Rest(s.mem, heads, s.g, s.dir, dirlen, s.t)
    requires (forall x :: !Taken(s.t, x).Held?) && (forall r :: r in s.g.used ==> s.g.used[r] != {})
    requires forall p: nat, z: nat :: !Obj(s, p, z)
    ensures |FreeSet(s.t)| <= 2
  {
    forall x | x in TakenSet(s.t) ensures x == MapTile(s.dir) {
      assert Taken(s.t, x) == s.t[x] && TileOk(x, s.t[x], top);
      if s.t[x].Run? {
        RunFacts(s, head, heads, dirlen, top, x);
        var p :| p in s.g.used[x];
        assert RunOk(s.mem, x, s.t[x].cls, s.g.free[x], s.g.used[x]) && AlignedTile(x, s.t[x]);
        PageOf(s.mem, heads, s.g, s.t, top, x, p);
        assert Obj(s, p, ClassSize(s.t[x].cls));
      } else {
        assert !Obj(s, x + MHDR, s.t[x].size - MHDR);
      }
    }
    SubsetCard(TakenSet(s.t), {MapTile(s.dir)});
    FewPieces(s.t, top);
  }
}
