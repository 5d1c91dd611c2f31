/** The shape of the heap of src/malloc.h: how the region between the header and
    the break is divided into tiles, and how the address-ordered free list is
    threaded through the free ones. */
module HeapModel {
  import opened Cells

  const PGSIZE: nat := 4096
  const UHEAP_BASE: nat := 0x28000000
  const UHEAP_TOP: nat := 0x2f000000
  const MHDR: nat := 16
  const MMIN: nat := 32
  const MRUNHDR: nat := 32
  const MTRIM: nat := 16 * 4096
  const NCLASS: nat := 16
  const MAXSMALL: nat := 512
  // The header, struct mheap, is 184 bytes, rounded up to 192.
  const FIRST: nat := UHEAP_BASE + 192

  function MAlign(x: nat): (r: nat)
    ensures x <= r < x + 16 && r % 16 == 0
  {
    (x + 15) / 16 * 16
  }

  function PgUp(x: nat): (r: nat)
    ensures x <= r < x + PGSIZE && r % PGSIZE == 0
  {
    (x + PGSIZE - 1) / PGSIZE * PGSIZE
  }

  function PgDown(x: nat): (r: nat)
    ensures r <= x < r + PGSIZE && r % PGSIZE == 0
  {
    x / PGSIZE * PGSIZE
  }

  /** A tile is a free block, a block handed out by the large path (its header
      included), a page carved into slots, or a region in transit between two of
      these. */
  datatype Tile = Free(size: nat) | Big(size: nat) | Held(size: nat) | Run(cls: nat)

  function Size(x: Tile): nat { if x.Run? then PGSIZE else x.size }

  type Tiles = map<nat, Tile>

  function End(t: Tiles, s: nat): nat
    requires s in t
  {
    s + Size(t[s])
  }

  ghost predicate TileOk(s: nat, x: Tile, top: nat) {
    && FIRST <= s && s + Size(x) <= top
    && 16 <= Size(x)
    && (x.Big? ==> MMIN <= x.size)
    && (x.Run? ==> x.cls < NCLASS)
  }

  ghost predicate AlignedTile(s: nat, x: Tile) {
    s % 16 == 0 && Size(x) % 16 == 0 && (x.Run? ==> s % PGSIZE == 0)
  }

  /** Everything starts and ends on a sixteen-byte boundary, run pages on a page
      boundary. */
  ghost predicate Aligned(t: Tiles, top: nat) {
    top % PGSIZE == 0 && forall s {:trigger AlignedTile(s, t[s])} :: s in t ==> AlignedTile(s, t[s])
  }

  ghost predicate Followed(t: Tiles, s: nat, top: nat)
    requires s in t
  {
    End(t, s) == top || End(t, s) in t
  }

  ghost predicate Before(t: Tiles, a: nat, b: nat)
    requires a in t
  {
    a + 16 <= End(t, a) && (a < b ==> End(t, a) <= b)
  }

  /** The tiles cover the heap exactly: each starts where another ends. */
  ghost predicate Tiled(t: Tiles, top: nat) {
    && UHEAP_BASE + PGSIZE <= top
    && FIRST in t
    && (forall s {:trigger TileOk(s, t[s], top)} :: s in t ==> TileOk(s, t[s], top))
    && (forall s {:trigger Followed(t, s, top)} :: s in t ==> Followed(t, s, top))
    && (forall a, b {:trigger Before(t, a, b)} :: a in t && b in t ==> Before(t, a, b))
  }

  ghost predicate Inside(t: Tiles, s: nat, x: nat) {
    s in t && s <= x < End(t, s)
  }

  ghost predicate Touches(t: Tiles, s: nat) {
    s in t && t[s].Free? && End(t, s) in t && t[End(t, s)].Free?
  }

  /** No two free blocks touch: everything that could be joined has been. */
  ghost predicate NoTouch(t: Tiles) {
    forall s {:trigger Touches(t, s)} :: !Touches(t, s)
  }

  /** n is the first free block above lo, or 0 when there is none. */
  ghost predicate NextFree(t: Tiles, lo: nat, n: nat) {
    && (n != 0 ==> lo < n && n in t && t[n].Free?)
    && (forall u :: u in t && t[u].Free? && lo < u ==> n != 0 && n <= u)
  }

  ghost predicate FreeHeader(mem: Mem, t: Tiles, s: nat)
    requires s in t
  {
    Rd(mem, s) == Size(t[s]) && NextFree(t, s, Rd(mem, s + 8))
  }

  /** The chain of {size, next} headers that starts at head visits exactly the
      free blocks, in address order. */
  ghost predicate FreeList(mem: Mem, head: nat, t: Tiles) {
    NextFree(t, 0, head) && forall s {:trigger FreeHeader(mem, t, s)} :: s in t && t[s].Free? ==> FreeHeader(mem, t, s)
  }

  /** Nothing inside a tile that is not free (other than except) was written. */
  ghost predicate Kept(m: Mem, m': Mem, t: Tiles, except: nat) {
    forall s, a {:trigger Taken(t, s), Rd(m', a)} ::
      s in t && !t[s].Free? && s != except && s <= a < End(t, s) ==> Rd(m', a) == Rd(m, a)
  }

  // ---- every address belongs to exactly one tile

  lemma {:induction false} CoverFrom(t: Tiles, top: nat, s: nat, x: nat) returns (r: nat)
    requires Tiled(t, top) && s in t && s <= x < top
    ensures Inside(t, r, x)
    decreases top - s
  {
    if x < End(t, s) {
      r := s;
    } else {
      assert Followed(t, s, top) && TileOk(s, t[s], top);
      r := CoverFrom(t, top, End(t, s), x);
    }
  }

  lemma ExactTiling(t: Tiles, top: nat, x: nat)
    requires Tiled(t, top)
    ensures FIRST <= x < top ==> exists s :: Inside(t, s, x)
    ensures forall s, r :: Inside(t, s, x) && Inside(t, r, x) ==> s == r
    ensures (exists s :: Inside(t, s, x)) ==> FIRST <= x < top
  {
    if FIRST <= x < top {
      var s := CoverFrom(t, top, FIRST, x);
    }
    forall s, r | Inside(t, s, x) && Inside(t, r, x) ensures s == r {
      assert Before(t, s, r) && Before(t, r, s);
    }
    forall s | Inside(t, s, x) ensures FIRST <= x < top {
      assert TileOk(s, t[s], top);
    }
  }

  // ---- the moves of m__insert: link a block in, then join what touches

  /** p is the last free block below b, or 0; n the first one above it, or 0. */
  ghost predicate Between(t: Tiles, p: nat, b: nat, n: nat) {
    && (p != 0 ==> p in t && t[p].Free? && p < b)
    && NextFree(t, p, n)
    && (n != 0 ==> b < n)
  }

  function LinkMem(mem: Mem, p: nat, b: nat, n: nat, size: nat): Mem {
    var m := mem[b := size][b + 8 := n];
    if p != 0 then m[p + 8 := b] else m
  }

  lemma LinkTiled(t: Tiles, top: nat, b: nat)
    requires Tiled(t, top) && b in t && t[b].Held?
    ensures Tiled(t[b := Free(t[b].size)], top)
  {
    var t' := t[b := Free(t[b].size)];
    forall s | s in t' ensures Followed(t', s, top) && TileOk(s, t'[s], top) {
      assert Followed(t, s, top) && TileOk(s, t[s], top);
    }
    forall x, y | x in t' && y in t' ensures Before(t', x, y) {
      assert Before(t, x, y);
    }
  }

  /** Two different tiles' headers share no cell. */
  lemma Apart(t: Tiles, top: nat, a: nat, b: nat)
    requires Tiled(t, top) && a in t && b in t
    ensures a == b || a + 16 <= b || b + 16 <= a
  {
    assert Before(t, a, b) && Before(t, b, a);
  }

  lemma LinkNext(t: Tiles, p: nat, b: nat, n: nat, s: nat, x: nat)
    requires b in t && t[b].Held? && b != 0 && Between(t, p, b, n) && NextFree(t, s, x) && s != p && s != b
    requires s != 0 ==> s in t && t[s].Free?
    ensures NextFree(t[b := Free(t[b].size)], s, x)
  {
    if s < b {
      assert s <= p;
    }
  }

  lemma LinkList(mem: Mem, head: nat, t: Tiles, top: nat, p: nat, b: nat, n: nat)
    requires Tiled(t, top) && FreeList(mem, head, t) && b in t && t[b].Held? && Between(t, p, b, n)
    ensures FreeList(LinkMem(mem, p, b, n, t[b].size), if p == 0 then b else head, t[b := Free(t[b].size)])
  {
    var m' := LinkMem(mem, p, b, n, t[b].size);
    var t' := t[b := Free(t[b].size)];
    assert TileOk(b, t[b], top);
    forall s | s in t' && t'[s].Free? ensures FreeHeader(m', t', s) {
      assert TileOk(s, t[s], top);
      if p != 0 {
        Apart(t, top, p, b);
      }
      if s != b {
        assert FreeHeader(mem, t, s);
        Apart(t, top, s, b);
        if p != 0 {
          Apart(t, top, s, p);
        }
        if s != p {
          LinkNext(t, p, b, n, s, Rd(mem, s + 8));
        }
      }
    }
    if p != 0 {
      LinkNext(t, p, b, n, 0, head);
    }
  }

  lemma LinkKept(mem: Mem, t: Tiles, top: nat, p: nat, b: nat, n: nat)
    requires Tiled(t, top) && b in t && t[b].Held? && Between(t, p, b, n)
    ensures Kept(mem, LinkMem(mem, p, b, n, t[b].size), t, b)
  {
    forall s, a | s in t && !t[s].Free? && s != b && s <= a < End(t, s)
      ensures Rd(LinkMem(mem, p, b, n, t[b].size), a) == Rd(mem, a)
    {
      assert Before(t, s, b) && Before(t, b, s);
      if p != 0 {
        assert Before(t, s, p) && Before(t, p, s);
      }
    }
  }

  function JoinMem(mem: Mem, a: nat, b: nat): Mem {
    mem[a := Rd(mem, a) + Rd(mem, b)][a + 8 := Rd(mem, b + 8)]
  }

  function JoinTiles(t: Tiles, a: nat, b: nat): Tiles
    requires a in t && b in t
  {
    (t - {b})[a := Free(Size(t[a]) + Size(t[b]))]
  }

  lemma JoinTiled(t: Tiles, top: nat, a: nat, b: nat)
    requires Tiled(t, top) && a in t && b in t && t[a].Free? && t[b].Free? && End(t, a) == b
    ensures Tiled(JoinTiles(t, a, b), top)
  {
    var t' := JoinTiles(t, a, b);
    forall s | s in t' ensures Followed(t', s, top) && TileOk(s, t'[s], top) {
      assert Followed(t, s, top) && Followed(t, b, top) && TileOk(s, t[s], top) && TileOk(b, t[b], top);
      assert Before(t, s, a) && Before(t, a, s) && Before(t, b, a);
    }
    forall x, y | x in t' && y in t' ensures Before(t', x, y) {
      assert Before(t, x, y) && Before(t, b, y) && Before(t, a, y);
    }
    assert TileOk(a, t[a], top);
  }

  lemma JoinNext(t: Tiles, top: nat, a: nat, b: nat, s: nat, x: nat)
    requires Tiled(t, top) && a in t && b in t && t[a].Free? && t[b].Free? && End(t, a) == b
    requires s != 0 ==> s in t && t[s].Free?
    requires NextFree(t, s, x) && s != a
    ensures NextFree(JoinTiles(t, a, b), s, x)
  {
    if s != 0 {
      assert Before(t, a, s);
    }
    assert x == b ==> s < a || s == 0;
    assert TileOk(a, t[a], top);
  }

  lemma JoinFirst(t: Tiles, top: nat, a: nat, b: nat, x: nat)
    requires Tiled(t, top) && a in t && b in t && t[a].Free? && t[b].Free? && End(t, a) == b
    requires NextFree(t, b, x)
    ensures NextFree(JoinTiles(t, a, b), a, x)
  {
    var t' := JoinTiles(t, a, b);
    forall u | u in t' && t'[u].Free? && a < u ensures b < u {
      assert Before(t, a, u);
    }
    Apart(t, top, a, b);
  }

  lemma JoinList(mem: Mem, head: nat, t: Tiles, top: nat, a: nat, b: nat)
    requires Tiled(t, top) && FreeList(mem, head, t)
    requires a in t && b in t && t[a].Free? && t[b].Free? && End(t, a) == b
    ensures FreeList(JoinMem(mem, a, b), head, JoinTiles(t, a, b))
  {
    hide Tiled, NextFree;
    var m' := JoinMem(mem, a, b);
    var t' := JoinTiles(t, a, b);
    assert FreeHeader(mem, t, a) && FreeHeader(mem, t, b);
    JoinFirst(t, top, a, b, Rd(mem, b + 8));
    forall s | s in t' && t'[s].Free? && s != a ensures FreeHeader(m', t', s) {
      assert FreeHeader(mem, t, s);
      Apart(t, top, s, a);
      JoinNext(t, top, a, b, s, Rd(mem, s + 8));
    }
    NoZero(t, top);
    JoinNext(t, top, a, b, 0, head);
  }

  lemma JoinKept(mem: Mem, t: Tiles, top: nat, a: nat, b: nat)
    requires Tiled(t, top) && a in t && t[a].Free?
    ensures Kept(mem, JoinMem(mem, a, b), t, 0)
  {
    forall s, x | s in t && !t[s].Free? && s <= x < End(t, s) ensures Rd(JoinMem(mem, a, b), x) == Rd(mem, x) {
      assert Before(t, s, a) && Before(t, a, s);
    }
  }

  // ---- carving: the middle [lo, hi) of a free block is taken out of it

  ghost predicate Carves(t: Tiles, b: nat, lo: nat, hi: nat) {
    && b in t && t[b].Free? && b <= lo && lo + 16 <= hi && hi <= End(t, b)
    && (b < lo ==> b + 16 <= lo)
    && (hi < End(t, b) ==> hi + 16 <= End(t, b))
  }

  function CarveTiles(t: Tiles, b: nat, lo: nat, hi: nat): Tiles
    requires Carves(t, b, lo, hi)
  {
    var held := (t - {b})[lo := Held(hi - lo)];
    var lead := if b < lo then held[b := Free(lo - b)] else held;
    if hi < End(t, b) then lead[hi := Free(End(t, b) - hi)] else lead
  }

  lemma CarveTiled(t: Tiles, top: nat, b: nat, lo: nat, hi: nat)
    requires Tiled(t, top) && Carves(t, b, lo, hi)
    ensures Tiled(CarveTiles(t, b, lo, hi), top)
  {
    var t' := CarveTiles(t, b, lo, hi);
    assert TileOk(b, t[b], top) && Followed(t, b, top);
    forall s | s in t' ensures Followed(t', s, top) && TileOk(s, t'[s], top) {
      if s in t && s != b {
        assert Followed(t, s, top) && TileOk(s, t[s], top) && Before(t, b, s) && Before(t, s, b);
      }
    }
    forall x, y | x in t' && y in t' ensures Before(t', x, y) { CarveBefore(t, top, b, lo, hi, x, y); }
  }

  lemma CarveBefore(t: Tiles, top: nat, b: nat, lo: nat, hi: nat, x: nat, y: nat)
    requires Tiled(t, top) && Carves(t, b, lo, hi) && x in CarveTiles(t, b, lo, hi) && y in CarveTiles(t, b, lo, hi)
    ensures Before(CarveTiles(t, b, lo, hi), x, y)
  {
    if x in t && x != b {
      assert Before(t, x, b) && Before(t, b, x);
    }
    if y in t && y != b {
      assert Before(t, y, b) && Before(t, b, y);
    }
    if x in t && y in t {
      assert Before(t, x, y);
    }
  }

  /** What the block's predecessor points at once it has been carved. */
  function CarveNext(mem: Mem, t: Tiles, b: nat, lo: nat, hi: nat): nat
    requires Carves(t, b, lo, hi)
  {
    if b < lo then b else if hi < End(t, b) then hi else Rd(mem, b + 8)
  }

  /** p is the free block whose link reaches b, or 0 when the list head does. */
  ghost predicate Pred(mem: Mem, head: nat, t: Tiles, p: nat, b: nat) {
    && (p == 0 ==> head == b)
    && (p != 0 ==> p in t && t[p].Free? && p < b && Rd(mem, p + 8) == b)
  }

  function CarveMem(mem: Mem, t: Tiles, p: nat, b: nat, lo: nat, hi: nat): Mem
    requires Carves(t, b, lo, hi)
  {
    var e := End(t, b);
    var m1 := if hi < e then mem[hi := e - hi][hi + 8 := Rd(mem, b + 8)] else mem;
    if b < lo then
      if hi < e then m1[b := lo - b][b + 8 := hi] else m1[b := lo - b]
    else if p != 0 then
      m1[p + 8 := CarveNext(mem, t, b, lo, hi)]
    else m1
  }

  lemma CarveKeeps(t: Tiles, top: nat, b: nat, lo: nat, hi: nat, s: nat)
    requires Tiled(t, top) && Carves(t, b, lo, hi) && s in t && s != b
    ensures var t' := CarveTiles(t, b, lo, hi);
            s in t' && t'[s] == t[s] && (s + 16 <= b || End(t, b) <= s)
  {
    assert Before(t, s, b) && Before(t, b, s);
  }

  /** Above an untouched block the first free block is the same, or is what is
      left of the carved one. */
  lemma CarveAbove(mem: Mem, t: Tiles, top: nat, b: nat, lo: nat, hi: nat, s: nat, x: nat)
    requires Tiled(t, top) && Carves(t, b, lo, hi) && FreeHeader(mem, t, b)
    requires s != 0 ==> s in t && t[s].Free? && s != b
    requires NextFree(t, s, x)
    ensures NextFree(CarveTiles(t, b, lo, hi), s, if x == b then CarveNext(mem, t, b, lo, hi) else x)
  {
    var t' := CarveTiles(t, b, lo, hi);
    assert TileOk(b, t[b], top);
    var y := if x == b then CarveNext(mem, t, b, lo, hi) else x;
    if y != 0 && y in t && y != b { CarveKeeps(t, top, b, lo, hi, y); }
    if s != 0 { CarveKeeps(t, top, b, lo, hi, s); }
    forall u | u in t' && t'[u].Free? && s < u ensures y != 0 && y <= u {
      if u in t && u != b {
        CarveKeeps(t, top, b, lo, hi, u);
      }
    }
  }

  lemma CarveInner(mem: Mem, t: Tiles, top: nat, b: nat, lo: nat, hi: nat)
    requires Tiled(t, top) && Carves(t, b, lo, hi) && FreeHeader(mem, t, b)
    ensures var t' := CarveTiles(t, b, lo, hi);
            && (hi < End(t, b) ==> NextFree(t', hi, Rd(mem, b + 8)))
            && (b < lo ==> NextFree(t', b, if hi < End(t, b) then hi else Rd(mem, b + 8)))
  {
    var t' := CarveTiles(t, b, lo, hi);
    var x := Rd(mem, b + 8);
    if x != 0 { CarveKeeps(t, top, b, lo, hi, x); }
    forall u | u in t' && t'[u].Free? && b < u ensures u == hi || (x != 0 && x <= u && End(t, b) <= u) {
      if u in t { CarveKeeps(t, top, b, lo, hi, u); }
    }
  }

  lemma CarveOther(mem: Mem, t: Tiles, top: nat, p: nat, b: nat, lo: nat, hi: nat, s: nat)
    requires Tiled(t, top) && Carves(t, b, lo, hi) && (p != 0 ==> p in t && t[p].Free? && p < b)
    requires s in t && t[s].Free? && s != b
    ensures var m' := CarveMem(mem, t, p, b, lo, hi);
            && Rd(m', s) == Rd(mem, s)
            && Rd(m', s + 8) == if s == p && b == lo then CarveNext(mem, t, b, lo, hi) else Rd(mem, s + 8)
  {
    CarveKeeps(t, top, b, lo, hi, s);
    assert TileOk(s, t[s], top);
    if p != 0 { Apart(t, top, p, s); }
  }

  lemma CarveRest(mem: Mem, t: Tiles, top: nat, p: nat, b: nat, lo: nat, hi: nat)
    requires Tiled(t, top) && Carves(t, b, lo, hi) && (p != 0 ==> p in t && t[p].Free? && p < b)
    requires FreeHeader(mem, t, b)
    ensures var m' := CarveMem(mem, t, p, b, lo, hi);
            var t' := CarveTiles(t, b, lo, hi);
            && (b < lo ==> FreeHeader(m', t', b))
            && (hi < End(t, b) ==> FreeHeader(m', t', hi))
  {
    CarveInner(mem, t, top, b, lo, hi);
    if p != 0 { Apart(t, top, p, b); }
  }

  lemma CarveList(mem: Mem, head: nat, t: Tiles, top: nat, p: nat, b: nat, lo: nat, hi: nat)
    requires Tiled(t, top) && FreeList(mem, head, t) && Carves(t, b, lo, hi) && Pred(mem, head, t, p, b)
    ensures FreeList(CarveMem(mem, t, p, b, lo, hi),
                     if p == 0 then CarveNext(mem, t, b, lo, hi) else head, CarveTiles(t, b, lo, hi))
  {
    var m' := CarveMem(mem, t, p, b, lo, hi);
    var t' := CarveTiles(t, b, lo, hi);
    assert FreeHeader(mem, t, b);
    CarveRest(mem, t, top, p, b, lo, hi);
    CarveAbove(mem, t, top, b, lo, hi, 0, head);
    assert TileOk(b, t[b], top);
    forall s | s in t' && t'[s].Free? ensures FreeHeader(m', t', s) {
      if s in t && s != b {
        CarveKeeps(t, top, b, lo, hi, s);
        assert FreeHeader(mem, t, s);
        CarveAbove(mem, t, top, b, lo, hi, s, Rd(mem, s + 8));
        CarveOther(mem, t, top, p, b, lo, hi, s);
        if Rd(mem, s + 8) == b { OnePred(mem, head, t, top, p, b, s); }
      }
    }
    if p != 0 { HeadBelow(mem, head, t, p, b); }
  }

  lemma HeadBelow(mem: Mem, head: nat, t: Tiles, p: nat, b: nat)
    requires FreeList(mem, head, t) && Pred(mem, head, t, p, b) && p != 0
    ensures head != b
  {
    assert NextFree(t, 0, head);
    assert p in t && t[p].Free?;
  }

  lemma OnePred(mem: Mem, head: nat, t: Tiles, top: nat, p: nat, b: nat, s: nat)
    requires Tiled(t, top) && FreeList(mem, head, t) && Pred(mem, head, t, p, b) && b != 0
    requires s in t && t[s].Free? && Rd(mem, s + 8) == b
    ensures s == p
  {
    assert FreeHeader(mem, t, s);
    assert TileOk(s, t[s], top);
    if p != 0 { assert FreeHeader(mem, t, p); }
  }

  lemma CarveKept(mem: Mem, t: Tiles, top: nat, p: nat, b: nat, lo: nat, hi: nat)
    requires Tiled(t, top) && Carves(t, b, lo, hi) && (p != 0 ==> p in t && t[p].Free?)
    ensures Kept(mem, CarveMem(mem, t, p, b, lo, hi), t, 0)
  {
    var m' := CarveMem(mem, t, p, b, lo, hi);
    forall s, x | s in t && !t[s].Free? && s <= x < End(t, s) ensures Rd(m', x) == Rd(mem, x) {
      assert Before(t, s, b) && Before(t, b, s);
      if p != 0 { assert Before(t, s, p) && Before(t, p, s); }
    }
  }

  lemma CarveNoTouch(t: Tiles, top: nat, b: nat, lo: nat, hi: nat)
    requires Tiled(t, top) && Carves(t, b, lo, hi) && NoTouch(t)
    ensures NoTouch(CarveTiles(t, b, lo, hi))
  {
    var t' := CarveTiles(t, b, lo, hi);
    forall s ensures !Touches(t', s) {
      if Touches(t', s) {
        assert !Touches(t, s) && !Touches(t, b);
        if s in t && s != b { CarveKeeps(t, top, b, lo, hi, s); assert Followed(t, s, top) && Before(t, s, b); }
        assert TileOk(b, t[b], top) && Followed(t, b, top);
        var e := End(t', s);
        if e in t && e != b { CarveKeeps(t, top, b, lo, hi, e); }
      }
    }
  }

  // ---- relabelling, growing and trimming

  lemma RelabelTiled(t: Tiles, top: nat, b: nat, x: Tile)
    requires Tiled(t, top) && b in t && Size(x) == Size(t[b])
    requires (x.Big? ==> MMIN <= x.size) && (x.Run? ==> x.cls < NCLASS)
    ensures Tiled(t[b := x], top)
  {
    var t' := t[b := x];
    assert TileOk(b, t[b], top);
    forall s | s in t' ensures Followed(t', s, top) {
      assert Followed(t, s, top);
    }
    forall y, z | y in t' && z in t' ensures Before(t', y, z) {
      assert Before(t, y, z);
    }
  }

  lemma RelabelList(mem: Mem, head: nat, t: Tiles, b: nat, x: Tile)
    requires FreeList(mem, head, t) && b in t && !t[b].Free? && !x.Free?
    ensures FreeList(mem, head, t[b := x])
  {
    var t' := t[b := x];
    forall s | s in t' && t'[s].Free? ensures FreeHeader(mem, t', s) {
      assert FreeHeader(mem, t, s);
    }
  }

  lemma RelabelNoTouch(t: Tiles, b: nat, x: Tile)
    requires NoTouch(t) && b in t && !t[b].Free? && !x.Free?
    ensures NoTouch(t[b := x])
  {
    var t' := t[b := x];
    forall s ensures !Touches(t', s) {
      assert !Touches(t, s);
    }
  }

  lemma GrowTiled(t: Tiles, top: nat, n: nat)
    requires Tiled(t, top) && 16 <= n
    ensures top !in t && Tiled(t[top := Held(n)], top + n)
  {
    var t' := t[top := Held(n)];
    forall s | s in t ensures s + 16 <= top {
      assert TileOk(s, t[s], top);
    }
    forall s | s in t' ensures Followed(t', s, top + n) && TileOk(s, t'[s], top + n) {
      if s != top { assert Followed(t, s, top) && TileOk(s, t[s], top); }
    }
    forall y, z | y in t' && z in t' ensures Before(t', y, z) {
      if y != top { assert TileOk(y, t[y], top); }
      if z != top { assert TileOk(z, t[z], top); }
      if y != top && z != top { assert Before(t, y, z); }
    }
  }

  lemma GrowList(mem: Mem, head: nat, t: Tiles, top: nat, n: nat)
    requires Tiled(t, top) && FreeList(mem, head, t) && top !in t
    ensures FreeList(mem, head, t[top := Held(n)])
  {
    var t' := t[top := Held(n)];
    forall s | s in t' && t'[s].Free? ensures FreeHeader(mem, t', s) {
      assert FreeHeader(mem, t, s);
    }
  }

  lemma GrowNoTouch(t: Tiles, top: nat, n: nat)
    requires NoTouch(t) && top !in t
    ensures NoTouch(t[top := Held(n)])
  {
    var t' := t[top := Held(n)];
    forall s ensures !Touches(t', s) {
      assert !Touches(t, s);
    }
  }

  lemma TrimTiled(t: Tiles, top: nat, last: nat, from: nat)
    requires Tiled(t, top) && last in t && t[last].Free? && End(t, last) == top
    requires last + 16 <= from <= top && UHEAP_BASE + PGSIZE <= from
    ensures Tiled(t[last := Free(from - last)], from)
  {
    var t' := t[last := Free(from - last)];
    assert TileOk(last, t[last], top);
    forall s | s in t' ensures Followed(t', s, from) && TileOk(s, t'[s], from) {
      if s != last {
        assert Followed(t, s, top) && TileOk(s, t[s], top) && Before(t, s, last) && Before(t, last, s);
      }
    }
    forall y, z | y in t' && z in t' ensures Before(t', y, z) {
      assert Before(t, y, z) && TileOk(z, t[z], top);
      assert y == last && z != last ==> z <= last;
    }
  }

  lemma TrimList(mem: Mem, head: nat, t: Tiles, top: nat, last: nat, from: nat)
    requires Tiled(t, top) && FreeList(mem, head, t) && last in t && t[last].Free? && last + 16 <= from
    ensures FreeList(mem[last := from - last], head, t[last := Free(from - last)])
    ensures Kept(mem, mem[last := from - last], t, 0)
  {
    var t' := t[last := Free(from - last)];
    var m' := mem[last := from - last];
    forall s | s in t' && t'[s].Free? ensures FreeHeader(m', t', s) {
      assert FreeHeader(mem, t, s);
      Apart(t, top, s, last);
      assert NextFree(t', s, Rd(mem, s + 8));
    }
    forall s, x | s in t && !t[s].Free? && s <= x < End(t, s) ensures Rd(m', x) == Rd(mem, x) {
      assert Before(t, s, last) && Before(t, last, s);
    }
  }

  lemma TrimNoTouch(t: Tiles, top: nat, last: nat, from: nat)
    requires Tiled(t, top) && NoTouch(t) && last in t && t[last].Free? && End(t, last) == top
    requires last + 16 <= from <= top
    ensures NoTouch(t[last := Free(from - last)])
  {
    var t' := t[last := Free(from - last)];
    forall s ensures !Touches(t', s) {
      assert !Touches(t, s);
      forall e | e in t ensures e + 16 <= top && Before(t, last, e) && Before(t, e, last) {
        assert TileOk(e, t[e], top);
      }
    }
  }

  // ---- joining leaves nothing that touches

  lemma LinkTouch(t: Tiles, top: nat, p: nat, b: nat, n: nat, s: nat)
    requires Tiled(t, top) && NoTouch(t) && b in t && t[b].Held? && Between(t, p, b, n)
    ensures var t' := t[b := Free(t[b].size)];
            Touches(t', s) ==> (s == b && n != 0 && End(t', b) == n) || (s == p && p != 0 && End(t', p) == b)
  {
    var t' := t[b := Free(t[b].size)];
    if Touches(t', s) {
      assert !Touches(t, s);
      var e := End(t', s);
      assert Before(t, b, s);
      if s == b {
        assert n != 0 && n <= e;
        assert Before(t, b, n);
      } else {
        assert Before(t, s, b);
        assert e == b;
        assert TileOk(s, t[s], top) && Before(t, b, s);
        assert s <= p;
        assert p in t ==> Before(t, s, p);
      }
    }
  }

  lemma JoinTouch(t: Tiles, top: nat, a: nat, b: nat, s: nat)
    requires Tiled(t, top) && a in t && b in t && t[a].Free? && t[b].Free? && End(t, a) == b
    ensures Touches(JoinTiles(t, a, b), s) ==> Touches(t, if s == a then b else s)
  {
  }

  // ---- which tiles are taken

  function Taken(t: Tiles, s: nat): Tile {
    if s in t && !t[s].Free? then t[s] else Free(0)
  }

  ghost predicate SameTaken(t: Tiles, t': Tiles, except: nat) {
    forall s {:trigger Taken(t', s)} :: s != except ==> Taken(t', s) == Taken(t, s)
  }

  lemma KeptTrans(m0: Mem, m1: Mem, m2: Mem, t0: Tiles, t1: Tiles, b: nat, c: nat)
    requires Kept(m0, m1, t0, b) && SameTaken(t0, t1, b) && Kept(m1, m2, t1, c) && c in {0, b} && 0 !in t0
    ensures Kept(m0, m2, t0, b)
  {
    forall s, a | s in t0 && !t0[s].Free? && s != b && s <= a < End(t0, s) ensures Rd(m2, a) == Rd(m0, a) {
      assert Taken(t1, s) == Taken(t0, s);
    }
  }

  lemma SameTrans(t0: Tiles, t1: Tiles, t2: Tiles, b: nat, c: nat)
    requires SameTaken(t0, t1, b) && SameTaken(t1, t2, c) && c in {0, b} && 0 !in t0 && 0 !in t2
    ensures SameTaken(t0, t2, b)
  {
    forall s | s != b ensures Taken(t2, s) == Taken(t0, s) {
      assert Taken(t1, s) == Taken(t0, s);
      assert s != c ==> Taken(t2, s) == Taken(t1, s);
    }
  }

  /** Tiling, alignment and free list: what every step of the large path keeps. */
  ghost predicate Shape(mem: Mem, head: nat, t: Tiles, top: nat) {
    Tiled(t, top) && Aligned(t, top) && FreeList(mem, head, t)
  }

  ghost predicate Core(mem: Mem, head: nat, t: Tiles, top: nat) {
    Shape(mem, head, t, top) && NoTouch(t)
  }

  lemma LinkShape(mem: Mem, head: nat, t: Tiles, top: nat, p: nat, b: nat, n: nat)
    requires Shape(mem, head, t, top) && b in t && t[b].Held? && Between(t, p, b, n)
    ensures var m', t' := LinkMem(mem, p, b, n, t[b].size), t[b := Free(t[b].size)];
            && Shape(m', if p == 0 then b else head, t', top)
            && Kept(mem, m', t, b) && SameTaken(t, t', b) && Taken(t', b) == Free(0)
  {
    LinkTiled(t, top, b);
    LinkList(mem, head, t, top, p, b, n);
    LinkKept(mem, t, top, p, b, n);
    assert AlignedTile(b, t[b]);
  }

  lemma JoinAligned(t: Tiles, top: nat, a: nat, b: nat)
    requires Aligned(t, top) && a in t && b in t
    ensures Aligned(JoinTiles(t, a, b), top)
  {
    var t' := JoinTiles(t, a, b);
    assert AlignedTile(a, t[a]) && AlignedTile(b, t[b]);
    forall s | s in t' ensures AlignedTile(s, t'[s]) {
      if s != a { assert AlignedTile(s, t[s]); }
    }
  }

  lemma CarveAligned(t: Tiles, top: nat, b: nat, lo: nat, hi: nat)
    requires Aligned(t, top) && Carves(t, b, lo, hi) && lo % 16 == 0 && hi % 16 == 0
    ensures Aligned(CarveTiles(t, b, lo, hi), top)
  {
    var e, t' := End(t, b), CarveTiles(t, b, lo, hi);
    CarvedAligned(t, top, b, lo, hi);
    hide AlignedTile;
    forall s | s in t' ensures AlignedTile(s, t'[s]) {
      assert s in t && s != b && s != lo && s != hi ==> t'[s] == t[s] && AlignedTile(s, t[s]);
    }
  }

  /** The pieces a block is carved into. */
  lemma CarvedAligned(t: Tiles, top: nat, b: nat, lo: nat, hi: nat)
    requires Aligned(t, top) && Carves(t, b, lo, hi) && lo % 16 == 0 && hi % 16 == 0
    ensures AlignedTile(lo, Held(hi - lo)) && (b < lo ==> AlignedTile(b, Free(lo - b)))
    ensures hi < End(t, b) ==> AlignedTile(hi, Free(End(t, b) - hi))
  {
    assert AlignedTile(b, t[b]);
    Mod16(b, lo);
    Mod16(lo, hi);
    Mod16(hi, End(t, b));
  }

  lemma Mod16(x: nat, y: nat)
    requires x <= y && x % 16 == 0 && y % 16 == 0
    ensures (y - x) % 16 == 0
  {
  }

  lemma JoinShape(mem: Mem, head: nat, t: Tiles, top: nat, a: nat, b: nat)
    requires Shape(mem, head, t, top)
    requires a in t && b in t && t[a].Free? && t[b].Free? && End(t, a) == b
    ensures var m', t' := JoinMem(mem, a, b), JoinTiles(t, a, b);
            && Shape(m', head, t', top) && Kept(mem, m', t, 0) && SameTaken(t, t', 0)
  {
    JoinTiled(t, top, a, b);
    JoinList(mem, head, t, top, a, b);
    JoinKept(mem, t, top, a, b);
    JoinAligned(t, top, a, b);
  }

  lemma CarveShape(mem: Mem, head: nat, t: Tiles, top: nat, p: nat, b: nat, lo: nat, hi: nat)
    requires Shape(mem, head, t, top) && Carves(t, b, lo, hi) && Pred(mem, head, t, p, b)
    requires lo % 16 == 0 && hi % 16 == 0
    ensures var m', t' := CarveMem(mem, t, p, b, lo, hi), CarveTiles(t, b, lo, hi);
            && Shape(m', if p == 0 then CarveNext(mem, t, b, lo, hi) else head, t', top)
            && Kept(mem, m', t, 0) && SameTaken(t, t', lo) && t'[lo] == Held(hi - lo) && Taken(t, lo) == Free(0)
  {
    CarveTiled(t, top, b, lo, hi);
    CarveList(mem, head, t, top, p, b, lo, hi);
    CarveKept(mem, t, top, p, b, lo, hi);
    CarveTaken(t, top, b, lo, hi);
    CarveAligned(t, top, b, lo, hi);
  }

  lemma CarveTaken(t: Tiles, top: nat, b: nat, lo: nat, hi: nat)
    requires Tiled(t, top) && Carves(t, b, lo, hi)
    ensures var t' := CarveTiles(t, b, lo, hi);
            SameTaken(t, t', lo) && t'[lo] == Held(hi - lo) && Taken(t, lo) == Free(0)
  {
    var t' := CarveTiles(t, b, lo, hi);
    forall s | s != lo ensures Taken(t', s) == Taken(t, s) {
      if s in t && s != b { CarveKeeps(t, top, b, lo, hi, s); }
    }
    if lo in t && lo != b { CarveKeeps(t, top, b, lo, hi, lo); }
  }

  // ---- m__insert as a whole

  /** The large path's view of the heap. */
  datatype Pool = Pool(mem: Mem, head: nat, t: Tiles)

  ghost predicate PoolOk(s: Pool, top: nat) {
    Shape(s.mem, s.head, s.t, top)
  }

  /** s' is s with the region at b freed, and nothing else disturbed. */
  ghost predicate Freed(s: Pool, s': Pool, top: nat, b: nat) {
    && PoolOk(s', top) && Kept(s.mem, s'.mem, s.t, b)
    && SameTaken(s.t, s'.t, b) && Taken(s'.t, b) == Free(0)
  }

  function Link(s: Pool, p: nat, b: nat, n: nat): Pool
    requires b in s.t && s.t[b].Held?
  {
    Pool(LinkMem(s.mem, p, b, n, s.t[b].size), if p == 0 then b else s.head, s.t[b := Free(s.t[b].size)])
  }

  ghost predicate Joinable(s: Pool, a: nat, b: nat) {
    a in s.t && b in s.t && s.t[a].Free? && s.t[b].Free?
  }

  function JoinIf(s: Pool, a: nat, b: nat): Pool {
    if a != 0 && b != 0 && a in s.t && b in s.t && a + Rd(s.mem, a) == b
    then Pool(JoinMem(s.mem, a, b), s.head, JoinTiles(s.t, a, b))
    else s
  }

  function InsertSpec(s: Pool, p: nat, b: nat, n: nat): Pool
    requires b in s.t && s.t[b].Held?
  {
    JoinIf(JoinIf(Link(s, p, b, n), b, n), p, b)
  }

  lemma JoinIfFreed(s0: Pool, s: Pool, top: nat, x: nat, a: nat, b: nat)
    requires Tiled(s0.t, top) && Freed(s0, s, top, x) && (a != 0 && b != 0 ==> Joinable(s, a, b))
    ensures Freed(s0, JoinIf(s, a, b), top, x)
    ensures JoinIf(s, a, b) != s <==> a != 0 && b != 0 && End(s.t, a) == b
    ensures JoinIf(s, a, b) != s ==> JoinIf(s, a, b).t == JoinTiles(s.t, a, b)
  {
    if a != 0 && b != 0 {
      assert FreeHeader(s.mem, s.t, a);
      if End(s.t, a) == b {
        var s' := JoinIf(s, a, b);
        JoinShape(s.mem, s.head, s.t, top, a, b);
        NoZero(s0.t, top);
        NoZero(s'.t, top);
        KeptTrans(s0.mem, s.mem, s'.mem, s0.t, s.t, x, 0);
        SameTrans(s0.t, s.t, s'.t, x, 0);
        assert Before(s.t, a, b) && b in s.t && b !in s'.t;
        if x != 0 { assert Taken(s'.t, x) == Taken(s.t, x); }
      }
    }
  }

  lemma NoZero(t: Tiles, top: nat)
    requires Tiled(t, top)
    ensures 0 !in t
  {
    forall s | s in t ensures s != 0 {
      assert TileOk(s, t[s], top);
    }
  }

  /** After linking, only b and what follows it, or p and b, can be touching. */
  ghost predicate MayTouch(t: Tiles, a: nat, b: nat) {
    forall s {:trigger Touches(t, s)} :: Touches(t, s) ==> s == a && a != 0 && End(t, a) == b
  }

  lemma InsertTouch(t: Tiles, top: nat, p: nat, b: nat, n: nat, x: nat)
    requires Tiled(t, top) && NoTouch(t) && b in t && t[b].Held? && Between(t, p, b, n)
    ensures var t1 := t[b := Free(t[b].size)];
            && (n == 0 || End(t1, b) != n ==> Touches(t1, x) ==> x == p && p != 0 && End(t1, p) == b)
            && (n != 0 && End(t1, b) == n ==>
                  var t2 := JoinTiles(t1, b, n); Touches(t2, x) ==> x == p && p != 0 && End(t2, p) == b)
  {
    LinkTouch(t, top, p, b, n, x);
    var t1 := t[b := Free(t[b].size)];
    if n != 0 && End(t1, b) == n {
      LinkTiled(t, top, b);
      LinkTouch(t, top, p, b, n, n);
      JoinTouch(t1, top, b, n, x);
    }
  }

  lemma InsertNext(s: Pool, top: nat, p: nat, b: nat, n: nat)
    requires PoolOk(s, top) && NoTouch(s.t) && b in s.t && s.t[b].Held? && Between(s.t, p, b, n)
    ensures var s2 := JoinIf(Link(s, p, b, n), b, n);
            Freed(s, s2, top, b) && MayTouch(s2.t, p, b) && (p != 0 ==> Joinable(s2, p, b))
  {
    var s1 := Link(s, p, b, n);
    LinkShape(s.mem, s.head, s.t, top, p, b, n);
    NoZero(s.t, top);
    JoinIfFreed(s, s1, top, b, b, n);
    var s2 := JoinIf(s1, b, n);
    forall x ensures Touches(s2.t, x) ==> x == p && p != 0 && End(s2.t, p) == b {
      InsertTouch(s.t, top, p, b, n, x);
    }
  }

  lemma InsertOk(s: Pool, top: nat, p: nat, b: nat, n: nat)
    requires PoolOk(s, top) && NoTouch(s.t) && b in s.t && s.t[b].Held? && Between(s.t, p, b, n)
    ensures Freed(s, InsertSpec(s, p, b, n), top, b) && NoTouch(InsertSpec(s, p, b, n).t)
  {
    InsertNext(s, top, p, b, n);
    var s2 := JoinIf(Link(s, p, b, n), b, n);
    NoZero(s.t, top);
    JoinIfFreed(s, s2, top, b, p, b);
    var s3 := JoinIf(s2, p, b);
    forall x ensures !Touches(s3.t, x) {
      assert !Touches(s2.t, b) && (x != p ==> !Touches(s2.t, x));
      if s3 != s2 {
        JoinTouch(s2.t, top, p, b, x);
      }
    }
  }

  /** Some free block contains the whole of [lo, hi). */
  ghost predicate FreeRoom(t: Tiles, lo: nat, hi: nat) {
    exists s :: s in t && t[s].Free? && s <= lo && hi <= End(t, s)
  }

  lemma JoinIfRoom(s: Pool, top: nat, a: nat, b: nat, lo: nat, hi: nat)
    requires PoolOk(s, top) && FreeRoom(s.t, lo, hi) && (a != 0 && b != 0 ==> Joinable(s, a, b))
    ensures FreeRoom(JoinIf(s, a, b).t, lo, hi)
  {
    var x :| x in s.t && s.t[x].Free? && x <= lo && hi <= End(s.t, x);
    var s' := JoinIf(s, a, b);
    if s' != s {
      assert FreeHeader(s.mem, s.t, a);
      var y := if x == b then a else x;
      assert y in s'.t && s'.t[y].Free? && y <= lo && hi <= End(s'.t, y);
    }
  }

  /** The freed region ends up inside one free block. */
  lemma InsertRoom(s: Pool, top: nat, p: nat, b: nat, n: nat)
    requires PoolOk(s, top) && NoTouch(s.t) && b in s.t && s.t[b].Held? && Between(s.t, p, b, n)
    ensures FreeRoom(InsertSpec(s, p, b, n).t, b, b + s.t[b].size)
  {
    var s1 := Link(s, p, b, n);
    var s2 := JoinIf(s1, b, n);
    LinkShape(s.mem, s.head, s.t, top, p, b, n);
    NoZero(s.t, top);
    assert b in s1.t && s1.t[b].Free? && End(s1.t, b) == b + s.t[b].size;
    JoinIfRoom(s1, top, b, n, b, b + s.t[b].size);
    InsertNext(s, top, p, b, n);
    JoinIfRoom(s2, top, p, b, b, b + s.t[b].size);
  }

  /** The heap after sbrk has mapped fresh, zeroed pages from from on. */
  function Fresh(mem: Mem, from: nat): Mem {
    map a | a in mem && a < from :: mem[a]
  }

  lemma GrowCore(mem: Mem, head: nat, t: Tiles, top: nat, n: nat)
    requires Core(mem, head, t, top) && 16 <= n && n % PGSIZE == 0
    ensures top !in t && Core(Fresh(mem, top), head, t[top := Held(n)], top + n)
    ensures Kept(mem, Fresh(mem, top), t, 0) && SameTaken(t, t[top := Held(n)], top)
  {
    var m', t' := Fresh(mem, top), t[top := Held(n)];
    GrowTiled(t, top, n);
    FreshList(mem, head, t, top);
    GrowList(m', head, t, top, n);
    GrowNoTouch(t, top, n);
    forall s, a | s in t && !t[s].Free? && s <= a < End(t, s) ensures Rd(m', a) == Rd(mem, a) {
      assert TileOk(s, t[s], top);
    }
    GrowAligned(t, top, n);
  }

  lemma GrowAligned(t: Tiles, top: nat, n: nat)
    requires Aligned(t, top) && n % PGSIZE == 0
    ensures Aligned(t[top := Held(n)], top + n)
  {
    PageMod16(n);
    PageMod16(top);
    assert (top + n) % PGSIZE == 0;
  }

  lemma FreshList(mem: Mem, head: nat, t: Tiles, top: nat)
    requires Tiled(t, top) && FreeList(mem, head, t)
    ensures FreeList(Fresh(mem, top), head, t)
  {
    forall s | s in t && t[s].Free? ensures FreeHeader(Fresh(mem, top), t, s) {
      assert FreeHeader(mem, t, s) && TileOk(s, t[s], top);
    }
  }

  lemma TrimCore(mem: Mem, head: nat, t: Tiles, top: nat, last: nat, from: nat)
    requires Core(mem, head, t, top) && last in t && t[last].Free? && End(t, last) == top
    requires last + 16 <= from <= top && UHEAP_BASE + PGSIZE <= from && from % PGSIZE == 0
    ensures var m', t' := mem[last := from - last], t[last := Free(from - last)];
            Core(m', head, t', from) && Kept(mem, m', t, 0) && SameTaken(t, t', 0)
  {
    TrimTiled(t, top, last, from);
    TrimList(mem, head, t, top, last, from);
    TrimNoTouch(t, top, last, from);
    TrimAligned(t, top, last, from);
  }

  lemma TrimAligned(t: Tiles, top: nat, last: nat, from: nat)
    requires Aligned(t, top) && last in t && last <= from && from % PGSIZE == 0
    ensures Aligned(t[last := Free(from - last)], from)
  {
    assert AlignedTile(last, t[last]);
    assert from % 16 == 0;
    Mod16(last, from);
  }

  /** A region that appears and is then freed leaves the taken tiles as they were. */
  lemma ThroughTransit(m0: Mem, m1: Mem, m2: Mem, t0: Tiles, t1: Tiles, t2: Tiles, b: nat)
    requires Kept(m0, m1, t0, 0) && SameTaken(t0, t1, b) && Taken(t0, b) == Free(0)
    requires Kept(m1, m2, t1, b) && SameTaken(t1, t2, b) && Taken(t2, b) == Free(0)
    requires 0 !in t0
    ensures Kept(m0, m2, t0, 0) && SameTaken(t0, t2, 0)
  {
    forall s, a | s in t0 && !t0[s].Free? && s <= a < End(t0, s) ensures Rd(m2, a) == Rd(m0, a) {
      assert Taken(t0, s) == t0[s] && s != b;
      assert Taken(t1, s) == Taken(t0, s);
    }
    forall s ensures Taken(t2, s) == Taken(t0, s) {
      assert s != b ==> Taken(t1, s) == Taken(t0, s) && Taken(t2, s) == Taken(t1, s);
    }
  }

  lemma RelabelCore(mem: Mem, head: nat, t: Tiles, top: nat, b: nat, x: Tile)
    requires Core(mem, head, t, top) && b in t && !t[b].Free? && !x.Free? && Size(x) == Size(t[b])
    requires (x.Big? ==> MMIN <= x.size) && (x.Run? ==> x.cls < NCLASS && b % PGSIZE == 0)
    ensures Core(mem, head, t[b := x], top)
  {
    RelabelTiled(t, top, b, x);
    RelabelList(mem, head, t, b, x);
    RelabelNoTouch(t, b, x);
    assert AlignedTile(b, t[b]);
  }

  /** Writing inside one taken tile concerns nobody else. */
  lemma WriteCore(mem: Mem, mem': Mem, head: nat, t: Tiles, top: nat, b: nat)
    requires Core(mem, head, t, top) && b in t && !t[b].Free?
    requires forall a: nat :: a < b || End(t, b) <= a ==> Rd(mem', a) == Rd(mem, a)
    ensures Core(mem', head, t, top) && Kept(mem, mem', t, b)
  {
    forall s | s in t && t[s].Free? ensures FreeHeader(mem', t, s) {
      assert FreeHeader(mem, t, s) && TileOk(s, t[s], top);
      assert Before(t, s, b) && Before(t, b, s);
    }
    forall s, a | s in t && !t[s].Free? && s != b && s <= a < End(t, s) ensures Rd(mem', a) == Rd(mem, a) {
      assert Before(t, s, b) && Before(t, b, s);
    }
  }

  lemma WriteKept(m0: Mem, m1: Mem, m2: Mem, t0: Tiles, t1: Tiles, b: nat)
    requires Kept(m0, m1, t0, 0) && SameTaken(t0, t1, b) && Taken(t0, b) == Free(0) && Kept(m1, m2, t1, b) && 0 !in t0
    ensures Kept(m0, m2, t0, 0)
  {
    forall s, a | s in t0 && !t0[s].Free? && s <= a < End(t0, s) ensures Rd(m2, a) == Rd(m0, a) {
      assert Taken(t0, s) == t0[s] && s != b;
      assert Taken(t1, s) == Taken(t0, s);
    }
  }

  /** Where m__big cuts a block: at the size wanted, unless what would be left is
      too small to be a block of its own. */
  function BigCut(b: nat, size: nat, want: nat): (hi: nat)
    requires want <= size
  {
    if size - want >= MMIN then b + want else b + size
  }

  lemma BigCutOk(t: Tiles, top: nat, b: nat, want: nat)
    requires Tiled(t, top) && Aligned(t, top) && b in t && t[b].Free?
    requires MMIN <= want <= t[b].size && want % 16 == 0
    ensures var hi := BigCut(b, t[b].size, want);
            Carves(t, b, b, hi) && b % 16 == 0 && hi % 16 == 0 && want <= hi - b
  {
    assert TileOk(b, t[b], top) && AlignedTile(b, t[b]);
  }

  lemma RelabelSame(t0: Tiles, t1: Tiles, b: nat, x: Tile)
    requires SameTaken(t0, t1, b)
    ensures SameTaken(t0, t1[b := x], b)
  {
    var t2 := t1[b := x];
    forall s | s != b ensures Taken(t2, s) == Taken(t0, s) {
      assert Taken(t1, s) == Taken(t0, s);
    }
  }

  lemma SameTaken2(t0: Tiles, t1: Tiles, t2: Tiles, b: nat)
    requires SameTaken(t0, t1, 0) && SameTaken(t1, t2, b) && 0 !in t0 && 0 !in t1
    ensures SameTaken(t0, t2, b) && Taken(t0, b) == Taken(t1, b)
  {
    forall s ensures Taken(t1, s) == Taken(t0, s) {
    }
    forall s | s != b ensures Taken(t2, s) == Taken(t0, s) {
      assert Taken(t1, s) == Taken(t0, s);
    }
  }

  // ---- where m__page finds a page inside a free block

  /** The first page boundary in the block that leaves no crumb in front of it. */
  function PageIn(b: nat): (page: nat)
    ensures b <= page && page % PGSIZE == 0 && (page == b || b + MMIN <= page)
  {
    var page := PgUp(b);
    if page != b && page - b < MMIN then page + PGSIZE else page
  }

  predicate PageFits(b: nat, size: nat) {
    var page, end := PageIn(b), b + size;
    page + PGSIZE == end || page + PGSIZE + MMIN <= end
  }

  lemma PageCutOk(t: Tiles, b: nat)
    requires b in t && t[b].Free? && PageFits(b, t[b].size)
    ensures Carves(t, b, PageIn(b), PageIn(b) + PGSIZE)
    ensures PageIn(b) % 16 == 0 && (PageIn(b) + PGSIZE) % 16 == 0
  {
    PageMod16(PageIn(b));
    PageMod16(PageIn(b) + PGSIZE);
  }

  lemma PageMod16(x: nat)
    requires x % PGSIZE == 0
    ensures x % 16 == 0
  {
    assert x == 16 * (256 * (x / PGSIZE));
  }

  lemma KeptWeaken(m: Mem, m': Mem, t: Tiles, b: nat)
    requires Kept(m, m', t, 0) && 0 !in t
    ensures Kept(m, m', t, b)
  {
    forall s, a | s in t && !t[s].Free? && s != b && s <= a < End(t, s) ensures Rd(m', a) == Rd(m, a) {
      assert Taken(t, s) == t[s];
    }
  }
}
