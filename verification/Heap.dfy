/** The allocator of src/malloc.h itself. The fields are those of struct mheap;
    mem is the heap region, where the allocator keeps its block headers, its run
    headers, its slot links and its page map among the programs' own bytes. */
module HeapAllocator {
  import opened Cells
  import opened HeapModel
  import opened HeapRuns

  /** The walk of m__insert: the free blocks on either side of b. */
  method FindPlace(mem: Mem, head: nat, b: nat, ghost s: Pool, ghost top: nat) returns (prev: nat, cur: nat)
    requires PoolOk(s, top) && b in s.t && s.t[b].Held?
    requires head == s.head && mem == s.mem[b := s.t[b].size]
    ensures Between(s.t, prev, b, cur)
  {
    prev, cur := 0, head;
    while cur != 0 && cur < b
      invariant prev != 0 ==> prev in s.t && s.t[prev].Free? && prev < b
      invariant NextFree(s.t, prev, cur)
      decreases if cur == 0 then 0 else top + 1 - cur
    {
      Apart(s.t, top, cur, b);
      assert FreeHeader(s.mem, s.t, cur) && TileOk(cur, s.t[cur], top);
      prev, cur := cur, Rd(mem, cur + 8);
    }
  }

  /** The relinking of m__insert: b between prev and cur, then the two joins. */
  method Relink(mem: Mem, head: nat, prev: nat, b: nat, cur: nat, ghost s: Pool) returns (mem': Mem, head': nat)
    requires b in s.t && s.t[b].Held? && head == s.head && mem == s.mem[b := s.t[b].size] && b != 0
    requires prev != 0 ==> prev in s.t && prev < b
    requires cur != 0 ==> cur in s.t && b < cur
    ensures mem' == InsertSpec(s, prev, b, cur).mem && head' == InsertSpec(s, prev, b, cur).head
  {
    mem', head' := mem[b + 8 := cur], head;
    if prev != 0 { mem' := mem'[prev + 8 := b]; } else { head' := b; }
    ghost var s1 := Link(s, prev, b, cur);
    assert mem' == s1.mem;
    if cur != 0 && b + Rd(mem', b) == cur {
      mem' := JoinMem(mem', b, cur);
    }
    ghost var s2 := JoinIf(s1, b, cur);
    assert mem' == s2.mem && (prev != 0 ==> prev in s2.t && b in s2.t);
    if prev != 0 && prev + Rd(mem', prev) == b {
      mem' := JoinMem(mem', prev, b);
    }
  }

  /** The walk of m__trim to the end of the list. */
  method LastFree(mem: Mem, head: nat, ghost t: Tiles, ghost top: nat) returns (last: nat)
    requires Tiled(t, top) && FreeList(mem, head, t) && head != 0
    ensures last in t && t[last].Free? && Rd(mem, last + 8) == 0 && NextFree(t, last, 0)
  {
    last := head;
    assert FreeHeader(mem, t, last);
    while Rd(mem, last + 8) != 0
      invariant last in t && t[last].Free? && FreeHeader(mem, t, last)
      decreases top - last
    {
      last := Rd(mem, last + 8);
      assert TileOk(last, t[last], top);
    }
  }

  /** The search of m__big: the first free block that is large enough. */
  method FirstFit(mem: Mem, head: nat, want: nat, ghost t: Tiles, ghost top: nat) returns (prev: nat, b: nat)
    requires Tiled(t, top) && FreeList(mem, head, t)
    ensures b != 0 ==> b in t && t[b].Free? && want <= t[b].size && Pred(mem, head, t, prev, b)
    ensures forall s :: s in t && t[s].Free? && (b == 0 || s < b) ==> t[s].size < want
  {
    prev, b := 0, head;
    NoZero(t, top);
    while b != 0
      invariant b != 0 ==> b in t && t[b].Free? && Pred(mem, head, t, prev, b)
      invariant NextFree(t, prev, b)
      invariant forall s :: s in t && t[s].Free? && s <= prev ==> t[s].size < want
      decreases if b == 0 then 0 else top + 1 - b
    {
      assert FreeHeader(mem, t, b) && TileOk(b, t[b], top);
      if Rd(mem, b) >= want { return; }
      prev, b := b, Rd(mem, b + 8);
    }
  }

  /** The search of m__page: the first free block with a page in it that leaves no
      crumb on either side. */
  method FirstPage(mem: Mem, head: nat, ghost t: Tiles, ghost top: nat) returns (prev: nat, b: nat)
    requires Tiled(t, top) && FreeList(mem, head, t)
    ensures b != 0 ==> b in t && t[b].Free? && PageFits(b, t[b].size) && Pred(mem, head, t, prev, b)
    ensures forall s :: s in t && t[s].Free? && (b == 0 || s < b) ==> !PageFits(s, t[s].size)
  {
    prev, b := 0, head;
    NoZero(t, top);
    while b != 0
      invariant b != 0 ==> b in t && t[b].Free? && Pred(mem, head, t, prev, b)
      invariant NextFree(t, prev, b)
      invariant forall s :: s in t && t[s].Free? && s <= prev ==> !PageFits(s, t[s].size)
      decreases if b == 0 then 0 else top + 1 - b
    {
      assert FreeHeader(mem, t, b) && TileOk(b, t[b], top);
      if PageFits(b, Rd(mem, b)) { return; }
      prev, b := b, Rd(mem, b + 8);
    }
  }

  /** The unlinking of m__big and m__page: the block's lead and tail, whichever
      exist, stay on the list in its place. */
  method Cut(mem: Mem, head: nat, prev: nat, b: nat, lo: nat, hi: nat, ghost t: Tiles) returns (mem': Mem, head': nat)
    requires Carves(t, b, lo, hi) && Rd(mem, b) == t[b].size
    requires prev != 0 ==> prev < b
    ensures mem' == CarveMem(mem, t, prev, b, lo, hi)
    ensures head' == if b == lo && prev == 0 then CarveNext(mem, t, b, lo, hi) else head
  {
    var end, next := b + Rd(mem, b), Rd(mem, b + 8);
    mem', head' := mem, head;
    if hi < end {
      mem' := mem'[hi := end - hi][hi + 8 := next];
    }
    if b < lo {
      mem' := mem'[b := lo - b];
      if hi < end { mem' := mem'[b + 8 := hi]; }
    } else {
      var rest := if hi < end then hi else next;
      if prev != 0 { mem' := mem'[prev + 8 := rest]; } else { head' := rest; }
    }
  }

  /** The copying loop of m__dir_cover. */
  method CopyMap(mem: Mem, dir: nat, dirlen: nat, d: nat, want: nat) returns (mem': Mem)
    requires dirlen == 0 || dir + dirlen <= d || d + want <= dir
    ensures forall a: nat :: a < d || d + want <= a ==> Rd(mem', a) == Rd(mem, a)
    ensures forall a: nat :: d <= a < d + want ==> Rd(mem', a) == MapByte(mem, dir, dirlen, a - d)
  {
    mem' := mem;
    var i := 0;
    while i < want
      invariant 0 <= i <= want
      invariant forall a: nat :: a < d || d + i <= a ==> Rd(mem', a) == Rd(mem, a)
      invariant forall a: nat :: d <= a < d + i ==> Rd(mem', a) == MapByte(mem, dir, dirlen, a - d)
    {
      assert i < dirlen ==> Rd(mem', dir + i) == Rd(mem, dir + i);
      ghost var m1 := mem';
      mem' := mem'[d + i := if i < dirlen then Rd(mem', dir + i) else 0];
      forall a: nat | d <= a < d + i + 1 ensures Rd(mem', a) == MapByte(mem, dir, dirlen, a - d) {
        assert a < d + i ==> Rd(m1, a) == MapByte(mem, dir, dirlen, a - d);
        assert a == d + i ==> a - d == i;
      }
      i := i + 1;
    }
  }

  /** The doubling loop of m__dir_cover. */
  method MapLength(dirlen: nat, idx: nat) returns (want: nat)
    ensures dirlen < want && idx < want && 2 * dirlen <= want
    ensures want <= 2 * dirlen || want <= 4 * MAXSMALL || want <= 2 * idx
  {
    want := if dirlen != 0 then dirlen * 2 else 4 * MAXSMALL;
    while want <= idx
      invariant dirlen < want && 2 * dirlen <= want
      invariant want <= 2 * dirlen || want <= 4 * MAXSMALL || want <= 2 * idx
      decreases idx + 1 - want
    {
      want := want * 2;
    }
  }

  lemma SlotsFit(k: nat, sz: nat, room: nat)
    requires 0 < sz && k * sz <= room < (k + 1) * sz
    ensures room / sz == k
  {
    var q := room / sz;
    assert q * sz <= room < (q + 1) * sz;
    if q < k { MulMono(sz, q + 1, k); }
  }

  lemma SlotMultiple(k: nat, sz: nat)
    requires 0 < sz
    ensures (k * sz) % sz == 0
  {
    SlotsFit(k, sz, k * sz);
    assert k * sz == sz * (k * sz / sz) + (k * sz) % sz;
  }

  /** The carving loop of m__newrun: slots threaded from the end of the page down. */
  method Carve(mem: Mem, page: nat, c: nat, next: nat) returns (mem': Mem, ghost fs: seq<nat>)
    requires c < NCLASS && PGSIZE <= page
    ensures RunOk(mem', page, c, fs, {}) && fs != [] && Rd(mem', page) == next
    ensures forall a: nat :: a < page || page + PGSIZE <= a ==> Rd(mem', a) == Rd(mem, a)
  {
    var sz := ClassSize(c);
    mem' := mem[page := next][page + 16 := c][page + 18 := 0][page + 8 := 0];
    fs := [];
    var p := page + PGSIZE - sz;
    ghost var k := 0;
    while p >= page + MRUNHDR
      invariant k == |fs| && p + (k + 1) * sz == page + PGSIZE && k * sz <= PGSIZE - MRUNHDR
      invariant Chain(mem', Rd(mem', page + 8), fs) && Distinct(fs)
      invariant forall x :: x in fs ==> IsSlot(c, page, x) && p < x
      invariant Rd(mem', page) == next && Rd(mem', page + 16) == c && Rd(mem', page + 18) == 0
      invariant forall a: nat :: a < page || page + PGSIZE <= a ==> Rd(mem', a) == Rd(mem, a)
      decreases p
    {
      SlotMultiple(k + 1, sz);
      ghost var m1 := mem';
      mem' := mem'[p := Rd(mem', page + 8)][page + 8 := p];
      ChainFrame(m1, mem', Rd(m1, page + 8), fs);
      ghost var fs' := [p] + fs;
      assert fs'[1..] == fs;
      fs := fs';
      assert (k + 2) * sz == (k + 1) * sz + sz;
      p := p - sz;
      k := k + 1;
    }
    SlotsFit(k, sz, PGSIZE - MRUNHDR);
  }

  lemma StillIdle(s0: Snap, s2: Snap, s: Snap, r: nat)
    requires forall x :: !Taken(s0.t, x).Held?
    requires r in s0.t && s2.t == s0.t[r := Held(PGSIZE)] && SameTaken(s2.t, s.t, r) && Taken(s.t, r) == Free(0)
    ensures forall x :: !Taken(s.t, x).Held?
  {
    forall x ensures !Taken(s.t, x).Held? {
      assert !Taken(s0.t, x).Held?;
      assert x != r ==> Taken(s.t, x) == Taken(s2.t, x);
    }
  }

  const WORD: nat := 0x1_0000_0000_0000_0000
  const HALFWORD: nat := 0x8000_0000_0000_0000

  /** The block size m__big computes, in 64 bits. */
  function Want(n: nat): nat { (n + MHDR + 15) % WORD / 16 * 16 }

  /** The long that m__grow hands to sys_sbrk. */
  function Asked(need: nat): int {
    var n := PgUp(need) % WORD;
    if n < HALFWORD then n else n - WORD
  }

  /** A size that m__big does not refuse as wrapped, but that m__grow cannot ask for. */
  predicate Absurd(n: nat) { n + MHDR + 15 < WORD && HALFWORD <= PgUp(MAlign(n + MHDR)) }

  /** What m__grow asks for is what it needs, as long as that is less than 2^63 bytes and
      the number it asks for is positive. */
  lemma AskedWhole(need: nat)
    requires 0 < need < WORD && Asked(need) > 0
    ensures PgUp(need) % WORD == PgUp(need) < HALFWORD
  {
  }

  lemma AskedFew(need: nat)
    requires 0 < need <= UHEAP_TOP
    ensures Asked(need) > 0
  {
  }

  /** The test of m__big catches exactly the sizes whose sum wrapped. Of the others, the
      kernel is asked for the pages needed unless the size is absurd; then it is asked
      for none, or for a negative number. */
  lemma AskedIs(n: nat)
    requires 0 < n < WORD
    ensures Want(n) < n <==> WORD <= n + MHDR + 15
    ensures n <= Want(n) ==> Want(n) == MAlign(n + MHDR)
    ensures n <= Want(n) ==> (Asked(Want(n)) == PgUp(Want(n)) <==> !Absurd(n)) && (Absurd(n) ==> Asked(Want(n)) <= 0)
  {
    if n + MHDR + 15 < WORD {
      assert Want(n) == MAlign(n + MHDR);
      assert MAlign(n + MHDR) <= n + MHDR + 15 < WORD;
    } else {
      assert (n + MHDR + 15) % WORD == n + MHDR + 15 - WORD;
    }
  }

  /** calloc's product, as a 64-bit multiplication leaves it. */
  function Product(n: nat, size: nat): nat {
    n * size % WORD
  }

  /** calloc's division catches exactly the products that wrapped. */
  lemma CallocOverflow(n: nat, size: nat)
    requires 0 < n
    ensures Product(n, size) / n == size <==> n * size < WORD
  {
    var x := Product(n, size);
    if n * size < WORD {
      Quotient(n, size);
    } else {
      assert x == n * (x / n) + x % n;
    }
  }

  lemma Quotient(n: nat, size: nat)
    requires 0 < n
    ensures n * size / n == size
  {
    SlotsFit(size, n, n * size);
  }

  /** The page map is never asked to be absurd. */
  lemma MapFits(mem: Mem, head: nat, heads: seq<nat>, g: Runs, dir: nat, dirlen: nat, t: Tiles, top: nat, page: nat,
      want: nat)
    requires Core(mem, head, t, top) && top <= UHEAP_TOP && Rest(mem, heads, g, dir, dirlen, t)
    requires UHEAP_BASE <= page < UHEAP_TOP && 0 < want
    requires want <= 2 * dirlen || want <= 4 * MAXSMALL || want <= 2 * PageNo(page)
    ensures want + MHDR + 15 < WORD && !Absurd(want)
  {
    if dirlen > 0 { assert TileOk(dir - MHDR, t[dir - MHDR], top); }
  }

  lemma ObjectFits(s: Snap, head: nat, heads: seq<nat>, dirlen: nat, top: nat, p: nat, z: nat, n: nat)
    requires Core(s.mem, head, s.t, top) && Rest(s.mem, heads, s.g, s.dir, dirlen, s.t) && top <= UHEAP_TOP
    requires Obj(s, p, z) && n <= z
    ensures !Absurd(n)
  {
    hide Core, Rest;
    ObjectAligned(s.mem, head, heads, s.g, s.dir, dirlen, s.t, top, p, z);
  }

  /** m__copy between two regions that do not overlap. */
  method CopyBytes(mem: Mem, q: nat, p: nat, n: nat) returns (mem': Mem)
    requires p + n <= q || q + n <= p
    ensures OnlyInside(mem, mem', q, n)
    ensures SameBytes(mem', q, mem, p, n)
  {
    mem' := mem;
    var i := 0;
    while i < n
      invariant 0 <= i <= n && OnlyInside(mem, mem', q, n)
      invariant SameBytes(mem', q, mem, p, i)
    {
      ghost var m1 := mem';
      mem' := mem'[q + i := Rd(mem', p + i)];
      forall j: nat | j < i + 1 ensures Byte(mem', q, j) == Byte(mem, p, j) {
        assert j < i ==> Byte(m1, q, j) == Byte(mem, p, j);
      }
      i := i + 1;
    }
  }

  /** m__zero. */
  method ZeroBytes(mem: Mem, p: nat, n: nat) returns (mem': Mem)
    ensures OnlyInside(mem, mem', p, n)
    ensures forall a: nat :: p <= a < p + n ==> Rd(mem', a) == 0
  {
    mem' := mem;
    var i := 0;
    while i < n
      invariant 0 <= i <= n && OnlyInside(mem, mem', p, n)
      invariant forall a: nat :: p <= a < p + i ==> Rd(mem', a) == 0
    {
      ghost var m1 := mem';
      mem' := mem'[p + i := 0];
      assert forall a: nat :: p <= a < p + i ==> Rd(m1, a) == 0 && Rd(mem', a) == Rd(m1, a);
      i := i + 1;
    }
  }

  /** The search of m__free for an emptied run in its class list. */
  method FindRun(mem: Mem, head: nat, r: nat, ghost l: seq<nat>)
      returns (prev: nat, ghost done: seq<nat>, ghost rest: seq<nat>)
    requires Chain(mem, head, l) && r in l
    ensures l == done + rest && rest != [] && rest[0] == r
    ensures prev == if done == [] then 0 else done[|done| - 1]
    ensures done != [] ==> prev != 0
  {
    prev, done, rest := 0, [], l;
    var cur := head;
    while cur != r
      invariant l == done + rest && Chain(mem, cur, rest) && r in rest
      invariant prev == if done == [] then 0 else done[|done| - 1]
      invariant done != [] ==> prev != 0
      decreases rest
    {
      done, rest := done + [rest[0]], rest[1..];
      prev, cur := cur, Rd(mem, cur);
    }
  }

  class Heap {
    var mem: Mem
    var head: nat
    var top: nat
    var runs: seq<nat>
    var dir: nat
    var dirlen: nat
    var runPages: nat

    ghost var t: Tiles
    ghost var g: Runs

    /** What the large path keeps: the tiling and its free list. */
    ghost predicate PoolValid()
      reads `mem, `head, `t, `top
    {
      Core(mem, head, t, top) && top <= UHEAP_TOP
    }

    /** m__insert: the block goes onto the list and joins whatever it touches. */
    method Insert(b: nat, size: nat)
      requires PoolValid() && b in t && t[b] == Held(size)
      modifies `mem, `head, `t
      ensures PoolValid()
      ensures Kept(old(mem), mem, old(t), b) && SameTaken(old(t), t, b) && Taken(t, b) == Free(0)
      ensures FreeRoom(t, b, b + size)
    {
      ghost var s0 := Pool(mem, head, t);
      NoZero(t, top);
      mem := mem[b := size];
      var prev, cur := FindPlace(mem, head, b, s0, top);
      InsertOk(s0, top, prev, b, cur);
      InsertRoom(s0, top, prev, b, cur);
      mem, head := Relink(mem, head, prev, b, cur, s0);
      t := InsertSpec(s0, prev, b, cur).t;
    }

    /** m__trim: whole pages at the end of the heap go back to the kernel, past a
        margin. The kernel may refuse. */
    method Trim()
      requires PoolValid()
      modifies `mem, `t, `top
      ensures PoolValid()
      ensures Kept(old(mem), mem, old(t), 0) && SameTaken(old(t), t, 0) && top <= old(top)
    {
      if head == 0 { return; }
      var last := LastFree(mem, head, t, top);
      assert FreeHeader(mem, t, last);
      if last + Rd(mem, last) != top { return; }
      var from := PgUp(last + MHDR);
      if from < UHEAP_BASE + PGSIZE { from := UHEAP_BASE + PGSIZE; }
      if top <= from || top - from < MTRIM { return; }
      var granted: bool := *;
      if granted {
        TrimCore(mem, head, t, top, last, from);
        top := from;
        mem := mem[last := from - last];
        t := t[last := Free(from - last)];
      }
    }

    /** m__grow: fresh pages from the kernel, which may refuse. Asked for none, or for a
        negative number, it does not: it answers with the old break, and the first store of
        m__insert, to the page behind it, faults. */
    method Grow(need: nat) returns (ok: bool, fault: bool)
      requires PoolValid() && 0 < need < WORD
      modifies `mem, `head, `t, `top
      ensures fault <==> Asked(need) <= 0
      ensures !fault ==> PoolValid() && Kept(old(mem), mem, old(t), 0) && SameTaken(old(t), t, 0)
      ensures ok && !fault ==> exists s :: s in t && t[s].Free? && need <= t[s].size
    {
      var n := PgUp(need) % WORD;
      fault := Asked(need) <= 0;
      if fault {
        top := (top + n) % WORD;
        return true, true;
      }
      var granted: bool := *;
      if !granted || top + n > UHEAP_TOP {
        return false, false;
      }
      AskedWhole(need);
      var p := top;
      ghost var t0 := t;
      NoZero(t, top);
      GrowCore(mem, head, t, top, n);
      mem := Fresh(mem, p);
      top := p + n;
      t := t[p := Held(n)];
      ghost var m1, t1 := mem, t;
      Insert(p, n);
      ThroughTransit(old(mem), m1, mem, t0, t1, t, p);
      ok := true;
    }

    /** Takes [lo, hi) out of the free block at b. */
    method Take(prev: nat, b: nat, lo: nat, hi: nat)
      requires PoolValid() && Carves(t, b, lo, hi) && Pred(mem, head, t, prev, b)
      requires lo % 16 == 0 && hi % 16 == 0
      modifies `mem, `head, `t
      ensures PoolValid()
      ensures lo in t && t[lo] == Held(hi - lo)
      ensures Kept(old(mem), mem, old(t), 0) && SameTaken(old(t), t, lo) && Taken(old(t), lo) == Free(0)
    {
      assert FreeHeader(mem, t, b);
      CarveShape(mem, head, t, top, prev, b, lo, hi);
      CarveNoTouch(t, top, b, lo, hi);
      ghost var t' := CarveTiles(t, b, lo, hi);
      mem, head := Cut(mem, head, prev, b, lo, hi, t);
      t := t';
    }

    /** A block off the list, with its size in its header, ready to be handed out. */
    method Claim(prev: nat, b: nat, hi: nat)
      requires PoolValid() && Carves(t, b, b, hi) && Pred(mem, head, t, prev, b)
      requires b % 16 == 0 && hi % 16 == 0 && MMIN <= hi - b
      modifies `mem, `head, `t
      ensures PoolValid()
      ensures BigAt(b, hi - b) && SameTaken(old(t), t, b) && Taken(old(t), b) == Free(0)
      ensures Kept(old(mem), mem, old(t), 0)
    {
      NoZero(t, top);
      ghost var t0 := t;
      Take(prev, b, b, hi);
      ghost var m1, t1 := mem, t;
      mem := mem[b := hi - b];
      WriteCore(m1, mem, head, t, top, b);
      WriteKept(old(mem), m1, mem, t0, t1, b);
      RelabelCore(mem, head, t, top, b, Big(hi - b));
      RelabelSame(t0, t, b, Big(hi - b));
      t := t[b := Big(hi - b)];
    }

    /** One pass of m__big over the free list. */
    method BigTry(want: nat) returns (p: nat)
      requires PoolValid() && MMIN <= want && want % 16 == 0
      modifies `mem, `head, `t
      ensures PoolValid()
      ensures p == 0 ==> t == old(t) && mem == old(mem) && forall s :: s in t && t[s].Free? ==> t[s].size < want
      ensures p != 0 ==>
              MHDR <= p && BigAt(p - MHDR, want) && SameTaken(old(t), t, p - MHDR)
              && Taken(old(t), p - MHDR) == Free(0)
      ensures Kept(old(mem), mem, old(t), 0)
    {
      var prev, b := FirstFit(mem, head, want, t, top);
      if b == 0 { return 0; }
      assert FreeHeader(mem, t, b);
      BigCutOk(t, top, b, want);
      var hi := BigCut(b, Rd(mem, b), want);
      Claim(prev, b, hi);
      p := b + MHDR;
    }

    ghost predicate BigAt(s: nat, want: nat)
      reads `mem, `t
    {
      s in t && t[s].Big? && want <= t[s].size && Rd(mem, s) == t[s].size
    }

    /** m__big: first fit, and one attempt to grow the heap. Fails only when the
        kernel has refused to grow it. */
    method BigAlloc(n: nat) returns (p: nat, fault: bool, ghost refused: bool)
      requires PoolValid() && 0 < n && n + MHDR + 15 < WORD
      modifies `mem, `head, `t, `top
      ensures fault <==> Absurd(n)
      ensures !fault ==> PoolValid() && Kept(old(mem), mem, old(t), 0)
      ensures !fault && p == 0 ==> refused && SameTaken(old(t), t, 0)
      ensures !fault && p != 0 ==>
              MHDR <= p && BigAt(p - MHDR, n + MHDR) && SameTaken(old(t), t, p - MHDR)
              && Taken(old(t), p - MHDR) == Free(0)
    {
      AskedIs(n);
      fault := false;
      var want := MAlign(n + MHDR);
      refused := false;
      var pass := 0;
      NoZero(t, top);
      while pass < 2
        invariant 0 <= pass <= 1 && !refused
        invariant PoolValid() && SameTaken(old(t), t, 0) && Kept(old(mem), mem, old(t), 0)
        invariant !fault && (pass > 0 ==> !Absurd(n) && exists s :: s in t && t[s].Free? && want <= t[s].size)
        decreases 2 - pass
      {
        ghost var m1, t1 := mem, t;
        NoZero(t, top);
        p := BigTry(want);
        KeptTrans(old(mem), m1, mem, old(t), t1, 0, 0);
        if p != 0 {
          SameTaken2(old(t), t1, t, p - MHDR);
          assert TileOk(p - MHDR, t[p - MHDR], top);
          AskedFew(want);
          return;
        }
        var ok;
        ok, fault := Grow(want);
        if fault { return; }
        KeptTrans(old(mem), m1, mem, old(t), t1, 0, 0);
        NoZero(t, top);
        SameTrans(old(t), t1, t, 0, 0);
        if !ok {
          refused := true;
          break;
        }
        pass := pass + 1;
      }
      p := 0;
    }

    /** m__page: one page on a page boundary, with no header, from the same pool. */
    method Page() returns (page: nat)
      requires PoolValid()
      modifies `mem, `head, `t, `top
      ensures PoolValid()
      ensures page == 0 ==> SameTaken(old(t), t, 0)
      ensures page != 0 ==> page % PGSIZE == 0 && page in t && t[page] == Held(PGSIZE)
      ensures page != 0 ==> SameTaken(old(t), t, page) && Taken(old(t), page) == Free(0)
      ensures Kept(old(mem), mem, old(t), 0)
    {
      var pass := 0;
      NoZero(t, top);
      while pass < 2
        invariant 0 <= pass <= 2
        invariant PoolValid() && SameTaken(old(t), t, 0) && Kept(old(mem), mem, old(t), 0)
        decreases 2 - pass
      {
        ghost var m1, t1 := mem, t;
        NoZero(t, top);
        var prev, b := FirstPage(mem, head, t, top);
        if b != 0 {
          PageCutOk(t, b);
          page := PageIn(b);
          Take(prev, b, page, page + PGSIZE);
          KeptTrans(old(mem), m1, mem, old(t), t1, 0, 0);
          SameTaken2(old(t), t1, t, page);
          return;
        }
        AskedFew(PGSIZE);
        var ok, fault := Grow(PGSIZE);
        NoZero(t, top);
        KeptTrans(old(mem), m1, mem, old(t), t1, 0, 0);
        SameTrans(old(t), t1, t, 0, 0);
        if !ok { break; }
        pass := pass + 1;
      }
      page := 0;
    }

    // ---- the size-class side

    ghost function Now(): Snap
      reads `mem, `t, `g, `dir
    {
      Snap(mem, t, g, dir)
    }

    ghost predicate RestValid()
      reads this
    {
      Rest(mem, runs, g, dir, dirlen, t)
    }

    ghost predicate Valid()
      reads this
    {
      PoolValid() && RestValid() && runPages == |g.free|
    }

    /** The large half of m__free. */
    method Release(b: nat)
      requires PoolValid() && b in t && t[b].Big? && Rd(mem, b) == t[b].size
      modifies `mem, `head, `t, `top
      ensures PoolValid()
      ensures Kept(old(mem), mem, old(t), b) && SameTaken(old(t), t, b) && Taken(t, b) == Free(0)
    {
      NoZero(t, top);
      ghost var t0 := t;
      var size := Rd(mem, b);
      RelabelCore(mem, head, t, top, b, Held(size));
      t := t[b := Held(size)];
      ghost var t1 := t;
      RelabelSame(t0, t0, b, Held(size));
      Insert(b, size);
      ghost var m2, t2 := mem, t;
      assert SameTaken(t0, t2, b) && Kept(old(mem), m2, t0, b) by {
        NoZero(t2, top);
        SameTrans(t0, t1, t2, b, b);
        KeptTrans(old(mem), old(mem), m2, t0, t1, b, b);
      }
      Trim();
      NoZero(t, top);
      SameTrans(t0, t2, t, b, 0);
      KeptTrans(old(mem), m2, mem, t0, t2, b, 0);
      assert Taken(t, b) == Taken(t2, b);
    }

    /** m__dir_cover: the page map is made to reach the given page, by moving it to
        a block at least twice as large when it does not. */
    method DirCover(page: nat) returns (ok: bool)
      requires Valid() && UHEAP_BASE <= page < UHEAP_TOP
      modifies `mem, `head, `t, `top, `dir, `dirlen
      ensures Valid() && (ok ==> PageNo(page) < dirlen)
      ensures Quiet(old(Now()), Now(), {})
      ensures SameHeld(old(t), t)
    {
      hide Quiet, RunsOk, BigOk;
      var idx := PageNo(page);
      if idx < dirlen {
        QuietSelf(Now());
        return true;
      }
      var want := MapLength(dirlen, idx);
      ghost var s0 := Now();
      NoZero(t, top);
      MapFits(mem, head, runs, g, dir, dirlen, t, top, page, want);
      var d, fault;
      ghost var refused;
      d, fault, refused := BigAlloc(want);
      NoZero(t, top);
      ghost var s1 := Now();
      ghost var b := if d == 0 then 0 else d - MHDR;
      KeptWeaken(s0.mem, mem, s0.t, b);
      RestFrame(s0.mem, mem, runs, g, dir, dirlen, s0.t, old(top), t, b);
      QuietTaken(s0, s1, runs, dirlen, old(top), b);
      if d == 0 { return false; }
      MoveMap(d, want, s0);
      ok := true;
    }

    /** The rest of m__dir_cover: copy, give up the old map, adopt the new one. */
    method MoveMap(d: nat, want: nat, ghost s0: Snap)
      requires PoolValid() && RestValid() && MHDR <= d && BigAt(d - MHDR, want + MHDR) && dirlen < want
      requires Taken(s0.t, d - MHDR) == Free(0) && SameTaken(s0.t, t, d - MHDR) && Quiet(s0, Now(), {d})
      requires s0.g == g && s0.dir == dir && 0 !in s0.t
      requires dirlen > 0 ==> dir - MHDR in s0.t && s0.t[dir - MHDR].Big?
      modifies `mem, `head, `t, `top, `dir, `dirlen
      ensures PoolValid() && RestValid() && dirlen == want
      ensures Quiet(s0, Now(), {}) && SameHeld(s0.t, t)
    {
      hide Quiet, Obj;
      ghost var s1, b, m, len0, top1 := Now(), d - MHDR, MapTile(dir), dirlen, top;
      assert dirlen > 0 ==> Before(t, m, b) && Before(t, b, m);
      mem := CopyMap(mem, dir, dirlen, d, want);
      WriteCore(s1.mem, mem, head, t, top, b);
      DirMoved(s1.mem, mem, runs, g, dir, dirlen, t, top, d, want);
      QuietMove(s1, Now().(dir := d), runs, dirlen, top, d);
      QuietTrans(s0, s1, Now().(dir := d), {d}, {d, dir});
      assert {d} + {d, dir} == {d, dir};
      assert dirlen > 0 ==> BigHeader(mem, t, m);
      NoZero(t, top);
      Adopt(d, want, s0);
      NoZero(t, top);
      MapsNotObjs(s0, s1, Now(), runs, len0, want, top1, top);
      QuietShrink(s0, Now(), {d, s0.dir});
      HeldThrough(s0.t, s1.t, t, b, m);
    }

    /** m__free(h->dir): the old map is a large block, so its page carries no mark. */
    method Adopt(d: nat, want: nat, ghost s0: Snap)
      requires PoolValid() && Rest(mem, runs, g, d, want, t) && 0 < want && d != dir && 0 !in t
      requires Quiet(s0, Now().(dir := d), {d, dir}) && (dir != 0 ==> MHDR <= dir && BigAt(dir - MHDR, 0))
      modifies `mem, `head, `t, `top, `dir, `dirlen
      ensures PoolValid() && RestValid() && dir == d && dirlen == want
      ensures Quiet(s0, Now(), {d, old(dir)})
      ensures SameTaken(old(t), t, MapTile(old(dir))) && Taken(t, MapTile(old(dir))) == Free(0)
    {
      ghost var s2, top2 := Now().(dir := d), top;
      if dir != 0 {
        Release(dir - MHDR);
        Released(s2, Now().(dir := d), runs, want, top2, dir - MHDR, dir);
        QuietTrans(s0, s2, Now().(dir := d), {d, dir}, {dir});
        assert {d, dir} + {dir} == {d, dir};
      }
      dir, dirlen := d, want;
    }

    /** m__newrun: a page from the pool, a place in the page map, and its slots. */
    method NewRun(c: nat) returns (r: nat)
      requires Valid() && c < NCLASS
      modifies this
      ensures Valid() && Quiet(old(Now()), Now(), {}) && SameHeld(old(t), t)
      ensures r == 0 ==> g == old(g)
      ensures r != 0 ==> runs[c] == r && r in g.free && r !in old(g).free
      ensures r != 0 ==> |old(g).lists| == NCLASS && g == AddRuns(old(g), r, c, g.free[r])
    {
      hide Quiet, Rest, Kept;
      RestLengths(mem, runs, g, dir, dirlen, t);
      ghost var s0, top0 := Now(), top;
      NoZero(t, top);
      var page := Page();
      NoZero(t, top);
      KeptWeaken(s0.mem, mem, s0.t, page);
      RestFrame(s0.mem, mem, runs, g, dir, dirlen, s0.t, top0, t, page);
      QuietTaken(s0, Now(), runs, dirlen, top0, page);
      if page == 0 { return 0; }
      ghost var s1 := Now();
      assert TileOk(page, t[page], top);
      var ok := DirCover(page);
      QuietTrans0(s0, s1, Now());
      assert Taken(s1.t, page).Held? && Taken(t, page) == Taken(s1.t, page);
      ghost var s2 := Now();
      if ok {
        r := page;
        Install(page, c);
      } else {
        r := 0;
        PutBack(page);
      }
      QuietTrans0(s0, s2, Now());
      HeldBack(s0.t, s1.t, s2.t, t, page);
    }

    /** The page goes back: there was no room for it in the page map. */
    method PutBack(page: nat)
      requires Valid() && page in t && t[page] == Held(PGSIZE)
      modifies `mem, `head, `t
      ensures Valid() && Quiet(old(Now()), Now(), {})
      ensures SameTaken(old(t), t, page) && Taken(t, page) == Free(0)
    {
      ghost var s0 := Now();
      Insert(page, PGSIZE);
      RestFrame(s0.mem, mem, runs, g, dir, dirlen, s0.t, top, t, page);
      QuietTaken(s0, Now(), runs, dirlen, top, page);
    }

    /** The page becomes a run at the head of its class. */
    method Install(page: nat, c: nat)
      requires Valid() && c < NCLASS && page in t && t[page] == Held(PGSIZE) && page % PGSIZE == 0 && FIRST <= page
      requires PageNo(page) < dirlen
      modifies `mem, `t, `g, `runs, `runPages
      ensures Valid() && Quiet(old(Now()), Now(), {})
      ensures SameTaken(old(t), t, page) && page in t && t[page] == Run(c)
      ensures |g.lists| == NCLASS && page in g.free && g == AddRuns(old(g), page, c, g.free[page]) && runs[c] == page
      ensures page !in old(g).free
    {
      hide Core, Quiet, Rest;
      RestLengths(mem, runs, g, dir, dirlen, t);
      ghost var s0, fs := Now(), [];
      mem := mem[dir + PageNo(page) := c + 1];
      mem, fs := Carve(mem, page, c, runs[c]);
      g := AddRuns(g, page, c, fs);
      t := t[page := Run(c)];
      InstallAll(s0, Now(), head, runs, dirlen, top, page, c, fs);
      runs := runs[c := page];
      runPages := runPages + 1;
    }

    // ---- what programs call

    /** Between calls: nothing is in transit and no run is empty. */
    ghost predicate Idle()
      reads this
    {
      && Valid()
      && (forall s :: !Taken(t, s).Held?)
      && (forall r :: r in g.used ==> g.used[r] != {})
    }

    /** m__malloc. On success p is a new object of at least n bytes, and every
        other object is untouched; on failure every object is untouched. It comes back
        at all, instead of faulting, exactly if the size is not absurd. */
    method Malloc(n: nat) returns (p: nat, fault: bool)
      requires Idle() && n < WORD
      modifies this
      ensures fault <==> Absurd(n)
      ensures !fault ==> Idle()
      ensures !fault && p == 0 ==> Quiet(old(Now()), Now(), {})
      ensures !fault && p != 0 ==> Quiet(old(Now()), Now(), {p}) && (forall z: nat :: !old(Obj(Now(), p, z)))
      ensures !fault && p != 0 ==> exists z: nat :: n <= z && Obj(Now(), p, z)
    {
      hide Valid, Quiet;
      fault := false;
      if n == 0 {
        QuietSelf(Now());
        return 0, false;
      }
      AskedIs(n);
      if n > MAXSMALL {
        if Want(n) < n {
          QuietSelf(Now());
          return 0, false;
        }
        p, fault := MallocBig(n);
        return;
      }
      AskedFew(Want(n));
      var c := 0;
      while ClassSize(c) < n
        invariant c < NCLASS && (c > 0 ==> ClassSize(c - 1) < n)
        decreases NCLASS - c
      {
        assert ClassSize(NCLASS - 1) == MAXSMALL;
        c := c + 1;
      }
      p := MallocSmall(c);
      if p != 0 { assert Obj(Now(), p, ClassSize(c)); }
    }

    /** m__malloc from the class on: a run with room, an old one or a new one. */
    method MallocSmall(c: nat) returns (p: nat)
      requires Idle() && c < NCLASS
      modifies this
      ensures Idle()
      ensures p == 0 ==> Quiet(old(Now()), Now(), {})
      ensures p != 0 ==>
              Quiet(old(Now()), Now(), {p}) && (forall z: nat :: !old(Obj(Now(), p, z)))
              && Obj(Now(), p, ClassSize(c))
    {
      hide Core, Quiet, Rest, Obj;
      RestLengths(mem, runs, g, dir, dirlen, t);
      ghost var s0 := Now();
      if runs[c] == 0 {
        var r := NewRun(c);
        if r == 0 { return 0; }
      }
      ghost var s1 := Now();
      p := PopFrom(c);
      QuietTrans(s0, s1, Now(), {}, {p});
      assert {} + {p} == {p};
      QuietNot(s0, s1, p);
    }

    method MallocBig(n: nat) returns (p: nat, fault: bool)
      requires Idle() && 0 < n && n + MHDR + 15 < WORD
      modifies this
      ensures fault <==> Absurd(n)
      ensures !fault ==> Idle()
      ensures !fault && p == 0 ==> Quiet(old(Now()), Now(), {})
      ensures !fault && p != 0 ==> Quiet(old(Now()), Now(), {p}) && (forall z: nat :: !old(Obj(Now(), p, z)))
      ensures !fault && p != 0 ==> exists z: nat :: n <= z && Obj(Now(), p, z)
    {
      hide Quiet;
      ghost var s0, top0 := Now(), top;
      NoZero(t, top);
      ghost var refused;
      p, fault, refused := BigAlloc(n);
      if fault { return; }
      NoZero(t, top);
      ghost var b := MapTile(p);
      KeptWeaken(s0.mem, mem, s0.t, b);
      RestFrame(s0.mem, mem, runs, g, dir, dirlen, s0.t, top0, t, b);
      QuietTaken(s0, Now(), runs, dirlen, top0, b);
      if p != 0 {
        FreshNotObj(s0, Now(), runs, dirlen, top, p);
        assert Obj(Now(), p, t[b].size - MHDR);
      }
    }

    /** The pop of m__malloc. */
    method PopFrom(c: nat) returns (p: nat)
      requires Valid() && c < NCLASS && runs[c] != 0
      modifies `mem, `g, `runs
      ensures Valid() && Quiet(old(Now()), Now(), {p}) && (forall z: nat :: !old(Obj(Now(), p, z)))
      ensures p != 0 && Obj(Now(), p, ClassSize(c))
      ensures old(runs[c]) in old(g).used && g.used == old(g).used[old(runs[c]) := g.used[old(runs[c])]]
              && p in g.used[old(runs[c])]
    {
      hide Core, Quiet, Rest, Obj;
      RestLengths(mem, runs, g, dir, dirlen, t);
      var r := runs[c];
      PopAll(Now(), head, runs, dirlen, top, c);
      p := Rd(mem, r + 8);
      ghost var h := PopHead(mem, g, r);
      mem := PopMem(mem, r);
      if Rd(mem, r + 8) == 0 {
        runs := runs[c := Rd(mem, r)];
      }
      assert runs == old(runs)[c := h];
      g := PopRuns(g, r, c);
    }

    /** m__free. The object is gone and every other object is untouched. */
    method FreeObject(p: nat)
      requires Idle() && (p == 0 || exists z: nat :: Obj(Now(), p, z))
      modifies this
      ensures Idle() && Quiet(old(Now()), Now(), {p}) && forall z: nat :: !Obj(Now(), p, z)
    {
      if p == 0 {
        QuietSelf(Now());
        return;
      }
      ghost var z :| Obj(Now(), p, z);
      FreeBranch(Now(), runs, dirlen, top, p, z);
      if InRun(mem, dir, dirlen, p) {
        FreeSlot(p);
      } else {
        FreeBig(p);
      }
    }

    method FreeBig(p: nat)
      requires Idle() && MHDR <= p && p != dir && p - MHDR in t && t[p - MHDR].Big?
      modifies this
      ensures Idle() && Quiet(old(Now()), Now(), {p}) && forall z: nat :: !Obj(Now(), p, z)
    {
      ghost var s0, top0 := Now(), top;
      assert BigHeader(mem, t, p - MHDR);
      Release(p - MHDR);
      Released(s0, Now(), runs, dirlen, top0, p - MHDR, p);
      forall s ensures !Taken(t, s).Held? {
        assert s != p - MHDR ==> Taken(t, s) == Taken(s0.t, s);
      }
    }

    method FreeSlot(p: nat)
      requires Idle() && RunAt(t, PgDown(p)) && PgDown(p) in g.used && p in g.used[PgDown(p)]
      modifies this
      ensures Idle() && Quiet(old(Now()), Now(), {p}) && forall z: nat :: !Obj(Now(), p, z)
    {
      hide Core, Rest, Quiet;
      ghost var s0 := Now();
      var r := PgDown(p);
      PushTo(r, p);
      ghost var s1 := Now();
      if Rd(mem, r + 18) == 0 {
        Unlist(r);
        ghost var s2 := Now();
        GiveBack(r);
        QuietTrans0(s1, s2, Now());
        QuietTrans(s0, s1, Now(), {p}, {});
        assert {p} + {} == {p};
        StillIdle(s0, s2, Now(), r);
      }
    }

    /** The push of m__free. */
    method PushTo(r: nat, p: nat)
      requires Valid() && RunAt(t, r) && r in g.used && p in g.used[r]
      modifies `mem, `g, `runs
      ensures Valid() && RunAt(t, r) && Quiet(old(Now()), Now(), {p}) && forall z: nat :: !Obj(Now(), p, z)
      ensures r in g.used && r in g.free && g.used == old(g).used[r := g.used[r]] && g.free[r] != []
      ensures Rd(mem, r + 18) == |g.used[r]|
    {
      hide Core, Quiet, Rest, Obj, PushMem;
      RestLengths(mem, runs, g, dir, dirlen, t);
      RunFacts(Now(), head, runs, dirlen, top, r);
      var c := Rd(mem, r + 16);
      PushAll(Now(), head, runs, dirlen, top, r, c, p);
      ghost var h := PushHead(runs, g, r, c);
      var full := Rd(mem, r + 8) == 0;
      mem := PushMem(mem, runs, r, c, p);
      if full { runs := runs[c := r]; }
      assert runs == old(runs)[c := h];
      g := PushRuns(g, r, c, p);
    }

    /** The unlinking of m__free: an emptied run leaves its list and the page map. */
    method Unlist(r: nat)
      requires Valid() && RunAt(t, r) && r in g.used && r in g.free && g.used[r] == {} && g.free[r] != []
      modifies `mem, `t, `g, `runs, `runPages
      ensures Valid() && Quiet(old(Now()), Now(), {}) && t == old(t)[r := Held(PGSIZE)]
      ensures g.used == old(g).used - {r}
    {
      hide Core, Quiet, Rest;
      ghost var s0, heads := Now(), runs;
      RestLengths(mem, runs, g, dir, dirlen, t);
      RunFacts(s0, head, runs, dirlen, top, r);
      var c := Rd(mem, r + 16);
      var prev;
      ghost var done, rest;
      prev, done, rest := FindRun(mem, runs[c], r, g.lists[c]);
      var next := Rd(mem, r);
      ghost var h := if prev == 0 then next else runs[c];
      if prev == 0 { runs := runs[c := next]; } else { mem := mem[prev := next]; }
      assert runs == heads[c := h];
      ghost var m1 := mem;
      mem := mem[dir + PageNo(r) := 0];
      runPages := runPages - 1;
      g := DropRuns(g, r, c, done + rest[1..]);
      t := t[r := Held(PGSIZE)];
      RetireAll(s0, Now(), m1, head, heads, h, dirlen, top, r, c, done, rest);
    }

    method GiveBack(r: nat)
      requires PoolValid() && RestValid() && r in t && t[r] == Held(PGSIZE)
      modifies `mem, `head, `t, `top
      ensures PoolValid() && RestValid() && Quiet(old(Now()), Now(), {}) && SameTaken(old(t), t, r)
              && Taken(t, r) == Free(0)
    {
      ghost var s0, top0 := Now(), top;
      Insert(r, PGSIZE);
      ghost var s1 := Now();
      NoZero(s0.t, top);
      Trim();
      NoZero(t, top);
      KeptTrans(s0.mem, s1.mem, mem, s0.t, s1.t, r, 0);
      SameTrans(s0.t, s1.t, t, r, 0);
      assert Taken(t, r) == Taken(s1.t, r);
      RestFrame(s0.mem, mem, runs, g, dir, dirlen, s0.t, top0, t, r);
      QuietTaken(s0, Now(), runs, dirlen, top0, r);
    }

    /** A program stores v at offset i of the object it holds at p. */
    method Store(p: nat, i: nat, v: nat, ghost z: nat)
      requires Idle() && Obj(Now(), p, z) && i < z
      modifies `mem
      ensures Idle() && Quiet(old(Now()), Now(), {p}) && Obj(Now(), p, z)
      ensures mem == old(mem)[p + i := v]
    {
      hide Core, Rest, Quiet;
      ghost var s0 := Now();
      mem := mem[p + i := v];
      ObjectWrite(s0, Now(), head, runs, dirlen, top, p, z);
    }

    /** m__heap on a page that has never been touched. */
    constructor ()
      ensures Idle() && top == INIT_TOP
      ensures forall p: nat, z: nat :: !Obj(Now(), p, z)
    {
      mem, head, top := map[], 0, INIT_TOP;
      dir, dirlen, runPages := 0, 0, 0;
      runs, g, t := InitHeads(), InitRuns(), InitTiles();
      new;
      hide Core, Rest;
      InitOk();
      Insert(FIRST, INIT_TOP - FIRST);
      RestFrame(map[], mem, runs, g, dir, dirlen, InitTiles(), top, t, FIRST);
      forall s ensures !Taken(t, s).Held? && !Taken(t, s).Big? && !Taken(t, s).Run? {
        assert s != FIRST ==> Taken(t, s) == Taken(InitTiles(), s);
      }
    }

    /** calloc: the object arrives zeroed, and a product that overflows is refused. */
    method Calloc(n: nat, size: nat) returns (p: nat, fault: bool)
      requires Idle()
      modifies this
      ensures fault <==> n * size < WORD && Absurd(n * size)
      ensures !fault ==> Idle()
      ensures !fault && p == 0 ==> Quiet(old(Now()), Now(), {})
      ensures n * size >= WORD ==> p == 0
      ensures !fault && p != 0 ==> Quiet(old(Now()), Now(), {p}) && (forall z: nat :: !old(Obj(Now(), p, z)))
      ensures !fault && p != 0 ==> exists z: nat :: n * size <= z && Obj(Now(), p, z)
      ensures !fault && p != 0 ==> forall a: nat :: p <= a < p + n * size ==> Rd(mem, a) == 0
    {
      hide Core, Rest, Quiet, Absurd;
      var total := Product(n, size);
      if n > 0 { CallocOverflow(n, size); }
      if n != 0 && total / n != size {
        QuietSelf(Now());
        return 0, false;
      }
      ghost var s0 := Now();
      p, fault := Malloc(total);
      if !fault && p != 0 {
        ghost var s1 := Now();
        ghost var z: nat :| total <= z && Obj(s1, p, z);
        mem := ZeroBytes(mem, p, total);
        ObjectWrite(s1, Now(), head, runs, dirlen, top, p, z);
        QuietTrans(s0, s1, Now(), {p}, {p});
        assert {p} + {p} == {p};
      }
    }

    /** m__realloc: growing moves the contents to a new object and frees the old
        one; everything else stays where it was. */
    method Realloc(p: nat, n: nat, ghost z: nat) returns (q: nat, fault: bool)
      requires Idle() && n < WORD && (p != 0 ==> Obj(Now(), p, z))
      modifies this
      ensures fault <==> Absurd(n)
      ensures !fault ==> Idle() && Quiet(old(Now()), Now(), {p, q})
      ensures p != 0 && n == 0 ==> q == 0 && forall y: nat :: !Obj(Now(), p, y)
      ensures !fault && p != 0 && n != 0 && q == 0 ==> Quiet(old(Now()), Now(), {})
      ensures !fault && q != 0 && q != p ==> p == 0 || (z < n && forall y: nat :: !Obj(Now(), p, y))
      ensures !fault && q != 0 ==> exists y: nat :: n <= y && Obj(Now(), q, y)
      ensures !fault && p != 0 && q != 0 ==> SameBytes(mem, q, old(mem), p, z)
    {
      hide Core, Rest, Quiet;
      fault := false;
      if p == 0 {
        q, fault := Malloc(n);
        if fault { return; }
        QuietWiden(old(Now()), Now(), if q == 0 then {} else {q}, {p, q});
        return;
      }
      if n == 0 {
        FreeObject(p);
        QuietWiden(old(Now()), Now(), {p}, {p, 0});
        return 0, false;
      }
      var have := SizeOf(p, z);
      if have >= n {
        QuietSelf(Now());
        QuietWiden(old(Now()), Now(), {}, {p, p});
        ObjectFits(Now(), head, runs, dirlen, top, p, z, n);
        return p, false;
      }
      q, fault := Malloc(n);
      if fault { return; }
      if q == 0 {
        QuietWiden(old(Now()), Now(), {}, {p, q});
        return;
      }
      Move(p, q, have, n, old(Now()));
    }

    method SizeOf(p: nat, ghost z: nat) returns (have: nat)
      requires Valid() && Obj(Now(), p, z)
      ensures have == z
    {
      SizeRead(Now(), runs, dirlen, top, p, z);
      if InRun(mem, dir, dirlen, p) {
        have := ClassSize(Rd(mem, dir + PageNo(p)) - 1);
      } else {
        have := Rd(mem, p - MHDR) - MHDR;
      }
    }

    /** The copy and the free of m__realloc. */
    method Move(p: nat, q: nat, have: nat, n: nat, ghost s0: Snap)
      requires Idle() && Obj(s0, p, have) && have < n && q != p
      requires Quiet(s0, Now(), {q}) && exists y: nat :: n <= y && Obj(Now(), q, y)
      modifies this
      ensures Idle() && Quiet(s0, Now(), {p, q}) && forall y: nat :: !Obj(Now(), p, y)
      ensures exists y: nat :: n <= y && Obj(Now(), q, y)
      ensures SameBytes(mem, q, s0.mem, p, have)
    {
      hide Core, Rest, Quiet;
      ghost var s1 := Now();
      ghost var y: nat :| n <= y && Obj(s1, q, y);
      QuietAt(s0, s1, {q}, p, have);
      TwoObjects(s1, head, runs, dirlen, top, p, have, q, y);
      mem := CopyBytes(mem, q, p, have);
      ghost var s2 := Now();
      ObjectWrite(s1, s2, head, runs, dirlen, top, q, y);
      QuietTrans(s0, s1, s2, {q}, {q});
      QuietAt(s1, s2, {q}, p, have);
      FreeObject(p);
      QuietAt(s2, Now(), {p}, q, y);
      QuietTrans(s0, s2, Now(), {q} + {q}, {p});
      assert {q} + {q} + {p} == {p, q};
      SameBytesTrans(s0.mem, p, s1.mem, p, s2.mem, q, have, have);
      SameBytesTrans(s0.mem, p, s2.mem, q, mem, q, have, y);
    }
  }

  /** malloc of 2^63 bytes, the first call a program makes: it does not come back. */
  method MallocHuge() returns (h: Heap, p: nat, fault: bool)
    ensures fault
  {
    h := new Heap();
    p, fault := h.Malloc(HALFWORD);
  }
}
