/** How a task of src/task.c gets its memory: a table, four pages of stack and the first
    page of its heap, with nothing looked at on the way but the table itself. */
module VmBirth {
  import opened Common
  import opened VmTable
  import opened Vm
  import opened VmSpace

  const STACK_TOP: nat := 0x3_0000
  const STACK_PAGES: nat := 4
  const HEAP_PAGE: nat := 0x2_8000

  // ---- what a page takes

  /** The lowest table on the way to v is there. */
  ghost predicate Has(nodes: map<Key, nat>, root: nat, v: nat) { (root, 0, v / 512) in nodes }

  /** The frames it takes to map v: one, and one more for the table. */
  ghost function Need(nodes: map<Key, nat>, root: nat, v: nat): nat { if Has(nodes, root, v) then 1 else 2 }

  /** If any frame is left, the table above the lowest is there already. */
  ghost predicate Reached(nodes: map<Key, nat>, root: nat, v: nat, n: nat) {
    n > 0 ==> (root, 1, v / 512 / 512) in nodes
  }

  /** Tables added on the way to v: one or none. */
  lemma OneTable(m: Mem, m': Mem, root: nat, v: nat, n: nat, n': nat)
    requires Keeps(m, m') && OnWay(m.nodes, m'.nodes, root, v, v) && Paid(n, m.nodes, n', m'.nodes)
             && Reached(m.nodes, root, v, n)
    ensures n == 0 ==> n' == 0 && (Has(m'.nodes, root, v) <==> Has(m.nodes, root, v))
    ensures n > 0 ==> n' == if Has(m.nodes, root, v) || !Has(m'.nodes, root, v) then n else n - 1
    ensures Reached(m'.nodes, root, v, n')
  {
    var a, b := m.nodes.Keys, m'.nodes.Keys;
    Smaller(a, b);
    if n == 0 {
      SameSize(a, b);
    } else {
      var k: Key := (root, 0, v / 512);
      forall x | x in b && x !in a ensures x == k { assert x == (x.0, x.1, x.2); }
      if k in b && k !in a {
        assert b == a + {k};
      } else {
        assert b == a;
      }
    }
  }

  lemma SameSize<T>(a: set<T>, b: set<T>)
    requires a <= b && |b| <= |a|
    ensures a == b
  {
    Sum(a, b - a);
    assert b == a + (b - a);
  }

  /** No frame is lost exactly if none was and this one found its place. */
  lemma HomeIff(m1: Mem, m2: Mem, m3: Mem, p: nat, how: Role)
    requires p in m1.role && m1.role[p] == Free && m2.role == m1.role[p := Held] && Moves(m2, m3, p, how)
    ensures AllHome(m3.role) <==> AllHome(m1.role) && how != Held
  {
    if AllHome(m3.role) {
      assert m3.role[p] != Held;
      forall f | f in m1.role ensures m1.role[f] != Held {
        if f != p { assert m2.role[f] == m1.role[f] && m3.role[f] != Held; }
      }
    }
    if AllHome(m1.role) && how != Held { MapHome(m1, m2, m3, p, how); }
  }

  /** pmm_alloc and vm_map_at for a page v, neither of which is looked at: with frames
      enough v has one of its own; with none it leads to frame 0, if there is a table to
      say so; and a frame that found no table is lost. */
  method StackPage(s: Spaces, root: nat, v: nat)
    requires s.Valid() && (root, 2, 0) in s.nodes && 0 < v < RAM_PAGE && Trans(s.tabs, root, v) == None
             && Reached(s.nodes, root, v, |s.list|)
    modifies s
    ensures s.Valid() && SameOut(old(s.M()), s.M(), root, v, v + 1) && Keeps(old(s.M()), s.M())
            && OnWay(old(s.nodes), s.nodes, root, v, v) && Reached(s.nodes, root, v, |s.list|)
    ensures var n, need := |old(s.list)|, Need(old(s.nodes), root, v);
            && |s.list| == (if n < need then 0 else n - need)
            && (Has(s.nodes, root, v) <==> Has(old(s.nodes), root, v) || 2 <= n)
            && (if need <= n then Own(s.M(), root, v)
                else Trans(s.tabs, root, v) == if need == 1 then Some(0) else None)
            && (AllHome(s.role) <==> old(AllHome(s.role)) && (n == 0 || need <= n))
  {
    hide Ok, Threaded, ListOk, Trans, SameOut, Moves, Keeps, AllHome, OnWay;
    ghost var m0, n := s.M(), |s.list|;
    var p := s.Alloc();
    ghost var m1, n1 := s.M(), |s.list|;
    SameList(m0, m1, root, v);
    if p != 0 { HighFrame(s.role, p, v); }
    var ok := s.MapPage(root, v, p, PTE_RWU);
    ghost var m2 := s.M();
    ghost var how := if ok then Page(root, v) else Was(m1, p);
    MovesKeeps(m1, m2, p, how);
    OneTable(m1, m2, root, v, n1, |s.list|);
    OneStep(m0, m1, m2, root, v);
    HasKept(m1, m2, root, v);
    if p != 0 { HomeIff(m0, m1, m2, p, how); } else { HomeSame(m1, m2, p, how); }
  }

  lemma SameList(m: Mem, m': Mem, root: nat, v: nat)
    requires m'.tabs == m.tabs && m'.nodes == m.nodes && m'.role.Keys == m.role.Keys
    ensures SameOut(m, m', root, v, v + 1) && Keeps(m, m') && OnWay(m.nodes, m'.nodes, root, v, v)
  {
  }

  lemma OneStep(m0: Mem, m1: Mem, m2: Mem, root: nat, v: nat)
    requires m1.tabs == m0.tabs && m1.nodes == m0.nodes && m1.role.Keys == m0.role.Keys
             && SameOut(m1, m2, root, v, v + 1) && Keeps(m1, m2) && OnWay(m1.nodes, m2.nodes, root, v, v)
    ensures SameOut(m0, m2, root, v, v + 1) && Keeps(m0, m2) && OnWay(m0.nodes, m2.nodes, root, v, v)
  {
    hide Trans;
  }

  lemma HasKept(m: Mem, m': Mem, root: nat, v: nat)
    requires Keeps(m, m')
    ensures Has(m.nodes, root, v) ==> Has(m'.nodes, root, v)
  {
  }

  lemma HomeSame(m: Mem, m': Mem, p: nat, how: Role)
    requires Moves(m, m', p, how) && p !in m.role
    ensures AllHome(m'.role) <==> AllHome(m.role)
  {
    if AllHome(m.role) {
      forall f | f in m'.role ensures m'.role[f] != Held { assert m.role[f] != Held; }
    }
    if AllHome(m'.role) {
      forall f | f in m.role ensures m.role[f] != Held { assert m'.role[f] != Held; }
    }
  }

  /** map_heap_page: the break is set once there is a frame, wherever that frame went. */
  method HeapPage(s: Spaces, root: nat) returns (brk: nat)
    requires s.Valid() && (root, 2, 0) in s.nodes && Trans(s.tabs, root, HEAP_PAGE) == None
             && Reached(s.nodes, root, HEAP_PAGE, |s.list|)
    modifies s
    ensures s.Valid() && SameOut(old(s.M()), s.M(), root, HEAP_PAGE, HEAP_PAGE + 1) && Keeps(old(s.M()), s.M())
    ensures var n, need := |old(s.list)|, Need(old(s.nodes), root, HEAP_PAGE);
            && brk == (if n == 0 then 0 else UHEAP_BASE + PGSIZE)
            && |s.list| == (if n < need then 0 else n - need)
            && (if need <= n then Own(s.M(), root, HEAP_PAGE) else Trans(s.tabs, root, HEAP_PAGE) == None)
            && (AllHome(s.role) <==> old(AllHome(s.role)) && (n == 0 || need <= n))
  {
    hide Ok, Threaded, ListOk, Trans, SameOut, Moves, Keeps, AllHome, OnWay;
    ghost var m0, n := s.M(), |s.list|;
    SameList(m0, m0, root, HEAP_PAGE);
    var p := s.Alloc();
    ghost var m1, n1 := s.M(), |s.list|;
    SameList(m0, m1, root, HEAP_PAGE);
    if p == 0 { return 0; }
    HighFrame(s.role, p, HEAP_PAGE);
    var ok := s.MapPage(root, HEAP_PAGE, p, PTE_RWU);
    ghost var m2 := s.M();
    ghost var how := if ok then Page(root, HEAP_PAGE) else Held;
    MovesKeeps(m1, m2, p, how);
    OneTable(m1, m2, root, HEAP_PAGE, n1, |s.list|);
    OneStep(m0, m1, m2, root, HEAP_PAGE);
    HasKept(m1, m2, root, HEAP_PAGE);
    HomeIff(m0, m1, m2, p, how);
    brk := UHEAP_BASE + PGSIZE;
  }

  // ---- the stack

  /** What is left of n frames after i pages of stack. */
  function Left(n: nat, i: nat): nat { if i == 0 then n else if n < i + 1 then 0 else n - 1 - i }

  /** The stack from page lo up, where n frames were left for it: with one or none there is
      no stack; otherwise pages have frames of their own from the top down until they run
      out, and the others lead to frame 0. */
  ghost predicate StackIs(m: Mem, root: nat, n: nat, lo: nat) {
    forall v: nat {:trigger Trans(m.tabs, root, v)} :: lo <= v < STACK_TOP ==>
        if n < 2 then Trans(m.tabs, root, v) == None
        else if STACK_TOP < v + n then Own(m, root, v) else Trans(m.tabs, root, v) == Some(0)
  }

  lemma NoStack(m: Mem, root: nat, n: nat)
    ensures StackIs(m, root, n, STACK_TOP) && SameOut(m, m, root, STACK_TOP, STACK_TOP) && Keeps(m, m)
            && OnWay(m.nodes, m.nodes, root, STACK_TOP - STACK_PAGES, STACK_TOP - 1)
  {
  }

  lemma StackMore(m0: Mem, m1: Mem, m2: Mem, root: nat, n: nat, v: nat)
    requires (root, 2, 0) in m0.nodes && STACK_TOP - STACK_PAGES <= v < STACK_TOP
             && SameOut(m0, m1, root, v + 1, STACK_TOP) && SameOut(m1, m2, root, v, v + 1) && Keeps(m0, m1)
             && Keeps(m1, m2) && StackIs(m1, root, n, v + 1)
    requires OnWay(m0.nodes, m1.nodes, root, STACK_TOP - STACK_PAGES, STACK_TOP - 1)
             && OnWay(m1.nodes, m2.nodes, root, v, v)
    requires if n < 2 then Trans(m2.tabs, root, v) == None
             else if STACK_TOP < v + n then Own(m2, root, v) else Trans(m2.tabs, root, v) == Some(0)
    ensures SameOut(m0, m2, root, v, STACK_TOP) && Keeps(m0, m2) && StackIs(m2, root, n, v)
            && OnWay(m0.nodes, m2.nodes, root, STACK_TOP - STACK_PAGES, STACK_TOP - 1)
  {
    hide Trans;
    KeepsTwice(m0, m1, m2);
    forall r: nat, x: nat | (r, 2, 0) in m0.nodes && x < VPNS && !(r == root && v <= x < STACK_TOP)
        ensures Trans(m2.tabs, r, x) == Trans(m0.tabs, r, x) {
      assert (r, 2, 0) in m1.nodes;
      assert Trans(m2.tabs, r, x) == Trans(m1.tabs, r, x) == Trans(m0.tabs, r, x);
    }
    assert (root, 2, 0) in m1.nodes;
    forall x: nat | v <= x < STACK_TOP
        ensures if n < 2 then Trans(m2.tabs, root, x) == None
            else if STACK_TOP < x + n then Own(m2, root, x) else Trans(m2.tabs, root, x) == Some(0) {
      if v < x { assert Trans(m2.tabs, root, x) == Trans(m1.tabs, root, x); }
    }
  }

  lemma StillFree(m0: Mem, m: Mem, root: nat, v: nat)
    requires (root, 2, 0) in m0.nodes && v < STACK_TOP && SameOut(m0, m, root, v + 1, STACK_TOP)
             && Trans(m0.tabs, root, v) == None
    ensures Trans(m.tabs, root, v) == None
  {
    hide Trans;
  }

  lemma OneStack(nodes: map<Key, nat>, root: nat, v: nat, n: nat)
    requires STACK_TOP - STACK_PAGES <= v < STACK_TOP
    ensures Has(nodes, root, v) <==> Has(nodes, root, STACK_TOP - 1)
    ensures Reached(nodes, root, v, n) <==> Reached(nodes, root, STACK_TOP - 1, n)
  {
  }

  /** The four pages, from the top down. */
  method Stack(s: Spaces, root: nat)
    requires s.Valid() && (root, 2, 0) in s.nodes && NoneAll(s.M(), root, STACK_TOP - STACK_PAGES, STACK_TOP)
             && !Has(s.nodes, root, STACK_TOP - 1) && Reached(s.nodes, root, STACK_TOP - 1, |s.list|)
    modifies s
    ensures s.Valid() && SameOut(old(s.M()), s.M(), root, STACK_TOP - STACK_PAGES, STACK_TOP)
            && Keeps(old(s.M()), s.M())
            && OnWay(old(s.nodes), s.nodes, root, STACK_TOP - STACK_PAGES, STACK_TOP - 1)
            && Reached(s.nodes, root, STACK_TOP - 1, |s.list|)
    ensures |s.list| == Left(|old(s.list)|, STACK_PAGES)
            && StackIs(s.M(), root, |old(s.list)|, STACK_TOP - STACK_PAGES)
    ensures AllHome(s.role) <==> old(AllHome(s.role)) && |old(s.list)| != 1
  {
    hide Ok, Threaded, ListOk, Trans, SameOut, Keeps, AllHome, OnWay, StackIs, Has, Reached, Own, NoneAll;
    ghost var m0, n := s.M(), |s.list|;
    NoStack(m0, root, n);
    var i := 0;
    while i < STACK_PAGES
      invariant i <= STACK_PAGES && s.Valid() && SameOut(m0, s.M(), root, STACK_TOP - i, STACK_TOP) && Keeps(m0, s.M())
                && OnWay(m0.nodes, s.nodes, root, STACK_TOP - STACK_PAGES, STACK_TOP - 1)
                && Reached(s.nodes, root, STACK_TOP - 1, |s.list|)
      invariant |s.list| == Left(n, i) && StackIs(s.M(), root, n, STACK_TOP - i)
      invariant Has(s.nodes, root, STACK_TOP - 1) <==> i > 0 && 2 <= n
      invariant AllHome(s.role) <==> AllHome(m0.role) && (i == 0 || n != 1)
    {
      ghost var m1 := s.M();
      var v := STACK_TOP - (i + 1);
      NoneIs(m0, root, STACK_TOP - STACK_PAGES, STACK_TOP, v);
      StillFree(m0, m1, root, v);
      KeepsRoot(m0, m1, root);
      OneStack(m1.nodes, root, v, |s.list|);
      StackPage(s, root, v);
      OneStack(s.nodes, root, v, |s.list|);
      StackMore(m0, m1, s.M(), root, n, v);
      i := i + 1;
    }
  }

  // ---- the whole

  /** The heap of a new task, of which n frames were left for stack and heap. */
  lemma HeapBorn(m0: Mem, m1: Mem, m2: Mem, root: nat, kend: nat, n: nat, brk: nat)
    requires OnlyShared(m0, root, kend) && RAM_PAGE < kend && (root, 2, 0) in m0.nodes && Keeps(m0, m1)
             && SameOut(m0, m1, root, STACK_TOP - STACK_PAGES, STACK_TOP)
             && SameOut(m1, m2, root, HEAP_PAGE, HEAP_PAGE + 1)
    requires brk == (if n <= 5 then 0 else UHEAP_BASE + PGSIZE)
             && if n < 7 then Trans(m2.tabs, root, HEAP_PAGE) == None else Own(m2, root, HEAP_PAGE)
    ensures HeapOk(m2, root, Old(brk)) <==> n != 6
  {
    hide Trans;
    var lo, hi := HEAP_PAGE, UHEAP_TOP / PGSIZE;
    assert (root, 2, 0) in m1.nodes;
    forall v: nat | lo < v < hi ensures Trans(m2.tabs, root, v) == None {
      assert Trans(m2.tabs, root, v) == Trans(m1.tabs, root, v) == Trans(m0.tabs, root, v);
      assert !Shared(v, kend);
    }
    if n == 6 { assert !Own(m2, root, lo); }
  }

  /** The stack stays as it is while the heap gets its page. */
  lemma StackStays(m1: Mem, m2: Mem, root: nat, n: nat)
    requires (root, 2, 0) in m1.nodes && SameOut(m1, m2, root, HEAP_PAGE, HEAP_PAGE + 1)
             && StackIs(m1, root, n, STACK_TOP - STACK_PAGES)
    ensures StackIs(m2, root, n, STACK_TOP - STACK_PAGES)
  {
    hide Trans;
    forall v: nat | STACK_TOP - STACK_PAGES <= v < STACK_TOP
        ensures if n < 2 then Trans(m2.tabs, root, v) == None
            else if STACK_TOP < v + n then Own(m2, root, v) else Trans(m2.tabs, root, v) == Some(0) {
      assert Trans(m2.tabs, root, v) == Trans(m1.tabs, root, v);
    }
  }

  /** Nothing is mapped where stack and heap will be, and no table is there for them. */
  lemma Vacant(m: Mem, m': Mem, root: nat, kend: nat, n: nat)
    requires RAM_PAGE < kend <= PMM_PAGE && OnlyShared(m', root, kend) && Ok(m) && (root, 2, 0) !in m.nodes
             && m'.nodes.Keys <= m.nodes.Keys + Frame(root, kend) && (n > 0 ==> Frame(root, kend) <= m'.nodes.Keys)
    ensures NoneAll(m', root, STACK_TOP - STACK_PAGES, STACK_TOP) && Trans(m'.tabs, root, HEAP_PAGE) == None
    ensures !Has(m'.nodes, root, STACK_TOP - 1) && !Has(m'.nodes, root, HEAP_PAGE)
    ensures Reached(m'.nodes, root, STACK_TOP - 1, n) && Reached(m'.nodes, root, HEAP_PAGE, n)
  {
    hide Trans, Frame, Ok;
    forall v: nat | STACK_TOP - STACK_PAGES <= v < STACK_TOP ensures Trans(m'.tabs, root, v) == None {
      assert !Shared(v, kend);
    }
    assert !Shared(HEAP_PAGE, kend);
    FrameHas(root, kend, (root, 0, (STACK_TOP - 1) / 512));
    FrameHas(root, kend, (root, 0, HEAP_PAGE / 512));
    FrameHas(root, kend, (root, 1, 0));
    if (root, 0, (STACK_TOP - 1) / 512) in m.nodes { UnderRoot(m, (root, 0, (STACK_TOP - 1) / 512)); }
    if (root, 0, HEAP_PAGE / 512) in m.nodes { UnderRoot(m, (root, 0, HEAP_PAGE / 512)); }
  }

  lemma StillVacant(m: Mem, m': Mem, root: nat, n: nat)
    requires (root, 2, 0) in m.nodes && Keeps(m, m')
             && SameOut(m, m', root, STACK_TOP - STACK_PAGES, STACK_TOP)
             && OnWay(m.nodes, m'.nodes, root, STACK_TOP - STACK_PAGES, STACK_TOP - 1)
    requires Trans(m.tabs, root, HEAP_PAGE) == None && !Has(m.nodes, root, HEAP_PAGE)
             && Reached(m'.nodes, root, STACK_TOP - 1, n)
    ensures Trans(m'.tabs, root, HEAP_PAGE) == None && !Has(m'.nodes, root, HEAP_PAGE)
            && Reached(m'.nodes, root, HEAP_PAGE, n)
  {
    hide Trans;
    assert (root, 0, HEAP_PAGE / 512) !in m'.nodes;
  }

  /** The other address spaces do not notice, and there is one more of them. */
  ghost predicate Joined(m: Mem, m': Mem, root: nat) {
    && SameTrans(m, m') && m'.role.Keys == m.role.Keys
    && (forall r: nat {:trigger (r, 2, 0) in m'.nodes} :: (r, 2, 0) in m'.nodes <==> (r, 2, 0) in m.nodes || r == root)
  }

  lemma JoinedBy(m0: Mem, m1: Mem, m2: Mem, m3: Mem, root: nat, kend: nat)
    requires RAM_PAGE < kend <= PMM_PAGE && SameTrans(m0, m1) && Extends(m0, m1) && (root, 2, 0) in m1.nodes
             && (root, 2, 0) !in m0.nodes && m1.nodes.Keys <= m0.nodes.Keys + Frame(root, kend)
    requires Keeps(m1, m2) && SameOut(m1, m2, root, STACK_TOP - STACK_PAGES, STACK_TOP) && Keeps(m2, m3)
             && SameOut(m2, m3, root, HEAP_PAGE, HEAP_PAGE + 1)
    ensures Joined(m0, m3, root)
  {
    hide Trans, Frame;
    forall r: nat, v: nat | (r, 2, 0) in m0.nodes && v < VPNS ensures Trans(m3.tabs, r, v) == Trans(m0.tabs, r, v) {
      assert (r, 2, 0) in m1.nodes;
      assert (r, 2, 0) in m2.nodes;
      assert Trans(m3.tabs, r, v) == Trans(m2.tabs, r, v) == Trans(m1.tabs, r, v);
    }
    forall r: nat ensures (r, 2, 0) in m3.nodes <==> (r, 2, 0) in m0.nodes || r == root {
      assert (r, 2, 0) in m0.nodes ==> (r, 2, 0) in m1.nodes;
      assert (r, 2, 0) in m1.nodes <==> (r, 2, 0) in m2.nodes;
      FrameHas(root, kend, (r, 2, 0));
    }
  }

  lemma ExtendsHome(m: Mem, m': Mem)
    requires Extends(m, m')
    ensures AllHome(m'.role) <==> AllHome(m.role)
  {
    if AllHome(m.role) {
      forall f | f in m'.role ensures m'.role[f] != Held { assert m.role[f] != Held; }
    }
    if AllHome(m'.role) {
      forall f | f in m.role ensures m.role[f] != Held { assert m'.role[f] != Held; }
    }
  }

  lemma BornNoArena(m1: Mem, m2: Mem, m3: Mem, root: nat)
    requires (root, 2, 0) in m1.nodes && NoArena(m1, root) && AboveUser(m1.role) && Keeps(m1, m2) && Keeps(m2, m3)
             && SameOut(m1, m2, root, STACK_TOP - STACK_PAGES, STACK_TOP)
             && SameOut(m2, m3, root, HEAP_PAGE, HEAP_PAGE + 1)
    ensures NoArena(m3, root)
  {
    hide NoArena, SameOut;
    StillNoArena(m1, m2, root, root, STACK_TOP - STACK_PAGES, STACK_TOP);
    StillNoArena(m2, m3, root, root, HEAP_PAGE, HEAP_PAGE + 1);
  }

  /** task_new_empty and task_create, as far as memory goes. With n frames left once the
      table is made, the stack is whole from 5 on and the heap page there from 7 on; a
      frame is lost if there was 1, or 6; and with 6 the break says there is a heap page
      where there is none. */
  method Birth(s: Spaces, kend: nat) returns (root: nat, brk: nat)
    requires s.Valid() && RAM_PAGE < kend <= PMM_PAGE && From(s.role, kend)
    modifies s
    ensures s.Valid() && (root == 0 <==> old(s.list) == []) && (root == 0 ==> brk == 0 && s.M() == old(s.M()))
    ensures root != 0 ==> Joined(old(s.M()), s.M(), root) && (root, 2, 0) !in old(s.nodes) && NoArena(s.M(), root)
    ensures root != 0 ==>
            var n := if |old(s.list)| <= Cost(kend) then 0 else |old(s.list)| - Cost(kend);
            && StackIs(s.M(), root, n, STACK_TOP - STACK_PAGES)
            && brk == (if n <= 5 then 0 else UHEAP_BASE + PGSIZE)
            && (HeapOk(s.M(), root, Old(brk)) <==> n != 6)
            && (AllHome(s.role) <==> old(AllHome(s.role)) && n != 1 && n != 6)
            && |s.list| == (if n < 7 then 0 else n - 7)
  {
    hide Ok, Threaded, ListOk, Trans, SameOut, SameTrans, Keeps, Extends, AllHome, OnWay, StackIs, Has, Reached, Own,
        NoneAll, OnlyShared, EachShared, Frame, From, HeapOk, NoArena, Joined, Cost;
    ghost var m0 := s.M();
    root := CreateTable(s, kend);
    if root == 0 { return 0, 0; }
    ghost var m1, n := s.M(), |s.list|;
    ExtendsKeys(m0, m1);
    ExtendsHome(m0, m1);
    FreshNoArena(m1, root, kend);
    Vacant(m0, m1, root, kend, n);
    Stack(s, root);
    ghost var m2 := s.M();
    StillVacant(m1, m2, root, |s.list|);
    KeepsRoot(m1, m2, root);
    brk := HeapPage(s, root);
    HeapBorn(m1, m2, s.M(), root, kend, n, brk);
    StackStays(m2, s.M(), root, n);
    BornNoArena(m1, m2, s.M(), root);
    JoinedBy(m0, m1, m2, s.M(), root, kend);
  }

  /** Ten frames, with a kernel image of one page: the second page of the stack is frame 0. */
  method StackOnZero() returns (s: Spaces, root: nat)
    ensures fresh(s) && s.Valid() && (root, 2, 0) in s.nodes && Trans(s.tabs, root, STACK_TOP - 2) == Some(0)
  {
    hide Ok, Threaded, ListOk, Trans, AllHome, HeapOk, NoArena, SameTrans;
    s := new Spaces(0x8_0001, 0x8_000B);
    var brk;
    root, brk := Birth(s, 0x8_0001);
    assert (root, 2, 0) in s.nodes;
  }
}
