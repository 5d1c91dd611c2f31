/** Whole address spaces of src/vm.c: what a new one holds, why two of them cannot reach
    each other's memory, and the copy that crosses from one to another. */
module VmSpace {
  import opened Common
  import opened VmTable
  import opened Vm

  // ---- a new address space

  const UART_PAGE: nat := 0x1_0000
  const CLINT_PAGE: nat := 0x2000
  const PLIC_PAGE: nat := 0xC000
  const PMM_PAGE: nat := 0x8_3000

  /** The pages every address space shares: the kernel image and three devices. */
  predicate Shared(v: nat, kend: nat) {
    || RAM_PAGE <= v < kend || v == UART_PAGE || CLINT_PAGE <= v < CLINT_PAGE + 16 || PLIC_PAGE <= v < PLIC_PAGE + 1024
  }

  /** Of the pages below kend and the devices, those that lead anywhere lead to
      themselves; nothing else leads anywhere. */
  ghost predicate OnlyShared(m: Mem, root: nat, kend: nat) {
    forall v: nat {:trigger Trans(m.tabs, root, v)} ::
        v < VPNS ==> Trans(m.tabs, root, v) == None || (Trans(m.tabs, root, v) == Some(v) && Shared(v, kend))
  }

  /** Every one of them leads to itself. */
  ghost predicate EachShared(m: Mem, root: nat, kend: nat) {
    forall v: nat {:trigger Trans(m.tabs, root, v)} :: Shared(v, kend) ==> Trans(m.tabs, root, v) == Some(v)
  }

  ghost predicate AllShared(m: Mem, root: nat, lo: nat, n: nat) {
    forall v: nat {:trigger Trans(m.tabs, root, v)} :: lo <= v < lo + n ==> Trans(m.tabs, root, v) == Some(v)
  }

  ghost predicate SharedAll(lo: nat, n: nat, kend: nat) { forall v: nat :: lo <= v < lo + n ==> Shared(v, kend) }

  /** The arena begins where the kernel image ends. */
  ghost predicate From(role: map<nat, Role>, kend: nat) { forall f :: f in role ==> f >= kend }

  /** One vm_map_at of vm_create_task_pt, whose result is not looked at. */
  method ShareRange(s: Spaces, root: nat, lo: nat, n: nat, perm: nat, kend: nat)
    requires s.Valid() && (root, 2, 0) in s.nodes && n > 0 && RAM_PAGE < kend <= PMM_PAGE
             && OnlyShared(s.M(), root, kend)
    requires Perm(perm) && 0 < lo && lo + n <= kend && SharedAll(lo, n, kend) && From(s.role, kend)
    requires NoneAll(s.M(), root, lo, lo + n) && lo / 512 / 512 == (lo + n - 1) / 512 / 512
    modifies s
    ensures s.Valid() && (root, 2, 0) in s.nodes && OnlyShared(s.M(), root, kend) && Extends(old(s.M()), s.M())
    ensures SameOut(old(s.M()), s.M(), root, lo, lo + n)
    ensures Paid(|old(s.list)|, old(s.nodes), |s.list|, s.nodes)
            && s.nodes.Keys <= old(s.nodes).Keys + Part(root, lo, lo + n)
    ensures s.list == [] || (AllShared(s.M(), root, lo, n) && Part(root, lo, lo + n) <= s.nodes.Keys)
  {
    hide Ok, Threaded, ListOk, Trans, SameOut, Leads, Taken, Extends, Shared, SharedAll, From, OnlyShared, AllShared,
        NoneAll, OnWay, WaysTo, Part;
    ghost var m0 := s.M();
    CanShare(m0, root, lo, n, kend);
    ghost var c;
    var ok;
    ok, c := s.MapAt(root, lo, lo, n, perm);
    SharedRange(m0, s.M(), root, lo, n, c, kend);
    PartMade(m0.nodes, s.nodes, root, lo, n);
    if !ok { SharedNone(m0, root, lo, n, c); }
  }

  /** The tables numbered a to b of the lowest level. */
  ghost function Row(root: nat, a: nat, b: nat): set<Key> {
    if b <= a then {} else Row(root, a, b - 1) + {(root, 0, b - 1)}
  }

  lemma {:induction false} RowHas(root: nat, a: nat, b: nat, k: Key)
    ensures k in Row(root, a, b) <==> k.0 == root && k.1 == 0 && a <= k.2 < b
  {
    if a < b {
      RowHas(root, a, b - 1, k);
      assert k == (root, 0, b - 1) <==> k.0 == root && k.1 == 0 && k.2 == b - 1;
    }
  }

  lemma {:induction false} RowSize(root: nat, a: nat, b: nat)
    requires a <= b
    ensures |Row(root, a, b)| == b - a
  {
    if a < b {
      RowSize(root, a, b - 1);
      RowHas(root, a, b - 1, (root, 0, b - 1));
    }
  }

  /** The tables on the way to pages lo to hi, the root aside. */
  ghost function Part(root: nat, lo: nat, hi: nat): set<Key>
    requires lo < hi
  {
    Row(root, lo / 512, (hi - 1) / 512 + 1) + {(root, 1, lo / 512 / 512)}
  }

  lemma PartHas(root: nat, lo: nat, hi: nat, k: Key)
    requires lo < hi
    ensures k in Part(root, lo, hi) <==>
            k.0 == root && if k.1 == 0 then lo / 512 <= k.2 <= (hi - 1) / 512 else k.1 == 1 && k.2 == lo / 512 / 512
  {
    hide Row;
    RowHas(root, lo / 512, (hi - 1) / 512 + 1, k);
    assert k == (root, 1, lo / 512 / 512) <==> k.0 == root && k.1 == 1 && k.2 == lo / 512 / 512;
  }

  lemma PartMade(nodes: map<Key, nat>, nodes': map<Key, nat>, root: nat, lo: nat, n: nat)
    requires n > 0 && OnWay(nodes, nodes', root, lo, lo + n - 1) && lo / 512 / 512 == (lo + n - 1) / 512 / 512
    ensures nodes'.Keys <= nodes.Keys + Part(root, lo, lo + n)
    ensures WaysTo(nodes', root, lo, n) ==> Part(root, lo, lo + n) <= nodes'.Keys
  {
    hide Part, WaysTo;
    forall k | k in nodes' && k !in nodes ensures k in Part(root, lo, lo + n) { PartHas(root, lo, lo + n, k); }
    if WaysTo(nodes', root, lo, n) {
      forall k | k in Part(root, lo, lo + n) ensures k in nodes' { PartThere(nodes', root, lo, n, k); }
    }
  }

  lemma PartThere(nodes: map<Key, nat>, root: nat, lo: nat, n: nat, k: Key)
    requires n > 0 && WaysTo(nodes, root, lo, n) && k in Part(root, lo, lo + n)
    ensures k in nodes
  {
    hide Part;
    PartHas(root, lo, lo + n, k);
    var v := if k.1 == 0 then FirstOf(lo, lo + n - 1, k.2) else lo;
    assert WayTo(nodes, root, v);
    assert k == (k.0, k.1, k.2);
  }

  function FirstOf(lo: nat, hi: nat, x: nat): (v: nat)
    requires lo / 512 <= x <= hi / 512 && lo <= hi
    ensures lo <= v <= hi && v / 512 == x
  {
    if x * 512 < lo then lo else x * 512
  }

  /** The tables a new address space is made of. */
  ghost function Frame(root: nat, kend: nat): set<Key>
    requires RAM_PAGE < kend <= PMM_PAGE
  {
    {(root, 2, 0)} + Part(root, RAM_PAGE, kend) + Devices(root)
  }

  ghost function Devices(root: nat): set<Key> {
    Part(root, UART_PAGE, UART_PAGE + 1) + Part(root, CLINT_PAGE, CLINT_PAGE + 16)
    + Part(root, PLIC_PAGE, PLIC_PAGE + 1024)
  }

  lemma DevicesHas(root: nat, k: Key)
    ensures k in Devices(root) <==>
            k.0 == root && if k.1 == 0 then k.2 in {0x10, 0x60, 0x61, 0x80} else k.1 == 1 && k.2 == 0
  {
    hide Part;
    PartHas(root, UART_PAGE, UART_PAGE + 1, k);
    PartHas(root, CLINT_PAGE, CLINT_PAGE + 16, k);
    PartHas(root, PLIC_PAGE, PLIC_PAGE + 1024, k);
  }

  lemma FrameHas(root: nat, kend: nat, k: Key)
    requires RAM_PAGE < kend <= PMM_PAGE
    ensures k in Frame(root, kend) <==>
            k.0 == root && if k.1 == 0 then RAM_PAGE / 512 <= k.2 <= (kend - 1) / 512 || k.2 in {0x10, 0x60, 0x61, 0x80}
                else if k.1 == 1 then k.2 in {0, 2} else k.1 == 2 && k.2 == 0
  {
    hide Part, Devices;
    PartHas(root, RAM_PAGE, kend, k);
    DevicesHas(root, k);
    assert k == (root, 2, 0) <==> k.0 == root && k.1 == 2 && k.2 == 0;
  }

  /** The seven that are there whatever the size of the kernel. */
  ghost function Fixed(root: nat): set<Key> {
    {(root, 2, 0), (root, 1, 0), (root, 1, 2), (root, 0, 0x10), (root, 0, 0x60), (root, 0, 0x61), (root, 0, 0x80)}
  }

  lemma FixedHas(root: nat, k: Key)
    ensures |Fixed(root)| == 7 && (k in Fixed(root) <==>
            k.0 == root && if k.1 == 0 then k.2 in {0x10, 0x60, 0x61, 0x80} else if k.1 == 1 then k.2 in {0, 2}
                else k.1 == 2 && k.2 == 0)
  {
    assert k == (k.0, k.1, k.2);
  }

  lemma FrameCost(root: nat, kend: nat)
    requires RAM_PAGE < kend <= PMM_PAGE
    ensures |Frame(root, kend)| == Cost(kend)
  {
    hide Row, Frame, Fixed;
    var row := Row(root, RAM_PAGE / 512, (kend - 1) / 512 + 1);
    forall k ensures (k in Frame(root, kend) <==> k in row || k in Fixed(root)) && (k !in row || k !in Fixed(root)) {
      FrameHas(root, kend, k);
      FixedHas(root, k);
      RowHas(root, RAM_PAGE / 512, (kend - 1) / 512 + 1, k);
    }
    assert Frame(root, kend) == row + Fixed(root);
    FixedHas(root, (root, 2, 0));
    RowSize(root, RAM_PAGE / 512, (kend - 1) / 512 + 1);
    Sum(row, Fixed(root));
  }

  lemma Sum<T>(a: set<T>, b: set<T>)
    requires a !! b
    ensures |a + b| == |a| + |b|
  {
  }

  /** What it takes: a root, two tables below it, four for the devices, and one for every
      512 pages of the kernel image. */
  function Cost(kend: nat): nat
    requires RAM_PAGE < kend
  {
    7 + ((kend - 1) / 512 + 1 - RAM_PAGE / 512)
  }

  /** The devices, in vm_create_task_pt. */
  method ShareDevices(s: Spaces, root: nat, kend: nat)
    requires s.Valid() && (root, 2, 0) in s.nodes && RAM_PAGE < kend <= PMM_PAGE && OnlyShared(s.M(), root, kend)
             && From(s.role, kend)
    requires NoneAll(s.M(), root, UART_PAGE, UART_PAGE + 1) && NoneAll(s.M(), root, CLINT_PAGE, CLINT_PAGE + 16)
             && NoneAll(s.M(), root, PLIC_PAGE, PLIC_PAGE + 1024)
    modifies s
    ensures s.Valid() && (root, 2, 0) in s.nodes && OnlyShared(s.M(), root, kend) && Extends(old(s.M()), s.M())
            && SameOut(old(s.M()), s.M(), root, 0, RAM_PAGE) && Paid(|old(s.list)|, old(s.nodes), |s.list|, s.nodes)
    ensures s.nodes.Keys <= old(s.nodes).Keys + Devices(root)
    ensures s.list == [] || (Devices(root) <= s.nodes.Keys && AllShared(s.M(), root, UART_PAGE, 1)
            && AllShared(s.M(), root, CLINT_PAGE, 16) && AllShared(s.M(), root, PLIC_PAGE, 1024))
  {
    hide Ok, Threaded, ListOk, Trans, SameOut, Extends, SameTrans, OnlyShared, AllShared, NoneAll, Part, Shared,
        SharedAll, From, Row;
    EveryoneShared(kend);
    OneRegion(kend);
    ghost var m2 := s.M();
    ShareRange(s, root, UART_PAGE, 1, 6, kend);
    ghost var m3, l3 := s.M(), s.list;
    StillNone(m2, m3, root, UART_PAGE, 1, CLINT_PAGE, 16);
    StillNone(m2, m3, root, UART_PAGE, 1, PLIC_PAGE, 1024);
    ExtendsKeys(m2, m3);
    ShareRange(s, root, CLINT_PAGE, 16, 6, kend);
    ghost var m4, l4 := s.M(), s.list;
    StillNone(m3, m4, root, CLINT_PAGE, 16, PLIC_PAGE, 1024);
    ExtendsKeys(m3, m4);
    ShareRange(s, root, PLIC_PAGE, 1024, 6, kend);
    ExtendsKeys(m4, s.M());
    ThreeOut(m2, m3, m4, s.M(), root);
    if s.list != [] {
      WasLeft(m4, s.M(), l4, s.list);
      WasLeft(m3, m4, l3, l4);
      StillAll(m3, m4, root, CLINT_PAGE, 16, UART_PAGE, 1);
      StillAll(m4, s.M(), root, PLIC_PAGE, 1024, UART_PAGE, 1);
      StillAll(m4, s.M(), root, PLIC_PAGE, 1024, CLINT_PAGE, 16);
    }
  }

  /** The kernel image and the devices, in a new address space. */
  method ShareAll(s: Spaces, root: nat, kend: nat)
    requires s.Valid() && (root, 2, 0) in s.nodes && RAM_PAGE < kend <= PMM_PAGE && From(s.role, kend)
             && NoneAll(s.M(), root, 0, VPNS)
    modifies s
    ensures s.Valid() && (root, 2, 0) in s.nodes && OnlyShared(s.M(), root, kend) && Extends(old(s.M()), s.M())
            && SameOut(old(s.M()), s.M(), root, 0, VPNS) && Paid(|old(s.list)|, old(s.nodes), |s.list|, s.nodes)
    ensures s.nodes.Keys <= old(s.nodes).Keys + Part(root, RAM_PAGE, kend) + Devices(root)
    ensures s.list != [] ==>
            EachShared(s.M(), root, kend) && Part(root, RAM_PAGE, kend) <= s.nodes.Keys && Devices(root) <= s.nodes.Keys
  {
    hide Ok, Threaded, ListOk, Trans, SameOut, Extends, SameTrans, OnlyShared, AllShared, NoneAll, Part, Shared,
        SharedAll,
        From, Row, Devices, EachShared;
    ghost var m1 := s.M();
    NothingYet(m1, root, kend);
    EveryoneShared(kend);
    OneRegion(kend);
    ShareRange(s, root, RAM_PAGE, kend - RAM_PAGE, 14, kend);
    ghost var m2, l2 := s.M(), s.list;
    StillNone(m1, m2, root, RAM_PAGE, kend - RAM_PAGE, UART_PAGE, 1);
    StillNone(m1, m2, root, RAM_PAGE, kend - RAM_PAGE, CLINT_PAGE, 16);
    StillNone(m1, m2, root, RAM_PAGE, kend - RAM_PAGE, PLIC_PAGE, 1024);
    ExtendsKeys(m1, m2);
    ShareDevices(s, root, kend);
    ghost var m3 := s.M();
    ExtendsKeys(m2, m3);
    TwoOut(m1, m2, m3, root, kend);
    if s.list != [] {
      WasLeft(m2, m3, l2, s.list);
      StillAll(m2, m3, root, 0, RAM_PAGE, RAM_PAGE, kend - RAM_PAGE);
      EveryShared(m3, root, kend);
    }
  }

  lemma TwoOut(m1: Mem, m2: Mem, m3: Mem, root: nat, kend: nat)
    requires RAM_PAGE < kend && SameOut(m1, m2, root, RAM_PAGE, kend) && SameOut(m2, m3, root, 0, RAM_PAGE)
             && Extends(m1, m2) && Extends(m2, m3)
    ensures SameOut(m1, m3, root, 0, VPNS) && Extends(m1, m3)
  {
    hide Trans, Extends;
    ExtendsTwice(m1, m2, m3);
    ExtendsKeys(m1, m2);
    forall r: nat, v: nat | (r, 2, 0) in m1.nodes && v < VPNS && !(r == root && 0 <= v < VPNS)
        ensures Trans(m3.tabs, r, v) == Trans(m1.tabs, r, v) {
      assert (r, 2, 0) in m2.nodes;
      assert Trans(m3.tabs, r, v) == Trans(m2.tabs, r, v);
    }
  }

  /** vm_create_task_pt: 0 if there is no frame for the root. It takes Cost(kend) frames, or
      all there are, and then what is missing is missing without a word. */
  method CreateTable(s: Spaces, kend: nat) returns (root: nat)
    requires s.Valid() && RAM_PAGE < kend <= PMM_PAGE && From(s.role, kend)
    modifies s
    ensures s.Valid() && SameTrans(old(s.M()), s.M()) && Extends(old(s.M()), s.M())
            && (root == 0 <==> old(s.list) == []) && (root == 0 ==> s.M() == old(s.M()))
    ensures root != 0 ==> (root, 2, 0) in s.nodes && (root, 2, 0) !in old(s.nodes) && OnlyShared(s.M(), root, kend)
    ensures |s.list| == if |old(s.list)| <= Cost(kend) then 0 else |old(s.list)| - Cost(kend)
    ensures root != 0 ==> s.nodes.Keys <= old(s.nodes).Keys + Frame(root, kend)
    ensures s.list != [] ==> EachShared(s.M(), root, kend) && Frame(root, kend) <= s.nodes.Keys
  {
    hide Ok, Threaded, ListOk, Trans, SameOut, Extends, SameTrans, OnlyShared, NoneAll, Part, From, Devices, Cost,
        Frame,
        EachShared;
    ghost var m0 := s.M();
    root := s.NewRoot();
    if root == 0 { return; }
    ghost var m1 := s.M();
    ExtendsKeys(m0, m1);
    ShareAll(s, root, kend);
    Around(m0, m1, s.M(), root, 0, VPNS);
    Accounted(m0, m1, s.M(), root, kend);
  }

  lemma Accounted(m0: Mem, m1: Mem, m3: Mem, root: nat, kend: nat)
    requires Ok(m0) && (root, 2, 0) !in m0.nodes && RAM_PAGE < kend <= PMM_PAGE && Extends(m0, m3)
             && (root, 2, 0) in m3.nodes
    requires m1.nodes == m0.nodes[(root, 2, 0) := root]
             && m3.nodes.Keys <= m1.nodes.Keys + Part(root, RAM_PAGE, kend) + Devices(root)
    ensures m3.nodes.Keys <= m0.nodes.Keys + Frame(root, kend) && |m3.nodes| <= |m0.nodes| + Cost(kend)
    ensures Part(root, RAM_PAGE, kend) <= m3.nodes.Keys && Devices(root) <= m3.nodes.Keys ==>
            Frame(root, kend) <= m3.nodes.Keys && |m3.nodes| == |m0.nodes| + Cost(kend)
  {
    hide Ok, Extends, Part, Devices, Cost;
    ExtendsKeys(m0, m3);
    FrameCost(root, kend);
    NotFramed(m0, root, kend);
    Counted(m0, m3, Frame(root, kend));
  }

  lemma ThreeOut(m2: Mem, m3: Mem, m4: Mem, m5: Mem, root: nat)
    requires SameOut(m2, m3, root, UART_PAGE, UART_PAGE + 1) && SameOut(m3, m4, root, CLINT_PAGE, CLINT_PAGE + 16)
             && SameOut(m4, m5, root, PLIC_PAGE, PLIC_PAGE + 1024)
    requires Extends(m2, m3) && Extends(m3, m4) && Extends(m4, m5)
    ensures SameOut(m2, m5, root, 0, RAM_PAGE) && Extends(m2, m5)
  {
    hide Trans, Extends;
    ExtendsTwice(m2, m3, m4);
    ExtendsTwice(m2, m4, m5);
    ExtendsKeys(m2, m3);
    ExtendsKeys(m3, m4);
    forall r: nat, v: nat | (r, 2, 0) in m2.nodes && v < VPNS && !(r == root && 0 <= v < RAM_PAGE)
        ensures Trans(m5.tabs, r, v) == Trans(m2.tabs, r, v) {
      assert (r, 2, 0) in m3.nodes && (r, 2, 0) in m4.nodes;
      assert Trans(m5.tabs, r, v) == Trans(m4.tabs, r, v);
      assert Trans(m4.tabs, r, v) == Trans(m3.tabs, r, v);
    }
  }

  lemma OneRegion(kend: nat)
    requires RAM_PAGE < kend <= PMM_PAGE
    ensures RAM_PAGE / 512 / 512 == (kend - 1) / 512 / 512
    ensures CLINT_PAGE / 512 / 512 == (CLINT_PAGE + 15) / 512 / 512
    ensures PLIC_PAGE / 512 / 512 == (PLIC_PAGE + 1023) / 512 / 512
  {
  }

  lemma UnderRoot(m: Mem, k: Key)
    requires Ok(m) && k in m.nodes
    ensures (k.0, 2, 0) in m.nodes
  {
    assert KeyOk(m, k);
    if k.1 < 2 {
      assert KeyOk(m, Up(k));
      if k.1 == 0 { assert KeyOk(m, Up(Up(k))); }
    }
  }

  lemma NotFramed(m: Mem, root: nat, kend: nat)
    requires Ok(m) && (root, 2, 0) !in m.nodes && RAM_PAGE < kend <= PMM_PAGE
    ensures m.nodes.Keys !! Frame(root, kend)
  {
    hide Frame;
    forall k | k in m.nodes ensures k !in Frame(root, kend) {
      FrameHas(root, kend, k);
      UnderRoot(m, k);
    }
  }

  /** How many tables were added. */
  lemma Counted(m: Mem, m': Mem, t: set<Key>)
    requires m'.nodes.Keys <= m.nodes.Keys + t && m.nodes.Keys <= m'.nodes.Keys && m.nodes.Keys !! t
    ensures |m'.nodes| <= |m.nodes| + |t| && (t <= m'.nodes.Keys ==> |m'.nodes| == |m.nodes| + |t|)
  {
    var a, b := m.nodes.Keys, m'.nodes.Keys;
    Smaller(b, a + t);
    if t <= b { assert b == a + t; }
  }

  lemma Smaller<T>(a: set<T>, b: set<T>)
    requires a <= b
    ensures |a| <= |b|
  {
    assert b == a + (b - a);
  }

  lemma CanShare(m: Mem, root: nat, lo: nat, n: nat, kend: nat)
    requires NoneAll(m, root, lo, lo + n) && lo + n <= kend && From(m.role, kend)
    ensures forall j: nat {:trigger LeadAt(m, root, lo, lo, j)} :: j < n ==> LeadAt(m, root, lo, lo, j)
  {
    hide Trans;
    forall j: nat | j < n ensures LeadAt(m, root, lo, lo, j) { assert Trans(m.tabs, root, lo + j) == None; }
  }

  lemma SharedRange(m0: Mem, m: Mem, root: nat, lo: nat, n: nat, c: nat, kend: nat)
    requires (root, 2, 0) in m0.nodes && OnlyShared(m0, root, kend) && c <= n
             && SharedAll(lo, n, kend)
    requires SameOut(m0, m, root, lo, lo + c) && Leads(m, root, lo, lo, c) && Taken(m0, m, root, lo, lo, c)
    ensures OnlyShared(m, root, kend) && Extends(m0, m) && SameOut(m0, m, root, lo, lo + n)
            && (c == n ==> AllShared(m, root, lo, n))
  {
    hide Trans, Shared;
    forall v: nat | v < VPNS ensures Trans(m.tabs, root, v) == None
        || (Trans(m.tabs, root, v) == Some(v) && Shared(v, kend)) {
      if !(lo <= v < lo + c) { assert Trans(m.tabs, root, v) == Trans(m0.tabs, root, v); }
    }
  }

  lemma SharedNone(m: Mem, root: nat, lo: nat, n: nat, c: nat)
    requires NoneAll(m, root, lo, lo + n) && c < n
    ensures Trans(m.tabs, root, lo + c) == None
  {
  }

  lemma NothingYet(m: Mem, root: nat, kend: nat)
    requires NoneAll(m, root, 0, VPNS) && RAM_PAGE < kend <= PMM_PAGE
    ensures OnlyShared(m, root, kend) && NoneAll(m, root, RAM_PAGE, kend) && NoneAll(m, root, UART_PAGE, UART_PAGE + 1)
            && NoneAll(m, root, CLINT_PAGE, CLINT_PAGE + 16) && NoneAll(m, root, PLIC_PAGE, PLIC_PAGE + 1024)
  {
    hide Trans, Shared;
  }

  lemma EveryoneShared(kend: nat)
    requires RAM_PAGE < kend
    ensures SharedAll(RAM_PAGE, kend - RAM_PAGE, kend) && SharedAll(UART_PAGE, 1, kend)
            && SharedAll(CLINT_PAGE, 16, kend) && SharedAll(PLIC_PAGE, 1024, kend)
  {
  }

  lemma ExtendsKeys(m0: Mem, m: Mem)
    requires Extends(m0, m)
    ensures m.role.Keys == m0.role.Keys && (forall a :: From(m0.role, a) ==> From(m.role, a))
            && m0.nodes.Keys <= m.nodes.Keys
  {
  }

  /** What one address space gained no other one noticed. */
  lemma Around(m0: Mem, m1: Mem, m2: Mem, root: nat, lo: nat, n: nat)
    requires SameTrans(m0, m1) && Extends(m0, m1) && Extends(m1, m2) && SameOut(m1, m2, root, lo, lo + n)
             && (root, 2, 0) !in m0.nodes
    ensures SameTrans(m0, m2) && Extends(m0, m2)
  {
    hide Trans;
    ExtendsTwice(m0, m1, m2);
    forall r: nat, v: nat | (r, 2, 0) in m0.nodes && v < VPNS ensures Trans(m2.tabs, r, v) == Trans(m0.tabs, r, v) {
      assert (r, 2, 0) in m1.nodes;
      assert Trans(m1.tabs, r, v) == Trans(m0.tabs, r, v);
    }
  }

  lemma StillNone(m: Mem, m': Mem, root: nat, lo: nat, n: nat, lo': nat, n': nat)
    requires (root, 2, 0) in m.nodes && SameOut(m, m', root, lo, lo + n) && NoneAll(m, root, lo', lo' + n')
             && (lo' + n' <= lo || lo + n <= lo') && lo' + n' <= VPNS
    ensures NoneAll(m', root, lo', lo' + n')
  {
    hide Trans;
    forall v: nat | lo' <= v < lo' + n' ensures Trans(m'.tabs, root, v) == None {
      assert Trans(m'.tabs, root, v) == Trans(m.tabs, root, v);
    }
  }

  lemma StillAll(m: Mem, m': Mem, root: nat, lo: nat, n: nat, lo': nat, n': nat)
    requires (root, 2, 0) in m.nodes && SameOut(m, m', root, lo, lo + n) && AllShared(m, root, lo', n')
             && (lo' + n' <= lo || lo + n <= lo') && lo' + n' <= VPNS
    ensures AllShared(m', root, lo', n')
  {
    hide Trans;
    forall v: nat | lo' <= v < lo' + n' ensures Trans(m'.tabs, root, v) == Some(v) {
      assert Trans(m'.tabs, root, v) == Trans(m.tabs, root, v);
    }
  }

  /** Frames do not come back while tables are only added. */
  lemma WasLeft(m: Mem, m': Mem, was: seq<nat>, list: seq<nat>)
    requires Extends(m, m') && ListOk(m.role, was) && ListOk(m'.role, list) && list != []
    ensures was != []
  {
    var f := list[0];
    assert f in list && m'.role[f] == Free;
    assert f in was;
  }

  lemma EveryShared(m: Mem, root: nat, kend: nat)
    requires RAM_PAGE < kend && AllShared(m, root, RAM_PAGE, kend - RAM_PAGE) && AllShared(m, root, UART_PAGE, 1)
             && AllShared(m, root, CLINT_PAGE, 16) && AllShared(m, root, PLIC_PAGE, 1024)
    ensures EachShared(m, root, kend)
  {
    hide Trans;
  }

  // ---- isolation

  /** A table that maps no frame of the arena at its own address. */
  ghost predicate NoArena(m: Mem, root: nat) {
    forall v: nat {:trigger Trans(m.tabs, root, v)} :: v < VPNS && v in m.role ==> Trans(m.tabs, root, v) != Some(v)
  }

  /** Two virtual pages behind which lies one frame of the arena are one page of one
      address space. */
  lemma Isolation(m: Mem, r1: nat, v1: nat, r2: nat, v2: nat, p: nat)
    requires Ok(m) && (r1, 2, 0) in m.nodes && (r2, 2, 0) in m.nodes && v1 < VPNS && v2 < VPNS && NoArena(m, r1)
             && NoArena(m, r2)
    requires p in m.role && Trans(m.tabs, r1, v1) == Some(p) && Trans(m.tabs, r2, v2) == Some(p)
    ensures r1 == r2 && v1 == v2
  {
    hide Trans, Ok;
    NotZero(m, p);
    OwnPage(m, r1, v1);
    OwnPage(m, r2, v2);
  }

  /** A new address space maps nothing of the arena, */
  lemma FreshNoArena(m: Mem, root: nat, kend: nat)
    requires OnlyShared(m, root, kend) && RAM_PAGE < kend && From(m.role, kend)
    ensures NoArena(m, root)
  {
    hide Trans;
  }

  /** and changes below it keep it so. */
  lemma StillNoArena(m: Mem, m': Mem, r: nat, root: nat, lo: nat, hi: nat)
    requires (r, 2, 0) in m.nodes && NoArena(m, r) && SameOut(m, m', root, lo, hi) && hi <= RAM_PAGE
             && AboveUser(m.role) && m'.role.Keys == m.role.Keys
    ensures NoArena(m', r)
  {
    hide Trans;
    forall v: nat | v < VPNS && v in m'.role ensures Trans(m'.tabs, r, v) != Some(v) {
      assert v in m.role;
      assert Trans(m'.tabs, r, v) == Trans(m.tabs, r, v);
    }
  }

  /** No table of an address space is within its own reach. */
  lemma TablesHidden(m: Mem, root: nat, v: nat, k: Key)
    requires Ok(m) && (root, 2, 0) in m.nodes && v < VPNS && NoArena(m, root) && k in m.nodes
    ensures Trans(m.tabs, root, v) != Some(m.nodes[k])
  {
    hide Trans;
    assert KeyOk(m, k);
    if Trans(m.tabs, root, v) == Some(m.nodes[k]) { OwnPage(m, root, v); }
  }

  // ---- copying between address spaces

  /** vm_translate_in: 0 if nothing is there. */
  function Pa(t: Tables, pt: nat, va: nat): nat {
    match Trans(t, pt, va / PGSIZE)
    case None => 0
    case Some(p) => p * PGSIZE + va % PGSIZE
  }

  /** The three-level walk computes the translation. */
  method Translate(t: Tables, pt: nat, va: nat, ghost m: Mem) returns (pa: nat)
    requires Ok(m) && t == m.tabs && (pt, 2, 0) in m.nodes
    ensures pa == Pa(t, pt, va)
  {
    hide Ok, KeyOk;
    pa := 0;
    var f, level := pt, 2;
    ghost var k: Key := (pt, 2, 0);
    ghost var f1 := pt;
    RootIs(m, pt);
    while level >= 0
      invariant -1 <= level <= 2 && k in m.nodes && m.nodes[k] == f && (level >= 0 ==> k.1 == level)
      invariant level == 2 ==> f == pt
      invariant level == 1 ==> StepTo(t, pt, Px(2, va / PGSIZE), f)
      invariant level == 0 ==> StepTo(t, pt, Px(2, va / PGSIZE), f1) && StepTo(t, f1, Px(1, va / PGSIZE), f)
      invariant level >= 0
      decreases level
    {
      var i := Px(level, va / PGSIZE);
      NodeFacts(m, k, i);
      match t[f][i] {
        case Empty => return 0;
        case Leaf(p, _) =>
          SpanOf(va);
          return if level == 0 then p * PGSIZE + va % PGSIZE else if level == 1 then p * PGSIZE + va % (PGSIZE * 512)
              else p * PGSIZE + va % (PGSIZE * 512 * 512);
        case Link(p) =>
          if level == 1 { f1 := f; }
          k := Down(k, i);
          f := p;
      }
      level := level - 1;
    }
  }

  ghost predicate StepTo(t: Tables, f: nat, i: nat, g: nat) {
    f in t && |t[f]| == 512 && i < 512 && t[f][i] == Link(g)
  }

  lemma SpanOf(va: nat)
    ensures va % (PGSIZE * 512) == va / PGSIZE % 512 * PGSIZE + va % PGSIZE
    ensures va % (PGSIZE * 512 * 512) == va / PGSIZE % 0x4_0000 * PGSIZE + va % PGSIZE
  {
    var v, o := va / PGSIZE, va % PGSIZE;
    Span512(v, o);
    Span256K(v, o);
  }

  lemma Span512(v: nat, o: nat)
    requires o < PGSIZE
    ensures (v * PGSIZE + o) % (PGSIZE * 512) == v % 512 * PGSIZE + o
  {
    var q, r := v / 512, v % 512;
    assert v * PGSIZE + o == (PGSIZE * 512) * q + (r * PGSIZE + o);
  }

  lemma Span256K(v: nat, o: nat)
    requires o < PGSIZE
    ensures (v * PGSIZE + o) % (PGSIZE * 512 * 512) == v % 0x4_0000 * PGSIZE + o
  {
    var q, r := v / 0x4_0000, v % 0x4_0000;
    assert v * PGSIZE + o == (PGSIZE * 512 * 512) * q + (r * PGSIZE + o);
  }

  /** Where byte j of a buffer lies. */
  function At(t: Tables, pt: nat, va: nat, j: nat): nat { Pa(t, pt, va + j) }

  /** No byte written is a byte read, and none is written twice. */
  ghost predicate Apart(t: Tables, dpt: nat, dva: nat, spt: nat, sva: nat, len: nat) {
    && (forall i: nat, j: nat {:trigger At(t, dpt, dva, i), At(t, spt, sva, j)} ::
        i < len && j < len && At(t, dpt, dva, i) != 0 ==> At(t, dpt, dva, i) != At(t, spt, sva, j))
    && (forall i: nat, j: nat {:trigger At(t, dpt, dva, i), At(t, dpt, dva, j)} ::
        i < j < len && At(t, dpt, dva, i) != 0 ==> At(t, dpt, dva, i) != At(t, dpt, dva, j))
  }

  ghost predicate InRam(t: Tables, pt: nat, n: nat) { forall va: nat :: Pa(t, pt, va) < n }

  ghost predicate Hit(t: Tables, pt: nat, va: nat, n: nat, a: nat) { exists j: nat :: j < n && At(t, pt, va, j) == a }

  ghost predicate Landed(r0: seq<byte>, r: seq<byte>, d: nat, s: nat) {
    0 < d < |r| && 0 < s < |r0| && r[d] == r0[s]
  }

  /** The first n bytes are across, and no other byte changed. */
  ghost predicate Copied(r0: seq<byte>, r: seq<byte>, t: Tables, dpt: nat, dva: nat, spt: nat, sva: nat, n: nat) {
    && |r| == |r0|
    && (forall j: nat {:trigger At(t, dpt, dva, j)} :: j < n ==> Landed(r0, r, At(t, dpt, dva, j), At(t, spt, sva, j)))
    && (forall a: nat {:trigger Hit(t, dpt, dva, n, a)} :: a < |r| && !Hit(t, dpt, dva, n, a) ==> r[a] == r0[a])
  }

  function Pasted(r: seq<byte>, d: nat, s: nat, n: nat): seq<byte>
    requires d + n <= |r| && s + n <= |r|
  {
    r[..d] + r[s..s + n] + r[d + n..]
  }

  /** memcpy. */
  method MemCpy(ram: array<byte>, d: nat, s: nat, n: nat)
    requires d + n <= ram.Length && s + n <= ram.Length && (d + n <= s || s + n <= d)
    modifies ram
    ensures ram[..] == Pasted(old(ram[..]), d, s, n)
  {
    var i := 0;
    while i < n
      invariant i <= n && forall a ::
                0 <= a < ram.Length ==> ram[a] == if d <= a < d + i then old(ram[s + (a - d)]) else old(ram[a])
    {
      ram[d + i] := ram[s + i];
      i := i + 1;
    }
  }

  /** vm_copy_across: the bytes at sva in one address space come to lie at dva in the other,
      however either buffer is cut into pages; -1 if byte done of either is nowhere. */
  method CopyAcross(ram: array<byte>, t: Tables, dpt: nat, dva: nat, spt: nat, sva: nat, len: nat, ghost m: Mem)
      returns (r: int, ghost done: nat)
    requires Ok(m) && t == m.tabs && (dpt, 2, 0) in m.nodes && (spt, 2, 0) in m.nodes
    requires InRam(t, dpt, ram.Length) && InRam(t, spt, ram.Length) && Apart(t, dpt, dva, spt, sva, len)
    modifies ram
    ensures done <= len && Copied(old(ram[..]), ram[..], t, dpt, dva, spt, sva, done)
    ensures if r == 0 then done == len
            else r == -1 && done < len && (At(t, dpt, dva, done) == 0 || At(t, spt, sva, done) == 0)
  {
    hide Ok, Trans, Apart, Copied, InRam, Hit, Pa;
    ghost var r0 := ram[..];
    CopiedNone(r0, t, dpt, dva, spt, sva);
    var i := 0;
    done := 0;
    while i < len
      invariant i == done <= len && Copied(r0, ram[..], t, dpt, dva, spt, sva, i)
    {
      var spa := Translate(t, spt, sva + i, m);
      var dpa := Translate(t, dpt, dva + i, m);
      if spa == 0 || dpa == 0 { return -1, done; }
      var n, k := PGSIZE - (sva + i) % PGSIZE, PGSIZE - (dva + i) % PGSIZE;
      if k < n { n := k; }
      if n > len - i { n := len - i; }
      ghost var r1 := ram[..];
      Fragment(t, dpt, dva, i, n, ram.Length);
      Fragment(t, spt, sva, i, n, ram.Length);
      FragmentsApart(t, dpt, dva, spt, sva, len, i, n);
      MemCpy(ram, dpa, spa, n);
      CopiedMore(r0, r1, t, dpt, dva, spt, sva, len, i, n);
      i := i + n;
      done := i;
    }
    r := 0;
  }

  lemma CopiedNone(r: seq<byte>, t: Tables, dpt: nat, dva: nat, spt: nat, sva: nat)
    ensures Copied(r, r, t, dpt, dva, spt, sva, 0)
  {
  }

  /** Within a page, addresses run on. */
  lemma Fragment(t: Tables, pt: nat, va: nat, i: nat, n: nat, size: nat)
    requires 0 < n <= PGSIZE - (va + i) % PGSIZE && Pa(t, pt, va + i) != 0 && InRam(t, pt, size)
    ensures Runs(t, pt, va, i, n) && At(t, pt, va, i) + n <= size && At(t, pt, va, i) != 0
  {
    hide Trans;
    forall j: nat | i <= j < i + n ensures At(t, pt, va, j) == At(t, pt, va, i) + (j - i) {
      PageOf(va + i, j - i);
    }
    assert Pa(t, pt, va + (i + n - 1)) < size && At(t, pt, va, i + n - 1) < size;
  }

  ghost predicate Runs(t: Tables, pt: nat, va: nat, i: nat, n: nat) {
    forall j: nat {:trigger At(t, pt, va, j)} :: i <= j < i + n ==> At(t, pt, va, j) == At(t, pt, va, i) + (j - i)
  }

  lemma RunsTo(t: Tables, pt: nat, va: nat, i: nat, n: nat, a: nat) returns (j: nat)
    requires Runs(t, pt, va, i, n) && At(t, pt, va, i) <= a < At(t, pt, va, i) + n
    ensures i <= j < i + n && At(t, pt, va, j) == a
  {
    hide At;
    j := i + (a - At(t, pt, va, i));
    assert At(t, pt, va, j) == a;
  }

  lemma PageOf(a: nat, j: nat)
    requires a % PGSIZE + j < PGSIZE
    ensures (a + j) / PGSIZE == a / PGSIZE && (a + j) % PGSIZE == a % PGSIZE + j
  {
  }

  lemma FragmentsApart(t: Tables, dpt: nat, dva: nat, spt: nat, sva: nat, len: nat, i: nat, n: nat)
    requires Apart(t, dpt, dva, spt, sva, len) && i + n <= len && n > 0 && Runs(t, dpt, dva, i, n)
             && Runs(t, spt, sva, i, n) && At(t, dpt, dva, i) != 0
    ensures var d, s := At(t, dpt, dva, i), At(t, spt, sva, i); d + n <= s || s + n <= d
  {
    hide At;
    var d, s := At(t, dpt, dva, i), At(t, spt, sva, i);
    if s <= d < s + n {
      var _ := RunsTo(t, spt, sva, i, n, d);
    } else if d <= s < d + n {
      var _ := RunsTo(t, dpt, dva, i, n, s);
    }
  }

  lemma CopiedMore(r0: seq<byte>, r1: seq<byte>, t: Tables, dpt: nat, dva: nat, spt: nat, sva: nat, len: nat, i: nat,
      n: nat)
    requires Copied(r0, r1, t, dpt, dva, spt, sva, i) && Apart(t, dpt, dva, spt, sva, len) && i + n <= len && n > 0
    requires Runs(t, dpt, dva, i, n) && Runs(t, spt, sva, i, n) && At(t, dpt, dva, i) != 0 && At(t, spt, sva, i) != 0
    requires At(t, dpt, dva, i) + n <= |r0| && At(t, spt, sva, i) + n <= |r0|
    ensures |r1| == |r0| && Copied(r0, Pasted(r1, At(t, dpt, dva, i), At(t, spt, sva, i), n), t, dpt, dva, spt, sva,
            i + n)
  {
    hide At, Hit;
    var d, s := At(t, dpt, dva, i), At(t, spt, sva, i);
    var r2 := Pasted(r1, d, s, n);
    forall j: nat | j < i + n ensures Landed(r0, r2, At(t, dpt, dva, j), At(t, spt, sva, j)) {
      if j < i {
        OldByte(r0, r1, t, dpt, dva, spt, sva, len, i, n, j);
      } else {
        NewByte(r0, r1, t, dpt, dva, spt, sva, len, i, n, j);
      }
    }
    forall a: nat | a < |r2| && !Hit(t, dpt, dva, i + n, a) ensures r2[a] == r0[a] {
      Missed(t, dpt, dva, i, n, a);
    }
  }

  lemma OldByte(r0: seq<byte>, r1: seq<byte>, t: Tables, dpt: nat, dva: nat, spt: nat, sva: nat, len: nat, i: nat,
      n: nat, j: nat)
    requires Copied(r0, r1, t, dpt, dva, spt, sva, i) && Apart(t, dpt, dva, spt, sva, len) && i + n <= len
             && Runs(t, dpt, dva, i, n) && j < i
    requires At(t, dpt, dva, i) + n <= |r0| && At(t, spt, sva, i) + n <= |r0|
    ensures Landed(r0, Pasted(r1, At(t, dpt, dva, i), At(t, spt, sva, i), n), At(t, dpt, dva, j), At(t, spt, sva, j))
  {
    hide At, Hit;
    var d, a := At(t, dpt, dva, i), At(t, dpt, dva, j);
    assert Landed(r0, r1, a, At(t, spt, sva, j));
    if d <= a < d + n { var _ := RunsTo(t, dpt, dva, i, n, a); }
  }

  lemma NewByte(r0: seq<byte>, r1: seq<byte>, t: Tables, dpt: nat, dva: nat, spt: nat, sva: nat, len: nat, i: nat,
      n: nat, j: nat)
    requires Copied(r0, r1, t, dpt, dva, spt, sva, i) && Apart(t, dpt, dva, spt, sva, len) && i <= j < i + n <= len
    requires Runs(t, dpt, dva, i, n) && Runs(t, spt, sva, i, n) && At(t, dpt, dva, i) != 0 && At(t, spt, sva, i) != 0
    requires At(t, dpt, dva, i) + n <= |r0| && At(t, spt, sva, i) + n <= |r0|
    ensures Landed(r0, Pasted(r1, At(t, dpt, dva, i), At(t, spt, sva, i), n), At(t, dpt, dva, j), At(t, spt, sva, j))
  {
    hide At, Hit;
    var b := At(t, spt, sva, j);
    NotHit(r0, r1, t, dpt, dva, spt, sva, len, i, j);
    assert r1[b] == r0[b];
  }

  lemma NotHit(r0: seq<byte>, r1: seq<byte>, t: Tables, dpt: nat, dva: nat, spt: nat, sva: nat, len: nat, i: nat,
      j: nat)
    requires Copied(r0, r1, t, dpt, dva, spt, sva, i) && Apart(t, dpt, dva, spt, sva, len) && i <= len && j < len
    ensures !Hit(t, dpt, dva, i, At(t, spt, sva, j))
  {
    hide At;
    forall x: nat | x < i ensures At(t, dpt, dva, x) != At(t, spt, sva, j) {
      assert Landed(r0, r1, At(t, dpt, dva, x), At(t, spt, sva, x));
    }
  }

  lemma Missed(t: Tables, pt: nat, va: nat, i: nat, n: nat, a: nat)
    requires !Hit(t, pt, va, i + n, a) && Runs(t, pt, va, i, n)
    ensures !Hit(t, pt, va, i, a) && !(At(t, pt, va, i) <= a < At(t, pt, va, i) + n)
  {
    hide At;
    var d := At(t, pt, va, i);
    if d <= a < d + n { var _ := RunsTo(t, pt, va, i, n, a); }
  }

  /** Address va is in both buffers, and leads both tasks to one frame. */
  ghost predicate Meet(m: Mem, dpt: nat, dva: nat, spt: nat, sva: nat, i: nat, j: nat) {
    && dva + i == sva + j && Trans(m.tabs, dpt, (dva + i) / PGSIZE).Some?
    && Trans(m.tabs, spt, (sva + j) / PGSIZE) == Trans(m.tabs, dpt, (dva + i) / PGSIZE)
  }

  /** No byte of the buffer lies in frame 0. */
  ghost predicate OffZero(m: Mem, pt: nat, va: nat, len: nat) {
    forall i: nat {:trigger At(m.tabs, pt, va, i)} :: i < len ==> Trans(m.tabs, pt, (va + i) / PGSIZE) != Some(0)
  }

  /** Two buffers are apart exactly if no address is in both that leads both tasks to the
      same frame: a private page of one is out of the other's reach, and of the pages all
      share, the same bytes would have to be meant. */
  lemma TasksApart(m: Mem, dpt: nat, dva: nat, spt: nat, sva: nat, len: nat)
    requires Ok(m) && (dpt, 2, 0) in m.nodes && (spt, 2, 0) in m.nodes && dva + len <= VPNS * PGSIZE
             && sva + len <= VPNS * PGSIZE && NoArena(m, dpt) && NoArena(m, spt) && OffZero(m, dpt, dva, len)
    ensures Apart(m.tabs, dpt, dva, spt, sva, len) <==>
            forall i: nat, j: nat :: i < len && j < len ==> !Meet(m, dpt, dva, spt, sva, i, j)
  {
    hide Trans, Ok, NoArena, Pa;
    var t := m.tabs;
    forall i: nat, j: nat | i < len && j < len
        ensures Meet(m, dpt, dva, spt, sva, i, j) <==>
            At(t, dpt, dva, i) != 0 && At(t, dpt, dva, i) == At(t, spt, sva, j) {
      assert At(t, dpt, dva, i) == Pa(t, dpt, dva + i);
      OneByte(m, dpt, dva + i, spt, sva + j);
    }
    forall i: nat, j: nat | i < j < len && At(t, dpt, dva, i) != 0 ensures At(t, dpt, dva, i) != At(t, dpt, dva, j) {
      OneByte(m, dpt, dva + i, dpt, dva + j);
    }
  }

  /** Which bytes two tasks have in common. */
  lemma OneByte(m: Mem, r1: nat, a: nat, r2: nat, b: nat)
    requires Ok(m) && (r1, 2, 0) in m.nodes && (r2, 2, 0) in m.nodes && a < VPNS * PGSIZE && b < VPNS * PGSIZE
             && NoArena(m, r1) && NoArena(m, r2) && Trans(m.tabs, r1, a / PGSIZE) != Some(0)
    ensures Pa(m.tabs, r1, a) != 0 && Pa(m.tabs, r1, a) == Pa(m.tabs, r2, b) <==>
            a == b && Trans(m.tabs, r1, a / PGSIZE).Some?
            && Trans(m.tabs, r2, b / PGSIZE) == Trans(m.tabs, r1, a / PGSIZE)
  {
    hide Trans, Ok, NoArena;
    var x := Pa(m.tabs, r1, a);
    FrameOf(m.tabs, r1, a);
    FrameOf(m.tabs, r2, b);
    if x != 0 && x == Pa(m.tabs, r2, b) {
      OneFrame(m, r1, a / PGSIZE, r2, b / PGSIZE, x / PGSIZE);
    }
  }

  lemma OneFrame(m: Mem, r1: nat, v1: nat, r2: nat, v2: nat, p: nat)
    requires Ok(m) && (r1, 2, 0) in m.nodes && (r2, 2, 0) in m.nodes && v1 < VPNS && v2 < VPNS && NoArena(m, r1)
             && NoArena(m, r2) && p != 0
    requires Trans(m.tabs, r1, v1) == Some(p) && Trans(m.tabs, r2, v2) == Some(p)
    ensures v1 == v2 && (r1 == r2 || p == v1)
  {
    hide Trans, Ok, NoArena;
    if p in m.role {
      Isolation(m, r1, v1, r2, v2, p);
    } else {
      if p != v1 { OwnPage(m, r1, v1); }
      if p != v2 { OwnPage(m, r2, v2); }
    }
  }

  lemma FrameOf(t: Tables, pt: nat, va: nat)
    ensures Pa(t, pt, va) != 0 ==>
            Trans(t, pt, va / PGSIZE) == Some(Pa(t, pt, va) / PGSIZE) && Pa(t, pt, va) % PGSIZE == va % PGSIZE
  {
    hide Trans;
  }
}
