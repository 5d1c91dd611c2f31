/** Address spaces over a free list of frames: src/pmm.c, the map, unmap, translate, copy
    and teardown of src/vm.c, and SYS_SBRK of src/task.c. Addresses are by page except
    where bytes are copied. */
module Vm {
  import opened Common
  import opened VmTable
  import opened VmFree

  const PGSIZE: nat := 4096
  const UHEAP_BASE: nat := 0x2800_0000
  const UHEAP_TOP: nat := 0x2f00_0000
  const PTE_RWU: nat := 0x16
  const TWO64: nat := 0x1_0000_0000_0000_0000

  // ---- the free list, threaded through the free pages

  ghost predicate Threaded(link: map<nat, nat>, head: nat, list: seq<nat>) {
    && head == (if list == [] then 0 else list[0])
    && forall i {:trigger NextIs(link, list, i)} :: 0 <= i < |list| ==> NextIs(link, list, i)
  }

  ghost predicate NextIs(link: map<nat, nat>, list: seq<nat>, i: nat)
    requires i < |list|
  {
    list[i] != 0 && list[i] in link && link[list[i]] == (if i + 1 < |list| then list[i + 1] else 0)
  }

  /** The list holds each free frame once, and nothing else. */
  ghost predicate ListOk(role: map<nat, Role>, list: seq<nat>) {
    && (forall i, j :: 0 <= i < j < |list| ==> list[i] != list[j])
    && (forall f :: f in list <==> f in role && role[f] == Free)
  }

  lemma PopOk(link: map<nat, nat>, list: seq<nat>, role: map<nat, Role>)
    requires list != [] && Threaded(link, list[0], list) && ListOk(role, list)
    ensures list[0] in link && Threaded(link, link[list[0]], list[1..]) && ListOk(role[list[0] := Held], list[1..])
            && list[0] in role && role[list[0]] == Free
  {
    assert NextIs(link, list, 0) && list[0] in list;
    var rest := list[1..];
    forall i | 0 <= i < |rest| ensures NextIs(link, rest, i) { assert NextIs(link, list, i + 1); }
    forall f ensures f in rest <==> f in list && f != list[0] {
      if f in list && f != list[0] { var i :| 0 <= i < |list| && list[i] == f; assert rest[i - 1] == f; }
      if f in rest { var i :| 0 <= i < |rest| && rest[i] == f; assert list[i + 1] == f; }
    }
  }

  lemma PushOk(link: map<nat, nat>, head: nat, list: seq<nat>, role: map<nat, Role>, f: nat)
    requires Threaded(link, head, list) && ListOk(role, list) && f in role && role[f] != Free && f != 0
    ensures Threaded(link[f := head], f, [f] + list) && ListOk(role[f := Free], [f] + list)
  {
    var more, link' := [f] + list, link[f := head];
    assert f !in list;
    forall i | 0 <= i < |more| ensures NextIs(link', more, i) {
      if i > 0 { assert NextIs(link, list, i - 1) && list[i - 1] in list; }
    }
  }

  /** A change of roles the free list does not care about. */
  lemma ListSame(role: map<nat, Role>, role': map<nat, Role>, list: seq<nat>)
    requires ListOk(role, list) && role'.Keys == role.Keys
             && forall f :: f in role ==> (role'[f] == Free <==> role[f] == Free)
    ensures ListOk(role', list)
  {
  }

  /** No translation of any address space changed. */
  ghost predicate SameTrans(m: Mem, m': Mem) {
    forall r: nat, v: nat {:trigger Trans(m'.tabs, r, v)} ::
        (r, 2, 0) in m.nodes && v < VPNS ==> Trans(m'.tabs, r, v) == Trans(m.tabs, r, v)
  }

  /** Tables may have been added; nothing else became of any frame. */
  ghost predicate Extends(m: Mem, m': Mem) {
    && m'.role.Keys == m.role.Keys && (forall k :: k in m.nodes ==> k in m'.nodes && m'.nodes[k] == m.nodes[k])
    && (forall f {:trigger m'.role[f]} ::
        f in m.role ==> m'.role[f] == m.role[f] || (m.role[f] == Free && m'.role[f].Node?))
  }

  lemma ExtendsTwice(a: Mem, b: Mem, c: Mem)
    requires Extends(a, b) && Extends(b, c)
    ensures Extends(a, c)
  {
    forall f | f in a.role ensures c.role[f] == a.role[f] || (a.role[f] == Free && c.role[f].Node?) {
      assert b.role[f] == b.role[f];
    }
    forall k | k in a.nodes ensures k in c.nodes && c.nodes[k] == a.nodes[k] { assert k in b.nodes; }
  }

  lemma SameTwice(a: Mem, b: Mem, c: Mem)
    requires SameTrans(a, b) && SameTrans(b, c) && forall k :: k in a.nodes ==> k in b.nodes && b.nodes[k] == a.nodes[k]
    ensures SameTrans(a, c)
  {
    forall r: nat, v: nat | (r, 2, 0) in a.nodes && v < VPNS ensures Trans(c.tabs, r, v) == Trans(a.tabs, r, v) {
      assert (r, 2, 0) in b.nodes;
      assert Trans(b.tabs, r, v) == Trans(a.tabs, r, v);
    }
  }

  /** The arena lies above every user address. */
  const RAM_PAGE: nat := 0x8_0000

  ghost predicate AboveUser(role: map<nat, Role>) { forall f :: f in role ==> RAM_PAGE <= f < PPNS }

  /** Apart from pages lo to hi of one address space, no translation changed. */
  ghost predicate SameOut(m: Mem, m': Mem, root: nat, lo: nat, hi: nat) {
    forall r: nat, v: nat {:trigger Trans(m'.tabs, r, v)} ::
        (r, 2, 0) in m.nodes && v < VPNS && !(r == root && lo <= v < hi) ==>
        Trans(m'.tabs, r, v) == Trans(m.tabs, r, v)
  }

  /** No table was lost, and no address space added. */
  ghost predicate Keeps(m: Mem, m': Mem) {
    m'.role.Keys == m.role.Keys && OldRoots(m, m')
        && forall k :: k in m.nodes ==> k in m'.nodes && m'.nodes[k] == m.nodes[k]
  }

  ghost predicate OldRoots(m: Mem, m': Mem) {
    forall r: nat {:trigger (r, 2, 0) in m'.nodes} :: (r, 2, 0) in m'.nodes ==> (r, 2, 0) in m.nodes
  }

  /** Tables may have been added, and frame p has become how; nothing else changed. */
  ghost predicate Moves(m: Mem, m': Mem, p: nat, how: Role) {
    && Keeps(m, m') && (p in m.role ==> m'.role[p] == how)
    && (forall f {:trigger m'.role[f]} ::
        f in m.role && f != p ==> m'.role[f] == m.role[f] || (m.role[f] == Free && m'.role[f].Node?))
  }

  /** Every frame that left the free list became a table, and every new table was one. */
  ghost predicate Paid(n: nat, nodes: map<Key, nat>, n': nat, nodes': map<Key, nat>) {
    n + |nodes| == n' + |nodes'|
  }

  /** The tables added lie on the way to pages lo to hi. */
  ghost predicate OnWay(nodes: map<Key, nat>, nodes': map<Key, nat>, root: nat, lo: nat, hi: nat) {
    forall k {:trigger k in nodes'} :: k in nodes' && k !in nodes ==>
        k.0 == root && k.1 <= 1 && (if k.1 == 1 then lo / 512 / 512 <= k.2 <= hi / 512 / 512
        else lo / 512 <= k.2 <= hi / 512)
  }

  /** The tables on the way to v are there. */
  ghost predicate WayTo(nodes: map<Key, nat>, root: nat, v: nat) {
    (root, 1, v / 512 / 512) in nodes && (root, 0, v / 512) in nodes
  }

  lemma HeadIs(link: map<nat, nat>, head: nat, list: seq<nat>)
    requires Threaded(link, head, list)
    ensures head == 0 <==> list == []
    ensures list != [] ==> head == list[0] && list == [list[0]] + list[1..]
  {
    if list != [] { assert NextIs(link, list, 0); }
  }

  lemma RoleOk(m: Mem, f: nat, how: Role)
    requires Ok(m) && f in m.role && (m.role[f] == Free || m.role[f] == Held) && (how == Free || how == Held)
    ensures Ok(m.(role := m.role[f := how]))
  {
    var m' := m.(role := m.role[f := how]);
    forall k | k in m'.nodes ensures KeyOk(m', k) {
      assert KeyOk(m, k);
      forall i | 0 <= i < 512 ensures EntryOk(m', k, i) { assert EntryOk(m, k, i); }
    }
    forall g | g in m'.role ensures FrameOk(m', g) { assert FrameOk(m, g); }
  }

  lemma HeldOk(m: Mem, f: nat)
    requires Ok(m) && f in m.role && m.role[f] == Free
    ensures Ok(m.(role := m.role[f := Held]))
  {
    RoleOk(m, f, Held);
  }

  lemma FreedOk(m: Mem, f: nat)
    requires Ok(m) && f in m.role && m.role[f] == Held
    ensures Ok(m.(role := m.role[f := Free])) && f != 0
  {
    RoleOk(m, f, Free);
  }

  lemma SameSelf(m: Mem)
    ensures SameTrans(m, m)
  {
  }

  lemma HeldKey(m: Mem, f: nat, k: Key)
    requires k in m.nodes && KeyOk(m, k) && f in m.role && m.role[f] == Free
    ensures KeyOk(m.(role := m.role[f := Held]), k)
  {
    var m' := m.(role := m.role[f := Held]);
    forall i | 0 <= i < 512 ensures EntryOk(m', k, i) { assert EntryOk(m, k, i); }
  }

  lemma HeldTrans(m: Mem, m': Mem)
    requires m'.tabs == m.tabs && m'.nodes == m.nodes
    ensures SameTrans(m, m')
  {
  }

  lemma GrownSame(m: Mem, k: Key, i: nat, f: nat)
    requires Ok(m) && k in m.nodes && k.1 > 0 && i < 512 && KeyOk(m, k) && m.tabs[m.nodes[k]][i] == Empty
             && f in m.role && m.role[f] == Held && f != m.nodes[k]
    ensures SameTrans(m, Grown(m, k, i, f))
  {
    hide Trans, KeyOk, Ok;
    KeyTab(m, k);
    forall r: nat, v: nat | (r, 2, 0) in m.nodes && v < VPNS
        ensures Trans(Grown(m, k, i, f).tabs, r, v) == Trans(m.tabs, r, v) {
      GrownTrans(m, k, i, f, r, v);
    }
  }

  lemma SameAfter(a: Mem, b: Mem, c: Mem)
    requires SameTrans(a, b) && SameTrans(b, c) && a.nodes == b.nodes
    ensures SameTrans(a, c)
  {
    SameTwice(a, b, c);
  }

  lemma GrownExtends(m: Mem, k: Key, i: nat, f: nat)
    requires k in m.nodes && k.1 > 0 && i < 512 && KeyOk(m, k) && m.tabs[m.nodes[k]][i] == Empty && f in m.role
             && m.role[f] == Free && f != m.nodes[k]
    ensures Extends(m, Grown(m.(role := m.role[f := Held]), k, i, f))
  {
    assert EntryOk(m, k, i);
  }

  lemma ExtendsSelf(m: Mem)
    ensures Extends(m, m)
  {
  }

  lemma ExtendsTwice2(a: Mem, b: Mem, c: Mem)
    requires Extends(a, b) && Extends(b, c) && SameTrans(a, b) && SameTrans(b, c)
    ensures Extends(a, c) && SameTrans(a, c) && forall k :: k in a.nodes ==> k in c.nodes
  {
    ExtendsTwice(a, b, c);
    SameTwice(a, b, c);
  }

  lemma RootIs(m: Mem, root: nat)
    requires Ok(m) && (root, 2, 0) in m.nodes
    ensures m.nodes[(root, 2, 0)] == root
    ensures root in m.role && m.role[root] == Node((root, 2, 0))
  {
    assert KeyOk(m, (root, 2, 0));
  }

  lemma NodeFacts(m: Mem, k: Key, i: nat)
    requires Ok(m) && k in m.nodes && i < 512
    ensures KeyOk(m, k) && m.nodes[k] in m.tabs && |m.tabs[m.nodes[k]]| == 512 && EntryOk(m, k, i)
    ensures m.tabs[m.nodes[k]][i].Link? ==>
            k.1 > 0 && Down(k, i) in m.nodes && m.nodes[Down(k, i)] == m.tabs[m.nodes[k]][i].ppn
  {
    assert KeyOk(m, k);
    assert EntryOk(m, k, i);
  }

  lemma NodeLive(m: Mem, k: Key)
    requires Ok(m) && k in m.nodes
    ensures m.nodes[k] != 0
  {
    assert KeyOk(m, k);
  }

  lemma SameAt(m: Mem, m': Mem, r: nat, v: nat)
    requires SameTrans(m, m') && (r, 2, 0) in m.nodes && v < VPNS
    ensures Trans(m'.tabs, r, v) == Trans(m.tabs, r, v)
  {
  }

  /** A leaf above the lowest level already covers v. */
  lemma BigPage(m: Mem, k: Key, v: nat)
    requires Ok(m) && (k.0, 2, 0) in m.nodes && v < VPNS && k in m.nodes && 1 <= k.1 <= 2
             && k.2 == (if k.1 == 2 then 0 else v / 512 / 512)
    requires KeyOk(m, k) && m.tabs[m.nodes[k]][Px(k.1, v)].Leaf?
    ensures Trans(m.tabs, k.0, v).Some? && (k.0, 0, v / 512) !in m.nodes
  {
    hide Trans;
    PathFacts(v);
    TransIs(m, k.0, v);
    assert EntryOk(m, k, Px(k.1, v));
    assert (k.0, 0, v / 512) in m.nodes ==> KeyOk(m, (k.0, 0, v / 512));
  }

  lemma NoTable(m: Mem, k: Key, v: nat)
    requires Ok(m) && v < VPNS && k in m.nodes && 1 <= k.1 <= 2 && k.2 == (if k.1 == 2 then 0 else v / 512 / 512)
    requires KeyOk(m, k) && m.tabs[m.nodes[k]][Px(k.1, v)] == Empty
    ensures (k.0, 0, v / 512) !in m.nodes
  {
    PathFacts(v);
    assert EntryOk(m, k, Px(k.1, v));
    assert (k.0, 0, v / 512) in m.nodes ==> KeyOk(m, (k.0, 0, v / 512));
  }

  // ---- one page

  lemma SameIsOut(m: Mem, m': Mem, root: nat, v: nat)
    requires SameTrans(m, m')
    ensures SameOut(m, m', root, v, v + 1)
  {
  }

  ghost function Was(m: Mem, p: nat): Role { if p in m.role then m.role[p] else Held }

  /** Page v may lead to p: p is a page of its own address outside the arena, or a frame in
      hand, or frame 0, and v is free; or v leads to p already. */
  ghost predicate CanLead(m: Mem, root: nat, v: nat, p: nat) {
    && (p == v ==> p !in m.role)
    && (Trans(m.tabs, root, v) == Some(p)
        || (Trans(m.tabs, root, v) == None && (p != v && p != 0 ==> p in m.role && m.role[p] == Held)))
  }

  ghost predicate LeadAt(m: Mem, root: nat, v: nat, p: nat, j: nat) { CanLead(m, root, v + j, p + j) }

  lemma LeadFrame(m: Mem, root: nat, v: nat, p: nat)
    requires Ok(m) && (root, 2, 0) in m.nodes && v < VPNS && CanLead(m, root, v, p)
    ensures p != v && p != 0 ==>
            p in m.role && (if m.role[p] == Held then Trans(m.tabs, root, v) == None
            else m.role[p] == Page(root, v) && Trans(m.tabs, root, v) == Some(p))
    ensures p == v || p == 0 ==> p !in m.role
  {
    if p != v && p != 0 && Trans(m.tabs, root, v) == Some(p) { OwnPage(m, root, v); }
  }

  lemma WalkMoves(m: Mem, m': Mem, p: nat)
    requires Extends(m, m') && OldRoots(m, m') && (p in m.role ==> m.role[p] != Free)
    ensures Moves(m, m', p, Was(m, p)) && m'.role.Keys == m.role.Keys && (p in m.role ==> m'.role[p] == m.role[p])
            && Keeps(m, m')
  {
    if p in m.role { assert m'.role[p] == m.role[p]; }
  }

  lemma MapHere(m: Mem, root: nat, v: nat, p: nat, perm: nat)
    requires Ok(m) && (root, 2, 0) in m.nodes && (root, 0, v / 512) in m.nodes && v < VPNS
    requires if p == v || p == 0 then Trans(m.tabs, root, v) == None || Trans(m.tabs, root, v) == Some(p)
             else p in m.role && (if m.role[p] == Held then Trans(m.tabs, root, v) == None
                 else m.role[p] == Page(root, v) && Trans(m.tabs, root, v) == Some(p))
    ensures var f := m.nodes[(root, 0, v / 512)];
            && f in m.tabs && |m.tabs[f]| == 512
            && var m' := Mem(PutPte(m.tabs, f, v % 512, Leaf(p, perm)), if p == v || p == 0 then m.role
                else m.role[p := Page(root, v)], m.nodes);
               Ok(m') && OneLeaf(m, (root, 0, v / 512), v % 512, m')
  {
    hide Trans;
    var k: Key := (root, 0, v / 512);
    TransIs(m, root, v);
    assert KeyOk(m, k);
    assert EntryOk(m, k, v % 512);
    ChildBack(v);
    if p != v && p != 0 && m.role[p] == Held {
      MapOk(m, k, v % 512, p, perm);
    } else {
      RemapOk(m, k, v % 512, p, perm);
      if p != v && p != 0 { assert m.role[p := Page(root, v)] == m.role; }
    }
  }

  lemma UnmapHere(m: Mem, root: nat, v: nat)
    requires Ok(m) && (root, 2, 0) in m.nodes && (root, 0, v / 512) in m.nodes && v < VPNS
    ensures var f := m.nodes[(root, 0, v / 512)];
            && f in m.tabs && |m.tabs[f]| == 512 && Trans(m.tabs, root, v) == Lead(m.tabs[f][v % 512], 0, v)
            && (m.tabs[f][v % 512].Leaf? ==>
                 var p := m.tabs[f][v % 512].ppn;
                 var m' := Mem(PutPte(m.tabs, f, v % 512, Empty), if p == v || p == 0 then m.role
                     else m.role[p := Held], m.nodes);
                 Ok(m') && OneLeaf(m, (root, 0, v / 512), v % 512, m')
                     && (p != v && p != 0 ==> p in m.role && m.role[p] == Page(root, v)))
  {
    hide Trans;
    var k: Key := (root, 0, v / 512);
    TransIs(m, root, v);
    assert KeyOk(m, k);
    ChildBack(v);
    var e := m.tabs[m.nodes[k]][v % 512];
    if e.Leaf? { UnmapOk(m, k, v % 512, e.ppn); }
  }

  lemma PutOut(m0: Mem, m: Mem, m': Mem, root: nat, v: nat, to: Option<nat>)
    requires Ok(m) && Ok(m') && (root, 0, v / 512) in m.nodes && (root, 2, 0) in m.nodes && v < VPNS && Keeps(m0, m)
    requires m.nodes[(root, 0, v / 512)] in m.tabs && |m.tabs[m.nodes[(root, 0, v / 512)]]| == 512
             && OneLeaf(m, (root, 0, v / 512), v % 512, m')
    requires SameOut(m0, m, root, v, v + 1) && Lead(m'.tabs[m.nodes[(root, 0, v / 512)]][v % 512], 0, v) == to
    ensures SameOut(m0, m', root, v, v + 1) && Trans(m'.tabs, root, v) == to
  {
    hide Trans, Ok;
    var k: Key := (root, 0, v / 512);
    ChildBack(v);
    KeyThere(m, k);
    PutTrans(m, k, v % 512, m', root, v);
    forall r: nat, x: nat | (r, 2, 0) in m0.nodes && x < VPNS && !(r == root && v <= x < v + 1)
        ensures Trans(m'.tabs, r, x) == Trans(m0.tabs, r, x) {
      PutTrans(m, k, v % 512, m', r, x);
      assert Trans(m.tabs, r, x) == Trans(m0.tabs, r, x);
    }
  }

  lemma KeyThere(m: Mem, k: Key)
    requires Ok(m) && k in m.nodes
    ensures KeyOk(m, k)
  {
  }

  lemma PutMoves(m0: Mem, m: Mem, m': Mem, p: nat, how: Role)
    requires Moves(m0, m, p, Was(m0, p)) && m'.nodes == m.nodes
             && (if p in m.role then m'.role == m.role[p := how] else m'.role == m.role)
    ensures Moves(m0, m', p, how)
  {
    forall f | f in m0.role && f != p ensures m'.role[f] == m0.role[f] || (m0.role[f] == Free && m'.role[f].Node?) {
      assert m.role[f] == m.role[f];
    }
  }

  // ---- a range of pages

  ghost predicate Leads(m: Mem, root: nat, v: nat, p: nat, c: nat) {
    forall x: nat {:trigger Trans(m.tabs, root, x)} :: v <= x < v + c ==> Trans(m.tabs, root, x) == Some(p + (x - v))
  }

  /** The frames behind the first c pages are theirs; tables may have been added, and
      nothing else became of any frame. */
  ghost predicate Taken(m: Mem, m': Mem, root: nat, v: nat, p: nat, c: nat) {
    && Keeps(m, m')
    && (forall g {:trigger m'.role[g]} :: g in m.role ==>
         if p != v && p <= g < p + c then m'.role[g] == Page(root, v + (g - p))
             else m'.role[g] == m.role[g] || (m.role[g] == Free && m'.role[g].Node?))
  }

  lemma NoneYet(m: Mem, root: nat, v: nat, p: nat)
    ensures SameOut(m, m, root, v, v) && Leads(m, root, v, p, 0) && Taken(m, m, root, v, p, 0)
  {
  }

  lemma StillLead(m: Mem, m1: Mem, root: nat, v: nat, p: nat, c: nat)
    requires (root, 2, 0) in m.nodes && v + c < VPNS && CanLead(m, root, v + c, p + c)
             && SameOut(m, m1, root, v, v + c) && Taken(m, m1, root, v, p, c)
    ensures CanLead(m1, root, v + c, p + c) && Trans(m1.tabs, root, v + c) == Trans(m.tabs, root, v + c)
    ensures p == v ==> p + c !in m1.role
  {
    hide Trans;
    assert Trans(m1.tabs, root, v + c) == Trans(m.tabs, root, v + c);
    if p != v && p + c in m.role { assert m1.role[p + c] == m1.role[p + c]; }
  }

  lemma MissedPage(m0: Mem, m1: Mem, m2: Mem, root: nat, v: nat, p: nat, c: nat)
    requires SameOut(m0, m1, root, v, v + c) && Leads(m1, root, v, p, c) && Taken(m0, m1, root, v, p, c)
             && (root, 2, 0) in m0.nodes && v + c < VPNS
    requires SameOut(m1, m2, root, v + c, v + c + 1) && Moves(m1, m2, p + c, Was(m1, p + c))
             && Trans(m2.tabs, root, v + c) == Trans(m1.tabs, root, v + c)
    ensures SameOut(m0, m2, root, v, v + c) && Leads(m2, root, v, p, c) && Taken(m0, m2, root, v, p, c)
            && (root, 2, 0) in m2.nodes
  {
    hide Trans;
    RangeTrans(m0, m1, m2, root, v, p, c);
    forall r: nat, x: nat | (r, 2, 0) in m0.nodes && x < VPNS && !(r == root && v <= x < v + c)
        ensures Trans(m2.tabs, r, x) == Trans(m0.tabs, r, x) {
      assert (r, 2, 0) in m1.nodes;
      assert Trans(m1.tabs, r, x) == Trans(m0.tabs, r, x);
    }
    forall g | g in m0.role
      ensures if p != v && p <= g < p + c then m2.role[g] == Page(root, v + (g - p))
              else m2.role[g] == m0.role[g] || (m0.role[g] == Free && m2.role[g].Node?)
    {
      assert m1.role[g] == m1.role[g] && m2.role[g] == m2.role[g];
    }
  }

  lemma RangeTrans(m0: Mem, m1: Mem, m2: Mem, root: nat, v: nat, p: nat, c: nat)
    requires Leads(m1, root, v, p, c) && Taken(m0, m1, root, v, p, c) && (root, 2, 0) in m0.nodes && v + c < VPNS
    requires SameOut(m1, m2, root, v + c, v + c + 1) && Keeps(m1, m2)
    ensures Leads(m2, root, v, p, c) && Keeps(m0, m2) && (root, 2, 0) in m2.nodes
  {
    hide Trans;
    assert (root, 2, 0) in m1.nodes;
    forall x: nat | v <= x < v + c ensures Trans(m2.tabs, root, x) == Some(p + (x - v)) {
      assert Trans(m2.tabs, root, x) == Trans(m1.tabs, root, x);
    }
    forall k | k in m0.nodes ensures k in m2.nodes && m2.nodes[k] == m0.nodes[k] { assert k in m1.nodes; }
  }

  lemma OnePage(m0: Mem, m1: Mem, m2: Mem, root: nat, v: nat, p: nat, c: nat)
    requires SameOut(m0, m1, root, v, v + c) && Leads(m1, root, v, p, c) && Taken(m0, m1, root, v, p, c)
             && (root, 2, 0) in m0.nodes && v + c < VPNS
    requires SameOut(m1, m2, root, v + c, v + c + 1)
             && Moves(m1, m2, p + c, if p != v then Page(root, v + c) else Was(m1, p + c))
             && Trans(m2.tabs, root, v + c) == Some(p + c)
    requires p == v ==> p + c !in m1.role
    ensures SameOut(m0, m2, root, v, v + c + 1) && Leads(m2, root, v, p, c + 1) && Taken(m0, m2, root, v, p, c + 1)
            && (root, 2, 0) in m2.nodes
  {
    hide Trans;
    RangeTrans(m0, m1, m2, root, v, p, c);
    forall r: nat, x: nat | (r, 2, 0) in m0.nodes && x < VPNS && !(r == root && v <= x < v + c + 1)
        ensures Trans(m2.tabs, r, x) == Trans(m0.tabs, r, x) {
      assert (r, 2, 0) in m1.nodes;
      assert Trans(m1.tabs, r, x) == Trans(m0.tabs, r, x);
    }
    forall g | g in m0.role
      ensures if p != v && p <= g < p + c + 1 then m2.role[g] == Page(root, v + (g - p))
              else m2.role[g] == m0.role[g] || (m0.role[g] == Free && m2.role[g].Node?)
    {
      assert m1.role[g] == m1.role[g] && m2.role[g] == m2.role[g];
    }
  }

  ghost predicate WaysTo(nodes: map<Key, nat>, root: nat, v: nat, c: nat) {
    forall x: nat {:trigger WayTo(nodes, root, x)} :: v <= x < v + c ==> WayTo(nodes, root, x)
  }

  lemma NoWay(nodes: map<Key, nat>, root: nat, v: nat, hi: nat)
    ensures OnWay(nodes, nodes, root, v, hi) && WaysTo(nodes, root, v, 0)
  {
  }

  lemma Farther(m0: Mem, m1: Mem, m2: Mem, root: nat, v: nat, hi: nat, c: nat, ok: bool)
    requires OnWay(m0.nodes, m1.nodes, root, v, hi) && OnWay(m1.nodes, m2.nodes, root, v + c, v + c)
             && WaysTo(m1.nodes, root, v, c) && (ok ==> WayTo(m2.nodes, root, v + c)) && v + c <= hi && Keeps(m1, m2)
    ensures OnWay(m0.nodes, m2.nodes, root, v, hi) && WaysTo(m2.nodes, root, v, if ok then c + 1 else c)
  {
    forall x: nat | v <= x < v + c ensures WayTo(m2.nodes, root, x) { assert WayTo(m1.nodes, root, x); }
    Between(v, v + c, hi);
  }

  lemma Between(a: nat, b: nat, c: nat)
    requires a <= b <= c
    ensures a / 512 <= b / 512 <= c / 512 && a / 512 / 512 <= b / 512 / 512 <= c / 512 / 512
  {
  }

  lemma OutAfter(m0: Mem, m1: Mem, m2: Mem, root: nat, v: nat)
    requires SameOut(m0, m1, root, v, v + 1) && m2.tabs == m1.tabs
    ensures SameOut(m0, m2, root, v, v + 1)
  {
  }

  // ---- the heap

  function Pages(b: nat): nat { (b + PGSIZE - 1) / PGSIZE }
  function Min(a: nat, b: nat): nat { if a < b then a else b }
  function Max(a: nat, b: nat): nat { if a < b then b else a }

  /** v is mapped, to a private page of its own. */
  ghost predicate Own(m: Mem, root: nat, v: nat) {
    Trans(m.tabs, root, v).Some? && Trans(m.tabs, root, v).value !in {0, v}
  }

  ghost predicate OwnAll(m: Mem, root: nat, lo: nat, hi: nat) {
    forall v: nat {:trigger Own(m, root, v)} :: lo <= v < hi ==> Own(m, root, v)
  }

  ghost predicate NoneAll(m: Mem, root: nat, lo: nat, hi: nat) {
    forall v: nat {:trigger Trans(m.tabs, root, v)} :: lo <= v < hi ==> Trans(m.tabs, root, v) == None
  }

  /** No page from lo to hi is private any more. */
  ghost predicate Stripped(m: Mem, root: nat, lo: nat, hi: nat) {
    forall v: nat {:trigger Own(m, root, v)} :: lo <= v < hi ==> !Own(m, root, v)
  }

  /** The break SYS_SBRK sets, as an unsigned 64-bit number. */
  function Break(brk: nat, d: int): nat
    requires brk + d + TWO64 >= 0
  {
    if brk + d < 0 then brk + d + TWO64
    else if d < 0 && brk + d < UHEAP_BASE + PGSIZE then UHEAP_BASE + PGSIZE
    else brk + d
  }

  /** A task that was born without a heap page has break 0, which SYS_SBRK takes for this. */
  function Old(brk: nat): nat { if brk == 0 then UHEAP_BASE else brk }

  /** The heap is mapped up to the break and no further. */
  ghost predicate HeapOk(m: Mem, root: nat, brk: nat) {
    && UHEAP_BASE <= brk <= UHEAP_TOP
    && OwnAll(m, root, UHEAP_BASE / PGSIZE, Pages(brk)) && NoneAll(m, root, Pages(brk), UHEAP_TOP / PGSIZE)
  }

  /** A private page belongs to the one virtual page it is behind. */
  lemma OwnPage(m: Mem, root: nat, v: nat)
    requires Ok(m) && (root, 2, 0) in m.nodes && v < VPNS && Own(m, root, v)
    ensures var p := Trans(m.tabs, root, v).value;
            p in m.role && m.role[p] == Page(root, v) && (root, 0, v / 512) in m.nodes
  {
    hide Trans;
    TransIs(m, root, v);
    PathFacts(v);
    var k := Ends(m, root, v);
    assert KeyOk(m, k);
    assert EntryOk(m, k, Px(k.1, v));
    BaseIs(v);
  }

  lemma BaseIs(v: nat)
    requires v < VPNS
    ensures Child(v / 512 / 512, v / 512 % 512) * 512 + v % 512 == v
            && Child(0, v / 512 / 512 % 512) * 512 * 512 + v % 0x4_0000 == v
  {
  }

  lemma NotOwn(m: Mem, root: nat, v: nat)
    requires Ok(m) && (root, 2, 0) in m.nodes && v < VPNS && (root, 0, v / 512) !in m.nodes
    ensures !Own(m, root, v)
  {
    hide Trans, Ok;
    if Own(m, root, v) { OwnPage(m, root, v); }
  }

  lemma OwnIs(m: Mem, root: nat, v: nat, hi: nat)
    requires OwnAll(m, root, v, hi) && v < hi
    ensures Own(m, root, v)
  {
  }

  lemma NoneIs(m: Mem, root: nat, lo: nat, hi: nat, v: nat)
    requires NoneAll(m, root, lo, hi) && lo <= v < hi
    ensures Trans(m.tabs, root, v) == None
  {
  }

  lemma NoneSub(m: Mem, root: nat, lo: nat, a: nat, hi: nat)
    requires NoneAll(m, root, lo, hi) && a <= hi
    ensures NoneAll(m, root, lo, a)
  {
  }

  lemma SameIsOut2(m: Mem, m': Mem, root: nat, lo: nat, hi: nat)
    requires SameTrans(m, m')
    ensures SameOut(m, m', root, lo, hi)
  {
  }

  /** Pages that lead where they led are still their own, or still lead nowhere. */
  lemma StillOwn(m0: Mem, m: Mem, root: nat, lo: nat, hi: nat)
    requires forall v: nat {:trigger Trans(m.tabs, root, v)} ::
             lo <= v < hi ==> Trans(m.tabs, root, v) == Trans(m0.tabs, root, v)
    ensures OwnAll(m0, root, lo, hi) ==> OwnAll(m, root, lo, hi)
    ensures NoneAll(m0, root, lo, hi) ==> NoneAll(m, root, lo, hi)
  {
    hide Trans;
    if OwnAll(m0, root, lo, hi) {
      forall v: nat | lo <= v < hi ensures Own(m, root, v) { assert Own(m0, root, v); }
    }
  }

  lemma OwnSub(m: Mem, root: nat, lo: nat, hi: nat)
    requires OwnAll(m, root, lo, hi)
    ensures OwnAll(m, root, lo + 1, hi)
  {
  }

  /** Two stretches make one. */
  lemma OwnJoin(m: Mem, root: nat, lo: nat, mid: nat, hi: nat)
    requires lo <= mid <= hi
    ensures OwnAll(m, root, lo, mid) && OwnAll(m, root, mid, hi) ==> OwnAll(m, root, lo, hi)
    ensures OwnAll(m, root, lo, hi) ==> OwnAll(m, root, lo, mid) && OwnAll(m, root, mid, hi)
    ensures NoneAll(m, root, lo, mid) && NoneAll(m, root, mid, hi) ==> NoneAll(m, root, lo, hi)
    ensures NoneAll(m, root, lo, hi) ==> NoneAll(m, root, lo, mid) && NoneAll(m, root, mid, hi)
  {
  }

  lemma KeepsRoot(m: Mem, m': Mem, root: nat)
    requires Keeps(m, m') && (root, 2, 0) in m.nodes
    ensures (root, 2, 0) in m'.nodes
  {
  }

  lemma NoPages(m: Mem, root: nat, v: nat)
    ensures OwnAll(m, root, v, v) && NoneAll(m, root, v, v) && Stripped(m, root, v, v)
  {
  }

  lemma OutNone(m: Mem, root: nat, lo: nat)
    ensures SameOut(m, m, root, lo, lo) && Keeps(m, m)
  {
  }

  lemma AllocKeeps(m0: Mem, m1: Mem, m2: Mem, root: nat, lo: nat, a: nat, p: nat)
    requires SameOut(m0, m1, root, lo, a) && Keeps(m0, m1) && m2.tabs == m1.tabs && m2.nodes == m1.nodes
             && m2.role.Keys == m1.role.Keys
    requires OwnAll(m1, root, lo, a)
    ensures SameOut(m0, m2, root, lo, a) && Keeps(m0, m2) && OwnAll(m2, root, lo, a)
  {
    StillOwn(m1, m2, root, lo, a);
  }

  lemma OutAt(m0: Mem, m: Mem, root: nat, lo: nat, hi: nat, v: nat)
    requires SameOut(m0, m, root, lo, hi) && (root, 2, 0) in m0.nodes && v < VPNS && !(lo <= v < hi)
    ensures Trans(m.tabs, root, v) == Trans(m0.tabs, root, v)
  {
  }

  lemma MapKeeps(m0: Mem, m2: Mem, m3: Mem, root: nat, lo: nat, a: nat, p: nat, ok: bool)
    requires SameOut(m0, m2, root, lo, a) && Keeps(m0, m2) && Keeps(m2, m3) && SameOut(m2, m3, root, a, a + 1)
             && lo <= a < VPNS && (root, 2, 0) in m0.nodes
    requires Trans(m0.tabs, root, a) == None && Trans(m3.tabs, root, a) == (if ok then Some(p) else None)
             && p !in {0, a}
             && a <= VPNS
    requires OwnAll(m2, root, lo, a)
    ensures Keeps(m0, m3) && SameOut(m0, m3, root, lo, if ok then a + 1 else a)
    ensures OwnAll(m3, root, lo, (if ok then a + 1 else a))
  {
    hide Trans;
    KeepsTwice(m0, m2, m3);
    forall r: nat, v: nat | (r, 2, 0) in m0.nodes && v < VPNS && !(r == root && lo <= v < (if ok then a + 1 else a))
        ensures Trans(m3.tabs, r, v) == Trans(m0.tabs, r, v) {
      assert (r, 2, 0) in m2.nodes;
      if r != root || v != a { assert Trans(m3.tabs, r, v) == Trans(m2.tabs, r, v); }
      assert Trans(m2.tabs, r, v) == Trans(m0.tabs, r, v);
    }
    forall v | lo <= v < a ensures Own(m3, root, v) {
      assert (root, 2, 0) in m2.nodes;
      assert Trans(m3.tabs, root, v) == Trans(m2.tabs, root, v);
      assert Own(m2, root, v);
    }
  }

  lemma HighFrame(role: map<nat, Role>, p: nat, v: nat)
    requires AboveUser(role) && p in role && v < RAM_PAGE
    ensures p != v
  {
  }

  lemma MovesKeeps(m: Mem, m': Mem, p: nat, how: Role)
    requires Moves(m, m', p, how)
    ensures Keeps(m, m') && (p in m.role ==> p in m'.role && m'.role[p] == how)
  {
  }

  /** Every frame is free, a table, or the private page behind one virtual page. */
  ghost predicate AllHome(role: map<nat, Role>) { forall f {:trigger role[f]} :: f in role ==> role[f] != Held }

  lemma MapHome(m1: Mem, m2: Mem, m3: Mem, p: nat, how: Role)
    requires AllHome(m1.role) && p in m1.role && m2.role == m1.role[p := Held] && Moves(m2, m3, p, how)
    ensures AllHome(m3.role[p := Free]) && (how != Held ==> AllHome(m3.role))
  {
    forall f | f in m3.role && f != p ensures m3.role[f] != Held { assert m2.role[f] == m1.role[f]; }
  }

  lemma UnmapHome(role: map<nat, Role>, role': map<nat, Role>, p: nat)
    requires AllHome(role) && (role' == role || role' == role[p := Free])
    ensures AllHome(role')
  {
    forall f | f in role' ensures role'[f] != Held { assert f in role ==> role[f] != Held; }
  }

  lemma KeepsTwice(a: Mem, b: Mem, c: Mem)
    requires Keeps(a, b) && Keeps(b, c)
    ensures Keeps(a, c)
  {
    forall k | k in a.nodes ensures k in c.nodes && c.nodes[k] == a.nodes[k] { assert k in b.nodes; }
  }

  lemma ReleaseKeeps(m0: Mem, m3: Mem, m4: Mem, root: nat, lo: nat, a: nat, p: nat)
    requires SameOut(m0, m3, root, lo, a) && Keeps(m0, m3) && m4.tabs == m3.tabs && m4.nodes == m3.nodes
             && m4.role.Keys == m3.role.Keys
    requires OwnAll(m3, root, lo, a)
    ensures SameOut(m0, m4, root, lo, a) && Keeps(m0, m4) && OwnAll(m4, root, lo, a)
  {
    AllocKeeps(m0, m3, m4, root, lo, a, p);
  }

  lemma DropKeeps(m0: Mem, m1: Mem, m2: Mem, root: nat, lo: nat, b: nat)
    requires SameOut(m0, m1, root, lo, b) && Keeps(m0, m1) && Keeps(m1, m2) && SameOut(m1, m2, root, b, b + 1)
             && lo <= b < VPNS && (root, 2, 0) in m0.nodes
    requires Stripped(m1, root, lo, b) && !Own(m2, root, b)
    ensures Keeps(m0, m2) && SameOut(m0, m2, root, lo, b + 1) && Stripped(m2, root, lo, b + 1)
  {
    hide Trans;
    KeepsTwice(m0, m1, m2);
    assert (root, 2, 0) in m1.nodes;
    forall r: nat, v: nat | (r, 2, 0) in m0.nodes && v < VPNS && !(r == root && lo <= v < b + 1)
        ensures Trans(m2.tabs, r, v) == Trans(m0.tabs, r, v) {
      assert (r, 2, 0) in m1.nodes;
      assert Trans(m2.tabs, r, v) == Trans(m1.tabs, r, v) == Trans(m0.tabs, r, v);
    }
    forall v: nat | lo <= v < b + 1 ensures !Own(m2, root, v) {
      if v < b {
        assert Trans(m2.tabs, root, v) == Trans(m1.tabs, root, v);
        assert !Own(m1, root, v);
      }
    }
  }

  lemma UnmapKeeps(m1: Mem, m2: Mem, root: nat, lo: nat, b: nat, hi: nat)
    requires SameOut(m1, m2, root, b, b + 1) && lo <= b < hi <= VPNS && (root, 2, 0) in m1.nodes
    requires Trans(m2.tabs, root, b) == None
    requires NoneAll(m1, root, lo, b)
    requires OwnAll(m1, root, b, hi)
    ensures NoneAll(m2, root, lo, b + 1)
    ensures OwnAll(m2, root, b + 1, hi)
  {
    hide Trans;
    forall v | lo <= v < b ensures Trans(m2.tabs, root, v) == None {
      assert Trans(m2.tabs, root, v) == Trans(m1.tabs, root, v);
    }
    forall v: nat | b + 1 <= v < hi ensures Trans(m2.tabs, root, v) == Trans(m1.tabs, root, v) { }
    OwnSub(m1, root, b, hi);
    StillOwn(m1, m2, root, b + 1, hi);
  }

  lemma Below(brk: nat, d: int)
    requires brk <= UHEAP_TOP && -0x8000_0000_0000_0000 <= d < 0
    ensures (brk + d) % TWO64 == if brk + d < 0 then brk + d + TWO64 else brk + d
  {
  }

  /** Where the loop starts, after rounding up in 64 bits. */
  lemma HighBreak(brk: nat, d: int, want: nat)
    requires UHEAP_BASE <= brk <= UHEAP_TOP && -0x8000_0000_0000_0000 <= d < 0 && want == Break(brk, d)
    ensures var lo := (want + PGSIZE - 1) % TWO64 / PGSIZE;
            && (0 <= brk + d ==> lo == Pages(want) && UHEAP_BASE + PGSIZE <= want <= UHEAP_TOP)
            && (0 <= brk + d && UHEAP_BASE < brk ==> lo <= Pages(brk))
            && (0 <= brk + d && UHEAP_BASE == brk ==> lo == Pages(brk) + 1 && want == UHEAP_BASE + PGSIZE)
            && (0 < brk + d + PGSIZE < PGSIZE ==> lo == 0 && want > UHEAP_TOP)
            && (brk + d + PGSIZE <= 0 ==> Pages(brk) <= lo && want > UHEAP_TOP)
            && Pages(brk) <= RAM_PAGE && 0 < Pages(brk)
  {
  }

  lemma NoneBetween(m: Mem, root: nat, lo: nat, hi: nat)
    requires hi <= lo
    ensures NoneAll(m, root, lo, hi) && Stripped(m, root, lo, hi)
  {
  }

  /** What was mapped and then unmapped is as it was. */
  lemma GaveBack(m0: Mem, m1: Mem, m2: Mem, root: nat, lo: nat, a: nat)
    requires SameOut(m0, m1, root, lo, a) && SameOut(m1, m2, root, lo, a) && Keeps(m0, m1) && a <= VPNS
             && (root, 2, 0) in m0.nodes
    requires NoneAll(m0, root, lo, a)
    requires NoneAll(m2, root, lo, a)
    ensures SameTrans(m0, m2)
  {
    hide Trans;
    forall r: nat, v: nat | (r, 2, 0) in m0.nodes && v < VPNS ensures Trans(m2.tabs, r, v) == Trans(m0.tabs, r, v) {
      assert (r, 2, 0) in m1.nodes;
      if !(r == root && lo <= v < a) { assert Trans(m2.tabs, r, v) == Trans(m1.tabs, r, v) == Trans(m0.tabs, r, v); }
    }
  }

  lemma PagesUp(a: nat, b: nat)
    requires a <= b
    ensures Pages(a) <= Pages(b) && (b <= UHEAP_TOP ==> Pages(b) <= UHEAP_TOP / PGSIZE)
            && (UHEAP_BASE <= a ==> UHEAP_BASE / PGSIZE <= Pages(a))
  {
  }

  lemma HeapAbove(m: Mem, root: nat, brk: nat, want: nat)
    requires HeapOk(m, root, brk) && brk <= want <= UHEAP_TOP
    ensures NoneAll(m, root, Pages(brk), Pages(want))
  {
    PagesUp(brk, want);
  }

  lemma HeapBelow(m: Mem, root: nat, want: nat, brk: nat)
    requires HeapOk(m, root, brk) && UHEAP_BASE <= want && Pages(want) <= Pages(brk)
    ensures OwnAll(m, root, Pages(want), Pages(brk))
  {
    PagesUp(UHEAP_BASE, want);
  }

  /** The page behind the break. */
  lemma HeapEnd(m: Mem, root: nat, brk: nat)
    requires HeapOk(m, root, brk)
    ensures Pages(brk) < UHEAP_TOP / PGSIZE ==> Trans(m.tabs, root, Pages(brk)) == None
  {
    hide Trans;
  }

  /** A break one page up with nothing mapped below it. */
  lemma HeapHole(m: Mem, root: nat)
    requires HeapOk(m, root, UHEAP_BASE)
    ensures !HeapOk(m, root, UHEAP_BASE + PGSIZE)
  {
    hide Trans;
    var v := UHEAP_BASE / PGSIZE;
    assert Trans(m.tabs, root, v) == None;
    assert !Own(m, root, v);
  }

  lemma HeapRange(m: Mem, root: nat, brk: nat)
    requires HeapOk(m, root, brk)
    ensures UHEAP_BASE <= brk <= UHEAP_TOP
  {
  }

  lemma HeapHigh(m: Mem, root: nat, brk: nat)
    requires UHEAP_TOP < brk
    ensures !HeapOk(m, root, brk)
  {
  }

  lemma HeapSame(m0: Mem, m: Mem, root: nat, brk: nat)
    requires HeapOk(m0, root, brk) && SameTrans(m0, m) && (root, 2, 0) in m0.nodes
    ensures HeapOk(m, root, brk)
  {
    hide Trans, OwnAll, NoneAll;
    PagesUp(brk, UHEAP_TOP);
    StillOwn(m0, m, root, UHEAP_BASE / PGSIZE, Pages(brk));
    StillOwn(m0, m, root, Pages(brk), UHEAP_TOP / PGSIZE);
  }

  lemma HeapGrown(m0: Mem, m: Mem, root: nat, brk: nat, want: nat)
    requires HeapOk(m0, root, brk) && brk <= want <= UHEAP_TOP && SameOut(m0, m, root, Pages(brk), Pages(want))
             && (root, 2, 0) in m0.nodes
    requires OwnAll(m, root, Pages(brk), Pages(want))
    ensures HeapOk(m, root, want)
  {
    hide Trans, OwnAll, NoneAll;
    PagesUp(brk, want);
    StillOwn(m0, m, root, UHEAP_BASE / PGSIZE, Pages(brk));
    OwnJoin(m, root, UHEAP_BASE / PGSIZE, Pages(brk), Pages(want));
    OwnJoin(m0, root, Pages(brk), Pages(want), UHEAP_TOP / PGSIZE);
    StillOwn(m0, m, root, Pages(want), UHEAP_TOP / PGSIZE);
  }

  lemma HeapShrunk(m0: Mem, m: Mem, root: nat, want: nat, brk: nat)
    requires HeapOk(m0, root, brk) && UHEAP_BASE <= want <= UHEAP_TOP && Pages(want) <= Pages(brk)
             && SameOut(m0, m, root, Pages(want), Pages(brk)) && (root, 2, 0) in m0.nodes
    requires NoneAll(m, root, Pages(want), Pages(brk))
    ensures HeapOk(m, root, want)
  {
    hide Trans, OwnAll, NoneAll;
    PagesUp(UHEAP_BASE, want);
    PagesUp(brk, UHEAP_TOP);
    OwnJoin(m0, root, UHEAP_BASE / PGSIZE, Pages(want), Pages(brk));
    StillOwn(m0, m, root, UHEAP_BASE / PGSIZE, Pages(want));
    StillOwn(m0, m, root, Pages(brk), UHEAP_TOP / PGSIZE);
    OwnJoin(m, root, Pages(want), Pages(brk), UHEAP_TOP / PGSIZE);
  }

  /** Every frame from lo to hi, in use. */
  ghost function AllHeld(lo: nat, hi: nat): (m: map<nat, Role>)
    ensures forall f :: f in m <==> lo <= f < hi
    ensures forall f :: f in m ==> m[f] == Held
    decreases hi
  {
    if hi <= lo then map[] else AllHeld(lo, hi - 1)[hi - 1 := Held]
  }

  // ---- roots

  lemma RootOk(m: Mem, f: nat)
    requires Ok(m) && f in m.role && m.role[f] == Held
    ensures Ok(Mem(m.tabs[f := Zero()], m.role[f := Node((f, 2, 0))], m.nodes[(f, 2, 0) := f])) && (f, 2, 0) !in m.nodes
  {
    var m' := Mem(m.tabs[f := Zero()], m.role[f := Node((f, 2, 0))], m.nodes[(f, 2, 0) := f]);
    assert (f, 2, 0) in m.nodes ==> KeyOk(m, (f, 2, 0));
    forall k | k in m'.nodes ensures KeyOk(m', k) {
      if k != (f, 2, 0) {
        assert KeyOk(m, k);
        if k.1 < 2 { assert KeyOk(m, Up(k)); }
        forall i | 0 <= i < 512 ensures EntryOk(m', k, i) { assert EntryOk(m, k, i); }
      } else {
        forall i | 0 <= i < 512 ensures EntryOk(m', k, i) { NoChildren(m, k, i); }
      }
    }
    forall g | g in m'.role ensures FrameOk(m', g) {
      assert FrameOk(m, g);
      if m.role[g].Page? && g != f { assert KeyOk(m, (m.role[g].root, 0, m.role[g].v / 512)); }
    }
  }

  lemma NoChildren(m: Mem, k: Key, i: nat)
    requires Ok(m) && k !in m.nodes && k.1 == 2 && i < 512
    ensures Down(k, i) !in m.nodes
  {
    UpDown(k, i);
    assert Down(k, i) in m.nodes ==> KeyOk(m, Down(k, i));
  }

  lemma RootTrans(m0: Mem, m1: Mem, m: Mem, f: nat)
    requires m1.tabs == m0.tabs && m1.nodes == m0.nodes && Ok(m1) && f in m1.role && m1.role[f] == Held
    requires m == Mem(m1.tabs[f := Zero()], m1.role[f := Node((f, 2, 0))], m1.nodes[(f, 2, 0) := f])
    ensures SameTrans(m0, m) && NoneAll(m, f, 0, VPNS)
  {
    forall r: nat, v: nat | (r, 2, 0) in m0.nodes && v < VPNS ensures Trans(m.tabs, r, v) == Trans(m0.tabs, r, v) {
      RootApart(m1, f, r, v);
    }
  }

  lemma RootApart(m: Mem, f: nat, r: nat, v: nat)
    requires Ok(m) && f in m.role && m.role[f] == Held && (r, 2, 0) in m.nodes && v < VPNS
    ensures Trans(m.tabs[f := Zero()], r, v) == Trans(m.tabs, r, v)
  {
    var k2: Key := (r, 2, 0);
    PathFacts(v);
    assert KeyOk(m, k2) && EntryOk(m, k2, Px(2, v));
    var e2 := m.tabs[r][Px(2, v)];
    if e2.Link? {
      var k1 := Down(k2, Px(2, v));
      assert KeyOk(m, k1) && EntryOk(m, k1, Px(1, v));
      if m.tabs[e2.ppn][Px(1, v)].Link? { assert KeyOk(m, Down(k1, Px(1, v))); }
    }
  }

  // ---- teardown

  /** Entries 0 to i of table k have been swept: what hung under them is free. */
  ghost predicate Swept(r0: map<nat, Role>, r: map<nat, Role>, m: Mem, k: Key, i: nat) {
    && r.Keys == r0.Keys == m.role.Keys
    && forall g {:trigger r[g]} ::
        g in m.role ==> r[g] == if Inside(m.role[g], k) && EntryOf(m.role[g], k) < i then Free else r0[g]
  }

  lemma SweptNone(r: map<nat, Role>, m: Mem, k: Key)
    requires r.Keys == m.role.Keys
    ensures Swept(r, r, m, k, 0)
  {
  }

  lemma SweptFacts(r0: map<nat, Role>, r: map<nat, Role>, m: Mem, k: Key, i: nat)
    requires Ok(m) && k in m.nodes && Swept(r0, r, m, k, i)
    ensures r.Keys == m.role.Keys && m.nodes[k] in r0 && r[m.nodes[k]] == r0[m.nodes[k]]
  {
    assert KeyOk(m, k);
    var f := m.nodes[k];
    assert r[f] == r0[f];
  }

  lemma BaseOf(k: Key, i: nat)
    ensures Base(k, i) == if k.1 == 0 then k.2 * 512 + i else if k.1 == 1 then (k.2 * 512 + i) * 512
            else (k.2 * 512 + i) * 512 * 512
  {
  }

  /** Nothing hangs under entry i. */
  lemma SweptOn(r0: map<nat, Role>, r: map<nat, Role>, r': map<nat, Role>, m: Mem, k: Key, i: nat)
    requires Ok(m) && k in m.nodes && KeyOk(m, k) && i < 512 && Swept(r0, r, m, k, i) && r' == r
    requires m.tabs[m.nodes[k]][i] == Empty
             || (m.tabs[m.nodes[k]][i].Leaf? && m.tabs[m.nodes[k]][i].ppn in {0, Base(k, i)})
    ensures Swept(r0, r', m, k, i + 1)
  {
    hide Inside, EntryOf, Base, Ok, KeyOk;
    forall g | g in m.role ensures r'[g] == if Inside(m.role[g], k) && EntryOf(m.role[g], k) < i + 1 then Free
        else r0[g] {
      UnderEntry(m, k, i, g);
      NotZero(m, g);
      assert r[g] == r[g];
    }
  }

  lemma NotZero(m: Mem, g: nat)
    requires Ok(m) && g in m.role
    ensures g != 0
  {
    assert FrameOk(m, g);
  }

  lemma LeafHere(m: Mem, k: Key, i: nat)
    requires Ok(m) && k in m.nodes && KeyOk(m, k) && i < 512 && m.tabs[m.nodes[k]][i].Leaf?
             && m.tabs[m.nodes[k]][i].ppn !in {0, Base(k, i)}
    ensures k.1 == 0 && m.tabs[m.nodes[k]][i].ppn in m.role
            && m.role[m.tabs[m.nodes[k]][i].ppn] == Page(k.0, Base(k, i)) && m.tabs[m.nodes[k]][i].ppn > 0
  {
    assert EntryOk(m, k, i);
  }

  lemma SweptLeaf(r0: map<nat, Role>, r: map<nat, Role>, m: Mem, k: Key, i: nat, p: nat)
    requires Ok(m) && k in m.nodes && KeyOk(m, k) && i < 512 && Swept(r0, r, m, k, i) && m.tabs[m.nodes[k]][i].Leaf?
             && m.tabs[m.nodes[k]][i].ppn == p && p != Base(k, i) && k.1 == 0
    requires p in m.role && m.role[p].Page?
             && forall g {:trigger r0[g]} :: g in r0 && Inside(m.role[g], k) ==> r0[g] == m.role[g]
    ensures p in r && r[p] != Free
  {
    hide Inside, EntryOf, Base, Ok, KeyOk;
    UnderEntry(m, k, i, p);
    assert r[p] == r0[p];
  }

  lemma SweptPage(r0: map<nat, Role>, r: map<nat, Role>, r': map<nat, Role>, m: Mem, k: Key, i: nat, p: nat)
    requires Ok(m) && k in m.nodes && KeyOk(m, k) && i < 512 && Swept(r0, r, m, k, i) && m.tabs[m.nodes[k]][i].Leaf?
             && m.tabs[m.nodes[k]][i].ppn == p && p != Base(k, i) && k.1 == 0
    requires p in m.role && r' == r[p := Free]
    ensures Swept(r0, r', m, k, i + 1)
  {
    hide Inside, EntryOf, Base, Ok, KeyOk;
    forall g | g in m.role ensures r'[g] == if Inside(m.role[g], k) && EntryOf(m.role[g], k) < i + 1 then Free
        else r0[g] {
      UnderEntry(m, k, i, g);
      assert r[g] == r[g];
    }
  }

  lemma SweptLink(r0: map<nat, Role>, r: map<nat, Role>, m: Mem, k: Key, i: nat, p: nat)
    requires Ok(m) && k in m.nodes && KeyOk(m, k) && i < 512 && Swept(r0, r, m, k, i)
             && m.tabs[m.nodes[k]][i] == Link(p)
    requires forall g {:trigger r0[g]} :: g in r0 && Inside(m.role[g], k) ==> r0[g] == m.role[g]
    ensures k.1 > 0 && Down(k, i) in m.nodes && m.nodes[Down(k, i)] == p && p in r && r[p] != Free
    ensures forall g {:trigger r[g]} :: g in r && Inside(m.role[g], Down(k, i)) ==> r[g] == m.role[g]
  {
    hide Inside, EntryOf, Base, Ok, KeyOk;
    NodeFacts(m, k, i);
    KeyTab(m, k);
    LinkRole(m, k, i);
    UnderEntry(m, k, i, p);
    assert r[p] == r0[p];
    forall g | g in r && Inside(m.role[g], Down(k, i)) ensures r[g] == m.role[g] {
      InsideDown(m.role[g], k, i);
      assert r[g] == r0[g];
    }
  }

  lemma SweptChild(r0: map<nat, Role>, r: map<nat, Role>, r2: map<nat, Role>, m: Mem, k: Key, i: nat, p: nat)
    requires Ok(m) && k in m.nodes && KeyOk(m, k) && i < 512 && Swept(r0, r, m, k, i)
             && m.tabs[m.nodes[k]][i] == Link(p) && k.1 > 0 && Swept(r, r2, m, Down(k, i), 512)
    requires forall g {:trigger r0[g]} :: g in r0 && Inside(m.role[g], k) ==> r0[g] == m.role[g]
    ensures p in r2 && r2[p] != Free && p != 0
  {
    hide Inside, EntryOf, Base, KeyOk;
    NodeFacts(m, k, i);
    KeyTab(m, k);
    LinkRole(m, k, i);
    UnderEntry(m, k, i, p);
    InsideDown(m.role[p], k, i);
    assert r2[p] == r[p] && r[p] == r0[p];
  }

  lemma SweptTable(r0: map<nat, Role>, r: map<nat, Role>, r2: map<nat, Role>, r3: map<nat, Role>, m: Mem, k: Key,
      i: nat, p: nat)
    requires Ok(m) && k in m.nodes && KeyOk(m, k) && i < 512 && Swept(r0, r, m, k, i)
             && m.tabs[m.nodes[k]][i] == Link(p) && k.1 > 0 && Swept(r, r2, m, Down(k, i), 512)
    requires p in r2 && r3 == r2[p := Free]
    ensures Swept(r0, r3, m, k, i + 1)
  {
    hide Inside, EntryOf, Base, Ok, KeyOk;
    KeyTab(m, k);
    forall g | g in m.role ensures r3[g] == if Inside(m.role[g], k) && EntryOf(m.role[g], k) < i + 1 then Free
        else r0[g] {
      UnderEntry(m, k, i, g);
      InsideDown(m.role[g], k, i);
      EntryLow(m, g, Down(k, i));
      assert r2[g] == r2[g] && r[g] == r[g];
    }
  }

  lemma EntryLow(m: Mem, g: nat, k: Key)
    requires Ok(m) && g in m.role
    ensures Inside(m.role[g], k) ==> EntryOf(m.role[g], k) < 512
  {
    if Home(m.role[g]).Some? { HomeThere(m, g); }
  }

  lemma SweptRoot(m: Mem, r: map<nat, Role>, root: nat)
    requires Ok(m) && (root, 2, 0) in m.nodes && m.nodes[(root, 2, 0)] == root && Swept(m.role, r, m, (root, 2, 0), 512)
    ensures root in r && r[root] != Free && root != 0 && r.Keys == m.role.Keys
    ensures forall g {:trigger r[root := Free][g]} ::
            g in m.role ==> r[root := Free][g] == if Owned(m.role[g], root) then Free else m.role[g]
  {
    hide Inside, EntryOf;
    var k: Key := (root, 2, 0);
    assert KeyOk(m, k);
    RootInside(m, root, root);
    RootOutside(root);
    assert r[root] == m.role[root];
    forall g | g in m.role ensures r[root := Free][g] == if Owned(m.role[g], root) then Free else m.role[g] {
      RootInside(m, root, g);
      EntryLow(m, g, k);
      assert r[g] == r[g];
      assert FrameOk(m, g);
    }
  }

  lemma RootOutside(root: nat)
    ensures !Inside(Node((root, 2, 0)), (root, 2, 0))
  {
  }

  class Spaces {
    var tabs: Tables
    var freelist: nat
    var link: map<nat, nat>
    var nfree: nat

    ghost var role: map<nat, Role>
    ghost var nodes: map<Key, nat>
    ghost var list: seq<nat>

    ghost function M(): Mem
      reads this
    {
      Mem(tabs, role, nodes)
    }

    ghost predicate Valid()
      reads this
    {
      Ok(M()) && Threaded(link, freelist, list) && ListOk(role, list) && nfree == |list| && AboveUser(role)
    }

    /** pmm_alloc: a frame nobody has; 0 if there is none. */
    method Alloc() returns (f: nat)
      requires Valid()
      modifies this`freelist, this`link, this`nfree, this`role, this`list
      ensures Valid() && (f == 0 <==> old(list) == [])
      ensures f == 0 ==> role == old(role) && list == old(list)
      ensures f != 0 ==>
              old(list) == [f] + list && f in old(role) && old(role)[f] == Free && role == old(role)[f := Held]
    {
      hide Ok, Threaded, ListOk;
      HeadIs(link, freelist, list);
      f := freelist;
      if f == 0 { return; }
      ghost var m0 := M();
      PopOk(link, list, role);
      HeldOk(m0, f);
      freelist := link[f];
      nfree := nfree - 1;
      role := role[f := Held];
      list := list[1..];
    }

    ghost predicate ListInv()
      reads this
    {
      Threaded(link, freelist, list) && ListOk(role, list) && nfree == |list|
    }

    /** pmm_free: what lies below the arena is refused. */
    method Push(f: nat)
      requires ListInv() && (f < RAM_PAGE || (f in role && role[f] != Free))
      modifies this`freelist, this`link, this`nfree, this`role, this`list
      ensures ListInv()
      ensures if f < RAM_PAGE then list == old(list) && role == old(role)
              else list == [f] + old(list) && role == old(role)[f := Free]
    {
      hide Threaded, ListOk;
      if f < RAM_PAGE { return; }
      PushOk(link, freelist, list, role, f);
      link := link[f := freelist];
      freelist := f;
      nfree := nfree + 1;
      role := role[f := Free];
      list := [f] + list;
    }

    /** pmm_free of a frame in hand. */
    method Release(f: nat)
      requires Valid() && f in role && role[f] == Held
      modifies this`freelist, this`link, this`nfree, this`role, this`list
      ensures Valid() && list == [f] + old(list) && role == old(role)[f := Free]
    {
      hide Ok, Threaded, ListOk;
      FreedOk(M(), f);
      Push(f);
    }

    /** pmm_init: every page from lo to hi, none of it in use. */
    constructor (lo: nat, hi: nat)
      requires RAM_PAGE <= lo <= hi <= PPNS
      ensures Valid() && nodes == map[] && nfree == hi - lo && forall f :: f in role <==> lo <= f < hi
    {
      tabs, freelist, link, nfree := map[], 0, map[], 0;
      role, nodes, list := AllHeld(lo, hi), map[], [];
      new;
      var p := lo;
      while p < hi
        invariant lo <= p <= hi && ListInv() && nfree == p - lo && nodes == map[]
                  && (forall f :: f in role <==> lo <= f < hi)
        invariant forall f :: lo <= f < hi ==> role[f] == if f < p then Free else Held
      {
        Push(p);
        p := p + 1;
      }
    }

    /** vm_create_task_pt, up to the shared mappings: an empty root. */
    method NewRoot() returns (f: nat)
      requires Valid()
      modifies this
      ensures Valid() && Extends(old(M()), M()) && SameTrans(old(M()), M()) && (f == 0 <==> old(list) == [])
      ensures Paid(|old(list)|, old(nodes), |list|, nodes) && (f == 0 ==> list == [] && M() == old(M()))
      ensures f != 0 ==>
              nodes == old(nodes)[(f, 2, 0) := f] && (f, 2, 0) in nodes && (f, 2, 0) !in old(nodes)
              && NoneAll(M(), f, 0, VPNS)
    {
      hide Ok, Threaded, ListOk, SameTrans, Trans;
      ghost var m0 := M();
      SameSelf(m0);
      f := Alloc();
      if f == 0 { return; }
      ghost var m1 := M();
      RootOk(m1, f);
      tabs := tabs[f := Zero()];
      role := role[f := Node((f, 2, 0))];
      nodes := nodes[(f, 2, 0) := f];
      ListSame(m1.role, role, list);
      RootTrans(m0, m1, M(), f);
    }


    /** A missing table: one more frame, linked in. */
    method Grow(f: nat, i: nat, ghost k: Key) returns (g: nat)
      requires Valid() && k in nodes && nodes[k] == f && k.1 > 0 && i < 512 && KeyOk(M(), k) && tabs[f][i] == Empty
      modifies this
      ensures Valid() && Extends(old(M()), M()) && SameTrans(old(M()), M())
      ensures g == 0 <==> old(list) == []
      ensures Paid(|old(list)|, old(nodes), |list|, nodes)
      ensures g == 0 ==> tabs == old(tabs) && nodes == old(nodes) && list == old(list)
      ensures g != 0 ==> Down(k, i) in nodes && nodes[Down(k, i)] == g && nodes == old(nodes)[Down(k, i) := g]
    {
      hide Ok, Threaded, ListOk, SameTrans, KeyOk, Decode, Encode;
      ghost var m0 := M();
      SameSelf(m0);
      g := Alloc();
      if g == 0 { return; }
      ghost var m1 := M();
      HeldKey(m0, g, k);
      HeldTrans(m0, m1);
      KeyTab(m1, k);
      GrownOk(m1, k, i, g);
      GrownFresh(m1, k, i, g);
      GrownSame(m1, k, i, g);
      PteRoundTrip(Link(g));
      tabs := PutPte(tabs[g := Zero()], f, i, Decode(Encode(Link(g))));
      role := role[g := Node(Down(k, i))];
      nodes := nodes[Down(k, i) := g];
      ListSame(m1.role, role, list);
      SameAfter(m0, m1, M());
      GrownExtends(m0, k, i, g);
    }

    /** walk: the lowest table on the way to v, or 0; missing tables are made if alloc. */
    method Walk(root: nat, v: nat, alloc: bool) returns (f: nat)
      requires Valid() && (root, 2, 0) in nodes && v < VPNS
      modifies this
      ensures Valid() && Extends(old(M()), M()) && SameTrans(old(M()), M())
              && (!alloc ==> M() == old(M()) && list == old(list)) && OldRoots(old(M()), M())
      ensures Paid(|old(list)|, old(nodes), |list|, nodes) && OnWay(old(nodes), nodes, root, v, v)
      ensures f != 0 ==> WayTo(nodes, root, v) && nodes[(root, 0, v / 512)] == f
      ensures f == 0 && alloc ==> list == [] || Trans(old(tabs), root, v).Some?
      ensures f == 0 ==> (root, 0, v / 512) !in nodes
    {
      hide Ok, Threaded, ListOk, SameTrans, KeyOk, Extends, Trans, Px, Child;
      ghost var m0 := M();
      SameSelf(m0);
      ExtendsSelf(m0);
      PathFacts(v);
      RootIs(m0, root);
      f := root;
      ghost var k := (root, 2, 0);
      var level := 2;
      while level > 0
        invariant level <= 2 && k ==
                  (root, level, if level == 2 then 0 else if level == 1 then v / 512 / 512 else v / 512)
        invariant Valid() && Extends(m0, M()) && SameTrans(m0, M()) && (!alloc ==> M() == m0 && list == old(list))
                  && k in nodes && nodes[k] == f && (root, 2, 0) in nodes && OldRoots(m0, M())
        invariant Paid(|old(list)|, m0.nodes, |list|, nodes) && OnWay(m0.nodes, nodes, root, v, v)
        invariant level == 0 ==> (root, 1, v / 512 / 512) in nodes
      {
        var i := Px(level, v);
        NodeFacts(M(), k, i);
        match tabs[f][i] {
          case Leaf(_, _) =>
            BigPage(M(), k, v);
            SameAt(m0, M(), root, v);
            return 0;
          case Link(p) =>
            f := p;
          case Empty =>
            if !alloc {
              NoTable(M(), k, v);
              return 0;
            }
            ghost var m1 := M();
            NoTable(m1, k, v);
            f := Grow(f, i, k);
            ExtendsTwice2(m0, m1, M());
            if f == 0 { return 0; }
        }
        k := Down(k, i);
        level := level - 1;
      }
      NodeLive(M(), k);
    }

    /** One turn of vm_map_at: page v leads to frame p. */
    method MapPage(root: nat, v: nat, p: nat, perm: nat) returns (ok: bool)
      requires Valid() && (root, 2, 0) in nodes && v < VPNS && p < PPNS && CanLead(M(), root, v, p) && Perm(perm)
      modifies this
      ensures Valid() && SameOut(old(M()), M(), root, v, v + 1)
      ensures Moves(old(M()), M(), p, if ok && p != v then Page(root, v) else Was(old(M()), p))
      ensures Trans(tabs, root, v) == if ok then Some(p) else Trans(old(tabs), root, v)
      ensures !ok ==> list == [] || Trans(old(tabs), root, v) == Some(p)
      ensures Paid(|old(list)|, old(nodes), |list|, nodes) && OnWay(old(nodes), nodes, root, v, v)
      ensures if ok then WayTo(nodes, root, v) else (root, 0, v / 512) !in nodes
    {
      hide Ok, Threaded, ListOk, SameTrans, KeyOk, Extends, Trans, Moves, SameOut, CanMap, OnWay, OneLeaf, Put,
          Decode, Encode;
      ghost var m0 := M();
      LeadFrame(m0, root, v, p);
      var f := Walk(root, v, true);
      ghost var m1 := M();
      SameIsOut(m0, m1, root, v);
      SameAt(m0, m1, root, v);
      WalkMoves(m0, m1, p);
      if f == 0 { return false; }
      ghost var k := (root, 0, v / 512);
      MapHere(m1, root, v, p, perm);
      PteRoundTrip(Leaf(p, perm));
      tabs := PutPte(tabs, f, v % 512, Decode(Encode(Leaf(p, perm))));
      if p != v && p != 0 { role := role[p := Page(root, v)]; }
      ListSame(m1.role, role, list);
      PutOut(m0, m1, M(), root, v, Some(p));
      PutMoves(m0, m1, M(), p, if p != v then Page(root, v) else Was(m0, p));
      ok := true;
    }

    /** vm_map_at with 4 KiB pages, from page v to page v + n: the first c pages lead where
        they should, and every other page where it did. */
    method MapAt(root: nat, v: nat, p: nat, n: nat, perm: nat) returns (ok: bool, ghost c: nat)
      requires Valid() && (root, 2, 0) in nodes && n > 0 && v + n <= VPNS && 0 < p && p + n <= PPNS && Perm(perm)
      requires forall j: nat {:trigger LeadAt(M(), root, v, p, j)} :: j < n ==> LeadAt(M(), root, v, p, j)
      modifies this
      ensures Valid() && (root, 2, 0) in nodes && c <= n && (ok <==> c == n)
      ensures SameOut(old(M()), M(), root, v, v + c) && Leads(M(), root, v, p, c) && Taken(old(M()), M(), root, v, p, c)
      ensures !ok ==> list == [] || Trans(old(tabs), root, v + c) == Some(p + c)
      ensures Paid(|old(list)|, old(nodes), |list|, nodes) && OnWay(old(nodes), nodes, root, v, v + n - 1)
      ensures WaysTo(nodes, root, v, c)
    {
      hide Ok, Threaded, ListOk, Trans, SameOut, Moves, CanLead, Leads, Taken, Keeps, OnWay, WaysTo, WayTo;
      ghost var m0 := M();
      NoneYet(m0, root, v, p);
      NoWay(m0.nodes, root, v, v + n - 1);
      var a := 0;
      c := 0;
      while true
        invariant Valid() && a == c < n && (root, 2, 0) in nodes
        invariant SameOut(m0, M(), root, v, v + c) && Leads(M(), root, v, p, c) && Taken(m0, M(), root, v, p, c)
        invariant Paid(|old(list)|, m0.nodes, |list|, nodes) && OnWay(m0.nodes, nodes, root, v, v + n - 1)
                  && WaysTo(nodes, root, v, c)
        decreases n - a
      {
        ghost var m1 := M();
        assert LeadAt(m0, root, v, p, a);
        StillLead(m0, m1, root, v, p, c);
        ok := MapPage(root, v + a, p + a, perm);
        ghost var m2 := M();
        MovesKeeps(m1, m2, p + c, if ok && p != v then Page(root, v + c) else Was(m1, p + c));
        Farther(m0, m1, m2, root, v, v + n - 1, c, ok);
        if !ok {
          MissedPage(m0, m1, m2, root, v, p, c);
          return;
        }
        OnePage(m0, m1, m2, root, v, p, c);
        c := c + 1;
        if a == n - 1 { return; }
        a := a + 1;
      }
    }

    /** vm_unmap_page; a private page goes back to the free list. */
    method UnmapPage(root: nat, v: nat) returns (ok: bool)
      requires Valid() && (root, 2, 0) in nodes && v < VPNS
      modifies this
      ensures Valid() && SameOut(old(M()), M(), root, v, v + 1) && Keeps(old(M()), M())
      ensures ok ==> Trans(tabs, root, v) == None && Trans(old(tabs), root, v).Some?
      ensures !ok ==> M() == old(M()) && list == old(list)
      ensures !ok ==> !Own(M(), root, v)
      ensures ok ==> var p := Trans(old(tabs), root, v).value;
              list == (if p in {0, v} then old(list) else [p] + old(list))
              && (if p in {0, v} then role == old(role)
              else p in old(role) && old(role)[p] == Page(root, v) && role == old(role)[p := Free])
    {
      hide Ok, Threaded, ListOk, SameTrans, KeyOk, Extends, Trans, SameOut, CanUnmap, OneLeaf, Put;
      ghost var m0 := M();
      SameSelf(m0);
      SameIsOut(m0, m0, root, v);
      var f := Walk(root, v, false);
      if f == 0 {
        NotOwn(m0, root, v);
        return false;
      }
      UnmapHere(m0, root, v);
      if !tabs[f][v % 512].Leaf? { return false; }
      var p := tabs[f][v % 512].ppn;
      tabs := PutPte(tabs, f, v % 512, Empty);
      if p != v && p != 0 {
        role := role[p := Held];
        ListSame(m0.role, role, list);
        ghost var m1 := M();
        PutOut(m0, m0, m1, root, v, None);
        Release(p);
        HeldTrans(m1, M());
        OutAfter(m0, m1, M(), root, v);
      } else {
        PutOut(m0, m0, M(), root, v, None);
      }
      ok := true;
    }

    /** The growing half of SYS_SBRK: pages lo to hi, or as far as the frames go. */
    method GrowHeap(root: nat, lo: nat, hi: nat) returns (a: nat)
      requires Valid() && (root, 2, 0) in nodes && lo <= hi <= RAM_PAGE && NoneAll(M(), root, lo, hi)
      modifies this
      ensures Valid() && lo <= a <= hi && (root, 2, 0) in nodes && Keeps(old(M()), M())
              && SameOut(old(M()), M(), root, lo, a)
      ensures OwnAll(M(), root, lo, a) && (old(AllHome(role)) ==> AllHome(role))
    {
      hide Ok, Threaded, ListOk, Trans, SameOut, Moves, Keeps, Own, OwnAll, NoneAll, AllHome;
      ghost var m0 := M();
      OutNone(m0, root, lo);
      NoPages(m0, root, lo);
      a := lo;
      while a < hi
        invariant Valid() && lo <= a <= hi && (root, 2, 0) in nodes && Keeps(m0, M()) && SameOut(m0, M(), root, lo, a)
        invariant OwnAll(M(), root, lo, a) && (AllHome(m0.role) ==> AllHome(role))
      {
        ghost var m1 := M();
        var p := Alloc();
        ghost var m2 := M();
        AllocKeeps(m0, m1, m2, root, lo, a, p);
        if p == 0 { break; }
        NoneIs(m0, root, lo, hi, a);
        OutAt(m0, m2, root, lo, a, a);
        HighFrame(role, p, a);
        var ok := MapPage(root, a, p, PTE_RWU);
        ghost var m3 := M();
        MovesKeeps(m2, m3, p, if ok then Page(root, a) else Held);
        MapKeeps(m0, m2, m3, root, lo, a, p, ok);
        if AllHome(m1.role) { MapHome(m1, m2, m3, p, if ok then Page(root, a) else Held); }
        KeepsRoot(m0, m3, root);
        if !ok {
          Release(p);
          ReleaseKeeps(m0, m3, M(), root, lo, a, p);
          break;
        }
        a := a + 1;
      }
    }

    /** Unmapping pages lo to hi, from the bottom up. */
    method DropPages(root: nat, lo: nat, hi: nat)
      requires Valid() && (root, 2, 0) in nodes && lo <= hi <= RAM_PAGE
      modifies this
      ensures Valid() && (root, 2, 0) in nodes && Keeps(old(M()), M()) && SameOut(old(M()), M(), root, lo, hi)
      ensures Stripped(M(), root, lo, hi) && (old(AllHome(role)) ==> AllHome(role))
      ensures old(OwnAll(M(), root, lo, hi)) ==> NoneAll(M(), root, lo, hi) && |list| == |old(list)| + (hi - lo)
    {
      hide Ok, Threaded, ListOk, Trans, SameOut, Keeps, OwnAll, NoneAll, AllHome, Stripped;
      ghost var m0 := M();
      ghost var own := OwnAll(m0, root, lo, hi);
      OutNone(m0, root, lo);
      NoPages(m0, root, lo);
      var b := lo;
      while b < hi
        invariant Valid() && lo <= b <= hi && (root, 2, 0) in nodes && Keeps(m0, M()) && SameOut(m0, M(), root, lo, b)
        invariant Stripped(M(), root, lo, b) && (AllHome(m0.role) ==> AllHome(role))
        invariant own ==> NoneAll(M(), root, lo, b) && OwnAll(M(), root, b, hi) && |list| == |old(list)| + (b - lo)
      {
        ghost var m1 := M();
        if own { OwnIs(m1, root, b, hi); }
        var ok := UnmapPage(root, b);
        if AllHome(m1.role) && ok { UnmapHome(m1.role, role, Trans(m1.tabs, root, b).value); }
        DropKeeps(m0, m1, M(), root, lo, b);
        if own { UnmapKeeps(m1, M(), root, lo, b, hi); }
        KeepsRoot(m0, M(), root);
        b := b + 1;
      }
    }

    /** SYS_SBRK: the old break, or -1. A failure leaves every translation and the break
        as they were, and no frame is lost either way. The heap is mapped up to the new
        break and no further exactly if the new break is not below address 0 and, where it
        shrinks, there was a page to keep. Below 0 the break comes out near the top of the
        64 bits, and within a page of it every page below the old break has gone too.
        Nothing is ever mapped at the old break by a call that does not grow. */
    method Sbrk(root: nat, brk: nat, d: int) returns (r: int, brk': nat)
      requires Valid() && (root, 2, 0) in nodes && HeapOk(M(), root, Old(brk))
               && -0x8000_0000_0000_0000 <= d < 0x8000_0000_0000_0000
      modifies this
      ensures Valid() && (root, 2, 0) in nodes && (r == -1 || r == Old(brk)) && (r == -1 ==> d > 0)
      ensures HeapOk(M(), root, brk') <==> 0 <= Old(brk) + d && (0 <= d || UHEAP_BASE < Old(brk))
      ensures r == -1 ==> brk' == Old(brk) && SameTrans(old(M()), M())
      ensures Keeps(old(M()), M()) && (old(AllHome(role)) ==> AllHome(role))
      ensures r != -1 ==> brk' == Break(Old(brk), d)
      ensures var b := Old(brk);
              && (0 <= b + d ==> SameOut(old(M()), M(), root, Min(Pages(b), Pages(brk')), Max(Pages(b), Pages(brk'))))
              && (0 < b + d + PGSIZE < PGSIZE ==>
                  SameOut(old(M()), M(), root, 0, Pages(b)) && Stripped(M(), root, 0, Pages(b)))
              && (b + d + PGSIZE <= 0 ==> SameTrans(old(M()), M()))
      ensures d <= 0 && Pages(Old(brk)) < UHEAP_TOP / PGSIZE ==> Trans(tabs, root, Pages(Old(brk))) == None
    {
      hide Ok, Threaded, ListOk, Trans, SameOut, SameTrans, Own, OwnAll, NoneAll, Pages, AllHome, Stripped, Keeps,
          HeapOk;
      ghost var m0 := M();
      var b := if brk == 0 then UHEAP_BASE else brk;
      OutNone(m0, root, Pages(b));
      SameSelf(m0);
      HeapEnd(m0, root, b);
      HeapRange(m0, root, b);
      if d > 0 {
        r, brk' := SbrkUp(root, b, b + d);
        return;
      }
      if d < 0 {
        r, brk' := SbrkDown(root, b, d);
        return;
      }
      r, brk' := b, b;
    }

    /** The shrinking half. */
    method SbrkDown(root: nat, brk: nat, d: int) returns (r: int, brk': nat)
      requires Valid() && (root, 2, 0) in nodes && HeapOk(M(), root, brk) && -0x8000_0000_0000_0000 <= d < 0
      modifies this
      ensures Valid() && (root, 2, 0) in nodes && r == brk && brk' == Break(brk, d)
      ensures HeapOk(M(), root, brk') <==> 0 <= brk + d && UHEAP_BASE < brk
      ensures Keeps(old(M()), M()) && (old(AllHome(role)) ==> AllHome(role))
      ensures 0 <= brk + d ==> SameOut(old(M()), M(), root, Min(Pages(brk), Pages(brk')), Max(Pages(brk), Pages(brk')))
      ensures 0 < brk + d + PGSIZE < PGSIZE ==>
              SameOut(old(M()), M(), root, 0, Pages(brk)) && Stripped(M(), root, 0, Pages(brk))
      ensures brk + d + PGSIZE <= 0 ==> SameTrans(old(M()), M())
      ensures Trans(tabs, root, Pages(brk)) == Trans(old(tabs), root, Pages(brk))
    {
      hide Ok, Threaded, ListOk, Trans, SameOut, SameTrans, Own, OwnAll, NoneAll, Pages, AllHome, Stripped, Keeps,
          HeapOk;
      ghost var m0 := M();
      OutNone(m0, root, Pages(brk));
      SameSelf(m0);
      HeapRange(m0, root, brk);
      var want := (brk + d) % TWO64;
      Below(brk, d);
      if want < UHEAP_BASE + PGSIZE { want := UHEAP_BASE + PGSIZE; }
      var lo, hi := (want + PGSIZE - 1) % TWO64 / PGSIZE, Pages(brk);
      HighBreak(brk, d, want);
      if 0 <= brk + d && UHEAP_BASE < brk { HeapBelow(m0, root, want, brk); }
      if lo < hi {
        DropPages(root, lo, hi);
        OutAt(m0, M(), root, lo, hi, hi);
      } else {
        SameIsOut2(m0, M(), root, lo, hi);
        SameIsOut2(m0, M(), root, hi, lo);
        NoneBetween(M(), root, lo, hi);
      }
      if 0 <= brk + d {
        if UHEAP_BASE < brk { HeapShrunk(m0, M(), root, want, brk); } else { HeapHole(M(), root); }
      } else {
        HeapHigh(M(), root, want);
      }
      return brk, want;
    }

    /** The growing half. */
    method SbrkUp(root: nat, brk: nat, want: nat) returns (r: int, brk': nat)
      requires Valid() && (root, 2, 0) in nodes && HeapOk(M(), root, brk) && brk < want
      modifies this
      ensures Valid() && (root, 2, 0) in nodes && HeapOk(M(), root, brk') && (r == -1 || r == brk)
      ensures r == -1 ==> brk' == brk && SameTrans(old(M()), M())
      ensures Keeps(old(M()), M()) && (old(AllHome(role)) ==> AllHome(role))
      ensures r != -1 ==> brk' == want
      ensures SameOut(old(M()), M(), root, Min(Pages(brk), Pages(brk')), Max(Pages(brk), Pages(brk')))
    {
      hide Ok, Threaded, ListOk, Trans, SameOut, SameTrans, Own, OwnAll, NoneAll, Pages, AllHome, Keeps, Stripped;
      ghost var m0 := M();
      OutNone(m0, root, Pages(brk));
      SameSelf(m0);
      if want > UHEAP_TOP { return -1, brk; }
      PagesUp(brk, want);
      HeapAbove(m0, root, brk, want);
      var lo, hi := Pages(brk), Pages(want);
      var a := GrowHeap(root, lo, hi);
      ghost var m1 := M();
      if a < hi {
        DropPages(root, lo, a);
        NoneSub(m0, root, lo, a, hi);
        GaveBack(m0, m1, M(), root, lo, a);
        KeepsTwice(m0, m1, M());
        SameIsOut2(m0, M(), root, lo, lo);
        HeapSame(m0, M(), root, brk);
        return -1, brk;
      }
      HeapGrown(m0, m1, root, brk, want);
      return brk, want;
    }

    /** free_walk: every table and every private page under table k, and nothing else. A
        freed page holds a link of the free list, so a table is read only while it is not
        free. */
    method FreeWalk(f: nat, level: nat, path: nat, ghost root: nat, ghost m: Mem)
      requires ListInv() && Ok(m) && tabs == m.tabs && role.Keys == m.role.Keys && (root, level, path) in m.nodes
               && m.nodes[(root, level, path)] == f && AboveUser(m.role)
      requires forall g {:trigger role[g]} ::
               g in role && Inside(m.role[g], (root, level, path)) ==> role[g] == m.role[g]
      requires f in role && role[f] != Free
      modifies this`freelist, this`link, this`nfree, this`role, this`list
      ensures ListInv() && Swept(old(role), role, m, (root, level, path), 512)
      decreases level
    {
      hide Ok, Threaded, ListOk, Swept, Inside, EntryOf, Base;
      ghost var k: Key := (root, level, path);
      NodeFacts(m, k, 0);
      KeyTab(m, k);
      SweptNone(role, m, k);
      var i := 0;
      while i < 512
        invariant i <= 512 && ListInv() && Swept(old(role), role, m, k, i)
      {
        NodeFacts(m, k, i);
        SweptFacts(old(role), role, m, k, i);
        assert role[f] != Free;
        match tabs[f][i] {
          case Empty =>
            SweptOn(old(role), role, role, m, k, i);
          case Leaf(p, _) =>
            BaseOf(k, i);
            if p != (if level == 0 then path * 512 + i else if level == 1 then (path * 512 + i) * 512
                else (path * 512 + i) * 512 * 512) {
              ghost var r1 := role;
              if p != 0 {
                LeafHere(m, k, i);
                SweptLeaf(old(role), role, m, k, i, p);
              }
              Push(p);
              if p != 0 {
                SweptPage(old(role), r1, role, m, k, i, p);
              } else {
                SweptOn(old(role), r1, role, m, k, i);
              }
            } else {
              SweptOn(old(role), role, role, m, k, i);
            }
          case Link(p) =>
            ghost var r1 := role;
            SweptLink(old(role), role, m, k, i, p);
            FreeWalk(p, level - 1, path * 512 + i, root, m);
            ghost var r2 := role;
            SweptChild(old(role), r1, r2, m, k, i, p);
            Push(p);
            SweptTable(old(role), r1, r2, role, m, k, i, p);
        }
        i := i + 1;
      }
    }

    /** vm_free_task: exactly what the address space owned is free again. */
    method FreeTask(root: nat)
      requires Valid() && (root, 2, 0) in nodes
      modifies this
      ensures Valid() && role.Keys == old(role).Keys && nodes == map k | k in old(nodes) && k.0 != root :: old(nodes)[k]
      ensures forall g {:trigger role[g]} ::
              g in role ==> role[g] == if Owned(old(role)[g], root) then Free else old(role)[g]
      ensures tabs == old(tabs)
    {
      hide Ok, Threaded, ListOk, Swept, Inside, Owned;
      ghost var m := M();
      RootIs(m, root);
      FreeWalk(root, 2, 0, root, m);
      ghost var r1 := role;
      SweptRoot(m, r1, root);
      Push(root);
      nodes := map k | k in nodes && k.0 != root :: nodes[k];
      DropRoot(m, root, role);
    }
  }
}
