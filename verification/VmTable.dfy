/** Sv39 page tables of src/vm.c as a tree over physical frames, and the finite map from
    virtual page to frame that they stand for. */
module VmTable {
  import opened Common

  /** One entry: invalid, a link to the next table, or a leaf. */
  datatype Pte = Empty | Link(ppn: nat) | Leaf(ppn: nat, perm: nat)

  // ---- the eight bytes of an entry (section 4.4.1 of the privileged architecture)

  const PPNS: nat := 0x1000_0000_0000
  const PTE_V: nat := 1
  const PTE_AD: nat := 0xC0

  /** Permission bits are R, W, X, U and G; R, W and X make a leaf. */
  predicate Perm(p: nat) { p < 0x40 && p % 2 == 0 && p / 2 % 8 != 0 }

  predicate Encodable(e: Pte) {
    match e
    case Empty => true
    case Link(n) => n < PPNS
    case Leaf(n, p) => n < PPNS && Perm(p)
  }

  /** PA2PTE and the flags vm_map_at adds. */
  function Encode(e: Pte): nat {
    match e
    case Empty => 0
    case Link(n) => n * 1024 + PTE_V
    case Leaf(n, p) => n * 1024 + p + PTE_V + PTE_AD
  }

  /** PTE_V, PTE_IS_LEAF and PTE2PA, as the walks apply them. */
  function Decode(b: nat): Pte {
    if b % 2 == 0 then Empty
    else if b / 2 % 8 == 0 then Link(b / 1024)
    else Leaf(b / 1024, b % 0x40 / 2 * 2)
  }

  /** What is written into an entry is what a walk reads out of it. */
  lemma PteRoundTrip(e: Pte)
    requires Encodable(e)
    ensures Decode(Encode(e)) == e
  {
    match e
    case Empty =>
    case Link(n) => LinkBits(n);
    case Leaf(n, p) => LeafBits(n, p);
  }

  lemma LinkBits(n: nat)
    ensures var b := n * 1024 + 1; b % 2 == 1 && b / 2 % 8 == 0 && b / 1024 == n
  {
    var b := n * 1024 + 1;
    Slots(b, 2, n * 512, 1);
    Slots(b / 2, 8, n * 64, 0);
    Slots(b, 1024, n, 1);
  }

  lemma LeafBits(n: nat, p: nat)
    requires p < 0x40 && p % 2 == 0
    ensures var b := n * 1024 + p + 0xC1; b % 2 == 1 && b / 2 % 8 == p / 2 % 8 && b % 0x40 == p + 1 && b / 1024 == n
  {
    var b := n * 1024 + p + 0xC1;
    var q, r := p / 2 / 8, p / 2 % 8;
    assert p == 16 * q + 2 * r;
    Slots(b, 2, n * 512 + p / 2 + 0x60, 1);
    Slots(b / 2, 8, n * 64 + q + 12, r);
    Slots(b, 0x40, n * 16 + 3, p + 1);
    Slots(b, 1024, n, p + 0xC1);
  }

  lemma Slots(x: nat, m: nat, q: nat, r: nat)
    requires m > 0 && x == m * q + r && r < m
    ensures x / m == q && x % m == r
  {
    var d := q - x / m;
    assert m * d == x % m - r by { assert m * q == m * d + m * (x / m); }
    assert d > 0 ==> m * d >= m;
    assert d < 0 ==> m * d + m <= 0;
  }

  // ---- indices

  const VPNS: nat := 0x800_0000

  /** The path of the table one level down at entry i of the table at path q. */
  function Child(q: nat, i: nat): nat { q * 512 + i }

  lemma ChildOf(q: nat, i: nat)
    requires i < 512
    ensures Child(q, i) / 512 == q && Child(q, i) % 512 == i
  {
  }

  lemma ChildBack(q: nat)
    ensures Child(q / 512, q % 512) == q
  {
  }

  /** PX(level, va) of the address of virtual page v. */
  function Px(level: nat, v: nat): (i: nat)
    requires level <= 2
    ensures i < 512
  {
    if level == 0 then v % 512 else if level == 1 then v / 512 % 512 else v / 512 / 512 % 512
  }

  // ---- the tree on frames

  type Tables = map<nat, seq<Pte>>

  /** A table is named by its root, its level and its path. */
  type Key = (nat, nat, nat)

  /** What a frame of the arena is: on the free list, in a caller's hands, a table, or
      the private page behind one virtual page. */
  datatype Role = Free | Held | Node(key: Key) | Page(root: nat, v: nat)

  datatype Mem = Mem(tabs: Tables, role: map<nat, Role>, nodes: map<Key, nat>)

  function Up(k: Key): Key { (k.0, k.1 + 1, k.2 / 512) }
  function Down(k: Key, i: nat): Key
    requires k.1 > 0
  {
    (k.0, k.1 - 1, Child(k.2, i))
  }

  /** The first virtual page under entry i of table k. */
  function Base(k: Key, i: nat): nat {
    if k.1 == 0 then Child(k.2, i) else if k.1 == 1 then Child(k.2, i) * 512 else Child(k.2, i) * 512 * 512
  }

  /** What a leaf of the lowest level leads to: its own address, a private page, or, where
      pmm_alloc had none to give and nobody looked, frame 0. */
  ghost predicate EntryOk(m: Mem, k: Key, i: nat)
    requires k in m.nodes && m.nodes[k] in m.tabs && |m.tabs[m.nodes[k]]| == 512 && i < 512
  {
    match m.tabs[m.nodes[k]][i]
    case Empty => k.1 > 0 ==> Down(k, i) !in m.nodes
    case Link(p) => k.1 > 0 && Down(k, i) in m.nodes && m.nodes[Down(k, i)] == p
    case Leaf(p, _) =>
      && (k.1 > 0 ==> Down(k, i) !in m.nodes && p == Base(k, i))
      && (k.1 == 0 && p != Base(k, i) && p != 0 ==> p in m.role && m.role[p] == Page(k.0, Base(k, i)))
  }

  ghost predicate KeyOk(m: Mem, k: Key)
    requires k in m.nodes
  {
    var f := m.nodes[k];
    && k.1 <= 2 && (k.1 == 2 ==> k.2 == 0 && f == k.0)
    && f in m.role && m.role[f] == Node(k) && f in m.tabs && |m.tabs[f]| == 512
    && (forall i {:trigger EntryOk(m, k, i)} :: 0 <= i < 512 ==> EntryOk(m, k, i))
    && (k.1 < 2 ==>
        Up(k) in m.nodes && m.nodes[Up(k)] in m.tabs && |m.tabs[m.nodes[Up(k)]]| == 512
        && m.tabs[m.nodes[Up(k)]][k.2 % 512] == Link(f))
  }

  ghost predicate FrameOk(m: Mem, f: nat)
    requires f in m.role
  {
    match m.role[f]
    case Free => true
    case Held => true
    case Node(k) => k in m.nodes && m.nodes[k] == f
    case Page(r, v) =>
      && f != v && (r, 0, v / 512) in m.nodes && m.nodes[(r, 0, v / 512)] in m.tabs
      && |m.tabs[m.nodes[(r, 0, v / 512)]]| == 512
      && m.tabs[m.nodes[(r, 0, v / 512)]][v % 512].Leaf? && m.tabs[m.nodes[(r, 0, v / 512)]][v % 512].ppn == f
  }

  /** Every table hangs in one place of one tree, and every private page is behind one
      leaf. */
  ghost predicate Ok(m: Mem) {
    && (forall k {:trigger KeyOk(m, k)} :: k in m.nodes ==> KeyOk(m, k))
    && (forall f {:trigger FrameOk(m, f)} :: f in m.role ==> FrameOk(m, f))
    && 0 !in m.role
  }

  // ---- translation

  /** vm_translate_in, by pages; None is 0. */
  function Trans(t: Tables, root: nat, v: nat): Option<nat> {
    if root !in t || |t[root]| != 512 then None else
    match t[root][Px(2, v)]
    case Empty => None
    case Leaf(p, _) => Some(p + v % 0x4_0000)
    case Link(a) =>
      if a !in t || |t[a]| != 512 then None else
      match t[a][Px(1, v)]
      case Empty => None
      case Leaf(p, _) => Some(p + v % 512)
      case Link(b) =>
        if b !in t || |t[b]| != 512 then None else
        match t[b][Px(0, v)]
        case Leaf(p, _) => Some(p)
        case _ => None
  }

  /** The entry that decides where v leads: in the lowest table on its path. */
  ghost function Ends(m: Mem, root: nat, v: nat): Key {
    if (root, 0, v / 512) in m.nodes then (root, 0, v / 512)
    else if (root, 1, v / 512 / 512) in m.nodes then (root, 1, v / 512 / 512)
    else (root, 2, 0)
  }

  ghost function EndEntry(m: Mem, root: nat, v: nat): Pte
    requires Ok(m) && (root, 2, 0) in m.nodes && v < VPNS
  {
    var k := Ends(m, root, v);
    assert KeyOk(m, k);
    m.tabs[m.nodes[k]][Px(k.1, v)]
  }

  function Lead(e: Pte, level: nat, v: nat): Option<nat> {
    if !e.Leaf? then None else if level == 0 then Some(e.ppn) else if level == 1 then Some(e.ppn + v % 512)
        else Some(e.ppn + v % 0x4_0000)
  }

  lemma PathFacts(v: nat)
    requires v < VPNS
    ensures Px(2, v) == v / 512 / 512 && Child(v / 512 / 512, Px(1, v)) == v / 512 && Child(v / 512, Px(0, v)) == v
            && Child(0, Px(2, v)) == v / 512 / 512
  {
  }

  /** A walk ends where the tree says it does. */
  lemma TransIs(m: Mem, root: nat, v: nat)
    requires Ok(m) && (root, 2, 0) in m.nodes && v < VPNS
    ensures Trans(m.tabs, root, v) == Lead(EndEntry(m, root, v), Ends(m, root, v).1, v)
  {
    PathFacts(v);
    var k2 := (root, 2, 0);
    assert KeyOk(m, k2) && EntryOk(m, k2, Px(2, v));
    var k1 := (root, 1, v / 512 / 512);
    assert Down(k2, Px(2, v)) == k1;
    var k0 := (root, 0, v / 512);
    if k1 in m.nodes {
      assert KeyOk(m, k1) && EntryOk(m, k1, Px(1, v));
      assert Down(k1, Px(1, v)) == k0;
      if k0 in m.nodes { assert KeyOk(m, k0) && EntryOk(m, k0, Px(0, v)); }
    } else {
      assert k0 in m.nodes ==> KeyOk(m, k0);
    }
  }

  // ---- changes to the tree

  function Zero(): (t: seq<Pte>)
    ensures |t| == 512 && forall i :: 0 <= i < 512 ==> t[i] == Empty
  {
    seq(512, _ => Empty)
  }

  function PutPte(t: Tables, f: nat, i: nat, e: Pte): Tables
    requires f in t && i < |t[f]|
  {
    t[f := t[f][i := e]]
  }

  /** The entry i of table k now leads to the new, empty table on frame f. */
  ghost function Grown(m: Mem, k: Key, i: nat, f: nat): Mem
    requires k in m.nodes && m.nodes[k] in m.tabs && i < |m.tabs[m.nodes[k]]| && k.1 > 0 && f != m.nodes[k]
  {
    Mem(PutPte(m.tabs[f := Zero()], m.nodes[k], i, Link(f)), m.role[f := Node(Down(k, i))], m.nodes[Down(k, i) := f])
  }

  /** Two places of a tree are different tables. */
  lemma NodesApart(m: Mem, k: Key, k': Key)
    requires Ok(m) && k in m.nodes && k' in m.nodes && k != k'
    ensures m.nodes[k] != m.nodes[k']
  {
    assert KeyOk(m, k) && KeyOk(m, k');
  }

  lemma DownApart(k: Key, i: nat, k': Key, i': nat)
    requires k.1 > 0 && k'.1 > 0 && i < 512 && i' < 512 && Down(k, i) == Down(k', i')
    ensures k == k' && i == i'
  {
    ChildOf(k.2, i);
    ChildOf(k'.2, i');
  }

  lemma UpDown(k: Key, i: nat)
    requires k.1 > 0 && i < 512
    ensures Up(Down(k, i)) == k && Down(k, i).2 % 512 == i
  {
    ChildOf(k.2, i);
  }

  lemma GrownKey(m: Mem, k: Key, i: nat, f: nat, x: Key)
    requires Ok(m) && k in m.nodes && k.1 > 0 && i < 512 && KeyOk(m, k) && m.tabs[m.nodes[k]][i] == Empty
             && f in m.role && m.role[f] == Held
    requires x in m.nodes
    ensures f != m.nodes[k] && KeyOk(Grown(m, k, i, f), x)
  {
    hide Child, Base;
    var c := Down(k, i);
    UpDown(k, i);
    assert EntryOk(m, k, i) && KeyOk(m, x);
    var m' := Grown(m, k, i, f);
    if x != k { NodesApart(m, x, k); }
    if x.1 < 2 && Up(x) != k { NodesApart(m, Up(x), k); assert KeyOk(m, Up(x)); }
    forall j | 0 <= j < 512 ensures EntryOk(m', x, j) {
      assert EntryOk(m, x, j);
      if x.1 > 0 && Down(x, j) == c { DownApart(x, j, k, i); }
      GrownEntry(m, k, i, f, x, j);
    }
  }

  lemma GrownEntry(m: Mem, k: Key, i: nat, f: nat, x: Key, j: nat)
    requires Ok(m) && k in m.nodes && k.1 > 0 && i < 512 && KeyOk(m, k) && m.tabs[m.nodes[k]][i] == Empty
             && f in m.role && m.role[f] == Held
    requires x in m.nodes && KeyOk(m, x) && j < 512 && EntryOk(m, x, j) && Down(k, i) !in m.nodes && f != m.nodes[k]
             && f != m.nodes[x]
    requires x != k ==> m.nodes[x] != m.nodes[k]
    requires x.1 > 0 && Down(x, j) == Down(k, i) ==> x == k && j == i
    ensures EntryOk(Grown(m, k, i, f), x, j)
  {
    hide Child, Base;
  }

  lemma GrownOk(m: Mem, k: Key, i: nat, f: nat)
    requires Ok(m) && k in m.nodes && k.1 > 0 && i < 512 && KeyOk(m, k) && m.tabs[m.nodes[k]][i] == Empty
             && f in m.role && m.role[f] == Held
    ensures f != m.nodes[k] && Ok(Grown(m, k, i, f))
  {
    hide Child, Base, EntryOk;
    var c := Down(k, i);
    UpDown(k, i);
    GrownFresh(m, k, i, f);
    var m' := Grown(m, k, i, f);
    forall x | x in m'.nodes ensures KeyOk(m', x) {
      if x != c { GrownKey(m, k, i, f, x); }
    }
    forall g | g in m'.role ensures FrameOk(m', g) {
      assert FrameOk(m, g);
      if g != f { GrownFrame(m, k, i, f, g); }
    }
  }

  lemma GrownFresh(m: Mem, k: Key, i: nat, f: nat)
    requires Ok(m) && k in m.nodes && k.1 > 0 && i < 512 && KeyOk(m, k) && m.tabs[m.nodes[k]][i] == Empty
             && f in m.role && m.role[f] == Held
    ensures f != m.nodes[k] && Down(k, i) !in m.nodes && KeyOk(Grown(m, k, i, f), Down(k, i))
  {
    hide Child, Base;
    var c := Down(k, i);
    UpDown(k, i);
    assert EntryOk(m, k, i);
    var m' := Grown(m, k, i, f);
    forall j | 0 <= j < 512 ensures EntryOk(m', c, j) {
      if c.1 > 0 {
        UpDown(c, j);
        assert Down(c, j) in m.nodes ==> KeyOk(m, Down(c, j));
      }
    }
  }

  lemma GrownFrame(m: Mem, k: Key, i: nat, f: nat, g: nat)
    requires Ok(m) && k in m.nodes && k.1 > 0 && i < 512 && KeyOk(m, k) && m.tabs[m.nodes[k]][i] == Empty
             && f in m.role && m.role[f] == Held
    requires f != m.nodes[k] && g in m.role && g != f && FrameOk(m, g) && Down(k, i) !in m.nodes
    ensures FrameOk(Grown(m, k, i, f), g)
  {
    hide Child, Base, EntryOk;
    if m.role[g].Page? {
      var t := (m.role[g].root, 0, m.role[g].v / 512);
      assert KeyOk(m, t);
      NodesApart(m, t, k);
    }
  }

  /** A table added is a table nobody notices. */
  lemma GrownTrans(m: Mem, k: Key, i: nat, f: nat, r: nat, v: nat)
    requires Ok(m) && k in m.nodes && k.1 > 0 && i < 512 && KeyOk(m, k) && m.tabs[m.nodes[k]][i] == Empty
             && f in m.role && m.role[f] == Held
    requires (r, 2, 0) in m.nodes && v < VPNS
    ensures f != m.nodes[k] && Trans(Grown(m, k, i, f).tabs, r, v) == Trans(m.tabs, r, v)
  {
    hide Trans, EntryOk, Base, Px;
    GrownOk(m, k, i, f);
    var m' := Grown(m, k, i, f);
    TransIs(m, r, v);
    TransIs(m', r, v);
    GrownEnd(m, k, i, f, r, v);
  }

  lemma GrownEnd(m: Mem, k: Key, i: nat, f: nat, r: nat, v: nat)
    requires Ok(m) && k in m.nodes && k.1 > 0 && i < 512 && KeyOk(m, k) && m.tabs[m.nodes[k]][i] == Empty
             && f in m.role && m.role[f] == Held
    requires (r, 2, 0) in m.nodes && v < VPNS && f != m.nodes[k] && Ok(Grown(m, k, i, f))
    ensures var m' := Grown(m, k, i, f);
            Lead(EndEntry(m', r, v), Ends(m', r, v).1, v) == Lead(EndEntry(m, r, v), Ends(m, r, v).1, v)
  {
    var m', c := Grown(m, k, i, f), Down(k, i);
    PathFacts(v);
    ChildOf(k.2, i);
    var e, e' := Ends(m, r, v), Ends(m', r, v);
    assert KeyOk(m, e) && KeyOk(m', e') && EntryOk(m, k, i) && KeyOk(m, (r, 2, 0));
    assert KeyOk(m', k);
    if e' != c && e' != k { NodesApart(m, e', k); }
  }

  // ---- leaves

  /** Entry i of the lowest table k becomes e; where says whose page frame p now is. */
  ghost function Put(m: Mem, k: Key, i: nat, e: Pte, p: nat, where: Role): Mem
    requires k in m.nodes && m.nodes[k] in m.tabs && i < |m.tabs[m.nodes[k]]|
  {
    Mem(PutPte(m.tabs, m.nodes[k], i, e), if p in m.role then m.role[p := where] else m.role, m.nodes)
  }

  ghost predicate CanMap(m: Mem, k: Key, i: nat, p: nat)
    requires k in m.nodes && m.nodes[k] in m.tabs && |m.tabs[m.nodes[k]]| == 512 && i < 512
  {
    k.1 == 0 && m.tabs[m.nodes[k]][i] == Empty && p > 0 && p != Child(k.2, i) && p in m.role && m.role[p] == Held
  }

  ghost predicate CanUnmap(m: Mem, k: Key, i: nat, p: nat)
    requires k in m.nodes && m.nodes[k] in m.tabs && |m.tabs[m.nodes[k]]| == 512 && i < 512
  {
    k.1 == 0 && m.tabs[m.nodes[k]][i].Leaf? && m.tabs[m.nodes[k]][i].ppn == p
  }

  /** vm_map_at of one page. */
  lemma MapOk(m: Mem, k: Key, i: nat, p: nat, perm: nat)
    requires Ok(m) && k in m.nodes && KeyOk(m, k) && i < 512 && CanMap(m, k, i, p)
    ensures Ok(Put(m, k, i, Leaf(p, perm), p, Page(k.0, Child(k.2, i))))
  {
    hide Child;
    var m' := Put(m, k, i, Leaf(p, perm), p, Page(k.0, Child(k.2, i)));
    forall g | g in m.role && m'.role[g] == Page(k.0, Child(k.2, i)) ensures g == p {
      assert FrameOk(m, g);
      ChildOf(k.2, i);
    }
    PutOk(m, k, i, m');
  }

  /** vm_unmap_page: the private page is in the caller's hands again. */
  lemma UnmapOk(m: Mem, k: Key, i: nat, p: nat)
    requires Ok(m) && k in m.nodes && KeyOk(m, k) && i < 512 && CanUnmap(m, k, i, p)
    ensures Ok(if p == Child(k.2, i) || p == 0 then Put(m, k, i, Empty, 0, Held) else Put(m, k, i, Empty, p, Held))
    ensures p != Child(k.2, i) && p != 0 ==> p in m.role && m.role[p] == Page(k.0, Child(k.2, i))
  {
    hide Child;
    assert EntryOk(m, k, i);
    var m' := if p == Child(k.2, i) || p == 0 then Put(m, k, i, Empty, 0, Held) else Put(m, k, i, Empty, p, Held);
    forall g | g in m'.role ensures m'.role[g] != Page(k.0, Child(k.2, i)) {
      assert FrameOk(m, g);
      ChildOf(k.2, i);
    }
    PutOk(m, k, i, m');
  }

  /** A leaf made, changed or dropped leaves a well-formed memory. */
  lemma PutOk(m: Mem, k: Key, i: nat, m': Mem)
    requires Ok(m) && k in m.nodes && KeyOk(m, k) && i < 512 && OneLeaf(m, k, i, m')
    requires forall g {:trigger m'.role[g]} ::
             g in m.role && m'.role[g] == Page(k.0, Child(k.2, i)) ==>
             g != Child(k.2, i) && m'.tabs[m.nodes[k]][i].Leaf? && m'.tabs[m.nodes[k]][i].ppn == g
    ensures Ok(m')
  {
    hide Child, OneLeaf, EntryOk, KeyOk;
    KeyTab(m, k);
    OneLeafKeys(m, k, i, m');
    forall x | x in m'.nodes ensures KeyOk(m', x) { PutKey(m, k, i, m', x); }
    forall g | g in m'.role ensures FrameOk(m', g) {
      assert FrameOk(m, g);
      PutFrame(m, k, i, m', g);
    }
  }

  lemma OneLeafKeys(m: Mem, k: Key, i: nat, m': Mem)
    requires k in m.nodes && m.nodes[k] in m.tabs && |m.tabs[m.nodes[k]]| == 512 && i < 512 && OneLeaf(m, k, i, m')
    ensures m'.nodes == m.nodes && m'.role.Keys == m.role.Keys
  {
  }

  /** vm_map_at where the page already leads to p, or where a page is mapped to its own
      address or to frame 0. */
  lemma RemapOk(m: Mem, k: Key, i: nat, p: nat, perm: nat)
    requires Ok(m) && k in m.nodes && KeyOk(m, k) && k.1 == 0 && i < 512
    requires (m.tabs[m.nodes[k]][i] == Empty && (p == Child(k.2, i) || p == 0))
             || (m.tabs[m.nodes[k]][i].Leaf? && m.tabs[m.nodes[k]][i].ppn == p)
    ensures Ok(m.(tabs := PutPte(m.tabs, m.nodes[k], i, Leaf(p, perm))))
  {
    hide Child;
    assert EntryOk(m, k, i);
    var m' := m.(tabs := PutPte(m.tabs, m.nodes[k], i, Leaf(p, perm)));
    forall g | g in m.role && m'.role[g] == Page(k.0, Child(k.2, i)) ensures g != Child(k.2, i) && p == g {
      assert FrameOk(m, g);
      ChildOf(k.2, i);
    }
    PutOk(m, k, i, m');
  }

  /** m' is m with one entry of one lowest table changed, and the role of the frame
      behind it with it. */
  ghost predicate OneLeaf(m: Mem, k: Key, i: nat, m': Mem)
    requires k in m.nodes && m.nodes[k] in m.tabs && |m.tabs[m.nodes[k]]| == 512 && i < 512
  {
    && k.1 == 0 && m'.nodes == m.nodes
    && m'.tabs == PutPte(m.tabs, m.nodes[k], i, if m.nodes[k] in m'.tabs
    && |m'.tabs[m.nodes[k]]| == 512 then m'.tabs[m.nodes[k]][i] else Empty)
    && m.nodes[k] in m'.tabs && |m'.tabs[m.nodes[k]]| == 512 && !m.tabs[m.nodes[k]][i].Link?
    && !m'.tabs[m.nodes[k]][i].Link?
    && m'.role.Keys == m.role.Keys
    && (forall g {:trigger m'.role[g]} ::
        g in m.role && m'.role[g] != m.role[g] ==>
        (m.role[g] == Held || m.role[g] == Page(k.0, Child(k.2, i)))
        && (m'.role[g] == Held || m'.role[g] == Page(k.0, Child(k.2, i))))
    && (m'.tabs[m.nodes[k]][i].Leaf? ==> var p := m'.tabs[m.nodes[k]][i].ppn;
        p != Child(k.2, i) && p != 0 ==> p in m'.role && m'.role[p] == Page(k.0, Child(k.2, i)))
  }

  lemma PutKey(m: Mem, k: Key, i: nat, m': Mem, x: Key)
    requires Ok(m) && k in m.nodes && KeyOk(m, k) && i < 512 && OneLeaf(m, k, i, m') && x in m.nodes
    ensures KeyOk(m', x)
  {
    hide Child;
    assert KeyOk(m, x);
    if x != k { NodesApart(m, x, k); }
    if x.1 < 2 { assert KeyOk(m, Up(x)); if Up(x) != k { NodesApart(m, Up(x), k); } }
    assert m'.role[m.nodes[x]] == m.role[m.nodes[x]];
    forall j | 0 <= j < 512 ensures EntryOk(m', x, j) {
      assert EntryOk(m, x, j);
      PutEntry(m, k, i, m', x, j);
    }
  }

  lemma PutEntry(m: Mem, k: Key, i: nat, m': Mem, x: Key, j: nat)
    requires Ok(m) && k in m.nodes && KeyOk(m, k) && i < 512 && OneLeaf(m, k, i, m') && x in m.nodes && KeyOk(m, x)
             && j < 512 && EntryOk(m, x, j)
    requires x != k ==> m.nodes[x] != m.nodes[k]
    ensures m'.nodes[x] in m'.tabs && |m'.tabs[m'.nodes[x]]| == 512 && EntryOk(m', x, j)
  {
    hide KeyOk;
    KeyTab(m, x);
    KeyTab(m, k);
    if (x, j) != (k, i) && m.tabs[m.nodes[x]][j].Leaf? && x.1 == 0
        && m.tabs[m.nodes[x]][j].ppn !in {0, Child(x.2, j)} {
      var p := m.tabs[m.nodes[x]][j].ppn;
      assert m.role[p] == Page(x.0, Child(x.2, j));
      ChildOf(x.2, j);
      ChildOf(k.2, i);
      assert m'.role[p] == m.role[p];
    }
  }

  lemma KeyTab(m: Mem, k: Key)
    requires k in m.nodes && KeyOk(m, k)
    ensures m.nodes[k] in m.tabs && |m.tabs[m.nodes[k]]| == 512 && k.1 <= 2
  {
  }

  lemma PutFrame(m: Mem, k: Key, i: nat, m': Mem, g: nat)
    requires Ok(m) && k in m.nodes && KeyOk(m, k) && i < 512 && OneLeaf(m, k, i, m') && g in m.role && FrameOk(m, g)
    requires m'.role[g] == Page(k.0, Child(k.2, i)) ==>
             g != Child(k.2, i) && m'.tabs[m.nodes[k]][i].Leaf? && m'.tabs[m.nodes[k]][i].ppn == g
    ensures FrameOk(m', g)
  {
    hide EntryOk;
    ChildOf(k.2, i);
    if m'.role[g].Page? && m'.role[g] != Page(k.0, Child(k.2, i)) {
      assert m'.role[g] == m.role[g];
      var t := (m.role[g].root, 0, m.role[g].v / 512);
      ChildBack(m.role[g].v);
      assert KeyOk(m, t);
      if t != k { NodesApart(m, t, k); }
    }
  }

  /** And exactly one page leads somewhere else. */
  lemma PutTrans(m: Mem, k: Key, i: nat, m': Mem, r: nat, v: nat)
    requires Ok(m) && Ok(m') && k in m.nodes && KeyOk(m, k) && i < 512 && OneLeaf(m, k, i, m') && (r, 2, 0) in m.nodes
             && v < VPNS
    ensures Trans(m'.tabs, r, v) == if r == k.0 && v == Child(k.2, i) then Lead(m'.tabs[m.nodes[k]][i], 0, v)
            else Trans(m.tabs, r, v)
  {
    hide Trans, EntryOk, FrameOk;
    TransIs(m, r, v);
    TransIs(m', r, v);
    PathFacts(v);
    ChildOf(k.2, i);
    var e := Ends(m, r, v);
    assert KeyOk(m, e) && KeyOk(m', e);
    if e != k { NodesApart(m, e, k); }
  }
}
