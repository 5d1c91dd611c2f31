/** Tearing an address space down: which frames lie under which table entry. */
module VmFree {
  import opened Common
  import opened VmTable

  /** The table and entry a frame hangs from: a root hangs from none. */
  function Home(r: Role): Option<(Key, nat)> {
    match r
    case Node(k) =>
      var i: nat := k.2 % 512;
      if k.1 < 2 then Some((Up(k), i)) else None
    case Page(root, v) =>
      var k: Key, i: nat := (root, 0, v / 512), v % 512;
      Some((k, i))
    case _ => None
  }

  /** The path, at level l, of the table above h. */
  function Above(h: Key, l: nat): nat {
    if l <= h.1 then h.2 else if l == h.1 + 1 then h.2 / 512 else h.2 / 512 / 512
  }

  predicate Within(h: Key, k: Key) { h.0 == k.0 && h.1 <= k.1 && Above(h, k.1) == k.2 }

  /** A frame with this role hangs somewhere under table k. */
  predicate Inside(r: Role, k: Key) { Home(r).Some? && Home(r).value.0.1 <= 2 && Within(Home(r).value.0, k) }

  /** And under this entry of it. */
  function EntryOf(r: Role, k: Key): nat
    requires Inside(r, k)
  {
    var h := Home(r).value;
    if h.0 == k then h.1 else Above(h.0, k.1 - 1) % 512
  }

  lemma InsideDown(r: Role, k: Key, i: nat)
    requires 0 < k.1 <= 2 && i < 512
    ensures Inside(r, Down(k, i)) <==> Inside(r, k) && EntryOf(r, k) == i && Home(r).value.0 != k
  {
    ChildOf(k.2, i);
    if Home(r).Some? {
      var h := Home(r).value.0;
      AboveStep(h, k, i);
    }
  }

  lemma AboveStep(h: Key, k: Key, i: nat)
    requires 0 < k.1 <= 2 && i < 512
    ensures Within(h, Down(k, i)) <==> Within(h, k) && h != k && Above(h, k.1 - 1) % 512 == i
  {
    ChildOf(k.2, i);
    if h.1 < k.1 {
      ChildBack(Above(h, k.1 - 1));
      assert Above(h, k.1) == Above(h, k.1 - 1) / 512;
    }
  }

  /** Every table on the way up exists. */
  lemma UpThere(m: Mem, h: Key, k: Key)
    requires Ok(m) && h in m.nodes && Within(h, k) && k.1 <= 2
    ensures k in m.nodes
    decreases k.1 - h.1
  {
    assert KeyOk(m, h);
    if h.1 < k.1 {
      UpThere(m, Up(h), k);
    }
  }

  lemma HomeThere(m: Mem, g: nat)
    requires Ok(m) && g in m.role && Home(m.role[g]).Some?
    ensures Home(m.role[g]).value.0 in m.nodes && Home(m.role[g]).value.0.1 <= 2 && Home(m.role[g]).value.1 < 512
  {
    assert FrameOk(m, g);
    if m.role[g].Node? { assert KeyOk(m, m.role[g].key); }
  }

  /** What hangs under one entry: nothing, one private page, or a table and all inside. */
  lemma UnderEntry(m: Mem, k: Key, i: nat, g: nat)
    requires Ok(m) && k in m.nodes && KeyOk(m, k) && i < 512 && g in m.role
    ensures var r, e := m.role[g], m.tabs[m.nodes[k]][i];
            Inside(r, k) && EntryOf(r, k) == i <==>
              match e
              case Empty => false
              case Leaf(p, _) => k.1 == 0 && g == p && p != Base(k, i)
              case Link(p) => k.1 > 0 && (g == p || Inside(r, Down(k, i)))
  {
    hide Base;
    var r, e := m.role[g], m.tabs[m.nodes[k]][i];
    assert EntryOk(m, k, i) && FrameOk(m, g);
    if k.1 > 0 { InsideDown(r, k, i); }
    if e.Link? { LinkRole(m, k, i); }
    if Inside(r, k) && EntryOf(r, k) == i {
      HomeThere(m, g);
      var h := Home(r).value.0;
      if h == k {
        HomeHere(m, k, i, g);
      } else {
        AboveStep(h, k, i);
        UpThere(m, h, Down(k, i));
      }
    }
    LeafRole(m, k, i);
  }

  lemma LinkRole(m: Mem, k: Key, i: nat)
    requires Ok(m) && k in m.nodes && KeyOk(m, k) && i < 512 && EntryOk(m, k, i) && m.tabs[m.nodes[k]][i].Link?
    ensures var p := m.tabs[m.nodes[k]][i].ppn;
            p in m.role && m.role[p] == Node(Down(k, i)) && k.1 > 0 && Home(m.role[p]) == Some((k, i))
  {
    UpDown(k, i);
    assert KeyOk(m, Down(k, i));
  }

  lemma LeafRole(m: Mem, k: Key, i: nat)
    requires Ok(m) && k in m.nodes && KeyOk(m, k) && i < 512 && EntryOk(m, k, i)
    ensures var e := m.tabs[m.nodes[k]][i];
            e.Leaf? && k.1 == 0 && e.ppn != Base(k, i) && e.ppn != 0 ==>
                e.ppn in m.role && Home(m.role[e.ppn]) == Some((k, i)) && Inside(m.role[e.ppn], k)
                && EntryOf(m.role[e.ppn], k) == i
  {
    ChildOf(k.2, i);
  }

  lemma HomeHere(m: Mem, k: Key, i: nat, g: nat)
    requires Ok(m) && k in m.nodes && KeyOk(m, k) && i < 512 && EntryOk(m, k, i) && g in m.role && FrameOk(m, g)
             && Home(m.role[g]) == Some((k, i))
    ensures var e := m.tabs[m.nodes[k]][i];
            (e.Link? && e.ppn == g) || (e.Leaf? && k.1 == 0 && e.ppn == g && g != Base(k, i))
  {
    match m.role[g] {
      case Node(c) =>
        assert KeyOk(m, c);
      case Page(root, v) =>
        ChildBack(v);
    }
  }

  /** The address space a frame belongs to, if it belongs to one. */
  predicate Owned(r: Role, root: nat) { (r.Node? && r.key.0 == root) || (r.Page? && r.root == root) }

  lemma RootInside(m: Mem, root: nat, g: nat)
    requires Ok(m) && (root, 2, 0) in m.nodes && g in m.role
    ensures Owned(m.role[g], root) <==> m.role[g] == Node((root, 2, 0)) || Inside(m.role[g], (root, 2, 0))
  {
    var r := m.role[g];
    assert FrameOk(m, g);
    if Home(r).Some? {
      HomeThere(m, g);
      ToTop(m, Home(r).value.0);
    } else if r.Node? {
      assert KeyOk(m, r.key);
    }
  }

  lemma ToTop(m: Mem, h: Key)
    requires Ok(m) && h in m.nodes
    ensures h.1 <= 2 && Above(h, 2) == 0
    decreases 2 - h.1
  {
    assert KeyOk(m, h);
    if h.1 < 2 { ToTop(m, Up(h)); }
  }

  /** Without one address space the rest is as it was. */
  lemma DropRoot(m: Mem, root: nat, role': map<nat, Role>)
    requires Ok(m) && (root, 2, 0) in m.nodes && role'.Keys == m.role.Keys
    requires forall g {:trigger role'[g]} ::
             g in m.role ==> role'[g] == if Owned(m.role[g], root) then Free else m.role[g]
    ensures Ok(Mem(m.tabs, role', map k | k in m.nodes && k.0 != root :: m.nodes[k]))
  {
    var m' := Mem(m.tabs, role', map k | k in m.nodes && k.0 != root :: m.nodes[k]);
    forall k | k in m'.nodes ensures KeyOk(m', k) {
      assert KeyOk(m, k);
      assert role'[m.nodes[k]] == m.role[m.nodes[k]];
      forall i | 0 <= i < 512 ensures EntryOk(m', k, i) {
        assert EntryOk(m, k, i);
        DropEntry(m, root, role', m', k, i);
      }
    }
    forall g | g in m'.role ensures FrameOk(m', g) { assert FrameOk(m, g) && role'[g] == role'[g]; }
  }

  lemma DropEntry(m: Mem, root: nat, role': map<nat, Role>, m': Mem, k: Key, i: nat)
    requires Ok(m) && role'.Keys == m.role.Keys
             && m' == Mem(m.tabs, role', map k | k in m.nodes && k.0 != root :: m.nodes[k])
    requires forall g {:trigger role'[g]} ::
             g in m.role ==> role'[g] == if Owned(m.role[g], root) then Free else m.role[g]
    requires k in m.nodes && k.0 != root && KeyOk(m, k) && i < 512 && EntryOk(m, k, i)
    ensures EntryOk(m', k, i)
  {
    var e := m.tabs[m.nodes[k]][i];
    if e.Leaf? && k.1 == 0 && e.ppn !in {0, Base(k, i)} { assert role'[e.ppn] == m.role[e.ppn]; }
  }
}
