/** What a FAT16 image describes: a tree of directories and files over disjoint
    cluster chains, as read from the first copy of the table. */
module FatTree {
  import opened Common
  import opened FatNames
  import opened FatScan
  import opened FatDisk

  /** An entry is named by its directory (the first cluster, 0 for the root) and its
      slot. */
  type Key = (nat, nat)

  /** The 32 bytes of the entry, the chain it heads, and a file's sectors. */
  datatype Entry = Entry(slot: Slot, chain: seq<nat>, body: seq<Sector>)

  datatype Tree = Tree(dirs: map<nat, seq<nat>>, ents: map<Key, Entry>, par: map<nat, Key>, depth: map<nat, nat>)

  /** The first two slots of every directory but the root describe itself. */
  predicate Self(k: Key) { k.0 != 0 && k.1 < 2 }

  ghost predicate Disjoint(a: seq<nat>, b: seq<nat>) {
    forall c :: c in a ==> c !in b
  }

  ghost predicate Owned(t: Tree, c: nat) {
    exists k :: k in t.ents && c in t.ents[k].chain
  }

  /** Where a chain starts; 0 for none, which is also the root directory's. */
  function Head(ch: seq<nat>): nat { if ch == [] then 0 else ch[0] }

  function Last(ch: seq<nat>): nat { if ch == [] then 0 else ch[|ch| - 1] }

  // ---- the tree itself

  ghost predicate DirShape(t: Tree, x: nat)
    requires x in t.dirs
  {
    && x in t.depth
    && (x == 0 ==> t.dirs[x] == [] && t.depth[x] == 0)
    && (x != 0 ==> && t.dirs[x] != [] && t.dirs[x][0] == x && x in t.par && t.par[x] in t.ents
                   && t.ents[t.par[x]].chain == t.dirs[x] && IsDir(t.ents[t.par[x]].slot)
                   && t.par[x].0 in t.dirs && t.par[x].0 in t.depth && t.depth[x] == t.depth[t.par[x].0] + 1)
  }

  ghost predicate EntShape(t: Tree, k: Key)
    requires k in t.ents
  {
    var e := t.ents[k];
    && k.0 in t.dirs && !Self(k) && Distinct(e.chain) && Short(e.slot)
    && First(e.slot) == (if e.chain == [] then 0 else e.chain[0])
    && (IsDir(e.slot) ==> && First(e.slot) != 0 && First(e.slot) in t.dirs && t.dirs[First(e.slot)] == e.chain
                          && First(e.slot) in t.par && t.par[First(e.slot)] == k)
  }

  ghost predicate Shape(t: Tree) {
    && 0 in t.dirs
    && (forall x {:trigger DirShape(t, x)} :: x in t.dirs ==> DirShape(t, x))
    && (forall k {:trigger EntShape(t, k)} :: k in t.ents ==> EntShape(t, k))
    && (forall k, k' {:trigger Disjoint(t.ents[k].chain, t.ents[k'].chain)} ::
          k in t.ents && k' in t.ents && k != k' ==> Disjoint(t.ents[k].chain, t.ents[k'].chain))
  }

  // ---- chains in the table

  ghost predicate LinkOk(tab: seq<nat>, ch: seq<nat>, j: nat)
    requires j < |ch|
  {
    && 2 <= ch[j] < |tab|
    && if j + 1 < |ch| then tab[ch[j]] == ch[j + 1] else tab[ch[j]] >= FAT_END
  }

  /** The table links ch from its first cluster to an end mark. */
  ghost predicate IsChain(tab: seq<nat>, ch: seq<nat>) {
    forall j: nat {:trigger LinkOk(tab, ch, j)} :: j < |ch| ==> LinkOk(tab, ch, j)
  }

  ghost function Table(g: Geo, d: Disk, f: nat): (tab: seq<nat>)
    requires g.Fits(d) && f < g.nfats
    ensures |tab| == g.Count()
  {
    seq(g.Count(), c requires 0 <= c < g.Count() => FatIn(g, d, f, c); FatAt(g, d, f, c))
  }

  /** The sectors of a chain, in order. */
  ghost function Body(g: Geo, d: Disk, ch: seq<nat>): (r: seq<Sector>)
    requires g.Fits(d) && ChainIn(g, ch)
    ensures |r| == |ch| * g.spc
  {
    if ch == [] then [] else
    seq(|ch| * g.spc, n requires 0 <= n < |ch| * g.spc => SecPlace(g, d, ch, n); d[SecLba(g, ch, n)])
  }

  // ---- the tree on a disk

  const DOT1: seq<byte> := [0x2E, 0x20, 0x20, 0x20, 0x20, 0x20, 0x20, 0x20, 0x20, 0x20, 0x20]
  const DOT2: seq<byte> := [0x2E, 0x2E, 0x20, 0x20, 0x20, 0x20, 0x20, 0x20, 0x20, 0x20, 0x20]

  predicate DotEntry(e: Slot, n11: seq<byte>, first: nat) {
    e[..11] == n11 && IsDir(e) && First(e) == first
  }

  ghost predicate EntOn(g: Geo, d: Disk, t: Tree, k: Key)
    requires g.Fits(d) && k in t.ents && k.0 in t.dirs && ChainIn(g, t.dirs[k.0]) && ChainIn(g, t.ents[k].chain)
  {
    var s, e := Slots(g, d, t.dirs[k.0]), t.ents[k];
    && Live(s, k.1) && s[k.1] == e.slot
    && (!IsDir(e.slot) ==> Body(g, d, e.chain) == e.body)
  }

  ghost predicate DirOn(g: Geo, d: Disk, t: Tree, x: nat)
    requires g.Fits(d) && x in t.dirs && ChainIn(g, t.dirs[x])
  {
    var s := Slots(g, d, t.dirs[x]);
    && (forall i: nat {:trigger Live(s, i)} :: Live(s, i) && !Self((x, i)) ==> (x, i) in t.ents)
    && (x != 0 ==>
        x in t.par && Live(s, 0) && Live(s, 1) && DotEntry(s[0], DOT1, x) && DotEntry(s[1], DOT2, t.par[x].0))
  }

  ghost predicate ChainsIn(g: Geo, t: Tree) {
    && (forall x {:trigger t.dirs[x]} :: x in t.dirs ==> ChainIn(g, t.dirs[x]))
    && (forall k {:trigger t.ents[k]} :: k in t.ents ==> k.0 in t.dirs && ChainIn(g, t.ents[k].chain))
  }

  ghost predicate OnDisk(g: Geo, d: Disk, t: Tree)
    requires g.Fits(d)
  {
    && ChainsIn(g, t)
    && (forall k {:trigger IsChain(Table(g, d, 0), t.ents[k].chain)} ::
        k in t.ents ==> IsChain(Table(g, d, 0), t.ents[k].chain))
    && (forall k {:trigger EntOn(g, d, t, k)} :: k in t.ents ==> EntOn(g, d, t, k))
    && (forall x {:trigger DirOn(g, d, t, x)} :: x in t.dirs ==> DirOn(g, d, t, x))
  }

  /** The image describes exactly the tree t: its entries, its chains, its bytes. */
  ghost predicate SafeWith(g: Geo, d: Disk, t: Tree) {
    g.Fits(d) && Shape(t) && OnDisk(g, d, t)
  }

  // ---- small facts

  lemma KeyFacts(g: Geo, d: Disk, t: Tree, k: Key)
    requires SafeWith(g, d, t) && k in t.ents
    ensures k.0 in t.dirs && ChainIn(g, t.dirs[k.0]) && ChainIn(g, t.ents[k].chain) && EntOn(g, d, t, k)
            && EntShape(t, k)
    ensures IsChain(Table(g, d, 0), t.ents[k].chain)
  {
    assert EntShape(t, k) && EntOn(g, d, t, k);
    assert IsChain(Table(g, d, 0), t.ents[k].chain);
  }

  lemma DirFacts(g: Geo, d: Disk, t: Tree, x: nat)
    requires SafeWith(g, d, t) && x in t.dirs
    ensures ChainIn(g, t.dirs[x]) && DirOn(g, d, t, x) && Distinct(t.dirs[x]) && DirShape(t, x)
    ensures IsChain(Table(g, d, 0), t.dirs[x])
  {
    assert DirShape(t, x) && DirOn(g, d, t, x);
    if x != 0 {
      assert EntShape(t, t.par[x]);
      assert IsChain(Table(g, d, 0), t.ents[t.par[x]].chain);
    }
  }

  /** Two different directories share no sector. */
  lemma DirsApart(t: Tree, x: nat, y: nat)
    requires Shape(t) && x in t.dirs && y in t.dirs && x != y
    ensures Apart(t.dirs[x], t.dirs[y])
  {
    hide EntShape;
    assert DirShape(t, x) && DirShape(t, y);
    if x != 0 && y != 0 {
      assert t.par[x] != t.par[y];
      assert Disjoint(t.ents[t.par[x]].chain, t.ents[t.par[y]].chain);
      assert forall i :: 0 <= i < |t.dirs[x]| ==> t.dirs[x][i] in t.dirs[x];
    }
  }

  /** A file shares no cluster with any directory. */
  lemma FileApart(t: Tree, k: Key, x: nat)
    requires Shape(t) && k in t.ents && x in t.dirs && !IsDir(t.ents[k].slot) && t.ents[k].chain != []
    ensures Apart(t.ents[k].chain, t.dirs[x])
  {
    assert DirShape(t, x);
    if x != 0 {
      assert t.par[x] != k;
      assert Disjoint(t.ents[k].chain, t.ents[t.par[x]].chain);
      assert forall i :: 0 <= i < |t.ents[k].chain| ==> t.ents[k].chain[i] in t.ents[k].chain;
    }
  }

  lemma {:induction false} ChainSame(tab: seq<nat>, a: seq<nat>, b: seq<nat>, n: nat)
    requires IsChain(tab, a) && IsChain(tab, b) && a != [] && b != [] && a[0] == b[0] && n < |a|
    requires |tab| <= FAT_END
    ensures n < |b| && a[n] == b[n]
    decreases n
  {
    if n > 0 {
      ChainSame(tab, a, b, n - 1);
      assert LinkOk(tab, a, n - 1) && LinkOk(tab, b, n - 1);
      assert LinkOk(tab, a, n);
    }
  }

  /** A first cluster has at most one chain. */
  lemma ChainUnique(tab: seq<nat>, a: seq<nat>, b: seq<nat>)
    requires IsChain(tab, a) && IsChain(tab, b) && a != [] && b != [] && a[0] == b[0] && |tab| <= FAT_END
    ensures a == b
  {
    ChainSame(tab, a, b, |a| - 1);
    ChainSame(tab, b, a, |b| - 1);
    forall n | 0 <= n < |a| ensures a[n] == b[n] {
      ChainSame(tab, a, b, n);
    }
  }

  /** No cluster of a chain is marked free. */
  lemma ChainTaken(tab: seq<nat>, ch: seq<nat>, j: nat)
    requires IsChain(tab, ch) && j < |ch|
    ensures 2 <= ch[j] < |tab| && tab[ch[j]] != FAT_FREE
  {
    assert LinkOk(tab, ch, j);
    if j + 1 < |ch| { assert LinkOk(tab, ch, j + 1); }
  }

  lemma ChainFrame(tab: seq<nat>, tab': seq<nat>, ch: seq<nat>)
    requires IsChain(tab, ch) && |tab'| == |tab| && forall c :: c in ch && 0 <= c < |tab| ==> tab'[c] == tab[c]
    ensures IsChain(tab', ch)
  {
    forall j: nat | j < |ch| ensures LinkOk(tab', ch, j) {
      assert LinkOk(tab, ch, j) && ch[j] in ch;
    }
  }

  // ---- one step from an image to the next

  /** Apart from the keys in ks, the same slots are live and hold the same bytes. */
  ghost predicate SlotsBut(s: seq<Slot>, s': seq<Slot>, x: nat, ks: set<Key>) {
    |s'| == |s| && forall i: nat {:trigger Live(s', i)} {:trigger Live(s, i)} ::
        (x, i) !in ks ==> (Live(s', i) <==> Live(s, i)) && (Live(s, i) ==> s'[i] == s[i])
  }

  /** Outside ks nothing of t changes on the disk. */
  ghost predicate Step(g: Geo, d: Disk, t: Tree, d': Disk, ks: set<Key>)
    requires g.Fits(d) && g.Fits(d') && ChainsIn(g, t)
  {
    && (forall k {:trigger IsChain(Table(g, d', 0), t.ents[k].chain)} ::
        k in t.ents && k !in ks ==> IsChain(Table(g, d', 0), t.ents[k].chain))
    && (forall k {:trigger Body(g, d', t.ents[k].chain)} :: k in t.ents && k !in ks && !IsDir(t.ents[k].slot) ==>
          Body(g, d', t.ents[k].chain) == Body(g, d, t.ents[k].chain))
    && (forall x {:trigger Slots(g, d', t.dirs[x])} ::
        x in t.dirs ==> SlotsBut(Slots(g, d, t.dirs[x]), Slots(g, d', t.dirs[x]), x, ks))
  }

  /** How t' may differ from t: at the keys ks, and by directories that are new. */
  ghost predicate Change(t: Tree, t': Tree, ks: set<Key>) {
    && (forall k {:trigger t'.ents[k]} ::
        k in t'.ents && k !in ks ==> k in t.ents && t'.ents[k] == t.ents[k] && k.0 in t.dirs)
    && (forall k {:trigger t.ents[k]} :: k in t.ents && k !in ks && k.0 in t'.dirs ==> k in t'.ents)
    && (forall x {:trigger t'.dirs[x]} ::
        x in t'.dirs && x in t.dirs ==>
        t'.dirs[x] == t.dirs[x] && (x != 0 ==> x in t.par && x in t'.par && t'.par[x] == t.par[x]))
  }

  lemma SafeStep(g: Geo, d: Disk, t: Tree, d': Disk, t': Tree, ks: set<Key>)
    requires SafeWith(g, d, t) && g.Fits(d') && Step(g, d, t, d', ks)
    requires Shape(t') && ChainsIn(g, t') && Change(t, t', ks)
    requires forall k {:trigger EntOn(g, d', t', k)} :: k in t'.ents && k in ks ==> EntOn(g, d', t', k)
    requires forall k {:trigger IsChain(Table(g, d', 0), t'.ents[k].chain)} ::
             k in t'.ents && k in ks ==> IsChain(Table(g, d', 0), t'.ents[k].chain)
    requires forall x {:trigger DirOn(g, d', t', x)} :: x in t'.dirs && x !in t.dirs ==> DirOn(g, d', t', x)
    requires forall k {:trigger Self(k)} ::
             k in ks && k.0 in t.dirs && k.0 in t'.dirs ==>
             !Self(k) && (Live(Slots(g, d', t.dirs[k.0]), k.1) ==> k in t'.ents)
    ensures SafeWith(g, d', t')
  {
    hide Shape, Live, DotEntry;
    forall k | k in t'.ents ensures IsChain(Table(g, d', 0), t'.ents[k].chain) && EntOn(g, d', t', k) {
      if k !in ks {
        KeyFacts(g, d, t, k);
        assert SlotsBut(Slots(g, d, t.dirs[k.0]), Slots(g, d', t.dirs[k.0]), k.0, ks);
        assert IsChain(Table(g, d', 0), t.ents[k].chain);
        assert t'.dirs[k.0] == t.dirs[k.0];
        var b := Body(g, d', t.ents[k].chain);
      }
    }
    forall x | x in t'.dirs ensures DirOn(g, d', t', x) {
      if x in t.dirs {
        DirFacts(g, d, t, x);
        StepDir(g, d, t, d', t', ks, x);
      }
    }
  }

  lemma StepDir(g: Geo, d: Disk, t: Tree, d': Disk, t': Tree, ks: set<Key>, x: nat)
    requires g.Fits(d) && g.Fits(d') && x in t.dirs && x in t'.dirs && ChainsIn(g, t) && ChainsIn(g, t')
    requires DirOn(g, d, t, x) && Change(t, t', ks) && SlotsBut(Slots(g, d, t.dirs[x]), Slots(g, d', t.dirs[x]), x, ks)
    requires forall k {:trigger Self(k)} ::
             k in ks && k.0 in t.dirs && k.0 in t'.dirs ==>
             !Self(k) && (Live(Slots(g, d', t.dirs[k.0]), k.1) ==> k in t'.ents)
    ensures DirOn(g, d', t', x)
  {
    hide Live, DotEntry, Slots;
    var s, s' := Slots(g, d, t.dirs[x]), Slots(g, d', t.dirs[x]);
    assert t'.dirs[x] == t.dirs[x];
    forall i: nat | Live(s', i) && !Self((x, i)) ensures (x, i) in t'.ents {
      if (x, i) !in ks {
        assert Live(s, i);
        assert t.ents[(x, i)] == t.ents[(x, i)];
      }
    }
    if x != 0 {
      assert Self((x, 0)) && Self((x, 1));
      assert Live(s', 0) && Live(s', 1);
    }
  }
}
