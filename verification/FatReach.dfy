/** What anyone reading an image alone would find on it, and that it is one tree's worth. */
module FatReach {
  import opened FatNames
  import opened FatScan
  import opened FatDisk
  import opened FatTree

  /** Starting at the root and entering directories by the slots listed in steps leads to
      the directory whose chain is ch: what anyone reading the image alone would find. */
  ghost predicate Reaches(g: Geo, d: Disk, steps: seq<nat>, ch: seq<nat>)
    requires g.Fits(d)
  {
    if steps == [] then ch == [] else
    exists up :: Reaches(g, d, steps[..|steps| - 1], up) && Enters(g, d, up, Last(steps), ch)
  }

  /** Slot i of the directory up is an entry of the directory ch, and not one of the two
      that lead back. */
  ghost predicate Enters(g: Geo, d: Disk, up: seq<nat>, i: nat, ch: seq<nat>)
    requires g.Fits(d)
  {
    && ChainIn(g, up) && IsEntry(g, d, up, i) && IsDir(Slots(g, d, up)[i])
    && ch != [] && First(Slots(g, d, up)[i]) == ch[0] && IsChain(Table(g, d, 0), ch)
  }

  ghost predicate IsEntry(g: Geo, d: Disk, up: seq<nat>, i: nat)
    requires g.Fits(d) && ChainIn(g, up)
  {
    Live(Slots(g, d, up), i) && !Self((Head(up), i))
  }

  lemma ReachStep(g: Geo, d: Disk, steps: seq<nat>, up: seq<nat>, i: nat, ch: seq<nat>)
    requires g.Fits(d) && Reaches(g, d, steps, up) && Enters(g, d, up, i, ch)
    ensures Reaches(g, d, steps + [i], ch)
  {
    hide Enters;
    var more := steps + [i];
    assert more[..|more| - 1] == steps && Last(more) == i;
  }

  /** Every directory that can be reached is one of the tree's. */
  lemma {:induction false} ReachIn(g: Geo, d: Disk, t: Tree, steps: seq<nat>, ch: seq<nat>)
    requires SafeWith(g, d, t) && g.Fits(d) && Reaches(g, d, steps, ch)
    ensures Head(ch) in t.dirs && t.dirs[Head(ch)] == ch
    decreases |steps|
  {
    hide Slots, Table, Body, IsDir, First, Live, IsChain, Shape;
    if steps == [] {
      DirFacts0(t);
    } else {
      var up :| Reaches(g, d, steps[..|steps| - 1], up) && Enters(g, d, up, Last(steps), ch);
      ReachIn(g, d, t, steps[..|steps| - 1], up);
      var x, i := Head(up), Last(steps);
      DirFacts(g, d, t, x);
      assert (x, i) in t.ents;
      KeyFacts(g, d, t, (x, i));
      ChainUnique(Table(g, d, 0), ch, t.ents[(x, i)].chain);
    }
  }

  lemma DirFacts0(t: Tree)
    requires Shape(t)
    ensures 0 in t.dirs && t.dirs[0] == []
  {
    assert DirShape(t, 0);
  }

  /** The promise of fat16_write's ordering, about any image a crash can leave: an entry
      that can be reached heads no cluster marked free, and its chain is whole. */
  lemma CrashChains(g: Geo, d: Disk, t: Tree, steps: seq<nat>, up: seq<nat>, i: nat)
    requires SafeWith(g, d, t) && g.Fits(d) && Reaches(g, d, steps, up) && ChainIn(g, up) && IsEntry(g, d, up, i)
    ensures var first := First(Slots(g, d, up)[i]);
            || (first == 0 && !IsDir(Slots(g, d, up)[i]))
            || (Clus(g, first) && Table(g, d, 0)[first] != FAT_FREE
                && exists ch :: ch != [] && ch[0] == first && IsChain(Table(g, d, 0), ch) && Distinct(ch))
  {
    hide Slots, Table, Body, First, Live, IsChain, Shape, Distinct;
    ReachIn(g, d, t, steps, up);
    var k := (Head(up), i);
    DirFacts(g, d, t, k.0);
    assert k in t.ents;
    KeyFacts(g, d, t, k);
    if t.ents[k].chain != [] { ChainTaken(Table(g, d, 0), t.ents[k].chain, 0); }
  }

  /** And no cluster is in the chains of two of them. */
  lemma CrashApart(g: Geo, d: Disk, t: Tree, steps: seq<nat>, up: seq<nat>, i: nat, ch: seq<nat>, steps': seq<nat>,
      up': seq<nat>, i': nat, ch': seq<nat>)
    requires SafeWith(g, d, t) && g.Fits(d)
    requires Reaches(g, d, steps, up) && ChainIn(g, up) && IsEntry(g, d, up, i) && ch != []
             && IsChain(Table(g, d, 0), ch) && ch[0] == First(Slots(g, d, up)[i])
    requires Reaches(g, d, steps', up') && ChainIn(g, up') && IsEntry(g, d, up', i') && ch' != []
             && IsChain(Table(g, d, 0), ch') && ch'[0] == First(Slots(g, d, up')[i'])
    requires (up, i) != (up', i')
    ensures Disjoint(ch, ch')
  {
    hide Slots, Table, Body, First, Live, IsChain, Shape, Disjoint, Distinct;
    ReachIn(g, d, t, steps, up);
    ReachIn(g, d, t, steps', up');
    var k, k' := (Head(up), i), (Head(up'), i');
    EntryChain(g, d, t, up, i, ch);
    EntryChain(g, d, t, up', i', ch');
    ShapeApart(t, k, k');
  }

  lemma EntryChain(g: Geo, d: Disk, t: Tree, up: seq<nat>, i: nat, ch: seq<nat>)
    requires SafeWith(g, d, t) && g.Fits(d) && ChainIn(g, up) && Head(up) in t.dirs && t.dirs[Head(up)] == up
             && IsEntry(g, d, up, i)
    requires ch != [] && IsChain(Table(g, d, 0), ch) && ch[0] == First(Slots(g, d, up)[i])
    ensures (Head(up), i) in t.ents && t.ents[(Head(up), i)].chain == ch
  {
    hide Slots, Table, Body, First, Live, IsChain, Shape, Distinct;
    var k := (Head(up), i);
    DirFacts(g, d, t, k.0);
    assert k in t.ents;
    KeyFacts(g, d, t, k);
    ChainPos(Table(g, d, 0), ch);
    ChainUnique(Table(g, d, 0), ch, t.ents[k].chain);
  }

  lemma ChainPos(tab: seq<nat>, ch: seq<nat>)
    requires IsChain(tab, ch) && ch != []
    ensures ch[0] >= 2
  {
    assert LinkOk(tab, ch, 0);
  }

  lemma ShapeApart(t: Tree, k: Key, k': Key)
    requires Shape(t) && k in t.ents && k' in t.ents && k != k'
    ensures Disjoint(t.ents[k].chain, t.ents[k'].chain)
  {
    assert Disjoint(t.ents[k].chain, t.ents[k'].chain);
  }

  /** Nothing of the tree is out of reach: every directory is some steps away. */
  lemma {:induction false} AllReached(g: Geo, d: Disk, t: Tree, x: nat, n: nat) returns (steps: seq<nat>)
    requires SafeWith(g, d, t) && g.Fits(d) && x in t.dirs && x in t.depth && t.depth[x] == n
    ensures Reaches(g, d, steps, t.dirs[x])
    decreases n
  {
    hide Slots, Table, Body, Live, IsChain, Shape, Distinct;
    DirFacts(g, d, t, x);
    if x == 0 {
      steps := [];
    } else {
      var k := t.par[x];
      var s := AllReached(g, d, t, k.0, t.depth[k.0]);
      steps := s + [k.1];
      DirFacts(g, d, t, k.0);
      KeyFacts(g, d, t, k);
      ReachStep(g, d, s, t.dirs[k.0], k.1, t.dirs[x]);
    }
  }

  /** An image describes one tree at most: whatever trees are found on it have the same
      entries. */
  lemma SameEntries(g: Geo, d: Disk, t: Tree, t': Tree, k: Key)
    requires SafeWith(g, d, t) && SafeWith(g, d, t') && k in t.ents
    ensures k in t'.ents && t'.ents[k].chain == t.ents[k].chain && t'.ents[k].slot == t.ents[k].slot
  {
    hide Slots, Table, Body, First, Live, IsChain, Shape, Distinct, IsDir, Reaches;
    KeyFacts(g, d, t, k);
    DirFacts(g, d, t, k.0);
    var steps := AllReached(g, d, t, k.0, t.depth[k.0]);
    ReachIn(g, d, t', steps, t.dirs[k.0]);
    DirFacts(g, d, t', k.0);
    assert k in t'.ents;
    KeyFacts(g, d, t', k);
    HeadChain(g, d, t.ents[k].chain, t'.ents[k].chain);
  }

  lemma HeadChain(g: Geo, d: Disk, a: seq<nat>, b: seq<nat>)
    requires g.Fits(d) && IsChain(Table(g, d, 0), a) && IsChain(Table(g, d, 0), b) && Head(a) == Head(b)
    ensures a == b
  {
    hide Table, IsChain;
    if a != [] { ChainPos(Table(g, d, 0), a); }
    if b != [] { ChainPos(Table(g, d, 0), b); }
    if a != [] { ChainUnique(Table(g, d, 0), a, b); }
  }
}
