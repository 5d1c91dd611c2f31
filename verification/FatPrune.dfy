/** What fat16_remove leaves when it takes a name away: the tree without it and without
    whatever hung under it. */
module FatPrune {
  import opened FatNames
  import opened FatScan
  import opened FatDisk
  import opened FatTree
  import opened FatReach
  import opened FatSteps
  import opened FatCommit
  import opened FatFull

  /** Directory x is f or lies somewhere below it. */
  ghost predicate Under(t: Tree, x: nat, f: nat)
    requires Shape(t) && x in t.dirs
    decreases if x in t.depth then t.depth[x] else 0
  {
    assert DirShape(t, x);
    assert x != 0 ==> DirShape(t, t.par[x].0);
    x == f || (x != 0 && Under(t, t.par[x].0, f))
  }

  ghost predicate EntUnder(t: Tree, k: Key, f: nat)
    requires Shape(t)
  {
    k.0 in t.dirs && Under(t, k.0, f)
  }

  /** The tree without entry k and, if that was a directory, without all below it. */
  ghost function Pruned(t: Tree, k: Key): Tree
    requires Shape(t) && k in t.ents
  {
    if !IsDir(t.ents[k].slot) then t.(ents := t.ents - {k}) else
    var f := First(t.ents[k].slot);
    Tree(map x | x in t.dirs && !Under(t, x, f) :: t.dirs[x],
         map q | q in t.ents && q != k && !EntUnder(t, q, f) :: t.ents[q],
         map x | x in t.par && !(x in t.dirs && Under(t, x, f)) :: t.par[x],
         map x | x in t.depth && !(x in t.dirs && Under(t, x, f)) :: t.depth[x])
  }

  lemma {:induction false} UnderDeep(t: Tree, x: nat, f: nat)
    requires Shape(t) && x in t.dirs && f in t.dirs && Under(t, x, f)
    ensures x in t.depth && f in t.depth && t.depth[f] <= t.depth[x]
    decreases if x in t.depth then t.depth[x] else 0
  {
    hide EntShape;
    assert DirShape(t, x) && DirShape(t, f);
    if x != f {
      assert DirShape(t, t.par[x].0);
      UnderDeep(t, t.par[x].0, f);
    }
  }

  /** An entry does not lie below the directory it leads to. */
  lemma NotBelow(t: Tree, k: Key)
    requires Shape(t) && k in t.ents && IsDir(t.ents[k].slot)
    ensures var f := First(t.ents[k].slot);
            f != 0 && f in t.dirs && k.0 in t.dirs && !Under(t, k.0, f) && !Under(t, 0, f)
  {
    assert EntShape(t, k);
    var f := First(t.ents[k].slot);
    assert DirShape(t, f) && DirShape(t, k.0);
    if Under(t, k.0, f) { UnderDeep(t, k.0, f); }
  }

  lemma PruneDir(t: Tree, k: Key, x: nat)
    requires Shape(t) && k in t.ents && IsDir(t.ents[k].slot) && x in Pruned(t, k).dirs
    ensures DirShape(Pruned(t, k), x)
  {
    hide Shape, First, Distinct, Short;
    NotBelow(t, k);
    ShapeAt(t, x, k);
    if x != 0 { ShapeAt(t, t.par[x].0, t.par[x]); }
  }

  lemma ShapeAt(t: Tree, x: nat, k: Key)
    requires Shape(t) && x in t.dirs && k in t.ents
    ensures DirShape(t, x) && EntShape(t, k)
  {
    assert DirShape(t, x) && EntShape(t, k);
  }

  lemma PruneEnt(t: Tree, k: Key, q: Key)
    requires Shape(t) && k in t.ents && IsDir(t.ents[k].slot) && q in Pruned(t, k).ents
    ensures EntShape(Pruned(t, k), q)
  {
    hide Shape, Distinct, Short;
    NotBelow(t, k);
    ShapeAt(t, k.0, k);
    ShapeAt(t, k.0, q);
    if IsDir(t.ents[q].slot) { ShapeAt(t, First(t.ents[q].slot), q); }
  }

  lemma PruneShape(t: Tree, k: Key)
    requires Shape(t) && k in t.ents
    ensures Shape(Pruned(t, k))
  {
    hide Disjoint, Distinct, Short, First, IsDir, DirShape, EntShape;
    var t' := Pruned(t, k);
    if IsDir(t.ents[k].slot) {
      NotBelow(t, k);
      forall x | x in t'.dirs ensures DirShape(t', x) { PruneDir(t, k, x); }
      forall q | q in t'.ents ensures EntShape(t', q) { PruneEnt(t, k, q); }
    } else {
      PruneFile(t, k);
    }
    forall q, r | q in t'.ents && r in t'.ents && q != r ensures Disjoint(t'.ents[q].chain, t'.ents[r].chain) {
      assert Disjoint(t.ents[q].chain, t.ents[r].chain);
    }
  }

  lemma PruneFile(t: Tree, k: Key)
    requires Shape(t) && k in t.ents && !IsDir(t.ents[k].slot)
    ensures (forall x :: x in t.dirs ==> DirShape(Pruned(t, k), x))
            && forall q :: q in Pruned(t, k).ents ==> EntShape(Pruned(t, k), q)
  {
    hide Distinct, Short, First;
    var t' := Pruned(t, k);
    forall x | x in t.dirs ensures DirShape(t', x) { assert DirShape(t, x); }
    forall q | q in t'.ents ensures EntShape(t', q) { assert EntShape(t, q); }
  }

  lemma ChangePrune(t: Tree, k: Key)
    requires Shape(t) && k in t.ents
    ensures Change(t, Pruned(t, k), {k})
  {
    hide Under;
    ChangeNone(t);
  }

  /** An entry disappears: the image describes what is left. */
  lemma SafePrune(g: Geo, d: Disk, t: Tree, x: nat, i: nat, e: Slot)
    requires SafeWith(g, d, t) && x in t.dirs && i < |Slots(g, d, t.dirs[x])| && (x, i) in t.ents
    requires var s := Slots(g, d, t.dirs[x]); SlotsBut(s, s[i := e], x, {(x, i)}) && !Live(s[i := e], i)
    ensures SecLba(g, t.dirs[x], i / SLOTS_PER_SEC) < |d|
    ensures SafeWith(g, PutSlot(g, d, t.dirs[x], i, e), Pruned(t, (x, i)))
  {
    hide Shape, Step, OnDisk, Slots, SlotsBut, PutSlot, Table, SecLba, IsChain, Body, EntOn, DirOn, First, IsDir,
        EndOf, Distinct, Live, Pruned;
    var k := (x, i);
    TreeChains(g, d, t);
    KeyFacts(g, d, t, k);
    SlotStep(g, d, t, x, i, e, {k});
    PruneShape(t, k);
    ChangePrune(t, k);
    PruneChains(g, t, k);
    SafeStep(g, d, t, PutSlot(g, d, t.dirs[x], i, e), Pruned(t, k), {k});
  }

  lemma PruneChains(g: Geo, t: Tree, k: Key)
    requires Shape(t) && k in t.ents && ChainsIn(g, t)
    ensures ChainsIn(g, Pruned(t, k)) && k !in Pruned(t, k).ents && forall x :: x in Pruned(t, k).dirs ==> x in t.dirs
  {
    hide Under;
  }

  /** The chain of a pruned entry is nobody's. */
  lemma PrunedFree(t: Tree, k: Key, c: nat)
    requires Shape(t) && k in t.ents && c in t.ents[k].chain
    ensures !Owned(Pruned(t, k), c)
  {
    hide DirShape, EntShape, Under;
    var t' := Pruned(t, k);
    forall q | q in t'.ents ensures c !in t'.ents[q].chain {
      assert Disjoint(t.ents[q].chain, t.ents[k].chain);
    }
  }

  // ---- directories with nothing in them

  /** Something in directory f has clusters. */
  ghost predicate Leaks(t: Tree, f: nat) { exists q :: q in t.ents && q.0 == f && t.ents[q].chain != [] }

  lemma {:induction false} FlatUnder(t: Tree, x: nat, f: nat)
    requires Shape(t) && x in t.dirs && Under(t, x, f) && !Leaks(t, f)
    ensures x == f
    decreases if x in t.depth then t.depth[x] else 0
  {
    hide EntShape;
    assert DirShape(t, x);
    if x != f {
      assert DirShape(t, t.par[x].0);
      FlatUnder(t, t.par[x].0, f);
    }
  }

  lemma PrunedOwned(t: Tree, k: Key, c: nat)
    requires Shape(t) && k in t.ents && (IsDir(t.ents[k].slot) ==> !Leaks(t, First(t.ents[k].slot)))
    ensures Owned(Pruned(t, k), c) <==> Owned(t, c) && c !in t.ents[k].chain
  {
    hide DirShape, EntShape, Under;
    var t' := Pruned(t, k);
    if c in t.ents[k].chain { PrunedFree(t, k, c); }
    if Owned(t', c) {
      var q :| q in t'.ents && c in t'.ents[q].chain;
      assert q in t.ents && c in t.ents[q].chain;
    }
    if Owned(t, c) && c !in t.ents[k].chain {
      var q :| q in t.ents && c in t.ents[q].chain;
      if IsDir(t.ents[k].slot) && EntUnder(t, q, First(t.ents[k].slot)) { FlatUnder(t, q.0, First(t.ents[k].slot)); }
      assert q in t'.ents && t'.ents[q] == t.ents[q];
    }
  }

  lemma ExactPrune(tab: seq<nat>, t: Tree, k: Key)
    requires Shape(t) && Exact(tab, t) && k in t.ents && (IsDir(t.ents[k].slot) ==> !Leaks(t, First(t.ents[k].slot)))
    ensures Exact(FreedTab(tab, t.ents[k].chain), Pruned(t, k))
  {
    hide Shape, Owned, Pruned, Leaks;
    forall c | 2 <= c < |tab| ensures FreedTab(tab, t.ents[k].chain)[c] != FAT_FREE <==> Owned(Pruned(t, k), c) {
      PrunedOwned(t, k, c);
    }
  }

  /** fat16_remove with nothing lost. */
  lemma FullPrune(g: Geo, d0: Disk, d2: Disk, t: Tree, x: nat, y: Item)
    requires Full(g, d0, t) && g.Fits(d0) && ChainsIn(g, t) && x in t.dirs && (x, y.idx) in t.ents && Shape(t)
             && SafeWith(g, d2, Pruned(t, (x, y.idx)))
    requires IsDir(t.ents[(x, y.idx)].slot) ==> !Leaks(t, First(t.ents[(x, y.idx)].slot))
    requires y in Listing(Slots(g, d0, t.dirs[x])) && g.Fits(d2)
             && Slots(g, d2, t.dirs[x]) == Erased(Slots(g, d0, t.dirs[x]), y.chain, y.idx)
    requires forall z {:trigger t.dirs[z]} ::
             z in t.dirs && z != x ==> Slots(g, d2, t.dirs[z]) == Slots(g, d0, t.dirs[z])
    requires forall f {:trigger Table(g, d2, f)} ::
             0 <= f < g.nfats ==> Table(g, d2, f) == FreedTab(Table(g, d0, f), t.ents[(x, y.idx)].chain)
    ensures Full(g, d2, Pruned(t, (x, y.idx)))
  {
    hide SafeWith, Slots, Table, Body, Tidy, Exact, Sized, FreedTab, Shape, Listing, Erased, First, IsDir, Under, Leaks;
    var k := (x, y.idx);
    var t' := Pruned(t, k);
    forall f | 0 <= f < g.nfats ensures Table(g, d2, f) == Table(g, d2, 0) {
      assert Table(g, d0, f) == Table(g, d0, 0);
    }
    assert Table(g, d2, 0) == FreedTab(Table(g, d0, 0), t.ents[k].chain);
    ExactPrune(Table(g, d0, 0), t, k);
    forall q | q in t'.ents ensures Sized(g, t'.ents[q]) { assert Sized(g, t.ents[q]); }
    assert TidyAt(g, d0, t, x);
    var pre, post := EraseList(Slots(g, d0, t.dirs[x]), y);
    FullNext(g, d0, t, d2, t', x);
  }

  /** And with something lost: a cluster is marked that no tree on the image accounts for. */
  lemma LeakLost(g: Geo, d0: Disk, d2: Disk, t: Tree, k: Key, t': Tree)
    requires SafeWith(g, d0, t) && k in t.ents && IsDir(t.ents[k].slot) && Leaks(t, First(t.ents[k].slot))
    requires g.Fits(d0) && g.Fits(d2) && Shape(t) && SafeWith(g, d2, Pruned(t, k))
             && Table(g, d2, 0) == FreedTab(Table(g, d0, 0), t.ents[k].chain)
    ensures !Full(g, d2, t')
  {
    hide Slots, Table, Body, IsChain, Shape, First, IsDir, Under, OnDisk, Sized, TidyAt, Copies, Pruned;
    var q :| q in t.ents && q.0 == First(t.ents[k].slot) && t.ents[q].chain != [];
    var c := t.ents[q].chain[0];
    KeyFacts(g, d0, t, q);
    ChainTaken(Table(g, d0, 0), t.ents[q].chain, 0);
    LostGone(t, k, q);
    if Full(g, d2, t') {
      assert Owned(t', c);
      var r :| r in t'.ents && c in t'.ents[r].chain;
      SameEntries(g, d2, t', Pruned(t, k), r);
      LostNot(t, k, q, r, c);
    }
  }

  lemma LostGone(t: Tree, k: Key, q: Key)
    requires Shape(t) && k in t.ents && IsDir(t.ents[k].slot) && q in t.ents && q.0 == First(t.ents[k].slot)
    ensures q !in Pruned(t, k).ents && q != k && Disjoint(t.ents[q].chain, t.ents[k].chain)
  {
    hide EntShape, DirShape;
    NotBelow(t, k);
    assert Under(t, q.0, q.0);
    assert q != k;
    assert Disjoint(t.ents[q].chain, t.ents[k].chain);
  }

  lemma LostNot(t: Tree, k: Key, q: Key, r: Key, c: nat)
    requires Shape(t) && k in t.ents && q in t.ents && q !in Pruned(t, k).ents && r in Pruned(t, k).ents
             && c in Pruned(t, k).ents[r].chain
    ensures c !in t.ents[q].chain
  {
    hide EntShape, DirShape, Under;
    assert r != q;
    assert Disjoint(t.ents[r].chain, t.ents[q].chain);
  }

  // ---- an entry of a directory about itself erased

  /** Directories above level n are as they were, slots and links. */
  ghost predicate KeptAbove(g: Geo, d: Disk, t: Tree, d': Disk, n: nat)
    requires g.Fits(d) && g.Fits(d') && ChainsIn(g, t)
  {
    forall y {:trigger t.dirs[y]} ::
        y in t.dirs && y in t.depth && t.depth[y] < n ==>
        Slots(g, d', t.dirs[y]) == Slots(g, d, t.dirs[y]) && IsChain(Table(g, d', 0), t.dirs[y])
  }

  lemma EntersStill(g: Geo, d: Disk, t: Tree, d': Disk, y: nat)
    requires SafeWith(g, d, t) && g.Fits(d) && g.Fits(d') && ChainsIn(g, t) && y in t.dirs && y != 0
    requires y in t.par && t.par[y].0 in t.dirs && Slots(g, d', t.dirs[t.par[y].0]) == Slots(g, d, t.dirs[t.par[y].0])
             && IsChain(Table(g, d', 0), t.dirs[y])
    ensures Enters(g, d', t.dirs[t.par[y].0], t.par[y].1, t.dirs[y])
  {
    hide Slots, Table, Body, Live, IsChain, Shape, Distinct, First, IsDir;
    var k := t.par[y];
    DirFacts(g, d, t, y);
    DirFacts(g, d, t, k.0);
    KeyFacts(g, d, t, k);
  }

  lemma {:induction false} StillReached(g: Geo, d: Disk, t: Tree, d': Disk, n: nat, y: nat, m: nat)
      returns (steps: seq<nat>)
    requires SafeWith(g, d, t) && g.Fits(d) && g.Fits(d') && ChainsIn(g, t) && KeptAbove(g, d, t, d', n)
    requires y in t.dirs && y in t.depth && t.depth[y] == m < n
    ensures Reaches(g, d', steps, t.dirs[y])
    decreases m
  {
    hide Slots, Table, Live, IsChain, Shape, Distinct, First, IsDir, OnDisk, Enters, DirOn, EntOn;
    DirFacts(g, d, t, y);
    if y == 0 {
      steps := [];
    } else {
      var k := t.par[y];
      var s := StillReached(g, d, t, d', n, k.0, t.depth[k.0]);
      steps := s + [k.1];
      assert t.dirs[k.0] == t.dirs[k.0] && t.dirs[y] == t.dirs[y];
      EntersStill(g, d, t, d', y);
      ReachStep(g, d', s, t.dirs[k.0], k.1, t.dirs[y]);
    }
  }

  /** A directory whose entry still stands and whose first cluster is marked free: no tree
      describes the image. */
  lemma VictimLost(g: Geo, d: Disk, t: Tree, d': Disk, z: nat, t': Tree)
    requires SafeWith(g, d, t) && g.Fits(d) && g.Fits(d') && ChainsIn(g, t) && z in t.dirs && z != 0 && z in t.depth
             && KeptAbove(g, d, t, d', t.depth[z])
    requires z < g.Count() && Table(g, d', 0)[z] == FAT_FREE
    ensures !SafeWith(g, d', t')
  {
    hide Slots, Table, Body, Live, IsChain, Distinct, First, IsDir, OnDisk, Shape, Reaches;
    DirFacts(g, d, t, z);
    var k := t.par[z];
    KeyFacts(g, d, t, k);
    DirFacts(g, d, t, k.0);
    var steps := StillReached(g, d, t, d', t.depth[z], k.0, t.depth[k.0]);
    assert t.dirs[k.0] == t.dirs[k.0];
    if SafeWith(g, d', t') {
      CrashChains(g, d', t', steps, t.dirs[k.0], k.1);
    }
  }

  /** A directory that no longer says where it came from: again none does. */
  lemma OrphanLost(g: Geo, d: Disk, t: Tree, d': Disk, x: nat, t': Tree)
    requires SafeWith(g, d, t) && g.Fits(d) && g.Fits(d') && ChainsIn(g, t) && x in t.dirs && x != 0 && x in t.depth
             && KeptAbove(g, d, t, d', t.depth[x])
    requires IsChain(Table(g, d', 0), t.dirs[x]) && !Live(Slots(g, d', t.dirs[x]), 1)
    ensures !SafeWith(g, d', t')
  {
    hide Slots, Table, Body, Live, IsChain, Distinct, First, IsDir, OnDisk, Shape, Enters;
    DirFacts(g, d, t, x);
    var k := t.par[x];
    var steps := StillReached(g, d, t, d', t.depth[x], k.0, t.depth[k.0]);
    assert t.dirs[k.0] == t.dirs[k.0];
    EntersStill(g, d, t, d', x);
    ReachStep(g, d', steps, t.dirs[k.0], k.1, t.dirs[x]);
    if SafeWith(g, d', t') {
      ReachIn(g, d', t', steps + [k.1], t.dirs[x]);
      DirFacts(g, d', t', x);
    }
  }
}
