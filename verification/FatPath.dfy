/** Paths on a FAT16 volume, and what a crash can leave of one. */
module FatPath {
  import opened Common
  import opened FatNames
  import opened FatScan
  import opened FatDisk
  import opened FatTree
  import opened FatPrune
  import opened FatCommit
  import opened FatFull
  import opened FatCreate
  import opened FatBuild
  import opened FatResult
  import opened FatVolume
  import opened FatWalk

  /** A freshly formatted volume meets everything asked of one. */
  lemma Formatted(g: Geo, d: Disk)
    requires g.Fits(d) && Copies(g, d)
    requires forall c :: 2 <= c < g.Count() ==> Table(g, d, 0)[c] == FAT_FREE
    requires ChainIn(g, []) && forall i :: 0 <= i < |Slots(g, d, [])| ==> Slots(g, d, [])[i][0] == 0
    ensures Full(g, d, Tree(map[0 := []], map[], map[], map[0 := 0]))
  {
    hide Slots, Table;
    var t, s := Tree(map[0 := []], map[], map[], map[0 := 0]), Slots(g, d, []);
    EndIs(s, 0, 0);
    assert StTo(s, 0).NoChain?;
    assert TidyAt(g, d, t, 0) && DirShape(t, 0) && DirOn(g, d, t, 0);
  }

  // ---- the calls a user of the volume makes

  /** resolve. */
  method Resolve(v: Volume, path: seq<byte>) returns (r: Option<(nat, seq<byte>)>)
    requires v.Steady() && NoZero(path)
    modifies v`cacheOk, v`cacheLba, v`cache
    ensures v.Steady() && SafeWith(v.g, v.disk, v.tree) && 0 in v.tree.dirs
            && r == Walk(v.g, v.disk, v.tree, 0, Skip(path))
  {
    hide Slots, SafeWith, Lookup, IsDir, First, LogOk, Coherent;
    TreeFits(v.g, v.disk, v.tree);
    var dir := 0;
    var p := SkipSlashes(path);
    while p != []
      invariant v.Steady() && dir in v.tree.dirs && (p == [] || p[0] != SLASH)
      invariant Walk(v.g, v.disk, v.tree, dir, p) == Walk(v.g, v.disk, v.tree, 0, Skip(path))
      decreases |p|
    {
      var n := 0;
      while n < |p| && p[n] != SLASH && n < NAME_MAX - 1
        invariant n <= |p| && n < NAME_MAX && CompLen(p, n) == CompLen(p, 0)
      {
        n := n + 1;
      }
      var comp := p[..n];
      var rest := SkipSlashes(p[n..]);
      if rest == [] { return Some((dir, comp)); }
      var y := v.DirLookup(dir, comp);
      if y.None? || !IsDir(y.value.ent) { return None; }
      LookupIn(Slots(v.g, v.disk, v.tree.dirs[dir]), comp);
      StepIn(v.g, v.disk, v.tree, dir, y.value);
      dir, p := First(y.value.ent), rest;
    }
    r := Some((dir, []));
  }

  method SkipSlashes(p: seq<byte>) returns (r: seq<byte>)
    ensures r == Skip(p)
  {
    r := p;
    while r != [] && r[0] == SLASH
      invariant Skip(r) == Skip(p)
      decreases |r|
    {
      r := r[1..];
    }
  }

  /** Where a path ends, if it ends at a name. */
  ghost function Leaf(v: Volume, path: seq<byte>): (r: Option<(nat, seq<byte>)>)
    requires v.Steady() && NoZero(path)
    reads v
    ensures r.Some? ==> r.value.0 in v.tree.dirs && r.value.1 != [] && NoZero(r.value.1) && |r.value.1| < NAME_MAX
  {
    TreeFits(v.g, v.disk, v.tree);
    var w := Walk(v.g, v.disk, v.tree, 0, Skip(path));
    if w.Some? && w.value.1 != [] then w else None
  }

  /** fat16_read: the bytes of the file the path leads to. */
  method Read(v: Volume, path: seq<byte>, maxlen: nat) returns (r: Option<seq<byte>>)
    requires v.Valid() && NoZero(path)
    modifies v`cacheOk, v`cacheLba, v`cache
    ensures v.Valid()
    ensures var c := Contents(v.g, v.disk, v.tree, path); r == if c.Some? && |c.value| <= maxlen then c else None
  {
    hide Slots, SafeWith, Lookup, IsDir, First, Size, LogOk, Coherent, Full, Walk, HasData, Held;
    TreeFits(v.g, v.disk, v.tree);
    var w := Resolve(v, path);
    if w.None? || w.value.1 == [] { return None; }
    r := v.ReadLeaf(w.value.0, w.value.1, maxlen);
    HeldIs(v.g, v.disk, v.tree, w.value.0, w.value.1, maxlen, r);
  }

  lemma HeldIs(g: Geo, d: Disk, t: Tree, x: nat, leaf: seq<byte>, maxlen: nat, r: Option<seq<byte>>)
    requires Full(g, d, t) && SafeWith(g, d, t) && g.Fits(d) && ChainsIn(g, t) && x in t.dirs
    requires var y := Lookup(Slots(g, d, t.dirs[x]), leaf);
             r.Some? <==> y.Some? && !IsDir(y.value.ent) && Size(y.value.ent) <= maxlen
    requires r.Some? ==> var k := (x, Lookup(Slots(g, d, t.dirs[x]), leaf).value.idx);
             k in t.ents && HasData(t.ents[k], r.value)
    ensures var c := Held(g, d, t, x, leaf); r == if c.Some? && |c.value| <= maxlen then c else None
  {
    hide Slots, SafeWith, Lookup, IsDir, First, Size, Full, FileBytes, Listing;
    var s := Slots(g, d, t.dirs[x]);
    LookupIn(s, leaf);
    if Lookup(s, leaf).Some? {
      var y := Lookup(s, leaf).value;
      ListedFile(g, d, t, x, y);
      if !IsDir(y.ent) { FileFacts(g, d, t, (x, y.idx)); }
    }
  }

  /** fat16_size: how much a read would find. */
  method FileSize(v: Volume, path: seq<byte>) returns (r: int)
    requires v.Valid() && NoZero(path)
    modifies v`cacheOk, v`cacheLba, v`cache
    ensures v.Valid()
    ensures var c := Contents(v.g, v.disk, v.tree, path); r == if c.Some? then |c.value| else -1
  {
    hide Slots, SafeWith, Lookup, IsDir, First, Size, LogOk, Coherent, Full, Walk, HasData, Held;
    TreeFits(v.g, v.disk, v.tree);
    var w := Resolve(v, path);
    if w.None? || w.value.1 == [] { return -1; }
    r := v.SizeLeaf(w.value.0, w.value.1);
    HeldSize(v.g, v.disk, v.tree, w.value.0, w.value.1);
  }

  lemma HeldSize(g: Geo, d: Disk, t: Tree, x: nat, leaf: seq<byte>)
    requires Full(g, d, t) && SafeWith(g, d, t) && g.Fits(d) && ChainsIn(g, t) && x in t.dirs
    ensures var y, c := Lookup(Slots(g, d, t.dirs[x]), leaf), Held(g, d, t, x, leaf);
            && (c.Some? <==> y.Some? && !IsDir(y.value.ent)) && (c.Some? ==> |c.value| == Size(y.value.ent))
  {
    hide Slots, SafeWith, Lookup, IsDir, First, Size, Full, Listing;
    var s := Slots(g, d, t.dirs[x]);
    LookupIn(s, leaf);
    if Lookup(s, leaf).Some? {
      var y := Lookup(s, leaf).value;
      ListedFile(g, d, t, x, y);
      if !IsDir(y.ent) { FileFacts(g, d, t, (x, y.idx)); }
    }
  }

  /** fat16_write, whatever the name. Afterwards the paths that end at it read the data and
      every other path reads what it read, unless the name was cut to one already there.
      Every image written on the way describes the old tree or the new. */
  method Write(v: Volume, path: seq<byte>, data: seq<byte>) returns (r: int, ghost k: Key)
    requires v.Valid() && NoZero(path) && |data| < 0x8000_0000
    modifies v
    ensures v.Valid() && Grew(old(v.log), v.log, {old(v.tree), v.tree}) && (r == -1 || r == |data|)
    ensures SafeWith(v.g, old(v.disk), old(v.tree)) && v.g.Fits(old(v.disk)) && v.g.Fits(v.disk)
            && ChainsIn(v.g, old(v.tree)) && ChainsIn(v.g, v.tree)
    ensures var w := old(Leaf(v, path));
            r == -1 <==> w.None? || Refused(v.g, old(v.disk), old(v.tree), w.value.0, w.value.1, |data|)
    ensures r == -1 ==>
            v.tree == old(v.tree) && SlotsKept(v.g, old(v.disk), v.disk, v.tree)
            && SameTables(v.g, old(v.disk), v.disk)
    ensures r >= 0 ==> var w := old(Leaf(v, path)).value;
            Written(v.g, old(v.disk), old(v.tree), v.disk, v.tree, w.0, w.1, data, k)
    ensures r >= 0 ==> var w := old(Leaf(v, path)).value;
              var s := Slots(v.g, old(v.disk), old(v.tree).dirs[w.0]);
              Unclaimed(s, w.1) ==> forall p {:trigger Contents(v.g, v.disk, v.tree, p)} ::
                Contents(v.g, v.disk, v.tree, p) == if EndsAt(v.g, old(v.disk), old(v.tree), p, w.0, GoesBy(s, w.1))
                    then Some(data) else Contents(v.g, old(v.disk), old(v.tree), p)
    ensures r >= 0 && WellNamed(old(Leaf(v, path)).value.1) ==> Contents(v.g, v.disk, v.tree, path) == Some(data)
    ensures r >= 0 ==> var w := old(Leaf(v, path)).value;
              PlainNames(v.g, v.disk, v.tree) <==>
                  PlainNames(v.g, old(v.disk), old(v.tree))
                  && !Dotted(Slots(v.g, old(v.disk), old(v.tree).dirs[w.0]), w.0, w.1)
  {
    hide Slots, SafeWith, Lookup, IsDir, First, Size, LogOk, Coherent, Full, Walk, HasData, Written, Refused,
        SlotsKept, SameTables, WellNamed, Grew, PlainNames, Dotted;
    hide Unclaimed, GoesBy, Contents, EndsAt;
    k := (0, 0);
    TreeFits(v.g, v.disk, v.tree);
    KeptSelf(v.g, v.disk, v.tree);
    GrewNone(v.log, {v.tree, v.tree});
    ghost var d0, t0 := v.disk, v.tree;
    var w := Resolve(v, path);
    if w.None? || w.value.1 == [] { return -1, k; }
    ghost var x, leaf := w.value.0, w.value.1;
    r, k := v.WriteLeaf(w.value.0, w.value.1, data);
    TreeFits(v.g, v.disk, v.tree);
    if r >= 0 {
      WrittenPlain(v.g, d0, t0, v.disk, v.tree, x, leaf, data, k);
      if Unclaimed(Slots(v.g, d0, t0.dirs[x]), leaf) {
        forall p ensures Contents(v.g, v.disk, v.tree, p) ==
            if EndsAt(v.g, d0, t0, p, x, GoesBy(Slots(v.g, d0, t0.dirs[x]), leaf)) then Some(data)
            else Contents(v.g, d0, t0, p) {
          WrittenSeen(v.g, d0, t0, v.disk, v.tree, x, leaf, data, k, p);
        }
      }
      if WellNamed(leaf) { WellSeen(v.g, d0, t0, x, leaf, path); }
    }
  }

  lemma WellSeen(g: Geo, d: Disk, t: Tree, x: nat, leaf: seq<byte>, path: seq<byte>)
    requires SafeWith(g, d, t) && x in t.dirs && g.Fits(d) && ChainsIn(g, t) && WellNamed(leaf) && 0 in t.dirs
             && Walk(g, d, t, 0, Skip(path)) == Some((x, leaf))
    ensures |leaf| < NAME_MAX && Unclaimed(Slots(g, d, t.dirs[x]), leaf)
            && EndsAt(g, d, t, path, x, GoesBy(Slots(g, d, t.dirs[x]), leaf))
  {
    hide Slots, SafeWith, WellNamed, Walk;
    WellUnclaimed(Slots(g, d, t.dirs[x]), leaf);
    WellShort(leaf);
  }

  /** Names stay plain exactly if the new one is. */
  lemma WrittenPlain(g: Geo, d: Disk, t: Tree, d': Disk, t': Tree, x: nat, leaf: seq<byte>, data: seq<byte>, k: Key)
    requires g.Fits(d) && g.Fits(d') && ChainsIn(g, t) && ChainsIn(g, t') && x in t.dirs && |leaf| < NAME_MAX
             && Written(g, d, t, d', t', x, leaf, data, k)
    ensures PlainNames(g, d', t') <==> PlainNames(g, d, t) && !Dotted(Slots(g, d, t.dirs[x]), x, leaf)
  {
    hide Slots, Listing, Undotted, NamesKept, HasData, Dotted, ListedAs, Lookup;
    forall z | z in t.dirs && z != x ensures PlainAt(g, d', t', z) <==> PlainAt(g, d, t, z) {
      assert t.dirs[z] == t.dirs[z];
    }
    assert PlainAt(g, d', t', x) <==> PlainAt(g, d, t, x) && !Dotted(Slots(g, d, t.dirs[x]), x, leaf) by {
      RootPlain(Slots(g, d, t.dirs[x]), x, leaf);
    }
    if PlainNames(g, d', t') {
      forall z | z in t.dirs ensures PlainAt(g, d, t, z) { assert PlainAt(g, d', t', z); }
      assert PlainAt(g, d', t', x);
    }
    if PlainNames(g, d, t) && !Dotted(Slots(g, d, t.dirs[x]), x, leaf) {
      forall z | z in t'.dirs ensures PlainAt(g, d', t', z) { assert PlainAt(g, d, t, z); }
    }
  }

  lemma MadePlain(g: Geo, d: Disk, t: Tree, d': Disk, t': Tree, x: nat, leaf: seq<byte>, k: Key)
    requires g.Fits(d) && g.Fits(d') && ChainsIn(g, t) && ChainsIn(g, t') && x in t.dirs && |leaf| < NAME_MAX
             && MadeDir(g, d, t, d', t', x, leaf, k)
    ensures PlainNames(g, d', t') <==> PlainNames(g, d, t) && !Dotted(Slots(g, d, t.dirs[x]), x, leaf)
  {
    hide Slots, Listing, NamesKept, Dotted, ListedAs, Lookup, Live, IsDir, Table, Empty, Undotted;
    var c := t'.ents[k].chain[0];
    BarePlain(Slots(g, d', t'.ents[k].chain));
    forall z | z in t.dirs && z != x ensures PlainAt(g, d', t', z) <==> PlainAt(g, d, t, z) {
      assert t.dirs[z] == t.dirs[z];
    }
    assert t'.dirs[x] == t.dirs[x];
    assert PlainAt(g, d', t', x) <==> PlainAt(g, d, t, x) && !Dotted(Slots(g, d, t.dirs[x]), x, leaf) by {
      RootPlain(Slots(g, d, t.dirs[x]), x, leaf);
    }
    if PlainNames(g, d', t') {
      forall z | z in t.dirs ensures PlainAt(g, d, t, z) { assert PlainAt(g, d', t', z); }
      assert PlainAt(g, d', t', x);
    }
    if PlainNames(g, d, t) && !Dotted(Slots(g, d, t.dirs[x]), x, leaf) {
      forall z | z in t'.dirs ensures PlainAt(g, d', t', z) { if z != c { assert PlainAt(g, d, t, z); } }
    }
  }

  lemma BarePlain(s: seq<Slot>)
    requires forall j: nat {:trigger Live(s, j)} :: Live(s, j) ==> j < 2
    ensures Undotted(Listing(s))
  {
    hide Listing, Live;
    forall y | y in Listing(s) ensures y.idx < 2 { ListedIs(s, y); }
  }

  lemma RootPlain(s: seq<Slot>, x: nat, leaf: seq<byte>)
    requires |leaf| < NAME_MAX
    ensures x == 0 ==> !Dotted(s, x, leaf)
  {
  }

  /** fat16_remove. The volume is sound again exactly when the path did not lead to one of
      the removals of Bad; where it led to an entry a directory keeps about itself, not even
      a tree is left. */
  method Remove(v: Volume, path: seq<byte>) returns (r: int)
    requires v.Valid() && NoZero(path)
    modifies v
    ensures (r == 0 || r == -1) && v.g.Fits(v.disk)
    ensures SafeWith(v.g, old(v.disk), old(v.tree)) && v.g.Fits(old(v.disk)) && ChainsIn(v.g, old(v.tree))
            && Shape(old(v.tree))
    ensures var w := old(Leaf(v, path));
            r == 0 <==> w.Some? && Removable(v.g, old(v.disk), old(v.tree), w.value.0, w.value.1)
    ensures r == -1 ==> v.Valid() && v.tree == old(v.tree) && v.disk == old(v.disk) && v.log == old(v.log)
    ensures var w := old(Leaf(v, path));
            (exists t :: Full(v.g, v.disk, t)) <==>
                !(w.Some? && Bad(v.g, old(v.disk), old(v.tree), w.value.0, w.value.1))
    ensures var w := old(Leaf(v, path));
            !(w.Some? && Bad(v.g, old(v.disk), old(v.tree), w.value.0, w.value.1)) ==> v.Valid()
    ensures r == 0 ==> var w := old(Leaf(v, path)).value;
              if SelfLeaf(v.g, old(v.disk), old(v.tree), w.0, w.1) then forall t :: !SafeWith(v.g, v.disk, t)
              else && v.Steady() && Grew(old(v.log), v.log, {old(v.tree), v.tree})
                   && Removed(v.g, old(v.disk), old(v.tree), v.disk, v.tree, w.0, w.1)
                   && (Sole(Listing(Slots(v.g, old(v.disk), old(v.tree).dirs[w.0])), w.1) ==>
                         RemovalSeen(v.g, old(v.disk), old(v.tree), v.disk, v.tree, w.0, w.1))
  {
    hide Slots, SafeWith, Lookup, IsDir, First, LogOk, Coherent, Full, Walk, Removed, Grew, Removable, Bad, SelfLeaf,
        Shape, Sole, RemovalSeen;
    TreeFits(v.g, v.disk, v.tree);
    ghost var d0, t0 := v.disk, v.tree;
    var w := Resolve(v, path);
    if w.None? || w.value.1 == [] {
      StillFull(v.g, v.disk, v.tree);
      return -1;
    }
    r := v.RemoveLeaf(w.value.0, w.value.1);
    if r == 0 && !SelfLeaf(v.g, d0, t0, w.value.0, w.value.1)
        && Sole(Listing(Slots(v.g, d0, t0.dirs[w.value.0])), w.value.1) {
      RemovalSeenIs(v.g, d0, t0, v.disk, v.tree, w.value.0, w.value.1);
    }
  }

  /** What paths see of a removal: of a file, that it is gone; of a directory, that nothing
      is to be reached through it. */
  ghost predicate RemovalSeen(g: Geo, d: Disk, t: Tree, d': Disk, t': Tree, x: nat, leaf: seq<byte>)
    requires SafeWith(g, d, t) && SafeWith(g, d', t') && g.Fits(d) && ChainsIn(g, t) && x in t.dirs && 0 in t.dirs
  {
    var y := Lookup(Slots(g, d, t.dirs[x]), leaf);
    && y.Some?
    && (!IsDir(y.value.ent) ==>
        forall p {:trigger Contents(g, d', t', p)} ::
        Contents(g, d', t', p) == if EndsAt(g, d, t, p, x, leaf) then None else Contents(g, d, t, p))
    && (IsDir(y.value.ent) ==> forall p {:trigger Contents(g, d', t', p)} ::
          && (Contents(g, d', t', p).Some? ==> Contents(g, d, t, p) == Contents(g, d', t', p))
          && (Contents(g, d, t, p) == Contents(g, d', t', p) || Visits(g, d, t, 0, Skip(p), First(y.value.ent))))
  }

  lemma RemovalSeenIs(g: Geo, d: Disk, t: Tree, d': Disk, t': Tree, x: nat, leaf: seq<byte>)
    requires SafeWith(g, d, t) && SafeWith(g, d', t') && g.Fits(d) && g.Fits(d') && ChainsIn(g, t) && Shape(t)
             && x in t.dirs && 0 in t.dirs
    requires Removed(g, d, t, d', t', x, leaf) && Sole(Listing(Slots(g, d, t.dirs[x])), leaf)
    ensures RemovalSeen(g, d, t, d', t', x, leaf)
  {
    hide SafeWith, Slots, Contents, EndsAt, Lookup, IsDir, First, Listing, Sole, Shape, Visits, NamesKept, Pruned;
    var y := Lookup(Slots(g, d, t.dirs[x]), leaf).value;
    if IsDir(y.ent) {
      forall p ensures (Contents(g, d', t', p).Some? ==> Contents(g, d, t, p) == Contents(g, d', t', p))
          && (Contents(g, d, t, p) == Contents(g, d', t', p) || Visits(g, d, t, 0, Skip(p), First(y.ent))) {
        RemovedDirSeen(g, d, t, d', t', x, leaf, p);
      }
    } else {
      forall p ensures Contents(g, d', t', p) == if EndsAt(g, d, t, p, x, leaf) then None else Contents(g, d, t, p) {
        RemovedFileSeen(g, d, t, d', t', x, leaf, p);
      }
    }
  }

  /** fat16_mkdir, whatever the name: no file is lost to any path, and only paths through
      the new directory find anything they did not find before. */
  method Mkdir(v: Volume, path: seq<byte>) returns (r: int, ghost k: Key)
    requires v.Valid() && NoZero(path)
    modifies v
    ensures v.Valid() && Grew(old(v.log), v.log, {old(v.tree), v.tree}) && (r == -1 || r == 0)
    ensures SafeWith(v.g, old(v.disk), old(v.tree)) && v.g.Fits(old(v.disk)) && v.g.Fits(v.disk)
            && ChainsIn(v.g, old(v.tree)) && 0 in v.tree.dirs
    ensures var w := old(Leaf(v, path));
            r == -1 <==> w.None? || NoMkdir(v.g, old(v.disk), old(v.tree), w.value.0, w.value.1)
    ensures r == -1 ==>
            v.tree == old(v.tree) && SlotsKept(v.g, old(v.disk), v.disk, v.tree)
            && SameTables(v.g, old(v.disk), v.disk)
    ensures r == 0 ==> var w := old(Leaf(v, path)).value;
            MadeDir(v.g, old(v.disk), old(v.tree), v.disk, v.tree, w.0, w.1, k)
    ensures r == 0 ==> var w := old(Leaf(v, path)).value;
              Unclaimed(Slots(v.g, old(v.disk), old(v.tree).dirs[w.0]), w.1) ==>
                  MakingSeen(v.g, old(v.disk), old(v.tree), v.disk, v.tree, k)
    ensures ChainsIn(v.g, v.tree)
    ensures r == 0 ==> var w := old(Leaf(v, path)).value;
              PlainNames(v.g, v.disk, v.tree) <==>
                  PlainNames(v.g, old(v.disk), old(v.tree))
                  && !Dotted(Slots(v.g, old(v.disk), old(v.tree).dirs[w.0]), w.0, w.1)
  {
    hide Slots, SafeWith, Lookup, IsDir, First, LogOk, Coherent, Full, Walk, MadeDir, NoMkdir, SlotsKept, SameTables,
        Grew, Unclaimed, MakingSeen;
    hide PlainNames, Dotted;
    k := (0, 0);
    TreeFits(v.g, v.disk, v.tree);
    KeptSelf(v.g, v.disk, v.tree);
    GrewNone(v.log, {v.tree, v.tree});
    ghost var d0, t0 := v.disk, v.tree;
    var w := Resolve(v, path);
    if w.None? || w.value.1 == [] { return -1, k; }
    r, k := v.MkdirLeaf(w.value.0, w.value.1);
    TreeFits(v.g, v.disk, v.tree);
    if r == 0 { MadePlain(v.g, d0, t0, v.disk, v.tree, w.value.0, w.value.1, k); }
    if r == 0 && Unclaimed(Slots(v.g, d0, t0.dirs[w.value.0]), w.value.1) {
      MakingSeenIs(v.g, d0, t0, v.disk, v.tree, w.value.0, w.value.1, k);
    }
  }

  /** What paths see of a new directory at entry k. */
  ghost predicate MakingSeen(g: Geo, d: Disk, t: Tree, d': Disk, t': Tree, k: Key)
    requires SafeWith(g, d, t) && SafeWith(g, d', t') && 0 in t'.dirs
  {
    && k in t'.ents
    && forall p {:trigger Contents(g, d', t', p)} ::
         && (Contents(g, d, t, p).Some? ==> Contents(g, d', t', p) == Contents(g, d, t, p))
         && (Contents(g, d', t', p) == Contents(g, d, t, p) || Visits(g, d', t', 0, Skip(p), Head(t'.ents[k].chain)))
  }

  lemma MakingSeenIs(g: Geo, d: Disk, t: Tree, d': Disk, t': Tree, x: nat, leaf: seq<byte>, k: Key)
    requires SafeWith(g, d, t) && SafeWith(g, d', t') && g.Fits(d) && g.Fits(d') && ChainsIn(g, t) && x in t.dirs
             && |leaf| < NAME_MAX && 0 in t'.dirs
    requires MadeDir(g, d, t, d', t', x, leaf, k) && Unclaimed(Slots(g, d, t.dirs[x]), leaf)
    ensures MakingSeen(g, d, t, d', t', k)
  {
    hide SafeWith, Slots, Contents, Visits, Unclaimed, NameEntered, BareDir, Empty, Table, IsDir;
    forall p ensures (Contents(g, d, t, p).Some? ==> Contents(g, d', t', p) == Contents(g, d, t, p))
        && (Contents(g, d', t', p) == Contents(g, d, t, p) || Visits(g, d', t', 0, Skip(p), Head(t'.ents[k].chain))) {
      MadeSeen(g, d, t, d', t', x, leaf, k, p);
    }
  }
}
