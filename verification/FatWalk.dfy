/** Paths: where src/fat16.c's resolve leads, and what a path reads before and after an
    operation. */
module FatWalk {
  import opened Common
  import opened FatNames
  import opened FatScan
  import opened FatDisk
  import opened FatTree
  import opened FatCommit
  import opened FatFull
  import opened FatCreate
  import opened FatPrune
  import opened FatResult
  import opened FatVolume

  const SLASH: byte := 0x2F

  function Skip(p: seq<byte>): (r: seq<byte>)
    ensures |r| <= |p| && (r == [] || r[0] != SLASH)
    ensures NoZero(p) ==> NoZero(r)
  {
    if p != [] && p[0] == SLASH then
      assert NoZero(p) ==> NoZero(p[1..]);
      Skip(p[1..])
    else p
  }

  /** How much of p the component buffer takes: to the next slash, or until it is full. */
  function CompLen(p: seq<byte>, n: nat): (r: nat)
    requires n <= |p| && n < NAME_MAX
    ensures n <= r <= |p| && r < NAME_MAX && (forall i :: n <= i < r ==> p[i] != SLASH)
    ensures r == |p| || p[r] == SLASH || r == NAME_MAX - 1
    decreases |p| - n
  {
    if n < |p| && p[n] != SLASH && n < NAME_MAX - 1 then CompLen(p, n + 1) else n
  }

  lemma StepIn(g: Geo, d: Disk, t: Tree, x: nat, y: Item)
    requires SafeWith(g, d, t) && g.Fits(d) && ChainsIn(g, t) && x in t.dirs && y in Listing(Slots(g, d, t.dirs[x]))
             && IsDir(y.ent)
    ensures First(y.ent) in t.dirs
  {
    hide Slots, Table, IsChain, Body, Listing, IsDir, First, Live, Shape;
    ListedFile(g, d, t, x, y);
    DirFacts(g, d, t, x);
    if !Self((x, y.idx)) { DirTarget(g, d, t, (x, y.idx)); }
  }

  /** The directory a component leads to, if it leads to one. */
  ghost function StepTo(g: Geo, d: Disk, t: Tree, x: nat, comp: seq<byte>): (r: Option<nat>)
    requires SafeWith(g, d, t) && x in t.dirs
    ensures r.Some? ==> r.value in t.dirs
  {
    TreeFits(g, d, t);
    var y := Lookup(Slots(g, d, t.dirs[x]), comp);
    if y.None? || !IsDir(y.value.ent) then None else
    LookupIn(Slots(g, d, t.dirs[x]), comp);
    StepIn(g, d, t, x, y.value);
    Some(First(y.value.ent))
  }

  /** resolve: the directory a path leads to and what is left of it, nothing if it ends
      there. None is -1. */
  ghost function Walk(g: Geo, d: Disk, t: Tree, x: nat, p: seq<byte>): (r: Option<(nat, seq<byte>)>)
    requires SafeWith(g, d, t) && x in t.dirs && (p == [] || p[0] != SLASH)
    ensures r.Some? ==> r.value.0 in t.dirs && |r.value.1| < NAME_MAX && (NoZero(p) ==> NoZero(r.value.1))
    ensures r.Some? ==> SLASH !in r.value.1
    decreases |p|
  {
    if p == [] then Some((x, [])) else
    var n := CompLen(p, 0);
    var rest := Skip(p[n..]);
    if rest == [] then Some((x, p[..n])) else
    var s := StepTo(g, d, t, x, p[..n]);
    if s.None? then None else Walk(g, d, t, s.value, rest)
  }

  /** The walk along p enters directory f. */
  ghost predicate Visits(g: Geo, d: Disk, t: Tree, x: nat, p: seq<byte>, f: nat)
    requires SafeWith(g, d, t) && x in t.dirs && (p == [] || p[0] != SLASH)
    decreases |p|
  {
    p != [] &&
    var n := CompLen(p, 0);
    var rest := Skip(p[n..]);
    rest != [] && var s := StepTo(g, d, t, x, p[..n]); s.Some? && (s.value == f || Visits(g, d, t, s.value, rest, f))
  }

  // ---- what a path is cut into

  /** The components resolve cuts a path into. */
  function Cuts(p: seq<byte>): seq<seq<byte>>
    requires p == [] || p[0] != SLASH
    decreases |p|
  {
    if p == [] then [] else
    var n := CompLen(p, 0);
    [p[..n]] + Cuts(Skip(p[n..]))
  }

  /** The first slash at n or beyond, or the end. */
  function PartLen(p: seq<byte>, n: nat): (r: nat)
    requires n <= |p|
    ensures n <= r <= |p| && (forall i :: n <= i < r ==> p[i] != SLASH) && (r == |p| || p[r] == SLASH)
    decreases |p| - n
  {
    if n < |p| && p[n] != SLASH then PartLen(p, n + 1) else n
  }

  /** The names between the slashes of a path. */
  function Parts(p: seq<byte>): seq<seq<byte>>
    requires p == [] || p[0] != SLASH
    decreases |p|
  {
    if p == [] then [] else
    var n := PartLen(p, 0);
    [p[..n]] + Parts(Skip(p[n..]))
  }

  /** A name in pieces that fit the component buffer. */
  function Chop(c: seq<byte>): (r: seq<seq<byte>>)
    ensures |r| >= 1 && (|r| == 1 <==> |c| < NAME_MAX) && (|r| == 1 ==> r == [c])
  {
    if |c| < NAME_MAX then [c] else [c[..NAME_MAX - 1]] + Chop(c[NAME_MAX - 1..])
  }

  function ChopAll(cs: seq<seq<byte>>): seq<seq<byte>> { if cs == [] then [] else Chop(cs[0]) + ChopAll(cs[1..]) }

  lemma LengthIs(p: seq<byte>, r: nat)
    requires r <= |p| && (forall i :: 0 <= i < r ==> p[i] != SLASH) && (r == |p| || p[r] == SLASH)
    ensures PartLen(p, 0) == r && CompLen(p, 0) == if r < NAME_MAX then r else NAME_MAX - 1
  {
  }

  lemma SkipStays(p: seq<byte>)
    requires p == [] || p[0] != SLASH
    ensures Skip(p) == p
  {
  }

  /** A name that does not fit the buffer is not refused: it is taken for several. */
  lemma {:induction false} CutsAre(p: seq<byte>)
    requires p == [] || p[0] != SLASH
    ensures Cuts(p) == ChopAll(Parts(p))
    decreases |p|
  {
    hide Cuts, Parts, ChopAll;
    CutsStep(p);
    if p != [] {
      var n, m := PartLen(p, 0), NAME_MAX - 1;
      LengthIs(p, n);
      ChopStep(p[..n], Parts(Skip(p[n..])));
      if n <= m {
        CutsAre(Skip(p[n..]));
      } else {
        LongStep(p, n);
        assert p[m..][0] == p[m];
        CutsAre(p[m..]);
      }
    } else {
      NoChop();
    }
  }

  lemma CutsStep(p: seq<byte>)
    requires p == [] || p[0] != SLASH
    ensures p == [] ==> Cuts(p) == [] && Parts(p) == []
    ensures p != [] ==> Cuts(p) == [p[..CompLen(p, 0)]] + Cuts(Skip(p[CompLen(p, 0)..]))
    ensures p != [] ==> Parts(p) == [p[..PartLen(p, 0)]] + Parts(Skip(p[PartLen(p, 0)..]))
  {
  }

  lemma NoChop()
    ensures ChopAll([]) == []
  {
  }

  lemma ChopStep(c: seq<byte>, cs: seq<seq<byte>>)
    ensures ChopAll([c] + cs) == Chop(c) + ChopAll(cs)
  {
    assert ([c] + cs)[1..] == cs;
  }

  /** The first piece of a name that does not fit, and the rest of the path. */
  lemma LongStep(p: seq<byte>, n: nat)
    requires NAME_MAX <= n == PartLen(p, 0)
    ensures var m := NAME_MAX - 1; var tail := Parts(Skip(p[n..]));
            && p[m] != SLASH && Skip(p[m..]) == p[m..]
            && Chop(p[..n]) + ChopAll(tail) == [p[..m]] + ChopAll(Parts(p[m..]))
  {
    hide Parts, ChopAll, Chop, Skip, PartLen;
    var m := NAME_MAX - 1;
    var rest := p[m..];
    Slices(p, n, m);
    SkipStays(rest);
    LengthIs(rest, n - m);
    CutsStep(rest);
    ChopStep(rest[..n - m], Parts(Skip(p[n..])));
    ChopLong(p[..n]);
  }

  lemma Slices(p: seq<byte>, n: nat, m: nat)
    requires m < n <= |p| && (forall i :: 0 <= i < n ==> p[i] != SLASH) && (n == |p| || p[n] == SLASH)
    ensures p[m..][n - m..] == p[n..] && p[m..][..n - m] == p[..n][m..] && p[..n][..m] == p[..m]
    ensures p[m..] != [] && p[m..][0] == p[m] && (forall i :: 0 <= i < n - m ==> p[m..][i] != SLASH)
    ensures n - m == |p[m..]| || p[m..][n - m] == SLASH
  {
  }

  lemma ChopLong(c: seq<byte>)
    requires NAME_MAX <= |c|
    ensures Chop(c) == [c[..NAME_MAX - 1]] + Chop(c[NAME_MAX - 1..])
  {
  }

  lemma {:induction false} ChopSame(cs: seq<seq<byte>>)
    ensures |ChopAll(cs)| >= |cs|
    ensures |ChopAll(cs)| == |cs| <==> forall c :: c in cs ==> |c| < NAME_MAX
    ensures |ChopAll(cs)| == |cs| ==> ChopAll(cs) == cs
  {
    hide Chop;
    if cs != [] {
      ChopSame(cs[1..]);
      HeadAndRest(cs);
      ChopOne(cs[0]);
    }
  }

  lemma HeadAndRest(cs: seq<seq<byte>>)
    requires cs != []
    ensures cs == [cs[0]] + cs[1..] && forall c :: c in cs <==> c == cs[0] || c in cs[1..]
  {
  }

  lemma ChopOne(c: seq<byte>)
    ensures |Chop(c)| >= 1 && (|Chop(c)| == 1 <==> |c| < NAME_MAX) && (|c| < NAME_MAX ==> Chop(c) == [c])
  {
  }

  /** So a path means the names between its slashes exactly if each of them fits. */
  lemma LongComponent(p: seq<byte>)
    requires p == [] || p[0] != SLASH
    ensures Cuts(p) == Parts(p) <==> forall c :: c in Parts(p) ==> |c| < NAME_MAX
  {
    CutsAre(p);
    ChopSame(Parts(p));
  }

  /** From directory x along the components cs: the last directory and the last component,
      nothing if there is none. */
  ghost function Along(g: Geo, d: Disk, t: Tree, x: nat, cs: seq<seq<byte>>): Option<(nat, seq<byte>)>
    requires SafeWith(g, d, t) && x in t.dirs
    decreases |cs|
  {
    if cs == [] then Some((x, [])) else if |cs| == 1 then Some((x, cs[0])) else
    var s := StepTo(g, d, t, x, cs[0]);
    if s.None? then None else Along(g, d, t, s.value, cs[1..])
  }

  /** Where a path leads depends on nothing but what it is cut into. */
  lemma {:induction false} WalkCuts(g: Geo, d: Disk, t: Tree, x: nat, p: seq<byte>)
    requires SafeWith(g, d, t) && x in t.dirs && (p == [] || p[0] != SLASH)
    ensures Walk(g, d, t, x, p) == Along(g, d, t, x, Cuts(p))
    decreases |p|
  {
    hide SafeWith, StepTo;
    if p != [] {
      var n := CompLen(p, 0);
      var rest := Skip(p[n..]);
      assert Cuts(p)[1..] == Cuts(rest);
      if rest != [] {
        var s := StepTo(g, d, t, x, p[..n]);
        if s.Some? { WalkCuts(g, d, t, s.value, rest); }
      }
    }
  }

  lemma {:induction false} FindFold(items: seq<Item>, a: seq<byte>, b: seq<byte>)
    requires NameEq(a, b)
    ensures Find(items, a) == Find(items, b)
  {
    if items != [] { FindFold(items[1..], a, b); }
  }

  // ---- what a path reads

  /** The bytes of the file a name leads to. */
  ghost function Held(g: Geo, d: Disk, t: Tree, x: nat, leaf: seq<byte>): Option<seq<byte>>
    requires SafeWith(g, d, t) && x in t.dirs
  {
    TreeFits(g, d, t);
    var y := Lookup(Slots(g, d, t.dirs[x]), leaf);
    if y.None? || IsDir(y.value.ent) || (x, y.value.idx) !in t.ents then None else
    var en := t.ents[(x, y.value.idx)];
    if Size(en.slot) > |en.body| * SECSZ then None else Some(FileBytes(en.body, Size(en.slot)))
  }

  /** The bytes of the file a path leads to. */
  ghost function Contents(g: Geo, d: Disk, t: Tree, path: seq<byte>): Option<seq<byte>>
    requires SafeWith(g, d, t)
  {
    TreeFits(g, d, t);
    var w := Walk(g, d, t, 0, Skip(path));
    if w.None? || w.value.1 == [] then None else Held(g, d, t, w.value.0, w.value.1)
  }

  /** A path that ends at the name n of directory x. */
  ghost predicate EndsAt(g: Geo, d: Disk, t: Tree, path: seq<byte>, x: nat, n: seq<byte>)
    requires SafeWith(g, d, t)
  {
    TreeFits(g, d, t);
    var w := Walk(g, d, t, 0, Skip(path));
    w.Some? && w.value.0 == x && w.value.1 != [] && NameEq(w.value.1, n)
  }

  // ---- two images that differ in one entry

  /** They agree but for entry k of directory x, which goes by the name n in the first. */
  ghost predicate Differ(g: Geo, d: Disk, t: Tree, d': Disk, t': Tree, x: nat, n: seq<byte>, k: Key)
    requires g.Fits(d) && g.Fits(d') && ChainsIn(g, t)
  {
    && x in t.dirs && x in t'.dirs && k.0 == x && !Self(k)
    && (forall z {:trigger t.dirs[z]} :: z in t.dirs && z in t'.dirs ==>
          t'.dirs[z] == t.dirs[z] && (z != 0 ==> z in t.par && z in t'.par && t'.par[z] == t.par[z])
              && (z != x ==> Slots(g, d', t.dirs[z]) == Slots(g, d, t.dirs[z])))
    && (forall q {:trigger t.ents[q]} {:trigger t'.ents[q]} ::
        q != k && q.0 in t.dirs && q.0 in t'.dirs ==>
        (q in t.ents <==> q in t'.ents) && (q in t.ents ==> t'.ents[q] == t.ents[q]))
    && NamesKept(Slots(g, d, t.dirs[x]), Slots(g, d', t.dirs[x]), n)
    && (Lookup(Slots(g, d, t.dirs[x]), n).Some? ==> Lookup(Slots(g, d, t.dirs[x]), n).value.idx == k.1)
    && (Lookup(Slots(g, d, t.dirs[x]), n).None? ==> k !in t.ents)
  }

  /** The same slot, found in both, says the same. */
  lemma SameItem(g: Geo, d: Disk, t: Tree, d': Disk, t': Tree, z: nat, y: Item, y': Item)
    requires SafeWith(g, d, t) && SafeWith(g, d', t') && g.Fits(d) && g.Fits(d') && ChainsIn(g, t) && z in t.dirs
             && z in t'.dirs && t'.dirs[z] == t.dirs[z]
    requires z != 0 ==> z in t.par && z in t'.par && t'.par[z] == t.par[z]
    requires y in Listing(Slots(g, d, t.dirs[z])) && y' in Listing(Slots(g, d', t.dirs[z])) && y'.idx == y.idx
    requires !Self((z, y.idx)) ==>
             (z, y.idx) in t.ents && (z, y.idx) in t'.ents && t'.ents[(z, y.idx)] == t.ents[(z, y.idx)]
    ensures IsDir(y'.ent) == IsDir(y.ent) && (IsDir(y.ent) ==> First(y'.ent) == First(y.ent))
    ensures (z, y.idx) in t.ents <==> (z, y.idx) in t'.ents
  {
    hide Slots, Table, IsChain, Body, Listing, IsDir, First, Live, Shape;
    ListedFile(g, d, t, z, y);
    ListedFile(g, d', t', z, y');
    DirFacts(g, d, t, z);
    DirFacts(g, d', t', z);
    if (z, y.idx) in t.ents { KeyFacts(g, d, t, (z, y.idx)); }
    if (z, y.idx) in t'.ents { KeyFacts(g, d', t', (z, y.idx)); }
  }

  /** A name that is not n does not lead to the entry in question. */
  lemma NotThere(g: Geo, d: Disk, t: Tree, d': Disk, t': Tree, x: nat, n: seq<byte>, k: Key, comp: seq<byte>, y: Item)
    requires SafeWith(g, d, t) && g.Fits(d) && g.Fits(d') && ChainsIn(g, t) && Differ(g, d, t, d', t', x, n, k)
             && !NameEq(comp, n)
    requires Lookup(Slots(g, d, t.dirs[x]), comp) == Some(y)
    ensures y in Listing(Slots(g, d, t.dirs[x])) && (x, y.idx) != k && (!Self((x, y.idx)) ==> (x, y.idx) in t.ents)
  {
    hide Slots, SafeWith, Listing, Live, NamesKept, IsDir;
    var s := Slots(g, d, t.dirs[x]);
    LookupIn(s, comp);
    LookupIn(s, n);
    ListedFile(g, d, t, x, y);
    if (x, y.idx) == k && Lookup(s, n).Some? {
      ListedIs(s, y);
      ListedIs(s, Lookup(s, n).value);
    }
  }

  /** Every other component and every other name leads where it led. */
  lemma Elsewise(g: Geo, d: Disk, t: Tree, d': Disk, t': Tree, x: nat, n: seq<byte>, k: Key, z: nat, comp: seq<byte>)
    requires SafeWith(g, d, t) && SafeWith(g, d', t') && g.Fits(d) && g.Fits(d') && ChainsIn(g, t)
             && Differ(g, d, t, d', t', x, n, k)
    requires z in t.dirs && z in t'.dirs && !(z == x && NameEq(comp, n))
    ensures StepTo(g, d', t', z, comp) == StepTo(g, d, t, z, comp) && Held(g, d', t', z, comp) == Held(g, d, t, z, comp)
  {
    hide Slots, SafeWith, Listing, Live, IsDir, First, NameEq, FileBytes, Size;
    var s, s' := Slots(g, d, t.dirs[z]), Slots(g, d', t.dirs[z]);
    assert t.dirs[z] == t.dirs[z];
    var y, y' := Lookup(s, comp), Lookup(s', comp);
    assert y.Some? <==> y'.Some?;
    if y.Some? {
      LookupIn(s, comp);
      LookupIn(s', comp);
      ListedFile(g, d, t, z, y.value);
      if z == x { NotThere(g, d, t, d', t', x, n, k, comp, y.value); }
      assert (z, y.value.idx) in t.ents ==> t.ents[(z, y.value.idx)] == t.ents[(z, y.value.idx)];
      SameItem(g, d, t, d', t', z, y.value, y'.value);
    }
  }

  // ---- a file comes, changes or goes

  /** No component leads anywhere new. */
  ghost predicate SameSteps(g: Geo, d: Disk, t: Tree, d': Disk, t': Tree)
    requires SafeWith(g, d, t) && SafeWith(g, d', t')
  {
    t'.dirs == t.dirs && forall z, comp {:trigger StepTo(g, d', t', z, comp)} ::
        z in t.dirs ==> StepTo(g, d', t', z, comp) == StepTo(g, d, t, z, comp)
  }

  lemma {:induction false} WalkSame(g: Geo, d: Disk, t: Tree, d': Disk, t': Tree, z: nat, p: seq<byte>)
    requires SafeWith(g, d, t) && SafeWith(g, d', t') && SameSteps(g, d, t, d', t') && z in t.dirs
             && (p == [] || p[0] != SLASH)
    ensures Walk(g, d', t', z, p) == Walk(g, d, t, z, p)
    decreases |p|
  {
    hide SafeWith, StepTo;
    if p != [] {
      var n := CompLen(p, 0);
      var rest := Skip(p[n..]);
      if rest != [] {
        var s := StepTo(g, d', t', z, p[..n]);
        if s.Some? { WalkSame(g, d, t, d', t', s.value, rest); }
      }
    }
  }

  /** A change to the one file that goes by n in directory x is seen by the paths that end
      there, and by no other. */
  lemma FileSeen(g: Geo, d: Disk, t: Tree, d': Disk, t': Tree, x: nat, n: seq<byte>, k: Key, path: seq<byte>)
    requires SafeWith(g, d, t) && SafeWith(g, d', t') && g.Fits(d) && g.Fits(d') && ChainsIn(g, t)
             && Differ(g, d, t, d', t', x, n, k) && t'.dirs == t.dirs
    requires StepTo(g, d, t, x, n) == None && StepTo(g, d', t', x, n) == None
    ensures EndsAt(g, d', t', path, x, n) <==> EndsAt(g, d, t, path, x, n)
    ensures Contents(g, d', t', path) == if EndsAt(g, d, t, path, x, n) then Held(g, d', t', x, n)
            else Contents(g, d, t, path)
  {
    hide Slots, SafeWith, Lookup, StepTo, Held, Walk, NameEq, Differ;
    TreeFits(g, d, t);
    DifferIn(g, d, t, d', t', x, n, k);
    forall z, comp | z in t.dirs ensures StepTo(g, d', t', z, comp) == StepTo(g, d, t, z, comp) {
      if z == x && NameEq(comp, n) {
        FoldStep(g, d, t, x, comp, n);
        FoldStep(g, d', t', x, comp, n);
      } else {
        Elsewise(g, d, t, d', t', x, n, k, z, comp);
      }
    }
    WalkSame(g, d, t, d', t', 0, Skip(path));
    var w := Walk(g, d, t, 0, Skip(path));
    if w.Some? && w.value.1 != [] {
      if w.value.0 == x && NameEq(w.value.1, n) {
        FoldStep(g, d', t', x, w.value.1, n);
      } else {
        Elsewise(g, d, t, d', t', x, n, k, w.value.0, w.value.1);
      }
    }
  }

  lemma DifferIn(g: Geo, d: Disk, t: Tree, d': Disk, t': Tree, x: nat, n: seq<byte>, k: Key)
    requires g.Fits(d) && g.Fits(d') && ChainsIn(g, t) && Differ(g, d, t, d', t', x, n, k)
    ensures x in t.dirs && x in t'.dirs
  {
  }

  /** Case does not matter to a walk. */
  lemma FoldStep(g: Geo, d: Disk, t: Tree, x: nat, a: seq<byte>, b: seq<byte>)
    requires SafeWith(g, d, t) && x in t.dirs && NameEq(a, b)
    ensures StepTo(g, d, t, x, a) == StepTo(g, d, t, x, b) && Held(g, d, t, x, a) == Held(g, d, t, x, b)
  {
    hide Slots, SafeWith, Listing, IsDir, First, FileBytes, Size, NameEq;
    TreeFits(g, d, t);
    FindFold(Listing(Slots(g, d, t.dirs[x])), a, b);
  }

  // ---- a directory comes or goes

  /** The second image has one directory more, f, and one step more, from x by n. */
  ghost predicate OneStepMore(g: Geo, d: Disk, t: Tree, d': Disk, t': Tree, x: nat, n: seq<byte>, f: nat)
    requires SafeWith(g, d, t) && SafeWith(g, d', t')
  {
    && x in t.dirs && (forall z {:trigger z in t'.dirs} :: z in t.dirs ==> z in t'.dirs)
    && (forall z, comp {:trigger StepTo(g, d', t', z, comp)} ::
        z in t.dirs && !(z == x && NameEq(comp, n)) ==> StepTo(g, d', t', z, comp) == StepTo(g, d, t, z, comp))
    && (forall comp {:trigger NameEq(comp, n)} ::
        NameEq(comp, n) ==> StepTo(g, d, t, x, comp) == None && StepTo(g, d', t', x, comp) == Some(f))
  }

  lemma {:induction false} WalkMore(g: Geo, d: Disk, t: Tree, d': Disk, t': Tree, x: nat, n: seq<byte>, f: nat,
      z: nat, p: seq<byte>)
    requires SafeWith(g, d, t) && SafeWith(g, d', t') && OneStepMore(g, d, t, d', t', x, n, f) && z in t.dirs
             && z in t'.dirs && (p == [] || p[0] != SLASH)
    ensures Walk(g, d, t, z, p).Some? ==> Walk(g, d', t', z, p) == Walk(g, d, t, z, p)
    ensures Walk(g, d', t', z, p) == Walk(g, d, t, z, p) || Visits(g, d', t', z, p, f)
    decreases |p|
  {
    hide SafeWith, StepTo, NameEq;
    if p != [] {
      var m := CompLen(p, 0);
      var rest := Skip(p[m..]);
      if rest != [] {
        var s, s' := StepTo(g, d, t, z, p[..m]), StepTo(g, d', t', z, p[..m]);
        assert z == x && NameEq(p[..m], n) ==> s == None && s' == Some(f);
        if s.Some? { WalkMore(g, d, t, d', t', x, n, f, s.value, rest); }
      }
    }
  }

  /** The paths that led to a file lead to the same file in both, and only a path through
      the new directory can lead to one where it did not before. */
  lemma DirSeen(g: Geo, d: Disk, t: Tree, d': Disk, t': Tree, x: nat, n: seq<byte>, f: nat, path: seq<byte>)
    requires SafeWith(g, d, t) && SafeWith(g, d', t') && OneStepMore(g, d, t, d', t', x, n, f)
    requires forall z, m {:trigger Held(g, d', t', z, m)} ::
             z in t.dirs && z in t'.dirs ==> Held(g, d', t', z, m) == Held(g, d, t, z, m)
    ensures Contents(g, d, t, path).Some? ==> Contents(g, d', t', path) == Contents(g, d, t, path)
    ensures 0 in t'.dirs && (Contents(g, d', t', path) == Contents(g, d, t, path)
            || Visits(g, d', t', 0, Skip(path), f))
  {
    hide SafeWith, StepTo, Held, Walk, OneStepMore;
    TreeFits(g, d, t);
    TreeFits(g, d', t');
    WalkMore(g, d, t, d', t', x, n, f, 0, Skip(path));
    var w := Walk(g, d, t, 0, Skip(path));
    if w.Some? {
      assert w.value.0 in t'.dirs ==> Held(g, d', t', w.value.0, w.value.1) == Held(g, d, t, w.value.0, w.value.1);
    }
  }

  // ---- what each operation changes for paths

  /** The name a write to leaf goes by: its own if it exists, else what it is listed as. */
  ghost function GoesBy(s: seq<Slot>, leaf: seq<byte>): seq<byte>
    requires |leaf| < NAME_MAX
  {
    if Lookup(s, leaf).Some? then leaf else ListedAs(s, leaf)
  }

  /** The name is the leaf's own, or nobody's yet: always so for a well-formed one. */
  ghost predicate Unclaimed(s: seq<Slot>, leaf: seq<byte>)
    requires |leaf| < NAME_MAX
  {
    Lookup(s, leaf).Some? || Lookup(s, ListedAs(s, leaf)).None?
  }

  lemma WellUnclaimed(s: seq<Slot>, leaf: seq<byte>)
    requires WellNamed(leaf)
    ensures |leaf| < NAME_MAX && Unclaimed(s, leaf) && GoesBy(s, leaf) == leaf
  {
    hide WellNamed, Lookup, ListedAs;
    WellShort(leaf);
    ListedWell(s, leaf);
  }

  lemma WellShort(leaf: seq<byte>)
    requires WellNamed(leaf)
    ensures 0 < |leaf| < NAME_MAX
  {
  }

  lemma WrittenDiffer(g: Geo, d: Disk, t: Tree, d': Disk, t': Tree, x: nat, leaf: seq<byte>, data: seq<byte>, k: Key)
    requires SafeWith(g, d, t) && SafeWith(g, d', t') && g.Fits(d) && g.Fits(d') && ChainsIn(g, t) && x in t.dirs
             && |leaf| < NAME_MAX
    requires Written(g, d, t, d', t', x, leaf, data, k) && Unclaimed(Slots(g, d, t.dirs[x]), leaf)
    ensures var n := GoesBy(Slots(g, d, t.dirs[x]), leaf);
            && Differ(g, d, t, d', t', x, n, k) && t'.dirs == t.dirs && x in t'.dirs
            && StepTo(g, d, t, x, n) == None && StepTo(g, d', t', x, n) == None && Held(g, d', t', x, n) == Some(data)
  {
    hide Slots, Table, IsChain, Body, Listing, IsDir, First, Live, Shape, Lookup, ListedAs, NamesKept, Undotted,
        FileBytes, Size, OnDisk;
    var s, s' := Slots(g, d, t.dirs[x]), Slots(g, d', t.dirs[x]);
    var n := GoesBy(s, leaf);
    KeyFacts(g, d', t', k);
    LookupIn(s, n);
    LookupIn(s', n);
    if Lookup(s, n).Some? { ListedFile(g, d, t, x, Lookup(s, n).value); }
    ListedFile(g, d', t', x, Lookup(s', n).value);
    ParKnown(t);
  }

  lemma ParKnown(t: Tree)
    requires Shape(t)
    ensures forall z {:trigger t.dirs[z]} :: z in t.dirs && z != 0 ==> z in t.par
  {
    forall z | z in t.dirs && z != 0 ensures z in t.par { assert DirShape(t, z); }
  }

  /** After fat16_write the paths that end at the name read the data, and every other path
      reads what it read. */
  lemma WrittenSeen(g: Geo, d: Disk, t: Tree, d': Disk, t': Tree, x: nat, leaf: seq<byte>, data: seq<byte>, k: Key,
      path: seq<byte>)
    requires SafeWith(g, d, t) && SafeWith(g, d', t') && g.Fits(d) && g.Fits(d') && ChainsIn(g, t) && x in t.dirs
             && |leaf| < NAME_MAX
    requires Written(g, d, t, d', t', x, leaf, data, k) && Unclaimed(Slots(g, d, t.dirs[x]), leaf)
    ensures Contents(g, d', t', path) == if EndsAt(g, d, t, path, x, GoesBy(Slots(g, d, t.dirs[x]), leaf))
            then Some(data) else Contents(g, d, t, path)
  {
    hide SafeWith, Slots, Written, Unclaimed, GoesBy, Differ, StepTo, Held, Contents, EndsAt;
    var n := GoesBy(Slots(g, d, t.dirs[x]), leaf);
    WrittenDiffer(g, d, t, d', t', x, leaf, data, k);
    FileSeen(g, d, t, d', t', x, n, k, path);
  }

  lemma RemovedDiffer(g: Geo, d: Disk, t: Tree, d': Disk, t': Tree, x: nat, leaf: seq<byte>)
    requires SafeWith(g, d, t) && SafeWith(g, d', t') && g.Fits(d) && g.Fits(d') && ChainsIn(g, t) && Shape(t)
             && x in t.dirs
    requires Removed(g, d, t, d', t', x, leaf)
    ensures var y := Lookup(Slots(g, d, t.dirs[x]), leaf).value;
            Differ(g, d, t, d', t', x, leaf, (x, y.idx)) && t.ents[(x, y.idx)].slot == y.ent
    ensures x in t'.dirs && (forall z :: z in t'.dirs ==> z in t.dirs)
  {
    hide Slots, Table, IsChain, Body, Listing, IsDir, First, Live, Lookup, NamesKept, OnDisk, Under, Sole;
    var s := Slots(g, d, t.dirs[x]);
    var k := (x, Lookup(s, leaf).value.idx);
    LookupIn(s, leaf);
    ListedFile(g, d, t, x, Lookup(s, leaf).value);
    KeyFacts(g, d, t, k);
    if IsDir(t.ents[k].slot) { NotBelow(t, k); }
    ParKnown(t);
  }

  /** After fat16_remove of a file the paths that ended at it read nothing, and every other
      path reads what it read. */
  lemma RemovedFileSeen(g: Geo, d: Disk, t: Tree, d': Disk, t': Tree, x: nat, leaf: seq<byte>, path: seq<byte>)
    requires SafeWith(g, d, t) && SafeWith(g, d', t') && g.Fits(d) && g.Fits(d') && ChainsIn(g, t) && Shape(t)
             && x in t.dirs
    requires Removed(g, d, t, d', t', x, leaf) && Sole(Listing(Slots(g, d, t.dirs[x])), leaf)
    requires !IsDir(Lookup(Slots(g, d, t.dirs[x]), leaf).value.ent)
    ensures Contents(g, d', t', path) == if EndsAt(g, d, t, path, x, leaf) then None else Contents(g, d, t, path)
  {
    hide SafeWith, Slots, Differ, Contents, EndsAt, Lookup, IsDir, First, Listing, NamesKept, Sole, FileBytes, Size,
        Shape;
    var y := Lookup(Slots(g, d, t.dirs[x]), leaf).value;
    RemovedDiffer(g, d, t, d', t', x, leaf);
    DifferIn(g, d, t, d', t', x, leaf, (x, y.idx));
    DifferSlots(g, d, t, d', t', x, leaf, (x, y.idx));
    FileSeen(g, d, t, d', t', x, leaf, (x, y.idx), path);
  }

  lemma DifferSlots(g: Geo, d: Disk, t: Tree, d': Disk, t': Tree, x: nat, n: seq<byte>, k: Key)
    requires g.Fits(d) && g.Fits(d') && ChainsIn(g, t) && Differ(g, d, t, d', t', x, n, k)
    ensures t'.dirs[x] == t.dirs[x]
  {
    assert t.dirs[x] == t.dirs[x];
  }

  /** After fat16_remove of a directory no path reads anything new, and only paths through
      the directory read anything else. */
  lemma RemovedDirSeen(g: Geo, d: Disk, t: Tree, d': Disk, t': Tree, x: nat, leaf: seq<byte>, path: seq<byte>)
    requires SafeWith(g, d, t) && SafeWith(g, d', t') && g.Fits(d) && g.Fits(d') && ChainsIn(g, t) && Shape(t)
             && x in t.dirs
    requires Removed(g, d, t, d', t', x, leaf) && Sole(Listing(Slots(g, d, t.dirs[x])), leaf)
    requires IsDir(Lookup(Slots(g, d, t.dirs[x]), leaf).value.ent)
    ensures Contents(g, d', t', path).Some? ==> Contents(g, d, t, path) == Contents(g, d', t', path)
    ensures 0 in t.dirs && (Contents(g, d, t, path) == Contents(g, d', t', path)
            || Visits(g, d, t, 0, Skip(path), First(Lookup(Slots(g, d, t.dirs[x]), leaf).value.ent)))
  {
    hide SafeWith, Slots, Differ, Contents, Lookup, IsDir, First, Listing, NamesKept, Sole, FileBytes, Size, Shape,
        NameEq, Visits, Pruned;
    var y := Lookup(Slots(g, d, t.dirs[x]), leaf).value;
    var f, k := First(y.ent), (x, y.idx);
    RemovedDiffer(g, d, t, d', t', x, leaf);
    DifferIn(g, d, t, d', t', x, leaf, k);
    DifferSlots(g, d, t, d', t', x, leaf, k);
    assert StepTo(g, d, t, x, leaf) == Some(f) && StepTo(g, d', t', x, leaf) == None;
    StepsMore(g, d, t, d', t', x, leaf, k, f);
    DirSeen(g, d', t', d, t, x, leaf, f, path);
  }

  lemma StepsMore(g: Geo, d: Disk, t: Tree, d': Disk, t': Tree, x: nat, n: seq<byte>, k: Key, f: nat)
    requires SafeWith(g, d, t) && SafeWith(g, d', t') && g.Fits(d) && g.Fits(d') && ChainsIn(g, t)
             && Differ(g, d, t, d', t', x, n, k) && x in t.dirs && x in t'.dirs
    requires (forall z :: z in t'.dirs ==> z in t.dirs) && StepTo(g, d, t, x, n) == Some(f)
             && StepTo(g, d', t', x, n) == None && Held(g, d', t', x, n) == None
    ensures OneStepMore(g, d', t', d, t, x, n, f)
    ensures forall z, m {:trigger Held(g, d, t, z, m)} ::
            z in t'.dirs && z in t.dirs ==> Held(g, d, t, z, m) == Held(g, d', t', z, m)
  {
    hide SafeWith, Slots, Differ, NameEq, StepTo, Held;
    StepHeld(g, d, t, x, n);
    forall z, comp | z in t'.dirs && !(z == x && NameEq(comp, n))
        ensures StepTo(g, d, t, z, comp) == StepTo(g, d', t', z, comp) {
      Elsewise(g, d, t, d', t', x, n, k, z, comp);
    }
    forall comp | NameEq(comp, n) ensures StepTo(g, d', t', x, comp) == None && StepTo(g, d, t, x, comp) == Some(f) {
      FoldStep(g, d, t, x, comp, n);
      FoldStep(g, d', t', x, comp, n);
    }
    forall z, m | z in t'.dirs && z in t.dirs ensures Held(g, d, t, z, m) == Held(g, d', t', z, m) {
      if z == x && NameEq(m, n) {
        FoldStep(g, d, t, x, m, n);
        FoldStep(g, d', t', x, m, n);
      } else {
        Elsewise(g, d, t, d', t', x, n, k, z, m);
      }
    }
  }

  /** What can be entered cannot be read. */
  lemma StepHeld(g: Geo, d: Disk, t: Tree, x: nat, n: seq<byte>)
    requires SafeWith(g, d, t) && x in t.dirs
    ensures StepTo(g, d, t, x, n).Some? ==> Held(g, d, t, x, n) == None
  {
    hide SafeWith, Slots, Lookup, IsDir, First, FileBytes, Size;
  }

  /** After fat16_mkdir every path to a file leads to the same file, and only paths through
      the new directory lead to one where they led to none. */
  lemma MadeSeen(g: Geo, d: Disk, t: Tree, d': Disk, t': Tree, x: nat, leaf: seq<byte>, k: Key, path: seq<byte>)
    requires SafeWith(g, d, t) && SafeWith(g, d', t') && g.Fits(d) && g.Fits(d') && ChainsIn(g, t) && x in t.dirs
             && |leaf| < NAME_MAX
    requires MadeDir(g, d, t, d', t', x, leaf, k) && Unclaimed(Slots(g, d, t.dirs[x]), leaf)
    ensures Contents(g, d, t, path).Some? ==> Contents(g, d', t', path) == Contents(g, d, t, path)
    ensures 0 in t'.dirs && (Contents(g, d', t', path) == Contents(g, d, t, path)
            || Visits(g, d', t', 0, Skip(path), t'.ents[k].chain[0]))
  {
    hide SafeWith, Slots, Differ, Contents, Lookup, IsDir, First, Listing, NamesKept, FileBytes, Size, Shape, NameEq,
        Visits, ListedAs, MadeDir, Unclaimed;
    var n := ListedAs(Slots(g, d, t.dirs[x]), leaf);
    MadeDiffer(g, d, t, d', t', x, leaf, k);
    MadeSteps(g, d, t, d', t', x, n, k);
    DirSeen(g, d, t, d', t', x, n, t'.ents[k].chain[0], path);
  }

  lemma MadeDiffer(g: Geo, d: Disk, t: Tree, d': Disk, t': Tree, x: nat, leaf: seq<byte>, k: Key)
    requires SafeWith(g, d, t) && SafeWith(g, d', t') && g.Fits(d) && g.Fits(d') && ChainsIn(g, t) && x in t.dirs
             && |leaf| < NAME_MAX
    requires MadeDir(g, d, t, d', t', x, leaf, k) && Unclaimed(Slots(g, d, t.dirs[x]), leaf)
    ensures var n := ListedAs(Slots(g, d, t.dirs[x]), leaf);
            && Differ(g, d, t, d', t', x, n, k) && x in t'.dirs && k in t'.ents && |t'.ents[k].chain| == 1
            && (forall z :: z in t.dirs ==> z in t'.dirs)
            && StepTo(g, d, t, x, n) == None && StepTo(g, d', t', x, n) == Some(t'.ents[k].chain[0])
            && Held(g, d, t, x, n) == None
  {
    hide Slots, Table, IsChain, Body, Listing, IsDir, First, Live, Shape, Lookup, ListedAs, NamesKept, Undotted,
        FileBytes, Size, OnDisk, BareDir, Empty;
    var s, s' := Slots(g, d, t.dirs[x]), Slots(g, d', t.dirs[x]);
    var n := ListedAs(s, leaf);
    KeyFacts(g, d', t', k);
    LookupIn(s', n);
    ListedFile(g, d', t', x, Lookup(s', n).value);
    ParKnown(t);
    ParKnown(t');
    assert t'.dirs[x] == t.dirs[x];
  }

  lemma MadeSteps(g: Geo, d: Disk, t: Tree, d': Disk, t': Tree, x: nat, n: seq<byte>, k: Key)
    requires SafeWith(g, d, t) && SafeWith(g, d', t') && g.Fits(d) && g.Fits(d') && ChainsIn(g, t)
             && Differ(g, d, t, d', t', x, n, k) && x in t.dirs && x in t'.dirs
    requires k in t'.ents && |t'.ents[k].chain| == 1 && (forall z :: z in t.dirs ==> z in t'.dirs)
    requires StepTo(g, d, t, x, n) == None && StepTo(g, d', t', x, n) == Some(t'.ents[k].chain[0])
             && Held(g, d, t, x, n) == None
    ensures OneStepMore(g, d, t, d', t', x, n, t'.ents[k].chain[0])
    ensures forall z, m {:trigger Held(g, d', t', z, m)} ::
            z in t.dirs && z in t'.dirs ==> Held(g, d', t', z, m) == Held(g, d, t, z, m)
  {
    hide SafeWith, Slots, Differ, NameEq, StepTo, Held;
    StepHeld(g, d', t', x, n);
    forall z, comp | z in t.dirs && !(z == x && NameEq(comp, n))
        ensures StepTo(g, d', t', z, comp) == StepTo(g, d, t, z, comp) {
      Elsewise(g, d, t, d', t', x, n, k, z, comp);
    }
    forall comp | NameEq(comp, n)
        ensures StepTo(g, d, t, x, comp) == None && StepTo(g, d', t', x, comp) == Some(t'.ents[k].chain[0]) {
      FoldStep(g, d, t, x, comp, n);
      FoldStep(g, d', t', x, comp, n);
    }
    forall z, m | z in t.dirs && z in t'.dirs ensures Held(g, d', t', z, m) == Held(g, d, t, z, m) {
      if z == x && NameEq(m, n) {
        FoldStep(g, d, t, x, m, n);
        FoldStep(g, d', t', x, m, n);
      } else {
        Elsewise(g, d, t, d', t', x, n, k, z, m);
      }
    }
  }
}
