/** What holds of a FAT16 volume between operations, beyond the tree it describes: the
    copies of the table agree, nothing is leaked, sizes match chains, directories are
    tidy. */
module FatFull {
  import opened Common
  import opened FatNames
  import opened FatScan
  import opened FatDisk
  import opened FatTree
  import opened FatSteps
  import opened FatCommit

  // ---- file contents

  function ClusBytes(g: Geo): nat { g.spc * SECSZ }

  /** How many clusters n bytes take. */
  function Need(g: Geo, n: nat): nat
    requires 1 <= g.spc
  {
    (n + ClusBytes(g) - 1) / ClusBytes(g)
  }

  /** The n-th sector of a file holding data: zeros after its end. */
  function Chunk(data: seq<byte>, n: nat): Sector {
    seq(SECSZ, i requires 0 <= i < SECSZ => if n * SECSZ + i < |data| then data[n * SECSZ + i] else 0)
  }

  function Chunks(data: seq<byte>, count: nat): (r: seq<Sector>)
    ensures |r| == count
  {
    seq(count, n requires 0 <= n < count => Chunk(data, n))
  }

  /** The first size bytes of a run of sectors. */
  function FileBytes(body: seq<Sector>, size: nat): (r: seq<byte>)
    requires size <= |body| * SECSZ
    ensures |r| == size
  {
    seq(size, p requires 0 <= p < size => body[p / SECSZ][p % SECSZ])
  }

  lemma CeilDiv(n: nat, m: nat, q: nat)
    requires 0 < m && q == (n + m - 1) / m
    ensures n <= q * m && (n > 0 ==> 1 <= q && (q - 1) * m < n) && (n == 0 ==> q == 0)
  {
    var a := n + m - 1;
    assert a == m * q + a % m;
    assert m * q == q * m;
    assert (q - 1) * m == q * m - m;
    assert q == 0 ==> q * m == 0;
    if n == 0 && q > 0 { MulLe(1, q, m); }
  }

  lemma NeedEnough(g: Geo, n: nat)
    requires 1 <= g.spc
    ensures n <= Need(g, n) * g.spc * SECSZ
    ensures n > 0 ==> (Need(g, n) - 1) * g.spc * SECSZ < n
    ensures n == 0 <==> Need(g, n) == 0
  {
    hide Need;
    var q: int := Need(g, n);
    NeedDef(g, n);
    CeilDiv(n, ClusBytes(g), q);
    MulAssoc(q, g.spc);
    MulAssoc(q - 1, g.spc);
  }

  lemma NeedDef(g: Geo, n: nat)
    requires 1 <= g.spc
    ensures 0 < ClusBytes(g) && Need(g, n) == (n + ClusBytes(g) - 1) / ClusBytes(g)
  {
  }

  lemma MulAssoc(q: int, k: int)
    ensures q * k * 512 == q * (k * 512)
  {
  }

  /** What is written is what is read. */
  lemma ChunksBytes(data: seq<byte>, count: nat)
    requires |data| <= count * SECSZ
    ensures FileBytes(Chunks(data, count), |data|) == data
  {
    var r := FileBytes(Chunks(data, count), |data|);
    forall p | 0 <= p < |data| ensures r[p] == data[p] {
      assert p == p / SECSZ * SECSZ + p % SECSZ;
    }
  }

  // ---- the invariant

  ghost predicate Copies(g: Geo, d: Disk)
    requires g.Fits(d)
  {
    forall f {:trigger Table(g, d, f)} :: 0 <= f < g.nfats ==> Table(g, d, f) == Table(g, d, 0)
  }

  /** A cluster is marked in the table exactly when some entry's chain has it. */
  ghost predicate Exact(tab: seq<nat>, t: Tree) {
    forall c {:trigger Owned(t, c)} {:trigger tab[c]} :: 2 <= c < |tab| ==> (tab[c] != FAT_FREE <==> Owned(t, c))
  }

  ghost predicate Sized(g: Geo, en: Entry)
    requires g.Ok()
  {
    !IsDir(en.slot) ==> |en.chain| == Need(g, Size(en.slot))
  }

  ghost predicate TidyAt(g: Geo, d: Disk, t: Tree, x: nat)
    requires g.Fits(d) && x in t.dirs && ChainIn(g, t.dirs[x])
  {
    Tidy(Slots(g, d, t.dirs[x]))
  }

  ghost predicate Full(g: Geo, d: Disk, t: Tree) {
    && SafeWith(g, d, t) && Copies(g, d) && Exact(Table(g, d, 0), t)
    && (forall k {:trigger Sized(g, t.ents[k])} :: k in t.ents ==> Sized(g, t.ents[k]))
    && (forall x {:trigger TidyAt(g, d, t, x)} :: x in t.dirs ==> TidyAt(g, d, t, x))
  }

  // ---- names that look like the two entries a directory keeps about itself

  const DOTS1: seq<byte> := [0x2E]
  const DOTS2: seq<byte> := [0x2E, 0x2E]

  predicate IsDots(n: seq<byte>) { n == DOTS1 || n == DOTS2 }

  ghost predicate Undotted(items: seq<Item>) {
    forall y :: y in items && y.idx >= 2 ==> !IsDots(y.name)
  }

  ghost predicate PlainAt(g: Geo, d: Disk, t: Tree, x: nat)
    requires g.Fits(d) && x in t.dirs && ChainIn(g, t.dirs[x])
  {
    x != 0 ==> Undotted(Listing(Slots(g, d, t.dirs[x])))
  }

  /** Outside the root, nothing but those two entries is listed as a dot name. */
  ghost predicate PlainNames(g: Geo, d: Disk, t: Tree)
    requires g.Fits(d) && ChainsIn(g, t)
  {
    forall x {:trigger PlainAt(g, d, t, x)} :: x in t.dirs ==> PlainAt(g, d, t, x)
  }

  // ---- images that differ only in the table

  ghost predicate DataKept(g: Geo, d: Disk, d': Disk) {
    |d'| == |d| && forall lba {:trigger d'[lba]} :: g.RootStart() <= lba < |d| ==> d'[lba] == d[lba]
  }

  lemma KeptChain(g: Geo, d: Disk, d': Disk, ch: seq<nat>)
    requires g.Fits(d) && ChainIn(g, ch) && DataKept(g, d, d')
    ensures g.Fits(d') && Slots(g, d', ch) == Slots(g, d, ch) && Body(g, d', ch) == Body(g, d, ch)
  {
    forall n | 0 <= n < Secs(g, ch) ensures SecLba(g, ch, n) < |d| && d'[SecLba(g, ch, n)] == d[SecLba(g, ch, n)] {
      SecPlace(g, d, ch, n);
    }
    SlotsFrame(g, d, d', ch);
    BodyFrame(g, d, d', ch);
  }

  // ---- chains built and chains freed

  /** tab is tab0 with the new chain nc linked into it. */
  ghost predicate Linked(tab0: seq<nat>, tab: seq<nat>, nc: seq<nat>) {
    && |tab| == |tab0| && IsChain(tab, nc) && Distinct(nc)
    && (nc != [] ==> 2 <= nc[|nc| - 1] < |tab| && tab[nc[|nc| - 1]] == FAT_EOC)
    && (forall c :: 0 <= c < |tab| && c !in nc ==> tab[c] == tab0[c])
    && (forall c :: c in nc ==> 2 <= c < |tab| && tab0[c] == FAT_FREE)
  }

  lemma LinkStep(tab0: seq<nat>, tab: seq<nat>, nc: seq<nat>, c: nat)
    requires Linked(tab0, tab, nc) && 2 <= c < |tab| && tab[c] == FAT_FREE
    ensures c !in nc && tab0[c] == FAT_FREE && (nc != [] ==> nc[|nc| - 1] in nc)
    ensures Linked(tab0, if nc == [] then tab[c := FAT_EOC] else tab[c := FAT_EOC][nc[|nc| - 1] := c], nc + [c])
  {
    if c in nc {
      var j: nat :| j < |nc| && nc[j] == c;
      ChainTaken(tab, nc, j);
    }
    assert nc != [] ==> nc[|nc| - 1] in nc;
    var tab' := if nc == [] then tab[c := FAT_EOC] else tab[c := FAT_EOC][nc[|nc| - 1] := c];
    var nc' := nc + [c];
    forall j: nat | j < |nc'| ensures LinkOk(tab', nc', j) {
      if j < |nc| { assert LinkOk(tab, nc, j) && nc[j] in nc; }
    }
  }

  /** The links of a chain say all there is to say about the table. */
  lemma LinkedSame(tab0: seq<nat>, a: seq<nat>, b: seq<nat>, nc: seq<nat>)
    requires Linked(tab0, a, nc) && Linked(tab0, b, nc)
    ensures a == b
  {
    forall c | 0 <= c < |a| ensures a[c] == b[c] {
      if c in nc {
        var j: nat :| j < |nc| && nc[j] == c;
        assert LinkOk(a, nc, j) && LinkOk(b, nc, j);
      }
    }
  }

  function FreedTab(tab: seq<nat>, ch: seq<nat>): (r: seq<nat>)
    ensures |r| == |tab|
  {
    seq(|tab|, c requires 0 <= c < |tab| => if c in ch then FAT_FREE else tab[c])
  }

  /** A chain built and then freed leaves no trace. */
  lemma LinkUndo(tab0: seq<nat>, tab: seq<nat>, nc: seq<nat>)
    requires Linked(tab0, tab, nc)
    ensures FreedTab(tab, nc) == tab0
  {
  }

  lemma FreedStep(tab: seq<nat>, ch: seq<nat>, j: nat)
    requires j < |ch| && 0 <= ch[j] < |tab|
    ensures FreedTab(tab, ch[..j])[ch[j] := FAT_FREE] == FreedTab(tab, ch[..j + 1])
  {
    assert ch[..j + 1] == ch[..j] + [ch[j]];
  }

  lemma FreedRest(tab: seq<nat>, ch: seq<nat>, j: nat)
    requires IsChain(tab, ch) && Distinct(ch) && j < |ch|
    ensures LinkOk(tab, ch, j) && FreedTab(tab, ch[..j])[ch[j]] == tab[ch[j]]
  {
    assert LinkOk(tab, ch, j);
  }

  lemma FreedAll(tab: seq<nat>, ch: seq<nat>)
    ensures FreedTab(tab, ch[..|ch|]) == FreedTab(tab, ch) && FreedTab(tab, []) == tab && ch[..0] == []
  {
    assert ch[..|ch|] == ch;
  }

  // ---- the table says exactly what the tree says

  lemma LinkedFresh(tab0: seq<nat>, tab: seq<nat>, nc: seq<nat>, t: Tree)
    requires Linked(tab0, tab, nc) && Exact(tab0, t)
    ensures Fresh(t, nc)
  {
    forall c | c in nc ensures !Owned(t, c) {
      assert tab0[c] == FAT_FREE;
    }
  }

  lemma OwnedSet(t: Tree, k: Key, en: Entry, c: nat)
    requires Shape(t)
    ensures Owned(SetEnt(t, k, en), c) <==> c in en.chain || (Owned(t, c) && !(k in t.ents && c in t.ents[k].chain))
  {
    hide DirShape, EntShape;
    var t' := SetEnt(t, k, en);
    if c in en.chain { assert t'.ents[k] == en; }
    if Owned(t, c) {
      var q :| q in t.ents && c in t.ents[q].chain;
      if q != k {
        assert t'.ents[q] == t.ents[q];
        if k in t.ents { assert Disjoint(t.ents[q].chain, t.ents[k].chain); }
      }
    }
    if Owned(t', c) {
      var q :| q in t'.ents && c in t'.ents[q].chain;
      if q != k {
        assert q in t.ents && c in t.ents[q].chain;
        if k in t.ents { assert Disjoint(t.ents[q].chain, t.ents[k].chain); }
      }
    }
  }

  /** fat16_write: the new chain linked, the old one (if there was one) freed. */
  lemma ExactSet(tab0: seq<nat>, tab: seq<nat>, t: Tree, k: Key, en: Entry)
    requires Shape(t) && Exact(tab0, t) && Linked(tab0, tab, en.chain)
    ensures Exact(FreedTab(tab, if k in t.ents then t.ents[k].chain else []), SetEnt(t, k, en))
  {
    hide Shape, Owned;
    LinkedFresh(tab0, tab, en.chain, t);
    if k in t.ents { FreshDisjoint(t, en.chain, k); }
    var oldch: seq<nat> := if k in t.ents then t.ents[k].chain else [];
    var tab' := FreedTab(tab, oldch);
    forall c | 2 <= c < |tab'| ensures tab'[c] != FAT_FREE <==> Owned(SetEnt(t, k, en), c) {
      OwnedSet(t, k, en, c);
      if c in en.chain {
        var j: nat :| j < |en.chain| && en.chain[j] == c;
        ChainTaken(tab, en.chain, j);
      } else {
        assert tab[c] == tab0[c];
        OwnedKey(t, k, c);
      }
    }
  }

  lemma OwnedKey(t: Tree, k: Key, c: nat)
    ensures k in t.ents && c in t.ents[k].chain ==> Owned(t, c)
  {
  }

  lemma ExactAdd(tab0: seq<nat>, tab: seq<nat>, t: Tree, k: Key, en: Entry)
    requires Shape(t) && Exact(tab0, t) && Linked(tab0, tab, en.chain) && k !in t.ents && k.0 in t.depth
             && en.chain != []
    ensures Exact(tab, AddDir(t, k, en))
  {
    hide Shape, Owned, Linked;
    ExactSet(tab0, tab, t, k, en);
    FreedAll(tab, []);
    forall c: nat ensures Owned(AddDir(t, k, en), c) <==> Owned(SetEnt(t, k, en), c) {
      OwnedSame(AddDir(t, k, en), SetEnt(t, k, en), c);
    }
  }

  lemma OwnedSame(t: Tree, t': Tree, c: nat)
    requires t'.ents == t.ents
    ensures Owned(t', c) <==> Owned(t, c)
  {
  }

  /** Full again, one directory (or a new one) having changed. */
  lemma FullNext(g: Geo, d: Disk, t: Tree, d': Disk, t': Tree, x: nat)
    requires Full(g, d, t) && SafeWith(g, d', t') && Copies(g, d') && Exact(Table(g, d', 0), t')
    requires forall k {:trigger t'.ents[k]} :: k in t'.ents ==> Sized(g, t'.ents[k])
    requires forall y {:trigger t'.dirs[y]} :: y in t'.dirs && y != x && y in t.dirs ==>
               t'.dirs[y] == t.dirs[y] && Slots(g, d', t.dirs[y]) == Slots(g, d, t.dirs[y])
    requires forall y {:trigger t'.dirs[y]} ::
             y in t'.dirs && (y == x || y !in t.dirs) ==> Tidy(Slots(g, d', t'.dirs[y]))
    ensures Full(g, d', t')
  {
    hide Shape, Live, Slots, Tidy, Table, Exact, Sized, IsChain, Body;
    forall y | y in t'.dirs ensures TidyAt(g, d', t', y) {
      if y != x && y in t.dirs { assert TidyAt(g, d, t, y); }
    }
    assert forall k {:trigger Sized(g, t'.ents[k])} :: k in t'.ents ==> Sized(g, t'.ents[k]);
  }
}
