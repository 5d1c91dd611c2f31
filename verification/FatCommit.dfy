/** The one slot write that turns one tree into the next, and the slot writes around
    it that turn it into nothing. */
module FatCommit {
  import opened FatNames
  import opened FatScan
  import opened FatDisk
  import opened FatTree
  import opened FatSteps

  // ---- which slots are live after a slot is written

  lemma EndKeep(s: seq<Slot>, i: nat, e: Slot)
    requires i < EndOf(s) && e[0] != 0
    ensures EndOf(s[i := e]) == EndOf(s)
  {
    EndIs(s[i := e], 0, EndOf(s));
  }

  lemma EndGrow(s: seq<Slot>, i: nat, e: Slot)
    requires i < |s| && i == EndOf(s) && ZeroTail(s) && e[0] != 0
    ensures EndOf(s[i := e]) == i + 1 && ZeroTail(s[i := e])
  {
    EndIs(s[i := e], 0, i + 1);
  }

  /** A free slot filled: only it can come alive. */
  lemma LiveFill(s: seq<Slot>, x: nat, i: nat, e: Slot)
    requires i < |s| && i <= EndOf(s) && ZeroTail(s) && Free(s[i]) && e[0] != 0
    ensures var s' := s[i := e];
            && SlotsBut(s, s', x, {(x, i)}) && (Live(s', i) <==> Short(e)) && ZeroTail(s') && i < EndOf(s')
            && EndOf(s) <= EndOf(s')
            && (!Short(e) ==> SlotsBut(s, s', x, {}))
  {
    if i < EndOf(s) { EndKeep(s, i, e); } else { EndGrow(s, i, e); }
  }

  /** A slot that is in use rewritten. */
  lemma LiveRewrite(s: seq<Slot>, x: nat, i: nat, e: Slot)
    requires i < EndOf(s) && e[0] != 0
    ensures var s' := s[i := e];
            && SlotsBut(s, s', x, {(x, i)}) && (Live(s', i) <==> Short(e)) && EndOf(s') == EndOf(s)
            && (!Short(s[i]) && !Short(e) ==> SlotsBut(s, s', x, {}))
  {
    EndKeep(s, i, e);
  }

  // ---- a slot write on the disk

  lemma SlotStep(g: Geo, d: Disk, t: Tree, x: nat, i: nat, e: Slot, ks: set<Key>)
    requires SafeWith(g, d, t) && x in t.dirs && i < |Slots(g, d, t.dirs[x])|
    requires SlotsBut(Slots(g, d, t.dirs[x]), Slots(g, d, t.dirs[x])[i := e], x, ks)
    ensures SecLba(g, t.dirs[x], i / SLOTS_PER_SEC) < |d| && g.Fits(PutSlot(g, d, t.dirs[x], i, e))
    ensures Step(g, d, t, PutSlot(g, d, t.dirs[x], i, e), ks)
    ensures forall f :: 0 <= f < g.nfats ==> Table(g, PutSlot(g, d, t.dirs[x], i, e), f) == Table(g, d, f)
    ensures Slots(g, PutSlot(g, d, t.dirs[x], i, e), t.dirs[x]) == Slots(g, d, t.dirs[x])[i := e]
  {
    hide Shape, Live, Slots, Body, Table, IsChain, Apart, Distinct, Misses, SlotSet, SlotIn, EntOn, SecLba, SlotsBut;
    DirFacts(g, d, t, x);
    var ch, n := t.dirs[x], i / SLOTS_PER_SEC;
    SlotsLen(g, d, ch, i);
    SecPlace(g, d, ch, n);
    var lba := SecLba(g, ch, n);
    var sec := SlotSet(d[lba], i % SLOTS_PER_SEC, e);
    var d' := PutSlot(g, d, ch, i, e);
    assert d' == d[lba := sec];
    forall f | 0 <= f < g.nfats ensures Table(g, d', f) == Table(g, d, f) {
      TableKept(g, d, lba, sec, f);
    }
    PutSlotHere(g, d, ch, i, e);
    forall y | y in t.dirs ensures SlotsBut(Slots(g, d, t.dirs[y]), Slots(g, d', t.dirs[y]), y, ks) {
      if y != x {
        DirsApart(t, x, y);
        PutSlotThere(g, d, ch, i, e, t.dirs[y]);
        SlotsSame(Slots(g, d, t.dirs[y]), y, ks);
      }
    }
    forall k | k in t.ents && !IsDir(t.ents[k].slot)
        ensures Body(g, d', t.ents[k].chain) == Body(g, d, t.ents[k].chain) {
      if t.ents[k].chain == [] {
        EmptyBody(g, d, lba, sec);
      } else {
        FileApart(t, k, x);
        ApartMisses2(g, d, ch, n, t.ents[k].chain);
        SecsKept(g, d, lba, sec, t.ents[k].chain);
      }
    }
  }

  lemma SlotsLen(g: Geo, d: Disk, ch: seq<nat>, i: nat)
    requires g.Fits(d) && ChainIn(g, ch) && i < |Slots(g, d, ch)|
    ensures i / SLOTS_PER_SEC < Secs(g, ch) && i < Secs(g, ch) * SLOTS_PER_SEC
  {
  }

  lemma SlotsSame(s: seq<Slot>, x: nat, ks: set<Key>)
    ensures SlotsBut(s, s, x, ks)
  {
  }

  lemma ApartMisses2(g: Geo, d: Disk, ch: seq<nat>, n: nat, ch': seq<nat>)
    requires g.Fits(d) && ChainIn(g, ch) && ChainIn(g, ch') && n < Secs(g, ch) && Apart(ch', ch)
    ensures Misses(g, ch', SecLba(g, ch, n))
  {
    ApartMisses(g, d, ch, n, ch');
  }

  /** A slot write no scan can see. */
  lemma SafeHidden(g: Geo, d: Disk, t: Tree, x: nat, i: nat, e: Slot)
    requires SafeWith(g, d, t) && x in t.dirs && i < |Slots(g, d, t.dirs[x])|
    requires SlotsBut(Slots(g, d, t.dirs[x]), Slots(g, d, t.dirs[x])[i := e], x, {})
    ensures SecLba(g, t.dirs[x], i / SLOTS_PER_SEC) < |d| && SafeWith(g, PutSlot(g, d, t.dirs[x], i, e), t)
  {
    hide Shape, Step, OnDisk, Slots, SlotsBut, PutSlot, Table, SecLba;
    SlotStep(g, d, t, x, i, e, {});
    ChangeNone(t);
    TreeChains(g, d, t);
    SafeStep(g, d, t, PutSlot(g, d, t.dirs[x], i, e), t, {});
  }

  lemma TreeChains(g: Geo, d: Disk, t: Tree)
    requires SafeWith(g, d, t)
    ensures ChainsIn(g, t)
  {
  }

  // ---- the trees a commit leads to

  function SetEnt(t: Tree, k: Key, en: Entry): Tree { t.(ents := t.ents[k := en]) }

  function AddDir(t: Tree, k: Key, en: Entry): Tree
    requires k.0 in t.depth && en.chain != []
  {
    var c := en.chain[0];
    Tree(t.dirs[c := en.chain], t.ents[k := en], t.par[c := k], t.depth[c := t.depth[k.0] + 1])
  }

  /** A chain none of whose clusters is spoken for. */
  ghost predicate Fresh(t: Tree, ch: seq<nat>) {
    Distinct(ch) && forall c :: c in ch ==> !Owned(t, c)
  }

  lemma FreshDisjoint(t: Tree, ch: seq<nat>, k: Key)
    requires Fresh(t, ch) && k in t.ents
    ensures Disjoint(t.ents[k].chain, ch) && Disjoint(ch, t.ents[k].chain)
  {
  }

  lemma SetShape(t: Tree, k: Key, en: Entry)
    requires Shape(t) && k.0 in t.dirs && !Self(k) && (k in t.ents ==> !IsDir(t.ents[k].slot))
    requires !IsDir(en.slot) && Short(en.slot) && First(en.slot) == (if en.chain == [] then 0 else en.chain[0])
             && Fresh(t, en.chain)
    ensures Shape(SetEnt(t, k, en))
  {
    hide Disjoint, Distinct, Fresh, Short, First, IsDir;
    FreshDistinct(t, en.chain);
    var t' := SetEnt(t, k, en);
    forall x | x in t'.dirs ensures DirShape(t', x) { assert DirShape(t, x); }
    forall q | q in t'.ents ensures EntShape(t', q) { if q != k { assert EntShape(t, q); } }
    forall q, r | q in t'.ents && r in t'.ents && q != r ensures Disjoint(t'.ents[q].chain, t'.ents[r].chain) {
      if q == k { FreshDisjoint(t, en.chain, r); } else if r == k { FreshDisjoint(t, en.chain, q); }
      else { assert Disjoint(t.ents[q].chain, t.ents[r].chain); }
    }
  }

  lemma FreshDistinct(t: Tree, ch: seq<nat>)
    requires Fresh(t, ch)
    ensures Distinct(ch)
  {
  }

  lemma AddShape(t: Tree, k: Key, en: Entry)
    requires Shape(t) && k.0 in t.dirs && !Self(k) && k !in t.ents && k.0 in t.depth
    requires IsDir(en.slot) && Short(en.slot) && en.chain != [] && First(en.slot) == en.chain[0] && en.chain[0] != 0
             && Fresh(t, en.chain)
    ensures Shape(AddDir(t, k, en)) && en.chain[0] !in t.dirs
  {
    hide Disjoint, Distinct, Fresh, Short, First, IsDir;
    FreshDistinct(t, en.chain);
    var c := en.chain[0];
    FreshDir(t, en.chain);
    var t' := AddDir(t, k, en);
    assert DirShape(t, k.0);
    forall x | x in t'.dirs ensures DirShape(t', x) { if x != c { assert DirShape(t, x); } }
    forall q | q in t'.ents ensures EntShape(t', q) { if q != k { assert EntShape(t, q); } }
    forall q, r | q in t'.ents && r in t'.ents && q != r ensures Disjoint(t'.ents[q].chain, t'.ents[r].chain) {
      if q == k { FreshDisjoint(t, en.chain, r); } else if r == k { FreshDisjoint(t, en.chain, q); }
      else { assert Disjoint(t.ents[q].chain, t.ents[r].chain); }
    }
  }

  lemma FreshDir(t: Tree, ch: seq<nat>)
    requires Shape(t) && Fresh(t, ch) && ch != [] && ch[0] != 0
    ensures ch[0] !in t.dirs
  {
    if ch[0] in t.dirs {
      assert DirShape(t, ch[0]);
      assert Owned(t, ch[0]);
    }
  }

  /** No entry lies in directory x. */
  ghost predicate Empty(t: Tree, x: nat) {
    forall k :: k in t.ents ==> k.0 != x
  }

  // ---- commits

  ghost predicate Heads(g: Geo, d: Disk, e: Slot, ch: seq<nat>)
    requires g.Fits(d)
  {
    First(e) == (if ch == [] then 0 else ch[0]) && ChainIn(g, ch) && IsChain(Table(g, d, 0), ch)
  }

  /** One slot is written; key (x, i) now has the entry e. */
  lemma SafeSet(g: Geo, d: Disk, t: Tree, x: nat, i: nat, e: Slot, ch: seq<nat>)
    requires SafeWith(g, d, t) && x in t.dirs && i < |Slots(g, d, t.dirs[x])| && !Self((x, i))
             && ((x, i) in t.ents ==> !IsDir(t.ents[(x, i)].slot))
    requires var s := Slots(g, d, t.dirs[x]); SlotsBut(s, s[i := e], x, {(x, i)}) && Live(s[i := e], i)
    requires !IsDir(e) && Heads(g, d, e, ch) && Fresh(t, ch)
    ensures SecLba(g, t.dirs[x], i / SLOTS_PER_SEC) < |d|
    ensures SafeWith(g, PutSlot(g, d, t.dirs[x], i, e), SetEnt(t, (x, i), Entry(e, ch, Body(g, d, ch))))
  {
    hide Shape, Step, OnDisk, Slots, SlotsBut, PutSlot, Table, SecLba, IsChain, Body, Fresh, EntOn, DirOn, First,
        IsDir, EndOf, Distinct;
    var k, en := (x, i), Entry(e, ch, Body(g, d, ch));
    TreeChains(g, d, t);
    SlotStep(g, d, t, x, i, e, {k});
    assert Short(e);
    SetShape(t, k, en);
    var d', t' := PutSlot(g, d, t.dirs[x], i, e), SetEnt(t, k, en);
    FreshBody(g, d, t, x, i, e, ch);
    EntOnSet(g, d', t', k);
    ChangeSet(t, k, en);
    SafeStep(g, d, t, d', t', {k});
  }

  lemma EntOnSet(g: Geo, d: Disk, t: Tree, k: Key)
    requires g.Fits(d) && k in t.ents && k.0 in t.dirs && ChainIn(g, t.dirs[k.0]) && ChainIn(g, t.ents[k].chain)
    requires Live(Slots(g, d, t.dirs[k.0]), k.1) && Slots(g, d, t.dirs[k.0])[k.1] == t.ents[k].slot
             && Body(g, d, t.ents[k].chain) == t.ents[k].body
    ensures EntOn(g, d, t, k)
  {
  }

  lemma ChangeSet(t: Tree, k: Key, en: Entry)
    requires Shape(t)
    ensures Change(t, SetEnt(t, k, en), {k})
  {
    ChangeNone(t);
  }

  /** The new chain's sectors lie in no directory, so a slot write passes them by. */
  lemma FreshBody(g: Geo, d: Disk, t: Tree, x: nat, i: nat, e: Slot, ch: seq<nat>)
    requires SafeWith(g, d, t) && x in t.dirs && i < |Slots(g, d, t.dirs[x])| && ChainIn(g, ch) && Fresh(t, ch)
    ensures SecLba(g, t.dirs[x], i / SLOTS_PER_SEC) < |d| && g.Fits(PutSlot(g, d, t.dirs[x], i, e))
    ensures Body(g, PutSlot(g, d, t.dirs[x], i, e), ch) == Body(g, d, ch)
    ensures ch != [] ==> Slots(g, PutSlot(g, d, t.dirs[x], i, e), ch) == Slots(g, d, ch)
  {
    hide Shape, Live, Slots, Body, Table, IsChain, Distinct, Misses, SlotSet, SecLba, EntOn, DirOn;
    DirFacts(g, d, t, x);
    var dch, n := t.dirs[x], i / SLOTS_PER_SEC;
    SlotsLen(g, d, dch, i);
    SecPlace(g, d, dch, n);
    var lba := SecLba(g, dch, n);
    var sec := SlotSet(d[lba], i % SLOTS_PER_SEC, e);
    if ch == [] {
      EmptyBody(g, d, lba, sec);
    } else {
      FreshApart(t, x, ch);
      ApartMisses(g, d, dch, n, ch);
      SecsKept(g, d, lba, sec, ch);
    }
  }

  lemma FreshApart(t: Tree, x: nat, ch: seq<nat>)
    requires Shape(t) && x in t.dirs && Fresh(t, ch) && ch != []
    ensures Apart(t.dirs[x], ch)
  {
    assert DirShape(t, x);
    if x != 0 {
      FreshDisjoint(t, ch, t.par[x]);
      assert forall i :: 0 <= i < |t.dirs[x]| ==> t.dirs[x][i] in t.dirs[x];
      assert forall i :: 0 <= i < |ch| ==> ch[i] in ch;
    }
  }

  /** The entry of a directory already written out appears. */
  lemma SafeAdd(g: Geo, d: Disk, t: Tree, x: nat, i: nat, e: Slot, ch: seq<nat>)
    requires SafeWith(g, d, t) && x in t.dirs && x in t.depth && i < |Slots(g, d, t.dirs[x])| && !Self((x, i))
             && (x, i) !in t.ents
    requires var s := Slots(g, d, t.dirs[x]); SlotsBut(s, s[i := e], x, {(x, i)}) && Live(s[i := e], i)
    requires IsDir(e) && ch != [] && Heads(g, d, e, ch) && Fresh(t, ch)
    requires var s := Slots(g, d, ch);
             && (forall j: nat {:trigger Live(s, j)} :: Live(s, j) ==> j < 2)
             && Live(s, 0) && Live(s, 1) && DotEntry(s[0], DOT1, ch[0]) && DotEntry(s[1], DOT2, x)
    ensures SecLba(g, t.dirs[x], i / SLOTS_PER_SEC) < |d|
    ensures SafeWith(g, PutSlot(g, d, t.dirs[x], i, e), AddDir(t, (x, i), Entry(e, ch, [])))
  {
    hide Shape, Step, OnDisk, Slots, SlotsBut, PutSlot, Table, SecLba, IsChain, Body, Fresh, EntOn, DirOn, First,
        IsDir, EndOf, Distinct, DotEntry;
    var k, en := (x, i), Entry(e, ch, []);
    TreeChains(g, d, t);
    SlotStep(g, d, t, x, i, e, {k});
    assert Short(e);
    assert Clus(g, ch[0]);
    AddShape(t, k, en);
    var d', t' := PutSlot(g, d, t.dirs[x], i, e), AddDir(t, k, en);
    FreshBody(g, d, t, x, i, e, ch);
    EntOnDir(g, d', t', k);
    NewDirOn(g, d', t', ch[0]);
    ChangeAdd(t, k, en);
    SafeStep(g, d, t, d', t', {k});
  }

  lemma EntOnDir(g: Geo, d: Disk, t: Tree, k: Key)
    requires g.Fits(d) && k in t.ents && k.0 in t.dirs && ChainIn(g, t.dirs[k.0]) && ChainIn(g, t.ents[k].chain)
             && IsDir(t.ents[k].slot)
    requires Live(Slots(g, d, t.dirs[k.0]), k.1) && Slots(g, d, t.dirs[k.0])[k.1] == t.ents[k].slot
    ensures EntOn(g, d, t, k)
  {
  }

  lemma NewDirOn(g: Geo, d: Disk, t: Tree, x: nat)
    requires g.Fits(d) && x in t.dirs && ChainIn(g, t.dirs[x]) && x in t.par && x != 0
    requires var s := Slots(g, d, t.dirs[x]);
             && (forall j: nat {:trigger Live(s, j)} :: Live(s, j) ==> j < 2)
             && Live(s, 0) && Live(s, 1) && DotEntry(s[0], DOT1, x) && DotEntry(s[1], DOT2, t.par[x].0)
    ensures DirOn(g, d, t, x)
  {
  }

  lemma ChangeAdd(t: Tree, k: Key, en: Entry)
    requires Shape(t) && k.0 in t.depth && en.chain != [] && en.chain[0] !in t.dirs
    ensures Change(t, AddDir(t, k, en), {k})
  {
    ChangeNone(t);
  }
}
