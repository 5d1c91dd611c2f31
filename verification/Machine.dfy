/** Tasks and their memory together: task_new_empty, task_retire, SYS_SBRK and SYS_THREAD of
    src/task.c, from boot. */
module Machine {
  import opened Common
  import opened IpcModel
  import opened VmTable
  import opened VmFree
  import I = Ipc
  import V = Vm
  import S = VmSpace
  import B = VmBirth

  /** The address spaces the task table names are the ones that have a root. */
  ghost predicate Rooted(spaces: set<nat>, nodes: map<Key, nat>) {
    forall p {:trigger p in spaces} {:trigger (p, 2, 0) in nodes} :: p in spaces <==> p != 0 && (p, 2, 0) in nodes
  }

  /** The heap of every task is mapped up to its own break. */
  ghost predicate Breaks(ts: Table, m: Mem, brk: seq<nat>) {
    |brk| == NTASK && forall i {:trigger brk[i]} ::
        0 <= i < NTASK && Live(ts[i]) ==> V.HeapOk(m, ts[i].pt, V.Old(brk[i]))
  }

  /** Threads of one address space agree on where that is. */
  ghost predicate Agreed(ts: Table, brk: seq<nat>) {
    |brk| == NTASK && forall i, j :: 0 <= i < NTASK && 0 <= j < NTASK && Live(ts[i]) && ts[i].pt == ts[j].pt ==>
        V.Old(brk[i]) == V.Old(brk[j])
  }

  /** A task that has not begun is alone in its address space. */
  ghost predicate Alone(ts: Table) {
    forall i, j :: 0 <= i < NTASK && 0 <= j < NTASK && i != j && Live(ts[i]) && ts[i].state == Unused ==>
        ts[j].pt != ts[i].pt
  }

  /** No address space reaches into the arena but through pages of its own. */
  ghost predicate Private(m: Mem) {
    forall r: nat {:trigger (r, 2, 0) in m.nodes} :: (r, 2, 0) in m.nodes ==> S.NoArena(m, r)
  }

  /** The loop at the end of SYS_SBRK. */
  method Sweep(ts: Table, brk: seq<nat>, pt: nat, want: nat) returns (b: seq<nat>)
    requires |brk| == NTASK
    ensures |b| == NTASK && forall i {:trigger b[i]} ::
            0 <= i < NTASK ==> b[i] == if ts[i].pt == pt && ts[i].state != Unused then want else brk[i]
  {
    b := brk;
    for i := 0 to NTASK
      invariant |b| == NTASK
      invariant forall j {:trigger b[j]} ::
                0 <= j < NTASK ==> b[j] == if j < i && ts[j].pt == pt && ts[j].state != Unused then want else brk[j]
    {
      if ts[i].pt == pt && ts[i].state != Unused { b := b[i := want]; }
    }
  }

  lemma HasSpace(ts: Table, spaces: set<nat>, t: nat)
    requires t < NTASK && Live(ts[t]) && I.SpacesOk(ts, spaces)
    ensures ts[t].pt in spaces
  {
    I.UsedHere(ts, spaces, t);
  }

  // ---- the task table changes

  /** The same tasks, as far as memory goes; some may have begun, or gone. */
  ghost predicate Fewer(ts: Table, ts': Table) {
    forall i {:trigger ts'[i]} :: 0 <= i < NTASK ==>
        !Live(ts'[i]) || (ts'[i].pt == ts[i].pt && (ts'[i].state == Unused ==> ts[i].state == Unused))
  }

  lemma FewerTasks(ts: Table, ts': Table, m: Mem, brk: seq<nat>)
    requires Fewer(ts, ts')
    ensures Breaks(ts, m, brk) ==> Breaks(ts', m, brk)
    ensures Agreed(ts, brk) ==> Agreed(ts', brk)
    ensures Alone(ts) ==> Alone(ts')
  {
    hide V.HeapOk;
    if Agreed(ts, brk) {
      forall i, j | 0 <= i < NTASK && 0 <= j < NTASK && Live(ts'[i]) && ts'[i].pt == ts'[j].pt
          ensures V.Old(brk[i]) == V.Old(brk[j]) {
        assert ts[i].pt == ts[j].pt;
      }
    }
    if Alone(ts) {
      forall i, j | 0 <= i < NTASK && 0 <= j < NTASK && i != j && Live(ts'[i]) && ts'[i].state == Unused
          ensures ts'[j].pt != ts'[i].pt {
        assert ts[j].pt != ts[i].pt;
      }
    }
  }

  lemma NowThreaded(ts: Table, ts': Table, cur: nat, i: nat, arg: int, m: Mem, brk: seq<nat>)
    requires Breaks(ts, m, brk) && Agreed(ts, brk) && Alone(ts) && I.Threaded(ts, ts', cur, i, arg)
             && ts[cur].state != Unused && Live(ts[cur])
    ensures Breaks(ts', m, brk[i := brk[cur]]) && Agreed(ts', brk[i := brk[cur]]) && Alone(ts')
  {
    hide V.HeapOk, V.Old;
    var b := brk[i := brk[cur]];
    forall j | 0 <= j < NTASK && Live(ts'[j]) ensures V.HeapOk(m, ts'[j].pt, V.Old(b[j])) {
      assert brk[j] == brk[j] && brk[cur] == brk[cur];
    }
    forall x, y | 0 <= x < NTASK && 0 <= y < NTASK && Live(ts'[x]) && ts'[x].pt == ts'[y].pt
        ensures V.Old(b[x]) == V.Old(b[y]) {
      var x', y' := if x == i then cur else x, if y == i then cur else y;
      assert ts[x'].pt == ts[y'].pt;
    }
    forall x, y | 0 <= x < NTASK && 0 <= y < NTASK && x != y && Live(ts'[x]) && ts'[x].state == Unused
        ensures ts'[y].pt != ts'[x].pt {
      assert ts[cur].pt != ts[x].pt;
    }
  }

  lemma RetiredTasks(ts: Table, q: seq<nat>, ts': Table, t: nat)
    requires t < NTASK && ts'[t].pt == 0
    requires exists ts1: Table :: I.Detached(ts, q, ts1) && ts' == ts1[t := ts'[t]]
    ensures Fewer(ts, ts')
  {
    var ts1: Table :| I.Detached(ts, q, ts1) && ts' == ts1[t := ts'[t]];
    forall i | 0 <= i < NTASK && i != t
        ensures ts'[i].pt == ts[i].pt && (ts'[i].state == Unused <==> ts[i].state == Unused) {
      assert ts1[i] == ts'[i];
    }
  }

  /** A task is born into slot i, with an address space nobody has. */
  lemma Newborn(ts: Table, ts': Table, spaces: set<nat>, i: nat, pt: nat, m: Mem, m': Mem, brk: seq<nat>, b: nat)
    requires i < NTASK && !Live(ts[i]) && pt != 0 && pt !in spaces && I.SpacesOk(ts, spaces) && Breaks(ts, m, brk)
             && Agreed(ts, brk) && Alone(ts) && Rooted(spaces, m.nodes) && V.SameTrans(m, m')
    requires ts' == ts[i := ts'[i]] && ts'[i].pt == pt
    ensures Agreed(ts', brk[i := b]) && Alone(ts') && (Breaks(ts', m', brk[i := b]) <==> V.HeapOk(m', pt, V.Old(b)))
  {
    hide V.HeapOk, V.Old, V.SameTrans;
    var b' := brk[i := b];
    forall j | 0 <= j < NTASK && j != i && Live(ts[j]) ensures ts[j].pt != pt && V.HeapOk(m', ts[j].pt, V.Old(b'[j])) {
      HasSpace(ts, spaces, j);
      assert V.HeapOk(m, ts[j].pt, V.Old(brk[j]));
      V.HeapSame(m, m', ts[j].pt, V.Old(brk[j]));
    }
    assert b'[i] == b;
    forall x, y | 0 <= x < NTASK && 0 <= y < NTASK && Live(ts'[x]) && ts'[x].pt == ts'[y].pt
        ensures V.Old(b'[x]) == V.Old(b'[y]) {
      assert x != i && y != i ==> ts[x].pt == ts[y].pt;
    }
    forall x, y | 0 <= x < NTASK && 0 <= y < NTASK && x != y && Live(ts'[x]) && ts'[x].state == Unused
        ensures ts'[y].pt != ts'[x].pt {
      assert x != i && y != i ==> ts[y].pt != ts[x].pt;
    }
  }

  // ---- memory changes

  /** Heaps are what the tables say. */
  lemma SameHeaps(ts: Table, m: Mem, m': Mem, brk: seq<nat>)
    requires Breaks(ts, m, brk) && m'.tabs == m.tabs
    ensures Breaks(ts, m', brk)
  {
    hide Trans, V.Pages, V.Old;
    forall i | 0 <= i < NTASK && Live(ts[i]) ensures V.HeapOk(m', ts[i].pt, V.Old(brk[i])) {
      var b := V.Old(brk[i]);
      assert V.HeapOk(m, ts[i].pt, b);
      V.StillOwn(m, m', ts[i].pt, V.UHEAP_BASE / V.PGSIZE, V.Pages(b));
      V.StillOwn(m, m', ts[i].pt, V.Pages(b), V.UHEAP_TOP / V.PGSIZE);
    }
  }

  lemma FreedHome(role: map<nat, Role>, role': map<nat, Role>, pt: nat)
    requires role'.Keys == role.Keys && forall g {:trigger role'[g]} ::
             g in role' ==> role'[g] == if Owned(role[g], pt) then Free else role[g]
    ensures V.AllHome(role) ==> V.AllHome(role')
  {
    hide Owned;
    if V.AllHome(role) {
      forall g | g in role' ensures role'[g] != Held { assert role[g] != Held; }
    }
  }

  lemma StillRooted(spaces: set<nat>, m: Mem, m': Mem)
    requires Rooted(spaces, m.nodes) && V.Keeps(m, m')
    ensures Rooted(spaces, m'.nodes)
  {
    forall p ensures p in spaces <==> p != 0 && (p, 2, 0) in m'.nodes {
      assert p in spaces <==> p != 0 && (p, 2, 0) in m.nodes;
    }
  }

  lemma StillPrivate(m: Mem, m': Mem, root: nat, lo: nat, hi: nat)
    requires Private(m) && V.Keeps(m, m') && V.SameOut(m, m', root, lo, hi) && hi <= V.RAM_PAGE && V.AboveUser(m.role)
    ensures Private(m')
  {
    hide S.NoArena, V.SameOut;
    forall r: nat | (r, 2, 0) in m'.nodes ensures S.NoArena(m', r) { S.StillNoArena(m, m', r, root, lo, hi); }
  }

  lemma FreedPrivate(m: Mem, m': Mem)
    requires Private(m) && m'.tabs == m.tabs && m'.role.Keys == m.role.Keys && m'.nodes.Keys <= m.nodes.Keys
    ensures Private(m')
  {
    hide Trans;
    forall r: nat | (r, 2, 0) in m'.nodes ensures S.NoArena(m', r) {
      assert (r, 2, 0) in m.nodes;
      forall v: nat | v < VPNS && v in m'.role ensures Trans(m'.tabs, r, v) != Some(v) { assert v in m.role; }
    }
  }

  lemma JoinedPrivate(m: Mem, m': Mem, root: nat)
    requires Private(m) && B.Joined(m, m', root) && S.NoArena(m', root)
    ensures Private(m')
  {
    hide Trans;
    forall r: nat | (r, 2, 0) in m'.nodes ensures S.NoArena(m', r) {
      if r != root {
        assert (r, 2, 0) in m.nodes && S.NoArena(m, r);
        forall v: nat | v < VPNS && v in m'.role ensures Trans(m'.tabs, r, v) != Some(v) {
          assert Trans(m'.tabs, r, v) == Trans(m.tabs, r, v) && v in m.role;
        }
      }
    }
  }

  lemma JoinedRoots(spaces: set<nat>, m: Mem, m': Mem, root: nat)
    requires Rooted(spaces, m.nodes) && B.Joined(m, m', root) && root != 0 && (root, 2, 0) !in m.nodes
    ensures Rooted(spaces + {root}, m'.nodes) && root !in spaces
  {
    forall p ensures p in spaces + {root} <==> p != 0 && (p, 2, 0) in m'.nodes {
      assert p in spaces <==> p != 0 && (p, 2, 0) in m.nodes;
    }
  }

  lemma JoinedFrom(m: Mem, m': Mem, root: nat, kend: nat)
    requires B.Joined(m, m', root) && S.From(m.role, kend)
    ensures S.From(m'.role, kend) && V.SameTrans(m, m')
  {
  }

  lemma KeysFrom(role: map<nat, Role>, role': map<nat, Role>, kend: nat)
    requires S.From(role, kend) && role'.Keys == role.Keys
    ensures S.From(role', kend)
  {
    forall f | f in role' ensures f >= kend { assert f in role; }
  }

  lemma KeepsFrom(m: Mem, m': Mem, kend: nat)
    requires S.From(m.role, kend) && V.Keeps(m, m')
    ensures S.From(m'.role, kend)
  {
    KeysFrom(m.role, m'.role, kend);
  }

  /** The pages SYS_SBRK may have mapped or unmapped. */
  lemma Touched(m: Mem, m': Mem, root: nat, brk: nat, d: int, brk': nat) returns (lo: nat, hi: nat)
    requires brk <= V.UHEAP_TOP && (0 <= brk + d ==> brk' <= V.UHEAP_TOP)
    requires 0 <= brk + d ==>
             V.SameOut(m, m', root, V.Min(V.Pages(brk), V.Pages(brk')), V.Max(V.Pages(brk), V.Pages(brk')))
    requires 0 < brk + d + V.PGSIZE < V.PGSIZE ==> V.SameOut(m, m', root, 0, V.Pages(brk))
    requires brk + d + V.PGSIZE <= 0 ==> V.SameTrans(m, m')
    ensures V.SameOut(m, m', root, lo, hi) && hi <= V.RAM_PAGE
  {
    hide V.SameOut, V.SameTrans;
    if 0 <= brk + d { return V.Min(V.Pages(brk), V.Pages(brk')), V.Max(V.Pages(brk), V.Pages(brk')); }
    if 0 < brk + d + V.PGSIZE { return 0, V.Pages(brk); }
    V.SameIsOut2(m, m', root, 0, 0);
    return 0, 0;
  }

  /** Another address space does not notice. */
  lemma HeapElse(m: Mem, m': Mem, root: nat, lo: nat, hi: nat, r: nat, brk: nat)
    requires V.SameOut(m, m', root, lo, hi) && r != root && (r, 2, 0) in m.nodes && V.HeapOk(m, r, brk)
    ensures V.HeapOk(m', r, brk)
  {
    hide Trans, V.Pages;
    V.PagesUp(brk, V.UHEAP_TOP);
    V.StillOwn(m, m', r, V.UHEAP_BASE / V.PGSIZE, V.Pages(brk));
    V.StillOwn(m, m', r, V.Pages(brk), V.UHEAP_TOP / V.PGSIZE);
  }

  /** The break of one address space has become want, for all that have begun in it. */
  ghost predicate Swept(ts: Table, b: seq<nat>, b': seq<nat>, cur: nat, want: nat)
    requires |b| == NTASK && cur < NTASK
  {
    |b'| == NTASK && forall i {:trigger b'[i]} :: 0 <= i < NTASK ==>
        V.Old(b'[i]) == if ts[i].pt == ts[cur].pt && ts[i].state != Unused then want else V.Old(b[i])
  }

  lemma Resized(ts: Table, spaces: set<nat>, m: Mem, m': Mem, b: seq<nat>, b': seq<nat>, cur: nat, want: nat,
      good: bool, lo: nat, hi: nat)
    requires cur < NTASK && ts[cur].state != Unused && Live(ts[cur]) && I.SpacesOk(ts, spaces)
             && Rooted(spaces, m.nodes) && Breaks(ts, m, b) && Agreed(ts, b) && Alone(ts) && Swept(ts, b, b', cur, want)
    requires (V.HeapOk(m', ts[cur].pt, want) <==> good) && V.SameOut(m, m', ts[cur].pt, lo, hi)
    ensures Agreed(ts, b') && (Breaks(ts, m', b') <==> good)
  {
    hide V.HeapOk, V.SameOut, I.SpacesOk, V.Old;
    if good {
      forall i | 0 <= i < NTASK && Live(ts[i]) ensures V.HeapOk(m', ts[i].pt, V.Old(b'[i])) {
        if ts[i].pt != ts[cur].pt {
          HasSpace(ts, spaces, i);
          assert V.HeapOk(m, ts[i].pt, V.Old(b[i]));
          HeapElse(m, m', ts[cur].pt, lo, hi, ts[i].pt, V.Old(b[i]));
        }
      }
    }
    assert V.Old(b'[cur]) == want;
  }

  lemma HeapIs(ts: Table, spaces: set<nat>, m: Mem, brk: seq<nat>, i: nat)
    requires i < NTASK && Live(ts[i]) && ts[i].pt in spaces && Rooted(spaces, m.nodes) && Breaks(ts, m, brk)
    ensures (ts[i].pt, 2, 0) in m.nodes && V.HeapOk(m, ts[i].pt, V.Old(brk[i]))
            && V.UHEAP_BASE <= V.Old(brk[i]) <= V.UHEAP_TOP
  {
    assert brk[i] == brk[i];
  }

  lemma WantIs(m: Mem, pt: nat, b: nat, d: int, want: nat, r: int)
    requires V.UHEAP_BASE <= b <= V.UHEAP_TOP && -0x8000_0000_0000_0000 <= d
    requires V.HeapOk(m, pt, want) <==> 0 <= b + d && (0 <= d || V.UHEAP_BASE < b)
    requires want == if r == -1 then b else V.Break(b, d)
    ensures want > 0 && (0 <= b + d ==> want <= V.UHEAP_TOP)
  {
    hide V.OwnAll, V.NoneAll;
  }

  lemma SweptTo(ts: Table, b: seq<nat>, b': seq<nat>, cur: nat, want: nat, r: int)
    requires cur < NTASK && |b| == |b'| == NTASK && Agreed(ts, b) && Live(ts[cur]) && want > 0
             && (r == -1 ==> want == V.Old(b[cur])) && b'[cur] == want && ts[cur].state != Unused
    requires forall i {:trigger b'[i]} :: 0 <= i < NTASK && i != cur ==>
             b'[i] == if r != -1 && ts[i].pt == ts[cur].pt && ts[i].state != Unused then want else b[i]
    ensures Swept(ts, b, b', cur, want)
  {
  }

  /** Only what a call returned has changed. */
  lemma Answered(ts: Table, ts': Table, m: Mem, b: seq<nat>, b': seq<nat>, cur: nat, want: nat)
    requires cur < NTASK && |b| == NTASK && ts' == ts[cur := ts[cur].(a0 := ts'[cur].a0)]
    ensures (Breaks(ts', m, b') <==> Breaks(ts, m, b')) && (Agreed(ts', b') <==> Agreed(ts, b'))
            && (Alone(ts') <==> Alone(ts)) && (Swept(ts', b, b', cur, want) <==> Swept(ts, b, b', cur, want))
  {
    hide V.HeapOk, Breaks, Agreed, Alone, V.Old;
    FewerTasks(ts, ts', m, b');
    FewerTasks(ts', ts, m, b');
  }

  /** A free slot may have been wiped. */
  lemma Wiped(ts: Table, ts': Table, cur: nat)
    requires cur < NTASK && ts'[cur] == ts[cur].(a0 := ts'[cur].a0)
    requires forall i {:trigger ts'[i]} :: 0 <= i < NTASK && i != cur ==> ts'[i] == ts[i] || ts'[i].pt == 0
    ensures Fewer(ts, ts')
  {
  }

  lemma FewerOne(ts: Table, ts': Table, i: nat)
    requires i < NTASK && !Live(ts'[i]) && ts' == ts[i := ts'[i]]
    ensures Fewer(ts, ts')
  {
  }

  /** The break of a slot nobody is in. */
  lemma FreeSlot(ts: Table, m: Mem, b: seq<nat>, b': seq<nat>, i: nat)
    requires i < NTASK && !Live(ts[i]) && |b| == |b'| == NTASK && b' == b[i := b'[i]] && Breaks(ts, m, b)
             && Agreed(ts, b)
    ensures Breaks(ts, m, b') && Agreed(ts, b')
  {
    hide V.HeapOk, V.Old;
    forall j | 0 <= j < NTASK && Live(ts[j]) ensures V.HeapOk(m, ts[j].pt, V.Old(b'[j])) { assert b[j] == b'[j]; }
  }

  lemma FromStart(role: map<nat, Role>, kend: nat, top: nat)
    requires forall f :: f in role <==> kend <= f < top
    ensures S.From(role, kend)
  {
  }

  lemma NoRoots(m: Mem)
    requires m.nodes == map[]
    ensures Rooted({}, m.nodes) && Private(m)
  {
  }

  /** The breaks at boot. */
  function FirstBreaks(b: nat): seq<nat> { seq(NTASK, i => if i == 0 then b else 0) }

  lemma BootedIs(pt: nat, m: Mem, b: nat)
    requires pt != 0
    ensures var ts, brk := I.Booted(pt), FirstBreaks(b);
            {} + {pt} == {pt} && ts[0].pt == pt && brk[0] == b && |brk| == NTASK && Agreed(ts, brk) && Alone(ts)
                && (Breaks(ts, m, brk) <==> V.HeapOk(m, pt, V.Old(b)))
  {
    hide V.HeapOk, V.Old;
    var ts, brk := I.Booted(pt), FirstBreaks(b);
    assert brk[0] == b && Live(ts[0]);
    forall i | 0 < i < NTASK ensures !Live(ts[i]) { }
  }

  class System {
    const k: I.Kernel
    const s: V.Spaces
    const kend: nat
    var brk: seq<nat>

    /** What holds in every state the system comes to, as long as no step says otherwise. */
    ghost predicate Valid()
      reads this, k, s
    {
      Sane() && Breaks(k.tasks, s.M(), brk)
    }

    /** The same, whatever has become of the heaps. */
    ghost predicate Sane()
      reads this, k, s
    {
      && k.Rest() && s.Valid() && Rooted(k.spaces, s.nodes) && Agreed(k.tasks, brk) && Alone(k.tasks)
      && Private(s.M()) && S.From(s.role, kend) && V.RAM_PAGE < kend <= S.PMM_PAGE && |brk| == NTASK
    }

    /** No frame of the arena is within reach of two tasks, unless they are threads of one
        address space, and then it is at one address. */
    lemma Isolated(i: nat, v1: nat, j: nat, v2: nat, p: nat)
      requires Sane() && i < NTASK && j < NTASK && Live(k.tasks[i]) && Live(k.tasks[j]) && v1 < VPNS && v2 < VPNS
      requires p in s.role && Trans(s.tabs, k.tasks[i].pt, v1) == Some(p) && Trans(s.tabs, k.tasks[j].pt, v2) == Some(p)
      ensures k.tasks[i].pt == k.tasks[j].pt && v1 == v2
    {
      hide Ok, Trans, S.NoArena;
      HasSpace(k.tasks, k.spaces, i);
      HasSpace(k.tasks, k.spaces, j);
      S.Isolation(s.M(), k.tasks[i].pt, v1, k.tasks[j].pt, v2, p);
    }

    /** No task reaches a page table, its own or another's. */
    lemma TablesApart(i: nat, v: nat, x: Key)
      requires Sane() && i < NTASK && Live(k.tasks[i]) && v < VPNS && x in s.nodes
      ensures Trans(s.tabs, k.tasks[i].pt, v) != Some(s.nodes[x])
    {
      hide Ok, Trans, S.NoArena;
      HasSpace(k.tasks, k.spaces, i);
      S.TablesHidden(s.M(), k.tasks[i].pt, v, x);
    }

    /** A step that leaves every task in the address space it was in leaves all this. */
    twostate lemma Unmoved()
      requires old(Valid()) && k.Rest() && k.spaces == old(k.spaces) && Fewer(old(k.tasks), k.tasks)
               && unchanged(s) && brk == old(brk)
      ensures Valid()
    {
      hide Ok, V.Threaded, V.ListOk, V.HeapOk, I.MeetsOk, I.SpacesOk, I.AllGone, Agreed, Alone, Breaks, Private, S.From,
          Rooted, Fewer;
      FewerTasks(old(k.tasks), k.tasks, s.M(), brk);
    }

    /** task_retire, memory and all: what the address space owned goes back to the free
        list exactly when its last task goes, and nothing moves before that. */
    method Retire(t: nat)
      requires Valid() && k.Sound() && t < NTASK && Live(k.tasks[t]) && k.tasks[t].gen + 1 < I.GEN_LIMIT
      modifies k, s
      ensures Valid() && ById(k.tasks, old(k.tasks)[t].id) == NIL
      ensures var pt := old(k.tasks)[t].pt;
              if I.Others(old(k.tasks), t) then s.M() == old(s.M()) && s.list == old(s.list)
              else
                && (pt, 2, 0) !in s.nodes && s.role.Keys == old(s.role).Keys
                && forall g {:trigger s.role[g]} ::
                    g in s.role ==> s.role[g] == if Owned(old(s.role)[g], pt) then Free else old(s.role)[g]
      ensures old(V.AllHome(s.role)) ==> V.AllHome(s.role)
    {
      hide Ok, V.Threaded, V.ListOk, V.HeapOk, Owned, I.Detached, I.Idle, I.Others, Inv, I.MeetsOk, I.SpacesOk,
          I.AllGone, I.Used, Agreed, Alone, Breaks, Private, S.From, Fewer;
      var pt := k.tasks[t].pt;
      HasSpace(k.tasks, k.spaces, t);
      k.Retire(t);
      RetiredTasks(old(k.tasks), old(k.qs).q[t], k.tasks, t);
      FewerTasks(old(k.tasks), k.tasks, s.M(), brk);
      ghost var m1 := s.M();
      if pt !in k.spaces {
        s.FreeTask(pt);
        SameHeaps(k.tasks, m1, s.M(), brk);
        FreedHome(old(s.role), s.role, pt);
        FreedPrivate(m1, s.M());
        KeysFrom(m1.role, s.role, kend);
      }
    }

    /** SYS_SBRK: every thread of the address space sees the new break. It makes sense
        for all of them exactly if it is not below address 0 and a heap that shrinks had
        a page. */
    method Sbrk(d: int)
      requires Valid() && k.Valid() && !k.halted && -0x8000_0000_0000_0000 <= d < 0x8000_0000_0000_0000
      modifies k, s, this
      ensures k.Valid() && !k.halted && Sane()
      ensures var b := V.Old(old(brk)[k.current]); Valid() <==> 0 <= b + d && (0 <= d || V.UHEAP_BASE < b)
      ensures k.current == old(k.current)
              && k.tasks == old(k.tasks)[k.current := old(k.tasks)[k.current].(a0 := k.tasks[k.current].a0)]
      ensures var cur := k.current; var r, b := k.tasks[cur].a0, V.Old(old(brk)[cur]);
              && (r == -1 || r == b) && (r == -1 ==> d > 0)
              && (r == -1 ==> brk == old(brk)[cur := b])
              && (r != -1 ==> Swept(k.tasks, old(brk), brk, cur, V.Break(b, d)))
    {
      hide Ok, V.Threaded, V.ListOk, V.HeapOk, Inv, I.MeetsOk, I.SpacesOk, I.AllGone, V.Stripped, V.SameOut,
          V.SameTrans, V.AllHome, V.Keeps, V.Pages, Agreed, Alone, Breaks, Private, S.From, Rooted, Swept, V.Break;
      var cur := k.current;
      var pt := k.tasks[cur].pt;
      I.LiveIds(k.tasks, k.qs, cur);
      HasSpace(k.tasks, k.spaces, cur);
      ghost var m0, b0 := s.M(), brk;
      HeapIs(k.tasks, k.spaces, m0, brk, cur);
      var r, want := s.Sbrk(pt, brk[cur], d);
      StillRooted(k.spaces, m0, s.M());
      if r != -1 { brk := Sweep(k.tasks, brk, pt, want); }
      brk := brk[cur := want];
      WantIs(s.M(), pt, V.Old(b0[cur]), d, want, r);
      SweptTo(k.tasks, b0, brk, cur, want, r);
      ghost var lo, hi := Touched(m0, s.M(), pt, V.Old(b0[cur]), d, want);
      Resized(k.tasks, k.spaces, m0, s.M(), b0, brk, cur, want,
              0 <= V.Old(b0[cur]) + d && (0 <= d || V.UHEAP_BASE < V.Old(b0[cur])), lo, hi);
      StillPrivate(m0, s.M(), pt, lo, hi);
      KeepsFrom(m0, s.M(), kend);
      ghost var ts := k.tasks;
      k.Answer(r);
      Answered(ts, k.tasks, s.M(), b0, brk, cur, want);
    }

    /** SYS_THREAD: one heap, so one break. */
    method Thread(entry: nat, sp: nat, arg: int)
      requires Valid() && k.Valid() && !k.halted
      modifies k, this
      ensures Valid() && k.Valid() && k.current == old(k.current)
      ensures var cur := k.current; var id := k.tasks[cur].a0;
              if entry == 0 || sp == 0 || I.NoRoom(old(k.tasks)) then id == -1 && brk == old(brk)
              else exists i: nat :: i < NTASK && I.Threaded(old(k.tasks), k.tasks, cur, i, arg)
                                    && ById(k.tasks, id) == i && brk == old(brk)[i := old(brk)[cur]]
    {
      hide Ok, V.Threaded, V.ListOk, V.HeapOk, Inv, I.MeetsOk, I.SpacesOk, I.AllGone, Agreed, Alone, Breaks, Private,
          S.From, Rooted, I.Threaded, Fewer;
      var cur := k.current;
      ghost var ts := k.tasks;
      I.LiveIds(k.tasks, k.qs, cur);
      k.Thread(entry, sp, arg);
      var id := k.tasks[cur].a0;
      if id == -1 {
        Wiped(ts, k.tasks, cur);
        FewerTasks(ts, k.tasks, s.M(), brk);
        return;
      }
      var i := ById(k.tasks, id);
      NowThreaded(ts, k.tasks, cur, i, arg, s.M(), brk);
      brk := brk[i := brk[cur]];
    }

    /** SYS_START. */
    method Start(id: int, arg: int)
      requires Valid() && k.Valid() && !k.halted
      modifies k
      ensures Valid() && k.Valid()
      ensures forall i {:trigger k.tasks[i]} :: 0 <= i < NTASK ==> k.tasks[i].pt == old(k.tasks)[i].pt
    {
      hide Ok, V.Threaded, V.ListOk, V.HeapOk, Inv, I.MeetsOk, I.SpacesOk, I.AllGone, Agreed, Alone, Breaks, Private,
          S.From, Rooted;
      ghost var ts := k.tasks;
      k.Start(id, arg);
      FewerTasks(ts, k.tasks, s.M(), brk);
    }

    /** task_new_empty: NIL if there is no slot, or no frame for the table. Otherwise a task
        that has not begun, whose break makes sense exactly unless six frames were left
        once its table was made. */
    method New() returns (i: int)
      requires Valid() && k.Valid()
      modifies k, s, this
      ensures k.Valid() && Sane() && (i == NIL <==> I.NoRoom(old(k.tasks)) || old(s.list) == [])
      ensures Valid() <==> i == NIL || |old(s.list)| != S.Cost(kend) + 6
      ensures i == NIL ==> s.M() == old(s.M())
      ensures i != NIL ==>
              && 0 <= i < NTASK && !Live(old(k.tasks)[i]) && Live(k.tasks[i]) && ById(k.tasks, k.tasks[i].id) == i
              && k.tasks == old(k.tasks)[i := k.tasks[i]] && k.tasks[i].state == Unused
              && B.Joined(old(s.M()), s.M(), k.tasks[i].pt) && brk == old(brk)[i := brk[i]]
    {
      hide Ok, V.Threaded, V.ListOk, V.HeapOk, Inv, I.MeetsOk, I.SpacesOk, I.AllGone, Agreed, Alone, Breaks, Private,
          S.From, Rooted, B.Joined, S.NoArena, B.StackIs, Fewer, S.Cost, ById, V.AllHome;
      ghost var ts := k.tasks;
      ghost var m0 := s.M();
      i := k.AllocSlot();
      if i == NIL { return; }
      FewerOne(ts, k.tasks, i);
      FewerTasks(ts, k.tasks, m0, brk);
      ghost var ts1 := k.tasks;
      brk := brk[i := 0];
      FreeSlot(ts1, m0, old(brk), brk, i);
      var root, b := B.Birth(s, kend);
      if root == 0 { return NIL; }
      JoinedRoots(k.spaces, m0, s.M(), root);
      JoinedPrivate(m0, s.M(), root);
      JoinedFrom(m0, s.M(), root, kend);
      ghost var spaces := k.spaces;
      k.Settle(i, root, 0, false);
      Newborn(ts1, k.tasks, spaces, i, root, m0, s.M(), brk, b);
      brk := brk[i := b];
    }

    /** Boot: pmm_init, and the first task. */
    constructor (kend: nat, top: nat)
      requires V.RAM_PAGE < kend < top <= S.PMM_PAGE
      ensures fresh(k) && fresh(s) && k.Valid() && !k.halted && Sane() && this.kend == kend
      ensures Valid() <==> top - kend != S.Cost(kend) + 6
      ensures k.current == 0 && k.tasks == I.Booted(k.tasks[0].pt) && Live(k.tasks[0])
              && brk[0] == if top - kend <= S.Cost(kend) + 5 then 0 else V.UHEAP_BASE + V.PGSIZE
    {
      hide Ok, V.Threaded, V.ListOk, V.HeapOk, Inv, I.MeetsOk, I.SpacesOk, I.AllGone, Agreed, Alone, Breaks, Private,
          S.From, Rooted, B.Joined, S.NoArena, B.StackIs, S.Cost, V.AllHome, FirstBreaks, I.Booted;
      var s0 := new V.Spaces(kend, top);
      ghost var m0 := s0.M();
      FromStart(s0.role, kend, top);
      NoRoots(m0);
      var root, b := B.Birth(s0, kend);
      JoinedRoots({}, m0, s0.M(), root);
      JoinedPrivate(m0, s0.M(), root);
      JoinedFrom(m0, s0.M(), root, kend);
      var k0 := new I.Kernel(root);
      BootedIs(root, s0.M(), b);
      this.k, this.s, this.kend := k0, s0, kend;
      brk := FirstBreaks(b);
    }
  }

  // ---- runs

  /** Fourteen frames, with a kernel image of one page: the first task is born with a break
      one page up, and no heap page. */
  method BornBroken() returns (y: System)
    ensures fresh(y) && y.Sane() && y.brk[0] == V.UHEAP_BASE + V.PGSIZE
            && !V.HeapOk(y.s.M(), y.k.tasks[0].pt, y.brk[0])
  {
    hide Ok, V.Threaded, V.ListOk, Inv, I.MeetsOk, I.SpacesOk, I.AllGone, Agreed, Alone, Private, S.From, Rooted,
        V.HeapOk;
    y := new System(0x8_0001, 0x8_000F);
    OneHeap(y.k.tasks, y.s.M(), y.brk);
  }

  lemma OneHeap(ts: Table, m: Mem, brk: seq<nat>)
    requires ts == I.Booted(ts[0].pt) && |brk| == NTASK && Live(ts[0])
    ensures Breaks(ts, m, brk) <==> V.HeapOk(m, ts[0].pt, V.Old(brk[0]))
  {
    hide V.HeapOk, V.Old;
    assert brk[0] == brk[0];
    forall i | 0 < i < NTASK ensures !Live(ts[i]) { assert ts[i] == I.Booted(ts[0].pt)[i]; }
  }

  /** With thirteen it is born with break 0, which is sound until it gives a byte back. */
  method ShrinkNothing() returns (y: System)
    ensures fresh(y) && y.Sane() && y.brk[0] == V.UHEAP_BASE + V.PGSIZE && !y.Valid()
  {
    hide Ok, V.Threaded, V.ListOk, V.HeapOk, Inv, I.MeetsOk, I.SpacesOk, I.AllGone, Agreed, Alone, Private, S.From,
        Rooted, Breaks;
    y := new System(0x8_0001, 0x8_000E);
    y.Sbrk(-1);
  }

  /** With memory enough, the first task takes its break below 0. */
  method ShrinkPastZero() returns (y: System)
    ensures fresh(y) && y.Sane() && y.brk[0] > V.UHEAP_TOP && !y.Valid()
  {
    hide Ok, V.Threaded, V.ListOk, V.HeapOk, Inv, I.MeetsOk, I.SpacesOk, I.AllGone, Agreed, Alone, Private, S.From,
        Rooted, Breaks;
    y := new System(0x8_0001, 0x8_1001);
    y.Sbrk(-0x3000_0000);
  }
}
