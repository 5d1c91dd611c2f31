/** The queue routines of src/ipc.c and the teardown of src/task.c, on the task table. */
module IpcQueue {
  import opened IpcModel

  // ---- joining a queue

  /** enqueue_sender: at the end. */
  function Enqueued(ts: Table, r: nat, s: nat, q: seq<nat>): Table
    requires r < NTASK && s < NTASK && (q != [] ==> q[|q| - 1] < NTASK)
  {
    var t1 := ts[s := ts[s].(sendNext := NIL)];
    if q == [] then t1[r := t1[r].(waitSender := s)]
    else t1[q[|q| - 1] := t1[q[|q| - 1]].(sendNext := s)]
  }

  method Enqueue(ts: Table, r: nat, s: nat, ghost q: seq<nat>) returns (ts': Table)
    requires r < NTASK && s < NTASK && Threads(ts, ts[r].waitSender, q) && s !in q
    ensures (q != [] ==> q[|q| - 1] < NTASK) && ts' == Enqueued(ts, r, s, q)
  {
    ts' := ts[s := ts[s].(sendNext := NIL)];
    if ts[r].waitSender == NIL {
      ts' := ts'[r := ts'[r].(waitSender := s)];
    } else {
      var p := ts[r].waitSender;
      ghost var i := 0;
      assert LinkAt(ts, q, 0);
      while ts'[p].sendNext != NIL
        invariant 0 <= i < |q| && p == q[i] && 0 <= p < NTASK && ts'[p] == ts[p] && LinkAt(ts, q, i)
        decreases |q| - i
      {
        p := ts'[p].sendNext;
        i := i + 1;
        assert LinkAt(ts, q, i);
      }
      ts' := ts'[p := ts'[p].(sendNext := s)];
    }
  }

  lemma EnqueueThreads(ts: Table, r: nat, s: nat, q: seq<nat>)
    requires r < NTASK && s < NTASK && Threads(ts, ts[r].waitSender, q) && Distinct(q) && s !in q && r !in q && r != s
    ensures (q != [] ==> q[|q| - 1] < NTASK)
            && Threads(Enqueued(ts, r, s, q), Enqueued(ts, r, s, q)[r].waitSender, q + [s]) && Distinct(q + [s])
  {
    assert forall i :: 0 <= i < |q| ==> q[i] in q;
    var ts', q' := Enqueued(ts, r, s, q), q + [s];
    forall i | 0 <= i < |q'| ensures LinkAt(ts', q', i) {
      if i < |q| { assert LinkAt(ts, q, i); }
    }
  }

  // ---- leaving a queue

  /** The k-th of q is unlinked. */
  function Unlinked(ts: Table, r: nat, q: seq<nat>, k: nat): Table
    requires r < NTASK && k < |q| && q[k] < NTASK && (k > 0 ==> q[k - 1] < NTASK)
  {
    var nxt := ts[q[k]].sendNext;
    var t1 := if k == 0 then ts[r := ts[r].(waitSender := nxt)] else ts[q[k - 1] := ts[q[k - 1]].(sendNext := nxt)];
    t1[q[k] := t1[q[k]].(sendNext := NIL)]
  }

  function Without(q: seq<nat>, k: nat): seq<nat>
    requires k < |q|
  {
    q[..k] + q[k + 1..]
  }

  lemma WithoutIs(q: seq<nat>, k: nat)
    requires k < |q| && Distinct(q)
    ensures Distinct(Without(q, k)) && forall s :: s in Without(q, k) <==> s in q && s != q[k]
  {
    var w := Without(q, k);
    forall s | s in q && s != q[k] ensures s in w {
      var i :| 0 <= i < |q| && q[i] == s;
      assert w[if i < k then i else i - 1] == s;
    }
    forall s | s in w ensures s in q && s != q[k] {
      var i :| 0 <= i < |w| && w[i] == s;
      assert s == q[if i < k then i else i + 1];
    }
  }

  /** Everybody else stays, in the same order. */
  lemma UnlinkThreads(ts: Table, r: nat, q: seq<nat>, k: nat)
    requires r < NTASK && Threads(ts, ts[r].waitSender, q) && Distinct(q) && r !in q && k < |q|
    ensures q[k] < NTASK && (k > 0 ==> q[k - 1] < NTASK)
    ensures Threads(Unlinked(ts, r, q, k), Unlinked(ts, r, q, k)[r].waitSender, Without(q, k))
  {
    assert forall i :: 0 <= i < |q| ==> q[i] in q;
    assert LinkAt(ts, q, k);
    var ts', w := Unlinked(ts, r, q, k), Without(q, k);
    forall i | 0 <= i < |w| ensures LinkAt(ts', w, i) {
      var j := if i < k then i else i + 1;
      assert w[i] == q[j] && LinkAt(ts, q, j);
    }
  }

  /** dequeue_sender: the first the receive would take, or NIL. */
  method Dequeue(ts: Table, r: nat, closed: bool, want: int, ghost q: seq<nat>)
      returns (ts': Table, s: int, ghost k: nat)
    requires r < NTASK && Threads(ts, ts[r].waitSender, q)
    ensures s == NIL ==> ts' == ts && (q != [] ==> closed) && forall i :: 0 <= i < |q| ==> ts[q[i]].id != want
    ensures s != NIL ==>
            && k < |q| && q[k] == s && s < NTASK && (k > 0 ==> q[k - 1] < NTASK) && ts' == Unlinked(ts, r, q, k)
                         && (closed ==> ts[s].id == want) && (k > 0 ==> closed)
                         && forall i :: 0 <= i < k ==> ts[q[i]].id != want
  {
    ts', s := ts, ts[r].waitSender;
    var prev := NIL;
    k := 0;
    while s != NIL
      invariant k <= |q| && ts' == ts && (if k < |q| then s == q[k] && LinkAt(ts, q, k) else s == NIL)
      invariant if k == 0 then prev == NIL else prev == q[k - 1] && 0 <= prev < NTASK
      invariant (k > 0 ==> closed) && forall i :: 0 <= i < k ==> ts[q[i]].id != want
      decreases |q| - k
    {
      assert LinkAt(ts, q, k);
      if !closed || ts[s].id == want {
        var nxt := ts[s].sendNext;
        if prev != NIL {
          ts' := ts[prev := ts[prev].(sendNext := nxt)];
        } else {
          ts' := ts[r := ts[r].(waitSender := nxt)];
        }
        ts' := ts'[s := ts'[s].(sendNext := NIL)];
        return;
      }
      prev, s := s, ts[s].sendNext;
      k := k + 1;
      assert k < |q| ==> LinkAt(ts, q, k);
    }
  }

  // ---- parking and meeting

  function PutQ(qs: Queues, r: nat, q: seq<nat>): Queues
    requires r < |qs.q|
  {
    qs.(q := qs.q[r := q])
  }

  /** Only links changed: the head of r's queue, and the links of slots in q. */
  ghost predicate Relinked(ts: Table, ts': Table, r: nat, q: seq<nat>) {
    forall j {:trigger ts'[j]} :: 0 <= j < NTASK ==>
      && ts'[j] == ts[j].(waitSender := ts'[j].waitSender, sendNext := ts'[j].sendNext)
      && (j != r ==> ts'[j].waitSender == ts[j].waitSender) && (j !in q ==> ts'[j].sendNext == ts[j].sendNext)
  }

  lemma EnqueueRelinks(ts: Table, r: nat, s: nat, q: seq<nat>)
    requires r < NTASK && s < NTASK && (q != [] ==> q[|q| - 1] < NTASK)
    ensures Relinked(ts, Enqueued(ts, r, s, q), r, q + [s])
  {
    if q != [] { assert q[|q| - 1] in q + [s]; }
    assert (q + [s])[|q|] == s;
  }

  lemma UnlinkRelinks(ts: Table, r: nat, q: seq<nat>, k: nat)
    requires r < NTASK && k < |q| && q[k] < NTASK && (k > 0 ==> q[k - 1] < NTASK)
    ensures Relinked(ts, Unlinked(ts, r, q, k), r, q)
  {
    assert q[k] in q && (k > 0 ==> q[k - 1] in q);
  }

  /** A queue whose members kept their links and are still sending. */
  lemma QueueKept(ts: Table, qs: Queues, ts': Table, qs': Queues, x: nat)
    requires x < NTASK && |qs.q| == NTASK && |qs.dest| == NTASK && |qs'.q| == NTASK && |qs'.dest| == NTASK
             && QueueOk(ts, qs, x)
    requires qs'.q[x] == qs.q[x] && ts'[x].waitSender == ts[x].waitSender && (Live(ts[x]) ==> Live(ts'[x]))
    requires forall s :: s in qs.q[x] && 0 <= s < NTASK ==>
             ts'[s].sendNext == ts[s].sendNext && Sending(ts'[s]) && qs'.dest[s] == qs.dest[s]
    ensures QueueOk(ts', qs', x)
  {
    forall i | 0 <= i < |qs.q[x]| ensures ts'[qs.q[x][i]].sendNext == ts[qs.q[x][i]].sendNext {
      assert qs.q[x][i] in qs.q[x];
      assert qs.dest[qs.q[x][i]] == x;
      assert qs'.dest[qs.q[x][i]] == x;
    }
    ThreadsSame(ts, ts', ts[x].waitSender, qs.q[x]);
  }

  /** A running task parks on the queue of one that exists and does not want it. */
  lemma ParkInv(ts: Table, qs: Queues, r: nat, s: nat, t: Task)
    requires Inv(ts, qs) && r < NTASK && s < NTASK && r != s && Live(ts[r]) && ts[s].state == Running
             && !Wants(ts[r], ts[s].id)
    requires t == ts[s].(state := Blocked, sendVa := t.sendVa, sendLen := t.sendLen, sendNext := NIL,
             waitingRecv := false)
    requires var q := qs.q[r];
             (q != [] ==> q[|q| - 1] < NTASK) && Enqueued(ts, r, s, q)[s].waitSender == ts[s].waitSender
    ensures var q := qs.q[r]; Inv(Enqueued(ts, r, s, q)[s := t], PutQ(qs, r, q + [s]).(dest := qs.dest[s := r]))
  {
    hide Enqueued, Threads, Distinct;
    var q := qs.q[r];
    NotQueued(ts, qs, s);
    assert QueueOk(ts, qs, r) && TaskOk(ts, qs, s);
    EnqueueThreads(ts, r, s, q);
    EnqueueRelinks(ts, r, s, q);
    EnqueueEnd(ts, r, s, q);
    var ts0 := Enqueued(ts, r, s, q);
    var ts', qs' := ts0[s := t], PutQ(qs, r, q + [s]).(dest := qs.dest[s := r]);
    forall x | 0 <= x < NTASK && x != r ensures QueueOk(ts', qs', x) {
      assert QueueOk(ts, qs, x);
      OtherQueue(ts, qs, r, x);
      QueueKept(ts, qs, ts', qs', x);
    }
    MemberLinks(ts0, ts', q + [s], s);
    ThreadsSame2(ts0, ts', ts0[r].waitSender, q + [s]);
    assert QueueOk(ts', qs', r);
    forall i | 0 <= i < NTASK ensures TaskOk(ts', qs', i) {
      ParkTask(ts, qs, r, s, ts', qs', i);
    }
  }

  /** Who is not sending is in no queue. */
  lemma NotQueued(ts: Table, qs: Queues, s: nat)
    requires Inv(ts, qs) && s < NTASK && !Sending(ts[s])
    ensures forall x {:trigger qs.q[x]} :: 0 <= x < NTASK ==> s !in qs.q[x]
  {
    forall x | 0 <= x < NTASK ensures s !in qs.q[x] { assert QueueOk(ts, qs, x); }
  }

  lemma EnqueueEnd(ts: Table, r: nat, s: nat, q: seq<nat>)
    requires r < NTASK && s < NTASK && (q != [] ==> q[|q| - 1] < NTASK) && s !in q && r != s
    ensures Enqueued(ts, r, s, q)[s].sendNext == NIL
  {
    if q != [] { assert q[|q| - 1] in q; }
  }

  lemma MemberLinks(ts: Table, ts': Table, q: seq<nat>, s: nat)
    requires s < NTASK && ts' == ts[s := ts'[s]] && ts'[s].sendNext == ts[s].sendNext
    ensures forall i :: 0 <= i < NTASK ==> ts'[i].sendNext == ts[i].sendNext
  {
  }

  lemma ThreadsSame2(ts: Table, ts': Table, head: int, q: seq<nat>)
    requires Threads(ts, head, q) && forall i :: 0 <= i < NTASK ==> ts'[i].sendNext == ts[i].sendNext
    ensures Threads(ts', head, q)
  {
    ThreadsSame(ts, ts', head, q);
  }

  lemma ParkTask(ts: Table, qs: Queues, r: nat, s: nat, ts': Table, qs': Queues, i: nat)
    requires Inv(ts, qs) && r < NTASK && s < NTASK && i < NTASK && r != s && ts[s].state == Running
             && !Wants(ts[r], ts[s].id)
    requires |qs'.q| == NTASK && |qs'.dest| == NTASK && qs' == PutQ(qs, r, qs.q[r] + [s]).(dest := qs.dest[s := r])
    requires forall j {:trigger ts'[j]} ::
             0 <= j < NTASK && j != s ==>
             ts'[j] == ts[j].(waitSender := ts'[j].waitSender, sendNext := ts'[j].sendNext)
    requires ts'[s] == ts[s].(state := Blocked, sendVa := ts'[s].sendVa, sendLen := ts'[s].sendLen, sendNext := NIL,
             waitingRecv := false)
    ensures TaskOk(ts', qs', i)
  {
    assert TaskOk(ts, qs, i) && TaskOk(ts, qs, s) && QueueOk(ts, qs, r);
    ByIdSame(ts, ts', ts[i].recvFrom);
    ByIdSame(ts, ts', ts[i].waitFor);
    assert (qs.q[r] + [s])[|qs.q[r]|] == s;
  }

  /** Queues of different slots share nobody. */
  lemma OtherQueue(ts: Table, qs: Queues, r: nat, x: nat)
    requires Inv(ts, qs) && r < NTASK && x < NTASK && r != x
    ensures forall s :: s in qs.q[x] ==> s !in qs.q[r]
  {
    assert QueueOk(ts, qs, r) && QueueOk(ts, qs, x);
  }

  /** The k-th sender waiting for r leaves the queue and goes on as t. */
  lemma LeaveInv(ts: Table, qs: Queues, r: nat, k: nat, t: Task)
    requires Inv(ts, qs) && r < NTASK && k < |qs.q[r]| && qs.q[r][k] < NTASK && (k > 0 ==> qs.q[r][k - 1] < NTASK)
    requires var s := qs.q[r][k]; t == ts[s].(state := Runnable, a0 := t.a0, sendNext := NIL)
    ensures var s := qs.q[r][k]; Inv(Unlinked(ts, r, qs.q[r], k)[s := t], PutQ(qs, r, Without(qs.q[r], k)))
  {
    hide Unlinked, Threads, Distinct, Without;
    var q := qs.q[r];
    var s := q[k];
    assert QueueOk(ts, qs, r) && s in q;
    UnlinkThreads(ts, r, q, k);
    UnlinkRelinks(ts, r, q, k);
    UnlinkEnd(ts, r, q, k);
    WithoutIs(q, k);
    var ts0 := Unlinked(ts, r, q, k);
    var ts', qs' := ts0[s := t], PutQ(qs, r, Without(q, k));
    forall x | 0 <= x < NTASK && x != r ensures QueueOk(ts', qs', x) {
      assert QueueOk(ts, qs, x);
      OtherQueue(ts, qs, r, x);
      QueueKept(ts, qs, ts', qs', x);
    }
    MemberLinks(ts0, ts', q, s);
    ThreadsSame2(ts0, ts', ts0[r].waitSender, Without(q, k));
    assert QueueOk(ts', qs', r);
    forall i | 0 <= i < NTASK ensures TaskOk(ts', qs', i) {
      LeaveTask(ts, qs, r, k, ts', qs', i);
    }
  }

  lemma UnlinkEnd(ts: Table, r: nat, q: seq<nat>, k: nat)
    requires r < NTASK && k < |q| && q[k] < NTASK && (k > 0 ==> q[k - 1] < NTASK) && r !in q
    ensures Unlinked(ts, r, q, k)[q[k]].sendNext == NIL && Unlinked(ts, r, q, k)[q[k]].waitSender == ts[q[k]].waitSender
  {
    assert q[k] in q;
  }

  lemma LeaveTask(ts: Table, qs: Queues, r: nat, k: nat, ts': Table, qs': Queues, i: nat)
    requires Inv(ts, qs) && r < NTASK && i < NTASK && k < |qs.q[r]| && qs.q[r][k] < NTASK
    requires |qs'.q| == NTASK && qs'.dest == qs.dest
    requires var s := qs.q[r][k];
             && qs' == PutQ(qs, r, Without(qs.q[r], k))
             && (forall x :: x in Without(qs.q[r], k) <==> x in qs.q[r] && x != s)
             && (forall j {:trigger ts'[j]} ::
                 0 <= j < NTASK && j != s ==>
                 ts'[j] == ts[j].(waitSender := ts'[j].waitSender, sendNext := ts'[j].sendNext))
             && ts'[s] == ts[s].(state := Runnable, a0 := ts'[s].a0, sendNext := NIL)
    ensures TaskOk(ts', qs', i)
  {
    assert TaskOk(ts, qs, i) && QueueOk(ts, qs, r) && TaskOk(ts, qs, qs.q[r][k]);
    assert qs.q[r][k] in qs.q[r];
    ByIdSame(ts, ts', ts[i].recvFrom);
    ByIdSame(ts, ts', ts[i].waitFor);
  }

  // ---- retiring a task

  /** Everything but what concerns slot t itself. */
  ghost predicate InvBut(ts: Table, qs: Queues, t: nat) {
    && |qs.q| == NTASK && |qs.dest| == NTASK
    && (forall r {:trigger QueueOk(ts, qs, r)} :: 0 <= r < NTASK ==> QueueOk(ts, qs, r))
    && (forall i {:trigger TaskOk(ts, qs, i)} :: 0 <= i < NTASK && i != t ==> TaskOk(ts, qs, i))
  }

  function Failed(s: Task): Task { s.(a0 := -1, state := Runnable, sendNext := NIL) }

  /** The senders waiting for t fail, and t no longer receives. */
  function Dismissed(ts: Table, t: nat, q: seq<nat>): Table {
    seq(NTASK, i requires 0 <= i < NTASK => if i in q then Failed(ts[i])
        else if i == t then ts[i].(waitSender := NIL, waitingRecv := false) else ts[i])
  }

  method Dismiss(ts: Table, t: nat, ghost q: seq<nat>) returns (ts': Table)
    requires t < NTASK && Threads(ts, ts[t].waitSender, q) && Distinct(q) && t !in q
    ensures ts' == Dismissed(ts, t, q)
  {
    ts' := ts;
    var s := ts[t].waitSender;
    ghost var k := 0;
    assert q != [] ==> LinkAt(ts, q, 0);
    while s != NIL
      invariant k <= |q| && (if k < |q| then s == q[k] && LinkAt(ts, q, k) else s == NIL)
      invariant forall i :: 0 <= i < NTASK ==> ts'[i] == if i in q[..k] then Failed(ts[i]) else ts[i]
      decreases |q| - k
    {
      NotBefore(q, k);
      assert q[..k + 1] == q[..k] + [q[k]];
      var nxt := ts'[s].sendNext;
      ts' := ts'[s := Failed(ts'[s])];
      s, k := nxt, k + 1;
      assert k < |q| ==> LinkAt(ts, q, k);
    }
    assert q[..|q|] == q;
    ts' := ts'[t := ts'[t].(waitSender := NIL, waitingRecv := false)];
  }

  lemma NotBefore(q: seq<nat>, k: nat)
    requires Distinct(q) && k < |q|
    ensures q[k] !in q[..k]
  {
    assert forall j :: 0 <= j < k ==> q[..k][j] == q[j];
  }

  lemma DismissInv(ts: Table, qs: Queues, t: nat)
    requires Inv(ts, qs) && t < NTASK
    ensures InvBut(Dismissed(ts, t, qs.q[t]), PutQ(qs, t, []), t)
  {
    hide Threads;
    var ts', qs' := Dismissed(ts, t, qs.q[t]), PutQ(qs, t, []);
    forall x | 0 <= x < NTASK && x != t ensures QueueOk(ts', qs', x) {
      assert QueueOk(ts, qs, x) && QueueOk(ts, qs, t);
      OtherQueue(ts, qs, t, x);
      DismissQueue(ts, qs, t, x);
    }
    assert QueueOk(ts, qs, t);
    NoThreads(ts', []);
    assert QueueOk(ts', qs', t);
    forall i | 0 <= i < NTASK && i != t ensures TaskOk(ts', qs', i) {
      assert TaskOk(ts, qs, i) && QueueOk(ts, qs, t);
      DismissTask(ts, qs, t, i);
    }
  }

  lemma NoThreads(ts: Table, q: seq<nat>)
    requires q == []
    ensures Threads(ts, NIL, q)
  {
  }

  lemma DismissQueue(ts: Table, qs: Queues, t: nat, x: nat)
    requires Inv(ts, qs) && t < NTASK && x < NTASK && x != t && forall s :: s in qs.q[x] ==> s !in qs.q[t]
    ensures QueueOk(Dismissed(ts, t, qs.q[t]), PutQ(qs, t, []), x)
  {
    hide Threads;
    assert QueueOk(ts, qs, x) && QueueOk(ts, qs, t);
    var ts' := Dismissed(ts, t, qs.q[t]);
    QueueKept(ts, qs, ts', PutQ(qs, t, []), x);
  }

  lemma DismissPeople(ts: Table, qs: Queues, t: nat)
    requires Inv(ts, qs) && t < NTASK
    ensures SamePeople(ts, Dismissed(ts, t, qs.q[t]))
  {
    assert QueueOk(ts, qs, t);
  }

  lemma DismissTask(ts: Table, qs: Queues, t: nat, i: nat)
    requires Inv(ts, qs) && t < NTASK && i < NTASK && i != t
    ensures TaskOk(Dismissed(ts, t, qs.q[t]), PutQ(qs, t, []), i)
  {
    hide Threads, Distinct;
    var ts' := Dismissed(ts, t, qs.q[t]);
    assert TaskOk(ts, qs, i) && QueueOk(ts, qs, t) && QueueOk(ts, qs, i);
    DismissPeople(ts, qs, t);
    ByIdSame(ts, ts', ts[i].recvFrom);
    ByIdSame(ts, ts', ts[i].waitFor);
  }

  /** Looking for t in the queue of r. */
  method UnqueueFrom(ts: Table, r: nat, t: nat, ghost q: seq<nat>) returns (ts': Table, found: bool, ghost k: nat)
    requires r < NTASK && t < NTASK && Threads(ts, ts[r].waitSender, q)
    ensures found <==> t in q
    ensures !found ==> ts' == ts
    ensures found ==> k < |q| && q[k] == t && (k > 0 ==> q[k - 1] < NTASK) && ts' == Unlinked(ts, r, q, k)
  {
    ts' := ts;
    var prev, s := NIL, ts[r].waitSender;
    k := 0;
    while s != NIL
      invariant k <= |q| && ts' == ts && (if k < |q| then s == q[k] && LinkAt(ts, q, k) else s == NIL)
      invariant if k == 0 then prev == NIL else prev == q[k - 1] && 0 <= prev < NTASK
      invariant forall i :: 0 <= i < k ==> q[i] != t
      decreases |q| - k
    {
      assert LinkAt(ts, q, k);
      if s == t {
        var nxt := ts[s].sendNext;
        if prev != NIL {
          ts' := ts[prev := ts[prev].(sendNext := nxt)];
        } else {
          ts' := ts[r := ts[r].(waitSender := nxt)];
        }
        ts' := ts'[s := ts'[s].(sendNext := NIL)];
        return ts', true, k;
      }
      prev, s := s, ts[s].sendNext;
      k := k + 1;
      assert k < |q| ==> LinkAt(ts, q, k);
    }
    found := false;
  }

  lemma UnqueueInv(ts: Table, qs: Queues, t: nat, r: nat, k: nat)
    requires InvBut(ts, qs, t) && t < NTASK && r < NTASK && k < |qs.q[r]| && qs.q[r][k] == t
             && (k > 0 ==> qs.q[r][k - 1] < NTASK)
    ensures InvBut(Unlinked(ts, r, qs.q[r], k), PutQ(qs, r, Without(qs.q[r], k)), t) && t !in Without(qs.q[r], k)
  {
    hide Unlinked, Threads, Distinct, Without;
    var q := qs.q[r];
    assert QueueOk(ts, qs, r) && t in q;
    UnlinkThreads(ts, r, q, k);
    UnlinkRelinks(ts, r, q, k);
    WithoutIs(q, k);
    var ts', qs' := Unlinked(ts, r, q, k), PutQ(qs, r, Without(q, k));
    forall x | 0 <= x < NTASK && x != r ensures QueueOk(ts', qs', x) {
      assert QueueOk(ts, qs, x);
      QueueKept(ts, qs, ts', qs', x);
    }
    assert QueueOk(ts', qs', r);
    forall i | 0 <= i < NTASK && i != t ensures TaskOk(ts', qs', i) {
      assert TaskOk(ts, qs, i);
      ByIdSame(ts, ts', ts[i].recvFrom);
      ByIdSame(ts, ts', ts[i].waitFor);
    }
  }

  /** What the end of the task named id means to another. */
  function Told(t: Task, id: int): Task {
    var t1 := if t.state == Blocked && t.waitFor == id then t.(waitFor := 0, a0 := 0, state := Runnable) else t;
    if t1.state == Blocked && t1.waitingRecv && t1.recvClosed
        && t1.recvFrom == id then t1.(waitingRecv := false, recvClosed := false, a0 := -1, state := Runnable) else t1
  }

  function AllTold(ts: Table, id: int): Table {
    seq(NTASK, i requires 0 <= i < NTASK => Told(ts[i], id))
  }

  method TellAll(ts: Table, id: int) returns (ts': Table)
    ensures ts' == AllTold(ts, id)
  {
    ts' := ts;
    for i := 0 to NTASK
      invariant forall j :: 0 <= j < NTASK ==> ts'[j] == if j < i then Told(ts[j], id) else ts[j]
    {
      if ts'[i].state == Blocked && ts'[i].waitFor == id {
        ts' := ts'[i := ts'[i].(waitFor := 0, a0 := 0, state := Runnable)];
      }
      if ts'[i].state == Blocked && ts'[i].waitingRecv && ts'[i].recvClosed && ts'[i].recvFrom == id {
        ts' := ts'[i := ts'[i].(waitingRecv := false, recvClosed := false, a0 := -1, state := Runnable)];
      }
    }
  }

  /** Nobody but t still counts on the task named id. */
  ghost predicate NoneNames(ts: Table, t: nat, id: int) {
    forall i :: 0 <= i < NTASK && i != t ==>
        !(Waiting(ts[i]) && ts[i].waitFor == id) && !(Receiving(ts[i]) && ts[i].recvClosed && ts[i].recvFrom == id)
  }

  /** Nobody but t is blocked without waiting for a task to end. */
  ghost predicate Spared(ts: Table, t: nat) {
    forall i :: 0 <= i < NTASK && i != t ==> !(ts[i].state == Blocked && ts[i].waitFor == 0)
  }

  lemma ToldInv(ts: Table, qs: Queues, t: nat, id: int)
    requires InvBut(ts, qs, t) && t < NTASK && (id != 0 || Spared(ts, t))
             && forall r :: 0 <= r < NTASK ==> t !in qs.q[r]
    ensures InvBut(AllTold(ts, id), qs, t) && NoneNames(AllTold(ts, id), t, id)
  {
    hide Threads, Distinct;
    var ts' := AllTold(ts, id);
    forall r | 0 <= r < NTASK ensures QueueOk(ts', qs, r) {
      assert QueueOk(ts, qs, r);
      QueueKept(ts, qs, ts', qs, r);
    }
    forall i | 0 <= i < NTASK && i != t ensures TaskOk(ts', qs, i) {
      assert TaskOk(ts, qs, i);
      ByIdSame(ts, ts', ts[i].recvFrom);
      ByIdSame(ts, ts', ts[i].waitFor);
    }
  }

  /** What is left in the slot of a retired task. */
  function Dead(t: Task): Task { t.(pt := 0, state := Unused, gen := t.gen + 1) }

  /** The slot is free, and whatever still names its id names nobody. */
  lemma DeadInv(ts: Table, qs: Queues, t: nat)
    requires InvBut(ts, qs, t) && t < NTASK && qs.q[t] == [] && NoneNames(ts, t, ts[t].id) && !ts[t].waitingRecv
    requires forall r :: 0 <= r < NTASK ==> t !in qs.q[r]
    ensures Inv(ts[t := Dead(ts[t])], qs)
  {
    hide Threads, Distinct;
    var ts' := ts[t := Dead(ts[t])];
    forall r | 0 <= r < NTASK ensures QueueOk(ts', qs, r) {
      assert QueueOk(ts, qs, r);
      if r == t { EmptyQueue(ts, qs, ts', t); } else { QueueKept(ts, qs, ts', qs, r); }
    }
    forall i | 0 <= i < NTASK ensures TaskOk(ts', qs, i) {
      if i != t {
        assert TaskOk(ts, qs, i);
        DeadName(ts, t, ts[i].recvFrom);
        DeadName(ts, t, ts[i].waitFor);
      }
    }
  }

  lemma EmptyQueue(ts: Table, qs: Queues, ts': Table, t: nat)
    requires t < NTASK && |qs.q| == NTASK && |qs.dest| == NTASK && QueueOk(ts, qs, t) && qs.q[t] == []
             && ts'[t].waitSender == ts[t].waitSender
    ensures QueueOk(ts', qs, t)
  {
    NoThreads(ts', []);
  }

  lemma DeadName(ts: Table, t: nat, id: int)
    requires t < NTASK
    ensures var ts' := ts[t := Dead(ts[t])]; id != ts[t].id ==> ById(ts', id) == ById(ts, id)
  {
  }
}
