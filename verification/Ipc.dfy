/** The kernel's side of messages and task lifetime: src/ipc.c, and the parts of
    src/task.c that create, schedule, wait for and retire tasks. */
module Ipc {
  import opened Common
  import opened IpcModel
  import opened IpcQueue

  const IRQ_SENDER: int := -2
  const TIMER_SENDER: int := -3
  const GEN_LIMIT: nat := 0x80_0000

  /** Bytes by address space and virtual address; absent means unmapped. */
  type Memory = map<(nat, nat), byte>

  /** A message that changed hands: who sent it, who received it, what arrived. */
  datatype Meet = Meet(from: int, to: int, data: seq<byte>)

  /** An id some task has or had. */
  predicate Known(ts: Table, id: int) { 0 <= id && id % 256 < NTASK && id / 256 <= ts[id % 256].gen }

  /** Every message went from one task to another. */
  ghost predicate MeetsOk(ts: Table, ms: seq<Meet>) {
    forall m :: m in ms ==> m.from != m.to && Known(ts, m.from) && Known(ts, m.to)
  }

  // ---- copying a message

  ghost predicate Mapped(m: Memory, pt: nat, va: nat, n: int) {
    forall i {:trigger Cell(pt, va, i)} :: 0 <= i < n ==> Cell(pt, va, i) in m
  }

  function Cell(pt: nat, va: nat, i: nat): (nat, nat) { (pt, va + i) }

  /** n bytes copied, lowest address first. */
  ghost function Copied(m: Memory, dpt: nat, dva: nat, spt: nat, sva: nat, n: nat): Memory {
    if n == 0 then m else
    var c := Copied(m, dpt, dva, spt, sva, n - 1);
    if Cell(spt, sva, n - 1) in c then c[Cell(dpt, dva, n - 1) := c[Cell(spt, sva, n - 1)]] else c
  }

  /** Different address spaces, or stretches of one that do not overlap. */
  predicate Separate(dpt: nat, dva: nat, spt: nat, sva: nat, n: nat) {
    dpt != spt || dva + n <= sva || sva + n <= dva
  }

  /** What arrives is what was sent, and nothing else changes. */
  lemma {:induction false} CopiedIs(m: Memory, dpt: nat, dva: nat, spt: nat, sva: nat, n: nat)
    requires Mapped(m, dpt, dva, n) && Mapped(m, spt, sva, n) && Separate(dpt, dva, spt, sva, n)
    ensures var c := Copied(m, dpt, dva, spt, sva, n);
            && c.Keys == m.Keys
            && (forall i {:trigger Cell(dpt, dva, i)} ::
                0 <= i < n ==>
                Cell(dpt, dva, i) in c && Cell(spt, sva, i) in m && c[Cell(dpt, dva, i)] == m[Cell(spt, sva, i)])
            && (forall a {:trigger c[a]} :: a in m && !(a.0 == dpt && dva <= a.1 < dva + n) ==> c[a] == m[a])
  {
    if n > 0 {
      CopiedIs(m, dpt, dva, spt, sva, n - 1);
      assert Cell(spt, sva, n - 1) in m && Cell(dpt, dva, n - 1) in m;
    }
  }

  /** What stands at an address. */
  ghost function Peek(m: Memory, pt: nat, va: nat, n: nat): (r: seq<byte>)
    requires Mapped(m, pt, va, n)
    ensures |r| == n
  {
    seq(n, i requires 0 <= i < n => assert Cell(pt, va, i) in m; m[Cell(pt, va, i)])
  }

  /** Between buffers that do not overlap, what is found in the one is what stood in the
      other. */
  lemma PeekCopied(m: Memory, dpt: nat, dva: nat, spt: nat, sva: nat, n: nat)
    requires Mapped(m, dpt, dva, n) && Mapped(m, spt, sva, n) && Separate(dpt, dva, spt, sva, n)
    ensures Mapped(Copied(m, dpt, dva, spt, sva, n), dpt, dva, n)
    ensures Peek(Copied(m, dpt, dva, spt, sva, n), dpt, dva, n) == Peek(m, spt, sva, n)
  {
    hide Copied;
    CopiedIs(m, dpt, dva, spt, sva, n);
    var c := Copied(m, dpt, dva, spt, sva, n);
    forall i | 0 <= i < n ensures Peek(c, dpt, dva, n)[i] == Peek(m, spt, sva, n)[i] {
      assert Cell(dpt, dva, i) in c && Cell(spt, sva, i) in m;
    }
  }

  /** Fewer than n bytes copied. */
  ghost predicate Partly(m: Memory, m': Memory, dpt: nat, dva: nat, spt: nat, sva: nat, n: nat) {
    exists i: nat :: i < n && m' == Copied(m, dpt, dva, spt, sva, i)
  }

  /** How much of a message a receiver takes. */
  function Fits(slen: int, rlen: int): int { if slen < rlen then slen else rlen }

  // ---- ids

  /** The id of a task that has been and gone. */
  predicate Gone(ts: Table, id: int) { 0 <= id && id % 256 < NTASK && id / 256 < ts[id % 256].gen }

  /** An id once retired names nobody ever again, however often its slot is reused. */
  lemma GoneForGood(ts: Table, qs: Queues, id: int)
    requires Inv(ts, qs) && Gone(ts, id)
    ensures ById(ts, id) == NIL
  {
    assert TaskOk(ts, qs, id % 256);
  }

  ghost predicate AllGone(ts: Table, retired: set<int>) { forall id :: id in retired ==> Gone(ts, id) }

  ghost predicate SpacesOk(ts: Table, spaces: set<nat>) {
    forall p {:trigger p in spaces} :: p in spaces <==> p != 0 && Used(ts, p)
  }

  ghost predicate Used(ts: Table, p: nat) { exists i :: 0 <= i < NTASK && ts[i].pt == p }

  // ---- scheduling

  predicate Ready(s: State) { s == Runnable || s == Running }

  function Turn(start: int, k: nat): nat { (start + k) % NTASK }

  /** The loop of schedule: the first runnable slot after start, going round. */
  method FindRunnable(ts: Table, start: int) returns (j: int)
    ensures j == NIL ==> forall i :: 0 <= i < NTASK ==> ts[i].state != Runnable
    ensures j != NIL ==> 0 <= j < NTASK && ts[j].state == Runnable
  {
    for i := 1 to NTASK + 1
      invariant forall k :: 1 <= k < i ==> ts[Turn(start, k)].state != Runnable
    {
      j := Turn(start, i);
      if ts[j].state == Runnable { return; }
    }
    forall i | 0 <= i < NTASK ensures ts[i].state != Runnable {
      var k := Around(start, i);
      assert ts[Turn(start, k)].state != Runnable;
    }
    j := NIL;
  }

  /** Only who runs may have changed. */
  ghost predicate Shuffled(ts: Table, ts': Table) {
    forall i {:trigger ts'[i]} :: 0 <= i < NTASK ==>
      if Ready(ts[i].state) then Ready(ts'[i].state) && ts'[i] == ts[i].(state := ts'[i].state) else ts'[i] == ts[i]
  }

  /** Nobody but slot me could run. */
  ghost predicate Alone(ts: Table, me: nat) { forall i :: 0 <= i < NTASK && i != me ==> !Ready(ts[i].state) }

  /** Of the others, only who runs and the links may have changed. */
  ghost predicate Elsewhere(ts: Table, ts': Table, me: nat) {
    forall i {:trigger ts'[i]} :: 0 <= i < NTASK && i != me ==>
      && ts'[i] == ts[i].(state := ts'[i].state, waitSender := ts'[i].waitSender, sendNext := ts'[i].sendNext)
      && (Ready(ts'[i].state) <==> Ready(ts[i].state)) && (!Ready(ts[i].state) ==> ts'[i].state == ts[i].state)
  }

  lemma ShuffledElsewhere(ts: Table, ts1: Table, ts': Table, me: nat)
    requires me < NTASK && Shuffled(ts1, ts') && ts1[me].state == Blocked
    requires forall i {:trigger ts1[i]} ::
             0 <= i < NTASK && i != me ==>
             ts1[i] == ts[i].(waitSender := ts1[i].waitSender, sendNext := ts1[i].sendNext)
    ensures Elsewhere(ts, ts', me) && ts'[me] == ts1[me]
    ensures Alone(ts, me) <==> forall i :: 0 <= i < NTASK ==> !Ready(ts1[i].state)
  {
    forall i | 0 <= i < NTASK && i != me
        ensures ts1[i] == ts[i].(waitSender := ts1[i].waitSender, sendNext := ts1[i].sendNext)
        && ts1[i].state == ts[i].state {}
  }

  /** The running task goes back among the runnable. */
  method Preempt(ts: Table, current: nat) returns (ts': Table)
    requires current < NTASK && forall i :: 0 <= i < NTASK && ts[i].state == Running ==> i == current
    ensures Shuffled(ts, ts') && forall i :: 0 <= i < NTASK ==> ts'[i].state != Running
  {
    ts' := ts;
    if ts[current].state == Running { ts' := ts[current := ts[current].(state := Runnable)]; }
  }

  /** schedule: some runnable task runs, if there is one. */
  method Schedule(ts: Table, current: nat) returns (ts': Table, cur: nat, halted: bool)
    requires current < NTASK && forall i :: 0 <= i < NTASK && ts[i].state == Running ==> i == current
    ensures cur < NTASK && Shuffled(ts, ts')
    ensures halted <==> forall i :: 0 <= i < NTASK ==> !Ready(ts[i].state)
    ensures halted ==> ts' == ts && cur == current
    ensures !halted ==> OneRuns(ts', cur)
  {
    hide Shuffled;
    var t1 := Preempt(ts, current);
    var j := FindRunnable(t1, ts[current].id);
    if j == NIL {
      NoneReady(ts, t1);
      return ts, current, true;
    }
    ts' := t1[j := t1[j].(state := Running)];
    Resumed(ts, t1, j);
    cur, halted := j, false;
  }

  /** Who runs is no concern of the queues. */
  lemma ShuffledInv(ts: Table, ts': Table, qs: Queues)
    requires Shuffled(ts, ts')
    ensures Inv(ts', qs) <==> Inv(ts, qs)
  {
    hide Inv;
    if Inv(ts, qs) { ShuffledOn(ts, ts', qs); }
    if Inv(ts', qs) {
      forall i | 0 <= i < NTASK
        ensures if Ready(ts'[i].state) then Ready(ts[i].state) && ts[i] == ts'[i].(state := ts[i].state)
                else ts[i] == ts'[i]
      {
      }
      ShuffledOn(ts', ts, qs);
    }
  }

  lemma ShuffledOn(ts: Table, ts': Table, qs: Queues)
    requires Shuffled(ts, ts') && Inv(ts, qs)
    ensures Inv(ts', qs)
  {
    hide Threads, Distinct;
    forall r | 0 <= r < NTASK ensures QueueOk(ts', qs, r) {
      assert QueueOk(ts, qs, r);
      QueueKept(ts, qs, ts', qs, r);
    }
    forall i | 0 <= i < NTASK ensures TaskOk(ts', qs, i) {
      assert TaskOk(ts, qs, i);
      ByIdSame(ts, ts', ts[i].recvFrom);
      ByIdSame(ts, ts', ts[i].waitFor);
    }
  }

  lemma NoneReady(ts: Table, t1: Table)
    requires Shuffled(ts, t1) && forall i :: 0 <= i < NTASK ==> !Ready(t1[i].state)
    ensures Shuffled(ts, ts) && forall i :: 0 <= i < NTASK ==> !Ready(ts[i].state)
  {
    forall i | 0 <= i < NTASK ensures !Ready(ts[i].state) { assert !Ready(t1[i].state); }
  }

  lemma Resumed(ts: Table, t1: Table, j: nat)
    requires Shuffled(ts, t1) && j < NTASK && t1[j].state == Runnable
    ensures Shuffled(ts, t1[j := t1[j].(state := Running)]) && Ready(ts[j].state)
  {
  }

  /** Counting round from anywhere reaches every slot. */
  lemma Around(start: int, j: nat) returns (k: nat)
    requires j < NTASK
    ensures 1 <= k <= NTASK && Turn(start, k) == j
  {
    var s := start % NTASK;
    k := if j > s then j - s else j - s + NTASK;
    assert start == start / NTASK * NTASK + s;
    if j > s {
      assert start + k == start / NTASK * NTASK + j;
    } else {
      assert start + k == (start / NTASK + 1) * NTASK + j;
    }
  }

  // ---- the receiver's choice

  /** The place in the queue of the sender a receive takes, or |q|. */
  function Pick(ts: Table, q: seq<nat>, closed: bool, want: int): (k: nat)
    ensures k <= |q| && (k < |q| && q[k] < NTASK && closed ==> ts[q[k]].id == want)
  {
    if q == [] then 0
    else if q[0] < NTASK && (!closed || ts[q[0]].id == want) then 0
    else 1 + Pick(ts, q[1..], closed, want)
  }

  /** The sender a receive takes off the queue, if it gets that far, or NIL. */
  function Heard(ts: Table, q: seq<nat>, me: Task, closed: bool, want: int): (s: int)
    ensures s == NIL || 0 <= s < NTASK
  {
    if (if closed then ById(ts, want) == NIL else me.irqPending || me.timerPending) then NIL else
    var k := Pick(ts, q, closed, want);
    if k < |q| && q[k] < NTASK then q[k] else NIL
  }

  lemma {:induction false} PickIs(ts: Table, q: seq<nat>, closed: bool, want: int, k: nat)
    requires k <= |q| && (forall i :: 0 <= i < |q| ==> q[i] < NTASK) && (k < |q| ==> !closed || ts[q[k]].id == want)
    requires (k > 0 ==> closed) && forall i :: 0 <= i < k ==> ts[q[i]].id != want
    ensures Pick(ts, q, closed, want) == k
  {
    if k > 0 {
      assert ts[q[0]].id != want;
      PickIs(ts, q[1..], closed, want, k - 1);
    }
  }

  /** A task table with nobody sending to a place it cannot be found. */
  lemma {:induction false} ThreadsUnique(ts: Table, a: seq<nat>, b: seq<nat>, i: nat)
    requires Threads(ts, if a == [] then NIL else a[0], a) && Threads(ts, if a == [] then NIL else a[0], b) && i < |a|
    ensures i < |b| && b[i] == a[i]
  {
    if i > 0 {
      ThreadsUnique(ts, a, b, i - 1);
      assert LinkAt(ts, a, i - 1) && LinkAt(ts, b, i - 1);
    }
  }

  lemma ThreadsSameList(ts: Table, head: int, a: seq<nat>, b: seq<nat>)
    requires Threads(ts, head, a) && Threads(ts, head, b)
    ensures a == b
  {
    if |a| > 0 { ThreadsUnique(ts, a, b, |a| - 1); }
    if |b| > 0 { ThreadsUnique(ts, b, a, |b| - 1); }
    forall i | 0 <= i < |a| ensures b[i] == a[i] { ThreadsUnique(ts, a, b, i); }
  }

  /** A receive whose copy fails has already taken the sender off the queue: whatever one
      supposes about the queues afterwards, that sender is blocked in none. */
  lemma LostSender(ts: Table, qs: Queues, r: nat, k: nat, qs': Queues)
    requires Inv(ts, qs) && r < NTASK && k < |qs.q[r]| && qs.q[r][k] < NTASK && (k > 0 ==> qs.q[r][k - 1] < NTASK)
    ensures !Inv(Unlinked(ts, r, qs.q[r], k), qs')
  {
    hide Unlinked, Threads, Without, Distinct;
    var q, s := qs.q[r], qs.q[r][k];
    var ts' := Unlinked(ts, r, q, k);
    assert QueueOk(ts, qs, r) && s in q;
    UnlinkRelinks(ts, r, q, k);
    UnlinkThreads(ts, r, q, k);
    WithoutIs(q, k);
    if Inv(ts', qs') {
      assert TaskOk(ts', qs', s);
      var d := qs'.dest[s];
      assert QueueOk(ts', qs', d) && QueueOk(ts, qs, d);
      if d == r {
        ThreadsSameList(ts', ts'[r].waitSender, Without(q, k), qs'.q[r]);
      } else {
        OtherQueue(ts, qs, r, d);
        OtherThreads(ts, ts', qs, r, d);
        ThreadsSameList(ts', ts'[d].waitSender, qs.q[d], qs'.q[d]);
      }
    }
  }

  /** So it is also once the receiver has been answered. */
  lemma LostForGood(ts: Table, qs: Queues, r: nat, k: nat, ts': Table, qs': Queues)
    requires Inv(ts, qs) && r < NTASK && Ready(ts[r].state) && |qs.q| == NTASK && k < |qs.q[r]| && qs.q[r][k] < NTASK
             && (k > 0 ==> qs.q[r][k - 1] < NTASK)
    requires var u := Unlinked(ts, r, qs.q[r], k); u[r].state == ts[r].state && ts' == u[r := u[r].(a0 := -1)]
    ensures !Inv(ts', qs')
  {
    hide Inv, Unlinked;
    SenderFacts(ts, qs, r, k);
    var u := Unlinked(ts, r, qs.q[r], k);
    LostSender(ts, qs, r, k, qs');
    assert ts'[r := u[r]] == u;
    if Inv(ts', qs') { AnswerInv(ts', qs', r, u[r]); }
  }

  lemma RelinkedBut(ts: Table, ts': Table, r: nat, q: seq<nat>)
    requires Relinked(ts, ts', r, q)
    ensures SameBut(ts, ts')
  {
  }

  lemma StillIntact(ts: Table, qs: Queues)
    requires Inv(ts, qs)
    ensures exists q :: Inv(ts, q)
  {
  }

  /** Both buffers of a rendezvous are mapped, as far as the message goes. */
  ghost predicate Copyable(ts: Table, m: Memory, r: nat, s: nat, rva: nat, rlen: int)
    requires r < NTASK && s < NTASK
  {
    Mapped(m, ts[s].pt, ts[s].sendVa, Taken(ts[s].sendLen, rlen))
        && Mapped(m, ts[r].pt, rva, Taken(ts[s].sendLen, rlen))
  }

  lemma OtherThreads(ts: Table, ts': Table, qs: Queues, r: nat, d: nat)
    requires Inv(ts, qs) && r < NTASK && d < NTASK && r != d && Relinked(ts, ts', r, qs.q[r])
             && forall s :: s in qs.q[d] ==> s !in qs.q[r]
    ensures Threads(ts', ts'[d].waitSender, qs.q[d])
  {
    assert QueueOk(ts, qs, d);
    forall i | 0 <= i < |qs.q[d]| ensures ts'[qs.q[d][i]].sendNext == ts[qs.q[d][i]].sendNext {
      assert qs.q[d][i] in qs.q[d];
    }
    ThreadsSame(ts, ts', ts[d].waitSender, qs.q[d]);
  }

  // ---- small steps of one task

  lemma AnswerInv(ts: Table, qs: Queues, i: nat, t: Task)
    requires Inv(ts, qs) && i < NTASK && Ready(ts[i].state)
             && t == ts[i].(a0 := t.a0, irqPending := t.irqPending, timerPending := t.timerPending)
    ensures Inv(ts[i := t], qs)
  {
    assert TaskOk(ts, qs, i);
    assert TaskOk(ts[i := t], qs, i);
    Update(ts, qs, i, t);
  }

  /** A receiver is answered. */
  lemma WakeInv(ts: Table, qs: Queues, i: nat, t: Task)
    requires Inv(ts, qs) && i < NTASK && Receiving(ts[i])
             && t == ts[i].(a0 := t.a0, waitingRecv := false, recvClosed := t.recvClosed, state := Runnable)
    ensures Inv(ts[i := t], qs)
  {
    assert TaskOk(ts, qs, i);
    assert TaskOk(ts[i := t], qs, i);
    Update(ts, qs, i, t);
  }

  /** A receiver blocks, nobody it would take being in its queue. */
  lemma ListenInv(ts: Table, qs: Queues, i: nat, t: Task)
    requires Inv(ts, qs) && i < NTASK && ts[i].state == Running
    requires t == ts[i].(state := Blocked, waitingRecv := true, recvVa := t.recvVa, recvLen := t.recvLen,
             recvClosed := t.recvClosed, recvFrom := t.recvFrom)
    requires t.recvClosed ==> ById(ts, t.recvFrom) != NIL
    requires (qs.q[i] != [] ==> t.recvClosed) && forall s :: s in qs.q[i] && 0 <= s < NTASK ==> ts[s].id != t.recvFrom
    ensures Inv(ts[i := t], qs)
  {
    assert TaskOk(ts, qs, i) && QueueOk(ts, qs, i);
    var ts' := ts[i := t];
    ByIdSame(ts, ts', t.recvFrom);
    assert TaskOk(ts', qs, i);
    Update(ts, qs, i, t);
  }

  /** A task blocks until another ends. */
  lemma WaitInv(ts: Table, qs: Queues, i: nat, id: int)
    requires Inv(ts, qs) && i < NTASK && ts[i].state == Running && id != 0 && ById(ts, id) != NIL
    ensures Inv(ts[i := ts[i].(waitFor := id, state := Blocked)], qs)
  {
    assert TaskOk(ts, qs, i) && QueueOk(ts, qs, i);
    var ts' := ts[i := ts[i].(waitFor := id, state := Blocked)];
    ByIdSame(ts, ts', id);
    assert TaskOk(ts', qs, i);
    Update(ts, qs, i, ts'[i]);
  }

  /** Waiting for id 0 does not: 0 also means not waiting, so the task is blocked and in
      nobody's queue. */
  lemma WaitZero(ts: Table, qs: Queues, i: nat, qs': Queues)
    requires Inv(ts, qs) && i < NTASK && ts[i].state == Running
    ensures !Inv(ts[i := ts[i].(waitFor := 0, state := Blocked)], qs')
  {
    hide Threads, Distinct;
    var ts' := ts[i := ts[i].(waitFor := 0, state := Blocked)];
    assert TaskOk(ts, qs, i);
    NotQueued(ts, qs, i);
    if Inv(ts', qs') {
      assert TaskOk(ts', qs', i);
      var d := qs'.dest[i];
      assert QueueOk(ts', qs', d) && QueueOk(ts, qs, d);
      ThreadsSame2(ts, ts', ts[d].waitSender, qs.q[d]);
      ThreadsSameList(ts', ts'[d].waitSender, qs.q[d], qs'.q[d]);
    }
  }

  // ---- creating

  /** alloc_slot, and the slot given an address space. */
  lemma BornInv(ts: Table, qs: Queues, i: nat, t: Task)
    requires Inv(ts, qs) && i < NTASK && ts[i].state == Unused && ts[i].pt == 0
    requires t == Blank(i, ts[i].gen).(pt := t.pt, state := t.state, a0 := t.a0) && t.state in {Unused, Runnable}
             && (t.state == Runnable ==> t.pt != 0)
    ensures Inv(ts[i := t], qs)
  {
    hide Threads, Distinct;
    var ts' := ts[i := t];
    assert TaskOk(ts, qs, i) && QueueOk(ts, qs, i);
    EmptyHead(ts, qs, i);
    NotQueued(ts, qs, i);
    forall r | 0 <= r < NTASK ensures QueueOk(ts', qs, r) {
      assert QueueOk(ts, qs, r);
      if r == i { EmptyQueue(ts, qs, ts', i); } else { QueueKept(ts, qs, ts', qs, r); }
    }
    forall j | 0 <= j < NTASK ensures TaskOk(ts', qs, j) {
      assert TaskOk(ts, qs, j);
      NewName(ts, i, t, ts[j].recvFrom);
      NewName(ts, i, t, ts[j].waitFor);
    }
  }

  lemma EmptyHead(ts: Table, qs: Queues, i: nat)
    requires i < NTASK && |qs.q| == NTASK && |qs.dest| == NTASK && QueueOk(ts, qs, i) && !Live(ts[i])
    ensures qs.q[i] == [] && ts[i].waitSender == NIL
  {
  }

  lemma NewName(ts: Table, i: nat, t: Task, id: int)
    requires i < NTASK && ts[i].state == Unused && ts[i].pt == 0
    ensures ById(ts, id) != NIL ==> ById(ts[i := t], id) == ById(ts, id)
  {
  }

  /** Slot i has become a task beside cur, in the same address space, and cur knows its id. */
  ghost predicate Threaded(ts: Table, ts': Table, cur: nat, i: nat, arg: int) {
    && cur < NTASK && i < NTASK && i != cur
    && ts'[i] == Blank(i, ts[i].gen).(pt := ts[cur].pt, state := Runnable, a0 := arg)
    && ts' == ts[i := ts'[i]][cur := ts[cur].(a0 := ts'[i].id)]
  }

  /** Every slot is taken. */
  ghost predicate NoRoom(ts: Table) { forall j :: 0 <= j < NTASK ==> ts[j].state != Unused || ts[j].pt != 0 }

  /** The table at boot: one task, running. */
  function Booted(pt: nat): Table {
    seq(NTASK, i requires 0 <= i < NTASK => if i == 0 then Blank(0, 0).(pt := pt, state := Running) else Blank(i, 0))
  }

  lemma LiveIds(ts: Table, qs: Queues, i: nat)
    requires Inv(ts, qs) && i < NTASK
    ensures Live(ts[i]) ==> ts[i].id == i + 256 * ts[i].gen && 0 <= ts[i].id
    ensures ts[i].state != Unused ==> Live(ts[i])
  {
    assert TaskOk(ts, qs, i);
  }

  /** Neither generations nor address spaces changed hands. */
  lemma SameUsed(ts: Table, ts': Table, spaces: set<nat>)
    requires forall i {:trigger ts'[i]} :: 0 <= i < NTASK ==> ts'[i].pt == ts[i].pt && ts'[i].gen == ts[i].gen
    ensures SpacesOk(ts, spaces) ==> SpacesOk(ts', spaces)
    ensures forall retired :: AllGone(ts, retired) ==> AllGone(ts', retired)
  {
    if SpacesOk(ts, spaces) {
      forall p ensures Used(ts', p) <==> Used(ts, p) {
        if Used(ts, p) { var i :| 0 <= i < NTASK && ts[i].pt == p; assert ts'[i].pt == p; }
      }
    }
  }

  lemma MappedStill(m: Memory, m': Memory, pt: nat, va: nat, n: int)
    requires Mapped(m, pt, va, n) && m'.Keys == m.Keys
    ensures Mapped(m', pt, va, n)
  {
  }

  lemma QueueFacts(ts: Table, qs: Queues, r: nat, s: nat)
    requires Inv(ts, qs) && r < NTASK && s < NTASK && !Sending(ts[s])
    ensures |qs.q| == NTASK && |qs.dest| == NTASK && Threads(ts, ts[r].waitSender, qs.q[r]) && Distinct(qs.q[r])
            && r !in qs.q[r] && s !in qs.q[r]
    ensures qs.q[r] != [] ==> qs.q[r][|qs.q[r]| - 1] < NTASK
  {
    assert QueueOk(ts, qs, r);
  }

  lemma EnqueuedSelf(ts: Table, r: nat, s: nat, q: seq<nat>)
    requires r < NTASK && s < NTASK && (q != [] ==> q[|q| - 1] < NTASK) && s !in q && r != s
    ensures Enqueued(ts, r, s, q)[s] == ts[s].(sendNext := NIL)
  {
    if q != [] { assert q[|q| - 1] in q; }
  }

  lemma ParkFrame(ts: Table, ts': Table, s: nat, r: nat, q: seq<nat>)
    requires s < NTASK && r < NTASK && (q != [] ==> q[|q| - 1] < NTASK) && ts' == Enqueued(ts, r, s, q)[s := ts'[s]]
             && ts'[s].pt == ts[s].pt && ts'[s].gen == ts[s].gen
    ensures forall i {:trigger ts'[i]} :: 0 <= i < NTASK ==> ts'[i].pt == ts[i].pt && ts'[i].gen == ts[i].gen
    ensures forall i {:trigger ts'[i]} ::
            0 <= i < NTASK && i != s ==>
            ts'[i] == ts[i].(waitSender := ts'[i].waitSender, sendNext := ts'[i].sendNext)
  {
  }

  lemma RunningFree(ts: Table, qs: Queues, i: nat)
    requires Inv(ts, qs) && i < NTASK && Ready(ts[i].state)
    ensures !ts[i].waitingRecv && ts[i].waitFor == 0
  {
    assert TaskOk(ts, qs, i);
  }

  /** n bytes of a message in the receiver's buffer, and what was recorded of them: the
      sender's own bytes, unless the two buffers overlap. */
  ghost predicate Arrived(m: Memory, m': Memory, ms: seq<Meet>, ms': seq<Meet>, s: Task, sva: nat, r: Task, rva: nat,
      n: nat) {
    && Mapped(m, s.pt, sva, n) && Mapped(m', r.pt, rva, n) && m' == Copied(m, r.pt, rva, s.pt, sva, n)
    && ms' == ms + [Meet(s.id, r.id, Peek(m', r.pt, rva, n))]
    && (Separate(r.pt, rva, s.pt, sva, n) ==> Peek(m', r.pt, rva, n) == Peek(m, s.pt, sva, n))
  }

  lemma ArrivedIs(m: Memory, ms: seq<Meet>, s: Task, sva: nat, r: Task, rva: nat, n: nat)
    requires Mapped(m, s.pt, sva, n) && Mapped(m, r.pt, rva, n)
    ensures var m' := Copied(m, r.pt, rva, s.pt, sva, n);
            Mapped(m', r.pt, rva, n) && Arrived(m, m', ms, ms + [Meet(s.id, r.id, Peek(m', r.pt, rva, n))], s, sva, r,
                rva, n)
  {
    hide Copied, Peek;
    CopiedKeys(m, r.pt, rva, s.pt, sva, n);
    MappedStill(m, Copied(m, r.pt, rva, s.pt, sva, n), r.pt, rva, n);
    if Separate(r.pt, rva, s.pt, sva, n) { PeekCopied(m, r.pt, rva, s.pt, sva, n); }
  }

  lemma {:induction false} CopiedKeys(m: Memory, dpt: nat, dva: nat, spt: nat, sva: nat, n: nat)
    requires Mapped(m, dpt, dva, n)
    ensures Copied(m, dpt, dva, spt, sva, n).Keys == m.Keys
  {
    if n > 0 {
      CopiedKeys(m, dpt, dva, spt, sva, n - 1);
      assert Cell(dpt, dva, n - 1) in m;
    }
  }

  lemma MeetMore(ts: Table, qs: Queues, ms: seq<Meet>, s: nat, r: nat, data: seq<byte>)
    requires Inv(ts, qs) && s < NTASK && r < NTASK && s != r && Live(ts[s]) && Live(ts[r]) && MeetsOk(ts, ms)
    ensures MeetsOk(ts, ms + [Meet(ts[s].id, ts[r].id, data)])
  {
    hide Inv, Known;
    LiveIds(ts, qs, s);
    LiveIds(ts, qs, r);
    KnownId(ts, s);
    KnownId(ts, r);
  }

  lemma KnownId(ts: Table, i: nat)
    requires i < NTASK && ts[i].id == i + 256 * ts[i].gen
    ensures Known(ts, ts[i].id) && ts[i].id % 256 == i
  {
  }

  lemma MeetsKept(ts: Table, ts': Table, ms: seq<Meet>)
    requires MeetsOk(ts, ms) && forall i {:trigger ts'[i]} :: 0 <= i < NTASK ==> ts[i].gen <= ts'[i].gen
    ensures MeetsOk(ts', ms)
  {
    forall m | m in ms ensures Known(ts', m.from) && Known(ts', m.to) {
      assert ts[m.from % 256].gen <= ts'[m.from % 256].gen && ts[m.to % 256].gen <= ts'[m.to % 256].gen;
    }
  }

  function Taken(slen: int, rlen: int): nat { if Fits(slen, rlen) <= 0 then 0 else Fits(slen, rlen) }

  /** What a send to a waiting receiver leaves: the sender's id to the receiver, 0 to the
      sender, the truncated message in the receiver's buffer and one more meeting; or,
      if a buffer is not mapped, -1 to the sender and the receiver still waiting. */
  ghost predicate Handed(ts: Table, ts': Table, m: Memory, m': Memory, ms: seq<Meet>, ms': seq<Meet>, s: nat, r: nat,
      sva: nat, slen: int)
    requires r < NTASK && s < NTASK
  {
    var n := Taken(slen, ts[r].recvLen);
    if Mapped(m, ts[s].pt, sva, n) && Mapped(m, ts[r].pt, ts[r].recvVa, n) then
      && Arrived(m, m', ms, ms', ts[s], sva, ts[r], ts[r].recvVa, n)
      && ts' == ts[r := ts[r].(a0 := ts[s].id, waitingRecv := false, recvClosed := false,
          state := Runnable)][s := ts[s].(a0 := 0)]
    else
      && ms' == ms && ts' == ts[s := ts[s].(a0 := -1)]
      && Partly(m, m', ts[r].pt, ts[r].recvVa, ts[s].pt, sva, n)
  }

  /** What a send leaves that has to wait: the caller blocked with its message noted, and
      the others as they were but for the links of the queue and who runs. */
  ghost predicate Parked(ts: Table, ts': Table, me: nat, sva: nat, slen: int)
    requires me < NTASK
  {
    && Sending(ts'[me]) && ts'[me] ==
        ts[me].(state := Blocked, sendVa := sva, sendLen := slen, sendNext := NIL, waitingRecv := false)
    && Elsewhere(ts, ts', me)
  }

  /** What a receive leaves that has to wait. */
  ghost predicate Listening(ts: Table, ts': Table, me: nat, closed: bool, want: int, rva: nat, rlen: int)
    requires me < NTASK
  {
    && ts'[me] == ts[me].(state := Blocked, waitingRecv := true, recvClosed := closed, recvFrom := if closed then want
        else 0, recvVa := rva, recvLen := rlen)
    && Elsewhere(ts, ts', me)
  }

  /** What a completed rendezvous leaves: the sender's id to the receiver, 0 to the
      sender, the truncated message in the receiver's buffer, one more meeting, and every
      other task as it was but for the links of the queue. */
  ghost predicate Collected(ts: Table, ts': Table, m: Memory, m': Memory, ms: seq<Meet>, ms': seq<Meet>, r: nat,
      s: nat, rva: nat, rlen: int)
    requires r < NTASK && s < NTASK
  {
    && Arrived(m, m', ms, ms', ts[s], ts[s].sendVa, ts[r], rva, Taken(ts[s].sendLen, rlen))
    && ts'[r].a0 == ts[s].id && ts'[s].a0 == 0 && ts'[s].state == Runnable && ts'[r].state == Running
    && (forall i {:trigger ts'[i]} :: 0 <= i < NTASK ==>
          ts'[i] == ts[i].(a0 := ts'[i].a0, state := ts'[i].state, waitSender := ts'[i].waitSender,
              sendNext := ts'[i].sendNext)
          && (i != r && i != s ==> ts'[i].a0 == ts[i].a0 && ts'[i].state == ts[i].state))
  }

  /** What a receive leaves whose copy failed: -1 to the receiver, and the sender off the
      queue but still blocked. */
  ghost predicate Lost(ts: Table, ts': Table, m: Memory, m': Memory, ms: seq<Meet>, ms': seq<Meet>, r: nat, s: nat,
      rva: nat, rlen: int)
    requires r < NTASK && s < NTASK
  {
    && ms' == ms && Partly(m, m', ts[r].pt, rva, ts[s].pt, ts[s].sendVa, Taken(ts[s].sendLen, rlen))
    && ts'[r].a0 == -1 && ts'[r].state == Running && Sending(ts'[s])
    && (forall i {:trigger ts'[i]} :: 0 <= i < NTASK ==>
          ts'[i] == ts[i].(a0 := ts'[i].a0, waitSender := ts'[i].waitSender, sendNext := ts'[i].sendNext)
              && (i != r ==> ts'[i].a0 == ts[i].a0))
  }

  lemma SenderFacts(ts: Table, qs: Queues, r: nat, k: nat)
    requires Inv(ts, qs) && r < NTASK && |qs.q| == NTASK && k < |qs.q[r]|
    ensures |qs.q| == NTASK && qs.q[r][k] < NTASK && qs.q[r][k] != r && Sending(ts[qs.q[r][k]]) && r !in qs.q[r]
            && qs.q[r][k] in qs.q[r]
  {
    assert QueueOk(ts, qs, r) && qs.q[r][k] in qs.q[r];
  }

  lemma UnlinkSelf(ts: Table, r: nat, q: seq<nat>, k: nat)
    requires r < NTASK && k < |q| && q[k] < NTASK && (k > 0 ==> q[k - 1] < NTASK) && r !in q
    ensures Unlinked(ts, r, q, k)[q[k]] == ts[q[k]].(sendNext := NIL, waitSender := ts[q[k]].waitSender)
  {
    assert q[k] in q;
  }

  lemma PickSame(ts: Table, q: seq<nat>, closed: bool, want: int, k: nat)
    requires k <= |q| && (forall i :: 0 <= i < |q| ==> q[i] < NTASK) && (k < |q| && closed ==> ts[q[k]].id == want)
    requires (k > 0 ==> closed) && forall i :: 0 <= i < k ==> ts[q[i]].id != want
    ensures Pick(ts, q, closed, want) == k
    ensures k == |q| ==> (q != [] ==> closed) && forall s :: s in q && 0 <= s < NTASK ==> ts[s].id != want
  {
    PickIs(ts, q, closed, want, k);
  }

  /** A task that will find out at its next open receive. */
  function Flagged(t: Task, irq: bool): Task { if irq then t.(irqPending := true) else t.(timerPending := true) }

  lemma FlagInv(ts: Table, qs: Queues, i: nat, irq: bool)
    requires Inv(ts, qs) && i < NTASK
    ensures var t := Flagged(ts[i], irq);
            Inv(ts[i := t], qs) && t.state == ts[i].state && t.pt == ts[i].pt && t.gen == ts[i].gen
  {
    var t := Flagged(ts[i], irq);
    var ts' := ts[i := t];
    assert TaskOk(ts, qs, i) && QueueOk(ts, qs, i);
    ByIdSame(ts, ts', t.recvFrom);
    ByIdSame(ts, ts', t.waitFor);
    assert TaskOk(ts', qs, i);
    Update(ts, qs, i, t);
  }

  // ---- the pieces of task_retire

  /** Only links changed. */
  ghost predicate SameBut(ts: Table, ts': Table) {
    forall i {:trigger ts'[i]} ::
        0 <= i < NTASK ==> ts'[i] == ts[i].(waitSender := ts'[i].waitSender, sendNext := ts'[i].sendNext)
  }

  lemma RelinkedSame(ts: Table, ts1: Table, ts2: Table, r: nat, q: seq<nat>)
    requires SameBut(ts, ts1) && Relinked(ts1, ts2, r, q)
    ensures SameBut(ts, ts2)
  {
    forall i | 0 <= i < NTASK ensures ts2[i] == ts[i].(waitSender := ts2[i].waitSender, sendNext := ts2[i].sendNext) {
      assert ts1[i] == ts[i].(waitSender := ts1[i].waitSender, sendNext := ts1[i].sendNext);
    }
  }

  lemma SizeBut(ts: Table, qs: Queues, t: nat)
    requires InvBut(ts, qs, t)
    ensures |qs.q| == NTASK && |qs.dest| == NTASK
  {
  }

  lemma ThreadsBut(ts: Table, qs: Queues, t: nat, r: nat)
    requires InvBut(ts, qs, t) && r < NTASK
    ensures Threads(ts, ts[r].waitSender, qs.q[r])
  {
    assert QueueOk(ts, qs, r);
  }

  lemma SenderQueue(ts: Table, qs: Queues, t: nat)
    requires Inv(ts, qs) && t < NTASK
    ensures |qs.q| == NTASK && Threads(ts, ts[t].waitSender, qs.q[t]) && Distinct(qs.q[t]) && t !in qs.q[t]
    ensures forall s :: s in qs.q[t] ==> 0 <= s < NTASK && Sending(ts[s])
  {
    assert QueueOk(ts, qs, t);
  }

  /** How another task may be told: nothing of who it is changes, who could run still
      can, and a sender waiting in q has failed. */
  ghost predicate Detached(ts: Table, q: seq<nat>, ts': Table) {
    forall i {:trigger ts'[i]} :: 0 <= i < NTASK ==>
      && ts'[i].pt == ts[i].pt && ts'[i].gen == ts[i].gen && ts'[i].id == ts[i].id
      && (ts'[i].state == Unused <==> ts[i].state == Unused)
      && (Ready(ts[i].state) ==> ts'[i].state == ts[i].state) && (ts'[i].state == Running ==> ts[i].state == Running)
      && (i in q ==> ts'[i].state == Runnable && ts'[i].a0 == -1)
  }

  lemma DetachedIs(ts: Table, q: seq<nat>, ts': Table)
    requires Detached(ts, q, ts')
    ensures forall i {:trigger ts'[i]} ::
            0 <= i < NTASK ==>
            ts'[i].pt == ts[i].pt && ts'[i].gen == ts[i].gen && ts'[i].id == ts[i].id
            && (ts'[i].state == Running ==> ts[i].state == Running)
  {
  }

  lemma DismissedAre(ts: Table, t: nat, q: seq<nat>)
    requires t < NTASK && t !in q && forall s :: s in q ==> 0 <= s < NTASK && Sending(ts[s])
    ensures Detached(ts, q, Dismissed(ts, t, q)) && !Dismissed(ts, t, q)[t].waitingRecv
  {
  }

  lemma ToldAre(ts: Table, ts': Table, id: int)
    requires ts' == AllTold(ts, id)
    ensures forall i {:trigger ts'[i]} :: 0 <= i < NTASK ==>
              && ts'[i].pt == ts[i].pt && ts'[i].gen == ts[i].gen && ts'[i].id == ts[i].id
              && (Ready(ts[i].state) ==> ts'[i].state == ts[i].state && ts'[i].a0 == ts[i].a0)
              && (ts'[i].state == Unused <==> ts[i].state == Unused)
              && (ts'[i].state == Running ==> ts[i].state == Running) && (!ts[i].waitingRecv ==> !ts'[i].waitingRecv)
  {
  }

  lemma RetireFrame(ts0: Table, q: seq<nat>, ts1: Table, ts2: Table, ts3: Table, t: nat)
    requires t < NTASK && Detached(ts0, q, ts1) && SameBut(ts1, ts2) && !ts1[t].waitingRecv
    requires forall i {:trigger ts3[i]} :: 0 <= i < NTASK ==>
               && ts3[i].pt == ts2[i].pt && ts3[i].gen == ts2[i].gen && ts3[i].id == ts2[i].id
               && (Ready(ts2[i].state) ==> ts3[i].state == ts2[i].state && ts3[i].a0 == ts2[i].a0)
               && (ts3[i].state == Running ==> ts2[i].state == Running) && (!ts2[i].waitingRecv ==> !ts3[i].waitingRecv)
               && (ts3[i].state == Unused <==> ts2[i].state == Unused)
    ensures Detached(ts0, q, ts3) && !ts3[t].waitingRecv && ts3[t].id == ts0[t].id
  {
    forall i | 0 <= i < NTASK ensures
              && ts3[i].pt == ts0[i].pt && ts3[i].gen == ts0[i].gen && ts3[i].id == ts0[i].id
              && (ts3[i].state == Unused <==> ts0[i].state == Unused)
              && (Ready(ts0[i].state) ==> ts3[i].state == ts0[i].state)
              && (ts3[i].state == Running ==> ts0[i].state == Running)
              && (i in q ==> ts3[i].state == Runnable && ts3[i].a0 == -1) {
      assert ts2[i] == ts1[i].(waitSender := ts2[i].waitSender, sendNext := ts2[i].sendNext);
      assert ts1[i].pt == ts0[i].pt;
    }
    assert ts2[t] == ts1[t].(waitSender := ts2[t].waitSender, sendNext := ts2[t].sendNext);
    assert ts3[t].pt == ts2[t].pt;
  }

  ghost predicate Others(ts: Table, t: nat)
    requires t < NTASK
  {
    exists i :: 0 <= i < NTASK && i != t && ts[i].pt == ts[t].pt
  }

  lemma SameOthers(ts: Table, ts': Table, t: nat)
    requires t < NTASK && forall i {:trigger ts'[i]} :: 0 <= i < NTASK ==> ts'[i].pt == ts[i].pt
    ensures Others(ts', t) <==> Others(ts, t)
  {
    assert ts'[t].pt == ts[t].pt;
    if Others(ts, t) { var i :| 0 <= i < NTASK && i != t && ts[i].pt == ts[t].pt; assert ts'[i].pt == ts'[t].pt; }
  }

  /** An address space is freed exactly when its last task is retired. */
  lemma DeadSpaces(ts: Table, t: nat, sp: set<nat>)
    requires t < NTASK && ts[t].pt != 0 && SpacesOk(ts, sp)
    ensures SpacesOk(ts[t := Dead(ts[t])], if Others(ts, t) then sp else sp - {ts[t].pt})
  {
    var ts', pt := ts[t := Dead(ts[t])], ts[t].pt;
    forall p | p != 0 ensures Used(ts', p) <==> Used(ts, p) && (p != pt || Others(ts, t)) {
      if Used(ts', p) { var i :| 0 <= i < NTASK && ts'[i].pt == p; assert i != t && ts[i].pt == p; }
      if Used(ts, p) && p != pt { var i :| 0 <= i < NTASK && ts[i].pt == p; assert ts'[i].pt == p; }
      if Others(ts, t) { var i :| 0 <= i < NTASK && i != t && ts[i].pt == pt; assert ts'[i].pt == pt; }
    }
  }

  lemma DeadGone(ts: Table, t: nat, id: int, retired: set<int>)
    requires t < NTASK && AllGone(ts, retired) && id == t + 256 * ts[t].gen
    ensures AllGone(ts[t := Dead(ts[t])], retired + {id}) && Gone(ts[t := Dead(ts[t])], id)
  {
    forall d | d in retired ensures Gone(ts[t := Dead(ts[t])], d) { assert Gone(ts, d); }
  }

  lemma ByIdIs(ts: Table, id: int)
    ensures ById(ts, id) != NIL ==>
            0 <= ById(ts, id) < NTASK && ts[ById(ts, id)].id == id
            && (ts[ById(ts, id)].state != Unused || ts[ById(ts, id)].pt != 0)
  {
  }

  lemma NamedLive(ts: Table, qs: Queues, t: nat)
    requires Inv(ts, qs) && t < NTASK && (ts[t].state != Unused || ts[t].pt != 0)
    ensures Live(ts[t]) && (t != 0 ==> ts[t].id != 0)
  {
    assert TaskOk(ts, qs, t);
  }

  lemma NamesKept(ts: Table, ts': Table, id: int)
    requires forall i {:trigger ts'[i]} ::
             0 <= i < NTASK ==>
             ts'[i].id == ts[i].id && ts'[i].pt == ts[i].pt && (ts'[i].state == Unused <==> ts[i].state == Unused)
    ensures ById(ts', id) == ById(ts, id)
  {
  }

  lemma KeepsRunning(ts: Table, q: seq<nat>, ts': Table, t: nat, cur: nat)
    requires t < NTASK && OneRuns(ts, cur) && cur != t && ts'[t].state == Unused
             && exists ts1: Table :: Detached(ts, q, ts1) && ts' == ts1[t := ts'[t]]
    ensures OneRuns(ts', cur)
  {
    var ts1: Table :| Detached(ts, q, ts1) && ts' == ts1[t := ts'[t]];
    forall i | 0 <= i < NTASK ensures ts'[i].state == Running <==> i == cur { assert ts1[i].pt == ts[i].pt; }
  }

  lemma BornSpaces(ts: Table, i: nat, t: Task, sp: set<nat>)
    requires i < NTASK && ts[i].pt == 0 && SpacesOk(ts, sp) && t.pt != 0
    ensures SpacesOk(ts[i := t], sp + {t.pt})
  {
    var ts' := ts[i := t];
    forall p | p != 0 ensures Used(ts', p) <==> Used(ts, p) || p == t.pt {
      if Used(ts, p) { var j :| 0 <= j < NTASK && ts[j].pt == p; assert ts'[j].pt == p; }
      assert ts'[i].pt == t.pt;
      if Used(ts', p) { var j :| 0 <= j < NTASK && ts'[j].pt == p; if j != i { assert ts[j].pt == p; } }
    }
  }

  /** A new task's id was nobody's, ever. */
  lemma BornName(ts: Table, i: nat, t: Task, retired: set<int>)
    requires i < NTASK && ts[i].state == Unused && ts[i].pt == 0 && AllGone(ts, retired)
             && t.id == i + 256 * ts[i].gen && t.gen == ts[i].gen && t.pt != 0
    ensures ById(ts[i := t], t.id) == i && t.id !in retired && ById(ts, t.id) == NIL && AllGone(ts[i := t], retired)
  {
    assert t.id % 256 == i && t.id / 256 == ts[i].gen;
    assert t.id in retired ==> Gone(ts, t.id);
    forall d | d in retired ensures Gone(ts[i := t], d) { assert Gone(ts, d); }
  }

  lemma UsedHere(ts: Table, sp: set<nat>, i: nat)
    requires i < NTASK && SpacesOk(ts, sp) && ts[i].pt != 0
    ensures ts[i].pt in sp
  {
    assert Used(ts, ts[i].pt);
  }

  lemma StartInv(ts: Table, qs: Queues, t: nat, arg: int)
    requires Inv(ts, qs) && t < NTASK && ts[t].state == Unused && ts[t].pt != 0
    ensures Inv(ts[t := ts[t].(a0 := arg, state := Runnable)], qs)
  {
    hide Threads, Distinct;
    var ts' := ts[t := ts[t].(a0 := arg, state := Runnable)];
    assert TaskOk(ts, qs, t);
    NotQueued(ts, qs, t);
    forall r | 0 <= r < NTASK ensures QueueOk(ts', qs, r) {
      assert QueueOk(ts, qs, r);
      QueueKept(ts, qs, ts', qs, r);
    }
    forall j | 0 <= j < NTASK ensures TaskOk(ts', qs, j) {
      assert TaskOk(ts, qs, j);
      StartName(ts, t, arg, ts[j].recvFrom);
      StartName(ts, t, arg, ts[j].waitFor);
    }
  }

  lemma StartName(ts: Table, t: nat, arg: int, id: int)
    requires t < NTASK && ts[t].pt != 0
    ensures ById(ts[t := ts[t].(a0 := arg, state := Runnable)], id) == ById(ts, id)
  {
  }

  lemma BootInv(ts: Table, qs: Queues, pt: nat)
    requires pt != 0 && qs == Queues(seq(NTASK, _ => []), seq(NTASK, _ => NIL))
    requires forall i :: 0 <= i < NTASK ==> ts[i] == if i == 0 then Blank(0, 0).(pt := pt, state := Running)
             else Blank(i, 0)
    ensures Inv(ts, qs) && SpacesOk(ts, {pt})
  {
    forall r | 0 <= r < NTASK ensures QueueOk(ts, qs, r) { NoThreads(ts, []); }
    assert ts[0].pt == pt;
  }

  /** Nobody but t, and those waiting to send to it, is blocked without waiting for a task
      to end. */
  ghost predicate Idle(ts: Table, q: seq<nat>, t: nat) {
    forall i {:trigger ts[i]} :: 0 <= i < NTASK && i != t && i !in q ==> !(ts[i].state == Blocked && ts[i].waitFor == 0)
  }

  lemma DismissIdle(ts: Table, t: nat, q: seq<nat>)
    requires t < NTASK && t !in q
    ensures Spared(Dismissed(ts, t, q), t) <==> Idle(ts, q, t)
  {
    var ts' := Dismissed(ts, t, q);
    forall i | 0 <= i < NTASK && i != t && i !in q ensures ts'[i] == ts[i] {}
    forall i | 0 <= i < NTASK && i in q ensures ts'[i].state == Runnable {}
  }

  lemma SameIdle(ts: Table, ts': Table, t: nat)
    requires SameBut(ts, ts')
    ensures Spared(ts', t) <==> Spared(ts, t)
  {
    forall i | 0 <= i < NTASK ensures ts'[i].state == ts[i].state && ts'[i].waitFor == ts[i].waitFor {}
  }

  /** Retiring id 0 wakes every task that is not waiting for anybody: a receiver goes on
      with its buffer still open, a sender while it stands in a queue. */
  lemma RetireZero(ts: Table, qs: Queues, t: nat, ts': Table, qs': Queues)
    requires InvBut(ts, qs, t) && t < NTASK && qs.q[t] == [] && !Spared(ts, t)
    requires var told := AllTold(ts, 0); ts' == told[t := Dead(told[t])]
    ensures !Inv(ts', qs')
  {
    hide Threads, Distinct, QueueOk;
    var s :| 0 <= s < NTASK && s != t && ts[s].state == Blocked && ts[s].waitFor == 0;
    assert TaskOk(ts, qs, s);
    assert Inv(ts', qs') ==> TaskOk(ts', qs', s);
    if Inv(ts', qs') && Sending(ts[s]) {
      var r := qs.dest[s];
      assert QueueOk(ts, qs, r) && QueueOk(ts', qs', r);
      StillThreads(ts, qs, ts', qs', r);
      Queuer(ts', qs', r, s);
    }
  }

  /** Links that have not changed thread the same list. */
  lemma StillThreads(ts: Table, qs: Queues, ts': Table, qs': Queues, r: nat)
    requires r < NTASK && |qs.q| == NTASK && |qs.dest| == NTASK && |qs'.q| == NTASK && |qs'.dest| == NTASK
    requires QueueOk(ts, qs, r) && QueueOk(ts', qs', r) && ts'[r].waitSender == ts[r].waitSender
    requires forall i :: 0 <= i < NTASK ==> ts'[i].sendNext == ts[i].sendNext
    ensures qs'.q[r] == qs.q[r]
  {
    hide Threads;
    ThreadsSame2(ts, ts', ts[r].waitSender, qs.q[r]);
    ThreadsSameList(ts', ts'[r].waitSender, qs.q[r], qs'.q[r]);
  }

  lemma Queuer(ts: Table, qs: Queues, r: nat, s: nat)
    requires r < NTASK && |qs.q| == NTASK && |qs.dest| == NTASK && QueueOk(ts, qs, r) && s in qs.q[r]
    ensures s < NTASK && Sending(ts[s])
  {
  }

  class Kernel {
    var tasks: Table
    var current: nat
    var mem: Memory
    var spaces: set<nat>
    var halted: bool

    /** The queues as lists, every id ever retired, every message delivered. */
    ghost var qs: Queues
    ghost var retired: set<int>
    ghost var meets: seq<Meet>

    /** What holds whenever a task is running. */
    ghost predicate Valid()
      reads this
    {
      Sound() && (!halted ==> OneRuns(tasks, current))
    }

    /** What holds also between a task's blocking and the next one's running. */
    ghost predicate Sound()
      reads this
    {
      Inv(tasks, qs) && Rest()
    }

    /** What holds whatever has become of the queues. */
    ghost predicate Rest()
      reads this
    {
      && current < NTASK && AllGone(tasks, retired) && SpacesOk(tasks, spaces)
      && (forall i :: 0 <= i < NTASK && tasks[i].state == Running ==> i == current) && MeetsOk(tasks, meets)
    }

    /** Some lists of senders make sense of the table. */
    ghost predicate Intact()
      reads this
    {
      exists q :: Inv(tasks, q)
    }

    method Dispatch()
      requires Rest()
      modifies this`tasks, this`current, this`halted
      ensures Rest() && Shuffled(old(tasks), tasks)
              && (halted <==> forall i :: 0 <= i < NTASK ==> !Ready(old(tasks)[i].state))
      ensures !halted ==> OneRuns(tasks, current)
      ensures Intact() <==> old(Intact())
      ensures forall q {:trigger Inv(tasks, q)} :: Inv(tasks, q) <==> Inv(old(tasks), q)
    {
      hide Inv;
      ghost var ts0 := tasks;
      var ts, cur, none := Schedule(tasks, current);
      assert Shuffled(ts0, ts);
      forall q ensures Inv(ts, q) <==> Inv(ts0, q) { ShuffledInv(ts0, ts, q); }
      SameUsed(ts0, ts, spaces);
      tasks, current, halted := ts, cur, none;
    }

    /** The running task's system call returns v. */
    method Answer(v: int)
      requires Valid() && !halted
      modifies this`tasks
      ensures Valid() && tasks == old(tasks)[current := old(tasks)[current].(a0 := v)]
    {
      hide Inv;
      ghost var ts0 := tasks;
      AnswerInv(tasks, qs, current, tasks[current].(a0 := v));
      tasks := tasks[current := tasks[current].(a0 := v)];
      SameUsed(ts0, tasks, spaces);
    }

    /** deliver: n bytes, or -1 at the first that is not mapped on both sides. */
    method Deliver(spt: nat, sva: nat, slen: int, dpt: nat, dva: nat, rlen: int) returns (n: int)
      modifies this`mem
      ensures n == -1 || n == Taken(slen, rlen)
      ensures n == -1 <==>
              !Mapped(old(mem), spt, sva, Taken(slen, rlen)) || !Mapped(old(mem), dpt, dva, Taken(slen, rlen))
      ensures if n >= 0 then mem == Copied(old(mem), dpt, dva, spt, sva, n)
              else Partly(old(mem), mem, dpt, dva, spt, sva, Taken(slen, rlen))
      ensures mem.Keys == old(mem).Keys
    {
      n := Fits(slen, rlen);
      if n <= 0 { return 0; }
      var i := 0;
      while i < n
        invariant 0 <= i <= n && mem == Copied(old(mem), dpt, dva, spt, sva, i) && mem.Keys == old(mem).Keys
        invariant Mapped(old(mem), spt, sva, i) && Mapped(old(mem), dpt, dva, i)
      {
        if Cell(spt, sva, i) !in mem || Cell(dpt, dva, i) !in mem {
          return -1;
        }
        mem := mem[Cell(dpt, dva, i) := mem[Cell(spt, sva, i)]];
        i := i + 1;
      }
    }

    // ---- messages

    /** The receiver is parked and wants this message: copy it across and free both. */
    method Handover(dst: nat, sva: nat, slen: int)
      requires Valid() && !halted && dst < NTASK && dst != current && Wants(tasks[dst], tasks[current].id)
      modifies this`tasks, this`mem, this`meets
      ensures Valid() && mem.Keys == old(mem).Keys
      ensures Handed(old(tasks), tasks, old(mem), mem, old(meets), meets, current, dst, sva, slen)
    {
      hide Inv, Copied, Arrived, MeetsOk, Mapped, Peek;
      ghost var ts0, m0 := tasks, mem;
      var me, t := tasks[current], tasks[dst];
      var n := Deliver(me.pt, sva, slen, t.pt, t.recvVa, t.recvLen);
      if n < 0 {
        Answer(-1);
        return;
      }
      ghost var w := t.(a0 := me.id, waitingRecv := false, recvClosed := false, state := Runnable);
      WakeInv(tasks, qs, dst, w);
      ArrivedIs(m0, meets, me, sva, t, t.recvVa, n);
      LiveIds(tasks, qs, dst);
      LiveIds(tasks, qs, current);
      MeetMore(tasks, qs, meets, current, dst, Peek(mem, t.pt, t.recvVa, n));
      meets := meets + [Meet(me.id, t.id, Peek(mem, t.pt, t.recvVa, n))];
      tasks := tasks[dst := t.(a0 := me.id, waitingRecv := false, recvClosed := false, state := Runnable)];
      MeetsKept(ts0, tasks, meets);
      SameUsed(ts0, tasks, spaces);
      Answer(0);
    }

    /** Nobody waiting: park at the end of the queue, and let somebody else run. */
    method Park(dst: nat, sva: nat, slen: int)
      requires Valid() && !halted && dst < NTASK && dst != current && Live(tasks[dst])
               && !Wants(tasks[dst], tasks[current].id)
      modifies this`tasks, this`current, this`halted, this`qs
      ensures Valid() && qs == PutQ(old(qs), dst, old(qs).q[dst] + [old(current)]).(dest := qs.dest)
      ensures Parked(old(tasks), tasks, old(current), sva, slen) && (halted <==> Alone(old(tasks), old(current)))
    {
      hide Inv, Enqueued, Relinked, Wants, MeetsOk, Elsewhere, Alone, Shuffled;
      var me := current;
      QueueFacts(tasks, qs, dst, me);
      RunningFree(tasks, qs, me);
      ghost var ts0, q := tasks, qs.q[dst];
      var ts := Enqueue(tasks, dst, me, q);
      EnqueueRelinks(tasks, dst, me, q);
      EnqueuedSelf(tasks, dst, me, q);
      var t := ts[me].(sendVa := sva, sendLen := slen, waitingRecv := false, state := Blocked);
      ParkInv(tasks, qs, dst, me, t);
      tasks := ts[me := t];
      qs := PutQ(qs, dst, q + [me]).(dest := qs.dest[me := dst]);
      ParkFrame(ts0, tasks, me, dst, q);
      SameUsed(ts0, tasks, spaces);
      MeetsKept(ts0, tasks, meets);
      ghost var ts1 := tasks;
      Dispatch();
      ShuffledElsewhere(ts0, ts1, tasks, me);
    }

    /** ipc_send. */
    method Send(dstId: int, sva: nat, slen: int, nonblock: bool)
      requires Valid() && !halted
      modifies this`tasks, this`current, this`halted, this`qs, this`mem, this`meets
      ensures Valid() && mem.Keys == old(mem).Keys
      ensures var dst := ById(old(tasks), dstId); var me := old(tasks)[old(current)];
              if dst == NIL || old(tasks)[dst].state == Unused || dst == old(current)
                  || (nonblock && !Wants(old(tasks)[dst], me.id)) then
                tasks == old(tasks)[old(current) := me.(a0 := -1)] && qs == old(qs) && meets == old(meets)
                    && mem == old(mem) && current == old(current) && !halted
              else if Wants(old(tasks)[dst], me.id) then
                current == old(current) && !halted && qs == old(qs)
                    && Handed(old(tasks), tasks, old(mem), mem, old(meets), meets, old(current), dst, sva, slen)
              else qs.q == old(qs).q[dst := old(qs).q[dst] + [old(current)]] && meets == old(meets) && mem == old(mem)
                   && Parked(old(tasks), tasks, old(current), sva, slen)
                   && (halted <==> Alone(old(tasks), old(current)))
    {
      hide Inv, Wants, Parked, Handed, MeetsOk, Alone;
      var dst := ById(tasks, dstId);
      if dst == NIL || tasks[dst].state == Unused {
        Answer(-1);
      } else if dst == current {
        Answer(-1);
      } else if Wants(tasks[dst], tasks[current].id) {
        Handover(dst, sva, slen);
      } else if nonblock {
        Answer(-1);
      } else {
        LiveIds(tasks, qs, dst);
        Park(dst, sva, slen);
      }
    }

    /** The copy failed, and the sender is off the queue. */
    method Lose(ghost k: nat, ghost s: nat, ts: Table)
      requires Valid() && !halted && |qs.q| == NTASK && k < |qs.q[current]| && qs.q[current][k] == s && s < NTASK
               && (k > 0 ==> qs.q[current][k - 1] < NTASK)
      requires ts == Unlinked(tasks, current, qs.q[current], k)
      modifies this`tasks
      ensures Rest() && OneRuns(tasks, current) && !Intact()
      ensures tasks[current].a0 == -1 && tasks[current].state == Running && Sending(tasks[s])
      ensures forall i {:trigger tasks[i]} :: 0 <= i < NTASK ==>
                tasks[i] == old(tasks)[i].(a0 := tasks[i].a0, waitSender := tasks[i].waitSender,
                    sendNext := tasks[i].sendNext)
                && (i != current ==> tasks[i].a0 == old(tasks)[i].a0)
    {
      hide Inv, Unlinked, Relinked, MeetsOk;
      ghost var ts0 := tasks;
      SenderFacts(tasks, qs, current, k);
      UnlinkRelinks(tasks, current, qs.q[current], k);
      RelinkedBut(tasks, ts, current, qs.q[current]);
      tasks := ts[current := ts[current].(a0 := -1)];
      SameUsed(ts0, tasks, spaces);
      MeetsKept(ts0, tasks, meets);
      ghost var ts1 := tasks;
      forall q' ensures !Inv(ts1, q') { LostForGood(ts0, qs, current, k, ts1, q'); }
    }

    /** The message is across: both go on. */
    method Meeting(ghost k: nat, s: nat, ts: Table, ghost m0: Memory, ghost rva: nat, ghost n: nat)
      requires Valid() && !halted && |qs.q| == NTASK && k < |qs.q[current]| && qs.q[current][k] == s && s < NTASK
               && (k > 0 ==> qs.q[current][k - 1] < NTASK)
      requires ts == Unlinked(tasks, current, qs.q[current], k)
      requires Mapped(m0, tasks[s].pt, tasks[s].sendVa, n) && Mapped(m0, tasks[current].pt, rva, n)
      requires mem == Copied(m0, tasks[current].pt, rva, tasks[s].pt, tasks[s].sendVa, n)
      modifies this`tasks, this`qs, this`meets
      ensures Valid() && qs == PutQ(old(qs), current, Without(old(qs).q[current], k))
      ensures Arrived(m0, mem, old(meets), meets, old(tasks)[s], old(tasks)[s].sendVa, old(tasks)[current], rva, n)
      ensures s != current && tasks[current].a0 == old(tasks)[s].id && tasks[s].a0 == 0 && tasks[s].state == Runnable
      ensures forall i {:trigger tasks[i]} :: 0 <= i < NTASK ==>
                tasks[i] == old(tasks)[i].(a0 := tasks[i].a0, state := tasks[i].state,
                    waitSender := tasks[i].waitSender, sendNext := tasks[i].sendNext)
                && (i != current && i != s ==> tasks[i].a0 == old(tasks)[i].a0 && tasks[i].state == old(tasks)[i].state)
    {
      hide Inv, Unlinked, Copied, Without, Relinked, MeetsOk, Arrived, Mapped, Peek;
      ghost var ts0, q := tasks, qs.q[current];
      SenderFacts(tasks, qs, current, k);
      UnlinkRelinks(tasks, current, q, k);
      UnlinkSelf(tasks, current, q, k);
      RelinkedBut(tasks, ts, current, q);
      LeaveInv(tasks, qs, current, k, ts[s].(a0 := 0, state := Runnable));
      ArrivedIs(m0, meets, ts0[s], ts0[s].sendVa, ts0[current], rva, n);
      LiveIds(ts0, qs, s);
      LiveIds(ts0, qs, current);
      MeetMore(ts0, qs, meets, s, current, Peek(mem, ts0[current].pt, rva, n));
      meets := meets + [Meet(ts0[s].id, ts0[current].id, Peek(mem, ts0[current].pt, rva, n))];
      tasks := ts[s := ts[s].(a0 := 0, state := Runnable)];
      qs := PutQ(qs, current, Without(q, k));
      SameUsed(ts0, tasks, spaces);
      MeetsKept(ts0, tasks, meets);
      Answer(ts[s].id);
    }

    /** A sender was already parked, and is off the queue: complete the rendezvous now. If
        the copy fails the sender is lost. */
    method Collect(ghost k: nat, s: nat, ts: Table, rva: nat, rlen: int)
      requires Valid() && !halted && |qs.q| == NTASK && k < |qs.q[current]| && qs.q[current][k] == s && s < NTASK
               && (k > 0 ==> qs.q[current][k - 1] < NTASK)
      requires ts == Unlinked(tasks, current, qs.q[current], k)
      modifies this`tasks, this`qs, this`mem, this`meets
      ensures Rest() && OneRuns(tasks, current) && mem.Keys == old(mem).Keys
      ensures Intact() <==> Copyable(old(tasks), old(mem), current, s, rva, rlen)
      ensures if Copyable(old(tasks), old(mem), current, s, rva, rlen) then
                Inv(tasks, qs) && qs == PutQ(old(qs), current, Without(old(qs).q[current], k))
                    && Collected(old(tasks), tasks, old(mem), mem, old(meets), meets, current, s, rva, rlen)
              else Lost(old(tasks), tasks, old(mem), mem, old(meets), meets, current, s, rva, rlen)
    {
      hide Inv, Unlinked, Copied, Without, Relinked, MeetsOk, Arrived, Mapped, Peek, Partly;
      SenderFacts(tasks, qs, current, k);
      UnlinkRelinks(tasks, current, qs.q[current], k);
      RelinkedBut(tasks, ts, current, qs.q[current]);
      ghost var m0 := mem;
      var n := Deliver(ts[s].pt, ts[s].sendVa, ts[s].sendLen, ts[current].pt, rva, rlen);
      if n < 0 {
        Lose(k, s, ts);
        return;
      }
      Meeting(k, s, ts, m0, rva, n);
      StillIntact(tasks, qs);
    }

    /** Nobody to hear from yet: wait. */
    method Listen(closed: bool, want: int, rva: nat, rlen: int)
      requires Valid() && !halted && |qs.q| == NTASK && (closed ==> ById(tasks, want) != NIL)
      requires (qs.q[current] != [] ==> closed)
               && forall s :: s in qs.q[current] && 0 <= s < NTASK ==> tasks[s].id != want
      modifies this`tasks, this`current, this`halted
      ensures Valid() && Listening(old(tasks), tasks, old(current), closed, want, rva, rlen)
              && (halted <==> Alone(old(tasks), old(current)))
    {
      hide Inv, MeetsOk, Elsewhere, Alone, Shuffled;
      ghost var ts0, me := tasks, current;
      var t := tasks[current].(recvVa := rva, recvLen := rlen, waitingRecv := true, recvClosed := closed,
          recvFrom := if closed then want else 0, state := Blocked);
      ListenInv(tasks, qs, current, t);
      tasks := tasks[current := t];
      SameUsed(ts0, tasks, spaces);
      MeetsKept(ts0, tasks, meets);
      ghost var ts1 := tasks;
      Dispatch();
      ShuffledElsewhere(ts0, ts1, tasks, me);
    }

    /** ipc_recv. The table makes sense afterwards exactly if no sender was taken off the
        queue, or the copy from the one that was did not fail. */
    method Recv(closed: bool, want: int, rva: nat, rlen: int)
      requires Valid() && !halted && |qs.q| == NTASK
      modifies this`tasks, this`current, this`halted, this`qs, this`mem, this`meets
      ensures Rest() && mem.Keys == old(mem).Keys && (!halted ==> OneRuns(tasks, current))
      ensures var s := Heard(old(tasks), old(qs).q[old(current)], old(tasks)[old(current)], closed, want);
              Intact() <==> s == NIL || Copyable(old(tasks), old(mem), old(current), s, rva, rlen)
      ensures Intact() ==> Valid()
      ensures var me, q := old(tasks)[old(current)], old(qs).q[old(current)];
              var s, k := Heard(old(tasks), q, me, closed, want), Pick(old(tasks), q, closed, want);
              if s != NIL then
                && current == old(current) && !halted
                && if Copyable(old(tasks), old(mem), old(current), s, rva, rlen) then
                     qs == PutQ(old(qs), old(current), Without(q, k))
                         && Collected(old(tasks), tasks, old(mem), mem, old(meets), meets, current, s, rva, rlen)
                   else Lost(old(tasks), tasks, old(mem), mem, old(meets), meets, current, s, rva, rlen)
              else
                && qs == old(qs) && meets == old(meets) && mem == old(mem)
                && if closed && ById(old(tasks), want) == NIL then
                     tasks == old(tasks)[old(current) := me.(a0 := -1)] && current == old(current) && !halted
                   else if !closed && me.irqPending then
                     tasks == old(tasks)[old(current) := me.(a0 := IRQ_SENDER, irqPending := false)]
                         && current == old(current) && !halted
                   else if !closed && me.timerPending then
                     tasks == old(tasks)[old(current) := me.(a0 := TIMER_SENDER, timerPending := false)]
                         && current == old(current) && !halted
                   else
                     && Listening(old(tasks), tasks, old(current), closed, want, rva, rlen)
                     && (halted <==> Alone(old(tasks), old(current)))
    {
      hide Listening, Alone, Inv, Unlinked, Copied, Without, Collected, Mapped, MeetsOk, Lost, Copyable;
      if closed {
        if ById(tasks, want) == NIL {
          Answer(-1);
          StillIntact(tasks, qs);
          return;
        }
      } else if tasks[current].irqPending {
        Clear(true);
        StillIntact(tasks, qs);
        return;
      }
      if !closed && tasks[current].timerPending {
        Clear(false);
        StillIntact(tasks, qs);
        return;
      }
      RunningFree(tasks, qs, current);
      QueueFacts(tasks, qs, current, current);
      ghost var q := qs.q[current];
      var ts, s;
      ghost var k;
      ts, s, k := Dequeue(tasks, current, closed, want, q);
      PickSame(tasks, q, closed, want, if s == NIL then |q| else k);
      if s != NIL {
        Collect(k, s, ts, rva, rlen);
      } else {
        Listen(closed, want, rva, rlen);
        StillIntact(tasks, qs);
      }
    }

    /** A pending interrupt or alarm outranks queued messages. */
    method Clear(irq: bool)
      requires Valid() && !halted
      modifies this`tasks
      ensures Valid()
      ensures tasks == old(tasks)[current := if irq then old(tasks)[current].(a0 := IRQ_SENDER, irqPending := false)
              else old(tasks)[current].(a0 := TIMER_SENDER, timerPending := false)]
    {
      hide Inv;
      ghost var ts0 := tasks;
      var t := if irq then tasks[current].(a0 := IRQ_SENDER, irqPending := false)
          else tasks[current].(a0 := TIMER_SENDER, timerPending := false);
      AnswerInv(tasks, qs, current, t);
      tasks := tasks[current := t];
      SameUsed(ts0, tasks, spaces);
    }

    /** A device fires or an alarm comes due, as src/trap.c tells a task. */
    method Interrupt(i: nat, irq: bool)
      requires Valid() && i < NTASK && tasks[i].state != Unused
      modifies this`tasks
      ensures Valid()
      ensures var t := old(tasks)[i];
              if !Receiving(t) then tasks == old(tasks)[i := Flagged(t, irq)]
              else
                var a0 := if irq then IRQ_SENDER else TIMER_SENDER;
                tasks == old(tasks)[i := t.(a0 := a0, waitingRecv := false, state := Runnable)]
    {
      hide Inv, MeetsOk, SpacesOk, AllGone, Flagged;
      ghost var ts0 := tasks;
      var t := tasks[i];
      if Receiving(t) {
        var w := t.(a0 := if irq then IRQ_SENDER else TIMER_SENDER, waitingRecv := false, state := Runnable);
        WakeInv(tasks, qs, i, w);
        tasks := tasks[i := w];
      } else {
        FlagInv(tasks, qs, i, irq);
        tasks := tasks[i := Flagged(t, irq)];
      }
      SameUsed(ts0, tasks, spaces);
      MeetsKept(ts0, tasks, meets);
    }

    /** SYS_WAIT. The table makes sense afterwards exactly if it was not task 0, while
        there is one, that was named: 0 is also what not waiting looks like. */
    method Wait(id: int)
      requires Valid() && !halted
      modifies this`tasks, this`current, this`halted
      ensures Rest() && (!halted ==> OneRuns(tasks, current))
      ensures Intact() <==> id != 0 || ById(old(tasks), 0) == NIL
      ensures Intact() ==> Valid()
      ensures if ById(old(tasks), id) == NIL then
                tasks == old(tasks)[old(current) := old(tasks)[old(current)].(a0 := 0)] && current == old(current)
                    && !halted
              else
                && tasks[old(current)] == old(tasks)[old(current)].(state := Blocked, waitFor := id)
                && Elsewhere(old(tasks), tasks, old(current)) && (halted <==> Alone(old(tasks), old(current)))
    {
      hide Inv, MeetsOk, Elsewhere, Alone, Shuffled;
      if ById(tasks, id) == NIL {
        Answer(0);
        StillIntact(tasks, qs);
        return;
      }
      ghost var ts0 := tasks;
      RunningFree(tasks, qs, current);
      if id != 0 { WaitInv(tasks, qs, current, id); }
      tasks := tasks[current := tasks[current].(waitFor := id, state := Blocked)];
      SameUsed(ts0, tasks, spaces);
      MeetsKept(ts0, tasks, meets);
      ghost var ts1 := tasks;
      if id == 0 {
        forall q ensures !Inv(ts1, q) { WaitZero(ts0, qs, current, q); }
      }
      Dispatch();
      ShuffledElsewhere(ts0, ts1, tasks, old(current));
      if id != 0 { StillIntact(tasks, qs); }
    }

    // ---- the end of a task

    /** task_retire takes t out of whatever queue it stands in. */
    method Unqueue(t: nat)
      requires InvBut(tasks, qs, t) && t < NTASK && qs.q[t] == []
      modifies this`tasks, this`qs
      ensures InvBut(tasks, qs, t) && qs.q[t] == [] && qs.dest == old(qs).dest
              && (forall r :: 0 <= r < NTASK ==> t !in qs.q[r])
      ensures SameBut(old(tasks), tasks)
    {
      hide InvBut, Unlinked, Without, Threads, Relinked;
      SizeBut(tasks, qs, t);
      for i := 0 to NTASK
        invariant InvBut(tasks, qs, t) && |qs.q| == NTASK && qs.q[t] == [] && qs.dest == old(qs).dest
                  && forall r :: 0 <= r < i ==> t !in qs.q[r]
        invariant SameBut(old(tasks), tasks)
      {
        ghost var q := qs.q[i];
        ThreadsBut(tasks, qs, t, i);
        var ts, found;
        ghost var k;
        ts, found, k := UnqueueFrom(tasks, i, t, q);
        if found {
          UnqueueInv(tasks, qs, t, i, k);
          UnlinkRelinks(tasks, i, q, k);
          RelinkedSame(old(tasks), tasks, ts, i, q);
          tasks := ts;
          qs := PutQ(qs, i, Without(q, k));
        }
      }
    }

    /** The address space goes only if nobody else is standing in it. */
    method DropSpace(t: nat)
      requires t < NTASK && tasks[t].pt != 0
      modifies this`spaces, this`mem
      ensures spaces == if Others(tasks, t) then old(spaces) else old(spaces) - {tasks[t].pt}
      ensures mem == if Others(tasks, t) then old(mem) else map a | a in old(mem) && a.0 != tasks[t].pt :: old(mem)[a]
    {
      var pt, shared := tasks[t].pt, false;
      for i := 0 to NTASK
        invariant !shared && forall j :: 0 <= j < i && j != t ==> tasks[j].pt != pt
      {
        if i != t && tasks[i].pt == pt && (tasks[i].state != Unused || tasks[i].pt != 0) {
          assert Others(tasks, t);
          shared := true;
          break;
        }
      }
      if !shared {
        spaces := spaces - {pt};
        mem := map a | a in mem && a.0 != pt :: mem[a];
      }
    }

    /** The first three steps of task_retire: nobody waits for t, in any way, any more. */
    method Detach(t: nat) returns (ghost ts2: Table)
      requires Inv(tasks, qs) && t < NTASK
      modifies this`tasks, this`qs
      ensures |qs.q| == NTASK && |old(qs).q| == NTASK && InvBut(ts2, qs, t) && tasks == AllTold(ts2, old(tasks)[t].id)
      ensures Spared(ts2, t) <==> Idle(old(tasks), old(qs).q[t], t)
      ensures qs.q[t] == [] && !tasks[t].waitingRecv && (forall r :: 0 <= r < NTASK ==> t !in qs.q[r])
      ensures Detached(old(tasks), old(qs).q[t], tasks)
    {
      hide Inv, InvBut, Dismissed, Threads, Distinct, AllTold, Detached, Spared, Idle;
      ghost var ts0, qs0 := tasks, qs;
      var id := tasks[t].id;
      SenderQueue(tasks, qs, t);
      var ts := Dismiss(tasks, t, qs.q[t]);
      DismissInv(tasks, qs, t);
      DismissedAre(tasks, t, qs.q[t]);
      DismissIdle(tasks, t, qs.q[t]);
      tasks, qs := ts, PutQ(qs, t, []);
      ghost var ts1 := tasks;
      Unqueue(t);
      ts2 := tasks;
      SameIdle(ts1, ts2, t);
      ts := TellAll(tasks, id);
      ToldAre(ts2, ts, id);
      tasks := ts;
      RetireFrame(ts0, qs0.q[t], ts1, ts2, tasks, t);
      SizeBut(ts2, qs, t);
    }

    /** task_retire. The table makes sense afterwards exactly if it was not id 0 that was
        retired, or nobody was blocked who was not waiting for a task to end or for t to
        receive: 0 is also what not waiting looks like. */
    method Retire(t: nat)
      requires Sound() && t < NTASK && Live(tasks[t]) && tasks[t].gen + 1 < GEN_LIMIT
      modifies this`tasks, this`qs, this`retired, this`spaces, this`mem
      ensures Rest() && |old(qs).q| == NTASK
              && (Intact() <==> old(tasks)[t].id != 0 || Idle(old(tasks), old(qs).q[t], t))
      ensures Intact() ==> Sound()
      ensures retired == old(retired) + {old(tasks)[t].id} && ById(tasks, old(tasks)[t].id) == NIL
              && tasks[t].state == Unused && tasks[t].pt == 0
      ensures spaces == if Others(old(tasks), t) then old(spaces) else old(spaces) - {old(tasks)[t].pt}
      ensures exists ts: Table :: Detached(old(tasks), old(qs).q[t], ts) && tasks == ts[t := tasks[t]]
    {
      hide Inv, InvBut, Detached, SpacesOk, AllGone, Gone, Others, AllTold, Spared, Idle, MeetsOk, NoneNames;
      ghost var ts0 := tasks;
      var id := tasks[t].id;
      LiveIds(tasks, qs, t);
      ghost var ts2 := Detach(t);
      ghost var ts3 := tasks;
      DetachedIs(ts0, old(qs).q[t], ts3);
      SameUsed(ts0, ts3, spaces);
      SameOthers(ts0, ts3, t);
      DropSpace(t);
      DeadSpaces(ts3, t, old(spaces));
      DeadGone(ts3, t, id, old(retired));
      tasks := tasks[t := Dead(tasks[t])];
      ghost var ts4 := tasks;
      retired := retired + {id};
      MeetsKept(ts0, ts4, meets);
      if id != 0 || Spared(ts2, t) {
        ToldInv(ts2, qs, t, id);
        DeadInv(ts3, qs, t);
        StillIntact(tasks, qs);
      } else {
        forall q' ensures !Inv(ts4, q') { RetireZero(ts2, qs, t, ts4, q'); }
      }
    }

    /** SYS_EXIT, and what src/trap.c does to a task that faults. */
    method Exit()
      requires Valid() && !halted && tasks[current].gen + 1 < GEN_LIMIT
      modifies this
      ensures Rest() && (!halted ==> OneRuns(tasks, current)) && |old(qs).q| == NTASK
      ensures Intact() <==> old(tasks)[old(current)].id != 0 || Idle(old(tasks), old(qs).q[old(current)], old(current))
      ensures Intact() ==> Valid()
      ensures retired == old(retired) + {old(tasks)[old(current)].id} && ById(tasks, old(tasks)[old(current)].id) == NIL
      ensures spaces == if Others(old(tasks), old(current)) then old(spaces)
              else old(spaces) - {old(tasks)[old(current)].pt}
    {
      hide Inv, SpacesOk, AllGone, Detached, Others, Idle, MeetsOk;
      var id := tasks[current].id;
      LiveIds(tasks, qs, current);
      Retire(current);
      ghost var ts1 := tasks;
      Dispatch();
      NamesKept(ts1, tasks, id);
    }

    /** SYS_KILL: not itself, and not the first slot. */
    method Kill(id: int)
      requires Valid() && !halted && forall i :: 0 <= i < NTASK ==> tasks[i].gen + 1 < GEN_LIMIT
      modifies this
      ensures Valid() && !halted && current == old(current)
      ensures var t := ById(old(tasks), id);
              if t == NIL || t == current || t == 0 then tasks[current].a0 == -1 && retired == old(retired)
                  && spaces == old(spaces) && qs == old(qs)
              else tasks[current].a0 == 0 && retired == old(retired) + {id} && ById(tasks, id) == NIL
                   && spaces == if Others(old(tasks), t) then old(spaces) else old(spaces) - {old(tasks)[t].pt}
    {
      hide Inv, SpacesOk, AllGone, Others, ById, Detached;
      var t := ById(tasks, id);
      if t == NIL || t == current || t == 0 {
        Answer(-1);
        return;
      }
      ByIdIs(tasks, id);
      NamedLive(tasks, qs, t);
      Retire(t);
      ghost var ts1 := tasks;
      KeepsRunning(old(tasks), old(qs).q[t], tasks, t, current);
      Answer(0);
      NamesKept(ts1, tasks, id);
    }

    // ---- the beginning of a task

    /** alloc_slot: the first free one, or NIL. */
    method AllocSlot() returns (i: int)
      requires Valid()
      modifies this`tasks
      ensures Valid()
      ensures i == NIL ==> tasks == old(tasks) && NoRoom(tasks)
      ensures i != NIL ==>
              0 <= i < NTASK && old(tasks)[i].state == Unused && old(tasks)[i].pt == 0
              && tasks == old(tasks)[i := Blank(i, old(tasks)[i].gen)]
    {
      hide Inv;
      for j := 0 to NTASK
        invariant tasks == old(tasks) && Valid()
                  && forall k :: 0 <= k < j ==> tasks[k].state != Unused || tasks[k].pt != 0
      {
        if tasks[j].state == Unused && tasks[j].pt == 0 {
          ghost var ts0 := tasks;
          BornInv(tasks, qs, j, Blank(j, tasks[j].gen));
          tasks := tasks[j := Blank(j, tasks[j].gen)];
          SameUsed(ts0, tasks, spaces);
          return j;
        }
      }
      i := NIL;
    }

    /** A slot becomes a task: with an address space of its own, or, for a thread, with
        the caller's. */
    method Spawn(pt: nat, arg: int, ready: bool) returns (i: int)
      requires Valid() && pt != 0
      modifies this`tasks, this`spaces
      ensures Valid() && (i == NIL <==> NoRoom(old(tasks)))
              && (i == NIL ==> tasks == old(tasks) && spaces == old(spaces))
      ensures i != NIL ==> 0 <= i < NTASK && !Live(old(tasks)[i]) && spaces == old(spaces) + {pt}
      ensures i != NIL ==>
              tasks == old(tasks)[i := Blank(i, old(tasks)[i].gen).(pt := pt, a0 := arg,
              state := if ready then Runnable else Unused)]
      ensures i != NIL ==>
              ById(tasks, tasks[i].id) == i && tasks[i].id !in retired && ById(old(tasks), tasks[i].id) == NIL
    {
      hide Inv;
      ghost var ts0 := tasks;
      i := AllocSlot();
      if i == NIL { return; }
      Settle(i, pt, arg, ready);
      assert tasks == ts0[i := tasks[i]];
      BornName(ts0, i, tasks[i], retired);
    }

    /** A slot that alloc_slot gave gets its address space. */
    method Settle(i: nat, pt: nat, arg: int, ready: bool)
      requires Valid() && i < NTASK && tasks[i] == Blank(i, tasks[i].gen) && pt != 0
      modifies this`tasks, this`spaces
      ensures Valid() && spaces == old(spaces) + {pt}
      ensures tasks == old(tasks)[i := old(tasks)[i].(pt := pt, a0 := arg,
              state := if ready then Runnable else Unused)]
      ensures ById(tasks, tasks[i].id) == i && tasks[i].id !in retired && ById(old(tasks), tasks[i].id) == NIL
    {
      hide Inv;
      var ts0 := tasks;
      var t := tasks[i].(pt := pt, a0 := arg, state := if ready then Runnable else Unused);
      BornInv(ts0, qs, i, t);
      tasks := tasks[i := t];
      spaces := spaces + {pt};
      BornSpaces(ts0, i, t, old(spaces));
      BornName(ts0, i, t, retired);
    }

    /** SYS_THREAD: a task that is handed the caller's address space. */
    method Thread(entry: nat, sp: nat, arg: int)
      requires Valid() && !halted
      modifies this`tasks, this`spaces
      ensures Valid() && spaces == old(spaces)
      ensures var id := tasks[current].a0;
              if entry == 0 || sp == 0 || NoRoom(old(tasks)) then
                tasks[current] == old(tasks)[current].(a0 := -1)
                    && forall i {:trigger tasks[i]} :: 0 <= i < NTASK && i != current ==>
                              tasks[i] == old(tasks)[i]
                                  || (old(tasks)[i].state == Unused && old(tasks)[i].pt == 0
                                  && tasks[i] == Blank(i, old(tasks)[i].gen))
              else exists i :: Threaded(old(tasks), tasks, current, i, arg) && ById(tasks, id) == i
    {
      hide Inv;
      var pt := tasks[current].pt;
      LiveIds(tasks, qs, current);
      if entry == 0 || sp == 0 {
        var i := AllocSlot();
        Answer(-1);
        return;
      }
      UsedHere(tasks, spaces, current);
      var i := Spawn(pt, arg, true);
      if i == NIL {
        Answer(-1);
        return;
      }
      var id := tasks[i].id;
      ghost var ts1 := tasks;
      Answer(id);
      NamesKept(ts1, tasks, id);
      assert tasks[i] == ts1[i];
      assert Threaded(old(tasks), tasks, current, i, arg);
      assert old(spaces) + {pt} == old(spaces);
    }

    /** SYS_START: a task built slot by slot is let go. */
    method Start(id: int, arg: int)
      requires Valid() && !halted
      modifies this`tasks
      ensures Valid()
      ensures var t := ById(old(tasks), id);
              if t == NIL || t == 0 || old(tasks)[t].state != Unused
                  then tasks == old(tasks)[current := old(tasks)[current].(a0 := -1)]
              else tasks == old(tasks)[t := old(tasks)[t].(a0 := arg,
                  state := Runnable)][current := old(tasks)[current].(a0 := 0)]
    {
      hide Inv, ById;
      var t := ById(tasks, id);
      ByIdIs(tasks, id);
      if t == NIL || t == 0 || tasks[t].state != Unused || tasks[t].pt == 0 {
        Answer(-1);
        return;
      }
      ghost var ts0 := tasks;
      StartInv(tasks, qs, t, arg);
      tasks := tasks[t := tasks[t].(a0 := arg, state := Runnable)];
      SameUsed(ts0, tasks, spaces);
      Answer(0);
    }

    /** The table at boot: one task, running. */
    constructor (pt: nat)
      requires pt != 0
      ensures Valid() && !halted && current == 0 && retired == {} && meets == [] && tasks == Booted(pt) && mem == map[]
              && spaces == {pt}
    {
      tasks := Booted(pt);
      current, mem, spaces, halted := 0, map[], {pt}, false;
      qs := Queues(seq(NTASK, _ => []), seq(NTASK, _ => NIL));
      retired, meets := {}, [];
      new;
      BootInv(tasks, qs, pt);
    }
  }
}
