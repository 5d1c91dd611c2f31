/** Runs of the kernel, from boot, into the states that src/ipc.c and src/task.c do not
    come back from. */
module IpcRuns {
  import opened IpcModel
  import opened Ipc

  /** There are the tasks a and b, and no others. */
  ghost predicate Two(ts: Table, a: nat, b: nat) {
    a < NTASK && b < NTASK && a != b && forall i :: 0 <= i < NTASK && i != a && i != b ==> ts[i].state == Unused
  }

  /** A task no device has called. */
  predicate Quiet(t: Task) { !t.irqPending && !t.timerPending }

  lemma PairIs(ts: Table, b: nat)
    requires Threaded(Booted(1), ts, 0, b, 0)
    ensures Two(ts, 0, b) && ts[0].id == 0 && ts[0].gen == 0 && ts[0].state == Running && ts[b].state == Runnable
            && Quiet(ts[b])
  {
    forall i | 0 <= i < NTASK && i != 0 && i != b ensures ts[i].state == Unused { assert ts[i] == Booted(1)[i]; }
  }

  /** The first task has started a second beside it. */
  method Pair() returns (k: Kernel, ghost b: nat)
    ensures fresh(k) && k.Valid() && !k.halted && k.current == 0 && k.mem == map[] && Two(k.tasks, 0, b)
    ensures k.tasks[0].id == 0 && k.tasks[0].gen == 0 && k.tasks[0].state == Running
    ensures ById(k.tasks, k.tasks[0].a0) == b && k.tasks[b].state == Runnable && Quiet(k.tasks[b])
  {
    hide Inv, AllGone, SpacesOk, MeetsOk, OneRuns, Threaded, Quiet, ById;
    k := new Kernel(1);
    assert k.tasks[1].state == Unused && k.tasks[1].pt == 0;
    k.Thread(1, 1, 0);
    var id := k.tasks[0].a0;
    b :| Threaded(Booted(1), k.tasks, 0, b, 0) && ById(k.tasks, id) == b;
    PairIs(k.tasks, b);
  }

  /** With everybody else blocked or gone, the one that can run does. */
  lemma Next(ts: Table, ts': Table, a: nat, b: nat, cur: nat)
    requires Two(ts, a, b) && Elsewhere(ts, ts', a) && !Ready(ts'[a].state) && Ready(ts[b].state) && OneRuns(ts', cur)
    ensures cur == b && Two(ts', a, b)
            && ts'[b] == ts[b].(state := Running, waitSender := ts'[b].waitSender, sendNext := ts'[b].sendNext)
  {
    assert Ready(ts'[cur].state);
  }

  /** While nobody sends, the queues are empty. */
  lemma NoSenders(ts: Table, qs: Queues, r: nat)
    requires Inv(ts, qs) && r < NTASK && forall i :: 0 <= i < NTASK ==> !Sending(ts[i])
    ensures |qs.q| == NTASK && qs.q[r] == []
  {
    assert QueueOk(ts, qs, r);
    HeadIn(qs.q[r]);
  }

  lemma HeadIn(q: seq<nat>)
    ensures q != [] ==> q[0] in q
  {
  }

  /** The first task has sent to the second and waits; the second runs. */
  method Sent(len: nat) returns (k: Kernel, ghost b: nat)
    ensures fresh(k) && k.Valid() && !k.halted && k.current == b && k.mem == map[] && Two(k.tasks, b, 0)
    ensures k.tasks[0].id == 0 && k.tasks[0].gen == 0 && Sending(k.tasks[0]) && k.tasks[0].sendLen == len
    ensures Quiet(k.tasks[b]) && |k.qs.q| == NTASK && k.qs.q[b] == [0] && k.qs.q[0] == []
  {
    hide Inv, MeetsOk;
    k, b := Pair();
    NoSenders(k.tasks, k.qs, b);
    NoSenders(k.tasks, k.qs, 0);
    ghost var ts := k.tasks;
    k.Send(k.tasks[0].a0, 0, len, false);
    Next(ts, k.tasks, 0, b, k.current);
  }

  /** A message from a buffer that is not there: the receive fails, and its sender never
      hears of it. */
  method LoseSender() returns (k: Kernel)
    ensures k.Rest() && !k.Intact() && Sending(k.tasks[0])
  {
    hide Inv, MeetsOk;
    ghost var b;
    k, b := Sent(1);
    assert Cell(k.tasks[0].pt, k.tasks[0].sendVa, 0) !in k.mem;
    k.Recv(false, 0, 0, 1);
  }

  /** The first task ends while the second waits to receive. */
  method EndFirst() returns (k: Kernel)
    ensures k.Rest() && !k.Intact()
  {
    hide Inv, MeetsOk;
    ghost var b;
    k, b := Sent(0);
    k.Recv(false, 0, 0, 0);
    ghost var ts := k.tasks;
    RunningFree(k.tasks, k.qs, b);
    k.Recv(false, 0, 0, 0);
    Next(ts, k.tasks, b, 0, k.current);
    assert !Idle(k.tasks, k.qs.q[0], 0) by { assert k.tasks[b].state == Blocked && k.tasks[b].waitFor == 0; }
    k.Exit();
  }

  /** A task waits for the first task to end. */
  method WaitForFirst() returns (k: Kernel)
    ensures k.Rest() && !k.Intact()
  {
    hide Inv, MeetsOk;
    k := new Kernel(1);
    assert ById(k.tasks, 0) == 0;
    k.Wait(0);
  }
}
