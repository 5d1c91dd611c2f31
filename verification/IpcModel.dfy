/** The task table of src/task.c and the sender queues of src/ipc.c: what holds of them,
    and what each change to them keeps. */
module IpcModel {
  const NTASK: nat := 24
  const NIL: int := -1

  datatype State = Unused | Runnable | Running | Blocked

  /** struct task; pt 0 is no address space, links are slot numbers. */
  datatype Task = Task(state: State, pt: nat, id: int, gen: nat, a0: int,
                       sendVa: nat, sendLen: int, recvVa: nat, recvLen: int,
                       waitingRecv: bool, recvClosed: bool, recvFrom: int,
                       irqPending: bool, timerPending: bool, waitFor: int,
                       waitSender: int, sendNext: int)

  type Table = s: seq<Task> | |s| == NTASK witness seq(NTASK, _ => Blank(0, 0))

  /** What alloc_slot leaves in a slot. */
  function Blank(slot: nat, gen: nat): Task {
    Task(Unused, 0, slot + 256 * gen, gen, 0, 0, 0, 0, 0, false, false, 0, false, false, 0, NIL, NIL)
  }

  predicate Live(t: Task) { t.pt != 0 }

  /** task_by_id: the slot, or NIL. */
  function ById(ts: Table, id: int): int {
    var i := id % 256;
    if i >= NTASK || (ts[i].state == Unused && ts[i].pt == 0) || ts[i].id != id then NIL else i
  }

  /** Blocked in send: not receiving, and not waiting for a task to end. */
  predicate Sending(t: Task) { t.state == Blocked && !t.waitingRecv && t.waitFor == 0 }

  /** Blocked until a task ends. */
  predicate Waiting(t: Task) { t.state == Blocked && !t.waitingRecv && t.waitFor != 0 }

  predicate Receiving(t: Task) { t.state == Blocked && t.waitingRecv }

  /** wants: would this receiver take a message from that id? */
  predicate Wants(t: Task, id: int) { Receiving(t) && (!t.recvClosed || t.recvFrom == id) }

  // ---- the queues

  /** The senders waiting for each slot, in order, and the slot each sender waits for. */
  datatype Queues = Queues(q: seq<seq<nat>>, dest: seq<int>)

  ghost predicate Distinct(s: seq<nat>) { forall i, j :: 0 <= i < j < |s| ==> s[i] != s[j] }

  /** wait_sender and send_next thread exactly the list q. */
  ghost predicate Threads(ts: Table, head: int, q: seq<nat>) {
    && (forall i {:trigger q[i]} :: 0 <= i < |q| ==> q[i] < NTASK)
    && head == (if q == [] then NIL else q[0])
    && forall i {:trigger LinkAt(ts, q, i)} :: 0 <= i < |q| ==> LinkAt(ts, q, i)
  }

  ghost predicate LinkAt(ts: Table, q: seq<nat>, i: nat)
    requires i < |q|
  {
    q[i] < NTASK && ts[q[i]].sendNext == (if i + 1 < |q| then q[i + 1] else NIL)
  }

  ghost predicate QueueOk(ts: Table, qs: Queues, r: nat)
    requires r < NTASK && |qs.q| == NTASK && |qs.dest| == NTASK
  {
    var q := qs.q[r];
    && Threads(ts, ts[r].waitSender, q) && Distinct(q)
    && (forall s :: s in q ==> 0 <= s < NTASK && Sending(ts[s]) && qs.dest[s] == r)
    && (q != [] ==> Live(ts[r])) && r !in q
  }

  ghost predicate TaskOk(ts: Table, qs: Queues, i: nat)
    requires i < NTASK && |qs.q| == NTASK && |qs.dest| == NTASK
  {
    var t := ts[i];
    && (Live(t) ==> t.id == i + 256 * t.gen)
    && (t.state != Unused ==> Live(t))
    && (Live(t) && t.state != Blocked ==> !t.waitingRecv && t.waitFor == 0)
    && (Receiving(t) ==> t.waitFor == 0)
    && (Receiving(t) && t.recvClosed ==> ById(ts, t.recvFrom) != NIL)
    && (Waiting(t) ==> ById(ts, t.waitFor) != NIL)
    && (Sending(t) ==> 0 <= qs.dest[i] < NTASK && i in qs.q[qs.dest[i]])
    && (forall s {:trigger ts[s]} :: s in qs.q[i] && 0 <= s < NTASK ==> !Wants(t, ts[s].id))
  }

  /** What every step keeps. */
  ghost predicate Inv(ts: Table, qs: Queues) {
    && |qs.q| == NTASK && |qs.dest| == NTASK
    && (forall r {:trigger QueueOk(ts, qs, r)} :: 0 <= r < NTASK ==> QueueOk(ts, qs, r))
    && (forall i {:trigger TaskOk(ts, qs, i)} :: 0 <= i < NTASK ==> TaskOk(ts, qs, i))
  }

  /** Exactly the current task is running. */
  ghost predicate OneRuns(ts: Table, cur: nat) {
    cur < NTASK && forall i :: 0 <= i < NTASK ==> (ts[i].state == Running <==> i == cur)
  }

  // ---- what the invariant says

  /** A task is in a queue exactly when it is blocked in send, and then in one queue,
      once, of a task that exists. */
  lemma QueuedOnce(ts: Table, qs: Queues, s: nat)
    requires Inv(ts, qs) && s < NTASK
    ensures Sending(ts[s]) <==> exists r :: 0 <= r < NTASK && s in qs.q[r]
    ensures forall r, r' :: 0 <= r < NTASK && 0 <= r' < NTASK && s in qs.q[r] && s in qs.q[r'] ==> r == r'
    ensures forall r :: 0 <= r < NTASK && s in qs.q[r] ==> Live(ts[r]) && Distinct(qs.q[r])
  {
    assert TaskOk(ts, qs, s);
    forall r | 0 <= r < NTASK && s in qs.q[r]
        ensures qs.dest[s] == r && Sending(ts[s]) && Live(ts[r]) && Distinct(qs.q[r]) {
      assert QueueOk(ts, qs, r);
    }
  }

  /** Nobody is blocked on a task that does not exist. */
  lemma NobodyStranded(ts: Table, qs: Queues, i: nat)
    requires Inv(ts, qs) && i < NTASK && ts[i].state == Blocked
    ensures || (Sending(ts[i]) && exists r :: 0 <= r < NTASK && Live(ts[r]) && i in qs.q[r])
            || (Waiting(ts[i]) && ById(ts, ts[i].waitFor) != NIL)
            || (Receiving(ts[i]) && (ts[i].recvClosed ==> ById(ts, ts[i].recvFrom) != NIL))
  {
    assert TaskOk(ts, qs, i);
    QueuedOnce(ts, qs, i);
  }

  /** No rendezvous is missed: nobody waits to receive while somebody it would accept
      waits to send to it. */
  lemma NoneMissed(ts: Table, qs: Queues, r: nat, s: nat)
    requires Inv(ts, qs) && r < NTASK && s < NTASK && s in qs.q[r]
    ensures !Wants(ts[r], ts[s].id)
  {
    assert TaskOk(ts, qs, r);
  }

  // ---- changes that leave every queue alone

  /** Same links, same names, same senders: the queues cannot tell. */
  ghost predicate Alike(t: Task, t': Task) {
    t'.waitSender == t.waitSender && t'.sendNext == t.sendNext && t'.id == t.id && t'.pt == t.pt && t'.gen == t.gen
        && (Sending(t') <==> Sending(t))
    && (t'.state == Unused <==> t.state == Unused)
  }

  lemma ThreadsSame(ts: Table, ts': Table, head: int, q: seq<nat>)
    requires Threads(ts, head, q) && forall i :: 0 <= i < |q| ==> ts'[q[i]].sendNext == ts[q[i]].sendNext
    ensures Threads(ts', head, q)
  {
    forall i | 0 <= i < |q| ensures LinkAt(ts', q, i) { assert LinkAt(ts, q, i); }
  }

  /** A task other than a sender changes what it is doing. */
  lemma Update(ts: Table, qs: Queues, i: nat, t: Task)
    requires Inv(ts, qs) && i < NTASK && Alike(ts[i], t)
    requires TaskOk(ts[i := t], qs, i)
    ensures Inv(ts[i := t], qs)
  {
    var ts' := ts[i := t];
    forall r | 0 <= r < NTASK ensures QueueOk(ts', qs, r) {
      assert QueueOk(ts, qs, r);
      ThreadsSame(ts, ts', ts[r].waitSender, qs.q[r]);
    }
    forall j | 0 <= j < NTASK ensures TaskOk(ts', qs, j) {
      assert TaskOk(ts, qs, j);
      ByIdSame(ts, ts', ts[j].recvFrom);
      ByIdSame(ts, ts', ts[j].waitFor);
    }
  }

  /** Nothing changed about who exists. */
  ghost predicate SamePeople(ts: Table, ts': Table) {
    forall i {:trigger ts'[i]} :: 0 <= i < NTASK ==>
      ts'[i].id == ts[i].id && ts'[i].pt == ts[i].pt && ts'[i].gen == ts[i].gen
          && (ts'[i].state == Unused <==> ts[i].state == Unused)
  }

  lemma ByIdSame(ts: Table, ts': Table, id: int)
    requires SamePeople(ts, ts')
    ensures ById(ts', id) == ById(ts, id)
  {
  }
}
