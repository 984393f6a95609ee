/**
  What flushing a command queue is for: whatever the list holds then gets done,
  and freeing a queue, which enqueues the end command and flushes, finds its
  worker ended.
 */
module CommandFlush {
  import opened CommandQueues
  import opened Unfolding

  /** A flush makes the queue process whatever is in its list, and does nothing else. */
  lemma FlushAttends(s: State, p: nat)
    requires Inv(s) && p < |s.queues|
    ensures var s' := Flush(s, p); var q, q' := s.queues[p], s'.queues[p];
      && q'.list == q.list && q'.enqueued == q.enqueued && q'.ran == q.ran
      && Current(q'.worker) == Current(q.worker)
      && (q'.list != [] ==> q'.process && !q'.worker.Waiting?) && (q'.list == [] ==> q' == q)
      && s'.events == s.events && s'.next == s.next && |s'.queues| == |s.queues|
      && forall r :: 0 <= r < |s.queues| && r != p ==> s'.queues[r] == s.queues[r]
  {
    assert QueueOk(s.queues[p], p, s.events, s.next);
  }

  /** A worker at the lock takes the first command when its list was flushed, and sleeps otherwise. */
  lemma TakesExactly(s: State, p: nat)
    requires Inv(s) && p < |s.queues| && (s.queues[p].worker.Ready? || s.queues[p].worker.Woken?)
    ensures CanWork(s, p)
    ensures var q, q' := s.queues[p], Work(s, p).queues[p];
      if q.process
      then q.list == Current(q'.worker) + q'.list && |Current(q'.worker)| == 1 && (q'.list != [] ==> q'.process)
      else q'.worker.Waiting? && q'.list == q.list && Work(s, p).events == s.events
  {
    assert QueueOk(s.queues[p], p, s.events, s.next);
  }

  /** c is not left lying: if it is still listed, its worker has been told and does not sleep. */
  ghost predicate Due(q: Queue, c: Command) {
    c in q.list ==> q.process && !q.worker.Waiting?
  }

  lemma EnqueueKeepsDue(s: State, r: nat, d: Command, p: nat, c: Command)
    requires Inv(s) && MayEnqueue(s, r, d) && p < |s.queues| && c in s.queues[p].enqueued && Due(s.queues[p], c)
    ensures Due(Enqueue(s, r, d).queues[p], c)
  {
    assert QueueOk(s.queues[p], p, s.events, s.next);
  }

  lemma DequeueKeepsDue(s: State, r: nat, p: nat, c: Command)
    requires Inv(s) && r < |s.queues| && p < |s.queues| && Due(s.queues[p], c)
    requires s.queues[r].worker.Ready? || s.queues[r].worker.Woken?
    ensures Due(Dequeue(s, r).queues[p], c)
  {
    assert QueueOk(s.queues[p], p, s.events, s.next);
  }

  lemma WorkKeepsDue(s: State, r: nat, p: nat, c: Command)
    requires Inv(s) && r < |s.queues| && CanWork(s, r) && p < |s.queues| && Due(s.queues[p], c)
    ensures |Work(s, r).queues| == |s.queues| && Due(Work(s, r).queues[p], c)
  {
    if s.queues[r].worker.Ready? || s.queues[r].worker.Woken? {
      DequeueKeepsDue(s, r, p, c);
    }
  }

  lemma StepKeepsEnqueued(s: State, s': State, p: nat, c: Command)
    requires Step(s, s') && p < |s.queues| && c in s.queues[p].enqueued
    ensures |s'.queues| == |s.queues| && c in s'.queues[p].enqueued
  {
    StepExtends(s, s', p);
    assert s.queues[p].enqueued <= s'.queues[p].enqueued;
  }

  lemma StepKeepsDue(s: State, s': State, p: nat, c: Command)
    requires Inv(s) && Step(s, s') && p < |s.queues| && c in s.queues[p].enqueued && Due(s.queues[p], c)
    ensures |s'.queues| == |s.queues| && Due(s'.queues[p], c)
  {
    if r: nat :| r < |s.queues| && CanWork(s, r) && s' == Work(s, r) {
      WorkKeepsDue(s, r, p, c);
    } else if r, d :| MayEnqueue(s, r, d) && s' == Enqueue(s, r, d) {
      EnqueueKeepsDue(s, r, d, p, c);
    }
  }

  /** c has been enqueued on p, and is due. */
  ghost predicate Owed(s: State, p: nat, c: Command) {
    forall x {:trigger Open(x)} :: Open(x) ==> p < |s.queues| && c in s.queues[p].enqueued && Due(s.queues[p], c)
  }

  lemma OpenOwed(s: State, p: nat, c: Command)
    ensures Owed(s, p, c) <==> p < |s.queues| && c in s.queues[p].enqueued && Due(s.queues[p], c)
  {
    assert Open(0);
  }

  lemma StepKeepsOwed(s: State, s': State, p: nat, c: Command)
    requires Inv(s) && Step(s, s') && Owed(s, p, c)
    ensures |s'.queues| == |s.queues| && Owed(s', p, c)
  {
    OpenOwed(s, p, c);
    StepKeepsEnqueued(s, s', p, c);
    StepKeepsDue(s, s', p, c);
    OpenOwed(s', p, c);
  }

  lemma RunStepKeepsOwed(states: seq<State>, n: nat, p: nat, c: Command)
    requires Run(states) && 0 < n < |states| && Owed(states[n - 1], p, c)
    ensures |states[n].queues| == |states[n - 1].queues| && Owed(states[n], p, c)
  {
    RunKeeps(states, n - 1);
    StepKeepsOwed(states[n - 1], states[n], p, c);
  }

  /** Whatever hosts and workers do, a command that is due stays due. */
  lemma {:induction false} StaysOwed(states: seq<State>, k: nat, n: nat, p: nat, c: Command)
    requires Run(states) && k <= n < |states| && Owed(states[k], p, c)
    ensures |states[n].queues| == |states[k].queues| && Owed(states[n], p, c)
    decreases n
  {
    if k < n {
      StaysOwed(states, k, n - 1, p, c);
      RunStepKeepsOwed(states, n, p, c);
    }
  }

  /**
    Once the workers have come to rest after a flush, every command that was
    enqueued before the flush has run, but for the end command, which has ended
    the worker. Hosts may go on enqueuing in the meantime.
   */
  lemma FlushServes(states: seq<State>, k: nat, n: nat, p: nat, c: Command)
    requires Run(states) && k < n < |states| && p < |states[k].queues| && c in states[k].queues[p].enqueued
    requires states[k + 1] == Flush(states[k], p) && Stuck(states[n]) && AllEndLast(states[n])
    ensures |states[n].queues| == |states[k].queues|
    ensures c in states[n].queues[p].ran || (c.end && states[n].queues[p].worker == Stopped(c))
  {
    RunKeeps(states, k);
    FlushAttends(states[k], p);
    OpenOwed(states[k + 1], p, c);
    StaysOwed(states, k + 1, n, p, c);
    OpenOwed(states[n], p, c);
    NoDeadlock(states, n, p);
    RunKeeps(states, n);
    assert QueueOk(states[n].queues[p], p, states[n].events, states[n].next);
  }

  lemma EnqueuedStays(states: seq<State>, k: nat, m: nat, p: nat, c: Command)
    requires Run(states) && k <= m < |states| && p < |states[k].queues| && c in states[k].queues[p].enqueued
    ensures |states[m].queues| == |states[k].queues| && c in states[m].queues[p].enqueued
    decreases m
  {
    if k < m {
      EnqueuedStays(states, k, m - 1, p, c);
      StepKeepsEnqueued(states[m - 1], states[m], p, c);
    }
  }

  /**
    Freeing a queue: after the end command has been enqueued and the queue
    flushed, the worker that is joined ends with that command and leaves an
    empty list.
   */
  lemma FreeingEnds(states: seq<State>, k: nat, m: nat, n: nat, p: nat, c: Command)
    requires Run(states) && k < m < n < |states| && MayEnqueue(states[k], p, c) && c.end
    requires states[k + 1] == Enqueue(states[k], p, c) && states[m + 1] == Flush(states[m], p)
    requires Stuck(states[n]) && AllEndLast(states[n])
    ensures |states[n].queues| == |states[k].queues|
    ensures states[n].queues[p].worker == Stopped(c) && states[n].queues[p].list == []
  {
    EnqueuedStays(states, k + 1, m, p, c);
    FlushServes(states, m, n, p, c);
    RunKeeps(states, n);
    assert QueueOk(states[n].queues[p], p, states[n].events, states[n].next);
    StoppedIsEmpty(states[n].queues[p]);
  }

  /** A list that holds nothing but the end command, and a worker that sleeps: a flush wakes it. */
  lemma FlushWakes(end: Command)
    requires end == Command(0, true, false, [])
    ensures var q := Queue([end], false, Waiting, [end], []);
      Flush(State([q], map[], 1), 0) == State([q.(process := true, worker := Woken)], map[], 1)
  {
  }
}
