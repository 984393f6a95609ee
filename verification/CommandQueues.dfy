/**
  The command queues of multi2sim/runtime/opencl: any number of queues, each
  with its worker thread, and host threads that enqueue and flush. A step of the
  machine is what a thread does between taking a lock and giving it back.
 */
module CommandQueues {

  datatype Status = Queued | Submitted | Running | Complete

  /** The completion event of a command and the queue it belongs to. */
  datatype Event = Event(status: Status, queue: nat)

  /** num is the command's place among all enqueued commands; it also names its event, if it has one. */
  datatype Command = Command(num: nat, end: bool, signals: bool, waits: seq<nat>)

  /** Where a command that has left the list stands. */
  datatype Stage =
    | Flushing(i: nat)   // about to flush the queue of wait event i
    | Awaiting(i: nat)   // blocked until wait event i completes
    | Starting
    | Executing

  datatype Worker =
    | Ready              // about to take the queue's lock
    | Waiting            // inside pthread_cond_wait, not signalled
    | Woken              // inside pthread_cond_wait, to look at the list again
    | Busy(command: Command, stage: Stage)
    | Stopped(last: Command)

  /** enqueued and ran record the past: what was ever enqueued, and what ran to completion. */
  datatype Queue = Queue(list: seq<Command>, process: bool, worker: Worker, enqueued: seq<Command>, ran: seq<Command>)

  datatype State = State(queues: seq<Queue>, events: map<nat, Event>, next: nat)

  // ----- Steps -----

  predicate MayEnqueue(s: State, p: nat, c: Command) {
    && p < |s.queues| && c.num == s.next
    && (forall w :: w in c.waits ==> w in s.events)
    && (c.end ==> !c.signals)
  }

  function Enqueue(s: State, p: nat, c: Command): State
    requires MayEnqueue(s, p, c)
  {
    var q := s.queues[p];
    State(s.queues[p := q.(list := q.list + [c], enqueued := q.enqueued + [c])],
          if c.signals then s.events[c.num := Event(Queued, p)] else s.events,
          s.next + 1)
  }

  /** Flushing sets process and signals the worker, unless the list is empty or process is set. */
  function Flushed(q: Queue): Queue {
    if q.list != [] && !q.process then q.(process := true, worker := if q.worker.Waiting? then Woken else q.worker)
      else q
  }

  function Flush(s: State, p: nat): State {
    if p < |s.queues| then s.(queues := s.queues[p := Flushed(s.queues[p])]) else s
  }

  /** pthread_cond_wait may return without a signal. */
  function Wake(s: State, p: nat): State
    requires p < |s.queues| && s.queues[p].worker.Waiting?
  {
    s.(queues := s.queues[p := s.queues[p].(worker := Woken)])
  }

  function SetStatus(events: map<nat, Event>, c: Command, status: Status): map<nat, Event> {
    if c.signals && c.num in events then events[c.num := events[c.num].(status := status)] else events
  }

  function StageFrom(c: Command, i: nat): Stage {
    if i < |c.waits| then Flushing(i) else Starting
  }

  /** The worker has the lock: it waits, or takes the first command. */
  function Dequeue(s: State, p: nat): State
    requires p < |s.queues|
  {
    var q := s.queues[p];
    if !q.process || q.list == [] then
      s.(queues := s.queues[p := q.(worker := Waiting)])
    else
      var c, rest := q.list[0], q.list[1..];
      var q' := q.(list := rest, process := rest != [], worker := if c.end then Stopped(c)
        else Busy(c, StageFrom(c, 0)));
      s.(queues := s.queues[p := q'], events := SetStatus(s.events, c, Submitted))
  }

  function AtStage(s: State, p: nat, c: Command, stage: Stage): State
    requires p < |s.queues|
  {
    s.(queues := s.queues[p := s.queues[p].(worker := Busy(c, stage))])
  }

  /** The worker of queue p has something to do. */
  predicate CanWork(s: State, p: nat)
    requires p < |s.queues|
  {
    match s.queues[p].worker
    case Ready => true
    case Woken => true
    case Waiting => false
    case Stopped(_) => false
    case Busy(c, Awaiting(i)) => i < |c.waits| && c.waits[i] in s.events && s.events[c.waits[i]].status == Complete
    case Busy(c, Flushing(i)) => i < |c.waits| && c.waits[i] in s.events
    case Busy(_, _) => true
  }

  function Work(s: State, p: nat): State
    requires p < |s.queues| && CanWork(s, p)
  {
    match s.queues[p].worker
    case Ready => Dequeue(s, p)
    case Woken => Dequeue(s, p)
    case Busy(c, Flushing(i)) => AtStage(Flush(s, s.events[c.waits[i]].queue), p, c, Awaiting(i))
    case Busy(c, Awaiting(i)) => AtStage(s, p, c, StageFrom(c, i + 1))
    case Busy(c, Starting) => AtStage(s, p, c, Executing).(events := SetStatus(s.events, c, Running))
    case Busy(c, Executing) =>
      var q := s.queues[p];
      State(s.queues[p := q.(worker := Ready, ran := q.ran + [c])], SetStatus(s.events, c, Complete), s.next)
  }

  predicate Initial(s: State) {
    && s.events == map[] && s.next == 0
    && forall p :: 0 <= p < |s.queues| ==> s.queues[p] == Queue([], false, Ready, [], [])
  }

  ghost predicate HostStep(s: State, s': State) {
    || (exists p, c :: MayEnqueue(s, p, c) && s' == Enqueue(s, p, c))
    || (exists p :: s' == Flush(s, p))
  }

  ghost predicate WorkerStep(s: State, s': State) {
    exists p: nat :: p < |s.queues| && CanWork(s, p) && s' == Work(s, p)
  }

  ghost predicate Step(s: State, s': State) {
    || HostStep(s, s')
    || WorkerStep(s, s')
    || (exists p: nat :: p < |s.queues| && s.queues[p].worker.Waiting? && s' == Wake(s, p))
  }

  ghost predicate Run(states: seq<State>) {
    && |states| > 0 && Initial(states[0])
    && forall k :: 0 < k < |states| ==> Step(states[k - 1], states[k])
  }

  // ----- The invariant -----

  function Current(w: Worker): seq<Command> {
    match w
    case Busy(c, _) => [c]
    case Stopped(c) => [c]
    case _ => []
  }

  /** process means work, and nobody sleeps through it. */
  ghost predicate NoLostWakeup(q: Queue) {
    && (q.process ==> q.list != [])
    && (q.worker.Waiting? ==> !q.process)
  }

  /** What ran, what is in hand and what is listed is what was enqueued, in that order. */
  ghost predicate History(q: Queue) {
    && q.enqueued == q.ran + Current(q.worker) + q.list
    && (q.worker.Busy? ==> !q.worker.command.end)
    && (q.worker.Stopped? ==> q.worker.last.end)
    && (forall c :: c in q.ran ==> !c.end)
  }

  ghost predicate Numbered(q: Queue, next: nat) {
    && (forall i, j :: 0 <= i < j < |q.enqueued| ==> q.enqueued[i].num < q.enqueued[j].num)
    && (forall i :: 0 <= i < |q.enqueued| ==> q.enqueued[i].num < next)
  }

  /** A command's event belongs to its queue; the events it waits for are of earlier commands. */
  ghost predicate Sound(c: Command, p: nat, events: map<nat, Event>) {
    && (c.signals ==> c.num in events && events[c.num].queue == p && !c.end)
    && (forall w :: w in c.waits ==> w in events && w < c.num)
  }

  ghost predicate HasStatus(c: Command, events: map<nat, Event>, status: Status) {
    c.signals ==> c.num in events && events[c.num].status == status
  }

  /** The first n wait events of c have completed. */
  ghost predicate Awaited(c: Command, n: nat, events: map<nat, Event>) {
    n <= |c.waits| && forall i :: 0 <= i < n ==> c.waits[i] in events && events[c.waits[i]].status == Complete
  }

  ghost predicate WorkerOk(w: Worker, events: map<nat, Event>) {
    match w
    case Busy(c, Flushing(i)) => HasStatus(c, events, Submitted) && i < |c.waits| && Awaited(c, i, events)
    case Busy(c, Awaiting(i)) => HasStatus(c, events, Submitted) && i < |c.waits| && Awaited(c, i, events)
    case Busy(c, Starting) => HasStatus(c, events, Submitted) && Awaited(c, |c.waits|, events)
    case Busy(c, Executing) => HasStatus(c, events, Running) && Awaited(c, |c.waits|, events)
    case _ => true
  }

  /** The status of an event tells where its command is. */
  ghost predicate Statuses(q: Queue, events: map<nat, Event>) {
    && (forall c :: c in q.list ==> HasStatus(c, events, Queued))
    && (forall c :: c in q.ran ==> HasStatus(c, events, Complete) && Awaited(c, |c.waits|, events))
    && WorkerOk(q.worker, events)
  }

  ghost predicate QueueOk(q: Queue, p: nat, events: map<nat, Event>, next: nat) {
    && NoLostWakeup(q) && History(q) && Numbered(q, next)
    && (forall c :: c in q.enqueued ==> Sound(c, p, events))
    && Statuses(q, events)
  }

  /** Every event is that of an enqueued command. */
  ghost predicate Located(e: nat, s: State) {
    && e in s.events && e < s.next && s.events[e].queue < |s.queues|
    && exists c :: c in s.queues[s.events[e].queue].enqueued && c.num == e && c.signals
  }

  /** A worker that is blocked on a command still in its list has made its queue process it. */
  ghost predicate Prompted(q: Queue, s: State) {
    q.worker.Busy? && q.worker.stage.Awaiting? && q.worker.stage.i < |q.worker.command.waits| ==>
      PromptedBy(q.worker.command.waits[q.worker.stage.i], s)
  }

  ghost predicate PromptedBy(e: nat, s: State) {
    e in s.events && s.events[e].status == Queued && s.events[e].queue < |s.queues| ==>
      s.queues[s.events[e].queue].process
  }

  ghost predicate Inv(s: State) {
    && (forall p :: 0 <= p < |s.queues| ==> QueueOk(s.queues[p], p, s.events, s.next))
    && (forall e :: e in s.events ==> Located(e, s))
    && (forall p :: 0 <= p < |s.queues| ==> Prompted(s.queues[p], s))
  }

  // ----- One queue changes, the others stay well -----

  /** Events only move forward, and only those of queue p. */
  ghost predicate Forward(events: map<nat, Event>, events': map<nat, Event>, p: nat) {
    forall e :: e in events ==>
      && e in events' && events'[e].queue == events[e].queue
      && (events[e].queue != p || events[e].status == Complete ==> events'[e] == events[e])
      && (events'[e].status == Queued ==> events[e].status == Queued)
  }

  lemma OthersStay(q: Queue, r: nat, p: nat, events: map<nat, Event>, events': map<nat, Event>, next: nat, next': nat)
    requires QueueOk(q, r, events, next) && r != p && Forward(events, events', p) && next <= next'
    ensures QueueOk(q, r, events', next')
  {
    forall c | c in q.enqueued ensures Sound(c, r, events') {
      assert Sound(c, r, events);
    }
    forall c, st | c in q.enqueued && HasStatus(c, events, st) ensures HasStatus(c, events', st) {
      assert Sound(c, r, events);
    }
    forall c, n | Awaited(c, n, events) ensures Awaited(c, n, events') {
      AwaitedStays(c, n, events, events', p);
    }
    forall c | c in q.list || c in q.ran || c in Current(q.worker) ensures c in q.enqueued {}
    assert q.worker.Busy? ==> q.worker.command in Current(q.worker);
  }

  lemma AwaitedStays(c: Command, n: nat, events: map<nat, Event>, events': map<nat, Event>, p: nat)
    requires Awaited(c, n, events) && Forward(events, events', p)
    ensures Awaited(c, n, events')
  {
  }

  /** An event that is still Queued is that of a command in its queue's list. */
  lemma QueuedIsListed(q: Queue, p: nat, events: map<nat, Event>, next: nat, c: Command)
    requires QueueOk(q, p, events, next) && c in q.enqueued && c.signals && c.num in events
      && events[c.num].status == Queued
    ensures c in q.list
  {
    assert c in q.ran ==> HasStatus(c, events, Complete);
    assert c in Current(q.worker) ==> HasStatus(c, events, Submitted) || HasStatus(c, events, Running) || c.end;
    assert Sound(c, p, events);
  }

  /** What a step on queue p has to establish. */
  ghost predicate Replaces(s: State, p: nat, q': Queue, events': map<nat, Event>, next': nat) {
    && p < |s.queues| && Forward(s.events, events', p) && s.next <= next'
    && QueueOk(q', p, events', next')
    && (forall c :: c in s.queues[p].enqueued ==> c in q'.enqueued)
    && (s.queues[p].process && !q'.process ==> q'.list == [])
    && (forall e :: e in events' && e !in s.events ==>
          events'[e].queue == p && e < next' && exists c :: c in q'.enqueued && c.num == e && c.signals)
  }

  lemma ReplaceLocates(s: State, p: nat, q': Queue, events': map<nat, Event>, next': nat, e: nat)
    requires Replaces(s, p, q', events', next') && e in events' && (e in s.events ==> Located(e, s))
    ensures Located(e, State(s.queues[p := q'], events', next'))
  {
    var s' := State(s.queues[p := q'], events', next');
    var r := events'[e].queue;
    if e in s.events {
      var c :| c in s.queues[r].enqueued && c.num == e && c.signals;
      assert c in s'.queues[r].enqueued;
    } else {
      var c :| c in q'.enqueued && c.num == e && c.signals;
      assert c in s'.queues[r].enqueued;
    }
  }

  /** Blocking on e stays justified when the queue of e changes. */
  lemma ReplacePrompts(s: State, p: nat, q': Queue, events': map<nat, Event>, next': nat, e: nat)
    requires Inv(s) && Replaces(s, p, q', events', next') && PromptedBy(e, s) && e in s.events
    ensures PromptedBy(e, State(s.queues[p := q'], events', next'))
  {
    assert Located(e, s);
    if events'[e].status == Queued && s.events[e].queue == p {
      var c :| c in s.queues[p].enqueued && c.num == e && c.signals;
      QueuedIsListed(q', p, events', next', c);
    }
  }

  lemma ReplaceKeeps(s: State, p: nat, q': Queue, events': map<nat, Event>, next': nat)
    requires Inv(s) && Replaces(s, p, q', events', next')
    requires Prompted(q', State(s.queues[p := q'], events', next'))
    ensures Inv(State(s.queues[p := q'], events', next'))
  {
    var s' := State(s.queues[p := q'], events', next');
    forall r | 0 <= r < |s'.queues| ensures QueueOk(s'.queues[r], r, events', next') {
      if r != p {
        OthersStay(s.queues[r], r, p, s.events, events', s.next, next');
      }
    }
    forall e | e in events' ensures Located(e, s') {
      ReplaceLocates(s, p, q', events', next', e);
    }
    forall r | 0 <= r < |s'.queues| ensures Prompted(s'.queues[r], s') {
      if r != p {
        PromptedStays(s, p, q', events', next', r);
      }
    }
  }

  lemma PromptedStays(s: State, p: nat, q': Queue, events': map<nat, Event>, next': nat, r: nat)
    requires Inv(s) && Replaces(s, p, q', events', next') && r < |s.queues|
    requires r == p ==> q'.worker == s.queues[p].worker
    ensures Prompted(s.queues[p := q'][r], State(s.queues[p := q'], events', next'))
  {
    var q := s.queues[r];
    if q.worker.Busy? && q.worker.stage.Awaiting? && q.worker.stage.i < |q.worker.command.waits| {
      var c, e := q.worker.command, q.worker.command.waits[q.worker.stage.i];
      assert c in Current(q.worker);
      assert c in q.enqueued;
      assert Sound(c, r, s.events);
      assert Prompted(q, s);
      ReplacePrompts(s, p, q', events', next', e);
    }
  }

  // ----- Every step keeps the invariant -----

  lemma EnqueueKeeps(s: State, p: nat, c: Command)
    requires Inv(s) && MayEnqueue(s, p, c)
    ensures Inv(Enqueue(s, p, c))
  {
    var s' := Enqueue(s, p, c);
    EnqueueReplaces(s, p, c);
    PromptedStays(s, p, s'.queues[p], s'.events, s'.next, p);
    ReplaceKeeps(s, p, s'.queues[p], s'.events, s'.next);
  }

  lemma EnqueueReplaces(s: State, p: nat, c: Command)
    requires Inv(s) && MayEnqueue(s, p, c)
    ensures Replaces(s, p, Enqueue(s, p, c).queues[p], Enqueue(s, p, c).events, s.next + 1)
  {
    var s' := Enqueue(s, p, c);
    forall e | e in s.events ensures e < s.next {
      assert Located(e, s);
    }
    EnqueuedOk(s.queues[p], p, s.events, s.next, c);
    assert c in s'.queues[p].enqueued;
  }

  lemma EnqueuedOk(q: Queue, p: nat, events: map<nat, Event>, next: nat, c: Command)
    requires QueueOk(q, p, events, next) && c.num == next && (c.end ==> !c.signals)
    requires (forall w :: w in c.waits ==> w in events) && (forall e :: e in events ==> e < next)
    ensures QueueOk(q.(list := q.list + [c], enqueued := q.enqueued + [c]), p, if c.signals
      then events[c.num := Event(Queued, p)] else events, next + 1)
  {
    var q' := q.(list := q.list + [c], enqueued := q.enqueued + [c]);
    var events' := if c.signals then events[c.num := Event(Queued, p)] else events;
    forall d | d in q'.enqueued ensures Sound(d, p, events') {
      assert d in q.enqueued ==> Sound(d, p, events);
    }
    EnqueuedStatuses(q, p, events, next, c, events');
  }

  lemma EnqueuedStatuses(q: Queue, p: nat, events: map<nat, Event>, next: nat, c: Command, events': map<nat, Event>)
    requires QueueOk(q, p, events, next) && c.num == next && (forall e :: e in events ==> e < next)
    requires events' == if c.signals then events[c.num := Event(Queued, p)] else events
    ensures Statuses(q.(list := q.list + [c], enqueued := q.enqueued + [c]), events')
  {
    forall d, n | Awaited(d, n, events) ensures Awaited(d, n, events') {}
    forall d, st | d in q.enqueued && HasStatus(d, events, st) ensures HasStatus(d, events', st) {
      assert Sound(d, p, events);
    }
    forall d | d in q.list || d in q.ran || d in Current(q.worker) ensures d in q.enqueued {}
    assert q.worker.Busy? ==> q.worker.command in Current(q.worker);
  }

  lemma FlushKeeps(s: State, p: nat)
    requires Inv(s)
    ensures Inv(Flush(s, p))
  {
    if p < |s.queues| {
      var q' := Flushed(s.queues[p]);
      assert Replaces(s, p, q', s.events, s.next);
      if s.queues[p].worker.Waiting? {
        assert Prompted(q', Flush(s, p));
      } else {
        PromptedStays(s, p, q', s.events, s.next, p);
      }
      ReplaceKeeps(s, p, q', s.events, s.next);
    }
  }

  lemma WakeKeeps(s: State, p: nat)
    requires Inv(s) && p < |s.queues| && s.queues[p].worker.Waiting?
    ensures Inv(Wake(s, p))
  {
    ReplaceKeeps(s, p, s.queues[p].(worker := Woken), s.events, s.next);
  }

  /** Giving the command in hand its next status touches no other command of the queue. */
  lemma StatusForward(q: Queue, p: nat, events: map<nat, Event>, next: nat, c: Command, status: Status)
    requires QueueOk(q, p, events, next) && c in q.enqueued && status != Queued
    requires c.signals ==> events[c.num].status != Complete
    ensures Forward(events, SetStatus(events, c, status), p)
    ensures SetStatus(events, c, status).Keys == events.Keys
    ensures HasStatus(c, SetStatus(events, c, status), status)
  {
    assert Sound(c, p, events);
  }

  lemma OtherStatus(events: map<nat, Event>, c: Command, status: Status, d: Command, st: Status)
    requires d.num != c.num && HasStatus(d, events, st)
    ensures HasStatus(d, SetStatus(events, c, status), st)
  {
  }

  lemma StillSound(d: Command, p: nat, events: map<nat, Event>, c: Command, status: Status)
    requires Sound(d, p, events)
    ensures Sound(d, p, SetStatus(events, c, status))
  {
  }

  /** The commands before and after c have other numbers. */
  lemma OtherNumbers(q: Queue, next: nat, before: seq<Command>, c: Command, after: seq<Command>)
    requires Numbered(q, next) && q.enqueued == before + [c] + after
    ensures forall d :: d in before || d in after ==> d.num != c.num
  {
    assert q.enqueued[|before|] == c;
    forall i | 0 <= i < |before| ensures before[i].num < c.num {
      assert q.enqueued[i] == before[i];
    }
    forall i | 0 <= i < |after| ensures after[i].num > c.num {
      assert q.enqueued[|before| + 1 + i] == after[i];
    }
  }

  /** The rest of a queue around the command c that gets a new status. */
  lemma AroundCurrent(q: Queue, p: nat, events: map<nat, Event>, next: nat, c: Command, rest: seq<Command>,
      status: Status)
    requires QueueOk(q, p, events, next) && q.enqueued == q.ran + [c] + rest && status != Queued
    requires c.signals ==> c.num in events && events[c.num].status != Complete
    requires forall d :: d in rest ==> d in q.list
    ensures Forward(events, SetStatus(events, c, status), p) && HasStatus(c, SetStatus(events, c, status), status)
    ensures SetStatus(events, c, status).Keys == events.Keys
    ensures forall d :: d in q.enqueued ==> Sound(d, p, SetStatus(events, c, status))
    ensures forall d :: d in rest ==> HasStatus(d, SetStatus(events, c, status), Queued)
    ensures forall d :: d in q.ran ==>
      HasStatus(d, SetStatus(events, c, status), Complete) && Awaited(d, |d.waits|, SetStatus(events, c, status))
  {
    var events' := SetStatus(events, c, status);
    OtherNumbers(q, next, q.ran, c, rest);
    assert c in q.enqueued;
    StatusForward(q, p, events, next, c, status);
    forall d | d in q.enqueued ensures Sound(d, p, events') {
      StillSound(d, p, events, c, status);
    }
    forall d | d in rest ensures HasStatus(d, events', Queued) {
      OtherStatus(events, c, status, d, Queued);
    }
    forall d | d in q.ran ensures HasStatus(d, events', Complete) && Awaited(d, |d.waits|, events') {
      OtherStatus(events, c, status, d, Complete);
      AwaitedStays(d, |d.waits|, events, events', p);
    }
  }

  lemma DequeueKeeps(s: State, p: nat)
    requires Inv(s) && p < |s.queues| && (s.queues[p].worker.Ready? || s.queues[p].worker.Woken?)
    ensures Inv(Dequeue(s, p))
  {
    var q := s.queues[p];
    if !q.process || q.list == [] {
      ReplaceKeeps(s, p, q.(worker := Waiting), s.events, s.next);
    } else {
      var s' := Dequeue(s, p);
      DequeuedOk(q, p, s.events, s.next);
      StatusForward(q, p, s.events, s.next, q.list[0], Submitted);
      ReplaceKeeps(s, p, s'.queues[p], s'.events, s'.next);
    }
  }

  lemma DequeuedOk(q: Queue, p: nat, events: map<nat, Event>, next: nat)
    requires QueueOk(q, p, events, next) && (q.worker.Ready? || q.worker.Woken?) && q.list != []
    ensures var c, rest := q.list[0], q.list[1..];
      QueueOk(q.(list := rest, process := rest != [], worker := if c.end then Stopped(c)
        else Busy(c, StageFrom(c, 0))), p, SetStatus(events, c, Submitted), next)
  {
    var c, rest := q.list[0], q.list[1..];
    assert c in q.list && c in q.enqueued && q.list == [c] + rest;
    assert HasStatus(c, events, Queued);
    AroundCurrent(q, p, events, next, c, rest, Submitted);
  }

  /** The worker moves on with its command without touching an event. */
  lemma StageOk(q: Queue, p: nat, events: map<nat, Event>, next: nat, c: Command, stage: Stage)
    requires QueueOk(q, p, events, next) && q.worker.Busy? && q.worker.command == c && WorkerOk(Busy(c, stage), events)
    ensures QueueOk(q.(worker := Busy(c, stage)), p, events, next)
  {
  }

  lemma StartKeeps(s: State, p: nat, c: Command)
    requires Inv(s) && p < |s.queues| && s.queues[p].worker == Busy(c, Starting)
    ensures Inv(Work(s, p))
  {
    var q, s' := s.queues[p], Work(s, p);
    assert c in q.enqueued;
    assert q.enqueued == q.ran + [c] + q.list;
    AroundCurrent(q, p, s.events, s.next, c, q.list, Running);
    AwaitedStays(c, |c.waits|, s.events, s'.events, p);
    ReplaceKeeps(s, p, s'.queues[p], s'.events, s'.next);
  }

  lemma FinishedOk(q: Queue, p: nat, events: map<nat, Event>, next: nat, c: Command)
    requires QueueOk(q, p, events, next) && q.worker == Busy(c, Executing)
    ensures QueueOk(q.(worker := Ready, ran := q.ran + [c]), p, SetStatus(events, c, Complete), next)
    ensures Forward(events, SetStatus(events, c, Complete), p) && SetStatus(events, c, Complete).Keys == events.Keys
  {
    assert q.enqueued == q.ran + [c] + q.list;
    AroundCurrent(q, p, events, next, c, q.list, Complete);
    AwaitedStays(c, |c.waits|, events, SetStatus(events, c, Complete), p);
  }

  lemma FinishKeeps(s: State, p: nat, c: Command)
    requires Inv(s) && p < |s.queues| && s.queues[p].worker == Busy(c, Executing)
    ensures Inv(Work(s, p))
  {
    var q, s' := s.queues[p], Work(s, p);
    FinishedOk(q, p, s.events, s.next, c);
    ReplaceKeeps(s, p, s'.queues[p], s'.events, s'.next);
  }

  lemma AwaitKeeps(s: State, p: nat, c: Command, i: nat)
    requires Inv(s) && p < |s.queues| && s.queues[p].worker == Busy(c, Awaiting(i)) && CanWork(s, p)
    ensures Inv(Work(s, p))
  {
    WorkerIsOk(s, p);
    AwaitedOneMore(c, i, s.events);
    MoveOnKeeps(s, p, c, StageFrom(c, i + 1));
    assert Work(s, p) == AtStage(s, p, c, StageFrom(c, i + 1));
  }

  lemma WorkerIsOk(s: State, p: nat)
    requires Inv(s) && p < |s.queues|
    ensures WorkerOk(s.queues[p].worker, s.events)
  {
    assert QueueOk(s.queues[p], p, s.events, s.next);
  }

  lemma AwaitedOneMore(c: Command, i: nat, events: map<nat, Event>)
    requires WorkerOk(Busy(c, Awaiting(i)), events) && c.waits[i] in events && events[c.waits[i]].status == Complete
    ensures WorkerOk(Busy(c, StageFrom(c, i + 1)), events)
  {
  }

  /** The worker goes on to another stage of its command. */
  lemma MoveOnKeeps(s: State, p: nat, c: Command, stage: Stage)
    requires Inv(s) && p < |s.queues| && s.queues[p].worker.Busy? && s.queues[p].worker.command == c
    requires WorkerOk(Busy(c, stage), s.events)
    requires stage.Awaiting? ==> PromptedBy(c.waits[stage.i], s)
    ensures Inv(AtStage(s, p, c, stage))
  {
    var q' := s.queues[p].(worker := Busy(c, stage));
    StageOk(s.queues[p], p, s.events, s.next, c, stage);
    assert stage.Awaiting? ==> PromptedBy(c.waits[stage.i], AtStage(s, p, c, stage));
    ReplaceKeeps(s, p, q', s.events, s.next);
  }

  /** Before it blocks on an event, a worker flushes the queue the event belongs to. */
  lemma FlushForKeeps(s: State, p: nat, c: Command, i: nat)
    requires Inv(s) && p < |s.queues| && s.queues[p].worker == Busy(c, Flushing(i)) && CanWork(s, p)
    ensures Inv(Work(s, p))
  {
    var e := c.waits[i];
    var r := s.events[e].queue;
    FlushKeeps(s, r);
    FlushPrompts(s, e);
    WorkerIsOk(s, p);
    MoveOnKeeps(Flush(s, r), p, c, Awaiting(i));
  }

  lemma FlushPrompts(s: State, e: nat)
    requires Inv(s) && e in s.events
    ensures PromptedBy(e, Flush(s, s.events[e].queue))
  {
    var r := s.events[e].queue;
    assert Located(e, s);
    if s.events[e].status == Queued {
      var c :| c in s.queues[r].enqueued && c.num == e && c.signals;
      QueuedIsListed(s.queues[r], r, s.events, s.next, c);
    }
  }

  lemma WorkKeeps(s: State, p: nat)
    requires Inv(s) && p < |s.queues| && CanWork(s, p)
    ensures Inv(Work(s, p))
  {
    match s.queues[p].worker
    case Ready => DequeueKeeps(s, p);
    case Woken => DequeueKeeps(s, p);
    case Busy(c, Flushing(i)) => FlushForKeeps(s, p, c, i);
    case Busy(c, Awaiting(i)) => AwaitKeeps(s, p, c, i);
    case Busy(c, Starting) => StartKeeps(s, p, c);
    case Busy(c, Executing) => FinishKeeps(s, p, c);
  }

  lemma StepKeeps(s: State, s': State)
    requires Inv(s) && Step(s, s')
    ensures Inv(s')
  {
    if p, c :| MayEnqueue(s, p, c) && s' == Enqueue(s, p, c) {
      EnqueueKeeps(s, p, c);
    } else if p :| s' == Flush(s, p) {
      FlushKeeps(s, p);
    } else if p: nat :| p < |s.queues| && CanWork(s, p) && s' == Work(s, p) {
      WorkKeeps(s, p);
    } else {
      var p: nat :| p < |s.queues| && s.queues[p].worker.Waiting? && s' == Wake(s, p);
      WakeKeeps(s, p);
    }
  }

  /** In every state of every interleaving the invariant holds. */
  lemma {:induction false} RunKeeps(states: seq<State>, k: nat)
    requires Run(states) && k < |states|
    ensures Inv(states[k])
  {
    if k == 0 {
      InitialOk(states[0]);
    } else {
      RunKeeps(states, k - 1);
      StepKeeps(states[k - 1], states[k]);
    }
  }

  lemma InitialOk(s: State)
    requires Initial(s)
    ensures Inv(s)
  {
  }

  // ----- Commands run once, in order, after what they wait for -----

  /** What a host may rely on about queue p in every state of every run. */
  ghost predicate Served(q: Queue, events: map<nat, Event>) {
    && q.ran <= q.enqueued
    && (forall i, j :: 0 <= i < j < |q.ran| ==> q.ran[i].num < q.ran[j].num)
    && (forall c :: c in q.ran ==> Awaited(c, |c.waits|, events) && HasStatus(c, events, Complete))
    && (q.worker.Stopped? ==> (q.list == [] <==> EndsLast(q)))
  }

  /** Nothing was enqueued after the end command. */
  ghost predicate EndsLast(q: Queue) {
    forall i :: 0 <= i < |q.enqueued| - 1 ==> !q.enqueued[i].end
  }

  lemma EveryRunServes(states: seq<State>, k: nat, p: nat)
    requires Run(states) && k < |states| && p < |states[k].queues|
    ensures Served(states[k].queues[p], states[k].events)
  {
    RunKeeps(states, k);
    OkServes(states[k].queues[p], p, states[k].events, states[k].next);
  }

  lemma OkServes(q: Queue, p: nat, events: map<nat, Event>, next: nat)
    requires QueueOk(q, p, events, next)
    ensures Served(q, events)
  {
    forall i | 0 <= i < |q.ran| ensures q.enqueued[i] == q.ran[i] && !q.ran[i].end {}
    if q.worker.Stopped? {
      assert q.enqueued[|q.ran|] == q.worker.last;
    }
  }

  /** Neither what was enqueued nor what ran is ever taken back. */
  lemma StepExtends(s: State, s': State, p: nat)
    requires Step(s, s') && p < |s.queues|
    ensures |s'.queues| == |s.queues|
    ensures s.queues[p].enqueued <= s'.queues[p].enqueued && s.queues[p].ran <= s'.queues[p].ran
  {
    if r: nat :| r < |s.queues| && CanWork(s, r) && s' == Work(s, r) {
      WorkExtends(s, r, p);
    }
  }

  lemma WorkExtends(s: State, r: nat, p: nat)
    requires r < |s.queues| && CanWork(s, r) && p < |s.queues|
    ensures |Work(s, r).queues| == |s.queues|
    ensures s.queues[p].enqueued <= Work(s, r).queues[p].enqueued && s.queues[p].ran <= Work(s, r).queues[p].ran
  {
  }

  // ----- No deadlock -----

  ghost predicate Stuck(s: State) {
    forall p :: 0 <= p < |s.queues| ==> !CanWork(s, p)
  }

  ghost predicate AllEndLast(s: State) {
    forall p :: 0 <= p < |s.queues| ==> EndsLast(s.queues[p])
  }

  /** After the end command the list is empty when nothing was enqueued later. */
  lemma StoppedIsEmpty(q: Queue)
    requires History(q) && q.worker.Stopped? && EndsLast(q)
    ensures q.list == []
  {
    assert q.enqueued[|q.ran|] == q.worker.last;
  }

  /** The worker has ended, but its list was not the end of it: commands were enqueued after the end command. */
  ghost predicate Abandoned(q: Queue) {
    q.worker.Stopped? && q.list != []
  }

  /** When nothing can move, a worker with a flushed list has something in hand or has abandoned the list. */
  lemma FlushedIsBusy(s: State, p: nat)
    requires Inv(s) && Stuck(s) && p < |s.queues| && s.queues[p].process
    ensures s.queues[p].worker.Busy? || Abandoned(s.queues[p])
  {
    var q := s.queues[p];
    assert QueueOk(q, p, s.events, s.next) && !CanWork(s, p);
  }

  /** The command in hand is numbered before those in the list. */
  lemma InHandIsFirst(q: Queue, p: nat, events: map<nat, Event>, next: nat, d: Command)
    requires QueueOk(q, p, events, next) && q.worker.Busy? && d in q.list
    ensures q.worker.command.num < d.num
  {
    var i :| 0 <= i < |q.list| && q.list[i] == d;
    assert q.enqueued[|q.ran|] == q.worker.command;
    assert q.enqueued[|q.ran| + 1 + i] == d;
  }

  /** The worker of p is blocked on a command in the list of r. */
  ghost predicate WaitsFor(s: State, p: nat, r: nat) {
    && p < |s.queues| && r < |s.queues| && s.queues[p].worker.Busy? && s.queues[p].worker.stage.Awaiting?
    && var c, i := s.queues[p].worker.command, s.queues[p].worker.stage.i;
       && i < |c.waits| && c.waits[i] in s.events && s.events[c.waits[i]] == Event(Queued, r)
  }

  /** The worker of p is blocked on a command in a list that its worker has abandoned. */
  ghost predicate Stranded(s: State, p: nat, r: nat) {
    WaitsFor(s, p, r) && Abandoned(s.queues[r])
  }

  /** Behind a blocked worker there is another with an earlier command, unless it is stranded. */
  lemma BlockedBy(s: State, p: nat) returns (r: nat)
    requires Inv(s) && Stuck(s) && p < |s.queues| && s.queues[p].worker.Busy?
    ensures r < |s.queues|
    ensures Stranded(s, p, r)
      || (s.queues[r].worker.Busy? && s.queues[r].worker.command.num < s.queues[p].worker.command.num)
  {
    var e := BlockingEvent(s, p);
    r := s.events[e].queue;
    assert Located(e, s);
    var d :| d in s.queues[r].enqueued && d.num == e && d.signals;
    assert QueueOk(s.queues[r], r, s.events, s.next);
    if d in s.queues[r].list {
      assert HasStatus(d, s.events, Queued);
      FlushedIsBusy(s, r);
      if s.queues[r].worker.Busy? {
        InHandIsFirst(s.queues[r], r, s.events, s.next, d);
      }
    } else {
      NotListed(s.queues[r], r, s.events, s.next, d);
    }
  }

  lemma NotListed(q: Queue, p: nat, events: map<nat, Event>, next: nat, d: Command)
    requires QueueOk(q, p, events, next) && d in q.enqueued && d !in q.list && d.signals
    requires d.num in events && events[d.num].status != Complete
    ensures q.worker.Busy? && q.worker.command == d
  {
    assert Sound(d, p, events);
    assert d in q.ran ==> HasStatus(d, events, Complete);
  }

  /** The event a blocked worker waits for; its queue is processing. */
  lemma BlockingEvent(s: State, p: nat) returns (e: nat)
    requires Inv(s) && Stuck(s) && p < |s.queues| && s.queues[p].worker.Busy?
    ensures s.queues[p].worker.stage.Awaiting? && s.queues[p].worker.stage.i < |s.queues[p].worker.command.waits|
    ensures e == s.queues[p].worker.command.waits[s.queues[p].worker.stage.i]
    ensures e < s.queues[p].worker.command.num && e in s.events && s.events[e].status != Complete
    ensures PromptedBy(e, s)
    ensures s.events[e].queue < |s.queues|
    ensures forall d :: d in s.queues[s.events[e].queue].list && d.num == e && d.signals ==>
      s.queues[s.events[e].queue].process
  {
    var q := s.queues[p];
    assert QueueOk(q, p, s.events, s.next) && !CanWork(s, p) && Prompted(q, s);
    var c := q.worker.command;
    assert c in Current(q.worker);
    assert c in q.enqueued;
    assert Sound(c, p, s.events);
    e := c.waits[q.worker.stage.i];
    assert Located(e, s);
    var r := s.events[e].queue;
    assert QueueOk(s.queues[r], r, s.events, s.next);
    forall d | d in s.queues[r].list && d.num == e && d.signals ensures s.queues[r].process {
      assert HasStatus(d, s.events, Queued);
    }
  }

  /** Behind every blocked worker there is one that is stranded: each of the others has an earlier one behind it. */
  lemma {:induction false} SomeoneStranded(s: State, p: nat) returns (q: nat, r: nat)
    requires Inv(s) && Stuck(s) && p < |s.queues| && s.queues[p].worker.Busy?
    ensures Stranded(s, q, r)
    decreases s.queues[p].worker.command.num
  {
    q := p;
    r := BlockedBy(s, p);
    if !Stranded(s, p, r) {
      q, r := SomeoneStranded(s, r);
    }
  }

  /** The queue has nothing in hand and nothing it was asked to process. */
  ghost predicate Idle(q: Queue) {
    && (q.worker.Waiting? || q.worker.Stopped?)
    && !q.process
    && q.enqueued == q.ran + Current(q.worker) + q.list
  }

  /** Every worker sleeps or has ended. */
  ghost predicate NobodyBusy(s: State) {
    forall p :: 0 <= p < |s.queues| ==> !s.queues[p].worker.Busy?
  }

  /** When no worker can move, some worker is blocked exactly when one is stranded. */
  lemma BlockedExactly(states: seq<State>, k: nat)
    requires Run(states) && k < |states| && Stuck(states[k])
    ensures NobodyBusy(states[k]) <==> !exists p, r :: Stranded(states[k], p, r)
  {
    var s := states[k];
    RunKeeps(states, k);
    if p :| 0 <= p < |s.queues| && s.queues[p].worker.Busy? {
      var q, r := SomeoneStranded(s, p);
    }
  }

  /** And a stranded worker stays so, whatever anybody does. */
  lemma StrandedForever(s: State, s': State, p: nat, r: nat)
    requires Inv(s) && Step(s, s') && Stranded(s, p, r)
    ensures Stranded(s', p, r)
  {
    if q, c :| MayEnqueue(s, q, c) && s' == Enqueue(s, q, c) {
      EnqueueStrands(s, q, c, p, r);
    } else if q: nat :| q < |s.queues| && CanWork(s, q) && s' == Work(s, q) {
      WorkStrands(s, q, p, r);
    } else if q :| s' == Flush(s, q) {
      FlushStrands(s, q, p, r);
    } else {
      var q: nat :| q < |s.queues| && s.queues[q].worker.Waiting? && s' == Wake(s, q);
      WakeStrands(s, q, p, r);
    }
  }

  lemma WakeStrands(s: State, q: nat, p: nat, r: nat)
    requires q < |s.queues| && s.queues[q].worker.Waiting? && Stranded(s, p, r)
    ensures Stranded(Wake(s, q), p, r)
  {
    StrandedStays(s, Wake(s, q), p, r);
  }

  /** The event p is blocked on. */
  ghost function BlockingWait(s: State, p: nat): nat
    requires p < |s.queues| && s.queues[p].worker.Busy? && s.queues[p].worker.stage.Awaiting?
    requires s.queues[p].worker.stage.i < |s.queues[p].worker.command.waits|
  {
    s.queues[p].worker.command.waits[s.queues[p].worker.stage.i]
  }

  lemma StrandedStays(s: State, s': State, p: nat, r: nat)
    requires Stranded(s, p, r) && |s'.queues| == |s.queues|
    requires s'.queues[p].worker == s.queues[p].worker && s'.queues[r].worker == s.queues[r].worker
    requires s'.queues[r].list != []
    requires BlockingWait(s, p) in s'.events && s'.events[BlockingWait(s, p)] == s.events[BlockingWait(s, p)]
    ensures Stranded(s', p, r)
  {
  }

  lemma EnqueueStrands(s: State, q: nat, c: Command, p: nat, r: nat)
    requires Inv(s) && MayEnqueue(s, q, c) && Stranded(s, p, r)
    ensures Stranded(Enqueue(s, q, c), p, r)
  {
    assert Located(BlockingWait(s, p), s);
    StrandedStays(s, Enqueue(s, q, c), p, r);
  }

  lemma FlushStrands(s: State, q: nat, p: nat, r: nat)
    requires Stranded(s, p, r)
    ensures Stranded(Flush(s, q), p, r)
  {
    StrandedStays(s, Flush(s, q), p, r);
  }

  lemma WorkStrands(s: State, q: nat, p: nat, r: nat)
    requires Inv(s) && q < |s.queues| && CanWork(s, q) && Stranded(s, p, r)
    ensures Stranded(Work(s, q), p, r)
  {
    WorkLeaves(s, q, p);
    WorkLeaves(s, q, r);
    WorkLeavesEvent(s, q, BlockingWait(s, p));
    StrandedStays(s, Work(s, q), p, r);
  }

  /** A step of worker q leaves the other workers alone, unless it wakes them. */
  lemma WorkLeaves(s: State, q: nat, p: nat)
    requires q < |s.queues| && CanWork(s, q) && p < |s.queues| && p != q && !s.queues[p].worker.Waiting?
    ensures |Work(s, q).queues| == |s.queues|
    ensures Work(s, q).queues[p].worker == s.queues[p].worker && Work(s, q).queues[p].list == s.queues[p].list
  {
  }

  /** And the events of other queues. */
  lemma WorkLeavesEvent(s: State, q: nat, e: nat)
    requires Inv(s) && q < |s.queues| && CanWork(s, q) && e in s.events && s.events[e].queue != q
    ensures e in Work(s, q).events && Work(s, q).events[e] == s.events[e]
  {
    if s.queues[q].worker.Busy? {
      BusyLeavesEvent(s, q, s.queues[q].worker.command, e);
    } else {
      DequeueLeavesEvent(s, q, e);
    }
  }

  lemma BusyLeavesEvent(s: State, q: nat, c: Command, e: nat)
    requires Inv(s) && q < |s.queues| && CanWork(s, q) && e in s.events && s.events[e].queue != q
    requires s.queues[q].worker.Busy? && s.queues[q].worker.command == c
    ensures e in Work(s, q).events && Work(s, q).events[e] == s.events[e]
  {
    SoundInQueue(s, q, c);
    StatusLeaves(s.events, c, q, e, Running);
    StatusLeaves(s.events, c, q, e, Complete);
  }

  lemma DequeueLeavesEvent(s: State, q: nat, e: nat)
    requires Inv(s) && q < |s.queues| && e in s.events && s.events[e].queue != q
    ensures e in Dequeue(s, q).events && Dequeue(s, q).events[e] == s.events[e]
  {
    if s.queues[q].list != [] {
      SoundInQueue(s, q, s.queues[q].list[0]);
      StatusLeaves(s.events, s.queues[q].list[0], q, e, Submitted);
    }
  }

  lemma SoundInQueue(s: State, q: nat, c: Command)
    requires Inv(s) && q < |s.queues| && (c in s.queues[q].list || c in Current(s.queues[q].worker))
    ensures Sound(c, q, s.events)
  {
    assert QueueOk(s.queues[q], q, s.events, s.next);
    assert c in s.queues[q].enqueued;
  }

  lemma StatusLeaves(events: map<nat, Event>, c: Command, q: nat, e: nat, status: Status)
    requires Sound(c, q, events) && e in events && events[e].queue != q
    ensures e in SetStatus(events, c, status) && SetStatus(events, c, status)[e] == events[e]
  {
  }

  /**
    No set of queues deadlocks: when no worker can move, every worker sleeps or
    has ended, and commands are left only in lists that nobody flushed.
   */
  lemma NoDeadlock(states: seq<State>, k: nat, p: nat)
    requires Run(states) && k < |states| && p < |states[k].queues| && AllEndLast(states[k]) && Stuck(states[k])
    ensures Idle(states[k].queues[p])
  {
    var s := states[k];
    RunKeeps(states, k);
    assert QueueOk(s.queues[p], p, s.events, s.next) && !CanWork(s, p);
    if s.queues[p].worker.Busy? {
      var q, r := SomeoneStranded(s, p);
      NoneAbandoned(s, r);
    }
    if s.queues[p].process {
      FlushedIsBusy(s, p);
      NoneAbandoned(s, p);
    }
  }

  lemma NoneAbandoned(s: State, r: nat)
    requires Inv(s) && AllEndLast(s) && r < |s.queues|
    ensures !Abandoned(s.queues[r])
  {
    assert QueueOk(s.queues[r], r, s.events, s.next) && EndsLast(s.queues[r]);
    if s.queues[r].worker.Stopped? {
      StoppedIsEmpty(s.queues[r]);
    }
  }

  /** With every list flushed, being stuck means that everything enqueued has run. */
  lemma FlushedFinishes(states: seq<State>, k: nat, p: nat)
    requires Run(states) && k < |states| && p < |states[k].queues| && AllEndLast(states[k]) && Stuck(states[k])
    requires states[k].queues[p].list != [] ==> states[k].queues[p].process
    ensures states[k].queues[p].list == []
    ensures states[k].queues[p].enqueued == states[k].queues[p].ran + Current(states[k].queues[p].worker)
    ensures states[k].queues[p].worker.Waiting?
      || (states[k].queues[p].worker.Stopped? && states[k].queues[p].worker.last.end)
  {
    NoDeadlock(states, k, p);
    RunKeeps(states, k);
    assert QueueOk(states[k].queues[p], p, states[k].events, states[k].next);
  }

  // ----- Workers left to themselves come to rest -----

  function StageRank(c: Command, stage: Stage): nat {
    match stage
    case Flushing(i) => 3 + 3 * (if i <= |c.waits| then |c.waits| - i else 0)
    case Awaiting(i) => 1 + 3 * (if i <= |c.waits| then |c.waits| - i else 0)
    case Starting => 3
    case Executing => 2
  }

  function WorkerRank(w: Worker): nat {
    match w
    case Ready => 1
    case Woken => 1
    case Waiting => 0
    case Stopped(_) => 0
    case Busy(c, stage) => StageRank(c, stage)
  }

  function ListRank(list: seq<Command>): nat {
    if list == [] then 0 else 3 + 3 * |list[0].waits| + ListRank(list[1..])
  }

  function QueueRank(q: Queue): nat {
    WorkerRank(q.worker) + ListRank(q.list)
  }

  function Rank(queues: seq<Queue>): nat {
    if queues == [] then 0 else QueueRank(queues[0]) + Rank(queues[1..])
  }

  lemma {:induction false} RankReplace(queues: seq<Queue>, p: nat, q: Queue)
    requires p < |queues|
    ensures Rank(queues[p := q]) == Rank(queues) - QueueRank(queues[p]) + QueueRank(q)
  {
    if p == 0 {
      assert queues[p := q][1..] == queues[1..];
    } else {
      RankReplace(queues[1..], p - 1, q);
      assert queues[p := q][1..] == queues[1..][p - 1 := q];
    }
  }

  /** Flushing another queue costs less than the worker's own advance. */
  lemma FlushRank(s: State, r: nat)
    ensures Rank(Flush(s, r).queues) <= Rank(s.queues) + 1
  {
    if r < |s.queues| {
      RankReplace(s.queues, r, Flushed(s.queues[r]));
    }
  }

  lemma FlushForDescends(s: State, p: nat, c: Command, i: nat)
    requires p < |s.queues| && s.queues[p].worker == Busy(c, Flushing(i)) && CanWork(s, p)
    ensures Rank(Work(s, p).queues) < Rank(s.queues)
  {
    var r := s.events[c.waits[i]].queue;
    FlushRank(s, r);
    var t := Flush(s, r);
    RankReplace(t.queues, p, t.queues[p].(worker := Busy(c, Awaiting(i))));
  }

  lemma QueueDescends(s: State, p: nat)
    requires p < |s.queues| && CanWork(s, p) && !(s.queues[p].worker.Busy? && s.queues[p].worker.stage.Flushing?)
    ensures Work(s, p).queues == s.queues[p := Work(s, p).queues[p]]
    ensures QueueRank(Work(s, p).queues[p]) < QueueRank(s.queues[p])
  {
  }

  lemma WorkDescends(s: State, p: nat)
    requires p < |s.queues| && CanWork(s, p)
    ensures Rank(Work(s, p).queues) < Rank(s.queues)
  {
    var w := s.queues[p].worker;
    if w.Busy? && w.stage.Flushing? {
      FlushForDescends(s, p, w.command, w.stage.i);
    } else {
      QueueDescends(s, p);
      RankReplace(s.queues, p, Work(s, p).queues[p]);
    }
  }

  /** Workers left to themselves stop after at most Rank steps: with NoDeadlock, everything flushed gets done. */
  lemma {:induction false} WorkersComeToRest(states: seq<State>)
    requires |states| > 0
    requires forall k :: 0 < k < |states| ==> WorkerStep(states[k - 1], states[k])
    ensures |states| - 1 <= Rank(states[0].queues)
    decreases |states|
  {
    if |states| > 1 {
      var p: nat :| p < |states[0].queues| && CanWork(states[0], p) && states[1] == Work(states[0], p);
      WorkDescends(states[0], p);
      WorkersComeToRest(states[1..]);
    }
  }
}
