/**
  The call-stack reconstruction of benchmarks/profiler.py: from the committed
  call and ret instructions to the transits between profiled functions, and from
  the transits to the time spent in each.
 */
module Profiler {
  import opened Unfolding

  datatype Option<T> = None | Some(value: T)

  /** An executed call (with the address after it) or ret, and the clock it committed at. */
  datatype Event =
    | Call(target: nat, ret: nat, clock: int)
    | Ret(to: nat, clock: int)

  /** A profiled function being executed, with the return addresses of the calls it has open. */
  datatype Frame = Frame(func: string, pending: seq<nat>)

  datatype Transit = Transit(from: string, to: string, clock: int)

  datatype State = State(stack: seq<Frame>, transits: seq<Transit>)

  // ----- The replay of a trace -----

  function Start(root: string): State {
    State([Frame(root, [])], [])
  }

  function Top(s: State): Frame
    requires s.stack != []
  {
    s.stack[|s.stack| - 1]
  }

  function Opened(f: Frame, ret: nat): Frame {
    f.(pending := f.pending + [ret])
  }

  function Closed(f: Frame): Frame
    requires f.pending != []
  {
    f.(pending := f.pending[..|f.pending| - 1])
  }

  /** None where the source raises an index error. */
  function Step(s: State, e: Event, entrances: map<nat, string>): (r: Option<State>)
    requires s.stack != []
    ensures r.Some? ==> r.value.stack != []
  {
    var n, top := |s.stack|, Top(s);
    match e
    case Call(target, ret, clock) =>
      if target == ret then Some(s)
      else
        var calling := s.stack[n - 1 := Opened(top, ret)];
        if target !in entrances then Some(s.(stack := calling))
        else Some(State(calling + [Frame(entrances[target], [])],
          s.transits + [Transit(top.func, entrances[target], clock)]))
    case Ret(to, clock) =>
      if top.pending == [] then
        if n == 1 then None
        else
          var below := s.stack[n - 2];
          if below.pending == [] then None
          else if below.pending[|below.pending| - 1] != to then Some(s)
          else Some(State(s.stack[..n - 2] + [Closed(below)], s.transits + [Transit(top.func, below.func, clock)]))
      else if top.pending[|top.pending| - 1] != to then Some(s)
      else Some(s.(stack := s.stack[n - 1 := Closed(top)]))
  }

  function Replay(s: State, events: seq<Event>, entrances: map<nat, string>): (r: Option<State>)
    requires s.stack != []
    ensures r.Some? ==> r.value.stack != []
    decreases |events|
  {
    if events == [] then Some(s)
    else
      var next := Step(s, events[0], entrances);
      if next.None? then None else Replay(next.value, events[1..], entrances)
  }

  lemma {:induction false} ReplayAppend(s: State, a: seq<Event>, b: seq<Event>, entrances: map<nat, string>)
    requires s.stack != []
    ensures Replay(s, a + b, entrances) ==
            if Replay(s, a, entrances).None? then None else Replay(Replay(s, a, entrances).value, b, entrances)
    decreases |a|
  {
    if a == [] {
      assert a + b == b;
    } else {
      assert (a + b)[0] == a[0] && (a + b)[1..] == a[1..] + b;
      var next := Step(s, a[0], entrances);
      if next.Some? {
        ReplayAppend(next.value, a[1..], b, entrances);
      }
    }
  }

  lemma ReplayOne(s: State, e: Event, entrances: map<nat, string>)
    requires s.stack != []
    ensures Replay(s, [e], entrances) == Step(s, e, entrances)
  {
    assert [e][1..] == [];
  }

  /** The loop over the committed instructions. */
  method Reconstruct(events: seq<Event>, entrances: map<nat, string>, root: string) returns (r: Option<State>)
    ensures r == Replay(Start(root), events, entrances)
  {
    var callStack: seq<Frame>, transitStack: seq<Transit> := [Frame(root, [])], [];
    for i := 0 to |events|
      invariant callStack != [] && Replay(Start(root), events[..i], entrances) == Some(State(callStack, transitStack))
    {
      assert events == events[..i + 1] + events[i + 1..] && events[..i + 1] == events[..i] + [events[i]];
      ReplayAppend(Start(root), events[..i], [events[i]], entrances);
      ReplayAppend(Start(root), events[..i + 1], events[i + 1..], entrances);
      ReplayOne(State(callStack, transitStack), events[i], entrances);
      var next := Step(State(callStack, transitStack), events[i], entrances);
      if next.None? {
        return None;
      }
      callStack, transitStack := next.value.stack, next.value.transits;
    }
    assert events[..|events|] == events;
    r := Some(State(callStack, transitStack));
  }

  // ----- What every replay keeps -----

  /** Every frame below the top has a call open. */
  ghost predicate CallsOpen(stack: seq<Frame>) {
    forall i :: 0 <= i < |stack| - 1 ==> stack[i].pending != []
  }

  /** Each transit starts where the one before it went; the first starts at root. */
  ghost predicate Chained(transits: seq<Transit>, root: string) {
    && (transits != [] ==> transits[0].from == root)
    && forall i :: 0 < i < |transits| ==> transits[i - 1].to == transits[i].from
  }

  function Where(transits: seq<Transit>, root: string): string {
    if transits == [] then root else transits[|transits| - 1].to
  }

  ghost predicate Ok(s: State, root: string) {
    && s.stack != [] && s.stack[0].func == root && CallsOpen(s.stack)
    && Chained(s.transits, root) && Top(s).func == Where(s.transits, root)
  }

  lemma StepKeeps(s: State, e: Event, entrances: map<nat, string>, root: string)
    requires Ok(s, root)
    ensures Step(s, e, entrances).None? <==> e.Ret? && |s.stack| == 1 && s.stack[0].pending == []
    ensures Step(s, e, entrances).Some? ==> Ok(Step(s, e, entrances).value, root)
  {
  }

  lemma {:induction false} ReplayKeeps(s: State, events: seq<Event>, entrances: map<nat, string>, root: string)
    requires Ok(s, root)
    ensures Replay(s, events, entrances).Some? ==> Ok(Replay(s, events, entrances).value, root)
    decreases |events|
  {
    if events != [] {
      StepKeeps(s, events[0], entrances, root);
      var next := Step(s, events[0], entrances);
      if next.Some? {
        ReplayKeeps(next.value, events[1..], entrances, root);
      }
    }
  }

  /** After the first i events only the bottom frame is left, with no call open, and the next event is a ret. */
  ghost predicate ReturnsPast(s: State, events: seq<Event>, entrances: map<nat, string>, i: nat)
    requires s.stack != []
  {
    && i < |events| && events[i].Ret?
    && var r := Replay(s, events[..i], entrances); r.Some? && |r.value.stack| == 1 && r.value.stack[0].pending == []
  }

  /** A trace is refused exactly when it returns past the bottom frame. */
  lemma {:induction false} ReplayFails(s: State, events: seq<Event>, entrances: map<nat, string>, root: string)
    requires Ok(s, root)
    ensures Replay(s, events, entrances).None? <==> exists i: nat :: ReturnsPast(s, events, entrances, i)
    decreases |events|
  {
    if events != [] {
      StepKeeps(s, events[0], entrances, root);
      var next := Step(s, events[0], entrances);
      if next.None? {
        assert events[..0] == [];
        assert ReturnsPast(s, events, entrances, 0);
      } else {
        ReplayFails(next.value, events[1..], entrances, root);
        forall i: nat ensures ReturnsPast(s, events, entrances, i)
          <==> i > 0 && ReturnsPast(next.value, events[1..], entrances, i - 1) {
          PastLater(s, events, entrances, root, i);
        }
        if Replay(s, events, entrances).None? {
          var i: nat :| ReturnsPast(next.value, events[1..], entrances, i);
          assert ReturnsPast(s, events, entrances, i + 1);
        }
      }
    }
  }

  lemma PastLater(s: State, events: seq<Event>, entrances: map<nat, string>, root: string, i: nat)
    requires Ok(s, root) && events != [] && Step(s, events[0], entrances).Some?
    ensures ReturnsPast(s, events, entrances, i)
      <==> i > 0 && ReturnsPast(Step(s, events[0], entrances).value, events[1..], entrances, i - 1)
  {
    StepKeeps(s, events[0], entrances, root);
    if i == 0 {
      assert events[..0] == [];
    } else if i < |events| {
      assert events[..i][0] == events[0] && events[..i][1..] == events[1..][..i - 1];
    }
  }

  /** Only profiled functions are named, besides root. */
  ghost predicate Named(s: State, funcs: seq<string>, root: string) {
    && (forall i :: 0 <= i < |s.stack| ==> s.stack[i].func in funcs || s.stack[i].func == root)
    && (forall i :: 0 <= i < |s.transits| ==> s.transits[i].to in funcs || s.transits[i].to == root)
  }

  lemma {:induction false} ReplayNames(s: State, events: seq<Event>, entrances: map<nat, string>, funcs: seq<string>,
      root: string)
    requires s.stack != [] && Named(s, funcs, root) && forall a :: a in entrances ==> entrances[a] in funcs
    ensures Replay(s, events, entrances).Some? ==> Named(Replay(s, events, entrances).value, funcs, root)
    decreases |events|
  {
    if events != [] {
      var next := Step(s, events[0], entrances);
      if next.Some? {
        ReplayNames(next.value, events[1..], entrances, funcs, root);
      }
    }
  }

  // ----- Calls that return -----

  /**
    Calls that return to where they came from, one after the other, each with
    the calls made in between. A call to the next instruction is never returned from.
   */
  datatype Calls = Done | Then(target: nat, ret: nat, at: int, body: Calls, back: int, rest: Calls)

  /** The return of a call that has one. */
  function End(target: nat, ret: nat, back: int): seq<Event> {
    if target == ret then [] else [Ret(ret, back)]
  }

  function Flatten(t: Calls): seq<Event> {
    match t
    case Done => []
    case Then(target, ret, at, body, back, rest) =>
      [Call(target, ret, at)] + Flatten(body) + End(target, ret, back) + Flatten(rest)
  }

  /** The profiled function that runs after a call from f. */
  function Inside(f: string, target: nat, ret: nat, entrances: map<nat, string>): string {
    if target != ret && target in entrances then entrances[target] else f
  }

  /** A call from f and its return, with the transits in between. */
  function Visit(f: string, target: nat, ret: nat, at: int, inner: seq<Transit>, back: int,
      entrances: map<nat, string>): seq<Transit> {
    if target != ret && target in entrances
      then [Transit(f, entrances[target], at)] + inner + [Transit(entrances[target], f, back)]
      else inner
  }

  /** The transits of calls made by f: into every profiled function and, when it returns, back. */
  function Visits(f: string, t: Calls, entrances: map<nat, string>): seq<Transit>
    decreases t
  {
    match t
    case Done => []
    case Then(target, ret, at, body, back, rest) =>
      Visit(f, target, ret, at, Visits(Inside(f, target, ret, entrances), body, entrances), back, entrances)
      + Visits(f, rest, entrances)
  }

  /** A call, the events after it, its return if it has one, and the rest. */
  lemma ReplayParts(s: State, s1: State, s2: State, s3: State, e: Event, b: seq<Event>, end: seq<Event>,
      rest: seq<Event>, entrances: map<nat, string>)
    requires s.stack != [] && s1.stack != [] && s2.stack != [] && s3.stack != []
    requires Step(s, e, entrances) == Some(s1) && Replay(s1, b, entrances) == Some(s2)
    requires Replay(s2, end, entrances) == Some(s3)
    ensures Replay(s, [e] + b + end + rest, entrances) == Replay(s3, rest, entrances)
  {
    ReplayOne(s, e, entrances);
    ReplayAppend(s, [e], b, entrances);
    ReplayAppend(s, [e] + b, end, entrances);
    ReplayAppend(s, [e] + b + end, rest, entrances);
  }

  /** The state in which the body of a call starts. */
  function Entered(s: State, target: nat, ret: nat, at: int, entrances: map<nat, string>): (r: State)
    requires s.stack != []
    ensures r.stack != [] && Step(s, Call(target, ret, at), entrances) == Some(r)
    ensures Top(r).func == Inside(Top(s).func, target, ret, entrances)
  {
    Step(s, Call(target, ret, at), entrances).value
  }

  /** The return takes the stack back to what it was before the call. */
  lemma CallReturns(s: State, target: nat, ret: nat, at: int, inner: seq<Transit>, back: int,
      entrances: map<nat, string>)
    requires s.stack != []
    ensures var s1 := Entered(s, target, ret, at, entrances);
      Replay(State(s1.stack, s1.transits + inner), End(target, ret, back), entrances)
      == Some(State(s.stack, s.transits + Visit(Top(s).func, target, ret, at, inner, back, entrances)))
  {
    var s1 := Entered(s, target, ret, at, entrances);
    var s2 := State(s1.stack, s1.transits + inner);
    if target != ret {
      ReplayOne(s2, Ret(ret, back), entrances);
      if target !in entrances {
        HelperReturns(s, s2, ret, back, entrances);
      } else {
        ProfiledReturns(s, s2, target, ret, back, entrances);
        TransitsAdd(s.transits, [Transit(Top(s).func, entrances[target], at)], inner,
          [Transit(entrances[target], Top(s).func, back)]);
      }
    }
  }

  lemma Assoc(a: seq<Transit>, b: seq<Transit>, c: seq<Transit>)
    ensures a + b + c == a + (b + c)
  {
  }

  lemma TransitsAdd(a: seq<Transit>, b: seq<Transit>, c: seq<Transit>, d: seq<Transit>)
    ensures a + b + c + d == a + (b + c + d)
  {
  }

  lemma HelperReturns(s: State, s2: State, ret: nat, back: int, entrances: map<nat, string>)
    requires s.stack != [] && s2.stack == s.stack[|s.stack| - 1 := Opened(Top(s), ret)]
    ensures Step(s2, Ret(ret, back), entrances) == Some(State(s.stack, s2.transits))
  {
    assert Closed(Opened(Top(s), ret)) == Top(s);
    assert s2.stack[|s.stack| - 1 := Top(s)] == s.stack;
  }

  lemma ProfiledReturns(s: State, s2: State, target: nat, ret: nat, back: int, entrances: map<nat, string>)
    requires s.stack != [] && target in entrances
    requires s2.stack == s.stack[|s.stack| - 1 := Opened(Top(s), ret)] + [Frame(entrances[target], [])]
    ensures Step(s2, Ret(ret, back), entrances)
      == Some(State(s.stack, s2.transits + [Transit(entrances[target], Top(s).func, back)]))
  {
    var n := |s2.stack|;
    assert s2.stack[n - 2] == Opened(Top(s), ret) && Closed(Opened(Top(s), ret)) == Top(s);
    assert s2.stack[..n - 2] + [Top(s)] == s.stack;
  }

  /**
    After calls that all return the stack is the one before them, whatever it
    was, and every visit to a profiled function has been recorded.
   */
  lemma {:induction false} CallsVisit(s: State, t: Calls, entrances: map<nat, string>)
    requires s.stack != []
    ensures Replay(s, Flatten(t), entrances) == Some(State(s.stack, s.transits + Visits(Top(s).func, t, entrances)))
    decreases t
  {
    match t
    case Done =>
      assert s.transits + [] == s.transits;
    case Then(target, ret, at, body, back, rest) =>
      var s1 := Enter(s, t, entrances);
      CallsVisit(s1, body, entrances);
      var s3 := OneVisit(s, s1, t, entrances);
      CallsVisit(s3, rest, entrances);
      VisitsThen(Top(s).func, t, entrances);
      Assoc(s.transits, VisitOf(Top(s).func, t, entrances), Visits(Top(s).func, rest, entrances));
  }

  /** The call leads from s to r. */
  ghost predicate Enters(s: State, t: Calls, entrances: map<nat, string>, r: State)
    requires s.stack != [] && t.Then?
  {
    forall x {:trigger Open(x)} :: Open(x) ==> r == Entered(s, t.target, t.ret, t.at, entrances)
  }

  lemma Enter(s: State, t: Calls, entrances: map<nat, string>) returns (r: State)
    requires s.stack != [] && t.Then?
    ensures Enters(s, t, entrances, r) && r.stack != []
    ensures Top(r).func == Inside(Top(s).func, t.target, t.ret, entrances)
  {
    r := Entered(s, t.target, t.ret, t.at, entrances);
  }

  /** The call and its return lead from s to r. */
  ghost predicate Leaves(s: State, t: Calls, entrances: map<nat, string>, r: State)
    requires s.stack != [] && t.Then?
  {
    forall x {:trigger Open(x)} :: Open(x) ==> r == State(s.stack, s.transits + VisitOf(Top(s).func, t, entrances))
  }

  lemma Leave(s: State, t: Calls, entrances: map<nat, string>) returns (r: State)
    requires s.stack != [] && t.Then?
    ensures Leaves(s, t, entrances, r) && r.stack == s.stack
  {
    r := State(s.stack, s.transits + VisitOf(Top(s).func, t, entrances));
  }

  ghost function VisitOf(f: string, t: Calls, entrances: map<nat, string>): seq<Transit>
    requires t.Then?
  {
    Visit(f, t.target, t.ret, t.at, Visits(Inside(f, t.target, t.ret, entrances), t.body, entrances), t.back, entrances)
  }

  lemma VisitsThen(f: string, t: Calls, entrances: map<nat, string>)
    requires t.Then?
    ensures Visits(f, t, entrances) == VisitOf(f, t, entrances) + Visits(f, t.rest, entrances)
  {
  }

  lemma OneVisit(s: State, s1: State, t: Calls, entrances: map<nat, string>) returns (s3: State)
    requires s.stack != [] && t.Then? && Enters(s, t, entrances, s1) && s1.stack != []
    requires Replay(s1, Flatten(t.body), entrances)
        == Some(State(s1.stack, s1.transits + Visits(Top(s1).func, t.body, entrances)))
    ensures s3 == State(s.stack, s.transits + VisitOf(Top(s).func, t, entrances))
    ensures Replay(s, Flatten(t), entrances) == Replay(s3, Flatten(t.rest), entrances)
  {
    assert Open(0);
    var inner := Visits(Top(s1).func, t.body, entrances);
    CallReturns(s, t.target, t.ret, t.at, inner, t.back, entrances);
    s3 := State(s.stack, s.transits + Visit(Top(s).func, t.target, t.ret, t.at, inner, t.back, entrances));
    ReplayParts(s, s1, State(s1.stack, s1.transits + inner), s3, Call(t.target, t.ret, t.at), Flatten(t.body),
      End(t.target, t.ret, t.back), Flatten(t.rest), entrances);
  }

  /** A ret to anywhere but the address after the innermost open call is passed over. */
  lemma StrayReturn(s: State, to: nat, clock: int, entrances: map<nat, string>)
    requires s.stack != [] && CallsOpen(s.stack)
    requires Top(s).pending != [] ==> Top(s).pending[|Top(s).pending| - 1] != to
    requires Top(s).pending == [] ==> |s.stack| > 1
    requires Top(s).pending == [] && |s.stack| > 1 ==>
      var below := s.stack[|s.stack| - 2]; below.pending != [] ==> below.pending[|below.pending| - 1] != to
    ensures Step(s, Ret(to, clock), entrances) == Some(s)
  {
  }

  /** A helper called at 5 calls the profiled function f at 10, which returns at 30. */
  lemma VisitExample(entrances: map<nat, string>, root: string, f: string)
    requires entrances == map[200 := f]
    ensures Replay(Start(root), [Call(100, 4, 5), Call(200, 8, 10), Ret(8, 30), Ret(4, 40)], entrances)
      == Some(State([Frame(root, [])], [Transit(root, f, 10), Transit(f, root, 30)]))
  {
    var body := Then(200, 8, 10, Done, 30, Done);
    var t := Then(100, 4, 5, body, 40, Done);
    assert Flatten(t) == [Call(100, 4, 5), Call(200, 8, 10), Ret(8, 30), Ret(4, 40)];
    CallsVisit(Start(root), t, entrances);
    var visits := Visits(root, body, entrances);
    assert visits == [Transit(root, f, 10), Transit(f, root, 30)];
    assert Visits(root, t, entrances) == visits;
    assert Start(root).transits + visits == visits;
  }

  // ----- Time -----

  ghost function Last(transits: seq<Transit>): int {
    if transits == [] then 0 else transits[|transits| - 1].clock
  }

  /** The time between transits during which f was where the run was. */
  ghost function Time(transits: seq<Transit>, f: string): int {
    if transits == [] then 0
    else
      var before, t := transits[..|transits| - 1], transits[|transits| - 1];
      Time(before, f) + (if t.from == f then t.clock - Last(before) else 0)
  }

  /** The time between events during which f was on top of the stack. */
  ghost function Spent(s: State, events: seq<Event>, entrances: map<nat, string>, f: string, now: int): int
    requires s.stack != []
    decreases |events|
  {
    if events == [] then 0
    else
      var next := Step(s, events[0], entrances);
      (if Top(s).func == f then events[0].clock - now else 0)
      + (if next.None? then 0 else Spent(next.value, events[1..], entrances, f, events[0].clock))
  }

  /** Time already attributed, and time since the last transit. */
  ghost function Account(s: State, f: string, now: int): int
    requires s.stack != []
  {
    Time(s.transits, f) + if Top(s).func == f then now - Last(s.transits) else 0
  }

  ghost function Clock(events: seq<Event>, now: int): int {
    if events == [] then now else events[|events| - 1].clock
  }

  lemma StepAccounts(s: State, e: Event, entrances: map<nat, string>, f: string, now: int)
    requires s.stack != [] && Step(s, e, entrances).Some?
    ensures Account(Step(s, e, entrances).value, f, e.clock) == Account(s, f, now) + if Top(s).func == f
      then e.clock - now else 0
  {
    var s' := Step(s, e, entrances).value;
    if s'.transits != s.transits {
      assert s'.transits[..|s'.transits| - 1] == s.transits;
    }
  }

  /** What transits attribute, with the stretch after the last one, is what events say. */
  lemma {:induction false} ReplayAccounts(s: State, events: seq<Event>, entrances: map<nat, string>, f: string,
      now: int)
    requires s.stack != [] && Replay(s, events, entrances).Some?
    ensures Account(Replay(s, events, entrances).value, f, Clock(events, now))
      == Account(s, f, now) + Spent(s, events, entrances, f, now)
    decreases |events|
  {
    if events != [] {
      var next := Step(s, events[0], entrances).value;
      StepAccounts(s, events[0], entrances, f, now);
      ReplayAccounts(next, events[1..], entrances, f, events[0].clock);
      assert Clock(events[1..], events[0].clock) == Clock(events, now);
    }
  }

  // ----- Time on the tree of calls -----

  /** The clock after t. */
  function EndOf(t: Calls, now: int): int {
    match t
    case Done => now
    case Then(target, ret, at, body, back, rest) => EndOf(rest, if target == ret then EndOf(body, at) else back)
  }

  /** The time from now to the end of t, calls made by f, during which g was the profiled function that ran. */
  function TimeOf(t: Calls, f: string, g: string, now: int, entrances: map<nat, string>): int {
    match t
    case Done => 0
    case Then(target, ret, at, body, back, rest) =>
      var h, inner := Inside(f, target, ret, entrances), EndOf(body, at);
      var outer := if target == ret then inner else back;
      (if f == g then at - now else 0)
      + TimeOf(body, h, g, at, entrances)
      + (if h == g then outer - inner else 0)
      + TimeOf(rest, f, g, outer, entrances)
  }

  lemma {:induction false} SpentAppend(s: State, a: seq<Event>, b: seq<Event>, entrances: map<nat, string>, g: string,
      now: int)
    requires s.stack != [] && Replay(s, a, entrances).Some?
    ensures Spent(s, a + b, entrances, g, now)
      == Spent(s, a, entrances, g, now) + Spent(Replay(s, a, entrances).value, b, entrances, g, Clock(a, now))
    ensures Clock(a + b, now) == Clock(b, Clock(a, now))
    decreases |a|
  {
    if a == [] {
      assert a + b == b;
    } else {
      assert (a + b)[0] == a[0] && (a + b)[1..] == a[1..] + b;
      var next := Step(s, a[0], entrances);
      SpentAppend(next.value, a[1..], b, entrances, g, a[0].clock);
      assert Clock(a[1..], a[0].clock) == Clock(a, now);
    }
  }

  lemma SpentOne(s: State, e: Event, entrances: map<nat, string>, g: string, now: int)
    requires s.stack != []
    ensures Spent(s, [e], entrances, g, now) == if Top(s).func == g then e.clock - now else 0
  {
    assert [e][1..] == [];
  }

  /** Time spent on a call, the events after it, its return if it has one, and the rest. */
  lemma SpentParts(s: State, s1: State, s2: State, s3: State, e: Event, b: seq<Event>, end: seq<Event>,
      rest: seq<Event>, entrances: map<nat, string>, g: string, now: int)
    requires s.stack != [] && s1.stack != [] && s2.stack != [] && s3.stack != []
    requires Step(s, e, entrances) == Some(s1) && Replay(s1, b, entrances) == Some(s2)
    requires Replay(s2, end, entrances) == Some(s3)
    ensures var u := Clock(b, e.clock); var v := Clock(end, u);
      Spent(s, [e] + b + end + rest, entrances, g, now) == (if Top(s).func == g then e.clock - now else 0)
        + Spent(s1, b, entrances, g, e.clock) + Spent(s2, end, entrances, g, u) + Spent(s3, rest, entrances, g, v)
    ensures Clock([e] + b + end + rest, now) == Clock(rest, Clock(end, Clock(b, e.clock)))
  {
    ReplayOne(s, e, entrances);
    SpentOne(s, e, entrances, g, now);
    SpentAppend(s, [e], b, entrances, g, now);
    ReplayAppend(s, [e], b, entrances);
    SpentAppend(s, [e] + b, end, entrances, g, now);
    ReplayAppend(s, [e] + b, end, entrances);
    SpentAppend(s, [e] + b + end, rest, entrances, g, now);
  }

  /** Replaying t from s takes v with g on top of the stack and ends at clock e. */
  ghost predicate Spends(s: State, t: Calls, entrances: map<nat, string>, g: string, now: int, v: int, e: int)
    requires s.stack != []
  {
    forall x {:trigger Open(x)} :: Open(x) ==>
      Spent(s, Flatten(t), entrances, g, now) == v && Clock(Flatten(t), now) == e
  }

  /** In the example of VisitExample: 20 for f, from 10 to 30, and the rest for root. */
  lemma TimeExample(entrances: map<nat, string>, root: string, f: string)
    requires entrances == map[200 := f] && f != root
    ensures var t := Then(100, 4, 5, Then(200, 8, 10, Done, 30, Done), 40, Done);
      TimeOf(t, root, f, 0, entrances) == 20 && TimeOf(t, root, root, 0, entrances) == 20 && EndOf(t, 0) == 40
  {
    var body := Then(200, 8, 10, Done, 30, Done);
    assert TimeOf(body, root, f, 5, entrances) == 20;
    assert TimeOf(body, root, root, 5, entrances) == 5;
  }

  lemma OpenSpends(s: State, t: Calls, entrances: map<nat, string>, g: string, now: int, v: int, e: int)
    requires s.stack != []
    ensures Spends(s, t, entrances, g, now, v, e)
      <==> (Spent(s, Flatten(t), entrances, g, now) == v && Clock(Flatten(t), now) == e)
  {
    assert Open(0);
  }

  /** The time with g on top of the stack is the time on the tree with g running. */
  lemma SpentIsTimeOf(s: State, t: Calls, entrances: map<nat, string>, g: string, now: int)
    requires s.stack != []
    ensures Spent(s, Flatten(t), entrances, g, now) == TimeOf(t, Top(s).func, g, now, entrances)
    ensures Clock(Flatten(t), now) == EndOf(t, now)
  {
    AllSpend(s, t, entrances, g, now);
    OpenSpends(s, t, entrances, g, now, TimeOf(t, Top(s).func, g, now, entrances), EndOf(t, now));
  }

  lemma {:induction false} AllSpend(s: State, t: Calls, entrances: map<nat, string>, g: string, now: int)
    requires s.stack != []
    ensures Spends(s, t, entrances, g, now, TimeOf(t, Top(s).func, g, now, entrances), EndOf(t, now))
    decreases t
  {
    if t.Done? {
      NothingSpent(s, entrances, g, now);
    } else {
      var s1 := Enter(s, t, entrances);
      AllSpend(s1, t.body, entrances, g, t.at);
      var s3 := Leave(s, t, entrances);
      var outer := if t.target == t.ret then EndOf(t.body, t.at) else t.back;
      AllSpend(s3, t.rest, entrances, g, outer);
      OneSpent(s, s1, s3, t, entrances, g, now, outer, TimeOf(t.body, Top(s1).func, g, t.at, entrances),
        TimeOf(t.rest, Top(s).func, g, outer, entrances), TimeOf(t, Top(s).func, g, now, entrances), EndOf(t, now));
    }
  }

  lemma NothingSpent(s: State, entrances: map<nat, string>, g: string, now: int)
    requires s.stack != []
    ensures Spends(s, Done, entrances, g, now, 0, now)
  {
  }

  lemma OneSpent(s: State, s1: State, s3: State, t: Calls, entrances: map<nat, string>, g: string, now: int,
      outer: int, v1: int, v3: int, v: int, e: int)
    requires s.stack != [] && t.Then? && Enters(s, t, entrances, s1) && s1.stack != [] && s3.stack != []
    requires Leaves(s, t, entrances, s3)
    requires outer == if t.target == t.ret then EndOf(t.body, t.at) else t.back
    requires Spends(s1, t.body, entrances, g, t.at, v1, EndOf(t.body, t.at))
    requires Spends(s3, t.rest, entrances, g, outer, v3, e)
    requires v == (if Top(s).func == g then t.at - now else 0) + v1
      + (if Top(s1).func == g then outer - EndOf(t.body, t.at) else 0) + v3
    ensures Spends(s, t, entrances, g, now, v, e)
  {
    assert Open(0);
    var inner := Visits(Top(s1).func, t.body, entrances);
    var s2 := State(s1.stack, s1.transits + inner);
    CallsVisit(s1, t.body, entrances);
    CallReturns(s, t.target, t.ret, t.at, inner, t.back, entrances);
    SpentParts(s, s1, s2, s3, Call(t.target, t.ret, t.at), Flatten(t.body), End(t.target, t.ret, t.back),
      Flatten(t.rest), entrances, g, now);
    EndSpent(s2, t, entrances, g, outer);
  }

  lemma EndSpent(s: State, t: Calls, entrances: map<nat, string>, g: string, outer: int)
    requires s.stack != [] && t.Then? && outer == if t.target == t.ret then EndOf(t.body, t.at) else t.back
    ensures var end, u := End(t.target, t.ret, t.back), EndOf(t.body, t.at);
      Clock(end, u) == outer && Spent(s, end, entrances, g, u) == if Top(s).func == g then outer - u else 0
  {
    if t.target != t.ret {
      SpentOne(s, Ret(t.ret, t.back), entrances, g, EndOf(t.body, t.at));
    }
  }

  // ----- Sums over dictionaries -----

  ghost function Sum(m: map<string, int>): int {
    if m == map[] then 0
    else
      var k :| k in m;
      m[k] + Sum(m - {k})
  }

  lemma {:induction false} SumAny(m: map<string, int>, k: string)
    requires k in m
    ensures Sum(m) == m[k] + Sum(m - {k})
    decreases |m|
  {
    var j :| j in m && Sum(m) == m[j] + Sum(m - {j});
    if j != k {
      SumAny(m - {j}, k);
      SumAny(m - {k}, j);
      assert m - {j} - {k} == m - {k} - {j};
    }
  }

  lemma SumUpdate(m: map<string, int>, k: string, v: int)
    ensures Sum(m[k := v]) == Sum(m) + v - if k in m then m[k] else 0
  {
    SumAny(m[k := v], k);
    assert m[k := v] - {k} == m - {k};
    if k in m {
      SumAny(m, k);
    } else {
      assert m - {k} == m;
    }
  }

  // ----- Attribution -----

  datatype Report = Times(times: map<string, int>) | IndexError | KeyError | AssertionError

  /** times attributes the stretches between the transits so far, and nothing else. */
  ghost predicate Ledger(times: map<string, int>, transits: seq<Transit>) {
    && (forall f :: f in times ==> times[f] == Time(transits, f))
    && Sum(times) == Last(transits)
  }

  lemma LedgerStart(zeros: map<string, int>, root: string, t: Transit)
    requires (forall f :: f in zeros ==> zeros[f] == 0) && Sum(zeros) == 0 && t.from == root
    ensures Ledger(zeros[root := t.clock], [t])
  {
    SumUpdate(zeros, root, t.clock);
    var ts := [t];
    assert ts[..|ts| - 1] == [];
    forall f ensures Time(ts, f) == if t.from == f then t.clock else 0 {
      assert Time(ts[..|ts| - 1], f) == 0;
    }
  }

  lemma LedgerStep(times: map<string, int>, before: seq<Transit>, after: seq<Transit>)
    requires Ledger(times, before) && |after| == |before| + 1 && after[..|before|] == before
    requires after[|before|].from in times
    ensures var t := after[|before|]; Ledger(times[t.from := times[t.from] + t.clock - Last(before)], after)
  {
    var t := after[|before|];
    SumUpdate(times, t.from, times[t.from] + t.clock - Last(before));
  }

  method Attribute(transits: seq<Transit>, funcs: seq<string>, root: string) returns (r: Report)
    ensures r.IndexError? <==> transits == []
    ensures Chained(transits, root) ==> !r.AssertionError?
    ensures r.KeyError? ==> exists i :: 0 <= i < |transits| - 1 && transits[i].to !in funcs && transits[i].to != root
    ensures r.Times? ==> forall f :: f in r.times <==> f in funcs || f == root
    ensures r.Times? && Chained(transits, root) ==> Ledger(r.times, transits)
  {
    if transits == [] {
      return IndexError;
    }
    var times := Zeros(funcs);
    if Chained(transits, root) {
      LedgerStart(times, root, transits[0]);
      assert transits[..1] == [transits[0]];
    }
    times := times[root := transits[0].clock];
    for i := 0 to |transits| - 1
      invariant forall f :: f in times <==> f in funcs || f == root
      invariant Chained(transits, root) ==> Ledger(times, transits[..i + 1])
    {
      var curr, next := transits[i], transits[i + 1];
      if curr.to != next.from {
        return AssertionError;
      }
      if curr.to !in times {
        return KeyError;
      }
      if Chained(transits, root) {
        LedgerStep(times, transits[..i + 1], transits[..i + 2]);
      }
      times := times[curr.to := times[curr.to] + next.clock - curr.clock];
    }
    assert transits[..|transits|] == transits;
    return Times(times);
  }

  method Zeros(funcs: seq<string>) returns (times: map<string, int>)
    ensures forall f :: f in times <==> f in funcs
    ensures forall f :: f in times ==> times[f] == 0
    ensures Sum(times) == 0
  {
    times := map[];
    for i := 0 to |funcs|
      invariant forall f :: f in times <==> f in funcs[..i]
      invariant forall f :: f in times ==> times[f] == 0
      invariant Sum(times) == 0
    {
      SumUpdate(times, funcs[i], 0);
      times := times[funcs[i] := 0];
    }
  }

  /**
    What is reported of calls that all return: for every function but root its
    time on the tree, for root what it has up to the last transit.
   */
  ghost predicate OnTree(r: Report, t: Calls, entrances: map<nat, string>, root: string) {
    var visits := Visits(root, t, entrances);
    && (r.IndexError? <==> visits == [])
    && (r.Times? ==> forall f :: f in r.times ==>
          r.times[f] == TimeOf(t, root, f, 0, entrances) - if f == root then EndOf(t, 0) - Last(visits) else 0)
  }

  /** What the replay of calls that all return has recorded, and the time it spent where. */
  ghost predicate AllReturn(events: seq<Event>, entrances: map<nat, string>, root: string, t: Calls) {
    && Replay(Start(root), events, entrances) == Some(State(Start(root).stack, Visits(root, t, entrances)))
    && Clock(events, 0) == EndOf(t, 0)
    && forall f :: Spent(Start(root), events, entrances, f, 0) == TimeOf(t, root, f, 0, entrances)
  }

  lemma ProfileOnTree(t: Calls, entrances: map<nat, string>, root: string)
    ensures AllReturn(Flatten(t), entrances, root, t)
  {
    CallsVisit(Start(root), t, entrances);
    assert [] + Visits(root, t, entrances) == Visits(root, t, entrances);
    SpentIsTimeOf(Start(root), t, entrances, root, 0);
    forall f ensures Spent(Start(root), Flatten(t), entrances, f, 0) == TimeOf(t, root, f, 0, entrances) {
      SpentIsTimeOf(Start(root), t, entrances, f, 0);
    }
  }

  /**
    The whole computation: the source's assertion never fails, the attributed
    times add up to the clock of the last transit, and each is the time its
    function was on top of the stack, but for the stretch after the last transit.
   */
  method Profile(events: seq<Event>, entrances: map<nat, string>, funcs: seq<string>, root: string)
      returns (r: Report, ghost s: State)
    requires forall a :: a in entrances ==> entrances[a] in funcs
    ensures !r.AssertionError? && !r.KeyError?
    ensures r.IndexError? <==>
      || (exists i: nat :: ReturnsPast(Start(root), events, entrances, i))
      || (Replay(Start(root), events, entrances).Some? && Replay(Start(root), events, entrances).value.transits == [])
    ensures r.Times? ==>
      Replay(Start(root), events, entrances) == Some(s) && Ok(s, root) && Sum(r.times) == Last(s.transits)
    ensures r.Times? ==> forall f :: f in r.times ==>
      r.times[f] == Spent(Start(root), events, entrances, f, 0) - if Top(s).func == f
        then Clock(events, 0) - Last(s.transits) else 0
    ensures forall t :: events == Flatten(t) ==> OnTree(r, t, entrances, root)
  {
    ReplayFails(Start(root), events, entrances, root);
    forall t | events == Flatten(t) ensures AllReturn(events, entrances, root, t) {
      ProfileOnTree(t, entrances, root);
    }
    var c := Reconstruct(events, entrances, root);
    if c.None? {
      s := Start(root);
      return IndexError, s;
    }
    s := c.value;
    ReplayKeeps(Start(root), events, entrances, root);
    ReplayNames(Start(root), events, entrances, funcs, root);
    r := Attribute(c.value.transits, funcs, root);
    forall f ensures Account(s, f, Clock(events, 0)) == Spent(Start(root), events, entrances, f, 0) {
      ReplayAccounts(Start(root), events, entrances, f, 0);
    }
  }
}
