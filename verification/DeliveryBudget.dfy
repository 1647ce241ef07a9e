/**
 The delivery budget: a buffered channel used as a token pool. Ordinary workers hold one token while
 they work; an exclusive job collects every token, one at a time, before it works. Any task's context
 may be cancelled at any moment.
 */
module DeliveryBudget {

  const MAX_WORK: int := 24
  const DEFAULT_WORK: int := 8

  function Min(a: int, b: int): int { if a <= b then a else b }

  function Max(a: int, b: int): int { if a >= b then a else b }

  /** As much as is wanted, up to the processors and the maximum. */
  predicate Capped(limit: int, wanted: int, processors: int) {
    limit <= wanted && limit <= processors && limit <= MAX_WORK
    && (limit == wanted || limit == processors || limit == MAX_WORK)
  }

  /** The channel's capacity is always a usable, bounded one. */
  function EffectiveWorkLimit(requested: int, configured: int, fallback: int, processors: int): (limit: int)
    requires processors >= 1
    ensures 1 <= limit <= MAX_WORK && limit <= processors
    ensures requested > 0 ==> Capped(limit, requested, processors)
    ensures requested <= 0 && configured > 0 ==> Capped(limit, configured, processors)
    ensures requested <= 0 && configured <= 0 ==> Capped(limit, if fallback > 0 then fallback else DEFAULT_WORK, processors)
  {
    var first := if requested <= 0 then configured else requested;
    var second := if first <= 0 then fallback else first;
    var third := if second <= 0 then DEFAULT_WORK else second;
    Min(Min(Max(third, 1), processors), MAX_WORK)
  }

  /** Where a task stands; `held` counts the tokens an exclusive job has in hand. */
  datatype Task =
    | Waiting
    | Working
    | Returning
    | Done
    | Acquiring(held: nat)
    | Exclusive
    | Releasing(held: nat)
    | Released

  datatype Process = Process(task: Task, cancelled: bool)

  datatype State = State(capacity: nat, tokens: nat, processes: seq<Process>)

  datatype Event =
    | Cancel(who: nat)
    | Take(who: nat)
    | GiveUp(who: nat)
    | Enter(who: nat)
    | Finish(who: nat)
    | Return(who: nat)

  predicate Enabled(s: State, e: Event) {
    && e.who < |s.processes|
    && var p := s.processes[e.who];
       match e
       case Cancel(_) => !p.cancelled
       case Take(_) =>
         && s.tokens < s.capacity
         && (p.task.Waiting? || (p.task.Acquiring? && p.task.held < s.capacity))
       case GiveUp(_) =>
         && p.cancelled
         && (p.task.Waiting? || (p.task.Acquiring? && p.task.held < s.capacity))
       case Enter(_) => p.task.Acquiring? && p.task.held >= s.capacity
       case Finish(_) => p.task.Working? || p.task.Exclusive?
       case Return(_) => (s.tokens > 0 && (p.task.Returning? || (p.task.Releasing? && p.task.held > 0)))
                         || p.task == Releasing(0)
  }

  /** The task's next position; `capacity` is what an exclusive job has in hand once it runs. */
  function NextTask(capacity: nat, task: Task, e: Event): Task {
    match e
    case Cancel(_) => task
    case Take(_) => if task.Acquiring? then Acquiring(task.held + 1) else Working
    case GiveUp(_) => if task.Acquiring? then Releasing(task.held) else Done
    case Enter(_) => Exclusive
    case Finish(_) => if task.Exclusive? then Releasing(capacity) else Returning
    case Return(_) =>
      if task.Returning? then Done
      else if task.Releasing? && task.held > 0 then Releasing(task.held - 1)
      else Released
  }

  function Apply(s: State, e: Event): (r: State)
    requires Enabled(s, e)
  {
    var p := s.processes[e.who];
    var next := Process(NextTask(s.capacity, p.task, e), p.cancelled || e.Cancel?);
    var tokens := match e
      case Take(_) => s.tokens + 1
      case Return(_) => if p.task == Releasing(0) then s.tokens else s.tokens - 1
      case _ => s.tokens;
    State(s.capacity, tokens, s.processes[e.who := next])
  }

  predicate Initial(s: State) {
    && s.capacity >= 1 && s.tokens == 0
    && forall i :: 0 <= i < |s.processes| ==>
         !s.processes[i].cancelled && (s.processes[i].task == Waiting || s.processes[i].task == Acquiring(0))
  }

  predicate Final(s: State) {
    forall i :: 0 <= i < |s.processes| ==> s.processes[i].task.Done? || s.processes[i].task.Released?
  }

  /** A schedule is possible when each of its events is enabled in turn. */
  predicate CanRun(s: State, events: seq<Event>)
    decreases |events|
  {
    events == [] || (Enabled(s, events[0]) && CanRun(Apply(s, events[0]), events[1..]))
  }

  function Run(s: State, events: seq<Event>): (r: State)
    requires CanRun(s, events)
    decreases |events|
  {
    if events == [] then s else Run(Apply(s, events[0]), events[1..])
  }

  // ------------------------------------------------------------- token accounting

  function Held(capacity: nat, task: Task): nat {
    match task
    case Waiting => 0
    case Working => 1
    case Returning => 1
    case Done => 0
    case Acquiring(k) => k
    case Exclusive => capacity
    case Releasing(k) => k
    case Released => 0
  }

  function TotalHeld(capacity: nat, ps: seq<Process>): nat {
    if ps == [] then 0 else Held(capacity, ps[0].task) + TotalHeld(capacity, ps[1..])
  }

  lemma {:induction false} TotalHeldUpdate(capacity: nat, ps: seq<Process>, i: nat, p: Process)
    requires i < |ps|
    ensures TotalHeld(capacity, ps[i := p]) + Held(capacity, ps[i].task)
         == TotalHeld(capacity, ps) + Held(capacity, p.task)
    decreases |ps|
  {
    if i == 0 {
      assert ps[i := p][1..] == ps[1..];
    } else {
      assert ps[i := p][1..] == ps[1..][i - 1 := p];
      TotalHeldUpdate(capacity, ps[1..], i - 1, p);
    }
  }

  lemma {:induction false} TotalHeldAtLeast(capacity: nat, ps: seq<Process>, i: nat)
    requires i < |ps|
    ensures TotalHeld(capacity, ps) >= Held(capacity, ps[i].task)
    decreases |ps|
  {
    if i > 0 {
      TotalHeldAtLeast(capacity, ps[1..], i - 1);
    }
  }

  lemma TotalHeldAtLeastTwo(capacity: nat, ps: seq<Process>, i: nat, j: nat)
    requires i < |ps| && j < |ps| && i != j
    ensures TotalHeld(capacity, ps) >= Held(capacity, ps[i].task) + Held(capacity, ps[j].task)
  {
    var without := ps[i := Process(Done, false)];
    TotalHeldUpdate(capacity, ps, i, Process(Done, false));
    TotalHeldAtLeast(capacity, without, j);
  }

  /** Conservation: the channel holds exactly the tokens the tasks hold. */
  predicate Inv(s: State) {
    && s.capacity >= 1
    && s.tokens == TotalHeld(s.capacity, s.processes)
    && s.tokens <= s.capacity
  }

  lemma {:induction false} InitialHoldsNothing(capacity: nat, ps: seq<Process>)
    requires forall i :: 0 <= i < |ps| ==> Held(capacity, ps[i].task) == 0
    ensures TotalHeld(capacity, ps) == 0
    decreases |ps|
  {
    if ps != [] {
      InitialHoldsNothing(capacity, ps[1..]);
    }
  }

  lemma InitialInv(s: State)
    requires Initial(s)
    ensures Inv(s)
  {
    InitialHoldsNothing(s.capacity, s.processes);
  }

  lemma StepInv(s: State, e: Event)
    requires Inv(s) && Enabled(s, e)
    ensures Inv(Apply(s, e))
  {
    var p := s.processes[e.who];
    TotalHeldAtLeast(s.capacity, s.processes, e.who);
    TotalHeldUpdate(s.capacity, s.processes, e.who, Apply(s, e).processes[e.who]);
  }

  lemma {:induction false} RunInv(s: State, events: seq<Event>)
    requires Inv(s) && CanRun(s, events)
    ensures Inv(Run(s, events))
    decreases |events|
  {
    if events != [] {
      StepInv(s, events[0]);
      RunInv(Apply(s, events[0]), events[1..]);
    }
  }

  // ------------------------------------------------------------------ main results

  /** Conservation in every interleaving, and every token back in the end. */
  lemma TokensConserved(s: State, events: seq<Event>)
    requires Initial(s) && CanRun(s, events)
    ensures var r := Run(s, events);
            && r.tokens == TotalHeld(r.capacity, r.processes) <= r.capacity
            && (Final(r) ==> r.tokens == 0)
  {
    InitialInv(s);
    RunInv(s, events);
    var r := Run(s, events);
    if Final(r) {
      InitialHoldsNothing(r.capacity, r.processes);
    }
  }

  predicate Busy(task: Task) {
    task.Working? || task.Exclusive?
  }

  /** While exclusive work runs nobody else works or holds a token, and no token is left to take. */
  lemma ExclusiveRunsAlone(s: State, events: seq<Event>, i: nat, j: nat)
    requires Initial(s) && CanRun(s, events)
    requires i < |Run(s, events).processes| && j < |Run(s, events).processes| && i != j
    requires Run(s, events).processes[i].task.Exclusive?
    ensures var r := Run(s, events);
            && !Busy(r.processes[j].task) && Held(r.capacity, r.processes[j].task) == 0
            && r.tokens == r.capacity && !Enabled(r, Take(j))
  {
    InitialInv(s);
    RunInv(s, events);
    var r := Run(s, events);
    TotalHeldAtLeastTwo(r.capacity, r.processes, i, j);
  }

  /** Steps a task can still make, its cancellation included. */
  function Rank(capacity: nat, p: Process): nat {
    (if p.cancelled then 0 else 1) +
    match p.task
    case Waiting => 3
    case Working => 2
    case Returning => 1
    case Done => 0
    case Acquiring(k) => capacity + 3 + (if k <= capacity then capacity - k else 0)
    case Exclusive => capacity + 2
    case Releasing(k) => k + 1
    case Released => 0
  }

  function Measure(capacity: nat, ps: seq<Process>): nat {
    if ps == [] then 0 else Rank(capacity, ps[0]) + Measure(capacity, ps[1..])
  }

  lemma {:induction false} MeasureUpdate(capacity: nat, ps: seq<Process>, i: nat, p: Process)
    requires i < |ps|
    ensures Measure(capacity, ps[i := p]) + Rank(capacity, ps[i]) == Measure(capacity, ps) + Rank(capacity, p)
    decreases |ps|
  {
    if i == 0 {
      assert ps[i := p][1..] == ps[1..];
    } else {
      assert ps[i := p][1..] == ps[1..][i - 1 := p];
      MeasureUpdate(capacity, ps[1..], i - 1, p);
    }
  }

  /** Every schedule is finite: its length is bounded by a number known at the start. */
  lemma {:induction false} RunsAreFinite(s: State, events: seq<Event>)
    requires CanRun(s, events)
    ensures |events| + Measure(s.capacity, Run(s, events).processes) <= Measure(s.capacity, s.processes)
    decreases |events|
  {
    if events != [] {
      var e := events[0];
      var next := Apply(s, e);
      MeasureUpdate(s.capacity, s.processes, e.who, next.processes[e.who]);
      RunsAreFinite(next, events[1..]);
    }
  }

  /** Nothing inside the pool can move, although somebody has not finished. */
  ghost predicate Stuck(s: State) {
    && !Final(s)
    && forall e :: Enabled(s, e) ==> e.Cancel?
  }

  predicate IsExclusive(task: Task) {
    task.Acquiring? || task.Exclusive? || task.Releasing? || task.Released?
  }

  /** A task never changes kind. */
  lemma {:induction false} RunKeepsKinds(s: State, events: seq<Event>)
    requires CanRun(s, events)
    ensures |Run(s, events).processes| == |s.processes| && Run(s, events).capacity == s.capacity
    ensures forall i :: 0 <= i < |s.processes| ==>
              (IsExclusive(Run(s, events).processes[i].task) <==> IsExclusive(s.processes[i].task))
    decreases |events|
  {
    if events != [] {
      RunKeepsKinds(Apply(s, events[0]), events[1..]);
    }
  }

  lemma {:induction false} SomebodyHolds(capacity: nat, ps: seq<Process>) returns (i: nat)
    requires TotalHeld(capacity, ps) > 0
    ensures i < |ps| && Held(capacity, ps[i].task) > 0
    decreases |ps|
  {
    if Held(capacity, ps[0].task) > 0 {
      i := 0;
    } else {
      var k := SomebodyHolds(capacity, ps[1..]);
      i := k + 1;
    }
  }

  /** A stuck pool is full, and two exclusive jobs each hold part of it. */
  lemma StuckMeansTwoCollectors(s: State) returns (i: nat, j: nat)
    requires Inv(s) && Stuck(s)
    ensures i < |s.processes| && j < |s.processes| && i != j
    ensures s.processes[i].task.Acquiring? && s.processes[j].task.Acquiring?
    ensures 0 < s.processes[i].task.held < s.capacity && 0 < s.processes[j].task.held < s.capacity
    ensures s.tokens == s.capacity >= 2
  {
    var unfinished :| 0 <= unfinished < |s.processes| &&
      !(s.processes[unfinished].task.Done? || s.processes[unfinished].task.Released?);
    StuckTask(s, unfinished);
    i := SomebodyHolds(s.capacity, s.processes);
    StuckTask(s, i);
    var without := s.processes[i := Process(Done, false)];
    TotalHeldUpdate(s.capacity, s.processes, i, Process(Done, false));
    j := SomebodyHolds(s.capacity, without);
    StuckTask(s, j);
  }

  lemma StuckTask(s: State, i: nat)
    requires Inv(s) && Stuck(s) && i < |s.processes|
    ensures var t := s.processes[i].task;
            || t.Done? || t.Released?
            || (t.Waiting? && s.tokens == s.capacity)
            || (t.Acquiring? && t.held < s.capacity && s.tokens == s.capacity)
  {
    TotalHeldAtLeast(s.capacity, s.processes, i);
    assert !Enabled(s, Take(i)) && !Enabled(s, Enter(i)) && !Enabled(s, Finish(i)) && !Enabled(s, Return(i));
  }

  ghost predicate TwoExclusive(s: State) {
    exists i, j :: 0 <= i < |s.processes| && 0 <= j < |s.processes| && i != j
                   && IsExclusive(s.processes[i].task) && IsExclusive(s.processes[j].task)
  }

  ghost predicate CanGetStuck(s: State) {
    exists events :: CanRun(s, events) && Stuck(Run(s, events))
  }

  lemma {:induction false} RunAppend(s: State, events: seq<Event>, e: Event)
    requires CanRun(s, events) && Enabled(Run(s, events), e)
    ensures CanRun(s, events + [e]) && Run(s, events + [e]) == Apply(Run(s, events), e)
    decreases |events|
  {
    if events == [] {
      assert events + [e] == [e];
      assert [e][1..] == [];
    } else {
      assert (events + [e])[1..] == events[1..] + [e];
      RunAppend(Apply(s, events[0]), events[1..], e);
    }
  }

  /** The first collector takes `n` tokens in a row. */
  lemma {:induction false} CollectSome(s: State, i: nat, n: nat) returns (events: seq<Event>)
    requires Initial(s) && i < |s.processes| && s.processes[i].task.Acquiring? && n <= s.capacity
    ensures CanRun(s, events)
    ensures Run(s, events) == State(s.capacity, n, s.processes[i := Process(Acquiring(n), false)])
  {
    if n == 0 {
      events := [];
      assert s.processes[i := Process(Acquiring(0), false)] == s.processes;
    } else {
      events := CollectSome(s, i, n - 1);
      RunAppend(s, events, Take(i));
      var before := Run(s, events);
      assert Apply(before, Take(i)).processes == s.processes[i := Process(Acquiring(n), false)];
      events := events + [Take(i)];
    }
  }

  /**
   Deadlock, exactly: a pool can get stuck if and only if it has at least two tokens and at least two
   exclusive jobs. With one exclusive job, or one token, some step is always enabled until all finish.
   */
  lemma DeadlockExactly(s: State)
    requires Initial(s)
    ensures CanGetStuck(s) <==> s.capacity >= 2 && TwoExclusive(s)
  {
    if CanGetStuck(s) {
      var events :| CanRun(s, events) && Stuck(Run(s, events));
      StuckNeedsTwo(s, events);
    }
    if s.capacity >= 2 && TwoExclusive(s) {
      var i, j :| 0 <= i < |s.processes| && 0 <= j < |s.processes| && i != j
                  && IsExclusive(s.processes[i].task) && IsExclusive(s.processes[j].task);
      var events := TwoGetStuck(s, i, j);
    }
  }

  lemma StuckNeedsTwo(s: State, events: seq<Event>)
    requires Initial(s) && CanRun(s, events) && Stuck(Run(s, events))
    ensures s.capacity >= 2 && TwoExclusive(s)
  {
    InitialInv(s);
    RunInv(s, events);
    var i, j := StuckMeansTwoCollectors(Run(s, events));
    RunKeepsKinds(s, events);
    assert IsExclusive(s.processes[i].task) && IsExclusive(s.processes[j].task);
  }

  lemma TwoGetStuck(s: State, i: nat, j: nat) returns (events: seq<Event>)
    requires Initial(s) && s.capacity >= 2
    requires i < |s.processes| && j < |s.processes| && i != j
    requires IsExclusive(s.processes[i].task) && IsExclusive(s.processes[j].task)
    ensures CanRun(s, events) && Stuck(Run(s, events))
  {
    var first := CollectSome(s, i, s.capacity - 1);
    RunAppend(s, first, Take(j));
    events := first + [Take(j)];
    var stuck := Run(s, events);
    assert stuck.tokens == s.capacity;
    assert stuck.processes[i] == Process(Acquiring(s.capacity - 1), false);
    assert stuck.processes[j] == Process(Acquiring(1), false);
    forall k | 0 <= k < |s.processes| && k != i && k != j ensures stuck.processes[k] == s.processes[k] {
    }
  }
}
