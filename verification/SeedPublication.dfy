/**
 Racing publishers of one content-addressed seed archive. Each publisher loops: look at the destination,
 accept it if its identity is right, otherwise try to rename its own staged file there without replacing.
 */
module SeedPublication {
  import opened Outcomes

  datatype Identity = Identity(sha256: string, size: nat)

  /** Where a publisher stands in its loop. */
  datatype Phase =
    | Opening
    | Comparing(bytes: Bytes)
    | Renaming
    | Confirming
    | SyncingDestination
    | SyncingSource
    | SyncingAgain
    | Published
    | Failed(at: Phase)

  /** `staged` is the publisher's own file, gone once renamed away; `apart` says it lay in another directory. */
  datatype Publisher = Publisher(phase: Phase, iteration: nat, staged: Option<Bytes>, identity: Identity, apart: bool)

  /** The destination file and, when a publisher put it there, which one. */
  datatype Placed = Placed(owner: Option<nat>, bytes: Bytes)

  /** `durable` says that a completed directory sync guarantees the destination after a crash. */
  datatype State = State(sha256: Bytes -> string, dest: Option<Placed>, durable: bool, publishers: seq<Publisher>)

  /** `fault` makes the operation of that moment fail. Appear and Remove are other processes at work. */
  datatype Event = Advance(who: nat, fault: bool) | Appear(bytes: Bytes) | Remove

  predicate Active(p: Publisher) {
    !p.phase.Published? && !p.phase.Failed?
  }

  predicate Enabled(s: State, e: Event) {
    match e
    case Advance(who, _) => who < |s.publishers| && Active(s.publishers[who])
    case Appear(_) => s.dest.None?
    case Remove => s.dest.Some?
  }

  function IdentityOf(s: State, bytes: Bytes): Identity {
    Identity(s.sha256(bytes), |bytes|)
  }

  function Move(s: State, who: nat, phase: Phase): State
    requires who < |s.publishers|
  {
    s.(publishers := s.publishers[who := s.publishers[who].(phase := phase)])
  }

  function Apply(s: State, e: Event): (r: State)
    requires Enabled(s, e)
  {
    match e
    case Appear(bytes) => s.(dest := Some(Placed(None, bytes)), durable := false)
    case Remove => s.(dest := None, durable := false)
    case Advance(who, fault) =>
      var p := s.publishers[who];
      if fault then Move(s, who, Failed(p.phase))
      else
        match p.phase
        case Opening =>
          if s.dest.Some? then Move(s, who, Comparing(s.dest.value.bytes)) else Move(s, who, Renaming)
        case Comparing(bytes) =>
          Move(s, who, if IdentityOf(s, bytes) == p.identity then Published else Failed(p.phase))
        case Renaming =>
          if p.staged.None? then Move(s, who, Failed(p.phase))
          else if s.dest.Some? then
            s.(publishers := s.publishers[who := p.(phase := Opening, iteration := p.iteration + 1)])
          else
            State(s.sha256, Some(Placed(Some(who), p.staged.value)), false,
                  s.publishers[who := p.(phase := Confirming, staged := None)])
        case Confirming =>
          Move(s, who, if s.dest.Some? && s.dest.value.owner == Some(who) then SyncingDestination else Failed(p.phase))
        case SyncingDestination =>
          Move(s, who, if p.apart then SyncingSource else SyncingAgain).(durable := s.dest.Some?)
        case SyncingSource => Move(s, who, SyncingAgain)
        case SyncingAgain => Move(s, who, Published).(durable := s.dest.Some?)
        case Published => s
        case Failed(_) => s
  }

  predicate CanRun(s: State, events: seq<Event>)
    decreases |events|
  {
    events == [] || (Enabled(s, events[0]) && CanRun(Apply(s, events[0]), events[1..]))
  }

  function Run(s: State, events: seq<Event>): (r: State)
    requires CanRun(s, events)
    ensures |r.publishers| == |s.publishers|
    decreases |events|
  {
    if events == [] then s else Run(Apply(s, events[0]), events[1..])
  }

  predicate NobodyRemoves(events: seq<Event>) {
    forall i :: 0 <= i < |events| ==> !events[i].Remove?
  }

  /** Any number of publishers at the top of their loops, each with a staged file of the identity it announces. */
  predicate Initial(s: State) {
    && (s.dest.None? ==> !s.durable) && (s.dest.Some? ==> s.dest.value.owner.None?)
    && forall i :: 0 <= i < |s.publishers| ==>
      var p := s.publishers[i];
      p.phase == Opening && p.iteration == 1 && p.staged.Some? && IdentityOf(s, p.staged.value) == p.identity
  }

  /** The publisher has renamed its file and is not done with it. */
  predicate Placing(phase: Phase) {
    phase.Confirming? || phase.SyncingDestination? || phase.SyncingSource? || phase.SyncingAgain?
  }

  /** What each publisher's position says about the destination. */
  predicate PublisherInv(s: State, i: nat)
    requires i < |s.publishers|
  {
    var p := s.publishers[i];
    && (p.staged.Some? ==> IdentityOf(s, p.staged.value) == p.identity)
    && (p.phase.Opening? || p.phase.Renaming? ==> p.staged.Some?)
    && 1 <= p.iteration <= 2
    && (p.iteration == 2 ==> s.dest.Some? && !p.phase.Renaming?)
    && (p.phase.Comparing? ==> s.dest.Some? && p.phase.bytes == s.dest.value.bytes)
    && (Placing(p.phase) ==>
          s.dest.Some? && s.dest.value.owner == Some(i) && IdentityOf(s, s.dest.value.bytes) == p.identity)
    && (s.dest.Some? && s.dest.value.owner == Some(i) ==>
          Placing(p.phase) || p.phase.Published? || p.phase.Failed?)
    && (p.phase.Published? ==> s.dest.Some? && IdentityOf(s, s.dest.value.bytes) == p.identity)
  }

  predicate Inv(s: State) {
    && (s.dest.Some? && s.dest.value.owner.Some? ==> s.dest.value.owner.value < |s.publishers|)
    && forall i :: 0 <= i < |s.publishers| ==> PublisherInv(s, i)
  }

  /** One step keeps the invariant and never changes a destination that is there. */
  lemma StepInv(s: State, e: Event)
    requires Inv(s) && Enabled(s, e) && !e.Remove?
    ensures Inv(Apply(s, e))
    ensures s.dest.Some? ==> Apply(s, e).dest == s.dest
  {
    var r := Apply(s, e);
    forall i | 0 <= i < |r.publishers| ensures PublisherInv(r, i) {
      assert PublisherInv(s, i);
      if e == Advance(i, true) || e == Advance(i, false) {
        OwnStep(s, e, i);
      } else {
        OthersStep(s, e, i);
      }
    }
    hide PublisherInv;
  }

  lemma OwnStep(s: State, e: Event, i: nat)
    requires Enabled(s, e) && e.Advance? && e.who == i && PublisherInv(s, i)
    ensures PublisherInv(Apply(s, e), i)
  {
  }

  lemma OthersStep(s: State, e: Event, i: nat)
    requires Enabled(s, e) && !e.Remove? && i < |s.publishers| && PublisherInv(s, i) && !(e.Advance? && e.who == i)
    ensures PublisherInv(Apply(s, e), i)
  {
  }

  lemma {:induction false} RunInv(s: State, events: seq<Event>)
    requires Inv(s) && CanRun(s, events) && NobodyRemoves(events)
    ensures Inv(Run(s, events))
    ensures s.dest.Some? ==> Run(s, events).dest == s.dest
    ensures |Run(s, events).publishers| == |s.publishers| && Run(s, events).sha256 == s.sha256
    decreases |events|
  {
    if events != [] {
      assert !events[0].Remove?;
      StepInv(s, events[0]);
      RunInv(Apply(s, events[0]), events[1..]);
    }
  }

  lemma {:induction false} RunSplit(s: State, first: seq<Event>, second: seq<Event>)
    requires CanRun(s, first) && CanRun(Run(s, first), second)
    ensures CanRun(s, first + second) && Run(s, first + second) == Run(Run(s, first), second)
    decreases |first|
  {
    if first == [] {
      assert first + second == second;
    } else {
      assert (first + second)[1..] == first[1..] + second;
      RunSplit(Apply(s, first[0]), first[1..], second);
    }
  }

  // ------------------------------------------------------------------ main results

  /** Once there, the destination never changes, whether it matches anybody's identity or not. */
  lemma DestinationIsImmutable(s: State, first: seq<Event>, second: seq<Event>)
    requires Initial(s) && CanRun(s, first) && CanRun(Run(s, first), second)
    requires NobodyRemoves(first) && NobodyRemoves(second)
    requires Run(s, first).dest.Some?
    ensures CanRun(s, first + second) && Run(s, first + second).dest == Run(s, first).dest
  {
    RunInv(s, first);
    RunInv(Run(s, first), second);
    RunSplit(s, first, second);
  }

  /** A publisher that reports success sees its own identity at the destination, from then on. */
  lemma SuccessSeesIdentity(s: State, events: seq<Event>, i: nat)
    requires Initial(s) && CanRun(s, events) && NobodyRemoves(events) && i < |s.publishers|
    requires Run(s, events).publishers[i].phase.Published?
    ensures var r := Run(s, events);
            r.dest.Some? && IdentityOf(r, r.dest.value.bytes) == r.publishers[i].identity
  {
    RunInv(s, events);
    assert PublisherInv(Run(s, events), i);
  }

  /** At some point of the run the publisher has got through this phase without a fault. */
  predicate Passed(s: State, events: seq<Event>, i: nat, phase: Phase)
    requires CanRun(s, events) && i < |s.publishers|
    decreases |events|
  {
    events != []
    && ((events[0] == Advance(i, false) && s.publishers[i].phase == phase)
        || Passed(Apply(s, events[0]), events[1..], i, phase))
  }

  function Stage(phase: Phase): nat {
    match phase
    case SyncingDestination => 1
    case SyncingSource => 2
    case SyncingAgain => 3
    case Published => 4
    case Failed(_) => 4
    case _ => 0
  }

  /** A publisher that has yet to come to a sync, and later reports success for its own file, comes through that sync. */
  lemma {:induction false} SyncsAhead(s: State, events: seq<Event>, i: nat, phase: Phase)
    requires Inv(s) && CanRun(s, events) && NobodyRemoves(events) && i < |s.publishers|
    requires phase.SyncingDestination? || (phase.SyncingSource? && s.publishers[i].apart) || phase.SyncingAgain?
    requires Stage(s.publishers[i].phase) <= Stage(phase)
    requires var r := Run(s, events); r.publishers[i].phase.Published? && r.dest.Some? && r.dest.value.owner == Some(i)
    ensures Passed(s, events, i, phase)
    decreases |events|
  {
    assert PublisherInv(s, i) && events != [];
    if !(events[0] == Advance(i, false) && s.publishers[i].phase == phase) {
      assert !events[0].Remove?;
      StepInv(s, events[0]);
      RunInv(Apply(s, events[0]), events[1..]);
      StaysBehind(s, events, i, phase);
      hide Apply, PublisherInv, Enabled;
      SyncsAhead(Apply(s, events[0]), events[1..], i, phase);
    }
  }

  lemma StaysBehind(s: State, events: seq<Event>, i: nat, phase: Phase)
    requires Inv(s) && CanRun(s, events) && NobodyRemoves(events) && events != [] && i < |s.publishers|
    requires phase.SyncingDestination? || (phase.SyncingSource? && s.publishers[i].apart) || phase.SyncingAgain?
    requires Stage(s.publishers[i].phase) <= Stage(phase)
    requires !(events[0] == Advance(i, false) && s.publishers[i].phase == phase)
    requires var r := Run(s, events); r.publishers[i].phase.Published? && r.dest.Some? && r.dest.value.owner == Some(i)
    ensures Stage(Apply(s, events[0]).publishers[i].phase) <= Stage(phase)
    ensures Apply(s, events[0]).publishers[i].apart == s.publishers[i].apart
  {
    assert PublisherInv(s, i) && !events[0].Remove?;
    var e, t := events[0], Apply(s, events[0]);
    StepInv(s, e);
    RunInv(t, events[1..]);
    if t.publishers[i].phase.Failed? {
      FailedForGood(t, events[1..], i);
    }
    hide Inv, Run, CanRun;
    assert t.dest.Some? ==> t.dest.value.owner == Some(i);
    NextStage(s, e, i, phase);
  }

  /** A step that neither fails nor passes the sync leaves it ahead, unless it finds somebody else's file. */
  lemma NextStage(s: State, e: Event, i: nat, phase: Phase)
    requires Enabled(s, e) && !e.Remove? && i < |s.publishers| && PublisherInv(s, i)
    requires phase.SyncingDestination? || (phase.SyncingSource? && s.publishers[i].apart) || phase.SyncingAgain?
    requires Stage(s.publishers[i].phase) <= Stage(phase) && !(e == Advance(i, false) && s.publishers[i].phase == phase)
    requires var t := Apply(s, e);
             !t.publishers[i].phase.Failed? && (t.dest.Some? ==> t.dest.value.owner == Some(i))
    ensures Stage(Apply(s, e).publishers[i].phase) <= Stage(phase)
    ensures Apply(s, e).publishers[i].apart == s.publishers[i].apart
  {
  }

  lemma {:induction false} FailedForGood(s: State, events: seq<Event>, i: nat)
    requires CanRun(s, events) && i < |s.publishers| && s.publishers[i].phase.Failed?
    ensures Run(s, events).publishers[i].phase.Failed?
    decreases |events|
  {
    if events != [] {
      FailedForGood(Apply(s, events[0]), events[1..], i);
    }
  }

  /**
   Success for a file of one's own is reported only after the destination's directory has been synced twice and, when
   it is another one, the source's directory as well.
   */
  lemma SuccessIsSynced(s: State, events: seq<Event>, i: nat)
    requires Initial(s) && CanRun(s, events) && NobodyRemoves(events) && i < |s.publishers|
    requires var r := Run(s, events); r.publishers[i].phase.Published? && r.dest.Some? && r.dest.value.owner == Some(i)
    ensures Passed(s, events, i, SyncingDestination) && Passed(s, events, i, SyncingAgain)
    ensures s.publishers[i].apart ==> Passed(s, events, i, SyncingSource)
  {
    SyncsAhead(s, events, i, SyncingDestination);
    SyncsAhead(s, events, i, SyncingAgain);
    if s.publishers[i].apart {
      SyncsAhead(s, events, i, SyncingSource);
    }
  }

  /** The file a publisher renamed is still the one it finds: the identity recheck cannot fail on its own. */
  lemma ConfirmationSucceeds(s: State, events: seq<Event>, i: nat)
    requires Initial(s) && CanRun(s, events) && NobodyRemoves(events) && i < |s.publishers|
    requires Run(s, events).publishers[i].phase.Confirming?
    ensures Apply(Run(s, events), Advance(i, false)).publishers[i].phase == SyncingDestination
  {
    RunInv(s, events);
    assert PublisherInv(Run(s, events), i);
  }

  // ---------------------------------------------------------------- runs without faults

  predicate NothingFails(events: seq<Event>) {
    forall i :: 0 <= i < |events| ==> !(events[i].Advance? && events[i].fault)
  }

  /** A publisher that gave up has found a file that is not the one it announced. */
  predicate FailuresAreMismatches(s: State) {
    forall i :: 0 <= i < |s.publishers| && s.publishers[i].phase.Failed? ==>
      s.dest.Some? && IdentityOf(s, s.dest.value.bytes) != s.publishers[i].identity
  }

  lemma FaultlessStep(s: State, e: Event)
    requires Inv(s) && FailuresAreMismatches(s) && Enabled(s, e) && !e.Remove? && !(e.Advance? && e.fault)
    ensures FailuresAreMismatches(Apply(s, e))
  {
    if e.Advance? {
      assert PublisherInv(s, e.who);
    }
  }

  lemma {:induction false} FaultlessRun(s: State, events: seq<Event>)
    requires Inv(s) && FailuresAreMismatches(s) && CanRun(s, events) && NobodyRemoves(events) && NothingFails(events)
    ensures FailuresAreMismatches(Run(s, events))
    decreases |events|
  {
    hide Apply, Enabled, Inv, FailuresAreMismatches;
    if events != [] {
      assert !events[0].Remove? && !(events[0].Advance? && events[0].fault);
      StepInv(s, events[0]);
      FaultlessStep(s, events[0]);
      FaultlessRun(Apply(s, events[0]), events[1..]);
    }
  }

  /**
   What a publisher reports when no operation fails and it has come to its end: success if and only if the archive at
   the destination is the one it announced. It comes to its end, as every run is finite and an unfinished one can step.
   */
  lemma FaultlessVerdict(s: State, events: seq<Event>, i: nat)
    requires Initial(s) && CanRun(s, events) && NobodyRemoves(events) && NothingFails(events) && i < |s.publishers|
    requires !Active(Run(s, events).publishers[i])
    ensures var r := Run(s, events);
            r.dest.Some? && (r.publishers[i].phase.Published? <==> IdentityOf(r, r.dest.value.bytes) == r.publishers[i].identity)
  {
    RunInv(s, events);
    FaultlessRun(s, events);
    assert PublisherInv(Run(s, events), i);
  }

  /** Publishers of one archive all succeed, whoever wins, unless somebody else puts another file there first. */
  lemma AllSucceedTogether(s: State, events: seq<Event>, identity: Identity, i: nat)
    requires Initial(s) && CanRun(s, events) && NobodyRemoves(events) && NothingFails(events) && i < |s.publishers|
    requires forall k :: 0 <= k < |s.publishers| ==> s.publishers[k].identity == identity
    requires !Active(Run(s, events).publishers[i])
    requires Run(s, events).dest.Some? && Run(s, events).dest.value.owner.Some?
    ensures Run(s, events).publishers[i].phase.Published?
  {
    var r := Run(s, events);
    FaultlessVerdict(s, events, i);
    RunInv(s, events);
    FaultlessRun(s, events);
    IdentitiesKept(s, events);
    var owner := r.dest.value.owner.value;
    assert PublisherInv(r, owner);
    PlacedOwn(s, events);
  }

  lemma {:induction false} IdentitiesKept(s: State, events: seq<Event>)
    requires CanRun(s, events)
    ensures forall i :: 0 <= i < |s.publishers| ==> Run(s, events).publishers[i].identity == s.publishers[i].identity
    decreases |events|
  {
    if events != [] {
      IdentitiesKept(Apply(s, events[0]), events[1..]);
    }
  }

  /** What a publisher has placed is what it announced. */
  predicate PlacedIsOwn(s: State) {
    s.dest.Some? && s.dest.value.owner.Some? && s.dest.value.owner.value < |s.publishers| ==>
      IdentityOf(s, s.dest.value.bytes) == s.publishers[s.dest.value.owner.value].identity
  }

  lemma {:induction false} PlacedFrom(s: State, events: seq<Event>)
    requires Inv(s) && PlacedIsOwn(s) && CanRun(s, events) && NobodyRemoves(events)
    ensures PlacedIsOwn(Run(s, events))
    decreases |events|
  {
    if events != [] {
      assert !events[0].Remove?;
      StepInv(s, events[0]);
      PlacedStep(s, events[0]);
      hide Apply, Inv, PlacedIsOwn, Enabled;
      PlacedFrom(Apply(s, events[0]), events[1..]);
    }
  }

  lemma PlacedStep(s: State, e: Event)
    requires Inv(s) && PlacedIsOwn(s) && Enabled(s, e) && !e.Remove?
    ensures PlacedIsOwn(Apply(s, e))
  {
    if e.Advance? {
      assert PublisherInv(s, e.who);
    }
  }

  lemma PlacedOwn(s: State, events: seq<Event>)
    requires Initial(s) && CanRun(s, events) && NobodyRemoves(events)
    ensures PlacedIsOwn(Run(s, events))
  {
    PlacedFrom(s, events);
  }

  /** No publisher goes round its loop more than twice. */
  lemma AtMostTwoIterations(s: State, events: seq<Event>, i: nat)
    requires Initial(s) && CanRun(s, events) && NobodyRemoves(events) && i < |s.publishers|
    ensures Run(s, events).publishers[i].iteration <= 2
  {
    RunInv(s, events);
    assert PublisherInv(Run(s, events), i);
  }

  /** Steps left to one publisher. */
  function Rank(p: Publisher): nat {
    var again := if p.iteration <= 1 then 7 else 0;
    match p.phase
    case Opening => again + 6
    case Renaming => again + 5
    case Comparing(_) => 1
    case Confirming => 4
    case SyncingDestination => 3
    case SyncingSource => 2
    case SyncingAgain => 1
    case Published => 0
    case Failed(_) => 0
  }

  function Measure(ps: seq<Publisher>): nat {
    if ps == [] then 0 else Rank(ps[0]) + Measure(ps[1..])
  }

  lemma {:induction false} MeasureUpdate(ps: seq<Publisher>, i: nat, p: Publisher)
    requires i < |ps|
    ensures Measure(ps[i := p]) + Rank(ps[i]) == Measure(ps) + Rank(p)
    decreases |ps|
  {
    if i == 0 {
      assert ps[i := p][1..] == ps[1..];
    } else {
      assert ps[i := p][1..] == ps[1..][i - 1 := p];
      MeasureUpdate(ps[1..], i - 1, p);
    }
  }

  function Potential(s: State): nat {
    Measure(s.publishers) + (if s.dest.None? then 1 else 0)
  }

  lemma RankDescends(s: State, e: Event)
    requires Enabled(s, e) && e.Advance? && PublisherInv(s, e.who)
    ensures Rank(Apply(s, e).publishers[e.who]) < Rank(s.publishers[e.who])
  {
  }

  lemma StepDescends(s: State, e: Event)
    requires Inv(s) && Enabled(s, e) && !e.Remove?
    ensures Potential(Apply(s, e)) < Potential(s)
  {
    if e.Advance? {
      assert PublisherInv(s, e.who);
      RankDescends(s, e);
      hide Rank, PublisherInv;
      MeasureUpdate(s.publishers, e.who, Apply(s, e).publishers[e.who]);
    }
  }

  /** Every publisher finishes: without removals a run is bounded, however the publishers interleave. */
  lemma {:induction false} RunsAreFinite(s: State, events: seq<Event>)
    requires Inv(s) && CanRun(s, events) && NobodyRemoves(events)
    ensures |events| + Potential(Run(s, events)) <= Potential(s)
    decreases |events|
  {
    hide Apply, Potential, PublisherInv, Enabled;
    if events != [] {
      assert !events[0].Remove?;
      StepInv(s, events[0]);
      StepDescends(s, events[0]);
      RunsAreFinite(Apply(s, events[0]), events[1..]);
    }
  }

  /** A run taken from its first event on. */
  lemma RunFirst(s: State, e: Event, rest: seq<Event>)
    requires Enabled(s, e) && CanRun(Apply(s, e), rest)
    ensures CanRun(s, [e] + rest) && Run(s, [e] + rest) == Run(Apply(s, e), rest)
  {
    assert ([e] + rest)[1..] == rest;
    hide Apply, Enabled;
  }

  function Next(s: State): State
    requires |s.publishers| > 0
  {
    s.(publishers := s.publishers[0 := s.publishers[0].(iteration := s.publishers[0].iteration + 1)])
  }

  lemma LapStates(s: State, bytes: Bytes)
    requires s.dest.None? && !s.durable && |s.publishers| > 0 && s.publishers[0].phase.Opening? && s.publishers[0].staged.Some?
    ensures var one := Apply(s, Advance(0, false));
            && Enabled(one, Appear(bytes))
            && Enabled(Apply(one, Appear(bytes)), Advance(0, false))
            && Apply(Apply(one, Appear(bytes)), Advance(0, false)) == Next(s).(dest := Some(Placed(None, bytes)))
  {
    var one := Apply(s, Advance(0, false));
    assert one == Move(s, 0, Renaming);
    var three := Apply(Apply(one, Appear(bytes)), Advance(0, false));
    assert three.publishers == Next(s).publishers;
  }

  /** One lap: the destination appears between the look and the rename, then is removed again. */
  lemma Lap(s: State, bytes: Bytes)
    requires s.dest.None? && !s.durable && |s.publishers| > 0 && s.publishers[0].phase.Opening? && s.publishers[0].staged.Some?
    ensures CanRun(s, [Advance(0, false), Appear(bytes), Advance(0, false), Remove])
    ensures Run(s, [Advance(0, false), Appear(bytes), Advance(0, false), Remove]) == Next(s)
  {
    LapStates(s, bytes);
    var one := Apply(s, Advance(0, false));
    var two := Apply(one, Appear(bytes));
    var three := Apply(two, Advance(0, false));
    assert Enabled(three, Remove) && Apply(three, Remove) == Next(s);
    assert Enabled(s, Advance(0, false));
    hide Apply, Enabled, Next;
    RunFirst(three, Remove, []);
    RunFirst(two, Advance(0, false), [Remove] + []);
    RunFirst(one, Appear(bytes), [Advance(0, false)] + ([Remove] + []));
    RunFirst(s, Advance(0, false), [Appear(bytes)] + ([Advance(0, false)] + ([Remove] + [])));
    assert [Advance(0, false)] + ([Appear(bytes)] + ([Advance(0, false)] + ([Remove] + [])))
        == [Advance(0, false), Appear(bytes), Advance(0, false), Remove];
  }

  /** The bound needs its assumption: when others may remove the file, the loop can be made to run any number of times. */
  lemma {:induction false} RemovalDefeatsTheBound(s: State, bytes: Bytes, laps: nat) returns (events: seq<Event>)
    requires Initial(s) && s.dest.None? && |s.publishers| > 0
    ensures CanRun(s, events)
    ensures Run(s, events) == s.(publishers := s.publishers[0 := s.publishers[0].(iteration := 1 + laps)])
  {
    if laps == 0 {
      events := [];
      assert s.publishers[0 := s.publishers[0].(iteration := 1)] == s.publishers;
    } else {
      var before := RemovalDefeatsTheBound(s, bytes, laps - 1);
      var mid := Run(s, before);
      Lap(mid, bytes);
      var lap := [Advance(0, false), Appear(bytes), Advance(0, false), Remove];
      RunSplit(s, before, lap);
      events := before + lap;
      assert mid.publishers[0 := mid.publishers[0].(iteration := 1 + laps)]
          == s.publishers[0 := s.publishers[0].(iteration := 1 + laps)];
    }
  }

  // ------------------------------------------------------------------------- crashes

  /** The publisher's first directory sync is behind it, whatever became of it afterwards. */
  predicate PastFirstSync(phase: Phase) {
    || phase.SyncingSource? || phase.SyncingAgain? || phase.Published?
    || (phase.Failed? && (phase.at.SyncingSource? || phase.at.SyncingAgain?))
  }

  /** The publisher that placed the destination got past its first directory sync. */
  predicate OwnerSynced(s: State) {
    && s.dest.Some? && s.dest.value.owner.Some? && s.dest.value.owner.value < |s.publishers|
    && PastFirstSync(s.publishers[s.dest.value.owner.value].phase)
  }

  /** A destination found at the start keeps its guarantee; a later one gets it from its owner's sync alone. */
  predicate DurableInv(start: State, s: State) {
    && (start.dest.Some? ==> s.dest == start.dest && start.dest.value.owner.None?)
    && (s.dest.None? ==> !s.durable)
    && (s.durable <==> (start.dest.Some? && start.durable) || OwnerSynced(s))
  }

  lemma StepDurable(start: State, s: State, e: Event)
    requires Inv(s) && DurableInv(start, s) && Enabled(s, e) && !e.Remove?
    ensures DurableInv(start, Apply(s, e))
  {
    if e.Advance? {
      assert PublisherInv(s, e.who);
    }
  }

  lemma {:induction false} RunDurable(start: State, s: State, events: seq<Event>)
    requires Inv(s) && DurableInv(start, s) && CanRun(s, events) && NobodyRemoves(events)
    ensures DurableInv(start, Run(s, events))
    decreases |events|
  {
    hide Apply, Enabled, Inv, DurableInv;
    if events != [] {
      assert !events[0].Remove?;
      StepInv(s, events[0]);
      StepDurable(start, s, events[0]);
      RunDurable(start, Apply(s, events[0]), events[1..]);
    }
  }

  /**
   When a reported success survives a crash, exactly: if and only if the file was there and durable from the start,
   or the publisher that placed it got past its first directory sync.
   */
  lemma SuccessSurvivesExactly(s: State, events: seq<Event>, i: nat)
    requires Initial(s) && CanRun(s, events) && NobodyRemoves(events) && i < |s.publishers|
    requires Run(s, events).publishers[i].phase.Published?
    ensures Run(s, events).durable <==> (s.dest.Some? && s.durable) || OwnerSynced(Run(s, events))
  {
    RunInv(s, events);
    RunDurable(s, s, events);
  }

  /** What a caller can see of it: every success survives once the publisher that placed the file reported its own. */
  lemma OwnerSuccessSuffices(s: State, events: seq<Event>, i: nat)
    requires Initial(s) && CanRun(s, events) && NobodyRemoves(events) && i < |s.publishers|
    requires Run(s, events).publishers[i].phase.Published?
    requires Run(s, events).dest.Some? && Run(s, events).dest.value.owner == Some(i)
    ensures Run(s, events).durable
  {
    SuccessSurvivesExactly(s, events, i);
  }

  function Fresh(sha256: Bytes -> string, bytes: Bytes): Publisher {
    Publisher(Opening, 1, Some(bytes), Identity(sha256(bytes), |bytes|), true)
  }

  /** Two publishers of the same bytes, the first with its file in place. */
  function Ahead(sha256: Bytes -> string, bytes: Bytes, phase: Phase, durable: bool): State {
    State(sha256, Some(Placed(Some(0), bytes)), durable,
          [Fresh(sha256, bytes).(phase := phase, staged := None), Fresh(sha256, bytes)])
  }

  lemma FirstPlaces(sha256: Bytes -> string, bytes: Bytes)
    ensures var s := State(sha256, None, false, [Fresh(sha256, bytes), Fresh(sha256, bytes)]);
            && Initial(s) && CanRun(s, [Advance(0, false), Advance(0, false)])
            && Run(s, [Advance(0, false), Advance(0, false)]) == Ahead(sha256, bytes, Confirming, false)
  {
    var s := State(sha256, None, false, [Fresh(sha256, bytes), Fresh(sha256, bytes)]);
    var one := Apply(s, Advance(0, false));
    assert one == Move(s, 0, Renaming);
    assert Apply(one, Advance(0, false)) == Ahead(sha256, bytes, Confirming, false);
    RunFirst(one, Advance(0, false), []);
    RunFirst(s, Advance(0, false), [Advance(0, false)] + []);
    assert [Advance(0, false)] + ([Advance(0, false)] + []) == [Advance(0, false), Advance(0, false)];
  }

  /** Whatever the first publisher does next, the second finds the file and reports success. */
  lemma SecondMatches(sha256: Bytes -> string, bytes: Bytes, phase: Phase, durable: bool)
    ensures var s := Ahead(sha256, bytes, phase, durable);
            && CanRun(s, [Advance(1, false), Advance(1, false)])
            && Run(s, [Advance(1, false), Advance(1, false)]) == Move(s, 1, Published)
  {
    var s := Ahead(sha256, bytes, phase, durable);
    var one := Apply(s, Advance(1, false));
    assert one == Move(s, 1, Comparing(bytes));
    assert Apply(one, Advance(1, false)) == Move(s, 1, Published);
    RunFirst(one, Advance(1, false), []);
    RunFirst(s, Advance(1, false), [Advance(1, false)] + []);
    assert [Advance(1, false)] + ([Advance(1, false)] + []) == [Advance(1, false), Advance(1, false)];
  }

  /**
   The failing run: the first publisher renames its file, the second finds it, compares it and reports success, and
   at that moment nothing guarantees the archive after a crash.
   */
  lemma MatchedBeforeSync(sha256: Bytes -> string, bytes: Bytes)
    ensures var s := State(sha256, None, false, [Fresh(sha256, bytes), Fresh(sha256, bytes)]);
            var events := [Advance(0, false), Advance(0, false)] + [Advance(1, false), Advance(1, false)];
            && Initial(s) && CanRun(s, events) && NobodyRemoves(events)
            && Run(s, events).publishers[1].phase.Published? && !Run(s, events).durable
  {
    var s := State(sha256, None, false, [Fresh(sha256, bytes), Fresh(sha256, bytes)]);
    FirstPlaces(sha256, bytes);
    SecondMatches(sha256, bytes, Confirming, false);
    RunSplit(s, [Advance(0, false), Advance(0, false)], [Advance(1, false), Advance(1, false)]);
  }

  lemma FirstFailsLate(sha256: Bytes -> string, bytes: Bytes)
    ensures var s := Ahead(sha256, bytes, Confirming, false);
            var events := [Advance(0, false), Advance(0, false), Advance(0, true)];
            CanRun(s, events) && Run(s, events) == Ahead(sha256, bytes, Failed(SyncingSource), true)
  {
    var s := Ahead(sha256, bytes, Confirming, false);
    var one := Ahead(sha256, bytes, SyncingDestination, false);
    var two := Ahead(sha256, bytes, SyncingSource, true);
    assert Apply(s, Advance(0, false)) == one;
    assert Apply(one, Advance(0, false)) == two;
    assert Apply(two, Advance(0, true)) == Ahead(sha256, bytes, Failed(SyncingSource), true);
    RunFirst(two, Advance(0, true), []);
    RunFirst(one, Advance(0, false), [Advance(0, true)] + []);
    RunFirst(s, Advance(0, false), [Advance(0, false)] + ([Advance(0, true)] + []));
    assert [Advance(0, false)] + ([Advance(0, false)] + ([Advance(0, true)] + []))
        == [Advance(0, false), Advance(0, false), Advance(0, true)];
  }

  /** The owner's success is not needed: it fails at its second sync, and the other's success survives all the same. */
  lemma FailedOwnerSuffices(sha256: Bytes -> string, bytes: Bytes)
    ensures var s := State(sha256, None, false, [Fresh(sha256, bytes), Fresh(sha256, bytes)]);
            var events := [Advance(0, false), Advance(0, false)] + ([Advance(0, false), Advance(0, false), Advance(0, true)]
                          + [Advance(1, false), Advance(1, false)]);
            && Initial(s) && CanRun(s, events) && NobodyRemoves(events)
            && Run(s, events).publishers[0].phase.Failed?
            && Run(s, events).publishers[1].phase.Published? && Run(s, events).durable
  {
    var s := State(sha256, None, false, [Fresh(sha256, bytes), Fresh(sha256, bytes)]);
    FirstPlaces(sha256, bytes);
    FirstFailsLate(sha256, bytes);
    SecondMatches(sha256, bytes, Failed(SyncingSource), true);
    RunSplit(Ahead(sha256, bytes, Confirming, false), [Advance(0, false), Advance(0, false), Advance(0, true)],
             [Advance(1, false), Advance(1, false)]);
    RunSplit(s, [Advance(0, false), Advance(0, false)],
             [Advance(0, false), Advance(0, false), Advance(0, true)] + [Advance(1, false), Advance(1, false)]);
  }
}
