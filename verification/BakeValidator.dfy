/**
 The Bake target validator: a depth-first search that alternates between targets and the Dockerfile
 stages they build, and appends to one list of problems.
 */
module BakeValidator {
  import opened Outcomes
  import opened BakeReferences

  // ------------------------------------------------- what the search maintains

  predicate ReportsCycle(problems: seq<Problem>) {
    exists i :: 0 <= i < |problems| && problems[i].Cycle?
  }

  /** Everything wrong with the target itself is on the list. */
  ghost predicate FaultsReported(w: World, problems: seq<Problem>, name: string) {
    forall p :: Fault(w, name, p) ==> p in problems
  }

  /** A dependency has been dealt with: finished, absent, or the subject of a report. */
  ghost predicate Handled(w: World, trail: seq<string>, order: seq<string>, problems: seq<Problem>, name: string) {
    || name in order
    || name !in w.targets
    || (!Active(w, name) && FaultsReported(w, problems, name))
    || (name in trail && ReportsCycle(problems))
  }

  /** Everything a finished target refers to is dealt with, before it in `order` as long as no cycle was reported. */
  ghost predicate FinishedWell(w: World, trail: seq<string>, order: seq<string>, problems: seq<Problem>, k: nat)
    requires k < |order|
  {
    && Active(w, order[k])
    && (forall b :: Edge(w, order[k], b) ==> Handled(w, trail, order, problems, b))
    && (!ReportsCycle(problems) ==> forall b :: Edge(w, order[k], b) && Active(w, b) ==> b in order[..k])
    && FaultsReported(w, problems, order[k])
  }

  ghost predicate Distinct(names: seq<string>) {
    forall i, j :: 0 <= i < j < |names| ==> names[i] != names[j]
  }

  /** Every report is about something real. */
  ghost predicate Justified(w: World, roots: seq<string>, problems: seq<Problem>) {
    forall p :: p in problems ==> Real(w, roots, p)
  }

  /** A cycle is reported at a target that lies on one; anything else is a fault of a reachable target. */
  ghost predicate Real(w: World, roots: seq<string>, p: Problem) {
    if p.Cycle? then OnCycle(w, roots, p.target)
    else exists name :: ReachableTarget(w, roots, name) && Fault(w, name, p)
  }

  ghost predicate Inv(w: World, roots: seq<string>, trail: seq<string>, order: seq<string>, problems: seq<Problem>) {
    && Distinct(trail)
    && Distinct(order)
    && IsWalk(w, trail)
    && (trail != [] ==> trail[0] in roots)
    && (forall name :: name in trail ==> Active(w, name) && name !in order)
    && (forall k :: 0 <= k < |order| ==> FinishedWell(w, trail, order, problems, k))
    && Justified(w, roots, problems)
  }

  /** The search only ever adds; the trail is restored on return. */
  ghost predicate Grows(order: seq<string>, problems: seq<Problem>, order': seq<string>, problems': seq<Problem>) {
    order <= order' && problems <= problems'
  }

  lemma GrowsKeepsReports(problems: seq<Problem>, problems': seq<Problem>)
    requires problems <= problems' && ReportsCycle(problems)
    ensures ReportsCycle(problems')
  {
    var i :| 0 <= i < |problems| && problems[i].Cycle?;
    assert problems'[i].Cycle?;
  }

  lemma FaultsStayReported(w: World, problems: seq<Problem>, problems': seq<Problem>, name: string)
    requires FaultsReported(w, problems, name) && problems <= problems'
    ensures FaultsReported(w, problems', name)
  {
    hide Fault;
    forall p | Fault(w, name, p) ensures p in problems' {
      var i :| 0 <= i < |problems| && problems[i] == p;
      assert problems'[i] == p;
    }
  }

  lemma HandledMonotone(w: World, trail: seq<string>, order: seq<string>, problems: seq<Problem>,
                        order': seq<string>, problems': seq<Problem>, name: string)
    requires Handled(w, trail, order, problems, name) && Grows(order, problems, order', problems')
    ensures Handled(w, trail, order', problems', name)
  {
    if name in order {
      var i :| 0 <= i < |order| && order[i] == name;
      assert order'[i] == name;
    } else if name in trail && ReportsCycle(problems) {
      GrowsKeepsReports(problems, problems');
    } else if FaultsReported(w, problems, name) {
      FaultsStayReported(w, problems, problems', name);
    }
  }

  /** A trail with a real root makes every name on it reachable. */
  lemma {:induction false} TrailReachable(w: World, roots: seq<string>, trail: seq<string>)
    requires trail != [] && IsWalk(w, trail) && trail[0] in roots
    ensures ReachableTarget(w, roots, trail[|trail| - 1])
  {
  }

  /** The target the search looks at next is reachable. */
  lemma AheadReachable(w: World, roots: seq<string>, trail: seq<string>, order: seq<string>,
                       problems: seq<Problem>, name: string)
    requires Inv(w, roots, trail, order, problems)
    requires (trail != [] && trail[|trail| - 1] == name)
             || if trail == [] then name in roots else Edge(w, trail[|trail| - 1], name)
    ensures ReachableTarget(w, roots, name)
  {
    hide Edge, IsWalk, FinishedWell, Justified, Active, ReachableTarget;
    if trail == [] {
      ReachableRoot(w, roots, name);
    } else {
      TrailReachable(w, roots, trail);
      if trail[|trail| - 1] != name {
        ReachableNext(w, roots, trail[|trail| - 1], name);
      }
    }
  }

  /** Appending a problem the graph really has. */
  lemma ReportKeepsInv(w: World, roots: seq<string>, trail: seq<string>, order: seq<string>,
                       problems: seq<Problem>, p: Problem)
    requires Inv(w, roots, trail, order, problems) && Real(w, roots, p)
    ensures Inv(w, roots, trail, order, problems + [p])
    ensures p.Cycle? ==> ReportsCycle(problems + [p])
  {
    hide Real, FaultsReported, Edge, IsWalk, Active;
    var after := problems + [p];
    assert after[|problems|] == p;
    if ReportsCycle(after) && !p.Cycle? {
      var i :| 0 <= i < |after| && after[i].Cycle?;
      assert problems[i].Cycle?;
    }
    forall k | 0 <= k < |order| ensures FinishedWell(w, trail, order, after, k) {
      assert FinishedWell(w, trail, order, problems, k);
      forall b | Edge(w, order[k], b) ensures Handled(w, trail, order, after, b) {
        HandledMonotone(w, trail, order, problems, order, after, b);
      }
      FaultsStayReported(w, problems, after, order[k]);
      if ReportsCycle(problems) {
        GrowsKeepsReports(problems, after);
      }
    }
  }

  /** Starting on a target that is neither finished nor on the trail. */
  lemma EnterKeepsInv(w: World, roots: seq<string>, trail: seq<string>, order: seq<string>,
                      problems: seq<Problem>, name: string)
    requires Inv(w, roots, trail, order, problems)
    requires Active(w, name) && name !in trail && name !in order
    requires if trail == [] then name in roots else Edge(w, trail[|trail| - 1], name)
    ensures Inv(w, roots, trail + [name], order, problems)
  {
    hide Edge, FinishedWell, Justified, Active;
    var longer := trail + [name];
    assert longer[..|longer| - 1] == trail;
    assert IsWalk(w, longer);
    forall k | 0 <= k < |order| ensures FinishedWell(w, longer, order, problems, k) {
      EnterKeepsFinished(w, trail, order, problems, name, k);
    }
    hide IsWalk;
  }

  lemma EnterKeepsFinished(w: World, trail: seq<string>, order: seq<string>, problems: seq<Problem>,
                           name: string, k: nat)
    requires k < |order| && FinishedWell(w, trail, order, problems, k)
    ensures FinishedWell(w, trail + [name], order, problems, k)
  {
    hide Edge, FaultsReported;
    forall b | Edge(w, order[k], b) ensures Handled(w, trail + [name], order, problems, b) {
      assert Handled(w, trail, order, problems, b);
    }
  }

  /** Finishing the target at the end of the trail. */
  lemma LeaveKeepsInv(w: World, roots: seq<string>, trail: seq<string>, order: seq<string>,
                      problems: seq<Problem>, name: string)
    requires Inv(w, roots, trail + [name], order, problems)
    requires forall b :: Edge(w, name, b) ==> Handled(w, trail + [name], order, problems, b)
    requires FaultsReported(w, problems, name)
    ensures Inv(w, roots, trail, order + [name], problems)
  {
    hide Edge, FinishedWell, Justified, Active, Handled, FaultsReported;
    var longer, after := trail + [name], order + [name];
    assert longer[..|longer| - 1] == trail;
    assert longer[|trail|] == name && name in longer;
    assert forall i :: 0 <= i < |trail| ==> longer[i] == trail[i];
    forall k | 0 <= k < |after| ensures FinishedWell(w, trail, after, problems, k) {
      if k < |order| {
        LeaveKeepsFinished(w, trail, order, problems, name, k);
      } else {
        LeaveFinishes(w, trail, order, problems, name);
      }
    }
    forall n | n in trail ensures n in longer && n !in after {
      var i :| 0 <= i < |trail| && trail[i] == n;
      assert longer[i] == n && longer[|trail|] == name;
    }
  }

  lemma LeaveHandled(w: World, trail: seq<string>, order: seq<string>, problems: seq<Problem>,
                     name: string, b: string)
    requires Handled(w, trail + [name], order, problems, b)
    ensures Handled(w, trail, order + [name], problems, b)
  {
    if b in trail + [name] && b != name {
      assert b in trail;
    }
  }

  lemma LeaveKeepsFinished(w: World, trail: seq<string>, order: seq<string>, problems: seq<Problem>,
                           name: string, k: nat)
    requires k < |order| && FinishedWell(w, trail + [name], order, problems, k)
    ensures FinishedWell(w, trail, order + [name], problems, k)
  {
    hide Edge, FaultsReported;
    assert (order + [name])[..k] == order[..k];
    forall b | Edge(w, order[k], b) ensures Handled(w, trail, order + [name], problems, b) {
      LeaveHandled(w, trail, order, problems, name, b);
    }
  }

  lemma LeaveFinishes(w: World, trail: seq<string>, order: seq<string>, problems: seq<Problem>, name: string)
    requires Active(w, name)
    requires forall b :: Edge(w, name, b) ==> Handled(w, trail + [name], order, problems, b)
    requires FaultsReported(w, problems, name)
    ensures FinishedWell(w, trail, order + [name], problems, |order|)
  {
    hide Edge, FaultsReported;
    assert (order + [name])[..|order|] == order;
    forall b | Edge(w, name, b) ensures Handled(w, trail, order + [name], problems, b) {
      LeaveHandled(w, trail, order, problems, name, b);
    }
  }

  /** Meeting a target that is already on the trail closes a real cycle. */
  lemma TrailCycle(w: World, roots: seq<string>, trail: seq<string>, k: nat, name: string)
    requires k < |trail| && trail[k] == name && IsWalk(w, trail) && trail[0] in roots
    requires Edge(w, trail[|trail| - 1], name)
    ensures OnCycle(w, roots, name)
  {
    TrailReaches(w, roots, trail, k);
    var loop := TrailLoop(w, trail, k, name);
  }

  lemma TrailReaches(w: World, roots: seq<string>, trail: seq<string>, k: nat)
    requires k < |trail| && IsWalk(w, trail) && trail[0] in roots
    ensures ReachableTarget(w, roots, trail[k])
  {
    WalkPrefix(w, trail, k);
    var prefix := trail[..k + 1];
    assert prefix[|prefix| - 1] == trail[k];
  }

  lemma TrailLoop(w: World, trail: seq<string>, k: nat, name: string) returns (loop: seq<string>)
    requires k < |trail| && trail[k] == name && IsWalk(w, trail) && Edge(w, trail[|trail| - 1], name)
    ensures |loop| >= 2 && loop[0] == name == loop[|loop| - 1] && IsWalk(w, loop)
  {
    hide Edge;
    WalkSuffix(w, trail, k);
    loop := trail[k..] + [name];
    assert loop[..|loop| - 1] == trail[k..];
  }

  lemma {:induction false} WalkPrefix(w: World, walk: seq<string>, k: nat)
    requires IsWalk(w, walk) && k < |walk|
    ensures IsWalk(w, walk[..k + 1])
    decreases |walk|
  {
    if k + 1 == |walk| {
      assert walk[..k + 1] == walk;
    } else {
      WalkPrefix(w, walk[..|walk| - 1], k);
      assert walk[..|walk| - 1][..k + 1] == walk[..k + 1];
    }
  }

  lemma {:induction false} WalkSuffix(w: World, walk: seq<string>, k: nat)
    requires IsWalk(w, walk) && k < |walk|
    ensures IsWalk(w, walk[k..])
    decreases |walk|
  {
    hide Edge;
    if k + 1 < |walk| {
      WalkSuffix(w, walk[..|walk| - 1], k);
      var tail := walk[k..];
      assert tail[..|tail| - 1] == walk[..|walk| - 1][k..];
      assert tail[|tail| - 2] == walk[|walk| - 2];
    }
  }

  // ------------------------------------------------------------------ stages

  /** One item of a stage has been followed. */
  ghost predicate ItemDone(w: World, name: string, trail: seq<string>, order: seq<string>, problems: seq<Problem>,
                           stage: nat, item: Item, seen: set<nat>)
    requires Parses(w, name)
  {
    match Resolve(w, name, w.targets[name], Stages(w, name), stage, item)
    case Fine => true
    case ToStage(next) => next in seen
    case ToTarget(b) => Handled(w, trail, order, problems, b)
    case Bad(p) => p in problems
  }

  ghost predicate StageDone(w: World, name: string, trail: seq<string>, order: seq<string>, problems: seq<Problem>,
                            stage: nat, seen: set<nat>)
    requires Parses(w, name)
  {
    && stage < |Stages(w, name)|
    && forall item :: item in Items(Stages(w, name)[stage]) ==>
         ItemDone(w, name, trail, order, problems, stage, item, seen)
  }

  lemma StageDoneMonotone(w: World, name: string, trail: seq<string>,
                          order: seq<string>, problems: seq<Problem>, seen: set<nat>,
                          order': seq<string>, problems': seq<Problem>, seen': set<nat>, stage: nat)
    requires Parses(w, name)
    requires StageDone(w, name, trail, order, problems, stage, seen)
    requires Grows(order, problems, order', problems') && seen <= seen'
    ensures StageDone(w, name, trail, order', problems', stage, seen')
  {
    forall item | item in Items(Stages(w, name)[stage])
      ensures ItemDone(w, name, trail, order', problems', stage, item, seen')
    {
      ItemDoneMonotone(w, name, trail, order, problems, seen, order', problems', seen', stage, item);
    }
  }

  lemma ItemDoneMonotone(w: World, name: string, trail: seq<string>,
                         order: seq<string>, problems: seq<Problem>, seen: set<nat>,
                         order': seq<string>, problems': seq<Problem>, seen': set<nat>, stage: nat, item: Item)
    requires Parses(w, name)
    requires ItemDone(w, name, trail, order, problems, stage, item, seen)
    requires Grows(order, problems, order', problems') && seen <= seen'
    ensures ItemDone(w, name, trail, order', problems', stage, item, seen')
  {
    var r := Resolve(w, name, w.targets[name], Stages(w, name), stage, item);
    hide Resolve, Handled;
    if r.ToTarget? {
      HandledMonotone(w, trail, order, problems, order', problems', r.name);
    } else if r.Bad? {
      var i :| 0 <= i < |problems| && problems[i] == r.problem;
      assert problems'[i] == r.problem;
    }
  }

  ghost predicate AllDone(w: World, name: string, trail: seq<string>, order: seq<string>,
                          problems: seq<Problem>, seen: set<nat>)
    requires Parses(w, name)
  {
    forall stage :: stage in seen ==> StageDone(w, name, trail, order, problems, stage, seen)
  }

  ghost predicate SeenClosed(w: World, name: string, seen: set<nat>)
    requires Parses(w, name)
  {
    forall stage, next :: stage in seen && stage < |Stages(w, name)| && StepsTo(w, name, stage, next) ==>
                            next in seen
  }

  /** A source that is mentioned has been followed to where it leads. */
  lemma MentionDone(w: World, name: string, trail: seq<string>, order: seq<string>, problems: seq<Problem>,
                    stage: nat, text: string, seen: set<nat>)
    requires Parses(w, name) && StageDone(w, name, trail, order, problems, stage, seen)
    requires Mentions(Stages(w, name)[stage], text)
    ensures var t, stages := w.targets[name], Stages(w, name);
            && (forall next: nat :: MeansStage(w, t, stages, stage, text, next) ==> next in seen)
            && (forall b :: MeansTarget(w, t, stages, text, b) ==> Handled(w, trail, order, problems, b))
            && (forall p :: SourceFault(w, name, t, stages, stage, text, p) ==> p in problems)
  {
    hide Mentions, Items, Resolve, MeansStage, MeansTarget, SourceFault, Handled;
    ItemsExactly(Stages(w, name)[stage], Reference(text));
    assert ItemDone(w, name, trail, order, problems, stage, Reference(text), seen);
    ResolveMeans(w, name, w.targets[name], Stages(w, name), stage, text);
  }

  lemma AddDone(w: World, name: string, trail: seq<string>, order: seq<string>, problems: seq<Problem>,
                stage: nat, source: string, checksum: string, seen: set<nat>)
    requires Parses(w, name) && StageDone(w, name, trail, order, problems, stage, seen)
    requires Adds(Stages(w, name)[stage], source, checksum)
    ensures forall p :: AddFault(name, source, checksum, p) ==> p in problems
  {
    hide Adds, Items, Resolve, AddFault, Handled;
    ItemsExactly(Stages(w, name)[stage], AddInput(source, checksum));
    assert ItemDone(w, name, trail, order, problems, stage, AddInput(source, checksum), seen);
    AddMeans(w, name, w.targets[name], Stages(w, name), stage, source, checksum);
  }

  lemma FaultDone(w: World, name: string, trail: seq<string>, order: seq<string>, problems: seq<Problem>,
                  stage: nat, p: Problem, seen: set<nat>)
    requires Parses(w, name) && StageDone(w, name, trail, order, problems, stage, seen)
    requires stage < |Stages(w, name)| && StageFault(w, name, stage, p)
    ensures p in problems
  {
    hide Mentions, Adds, SourceFault, AddFault, StageDone;
    var said := Stages(w, name)[stage];
    if text :| Mentions(said, text) && SourceFault(w, name, w.targets[name], Stages(w, name), stage, text, p) {
      MentionDone(w, name, trail, order, problems, stage, text, seen);
    } else {
      var source, checksum :| Adds(said, source, checksum) && AddFault(name, source, checksum, p);
      AddDone(w, name, trail, order, problems, stage, source, checksum, seen);
    }
  }

  lemma AllDoneCloses(w: World, name: string, trail: seq<string>, order: seq<string>,
                      problems: seq<Problem>, seen: set<nat>)
    requires Parses(w, name) && AllDone(w, name, trail, order, problems, seen)
    ensures SeenClosed(w, name, seen)
  {
    forall stage, next | stage in seen && stage < |Stages(w, name)| && StepsTo(w, name, stage, next)
      ensures next in seen
    {
      var text :| Mentions(Stages(w, name)[stage], text)
                  && MeansStage(w, w.targets[name], Stages(w, name), stage, text, next);
      hide Mentions, MeansStage, Items, Resolve;
      assert StageDone(w, name, trail, order, problems, stage, seen);
      MentionDone(w, name, trail, order, problems, stage, text, seen);
    }
  }

  /** All stages a target uses have been seen once the start stage was followed to the end. */
  lemma {:induction false} SeenCoversPath(w: World, name: string, seen: set<nat>, path: seq<nat>)
    requires Active(w, name) && Start(w, name).value in seen && SeenClosed(w, name, seen)
    requires IsStagePath(w, name, path)
    ensures path[|path| - 1] in seen
    decreases |path|
  {
    if |path| > 1 {
      SeenCoversPath(w, name, seen, path[..|path| - 1]);
    }
  }

  lemma SeenCoversUse(w: World, name: string, seen: set<nat>, stage: nat)
    requires Active(w, name) && Start(w, name).value in seen && SeenClosed(w, name, seen)
    requires UsesStage(w, name, stage)
    ensures stage in seen
  {
    var path :| IsStagePath(w, name, path) && path[|path| - 1] == stage;
    SeenCoversPath(w, name, seen, path);
  }

  /** Then every dependency of the target is handled and every defect reported. */
  lemma StagesCoverTarget(w: World, name: string, trail: seq<string>, order: seq<string>,
                          problems: seq<Problem>, seen: set<nat>)
    requires Active(w, name) && Start(w, name).value in seen && AllDone(w, name, trail, order, problems, seen)
    ensures forall b :: Edge(w, name, b) ==> Handled(w, trail, order, problems, b)
    ensures FaultsReported(w, problems, name)
  {
    hide StageDone, UsesStage, StageFault, Mentions, MeansTarget, Handled, SeenClosed, AllDone;
    AllDoneCloses(w, name, trail, order, problems, seen);
    forall b | Edge(w, name, b) ensures Handled(w, trail, order, problems, b) {
      var stage: nat :| stage < |Stages(w, name)| && UsesStage(w, name, stage) && DependsOn(w, name, stage, b);
      UsedIsDone(w, name, trail, order, problems, seen, stage);
      var text :| Mentions(Stages(w, name)[stage], text) && MeansTarget(w, w.targets[name], Stages(w, name), text, b);
      MentionDone(w, name, trail, order, problems, stage, text, seen);
    }
    forall p | Fault(w, name, p) ensures p in problems {
      var stage: nat :| stage < |Stages(w, name)| && UsesStage(w, name, stage) && StageFault(w, name, stage, p);
      UsedIsDone(w, name, trail, order, problems, seen, stage);
      FaultDone(w, name, trail, order, problems, stage, p, seen);
    }
  }

  lemma UsedIsDone(w: World, name: string, trail: seq<string>, order: seq<string>, problems: seq<Problem>,
                   seen: set<nat>, stage: nat)
    requires Active(w, name) && Start(w, name).value in seen && AllDone(w, name, trail, order, problems, seen)
    requires SeenClosed(w, name, seen) && UsesStage(w, name, stage)
    ensures StageDone(w, name, trail, order, problems, stage, seen)
  {
    hide StageDone, UsesStage, SeenClosed;
    SeenCoversUse(w, name, seen, stage);
  }

  // -------------------------------------------------------------- the validator

  ghost function Names(names: seq<string>): set<string> {
    set n | n in names
  }

  lemma NamesOfSnoc(names: seq<string>, name: string)
    ensures Names(names + [name]) == Names(names) + {name}
    ensures name !in names ==> name !in Names(names)
  {
  }

  class Validator {
    const w: World
    ghost const roots: seq<string>
    var visited: set<string>
    var visiting: set<string>
    var problems: seq<Problem>
    ghost var trail: seq<string>
    ghost var order: seq<string>

    ghost predicate Valid()
      reads this
    {
      && visited == Names(order)
      && visiting == Names(trail)
      && Inv(w, roots, trail, order, problems)
    }

    constructor (w: World, ghost roots: seq<string>)
      ensures Valid() && this.w == w && this.roots == roots
      ensures trail == [] && order == [] && problems == []
    {
      this.w, this.roots := w, roots;
      visited, visiting, problems := {}, {}, [];
      trail, order := [], [];
    }

    /** Returns with the name handled, the trail restored, and only additions to the record. */
    method ValidateTarget(name: string)
      requires Valid()
      requires if trail == [] then name in roots else Edge(w, trail[|trail| - 1], name)
      modifies this
      ensures Valid() && trail == old(trail)
      ensures Grows(old(order), old(problems), order, problems)
      ensures Handled(w, trail, order, problems, name)
      decreases |w.targets.Keys - visiting|, 0, 1
    {
      hide Edge, HasCycle, ReachableTarget, FinishedWell, Justified, IsWalk, StageDone, UsesStage;
      if name in visited {
        return;
      }
      if name in visiting {
        ReportCycle(name);
        return;
      }
      if name !in w.targets {
        return;
      }
      var t := w.targets[name];
      if t.dockerfile == "" || t.dockerfile !in w.dockerfiles || w.dockerfiles[t.dockerfile] == [] {
        ReportDefect(name, NoDockerfile(name));
        return;
      }
      var stages := w.dockerfiles[t.dockerfile];
      var start := |stages| - 1;
      if t.stage != "" {
        match StageByName(stages, ToLower(t.stage)) {
          case None =>
            ReportDefect(name, MissingStage(name));
            return;
          case Some(index) => start := index;
        }
      }
      Descend(name, t, stages, start);
    }

    /** Puts the target on the trail, follows its start stage, and finishes it. */
    method Descend(name: string, t: Target, stages: seq<Stage>, start: nat)
      requires Valid() && name !in order && name !in trail
      requires if trail == [] then name in roots else Edge(w, trail[|trail| - 1], name)
      requires Active(w, name) && t == w.targets[name] && stages == Stages(w, name) && Start(w, name) == Some(start)
      modifies this
      ensures Valid() && trail == old(trail)
      ensures Grows(old(order), old(problems), order, problems)
      ensures name in order
      decreases |w.targets.Keys - visiting|, 0, 0
    {
      hide Edge, Inv, StageDone, UsesStage, FaultsReported, Handled, Start, Names;
      Enter(name);
      UsesStart(w, name);
      var seen := ValidateStage(name, t, stages, start, {});
      assert seen - {} == seen;
      StagesCoverTarget(w, name, trail, order, problems, seen);
      Leave(name, old(trail));
    }

    method Enter(name: string)
      requires Valid() && name !in order && name !in trail && Active(w, name)
      requires if trail == [] then name in roots else Edge(w, trail[|trail| - 1], name)
      modifies `visiting, `trail
      ensures Valid() && trail == old(trail) + [name]
      ensures |w.targets.Keys - visiting| < |w.targets.Keys - old(visiting)|
    {
      hide Edge, Inv, Names;
      EnterKeepsInv(w, roots, trail, order, problems, name);
      NamesOfSnoc(trail, name);
      ghost var free := w.targets.Keys - visiting;
      visiting := visiting + {name};
      trail := trail + [name];
      assert name in free && w.targets.Keys - visiting == free - {name};
    }

    method Leave(name: string, ghost before: seq<string>)
      requires Valid() && trail == before + [name] && name !in before
      requires forall b :: Edge(w, name, b) ==> Handled(w, trail, order, problems, b)
      requires FaultsReported(w, problems, name)
      modifies `visiting, `visited, `trail, `order
      ensures Valid() && trail == before && order == old(order) + [name]
    {
      hide Edge, Inv, FaultsReported, Handled, Names;
      LeaveKeepsInv(w, roots, before, order, problems, name);
      NamesOfSnoc(before, name);
      NamesOfSnoc(order, name);
      trail := before;
      order := order + [name];
      visiting := visiting - {name};
      visited := visited + {name};
    }

    method ReportCycle(name: string)
      requires Valid() && name in trail && Edge(w, trail[|trail| - 1], name)
      modifies `problems
      ensures Valid() && Grows(order, old(problems), order, problems)
      ensures Handled(w, trail, order, problems, name)
    {
      hide OnCycle, Edge;
      ghost var k :| 0 <= k < |trail| && trail[k] == name;
      TrailCycle(w, roots, trail, k, name);
      ReportKeepsInv(w, roots, trail, order, problems, Cycle(name));
      problems := problems + [Cycle(name)];
    }

    /** Reports a problem of a target reached along the trail. */
    method ReportDefect(ghost name: string, problem: Problem)
      requires Valid() && !problem.Cycle? && Fault(w, name, problem)
      requires (trail != [] && trail[|trail| - 1] == name)
               || if trail == [] then name in roots else Edge(w, trail[|trail| - 1], name)
      modifies `problems
      ensures Valid() && problems == old(problems) + [problem]
    {
      hide Inv, Edge, Fault, ReachableTarget, Names;
      AheadReachable(w, roots, trail, order, problems, name);
      ReportKeepsInv(w, roots, trail, order, problems, problem);
      problems := problems + [problem];
    }

    /** Follows one stage: everything newly seen is followed to the end before it returns. */
    method ValidateStage(name: string, t: Target, stages: seq<Stage>, index: nat, seen: set<nat>)
      returns (after: set<nat>)
      requires Valid() && trail != [] && trail[|trail| - 1] == name
      requires Active(w, name) && t == w.targets[name] && stages == Stages(w, name)
      requires index < |stages| && UsesStage(w, name, index)
      modifies this
      ensures Valid() && trail == old(trail)
      ensures Grows(old(order), old(problems), order, problems)
      ensures seen <= after && index in after
      ensures forall stage :: stage in after - seen ==> StageDone(w, name, trail, order, problems, stage, after)
      decreases |w.targets.Keys - visiting|, index + 1, 1
    {
      hide Edge, HasCycle, Inv, ItemDone, UsesStage, Items;
      if index in seen {
        return seen;
      }
      after := seen + {index};
      var items := Items(stages[index]);
      for i := 0 to |items|
        invariant Valid() && trail == old(trail) && visiting == old(visiting)
        invariant Grows(old(order), old(problems), order, problems)
        invariant seen + {index} <= after
        invariant forall stage :: stage in after - seen - {index} ==>
                                    StageDone(w, name, trail, order, problems, stage, after)
        invariant forall j :: 0 <= j < i ==> ItemDone(w, name, trail, order, problems, index, items[j], after)
      {
        ghost var order0, problems0, after0 := order, problems, after;
        after := ValidateReference(name, t, stages, index, items[i], after);
        Carry(w, name, trail, order0, problems0, after0, order, problems, after, seen + {index}, index, items[..i]);
      }
      assert StageDone(w, name, trail, order, problems, index, after);
    }

    method ValidateReference(name: string, t: Target, stages: seq<Stage>, current: nat, item: Item, seen: set<nat>)
      returns (after: set<nat>)
      requires Valid() && trail != [] && trail[|trail| - 1] == name
      requires Active(w, name) && t == w.targets[name] && stages == Stages(w, name)
      requires current < |stages| && UsesStage(w, name, current) && item in Items(stages[current])
      modifies this
      ensures Valid() && trail == old(trail)
      ensures Grows(old(order), old(problems), order, problems)
      ensures seen <= after
      ensures ItemDone(w, name, trail, order, problems, current, item, after)
      ensures forall stage :: stage in after - seen ==> StageDone(w, name, trail, order, problems, stage, after)
      decreases |w.targets.Keys - visiting|, current + 1, 0
    {
      hide Inv, StageDone, Handled, UsesStage, Resolve, Items, StepsTo, DependsOn, StageFault;
      after := seen;
      var r := Resolve(w, name, t, stages, current, item);
      ItemMeans(w, name, current, item);
      match r {
        case Fine =>
        case Bad(problem) =>
          assert Fault(w, name, problem);
          ReportDefect(name, problem);
        case ToStage(next) =>
          UsesNext(w, name, current, next);
          after := ValidateStage(name, t, stages, next, seen);
        case ToTarget(dependency) =>
          assert Edge(w, name, dependency);
          ValidateTarget(dependency);
      }
    }
  }

  /** Whatever an item of a stage resolves to, the stage really says. */
  lemma ItemMeans(w: World, name: string, stage: nat, item: Item)
    requires Parses(w, name) && stage < |Stages(w, name)| && item in Items(Stages(w, name)[stage])
    ensures match Resolve(w, name, w.targets[name], Stages(w, name), stage, item)
            case Fine => true
            case ToStage(next) => StepsTo(w, name, stage, next)
            case ToTarget(b) => DependsOn(w, name, stage, b)
            case Bad(p) => StageFault(w, name, stage, p)
  {
    hide Items, Resolve, Mentions, Adds, MeansStage, MeansTarget, SourceFault, AddFault;
    ItemsExactly(Stages(w, name)[stage], item);
    match item
    case Reference(text) => ResolveMeans(w, name, w.targets[name], Stages(w, name), stage, text);
    case AddInput(source, checksum) =>
      AddMeans(w, name, w.targets[name], Stages(w, name), stage, source, checksum);
  }

  /** What was done before a reference was followed is still done after it. */
  lemma Carry(w: World, name: string, trail: seq<string>,
              order: seq<string>, problems: seq<Problem>, seen: set<nat>,
              order': seq<string>, problems': seq<Problem>, seen': set<nat>,
              excluded: set<nat>, current: nat, items: seq<Item>)
    requires Parses(w, name)
    requires Grows(order, problems, order', problems') && seen <= seen'
    requires forall stage :: stage in seen - excluded ==> StageDone(w, name, trail, order, problems, stage, seen)
    requires forall stage :: stage in seen' - seen ==> StageDone(w, name, trail, order', problems', stage, seen')
    requires forall item :: item in items ==> ItemDone(w, name, trail, order, problems, current, item, seen)
    ensures forall stage :: stage in seen' - excluded ==> StageDone(w, name, trail, order', problems', stage, seen')
    ensures forall item :: item in items ==> ItemDone(w, name, trail, order', problems', current, item, seen')
  {
    forall stage | stage in seen' - excluded
      ensures StageDone(w, name, trail, order', problems', stage, seen')
    {
      if stage in seen {
        StageDoneMonotone(w, name, trail, order, problems, seen, order', problems', seen', stage);
      }
    }
    forall item | item in items ensures ItemDone(w, name, trail, order', problems', current, item, seen') {
      ItemDoneMonotone(w, name, trail, order, problems, seen, order', problems', seen', current, item);
    }
  }

  // ------------------------------------------------------------------ main results

  lemma EdgeActive(w: World, a: string, b: string)
    requires Edge(w, a, b)
    ensures Active(w, a)
  {
  }

  /** With no cycle reported, `order` is a reverse topological order, so no walk inside it can close. */
  lemma {:induction false} WalksDescend(w: World, roots: seq<string>, order: seq<string>, problems: seq<Problem>,
                                        walk: seq<string>) returns (first: nat, last: nat)
    requires Inv(w, roots, [], order, problems) && !ReportsCycle(problems)
    requires walk != [] && IsWalk(w, walk) && walk[0] in order && Active(w, walk[|walk| - 1])
    ensures first < |order| && order[first] == walk[0]
    ensures last < |order| && order[last] == walk[|walk| - 1]
    ensures last <= first && (|walk| >= 2 ==> last < first)
    decreases |walk|
  {
    hide Edge, Justified;
    if |walk| == 1 {
      first :| 0 <= first < |order| && order[first] == walk[0];
      last := first;
    } else {
      EdgeActive(w, walk[|walk| - 2], walk[|walk| - 1]);
      var middle;
      first, middle := WalksDescend(w, roots, order, problems, walk[..|walk| - 1]);
      assert FinishedWell(w, [], order, problems, middle);
      assert walk[|walk| - 1] in order[..middle];
      last :| 0 <= last < middle && order[..middle][last] == walk[|walk| - 1];
    }
  }

  ghost predicate RootsHandled(w: World, roots: seq<string>, order: seq<string>, problems: seq<Problem>) {
    forall name :: name in roots ==> Handled(w, [], order, problems, name)
  }

  /** Once the roots are handled, everything reachable is. */
  lemma {:induction false} ReachableHandled(w: World, roots: seq<string>, order: seq<string>,
                                            problems: seq<Problem>, walk: seq<string>)
    requires Inv(w, roots, [], order, problems) && RootsHandled(w, roots, order, problems)
    requires walk != [] && walk[0] in roots && IsWalk(w, walk)
    ensures Handled(w, [], order, problems, walk[|walk| - 1])
    decreases |walk|
  {
    hide Justified, Edge;
    if |walk| >= 2 {
      var a, b := walk[|walk| - 2], walk[|walk| - 1];
      ReachableHandled(w, roots, order, problems, walk[..|walk| - 1]);
      EdgeActive(w, a, b);
      var k :| 0 <= k < |order| && order[k] == a;
      assert FinishedWell(w, [], order, problems, k);
    }
  }

  /** A finished search that reported no cycle left none to report. */
  lemma SilenceMeansAcyclic(w: World, roots: seq<string>, order: seq<string>, problems: seq<Problem>)
    requires Inv(w, roots, [], order, problems) && RootsHandled(w, roots, order, problems)
    requires HasCycle(w, roots)
    ensures ReportsCycle(problems)
  {
    hide Edge, Justified, FinishedWell, RootsHandled;
    if !ReportsCycle(problems) {
      var loop: seq<string> :| |loop| >= 2 && loop[0] == loop[|loop| - 1]
                               && IsWalk(w, loop) && ReachableTarget(w, roots, loop[0]);
      var walk: seq<string> :| walk != [] && walk[0] in roots && walk[|walk| - 1] == loop[0] && IsWalk(w, walk);
      FirstActive(w, loop);
      ReachableHandled(w, roots, order, problems, walk);
      var first, last := WalksDescend(w, roots, order, problems, loop);
    }
  }

  lemma {:induction false} FirstActive(w: World, walk: seq<string>)
    requires |walk| >= 2 && IsWalk(w, walk)
    ensures Active(w, walk[0])
    decreases |walk|
  {
    if |walk| == 2 {
      EdgeActive(w, walk[0], walk[1]);
    } else {
      FirstActive(w, walk[..|walk| - 1]);
    }
  }

  /** A finished search has reported every fault of every reachable target. */
  lemma AllFaultsReported(w: World, roots: seq<string>, order: seq<string>, problems: seq<Problem>, name: string)
    requires Inv(w, roots, [], order, problems) && RootsHandled(w, roots, order, problems)
    requires ReachableTarget(w, roots, name)
    ensures FaultsReported(w, problems, name)
  {
    hide Justified, FaultsReported, Edge, RootsHandled;
    var walk: seq<string> :| walk != [] && walk[0] in roots && walk[|walk| - 1] == name && IsWalk(w, walk);
    ReachableHandled(w, roots, order, problems, walk);
    if name in order {
      var k :| 0 <= k < |order| && order[k] == name;
      assert FinishedWell(w, [], order, problems, k);
    } else if name !in w.targets {
      AbsentIsFaultless(w, problems, name);
    }
  }

  lemma AbsentIsFaultless(w: World, problems: seq<Problem>, name: string)
    requires name !in w.targets
    ensures FaultsReported(w, problems, name)
  {
  }

  /**
   The verdict on a set of delivery targets, in full. A cycle is reported if and only if the graph of actually
   referenced targets has one, and only at targets that lie on one. Everything else on the list is a fault of a
   reachable target, and every such fault is on the list.
   */
  method ValidateDeliveryTargets(w: World, names: seq<string>) returns (problems: seq<Problem>)
    ensures ReportsCycle(problems) <==> HasCycle(w, names)
    ensures forall name :: Cycle(name) in problems ==> OnCycle(w, names, name)
    ensures forall p: Problem :: !p.Cycle? ==>
              (p in problems <==> exists name :: ReachableTarget(w, names, name) && Fault(w, name, p))
    ensures problems == [] <==>
            !HasCycle(w, names) && forall name :: ReachableTarget(w, names, name) ==> !Defective(w, name)
  {
    hide HasCycle, OnCycle, Edge, FinishedWell, Fault, ReachableTarget;
    var v := new Validator(w, names);
    for i := 0 to |names|
      invariant v.Valid() && v.trail == [] && v.w == w && v.roots == names
      invariant forall k :: 0 <= k < i ==> Handled(w, [], v.order, v.problems, names[k])
    {
      ghost var order, before := v.order, v.problems;
      v.ValidateTarget(names[i]);
      forall k | 0 <= k < i ensures Handled(w, [], v.order, v.problems, names[k]) {
        HandledMonotone(w, [], order, before, v.order, v.problems, names[k]);
      }
    }
    problems := v.problems;
    Verdict(w, names, v.order, problems);
  }

  lemma Verdict(w: World, roots: seq<string>, order: seq<string>, problems: seq<Problem>)
    requires Inv(w, roots, [], order, problems) && RootsHandled(w, roots, order, problems)
    ensures ReportsCycle(problems) <==> HasCycle(w, roots)
    ensures forall name :: Cycle(name) in problems ==> OnCycle(w, roots, name)
    ensures forall p: Problem :: !p.Cycle? ==>
              (p in problems <==> exists name :: ReachableTarget(w, roots, name) && Fault(w, name, p))
    ensures problems == [] <==>
            !HasCycle(w, roots) && forall name :: ReachableTarget(w, roots, name) ==> !Defective(w, name)
  {
    hide HasCycle, OnCycle, Edge, FinishedWell, Fault, ReachableTarget, RootsHandled, IsWalk;
    if HasCycle(w, roots) {
      SilenceMeansAcyclic(w, roots, order, problems);
    }
    if ReportsCycle(problems) {
      var i :| 0 <= i < |problems| && problems[i].Cycle?;
      assert Real(w, roots, problems[i]);
      CycleThrough(w, roots, problems[i].target);
    }
    forall name | ReachableTarget(w, roots, name) ensures FaultsReported(w, problems, name) {
      AllFaultsReported(w, roots, order, problems, name);
    }
    if problems != [] && !ReportsCycle(problems) {
      assert problems[0] in problems && !problems[0].Cycle?;
      assert Real(w, roots, problems[0]);
      var name :| ReachableTarget(w, roots, name) && Fault(w, name, problems[0]);
      assert Defective(w, name);
    }
  }

  lemma CycleThrough(w: World, roots: seq<string>, name: string)
    requires OnCycle(w, roots, name)
    ensures HasCycle(w, roots)
  {
  }

  /** The four sources a stage may name, said without reference to how they are looked up. */
  ghost predicate Contained(w: World, t: Target, stages: seq<Stage>, current: nat, text: string) {
    var reference := ExpandReference(text, t.args);
    || reference == "scratch"
    || reference == w.buildBase
    || (exists n: nat :: n < current && Atoi(reference) == Some(n))
    || (exists n: nat :: n < current && n < |stages| && stages[n].name != ""
                         && ToLower(stages[n].name) == ToLower(reference))
    || reference in t.contexts
  }

  /** When nothing is reported, whatever a stage that is built takes its files from stays inside those four. */
  lemma SoundTargetsAreContained(w: World, name: string, stage: nat, text: string)
    requires Active(w, name) && !Defective(w, name)
    requires stage < |Stages(w, name)| && UsesStage(w, name, stage) && Mentions(Stages(w, name)[stage], text)
    ensures Contained(w, w.targets[name], Stages(w, name), stage, text)
  {
    hide UsesStage, Mentions, ExpandReference, Atoi, ToLower;
    var t, stages := w.targets[name], Stages(w, name);
    var reference := ExpandReference(text, t.args);
    NoStageFault(w, name, stage, InvalidStage(name, reference));
    NoStageFault(w, name, stage, NonPriorStage(name, reference));
    NoStageFault(w, name, stage, ExternalSource(name, reference));
    assert !SourceFault(w, name, t, stages, stage, text, InvalidStage(name, reference));
    assert !SourceFault(w, name, t, stages, stage, text, NonPriorStage(name, reference));
    assert !SourceFault(w, name, t, stages, stage, text, ExternalSource(name, reference));
  }

  lemma NoStageFault(w: World, name: string, stage: nat, p: Problem)
    requires Active(w, name) && !Defective(w, name) && stage < |Stages(w, name)| && UsesStage(w, name, stage)
    ensures !StageFault(w, name, stage, p)
  {
    hide UsesStage, StageFault;
    assert !Fault(w, name, p);
  }

  /** Nor does it add a file from anywhere else that is not pinned by its checksum. */
  lemma SoundAddsArePinned(w: World, name: string, stage: nat, source: string, checksum: string)
    requires Active(w, name) && !Defective(w, name)
    requires stage < |Stages(w, name)| && UsesStage(w, name, stage) && Adds(Stages(w, name)[stage], source, checksum)
    ensures '$' !in source && (IsRemote(source) ==> Pinned(source, checksum))
  {
    hide UsesStage, Adds, IsRemote, Pinned;
    NoStageFault(w, name, stage, DynamicAdd(name, source));
    NoStageFault(w, name, stage, UnpinnedAdd(name, source));
    assert !AddFault(name, source, checksum, DynamicAdd(name, source));
    assert !AddFault(name, source, checksum, UnpinnedAdd(name, source));
  }
}
