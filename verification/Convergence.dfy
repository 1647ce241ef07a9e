/** Upgrade planning and the bounded convergence loop that executes one plan after another. */
module Convergence {
  import opened Outcomes
  import opened ReleaseLadder

  datatype Order = InstallTarget | PlatformFirst | KubernetesFirst | AlreadyCurrent

  datatype Mode = ApplyConvergence | UpgradeConvergence | FullConvergence

  datatype Plan = Plan(current: string, target: string, order: Order, steps: seq<Release>)

  /**
   The project: its ladder, its version library, whether upgrades are automatic, and the parsed platform
   constraints (None when they do not parse) as a test on Kubernetes versions.
   */
  datatype Service = Service(text: VersionText, releases: seq<Release>, automaticUpgrade: bool,
                             constraints: Option<Version -> bool>)

  /** One look at the cluster: its canonical version and the Big Bang root, where None means the read failed. */
  datatype Observation = Absent | Unavailable | Live(version: Version, rootComplete: Option<bool>)

  datatype Error =
    | LadderEmpty
    | ClusterUnavailable
    | Unparseable
    | NewerThanTarget
    | OffLadder
    | TargetOffLadder
    | NotEarlier
    | RootUnreadable
    | Skips
    | BadConstraints
    | InvalidPlan
    | UpgradeDisabled
    | NeedsCluster
    | NeedsPlatform
    | EffectFailed
    | Exhausted

  // ------------------------------------------------------------------- planning

  datatype Position = Position(current: Version, target: Version, currentIndex: int)

  function LivePosition(s: Service, version: Version, target: Release): (r: Result<Position, Error>) {
    match s.text.parse(target.kubernetes)
    case None => Err(Unparseable)
    case Some(targetVersion) =>
      if Less(targetVersion, version) then Err(NewerThanTarget)
      else
        var currentIndex := IndexOf(s.releases, s.text.render(version));
        var targetIndex := IndexOf(s.releases, s.text.render(targetVersion));
        if currentIndex < 0 then Err(OffLadder)
        else if targetIndex < 0 then Err(TargetOffLadder)
        else if currentIndex > targetIndex || (Less(version, targetVersion) && currentIndex == targetIndex) then
          Err(NotEarlier)
        else Ok(Position(version, targetVersion, currentIndex))
  }

  /** The plan from a position; reading past the ladder would be a fault in the source and is Err here. */
  function UpgradePlan(s: Service, rootComplete: bool, p: Position): (r: Result<Plan, Error>) {
    var plan := Plan(s.text.render(p.current), s.text.render(p.target), AlreadyCurrent, []);
    if p.current == p.target then Ok(plan)
    else if !(0 <= p.currentIndex + 1 < |s.releases|) then Err(OffLadder)
    else
      var next := s.releases[p.currentIndex + 1];
      match s.text.parse(next.kubernetes)
      case None => Err(Unparseable)
      case Some(first) =>
        if first.major != p.current.major || first.minor > p.current.minor + 1 then Err(Skips)
        else
          match s.constraints
          case None => Err(BadConstraints)
          case Some(supports) =>
            var platformCompatible := supports(p.current) && supports(first);
            Ok(plan.(steps := [next],
                     order := if !rootComplete && platformCompatible then PlatformFirst else KubernetesFirst))
  }

  function MakePlan(s: Service, o: Observation): (r: Result<Plan, Error>) {
    if s.releases == [] then Err(LadderEmpty)
    else
      var target := s.releases[|s.releases| - 1];
      match o
      case Absent => Ok(Plan("", target.kubernetes, InstallTarget, [target]))
      case Unavailable => Err(ClusterUnavailable)
      case Live(version, root) =>
        match LivePosition(s, version, target)
        case Err(e) => Err(e)
        case Ok(position) =>
          if root.None? then Err(RootUnreadable) else UpgradePlan(s, root.value, position)
  }

  function ValidatePlan(s: Service, plan: Plan, mode: Mode): (r: Option<Error>) {
    if s.releases == [] then Some(LadderEmpty)
    else
      var target := s.releases[|s.releases| - 1];
      var index := IndexOf(s.releases, plan.current);
      if plan.target != target.kubernetes then Some(InvalidPlan)
      else if plan.order.InstallTarget? && (plan.current != "" || plan.steps != [target]) then Some(InvalidPlan)
      else if plan.order.AlreadyCurrent? && (plan.current != plan.target || plan.steps != []) then Some(InvalidPlan)
      else if (plan.order.KubernetesFirst? || plan.order.PlatformFirst?)
              && (index < 0 || index + 1 >= |s.releases| || plan.steps != [s.releases[index + 1]]) then
        Some(InvalidPlan)
      else if !mode.UpgradeConvergence? && !s.automaticUpgrade
              && (plan.order.KubernetesFirst? || (plan.order.PlatformFirst? && plan.current != plan.target)) then
        Some(UpgradeDisabled)
      else if mode.UpgradeConvergence? && plan.order.InstallTarget? then Some(NeedsCluster)
      else if plan.order.PlatformFirst? && !mode.FullConvergence? then Some(NeedsPlatform)
      else None
  }

  // ---------------------------------------------------------------- planning is total

  /** The rung of a live version, as a fact about the ladder rather than about a lookup. */
  ghost predicate OnRung(s: Service, version: Version, i: nat)
  {
    LadderValid(s.text, s.releases) && i < |s.releases| && At(s.text, s.releases, i) == version
  }

  lemma RungText(s: Service, version: Version, i: nat)
    requires Faithful(s.text) && OnRung(s, version, i)
    ensures s.releases[i].kubernetes == s.text.render(version)
    ensures s.text.parse(s.releases[i].kubernetes) == Some(version)
    ensures IndexOf(s.releases, s.text.render(version)) == i
  {
    assert RungValid(s.text, s.releases[i]);
    LookupFinds(s.text, s.releases, i);
  }

  lemma PositionOnRung(s: Service, version: Version, i: nat)
    requires Faithful(s.text) && OnRung(s, version, i)
    ensures var last := At(s.text, s.releases, |s.releases| - 1);
            LivePosition(s, version, s.releases[|s.releases| - 1]) == Ok(Position(version, last, i))
  {
    var n := |s.releases|;
    RungText(s, version, i);
    RungText(s, At(s.text, s.releases, n - 1), n - 1);
    if i < n - 1 {
      StrictlyIncreasing(s.text, s.releases, i, n - 1);
    }
    hide IndexOf, Faithful, LadderValid;
  }

  /** What to do on rung i: exactly the next rung, or nothing when it is the last. */
  ghost function PlanOn(s: Service, version: Version, root: bool, i: nat): Result<Plan, Error>
    requires OnRung(s, version, i)
  {
    var n := |s.releases|;
    var plan := Plan(s.releases[i].kubernetes, s.releases[n - 1].kubernetes, AlreadyCurrent, []);
    if i == n - 1 then Ok(plan)
    else if s.constraints.None? then Err(BadConstraints)
    else
      var first := !root && s.constraints.value(version) && s.constraints.value(At(s.text, s.releases, i + 1));
      Ok(plan.(order := if first then PlatformFirst else KubernetesFirst, steps := [s.releases[i + 1]]))
  }

  lemma UpgradeFromRung(s: Service, version: Version, root: bool, i: nat)
    requires Faithful(s.text) && OnRung(s, version, i)
    ensures var last := At(s.text, s.releases, |s.releases| - 1);
            UpgradePlan(s, root, Position(version, last, i)) == PlanOn(s, version, root, i)
  {
    var n := |s.releases|;
    hide IndexOf, Faithful, LadderValid;
    RungText(s, version, i);
    RungText(s, At(s.text, s.releases, n - 1), n - 1);
    if i < n - 1 {
      NextRung(s, version, i);
    }
  }

  /** The plan made for a live version on rung i. */
  lemma PlanFromRung(s: Service, version: Version, root: bool, i: nat)
    requires Faithful(s.text) && OnRung(s, version, i)
    ensures MakePlan(s, Live(version, Some(root))) == PlanOn(s, version, root, i)
  {
    hide LivePosition, IndexOf, Faithful, LadderValid, UpgradePlan, PlanOn;
    PositionOnRung(s, version, i);
    UpgradeFromRung(s, version, root, i);
  }

  lemma NextRung(s: Service, version: Version, i: nat)
    requires Faithful(s.text) && OnRung(s, version, i) && i < |s.releases| - 1
    ensures At(s.text, s.releases, |s.releases| - 1) != version
    ensures var next := At(s.text, s.releases, i + 1);
            && s.text.parse(s.releases[i + 1].kubernetes) == Some(next)
            && next.major == version.major && next.minor <= version.minor + 1
  {
    StrictlyIncreasing(s.text, s.releases, i, |s.releases| - 1);
    RungText(s, At(s.text, s.releases, i + 1), i + 1);
    assert StepValid(s.text, s.releases[i], s.releases[i + 1]);
  }

  /** Planning from a live cluster succeeds if and only if its version is a rung and what it reads is readable. */
  lemma PlanningIsTotalOnTheLadder(s: Service, version: Version, root: Option<bool>)
    requires Faithful(s.text) && LadderValid(s.text, s.releases)
    ensures MakePlan(s, Live(version, root)).Ok? <==>
            exists i: nat :: OnRung(s, version, i) && root.Some? && (i == |s.releases| - 1 || s.constraints.Some?)
  {
    if i: nat :| OnRung(s, version, i) && root.Some? {
      PlanFromRung(s, version, root.value, i);
      forall j: nat | OnRung(s, version, j) ensures j == i {
        RungText(s, version, i);
        RungText(s, version, j);
      }
    } else if MakePlan(s, Live(version, root)).Ok? {
      var i := IndexOf(s.releases, s.text.render(version));
      assert RungValid(s.text, s.releases[i]);
      assert OnRung(s, version, i);
    }
  }

  /** What planning answers when it refuses, for a readable ladder. */
  lemma PlanningRefuses(s: Service, version: Version, root: Option<bool>)
    requires Faithful(s.text) && LadderValid(s.text, s.releases)
    ensures (forall i: nat :: !OnRung(s, version, i)) ==>
              MakePlan(s, Live(version, root)) ==
              Err(if Less(At(s.text, s.releases, |s.releases| - 1), version) then NewerThanTarget else OffLadder)
    ensures (exists i: nat :: OnRung(s, version, i)) && root.None? ==>
              MakePlan(s, Live(version, root)) == Err(RootUnreadable)
    ensures MakePlan(s, Unavailable) == Err(ClusterUnavailable)
    ensures var target := s.releases[|s.releases| - 1];
            MakePlan(s, Absent) == Ok(Plan("", target.kubernetes, InstallTarget, [target]))
  {
    var n := |s.releases|;
    var last := At(s.text, s.releases, n - 1);
    RungText(s, last, n - 1);
    if i: nat :| OnRung(s, version, i) {
      hide LivePosition;
      PositionOnRung(s, version, i);
    } else {
      assert s.text.parse(s.releases[n - 1].kubernetes) == Some(last);
      if IndexOf(s.releases, s.text.render(version)) >= 0 {
        ShownOnRung(s, version, IndexOf(s.releases, s.text.render(version)));
      }
      hide IndexOf, Faithful, LadderValid, OnRung;
    }
  }

  lemma ShownOnRung(s: Service, version: Version, i: nat)
    requires Faithful(s.text) && LadderValid(s.text, s.releases) && i < |s.releases|
    requires s.releases[i].kubernetes == s.text.render(version)
    ensures OnRung(s, version, i)
  {
    assert RungValid(s.text, s.releases[i]);
  }

  // --------------------------------------------------------------- what is sanctioned

  /** The plan leads to another version than the current one. */
  predicate Upgrades(plan: Plan) {
    plan.order.KubernetesFirst? || plan.current != plan.target
  }

  /**
   The plans a mode may carry out, said without reference to how they are checked: the exact target, and an install of
   it, nothing, or the step to the next rung. A step needs automatic upgrades unless it was asked for, a platform
   handoff belongs to a full convergence, and an upgrade that was asked for needs a cluster.
   */
  ghost predicate Sanctioned(s: Service, plan: Plan, mode: Mode) {
    WellMade(s, plan) &&
    match plan.order
    case InstallTarget => !mode.UpgradeConvergence?
    case AlreadyCurrent => true
    case KubernetesFirst => s.automaticUpgrade || mode.UpgradeConvergence?
    case PlatformFirst => mode.FullConvergence? && (s.automaticUpgrade || plan.current == plan.target)
  }

  ghost predicate WellMade(s: Service, plan: Plan) {
    s.releases != [] && plan.target == s.releases[|s.releases| - 1].kubernetes &&
    match plan.order
    case InstallTarget => plan.current == "" && plan.steps == [s.releases[|s.releases| - 1]]
    case AlreadyCurrent => plan.current == plan.target && plan.steps == []
    case _ => NextStep(s, plan)
  }

  ghost predicate NextStep(s: Service, plan: Plan) {
    exists i: nat :: StepsFrom(s, plan, i)
  }

  /** The plan steps from rung i, the first with its version's text, to the one after. */
  ghost predicate StepsFrom(s: Service, plan: Plan, i: nat) {
    && i + 1 < |s.releases| && s.releases[i].kubernetes == plan.current && plan.steps == [s.releases[i + 1]]
    && forall j :: 0 <= j < i ==> s.releases[j].kubernetes != plan.current
  }

  /**
   A plan is accepted if and only if it is sanctioned. A plan that is otherwise right is refused with the reason: no
   cluster to upgrade, upgrades disabled, or the platform first.
   */
  lemma ValidatesExactly(s: Service, plan: Plan, mode: Mode)
    ensures ValidatePlan(s, plan, mode).None? <==> Sanctioned(s, plan, mode)
    ensures WellMade(s, plan) && !Sanctioned(s, plan, mode) ==>
              ValidatePlan(s, plan, mode) ==
              Some(if plan.order.InstallTarget? then NeedsCluster
                   else if Upgrades(plan) && !s.automaticUpgrade && !mode.UpgradeConvergence? then UpgradeDisabled
                   else NeedsPlatform)
  {
    var i := IndexOf(s.releases, plan.current);
    if i >= 0 {
      assert NextStep(s, plan) <==> StepsFrom(s, plan, i);
    }
    hide IndexOf, NextStep;
  }

  lemma CurrentPlanValid(s: Service)
    requires LadderValid(s.text, s.releases) && s.automaticUpgrade
    ensures var target := s.releases[|s.releases| - 1].kubernetes;
            ValidatePlan(s, Plan(target, target, AlreadyCurrent, []), FullConvergence).None?
  {
  }

  lemma StepPlanValid(s: Service, i: nat, order: Order)
    requires LadderValid(s.text, s.releases) && s.automaticUpgrade && i < |s.releases| - 1
    requires order.PlatformFirst? || order.KubernetesFirst?
    ensures ValidatePlan(s, Plan(s.releases[i].kubernetes, s.releases[|s.releases| - 1].kubernetes, order,
                                 [s.releases[i + 1]]), FullConvergence).None?
  {
    LookupFinds(s.text, s.releases, i);
  }

  lemma LivePlanValid(s: Service, version: Version, root: bool, i: nat)
    requires OnRung(s, version, i) && s.automaticUpgrade && PlanOn(s, version, root, i).Ok?
    ensures ValidatePlan(s, PlanOn(s, version, root, i).value, FullConvergence).None?
  {
    hide LadderValid, ValidatePlan;
    if i < |s.releases| - 1 {
      StepPlanValid(s, i, PlanOn(s, version, root, i).value.order);
    } else {
      CurrentPlanValid(s);
    }
  }

  /** Every plan that can be made is accepted by full convergence when upgrades are automatic. */
  lemma PlansValidate(s: Service, o: Observation)
    requires Faithful(s.text) && LadderValid(s.text, s.releases) && s.automaticUpgrade
    requires MakePlan(s, o).Ok?
    ensures ValidatePlan(s, MakePlan(s, o).value, FullConvergence).None?
  {
    if o.Live? {
      hide MakePlan, Faithful, LadderValid, ValidatePlan, PlanOn;
      PlanningIsTotalOnTheLadder(s, o.version, o.rootComplete);
      var i: nat :| OnRung(s, o.version, i) && o.rootComplete.Some?
                    && (i == |s.releases| - 1 || s.constraints.Some?);
      PlanFromRung(s, o.version, o.rootComplete.value, i);
      LivePlanValid(s, o.version, o.rootComplete.value, i);
    }
  }

  // ------------------------------------------------------------- executing one plan

  /** What the outside does during one ConvergePlanned: readings of the live version and outcomes of effects. */
  datatype Cluster = Cluster(reading: nat -> Option<Version>, effect: nat -> bool)

  /** How one plan ended, and the last version that was read. */
  datatype Execution = Execution(error: Option<Error>, last: Option<Version>)

  function ExecuteSteps(s: Service, steps: seq<Release>, c: Cluster, index: nat, state: Version): (r: Execution)
    requires index <= |steps|
    decreases |steps| - index
  {
    if index == |steps| then Execution(None, Some(state))
    else if !c.effect(index) then Execution(Some(EffectFailed), Some(state))
    else
      match c.reading(index + 1)
      case None => Execution(Some(ClusterUnavailable), None)
      case Some(next) =>
        if s.text.render(next) != steps[index].kubernetes then Execution(Some(OffLadder), Some(next))
        else ExecuteSteps(s, steps, c, index + 1, next)
  }

  function Execute(s: Service, plan: Plan, mode: Mode, c: Cluster): (r: Execution) {
    match ValidatePlan(s, plan, mode)
    case Some(e) => Execution(Some(e), None)
    case None =>
      if plan.order.PlatformFirst? then Execution(Some(NeedsPlatform), None)
      else if plan.order.InstallTarget? && !c.effect(0) then Execution(Some(EffectFailed), None)
      else
        match c.reading(0)
        case None => Execution(Some(ClusterUnavailable), None)
        case Some(state) =>
          var expected := if plan.order.KubernetesFirst? then plan.current else plan.target;
          if s.text.render(state) != expected || IndexOf(s.releases, s.text.render(state)) < 0 then
            Execution(Some(OffLadder), Some(state))
          else if plan.order.AlreadyCurrent? && !c.effect(0) then Execution(Some(EffectFailed), Some(state))
          else if plan.order.KubernetesFirst? then ExecuteSteps(s, plan.steps, c, 0, state)
          else Execution(None, Some(state))
  }

  /** The version text a plan is for. */
  function Goal(plan: Plan): string {
    if plan.order.KubernetesFirst? && plan.steps != [] then plan.steps[|plan.steps| - 1].kubernetes else plan.target
  }

  lemma {:induction false} StepsReach(s: Service, steps: seq<Release>, c: Cluster, index: nat, state: Version)
    requires index < |steps| && ExecuteSteps(s, steps, c, index, state).error.None?
    ensures var last := ExecuteSteps(s, steps, c, index, state).last;
            last.Some? && s.text.render(last.value) == steps[|steps| - 1].kubernetes
    decreases |steps| - index
  {
    if index + 1 < |steps| {
      StepsReach(s, steps, c, index + 1, c.reading(index + 1).value);
    }
  }

  /**
   Success of one plan means it was valid and not platform first, the last version read is the one it was for,
   and an upgrade started from the version it was planned for.
   */
  lemma ExecutionReachesGoal(s: Service, plan: Plan, mode: Mode, c: Cluster)
    requires Execute(s, plan, mode, c).error.None?
    ensures ValidatePlan(s, plan, mode).None? && !plan.order.PlatformFirst?
    ensures var last := Execute(s, plan, mode, c).last; last.Some? && s.text.render(last.value) == Goal(plan)
    ensures plan.order.KubernetesFirst? ==> c.reading(0).Some? && s.text.render(c.reading(0).value) == plan.current
  {
    if plan.order.KubernetesFirst? {
      assert |plan.steps| == 1;
      StepsReach(s, plan.steps, c, 0, c.reading(0).value);
    }
  }

  predicate ShowsText(s: Service, reading: Option<Version>, text: string) {
    reading.Some? && s.text.render(reading.value) == text
  }

  /**
   A sanctioned plan succeeds if and only if its effects do and the versions read are the ones it is for: the target
   for an install and for a current cluster, the planned version before a step and the next rung's after it.
   */
  lemma ExecutesExactly(s: Service, plan: Plan, mode: Mode, c: Cluster)
    ensures Execute(s, plan, mode, c).error.None? <==>
            && Sanctioned(s, plan, mode) && !plan.order.PlatformFirst? && c.effect(0)
            && (if plan.order.KubernetesFirst?
                then ShowsText(s, c.reading(0), plan.current) && ShowsText(s, c.reading(1), plan.steps[0].kubernetes)
                else ShowsText(s, c.reading(0), plan.target))
  {
    hide ValidatePlan;
    ValidatesExactly(s, plan, mode);
    if Sanctioned(s, plan, mode) {
      hide IndexOf;
      if plan.order.KubernetesFirst? && c.reading(0).Some? {
        OneStep(s, plan.steps, c, c.reading(0).value);
      }
    }
  }

  lemma OneStep(s: Service, steps: seq<Release>, c: Cluster, state: Version)
    requires |steps| == 1
    ensures ExecuteSteps(s, steps, c, 0, state).error.None? <==>
            c.effect(0) && ShowsText(s, c.reading(1), steps[0].kubernetes)
  {
    if c.effect(0) && ShowsText(s, c.reading(1), steps[0].kubernetes) {
      assert ExecuteSteps(s, steps, c, 1, c.reading(1).value).error.None?;
    }
  }

  /** Why a sanctioned plan fails: an effect did, a version could not be read, or it was not the one expected. */
  lemma ExecutionFails(s: Service, plan: Plan, mode: Mode, c: Cluster)
    requires Sanctioned(s, plan, mode) && !plan.order.PlatformFirst? && Execute(s, plan, mode, c).error.Some?
    ensures match Execute(s, plan, mode, c).error.value
            case EffectFailed => !c.effect(0)
            case ClusterUnavailable => c.reading(0).None? || (plan.order.KubernetesFirst? && c.reading(1).None?)
            case OffLadder =>
              || (c.reading(0).Some?
                  && !ShowsText(s, c.reading(0), if plan.order.KubernetesFirst? then plan.current else plan.target))
              || (plan.order.KubernetesFirst? && c.reading(1).Some? && !ShowsText(s, c.reading(1), plan.steps[0].kubernetes))
            case _ => false
  {
    hide ValidatePlan;
    ValidatesExactly(s, plan, mode);
    hide IndexOf;
    if plan.order.KubernetesFirst? && c.reading(0).Some? && c.effect(0) && ShowsText(s, c.reading(1), plan.steps[0].kubernetes) {
      OneStep(s, plan.steps, c, c.reading(0).value);
    }
  }

  /** Executes one plan, reading the live version before and after each effect. */
  method ConvergePlanned(s: Service, plan: Plan, mode: Mode, cluster: Cluster) returns (r: Execution)
    ensures r == Execute(s, plan, mode, cluster)
    ensures r.error.None? ==> r.last.Some? && s.text.render(r.last.value) == Goal(plan)
  {
    hide ValidatePlan;
    if Execute(s, plan, mode, cluster).error.None? {
      ExecutionReachesGoal(s, plan, mode, cluster);
    }
    var invalid := ValidatePlan(s, plan, mode);
    if invalid.Some? {
      return Execution(invalid, None);
    }
    if plan.order.PlatformFirst? {
      return Execution(Some(NeedsPlatform), None);
    }
    if plan.order.InstallTarget? {
      if !cluster.effect(0) {
        return Execution(Some(EffectFailed), None);
      }
    }
    var state := cluster.reading(0);
    if state.None? {
      return Execution(Some(ClusterUnavailable), None);
    }
    if plan.order.InstallTarget? || plan.order.AlreadyCurrent? {
      if s.text.render(state.value) != plan.target || IndexOf(s.releases, s.text.render(state.value)) < 0 {
        return Execution(Some(OffLadder), state);
      }
      if plan.order.AlreadyCurrent? && !cluster.effect(0) {
        return Execution(Some(EffectFailed), state);
      }
      return Execution(None, state);
    }
    if s.text.render(state.value) != plan.current || IndexOf(s.releases, s.text.render(state.value)) < 0 {
      return Execution(Some(OffLadder), state);
    }
    ghost var first := state.value;
    for index := 0 to |plan.steps|
      invariant state.Some?
      invariant ExecuteSteps(s, plan.steps, cluster, index, state.value) == ExecuteSteps(s, plan.steps, cluster, 0, first)
    {
      if !cluster.effect(index) {
        return Execution(Some(EffectFailed), state);
      }
      state := cluster.reading(index + 1);
      if state.None? {
        return Execution(Some(ClusterUnavailable), None);
      }
      if s.text.render(state.value) != plan.steps[index].kubernetes {
        return Execution(Some(OffLadder), state);
      }
    }
    return Execution(None, state);
  }

  // --------------------------------------------------------------- the bounded loop

  /**
   The outside world of a whole convergence: what each iteration observes, whether its platform handoff
   succeeds, and how the cluster behaves while its plan is executed.
   */
  datatype World = World(observe: nat -> Observation, handoff: nat -> bool, cluster: nat -> Cluster)

  datatype Outcome = Outcome(error: Option<Error>, platformApplied: bool, iterations: nat)

  function Limit(s: Service): nat { 2 * |s.releases| + 3 }

  /** The loop from iteration `k` on. */
  function Converge(s: Service, mode: Mode, handoff: bool, w: World, k: nat, applied: bool): (r: Outcome)
    requires k <= Limit(s)
    ensures k <= r.iterations <= Limit(s)
    decreases Limit(s) - k
  {
    if k == Limit(s) then Outcome(Some(Exhausted), applied, k)
    else
      match MakePlan(s, w.observe(k))
      case Err(e) => Outcome(Some(e), applied, k)
      case Ok(plan) =>
        match ValidatePlan(s, plan, mode)
        case Some(e) => Outcome(Some(e), applied, k)
        case None =>
          if plan.order.PlatformFirst? && handoff then
            if w.handoff(k) then Converge(s, mode, handoff, w, k + 1, true) else Outcome(Some(EffectFailed), applied, k)
          else
            var execution := Execute(s, plan, mode, w.cluster(k));
            if execution.error.Some? then Outcome(execution.error, applied, k)
            else if plan.order.AlreadyCurrent? then Outcome(None, applied, k + 1)
            else Converge(s, mode, handoff, w, k + 1, applied)
  }

  method ConvergeOrchestration(s: Service, mode: Mode, handoff: bool, w: World) returns (r: Outcome)
    ensures r == Converge(s, mode, handoff, w, 0, false)
  {
    hide MakePlan, ValidatePlan, Execute;
    var limit := Limit(s);
    var platformApplied := false;
    for k := 0 to limit
      invariant Converge(s, mode, handoff, w, k, platformApplied) == Converge(s, mode, handoff, w, 0, false)
    {
      var made := MakePlan(s, w.observe(k));
      if made.Err? {
        return Outcome(Some(made.error), platformApplied, k);
      }
      var plan := made.value;
      var invalid := ValidatePlan(s, plan, mode);
      if invalid.Some? {
        return Outcome(invalid, platformApplied, k);
      }
      if plan.order.PlatformFirst? && handoff {
        if !w.handoff(k) {
          return Outcome(Some(EffectFailed), platformApplied, k);
        }
        platformApplied := true;
        continue;
      }
      var execution := ConvergePlanned(s, plan, mode, w.cluster(k));
      if execution.error.Some? {
        return Outcome(execution.error, platformApplied, k);
      }
      if plan.order.AlreadyCurrent? {
        return Outcome(None, platformApplied, k + 1);
      }
    }
    return Outcome(Some(Exhausted), platformApplied, limit);
  }

  // ------------------------------------------------------------------ main results

  /** Iteration k of a full convergence is planned and its handoff or its execution succeeds. */
  predicate Works(s: Service, w: World, k: nat) {
    && MakePlan(s, w.observe(k)).Ok?
    && var plan := MakePlan(s, w.observe(k)).value;
       if plan.order.PlatformFirst? then w.handoff(k)
       else Execute(s, plan, FullConvergence, w.cluster(k)).error.None?
  }

  /** A look at a live cluster of this version whose Big Bang root can be read. */
  ghost predicate Reads(o: Observation, version: Option<Version>) {
    o.Live? && o.rootComplete.Some? && Some(o.version) == version
  }

  /**
   Nobody else changes the Kubernetes version: after an execution that succeeded the next observation reads the
   version that the execution read last, and after a handoff that succeeded the version observed before it.
   */
  ghost predicate Coherent(s: Service, w: World) {
    forall k: nat :: Works(s, w, k) ==>
      var plan := MakePlan(s, w.observe(k)).value;
      Reads(w.observe(k + 1),
            if plan.order.PlatformFirst? then (if w.observe(k).Live? then Some(w.observe(k).version) else None)
            else Execute(s, plan, FullConvergence, w.cluster(k)).last)
  }

  /** A handoff that succeeded leaves the Big Bang root complete for the observation that follows it. */
  ghost predicate HandoffSettles(s: Service, w: World) {
    forall k: nat :: Works(s, w, k) && MakePlan(s, w.observe(k)).value.order.PlatformFirst? ==>
      w.observe(k + 1).Live? && w.observe(k + 1).rootComplete == Some(true)
  }

  /** Every plan that is made is carried out. */
  ghost predicate AllSucceed(s: Service, w: World) {
    forall k: nat :: MakePlan(s, w.observe(k)).Ok? ==> Works(s, w, k)
  }

  /**
   A world in which everything works, said of the outside alone: every effect and every handoff succeeds, an absent
   cluster comes up at the target, a live one is read as it was observed and, after a step, one rung further.
   */
  ghost predicate Obedient(s: Service, w: World) {
    forall k: nat :: w.handoff(k) && Obeys(s, w.observe(k), w.cluster(k))
  }

  predicate StepShown(s: Service, c: Cluster, i: nat) {
    i + 1 < |s.releases| ==> ShowsText(s, c.reading(1), s.releases[i + 1].kubernetes)
  }

  ghost predicate Obeys(s: Service, o: Observation, c: Cluster) {
    && c.effect(0)
    && (o.Absent? && s.releases != [] ==> ShowsText(s, c.reading(0), s.releases[|s.releases| - 1].kubernetes))
    && (o.Live? ==> c.reading(0) == Some(o.version))
    && forall i: nat :: o.Live? && OnRung(s, o.version, i) ==> StepShown(s, c, i)
  }

  /** A handoff that fails ends the run there, with what was applied before. */
  lemma FailedHandoffStops(s: Service, mode: Mode, w: World, k: nat, applied: bool)
    requires k < Limit(s) && MakePlan(s, w.observe(k)).Ok? && !w.handoff(k)
    requires var plan := MakePlan(s, w.observe(k)).value; plan.order.PlatformFirst? && Sanctioned(s, plan, mode)
    ensures Converge(s, mode, true, w, k, applied) == Outcome(Some(EffectFailed), applied, k)
  {
    ValidatesExactly(s, MakePlan(s, w.observe(k)).value, mode);
    hide MakePlan, ValidatePlan, Execute, Sanctioned;
  }

  /** There every plan that is made is carried out. */
  lemma ObedientSucceeds(s: Service, w: World)
    requires Ready(s) && Obedient(s, w)
    ensures AllSucceed(s, w)
  {
    hide Works, MakePlan, Obedient, Ready;
    forall k: nat | MakePlan(s, w.observe(k)).Ok? ensures Works(s, w, k) {
      ObedientStep(s, w, k);
    }
  }

  lemma ObedientStep(s: Service, w: World, k: nat)
    requires Ready(s) && Obedient(s, w) && MakePlan(s, w.observe(k)).Ok?
    ensures Works(s, w, k)
  {
    var o := w.observe(k);
    var plan := MakePlan(s, o).value;
    PlansValidate(s, o);
    hide ValidatePlan, Execute, Faithful, LadderValid;
    if o.Live? {
      PlanningIsTotalOnTheLadder(s, o.version, o.rootComplete);
      var i: nat :| OnRung(s, o.version, i) && o.rootComplete.Some?;
      PlanFromRung(s, o.version, o.rootComplete.value, i);
      hide MakePlan;
      RungText(s, o.version, i);
      BelowTarget(s, o.version, i);
    }
    ValidatesExactly(s, plan, FullConvergence);
    ExecutesExactly(s, plan, FullConvergence, w.cluster(k));
  }

  lemma BelowTarget(s: Service, version: Version, i: nat)
    requires Faithful(s.text) && OnRung(s, version, i)
    ensures i < |s.releases| - 1 ==> s.releases[i].kubernetes != s.releases[|s.releases| - 1].kubernetes
  {
    if s.releases[i].kubernetes == s.releases[|s.releases| - 1].kubernetes {
      TextIsUnique(s.text, s.releases, i, |s.releases| - 1);
    }
  }

  /** Without automatic upgrades a run that was not asked to upgrade stops before the first step, and changes nothing. */
  lemma DisabledUpgradesStop(s: Service, mode: Mode, handoff: bool, w: World, i: nat, k: nat, applied: bool)
    requires Faithful(s.text) && AtRung(s, w.observe(k), i) && i < |s.releases| - 1 && s.constraints.Some?
    requires !s.automaticUpgrade && !mode.UpgradeConvergence? && k < Limit(s)
    ensures Converge(s, mode, handoff, w, k, applied) == Outcome(Some(UpgradeDisabled), applied, k)
  {
    RefusedBelow(s, mode, w.observe(k), i);
    hide MakePlan, ValidatePlan, Execute;
  }

  /** A run that was asked to upgrade refuses an absent cluster. */
  lemma UpgradeNeedsCluster(s: Service, handoff: bool, w: World, k: nat, applied: bool)
    requires s.releases != [] && w.observe(k).Absent? && k < Limit(s)
    ensures Converge(s, UpgradeConvergence, handoff, w, k, applied) == Outcome(Some(NeedsCluster), applied, k)
  {
    hide Execute;
  }

  /** Outside a full convergence a step that the platform has to precede is refused. */
  lemma PlatformGoesFirst(s: Service, mode: Mode, handoff: bool, w: World, i: nat, k: nat, applied: bool)
    requires Faithful(s.text) && AtRung(s, w.observe(k), i) && i < |s.releases| - 1 && s.constraints.Some?
    requires w.observe(k).rootComplete == Some(false)
    requires s.constraints.value(w.observe(k).version) && s.constraints.value(At(s.text, s.releases, i + 1))
    requires !mode.FullConvergence? && (s.automaticUpgrade || mode.UpgradeConvergence?) && k < Limit(s)
    ensures Converge(s, mode, handoff, w, k, applied) == Outcome(Some(NeedsPlatform), applied, k)
  {
    RefusedBelow(s, mode, w.observe(k), i);
    hide MakePlan, ValidatePlan, Execute;
  }

  lemma RefusedBelow(s: Service, mode: Mode, o: Observation, i: nat)
    requires Faithful(s.text) && AtRung(s, o, i) && i < |s.releases| - 1 && s.constraints.Some?
    ensures MakePlan(s, o).Ok?
    ensures var plan := MakePlan(s, o).value;
            && (plan.order.PlatformFirst? || plan.order.KubernetesFirst?)
            && (plan.order.PlatformFirst? <==>
                o.rootComplete == Some(false) && s.constraints.value(o.version)
                && s.constraints.value(At(s.text, s.releases, i + 1)))
            && ValidatePlan(s, plan, mode) ==
               if !s.automaticUpgrade && !mode.UpgradeConvergence? then Some(UpgradeDisabled)
               else if plan.order.PlatformFirst? && !mode.FullConvergence? then Some(NeedsPlatform)
               else None
  {
    PlanFromRung(s, o.version, o.rootComplete.value, i);
    RungText(s, o.version, i);
    BelowTarget(s, o.version, i);
    hide MakePlan, Faithful, LadderValid;
  }

  ghost predicate Ready(s: Service) {
    && Faithful(s.text) && LadderValid(s.text, s.releases)
    && s.automaticUpgrade && s.constraints.Some?
  }

  ghost predicate AtRung(s: Service, o: Observation, i: nat) {
    o.Live? && o.rootComplete.Some? && OnRung(s, o.version, i)
  }

  lemma ShownRung(s: Service, version: Version, i: nat)
    requires Faithful(s.text) && LadderValid(s.text, s.releases) && i < |s.releases|
    requires s.text.render(version) == s.releases[i].kubernetes
    ensures OnRung(s, version, i)
  {
    var v := At(s.text, s.releases, i);
    RungText(s, v, i);
    assert s.text.parse(s.text.render(version)) == Some(version);
  }

  /** The plan of an iteration below the top. */
  lemma PlanBelow(s: Service, o: Observation, i: nat)
    requires Ready(s) && AtRung(s, o, i) && i < |s.releases| - 1
    ensures MakePlan(s, o).Ok?
    ensures var plan := MakePlan(s, o).value;
            && ValidatePlan(s, plan, FullConvergence).None?
            && (plan.order.PlatformFirst? || plan.order.KubernetesFirst?)
            && (plan.order.KubernetesFirst? ==> Goal(plan) == s.releases[i + 1].kubernetes)
            && (o.rootComplete == Some(true) ==> plan.order.KubernetesFirst?)
  {
    PlanFromRung(s, o.version, o.rootComplete.value, i);
    PlansValidate(s, o);
  }

  /** One successful iteration below the top either hands off and stays, or climbs exactly one rung. */
  lemma Climb(s: Service, w: World, k: nat, i: nat)
    requires Ready(s) && Coherent(s, w) && AtRung(s, w.observe(k), i) && i < |s.releases| - 1 && Works(s, w, k)
    ensures var plan := MakePlan(s, w.observe(k)).value;
            && ValidatePlan(s, plan, FullConvergence).None?
            && (plan.order.PlatformFirst? || plan.order.KubernetesFirst?)
            && AtRung(s, w.observe(k + 1), if plan.order.PlatformFirst? then i else i + 1)
            && (w.observe(k).rootComplete == Some(true) ==> plan.order.KubernetesFirst?)
  {
    hide MakePlan, ValidatePlan, Execute;
    var plan := MakePlan(s, w.observe(k)).value;
    PlanBelow(s, w.observe(k), i);
    if plan.order.KubernetesFirst? {
      ExecutionReachesGoal(s, plan, FullConvergence, w.cluster(k));
      ShownRung(s, w.observe(k + 1).version, i + 1);
    }
  }

  lemma Arrive(s: Service, w: World, k: nat)
    requires Ready(s) && AtRung(s, w.observe(k), |s.releases| - 1)
    ensures MakePlan(s, w.observe(k)).Ok?
    ensures var plan := MakePlan(s, w.observe(k)).value;
            plan.order.AlreadyCurrent? && ValidatePlan(s, plan, FullConvergence).None?
  {
    var o := w.observe(k);
    PlanFromRung(s, o.version, o.rootComplete.value, |s.releases| - 1);
    PlansValidate(s, o);
  }

  /** The climb from rung i at iteration k, counted. */
  lemma {:induction false} ClimbBound(s: Service, w: World, k: nat, i: nat, applied: bool)
    requires Ready(s) && Coherent(s, w) && HandoffSettles(s, w) && AllSucceed(s, w)
    requires AtRung(s, w.observe(k), i)
    requires var left := 2 * (|s.releases| - 1 - i) + 1; k + left <= Limit(s)
    ensures var left := 2 * (|s.releases| - 1 - i) + 1
                        - (if i < |s.releases| - 1 && w.observe(k).rootComplete == Some(true) then 1 else 0);
            var r := Converge(s, FullConvergence, true, w, k, applied);
            r.error.None? && r.iterations <= k + left
    decreases |s.releases| - i, if w.observe(k).Live? && w.observe(k).rootComplete == Some(true) then 0 else 1
  {
    hide MakePlan, ValidatePlan, Execute, Ready, Coherent, AtRung;
    RungInRange(s, w.observe(k), i);
    if i == |s.releases| - 1 {
      Arrive(s, w, k);
      assert Works(s, w, k);
    } else {
      PlanBelow(s, w.observe(k), i);
      assert Works(s, w, k);
      Climb(s, w, k, i);
      var plan := MakePlan(s, w.observe(k)).value;
      if plan.order.PlatformFirst? {
        ClimbSettled(s, w, k + 1, i, true);
      } else {
        ClimbBound(s, w, k + 1, i + 1, applied);
      }
    }
  }

  /** After a handoff the next iteration must be a Kubernetes step. */
  lemma {:induction false} ClimbSettled(s: Service, w: World, k: nat, i: nat, applied: bool)
    requires Ready(s) && Coherent(s, w) && HandoffSettles(s, w) && AllSucceed(s, w)
    requires AtRung(s, w.observe(k), i) && i < |s.releases| - 1 && w.observe(k).rootComplete == Some(true)
    requires k + 2 * (|s.releases| - 1 - i) <= Limit(s)
    ensures var r := Converge(s, FullConvergence, true, w, k, applied);
            r.error.None? && r.iterations <= k + 2 * (|s.releases| - 1 - i)
    decreases |s.releases| - i, 0
  {
    hide MakePlan, ValidatePlan, Execute, Ready, Coherent, AtRung;
    PlanBelow(s, w.observe(k), i);
    assert Works(s, w, k);
    Climb(s, w, k, i);
    ClimbBound(s, w, k + 1, i + 1, applied);
  }

  /** After an install the next observation is on the top rung. */
  lemma Installed(s: Service, w: World, k: nat)
    requires Ready(s) && Coherent(s, w) && w.observe(k).Absent? && Works(s, w, k)
    ensures ValidatePlan(s, MakePlan(s, w.observe(k)).value, FullConvergence).None?
    ensures MakePlan(s, w.observe(k)).value.order.InstallTarget?
    ensures AtRung(s, w.observe(k + 1), |s.releases| - 1)
  {
    var plan := MakePlan(s, w.observe(k)).value;
    ExecutionReachesGoal(s, plan, FullConvergence, w.cluster(k));
    hide Execute, ValidatePlan;
    ShownRung(s, w.observe(k + 1).version, |s.releases| - 1);
  }

  /**
   Convergence started on rung i of an n-rung ladder succeeds within 2(n - 1 - i) + 1 iterations, and from an
   absent cluster within 2, so the exhaustion error cannot occur.
   */
  lemma ConvergesWithinBound(s: Service, w: World, i: nat)
    requires Ready(s) && Coherent(s, w) && HandoffSettles(s, w) && AllSucceed(s, w)
    requires w.observe(0).Absent? || AtRung(s, w.observe(0), i)
    ensures var r := Converge(s, FullConvergence, true, w, 0, false);
            && r.error.None?
            && (w.observe(0).Absent? ==> r.iterations <= 2)
            && (w.observe(0).Live? ==> r.iterations <= 2 * (|s.releases| - 1 - i) + 1)
  {
    if w.observe(0).Live? {
      ClimbBound(s, w, 0, i, false);
    } else {
      assert MakePlan(s, w.observe(0)).Ok?;
      assert Works(s, w, 0);
      Installed(s, w, 0);
      hide Execute, ValidatePlan, MakePlan;
      ClimbBound(s, w, 1, |s.releases| - 1, false);
    }
  }

  /** The rung an observation stands on. */
  function Rung(s: Service, o: Observation): int {
    if o.Live? then IndexOf(s.releases, s.text.render(o.version)) else -1
  }

  lemma RungIs(s: Service, o: Observation, i: nat)
    requires Faithful(s.text) && AtRung(s, o, i)
    ensures Rung(s, o) == i
  {
    RungText(s, o.version, i);
  }

  /** What a run says about the iterations it went through: they worked, and only the last one found the target. */
  lemma {:induction false} PassedIterations(s: Service, w: World, k: nat, applied: bool, j: nat)
    requires k <= Limit(s) && k <= j < Converge(s, FullConvergence, true, w, k, applied).iterations
    ensures MakePlan(s, w.observe(j)).Ok? && Works(s, w, j)
    ensures var r := Converge(s, FullConvergence, true, w, k, applied);
            MakePlan(s, w.observe(j)).value.order.AlreadyCurrent? ==> r.error.None? && j == r.iterations - 1
    decreases Limit(s) - k
  {
    hide MakePlan, ValidatePlan, Execute;
    if k < Limit(s) && MakePlan(s, w.observe(k)).Ok? {
      var plan := MakePlan(s, w.observe(k)).value;
      if ValidatePlan(s, plan, FullConvergence).None? && Works(s, w, k) && !plan.order.AlreadyCurrent? && j > k {
        PassedIterations(s, w, k + 1, applied || plan.order.PlatformFirst?, j);
      }
    }
  }

  /**
   No skip and no downgrade: each observation of a run is on the rung of the one before or on the next. Nothing is
   assumed about the steps; those that were passed succeeded, and what they established is what is used.
   */
  lemma {:induction false} NeverSkips(s: Service, w: World, i: nat, k: nat)
    requires Ready(s) && Coherent(s, w) && AtRung(s, w.observe(0), i)
    requires var r := Converge(s, FullConvergence, true, w, 0, false);
             if r.error.None? then k < r.iterations else k <= r.iterations
    ensures 0 <= Rung(s, w.observe(k)) && AtRung(s, w.observe(k), Rung(s, w.observe(k)))
    ensures i <= Rung(s, w.observe(k)) <= i + k
    ensures k > 0 ==> Rung(s, w.observe(k - 1)) <= Rung(s, w.observe(k)) <= Rung(s, w.observe(k - 1)) + 1
  {
    hide AtRung, MakePlan, ValidatePlan, Execute, Converge, Works, Rung, Coherent, Ready;
    assert Faithful(s.text) by { FaithfulWhenReady(s); }
    if k == 0 {
      RungIs(s, w.observe(0), i);
    } else {
      NeverSkips(s, w, i, k - 1);
      var before := Rung(s, w.observe(k - 1));
      PassedIterations(s, w, 0, false, k - 1);
      NotAtTop(s, w, k - 1, before);
      Climb(s, w, k - 1, before);
      var plan := MakePlan(s, w.observe(k - 1)).value;
      RungIs(s, w.observe(k), if plan.order.PlatformFirst? then before else before + 1);
    }
  }

  lemma NotAtTop(s: Service, w: World, k: nat, i: nat)
    requires Ready(s) && AtRung(s, w.observe(k), i) && Works(s, w, k)
    requires !MakePlan(s, w.observe(k)).value.order.AlreadyCurrent?
    ensures i < |s.releases| - 1
  {
    hide MakePlan, ValidatePlan, Execute, Works;
    if i >= |s.releases| - 1 {
      Arrive(s, w, k);
    }
  }

  lemma FaithfulWhenReady(s: Service)
    requires Ready(s)
    ensures Faithful(s.text) && LadderValid(s.text, s.releases)
  {
  }

  /** Success is never claimed short of the target: the last observation is the last rung of the ladder. */
  lemma {:induction false} SuccessMeansTarget(s: Service, mode: Mode, handoff: bool, w: World, k: nat, applied: bool)
    requires Faithful(s.text) && LadderValid(s.text, s.releases) && k <= Limit(s)
    requires Converge(s, mode, handoff, w, k, applied).error.None?
    ensures var r := Converge(s, mode, handoff, w, k, applied);
            r.iterations > k && AtRung(s, w.observe(r.iterations - 1), |s.releases| - 1)
    decreases Limit(s) - k
  {
    hide MakePlan, ValidatePlan, Execute, AtRung;
    var plan := MakePlan(s, w.observe(k)).value;
    if plan.order.AlreadyCurrent? {
      CurrentMeansTop(s, w.observe(k));
    } else {
      SuccessMeansTarget(s, mode, handoff, w, k + 1, applied || (plan.order.PlatformFirst? && handoff));
    }
  }

  lemma CurrentMeansTop(s: Service, o: Observation)
    requires Faithful(s.text) && LadderValid(s.text, s.releases)
    requires MakePlan(s, o).Ok? && MakePlan(s, o).value.order.AlreadyCurrent?
    ensures AtRung(s, o, |s.releases| - 1)
  {
    assert o.Live?;
    PlanningIsTotalOnTheLadder(s, o.version, o.rootComplete);
    var i: nat :| OnRung(s, o.version, i) && o.rootComplete.Some?
                  && (i == |s.releases| - 1 || s.constraints.Some?);
    hide MakePlan, LadderValid, Faithful;
    PlanFromRung(s, o.version, o.rootComplete.value, i);
  }

  // ------------------------------------------- without the settling assumption, exactly

  predicate PlansStep(s: Service, o: Observation) {
    MakePlan(s, o).Ok? && MakePlan(s, o).value.order.KubernetesFirst?
  }

  /** How many of the observations in [k, m) plan a Kubernetes step. */
  function StepsIn(s: Service, w: World, k: nat, m: nat): nat
    decreases m - k
  {
    if k >= m then 0 else (if PlansStep(s, w.observe(k)) then 1 else 0) + StepsIn(s, w, k + 1, m)
  }

  lemma {:induction false} ExhaustionCount(s: Service, w: World, k: nat, i: nat, applied: bool)
    requires Ready(s) && Coherent(s, w) && AllSucceed(s, w)
    requires AtRung(s, w.observe(k), i) && k < Limit(s)
    ensures var r := Converge(s, FullConvergence, true, w, k, applied);
            && (r.error.None? || r.error == Some(Exhausted))
            && (r.error == Some(Exhausted) <==> StepsIn(s, w, k, Limit(s) - 1) < |s.releases| - 1 - i)
    decreases Limit(s) - k
  {
    hide AtRung, MakePlan, ValidatePlan, Execute, Coherent, Ready;
    RungInRange(s, w.observe(k), i);
    if i == |s.releases| - 1 {
      Arrive(s, w, k);
      assert Works(s, w, k);
    } else {
      PlanBelow(s, w.observe(k), i);
      assert Works(s, w, k);
      Climb(s, w, k, i);
      var plan := MakePlan(s, w.observe(k)).value;
      if k + 1 < Limit(s) {
        if plan.order.PlatformFirst? {
          ExhaustionCount(s, w, k + 1, i, true);
        } else {
          ExhaustionCount(s, w, k + 1, i + 1, applied);
        }
      }
    }
  }

  lemma RungInRange(s: Service, o: Observation, i: nat)
    requires AtRung(s, o, i)
    ensures i < |s.releases|
  {
  }

  /**
   When nothing is assumed about the Big Bang root, the loop runs out if and only if fewer than n - 1 - i of
   its first 2n + 2 observations plan a Kubernetes step; otherwise it succeeds.
   */
  lemma ExhaustedExactly(s: Service, w: World, i: nat)
    requires Ready(s) && Coherent(s, w) && AllSucceed(s, w) && AtRung(s, w.observe(0), i)
    ensures var r := Converge(s, FullConvergence, true, w, 0, false);
            && (r.error == Some(Exhausted) <==> StepsIn(s, w, 0, 2 * |s.releases| + 2) < |s.releases| - 1 - i)
            && (r.error != Some(Exhausted) ==> r.error.None?)
  {
    hide Converge, StepsIn, AtRung;
    ExhaustionCount(s, w, 0, i, false);
  }

  /** A cluster stuck at one version whose root never completes; every handoff succeeds. */
  function Flapping(version: Version): World {
    World(_ => Live(version, Some(false)), _ => true, _ => Cluster(_ => None, _ => false))
  }

  /** A root that never completes: every observation below the top hands off again, and the bound is hit. */
  lemma FlappingRootExhausts(s: Service, version: Version, i: nat)
    requires Ready(s) && OnRung(s, version, i) && i < |s.releases| - 1
    requires s.constraints.value(version) && s.constraints.value(At(s.text, s.releases, i + 1))
    ensures Converge(s, FullConvergence, true, Flapping(version), 0, false).error == Some(Exhausted)
  {
    var w := Flapping(version);
    PlanFromRung(s, version, false, i);
    hide Execute, ValidatePlan, MakePlan, Converge;
    assert forall k: nat :: Works(s, w, k);
    NoSteps(s, w, 0, 2 * |s.releases| + 2);
    ExhaustedExactly(s, w, i);
  }

  lemma {:induction false} NoSteps(s: Service, w: World, k: nat, m: nat)
    requires forall j: nat :: !PlansStep(s, w.observe(j))
    ensures StepsIn(s, w, k, m) == 0
    decreases m - k
  {
    if k < m {
      NoSteps(s, w, k + 1, m);
    }
  }

  // ---------------------------------------------------------------- full convergence

  /** runFullConvergence: converge, then apply the platform unless a handoff already did; counts the applies. */
  function RunFull(s: Service, w: World, finalApply: bool): (r: (Option<Error>, nat)) {
    var c := Converge(s, FullConvergence, true, w, 0, false);
    var handoffs := Handoffs(s, w, 0, c.iterations);
    if c.error.Some? then (c.error, handoffs)
    else if c.platformApplied then (None, handoffs)
    else if finalApply then (None, handoffs + 1)
    else (Some(EffectFailed), handoffs)
  }

  /** Successful handoffs among the observations in [k, m). */
  function Handoffs(s: Service, w: World, k: nat, m: nat): nat
    decreases m - k
  {
    if k >= m then 0
    else
      var here := MakePlan(s, w.observe(k)).Ok? && MakePlan(s, w.observe(k)).value.order.PlatformFirst? && w.handoff(k);
      (if here then 1 else 0) + Handoffs(s, w, k + 1, m)
  }

  lemma {:induction false} AppliedMeansHandoff(s: Service, w: World, k: nat, applied: bool)
    requires k <= Limit(s)
    ensures var r := Converge(s, FullConvergence, true, w, k, applied);
            r.platformApplied <==> applied || Handoffs(s, w, k, r.iterations) > 0
    decreases Limit(s) - k
  {
    hide MakePlan, ValidatePlan, Execute;
    if k < Limit(s) && MakePlan(s, w.observe(k)).Ok? {
      var plan := MakePlan(s, w.observe(k)).value;
      if ValidatePlan(s, plan, FullConvergence).None? && Works(s, w, k) && !plan.order.AlreadyCurrent? {
        AppliedMeansHandoff(s, w, k + 1, applied || plan.order.PlatformFirst?);
      }
    }
  }

  /** A full convergence that succeeds applied the platform at least once and left the cluster at the target. */
  lemma FullConvergenceDelivers(s: Service, w: World, finalApply: bool)
    requires Faithful(s.text) && LadderValid(s.text, s.releases)
    requires RunFull(s, w, finalApply).0.None?
    ensures RunFull(s, w, finalApply).1 >= 1
    ensures var n := Converge(s, FullConvergence, true, w, 0, false).iterations;
            n > 0 && AtRung(s, w.observe(n - 1), |s.releases| - 1)
  {
    AppliedMeansHandoff(s, w, 0, false);
    SuccessMeansTarget(s, FullConvergence, true, w, 0, false);
  }
}
