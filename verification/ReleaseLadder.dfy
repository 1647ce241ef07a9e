/** The committed ladder of cluster releases and its validator. */
module ReleaseLadder {
  import opened Outcomes

  /** A stable release number. */
  datatype Version = Version(major: nat, minor: nat, patch: nat)

  predicate Less(a: Version, b: Version) {
    || a.major < b.major
    || (a.major == b.major && a.minor < b.minor)
    || (a.major == b.major && a.minor == b.minor && a.patch < b.patch)
  }

  /** The version library: text to stable version, and the canonical text of a version. */
  datatype VersionText = VersionText(parse: string -> Option<Version>, render: Version -> string)

  /** What is assumed of the library: canonical text reads back. */
  ghost predicate Faithful(text: VersionText) {
    forall v :: text.parse(text.render(v)) == Some(v)
  }

  /** A Kubespray source; `exact` is the outcome of the Git source checks. */
  datatype Source = Source(url: string, version: string, commit: string, exact: bool)

  datatype Release = Release(kubernetes: string, kubespray: Source, checksumsValid: bool)

  datatype Problem =
    | EmptyLadder
    | NotCanonical(index: nat)
    | InexactSource(index: nat)
    | UnstableKubespray(index: nat)
    | RepositoryChanged(index: nat)
    | InvalidChecksum(index: nat)
    | MustAdvance(index: nat)
    | Misaligned(index: nat)

  function TrimV(s: string): string {
    if s != "" && s[0] == 'v' then s[1..] else s
  }

  /** A patch step or exactly one minor step within one major. */
  predicate Advances(a: Version, b: Version) {
    Less(a, b) && a.major == b.major && a.minor <= b.minor <= a.minor + 1
  }

  /** Kubespray keeps pace with Kubernetes. */
  predicate Aligned(a: Version, b: Version, ka: Version, kb: Version) {
    ka.major == kb.major && !Less(kb, ka) && kb.minor - ka.minor == b.minor - a.minor
  }

  function Kubernetes(text: VersionText, r: Release): Option<Version> {
    text.parse(TrimV(r.kubernetes))
  }

  function Kubespray(text: VersionText, r: Release): Option<Version> {
    text.parse(TrimV(r.kubespray.version))
  }

  /** One rung on its own. */
  predicate RungValid(text: VersionText, r: Release) {
    && Kubernetes(text, r).Some? && r.kubernetes == text.render(Kubernetes(text, r).value)
    && r.kubespray.exact && Kubespray(text, r).Some? && r.checksumsValid
  }

  predicate StepValid(text: VersionText, a: Release, b: Release)
    requires RungValid(text, a) && RungValid(text, b)
  {
    && Advances(Kubernetes(text, a).value, Kubernetes(text, b).value)
    && Aligned(Kubernetes(text, a).value, Kubernetes(text, b).value, Kubespray(text, a).value, Kubespray(text, b).value)
  }

  /** The ladder, rung by rung and step by step. */
  predicate LadderValid(text: VersionText, releases: seq<Release>) {
    && releases != []
    && (forall i :: 0 <= i < |releases| ==> RungValid(text, releases[i]))
    && (forall i :: 0 <= i < |releases| ==> releases[i].kubespray.url == releases[0].kubespray.url)
    && (forall i :: 0 <= i < |releases| - 1 ==> StepValid(text, releases[i], releases[i + 1]))
  }

  /** The last rung before `i` whose version can be read, under either of the two readings. */
  function Previous(read: Release -> Option<Version>, releases: seq<Release>, i: nat): Option<Version>
    requires i <= |releases|
  {
    if i == 0 then None
    else if read(releases[i - 1]).Some? then read(releases[i - 1])
    else Previous(read, releases, i - 1)
  }

  function KubernetesOf(text: VersionText): Release -> Option<Version> { (r: Release) => Kubernetes(text, r) }

  function KubesprayOf(text: VersionText): Release -> Option<Version> { (r: Release) => Kubespray(text, r) }

  /** What is wrong with a ladder, rung by rung. */
  ghost predicate Fault(text: VersionText, releases: seq<Release>, p: Problem) {
    match p
    case EmptyLadder => releases == []
    case MustAdvance(i) => i < |releases| && StepFault(text, releases, p)
    case Misaligned(i) => i < |releases| && StepFault(text, releases, p)
    case _ => p.index < |releases| && RungFault(text, releases[0].kubespray.url, releases[p.index], p)
  }

  /** What is wrong with a rung by itself, or with its repository. */
  predicate RungFault(text: VersionText, url: string, r: Release, p: Problem) {
    match p
    case NotCanonical(_) => Kubernetes(text, r).None? || r.kubernetes != text.render(Kubernetes(text, r).value)
    case InexactSource(_) => !r.kubespray.exact
    case UnstableKubespray(_) => Kubespray(text, r).None?
    case RepositoryChanged(_) => r.kubespray.url != url
    case InvalidChecksum(_) => !r.checksumsValid
    case _ => false
  }

  /** What is wrong with the step to a rung from the last one that could be read. */
  ghost predicate StepFault(text: VersionText, releases: seq<Release>, p: Problem)
    requires !p.EmptyLadder? && p.index < |releases|
  {
    var r := releases[p.index];
    var before, tool := Previous(KubernetesOf(text), releases, p.index), Previous(KubesprayOf(text), releases, p.index);
    && before.Some? && Kubernetes(text, r).Some?
    && (p.MustAdvance? ==> !Advances(before.value, Kubernetes(text, r).value))
    && (p.Misaligned? ==>
          && tool.Some? && Kubespray(text, r).Some?
          && !Aligned(before.value, Kubernetes(text, r).value, tool.value, Kubespray(text, r).value))
  }

  /** A ladder is valid exactly when it has no fault. */
  lemma FaultlessMeansValid(text: VersionText, releases: seq<Release>)
    ensures LadderValid(text, releases) <==> forall p :: !Fault(text, releases, p)
  {
    if forall p :: !Fault(text, releases, p) {
      assert !Fault(text, releases, EmptyLadder);
      forall i | 0 <= i < |releases|
        ensures RungValid(text, releases[i]) && releases[i].kubespray.url == releases[0].kubespray.url
      {
        FaultlessRung(text, releases, i);
      }
      forall i | 0 <= i < |releases| - 1 ensures StepValid(text, releases[i], releases[i + 1]) {
        assert !Fault(text, releases, MustAdvance(i + 1)) && !Fault(text, releases, Misaligned(i + 1));
        PreviousRung(text, releases, i + 1);
      }
    }
    if LadderValid(text, releases) {
      forall p ensures !Fault(text, releases, p) {
        ValidHasNone(text, releases, p);
      }
    }
  }

  lemma FaultlessRung(text: VersionText, releases: seq<Release>, i: nat)
    requires i < |releases| && forall p :: !Fault(text, releases, p)
    ensures RungValid(text, releases[i]) && releases[i].kubespray.url == releases[0].kubespray.url
  {
    assert !Fault(text, releases, NotCanonical(i)) && !Fault(text, releases, InexactSource(i));
    assert !Fault(text, releases, UnstableKubespray(i)) && !Fault(text, releases, RepositoryChanged(i));
    assert !Fault(text, releases, InvalidChecksum(i));
  }

  lemma PreviousRung(text: VersionText, releases: seq<Release>, i: nat)
    requires 0 < i <= |releases| && RungValid(text, releases[i - 1])
    ensures Previous(KubernetesOf(text), releases, i) == Kubernetes(text, releases[i - 1])
    ensures Previous(KubesprayOf(text), releases, i) == Kubespray(text, releases[i - 1])
  {
  }

  lemma ValidHasNone(text: VersionText, releases: seq<Release>, p: Problem)
    requires LadderValid(text, releases)
    ensures !Fault(text, releases, p)
  {
    if !p.EmptyLadder? && p.index < |releases| {
      assert RungValid(text, releases[p.index]);
      if p.index > 0 {
        PreviousRung(text, releases, p.index);
        assert StepValid(text, releases[p.index - 1], releases[p.index]);
      }
    }
  }

  predicate IsStep(p: Problem) { p.MustAdvance? || p.Misaligned? }

  /** The faults of one rung by itself, in the order they are looked for. */
  method RungProblems(text: VersionText, releases: seq<Release>, i: nat) returns (problems: seq<Problem>)
    requires i < |releases|
    ensures forall p :: p in problems <==> Fault(text, releases, p) && !p.EmptyLadder? && p.index == i && !IsStep(p)
  {
    var release := releases[i];
    var kubernetes := Kubernetes(text, release);
    problems := [];
    if kubernetes.None? || release.kubernetes != text.render(kubernetes.value) {
      problems := problems + [NotCanonical(i)];
    }
    if !release.kubespray.exact {
      problems := problems + [InexactSource(i)];
    }
    if Kubespray(text, release).None? {
      problems := problems + [UnstableKubespray(i)];
    }
    if i > 0 && release.kubespray.url != releases[0].kubespray.url {
      problems := problems + [RepositoryChanged(i)];
    }
    if !release.checksumsValid {
      problems := problems + [InvalidChecksum(i)];
    }
    hide Kubernetes, Kubespray;
  }

  /** The faults of the step to one rung. */
  method StepProblems(text: VersionText, releases: seq<Release>, i: nat, before: Option<Version>, tool: Option<Version>)
    returns (problems: seq<Problem>)
    requires i < |releases| && before == Previous(KubernetesOf(text), releases, i)
    requires tool == Previous(KubesprayOf(text), releases, i)
    ensures forall p :: p in problems <==> Fault(text, releases, p) && !p.EmptyLadder? && p.index == i && IsStep(p)
  {
    hide Kubernetes, Kubespray, Advances, Aligned, Previous;
    var kubernetes, kubespray := Kubernetes(text, releases[i]), Kubespray(text, releases[i]);
    problems := [];
    if before.Some? && kubernetes.Some? {
      if !Advances(before.value, kubernetes.value) {
        problems := problems + [MustAdvance(i)];
      }
      if tool.Some? && kubespray.Some? && !Aligned(before.value, kubernetes.value, tool.value, kubespray.value) {
        problems := problems + [Misaligned(i)];
      }
    }
  }

  /** The validator reports exactly the faults of the ladder, so nothing exactly when the ladder is valid. */
  method ValidateClusterReleases(text: VersionText, releases: seq<Release>) returns (problems: seq<Problem>)
    ensures forall p :: p in problems <==> Fault(text, releases, p)
    ensures problems == [] <==> LadderValid(text, releases)
  {
    FaultlessMeansValid(text, releases);
    hide LadderValid;
    if releases == [] {
      problems := [EmptyLadder];
      assert EmptyLadder in problems;
      return;
    }
    problems := [];
    var previousKubernetes: Option<Version>, previousKubespray: Option<Version> := None, None;
    hide Fault;
    for i := 0 to |releases|
      invariant previousKubernetes == Previous(KubernetesOf(text), releases, i)
      invariant previousKubespray == Previous(KubesprayOf(text), releases, i)
      invariant forall p :: p in problems <==> Fault(text, releases, p) && !p.EmptyLadder? && p.index < i
    {
      var own := RungProblems(text, releases, i);
      var step := StepProblems(text, releases, i, previousKubernetes, previousKubespray);
      problems := problems + own + step;
      if Kubernetes(text, releases[i]).Some? {
        previousKubernetes := Kubernetes(text, releases[i]);
      }
      if Kubespray(text, releases[i]).Some? {
        previousKubespray := Kubespray(text, releases[i]);
      }
    }
    FaultsAreInside(text, releases);
    assert problems != [] ==> problems[0] in problems;
  }

  lemma FaultsAreInside(text: VersionText, releases: seq<Release>)
    requires releases != []
    ensures forall p :: Fault(text, releases, p) ==> !p.EmptyLadder? && p.index < |releases|
  {
  }

  // ---------------------------------------------------------------- global order

  function At(text: VersionText, releases: seq<Release>, i: nat): Version
    requires LadderValid(text, releases) && i < |releases|
  {
    Kubernetes(text, releases[i]).value
  }

  /** Adjacent steps make the whole ladder strictly increasing. */
  lemma {:induction false} StrictlyIncreasing(text: VersionText, releases: seq<Release>, i: nat, j: nat)
    requires LadderValid(text, releases) && i < j < |releases|
    ensures Less(At(text, releases, i), At(text, releases, j))
    ensures At(text, releases, i).major == At(text, releases, j).major
    decreases j
  {
    assert StepValid(text, releases[j - 1], releases[j]);
    if i < j - 1 {
      StrictlyIncreasing(text, releases, i, j - 1);
    }
  }

  /** Releases are ordered: one of two different ones comes first, and before what the other comes before. */
  lemma LessOrders(a: Version, b: Version, c: Version)
    ensures a == b <==> !Less(a, b) && !Less(b, a)
    ensures !(Less(a, b) && Less(b, a))
    ensures Less(a, b) && Less(b, c) ==> Less(a, c)
  {
  }

  /** A leading v is no part of the version. */
  lemma LeadingV(text: VersionText, r: Release, number: string)
    requires number == "" || number[0] != 'v'
    ensures Kubernetes(text, r.(kubernetes := "v" + number)) == Kubernetes(text, r.(kubernetes := number)) == text.parse(number)
  {
    assert ("v" + number)[1..] == number;
  }

  function SprayAt(text: VersionText, releases: seq<Release>, i: nat): Version
    requires LadderValid(text, releases) && i < |releases|
  {
    Kubespray(text, releases[i]).value
  }

  /** Over any stretch of the ladder Kubespray never goes back and climbs as many minors as Kubernetes. */
  lemma {:induction false} KubesprayKeepsPace(text: VersionText, releases: seq<Release>, i: nat, j: nat)
    requires LadderValid(text, releases) && i <= j < |releases|
    ensures var a, b := SprayAt(text, releases, i), SprayAt(text, releases, j);
            && a.major == b.major && !Less(b, a)
            && b.minor - a.minor == At(text, releases, j).minor - At(text, releases, i).minor
    decreases j
  {
    if i < j {
      assert StepValid(text, releases[j - 1], releases[j]);
      KubesprayKeepsPace(text, releases, i, j - 1);
    }
  }

  /** Rungs are told apart by their text. */
  lemma TextIsUnique(text: VersionText, releases: seq<Release>, i: nat, j: nat)
    requires LadderValid(text, releases) && i < |releases| && j < |releases|
    requires releases[i].kubernetes == releases[j].kubernetes
    ensures i == j
  {
    if i < j {
      StrictlyIncreasing(text, releases, i, j);
    } else if j < i {
      StrictlyIncreasing(text, releases, j, i);
    }
  }

  /** First rung carrying a version text, or -1. */
  method ReleaseIndex(releases: seq<Release>, version: string) returns (index: int)
    ensures index == IndexOf(releases, version)
  {
    for i := 0 to |releases|
      invariant forall k :: 0 <= k < i ==> releases[k].kubernetes != version
    {
      if releases[i].kubernetes == version {
        FirstIndex(releases, version, i);
        return i;
      }
    }
    FirstIndex(releases, version, |releases|);
    return -1;
  }

  function IndexOf(releases: seq<Release>, version: string): (index: int)
    ensures -1 <= index < |releases|
    ensures index >= 0 ==> releases[index].kubernetes == version
    ensures forall k :: 0 <= k < (if index >= 0 then index else |releases|) ==> releases[k].kubernetes != version
  {
    if releases == [] then -1
    else if releases[0].kubernetes == version then 0
    else
      var rest := IndexOf(releases[1..], version);
      if rest < 0 then -1 else rest + 1
  }

  lemma FirstIndex(releases: seq<Release>, version: string, i: nat)
    requires i <= |releases|
    requires forall k :: 0 <= k < i ==> releases[k].kubernetes != version
    requires i < |releases| ==> releases[i].kubernetes == version
    ensures IndexOf(releases, version) == if i < |releases| then i else -1
  {
  }

  /** On a valid ladder a lookup finds the one rung that carries the text. */
  lemma LookupFinds(text: VersionText, releases: seq<Release>, i: nat)
    requires LadderValid(text, releases) && i < |releases|
    ensures IndexOf(releases, releases[i].kubernetes) == i
  {
    var k := IndexOf(releases, releases[i].kubernetes);
    assert k >= 0;
    TextIsUnique(text, releases, k, i);
  }
}
