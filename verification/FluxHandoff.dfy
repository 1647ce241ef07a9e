/**
 The platform handoff and the upgrade planner look at the same Big Bang root through different code. On one
 cluster snapshot the two must agree, or the convergence loop would hand off forever.
 */
module FluxHandoff {
  import opened Outcomes
  import Sorting
  import Text
  import Convergence
  import ReleaseLadder

  /** A field of an unstructured object, as NestedString reads it. */
  datatype Field = Missing | Malformed | Str(value: string)

  /** The value NestedString returns when its flags are ignored. */
  function Loose(f: Field): string { if f.Str? then f.value else "" }

  datatype Object = Object(namespace: string, name: string, ready: bool, url: Field, tag: Field,
                           chartKind: Field, chartName: Field, chartNamespace: Field)

  /** The objects of one kind, or None when the cluster does not serve that API. */
  type Listing = Option<seq<Object>>

  datatype Snapshot = Snapshot(sources: Listing, releases: Listing)

  const ROOT_NAMESPACE := "bigbang"
  const ROOT_NAME := "bigbang"
  const ROOT := "bigbang/bigbang"

  function FullName(o: Object): string { o.namespace + "/" + o.name }

  /** Kubernetes keeps names free of slashes and unique per namespace. */
  predicate WellNamed(listing: Listing) {
    listing.Some? ==>
      && (forall i :: 0 <= i < |listing.value| ==> '/' !in listing.value[i].namespace && '/' !in listing.value[i].name)
      && (forall i, j :: 0 <= i < j < |listing.value| ==> FullName(listing.value[i]) != FullName(listing.value[j]))
  }

  /** GetResource: an absent API reads as not found. */
  function Get(listing: Listing, namespace: string, name: string): (r: Option<Object>)
    ensures r.Some? ==> listing.Some? && r.value in listing.value && r.value.namespace == namespace && r.value.name == name
    ensures r.None? && listing.Some? ==>
              forall o :: o in listing.value ==> o.namespace != namespace || o.name != name
    decreases if listing.Some? then |listing.value| else 0
  {
    if listing.None? || listing.value == [] then None
    else if listing.value[0].namespace == namespace && listing.value[0].name == name then Some(listing.value[0])
    else Get(Some(listing.value[1..]), namespace, name)
  }

  // ------------------------------------------------------------ the planner's view

  datatype Observation = Observation(found: bool, targetCurrent: bool, sourceReady: bool, helmReleaseReady: bool)

  predicate Complete(o: Observation) {
    o.found && o.targetCurrent && o.sourceReady && o.helmReleaseReady
  }

  datatype Error = IncompleteTarget | HalfRoot | WrongUrl | NoTag | WrongChart

  predicate ChartRefMatches(o: Object) {
    && Loose(o.chartKind) == "OCIRepository" && Loose(o.chartName) == ROOT_NAME
    && (Loose(o.chartNamespace) == "" || Loose(o.chartNamespace) == ROOT_NAMESPACE)
  }

  /** Flux reads a chart reference without a namespace in the namespace of its release. */
  predicate TakesChartFrom(release: Object, source: Object) {
    && release.chartKind == Str("OCIRepository") && release.chartName == Str(source.name)
    && source.namespace == (if Loose(release.chartNamespace) == "" then release.namespace else release.chartNamespace.value)
  }

  /** Both halves of the root are absent, or both are there, wired together, with some version of the right artifact. */
  predicate RootReadable(s: Snapshot, url: string) {
    var source := Get(s.sources, ROOT_NAMESPACE, ROOT_NAME);
    var release := Get(s.releases, ROOT_NAMESPACE, ROOT_NAME);
    || (source.None? && release.None?)
    || (source.Some? && release.Some? && source.value.url == Str(url) && source.value.tag.Str?
        && source.value.tag.value != "" && TakesChartFrom(release.value, source.value))
  }

  /** The planner calls the root complete exactly when it is healthy. */
  function ObserveFluxHelmRoot(s: Snapshot, url: string, tag: string): (r: Result<Observation, Error>)
    ensures (r.Ok? && Complete(r.value)) <==> url != "" && tag != "" && RootHealthy(s, url, tag)
    ensures r.Ok? <==> url != "" && tag != "" && RootReadable(s, url)
    ensures r.Ok? ==> (r.value.found <==> Get(s.sources, ROOT_NAMESPACE, ROOT_NAME).Some?)
  {
    if url == "" || tag == "" then Err(IncompleteTarget)
    else
      var source := Get(s.sources, ROOT_NAMESPACE, ROOT_NAME);
      var release := Get(s.releases, ROOT_NAMESPACE, ROOT_NAME);
      if source.Some? != release.Some? then Err(HalfRoot)
      else if source.None? then Ok(Observation(false, false, false, false))
      else if source.value.url != Str(url) then Err(WrongUrl)
      else if !source.value.tag.Str? || source.value.tag.value == "" then Err(NoTag)
      else if !ChartRefMatches(release.value) then Err(WrongChart)
      else Ok(Observation(true, source.value.tag.value == tag, source.value.ready, release.value.ready))
  }

  // ------------------------------------------------------------ the handoff's view

  datatype Status = Status(name: string, ready: bool)

  predicate ResourcesReady(statuses: seq<Status>) {
    statuses != [] && forall i :: 0 <= i < |statuses| ==> statuses[i].ready
  }

  /** What the status list says about the root: whether it is listed, and whether every listing of it is ready. */
  ghost predicate Listed(statuses: seq<Status>, name: string) {
    exists i :: 0 <= i < |statuses| && statuses[i].name == name
  }

  ghost predicate EntryReady(statuses: seq<Status>, name: string) {
    Listed(statuses, name) && forall i :: 0 <= i < |statuses| && statuses[i].name == name ==> statuses[i].ready
  }

  /** The list reports the root exactly when the cluster has it, with the object's own readiness. */
  ghost predicate ReflectsRoot(statuses: seq<Status>, listing: Listing) {
    var root := Get(listing, ROOT_NAMESPACE, ROOT_NAME);
    && (Listed(statuses, ROOT) <==> root.Some?)
    && (root.Some? ==> forall i :: 0 <= i < |statuses| && statuses[i].name == ROOT ==> statuses[i].ready == root.value.ready)
  }

  lemma RootName(o: Object)
    requires '/' !in o.namespace && '/' !in o.name
    ensures FullName(o) == ROOT <==> o.namespace == ROOT_NAMESPACE && o.name == ROOT_NAME
  {
    if FullName(o) == ROOT {
      assert ROOT[|o.namespace|] == '/' by { assert FullName(o)[|o.namespace|] == '/'; }
      assert |o.namespace| == 7;
      assert o.namespace == ROOT[..7] && o.name == ROOT[8..];
    }
  }

  /** The status of one object. */
  function StatusOf(o: Object): Status { Status(FullName(o), o.ready) }

  predicate SortedByName(statuses: seq<Status>) {
    forall i, j :: 0 <= i < j < |statuses| ==> Text.Le(statuses[i].name, statuses[j].name)
  }

  /** One status per object with its own name and readiness, by name; or one that is not ready, named by the kind. */
  ghost predicate StatusesOf(statuses: seq<Status>, listing: Listing, kind: string) {
    if listing.None? || listing.value == [] then statuses == [Status(kind, false)]
    else multiset(statuses) == multiset(Sorting.Map(StatusOf, listing.value)) && SortedByName(statuses)
  }

  /** observeResourceStatuses: one status per object, sorted; a placeholder when there is nothing to list. */
  method ObserveResourceStatuses(listing: Listing, kind: string) returns (statuses: seq<Status>)
    requires WellNamed(listing) && kind != ROOT
    ensures ReflectsRoot(statuses, listing) && StatusesOf(statuses, listing, kind)
    ensures ResourcesReady(statuses) <==> AllReady(listing)
  {
    if listing.None? || listing.value == [] {
      statuses := [Status(kind, false)];
      assert !statuses[0].ready;
      return;
    }
    var raw: seq<Status> := [];
    for i := 0 to |listing.value|
      invariant |raw| == i
      invariant forall k :: 0 <= k < i ==> raw[k] == Status(FullName(listing.value[k]), listing.value[k].ready)
    {
      raw := raw + [Status(FullName(listing.value[i]), listing.value[i].ready)];
    }
    RawReflects(raw, listing);
    statuses := Sorting.SortByText(raw, (s: Status) => s.name);
    ReflectsPermuted(raw, statuses, listing);
    assert raw == Sorting.Map(StatusOf, listing.value);
    ReadyPermuted(listing.value, statuses);
  }

  /** There are objects of the kind, and all of them are ready. */
  predicate AllReady(listing: Listing) {
    listing.Some? && listing.value != [] && forall i :: 0 <= i < |listing.value| ==> listing.value[i].ready
  }

  lemma ReadyPermuted(objects: seq<Object>, statuses: seq<Status>)
    requires objects != [] && multiset(statuses) == multiset(Sorting.Map(StatusOf, objects))
    ensures ResourcesReady(statuses) <==> AllReady(Some(objects))
  {
    var raw := Sorting.Map(StatusOf, objects);
    assert |multiset(statuses)| == |statuses| && |multiset(raw)| == |raw|;
    forall i | 0 <= i < |raw| ensures raw[i] in statuses {
      assert raw[i] in multiset(raw);
    }
    forall i | 0 <= i < |statuses| ensures statuses[i] in raw {
      assert statuses[i] in multiset(statuses);
    }
    if ResourcesReady(statuses) {
      forall i | 0 <= i < |objects| ensures objects[i].ready {
        assert raw[i] in statuses && raw[i] == StatusOf(objects[i]);
      }
    }
  }

  lemma RawReflects(raw: seq<Status>, listing: Listing)
    requires listing.Some? && WellNamed(listing) && |raw| == |listing.value|
    requires forall k :: 0 <= k < |raw| ==> raw[k] == Status(FullName(listing.value[k]), listing.value[k].ready)
    ensures ReflectsRoot(raw, listing)
  {
    var objects := listing.value;
    forall k | 0 <= k < |raw|
      ensures raw[k].name == ROOT <==> objects[k].namespace == ROOT_NAMESPACE && objects[k].name == ROOT_NAME
    {
      RootName(objects[k]);
    }
    var root := Get(listing, ROOT_NAMESPACE, ROOT_NAME);
    if root.Some? {
      var k :| 0 <= k < |objects| && objects[k] == root.value;
      assert raw[k].name == ROOT;
    }
  }

  /** Reordering a status list does not change what it says about the root. */
  lemma ReflectsPermuted(a: seq<Status>, b: seq<Status>, listing: Listing)
    requires ReflectsRoot(a, listing) && multiset(a) == multiset(b)
    ensures ReflectsRoot(b, listing)
  {
    forall i | 0 <= i < |b| ensures b[i] in a {
      assert b[i] in multiset(b);
    }
    forall i | 0 <= i < |a| ensures a[i] in b {
      assert a[i] in multiset(a);
    }
  }

  /** ensureResourceStatus: the index of the entry, appended as not ready and sorted in when missing. */
  method EnsureResourceStatus(statuses: seq<Status>, name: string) returns (r: seq<Status>, index: nat)
    ensures index < |r| && r[index].name == name
    ensures Listed(statuses, name) ==> r == statuses
    ensures !Listed(statuses, name) ==> multiset(r) == multiset(statuses + [Status(name, false)]) && !r[index].ready
  {
    for i := 0 to |statuses|
      invariant forall k :: 0 <= k < i ==> statuses[k].name != name
    {
      if statuses[i].name == name {
        return statuses, i;
      }
    }
    r := Sorting.SortByText(statuses + [Status(name, false)], (s: Status) => s.name);
    assert (statuses + [Status(name, false)])[|statuses|] == Status(name, false);
    assert Status(name, false) in multiset(r);
    assert Status(name, false) in r;
    for i := 0 to |r|
      invariant forall k :: 0 <= k < i ==> r[k].name != name
    {
      if r[i].name == name {
        index := i;
        assert r[i] in multiset(r);
        return;
      }
    }
    assert false;
  }

  // ------------------------------------------------------------------ main results

  /** The root is there, at the wanted version, wired together, and both halves are ready. */
  predicate RootHealthy(s: Snapshot, url: string, tag: string) {
    var source := Get(s.sources, ROOT_NAMESPACE, ROOT_NAME);
    var release := Get(s.releases, ROOT_NAMESPACE, ROOT_NAME);
    && source.Some? && release.Some?
    && source.value.ready && release.value.ready
    && source.value.url == Str(url) && source.value.tag == Str(tag)
    && TakesChartFrom(release.value, source.value)
  }

  /** Entries other than the root's survive an update of the list. */
  ghost predicate KeepsOthers(before: seq<Status>, after: seq<Status>) {
    forall s: Status :: s.name != ROOT ==> multiset(before)[s] == multiset(after)[s]
  }

  lemma UpdateKeepsOthers(list: seq<Status>, index: nat, ready: bool)
    requires index < |list| && list[index].name == ROOT
    ensures KeepsOthers(list, list[index := Status(ROOT, ready)])
  {
    var after := list[index := Status(ROOT, ready)];
    assert list == list[..index] + [list[index]] + list[index + 1..];
    assert after == list[..index] + [Status(ROOT, ready)] + list[index + 1..];
  }

  /**
   requireCurrentBigBangRoot: edits the two lists so that their root entries are both ready exactly when the
   root is healthy, and touches no other entry.
   */
  method RequireCurrentBigBangRoot(s: Snapshot, url: string, tag: string, sources: seq<Status>, releases: seq<Status>)
    returns (sources': seq<Status>, releases': seq<Status>)
    requires url != "" && tag != ""
    requires ReflectsRoot(sources, s.sources) && ReflectsRoot(releases, s.releases)
    ensures EntryReady(sources', ROOT) && EntryReady(releases', ROOT) <==> RootHealthy(s, url, tag)
    ensures var source, release := Get(s.sources, ROOT_NAMESPACE, ROOT_NAME), Get(s.releases, ROOT_NAMESPACE, ROOT_NAME);
            && (EntryReady(sources', ROOT) <==>
                source.Some? && source.value.ready
                && (release.Some? ==> source.value.url == Str(url) && source.value.tag == Str(tag)))
            && (EntryReady(releases', ROOT) <==>
                release.Some? && release.value.ready && (source.Some? ==> TakesChartFrom(release.value, source.value)))
    ensures Listed(sources', ROOT) && Listed(releases', ROOT)
    ensures KeepsOthers(sources, sources') && KeepsOthers(releases, releases')
  {
    var source := Get(s.sources, ROOT_NAMESPACE, ROOT_NAME);
    var release := Get(s.releases, ROOT_NAMESPACE, ROOT_NAME);
    var i, j;
    sources', i := EnsureResourceStatus(sources, ROOT);
    releases', j := EnsureResourceStatus(releases, ROOT);
    EnsuredKeepsOthers(sources, sources');
    EnsuredKeepsOthers(releases, releases');
    if source.None? || release.None? {
      return;
    }
    if Loose(source.value.url) != url || Loose(source.value.tag) != tag {
      UpdateKeepsOthers(sources', i, false);
      sources' := sources'[i := Status(ROOT, false)];
    }
    if !ChartRefMatches(release.value) {
      UpdateKeepsOthers(releases', j, false);
      releases' := releases'[j := Status(ROOT, false)];
    }
    assert sources'[i].name == ROOT && releases'[j].name == ROOT;
  }

  lemma EnsuredKeepsOthers(before: seq<Status>, after: seq<Status>)
    requires after == before || multiset(after) == multiset(before + [Status(ROOT, false)])
    ensures KeepsOthers(before, after)
  {
  }

  /** The edited list is ready if and only if its root entry is and the others were. */
  lemma ReadyAfter(before: seq<Status>, after: seq<Status>)
    requires KeepsOthers(before, after) && Listed(after, ROOT)
    ensures ResourcesReady(after) <==> EntryReady(after, ROOT) && OthersReady(before)
    ensures ResourcesReady(before) ==> OthersReady(before)
    ensures OthersReady(before) && EntryReady(before, ROOT) ==> ResourcesReady(before)
  {
    forall i | 0 <= i < |before| && before[i].name != ROOT ensures before[i] in after {
      assert before[i] in multiset(before);
      assert multiset(after)[before[i]] > 0;
    }
    forall i | 0 <= i < |after| && after[i].name != ROOT ensures after[i] in before {
      assert after[i] in multiset(after);
      assert multiset(before)[after[i]] > 0;
    }
  }

  /** The observed list has a ready root entry exactly when the cluster has a ready root. */
  lemma ReflectedReady(statuses: seq<Status>, listing: Listing)
    requires ReflectsRoot(statuses, listing)
    ensures var root := Get(listing, ROOT_NAMESPACE, ROOT_NAME);
            EntryReady(statuses, ROOT) <==> root.Some? && root.value.ready
  {
    hide Get;
  }

  predicate OthersReady(statuses: seq<Status>) {
    forall i :: 0 <= i < |statuses| && statuses[i].name != ROOT ==> statuses[i].ready
  }

  /** The six dimensions of a reconciliation, of which the root touches two. */
  datatype Reconciliation = Reconciliation(git: seq<Status>, kustomizations: seq<Status>, sources: seq<Status>,
                                           releases: seq<Status>, certificates: seq<Status>, identities: seq<Status>)

  predicate ReconciliationComplete(r: Reconciliation) {
    && ResourcesReady(r.git) && ResourcesReady(r.kustomizations) && ResourcesReady(r.sources)
    && ResourcesReady(r.releases) && ResourcesReady(r.certificates) && ResourcesReady(r.identities)
  }

  /** The report's two root entries are ready exactly when the root of the snapshot is healthy. */
  ghost predicate ReportsOn(r: Reconciliation, s: Snapshot, url: string, tag: string) {
    EntryReady(r.sources, ROOT) && EntryReady(r.releases, ROOT) <==> RootHealthy(s, url, tag)
  }

  /** What the planner reads of the root: None when the look fails. */
  function PlannerRoot(s: Snapshot, url: string, tag: string): Option<bool> {
    match ObserveFluxHelmRoot(s, url, tag)
    case Err(_) => None
    case Ok(o) => Some(Complete(o))
  }

  /** A complete report on a snapshot means the planner finds the root of that snapshot complete. */
  lemma CompleteReportCompletesRoot(r: Reconciliation, s: Snapshot, url: string, tag: string)
    requires url != "" && tag != "" && ReportsOn(r, s, url, tag) && ReconciliationComplete(r)
    requires Listed(r.sources, ROOT) && Listed(r.releases, ROOT)
    ensures PlannerRoot(s, url, tag) == Some(true)
  {
  }

  /** No plan made from a live cluster with a complete root is platform first. */
  lemma CompleteRootPlansKubernetes(service: Convergence.Service, v: ReleaseLadder.Version)
    ensures var made := Convergence.MakePlan(service, Convergence.Live(v, Some(true)));
            made.Ok? ==> !made.value.order.PlatformFirst?
  {
  }

  /**
   Observes one snapshot. If the reconciliation it reports is complete, the planner's observation of that same
   snapshot succeeds and is complete, so no plan made with it puts the platform first again.
   */
  method ObserveFluxReconciliation(s: Snapshot, url: string, tag: string, git: seq<Status>,
                                   kustomizations: seq<Status>, certificates: seq<Status>, identities: seq<Status>)
    returns (r: Reconciliation)
    requires url != "" && tag != "" && WellNamed(s.sources) && WellNamed(s.releases)
    ensures ReportsOn(r, s, url, tag) && Listed(r.sources, ROOT) && Listed(r.releases, ROOT)
    ensures EntryReady(r.sources, ROOT) && EntryReady(r.releases, ROOT) <==> PlannerRoot(s, url, tag) == Some(true)
    ensures ReconciliationComplete(r) <==>
              && RootHealthy(s, url, tag) && AllReady(s.sources) && AllReady(s.releases) && ResourcesReady(git)
              && ResourcesReady(kustomizations) && ResourcesReady(certificates) && ResourcesReady(identities)
    ensures ReconciliationComplete(r) ==>
              && PlannerRoot(s, url, tag) == Some(true)
              && forall service: Convergence.Service, v: ReleaseLadder.Version ::
                   var made := Convergence.MakePlan(service, Convergence.Live(v, PlannerRoot(s, url, tag)));
                   made.Ok? ==> !made.value.order.PlatformFirst?
  {
    hide Convergence.MakePlan, AllReady, OthersReady, Listed, EntryReady, KeepsOthers, StatusesOf, ResourcesReady, ReflectsRoot;
    var sources := ObserveResourceStatuses(s.sources, "OCIRepository");
    var releases := ObserveResourceStatuses(s.releases, "HelmRelease");
    ghost var listed, deployed := sources, releases;
    sources, releases := RequireCurrentBigBangRoot(s, url, tag, sources, releases);
    ReflectedReady(listed, s.sources);
    ReflectedReady(deployed, s.releases);
    ReadyAfter(listed, sources);
    ReadyAfter(deployed, releases);
    r := Reconciliation(git, kustomizations, sources, releases, certificates, identities);
    if ReconciliationComplete(r) {
      CompleteReportCompletesRoot(r, s, url, tag);
      forall service: Convergence.Service, v: ReleaseLadder.Version
        ensures var made := Convergence.MakePlan(service, Convergence.Live(v, Some(true)));
                made.Ok? ==> !made.value.order.PlatformFirst?
      {
        CompleteRootPlansKubernetes(service, v);
      }
    }
  }

  // ------------------------------------------------------------ in the convergence loop

  /** The world's observations of the root are the planner's looks at these snapshots. */
  ghost predicate Observes(w: Convergence.World, snapshots: nat -> Snapshot, url: string, tag: string) {
    forall k: nat :: w.observe(k).Live? ==> w.observe(k).rootComplete == PlannerRoot(snapshots(k), url, tag)
  }

  /** A handoff succeeds only with a complete report, on the state that the next iteration observes. */
  ghost predicate HandsOffComplete(service: Convergence.Service, w: Convergence.World, snapshots: nat -> Snapshot,
                                   reports: nat -> Reconciliation, url: string, tag: string) {
    forall k: nat :: Convergence.Works(service, w, k)
                     && Convergence.MakePlan(service, w.observe(k)).value.order.PlatformFirst? ==>
      && ReconciliationComplete(reports(k)) && ReportsOn(reports(k), snapshots(k + 1), url, tag)
      && Listed(reports(k).sources, ROOT) && Listed(reports(k).releases, ROOT)
  }

  /**
   Why the loop's bound is enough: with handoffs that wait for a complete report, convergence from rung i
   succeeds within 2(n - 1 - i) + 1 iterations. That the root is settled after a handoff is derived, not assumed.
   */
  lemma HandoffsConverge(service: Convergence.Service, w: Convergence.World, i: nat, snapshots: nat -> Snapshot,
                         reports: nat -> Reconciliation, url: string, tag: string)
    requires url != "" && tag != "" && Observes(w, snapshots, url, tag)
    requires HandsOffComplete(service, w, snapshots, reports, url, tag)
    requires Convergence.Ready(service) && Convergence.Coherent(service, w) && Convergence.AllSucceed(service, w)
    requires w.observe(0).Absent? || Convergence.AtRung(service, w.observe(0), i)
    ensures Convergence.HandoffSettles(service, w)
    ensures var r := Convergence.Converge(service, Convergence.FullConvergence, true, w, 0, false);
            && r.error.None?
            && (w.observe(0).Absent? ==> r.iterations <= 2)
            && (w.observe(0).Live? ==> r.iterations <= 2 * (|service.releases| - 1 - i) + 1)
  {
    hide Convergence.MakePlan, Convergence.Execute, Convergence.Ready, Convergence.AtRung, PlannerRoot, ReportsOn,
      ReconciliationComplete;
    forall k: nat | Convergence.Works(service, w, k)
                    && Convergence.MakePlan(service, w.observe(k)).value.order.PlatformFirst?
      ensures w.observe(k + 1).Live? && w.observe(k + 1).rootComplete == Some(true)
    {
      CompleteReportCompletesRoot(reports(k), snapshots(k + 1), url, tag);
    }
    Convergence.ConvergesWithinBound(service, w, i);
  }
}
