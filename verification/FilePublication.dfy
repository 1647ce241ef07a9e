/** Publishing the file manifest: ask the bastion what it lacks, upload that, then activate. */
module FilePublication {
  import opened Outcomes

  /** The bastion: the blobs it retains and whether activation of this manifest was issued. */
  class Remote {
    var present: set<string>
    var activated: bool
    /** No transfer and no command fails. */
    const healthy: bool

    constructor (present: set<string>, healthy: bool)
      ensures this.present == present && !activated && this.healthy == healthy
    {
      this.present, activated, this.healthy := present, false, healthy;
    }

    /** While transfers run, any of their blobs may arrive. */
    method Receive(running: set<string>)
      modifies this
      ensures old(present) <= present <= old(present) + running && activated == old(activated)
    {
      var arrived: set<string> := *;
      present := present + (arrived * running);
    }

    /** The end of one transfer: success means its blob has arrived; a failed one may or may not have delivered. */
    method Finish(digest: string) returns (ok: bool)
      modifies this
      ensures present == old(present) || present == old(present) + {digest}
      ensures ok ==> digest in present
      ensures activated == old(activated) && (healthy ==> ok)
    {
      ok := *;
      ok := ok || healthy;
      if ok {
        present := present + {digest};
      }
    }

    method Activate() returns (ok: bool)
      modifies this
      ensures present == old(present) && activated && (healthy ==> ok)
    {
      ok := *;
      ok := ok || healthy;
      activated := true;
    }
  }

  datatype Report = Report(digest: string, reused: bool)

  datatype Error = ReportFailed | ReportTruncated | UnknownDigest | DuplicateDigest | UploadFailed | ActivateFailed
                 | CleanupFailed

  /** The helper's answer must name digests of this manifest, each at most once. */
  method ParseMissingDigests(fields: seq<string>, expected: set<string>) returns (r: Result<set<string>, Error>)
    ensures r.Ok? <==> (forall i :: 0 <= i < |fields| ==> fields[i] in expected)
                       && forall i, j :: 0 <= i < j < |fields| ==> fields[i] != fields[j]
    ensures r.Ok? ==> r.value == (set f | f in fields) && r.value <= expected
    ensures r == Err(UnknownDigest) ==> exists i :: 0 <= i < |fields| && fields[i] !in expected
    ensures r == Err(DuplicateDigest) ==> exists i, j :: 0 <= i < j < |fields| && fields[i] == fields[j]
    ensures r.Err? ==> r.error.UnknownDigest? || r.error.DuplicateDigest?
  {
    var missing: set<string> := {};
    for i := 0 to |fields|
      invariant missing == (set f | f in fields[..i]) && missing <= expected
      invariant forall j :: 0 <= j < i ==> fields[j] in missing
      invariant forall j, k :: 0 <= j < k < i ==> fields[j] != fields[k]
    {
      assert fields[..i + 1] == fields[..i] + [fields[i]];
      if fields[i] !in expected {
        return Err(UnknownDigest);
      }
      if fields[i] in missing {
        return Err(DuplicateDigest);
      }
      missing := missing + {fields[i]};
    }
    assert fields[..|fields|] == fields;
    return Ok(missing);
  }

  /** The report names blobs of the manifest, each at most once. */
  predicate Acceptable(fields: seq<string>, digests: seq<string>) {
    && (forall i :: 0 <= i < |fields| ==> fields[i] in digests)
    && forall i, j :: 0 <= i < j < |fields| ==> fields[i] != fields[j]
  }

  /** How often a digest was reported, and as what. */
  function Count(reports: seq<Report>, r: Report): nat {
    multiset(reports)[r]
  }

  /** The reports are one upload for each digest of the set, and nothing else. */
  ghost predicate ReportsUploads(reports: seq<Report>, uploaded: set<string>) {
    forall r :: Count(reports, r) == if !r.reused && r.digest in uploaded then 1 else 0
  }

  lemma ReportUpload(reports: seq<Report>, uploaded: set<string>, digest: string)
    requires ReportsUploads(reports, uploaded) && digest !in uploaded
    ensures ReportsUploads(reports + [Report(digest, false)], uploaded + {digest})
  {
  }

  /** One transfer ends; a successful one is reported. */
  method EndUpload(remote: Remote, digest: string, reports: seq<Report>, ghost uploaded: set<string>,
                   ghost before: set<string>, ghost missing: set<string>)
    returns (ok: bool, more: seq<Report>)
    requires ReportsUploads(reports, uploaded) && digest !in uploaded && digest in missing
    requires Arrived(before, missing, uploaded, remote.present)
    modifies remote
    ensures remote.activated == old(remote.activated) && (remote.healthy ==> ok)
    ensures var now := if ok then uploaded + {digest} else uploaded;
            ReportsUploads(more, now) && Arrived(before, missing, now, remote.present)
  {
    hide ReportsUploads;
    ok := remote.Finish(digest);
    more := reports;
    if ok {
      ReportUpload(reports, uploaded, digest);
      more := reports + [Report(digest, false)];
    }
  }

  /**
   The uploads of one group. At most `limit` transfers overlap; which one starts, which blobs arrive meanwhile and
   which one ends next is open, and each may fail on its own or be cancelled by another's failure. Exactly the
   successful ones are reported, and those are retained.
   */
  method UploadAll(remote: Remote, missing: set<string>, limit: nat)
    returns (failed: bool, reports: seq<Report>, ghost uploaded: set<string>)
    requires limit >= 1
    modifies remote
    ensures remote.activated == old(remote.activated)
    ensures Arrived(old(remote.present), missing, uploaded, remote.present) && uploaded <= missing
    ensures ReportsUploads(reports, uploaded) && (!failed <==> uploaded == missing)
    ensures remote.healthy ==> !failed
  {
    hide ReportsUploads, Partition, Arrived;
    NothingArrived(remote.present, missing);
    failed, reports, uploaded := false, [], {};
    var pending, running: set<string> := missing, {};
    ghost var lost: set<string> := {};
    NoReports();
    AllPending(missing);
    while pending + running != {}
      invariant Partition(missing, pending, running, uploaded, lost) && |running| <= limit
      invariant remote.activated == old(remote.activated)
      invariant Arrived(old(remote.present), missing, uploaded, remote.present)
      invariant ReportsUploads(reports, uploaded) && (failed <==> lost != {}) && (remote.healthy ==> !failed)
      decreases |pending|, |running|
    {
      PartsWithin(missing, pending, running, uploaded, lost);
      ghost var before := remote.present;
      remote.Receive(running);
      MoreArrived(old(remote.present), missing, uploaded, before, remote.present, running);
      var start: bool := *;
      if pending != {} && |running| < limit && (start || running == {}) {
        var digest :| digest in pending;
        Started(missing, pending, running, uploaded, lost, digest);
        pending, running := pending - {digest}, running + {digest};
      } else {
        var digest :| digest in running;
        Ended(missing, pending, running, uploaded, lost, digest);
        running := running - {digest};
        var ok;
        ok, reports := EndUpload(remote, digest, reports, uploaded, old(remote.present), missing);
        if ok {
          uploaded := uploaded + {digest};
        } else {
          failed := true;
          lost := lost + {digest};
        }
      }
    }
    AllEnded(missing, uploaded, lost);
  }

  /** Every missing blob is waiting, under way, uploaded or lost. */
  ghost predicate Partition(missing: set<string>, pending: set<string>, running: set<string>, uploaded: set<string>,
                            lost: set<string>) {
    pending + running + uploaded + lost == missing && pending !! running !! uploaded !! lost
  }

  /** What was there or was uploaded is there, and nothing else but missing blobs. */
  ghost predicate Arrived(before: set<string>, missing: set<string>, uploaded: set<string>, present: set<string>) {
    before + uploaded <= present <= before + missing
  }

  lemma NothingArrived(before: set<string>, missing: set<string>)
    ensures Arrived(before, missing, {}, before)
  {
  }

  lemma MoreArrived(before: set<string>, missing: set<string>, uploaded: set<string>, present: set<string>,
                    after: set<string>, running: set<string>)
    requires Arrived(before, missing, uploaded, present) && running <= missing && present <= after <= present + running
    ensures Arrived(before, missing, uploaded, after)
  {
  }

  lemma AllPending(missing: set<string>)
    ensures Partition(missing, missing, {}, {}, {})
  {
  }

  lemma PartsWithin(missing: set<string>, pending: set<string>, running: set<string>, uploaded: set<string>,
                    lost: set<string>)
    requires Partition(missing, pending, running, uploaded, lost)
    ensures running <= missing && uploaded <= missing
  {
  }

  lemma Started(missing: set<string>, pending: set<string>, running: set<string>, uploaded: set<string>,
                lost: set<string>, digest: string)
    requires Partition(missing, pending, running, uploaded, lost) && digest in pending
    ensures Partition(missing, pending - {digest}, running + {digest}, uploaded, lost)
  {
  }

  lemma Ended(missing: set<string>, pending: set<string>, running: set<string>, uploaded: set<string>,
              lost: set<string>, digest: string)
    requires Partition(missing, pending, running, uploaded, lost) && digest in running
    ensures digest in missing && digest !in uploaded
    ensures Partition(missing, pending, running - {digest}, uploaded + {digest}, lost)
    ensures Partition(missing, pending, running - {digest}, uploaded, lost + {digest})
  {
  }

  lemma AllEnded(missing: set<string>, uploaded: set<string>, lost: set<string>)
    requires Partition(missing, {}, {}, uploaded, lost)
    ensures uploaded <= missing && (lost == {} <==> uploaded == missing)
  {
    if lost != {} {
      var d :| d in lost;
      assert d in missing && d !in uploaded;
    }
  }

  lemma NoReports()
    ensures ReportsUploads([], {})
  {
  }

  /** The blobs that were not missing are reported as reused. */
  method ReportReused(digests: seq<string>, missing: set<string>, uploads: seq<Report>) returns (reports: seq<Report>)
    requires forall i, j :: 0 <= i < j < |digests| ==> digests[i] != digests[j]
    requires ReportsUploads(uploads, missing)
    ensures forall d :: Count(reports, Report(d, false)) == if d in missing then 1 else 0
    ensures forall d :: Count(reports, Report(d, true)) == if d in digests && d !in missing then 1 else 0
  {
    reports := uploads;
    for i := 0 to |digests|
      invariant forall d :: Count(reports, Report(d, false)) == if d in missing then 1 else 0
      invariant forall d :: Count(reports, Report(d, true)) == if d in digests[..i] && d !in missing then 1 else 0
    {
      assert digests[..i + 1] == digests[..i] + [digests[i]];
      assert digests[i] !in digests[..i];
      if digests[i] !in missing {
        reports := reports + [Report(digests[i], true)];
      }
    }
    assert digests[..|digests|] == digests;
  }

  /**
   Publishes a manifest whose blobs have the given, distinct digests. Nothing is activated after a failed
   upload. When activation is issued, all blobs are present if and only if the helper's report left out none of
   the missing ones. On success every blob has been reported exactly once, as uploaded if it was reported
   missing and as reused otherwise. A report that failed, was cut off or is not acceptable ends the publication with
   its own error and changes nothing; when nothing else fails either, it is the only thing that can.
   */
  method PublishFileManifest(remote: Remote, digests: seq<string>, report: Option<seq<string>>, truncated: bool,
                             limit: nat)
    returns (error: Option<Error>, reports: seq<Report>)
    requires !remote.activated && limit >= 1
    requires forall i, j :: 0 <= i < j < |digests| ==> digests[i] != digests[j]
    modifies remote
    ensures old(remote.present) <= remote.present
    ensures error == Some(UploadFailed) ==> !remote.activated
    ensures error.None? ==> remote.activated
    ensures remote.activated ==> report.Some? && !truncated && Acceptable(report.value, digests)
    ensures report.None? ==> error == Some(ReportFailed)
    ensures report.Some? && truncated ==> error == Some(ReportTruncated)
    ensures report.Some? && !truncated && !Acceptable(report.value, digests) ==>
              error == Some(UnknownDigest) || error == Some(DuplicateDigest)
    ensures report.None? || truncated || !Acceptable(report.value, digests) ==>
              !remote.activated && remote.present == old(remote.present) && reports == []
    ensures remote.healthy && report.Some? && !truncated && Acceptable(report.value, digests) ==> error.None?
    ensures remote.activated ==>
              ((forall d :: d in digests ==> d in remote.present) <==>
               (forall d :: d in digests && d !in old(remote.present) ==> d in report.value))
    ensures error.None? ==> forall d, reused :: d in digests ==>
              Count(reports, Report(d, reused)) == if reused == (d !in report.value) then 1 else 0
  {
    reports := [];
    if report.None? {
      return Some(ReportFailed), reports;
    }
    if truncated {
      return Some(ReportTruncated), reports;
    }
    var parsed := ParseMissingDigests(report.value, set d | d in digests);
    if parsed.Err? {
      return Some(parsed.error), reports;
    }
    var missing := parsed.value;
    var failed;
    ghost var uploaded;
    failed, reports, uploaded := UploadAll(remote, missing, limit);
    if failed {
      return Some(UploadFailed), reports;
    }
    assert remote.present == old(remote.present) + missing;
    reports := ReportReused(digests, missing, reports);
    var ok := remote.Activate();
    if !ok {
      return Some(ActivateFailed), reports;
    }
    var cleaned: bool := *;
    if !cleaned && !remote.healthy {
      return Some(CleanupFailed), reports;
    }
    return None, reports;
  }
}
