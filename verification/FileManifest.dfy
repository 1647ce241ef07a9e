/** The Kubespray file manifest: selected files grouped by digest, in one canonical text. */
module FileManifest {
  import opened Outcomes
  import opened Text
  import Sorting
  import Decimal

  const SCHEMA := "atum.dev/kubespray-files/v1"

  /** One selected file of some inventory. */
  datatype Selected = Selected(path: string, sha256: string, size: nat, cacheFile: string)

  datatype Blob = Blob(sha256: string, size: nat, paths: seq<string>)

  datatype Manifest = Manifest(blobs: seq<Blob>, count: nat, bytes: nat, data: Bytes)

  datatype Error = AmbiguousPath | InconsistentSize | Empty | CacheMissing | CacheDiffers | Unrepresentable

  // ------------------------------------------------------------------ what it means

  /** A path has one digest and a digest has one size. */
  ghost predicate Consistent(files: seq<Selected>) {
    forall a, b :: a in files && b in files ==> Agree(a, b)
  }

  /** The blob groups exactly the selected files of its digest. */
  ghost predicate Groups(files: seq<Selected>, blob: Blob) {
    && blob.paths != [] && Sorted(blob.paths)
    && (forall p :: p in blob.paths <==> exists f :: f in files && f.sha256 == blob.sha256 && f.path == p)
    && (forall f :: f in files && f.sha256 == blob.sha256 ==> f.size == blob.size)
  }

  function Digests(blobs: seq<Blob>): seq<string> {
    seq(|blobs|, i requires 0 <= i < |blobs| => blobs[i].sha256)
  }

  /** The canonical grouping: one blob per digest, in digest order. */
  ghost predicate IsGrouping(files: seq<Selected>, blobs: seq<Blob>) {
    && Sorted(Digests(blobs))
    && (forall d :: d in Digests(blobs) <==> exists f :: f in files && f.sha256 == d)
    && (forall i :: 0 <= i < |blobs| ==> Groups(files, blobs[i]))
  }

  function Total(blobs: seq<Blob>): nat {
    if blobs == [] then 0 else Total(blobs[..|blobs| - 1]) + blobs[|blobs| - 1].size
  }

  function Row(blob: Blob): string {
    Join([blob.sha256, Decimal.Render(blob.size)] + blob.paths, "\t")
  }

  function Rows(blobs: seq<Blob>): seq<string> {
    seq(|blobs|, i requires 0 <= i < |blobs| => Row(blobs[i]))
  }

  /** The schema line, then one line per blob, each closed by a newline. */
  function Render(blobs: seq<Blob>): Bytes {
    Join([SCHEMA] + Rows(blobs) + [""], "\n")
  }

  // ------------------------------------------------------------------- canonicity

  /** A grouping is determined by the set of selected files. */
  lemma GroupingUnique(a: seq<Selected>, b: seq<Selected>, ba: seq<Blob>, bb: seq<Blob>)
    requires forall f :: f in a <==> f in b
    requires IsGrouping(a, ba) && IsGrouping(b, bb)
    ensures ba == bb
  {
    SortedUnique(Digests(ba), Digests(bb));
    assert |ba| == |Digests(ba)| == |bb|;
    forall i | 0 <= i < |ba| ensures ba[i] == bb[i] {
      assert ba[i].sha256 == Digests(ba)[i] == Digests(bb)[i] == bb[i].sha256;
      assert Groups(a, ba[i]) && Groups(b, bb[i]);
      forall p ensures p in ba[i].paths <==> p in bb[i].paths {
      }
      SortedUnique(ba[i].paths, bb[i].paths);
      var p := ba[i].paths[0];
      assert p in ba[i].paths;
      var f :| f in a && f.sha256 == ba[i].sha256 && f.path == p;
    }
  }

  /** The path stands at place k of blob i. */
  predicate Holds(blobs: seq<Blob>, i: nat, k: nat, path: string) {
    i < |blobs| && k < |blobs[i].paths| && blobs[i].paths[k] == path
  }

  /** The blobs hold exactly the selected paths, each at one place only. */
  lemma PathsPartitioned(files: seq<Selected>, blobs: seq<Blob>, path: string)
    requires Consistent(files) && IsGrouping(files, blobs)
    ensures (exists f :: f in files && f.path == path) <==> exists i: nat, k: nat :: Holds(blobs, i, k, path)
    ensures forall i: nat, k: nat, j: nat, l: nat ::
              Holds(blobs, i, k, path) && Holds(blobs, j, l, path) ==> i == j && k == l
  {
    if f :| f in files && f.path == path {
      var i, k := PlaceOf(files, blobs, f);
    }
    if i: nat, k: nat :| Holds(blobs, i, k, path) {
      assert Groups(files, blobs[i]) && path in blobs[i].paths;
    }
    forall i: nat, k: nat, j: nat, l: nat | Holds(blobs, i, k, path) && Holds(blobs, j, l, path)
      ensures i == j && k == l
    {
      OneBlobPerPath(files, blobs, i, j, path);
      assert Groups(files, blobs[i]);
      assert !(k < l) && !(l < k);
    }
  }

  lemma PlaceOf(files: seq<Selected>, blobs: seq<Blob>, f: Selected) returns (i: nat, k: nat)
    requires IsGrouping(files, blobs) && f in files
    ensures Holds(blobs, i, k, f.path)
  {
    i := BlobOf(files, blobs, f);
    assert Groups(files, blobs[i]);
    assert f.path in blobs[i].paths;
    k :| 0 <= k < |blobs[i].paths| && blobs[i].paths[k] == f.path;
  }

  /** No path lies in two blobs. */
  lemma OneBlobPerPath(files: seq<Selected>, blobs: seq<Blob>, i: nat, j: nat, path: string)
    requires Consistent(files) && IsGrouping(files, blobs)
    requires i < |blobs| && j < |blobs| && path in blobs[i].paths && path in blobs[j].paths
    ensures i == j
  {
    assert Groups(files, blobs[i]) && Groups(files, blobs[j]);
    var f :| f in files && f.sha256 == blobs[i].sha256 && f.path == path;
    var g :| g in files && g.sha256 == blobs[j].sha256 && g.path == path;
    assert Digests(blobs)[i] == Digests(blobs)[j];
  }

  // -------------------------------------------------------------------- round trip

  predicate Plain(s: string) {
    '\t' !in s && '\r' !in s && '\n' !in s
  }

  predicate Representable(blobs: seq<Blob>) {
    forall i :: 0 <= i < |blobs| ==>
      && Plain(blobs[i].sha256) && forall k :: 0 <= k < |blobs[i].paths| ==> Plain(blobs[i].paths[k])
  }

  function ParseRow(line: string): Option<Blob> {
    var fields := Split(line, '\t');
    if |fields| < 2 || fields[1] == "" || !Decimal.IsDigits(fields[1]) then None
    else Some(Blob(fields[0], Decimal.Value(fields[1]), fields[2..]))
  }

  function ParseRows(lines: seq<string>): Option<seq<Blob>> {
    if lines == [] then Some([])
    else
      match (ParseRow(lines[0]), ParseRows(lines[1..]))
      case (Some(first), Some(rest)) => Some([first] + rest)
      case _ => None
  }

  function Parse(data: Bytes): Option<seq<Blob>> {
    var lines := Split(data, '\n');
    if |lines| < 2 || lines[0] != SCHEMA || lines[|lines| - 1] != "" then None
    else ParseRows(lines[1..|lines| - 1])
  }

  lemma DigitsPlain(s: string)
    requires Decimal.IsDigits(s)
    ensures Plain(s)
  {
  }

  lemma RowFields(blob: Blob)
    requires Plain(blob.sha256) && forall k :: 0 <= k < |blob.paths| ==> Plain(blob.paths[k])
    ensures var fields := [blob.sha256, Decimal.Render(blob.size)] + blob.paths;
            forall i :: 0 <= i < |fields| ==> Plain(fields[i])
  {
    DigitsPlain(Decimal.Render(blob.size));
  }

  lemma ParseRowRender(blob: Blob)
    requires Plain(blob.sha256) && forall k :: 0 <= k < |blob.paths| ==> Plain(blob.paths[k])
    ensures ParseRow(Row(blob)) == Some(blob) && '\n' !in Row(blob)
  {
    var fields := [blob.sha256, Decimal.Render(blob.size)] + blob.paths;
    RowFields(blob);
    SplitJoin(fields, '\t');
    JoinPlain(fields);
    assert fields[2..] == blob.paths;
  }

  lemma {:induction false} JoinPlain(parts: seq<string>)
    requires forall i :: 0 <= i < |parts| ==> '\n' !in parts[i]
    ensures '\n' !in Join(parts, "\t")
    decreases |parts|
  {
    if |parts| >= 2 {
      JoinPlain(parts[1..]);
    }
  }

  lemma {:induction false} ParseRowsRender(blobs: seq<Blob>)
    requires Representable(blobs)
    ensures ParseRows(Rows(blobs)) == Some(blobs)
    decreases |blobs|
  {
    if blobs != [] {
      ParseRowRender(blobs[0]);
      assert Rows(blobs)[1..] == Rows(blobs[1..]);
      ParseRowsRender(blobs[1..]);
      assert [blobs[0]] + blobs[1..] == blobs;
    }
  }

  /** The text parses back to the same digests, sizes and paths. */
  lemma ParseRender(blobs: seq<Blob>)
    requires Representable(blobs)
    ensures Parse(Render(blobs)) == Some(blobs)
  {
    hide Row, ParseRows, Plain, Join, Split;
    var lines := [SCHEMA] + Rows(blobs) + [""];
    assert '\n' !in SCHEMA;
    forall i | 0 <= i < |lines| ensures '\n' !in lines[i] {
      if 1 <= i <= |blobs| {
        ParseRowRender(blobs[i - 1]);
        assert lines[i] == Row(blobs[i - 1]);
      }
    }
    SplitJoin(lines, '\n');
    assert lines[1..|lines| - 1] == Rows(blobs);
    ParseRowsRender(blobs);
  }

  /** Equal text means equal manifests. */
  lemma TextIdentifies(a: seq<Blob>, b: seq<Blob>)
    requires Representable(a) && Representable(b) && Render(a) == Render(b)
    ensures a == b
  {
    ParseRender(a);
    ParseRender(b);
  }

  // ------------------------------------------------------------------ materializing

  /** Every path of the blob comes from a selected file of its digest, and there is such a file. */
  ghost predicate Backed(files: seq<Selected>, blob: Blob) {
    && (exists f :: f in files && f.sha256 == blob.sha256)
    && forall p :: p in blob.paths ==> exists f :: f in files && f.sha256 == blob.sha256 && f.path == p
  }

  /** The grouping table after some of the files: one entry per digest met so far. */
  ghost predicate TableOf(files: seq<Selected>, table: map<string, Blob>) {
    && (forall d :: d in table ==> table[d].sha256 == d && Backed(files, table[d]))
    && (forall f :: f in files ==> f.sha256 in table && table[f.sha256].size == f.size && f.path in table[f.sha256].paths)
  }

  ghost predicate PathTableOf(files: seq<Selected>, digests: map<string, string>) {
    && (forall f :: f in files ==> f.path in digests && digests[f.path] == f.sha256)
    && (forall p :: p in digests ==> exists f :: f in files && f.path == p)
  }

  /** The first selected file of its digest. */
  predicate FirstOf(files: seq<Selected>, i: nat) {
    i < |files| && forall j :: 0 <= j < i ==> files[j].sha256 != files[i].sha256
  }

  /** Each digest is looked for in the cache file its first selected file names. */
  ghost predicate CachesOf(files: seq<Selected>, caches: map<string, string>) {
    forall i: nat :: FirstOf(files, i) ==>
      files[i].sha256 in caches && caches[files[i].sha256] == files[i].cacheFile
  }

  lemma {:induction false} FirstExists(files: seq<Selected>, k: nat) returns (i: nat)
    requires k < |files|
    ensures FirstOf(files, i) && files[i].sha256 == files[k].sha256
  {
    if j :| 0 <= j < k && files[j].sha256 == files[k].sha256 {
      i := FirstExists(files, j);
    } else {
      i := k;
    }
  }

  lemma StepCaches(files: seq<Selected>, table: map<string, Blob>, caches: map<string, string>, f: Selected)
    requires TableOf(files, table) && CachesOf(files, caches)
    ensures CachesOf(files + [f], if f.sha256 in table then caches else caches[f.sha256 := f.cacheFile])
  {
    var more := files + [f];
    var after := if f.sha256 in table then caches else caches[f.sha256 := f.cacheFile];
    if f.sha256 in table {
      var g :| g in files && g.sha256 == f.sha256;
      var j :| 0 <= j < |files| && files[j] == g;
      assert more[j].sha256 == more[|files|].sha256;
      assert !FirstOf(more, |files|);
    }
    forall i: nat | FirstOf(more, i)
      ensures more[i].sha256 in after && after[more[i].sha256] == more[i].cacheFile
    {
      if i < |files| {
        forall j | 0 <= j < i ensures files[j].sha256 != files[i].sha256 {
          assert more[j] == files[j];
        }
        assert FirstOf(files, i) && files[i] in files;
      }
    }
  }

  /** Two selected files that do not agree, in the way the error says. */
  ghost predicate Disagreement(files: seq<Selected>, error: Error) {
    || (error.AmbiguousPath? && exists a, b :: a in files && b in files && a.path == b.path && a.sha256 != b.sha256)
    || (error.InconsistentSize? && exists a, b :: a in files && b in files && a.sha256 == b.sha256 && a.size != b.size)
  }

  /** The grouping loop: succeeds exactly on consistent selections. */
  method GroupFiles(files: seq<Selected>) returns (r: Result<map<string, Blob>, Error>, caches: map<string, string>)
    ensures r.Ok? <==> Consistent(files)
    ensures r.Ok? ==> TableOf(files, r.value) && caches.Keys == r.value.Keys && CachesOf(files, caches)
    ensures r.Err? ==> Disagreement(files, r.error)
  {
    var byDigest: map<string, Blob> := map[];
    var pathDigests: map<string, string> := map[];
    caches := map[];
    hide Disagreement, Consistent, TableOf, PathTableOf, CachesOf, Enter;
    NothingGrouped();
    assert files[..0] == [];
    for i := 0 to |files|
      invariant Consistent(files[..i])
      invariant TableOf(files[..i], byDigest)
      invariant PathTableOf(files[..i], pathDigests)
      invariant caches.Keys == byDigest.Keys && CachesOf(files[..i], caches)
    {
      var f := files[i];
      assert files[..i + 1] == files[..i] + [f];
      if f.path in pathDigests && pathDigests[f.path] != f.sha256 {
        AmbiguousPathFails(files, i, pathDigests);
        return Err(AmbiguousPath), caches;
      }
      if f.sha256 in byDigest && byDigest[f.sha256].size != f.size {
        InconsistentSizeFails(files, i, byDigest);
        return Err(InconsistentSize), caches;
      }
      StepConsistent(files[..i], byDigest, pathDigests, f);
      StepPaths(files[..i], pathDigests, f);
      StepCaches(files[..i], byDigest, caches, f);
      StepTable(files[..i], byDigest, f);
      pathDigests := pathDigests[f.path := f.sha256];
      if f.sha256 !in byDigest {
        caches := caches[f.sha256 := f.cacheFile];
      }
      byDigest := byDigest[f.sha256 := Enter(byDigest, f)];
    }
    assert files[..|files|] == files;
    return Ok(byDigest), caches;
  }

  /** The blob of a file's digest once the file is in it; a path is entered once. */
  function Enter(table: map<string, Blob>, f: Selected): Blob {
    if f.sha256 !in table then Blob(f.sha256, f.size, [f.path])
    else
      var blob := table[f.sha256];
      if f.path in blob.paths then blob else blob.(paths := blob.paths + [f.path])
  }

  lemma NothingGrouped()
    ensures Consistent([]) && TableOf([], map[]) && PathTableOf([], map[]) && CachesOf([], map[])
  {
  }

  lemma AmbiguousPathFails(files: seq<Selected>, i: nat, digests: map<string, string>)
    requires i < |files| && PathTableOf(files[..i], digests)
    requires files[i].path in digests && digests[files[i].path] != files[i].sha256
    ensures !Consistent(files) && Disagreement(files, AmbiguousPath)
  {
    var g :| g in files[..i] && g.path == files[i].path;
    assert g in files && files[i] in files;
  }

  lemma InconsistentSizeFails(files: seq<Selected>, i: nat, table: map<string, Blob>)
    requires i < |files| && TableOf(files[..i], table)
    requires files[i].sha256 in table && table[files[i].sha256].size != files[i].size
    ensures !Consistent(files) && Disagreement(files, InconsistentSize)
  {
    var g :| g in files[..i] && g.sha256 == files[i].sha256;
    assert g in files && files[i] in files;
  }

  ghost predicate Agree(a: Selected, b: Selected) {
    (a.path == b.path ==> a.sha256 == b.sha256) && (a.sha256 == b.sha256 ==> a.size == b.size)
  }

  lemma AgreesWithAll(files: seq<Selected>, table: map<string, Blob>, digests: map<string, string>, f: Selected, a: Selected)
    requires TableOf(files, table) && PathTableOf(files, digests) && a in files
    requires f.path in digests ==> digests[f.path] == f.sha256
    requires f.sha256 in table ==> table[f.sha256].size == f.size
    ensures Agree(a, f) && Agree(f, a)
  {
  }

  lemma StepConsistent(files: seq<Selected>, table: map<string, Blob>, digests: map<string, string>, f: Selected)
    requires Consistent(files) && TableOf(files, table) && PathTableOf(files, digests)
    requires f.path in digests ==> digests[f.path] == f.sha256
    requires f.sha256 in table ==> table[f.sha256].size == f.size
    ensures Consistent(files + [f])
  {
    hide TableOf, PathTableOf;
    forall a | a in files ensures Agree(a, f) && Agree(f, a) {
      AgreesWithAll(files, table, digests, f, a);
    }
    assert forall a :: a in files + [f] ==> a in files || a == f;
  }

  lemma StepPaths(files: seq<Selected>, digests: map<string, string>, f: Selected)
    requires PathTableOf(files, digests) && (f.path in digests ==> digests[f.path] == f.sha256)
    ensures PathTableOf(files + [f], digests[f.path := f.sha256])
  {
    var more, after := files + [f], digests[f.path := f.sha256];
    assert f in more;
    assert forall a :: a in more <==> a in files || a == f;
    forall p | p in after ensures exists g :: g in more && g.path == p {
      if p != f.path {
        var g :| g in files && g.path == p;
        assert g in more;
      }
    }
  }

  lemma StepTable(files: seq<Selected>, table: map<string, Blob>, f: Selected)
    requires TableOf(files, table) && (f.sha256 in table ==> table[f.sha256].size == f.size)
    ensures TableOf(files + [f], table[f.sha256 := Enter(table, f)])
  {
    EnterMeans(table, f);
    EnterBacked(files, table, f);
    hide Enter, Backed;
    var more, after := files + [f], table[f.sha256 := Enter(table, f)];
    forall d | d in after ensures after[d].sha256 == d && Backed(more, after[d]) {
      if d != f.sha256 {
        StillBacked(files, f, table[d]);
      }
    }
    assert forall g :: g in more ==> g in files || g == f;
  }

  lemma EnterMeans(table: map<string, Blob>, f: Selected)
    requires f.sha256 in table ==> table[f.sha256].sha256 == f.sha256 && table[f.sha256].size == f.size
    ensures Enter(table, f).sha256 == f.sha256 && Enter(table, f).size == f.size
    ensures forall p :: p in Enter(table, f).paths <==>
                        p == f.path || (f.sha256 in table && p in table[f.sha256].paths)
  {
  }

  lemma StillBacked(files: seq<Selected>, f: Selected, blob: Blob)
    requires Backed(files, blob)
    ensures Backed(files + [f], blob)
  {
    assert forall g :: g in files ==> g in files + [f];
  }

  lemma EnterBacked(files: seq<Selected>, table: map<string, Blob>, f: Selected)
    requires f.sha256 in table ==> table[f.sha256].sha256 == f.sha256 && Backed(files, table[f.sha256])
    ensures Backed(files + [f], Enter(table, f))
  {
    var more := files + [f];
    assert more[|files|] == f;
    if f.sha256 in table {
      StillBacked(files, f, table[f.sha256]);
    }
  }

  /** Blobs gathered so far, one per digest, each grouping its files. */
  ghost predicate Gathered(files: seq<Selected>, blobs: seq<Blob>, digests: set<string>) {
    && (forall i :: 0 <= i < |blobs| ==> Groups(files, blobs[i]) && blobs[i].sha256 in digests)
    && (forall d :: d in digests ==> exists i :: 0 <= i < |blobs| && blobs[i].sha256 == d)
    && (forall i, j :: 0 <= i < j < |blobs| ==> blobs[i].sha256 != blobs[j].sha256)
  }

  ghost predicate Verified(sha256: Bytes -> string, cache: map<string, Bytes>, blob: Blob) {
    exists file :: file in cache && sha256(cache[file]) == blob.sha256 && |cache[file]| == blob.size
  }

  predicate CachedAs(sha256: Bytes -> string, cache: map<string, Bytes>, file: string, blob: Blob) {
    file in cache && sha256(cache[file]) == blob.sha256 && |cache[file]| == blob.size
  }

  method CheckCache(file: string, blob: Blob, sha256: Bytes -> string, cache: map<string, Bytes>)
    returns (error: Option<Error>)
    ensures error.None? <==> CachedAs(sha256, cache, file, blob)
    ensures error.Some? ==> error == Some(if file in cache then CacheDiffers else CacheMissing)
  {
    if file !in cache {
      return Some(CacheMissing);
    }
    var content := cache[file];
    if sha256(content) != blob.sha256 || |content| != blob.size {
      return Some(CacheDiffers);
    }
    return None;
  }

  ghost predicate AllCached(table: map<string, Blob>, caches: map<string, string>, digests: set<string>,
                            sha256: Bytes -> string, cache: map<string, Bytes>)
    requires digests <= table.Keys == caches.Keys
  {
    forall d :: d in digests ==> CachedAs(sha256, cache, caches[d], table[d])
  }

  /** A digest of the table that the cache does not hold, in the way the error says. */
  ghost predicate Uncached(table: map<string, Blob>, caches: map<string, string>,
                           sha256: Bytes -> string, cache: map<string, Bytes>, d: string, error: Error) {
    && d in table && d in caches && !CachedAs(sha256, cache, caches[d], table[d])
    && error == if caches[d] in cache then CacheDiffers else CacheMissing
  }

  ghost predicate AllVerified(sha256: Bytes -> string, cache: map<string, Bytes>, blobs: seq<Blob>) {
    forall i :: 0 <= i < |blobs| ==> Verified(sha256, cache, blobs[i])
  }

  /** The digests looked at so far: their blobs, each found in the cache, and the total of their sizes. */
  ghost predicate Taken(files: seq<Selected>, table: map<string, Blob>, caches: map<string, string>, digests: set<string>,
                        sha256: Bytes -> string, cache: map<string, Bytes>, blobs: seq<Blob>, total: nat) {
    && digests <= table.Keys == caches.Keys && AllCached(table, caches, digests, sha256, cache)
    && Gathered(files, blobs, digests) && AllVerified(sha256, cache, blobs) && total == Total(blobs)
  }

  lemma NoneTaken(files: seq<Selected>, table: map<string, Blob>, caches: map<string, string>,
                  sha256: Bytes -> string, cache: map<string, Bytes>)
    requires table.Keys == caches.Keys
    ensures Taken(files, table, caches, {}, sha256, cache, [], 0)
  {
    NoneGathered(files);
  }

  lemma OneMoreTaken(files: seq<Selected>, table: map<string, Blob>, caches: map<string, string>, digests: set<string>,
                     sha256: Bytes -> string, cache: map<string, Bytes>, blobs: seq<Blob>, total: nat,
                     d: string, paths: seq<string>)
    requires Taken(files, table, caches, digests, sha256, cache, blobs, total) && TableOf(files, table)
    requires d in table && d !in digests && CachedAs(sha256, cache, caches[d], table[d])
    requires Sorted(paths) && forall p :: p in paths <==> p in table[d].paths
    ensures var blob := table[d].(paths := paths);
            Taken(files, table, caches, digests + {d}, sha256, cache, blobs + [blob], total + blob.size)
  {
    hide TableOf, Gathered, Groups, Total, AllVerified, AllCached, CachedAs, Sorted;
    var blob := table[d].(paths := paths);
    SortedBlobGroups(files, table, d, paths);
    GatherOne(files, blobs, digests, blob);
    TotalSnoc(blobs, blob);
    OneMoreVerified(sha256, cache, blobs, caches[d], table[d], paths);
    OneMoreCached(table, caches, digests, sha256, cache, d);
  }

  lemma OneMoreVerified(sha256: Bytes -> string, cache: map<string, Bytes>, blobs: seq<Blob>, file: string, blob: Blob,
                        paths: seq<string>)
    requires AllVerified(sha256, cache, blobs) && CachedAs(sha256, cache, file, blob)
    ensures AllVerified(sha256, cache, blobs + [blob.(paths := paths)])
  {
    assert Verified(sha256, cache, blob.(paths := paths));
    hide Verified;
  }

  lemma OneMoreCached(table: map<string, Blob>, caches: map<string, string>, digests: set<string>,
                      sha256: Bytes -> string, cache: map<string, Bytes>, d: string)
    requires digests <= table.Keys == caches.Keys && AllCached(table, caches, digests, sha256, cache)
    requires d in table && CachedAs(sha256, cache, caches[d], table[d])
    ensures AllCached(table, caches, digests + {d}, sha256, cache)
  {
    hide CachedAs;
  }

  /** Sorts each blob's paths and checks it against the cache; digests are taken in no particular order. */
  method GatherBlobs(files: seq<Selected>, table: map<string, Blob>, caches: map<string, string>,
                     sha256: Bytes -> string, cache: map<string, Bytes>)
    returns (r: Result<seq<Blob>, Error>, total: nat)
    requires TableOf(files, table) && caches.Keys == table.Keys
    ensures r.Ok? <==> AllCached(table, caches, table.Keys, sha256, cache)
    ensures r.Err? ==> exists d :: Uncached(table, caches, sha256, cache, d, r.error)
    ensures r.Ok? ==> Gathered(files, r.value, table.Keys) && total == Total(r.value)
    ensures r.Ok? ==> AllVerified(sha256, cache, r.value)
  {
    hide TableOf, Taken, AllCached, Gathered, Total, AllVerified, Uncached;
    var blobs: seq<Blob> := [];
    total := 0;
    NoneTaken(files, table, caches, sha256, cache);
    var rest := table.Keys;
    assert table.Keys - rest == {};
    while rest != {}
      invariant rest <= table.Keys && Taken(files, table, caches, table.Keys - rest, sha256, cache, blobs, total)
      decreases |rest|
    {
      var d :| d in rest;
      MovedOver(table.Keys, rest, d);
      var taken := TakeBlob(files, table, caches, table.Keys - rest, sha256, cache, blobs, total, d);
      if taken.Err? {
        return Err(taken.error), 0;
      }
      blobs := blobs + [taken.value];
      total := total + taken.value.size;
      rest := rest - {d};
    }
    assert table.Keys - rest == table.Keys;
    AllTaken(files, table, caches, sha256, cache, blobs, total);
    return Ok(blobs), total;
  }

  lemma MovedOver(all: set<string>, rest: set<string>, d: string)
    requires d in rest && rest <= all
    ensures d !in all - rest && all - (rest - {d}) == all - rest + {d}
  {
  }

  /** One digest: its blob with sorted paths, if the cache holds it. */
  method TakeBlob(ghost files: seq<Selected>, table: map<string, Blob>, caches: map<string, string>,
                  ghost digests: set<string>, sha256: Bytes -> string, cache: map<string, Bytes>,
                  ghost blobs: seq<Blob>, ghost total: nat, d: string) returns (r: Result<Blob, Error>)
    requires TableOf(files, table) && Taken(files, table, caches, digests, sha256, cache, blobs, total)
    requires caches.Keys == table.Keys && d in table && d !in digests
    ensures r.Err? ==> Uncached(table, caches, sha256, cache, d, r.error)
    ensures r.Err? ==> !AllCached(table, caches, table.Keys, sha256, cache)
    ensures r.Ok? ==> Taken(files, table, caches, digests + {d}, sha256, cache, blobs + [r.value], total + r.value.size)
  {
    hide TableOf, Taken, CachedAs, AllCached, Sorted;
    var error := CheckCache(caches[d], table[d], sha256, cache);
    if error.Some? {
      NotAllCached(table, caches, sha256, cache, d);
      return Err(error.value);
    }
    var paths := SortKeys(set p | p in table[d].paths);
    OneMoreTaken(files, table, caches, digests, sha256, cache, blobs, total, d, paths);
    return Ok(table[d].(paths := paths));
  }

  lemma NotAllCached(table: map<string, Blob>, caches: map<string, string>,
                     sha256: Bytes -> string, cache: map<string, Bytes>, d: string)
    requires table.Keys == caches.Keys && d in table && !CachedAs(sha256, cache, caches[d], table[d])
    ensures !AllCached(table, caches, table.Keys, sha256, cache)
  {
  }

  lemma AllTaken(files: seq<Selected>, table: map<string, Blob>, caches: map<string, string>,
                 sha256: Bytes -> string, cache: map<string, Bytes>, blobs: seq<Blob>, total: nat)
    requires Taken(files, table, caches, table.Keys, sha256, cache, blobs, total)
    ensures table.Keys == caches.Keys && AllCached(table, caches, table.Keys, sha256, cache)
    ensures Gathered(files, blobs, table.Keys) && AllVerified(sha256, cache, blobs) && total == Total(blobs)
  {
  }

  lemma NoneGathered(files: seq<Selected>)
    ensures Gathered(files, [], {}) && Total([]) == 0
  {
  }

  lemma TotalSnoc(blobs: seq<Blob>, blob: Blob)
    ensures Total(blobs + [blob]) == Total(blobs) + blob.size
  {
    assert (blobs + [blob])[..|blobs|] == blobs;
  }

  lemma GatherOne(files: seq<Selected>, blobs: seq<Blob>, digests: set<string>, blob: Blob)
    requires Gathered(files, blobs, digests) && Groups(files, blob) && blob.sha256 !in digests
    ensures Gathered(files, blobs + [blob], digests + {blob.sha256})
  {
    hide Groups;
    var more := blobs + [blob];
    assert more[|blobs|] == blob;
    forall d | d in digests ensures exists i :: 0 <= i < |more| && more[i].sha256 == d {
      var i :| 0 <= i < |blobs| && blobs[i].sha256 == d;
      assert more[i].sha256 == d;
    }
  }

  lemma SortedBlobGroups(files: seq<Selected>, table: map<string, Blob>, d: string, paths: seq<string>)
    requires TableOf(files, table) && d in table
    requires Sorted(paths) && forall p :: p in paths <==> p in table[d].paths
    ensures Groups(files, table[d].(paths := paths)) && table[d].sha256 == d
  {
    var f :| f in files && f.sha256 == d;
    assert f.path in table[d].paths;
  }

  predicate SortedBlobs(blobs: seq<Blob>) {
    forall i, j :: 0 <= i < j < |blobs| ==> Le(blobs[i].sha256, blobs[j].sha256)
  }

  lemma {:induction false} TotalRemove(blobs: seq<Blob>, k: nat)
    requires k < |blobs|
    ensures Total(blobs) == Total(blobs[..k] + blobs[k + 1..]) + blobs[k].size
    decreases |blobs|
  {
    var without := blobs[..k] + blobs[k + 1..];
    if k < |blobs| - 1 {
      var front := blobs[..|blobs| - 1];
      TotalRemove(front, k);
      assert without[..|without| - 1] == front[..k] + front[k + 1..];
      assert without[|without| - 1] == blobs[|blobs| - 1];
    } else {
      assert without == blobs[..|blobs| - 1];
    }
  }

  /** The byte total does not depend on the order of the blobs. */
  lemma {:induction false} TotalPermutation(a: seq<Blob>, b: seq<Blob>)
    requires multiset(a) == multiset(b)
    ensures Total(a) == Total(b)
    decreases |a|
  {
    hide Total;
    assert |multiset(a)| == |a| && |multiset(b)| == |b|;
    if a == [] {
      assert b == [];
    } else {
      var n := |a| - 1;
      assert a[n] in multiset(a);
      assert a[n] in b;
      var k :| 0 <= k < |b| && b[k] == a[n];
      Sorting.RemoveAt(a, n);
      Sorting.RemoveAt(b, k);
      TotalRemove(a, n);
      TotalRemove(b, k);
      TotalPermutation(a[..n] + a[n + 1..], b[..k] + b[k + 1..]);
    }
  }

  /** Sorting what was gathered yields the canonical grouping. */
  lemma SortedGrouping(files: seq<Selected>, table: map<string, Blob>, blobs: seq<Blob>, sorted: seq<Blob>)
    requires TableOf(files, table) && Gathered(files, blobs, table.Keys)
    requires multiset(sorted) == multiset(blobs) && SortedBlobs(sorted)
    ensures IsGrouping(files, sorted)
  {
    hide Groups;
    PermutedGathered(files, blobs, sorted, table.Keys);
    var ds := Digests(sorted);
    forall i, j | 0 <= i < j < |ds| ensures Less(ds[i], ds[j]) {
      assert ds[i] == sorted[i].sha256 && ds[j] == sorted[j].sha256;
    }
    forall d ensures d in ds <==> d in table {
      if d in table {
        var i :| 0 <= i < |sorted| && sorted[i].sha256 == d;
        assert ds[i] == d;
      }
    }
  }

  lemma PermutedGathered(files: seq<Selected>, a: seq<Blob>, b: seq<Blob>, digests: set<string>)
    requires Gathered(files, a, digests) && multiset(a) == multiset(b)
    ensures Gathered(files, b, digests)
  {
    hide Groups;
    forall i | 0 <= i < |b| ensures b[i] in a {
      assert b[i] in multiset(b);
    }
    forall i | 0 <= i < |a| ensures a[i] in b {
      assert a[i] in multiset(a);
    }
    forall i, j | 0 <= i < j < |b| ensures b[i].sha256 != b[j].sha256 {
      var x, y := Sorting.TwoPlaces(a, b, i, j);
      assert x < y || y < x;
    }
  }

  // ----------------------------------------------------------------------- writing

  /** Writes one row field by field; refuses a path that the format cannot carry. */
  method WriteRow(blob: Blob) returns (row: Option<string>)
    ensures row.Some? <==> forall k :: 0 <= k < |blob.paths| ==> Plain(blob.paths[k])
    ensures row.Some? ==> row.value == Row(blob)
  {
    hide Join;
    var fields := [blob.sha256, Decimal.Render(blob.size)];
    var line := blob.sha256 + "\t" + Decimal.Render(blob.size);
    assert line == Join(fields, "\t") by { JoinTwo(blob.sha256, Decimal.Render(blob.size)); }
    assert fields + blob.paths[..0] == fields;
    for k := 0 to |blob.paths|
      invariant line == Join(fields + blob.paths[..k], "\t")
      invariant forall j :: 0 <= j < k ==> Plain(blob.paths[j])
    {
      if !Plain(blob.paths[k]) {
        return None;
      }
      JoinSnoc(fields + blob.paths[..k], blob.paths[k], "\t");
      assert fields + blob.paths[..k] + [blob.paths[k]] == fields + blob.paths[..k + 1];
      line := line + "\t" + blob.paths[k];
    }
    assert blob.paths[..|blob.paths|] == blob.paths;
    return Some(line);
  }

  lemma JoinTwo(a: string, b: string)
    ensures Join([a, b], "\t") == a + "\t" + b
  {
    assert [a, b][1..] == [b];
  }

  method WriteManifest(blobs: seq<Blob>) returns (data: Option<Bytes>)
    ensures data.Some? ==> data.value == Render(blobs)
    ensures data.Some? <==> forall i, k :: 0 <= i < |blobs| && 0 <= k < |blobs[i].paths| ==> Plain(blobs[i].paths[k])
  {
    hide Join, Row;
    var buffer := SCHEMA + "\n";
    assert [SCHEMA] + Rows(blobs)[..0] == [SCHEMA];
    JoinOne(SCHEMA);
    for i := 0 to |blobs|
      invariant buffer == Join([SCHEMA] + Rows(blobs)[..i], "\n") + "\n"
      invariant forall j, k :: 0 <= j < i && 0 <= k < |blobs[j].paths| ==> Plain(blobs[j].paths[k])
    {
      var row := WriteRow(blobs[i]);
      if row.None? {
        return None;
      }
      JoinSnoc([SCHEMA] + Rows(blobs)[..i], row.value, "\n");
      assert [SCHEMA] + Rows(blobs)[..i] + [row.value] == [SCHEMA] + Rows(blobs)[..i + 1];
      buffer := buffer + row.value + "\n";
    }
    JoinSnoc([SCHEMA] + Rows(blobs), "", "\n");
    assert Rows(blobs)[..|blobs|] == Rows(blobs);
    return Some(buffer);
  }

  lemma JoinOne(a: string)
    ensures Join([a], "\n") == a
  {
  }

  // -------------------------------------------------------------------- main results

  /** The cache file a selected file names holds what the file announces. */
  predicate InCache(sha256: Bytes -> string, cache: map<string, Bytes>, f: Selected) {
    f.cacheFile in cache && sha256(cache[f.cacheFile]) == f.sha256 && |cache[f.cacheFile]| == f.size
  }

  /** Only the first file of each digest is looked up. */
  predicate FirstsInCache(files: seq<Selected>, sha256: Bytes -> string, cache: map<string, Bytes>) {
    forall i :: 0 <= i < |files| && FirstOf(files, i) ==> InCache(sha256, cache, files[i])
  }

  /** No character of the path would break its row. */
  predicate Carries(path: string) {
    forall k :: 0 <= k < |path| ==> path[k] != '\t' && path[k] != '\r' && path[k] != '\n'
  }

  lemma CarriesPlain(path: string)
    ensures Carries(path) <==> Plain(path)
  {
  }

  predicate PathsPlain(files: seq<Selected>) {
    forall i :: 0 <= i < |files| ==> Carries(files[i].path)
  }

  /** What is wrong with the selection or the cache when materializing fails. */
  ghost predicate Justified(files: seq<Selected>, sha256: Bytes -> string, cache: map<string, Bytes>, error: Error) {
    match error
    case Empty => files == []
    case CacheMissing => exists i: nat :: FirstOf(files, i) && files[i].cacheFile !in cache
    case CacheDiffers => exists i: nat :: FirstOf(files, i) && files[i].cacheFile in cache && !InCache(sha256, cache, files[i])
    case Unrepresentable => !PathsPlain(files)
    case _ => Disagreement(files, error)
  }

  lemma UncachedFirst(files: seq<Selected>, table: map<string, Blob>, caches: map<string, string>,
                      sha256: Bytes -> string, cache: map<string, Bytes>, d: string, error: Error)
    requires TableOf(files, table) && CachesOf(files, caches) && Uncached(table, caches, sha256, cache, d, error)
    ensures Justified(files, sha256, cache, error) && (error.CacheMissing? || error.CacheDiffers?)
  {
    assert Backed(files, table[d]);
    var f :| f in files && f.sha256 == d;
    var k :| 0 <= k < |files| && files[k] == f;
    var i := FirstExists(files, k);
    assert files[i] in files;
    assert !InCache(sha256, cache, files[i]);
  }

  ghost predicate Materializes(files: seq<Selected>, sha256: Bytes -> string, cache: map<string, Bytes>) {
    files != [] && Consistent(files) && FirstsInCache(files, sha256, cache) && PathsPlain(files)
  }

  lemma TableCached(files: seq<Selected>, table: map<string, Blob>, caches: map<string, string>,
                    sha256: Bytes -> string, cache: map<string, Bytes>)
    requires TableOf(files, table) && caches.Keys == table.Keys && CachesOf(files, caches)
    ensures AllCached(table, caches, table.Keys, sha256, cache) <==> FirstsInCache(files, sha256, cache)
  {
    forall i: nat | FirstOf(files, i)
      ensures files[i].sha256 in table
              && CachedAs(sha256, cache, caches[files[i].sha256], table[files[i].sha256]) == InCache(sha256, cache, files[i])
    {
      assert files[i] in files;
    }
    forall d | d in table ensures exists i: nat :: FirstOf(files, i) && files[i].sha256 == d {
      assert Backed(files, table[d]);
      var f :| f in files && f.sha256 == d;
      var k :| 0 <= k < |files| && files[k] == f;
      var i := FirstExists(files, k);
    }
    hide TableOf, CachesOf, FirstOf, CachedAs, InCache;
  }

  lemma GroupedPlain(files: seq<Selected>, blobs: seq<Blob>)
    requires IsGrouping(files, blobs)
    ensures (forall i, k :: 0 <= i < |blobs| && 0 <= k < |blobs[i].paths| ==> Plain(blobs[i].paths[k]))
            <==> PathsPlain(files)
  {
    forall path: string ensures Carries(path) <==> Plain(path) {
      CarriesPlain(path);
    }
    hide Plain, Carries;
    forall n | 0 <= n < |files| ensures exists i: nat, k: nat :: Holds(blobs, i, k, files[n].path) {
      var i, k := PlaceOf(files, blobs, files[n]);
    }
    forall i, k | 0 <= i < |blobs| && 0 <= k < |blobs[i].paths|
      ensures exists n :: 0 <= n < |files| && files[n].path == blobs[i].paths[k]
    {
      assert Groups(files, blobs[i]) && blobs[i].paths[k] in blobs[i].paths;
      var f :| f in files && f.sha256 == blobs[i].sha256 && f.path == blobs[i].paths[k];
    }
    hide IsGrouping;
  }

  /**
   Materializes the manifest, exactly when the selection is not empty, is consistent, can be written down, and the
   first file of each digest names a cache file that holds it. On success the blobs are the canonical grouping of
   the selected files, and the counts and the text are those of the blobs.
   */
  method MaterializeFileManifest(files: seq<Selected>, sha256: Bytes -> string, cache: map<string, Bytes>)
    returns (r: Result<Manifest, Error>)
    ensures r.Ok? <==> Materializes(files, sha256, cache)
    ensures r.Ok? ==> IsGrouping(files, r.value.blobs)
    ensures r.Ok? ==> r.value.count == |r.value.blobs| && r.value.bytes == Total(r.value.blobs)
    ensures r.Ok? ==> r.value.data == Render(r.value.blobs)
    ensures r.Ok? ==> forall i :: 0 <= i < |r.value.blobs| ==> Verified(sha256, cache, r.value.blobs[i])
    ensures r.Ok? ==> forall i, k :: 0 <= i < |r.value.blobs| && 0 <= k < |r.value.blobs[i].paths| ==>
                        Plain(r.value.blobs[i].paths[k])
    ensures r.Ok? && (forall x :: Plain(sha256(x))) ==> Parse(r.value.data) == Some(r.value.blobs)
    ensures r.Err? ==> Justified(files, sha256, cache, r.error)
    ensures files == [] ==> r == Err(Empty)
    ensures !Consistent(files) ==> r.Err? && (r.error.AmbiguousPath? || r.error.InconsistentSize?)
    ensures files != [] && Consistent(files) && r.Err? ==>
              if FirstsInCache(files, sha256, cache) then r.error.Unrepresentable?
              else r.error.CacheMissing? || r.error.CacheDiffers?
  {
    hide TableOf, Gathered, IsGrouping, Verified, Render, Plain, CachesOf, FirstsInCache, PathsPlain, CachedAs, Consistent,
      Uncached, FirstOf;
    var grouped, caches := GroupFiles(files);
    if grouped.Err? {
      assert files != [] by { NothingGrouped(); }
      return Err(grouped.error);
    }
    var table := grouped.value;
    TableEmptyIff(files, table);
    if table == map[] {
      return Err(Empty);
    }
    TableCached(files, table, caches, sha256, cache);
    var gathered, total := GatherBlobs(files, table, caches, sha256, cache);
    if gathered.Err? {
      ghost var d :| Uncached(table, caches, sha256, cache, d, gathered.error);
      UncachedFirst(files, table, caches, sha256, cache, d, gathered.error);
      return Err(gathered.error);
    }
    var blobs := SortBlobs(files, table, sha256, cache, gathered.value);
    GroupedPlain(files, blobs);
    var data := WriteManifest(blobs);
    if data.None? {
      return Err(Unrepresentable);
    }
    if forall x :: Plain(sha256(x)) {
      VerifiedParses(sha256, cache, blobs);
    }
    return Ok(Manifest(blobs, |blobs|, total, data.value));
  }

  /** The gathered blobs in digest order. */
  method SortBlobs(ghost files: seq<Selected>, ghost table: map<string, Blob>, ghost sha256: Bytes -> string,
                   ghost cache: map<string, Bytes>, gathered: seq<Blob>) returns (blobs: seq<Blob>)
    requires TableOf(files, table) && Gathered(files, gathered, table.Keys)
    requires forall i :: 0 <= i < |gathered| ==> Verified(sha256, cache, gathered[i])
    ensures IsGrouping(files, blobs) && Total(blobs) == Total(gathered)
    ensures forall i :: 0 <= i < |blobs| ==> Verified(sha256, cache, blobs[i])
  {
    hide TableOf, Gathered, IsGrouping, Verified, Total;
    blobs := Sorting.SortByText(gathered, (b: Blob) => b.sha256);
    SortedGrouping(files, table, gathered, blobs);
    TotalPermutation(gathered, blobs);
    forall i | 0 <= i < |blobs| ensures Verified(sha256, cache, blobs[i]) {
      assert blobs[i] in multiset(blobs);
      assert blobs[i] in gathered;
    }
  }

  /** Digests that were computed are plain text, so the rows of verified blobs parse back. */
  lemma VerifiedParses(sha256: Bytes -> string, cache: map<string, Bytes>, blobs: seq<Blob>)
    requires forall x :: Plain(sha256(x))
    requires forall i :: 0 <= i < |blobs| ==> Verified(sha256, cache, blobs[i])
    requires forall i, k :: 0 <= i < |blobs| && 0 <= k < |blobs[i].paths| ==> Plain(blobs[i].paths[k])
    ensures Parse(Render(blobs)) == Some(blobs)
  {
    hide Plain, Parse, Render;
    forall i | 0 <= i < |blobs| ensures Plain(blobs[i].sha256) {
      assert Verified(sha256, cache, blobs[i]);
      var file :| file in cache && sha256(cache[file]) == blobs[i].sha256 && |cache[file]| == blobs[i].size;
    }
    ParseRender(blobs);
  }

  lemma TableEmptyIff(files: seq<Selected>, table: map<string, Blob>)
    requires TableOf(files, table)
    ensures table == map[] <==> files == []
  {
    if files != [] {
      assert files[0] in files;
    }
  }

  /** Reordering or repeating the inventories does not change the manifest or its text. */
  lemma ManifestIsCanonical(a: seq<Selected>, b: seq<Selected>, ma: Manifest, mb: Manifest)
    requires forall f :: f in a <==> f in b
    requires IsGrouping(a, ma.blobs) && ma == Manifest(ma.blobs, |ma.blobs|, Total(ma.blobs), Render(ma.blobs))
    requires IsGrouping(b, mb.blobs) && mb == Manifest(mb.blobs, |mb.blobs|, Total(mb.blobs), Render(mb.blobs))
    ensures ma == mb
  {
    GroupingUnique(a, b, ma.blobs, mb.blobs);
  }

  // ------------------------------------------------- success and the order of the inventories

  lemma SameMembers(a: seq<Selected>, b: seq<Selected>)
    requires multiset(a) == multiset(b)
    ensures forall f :: f in a <==> f in b
    ensures Consistent(a) == Consistent(b) && PathsPlain(a) == PathsPlain(b) && |a| == |b|
  {
    assert |multiset(a)| == |a| && |multiset(b)| == |b|;
    forall f ensures f in a <==> f in b {
      assert f in multiset(a) <==> f in multiset(b);
    }
    hide Plain, Agree;
    assert PathsPlain(a) <==> forall f :: f in a ==> Carries(f.path);
    assert PathsPlain(b) <==> forall f :: f in b ==> Carries(f.path);
  }

  /** The file at place k moved to the front. */
  function ToFront(files: seq<Selected>, k: nat): seq<Selected>
    requires k < |files|
  {
    [files[k]] + files[..k] + files[k + 1..]
  }

  lemma ToFrontPermutes(files: seq<Selected>, k: nat)
    requires k < |files|
    ensures multiset(ToFront(files, k)) == multiset(files)
    ensures FirstOf(ToFront(files, k), 0) && ToFront(files, k)[0] == files[k]
  {
    assert files == files[..k] + [files[k]] + files[k + 1..];
  }

  /** Materializing succeeds for every order of the inventories if and only if every selected file is in the cache. */
  lemma SucceedsInEveryOrder(files: seq<Selected>, sha256: Bytes -> string, cache: map<string, Bytes>)
    ensures (forall order: seq<Selected> :: multiset(order) == multiset(files) ==> Materializes(order, sha256, cache))
            <==> files != [] && Consistent(files) && PathsPlain(files)
                 && forall k :: 0 <= k < |files| ==> InCache(sha256, cache, files[k])
  {
    hide Consistent, PathsPlain, InCache;
    if files != [] && Consistent(files) && PathsPlain(files) && forall k :: 0 <= k < |files| ==> InCache(sha256, cache, files[k]) {
      forall order: seq<Selected> | multiset(order) == multiset(files) ensures Materializes(order, sha256, cache) {
        SameMembers(order, files);
        forall i | 0 <= i < |order| ensures InCache(sha256, cache, order[i]) {
          assert order[i] in files;
        }
      }
    } else if forall order: seq<Selected> :: multiset(order) == multiset(files) ==> Materializes(order, sha256, cache) {
      assert Materializes(files, sha256, cache);
      forall k | 0 <= k < |files| ensures InCache(sha256, cache, files[k]) {
        ToFrontPermutes(files, k);
        assert Materializes(ToFront(files, k), sha256, cache);
      }
    }
  }

  const CACHE_DIRECTORY := ".atum/cache/kubespray-offline/sha256/"

  /** Otherwise the order decides: two files of one digest, and only one of them in the cache. */
  lemma OrderDecides(sha256: Bytes -> string, content: Bytes, x: string, y: string)
    requires Plain(x) && Plain(y) && x != y
    ensures var digest := sha256(content);
            var here := Selected(x, digest, |content|, CACHE_DIRECTORY + digest);
            var gone := Selected(y, digest, |content|, CACHE_DIRECTORY + "copy/" + digest);
            var cache := map[here.cacheFile := content];
            Materializes([here, gone], sha256, cache) && !Materializes([gone, here], sha256, cache)
  {
    CarriesPlain(x);
    CarriesPlain(y);
    hide Plain, Carries;
    var digest := sha256(content);
    var here := Selected(x, digest, |content|, CACHE_DIRECTORY + digest);
    var gone := Selected(y, digest, |content|, CACHE_DIRECTORY + "copy/" + digest);
    assert |gone.cacheFile| > |here.cacheFile|;
    assert !FirstOf([here, gone], 1) by {
      assert [here, gone][0].sha256 == [here, gone][1].sha256;
    }
    assert FirstOf([gone, here], 0) && [gone, here][0].cacheFile !in map[here.cacheFile := content];
  }

  datatype ProjectionError = EmptyProjection | InvalidEntry | Duplicated

  datatype Entry = Entry(path: string, sha256: string, size: nat)

  /** One entry per path of every blob. */
  function Entries(blobs: seq<Blob>): seq<Entry> {
    if blobs == [] then []
    else Entries(blobs[..|blobs| - 1]) + BlobEntries(blobs[|blobs| - 1])
  }

  function BlobEntries(blob: Blob): seq<Entry> {
    seq(|blob.paths|, k requires 0 <= k < |blob.paths| => Entry(blob.paths[k], blob.sha256, blob.size))
  }

  /** The projection loop: `valid` stands for the checks on one entry. */
  method NewProjection(entries: seq<Entry>, valid: Entry -> bool) returns (error: Option<ProjectionError>)
    ensures error == Some(EmptyProjection) <==> entries == []
    ensures error == Some(InvalidEntry) ==> exists i :: 0 <= i < |entries| && !valid(entries[i])
    ensures error == Some(Duplicated) ==> exists i, j :: 0 <= i < j < |entries| && entries[i].path == entries[j].path
    ensures error.None? <==> entries != [] && (forall i :: 0 <= i < |entries| ==> valid(entries[i]))
                             && forall i, j :: 0 <= i < j < |entries| ==> entries[i].path != entries[j].path
  {
    if entries == [] {
      return Some(EmptyProjection);
    }
    var paths: set<string> := {};
    for i := 0 to |entries|
      invariant forall k :: 0 <= k < i ==> valid(entries[k]) && entries[k].path in paths
      invariant forall p :: p in paths ==> exists k :: 0 <= k < i && entries[k].path == p
      invariant forall j, k :: 0 <= j < k < i ==> entries[j].path != entries[k].path
    {
      if !valid(entries[i]) {
        return Some(InvalidEntry);
      }
      if entries[i].path in paths {
        return Some(Duplicated);
      }
      paths := paths + {entries[i].path};
    }
    return None;
  }

  /** The entries of a canonical grouping never repeat a path. */
  lemma {:induction false} EntriesDistinct(files: seq<Selected>, blobs: seq<Blob>, n: nat)
    requires Consistent(files) && IsGrouping(files, blobs) && n <= |blobs|
    ensures forall i, j :: 0 <= i < j < |Entries(blobs[..n])| ==> Entries(blobs[..n])[i].path != Entries(blobs[..n])[j].path
    ensures forall i :: 0 <= i < |Entries(blobs[..n])| ==> InBlobs(blobs, n, Entries(blobs[..n])[i].path)
  {
    if n > 0 {
      hide Consistent, IsGrouping;
      EntriesDistinct(files, blobs, n - 1);
      assert blobs[..n][..n - 1] == blobs[..n - 1];
      var before, here := Entries(blobs[..n - 1]), BlobEntries(blobs[n - 1]);
      PathsSorted(files, blobs, n - 1);
      forall i, j | 0 <= i < |before| && 0 <= j < |here| ensures before[i].path != here[j].path {
        var b: nat :| b < n - 1 && before[i].path in blobs[b].paths;
        Elsewhere(files, blobs, b, n - 1, before[i].path);
        assert here[j].path in blobs[n - 1].paths;
      }
      forall j | 0 <= j < |here| ensures InBlobs(blobs, n, here[j].path) {
        assert here[j].path in blobs[n - 1].paths;
      }
    }
  }

  ghost predicate InBlobs(blobs: seq<Blob>, n: nat, path: string)
    requires n <= |blobs|
  {
    exists b: nat :: b < n && path in blobs[b].paths
  }

  lemma PathsSorted(files: seq<Selected>, blobs: seq<Blob>, i: nat)
    requires IsGrouping(files, blobs) && i < |blobs|
    ensures forall j, k :: 0 <= j < k < |blobs[i].paths| ==> blobs[i].paths[j] != blobs[i].paths[k]
  {
    assert Groups(files, blobs[i]);
  }

  lemma Elsewhere(files: seq<Selected>, blobs: seq<Blob>, i: nat, j: nat, path: string)
    requires Consistent(files) && IsGrouping(files, blobs) && i < |blobs| && j < |blobs| && i != j
    requires path in blobs[i].paths
    ensures path !in blobs[j].paths
  {
    if path in blobs[j].paths {
      OneBlobPerPath(files, blobs, i, j, path);
    }
  }

  lemma {:induction false} EntriesMeans(blobs: seq<Blob>, e: Entry)
    ensures e in Entries(blobs) <==>
            exists i :: 0 <= i < |blobs| && e.path in blobs[i].paths && e.sha256 == blobs[i].sha256 && e.size == blobs[i].size
    decreases |blobs|
  {
    if blobs != [] {
      var front, last := blobs[..|blobs| - 1], blobs[|blobs| - 1];
      EntriesMeans(front, e);
      BlobEntriesMean(last, e);
      hide BlobEntries;
      assert blobs == front + [last] && e in Entries(blobs) <==> e in Entries(front) || e in BlobEntries(last);
    }
  }

  lemma BlobEntriesMean(blob: Blob, e: Entry)
    ensures e in BlobEntries(blob) <==> e.path in blob.paths && e.sha256 == blob.sha256 && e.size == blob.size
  {
    if e.path in blob.paths && e.sha256 == blob.sha256 && e.size == blob.size {
      var k :| 0 <= k < |blob.paths| && blob.paths[k] == e.path;
      assert BlobEntries(blob)[k] == e;
    }
  }

  /** A projection holds one entry for each selected file, with its digest and size, and nothing else. */
  lemma EntriesExactly(files: seq<Selected>, blobs: seq<Blob>, e: Entry)
    requires IsGrouping(files, blobs)
    ensures e in Entries(blobs) <==> exists f :: f in files && e == Entry(f.path, f.sha256, f.size)
  {
    hide Entries;
    EntriesMeans(blobs, e);
    if i :| 0 <= i < |blobs| && e.path in blobs[i].paths && e.sha256 == blobs[i].sha256 && e.size == blobs[i].size {
      assert Groups(files, blobs[i]);
    }
    if f :| f in files && e == Entry(f.path, f.sha256, f.size) {
      var i := BlobOf(files, blobs, f);
      assert Groups(files, blobs[i]);
    }
  }

  lemma BlobOf(files: seq<Selected>, blobs: seq<Blob>, f: Selected) returns (i: nat)
    requires IsGrouping(files, blobs) && f in files
    ensures i < |blobs| && blobs[i].sha256 == f.sha256
  {
    assert f.sha256 in Digests(blobs);
    i :| 0 <= i < |Digests(blobs)| && Digests(blobs)[i] == f.sha256;
  }

  /** The projection of a materialized manifest is never rejected as duplicated. */
  method ProjectManifest(ghost files: seq<Selected>, blobs: seq<Blob>, valid: Entry -> bool)
    returns (error: Option<ProjectionError>)
    requires Consistent(files) && IsGrouping(files, blobs)
    ensures error != Some(Duplicated) && (error == Some(EmptyProjection) <==> blobs == [])
    ensures error.None? <==> blobs != [] && forall e :: e in Entries(blobs) ==> valid(e)
  {
    EntriesDistinct(files, blobs, |blobs|);
    assert blobs[..|blobs|] == blobs;
    EntriesNonEmpty(files, blobs);
    error := NewProjection(Entries(blobs), valid);
    assert forall i :: 0 <= i < |Entries(blobs)| ==> Entries(blobs)[i] in Entries(blobs);
  }

  lemma EntriesNonEmpty(files: seq<Selected>, blobs: seq<Blob>)
    requires IsGrouping(files, blobs)
    ensures Entries(blobs) == [] <==> blobs == []
  {
    if blobs != [] {
      assert Groups(files, blobs[|blobs| - 1]);
      assert |BlobEntries(blobs[|blobs| - 1])| > 0;
    }
  }
}
