/**
 The OCI graph verifier: a worklist traversal of content-addressed descriptors
 whose two memo tables survive from one call to the next.
 */
module OciGraph {
  import opened Outcomes

  const MANIFEST_LIMIT: int := 4 * 1024 * 1024
  const GRAPH_LIMIT: nat := 100_000
  const MAX_INT64: int := 0x7FFF_FFFF_FFFF_FFFF

  const MEDIA_INDEX := "application/vnd.oci.image.index.v1+json"
  const MEDIA_DOCKER_LIST := "application/vnd.docker.distribution.manifest.list.v2+json"
  const MEDIA_MANIFEST := "application/vnd.oci.image.manifest.v1+json"
  const MEDIA_DOCKER_MANIFEST := "application/vnd.docker.distribution.manifest.v2+json"
  const MEDIA_ARTIFACT := "application/vnd.oci.artifact.manifest.v1+json"

  type Digest = string

  /** Sizes are signed 64-bit integers in the source. */
  type Size = x: int | -MAX_INT64 - 1 <= x <= MAX_INT64

  datatype Descriptor = Descriptor(mediaType: string, digest: Digest, size: Size)

  datatype Index = Index(schemaVersion: int, subject: Option<Descriptor>, manifests: seq<Descriptor>)

  datatype Manifest = Manifest(schemaVersion: int, subject: Option<Descriptor>,
                               config: Descriptor, layers: seq<Descriptor>)

  datatype Artifact = Artifact(mediaType: string, subject: Option<Descriptor>, blobs: seq<Descriptor>)

  /** A content store addressed by digest, with the digest check and the JSON decoders it is read through. */
  datatype Store = Store(
    blobs: map<Digest, Bytes>,
    wellFormed: Digest -> bool,
    matches: (Digest, Bytes) -> bool,
    decodeIndex: Bytes -> Option<Index>,
    decodeManifest: Bytes -> Option<Manifest>,
    decodeArtifact: Bytes -> Option<Artifact>)

  datatype Error =
    | InvalidDescriptor
    | IdentityConflict
    | Oversize
    | Unbounded
    | Unavailable
    | Mismatch
    | Undecodable
    | WrongSchema
    | GraphLimit
    | PendingLimit

  predicate IsLimit(error: Error) {
    error.GraphLimit? || error.PendingLimit?
  }

  datatype Expansion = Expansion(digest: Digest, mediaType: string)

  /** The verifier's two tables, as a value. */
  datatype Memo = Memo(verified: map<Digest, Size>, expanded: set<Expansion>)

  const FRESH := Memo(map[], {})

  predicate IsIndex(mediaType: string) {
    mediaType == MEDIA_INDEX || mediaType == MEDIA_DOCKER_LIST
  }

  predicate IsManifest(mediaType: string) {
    mediaType == MEDIA_MANIFEST || mediaType == MEDIA_DOCKER_MANIFEST
  }

  predicate IsArtifact(mediaType: string) {
    mediaType == MEDIA_ARTIFACT
  }

  predicate IsDocument(mediaType: string) {
    IsIndex(mediaType) || IsManifest(mediaType) || IsArtifact(mediaType)
  }

  function Optional(subject: Option<Descriptor>): seq<Descriptor> {
    if subject.Some? then [subject.value] else []
  }

  // ---------------------------------------------------------------- the code

  function FetchBounded(store: Store, d: Descriptor): (r: Result<Bytes, Error>) {
    if !store.wellFormed(d.digest) then Err(InvalidDescriptor)
    else if d.size < 0 || d.size > MANIFEST_LIMIT then Err(Oversize)
    else if d.digest !in store.blobs then Err(Unavailable)
    else
      var data := store.blobs[d.digest];
      if |data| > MANIFEST_LIMIT then Err(Oversize)
      else if |data| != d.size || !store.matches(d.digest, data) then Err(Mismatch)
      else Ok(data)
  }

  /** Streams one blob through its digest unless the memo already vouches for it. */
  function VerifyBlob(store: Store, verified: map<Digest, Size>, d: Descriptor): (r: Result<map<Digest, Size>, Error>) {
    if d.digest in verified then
      if verified[d.digest] != d.size then Err(IdentityConflict) else Ok(verified)
    else if d.size == MAX_INT64 then Err(Unbounded)
    else if d.digest !in store.blobs then Err(Unavailable)
    else
      var data := store.blobs[d.digest];
      if |data| != d.size || !store.matches(d.digest, data) then Err(Mismatch)
      else Ok(verified[d.digest := d.size])
  }

  /** The descriptors one decoded document names, in the order they are pushed. */
  function ReadDocument(store: Store, d: Descriptor): (r: Result<seq<Descriptor>, Error>)
    requires IsDocument(d.mediaType)
  {
    match FetchBounded(store, d)
    case Err(e) => Err(e)
    case Ok(data) =>
      if IsIndex(d.mediaType) then
        match store.decodeIndex(data) {
          case None => Err(Undecodable)
          case Some(index) =>
            if index.schemaVersion != 2 then Err(WrongSchema)
            else Ok(Optional(index.subject) + index.manifests)
        }
      else if IsManifest(d.mediaType) then
        match store.decodeManifest(data) {
          case None => Err(Undecodable)
          case Some(manifest) =>
            if manifest.schemaVersion != 2 then Err(WrongSchema)
            else Ok(Optional(manifest.subject) + [manifest.config] + manifest.layers)
        }
      else
        match store.decodeArtifact(data) {
          case None => Err(Undecodable)
          case Some(artifact) =>
            if artifact.mediaType != d.mediaType then Err(WrongSchema)
            else Ok(Optional(artifact.subject) + artifact.blobs)
        }
  }

  datatype Visit = Visited(verified: map<Digest, Size>, successors: seq<Descriptor>) | Rejected(error: Error)

  /** What one popped, not yet expanded descriptor does to the `verified` table. */
  function VisitDescriptor(store: Store, memo: Memo, d: Descriptor): (r: Visit) {
    if IsDocument(d.mediaType) then
      match ReadDocument(store, d)
      case Err(e) => Rejected(e)
      case Ok(successors) => Visited(memo.verified[d.digest := d.size], successors)
    else
      match VerifyBlob(store, memo.verified, d)
      case Err(e) => Rejected(e)
      case Ok(verified) => Visited(verified, [])
  }

  predicate Conflicts(memo: Memo, d: Descriptor) {
    d.digest in memo.verified && memo.verified[d.digest] != d.size
  }

  datatype Outcome = Outcome(memo: Memo, error: Option<Error>)

  /**
   The traversal as a function of the tables and the stack, top of stack last.
   Every recursive call must show that the stack is still within the limit.
   */
  function Traverse(store: Store, memo: Memo, stack: seq<Descriptor>): (r: Outcome)
    requires |stack| <= GRAPH_LIMIT
    ensures memo.expanded <= r.memo.expanded
    ensures |r.memo.expanded| <= if |memo.expanded| <= GRAPH_LIMIT then GRAPH_LIMIT else |memo.expanded|
    decreases if |memo.expanded| < GRAPH_LIMIT then GRAPH_LIMIT - |memo.expanded| else 0, |stack|
  {
    if stack == [] then Outcome(memo, None)
    else if |memo.expanded| >= GRAPH_LIMIT then Outcome(memo, Some(GraphLimit))
    else
      var rest, d := stack[..|stack| - 1], stack[|stack| - 1];
      var expansion := Expansion(d.digest, d.mediaType);
      if !store.wellFormed(d.digest) || d.size <= 0 then Outcome(memo, Some(InvalidDescriptor))
      else if Conflicts(memo, d) then Outcome(memo, Some(IdentityConflict))
      else if expansion in memo.expanded then Traverse(store, memo, rest)
      else
        match VisitDescriptor(store, memo, d)
        case Rejected(e) => Outcome(memo, Some(e))
        case Visited(verified, successors) =>
          var next := Memo(verified, memo.expanded + {expansion});
          if |rest| > GRAPH_LIMIT - |successors| then Outcome(next, Some(PendingLimit))
          else Traverse(store, next, rest + successors)
  }

  /** The reusable verifier. */
  class BlobVerifier {
    var verified: map<Digest, Size>
    var expanded: set<Expansion>

    ghost function Tables(): Memo
      reads this
    {
      Memo(verified, expanded)
    }

    constructor ()
      ensures Tables() == FRESH
    {
      verified := map[];
      expanded := {};
    }

    /** The worklist loop leaves exactly the tables and the verdict that Traverse describes. */
    method VerifyGraph(store: Store, root: Descriptor) returns (error: Option<Error>)
      modifies this
      ensures Outcome(Tables(), error) == Traverse(store, old(Tables()), [root])
      ensures MemoSound(store, old(Tables())) && Closed(store, old(Tables())) ==>
                || (error.Some? && IsLimit(error.value))
                || (error.None? <==> AllGood(store, root))
    {
      hide MemoSound, ClosedUpTo, AllGood, ReadDocument, VerifyBlob, IsDocument, Reachable, Admitted;
      if MemoSound(store, Tables()) && Closed(store, Tables()) {
        VerdictIsExact(store, Tables(), root);
      }
      var stack := [root];
      while stack != []
        invariant |stack| <= GRAPH_LIMIT
        invariant Traverse(store, Tables(), stack) == Traverse(store, old(Tables()), [root])
        decreases if |expanded| < GRAPH_LIMIT then GRAPH_LIMIT - |expanded| else 0, |stack|
      {
        if |expanded| >= GRAPH_LIMIT {
          return Some(GraphLimit);
        }
        var d := stack[|stack| - 1];
        stack := stack[..|stack| - 1];
        if !store.wellFormed(d.digest) || d.size <= 0 {
          return Some(InvalidDescriptor);
        }
        if d.digest in verified && verified[d.digest] != d.size {
          return Some(IdentityConflict);
        }
        var expansion := Expansion(d.digest, d.mediaType);
        if expansion in expanded {
          continue;
        }
        var successors := [];
        if IsDocument(d.mediaType) {
          match ReadDocument(store, d) {
            case Err(e) => return Some(e);
            case Ok(named) =>
              successors := named;
              verified := verified[d.digest := d.size];
          }
        } else {
          match VerifyBlob(store, verified, d) {
            case Err(e) => return Some(e);
            case Ok(updated) => verified := updated;
          }
        }
        expanded := expanded + {expansion};
        if |stack| > GRAPH_LIMIT - |successors| {
          return Some(PendingLimit);
        }
        stack := stack + successors;
      }
      return None;
    }
  }

  // ------------------------------------------------------- what it should mean

  /** The store really holds the bytes the descriptor promises. */
  predicate ContentMatches(store: Store, d: Descriptor) {
    && store.wellFormed(d.digest)
    && d.size > 0
    && d.digest in store.blobs
    && |store.blobs[d.digest]| == d.size
    && store.matches(d.digest, store.blobs[d.digest])
  }

  /** The stored bytes decode as the kind of document the media type announces, under its schema. */
  predicate RightSchema(store: Store, d: Descriptor)
    requires d.digest in store.blobs
  {
    var data := store.blobs[d.digest];
    && (IsIndex(d.mediaType) ==>
          store.decodeIndex(data).Some? && store.decodeIndex(data).value.schemaVersion == 2)
    && (IsManifest(d.mediaType) ==>
          store.decodeManifest(data).Some? && store.decodeManifest(data).value.schemaVersion == 2)
    && (IsArtifact(d.mediaType) ==>
          store.decodeArtifact(data).Some? && store.decodeArtifact(data).value.mediaType == d.mediaType)
  }

  /** Content plus, for an index, manifest or artifact manifest, a bounded document of the right schema. */
  predicate Good(store: Store, d: Descriptor) {
    && ContentMatches(store, d)
    && (if IsDocument(d.mediaType) then d.size <= MANIFEST_LIMIT && RightSchema(store, d) else d.size < MAX_INT64)
  }

  /** The edges of the graph, as the decoded documents have them: a good document names this descriptor. */
  predicate Names(store: Store, d: Descriptor, x: Descriptor) {
    Good(store, d) &&
    var data := store.blobs[d.digest];
    || (IsIndex(d.mediaType) &&
        var index := store.decodeIndex(data).value; index.subject == Some(x) || x in index.manifests)
    || (IsManifest(d.mediaType) &&
        var manifest := store.decodeManifest(data).value;
        manifest.subject == Some(x) || manifest.config == x || x in manifest.layers)
    || (IsArtifact(d.mediaType) &&
        var artifact := store.decodeArtifact(data).value; artifact.subject == Some(x) || x in artifact.blobs)
  }

  /** The successors of a good descriptor, as they are pushed. */
  function Links(store: Store, d: Descriptor): (r: seq<Descriptor>) {
    if IsDocument(d.mediaType) && ReadDocument(store, d).Ok? then ReadDocument(store, d).value else []
  }

  /** What is pushed is exactly what the document names: subject, config, layers, nested manifests and blobs. */
  lemma LinksExactly(store: Store, d: Descriptor, x: Descriptor)
    requires Good(store, d)
    ensures x in Links(store, d) <==> Names(store, d, x)
  {
  }

  /** How many descriptors a good document names, counted with repetitions. */
  function NameCount(store: Store, d: Descriptor): nat {
    if !Good(store, d) then 0
    else
      var data := store.blobs[d.digest];
      if IsIndex(d.mediaType) then
        var index := store.decodeIndex(data).value; |Optional(index.subject)| + |index.manifests|
      else if IsManifest(d.mediaType) then
        var manifest := store.decodeManifest(data).value; |Optional(manifest.subject)| + 1 + |manifest.layers|
      else if IsArtifact(d.mediaType) then
        var artifact := store.decodeArtifact(data).value; |Optional(artifact.subject)| + |artifact.blobs|
      else 0
  }

  lemma LinksCounted(store: Store, d: Descriptor)
    requires Good(store, d)
    ensures |Links(store, d)| == NameCount(store, d)
  {
  }

  /** Reading fails on a document that is not good, and on nothing else. */
  lemma ReadsExactly(store: Store, d: Descriptor)
    requires IsDocument(d.mediaType) && store.wellFormed(d.digest) && d.size > 0
    ensures ReadDocument(store, d).Ok? <==> Good(store, d)
  {
  }

  /** Why a document cannot be fetched, the first reason first. */
  lemma FetchFails(store: Store, d: Descriptor)
    requires store.wellFormed(d.digest) && FetchBounded(store, d).Err?
    ensures match FetchBounded(store, d).error
            case Oversize => d.size < 0 || d.size > MANIFEST_LIMIT
                             || (d.digest in store.blobs && |store.blobs[d.digest]| > MANIFEST_LIMIT)
            case Unavailable => 0 <= d.size <= MANIFEST_LIMIT && d.digest !in store.blobs
            case Mismatch => 0 <= d.size <= MANIFEST_LIMIT && d.digest in store.blobs
                             && |store.blobs[d.digest]| <= MANIFEST_LIMIT && !ContentMatches(store, d)
            case _ => false
  {
  }

  /** Docker's lists and manifests are read like the OCI ones. */
  lemma DockerFormsToo(store: Store, d: Descriptor)
    ensures IsDocument(MEDIA_DOCKER_LIST) && IsDocument(MEDIA_INDEX)
    ensures IsDocument(MEDIA_DOCKER_MANIFEST) && IsDocument(MEDIA_MANIFEST) && IsDocument(MEDIA_ARTIFACT)
    ensures ReadDocument(store, d.(mediaType := MEDIA_DOCKER_LIST)) == ReadDocument(store, d.(mediaType := MEDIA_INDEX))
    ensures ReadDocument(store, d.(mediaType := MEDIA_DOCKER_MANIFEST)) == ReadDocument(store, d.(mediaType := MEDIA_MANIFEST))
  {
    assert |MEDIA_DOCKER_LIST| != |MEDIA_INDEX| && |MEDIA_DOCKER_MANIFEST| != |MEDIA_MANIFEST|;
  }

  ghost predicate IsPath(store: Store, path: seq<Descriptor>) {
    forall i :: 0 < i < |path| ==> Names(store, path[i - 1], path[i])
  }

  ghost predicate Reachable(store: Store, root: Descriptor, d: Descriptor) {
    exists path: seq<Descriptor> ::
      && |path| > 0 && path[0] == root && path[|path| - 1] == d
      && IsPath(store, path)
  }

  lemma ReachableStep(store: Store, root: Descriptor, d: Descriptor, next: Descriptor)
    requires Reachable(store, root, d) && Names(store, d, next)
    ensures Reachable(store, root, next)
  {
    hide Names;
    var path :| |path| > 0 && path[0] == root && path[|path| - 1] == d && IsPath(store, path);
    var longer := path + [next];
    assert IsPath(store, longer);
  }

  ghost predicate AllReachable(store: Store, root: Descriptor, stack: seq<Descriptor>) {
    forall d :: d in stack ==> Reachable(store, root, d)
  }

  lemma LinksReachable(store: Store, root: Descriptor, d: Descriptor)
    requires Reachable(store, root, d) && Good(store, d)
    ensures AllReachable(store, root, Links(store, d))
  {
    hide Links, Names, Good, Reachable;
    forall s | s in Links(store, d) ensures Reachable(store, root, s) {
      LinksExactly(store, d, s);
      ReachableStep(store, root, d, s);
    }
  }

  ghost predicate AllGood(store: Store, root: Descriptor) {
    forall d :: Reachable(store, root, d) ==> Good(store, d)
  }

  lemma ReachesItself(store: Store, root: Descriptor)
    ensures Reachable(store, root, root)
  {
    var path := [root];
    assert IsPath(store, path);
  }

  /** What is good all the way down is good all the way down from each of its nodes. */
  lemma AllGoodBelow(store: Store, root: Descriptor, d: Descriptor)
    requires AllGood(store, root) && Reachable(store, root, d)
    ensures AllGood(store, d)
  {
    hide Names, Good;
    var first :| |first| > 0 && first[0] == root && first[|first| - 1] == d && IsPath(store, first);
    forall next | Reachable(store, d, next) ensures Good(store, next) {
      var second :| |second| > 0 && second[0] == d && second[|second| - 1] == next && IsPath(store, second);
      Splice(store, first, second);
      assert (first + second[1..])[0] == root && (first + second[1..])[|first + second[1..]| - 1] == next;
      assert Reachable(store, root, next);
    }
  }

  lemma Splice(store: Store, first: seq<Descriptor>, second: seq<Descriptor>)
    requires |first| > 0 && |second| > 0 && first[|first| - 1] == second[0]
    requires IsPath(store, first) && IsPath(store, second)
    ensures IsPath(store, first + second[1..])
  {
    hide Names;
    var path := first + second[1..];
    forall i | 0 < i < |path| ensures Names(store, path[i - 1], path[i]) {
      if i >= |first| {
        var k := i - |first| + 1;
        assert path[i] == second[k] && path[i - 1] == second[k - 1];
      }
    }
  }

  // ---------------------------------------------------------- the memo's meaning

  /** The descriptor an expansion stands for, at the size the memo recorded. */
  function Expanded(memo: Memo, e: Expansion): (d: Descriptor)
    requires e.digest in memo.verified
  {
    Descriptor(e.mediaType, e.digest, memo.verified[e.digest])
  }

  ghost predicate MemoSound(store: Store, memo: Memo) {
    && (forall g :: g in memo.verified ==> g in store.blobs && |store.blobs[g]| == memo.verified[g]
                                           && store.matches(g, store.blobs[g])
                                           && memo.verified[g] < MAX_INT64)
    && (forall e :: e in memo.expanded ==> e.digest in memo.verified && Good(store, Expanded(memo, e)))
  }

  predicate Admitted(memo: Memo, d: Descriptor) {
    && d.digest in memo.verified && memo.verified[d.digest] == d.size
    && Expansion(d.digest, d.mediaType) in memo.expanded
  }

  /** Nothing admitted earlier is forgotten. */
  ghost predicate Grows(before: Memo, after: Memo) {
    forall d :: Admitted(before, d) ==> Admitted(after, d)
  }

  ghost predicate AdmitsAll(memo: Memo, pending: seq<Descriptor>) {
    forall d :: d in pending ==> Admitted(memo, d)
  }

  /** Every edge out of a node expanded since `base` leads to an expanded node or to a pending one. */
  ghost predicate ClosedUpTo(store: Store, base: set<Expansion>, memo: Memo, pending: seq<Descriptor>) {
    forall e, s :: e in memo.expanded && e !in base && e.digest in memo.verified && Names(store, Expanded(memo, e), s) ==>
      Admitted(memo, s) || s in pending
  }

  ghost predicate Closed(store: Store, memo: Memo) {
    ClosedUpTo(store, {}, memo, [])
  }

  /** The tables after a good descriptor has been expanded. */
  function After(memo: Memo, d: Descriptor): (next: Memo) {
    Memo(memo.verified[d.digest := d.size], memo.expanded + {Expansion(d.digest, d.mediaType)})
  }

  /** With a sound table a blob is accepted exactly when the store holds it, whether or not the table knows it. */
  lemma BlobMeans(store: Store, memo: Memo, d: Descriptor)
    requires MemoSound(store, memo) && store.wellFormed(d.digest) && d.size > 0
    ensures VerifyBlob(store, memo.verified, d).Ok? <==> ContentMatches(store, d) && d.size < MAX_INT64
  {
  }

  /** One visit: what it accepts is good, what it rejects is not, and the tables stay sound. */
  lemma VisitMeans(store: Store, memo: Memo, d: Descriptor)
    requires MemoSound(store, memo)
    requires store.wellFormed(d.digest) && d.size > 0 && !Conflicts(memo, d)
    ensures VisitDescriptor(store, memo, d).Visited? <==> Good(store, d)
    ensures Good(store, d) ==>
              var v := VisitDescriptor(store, memo, d);
              && v == Visited(After(memo, d).verified, Links(store, d))
              && MemoSound(store, After(memo, d))
  {
    if Good(store, d) {
      var next := After(memo, d);
      if !IsDocument(d.mediaType) && d.digest in memo.verified {
        assert memo.verified[d.digest := d.size] == memo.verified;
      }
      forall e | e in next.expanded
        ensures e.digest in next.verified && Good(store, Expanded(next, e))
      {
        if e in memo.expanded {
          assert Expanded(next, e) == Expanded(memo, e);
        } else {
          assert Expanded(next, e) == d;
        }
      }
    }
  }

  /** Conflicting sizes are never an accident of traversal order: the later descriptor is wrong about the store. */
  lemma ConflictIsBad(store: Store, memo: Memo, d: Descriptor)
    requires MemoSound(store, memo) && Conflicts(memo, d)
    ensures !Good(store, d)
  {
  }

  lemma UnfitIsBad(store: Store, memo: Memo, d: Descriptor)
    requires MemoSound(store, memo) && (!store.wellFormed(d.digest) || d.size <= 0 || Conflicts(memo, d))
    ensures !Good(store, d)
  {
  }

  // ------------------------------------------------------------- main results

  /** Soundness of the tables survives every run, failed ones included, and nothing is forgotten. */
  lemma {:induction false} TraverseKeepsMemo(store: Store, memo: Memo, stack: seq<Descriptor>)
    requires |stack| <= GRAPH_LIMIT
    requires MemoSound(store, memo)
    ensures MemoSound(store, Traverse(store, memo, stack).memo)
    ensures Grows(memo, Traverse(store, memo, stack).memo)
    decreases if |memo.expanded| < GRAPH_LIMIT then GRAPH_LIMIT - |memo.expanded| else 0, |stack|
  {
    if stack == [] || |memo.expanded| >= GRAPH_LIMIT {
      return;
    }
    var rest, d := stack[..|stack| - 1], stack[|stack| - 1];
    if !store.wellFormed(d.digest) || d.size <= 0 || Conflicts(memo, d) {
      return;
    }
    if Expansion(d.digest, d.mediaType) in memo.expanded {
      TraverseKeepsMemo(store, memo, rest);
      return;
    }
    VisitMeans(store, memo, d);
    if Good(store, d) {
      var next := After(memo, d);
      assert Grows(memo, next);
      if |rest| <= GRAPH_LIMIT - |Links(store, d)| {
        TraverseKeepsMemo(store, next, rest + Links(store, d));
      }
    }
  }

  /** Success admits everything that was pending and closes the tables again. */
  lemma {:induction false} TraverseSound(store: Store, base: set<Expansion>, memo: Memo, stack: seq<Descriptor>)
    requires |stack| <= GRAPH_LIMIT
    requires MemoSound(store, memo) && ClosedUpTo(store, base, memo, stack)
    requires Traverse(store, memo, stack).error.None?
    ensures ClosedUpTo(store, base, Traverse(store, memo, stack).memo, [])
    ensures AdmitsAll(Traverse(store, memo, stack).memo, stack)
    decreases if |memo.expanded| < GRAPH_LIMIT then GRAPH_LIMIT - |memo.expanded| else 0, |stack|
  {
    hide VisitDescriptor, Links, Names, Good;
    if stack == [] {
      return;
    }
    var rest, d := stack[..|stack| - 1], stack[|stack| - 1];
    assert stack == rest + [d];
    var after := Traverse(store, memo, stack).memo;
    if Expansion(d.digest, d.mediaType) in memo.expanded {
      assert Admitted(memo, d);
      PopKeepsClosure(store, base, memo, rest, d);
      TraverseKeepsMemo(store, memo, rest);
      TraverseSound(store, base, memo, rest);
    } else {
      VisitMeans(store, memo, d);
      var next, pending := After(memo, d), rest + Links(store, d);
      VisitKeepsClosure(store, base, memo, rest, d);
      assert Admitted(next, d);
      TraverseKeepsMemo(store, next, pending);
      TraverseSound(store, base, next, pending);
      assert forall x :: x in rest ==> x in pending;
    }
    assert Admitted(after, d);
    assert AdmitsAll(after, rest);
  }

  lemma PopKeepsClosure(store: Store, base: set<Expansion>, memo: Memo, rest: seq<Descriptor>, d: Descriptor)
    requires ClosedUpTo(store, base, memo, rest + [d]) && Admitted(memo, d)
    ensures ClosedUpTo(store, base, memo, rest)
  {
    forall e, s | e in memo.expanded && e !in base && e.digest in memo.verified && Names(store, Expanded(memo, e), s)
      ensures Admitted(memo, s) || s in rest
    {
      assert Admitted(memo, s) || s in rest + [d];
    }
  }

  lemma VisitKeepsClosure(store: Store, base: set<Expansion>, memo: Memo, rest: seq<Descriptor>, d: Descriptor)
    requires MemoSound(store, memo) && !Conflicts(memo, d)
    requires ClosedUpTo(store, base, memo, rest + [d]) && Good(store, d)
    ensures ClosedUpTo(store, base, After(memo, d), rest + Links(store, d))
  {
    hide Links, Names, Good;
    var next := After(memo, d);
    forall e, s | e in next.expanded && e !in base && e.digest in next.verified && Names(store, Expanded(next, e), s)
      ensures Admitted(next, s) || s in rest + Links(store, d)
    {
      if e in memo.expanded {
        assert Expanded(next, e) == Expanded(memo, e);
        assert Admitted(memo, s) || s in rest + [d];
      } else {
        assert Expanded(next, e) == d;
        LinksExactly(store, d, s);
      }
    }
  }

  /** From closed tables, everything a path can reach is admitted and therefore good. */
  lemma {:induction false} AdmittedAlongPath(store: Store, memo: Memo, path: seq<Descriptor>, k: nat)
    requires MemoSound(store, memo) && Closed(store, memo)
    requires k < |path| && IsPath(store, path) && Admitted(memo, path[0])
    ensures Admitted(memo, path[k]) && Good(store, path[k])
  {
    if k > 0 {
      AdmittedAlongPath(store, memo, path, k - 1);
      var e := Expansion(path[k - 1].digest, path[k - 1].mediaType);
      assert Expanded(memo, e) == path[k - 1];
      assert Names(store, Expanded(memo, e), path[k]);
    }
    assert Admitted(memo, path[k]);
    var e := Expansion(path[k].digest, path[k].mediaType);
    assert Expanded(memo, e) == path[k];
  }

  /** A rejection other than a size limit points at a reachable descriptor that really is bad. */
  lemma {:induction false} TraverseRejects(store: Store, memo: Memo, stack: seq<Descriptor>, root: Descriptor)
    returns (bad: Descriptor)
    requires |stack| <= GRAPH_LIMIT && MemoSound(store, memo) && AllReachable(store, root, stack)
    requires var e := Traverse(store, memo, stack).error; e.Some? && !IsLimit(e.value)
    ensures Reachable(store, root, bad) && !Good(store, bad)
    decreases if |memo.expanded| < GRAPH_LIMIT then GRAPH_LIMIT - |memo.expanded| else 0, |stack|
  {
    hide VisitDescriptor, Links, Names, Good, Reachable, MemoSound;
    var rest, d := stack[..|stack| - 1], stack[|stack| - 1];
    bad := d;
    if !store.wellFormed(d.digest) || d.size <= 0 || Conflicts(memo, d) {
      UnfitIsBad(store, memo, d);
      return;
    }
    if Expansion(d.digest, d.mediaType) in memo.expanded {
      bad := TraverseRejects(store, memo, rest, root);
      return;
    }
    VisitMeans(store, memo, d);
    if Good(store, d) {
      LinksReachable(store, root, d);
      bad := TraverseRejects(store, After(memo, d), rest + Links(store, d), root);
    }
  }

  /**
   The verdict is exact. With tables that are sound and closed, a run that does not hit a size limit
   succeeds if and only if every reachable descriptor is good, and success leaves the tables closed.
   */
  lemma VerdictIsExact(store: Store, memo: Memo, root: Descriptor)
    requires MemoSound(store, memo) && Closed(store, memo)
    ensures
      var r := Traverse(store, memo, [root]);
      && MemoSound(store, r.memo)
      && (r.error.None? ==> Closed(store, r.memo))
      && (r.error.None? ==> forall d :: Reachable(store, root, d) ==> Admitted(r.memo, d))
      && ((r.error.Some? && IsLimit(r.error.value))
          || (r.error.None? <==> AllGood(store, root)))
  {
    var r := Traverse(store, memo, [root]);
    TraverseKeepsMemo(store, memo, [root]);
    if r.error.None? {
      TraverseSound(store, {}, memo, [root]);
      forall d | Reachable(store, root, d) ensures Admitted(r.memo, d) && Good(store, d) {
        var path :| |path| > 0 && path[0] == root && path[|path| - 1] == d && IsPath(store, path);
        AdmittedAlongPath(store, r.memo, path, |path| - 1);
      }
    } else if !IsLimit(r.error.value) {
      var trivial := [root];
      assert IsPath(store, trivial);
      var bad := TraverseRejects(store, memo, [root], root);
    }
  }

  // ---------------------------------------------------------- graphs within the limits

  predicate Unexpanded(memo: Memo, d: Descriptor) {
    Expansion(d.digest, d.mediaType) !in memo.expanded
  }

  /** The descriptors still to be expanded, and all that they name. */
  function ToExpand(memo: Memo, nodes: seq<Descriptor>): nat {
    if nodes == [] then 0 else (if Unexpanded(memo, nodes[0]) then 1 else 0) + ToExpand(memo, nodes[1..])
  }

  function ToPush(store: Store, memo: Memo, nodes: seq<Descriptor>): nat {
    if nodes == [] then 0
    else (if Unexpanded(memo, nodes[0]) then NameCount(store, nodes[0]) else 0) + ToPush(store, memo, nodes[1..])
  }

  lemma {:induction false} ExpandingLeavesLess(store: Store, memo: Memo, d: Descriptor, nodes: seq<Descriptor>)
    requires Unexpanded(memo, d)
    ensures ToExpand(After(memo, d), nodes) + (if d in nodes then 1 else 0) <= ToExpand(memo, nodes)
    ensures ToPush(store, After(memo, d), nodes) + (if d in nodes then NameCount(store, d) else 0)
            <= ToPush(store, memo, nodes)
    decreases |nodes|
  {
    hide NameCount;
    if nodes != [] {
      ExpandingLeavesLess(store, memo, d, nodes[1..]);
    }
  }

  ghost predicate Covers(store: Store, root: Descriptor, nodes: seq<Descriptor>) {
    forall d :: Reachable(store, root, d) ==> d in nodes
  }

  /** A run stays within the limits as long as what is left to expand and to push does. */
  lemma {:induction false} StaysWithin(store: Store, memo: Memo, stack: seq<Descriptor>, root: Descriptor,
                                       nodes: seq<Descriptor>)
    requires MemoSound(store, memo) && AllReachable(store, root, stack) && Covers(store, root, nodes)
    requires |stack| <= GRAPH_LIMIT && |stack| - 1 + ToPush(store, memo, nodes) <= GRAPH_LIMIT
    requires |memo.expanded| + ToExpand(memo, nodes) < GRAPH_LIMIT
    ensures var e := Traverse(store, memo, stack).error; e.Some? ==> !IsLimit(e.value)
    decreases if |memo.expanded| < GRAPH_LIMIT then GRAPH_LIMIT - |memo.expanded| else 0, |stack|
  {
    hide VisitDescriptor, Links, Names, Good, Reachable, MemoSound, NameCount;
    if stack == [] {
      return;
    }
    var rest, d := stack[..|stack| - 1], stack[|stack| - 1];
    if !store.wellFormed(d.digest) || d.size <= 0 || Conflicts(memo, d) {
      return;
    }
    if !Unexpanded(memo, d) {
      StaysWithin(store, memo, rest, root, nodes);
      return;
    }
    VisitMeans(store, memo, d);
    VisitErrors(store, memo, d);
    if Good(store, d) {
      ExpandingLeavesLess(store, memo, d, nodes);
      LinksCounted(store, d);
      LinksReachable(store, root, d);
      StaysWithin(store, After(memo, d), rest + Links(store, d), root, nodes);
    }
  }

  /**
   For a graph that fits, the verdict is the whole answer: a list of its descriptors that is short enough, and names
   few enough others, means that nil is returned if and only if every one of them is good.
   */
  lemma SmallGraphsAreDecided(store: Store, memo: Memo, root: Descriptor, nodes: seq<Descriptor>)
    requires MemoSound(store, memo) && Closed(store, memo) && Covers(store, root, nodes)
    requires ToPush(store, memo, nodes) <= GRAPH_LIMIT && |memo.expanded| + ToExpand(memo, nodes) < GRAPH_LIMIT
    ensures Traverse(store, memo, [root]).error.None? <==> AllGood(store, root)
  {
    hide Traverse, AllGood, Reachable, MemoSound, ClosedUpTo;
    ReachesItself(store, root);
    VerdictIsExact(store, memo, root);
    StaysWithin(store, memo, [root], root, nodes);
  }

  /** In an accepted graph no digest appears with two sizes. */
  lemma OneSizePerDigest(store: Store, memo: Memo, root: Descriptor, a: Descriptor, b: Descriptor)
    requires MemoSound(store, memo) && Closed(store, memo)
    requires Traverse(store, memo, [root]).error.None?
    requires Reachable(store, root, a) && Reachable(store, root, b) && a.digest == b.digest
    ensures a.size == b.size
  {
    VerdictIsExact(store, memo, root);
    var r := Traverse(store, memo, [root]);
    assert Admitted(r.memo, a) && Admitted(r.memo, b);
  }

  /** One verifier used over a whole inventory, stopping at the first failure. */
  function VerifyAll(store: Store, memo: Memo, roots: seq<Descriptor>): (r: Outcome)
    decreases |roots|
  {
    if roots == [] then Outcome(memo, None)
    else
      var first := Traverse(store, memo, [roots[0]]);
      if first.error.Some? then first else VerifyAll(store, first.memo, roots[1..])
  }

  /** A fresh verifier that accepts every root of an inventory has checked every graph in it. */
  lemma {:induction false} InventorySound(store: Store, memo: Memo, roots: seq<Descriptor>)
    requires MemoSound(store, memo) && Closed(store, memo)
    requires VerifyAll(store, memo, roots).error.None?
    ensures Closed(store, VerifyAll(store, memo, roots).memo)
    ensures forall root :: root in roots ==> AllGood(store, root)
    decreases |roots|
  {
    if roots != [] {
      VerdictIsExact(store, memo, roots[0]);
      InventorySound(store, Traverse(store, memo, [roots[0]]).memo, roots[1..]);
    }
  }

  // ------------------------------------- reuse after a failure: the exact condition

  /** An admitted root is accepted again without a single read, so whatever the store holds by then. */
  lemma AdmittedRootAccepted(store: Store, later: Store, memo: Memo, root: Descriptor)
    requires MemoSound(store, memo) && Admitted(memo, root) && |memo.expanded| < GRAPH_LIMIT
    requires later.wellFormed == store.wellFormed
    ensures Traverse(later, memo, [root]) == Outcome(memo, None)
  {
    var e := Expansion(root.digest, root.mediaType);
    assert Expanded(memo, e) == root;
    assert [root][..0] == [];
  }

  /**
   Retrying a failed call on the same verifier: whenever the root document itself could be read, the
   second call returns success, although the failure came from a reachable bad descriptor.
   */
  lemma RetryAfterFailureAccepts(store: Store, root: Descriptor)
    requires Good(store, root)
    requires var first := Traverse(store, FRESH, [root]);
             first.error.Some? && !IsLimit(first.error.value) && |first.memo.expanded| < GRAPH_LIMIT
    ensures Traverse(store, Traverse(store, FRESH, [root]).memo, [root]).error.None?
    ensures !AllGood(store, root)
  {
    var first := Traverse(store, FRESH, [root]);
    VerdictIsExact(store, FRESH, root);
    VisitMeans(store, FRESH, root);
    var next := After(FRESH, root);
    assert [root][..0] + Links(store, root) == Links(store, root);
    TraverseKeepsMemo(store, next, Links(store, root));
    assert Admitted(next, root);
    AdmittedRootAccepted(store, store, first.memo, root);
  }

  /** A store that holds one manifest, but not the config blob the manifest names. */
  const HALF_STORE := Store(map["m" := "{}"], _ => true, (_, _) => true, _ => None,
                            _ => Some(Manifest(2, None, MISSING_CONFIG, [])), _ => None)
  const HALF_ROOT := Descriptor(MEDIA_MANIFEST, "m", 2)
  const MISSING_CONFIG := Descriptor("application/vnd.oci.image.config.v1+json", "c", 1)

  lemma HalfRoot()
    ensures Good(HALF_STORE, HALF_ROOT) && Links(HALF_STORE, HALF_ROOT) == [MISSING_CONFIG]
  {
    assert HALF_STORE.blobs["m"] == "{}";
    assert Optional(None) + [MISSING_CONFIG] + [] == [MISSING_CONFIG];
    assert FetchBounded(HALF_STORE, HALF_ROOT) == Ok("{}");
    assert HALF_STORE.decodeManifest("{}") == Some(Manifest(2, None, MISSING_CONFIG, []));
    assert ReadDocument(HALF_STORE, HALF_ROOT) == Ok([MISSING_CONFIG]);
  }

  lemma HalfConfig(memo: Memo)
    requires "c" !in memo.verified && |memo.expanded| < GRAPH_LIMIT
    requires Expansion("c", MISSING_CONFIG.mediaType) !in memo.expanded
    ensures Traverse(HALF_STORE, memo, [MISSING_CONFIG]) == Outcome(memo, Some(Unavailable))
  {
    hide ReadDocument;
    assert !IsDocument(MISSING_CONFIG.mediaType);
    assert VisitDescriptor(HALF_STORE, memo, MISSING_CONFIG) == Rejected(Unavailable);
  }

  /** There the first call reports the missing config and the second one reports nothing. */
  lemma HalfStoreRetried()
    ensures Traverse(HALF_STORE, FRESH, [HALF_ROOT]).error == Some(Unavailable)
    ensures Traverse(HALF_STORE, Traverse(HALF_STORE, FRESH, [HALF_ROOT]).memo, [HALF_ROOT]).error == None
  {
    hide Good, Links, VisitDescriptor;
    HalfRoot();
    var next := After(FRESH, HALF_ROOT);
    assert next.expanded == {Expansion("m", MEDIA_MANIFEST)};
    VisitMeans(HALF_STORE, FRESH, HALF_ROOT);
    assert [HALF_ROOT][..0] + [MISSING_CONFIG] == [MISSING_CONFIG];
    assert Traverse(HALF_STORE, FRESH, [HALF_ROOT]) == Traverse(HALF_STORE, next, [MISSING_CONFIG]);
    HalfConfig(next);
    RetryAfterFailureAccepts(HALF_STORE, HALF_ROOT);
  }

  /** What reuse is trusted for: nil from these tables means that everything reachable is good. */
  ghost predicate ReuseSound(store: Store, memo: Memo) {
    forall root :: Traverse(store, memo, [root]).error.None? ==> AllGood(store, root)
  }

  /** From sound, closed tables every nil can be trusted. */
  lemma ClosedIsReuseSound(store: Store, memo: Memo)
    requires MemoSound(store, memo) && Closed(store, memo)
    ensures ReuseSound(store, memo)
  {
    forall root | Traverse(store, memo, [root]).error.None? ensures AllGood(store, root) {
      VerdictIsExact(store, memo, root);
    }
  }

  /** A root that is bad itself leaves no trace in the tables. */
  lemma BadRootLeavesNothing(store: Store, memo: Memo, root: Descriptor)
    requires MemoSound(store, memo) && !Good(store, root)
    ensures Traverse(store, memo, [root]).memo == memo
  {
    var e := Expansion(root.digest, root.mediaType);
    if store.wellFormed(root.digest) && root.size > 0 && !Conflicts(memo, root) && e !in memo.expanded {
      VisitMeans(store, memo, root);
    }
  }

  /** A good root is admitted by any call that is not stopped by the limit before it starts. */
  lemma GoodRootAdmitted(store: Store, memo: Memo, root: Descriptor)
    requires MemoSound(store, memo) && Good(store, root) && |memo.expanded| < GRAPH_LIMIT && !Conflicts(memo, root)
    ensures Admitted(Traverse(store, memo, [root]).memo, root)
  {
    var e := Expansion(root.digest, root.mediaType);
    if e in memo.expanded {
      assert Expanded(memo, e) == root;
      AdmittedRootAccepted(store, store, memo, root);
    } else {
      VisitMeans(store, memo, root);
      var next := After(memo, root);
      assert Admitted(next, root);
      if |Links(store, root)| <= GRAPH_LIMIT {
        assert [root][..0] + Links(store, root) == Links(store, root);
        TraverseKeepsMemo(store, next, Links(store, root));
      }
    }
  }

  /** Every node expanded since `base` can be reached from the root. */
  ghost predicate NewReachable(store: Store, root: Descriptor, base: set<Expansion>, after: Memo) {
    forall e :: e in after.expanded && e !in base ==>
      e.digest in after.verified && Reachable(store, root, Expanded(after, e))
  }

  /** Everything a call expands can be reached from what was pending. */
  lemma {:induction false} ExpandsReachable(store: Store, memo: Memo, stack: seq<Descriptor>, root: Descriptor)
    requires |stack| <= GRAPH_LIMIT && MemoSound(store, memo) && AllReachable(store, root, stack)
    ensures NewReachable(store, root, memo.expanded, Traverse(store, memo, stack).memo)
    decreases if |memo.expanded| < GRAPH_LIMIT then GRAPH_LIMIT - |memo.expanded| else 0, |stack|
  {
    hide VisitDescriptor, Links, Names, Good, Reachable, MemoSound;
    if stack == [] || |memo.expanded| >= GRAPH_LIMIT {
      return;
    }
    var rest, d := stack[..|stack| - 1], stack[|stack| - 1];
    if !store.wellFormed(d.digest) || d.size <= 0 || Conflicts(memo, d) {
      return;
    }
    if Expansion(d.digest, d.mediaType) in memo.expanded {
      ExpandsReachable(store, memo, rest, root);
      return;
    }
    VisitMeans(store, memo, d);
    if Good(store, d) {
      var next := After(memo, d);
      OneMoreReachable(store, root, memo, d, next);
      if |rest| <= GRAPH_LIMIT - |Links(store, d)| {
        var pending := rest + Links(store, d);
        LinksReachable(store, root, d);
        ExpandsReachable(store, next, pending, root);
        TraverseKeepsMemo(store, next, pending);
        OneMoreReachable(store, root, memo, d, Traverse(store, next, pending).memo);
      }
    }
  }

  lemma OneMoreReachable(store: Store, root: Descriptor, memo: Memo, d: Descriptor, after: Memo)
    requires Reachable(store, root, d) && Grows(After(memo, d), after)
    requires NewReachable(store, root, After(memo, d).expanded, after)
    ensures NewReachable(store, root, memo.expanded, after)
  {
    hide Reachable;
    assert Admitted(After(memo, d), d);
    assert Expanded(after, Expansion(d.digest, d.mediaType)) == d;
  }

  /** The nodes of `base` stand for graphs that are good all the way down. */
  ghost predicate Vouched(store: Store, base: set<Expansion>, memo: Memo) {
    forall e :: e in base ==> e.digest in memo.verified && AllGood(store, Expanded(memo, e))
  }

  /** Along a path from an admitted node: admitted, or below a vouched node. */
  lemma {:induction false} GoodAlongPath(store: Store, base: set<Expansion>, memo: Memo, path: seq<Descriptor>, k: nat)
    requires MemoSound(store, memo) && ClosedUpTo(store, base, memo, []) && Vouched(store, base, memo)
    requires k < |path| && IsPath(store, path) && Admitted(memo, path[0])
    ensures Admitted(memo, path[k]) || AllGood(store, path[k])
  {
    hide Names, Good, AllGood, MemoSound;
    if k > 0 {
      GoodAlongPath(store, base, memo, path, k - 1);
      var d := path[k - 1];
      var e := Expansion(d.digest, d.mediaType);
      if Admitted(memo, d) {
        assert Expanded(memo, e) == d;
      }
      if AllGood(store, d) {
        ReachesItself(store, d);
        ReachableStep(store, d, d, path[k]);
        AllGoodBelow(store, d, path[k]);
      } else {
        assert Names(store, Expanded(memo, e), path[k]);
      }
    }
  }

  lemma AdmittedIsGood(store: Store, memo: Memo, d: Descriptor)
    requires MemoSound(store, memo) && Admitted(memo, d)
    ensures Good(store, d)
  {
    assert Expanded(memo, Expansion(d.digest, d.mediaType)) == d;
  }

  /** Tables that are not closed can still be trusted when everything in them is good all the way down. */
  lemma VouchedIsReuseSound(store: Store, memo: Memo)
    requires MemoSound(store, memo) && Vouched(store, memo.expanded, memo)
    ensures ReuseSound(store, memo)
  {
    hide Traverse, Good, Names, MemoSound, AllGood;
    forall root | Traverse(store, memo, [root]).error.None? ensures AllGood(store, root) {
      var after := Traverse(store, memo, [root]).memo;
      TraverseKeepsMemo(store, memo, [root]);
      TraverseSound(store, memo.expanded, memo, [root]);
      StillVouched(store, memo, after);
      assert root in [root] && Admitted(after, root);
      AdmittedAllGood(store, memo.expanded, after, root);
    }
  }

  lemma StillVouched(store: Store, memo: Memo, after: Memo)
    requires Vouched(store, memo.expanded, memo) && Grows(memo, after)
    ensures Vouched(store, memo.expanded, after)
  {
    forall e | e in memo.expanded ensures e.digest in after.verified && AllGood(store, Expanded(after, e)) {
      var d := Expanded(memo, e);
      assert Admitted(memo, d);
      assert Admitted(after, d);
      assert Expanded(after, e) == d;
    }
  }

  lemma AdmittedAllGood(store: Store, base: set<Expansion>, memo: Memo, root: Descriptor)
    requires MemoSound(store, memo) && ClosedUpTo(store, base, memo, []) && Vouched(store, base, memo)
    requires Admitted(memo, root)
    ensures AllGood(store, root)
  {
    hide MemoSound, ClosedUpTo, Vouched, Good, Names, Admitted;
    forall d | Reachable(store, root, d) ensures Good(store, d) {
      var path :| |path| > 0 && path[0] == root && path[|path| - 1] == d && IsPath(store, path);
      GoodAlongPath(store, base, memo, path, |path| - 1);
      if Admitted(memo, d) {
        AdmittedIsGood(store, memo, d);
      } else {
        ReachesItself(store, d);
      }
    }
  }

  /** A call on a root that is good all the way down leaves only such nodes in the tables, however it ends. */
  lemma GoodRootVouched(store: Store, memo: Memo, root: Descriptor)
    requires MemoSound(store, memo) && Closed(store, memo) && AllGood(store, root)
    ensures var after := Traverse(store, memo, [root]).memo; Vouched(store, after.expanded, after)
  {
    hide Traverse, Good, AllGood, Reachable, Names;
    var after := Traverse(store, memo, [root]).memo;
    ReachesItself(store, root);
    TraverseKeepsMemo(store, memo, [root]);
    ExpandsReachable(store, memo, [root], root);
    forall e | e in after.expanded ensures e.digest in after.verified && AllGood(store, Expanded(after, e)) {
      if e in memo.expanded {
        var d := Expanded(memo, e);
        assert Admitted(memo, d) && Admitted(after, d);
        AdmittedAllGood(store, {}, memo, d);
      } else {
        AllGoodBelow(store, root, Expanded(after, e));
      }
    }
  }

  /** A full table accepts nothing any more. */
  lemma FullAcceptsNothing(store: Store, memo: Memo, root: Descriptor)
    requires |memo.expanded| >= GRAPH_LIMIT
    ensures Traverse(store, memo, [root]) == Outcome(memo, Some(GraphLimit))
  {
  }

  lemma {:induction false} GraphLimitMeansFull(store: Store, memo: Memo, stack: seq<Descriptor>)
    requires |stack| <= GRAPH_LIMIT && Traverse(store, memo, stack).error == Some(GraphLimit)
    ensures |Traverse(store, memo, stack).memo.expanded| >= GRAPH_LIMIT
    decreases if |memo.expanded| < GRAPH_LIMIT then GRAPH_LIMIT - |memo.expanded| else 0, |stack|
  {
    hide VisitDescriptor;
    if |memo.expanded| < GRAPH_LIMIT {
      var rest, d := stack[..|stack| - 1], stack[|stack| - 1];
      var expansion := Expansion(d.digest, d.mediaType);
      if expansion in memo.expanded {
        GraphLimitMeansFull(store, memo, rest);
      } else {
        VisitErrors(store, memo, d);
        var v := VisitDescriptor(store, memo, d);
        GraphLimitMeansFull(store, Memo(v.verified, memo.expanded + {expansion}), rest + v.successors);
      }
    }
  }

  /** The limits belong to the loop: no single visit reports one. */
  lemma VisitErrors(store: Store, memo: Memo, d: Descriptor)
    ensures var v := VisitDescriptor(store, memo, d); v.Rejected? ==> !IsLimit(v.error)
  {
  }

  lemma BadRootIsNoLimit(store: Store, memo: Memo, root: Descriptor)
    requires MemoSound(store, memo) && !Good(store, root) && |memo.expanded| < GRAPH_LIMIT
    ensures var e := Traverse(store, memo, [root]).error; e.Some? ==> !IsLimit(e.value)
  {
    VisitErrors(store, memo, root);
    var e := Expansion(root.digest, root.mediaType);
    if store.wellFormed(root.digest) && root.size > 0 && !Conflicts(memo, root) && e !in memo.expanded {
      VisitMeans(store, memo, root);
      hide VisitDescriptor, Good, MemoSound;
    }
  }

  /**
   When a verifier may be used again, exactly, however the call ended: if and only if the table is full, so that
   nothing is accepted any more, or the root was itself bad, or everything reachable from it is good. A call that
   hit no limit says which: it returned nil if and only if everything reachable is good.
   */
  lemma ReuseSoundExactly(store: Store, memo: Memo, root: Descriptor)
    requires MemoSound(store, memo) && Closed(store, memo)
    ensures var r := Traverse(store, memo, [root]);
            && (ReuseSound(store, r.memo) <==>
                |r.memo.expanded| >= GRAPH_LIMIT || !Good(store, root) || AllGood(store, root))
            && ((r.error.Some? ==> !IsLimit(r.error.value)) ==> (r.error.None? <==> AllGood(store, root)))
  {
    var r := Traverse(store, memo, [root]);
    VerdictIsExact(store, memo, root);
    assert (r.error.Some? ==> !IsLimit(r.error.value)) ==> (r.error.None? <==> AllGood(store, root));
    hide Traverse, Good, Reachable, AllGood, MemoSound, ClosedUpTo, Admitted;
    if |r.memo.expanded| >= GRAPH_LIMIT {
      forall other ensures Traverse(store, r.memo, [other]).error == Some(GraphLimit) {
        FullAcceptsNothing(store, r.memo, other);
      }
    } else if !Good(store, root) {
      BadRootLeavesNothing(store, memo, root);
      ClosedIsReuseSound(store, memo);
    } else if AllGood(store, root) {
      GoodRootVouched(store, memo, root);
      VouchedIsReuseSound(store, r.memo);
    } else {
      if Conflicts(memo, root) {
        ConflictIsBad(store, memo, root);
      }
      StillRoom(store, memo, root);
      GoodRootAdmitted(store, memo, root);
      AdmittedRootAccepted(store, store, r.memo, root);
    }
  }

  /**
   The limits, seen from the next call, whatever the store holds by then: that call reads nothing. Past the graph limit
   every call fails the same way. Past the pending limit the root is already recorded as expanded, and it is accepted.
   */
  lemma LimitsRetried(store: Store, later: Store, memo: Memo, root: Descriptor)
    requires MemoSound(store, memo) && later.wellFormed == store.wellFormed
    requires var e := Traverse(store, memo, [root]).error; e.Some? && IsLimit(e.value)
    ensures var r := Traverse(store, memo, [root]);
            Traverse(later, r.memo, [root]) ==
            if |r.memo.expanded| >= GRAPH_LIMIT then Outcome(r.memo, Some(GraphLimit)) else Outcome(r.memo, None)
    ensures var r := Traverse(store, memo, [root]);
            r.error == Some(GraphLimit) ==> |r.memo.expanded| >= GRAPH_LIMIT
  {
    var r := Traverse(store, memo, [root]);
    hide Traverse, Good, MemoSound, Admitted;
    if r.error == Some(GraphLimit) {
      GraphLimitMeansFull(store, memo, [root]);
    }
    if |r.memo.expanded| >= GRAPH_LIMIT {
      FullAcceptsNothing(later, r.memo, root);
    } else {
      StillRoom(store, memo, root);
      if !Good(store, root) {
        BadRootIsNoLimit(store, memo, root);
      } else {
        if Conflicts(memo, root) {
          ConflictIsBad(store, memo, root);
        }
        TraverseKeepsMemo(store, memo, [root]);
        GoodRootAdmitted(store, memo, root);
        AdmittedRootAccepted(store, later, r.memo, root);
      }
    }
  }

  lemma StillRoom(store: Store, memo: Memo, root: Descriptor)
    requires |Traverse(store, memo, [root]).memo.expanded| < GRAPH_LIMIT
    ensures |memo.expanded| < GRAPH_LIMIT
  {
  }
}
