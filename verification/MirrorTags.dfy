/** The registry tag of every mirrored image. */
module MirrorTags {
  import opened ImageReference
  import opened Outcomes
  import Sorting
  import Text

  const NUL: char := '\0'

  const IDENTITY_LENGTH := 48

  /** Hexadecimal text of a SHA-256 sum. */
  type HexSum = s: string | |s| == 64 witness seq(64, _ => '0')

  datatype Image = Image(id: string, mirror: bool, digest: string, source: string, target: string,
                         discovery: string, family: string, scopes: seq<string>, consumers: seq<string>,
                         runtime: bool)

  predicate ValidDigest(d: string) {
    && |d| == 71 && d[..7] == "sha256:"
    && forall i :: 7 <= i < 71 ==> '0' <= d[i] <= '9' || 'a' <= d[i] <= 'f'
  }

  predicate HasSuffix(s: string, suffix: string) {
    |suffix| <= |s| && s[|s| - |suffix|..] == suffix
  }

  function Base(repository: string): string {
    repository[LastIndex(repository, '/') + 1..]
  }

  const FLUX_CONTROLLERS :=
    {"source-controller", "kustomize-controller", "helm-controller", "notification-controller"}

  /** nativeMirrorTargetTag: None when the native contract is broken, Some("") when the image is not native. */
  function NativeTag(image: Image): Option<string> {
    var source, target, tag := Repository(image.source), Repository(image.target), Tag(image.source);
    if image.discovery == "kubespray" then
      if image.family != "kubernetes" || image.scopes != ["kubespray"] || image.consumers != ["kubespray"]
         || !image.runtime || source == "" || !HasSuffix(target, "/kubespray/" + source) || tag == ""
      then None
      else Some(tag)
    else if image.id !in FLUX_CONTROLLERS then Some("")
    else if image.family != "flux" || image.consumers != ["flux"] || LastIndex(source, '/') < 0
            || LastIndex(target, '/') < 0 || Base(source) != image.id || Base(target) != image.id || tag == ""
    then None
    else Some(tag)
  }

  function Separator(image: Image): int {
    LastIndex(Repository(image.target), '/')
  }

  predicate Valid(image: Image) {
    && ValidDigest(image.digest) && Separator(image) > 0 && Tag(image.source) != ""
    && NativeTag(image).Some?
  }

  function Hub(image: Image): string {
    if Separator(image) > 0 then Repository(image.target)[..Separator(image)] else ""
  }

  /** Images with one hub and one upstream tag form a group. */
  function GroupKey(image: Image): string {
    Hub(image) + [NUL] + Tag(image.source)
  }

  /** The part behind the first NUL. */
  function Version(key: string): string {
    if key == "" then "" else if key[0] == NUL then key[1..] else Version(key[1..])
  }

  datatype Pair = Pair(repository: string, digest: string)

  function PairOf(image: Image): Pair {
    Pair(Repository(image.target), image.digest)
  }

  predicate PairLe(a: Pair, b: Pair) {
    if a.repository == b.repository then Text.Le(a.digest, b.digest) else Text.Le(a.repository, b.repository)
  }

  predicate Before(a: Image, b: Image) {
    PairLe(PairOf(a), PairOf(b))
  }

  function Records(pairs: seq<Pair>): string {
    if pairs == [] then ""
    else pairs[0].repository + [NUL] + (pairs[0].digest + [NUL] + Records(pairs[1..]))
  }

  const SET_HEADER := "atum.dev/mirror-target-set/v1\0"

  /** What is hashed for a group of several images. */
  function SetStream(key: string, pairs: seq<Pair>): string {
    SET_HEADER + (key + [NUL] + Records(pairs))
  }

  function MirrorTag(legal: string -> bool, version: string, kind: string, identity: string): Option<string> {
    if version == "" || |identity| < IDENTITY_LENGTH then None
    else
      var tag := version + "-" + kind + "-" + identity[..IDENTITY_LENGTH];
      if legal(tag) then Some(tag) else None
  }

  /** The tag derived for a group from its sorted repository and digest pairs. */
  function GroupTag(sha: string -> HexSum, legal: string -> bool, key: string, pairs: seq<Pair>): Option<string> {
    if |pairs| == 1 then
      if ValidDigest(pairs[0].digest)
      then MirrorTag(legal, Version(key), "mirror", pairs[0].digest[7..])
      else None
    else MirrorTag(legal, Version(key), "mirror-set", sha(SetStream(key, pairs)))
  }

  // ------------------------------------------------------------------- specification

  function InGroup(key: string): Image -> bool {
    (image: Image) => image.mirror && GroupKey(image) == key
  }

  function Members(images: seq<Image>, key: string): seq<Image> {
    Sorting.Keep(images, InGroup(key))
  }

  /** The group's pairs in canonical order. */
  function Pairs(images: seq<Image>, key: string): seq<Pair> {
    PairLeOrders();
    Sorting.Arrange(Sorting.Map(PairOf, Members(images, key)), PairLe)
  }

  function TagOf(image: Image, derived: string): string {
    match NativeTag(image) case Some(tag) => (if tag != "" then tag else derived) case None => derived
  }

  /** The hub is the target's repository without its last component. */
  lemma HubIs(image: Image)
    requires Separator(image) > 0
    ensures Hub(image) + "/" + Base(Repository(image.target)) == Repository(image.target)
    ensures '/' !in Base(Repository(image.target)) && Hub(image) != ""
  {
    var r := Repository(image.target);
    assert r == r[..Separator(image)] + [r[Separator(image)]] + r[Separator(image) + 1..];
  }

  /** A derived tag begins with the upstream tag, and ends in the first 48 digits of the digest or of the set's hash. */
  lemma DerivedTag(sha: string -> HexSum, legal: string -> bool, image: Image, pairs: seq<Pair>)
    requires CleanImage(image) && GroupTag(sha, legal, GroupKey(image), pairs).Some?
    ensures var tag := GroupTag(sha, legal, GroupKey(image), pairs).value;
            legal(tag) && tag == Tag(image.source) +
              (if |pairs| == 1 then "-mirror-" + pairs[0].digest[7..55]
               else "-mirror-set-" + sha(SetStream(GroupKey(image), pairs))[..48])
  {
    CleanParts(image);
    VersionOfKey(Hub(image), Tag(image.source));
    hide Hub, Tag, Repository, SetStream, MirrorTag, Version, CleanImage;
    if |pairs| == 1 {
      SingleTag(legal, Tag(image.source), pairs[0].digest);
    } else {
      SetTag(legal, Tag(image.source), sha(SetStream(GroupKey(image), pairs)));
    }
  }

  lemma SingleTag(legal: string -> bool, version: string, digest: string)
    requires ValidDigest(digest) && MirrorTag(legal, version, "mirror", digest[7..]).Some?
    ensures var tag := MirrorTag(legal, version, "mirror", digest[7..]).value;
            legal(tag) && tag == version + ("-mirror-" + digest[7..55])
  {
    var identity := digest[7..];
    assert identity[..48] == digest[7..55];
    assert version + "-" + "mirror" + "-" + identity[..48] == version + ("-mirror-" + identity[..48]);
  }

  lemma SetTag(legal: string -> bool, version: string, identity: HexSum)
    requires MirrorTag(legal, version, "mirror-set", identity).Some?
    ensures var tag := MirrorTag(legal, version, "mirror-set", identity).value;
            |identity| >= 48 && legal(tag) && tag == version + ("-mirror-set-" + identity[..48])
  {
    assert version + "-" + "mirror-set" + "-" + identity[..48] == version + ("-mirror-set-" + identity[..48]);
  }

  /** An engine's own image: found by Kubespray, or one of the Flux controllers. */
  predicate Native(image: Image) {
    image.discovery == "kubespray" || image.id in FLUX_CONTROLLERS
  }

  /** What is promised of such an image: it serves its engine, and its repository keeps the upstream name. */
  ghost predicate NativeContract(image: Image) {
    var source, target := Repository(image.source), Repository(image.target);
    if image.discovery == "kubespray" then
      && image.family == "kubernetes" && image.scopes == ["kubespray"] && image.consumers == ["kubespray"] && image.runtime
      && source != "" && exists hub :: target == hub + "/kubespray/" + source
    else
      && image.family == "flux" && image.consumers == ["flux"]
      && (exists x :: source == x + "/" + image.id) && (exists x :: target == x + "/" + image.id)
  }

  lemma SuffixMeans(s: string, suffix: string)
    ensures HasSuffix(s, suffix) <==> exists x :: s == x + suffix
  {
    if HasSuffix(s, suffix) {
      assert s == s[..|s| - |suffix|] + suffix;
    }
    if x :| s == x + suffix {
      assert s[|s| - |suffix|..] == suffix;
    }
  }

  lemma BaseMeans(s: string, id: string)
    requires '/' !in id
    ensures LastIndex(s, '/') >= 0 && Base(s) == id <==> exists x :: s == x + "/" + id
  {
    if LastIndex(s, '/') >= 0 && Base(s) == id {
      assert s == s[..LastIndex(s, '/')] + "/" + id;
    }
    if x :| s == x + "/" + id {
      LastIndexIs(s, '/', |x|);
    }
  }

  lemma ControllersPlain(id: string)
    requires id in FLUX_CONTROLLERS
    ensures '/' !in id
  {
  }

  /** When the contract of an engine's image holds, and then its tag is the upstream one. */
  lemma NativeTagExactly(image: Image)
    requires Tag(image.source) != ""
    ensures NativeTag(image) ==
            if !Native(image) then Some("") else if NativeContract(image) then Some(Tag(image.source)) else None
  {
    hide LastIndex, Repository, Tag, HasSuffix, Base, FLUX_CONTROLLERS;
    var source, target := Repository(image.source), Repository(image.target);
    SuffixMeans(target, "/kubespray/" + source);
    KubesprayName(target, source);
    if image.id in FLUX_CONTROLLERS {
      ControllersPlain(image.id);
      BaseMeans(source, image.id);
      BaseMeans(target, image.id);
    }
  }

  lemma KubesprayName(target: string, source: string)
    ensures (exists x :: target == x + ("/kubespray/" + source)) <==> exists hub :: target == hub + "/kubespray/" + source
  {
    if x :| target == x + ("/kubespray/" + source) {
      assert target == x + "/kubespray/" + source;
    }
    if hub :| target == hub + "/kubespray/" + source {
      assert target == hub + ("/kubespray/" + source);
    }
  }

  /** An engine's image keeps its upstream tag; every other image gets the tag derived for its group. */
  lemma NativeKeepsTag(sha: string -> HexSum, legal: string -> bool, images: seq<Image>, image: Image)
    requires Valid(image) && TagFor(sha, legal, images, image).Some?
    ensures TagFor(sha, legal, images, image) ==
            if Native(image) then Some(Tag(image.source))
            else GroupTag(sha, legal, GroupKey(image), Pairs(images, GroupKey(image)))
  {
    hide GroupTag, GroupKey, Pairs, Tag;
    NativeTagExactly(image);
    hide NativeTag, NativeContract;
  }

  /** The tag one mirror gets among all images. */
  function TagFor(sha: string -> HexSum, legal: string -> bool, images: seq<Image>, image: Image): Option<string> {
    match GroupTag(sha, legal, GroupKey(image), Pairs(images, GroupKey(image)))
    case None => None
    case Some(derived) => Some(TagOf(image, derived))
  }

  ghost predicate DistinctIds(images: seq<Image>) {
    forall i, j :: 0 <= i < j < |images| && images[i].mirror && images[j].mirror ==> images[i].id != images[j].id
  }

  ghost predicate AllValid(images: seq<Image>) {
    forall i :: 0 <= i < |images| && images[i].mirror ==> Valid(images[i])
  }

  ghost predicate Acceptable(sha: string -> HexSum, legal: string -> bool, images: seq<Image>) {
    && DistinctIds(images) && AllValid(images)
    && forall image :: image in images && image.mirror ==> TagFor(sha, legal, images, image).Some?
  }

  ghost predicate Tagged(sha: string -> HexSum, legal: string -> bool, images: seq<Image>, tags: map<string, string>) {
    && (forall image :: image in images && image.mirror ==>
          image.id in tags && TagFor(sha, legal, images, image) == Some(tags[image.id]))
    && forall id :: id in tags ==> exists image :: image in images && image.mirror && image.id == id
  }

  lemma PairLeOrders()
    ensures Sorting.Ordering(PairLe)
  {
    forall a, b ensures PairLe(a, b) || PairLe(b, a) {
      Text.LeTotal(a.repository, b.repository);
      Text.LeTotal(a.digest, b.digest);
    }
    forall a, b, c | PairLe(a, b) && PairLe(b, c) ensures PairLe(a, c) {
      PairLeTransitive(a, b, c);
    }
  }

  lemma PairLeTransitive(a: Pair, b: Pair, c: Pair)
    requires PairLe(a, b) && PairLe(b, c)
    ensures PairLe(a, c)
  {
    if a.repository == b.repository == c.repository {
      Text.LeTransitive(a.digest, b.digest, c.digest);
    } else if a.repository != b.repository && b.repository != c.repository {
      Text.LeTransitive(a.repository, b.repository, c.repository);
      Text.LeTotal(a.repository, b.repository);
    }
  }

  lemma BeforeOrders()
    ensures Sorting.Ordering(Before)
  {
    PairLeOrders();
    forall a, b ensures Before(a, b) || Before(b, a) {
      assert PairLe(PairOf(a), PairOf(b)) || PairLe(PairOf(b), PairOf(a));
    }
    forall a, b, c | Before(a, b) && Before(b, c) ensures Before(a, c) {
      PairLeTransitive(PairOf(a), PairOf(b), PairOf(c));
    }
  }

  /** However ties between images are broken, the pairs come out in canonical order. */
  lemma SortedMembersGivePairs(images: seq<Image>, key: string, sorted: seq<Image>)
    requires multiset(sorted) == multiset(Members(images, key)) && Sorting.SortedBy(sorted, Before)
    ensures Sorting.Map(PairOf, sorted) == Pairs(images, key)
  {
    PairLeOrders();
    var pairs := Sorting.Map(PairOf, sorted);
    Sorting.MapPermuted(PairOf, sorted, Members(images, key));
    forall i, j | 0 <= i < j < |pairs| ensures PairLe(pairs[i], pairs[j]) {
      assert Before(sorted[i], sorted[j]);
    }
    NoTies(pairs);
    Sorting.SortedUnique(pairs, Pairs(images, key), PairLe);
  }

  lemma NoTies(pairs: seq<Pair>)
    ensures Sorting.Strict(pairs, PairLe)
  {
    forall a, b | PairLe(a, b) && PairLe(b, a) ensures a == b {
      Text.LeTotal(a.repository, b.repository);
      Text.LeTotal(a.digest, b.digest);
    }
  }

  // ------------------------------------------------------------------- the two loops

  ghost predicate Grouped(images: seq<Image>, groups: map<string, seq<Image>>) {
    forall key :: (key in groups <==> Members(images, key) != []) &&
                  (key in groups ==> groups[key] == Members(images, key))
  }

  method GroupImages(images: seq<Image>) returns (groups: Option<map<string, seq<Image>>>)
    ensures groups.Some? <==> DistinctIds(images) && AllValid(images)
    ensures groups.Some? ==> Grouped(images, groups.value)
  {
    hide Valid, GroupKey, Members, InGroup, Grouped;
    var table: map<string, seq<Image>> := map[];
    var seen: set<string> := {};
    NothingGrouped();
    for i := 0 to |images|
      invariant DistinctIds(images[..i]) && AllValid(images[..i])
      invariant forall id :: id in seen <==> exists k :: 0 <= k < i && images[k].mirror && images[k].id == id
      invariant Grouped(images[..i], table)
    {
      var image := images[i];
      GroupedNext(images, i, table);
      if image.mirror {
        if image.id in seen || !Valid(image) {
          return None;
        }
        seen := seen + {image.id};
        var key := GroupKey(image);
        table := table[key := (if key in table then table[key] else []) + [image]];
      }
    }
    assert images[..|images|] == images;
    return Some(table);
  }

  lemma NothingGrouped()
    ensures Grouped([], map[])
  {
  }

  lemma GroupedNext(images: seq<Image>, i: nat, table: map<string, seq<Image>>)
    requires i < |images| && Grouped(images[..i], table)
    ensures var key := GroupKey(images[i]);
            Grouped(images[..i + 1],
                    if images[i].mirror
                    then table[key := (if key in table then table[key] else []) + [images[i]]] else table)
  {
    hide GroupKey, Members;
    forall key ensures Members(images[..i + 1], key) ==
                       Members(images[..i], key) + if InGroup(key)(images[i]) then [images[i]] else []
    {
      MembersSnoc(images[..i], images[i], key);
      assert images[..i + 1] == images[..i] + [images[i]];
    }
  }

  lemma MembersSnoc(front: seq<Image>, last: Image, key: string)
    ensures Members(front + [last], key) == Members(front, key) + if InGroup(key)(last) then [last] else []
  {
    hide GroupKey;
    assert (front + [last])[..|front|] == front;
  }

  /** These images have their tags; nothing else was touched. */
  ghost predicate Assigned(members: seq<Image>, derived: string, tags: map<string, string>, more: map<string, string>) {
    && (forall id :: id in more <==> id in tags || exists m :: m in members && m.id == id)
    && (forall m :: m in members ==> m.id in more && more[m.id] == TagOf(m, derived))
    && (forall id :: id in tags && (forall m :: m in members ==> m.id != id) ==> more[id] == tags[id])
  }

  lemma AssignNext(front: seq<Image>, m: Image, derived: string, tags: map<string, string>, more: map<string, string>)
    requires Assigned(front, derived, tags, more) && forall x :: x in front ==> x.id != m.id
    ensures Assigned(front + [m], derived, tags, more[m.id := TagOf(m, derived)])
  {
    hide TagOf;
    assert m in front + [m];
    assert forall x :: x in front + [m] <==> x in front || x == m;
  }

  /** Every image of one group gets its tag. */
  method AssignGroup(members: seq<Image>, derived: string, tags: map<string, string>)
    returns (more: map<string, string>)
    requires DistinctIds(members) && forall m :: m in members ==> m.mirror
    ensures Assigned(members, derived, tags, more)
  {
    hide TagOf;
    more := tags;
    for i := 0 to |members|
      invariant Assigned(members[..i], derived, tags, more)
    {
      forall x | x in members[..i] ensures x.id != members[i].id {
        assert members[i] in members && x in members;
      }
      hide Assigned;
      AssignNext(members[..i], members[i], derived, tags, more);
      assert members[..i + 1] == members[..i] + [members[i]];
      more := more[members[i].id := TagOf(members[i], derived)];
    }
    assert members[..|members|] == members;
  }

  /** The tags of the groups handled so far. */
  ghost predicate Partly(sha: string -> HexSum, legal: string -> bool, images: seq<Image>, done: set<string>,
                         tags: map<string, string>)
  {
    && (forall image :: image in images && image.mirror && GroupKey(image) in done ==>
          image.id in tags && TagFor(sha, legal, images, image) == Some(tags[image.id]))
    && forall id :: id in tags ==>
         exists image :: image in images && image.mirror && image.id == id && GroupKey(image) in done
  }

  /** One round of the second loop: sort the group, derive its tag, assign it. */
  method TagGroup(sha: string -> HexSum, legal: string -> bool, images: seq<Image>, group: seq<Image>, key: string,
                  ghost done: set<string>, tags: map<string, string>)
    returns (r: Option<map<string, string>>)
    requires DistinctIds(images) && group == Members(images, key) != []
    requires Partly(sha, legal, images, done, tags) && key !in done
    ensures r.Some? ==> Partly(sha, legal, images, done + {key}, r.value)
    ensures r.None? ==> !Acceptable(sha, legal, images)
  {
    hide GroupTag, Pairs, GroupKey, Before, TagOf, Members, Partly, DistinctIds, AllValid, Sorting.Ordering,
      Sorting.SortedBy;
    BeforeOrders();
    var members := Sorting.Arrange(group, Before);
    SortedMembersGivePairs(images, key, members);
    var derived := GroupTag(sha, legal, key, Sorting.Map(PairOf, members));
    MembersAre(images, key, members);
    if derived.None? {
      assert members[0] in members;
      assert TagFor(sha, legal, images, members[0]).None?;
      return None;
    }
    DistinctMembers(images, key, members);
    var more := AssignGroup(members, derived.value, tags);
    GroupDone(sha, legal, images, done, tags, key, members, derived.value, more);
    return Some(more);
  }

  /** MirrorTargetTags: the groups are visited in no particular order. */
  method MirrorTargetTags(sha: string -> HexSum, legal: string -> bool, images: seq<Image>)
    returns (r: Option<map<string, string>>)
    ensures r.Some? <==> Acceptable(sha, legal, images)
    ensures r.Some? ==> Tagged(sha, legal, images, r.value)
  {
    hide TagFor, Members, Partly, Grouped, Tagged, DistinctIds, AllValid;
    var grouped := GroupImages(images);
    if grouped.None? {
      return None;
    }
    var groups := grouped.value;
    var rest, tags := groups.Keys, map[];
    NothingDone(sha, legal, images);
    assert groups.Keys - rest == {};
    while rest != {}
      invariant rest <= groups.Keys
      invariant Partly(sha, legal, images, groups.Keys - rest, tags)
      decreases |rest|
    {
      var key :| key in rest;
      GroupMembers(images, groups, key);
      var next := TagGroup(sha, legal, images, groups[key], key, groups.Keys - rest, tags);
      if next.None? {
        return None;
      }
      assert groups.Keys - (rest - {key}) == groups.Keys - rest + {key};
      tags, rest := next.value, rest - {key};
    }
    assert groups.Keys - rest == groups.Keys;
    AllDone(sha, legal, images, groups, tags);
    return Some(tags);
  }

  lemma NothingDone(sha: string -> HexSum, legal: string -> bool, images: seq<Image>)
    ensures Partly(sha, legal, images, {}, map[])
  {
  }

  lemma GroupMembers(images: seq<Image>, groups: map<string, seq<Image>>, key: string)
    requires Grouped(images, groups) && key in groups
    ensures groups[key] == Members(images, key) != []
  {
  }

  lemma MembersAre(images: seq<Image>, key: string, members: seq<Image>)
    requires multiset(members) == multiset(Members(images, key))
    ensures forall image :: image in members <==> image in images && image.mirror && GroupKey(image) == key
    ensures |members| == |Members(images, key)|
  {
    forall image ensures image in members <==> image in images && image.mirror && GroupKey(image) == key {
      assert image in members <==> image in multiset(members);
      assert image in Members(images, key) <==> image in multiset(Members(images, key));
    }
    assert |multiset(members)| == |multiset(Members(images, key))|;
  }

  lemma {:induction false} DistinctKept(images: seq<Image>, key: string)
    requires DistinctIds(images)
    ensures DistinctIds(Members(images, key))
    decreases |images|
  {
    if images != [] {
      var front, last := images[..|images| - 1], images[|images| - 1];
      assert images == front + [last];
      DistinctKept(front, key);
      MembersSnoc(front, last, key);
      MembersAre(front, key, Members(front, key));
      DistinctSnoc(Members(front, key), last, images);
    }
  }

  lemma DistinctSnoc(members: seq<Image>, last: Image, images: seq<Image>)
    requires DistinctIds(images) && images != [] && last == images[|images| - 1] && DistinctIds(members)
    requires forall m :: m in members ==> m in images[..|images| - 1]
    ensures DistinctIds(members + [last])
  {
    forall i | 0 <= i < |members| && members[i].mirror && last.mirror
      ensures members[i].id != last.id {
      var front := images[..|images| - 1];
      assert members[i] in members;
      var k :| 0 <= k < |front| && front[k] == members[i];
      assert images[k] == members[i];
    }
  }

  lemma DistinctPermuted(a: seq<Image>, b: seq<Image>)
    requires multiset(a) == multiset(b) && DistinctIds(a)
    ensures DistinctIds(b)
  {
    forall i, j | 0 <= i < j < |b| && b[i].mirror && b[j].mirror ensures b[i].id != b[j].id {
      var x, y := Sorting.TwoPlaces(a, b, i, j);
      assert x < y || y < x;
    }
  }

  lemma DistinctMembers(images: seq<Image>, key: string, members: seq<Image>)
    requires DistinctIds(images) && multiset(members) == multiset(Members(images, key))
    ensures DistinctIds(members)
  {
    DistinctKept(images, key);
    DistinctPermuted(Members(images, key), members);
  }

  lemma SameIdSameImage(images: seq<Image>, a: Image, b: Image)
    requires DistinctIds(images) && a in images && b in images && a.mirror && b.mirror && a.id == b.id
    ensures a == b
  {
    var i :| 0 <= i < |images| && images[i] == a;
    var j :| 0 <= j < |images| && images[j] == b;
    assert i == j;
  }

  lemma GroupDone(sha: string -> HexSum, legal: string -> bool, images: seq<Image>, done: set<string>,
                  tags: map<string, string>, key: string, members: seq<Image>, derived: string,
                  more: map<string, string>)
    requires DistinctIds(images) && Partly(sha, legal, images, done, tags) && key !in done
    requires forall image :: image in members <==> image in images && image.mirror && GroupKey(image) == key
    requires GroupTag(sha, legal, key, Pairs(images, key)) == Some(derived)
    requires Assigned(members, derived, tags, more)
    ensures Partly(sha, legal, images, done + {key}, more)
  {
    hide GroupTag, Pairs, GroupKey, TagOf;
    forall image | image in images && image.mirror && GroupKey(image) in done + {key}
      ensures image.id in more && TagFor(sha, legal, images, image) == Some(more[image.id])
    {
      if GroupKey(image) == key {
        assert image in members;
      } else {
        forall m | m in members ensures m.id != image.id {
          if m.id == image.id {
            SameIdSameImage(images, m, image);
          }
        }
        assert more[image.id] == tags[image.id];
      }
    }
    forall id | id in more
      ensures exists image :: image in images && image.mirror && image.id == id && GroupKey(image) in done + {key}
    {
      if id in tags {
        var image :| image in images && image.mirror && image.id == id && GroupKey(image) in done;
        assert GroupKey(image) in done + {key};
      } else {
        var m :| m in members && m.id == id;
        assert GroupKey(m) in done + {key};
      }
    }
  }

  lemma AllDone(sha: string -> HexSum, legal: string -> bool, images: seq<Image>, groups: map<string, seq<Image>>,
                tags: map<string, string>)
    requires DistinctIds(images) && AllValid(images) && Grouped(images, groups)
    requires Partly(sha, legal, images, groups.Keys, tags)
    ensures Acceptable(sha, legal, images) && Tagged(sha, legal, images, tags)
  {
    hide GroupTag, Pairs, GroupKey, Valid, TagFor;
    forall image | image in images && image.mirror ensures GroupKey(image) in groups.Keys {
      assert image in Members(images, GroupKey(image));
    }
  }

  // ------------------------------------------------------------------ order of images

  lemma PairsPermuted(a: seq<Image>, b: seq<Image>, key: string)
    requires multiset(a) == multiset(b)
    ensures Pairs(a, key) == Pairs(b, key)
  {
    PairLeOrders();
    assert multiset(Members(a, key)) == multiset(Members(b, key));
    Sorting.MapPermuted(PairOf, Members(a, key), Members(b, key));
    NoTies(Pairs(a, key));
    Sorting.SortedUnique(Pairs(a, key), Pairs(b, key), PairLe);
  }

  /** Success, failure and every tag are the same for every order of the images. */
  lemma OrderIsIrrelevant(sha: string -> HexSum, legal: string -> bool, a: seq<Image>, b: seq<Image>)
    requires multiset(a) == multiset(b)
    ensures Acceptable(sha, legal, a) <==> Acceptable(sha, legal, b)
    ensures forall tags :: Tagged(sha, legal, a, tags) <==> Tagged(sha, legal, b, tags)
  {
    AcceptablePermuted(sha, legal, a, b);
    AcceptablePermuted(sha, legal, b, a);
  }

  lemma AcceptablePermuted(sha: string -> HexSum, legal: string -> bool, a: seq<Image>, b: seq<Image>)
    requires multiset(a) == multiset(b)
    ensures Acceptable(sha, legal, a) ==> Acceptable(sha, legal, b)
    ensures forall tags :: Tagged(sha, legal, a, tags) ==> Tagged(sha, legal, b, tags)
  {
    hide Valid, GroupTag, Pairs, GroupKey;
    forall image ensures image in a <==> image in b {
      assert image in a <==> image in multiset(a);
      assert image in b <==> image in multiset(b);
    }
    forall image ensures TagFor(sha, legal, a, image) == TagFor(sha, legal, b, image) {
      PairsPermuted(a, b, GroupKey(image));
    }
    if DistinctIds(a) {
      DistinctPermuted(a, b);
    }
    if AllValid(a) {
      forall i | 0 <= i < |b| && b[i].mirror ensures Valid(b[i]) {
        assert b[i] in a;
      }
    }
  }

  /** At most one assignment fits. */
  lemma TagsAreUnique(sha: string -> HexSum, legal: string -> bool, images: seq<Image>,
                      s: map<string, string>, t: map<string, string>)
    requires Tagged(sha, legal, images, s) && Tagged(sha, legal, images, t)
    ensures s == t
  {
    hide TagFor;
    forall id ensures id in s <==> id in t {
      if id in s {
        var image :| image in images && image.mirror && image.id == id;
      }
      if id in t {
        var image :| image in images && image.mirror && image.id == id;
      }
    }
    forall id | id in s ensures s[id] == t[id] {
      var image :| image in images && image.mirror && image.id == id;
      assert TagFor(sha, legal, images, image) == Some(s[image.id]);
    }
  }

  // --------------------------------------------------------------------- group identity

  predicate Clean(s: string) { NUL !in s }

  /** Text before the first NUL determines where a stream splits. */
  lemma FieldSplits(a: string, x: string, b: string, y: string)
    requires Clean(a) && Clean(b) && a + [NUL] + x == b + [NUL] + y
    ensures a == b && x == y
  {
    assert a + [NUL] + x == a + ([NUL] + x) && b + [NUL] + y == b + ([NUL] + y);
    Text.CutSplits(a, x, b, y, NUL);
  }

  predicate CleanPairs(pairs: seq<Pair>) {
    forall i :: 0 <= i < |pairs| ==> Clean(pairs[i].repository) && Clean(pairs[i].digest)
  }

  lemma {:induction false} RecordsInjective(a: seq<Pair>, b: seq<Pair>)
    requires CleanPairs(a) && CleanPairs(b) && Records(a) == Records(b)
    ensures a == b
    decreases |a|
  {
    if a == [] || b == [] {
      assert |Records(a)| == 0;
      assert a == [] && b == [];
    } else {
      FieldSplits(a[0].repository, a[0].digest + [NUL] + Records(a[1..]),
                  b[0].repository, b[0].digest + [NUL] + Records(b[1..]));
      FieldSplits(a[0].digest, Records(a[1..]), b[0].digest, Records(b[1..]));
      RecordsInjective(a[1..], b[1..]);
      assert a == [a[0]] + a[1..] && b == [b[0]] + b[1..];
    }
  }

  function Key(hub: string, version: string): string { hub + [NUL] + version }

  lemma {:induction false} VersionOfKey(hub: string, version: string)
    requires Clean(hub)
    ensures Version(Key(hub, version)) == version
    decreases |hub|
  {
    if hub != "" {
      assert Key(hub, version)[1..] == Key(hub[1..], version);
      assert Key(hub, version)[0] == hub[0] && hub[0] in hub;
      VersionOfKey(hub[1..], version);
    } else {
      assert Key(hub, version)[1..] == version;
    }
  }

  lemma StreamInjective(hubA: string, versionA: string, a: seq<Pair>, hubB: string, versionB: string, b: seq<Pair>)
    requires Clean(hubA) && Clean(hubB) && Clean(versionA) && Clean(versionB) && CleanPairs(a) && CleanPairs(b)
    requires SetStream(Key(hubA, versionA), a) == SetStream(Key(hubB, versionB), b)
    ensures hubA == hubB && versionA == versionB && a == b
  {
    hide Records;
    var n := |SET_HEADER|;
    var sa, sb := Key(hubA, versionA) + [NUL] + Records(a), Key(hubB, versionB) + [NUL] + Records(b);
    assert sa == SetStream(Key(hubA, versionA), a)[n..] && sb == SetStream(Key(hubB, versionB), b)[n..];
    assert sa == hubA + [NUL] + (versionA + [NUL] + Records(a));
    assert sb == hubB + [NUL] + (versionB + [NUL] + Records(b));
    FieldSplits(hubA, versionA + [NUL] + Records(a), hubB, versionB + [NUL] + Records(b));
    FieldSplits(versionA, Records(a), versionB, Records(b));
    RecordsInjective(a, b);
  }

  /** What a derived tag reveals: the version, and which of the two constructions made it. */
  lemma TagParts(v: string, kind: string, x: string, w: string, other: string, y: string)
    requires |x| == |y| == IDENTITY_LENGTH
    requires kind in {"mirror", "mirror-set"} && other in {"mirror", "mirror-set"}
    ensures v + "-" + kind + "-" + x == w + "-" + other + "-" + y <==> v == w && kind == other && x == y
  {
    var s, t := v + "-" + kind + "-" + x, w + "-" + other + "-" + y;
    if s == t {
      assert s[|s| - 48..] == x && t[|t| - 48..] == y;
      assert s[|s| - 50] == kind[|kind| - 1] && t[|t| - 50] == other[|other| - 1];
      assert kind == other;
      assert s[..|v|] == v && t[..|w|] == w;
    }
  }

  /** The two streams do not collide in the digits a tag keeps. */
  predicate NoCollision(sha: string -> HexSum, x: string, y: string) {
    sha(x)[..IDENTITY_LENGTH] == sha(y)[..IDENTITY_LENGTH] ==> x == y
  }

  /**
   When two groups get the same derived tag. Groups of several images: exactly when hub, version and all
   pairs agree. Single images: exactly when the version and the first 48 digits of the digest agree; the
   repository does not enter. A single image and a set never share a tag.
   */
  lemma GroupTagIdentifies(sha: string -> HexSum, legal: string -> bool,
                           hubA: string, versionA: string, a: seq<Pair>,
                           hubB: string, versionB: string, b: seq<Pair>)
    requires Clean(hubA) && Clean(hubB) && Clean(versionA) && Clean(versionB) && CleanPairs(a) && CleanPairs(b)
    requires NoCollision(sha, SetStream(Key(hubA, versionA), a), SetStream(Key(hubB, versionB), b))
    requires GroupTag(sha, legal, Key(hubA, versionA), a).Some? && GroupTag(sha, legal, Key(hubB, versionB), b).Some?
    ensures GroupTag(sha, legal, Key(hubA, versionA), a) == GroupTag(sha, legal, Key(hubB, versionB), b) <==>
            && versionA == versionB
            && (|a| == 1 <==> |b| == 1)
            && (if |a| == 1 then a[0].digest[..55] == b[0].digest[..55] else hubA == hubB && a == b)
  {
    VersionOfKey(hubA, versionA);
    VersionOfKey(hubB, versionB);
    var keyA, keyB := Key(hubA, versionA), Key(hubB, versionB);
    var kindA, kindB := if |a| == 1 then "mirror" else "mirror-set", if |b| == 1 then "mirror" else "mirror-set";
    var x := if |a| == 1 then a[0].digest[7..][..48] else sha(SetStream(keyA, a))[..48];
    var y := if |b| == 1 then b[0].digest[7..][..48] else sha(SetStream(keyB, b))[..48];
    TagParts(versionA, kindA, x, versionB, kindB, y);
    if |a| == 1 && |b| == 1 {
      DigestPrefix(a[0].digest, b[0].digest);
    } else if |a| != 1 && |b| != 1 && x == y {
      StreamInjective(hubA, versionA, a, hubB, versionB, b);
    }
  }

  lemma DigestPrefix(d: string, e: string)
    requires ValidDigest(d) && ValidDigest(e)
    ensures d[7..][..48] == e[7..][..48] <==> d[..55] == e[..55]
  {
    assert d[..55] == "sha256:" + d[7..][..48] && e[..55] == "sha256:" + e[7..][..48];
    assert d[7..][..48] == d[..55][7..] && e[7..][..48] == e[..55][7..];
  }

  predicate CleanImage(image: Image) {
    Clean(image.target) && Clean(image.source)
  }

  lemma CleanParts(image: Image)
    requires CleanImage(image)
    ensures Clean(Hub(image)) && Clean(Tag(image.source)) && Clean(Repository(image.target))
    ensures GroupKey(image) == Key(Hub(image), Tag(image.source))
  {
    assert Repository(image.target) <= image.target;
  }

  /** Grouping is by hub and version: the joined key mixes nothing up. */
  lemma GroupsByHubAndVersion(a: Image, b: Image)
    requires CleanImage(a) && CleanImage(b)
    ensures GroupKey(a) == GroupKey(b) <==> Hub(a) == Hub(b) && Tag(a.source) == Tag(b.source)
  {
    CleanParts(a);
    CleanParts(b);
    if GroupKey(a) == GroupKey(b) {
      FieldSplits(Hub(a), Tag(a.source), Hub(b), Tag(b.source));
    }
  }

  lemma PairsClean(images: seq<Image>, key: string)
    requires AllValid(images) && forall image :: image in images && image.mirror ==> CleanImage(image)
    ensures CleanPairs(Pairs(images, key))
  {
    hide GroupKey, NativeTag, Repository, Valid, Clean, Pairs;
    forall i | 0 <= i < |Pairs(images, key)|
      ensures Clean(Pairs(images, key)[i].repository) && Clean(Pairs(images, key)[i].digest)
    {
      var image := PairMember(images, key, Pairs(images, key)[i]);
      CleanParts(image);
      DigestClean(image);
    }
  }

  /** Every pair of a group belongs to a mirror of the list. */
  lemma PairMember(images: seq<Image>, key: string, p: Pair) returns (image: Image)
    requires p in Pairs(images, key)
    ensures image in images && image.mirror && PairOf(image) == p
  {
    hide GroupKey, Repository, PairLe;
    PairLeOrders();
    var members := Members(images, key);
    var pairs := Sorting.Map(PairOf, members);
    assert p in multiset(pairs);
    var k :| 0 <= k < |pairs| && pairs[k] == p;
    image := members[k];
  }

  lemma DigestClean(image: Image)
    requires Valid(image)
    ensures Clean(image.digest)
  {
    hide NativeTag, Separator, Tag;
    assert NUL !in "sha256:";
    forall i | 0 <= i < 71 ensures image.digest[i] != NUL {
      assert i < 7 ==> image.digest[i] == image.digest[..7][i];
    }
  }

  /** The same pairs, or one pair each with the same digest prefix: "sha256:" and 48 digits. */
  predicate SameIdentity(p: seq<Pair>, q: seq<Pair>) {
    p == q || (|p| == |q| == 1 && |p[0].digest| >= 55 && |q[0].digest| >= 55 && p[0].digest[..55] == q[0].digest[..55])
  }

  /**
   Two lock files and one group present in both: the derived tag stays the same exactly when the group's
   pairs stay the same, except that a group of one image is identified by its digest prefix alone.
   */
  lemma TagChangesWithContents(sha: string -> HexSum, legal: string -> bool, a: seq<Image>, b: seq<Image>, image: Image)
    requires AllValid(a) && AllValid(b) && CleanImage(image)
    requires forall x :: (x in a || x in b) && x.mirror ==> CleanImage(x)
    requires var key := GroupKey(image); NoCollision(sha, SetStream(key, Pairs(a, key)), SetStream(key, Pairs(b, key)))
    requires TagFor(sha, legal, a, image).Some? && TagFor(sha, legal, b, image).Some? && NativeTag(image) == Some("")
    ensures TagFor(sha, legal, a, image) == TagFor(sha, legal, b, image) <==>
            SameIdentity(Pairs(a, GroupKey(image)), Pairs(b, GroupKey(image)))
  {
    hide Pairs, GroupTag, NativeTag, SetStream, Valid, AllValid;
    var key := GroupKey(image);
    CleanParts(image);
    PairsClean(a, key);
    PairsClean(b, key);
    var p, q := Pairs(a, key), Pairs(b, key);
    SingleIsValid(sha, legal, key, p);
    SingleIsValid(sha, legal, key, q);
    GroupTagIdentifies(sha, legal, Hub(image), Tag(image.source), p, Hub(image), Tag(image.source), q);
  }

  lemma SingleIsValid(sha: string -> HexSum, legal: string -> bool, key: string, pairs: seq<Pair>)
    requires GroupTag(sha, legal, key, pairs).Some?
    ensures |pairs| == 1 ==> |pairs[0].digest| == 71
  {
  }

  /** A lone image keeps its tag when only its repository changes. */
  lemma RepositoryNotInSingleTag(sha: string -> HexSum, legal: string -> bool)
    requires legal("1.0-mirror-" + seq(48, _ => '0'))
    ensures var key, digest := Key("harbor/apps", "1.0"), "sha256:" + seq(64, _ => '0');
            var p, q := Pair("harbor/apps/one", digest), Pair("harbor/apps/two", digest);
            p != q && GroupTag(sha, legal, key, [p]) == GroupTag(sha, legal, key, [q]) != None
  {
    var zeros: string := seq(64, _ => '0');
    var digest := "sha256:" + zeros;
    assert digest[..7] == "sha256:" && digest[7..] == zeros;
    assert forall i :: 7 <= i < 71 ==> digest[i] == zeros[i - 7];
    VersionOfKey("harbor/apps", "1.0");
    assert zeros[..48] == seq(48, _ => '0');
    assert "1.0" + "-" + "mirror" + "-" == "1.0-mirror-";
    assert "harbor/apps/one"[12] != "harbor/apps/two"[12];
  }
}
