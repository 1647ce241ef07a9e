/**
 Content-addressed build tags. A build's tag is derived from its input, its input from the graph's hash, and the
 graph's text contains the tags: the derivation settles because the hash does not look at them.
 */
module ContentAddressing {
  import opened BuildGraphText
  import opened GraphHash
  import opened ImageReference
  import opened Outcomes
  import Sorting
  import Tags = BuildTags
  import Text

  /** What of an image its input covers: a mirror's input covers its target, a build's does not. */
  function MaterialOf(image: Image): Material {
    Material(image.id, image.version, if image.kind.Build? then "" else image.target, image.kind,
             image.source, image.digest, image.bakeTarget, image.materials)
  }

  /** The string behind an image's input; a build's begins with the hash of the graph. */
  function ImageStream(c: Context, image: Image, graph: string): Bytes {
    if image.kind.Build? then graph + (['\0'] + c.encode(MaterialOf(image))) else c.encode(MaterialOf(image))
  }

  /** ImageInputSHA256. */
  function InputSha(c: Context, image: Image, graph: string): string {
    c.sha256(ImageStream(c, image, graph))
  }

  function BuildTag(input: string): string { "build-" + input }

  // --------------------------------------------------------- what an input identifies

  /** The encoding tells the two images apart, if anything of theirs that is encoded differs. */
  predicate EncodedApart(c: Context, a: Image, b: Image) {
    c.encode(MaterialOf(a)) == c.encode(MaterialOf(b)) ==> MaterialOf(a) == MaterialOf(b)
  }

  predicate SameBuild(a: Image, b: Image) {
    && a.id == b.id && a.version == b.version && a.source == b.source && a.digest == b.digest
    && a.bakeTarget == b.bakeTarget && a.materials == b.materials
  }

  /** Two builds have the same input if and only if graph and build agree in everything but the target. */
  lemma BuildInputIdentifies(c: Context, a: Image, g: string, b: Image, h: string)
    requires a.kind.Build? && b.kind.Build? && ValidHex(g) && ValidHex(h) && EncodedApart(c, a, b)
    requires NoCollision(c, ImageStream(c, a, g), ImageStream(c, b, h))
    ensures InputSha(c, a, g) == InputSha(c, b, h) <==> g == h && SameBuild(a, b)
  {
    Aligned(g, ['\0'] + c.encode(MaterialOf(a)), h, ['\0'] + c.encode(MaterialOf(b)));
    AlignedBehind(['\0'], c.encode(MaterialOf(a)), c.encode(MaterialOf(b)));
  }

  /** Two mirrors have the same input if and only if they agree, target included; the graph is no part of it. */
  lemma MirrorInputIdentifies(c: Context, a: Image, g: string, b: Image, h: string)
    requires a.kind.Mirror? && b.kind.Mirror? && EncodedApart(c, a, b)
    requires NoCollision(c, ImageStream(c, a, g), ImageStream(c, b, h))
    ensures InputSha(c, a, g) == InputSha(c, b, h) <==> SameBuild(a, b) && a.target == b.target
  {
  }

  /** The tag a build is given tells as much: it changes exactly when the graph's hash or the build does. */
  lemma TagIdentifies(c: Context, a: Image, g: string, b: Image, h: string)
    requires HexHash(c) && GoodLibrary(c.library) && a.kind.Build? && b.kind.Build?
    requires StartsClean(a.target) && StartsClean(b.target) && Retaggable(c, a, g) && Retaggable(c, b, h)
    requires EncodedApart(c, a, b) && NoCollision(c, ImageStream(c, a, g), ImageStream(c, b, h))
    ensures Tag(Retarget(c, a, g).target) == Tag(Retarget(c, b, h).target) <==> g == h && SameBuild(a, b)
  {
    hide Tag, Retarget, InputSha, HexHash, GoodLibrary, StartsClean, Taggable, NoCollision, SameBuild, EncodedApart;
    RetargetSettles(c, a, g);
    RetargetSettles(c, b, h);
    BuildInputIdentifies(c, a, g, b, h);
    AlignedBehind("build-", InputSha(c, a, g), InputSha(c, b, h));
  }

  /**
   From one document to the next a build keeps its tag if and only if nothing it depends on changed: not the graph
   without its tags, not a file that is hashed, not the environment, not its own entry.
   */
  lemma TagsFollowInputs(c: Context, d: Context, a: seq<Image>, b: seq<Image>, i: nat, j: nat)
    requires c.sha256 == d.sha256 && c.encode == d.encode && c.library == d.library && HexHash(c) && GoodLibrary(c.library)
    requires GraphInputs(c, a).Some? && GraphInputs(d, b).Some?
    requires CleanInputs(GraphInputs(c, a).value) && CleanInputs(GraphInputs(d, b).value)
    requires InputsDoNotCollide(c, GraphInputs(c, a).value, GraphInputs(d, b).value)
    requires i < |a| && j < |b| && a[i].kind.Build? && b[j].kind.Build? && StartsClean(a[i].target) && StartsClean(b[j].target)
    requires GraphSha(c, a).Some? && GraphSha(d, b).Some?
    requires Retaggable(c, a[i], GraphSha(c, a).value) && Retaggable(d, b[j], GraphSha(d, b).value)
    requires EncodedApart(c, a[i], b[j])
    requires NoCollision(c, ImageStream(c, a[i], GraphSha(c, a).value), ImageStream(c, b[j], GraphSha(d, b).value))
    ensures Tag(RetargetAll(c, a, GraphSha(c, a).value)[i].target) == Tag(RetargetAll(d, b, GraphSha(d, b).value)[j].target)
            <==> GraphInputs(c, a) == GraphInputs(d, b) && SameBuild(a[i], b[j])
  {
    hide GraphSha, GraphInputs, HexHash, GoodLibrary, CleanInputs, InputsDoNotCollide, Tag, StartsClean, EncodedApart,
      NoCollision, SameBuild, Taggable, Retag;
    var g, h := GraphSha(c, a).value, GraphSha(d, b).value;
    GraphShaIdentifies(c, d, a, b);
    assert Retaggable(c, b[j], h) && Retarget(c, b[j], h) == Retarget(d, b[j], h);
    TagIdentifies(c, a[i], g, b[j], h);
  }

  // ------------------------------------------------------------------------ rewriting

  /** A build can be retagged if the graph's hash is well-formed and its target and its new target are accepted. */
  predicate Retaggable(c: Context, image: Image, graph: string) {
    image.kind.Build? ==> ValidHex(graph) && Taggable(c.library, image.target, BuildTag(InputSha(c, image, graph)))
  }

  function Retarget(c: Context, image: Image, graph: string): Image {
    if image.kind.Mirror? then image
    else image.(target := Retag(image.target, BuildTag(InputSha(c, image, graph))))
  }

  function RetargetAll(c: Context, images: seq<Image>, graph: string): seq<Image> {
    seq(|images|, i requires 0 <= i < |images| => Retarget(c, images[i], graph))
  }

  predicate AllRetaggable(c: Context, images: seq<Image>, graph: string) {
    forall i :: 0 <= i < |images| ==> Retaggable(c, images[i], graph)
  }

  /** One pass of the updater: every build gets the tag derived from its own input; the first that cannot stops it. */
  method ProjectContentAddressedBuildTargets(c: Context, images: seq<Image>, graph: string)
    returns (r: Option<seq<Image>>)
    ensures r.Some? <==> AllRetaggable(c, images, graph)
    ensures r.Some? ==> r.value == RetargetAll(c, images, graph)
  {
    hide InputSha, Retag, ValidHex, Taggable;
    var done: seq<Image> := [];
    for i := 0 to |images|
      invariant |done| == i && forall k :: 0 <= k < i ==> done[k] == Retarget(c, images[k], graph)
      invariant forall k :: 0 <= k < i ==> Retaggable(c, images[k], graph)
    {
      var image := images[i];
      if image.kind.Build? {
        var tag := BuildTag(InputSha(c, image, graph));
        if !ValidHex(graph) || !Taggable(c.library, image.target, tag) {
          assert !Retaggable(c, images[i], graph);
          return None;
        }
        image := image.(target := Retag(image.target, tag));
      }
      done := done + [image];
    }
    return Some(done);
  }

  lemma BuildTagSafe(input: string)
    requires ValidHex(input)
    ensures SafeTag(BuildTag(input))
  {
    var tag := BuildTag(input);
    forall i | 0 <= i < |tag| ensures tag[i] == '-' || 'a' <= tag[i] <= 'z' || '0' <= tag[i] <= '9' {
      if i >= 6 {
        assert tag[i] == input[i - 6];
      }
    }
  }

  /** No build's repository begins with a quotation mark. */
  predicate CleanTargets(images: seq<Image>) {
    forall i :: 0 <= i < |images| && images[i].kind.Build? ==> StartsClean(images[i].target)
  }

  /** A rewritten build keeps its input and carries the tag derived from it; a second rewrite is a no-op. */
  lemma RetargetSettles(c: Context, image: Image, graph: string)
    requires HexHash(c) && GoodLibrary(c.library) && image.kind.Build? && StartsClean(image.target)
    requires Retaggable(c, image, graph)
    ensures var r := Retarget(c, image, graph);
            && InputSha(c, r, graph) == InputSha(c, image, graph)
            && Tag(r.target) == BuildTag(InputSha(c, r, graph))
            && Retarget(c, r, graph) == r && Retaggable(c, r, graph)
  {
    BuildTagSafe(InputSha(c, image, graph));
    hide Retag, Taggable, StartsClean, Tag, GoodLibrary, SafeTag, HexHash;
    RetagSettles(c.library, image.target, BuildTag(InputSha(c, image, graph)));
  }

  lemma RetargetedAll(c: Context, images: seq<Image>, graph: string)
    ensures Retargeted(images, RetargetAll(c, images, graph))
  {
    hide InputSha, Retag;
  }

  // ------------------------------------------------------------- what the hash looks at

  lemma TagLineIsCanonical(line: string)
    requires IsTagLine(line)
    ensures Tags.Canonical(line) && '\n' !in line
  {
    var target :| line == TagLine(target);
    QuoteOneLine(target);
    hide Escaped, Tags.Canonical;
    assert line == Tags.PREFIX + Escaped(target) + Tags.SUFFIX;
    Framed(Escaped(target));
  }

  lemma Framed(text: string)
    ensures Tags.Canonical(Tags.PREFIX + text + Tags.SUFFIX)
  {
    var line := Tags.PREFIX + text + Tags.SUFFIX;
    assert line[..|Tags.PREFIX|] == Tags.PREFIX && line[|line| - |Tags.SUFFIX|..] == Tags.SUFFIX;
  }

  lemma OrdinaryIsNoTag(line: string)
    requires Ordinary(line)
    ensures !Tags.IsTagLine(line)
  {
    if |line| >= |Tags.PREFIX| {
      assert Tags.PREFIX[..|TAGS|] == TAGS;
      assert line[..|TAGS|] != TAGS;
      assert line[..|Tags.PREFIX|][..|TAGS|] == line[..|TAGS|];
    }
  }

  lemma TameLine(line: string)
    requires Tame(line)
    ensures '\n' !in line && (Tags.IsTagLine(line) ==> Tags.Canonical(line))
  {
    if IsTagLine(line) {
      TagLineIsCanonical(line);
    } else {
      OrdinaryIsNoTag(line);
    }
  }

  /** A tame text splits into its lines again and normalizes. */
  lemma TameText(lines: seq<string>)
    requires AllTame(lines)
    ensures Tags.Lines(GraphText(lines)) == Closed(lines) && Tags.Normalize(GraphText(lines)).Some?
  {
    hide Tame, Tags.IsTagLine;
    forall i | 0 <= i < |lines|
      ensures '\n' !in lines[i] && (Tags.IsTagLine(lines[i]) ==> Tags.Canonical(lines[i]))
    {
      TameLine(lines[i]);
    }
    assert Tags.AllCanonical(Closed(lines));
    Tags.LinesUnlines(Closed(lines));
  }

  lemma SbomLineIsOrdinary(target: string)
    ensures Ordinary("  default = " + Quote(target))
  {
    QuoteOneLine(target);
    hide Quote;
    OrdinaryFrom("  default = ", Quote(target), 2);
  }

  lemma SbomLineInjective(s: string, t: string)
    requires "  default = " + Quote(s) == "  default = " + Quote(t)
    ensures s == t
  {
    hide Quote;
    var x, y := "  default = " + Quote(s), "  default = " + Quote(t);
    assert Quote(s) == x[12..] && Quote(t) == y[12..];
    QuoteInjective(s, t);
  }

  lemma SameTexts(x: seq<string>, y: seq<string>, s: string, t: string)
    requires SameExcept(x, y, SBOM_LINE) && NamesSbom(x, s) && NamesSbom(y, t)
    ensures Tags.SameButTags(Closed(x), Closed(y)) <==> s == t
  {
    hide Quote, Tags.IsTagLine;
    forall i | 0 <= i < |x| && i != SBOM_LINE
      ensures x[i] == y[i] || (Tags.IsTagLine(x[i]) && Tags.IsTagLine(y[i]))
    {
      if x[i] != y[i] {
        TagLineIsCanonical(x[i]);
        TagLineIsCanonical(y[i]);
      }
    }
    SbomLineIsOrdinary(s);
    OrdinaryIsNoTag(x[SBOM_LINE]);
    if x[SBOM_LINE] == y[SBOM_LINE] {
      SbomLineInjective(s, t);
    }
    if Tags.SameButTags(Closed(x), Closed(y)) {
      assert Closed(x)[SBOM_LINE] == Closed(y)[SBOM_LINE];
    }
  }

  /** The graph can be rendered, and Bake target names are single lines. */
  ghost predicate Renderable(c: Context, images: seq<Image>) {
    NamesPlain(Builds(images)) && Render(c.settings, images).Some?
  }

  /**
   When changing build targets leaves the hashed text alone, exactly: if and only if it leaves the target of the
   image called sbom-scanner alone, because the header names that one outside any tag line.
   */
  lemma NormalTextStableExactly(c: Context, a: seq<Image>, b: seq<Image>)
    requires Retargeted(a, b) && Renderable(c, a) && Renderable(c, b)
    ensures Sbom(a).Some? && Sbom(b).Some?
    ensures Tags.Normalize(GraphText(Render(c.settings, a).value)) == Tags.Normalize(GraphText(Render(c.settings, b).value))
            <==> Sbom(a).value.target == Sbom(b).value.target
  {
    hide Render, Sbom, Builds, Tags.Normalize, SameExcept, NamesSbom, AllTame, GraphText, Closed, Tags.SameButTags,
      NamesPlain;
    RenderRetargeted(c.settings, a, b);
    RenderTame(c.settings, a);
    RenderTame(c.settings, b);
    var x, y := Render(c.settings, a).value, Render(c.settings, b).value;
    TameText(x);
    TameText(y);
    SameTexts(x, y, Sbom(a).value.target, Sbom(b).value.target);
    Tags.NormalizeForgetsExactlyTags(GraphText(x), GraphText(y));
  }

  // ---------------------------------------------------------------------- the fixpoint

  lemma {:induction false} SameMaterials(a: seq<Image>, b: seq<Image>)
    requires Retargeted(a, b)
    ensures BuildMaterials(a) == BuildMaterials(b)
    decreases |a|
  {
    if a != [] {
      Sorting.RelatedParts(a, b, OnlyTarget(), 0);
      SameMaterials(a[1..], b[1..]);
    }
  }

  lemma SameAt(a: seq<Image>, b: seq<Image>, k: nat)
    requires Retargeted(a, b) && k < |a|
    ensures |b| == |a| && Retargeted(a[..k], b[..k]) && b[k] == a[k].(target := b[k].target)
  {
    Sorting.RelatedParts(a, b, OnlyTarget(), k);
  }

  lemma {:induction false} SameReference(a: seq<Image>, b: seq<Image>, id: string)
    requires Retargeted(a, b)
    ensures Reference(a, id) == Reference(b, id)
    decreases |a|
  {
    if a != [] {
      SameAt(a, b, |a| - 1);
      hide Retargeted;
      SameReference(a[..|a| - 1], b[..|b| - 1], id);
    }
  }

  lemma SameOperator(a: seq<Image>, b: seq<Image>)
    requires Retargeted(a, b)
    ensures BuildsOperator(a) == BuildsOperator(b)
  {
    forall i | 0 <= i < |a| ensures a[i].id == b[i].id && a[i].kind == b[i].kind {
      SameAt(a, b, i);
    }
    hide Retargeted;
  }

  lemma SameEnvironment(c: Context, a: seq<Image>, b: seq<Image>)
    requires Retargeted(a, b)
    ensures Environment(c, a) == Environment(c, b)
  {
    hide Retargeted, Reference, BuildsOperator;
    SameReference(a, b, "buildkit");
    SameReference(a, b, "sbom-scanner");
    SameReference(a, b, "operator-builder");
    SameOperator(a, b);
  }

  lemma NamesStayPlain(a: seq<Image>, b: seq<Image>)
    requires Retargeted(a, b) && NamesPlain(Builds(a))
    ensures NamesPlain(Builds(b))
  {
    BuildsRetargeted(a, b);
    hide Builds;
    forall i | 0 <= i < |Builds(b)| ensures '\n' !in Builds(b)[i].bakeTarget {
      assert OnlyTarget()(Builds(a)[i], Builds(b)[i]);
    }
  }

  predicate SbomIsBuild(images: seq<Image>) {
    Sbom(images).Some? && Sbom(images).value.kind.Build?
  }

  // ------------------------------------------------------------- what the hash depends on

  ghost predicate HoldsGraph(files: seq<(string, string)>) {
    exists i :: 0 <= i < |files| && files[i].0 + files[i].1 == BUILD_DIRECTORY + GRAPH_FILE
  }

  lemma FileLineDigest(path: string, mode: string, d: string, e: string)
    requires |d| == |e|
    ensures |FileLine(path, mode, d)| == |FileLine(path, mode, e)|
    ensures FileLine(path, mode, d) == FileLine(path, mode, e) <==> d == e
  {
    var back := "  " + path + "\n";
    AlignedBehind(path, ['\0'] + (mode + (['\n'] + (d + back))), ['\0'] + (mode + (['\n'] + (e + back))));
    AlignedBehind(['\0'], mode + (['\n'] + (d + back)), mode + (['\n'] + (e + back)));
    AlignedBehind(mode, ['\n'] + (d + back), ['\n'] + (e + back));
    AlignedBehind(['\n'], d + back, e + back);
    Aligned(d, back, e, back);
  }

  /** The lines of the files under two texts of the graph: equally long, and equal unless the graph is among them. */
  lemma {:induction false} FileLinesCompared(c: Context, s: Bytes, t: Bytes, files: seq<(string, string)>)
    requires HexHash(c)
    ensures FileLines(c, s, files).Some? <==> FileLines(c, t, files).Some?
    ensures FileLines(c, s, files).Some? ==>
              var x, y := FileLines(c, s, files).value, FileLines(c, t, files).value;
              |x| == |y| && (x == y <==> !HoldsGraph(files) || c.sha256(s) == c.sha256(t))
    decreases |files|
  {
    hide FileLine, HexHash;
    if files != [] {
      FileLinesCompared(c, s, t, files[1..]);
      HoldsGraphCons(files);
      hide HoldsGraph;
      if FileLines(c, s, files).Some? {
        var path := files[0].0 + files[0].1;
        var u, v := Content(c, s, path).value, Content(c, t, path).value;
        SameLengths(c, u.0, v.0);
        FileLineDigest(files[0].1, u.1, c.sha256(u.0), c.sha256(v.0));
        Aligned(FileLine(files[0].1, u.1, c.sha256(u.0)), FileLines(c, s, files[1..]).value,
                FileLine(files[0].1, v.1, c.sha256(v.0)), FileLines(c, t, files[1..]).value);
      }
    }
  }

  lemma HoldsGraphCons(files: seq<(string, string)>)
    requires files != []
    ensures HoldsGraph(files) <==> files[0].0 + files[0].1 == BUILD_DIRECTORY + GRAPH_FILE || HoldsGraph(files[1..])
  {
    var rest := files[1..];
    if i :| 0 <= i < |files| && files[i].0 + files[i].1 == BUILD_DIRECTORY + GRAPH_FILE {
      assert i > 0 ==> rest[i - 1] == files[i];
    }
    if i :| 0 <= i < |rest| && rest[i].0 + rest[i].1 == BUILD_DIRECTORY + GRAPH_FILE {
      assert files[i + 1] == rest[i];
    }
  }

  lemma HoldsGraphMeans(files: Files)
    ensures HoldsGraph(Listed(files)) <==>
            BUILD_DIRECTORY + GRAPH_FILE in files.repository || GRAPH_FILE in files.local
  {
    var r, l := Canonical(files.repository), Canonical(files.local);
    hide Canonical;
    var all := Listed(files);
    assert forall i :: 0 <= i < |r| ==> all[i] == ("", r[i]) && "" + r[i] == r[i];
    forall i | 0 <= i < |l|
      ensures all[|r| + i] == (BUILD_DIRECTORY, l[i])
      ensures BUILD_DIRECTORY + l[i] == BUILD_DIRECTORY + GRAPH_FILE <==> l[i] == GRAPH_FILE
    {
      AlignedBehind(BUILD_DIRECTORY, l[i], GRAPH_FILE);
    }
    if BUILD_DIRECTORY + GRAPH_FILE in files.repository {
      var i :| 0 <= i < |r| && r[i] == BUILD_DIRECTORY + GRAPH_FILE;
      assert all[i].0 + all[i].1 == BUILD_DIRECTORY + GRAPH_FILE;
    }
    if GRAPH_FILE in files.local {
      var i :| 0 <= i < |l| && l[i] == GRAPH_FILE;
      assert all[|r| + i].0 + all[|r| + i].1 == BUILD_DIRECTORY + GRAPH_FILE;
    }
    if k :| 0 <= k < |all| && all[k].0 + all[k].1 == BUILD_DIRECTORY + GRAPH_FILE {
      if k < |r| {
        assert r[k] in r;
      } else {
        assert all[|r| + (k - |r|)] == (BUILD_DIRECTORY, l[k - |r|]) && l[k - |r|] in l;
      }
    }
  }

  /** The hashed strings of two graphs over the same images otherwise. */
  lemma HashedCompared(c: Context, a: seq<Image>, b: seq<Image>, s: Bytes, t: Bytes, m: Bytes, n: Bytes)
    requires HexHash(c) && Retargeted(a, b)
    ensures Hashed(c, a, s, Some(m)).Some? <==> Hashed(c, b, t, Some(n)).Some?
    ensures Hashed(c, a, s, Some(m)).Some? ==>
              (Hashed(c, a, s, Some(m)) == Hashed(c, b, t, Some(n)) <==>
               c.sha256(m) == c.sha256(n) && (!NamesGraph(c, a) || c.sha256(s) == c.sha256(t)))
  {
    hide HexHash, BuildMaterials, AllFiles, Environment, FileLines, Listed, HoldsGraph, Retargeted, Stream;
    SameMaterials(a, b);
    SameEnvironment(c, a, b);
    var files := AllFiles(c, BuildMaterials(a));
    if files.Some? {
      var all := Listed(files.value);
      HoldsGraphMeans(files.value);
      FileLinesCompared(c, s, t, all);
      SameLengths(c, m, n);
      if Hashed(c, a, s, Some(m)).Some? {
        var ignore := c.sha256(c.read(BUILD_DIRECTORY + IGNORE_FILE).value.0);
        StreamsCompared(ignore, c.sha256(m), c.sha256(n), FileLines(c, s, all).value, FileLines(c, t, all).value,
                        Environment(c, a).value);
      }
    }
  }

  lemma StreamsCompared(ignore: Bytes, d: Bytes, d': Bytes, l: Bytes, l': Bytes, e: Bytes)
    requires |d| == |d'| && |l| == |l'|
    ensures Stream(ignore, d, l, e) == Stream(ignore, d', l', e) <==> d == d' && l == l'
  {
    var i, g := "  .dockerignore\n", "  docker-bake.hcl\n";
    AlignedBehind(PROLOGUE, ignore + (i + (d + (g + (l + e)))), ignore + (i + (d' + (g + (l' + e)))));
    AlignedBehind(ignore, i + (d + (g + (l + e))), i + (d' + (g + (l' + e))));
    AlignedBehind(i, d + (g + (l + e)), d' + (g + (l' + e)));
    Aligned(d, g + (l + e), d', g + (l' + e));
    AlignedBehind(g, l + e, l' + e);
    Aligned(l, e, l', e);
  }

  /** The graph's text determines the build targets. */
  lemma TextDeterminesTargets(c: Context, a: seq<Image>, b: seq<Image>)
    requires Retargeted(a, b) && Renderable(c, a) && Renderable(c, b) && DistinctNames(Builds(a))
    ensures GraphText(Render(c.settings, a).value) == GraphText(Render(c.settings, b).value) <==> a == b
  {
    hide Render, Builds, GraphText, NamesPlain, AllTame, DistinctNames, Closed, Tags.Lines;
    var x, y := Render(c.settings, a).value, Render(c.settings, b).value;
    RenderTame(c.settings, a);
    RenderTame(c.settings, b);
    TameText(x);
    TameText(y);
    if GraphText(x) == GraphText(y) {
      SameLinesFromClosed(x, y);
      NamesStayDistinct(a, b);
      forall i | 0 <= i < |a| ensures a[i] == b[i] {
        SameTarget(c, a, b, i);
      }
    }
  }

  lemma SameTarget(c: Context, a: seq<Image>, b: seq<Image>, i: nat)
    requires Retargeted(a, b) && Renderable(c, a) && Renderable(c, b) && i < |a|
    requires DistinctNames(Builds(a)) && DistinctNames(Builds(b)) && Render(c.settings, a) == Render(c.settings, b)
    ensures |a| == |b| && a[i] == b[i]
  {
    hide Render, Builds, Renderable, PublishedTags, Escaped, DistinctNames;
    assert OnlyTarget()(a[i], b[i]);
    if a[i].kind.Build? {
      RenderedGraphPasses(c, a, a[i]);
      RenderedGraphPasses(c, b, b[i]);
      assert [Escaped(a[i].target)][0] == [Escaped(b[i].target)][0];
      EscapedInjective(a[i].target, b[i].target);
    }
  }

  lemma SameLinesFromClosed(x: seq<string>, y: seq<string>)
    requires Closed(x) == Closed(y)
    ensures x == y
  {
    assert |x| == |Closed(x)| == |y|;
    forall i | 0 <= i < |x| ensures x[i] == y[i] {
      assert Closed(x)[i] == Closed(y)[i];
    }
  }

  /** No collision among what the graph's hash compares: the texts, their normal forms, and the strings hashed last. */
  ghost predicate GraphsDoNotCollide(c: Context, a: seq<Image>, b: seq<Image>)
    requires Render(c.settings, a).Some? && Render(c.settings, b).Some?
  {
    var s, t := GraphText(Render(c.settings, a).value), GraphText(Render(c.settings, b).value);
    && NoCollision(c, s, t)
    && (Tags.Normalize(s).Some? && Tags.Normalize(t).Some? ==>
          NoCollision(c, Tags.Normalize(s).value, Tags.Normalize(t).value))
    && (GraphStream(c, a).Some? && GraphStream(c, b).Some? ==>
          NoCollision(c, GraphStream(c, a).value, GraphStream(c, b).value))
  }

  /**
   When changing build targets leaves the graph's hash alone, exactly: if and only if nothing changed, or the target of
   sbom-scanner did not change and no build names the graph file itself among its materials.
   */
  lemma GraphShaStableExactly(c: Context, a: seq<Image>, b: seq<Image>)
    requires HexHash(c) && Retargeted(a, b) && Renderable(c, a) && Renderable(c, b) && DistinctNames(Builds(a))
    requires GraphsDoNotCollide(c, a, b)
    ensures Sbom(a).Some? && Sbom(b).Some?
    ensures GraphSha(c, a).Some? <==> GraphSha(c, b).Some?
    ensures GraphSha(c, a).Some? ==>
              (GraphSha(c, a) == GraphSha(c, b) <==>
               a == b || (Sbom(a).value.target == Sbom(b).value.target && !NamesGraph(c, a)))
  {
    hide Render, Sbom, Builds, Tags.Normalize, GraphText, NamesPlain, Retargeted, Hashed, NamesGraph,
      HexHash, DistinctNames;
    var s, t := GraphText(Render(c.settings, a).value), GraphText(Render(c.settings, b).value);
    TextNormalizes(c, a);
    TextNormalizes(c, b);
    NormalTextStableExactly(c, a, b);
    TextDeterminesTargets(c, a, b);
    HashedCompared(c, a, b, s, t, Tags.Normalize(s).value, Tags.Normalize(t).value);
  }

  lemma TextNormalizes(c: Context, images: seq<Image>)
    requires Renderable(c, images)
    ensures Tags.Normalize(GraphText(Render(c.settings, images).value)).Some?
  {
    hide Render, GraphText, Tags.Normalize, AllTame;
    RenderTame(c.settings, images);
    TameText(Render(c.settings, images).value);
  }

  lemma StaysRenderable(c: Context, images: seq<Image>, graph: string)
    requires Renderable(c, images)
    ensures Renderable(c, RetargetAll(c, images, graph))
  {
    hide Render, Builds, NamesPlain, RetargetAll, Sbom, Retargeted, Retag, InputSha;
    var after := RetargetAll(c, images, graph);
    RenderNeedsSbom(c.settings, images);
    SbomFollows(c, images, graph);
    RetargetedAll(c, images, graph);
    RetagNotEmpty(Sbom(images).value.target, BuildTag(InputSha(c, Sbom(images).value, graph)));
    RendersAlike(c.settings, images, after);
    NamesStayPlain(images, after);
  }

  /**
   The pass leaves the graph's hash alone, collisions or not, if sbom-scanner is not a build and no build names the
   graph file.
   */
  lemma GraphShaStable(c: Context, images: seq<Image>, graph: string)
    requires HexHash(c) && Renderable(c, images) && !SbomIsBuild(images) && !NamesGraph(c, images)
    ensures GraphSha(c, RetargetAll(c, images, graph)) == GraphSha(c, images)
  {
    hide Render, Builds, Tags.Normalize, GraphText, NamesPlain, RetargetAll, Sbom, Retargeted, Hashed,
      NamesGraph, HexHash;
    var after := RetargetAll(c, images, graph);
    StaysRenderable(c, images, graph);
    RetargetedAll(c, images, graph);
    SameFinds(images, after);
    TextNormalizes(c, images);
    TextNormalizes(c, after);
    RenderNeedsSbom(c.settings, images);
    var s, t := GraphText(Render(c.settings, images).value), GraphText(Render(c.settings, after).value);
    NormalTextStableExactly(c, images, after);
    HashedCompared(c, images, after, s, t, Tags.Normalize(s).value, Tags.Normalize(t).value);
  }

  lemma RenderNeedsSbom(settings: Settings, images: seq<Image>)
    requires Render(settings, images).Some?
    ensures Sbom(images).Some? && Sbom(images).value.target != ""
  {
    hide Builds, Blocks, AllLines, Sbom, OperatorBuilder;
  }

  ghost predicate DistinctIds(images: seq<Image>) {
    forall i, j :: 0 <= i < j < |images| ==> images[i].id != images[j].id
  }

  lemma {:induction false} SbomFound(images: seq<Image>) returns (k: nat)
    requires Sbom(images).Some?
    ensures k < |images| && images[k] == Sbom(images).value && images[k].id == "sbom-scanner"
    decreases |images|
  {
    if images[0].id == "sbom-scanner" {
      k := 0;
    } else {
      var rest := SbomFound(images[1..]);
      k := rest + 1;
    }
  }

  lemma {:induction false} ReferenceFound(images: seq<Image>, id: string) returns (k: nat)
    requires Reference(images, id) != ""
    ensures k < |images| && images[k].id == id && images[k].kind.Mirror?
    decreases |images|
  {
    var n := |images| - 1;
    if images[n].id == id && images[n].kind.Mirror? && images[n].source != "" && images[n].digest != "" {
      k := n;
    } else {
      k := ReferenceFound(images[..n], id);
    }
  }

  /** The hash refuses a graph without a mirrored sbom-scanner, so with unique ids that image is never a build. */
  lemma HashedSbomIsMirror(c: Context, images: seq<Image>)
    requires DistinctIds(images) && GraphSha(c, images).Some?
    ensures !SbomIsBuild(images)
  {
    hide Render, Tags.Normalize, GraphText;
    if Sbom(images).Some? {
      var i := SbomFound(images);
      var j := ReferenceFound(images, "sbom-scanner");
      assert i == j;
    }
  }

  // ----------------------------------------------------------------------- tag checks

  /** The lock's tag check for one build. */
  predicate TagCheckPasses(c: Context, image: Image, graph: string) {
    Tag(image.target) == BuildTag(InputSha(c, image, graph))
  }

  /** The Bake graph's tag check for one build: its target publishes exactly the image's target. */
  predicate BakeCheckPasses(lines: seq<string>, image: Image) {
    PublishedTags(lines, image.bakeTarget) == [Escaped(image.target)]
  }

  ghost predicate DistinctNames(builds: seq<Image>) {
    forall i, j :: 0 <= i < j < |builds| ==> builds[i].bakeTarget != builds[j].bakeTarget
  }

  lemma {:induction false} TagsNamedNone(builds: seq<Image>, name: string)
    requires forall i :: 0 <= i < |builds| ==> builds[i].bakeTarget != name
    ensures TagsNamed(builds, name) == []
    decreases |builds|
  {
    if builds != [] {
      TagsNamedNone(builds[..|builds| - 1], name);
    }
  }

  lemma {:induction false} TagsNamedOnce(builds: seq<Image>, k: nat)
    requires k < |builds| && DistinctNames(builds)
    ensures TagsNamed(builds, builds[k].bakeTarget) == [Escaped(builds[k].target)]
    decreases |builds|
  {
    hide Escaped;
    var n := |builds| - 1;
    if k == n {
      TagsNamedNone(builds[..n], builds[n].bakeTarget);
    } else {
      TagsNamedOnce(builds[..n], k);
    }
  }

  lemma BuildsHold(images: seq<Image>, image: Image) returns (k: nat)
    requires image in images && image.kind.Build?
    ensures k < |Builds(images)| && Builds(images)[k] == image
  {
    assert image in Sorting.Keep(images, IsBuild());
    assert image in multiset(Builds(images));
    k :| 0 <= k < |Builds(images)| && Builds(images)[k] == image;
  }

  /** A graph rendered from the images passes the check of every build, and publishes for nobody else. */
  lemma RenderedGraphPasses(c: Context, images: seq<Image>, image: Image)
    requires Renderable(c, images) && DistinctNames(Builds(images)) && image in images && image.kind.Build?
    ensures BakeCheckPasses(Render(c.settings, images).value, image)
  {
    var k := BuildsHold(images, image);
    RenderHasBlocks(c.settings, images);
    BuildHasRecipe(Builds(images), OperatorBuilder(images), k);
    RecipeName(image, OperatorBuilder(images));
    hide Render, Builds, NamesPlain, PublishedTags, TagsNamed, DistinctNames;
    RenderedTags(c.settings, images, image.bakeTarget);
    TagsNamedOnce(Builds(images), k);
  }

  lemma NamesStayDistinct(a: seq<Image>, b: seq<Image>)
    requires Retargeted(a, b) && DistinctNames(Builds(a))
    ensures DistinctNames(Builds(b))
  {
    BuildsRetargeted(a, b);
    hide Builds;
    forall i | 0 <= i < |Builds(b)| ensures Builds(b)[i].bakeTarget == Builds(a)[i].bakeTarget {
      assert OnlyTarget()(Builds(a)[i], Builds(b)[i]);
    }
  }

  /** The graph has to be rendered again: the old text fails the check of every build whose target changed. */
  lemma StaleGraphFails(c: Context, images: seq<Image>, graph: string, i: nat)
    requires Renderable(c, images) && DistinctNames(Builds(images)) && i < |images| && images[i].kind.Build?
    ensures var after := RetargetAll(c, images, graph)[i];
            BakeCheckPasses(Render(c.settings, images).value, after) <==> after.target == images[i].target
  {
    hide Render, PublishedTags, Escaped, Renderable, DistinctNames, Retag, InputSha, Builds;
    RenderedGraphPasses(c, images, images[i]);
    var after := RetargetAll(c, images, graph)[i];
    assert after == images[i].(target := after.target);
    hide Retarget;
    SameLiteral(after.target, images[i].target);
  }

  lemma SameLiteral(a: string, b: string)
    ensures [Escaped(a)] == [Escaped(b)] <==> a == b
  {
    hide Escaped;
    if [Escaped(a)] == [Escaped(b)] {
      assert [Escaped(a)][0] == [Escaped(b)][0];
      EscapedInjective(a, b);
    }
  }

  /**
   The derivation is acyclic unless a build names the graph file among its materials. With unique ids and Bake target
   names, one pass over the graph's own hash changes neither that hash nor any image's input; afterwards every build
   passes the lock's tag check and, in the graph rendered again, the Bake check; and a second pass changes nothing.
   */
  lemma ContentAddressingFixpoint(c: Context, images: seq<Image>)
    requires HexHash(c) && GoodLibrary(c.library) && Renderable(c, images) && GraphSha(c, images).Some?
    requires DistinctIds(images) && DistinctNames(Builds(images)) && CleanTargets(images) && !NamesGraph(c, images)
    requires AllRetaggable(c, images, GraphSha(c, images).value)
    ensures
      var graph := GraphSha(c, images).value;
      var after := RetargetAll(c, images, graph);
      && GraphSha(c, after) == Some(graph)
      && InputsKept(c, images, after, graph)
      && LockChecksPass(c, after, graph)
      && BakeChecksPass(c, after)
      && AllRetaggable(c, after, graph) && RetargetAll(c, after, graph) == after
  {
    hide GraphSha, Renderable, Builds, HexHash, RetargetAll, AllRetaggable, InputsKept, LockChecksPass, BakeChecksPass,
      DistinctIds, DistinctNames, Retargeted, NamesGraph, GoodLibrary, CleanTargets;
    var graph := GraphSha(c, images).value;
    var after := RetargetAll(c, images, graph);
    HashedSbomIsMirror(c, images);
    GraphShaStable(c, images, graph);
    StaysRenderable(c, images, graph);
    RetargetedAll(c, images, graph);
    NamesStayDistinct(images, after);
    AllSettle(c, images, graph);
    AllBakeChecks(c, after);
  }

  /**
   With the graph file among the materials the pass defeats itself: unless strings collide, it changes the hash it
   started from as soon as it changes any target.
   */
  lemma NamedGraphUnstable(c: Context, images: seq<Image>)
    requires HexHash(c) && Renderable(c, images) && DistinctNames(Builds(images)) && GraphSha(c, images).Some?
    requires NamesGraph(c, images)
    requires var after := RetargetAll(c, images, GraphSha(c, images).value);
             after != images && Render(c.settings, after).Some? && GraphsDoNotCollide(c, images, after)
    ensures GraphSha(c, RetargetAll(c, images, GraphSha(c, images).value)) != GraphSha(c, images)
  {
    hide GraphSha, Render, Builds, HexHash, RetargetAll, DistinctNames, Retargeted, NamesGraph, GraphsDoNotCollide;
    var graph := GraphSha(c, images).value;
    StaysRenderable(c, images, graph);
    RetargetedAll(c, images, graph);
    GraphShaStableExactly(c, images, RetargetAll(c, images, graph));
  }

  ghost predicate InputsKept(c: Context, images: seq<Image>, after: seq<Image>, graph: string) {
    |after| == |images| && forall i :: 0 <= i < |images| ==> InputSha(c, after[i], graph) == InputSha(c, images[i], graph)
  }

  ghost predicate LockChecksPass(c: Context, images: seq<Image>, graph: string) {
    forall i :: 0 <= i < |images| && images[i].kind.Build? ==> TagCheckPasses(c, images[i], graph)
  }

  ghost predicate BakeChecksPass(c: Context, images: seq<Image>) {
    && Render(c.settings, images).Some?
    && forall i :: 0 <= i < |images| && images[i].kind.Build? ==>
         BakeCheckPasses(Render(c.settings, images).value, images[i])
  }

  lemma AllSettle(c: Context, images: seq<Image>, graph: string)
    requires HexHash(c) && GoodLibrary(c.library) && AllRetaggable(c, images, graph) && CleanTargets(images)
    ensures var after := RetargetAll(c, images, graph);
            && InputsKept(c, images, after, graph) && LockChecksPass(c, after, graph)
            && AllRetaggable(c, after, graph) && RetargetAll(c, after, graph) == after
  {
    hide TagCheckPasses, Retaggable, Retarget, InputSha, HexHash, GoodLibrary, StartsClean;
    var after := RetargetAll(c, images, graph);
    forall i | 0 <= i < |images|
      ensures InputSha(c, after[i], graph) == InputSha(c, images[i], graph)
      ensures after[i].kind.Build? ==> TagCheckPasses(c, after[i], graph)
      ensures Retarget(c, after[i], graph) == after[i] && Retaggable(c, after[i], graph)
    {
      OneSettles(c, images[i], graph);
    }
  }

  lemma AllBakeChecks(c: Context, images: seq<Image>)
    requires Renderable(c, images) && DistinctNames(Builds(images))
    ensures BakeChecksPass(c, images)
  {
    hide Render, Builds, BakeCheckPasses, NamesPlain;
    forall i | 0 <= i < |images| && images[i].kind.Build?
      ensures BakeCheckPasses(Render(c.settings, images).value, images[i])
    {
      RenderedGraphPasses(c, images, images[i]);
    }
  }

  lemma OneSettles(c: Context, image: Image, graph: string)
    requires HexHash(c) && GoodLibrary(c.library) && Retaggable(c, image, graph)
    requires image.kind.Build? ==> StartsClean(image.target)
    ensures var r := Retarget(c, image, graph);
            && InputSha(c, r, graph) == InputSha(c, image, graph) && (r.kind.Build? ==> TagCheckPasses(c, r, graph))
            && Retarget(c, r, graph) == r && Retaggable(c, r, graph)
  {
    if image.kind.Build? {
      RetargetSettles(c, image, graph);
    }
    hide GoodLibrary, StartsClean, Taggable, Retag, HexHash;
  }

  // ------------------------------------------------------- when the generator is a build

  /** Retagging a build changes its target unless it already carries the tag. */
  lemma RetargetChanges(c: Context, image: Image, graph: string)
    requires HexHash(c) && image.kind.Build? && Tag(image.target) != BuildTag(InputSha(c, image, graph))
    ensures Retarget(c, image, graph).target != image.target
  {
    BuildTagSafe(InputSha(c, image, graph));
    TagOfTagged(QualifiedRepository(image.target), BuildTag(InputSha(c, image, graph)));
  }

  /**
   The failing family: if the first image called sbom-scanner is a build that does not carry its tag yet, the pass
   changes the hashed text.
   */
  lemma SbomBuildUnstable(c: Context, images: seq<Image>, graph: string)
    requires HexHash(c) && Renderable(c, images) && SbomIsBuild(images)
    requires var sbom := Sbom(images).value; Tag(sbom.target) != BuildTag(InputSha(c, sbom, graph))
    ensures var after := RetargetAll(c, images, graph);
            && Render(c.settings, after).Some?
            && Tags.Normalize(GraphText(Render(c.settings, after).value)) !=
               Tags.Normalize(GraphText(Render(c.settings, images).value))
  {
    var after := RetargetAll(c, images, graph);
    RetargetedAll(c, images, graph);
    SbomFollows(c, images, graph);
    StaysRenderable(c, images, graph);
    hide Render, Builds, GraphText, Tags.Normalize, NamesPlain, RetargetAll, Sbom, Retarget, InputSha, Tag,
      HexHash, Retargeted;
    RetargetChanges(c, Sbom(images).value, graph);
    NormalTextStableExactly(c, images, after);
  }

  lemma {:induction false} SbomFollows(c: Context, images: seq<Image>, graph: string)
    requires Sbom(images).Some?
    ensures Sbom(RetargetAll(c, images, graph)) == Some(Retarget(c, Sbom(images).value, graph))
    decreases |images|
  {
    hide InputSha, Retag;
    if images[0].id != "sbom-scanner" {
      SbomFollows(c, images[1..], graph);
      assert RetargetAll(c, images, graph)[1..] == RetargetAll(c, images[1..], graph);
    }
  }

  /** An image pinned by its digest, which builds may name among their materials. */
  const HEX := seq(64, (_: int) => 'a')
  const OFFICIAL := "docker.io/garage" + "@sha256:" + HEX

  /** A document whose sbom-scanner is built, and not yet content-addressed. */
  const BUILT_SBOM := Image("sbom-scanner", "1", "r.io/sbom", Build, "", "", "garage-init-helper", false, "MIT", "p",
                            [OFFICIAL], OFFICIAL, true, "")

  lemma KeptBuild(image: Image)
    requires image.kind.Build?
    ensures Sorting.Keep([image], IsBuild()) == [image]
  {
    assert [image][..0] == [];
  }

  lemma OneBuild(image: Image)
    requires image.kind.Build?
    ensures Builds([image]) == [image]
  {
    hide Builds, Sorting.Keep;
    KeptBuild(image);
    var builds := Builds([image]);
    assert |multiset(builds)| == |builds| && |multiset([image])| == 1;
    assert builds[0] in multiset(builds);
  }

  lemma OneRenders(settings: Settings, image: Image)
    requires image.id == "sbom-scanner" && image.kind.Build? && image.target != "" && RecipeOf(image, "").Some?
    ensures Sbom([image]) == Some(image) && Render(settings, [image]).Some?
  {
    hide RecipeOf, Builds, Block, AllLines;
    OneBuild(image);
    assert OperatorBuilder([image]) == "";
    assert [image][..0] == [];
    assert Blocks([image], "").Some?;
  }

  lemma BuiltSbomRecipe()
    ensures RecipeOf(BUILT_SBOM, "").Some?
  {
    assert BUILT_SBOM.materials[0] == OFFICIAL;
    hide Text.Contains, MaterialWithPrefix, HasPrefix, HasSuffix, ImageContext, OneContext;
  }

  lemma BuiltSbomTag()
    ensures Tag(BUILT_SBOM.target) == "" && '\n' !in BUILT_SBOM.bakeTarget
  {
    assert ':' !in BUILT_SBOM.target;
    NoLastIndex(BUILT_SBOM.target, ':');
  }

  /** There the pass changes the hashed text, whatever graph hash it starts from. */
  lemma BuiltSbomUnstable(c: Context, graph: string)
    requires HexHash(c)
    ensures var after := RetargetAll(c, [BUILT_SBOM], graph);
            && Render(c.settings, [BUILT_SBOM]).Some? && Render(c.settings, after).Some?
            && Tags.Normalize(GraphText(Render(c.settings, after).value)) !=
               Tags.Normalize(GraphText(Render(c.settings, [BUILT_SBOM]).value))
  {
    hide Render, Builds, GraphText, Tags.Normalize, RetargetAll, InputSha, HexHash, Tag, Sbom, RecipeOf;
    BuiltSbomRecipe();
    BuiltSbomTag();
    OneBuild(BUILT_SBOM);
    OneRenders(c.settings, BUILT_SBOM);
    assert BuildTag(InputSha(c, BUILT_SBOM, graph)) != "";
    SbomBuildUnstable(c, [BUILT_SBOM], graph);
  }

  // ------------------------------------------------- when a build names the graph itself

  const SBOM := Image("sbom-scanner", "1", "r.io/sbom:1", Mirror, "s", "d", "", false, "", "", [], "", false, "")
  const BUILDKIT := Image("buildkit", "1", "r.io/buildkit:1", Mirror, "s", "d", "", false, "", "", [], "", false, "")
  const SELF_NAMED := Image("helper", "1", "r.io/helper", Build, "", "", "garage-init-helper", false, "MIT", "p",
                            [OFFICIAL, BUILD_DIRECTORY + GRAPH_FILE], OFFICIAL, true, "")

  /** Two mirrors the graph requires, and a build with the graph file among its materials. */
  const SELF_NAMING := [SBOM, BUILDKIT, SELF_NAMED]

  lemma SelfNamingBuilds()
    ensures Builds(SELF_NAMING) == [SELF_NAMED]
  {
    assert SELF_NAMING[..2] == [SBOM, BUILDKIT] && [SBOM, BUILDKIT][..1] == [SBOM] && [SBOM][..0] == [];
    assert Sorting.Keep([SBOM], IsBuild()) == [];
    assert Sorting.Keep([SBOM, BUILDKIT], IsBuild()) == [];
    var kept, builds := Sorting.Keep(SELF_NAMING, IsBuild()), Builds(SELF_NAMING);
    assert kept == [SELF_NAMED];
    hide Builds, Sorting.Keep;
    assert |multiset(builds)| == |builds| && |multiset(kept)| == |kept|;
    assert builds[0] in multiset(builds);
  }

  lemma SelfNamedRecipe()
    ensures RecipeOf(SELF_NAMED, "").Some? && '\n' !in SELF_NAMED.bakeTarget && Tag(SELF_NAMED.target) == ""
  {
    assert SELF_NAMED.materials[0] == OFFICIAL;
    assert ':' !in SELF_NAMED.target;
    NoLastIndex(SELF_NAMED.target, ':');
    hide Text.Contains, MaterialWithPrefix, HasPrefix, HasSuffix, ImageContext, OneContext, LastIndex;
  }

  lemma SelfNamingRenders(c: Context)
    ensures Renderable(c, SELF_NAMING) && DistinctNames(Builds(SELF_NAMING))
  {
    hide RecipeOf, Builds, Block, AllLines, OperatorBuilder, Sbom, Tag;
    SelfNamingBuilds();
    SelfNamedRecipe();
    SelfNamingFinds();
    OneBlock(SELF_NAMED, "");
  }

  lemma OneBlock(image: Image, operatorBuilder: string)
    requires RecipeOf(image, operatorBuilder).Some?
    ensures Blocks([image], operatorBuilder).Some?
  {
    hide RecipeOf, Block;
    assert [image][..0] == [];
  }

  lemma SelfNamingFinds()
    ensures OperatorBuilder(SELF_NAMING) == "" && Sbom(SELF_NAMING) == Some(SBOM) && SBOM.target != ""
  {
    hide Resolved;
    assert SELF_NAMING[1..] == [BUILDKIT, SELF_NAMED] && [BUILDKIT, SELF_NAMED][1..] == [SELF_NAMED];
    assert [SELF_NAMED][1..] == [];
    assert SBOM.id != "operator-builder" && BUILDKIT.id != "operator-builder" && SELF_NAMED.id != "operator-builder";
    hide SBOM, BUILDKIT, SELF_NAMED;
    assert OperatorBuilder([]) == "";
    assert OperatorBuilder([SELF_NAMED]) == "";
    assert OperatorBuilder([BUILDKIT, SELF_NAMED]) == "";
  }

  lemma SelfNamingFiles(c: Context)
    requires c.local(GRAPH_FILE) == Some([GRAPH_FILE])
    ensures AllFiles(c, BuildMaterials(SELF_NAMING)) ==
            Some(Files([], ["docker/Dockerfile.delivery", "docker/Dockerfile.operator", GRAPH_FILE]))
  {
    var materials := SELF_NAMED.materials;
    assert SELF_NAMING[1..] == [BUILDKIT, SELF_NAMED] && [BUILDKIT, SELF_NAMED][1..] == [SELF_NAMED];
    assert [SELF_NAMED][1..] == [];
    assert BuildMaterials([SELF_NAMED]) == [(false, materials)];
    assert BuildMaterials([BUILDKIT, SELF_NAMED]) == [(false, materials)];
    assert BuildMaterials(SELF_NAMING) == [(false, materials)];
    SelfNamedFiles(c);
    hide BuildFiles, BuildMaterials;
    assert [(false, materials)][..0] == [];
    var fixed := ["docker/Dockerfile.delivery", "docker/Dockerfile.operator"];
    assert AllFiles(c, []) == Some(Files([], fixed));
    assert Files([] + [], fixed + [GRAPH_FILE]) ==
           Files([], ["docker/Dockerfile.delivery", "docker/Dockerfile.operator", GRAPH_FILE]);
  }

  lemma PlusNothing(a: Files)
    ensures Plus(Some(Files([], [])), Some(a)) == Some(a) && Plus(Some(a), Some(Files([], []))) == Some(a)
  {
    assert [] + a.repository == a.repository && [] + a.local == a.local;
    assert a.repository + [] == a.repository && a.local + [] == a.local;
  }

  lemma SelfNamedFiles(c: Context)
    requires c.local(GRAPH_FILE) == Some([GRAPH_FILE])
    ensures BuildFiles(c, false, SELF_NAMED.materials) == Some(Files([], [GRAPH_FILE]))
  {
    var path: string := BUILD_DIRECTORY + GRAPH_FILE;
    assert SELF_NAMED.materials == [OFFICIAL, path] && [OFFICIAL, path][1..] == [path] && |[path][1..]| == 0;
    assert path[|BUILD_DIRECTORY|..] == GRAPH_FILE && path[..|BUILD_DIRECTORY|] == BUILD_DIRECTORY;
    assert MaterialFiles(c, false, path) == Some(Files([], [GRAPH_FILE]));
    assert OFFICIAL[0] == 'd' && BUILD_DIRECTORY[0] == 'p';
    assert MaterialFiles(c, false, OFFICIAL) == Some(Files([], []));
    hide MaterialFiles, Plus;
    PlusNothing(Files([], [GRAPH_FILE]));
    assert BuildFiles(c, false, []) == Some(Files([], []));
    assert BuildFiles(c, false, [path]) == Some(Files([], [GRAPH_FILE]));
  }

  lemma {:induction false} ReadableFiles(c: Context, text: Bytes, files: seq<(string, string)>)
    requires forall f :: f in files ==> Content(c, text, f.0 + f.1).Some?
    ensures FileLines(c, text, files).Some?
    decreases |files|
  {
    hide FileLine, Content;
    if files != [] {
      ReadableFiles(c, text, files[1..]);
      assert files[0] in files;
    }
  }

  lemma SelfNamingEnvironment(c: Context)
    ensures Environment(c, SELF_NAMING).Some?
  {
    assert SELF_NAMING[..2] == [SBOM, BUILDKIT] && [SBOM, BUILDKIT][..1] == [SBOM];
    assert Reference([SBOM], "sbom-scanner") == "s@d";
    assert Reference([SBOM, BUILDKIT], "sbom-scanner") == "s@d";
    assert Reference([SBOM, BUILDKIT], "buildkit") == "s@d";
    assert Reference(SELF_NAMING, "sbom-scanner") == "s@d" && Reference(SELF_NAMING, "buildkit") == "s@d";
    hide Reference;
    assert !BuildsOperator(SELF_NAMING);
  }

  lemma NoPaths()
    ensures Canonical([]) == []
  {
    assert Compact([]) == [];
  }

  lemma SelfNamingHashed(c: Context)
    requires c.local(GRAPH_FILE) == Some([GRAPH_FILE])
    requires c.read(BUILD_DIRECTORY + "docker/Dockerfile.delivery").Some?
    requires c.read(BUILD_DIRECTORY + "docker/Dockerfile.operator").Some? && c.read(BUILD_DIRECTORY + IGNORE_FILE).Some?
    ensures GraphSha(c, SELF_NAMING).Some? && NamesGraph(c, SELF_NAMING)
  {
    hide Render, GraphText, Tags.Normalize, AllFiles, BuildMaterials, Environment, Listed, FileLines, Stream,
      NamesPlain, Builds, DistinctNames, SBOM, BUILDKIT, SELF_NAMED, SELF_NAMING;
    SelfNamingRenders(c);
    TextNormalizes(c, SELF_NAMING);
    SelfNamingFiles(c);
    SelfNamingEnvironment(c);
    ThreeReadable(c, GraphText(Render(c.settings, SELF_NAMING).value));
  }

  lemma ThreeReadable(c: Context, text: Bytes)
    requires c.read(BUILD_DIRECTORY + "docker/Dockerfile.delivery").Some?
    requires c.read(BUILD_DIRECTORY + "docker/Dockerfile.operator").Some?
    ensures FileLines(c, text, Listed(Files([], ["docker/Dockerfile.delivery", "docker/Dockerfile.operator", GRAPH_FILE]))).Some?
  {
    hide Canonical, FileLines;
    var local := ["docker/Dockerfile.delivery", "docker/Dockerfile.operator", GRAPH_FILE];
    NoPaths();
    assert Content(c, text, BUILD_DIRECTORY + GRAPH_FILE).Some?;
    assert forall x :: x in local ==> Content(c, text, BUILD_DIRECTORY + x).Some?;
    hide Content, BUILD_DIRECTORY;
    var listed, paths := Listed(Files([], local)), Canonical(local);
    forall f | f in listed ensures Content(c, text, f.0 + f.1).Some? {
      var k :| 0 <= k < |listed| && listed[k] == f;
      assert f == (BUILD_DIRECTORY, paths[k]) && paths[k] in local;
    }
    ReadableFiles(c, text, listed);
  }

  /** For this document, unless strings collide, the pass changes the hash it started from. */
  lemma SelfNamingUnstable(c: Context)
    requires HexHash(c) && c.local(GRAPH_FILE) == Some([GRAPH_FILE])
    requires c.read(BUILD_DIRECTORY + "docker/Dockerfile.delivery").Some?
    requires c.read(BUILD_DIRECTORY + "docker/Dockerfile.operator").Some? && c.read(BUILD_DIRECTORY + IGNORE_FILE).Some?
    ensures GraphSha(c, SELF_NAMING).Some?
    ensures var after := RetargetAll(c, SELF_NAMING, GraphSha(c, SELF_NAMING).value);
            && Render(c.settings, SELF_NAMING).Some? && Render(c.settings, after).Some?
            && (GraphsDoNotCollide(c, SELF_NAMING, after) ==> GraphSha(c, after) != GraphSha(c, SELF_NAMING))
  {
    SelfNamingRenders(c);
    SelfNamingHashed(c);
    SelfNamedRecipe();
    var graph := GraphSha(c, SELF_NAMING).value;
    var after := RetargetAll(c, SELF_NAMING, graph);
    StaysRenderable(c, SELF_NAMING, graph);
    assert BuildTag(InputSha(c, SELF_NAMED, graph)) != "";
    RetargetChanges(c, SELF_NAMED, graph);
    assert after[2] == Retarget(c, SELF_NAMING[2], graph);
    hide Render, GraphSha, NamesGraph, Builds, RetargetAll, InputSha, HexHash, Tag, RecipeOf, Retarget,
      GraphsDoNotCollide, NamesPlain, DistinctNames;
    if GraphsDoNotCollide(c, SELF_NAMING, after) {
      NamedGraphUnstable(c, SELF_NAMING);
    }
  }
}
