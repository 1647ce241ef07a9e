/**
 The hash of the delivery graph: everything a build depends on besides its own entry in the document. It covers the
 graph's text without its tags, the Dockerfiles, the files the builds name, and the build environment.
 */
module GraphHash {
  import opened BuildGraphText
  import opened ImageReference
  import opened Outcomes
  import Decimal
  import Sorting
  import Tags = BuildTags
  import Text

  /** What an image's input hash covers. */
  datatype Material = Material(id: string, version: string, target: string, kind: Kind, source: string,
                               digest: string, bakeTarget: string, materials: seq<string>)

  /**
   The hash, the canonical encoding of a material, the registry library, and the other inputs of the graph's hash: the
   regular files below a path of the build directory (named relative to it) or of the repository, the bytes and mode of
   a file, the mode of the graph file, and the configured parallelism of builds.
   */
  datatype Context = Context(settings: Settings, sha256: Bytes -> string, encode: Material -> Bytes, library: Library,
                             local: string -> Option<seq<string>>, repository: string -> Option<seq<string>>,
                             read: string -> Option<(Bytes, string)>, graphMode: string, parallelism: nat)

  predicate ValidHex(s: string) {
    |s| == 64 && forall i :: 0 <= i < |s| ==> '0' <= s[i] <= '9' || 'a' <= s[i] <= 'f'
  }

  ghost predicate HexHash(c: Context) {
    forall x :: ValidHex(c.sha256(x))
  }

  // ---------------------------------------------------------------------- identities

  /** The text of the graph: every line is closed. */
  function GraphText(lines: seq<string>): Bytes {
    Tags.Unlines(Closed(lines))
  }

  function Closed(bodies: seq<string>): seq<Tags.Line> {
    seq(|bodies|, i requires 0 <= i < |bodies| => Tags.Line(bodies[i], true))
  }

  /** The materials of the builds, with whether each is first-party. */
  function BuildMaterials(images: seq<Image>): seq<(bool, seq<string>)> {
    if images == [] then []
    else (if images[0].kind.Build? then [(images[0].firstParty, images[0].materials)] else []) + BuildMaterials(images[1..])
  }

  /** The last mirror of that id, as a reference. */
  function Reference(images: seq<Image>, id: string): string {
    if images == [] then ""
    else
      var image := images[|images| - 1];
      if image.id == id && image.kind.Mirror? && image.source != "" && image.digest != ""
      then image.source + "@" + image.digest
      else Reference(images[..|images| - 1], id)
  }

  predicate BuildsOperator(images: seq<Image>) {
    exists i :: 0 <= i < |images| && images[i].id == "atum-operator" && images[i].kind.Build?
  }

  /** The variables of the build environment, in the order they are hashed. */
  function EnvironmentLines(c: Context, buildkit: string, sbom: string, operator: string): seq<string> {
    [CACHE + (c.settings.registry + "/buildkit"), OUTPUT, BUILDKIT_IMAGE + buildkit,
     PARALLELISM + Decimal.Render(c.parallelism), BASE + c.settings.buildBase, PLATFORM + c.settings.platform,
     SBOM_GENERATOR + sbom, OPERATOR_BUILDER + operator, EPOCH]
  }

  const CACHE := "ATUM_CACHE_REGISTRY="
  const OUTPUT := "ATUM_BOOTSTRAP_OUTPUT=" + ("type=registry," + ("oci-mediatypes=true," + "rewrite-timestamp=true"))
  const BUILDKIT_IMAGE := "ATUM_BUILDKIT_IMAGE="
  const PARALLELISM := "ATUM_BUILD_PARALLELISM="
  const BASE := "ATUM_DEBIAN_IMAGE="
  const PLATFORM := "ATUM_PLATFORM="
  const SBOM_GENERATOR := "ATUM_SBOM_GENERATOR_IMAGE="
  const OPERATOR_BUILDER := "ATUM_OPERATOR_BUILDER_IMAGE="
  const EPOCH := "SOURCE_DATE_EPOCH=0"

  /** The environment part of the hash, or None when a required mirror is missing. */
  function Environment(c: Context, images: seq<Image>): Option<Bytes> {
    var buildkit, sbom, operator :=
      Reference(images, "buildkit"), Reference(images, "sbom-scanner"), Reference(images, "operator-builder");
    if buildkit == "" || sbom == "" || (BuildsOperator(images) && operator == "") then None
    else Some(GraphText(EnvironmentLines(c, buildkit, sbom, operator)))
  }

  /** Without the mirrors that build, describe and, for the operator, compile the images there is no environment. */
  lemma MirrorsAreNeeded(c: Context, images: seq<Image>)
    ensures Environment(c, images).Some? <==>
            && Reference(images, "buildkit") != "" && Reference(images, "sbom-scanner") != ""
            && forall i :: 0 <= i < |images| && images[i].id == "atum-operator" && images[i].kind.Build? ==>
                 Reference(images, "operator-builder") != ""
  {
    hide Reference;
  }

  // ----------------------------------------------------------------- files of the graph

  const BUILD_DIRECTORY := "platform/build/"
  const GRAPH_FILE := "docker-bake.hcl"

  /** Files by their path in the repository, and files by their path in the build directory. */
  datatype Files = Files(repository: seq<string>, local: seq<string>)

  function Plus(a: Option<Files>, b: Option<Files>): Option<Files> {
    match (a, b)
    case (Some(x), Some(y)) => Some(Files(x.repository + y.repository, x.local + y.local))
    case _ => None
  }

  /** The files one material stands for: images and URLs stand for none. */
  function MaterialFiles(c: Context, firstParty: bool, material: string): Option<Files> {
    if BUILD_DIRECTORY <= material then
      match c.local(material[|BUILD_DIRECTORY|..]) case None => None case Some(paths) => Some(Files([], paths))
    else if firstParty then
      match c.repository(material) case None => None case Some(paths) => Some(Files(paths, []))
    else Some(Files([], []))
  }

  function BuildFiles(c: Context, firstParty: bool, materials: seq<string>): Option<Files> {
    if materials == [] then Some(Files([], []))
    else Plus(MaterialFiles(c, firstParty, materials[0]), BuildFiles(c, firstParty, materials[1..]))
  }

  function AllFiles(c: Context, builds: seq<(bool, seq<string>)>): Option<Files> {
    if builds == [] then Some(Files([], ["docker/Dockerfile.delivery", "docker/Dockerfile.operator"]))
    else Plus(AllFiles(c, builds[..|builds| - 1]), BuildFiles(c, builds[|builds| - 1].0, builds[|builds| - 1].1))
  }

  /** compactStrings. */
  function Compact(values: seq<string>): (r: seq<string>)
    ensures forall x :: x in r <==> x in values
  {
    if values == [] then []
    else
      var front, last := Compact(values[..|values| - 1]), values[|values| - 1];
      assert values == values[..|values| - 1] + [last];
      if last in front then front else front + [last]
  }

  function Itself(): string -> string { (s: string) => s }

  function Canonical(paths: seq<string>): (r: seq<string>)
    ensures forall x :: x in r <==> x in paths
  {
    Sorting.ByTextOrders(Itself());
    var r := Sorting.Arrange(Compact(paths), Sorting.ByText(Itself()));
    assert forall x :: x in r <==> x in multiset(r);
    assert forall x :: x in Compact(paths) <==> x in multiset(Compact(paths));
    r
  }

  /** The graph itself is read from the text just rendered, tags and all. */
  function Content(c: Context, text: Bytes, path: string): Option<(Bytes, string)> {
    if path == BUILD_DIRECTORY + GRAPH_FILE then Some((text, c.graphMode)) else c.read(path)
  }

  /** The files to hash, each as a directory and a path in it: those of the repository, then those of the build. */
  function Listed(files: Files): seq<(string, string)> {
    Within("", Canonical(files.repository)) + Within(BUILD_DIRECTORY, Canonical(files.local))
  }

  function Within(directory: string, paths: seq<string>): seq<(string, string)> {
    seq(|paths|, i requires 0 <= i < |paths| => (directory, paths[i]))
  }

  /** What the hash takes in for each file. */
  function FileLines(c: Context, text: Bytes, files: seq<(string, string)>): Option<Bytes> {
    if files == [] then Some([])
    else
      match (Content(c, text, files[0].0 + files[0].1), FileLines(c, text, files[1..]))
      case (Some(content), Some(rest)) => Some(FileLine(files[0].1, content.1, c.sha256(content.0)) + rest)
      case _ => None
  }

  function FileLine(path: string, mode: string, digest: string): Bytes {
    path + (['\0'] + (mode + (['\n'] + (digest + ("  " + path + "\n")))))
  }

  const PROLOGUE := "delivery-graph-v4" + ['\0'] + "platform" + ['\0']
  const IGNORE_FILE := ".dockerignore"

  /** The string that is hashed, put together from the hashes of the two leading files, the file lines and the rest. */
  function Stream(ignore: Bytes, graph: Bytes, lines: Bytes, environment: Bytes): Bytes {
    PROLOGUE + (ignore + ("  .dockerignore\n" + (graph + ("  docker-bake.hcl\n" + (lines + environment)))))
  }

  /** The string that is hashed, given the graph's text and its normal form. */
  function Hashed(c: Context, images: seq<Image>, text: Bytes, normal: Option<Bytes>): Option<Bytes> {
    match (c.read(BUILD_DIRECTORY + IGNORE_FILE), normal, AllFiles(c, BuildMaterials(images)), Environment(c, images))
    case (Some(ignore), Some(n), Some(files), Some(environment)) =>
      (match FileLines(c, text, Listed(files))
       case Some(lines) => Some(Stream(c.sha256(ignore.0), c.sha256(n), lines, environment))
       case _ => None)
    case _ => None
  }

  function GraphStream(c: Context, images: seq<Image>): Option<Bytes> {
    match Render(c.settings, images)
    case None => None
    case Some(lines) => Hashed(c, images, GraphText(lines), Tags.Normalize(GraphText(lines)))
  }

  /** deliveryGraphSHA256 of the graph rendered from the images. */
  function GraphSha(c: Context, images: seq<Image>): Option<string> {
    match GraphStream(c, images) case None => None case Some(stream) => Some(c.sha256(stream))
  }

  /** A build material stands for the graph file itself, which is then hashed as it is. */
  predicate NamesGraph(c: Context, images: seq<Image>) {
    var files := AllFiles(c, BuildMaterials(images));
    files.Some? && (BUILD_DIRECTORY + GRAPH_FILE in files.value.repository || GRAPH_FILE in files.value.local)
  }

  // ------------------------------------------------------- what the hash is a hash of

  /** The two strings are equal if their hashes are. */
  predicate NoCollision(c: Context, x: Bytes, y: Bytes) {
    c.sha256(x) == c.sha256(y) ==> x == y
  }

  lemma Aligned(a: Bytes, x: Bytes, b: Bytes, y: Bytes)
    requires |a| == |b|
    ensures a + x == b + y <==> a == b && x == y
  {
    assert (a + x)[..|a|] == a && (b + y)[..|b|] == b && (a + x)[|a|..] == x && (b + y)[|b|..] == y;
  }

  lemma AlignedBehind(front: Bytes, x: Bytes, y: Bytes)
    ensures front + x == front + y <==> x == y
  {
    Aligned(front, x, front, y);
  }

  lemma SameLengths(c: Context, x: Bytes, y: Bytes)
    requires HexHash(c)
    ensures |c.sha256(x)| == |c.sha256(y)|
  {
    assert ValidHex(c.sha256(x)) && ValidHex(c.sha256(y));
  }

  /** Everything the hash is meant to cover: what is hashed of two files, the others with their modes, the environment. */
  datatype Inputs = Inputs(ignore: Bytes, normal: Bytes, files: seq<(string, string, Bytes)>, variables: Variables)

  datatype Variables = Variables(registry: string, buildkit: string, parallelism: nat, buildBase: string,
                                 platform: string, sbom: string, operator: string)

  function Opened(c: Context, text: Bytes, files: seq<(string, string)>): Option<seq<(string, string, Bytes)>> {
    if files == [] then Some([])
    else
      match (Content(c, text, files[0].0 + files[0].1), Opened(c, text, files[1..]))
      case (Some(content), Some(rest)) => Some([(files[0].1, content.1, content.0)] + rest)
      case _ => None
  }

  /** Read off the document and the files, without regard to how they are hashed. */
  function GraphInputs(c: Context, images: seq<Image>): Option<Inputs> {
    match Render(c.settings, images)
    case None => None
    case Some(lines) =>
      var text := GraphText(lines);
      var buildkit, sbom, operator :=
        Reference(images, "buildkit"), Reference(images, "sbom-scanner"), Reference(images, "operator-builder");
      if buildkit == "" || sbom == "" || (BuildsOperator(images) && operator == "") then None
      else
        match (c.read(BUILD_DIRECTORY + IGNORE_FILE), Tags.Normalize(text), AllFiles(c, BuildMaterials(images)))
        case (Some(ignore), Some(normal), Some(files)) =>
          (match Opened(c, text, Listed(files))
           case Some(found) =>
             Some(Inputs(ignore.0, normal, found, Variables(c.settings.registry, buildkit, c.parallelism,
                                                             c.settings.buildBase, c.settings.platform, sbom, operator)))
           case None => None)
        case _ => None
  }

  predicate Clean(s: string) { '\0' !in s && '\n' !in s }

  /** Paths, modes and settings hold no NUL and no line break. */
  predicate CleanInputs(i: Inputs) {
    && (forall k :: 0 <= k < |i.files| ==> Clean(i.files[k].0) && Clean(i.files[k].1))
    && Clean(i.variables.registry) && Clean(i.variables.buildkit) && Clean(i.variables.buildBase)
    && Clean(i.variables.platform) && Clean(i.variables.sbom) && Clean(i.variables.operator)
  }

  function OpenedLines(c: Context, files: seq<(string, string, Bytes)>): Bytes {
    if files == [] then [] else FileLine(files[0].0, files[0].1, c.sha256(files[0].2)) + OpenedLines(c, files[1..])
  }

  lemma {:induction false} LinesOfOpened(c: Context, text: Bytes, files: seq<(string, string)>)
    ensures FileLines(c, text, files) ==
            match Opened(c, text, files) case None => None case Some(found) => Some(OpenedLines(c, found))
    decreases |files|
  {
    hide FileLine, Content;
    if files != [] {
      LinesOfOpened(c, text, files[1..]);
      var content, rest := Content(c, text, files[0].0 + files[0].1), Opened(c, text, files[1..]);
      if content.Some? && rest.Some? {
        assert ([(files[0].1, content.value.1, content.value.0)] + rest.value)[1..] == rest.value;
      }
    }
  }

  function VariableLines(v: Variables): seq<string> {
    [CACHE + (v.registry + "/buildkit"), OUTPUT, BUILDKIT_IMAGE + v.buildkit, PARALLELISM + Decimal.Render(v.parallelism),
     BASE + v.buildBase, PLATFORM + v.platform, SBOM_GENERATOR + v.sbom, OPERATOR_BUILDER + v.operator, EPOCH]
  }

  function InputStream(c: Context, i: Inputs): Bytes {
    Stream(c.sha256(i.ignore), c.sha256(i.normal), OpenedLines(c, i.files), GraphText(VariableLines(i.variables)))
  }

  /** The graph is hashed if and only if all of it can be read, and then the string covers exactly that. */
  lemma StreamOfInputs(c: Context, images: seq<Image>)
    ensures GraphStream(c, images) ==
            match GraphInputs(c, images) case None => None case Some(i) => Some(InputStream(c, i))
  {
    hide Render, GraphText, Tags.Normalize, AllFiles, BuildMaterials, Listed, FileLines, Opened, OpenedLines, Reference,
      Stream, Decimal.Render;
    if Render(c.settings, images).Some? && AllFiles(c, BuildMaterials(images)).Some? {
      LinesOfOpened(c, GraphText(Render(c.settings, images).value), Listed(AllFiles(c, BuildMaterials(images)).value));
    }
  }

  /** A line is read back off the front of any text. */
  lemma FileLineSplits(c: Context, f: (string, string, Bytes), x: Bytes, g: (string, string, Bytes), y: Bytes)
    requires HexHash(c) && Clean(f.0) && Clean(f.1) && Clean(g.0) && Clean(g.1)
    requires FileLine(f.0, f.1, c.sha256(f.2)) + x == FileLine(g.0, g.1, c.sha256(g.2)) + y
    ensures f.0 == g.0 && f.1 == g.1 && c.sha256(f.2) == c.sha256(g.2) && x == y
  {
    var d, e := c.sha256(f.2), c.sha256(g.2);
    SameLengths(c, f.2, g.2);
    hide HexHash;
    var u, v := "  " + f.0 + "\n", "  " + g.0 + "\n";
    Regroup(f.0, f.1, d, u, x);
    Regroup(g.0, g.1, e, v, y);
    Text.CutSplits(f.0, f.1 + (['\n'] + (d + (u + x))), g.0, g.1 + (['\n'] + (e + (v + y))), '\0');
    Text.CutSplits(f.1, d + (u + x), g.1, e + (v + y), '\n');
    Aligned(d, u + x, e, v + y);
    AlignedBehind(u, x, y);
  }

  lemma Regroup(path: Bytes, mode: Bytes, digest: Bytes, back: Bytes, rest: Bytes)
    ensures (path + (['\0'] + (mode + (['\n'] + (digest + back))))) + rest ==
            path + (['\0'] + (mode + (['\n'] + (digest + (back + rest)))))
  {
  }

  predicate CleanFiles(files: seq<(string, string, Bytes)>) {
    forall k :: 0 <= k < |files| ==> Clean(files[k].0) && Clean(files[k].1)
  }

  /** The lines of the files end where a text without NUL begins, and tell paths, modes and hashes. */
  lemma {:induction false} OpenedLinesSplit(c: Context, f: seq<(string, string, Bytes)>, x: Bytes,
                                            g: seq<(string, string, Bytes)>, y: Bytes)
    requires HexHash(c) && CleanFiles(f) && CleanFiles(g) && '\0' !in x && '\0' !in y
    requires OpenedLines(c, f) + x == OpenedLines(c, g) + y
    ensures SameFiles(c, f, g) && x == y
    decreases |f|
  {
    hide FileLine, HexHash, Clean;
    if f == [] || g == [] {
      NulFirst(c, f, x);
      NulFirst(c, g, y);
      assert f == [] && g == [];
      assert [] + x == x && [] + y == y;
    } else {
      var p, q := FileLine(f[0].0, f[0].1, c.sha256(f[0].2)), FileLine(g[0].0, g[0].1, c.sha256(g[0].2));
      var r, s := OpenedLines(c, f[1..]), OpenedLines(c, g[1..]);
      assert (p + r) + x == p + (r + x) && (q + s) + y == q + (s + y);
      FileLineSplits(c, f[0], r + x, g[0], s + y);
      OpenedLinesSplit(c, f[1..], x, g[1..], y);
      SameFilesCons(c, f, g);
    }
  }

  predicate SameFiles(c: Context, f: seq<(string, string, Bytes)>, g: seq<(string, string, Bytes)>) {
    |f| == |g| && forall k :: 0 <= k < |f| ==> f[k].0 == g[k].0 && f[k].1 == g[k].1 && c.sha256(f[k].2) == c.sha256(g[k].2)
  }

  lemma SameFilesCons(c: Context, f: seq<(string, string, Bytes)>, g: seq<(string, string, Bytes)>)
    requires f != [] && g != [] && SameFiles(c, f[1..], g[1..])
    requires f[0].0 == g[0].0 && f[0].1 == g[0].1 && c.sha256(f[0].2) == c.sha256(g[0].2)
    ensures SameFiles(c, f, g)
  {
    forall k | 0 < k < |f| ensures f[k].0 == g[k].0 && f[k].1 == g[k].1 && c.sha256(f[k].2) == c.sha256(g[k].2) {
      assert f[k] == f[1..][k - 1] && g[k] == g[1..][k - 1];
    }
  }

  lemma NulFirst(c: Context, f: seq<(string, string, Bytes)>, x: Bytes)
    ensures f != [] ==> '\0' in OpenedLines(c, f) + x
  {
    if f != [] {
      assert (OpenedLines(c, f) + x)[|f[0].0|] == '\0';
    }
  }

  lemma EnvironmentClean(v: Variables)
    requires Clean(v.registry) && Clean(v.buildkit) && Clean(v.buildBase) && Clean(v.platform) && Clean(v.sbom)
             && Clean(v.operator)
    ensures forall i :: 0 <= i < |VariableLines(v)| ==> Clean(VariableLines(v)[i])
  {
    NamesClean();
    OutputClean();
    NumberClean(v.parallelism);
    hide Decimal.Render, Clean, CACHE, OUTPUT, BUILDKIT_IMAGE, PARALLELISM, BASE, PLATFORM, SBOM_GENERATOR,
      OPERATOR_BUILDER, EPOCH;
    PlusClean(v.registry, "/buildkit");
    PlusClean(CACHE, v.registry + "/buildkit");
    PlusClean(BUILDKIT_IMAGE, v.buildkit);
    PlusClean(PARALLELISM, Decimal.Render(v.parallelism));
    PlusClean(BASE, v.buildBase);
    PlusClean(PLATFORM, v.platform);
    PlusClean(SBOM_GENERATOR, v.sbom);
    PlusClean(OPERATOR_BUILDER, v.operator);
  }

  lemma PlusClean(a: string, b: string)
    requires Clean(a) && Clean(b)
    ensures Clean(a + b)
  {
  }

  lemma NumberClean(n: nat)
    ensures Clean(Decimal.Render(n))
  {
    hide Decimal.Render;
  }

  lemma NamesClean()
    ensures Clean(CACHE) && Clean("/buildkit") && Clean(BUILDKIT_IMAGE) && Clean(PARALLELISM) && Clean(BASE)
    ensures Clean(PLATFORM) && Clean(SBOM_GENERATOR) && Clean(OPERATOR_BUILDER) && Clean(EPOCH)
  {
    hide Clean, CACHE, BUILDKIT_IMAGE, PARALLELISM, BASE, PLATFORM, SBOM_GENERATOR, OPERATOR_BUILDER, EPOCH;
    RegistryClean();
    PolicyClean();
    GeneratorClean();
    OperatorClean();
  }

  lemma RegistryClean()
    ensures Clean(CACHE) && Clean("/buildkit") && Clean(BUILDKIT_IMAGE)
  {
  }

  lemma PolicyClean()
    ensures Clean(PARALLELISM) && Clean(BASE) && Clean(PLATFORM)
  {
  }

  lemma GeneratorClean()
    ensures Clean(SBOM_GENERATOR) && Clean(EPOCH)
  {
  }

  lemma OperatorClean()
    ensures Clean(OPERATOR_BUILDER)
  {
  }

  lemma OutputStart()
    ensures Clean("ATUM_BOOTSTRAP_OUTPUT=") && Clean("type=registry,")
  {
  }

  lemma OutputEnd()
    ensures Clean("oci-mediatypes=true,") && Clean("rewrite-timestamp=true")
  {
  }

  lemma OutputClean()
    ensures Clean(OUTPUT)
  {
    OutputStart();
    OutputEnd();
    hide Clean;
    PlusClean("oci-mediatypes=true,", "rewrite-timestamp=true");
    PlusClean("type=registry,", "oci-mediatypes=true," + "rewrite-timestamp=true");
    PlusClean("ATUM_BOOTSTRAP_OUTPUT=", "type=registry," + ("oci-mediatypes=true," + "rewrite-timestamp=true"));
  }

  lemma {:induction false} TextClean(lines: seq<string>)
    requires forall i :: 0 <= i < |lines| ==> Clean(lines[i])
    ensures '\0' !in GraphText(lines) && Tags.Lines(GraphText(lines)) == Closed(lines)
  {
    Tags.LinesUnlines(Closed(lines));
    UnlinesClean(Closed(lines));
  }

  lemma {:induction false} UnlinesClean(lines: seq<Tags.Line>)
    requires forall i :: 0 <= i < |lines| ==> Clean(lines[i].body)
    ensures '\0' !in Tags.Unlines(lines)
    decreases |lines|
  {
    if lines != [] {
      UnlinesClean(lines[1..]);
    }
  }

  lemma VariablesTold(v: Variables, w: Variables)
    requires VariableLines(v) == VariableLines(w)
    ensures v == w
  {
    hide Decimal.Render;
    var x, y := VariableLines(v), VariableLines(w);
    assert forall i :: 0 <= i < 9 ==> x[i] == y[i];
    Aligned(CACHE, v.registry + "/buildkit", CACHE, w.registry + "/buildkit");
    assert |v.registry| == |w.registry|;
    Aligned(v.registry, "/buildkit", w.registry, "/buildkit");
    AlignedBehind(BUILDKIT_IMAGE, v.buildkit, w.buildkit);
    AlignedBehind(PARALLELISM, Decimal.Render(v.parallelism), Decimal.Render(w.parallelism));
    AlignedBehind(BASE, v.buildBase, w.buildBase);
    AlignedBehind(PLATFORM, v.platform, w.platform);
    AlignedBehind(SBOM_GENERATOR, v.sbom, w.sbom);
    AlignedBehind(OPERATOR_BUILDER, v.operator, w.operator);
  }

  lemma EnvironmentTells(v: Variables, w: Variables)
    requires GraphText(VariableLines(v)) == GraphText(VariableLines(w))
    requires forall i :: 0 <= i < |VariableLines(v)| ==> Clean(VariableLines(v)[i])
    requires forall i :: 0 <= i < |VariableLines(w)| ==> Clean(VariableLines(w)[i])
    ensures v == w
  {
    hide VariableLines, GraphText, Tags.Lines;
    var x, y := VariableLines(v), VariableLines(w);
    TextClean(x);
    TextClean(y);
    assert |x| == |Closed(x)| == |y|;
    forall i | 0 <= i < |x| ensures x[i] == y[i] {
      assert Closed(x)[i] == Closed(y)[i];
    }
    VariablesTold(v, w);
  }

  /** No two of the strings that are compared through their hashes collide. */
  ghost predicate InputsDoNotCollide(c: Context, i: Inputs, j: Inputs) {
    && NoCollision(c, i.ignore, j.ignore) && NoCollision(c, i.normal, j.normal)
    && (forall k :: 0 <= k < |i.files| && k < |j.files| ==> NoCollision(c, i.files[k].2, j.files[k].2))
    && NoCollision(c, InputStream(c, i), InputStream(c, j))
  }

  lemma StreamTells(c: Context, i: Inputs, j: Inputs)
    requires HexHash(c) && CleanInputs(i) && CleanInputs(j) && InputStream(c, i) == InputStream(c, j)
    ensures c.sha256(i.ignore) == c.sha256(j.ignore) && c.sha256(i.normal) == c.sha256(j.normal)
    ensures SameFiles(c, i.files, j.files) && i.variables == j.variables
  {
    SameLengths(c, i.ignore, j.ignore);
    SameLengths(c, i.normal, j.normal);
    EnvironmentClean(i.variables);
    EnvironmentClean(j.variables);
    TextClean(VariableLines(i.variables));
    TextClean(VariableLines(j.variables));
    hide HexHash, OpenedLines, GraphText, VariableLines, Clean;
    var l, m := OpenedLines(c, i.files), OpenedLines(c, j.files);
    var e, f := GraphText(VariableLines(i.variables)), GraphText(VariableLines(j.variables));
    StreamSplits(c.sha256(i.ignore), c.sha256(i.normal), l, e, c.sha256(j.ignore), c.sha256(j.normal), m, f);
    OpenedLinesSplit(c, i.files, e, j.files, f);
    EnvironmentTells(i.variables, j.variables);
  }

  lemma StreamSplits(i: Bytes, g: Bytes, l: Bytes, e: Bytes, j: Bytes, h: Bytes, m: Bytes, f: Bytes)
    requires |i| == |j| && |g| == |h| && Stream(i, g, l, e) == Stream(j, h, m, f)
    ensures i == j && g == h && l + e == m + f
  {
    var a, b := "  .dockerignore\n", "  docker-bake.hcl\n";
    AlignedBehind(PROLOGUE, i + (a + (g + (b + (l + e)))), j + (a + (h + (b + (m + f)))));
    Aligned(i, a + (g + (b + (l + e))), j, a + (h + (b + (m + f))));
    AlignedBehind(a, g + (b + (l + e)), h + (b + (m + f)));
    Aligned(g, b + (l + e), h, b + (m + f));
    AlignedBehind(b, l + e, m + f);
  }

  /**
   The hash of the graph identifies everything a build depends on. Unless strings collide, two documents with their
   files have the same hash if and only if the ignore file, the graph without its tags, every file in the list with its
   path and mode, and the variables of the environment are the same.
   */
  lemma GraphShaIdentifies(c: Context, d: Context, a: seq<Image>, b: seq<Image>)
    requires c.sha256 == d.sha256 && HexHash(c) && GraphInputs(c, a).Some? && GraphInputs(d, b).Some?
    requires CleanInputs(GraphInputs(c, a).value) && CleanInputs(GraphInputs(d, b).value)
    requires InputsDoNotCollide(c, GraphInputs(c, a).value, GraphInputs(d, b).value)
    ensures GraphSha(c, a).Some? && GraphSha(d, b).Some?
    ensures GraphSha(c, a) == GraphSha(d, b) <==> GraphInputs(c, a) == GraphInputs(d, b)
  {
    hide GraphInputs, GraphStream, InputStream, HexHash, CleanInputs, InputsDoNotCollide;
    var i, j := GraphInputs(c, a).value, GraphInputs(d, b).value;
    StreamOfInputs(c, a);
    StreamOfInputs(d, b);
    SameStream(c, d, j);
    InputsTold(c, i, j);
  }

  lemma InputsTold(c: Context, i: Inputs, j: Inputs)
    requires HexHash(c) && CleanInputs(i) && CleanInputs(j) && InputsDoNotCollide(c, i, j)
    ensures c.sha256(InputStream(c, i)) == c.sha256(InputStream(c, j)) <==> i == j
  {
    hide InputStream, HexHash, CleanInputs;
    if c.sha256(InputStream(c, i)) == c.sha256(InputStream(c, j)) {
      StreamTells(c, i, j);
      assert i.files == j.files;
    }
  }

  lemma {:induction false} SameLines(c: Context, d: Context, files: seq<(string, string, Bytes)>)
    requires c.sha256 == d.sha256
    ensures OpenedLines(c, files) == OpenedLines(d, files)
    decreases |files|
  {
    if files != [] {
      SameLines(c, d, files[1..]);
    }
  }

  lemma SameStream(c: Context, d: Context, i: Inputs)
    requires c.sha256 == d.sha256
    ensures InputStream(c, i) == InputStream(d, i)
  {
    SameLines(c, d, i.files);
  }

  // ------------------------------------------------------------- which files are hashed

  /** The file is one of the two Dockerfiles, or lies below a path of the build directory that a build names. */
  ghost predicate NamedLocally(c: Context, images: seq<Image>, path: string) {
    || path == "docker/Dockerfile.delivery" || path == "docker/Dockerfile.operator"
    || exists image, below :: image in images && image.kind.Build? && BUILD_DIRECTORY + below in image.materials
                              && c.local(below).Some? && path in c.local(below).value
  }

  /** The file lies below another path of the repository that a first-party build names. */
  ghost predicate NamedInRepository(c: Context, images: seq<Image>, path: string) {
    exists image, material :: image in images && image.kind.Build? && image.firstParty && material in image.materials
                              && !(BUILD_DIRECTORY <= material)
                              && c.repository(material).Some? && path in c.repository(material).value
  }

  /** All the files one material stands for, and no others. */
  ghost predicate MaterialHolds(c: Context, firstParty: bool, material: string, path: string, repository: bool) {
    if BUILD_DIRECTORY <= material then
      !repository && var found := c.local(material[|BUILD_DIRECTORY|..]); found.Some? && path in found.value
    else repository && firstParty && c.repository(material).Some? && path in c.repository(material).value
  }

  ghost predicate In(files: Files, path: string, repository: bool) {
    if repository then path in files.repository else path in files.local
  }

  lemma {:induction false} BuildFilesExactly(c: Context, firstParty: bool, materials: seq<string>, path: string,
                                             repository: bool)
    requires BuildFiles(c, firstParty, materials).Some?
    ensures In(BuildFiles(c, firstParty, materials).value, path, repository) <==>
            exists m :: m in materials && MaterialHolds(c, firstParty, m, path, repository)
    decreases |materials|
  {
    if materials != [] {
      BuildFilesExactly(c, firstParty, materials[1..], path, repository);
      assert materials == [materials[0]] + materials[1..];
      assert In(MaterialFiles(c, firstParty, materials[0]).value, path, repository) <==>
             MaterialHolds(c, firstParty, materials[0], path, repository);
      hide MaterialHolds, MaterialFiles;
    }
  }

  ghost predicate SomeBuildHolds(c: Context, builds: seq<(bool, seq<string>)>, path: string, repository: bool) {
    exists b, m :: b in builds && m in b.1 && MaterialHolds(c, b.0, m, path, repository)
  }

  lemma {:induction false} AllFilesExactly(c: Context, builds: seq<(bool, seq<string>)>, path: string, repository: bool)
    requires AllFiles(c, builds).Some?
    ensures In(AllFiles(c, builds).value, path, repository) <==>
            || (!repository && (path == "docker/Dockerfile.delivery" || path == "docker/Dockerfile.operator"))
            || SomeBuildHolds(c, builds, path, repository)
    decreases |builds|
  {
    hide MaterialHolds, BuildFiles;
    if builds != [] {
      var n := |builds| - 1;
      AllFilesExactly(c, builds[..n], path, repository);
      BuildFilesExactly(c, builds[n].0, builds[n].1, path, repository);
      assert builds == builds[..n] + [builds[n]];
    }
  }

  lemma {:induction false} BuildMaterialsExactly(images: seq<Image>, b: (bool, seq<string>))
    ensures b in BuildMaterials(images) <==>
            exists image :: image in images && image.kind.Build? && b == (image.firstParty, image.materials)
    decreases |images|
  {
    if images != [] {
      BuildMaterialsExactly(images[1..], b);
      assert images == [images[0]] + images[1..];
    }
  }

  lemma BuildsHoldExactly(c: Context, images: seq<Image>, path: string, repository: bool)
    ensures SomeBuildHolds(c, BuildMaterials(images), path, repository) <==>
            exists image, m :: image in images && image.kind.Build? && m in image.materials
                               && MaterialHolds(c, image.firstParty, m, path, repository)
  {
    hide MaterialHolds, BuildMaterials;
    if b, m :| b in BuildMaterials(images) && m in b.1 && MaterialHolds(c, b.0, m, path, repository) {
      BuildMaterialsExactly(images, b);
    }
    if image, m :| image in images && image.kind.Build? && m in image.materials
                   && MaterialHolds(c, image.firstParty, m, path, repository) {
      BuildMaterialsExactly(images, (image.firstParty, image.materials));
    }
  }

  /** The files that are hashed are exactly those the builds name, besides the two Dockerfiles. */
  lemma FilesExactly(c: Context, images: seq<Image>, path: string)
    requires AllFiles(c, BuildMaterials(images)).Some?
    ensures var files := AllFiles(c, BuildMaterials(images)).value;
            && (path in files.local <==> NamedLocally(c, images, path))
            && (path in files.repository <==> NamedInRepository(c, images, path))
  {
    hide AllFiles, BuildMaterials;
    AllFilesExactly(c, BuildMaterials(images), path, false);
    AllFilesExactly(c, BuildMaterials(images), path, true);
    BuildsHoldExactly(c, images, path, false);
    BuildsHoldExactly(c, images, path, true);
    hide SomeBuildHolds;
    LocalHolds(c, images, path);
  }

  lemma LocalHolds(c: Context, images: seq<Image>, path: string)
    ensures (exists image, m :: image in images && image.kind.Build? && m in image.materials
                                && MaterialHolds(c, image.firstParty, m, path, false)) <==>
            (exists image, below :: image in images && image.kind.Build? && BUILD_DIRECTORY + below in image.materials
                                    && c.local(below).Some? && path in c.local(below).value)
  {
    if image, m :| image in images && image.kind.Build? && m in image.materials
                   && MaterialHolds(c, image.firstParty, m, path, false) {
      assert BUILD_DIRECTORY + m[|BUILD_DIRECTORY|..] == m;
    }
    if image, below :| image in images && image.kind.Build? && BUILD_DIRECTORY + below in image.materials
                       && c.local(below).Some? && path in c.local(below).value {
      var m := BUILD_DIRECTORY + below;
      assert m[|BUILD_DIRECTORY|..] == below;
      assert MaterialHolds(c, image.firstParty, m, path, false);
    }
  }

  lemma {:induction false} CompactDistinct(values: seq<string>)
    ensures forall i, j :: 0 <= i < j < |Compact(values)| ==> Compact(values)[i] != Compact(values)[j]
    decreases |values|
  {
    if values != [] {
      CompactDistinct(values[..|values| - 1]);
    }
  }

  /** Each file is hashed once, in the order of the paths. */
  lemma CanonicalSorted(paths: seq<string>)
    ensures Text.Sorted(Canonical(paths))
  {
    Sorting.ByTextOrders(Itself());
    CompactDistinct(paths);
    var kept, r := Compact(paths), Canonical(paths);
    assert multiset(r) == multiset(kept) && Sorting.SortedBy(r, Sorting.ByText(Itself()));
    hide Compact, Canonical;
    forall i, j | 0 <= i < j < |r| ensures Text.Less(r[i], r[j]) {
      var x, y := Sorting.TwoPlaces(kept, r, i, j);
      assert Sorting.ByText(Itself())(r[i], r[j]);
      assert x < y || y < x;
    }
  }

  /** The reference of a mirror is that of the last one with this id that has a source and a digest. */
  lemma {:induction false} ReferenceExactly(images: seq<Image>, id: string, k: nat)
    requires k < |images| && Referenced(images[k], id) && forall i :: k < i < |images| ==> !Referenced(images[i], id)
    ensures Reference(images, id) == images[k].source + "@" + images[k].digest
    decreases |images|
  {
    if k < |images| - 1 {
      ReferenceExactly(images[..|images| - 1], id, k);
    }
  }

  predicate Referenced(image: Image, id: string) {
    image.id == id && image.kind.Mirror? && image.source != "" && image.digest != ""
  }
}
