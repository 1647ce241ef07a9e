/** The canonical text of the build graph, as the updater renders it from the delivery images. */
module BuildGraphText {
  import opened Outcomes
  import Sorting
  import Text

  datatype Kind = Mirror | Build

  /**
   A delivery image with the fields the graph depends on. `official` is the official build material and
   `evidence` the outcome of its evidence checks; `contract` is the first observed runtime contract.
   */
  datatype Image = Image(id: string, version: string, target: string, kind: Kind, source: string, digest: string,
                         bakeTarget: string, firstParty: bool, license: string, provenance: string,
                         materials: seq<string>, official: string, evidence: bool, contract: string)

  /** What the graph takes from elsewhere in the document. */
  datatype Settings = Settings(registry: string, buildBase: string, platform: string)

  // ------------------------------------------------------------------------ quoting

  function HexDigit(n: nat): char
    requires n < 16
  {
    if n < 10 then ('0' as int + n) as char else ('a' as int + n - 10) as char
  }

  /** The letter behind the backslash, for the characters that have one. */
  function Letter(c: char): Option<char> {
    match c as int
    case 7 => Some('a')
    case 8 => Some('b')
    case 9 => Some('t')
    case 10 => Some('n')
    case 11 => Some('v')
    case 12 => Some('f')
    case 13 => Some('r')
    case _ => if c == '"' || c == '\\' then Some(c) else None
  }

  function Escape(c: char): string {
    if Letter(c).Some? then ['\\', Letter(c).value]
    else if c as int < 32 || c as int == 127 then ['\\', 'x', HexDigit(c as int / 16), HexDigit(c as int % 16)]
    else [c]
  }

  function Escaped(s: string): string {
    if s == "" then "" else Escape(s[0]) + Escaped(s[1..])
  }

  /** strconv.Quote. */
  function Quote(s: string): string { "\"" + Escaped(s) + "\"" }

  /** No control character is left, so the text stays on its line. */
  lemma {:induction false} EscapedOneLine(s: string)
    ensures '\n' !in Escaped(s)
    ensures forall c :: c in Escaped(s) ==> c as int >= 32 && c as int != 127
    decreases |s|
  {
    if s != "" {
      EscapedOneLine(s[1..]);
    }
  }

  lemma QuoteOneLine(s: string)
    ensures '\n' !in Quote(s)
  {
    EscapedOneLine(s);
  }

  lemma {:induction false} EscapedInjective(a: string, b: string)
    requires Escaped(a) == Escaped(b)
    ensures a == b
    decreases |a|
  {
    if a == "" || b == "" {
      assert |Escaped(a)| == 0;
    } else {
      EscapeSplits(a[0], Escaped(a[1..]), b[0], Escaped(b[1..]));
      EscapedInjective(a[1..], b[1..]);
      assert a == [a[0]] + a[1..] && b == [b[0]] + b[1..];
    }
  }

  lemma EscapeSplits(c: char, x: string, d: char, y: string)
    requires Escape(c) + x == Escape(d) + y
    ensures c == d && x == y
  {
    var s, t := Escape(c) + x, Escape(d) + y;
    assert s[0] == t[0];
    if |Escape(c)| >= 2 && |Escape(d)| >= 2 {
      assert s[1] == t[1];
      if |Escape(c)| == 4 && |Escape(d)| == 4 {
        assert s[2] == t[2] && s[3] == t[3];
      }
    }
    assert |Escape(c)| == |Escape(d)|;
    assert x == s[|Escape(c)|..] && y == t[|Escape(d)|..];
  }

  lemma QuoteInjective(a: string, b: string)
    requires Quote(a) == Quote(b)
    ensures a == b
  {
    assert Escaped(a) == Quote(a)[1..|Quote(a)| - 1] && Escaped(b) == Quote(b)[1..|Quote(b)| - 1];
    EscapedInjective(a, b);
  }

  // ------------------------------------------------------------------------ recipes

  predicate HasPrefix(s: string, prefix: string) { prefix <= s }

  predicate HasSuffix(s: string, suffix: string) {
    |suffix| <= |s| && s[|s| - |suffix|..] == suffix
  }

  function MaterialWithPrefix(materials: seq<string>, prefix: string): Option<string> {
    if materials == [] then None
    else if HasPrefix(materials[0], prefix) then Some(materials[0])
    else MaterialWithPrefix(materials[1..], prefix)
  }

  /** A Docker stage, and the named contexts in name order. */
  datatype Recipe = Recipe(stage: string, contexts: seq<(string, string)>)

  function ImageContext(name: string, source: string): Option<(string, string)> {
    if source == "" || Text.Contains(source, "://") then None else Some((name, "docker-image://" + source))
  }

  function OneContext(stage: string, name: string, source: string): Option<Recipe> {
    match ImageContext(name, source) case None => None case Some(c) => Some(Recipe(stage, [c]))
  }

  function CompatibilityRecipe(image: Image): Option<Recipe> {
    var name := image.bakeTarget;
    if name == "garage-init-helper" then Some(Recipe("garage-init-helper", []))
    else if name == "grafana-plugins" then OneContext("grafana-plugins", "atum_grafana_upstream", image.official)
    else if HasPrefix(name, "kubectl-helper-") && HasSuffix(name, "-compat") then
      OneContext("kubectl-helper", "atum_kubectl_upstream", image.official)
    else if HasPrefix(name, "postgresql-") && HasSuffix(name, "-compat") then
      OneContext("postgresql-compat", "atum_postgresql_upstream", image.official)
    else if name == "vault-curl-compat" then
      match MaterialWithPrefix(image.materials, "docker.io/curlimages/curl@sha256:")
      case None => None
      case Some(curl) =>
        match (ImageContext("atum_curl_upstream", curl), ImageContext("atum_vault_upstream", image.official))
        case (Some(a), Some(b)) => Some(Recipe("vault-curl-compat", [a, b]))
        case _ => None
    else None
  }

  /** How one build is made, or None when the graph refuses it. */
  function RecipeOf(image: Image, operatorBuilder: string): Option<Recipe> {
    if image.firstParty then
      if image.id != "atum-operator" || image.bakeTarget != "atum-operator" || operatorBuilder == "" then None
      else
        match ImageContext("atum_go_upstream", operatorBuilder)
        case None => None
        case Some(c) => Some(Recipe("atum-operator", [c, ("atum_source", "../..")]))
    else if !image.evidence || image.official !in image.materials then None
    else CompatibilityRecipe(image)
  }

  predicate Resolved(digest: string) {
    && |digest| == 71 && HasPrefix(digest, "sha256:") && (exists i :: 7 <= i < 71 && digest[i] != '0')
    && forall i :: 7 <= i < 71 ==> '0' <= digest[i] <= '9' || 'a' <= digest[i] <= 'f'
  }

  /** The first resolved mirror of the operator's builder image. */
  function OperatorBuilder(images: seq<Image>): string {
    if images == [] then ""
    else
      var image := images[0];
      if image.id == "operator-builder" && image.kind.Mirror? && image.source != "" && Resolved(image.digest)
      then image.source + "@" + image.digest
      else OperatorBuilder(images[1..])
  }

  /** The first image called sbom-scanner, whatever its kind. */
  function Sbom(images: seq<Image>): Option<Image> {
    if images == [] then None
    else if images[0].id == "sbom-scanner" then Some(images[0])
    else Sbom(images[1..])
  }

  function IsBuild(): Image -> bool { (image: Image) => image.kind.Build? }

  function BakeName(): Image -> string { (image: Image) => image.bakeTarget }

  /** The builds in Bake-target order. */
  function Builds(images: seq<Image>): (r: seq<Image>)
    ensures multiset(r) == multiset(Sorting.Keep(images, IsBuild()))
  {
    Sorting.ByTextOrders(BakeName());
    Sorting.Arrange(Sorting.Keep(images, IsBuild()), Sorting.ByText(BakeName()))
  }

  // --------------------------------------------------------------------------- lines

  const TAGS := "  tags       = ["

  function TagLine(target: string): string { TAGS + Quote(target) + "]" }

  function Opening(name: string): string { "target " + Quote(name) + " {" }

  function Variable(name: string, value: string): seq<string> {
    ["variable " + Quote(name) + " {", "  default = " + Quote(value), "}", ""]
  }

  function QuotedNames(builds: seq<Image>): string {
    if builds == [] then ""
    else if |builds| == 1 then Quote(builds[0].bakeTarget)
    else QuotedNames(builds[..|builds| - 1]) + ", " + Quote(builds[|builds| - 1].bakeTarget)
  }

  function TrimSlash(s: string): string {
    if s != "" && s[|s| - 1] == '/' then s[..|s| - 1] else s
  }

  /** The variables before the one that names the SBOM generator. */
  function Preamble(settings: Settings): (r: seq<string>)
    ensures |r| == 16
  {
    Variable("ATUM_CACHE_REGISTRY", TrimSlash(settings.registry) + "/buildkit") +
    Variable("ATUM_BOOTSTRAP_OUTPUT", "type=registry,oci-mediatypes=true,rewrite-timestamp=true") +
    Variable("ATUM_DEBIAN_IMAGE", settings.buildBase) +
    Variable("ATUM_PLATFORM", settings.platform)
  }

  function Group(builds: seq<Image>): seq<string> {
    ["group \"default\" {", "  targets = [" + QuotedNames(builds) + "]", "}", ""]
  }

  /** One entry of a map in the graph. */
  function NamedLine(name: string, value: string): string {
    "    " + (name + " = " + value)
  }

  // The targets every build inherits from.

  const OUTPUT_TYPE := "\"type=image,"
  const OUTPUT_MEDIA := "oci-mediatypes=true,"
  const OUTPUT_TIME := "rewrite-timestamp=true\"]"
  const SBOM_TYPE := "\"type=sbom,generator="
  const SBOM_IMAGE := "${ATUM_SBOM_GENERATOR_IMAGE}\","
  const CREATED := "\"1970-01-01T00:00:00Z\""

  function CommonSettings(): seq<string> {
    ["  context   = " + "\".\"", "  platforms = " + "[ATUM_PLATFORM]", "  args = {"]
  }

  function CommonArgs(): seq<string> {
    [NamedLine("ATUM_DEBIAN_IMAGE", "ATUM_DEBIAN_IMAGE"), NamedLine("ATUM_IMAGE_CREATED", CREATED),
     NamedLine("SOURCE_DATE_EPOCH", "SOURCE_DATE_EPOCH"), "  }"]
  }

  function CommonOutput(): seq<string> {
    ["  output = [" + (OUTPUT_TYPE + OUTPUT_MEDIA + OUTPUT_TIME)]
  }

  function Attestations(): seq<string> {
    ["  inherits = " + "[\"_common\"]", "  attest = [", "    " + "\"type=provenance,mode=max\",",
     "    " + (SBOM_TYPE + SBOM_IMAGE), "  ]"]
  }

  function SharedTarget(name: string, body: seq<string>): seq<string> {
    [Opening(name)] + body + ["}", ""]
  }

  function Shared(): seq<string> {
    SharedTarget("_common", CommonSettings() + CommonArgs() + CommonOutput()) + SharedTarget("_attested", Attestations())
  }

  function Header(settings: Settings, sbomTarget: string, builds: seq<Image>): (lines: seq<string>)
    ensures lines != []
  {
    Preamble(settings) + Variable("ATUM_SBOM_GENERATOR_IMAGE", sbomTarget) + Variable("SOURCE_DATE_EPOCH", "0") +
    Group(builds) + Shared()
  }

  function ContextLines(contexts: seq<(string, string)>): seq<string> {
    seq(|contexts|, i requires 0 <= i < |contexts| => NamedLine(contexts[i].0, Quote(contexts[i].1)))
  }

  /** The lines of a target before its tag. */
  function Above(image: Image, recipe: Recipe): seq<string> {
    ["  inherits   = " + "[\"_attested\"]",
     "  dockerfile = " + Quote(if image.firstParty then "docker/Dockerfile.operator" else "docker/Dockerfile.delivery"),
     "  target     = " + Quote(recipe.stage)]
  }

  function ArgLines(image: Image): seq<string> {
    ["  args = {", NamedLine("ATUM_IMAGE_LICENSE", Quote(image.license))] +
    (if image.bakeTarget == "grafana-plugins" then [NamedLine("ATUM_IMAGE_REVISION", Quote(image.contract))] else []) +
    [NamedLine("ATUM_IMAGE_SOURCE", Quote(image.provenance)), NamedLine("ATUM_IMAGE_VERSION", Quote(image.version)), "  }"]
  }

  const REF_TYPE := "\"type=registry,ref="
  const REF_REGISTRY := "${ATUM_CACHE_REGISTRY}/"
  const CACHE_MODE := ":cache,mode=max,"
  const CACHE_FORMAT := "image-manifest=true,"
  const CACHE_TYPES := "oci-mediatypes=true\"]"

  function CacheLines(name: string): seq<string> {
    ["  cache-from = [" + (REF_TYPE + REF_REGISTRY + name + ":cache\"]"),
     "  cache-to   = [" + (REF_TYPE + REF_REGISTRY + name + CACHE_MODE + CACHE_FORMAT + CACHE_TYPES)]
  }

  /** The lines of a target after its tag, up to its closing brace. */
  function Below(image: Image, recipe: Recipe): seq<string> {
    (if recipe.contexts == [] then [] else ["  contexts = {"] + ContextLines(recipe.contexts) + ["  }"]) +
    ArgLines(image) + CacheLines(image.bakeTarget)
  }

  function Block(image: Image, recipe: Recipe): seq<string> {
    [Opening(image.bakeTarget)] + Above(image, recipe) + [TagLine(image.target)] + Below(image, recipe) + ["}", ""]
  }

  function Blocks(builds: seq<Image>, operatorBuilder: string): Option<seq<string>> {
    if builds == [] then Some([])
    else
      match (Blocks(builds[..|builds| - 1], operatorBuilder), RecipeOf(builds[|builds| - 1], operatorBuilder))
      case (Some(rest), Some(recipe)) => Some(rest + Block(builds[|builds| - 1], recipe))
      case _ => None
  }

  function Cut(lines: seq<string>): seq<string>
    requires lines != []
  {
    lines[..|lines| - 1]
  }

  /** The whole text, the blank line after the last target cut off. */
  function AllLines(settings: Settings, sbomTarget: string, builds: seq<Image>, blocks: seq<string>): seq<string> {
    Cut(Header(settings, sbomTarget, builds) + blocks)
  }

  /** renderBuildGraph, line by line. */
  function Render(settings: Settings, images: seq<Image>): Option<seq<string>> {
    var builds := Builds(images);
    match (Sbom(images), Blocks(builds, OperatorBuilder(images)))
    case (Some(sbom), Some(blocks)) =>
      if sbom.target == "" then None
      else Some(AllLines(settings, sbom.target, builds, blocks))
    case _ => None
  }

  // ------------------------------------------------------------------ ordinary lines

  /** One line that cannot be taken for a tag line. */
  predicate Ordinary(line: string) {
    '\n' !in line && !(TAGS <= line)
  }

  predicate AllOrdinary(lines: seq<string>) {
    forall i :: 0 <= i < |lines| ==> Ordinary(lines[i])
  }

  /** Lines of a target body: indented and ordinary. */
  predicate Indented(lines: seq<string>) {
    forall i :: 0 <= i < |lines| ==> IndentedLine(lines[i])
  }

  predicate IndentedLine(line: string) {
    |line| > 1 && line[0] == ' ' && Ordinary(line)
  }

  lemma Differs(line: string, k: nat)
    requires k < |TAGS| && k < |line| && line[k] != TAGS[k]
    ensures !(TAGS <= line)
  {
  }

  /** Text put after a fixed beginning that already differs from a tag line. */
  lemma OrdinaryFrom(start: string, rest: string, k: nat)
    requires '\n' !in start && '\n' !in rest && k < |start| && k < |TAGS| && start[k] != TAGS[k]
    ensures Ordinary(start + rest)
    ensures |start + rest| >= |start| && (start + rest)[0] == start[0]
  {
    assert (start + rest)[k] == start[k];
    Differs(start + rest, k);
  }

  lemma PreambleOrdinary(settings: Settings)
    ensures AllOrdinary(Preamble(settings))
  {
    VariableOrdinary("ATUM_CACHE_REGISTRY", TrimSlash(settings.registry) + "/buildkit");
    VariableOrdinary("ATUM_BOOTSTRAP_OUTPUT", "type=registry,oci-mediatypes=true,rewrite-timestamp=true");
    VariableOrdinary("ATUM_DEBIAN_IMAGE", settings.buildBase);
    VariableOrdinary("ATUM_PLATFORM", settings.platform);
    hide Variable, Ordinary;
  }

  lemma VariableOrdinary(name: string, value: string)
    ensures AllOrdinary(Variable(name, value))
  {
    QuoteOneLine(name);
    QuoteOneLine(value);
    hide Quote;
    OrdinaryFrom("variable ", Quote(name) + " {", 0);
    assert "variable " + (Quote(name) + " {") == "variable " + Quote(name) + " {";
    OrdinaryFrom("  default = ", Quote(value), 2);
  }

  lemma {:induction false} QuotedNamesOneLine(builds: seq<Image>)
    ensures '\n' !in QuotedNames(builds)
    decreases |builds|
  {
    if builds != [] {
      QuoteOneLine(builds[0].bakeTarget);
      QuoteOneLine(builds[|builds| - 1].bakeTarget);
      QuotedNamesOneLine(builds[..|builds| - 1]);
    }
  }

  lemma GroupOrdinary(builds: seq<Image>)
    ensures AllOrdinary(Group(builds))
  {
    QuotedNamesOneLine(builds);
    hide QuotedNames;
    OrdinaryFrom("group \"default\" {", "", 0);
    assert "group \"default\" {" + "" == "group \"default\" {";
    OrdinaryFrom("  targets = [", QuotedNames(builds) + "]", 4);
    assert "  targets = [" + (QuotedNames(builds) + "]") == "  targets = [" + QuotedNames(builds) + "]";
  }

  lemma HeaderOrdinary(settings: Settings, sbomTarget: string, builds: seq<Image>)
    ensures AllOrdinary(Header(settings, sbomTarget, builds))
  {
    PreambleOrdinary(settings);
    VariableOrdinary("ATUM_SBOM_GENERATOR_IMAGE", sbomTarget);
    VariableOrdinary("SOURCE_DATE_EPOCH", "0");
    GroupOrdinary(builds);
    SharedOrdinary();
    hide Preamble, Variable, Group, Ordinary, Shared;
  }

  // ---------------------------------------------------------- the lines of shared targets

  lemma CommonSettingsIndented()
    ensures Indented(CommonSettings())
  {
    OrdinaryFrom("  context   = ", "\".\"", 2);
    OrdinaryFrom("  platforms = ", "[ATUM_PLATFORM]", 2);
    assert IndentedLine("  args = {");
    hide Ordinary;
  }

  lemma NamedIndented(name: string, value: string)
    requires '\n' !in name && '\n' !in value
    ensures IndentedLine(NamedLine(name, value))
  {
    OrdinaryFrom("    ", name + " = " + value, 2);
  }

  lemma CommonArgsIndented()
    ensures Indented(CommonArgs())
  {
    assert '\n' !in CREATED;
    NamedIndented("ATUM_DEBIAN_IMAGE", "ATUM_DEBIAN_IMAGE");
    NamedIndented("ATUM_IMAGE_CREATED", CREATED);
    NamedIndented("SOURCE_DATE_EPOCH", "SOURCE_DATE_EPOCH");
    assert IndentedLine("  }");
    hide IndentedLine, NamedLine, CREATED;
  }

  lemma CommonOutputIndented()
    ensures Indented(CommonOutput())
  {
    assert '\n' !in OUTPUT_TYPE && '\n' !in OUTPUT_MEDIA && '\n' !in OUTPUT_TIME;
    hide OUTPUT_TYPE, OUTPUT_MEDIA, OUTPUT_TIME;
    OrdinaryFrom("  output = [", OUTPUT_TYPE + OUTPUT_MEDIA + OUTPUT_TIME, 2);
  }

  lemma AttestationsIndented()
    ensures Indented(Attestations())
  {
    assert '\n' !in SBOM_TYPE && '\n' !in SBOM_IMAGE;
    OrdinaryFrom("  inherits = ", "[\"_common\"]", 2);
    OrdinaryFrom("    ", "\"type=provenance,mode=max\",", 2);
    assert IndentedLine("  attest = [") && IndentedLine("  ]");
    hide SBOM_TYPE, SBOM_IMAGE;
    OrdinaryFrom("    ", SBOM_TYPE + SBOM_IMAGE, 2);
    hide Ordinary;
  }

  lemma CommonIndented()
    ensures Indented(CommonSettings() + CommonArgs() + CommonOutput())
  {
    hide CommonSettings, CommonArgs, CommonOutput, IndentedLine;
    CommonSettingsIndented();
    CommonArgsIndented();
    CommonOutputIndented();
  }

  lemma TargetOrdinary(name: string, body: seq<string>)
    requires Indented(body)
    ensures AllOrdinary(SharedTarget(name, body))
  {
    OpeningLine(name);
    assert Ordinary("}") && Ordinary("");
    hide Opening, Ordinary;
  }

  lemma SharedOrdinary()
    ensures AllOrdinary(Shared())
  {
    hide CommonSettings, CommonArgs, CommonOutput, Attestations, SharedTarget, Ordinary, Indented;
    CommonIndented();
    AttestationsIndented();
    TargetOrdinary("_common", CommonSettings() + CommonArgs() + CommonOutput());
    TargetOrdinary("_attested", Attestations());
  }

  lemma TargetOpens(own: string, body: seq<string>, name: string)
    requires Indented(body) && own != name
    ensures Opening(name) !in SharedTarget(own, body)
  {
    OpeningLine(name);
    if Opening(name) == Opening(own) {
      OpeningInjective(name, own);
    }
    hide Opening, Ordinary;
  }

  /** The shared targets open under their own names only. */
  lemma SharedOpens(name: string)
    requires name != "_common" && name != "_attested"
    ensures Opening(name) !in Shared()
  {
    hide CommonSettings, CommonArgs, CommonOutput, Attestations, SharedTarget, Indented, Opening;
    CommonIndented();
    AttestationsIndented();
    TargetOpens("_common", CommonSettings() + CommonArgs() + CommonOutput(), name);
    TargetOpens("_attested", Attestations(), name);
  }

  // ------------------------------------------------------------- the lines of a block

  lemma AboveIndented(image: Image, recipe: Recipe)
    ensures Indented(Above(image, recipe))
  {
    var dockerfile := if image.firstParty then "docker/Dockerfile.operator" else "docker/Dockerfile.delivery";
    QuoteOneLine(dockerfile);
    QuoteOneLine(recipe.stage);
    hide Quote;
    OrdinaryFrom("  inherits   = ", "[\"_attested\"]", 2);
    OrdinaryFrom("  dockerfile = ", Quote(dockerfile), 2);
    OrdinaryFrom("  target     = ", Quote(recipe.stage), 4);
  }

  predicate NamesOneLine(contexts: seq<(string, string)>) {
    forall i :: 0 <= i < |contexts| ==> '\n' !in contexts[i].0
  }

  lemma ContextsIndented(contexts: seq<(string, string)>)
    requires NamesOneLine(contexts)
    ensures Indented(ContextLines(contexts))
  {
    hide Ordinary, Quote;
    forall i | 0 <= i < |contexts| ensures IndentedLine(ContextLines(contexts)[i]) {
      QuoteOneLine(contexts[i].1);
      NamedIndented(contexts[i].0, Quote(contexts[i].1));
    }
  }

  lemma ArgsIndented(image: Image)
    ensures Indented(ArgLines(image))
  {
    QuoteOneLine(image.license);
    QuoteOneLine(image.contract);
    QuoteOneLine(image.provenance);
    QuoteOneLine(image.version);
    hide Quote;
    NamedIndented("ATUM_IMAGE_LICENSE", Quote(image.license));
    NamedIndented("ATUM_IMAGE_REVISION", Quote(image.contract));
    NamedIndented("ATUM_IMAGE_SOURCE", Quote(image.provenance));
    NamedIndented("ATUM_IMAGE_VERSION", Quote(image.version));
    assert IndentedLine("  args = {") && IndentedLine("  }");
    hide IndentedLine, NamedLine;
  }

  lemma CacheIndented(name: string)
    requires '\n' !in name
    ensures Indented(CacheLines(name))
  {
    CacheTexts();
    hide REF_TYPE, REF_REGISTRY, CACHE_MODE, CACHE_FORMAT, CACHE_TYPES;
    OrdinaryFrom("  cache-from = [", REF_TYPE + REF_REGISTRY + name + ":cache\"]", 2);
    OrdinaryFrom("  cache-to   = [", REF_TYPE + REF_REGISTRY + name + CACHE_MODE + CACHE_FORMAT + CACHE_TYPES, 2);
  }

  lemma CacheTexts()
    ensures '\n' !in REF_TYPE && '\n' !in REF_REGISTRY
    ensures '\n' !in CACHE_MODE && '\n' !in CACHE_FORMAT && '\n' !in CACHE_TYPES
  {
  }

  lemma BelowIndented(image: Image, recipe: Recipe)
    requires '\n' !in image.bakeTarget && NamesOneLine(recipe.contexts)
    ensures Indented(Below(image, recipe))
  {
    ContextsIndented(recipe.contexts);
    ArgsIndented(image);
    CacheIndented(image.bakeTarget);
    assert IndentedLine("  contexts = {") && IndentedLine("  }");
    hide ContextLines, ArgLines, CacheLines, IndentedLine;
  }

  lemma RecipeNames(image: Image, operatorBuilder: string)
    requires RecipeOf(image, operatorBuilder).Some?
    ensures NamesOneLine(RecipeOf(image, operatorBuilder).value.contexts)
  {
    hide Text.Contains, MaterialWithPrefix, HasPrefix, HasSuffix;
  }

  lemma OpeningLine(name: string)
    ensures Ordinary(Opening(name)) && |Opening(name)| > 1 && Opening(name)[0] == 't'
  {
    QuoteOneLine(name);
    hide Quote;
    OrdinaryFrom("target ", Quote(name) + " {", 0);
    assert "target " + (Quote(name) + " {") == Opening(name);
  }

  lemma OpeningInjective(a: string, b: string)
    requires Opening(a) == Opening(b)
    ensures a == b
  {
    hide Quote;
    assert Quote(a) == Opening(a)[7..|Opening(a)| - 2] && Quote(b) == Opening(b)[7..|Opening(b)| - 2];
    QuoteInjective(a, b);
  }

  // -------------------------------------------------------------- reading the graph back

  /** The lines between the one that opens a target and its closing brace. */
  function Section(lines: seq<string>, open: string, inside: bool): seq<string> {
    if lines == [] then []
    else if inside then
      if lines[0] == "}" then Section(lines[1..], open, false) else [lines[0]] + Section(lines[1..], open, true)
    else Section(lines[1..], open, lines[0] == open)
  }

  function TagLiteral(line: string): seq<string> {
    if TAGS + "\"" <= line && HasSuffix(line, "\"]") && |line| >= |TAGS| + 3
    then [line[|TAGS| + 1..|line| - 2]]
    else []
  }

  function Literals(lines: seq<string>): seq<string> {
    if lines == [] then [] else TagLiteral(lines[0]) + Literals(lines[1..])
  }

  /** The tags the graph publishes for one Bake target. */
  function PublishedTags(lines: seq<string>, name: string): seq<string> {
    Literals(Section(lines, Opening(name), false))
  }

  /** What a block says about its target. */
  function Body(image: Image, recipe: Recipe): seq<string> {
    Above(image, recipe) + ([TagLine(image.target)] + Below(image, recipe))
  }

  lemma TagLineLiteral(target: string)
    ensures TagLiteral(TagLine(target)) == [Escaped(target)] && TagLine(target) != "}"
  {
    var line := TagLine(target);
    hide Escaped;
    assert line == TAGS + "\"" + Escaped(target) + "\"]";
    assert line[..|TAGS| + 1] == TAGS + "\"" && line[|line| - 2..] == "\"]";
    assert line[|TAGS| + 1..|line| - 2] == Escaped(target);
  }

  lemma OrdinaryNoLiteral(line: string)
    requires Ordinary(line)
    ensures TagLiteral(line) == []
  {
    if |line| >= |TAGS| + 1 {
      assert line[..|TAGS|] != TAGS;
      assert line[..|TAGS| + 1] != TAGS + "\"" by {
        assert line[..|TAGS| + 1][..|TAGS|] == line[..|TAGS|];
      }
    }
  }

  lemma {:induction false} LiteralsAppend(a: seq<string>, b: seq<string>)
    ensures Literals(a + b) == Literals(a) + Literals(b)
    decreases |a|
  {
    hide TagLiteral;
    if a == [] {
      assert a + b == b;
    } else {
      assert (a + b)[1..] == a[1..] + b;
      LiteralsAppend(a[1..], b);
    }
  }

  lemma {:induction false} IndentedNoLiterals(lines: seq<string>)
    requires Indented(lines)
    ensures Literals(lines) == []
    decreases |lines|
  {
    if lines != [] {
      OrdinaryNoLiteral(lines[0]);
      IndentedNoLiterals(lines[1..]);
    }
  }

  /** The body of a block holds one tag. */
  lemma BodyLiterals(image: Image, recipe: Recipe)
    requires '\n' !in image.bakeTarget && NamesOneLine(recipe.contexts)
    ensures Literals(Body(image, recipe)) == [Escaped(image.target)]
  {
    AboveIndented(image, recipe);
    BelowIndented(image, recipe);
    TagLineLiteral(image.target);
    hide Above, Below, TagLine, Escaped, TagLiteral, Indented;
    var tag := [TagLine(image.target)];
    IndentedNoLiterals(Above(image, recipe));
    IndentedNoLiterals(Below(image, recipe));
    LiteralsAppend(Above(image, recipe), tag + Below(image, recipe));
    LiteralsAppend(tag, Below(image, recipe));
    assert tag[1..] == [] && Literals([]) == [];
  }

  lemma {:induction false} SectionBody(body: seq<string>, rest: seq<string>, open: string)
    requires "}" !in body
    ensures Section(body + rest, open, true) == body + Section(rest, open, true)
    decreases |body|
  {
    var all := body + rest;
    if body == [] {
      assert all == rest;
    } else {
      assert all[1..] == body[1..] + rest && body[0] in body;
      SectionBody(body[1..], rest, open);
    }
  }

  lemma {:induction false} SectionSkips(lines: seq<string>, rest: seq<string>, open: string)
    requires open !in lines
    ensures Section(lines + rest, open, false) == Section(rest, open, false)
    decreases |lines|
  {
    var all := lines + rest;
    if lines == [] {
      assert all == rest;
    } else {
      assert all[1..] == lines[1..] + rest && lines[0] in lines;
      SectionSkips(lines[1..], rest, open);
    }
  }

  lemma BodyOpen(image: Image, recipe: Recipe)
    requires '\n' !in image.bakeTarget && NamesOneLine(recipe.contexts)
    ensures "}" !in Body(image, recipe)
  {
    AboveIndented(image, recipe);
    BelowIndented(image, recipe);
    TagLineLiteral(image.target);
    hide Above, Below, TagLine, Ordinary;
  }

  /** One block contributes its body to its own target and nothing to any other. */
  lemma SectionBlock(image: Image, recipe: Recipe, rest: seq<string>, name: string)
    requires '\n' !in image.bakeTarget && NamesOneLine(recipe.contexts)
    ensures Section(Block(image, recipe) + rest, Opening(name), false) ==
            (if image.bakeTarget == name then Body(image, recipe) else []) + Section(rest, Opening(name), false)
  {
    AboveIndented(image, recipe);
    BelowIndented(image, recipe);
    OpeningLine(name);
    TagLineStart(image.target);
    BodyOpen(image, recipe);
    if image.bakeTarget != name && Opening(image.bakeTarget) == Opening(name) {
      OpeningInjective(image.bakeTarget, name);
    }
    hide Above, Below, Opening, TagLine, Indented, Ordinary, Section;
    if image.bakeTarget == name {
      assert Block(image, recipe) == [Opening(name)] + Body(image, recipe) + ["}", ""];
      SectionOwn(Opening(name), Body(image, recipe), rest);
    } else {
      OpenElsewhere(Opening(image.bakeTarget), Opening(name), Above(image, recipe), TagLine(image.target),
                    Below(image, recipe));
      SectionSkips(Block(image, recipe), rest, Opening(name));
    }
  }

  lemma SectionOwn(open: string, body: seq<string>, rest: seq<string>)
    requires "}" !in body && |open| > 1
    ensures Section([open] + body + ["}", ""] + rest, open, false) == body + Section(rest, open, false)
  {
    hide Section;
    var closing := ["}", ""] + rest;
    assert [open] + body + ["}", ""] + rest == [open] + (body + closing);
    SectionOpens(open, body + closing);
    SectionBody(body, closing, open);
    assert closing == ["}"] + ([""] + rest);
    SectionCloses(open, [""] + rest);
    BlankIsNot(open, rest);
  }

  lemma SectionOpens(open: string, rest: seq<string>)
    ensures Section([open] + rest, open, false) == Section(rest, open, true)
  {
    assert ([open] + rest)[1..] == rest;
  }

  lemma SectionCloses(open: string, rest: seq<string>)
    ensures Section(["}"] + rest, open, true) == Section(rest, open, false)
  {
    assert (["}"] + rest)[1..] == rest;
  }

  /** A blank line between targets opens nothing. */
  lemma BlankIsNot(open: string, rest: seq<string>)
    ensures open != "" ==> Section([""] + rest, open, false) == Section(rest, open, false)
  {
    assert ([""] + rest)[1..] == rest;
  }

  lemma OpenElsewhere(first: string, open: string, above: seq<string>, tag: string, below: seq<string>)
    requires first != open && |open| > 1 && open[0] == 't' && Indented(above) && Indented(below)
    requires |tag| > 0 && tag[0] == ' '
    ensures open !in [first] + above + [tag] + below + ["}", ""]
  {
    hide Ordinary;
  }

  lemma TagLineStart(target: string)
    ensures |TagLine(target)| > 0 && TagLine(target)[0] == ' '
  {
  }

  /** The bodies of the builds with one Bake target, one after the other. */
  function BodiesNamed(builds: seq<Image>, operatorBuilder: string, name: string): seq<string> {
    if builds == [] then []
    else
      var last := builds[|builds| - 1];
      var recipe := RecipeOf(last, operatorBuilder);
      BodiesNamed(builds[..|builds| - 1], operatorBuilder, name) +
      if last.bakeTarget == name && recipe.Some? then Body(last, recipe.value) else []
  }

  /** The literals of the targets of the builds with one Bake target. */
  function TagsNamed(builds: seq<Image>, name: string): seq<string> {
    if builds == [] then []
    else
      var last := builds[|builds| - 1];
      TagsNamed(builds[..|builds| - 1], name) + if last.bakeTarget == name then [Escaped(last.target)] else []
  }

  predicate NamesPlain(builds: seq<Image>) {
    forall i :: 0 <= i < |builds| ==> '\n' !in builds[i].bakeTarget
  }

  lemma {:induction false} SectionBlocks(builds: seq<Image>, operatorBuilder: string, rest: seq<string>, name: string)
    requires Blocks(builds, operatorBuilder).Some? && NamesPlain(builds)
    ensures Section(Blocks(builds, operatorBuilder).value + rest, Opening(name), false) ==
            BodiesNamed(builds, operatorBuilder, name) + Section(rest, Opening(name), false)
    decreases |builds|
  {
    hide Section, RecipeOf, Block, Opening, Body;
    if builds == [] {
      assert Blocks(builds, operatorBuilder).value + rest == rest;
    } else {
      var front, last := builds[..|builds| - 1], builds[|builds| - 1];
      var recipe := RecipeOf(last, operatorBuilder).value;
      var blocks := Blocks(front, operatorBuilder).value;
      RecipeNames(last, operatorBuilder);
      SectionBlock(last, recipe, rest, name);
      SectionBlocks(front, operatorBuilder, Block(last, recipe) + rest, name);
      assert blocks + Block(last, recipe) + rest == blocks + (Block(last, recipe) + rest);
    }
  }

  lemma {:induction false} BodiesTags(builds: seq<Image>, operatorBuilder: string, name: string)
    requires Blocks(builds, operatorBuilder).Some? && NamesPlain(builds)
    ensures Literals(BodiesNamed(builds, operatorBuilder, name)) == TagsNamed(builds, name)
    decreases |builds|
  {
    hide RecipeOf, Block, Body, Escaped, Literals;
    assert Literals([]) == [] by { NoLiterals(); }
    if builds != [] {
      var front, last := builds[..|builds| - 1], builds[|builds| - 1];
      var recipe := RecipeOf(last, operatorBuilder).value;
      RecipeNames(last, operatorBuilder);
      BodyLiterals(last, recipe);
      BodiesTags(front, operatorBuilder, name);
      LiteralsAppend(BodiesNamed(front, operatorBuilder, name), if last.bakeTarget == name then Body(last, recipe) else []);
    }
  }

  lemma NoLiterals()
    ensures Literals([]) == []
  {
  }

  lemma StartsOther(start: string, rest: string, open: string)
    requires |start| > 0 && |open| > 0 && start[0] != open[0]
    ensures start + rest != open
  {
    assert (start + rest)[0] == start[0];
  }

  lemma VariableElsewhere(name: string, value: string, open: string)
    requires |open| > 1 && open[0] == 't'
    ensures open !in Variable(name, value)
  {
    hide Quote;
    StartsOther("variable ", Quote(name) + " {", open);
    assert "variable " + (Quote(name) + " {") == "variable " + Quote(name) + " {";
    StartsOther("  default = ", Quote(value), open);
  }

  lemma HeaderElsewhere(settings: Settings, sbomTarget: string, builds: seq<Image>, name: string)
    requires name != "_common" && name != "_attested"
    ensures Opening(name) !in Header(settings, sbomTarget, builds)
  {
    var open := Opening(name);
    OpeningLine(name);
    VariableElsewhere("ATUM_CACHE_REGISTRY", TrimSlash(settings.registry) + "/buildkit", open);
    VariableElsewhere("ATUM_BOOTSTRAP_OUTPUT", "type=registry,oci-mediatypes=true,rewrite-timestamp=true", open);
    VariableElsewhere("ATUM_DEBIAN_IMAGE", settings.buildBase, open);
    VariableElsewhere("ATUM_PLATFORM", settings.platform, open);
    VariableElsewhere("ATUM_SBOM_GENERATOR_IMAGE", sbomTarget, open);
    VariableElsewhere("SOURCE_DATE_EPOCH", "0", open);
    GroupElsewhere(builds, open);
    SharedOpens(name);
    hide Variable, Group, Opening, Shared;
  }

  lemma GroupElsewhere(builds: seq<Image>, open: string)
    requires |open| > 1 && open[0] == 't'
    ensures open !in Group(builds)
  {
    hide QuotedNames;
    StartsOther("  targets = [", QuotedNames(builds) + "]", open);
    assert "  targets = [" + (QuotedNames(builds) + "]") == "  targets = [" + QuotedNames(builds) + "]";
  }

  /** After a closing brace a blank line adds nothing. */
  lemma {:induction false} SectionEnd(lines: seq<string>, open: string, inside: bool)
    requires |open| > 1
    ensures Section(lines + ["}", ""], open, inside) == Section(lines + ["}"], open, inside)
    decreases |lines|
  {
    var long, short := lines + ["}", ""], lines + ["}"];
    if lines == [] {
      assert long[1..] == [""] && short[1..] == [] && [""][1..] == [];
    } else {
      assert long[1..] == lines[1..] + ["}", ""] && short[1..] == lines[1..] + ["}"];
      SectionEnd(lines[1..], open, false);
      SectionEnd(lines[1..], open, true);
    }
  }

  predicate EndsClosed(lines: seq<string>) {
    |lines| >= 2 && lines[|lines| - 2] == "}" && lines[|lines| - 1] == ""
  }

  lemma BlocksEndClosed(builds: seq<Image>, operatorBuilder: string)
    requires Blocks(builds, operatorBuilder).Some?
    ensures var blocks := Blocks(builds, operatorBuilder).value; blocks == [] || EndsClosed(blocks)
  {
    hide RecipeOf, Above, Below, Opening, TagLine;
  }

  lemma SectionAll(settings: Settings, sbomTarget: string, builds: seq<Image>, operatorBuilder: string, name: string)
    requires NamesPlain(builds) && name != "_common" && name != "_attested"
    requires Blocks(builds, operatorBuilder).Some?
    ensures Section(AllLines(settings, sbomTarget, builds, Blocks(builds, operatorBuilder).value), Opening(name), false)
            == BodiesNamed(builds, operatorBuilder, name)
  {
    hide Section, Header, Blocks, Opening, NamesPlain, BodiesNamed, Ordinary;
    var header, blocks := Header(settings, sbomTarget, builds), Blocks(builds, operatorBuilder).value;
    OpeningLine(name);
    HeaderElsewhere(settings, sbomTarget, builds, name);
    BlocksEndClosed(builds, operatorBuilder);
    HeaderEndsClosed(settings, sbomTarget, builds);
    var open := Opening(name);
    SectionSkips(header, blocks, open);
    SectionBlocks(builds, operatorBuilder, [], name);
    assert blocks + [] == blocks;
    SectionNothing(open);
    var all := header + blocks;
    var front := all[..|all| - 2];
    assert all == front + ["}", ""] && all[..|all| - 1] == front + ["}"];
    SectionEnd(front, open, false);
  }

  lemma {:induction false} BuildHasRecipe(builds: seq<Image>, operatorBuilder: string, k: nat)
    requires Blocks(builds, operatorBuilder).Some? && k < |builds|
    ensures RecipeOf(builds[k], operatorBuilder).Some?
    decreases |builds|
  {
    hide RecipeOf, Block;
    if k < |builds| - 1 {
      BuildHasRecipe(builds[..|builds| - 1], operatorBuilder, k);
    }
  }

  lemma RenderHasBlocks(settings: Settings, images: seq<Image>)
    requires Render(settings, images).Some?
    ensures Blocks(Builds(images), OperatorBuilder(images)).Some?
  {
    hide Builds, Blocks, AllLines, Sbom, OperatorBuilder;
  }

  /** What the rendered graph says of a name is what the blocks of the builds of that name say. */
  lemma RenderedSection(settings: Settings, images: seq<Image>, name: string)
    requires NamesPlain(Builds(images)) && name != "_common" && name != "_attested"
    requires Render(settings, images).Some?
    ensures Section(Render(settings, images).value, Opening(name), false) ==
            BodiesNamed(Builds(images), OperatorBuilder(images), name)
  {
    hide Section, AllLines, Blocks, Builds, OperatorBuilder, Sbom, Opening, NamesPlain, BodiesNamed;
    SectionAll(settings, Sbom(images).value.target, Builds(images), OperatorBuilder(images), name);
  }

  /** What the rendered graph publishes for a name is what the builds of that name say. */
  lemma RenderedTags(settings: Settings, images: seq<Image>, name: string)
    requires NamesPlain(Builds(images)) && name != "_common" && name != "_attested"
    requires Render(settings, images).Some?
    ensures PublishedTags(Render(settings, images).value, name) == TagsNamed(Builds(images), name)
  {
    hide Section, Blocks, Builds, OperatorBuilder, Sbom, Opening, NamesPlain, BodiesNamed, TagsNamed, AllLines, Literals;
    RenderedSection(settings, images, name);
    BodiesTags(Builds(images), OperatorBuilder(images), name);
  }

  lemma SectionNothing(open: string)
    ensures Section([], open, false) == []
  {
  }

  lemma HeaderEndsClosed(settings: Settings, sbomTarget: string, builds: seq<Image>)
    ensures EndsClosed(Header(settings, sbomTarget, builds))
  {
    hide Preamble, Variable, Group, CommonSettings, CommonArgs, CommonOutput, Attestations, Opening;
  }

  lemma RecipeName(image: Image, operatorBuilder: string)
    requires RecipeOf(image, operatorBuilder).Some?
    ensures image.bakeTarget != "_common" && image.bakeTarget != "_attested"
  {
    hide Text.Contains, MaterialWithPrefix, HasSuffix, ImageContext, OneContext;
    var name := image.bakeTarget;
    assert HasPrefix(name, "kubectl-helper-") ==> name[0] == 'k';
    assert HasPrefix(name, "postgresql-") ==> name[0] == 'p';
    assert name[0] != '_';
  }

  // ----------------------------------------------------------- what targets can change

  /** The same image, except that a build may have another target. */
  function OnlyTarget(): (Image, Image) -> bool {
    (a: Image, b: Image) => b == a.(target := b.target) && (a.kind.Mirror? ==> a == b)
  }

  ghost predicate Retargeted(a: seq<Image>, b: seq<Image>) {
    Sorting.Related(a, b, OnlyTarget())
  }

  lemma BuildsRetargeted(a: seq<Image>, b: seq<Image>)
    requires Retargeted(a, b)
    ensures Retargeted(Builds(a), Builds(b))
  {
    ByNameRespects();
    KeepsBuilds(a, b);
    Sorting.ByTextOrders(BakeName());
    hide Sorting.Related, Sorting.Respects, Sorting.Ordering, Sorting.Keep, OnlyTarget;
    Sorting.ArrangeRelated(Sorting.Keep(a, IsBuild()), Sorting.Keep(b, IsBuild()), Sorting.ByText(BakeName()), OnlyTarget());
  }

  lemma KeepsBuilds(a: seq<Image>, b: seq<Image>)
    requires Retargeted(a, b)
    ensures Sorting.Related(Sorting.Keep(a, IsBuild()), Sorting.Keep(b, IsBuild()), OnlyTarget())
  {
    Sorting.KeepRelated(a, b, IsBuild(), OnlyTarget());
  }

  lemma SameName(a: Image, b: Image)
    requires OnlyTarget()(a, b)
    ensures BakeName()(a) == BakeName()(b)
  {
  }

  lemma ByNameRespects()
    ensures Sorting.Respects(Sorting.ByText(BakeName()), OnlyTarget())
  {
    hide Text.Le, OnlyTarget, BakeName;
    forall x, y, x', y' | OnlyTarget()(x, x') && OnlyTarget()(y, y')
      ensures Sorting.ByText(BakeName())(x, y) == Sorting.ByText(BakeName())(x', y')
    {
      SameName(x, x');
      SameName(y, y');
    }
  }

  /** The same lines, except that both may have a tag line. */
  ghost predicate SameButTagLines(a: seq<string>, b: seq<string>) {
    |a| == |b| && forall i :: 0 <= i < |a| ==> a[i] == b[i] || (IsTagLine(a[i]) && IsTagLine(b[i]))
  }

  ghost predicate IsTagLine(line: string) {
    exists target :: line == TagLine(target)
  }

  lemma SameRecipe(a: Image, b: Image, operatorBuilder: string)
    requires OnlyTarget()(a, b)
    ensures RecipeOf(a, operatorBuilder) == RecipeOf(b, operatorBuilder)
  {
    hide Text.Contains, MaterialWithPrefix, HasPrefix, HasSuffix, ImageContext, OneContext;
  }

  lemma SameBlock(a: Image, b: Image, recipe: Recipe)
    requires OnlyTarget()(a, b)
    ensures SameButTagLines(Block(a, recipe), Block(b, recipe))
  {
    SameAround(a, b, recipe);
    assert IsTagLine(TagLine(a.target)) && IsTagLine(TagLine(b.target));
    hide Above, Below, TagLine, Opening, SameButTagLines, IsTagLine;
    var before, after := [Opening(a.bakeTarget)] + Above(a, recipe), Below(a, recipe) + ["}", ""];
    assert Block(a, recipe) == before + [TagLine(a.target)] + after;
    assert Block(b, recipe) == before + [TagLine(b.target)] + after;
    TagSwapped(before, TagLine(a.target), TagLine(b.target), after);
  }

  lemma TagSwapped(before: seq<string>, s: string, t: string, after: seq<string>)
    requires IsTagLine(s) && IsTagLine(t)
    ensures SameButTagLines(before + [s] + after, before + [t] + after)
  {
    hide IsTagLine;
  }

  lemma SameAround(a: Image, b: Image, recipe: Recipe)
    requires OnlyTarget()(a, b)
    ensures Above(a, recipe) == Above(b, recipe) && Below(a, recipe) == Below(b, recipe)
  {
    hide Quote, ContextLines;
  }

  lemma SameAppend(a: seq<string>, b: seq<string>, c: seq<string>, d: seq<string>)
    requires SameButTagLines(a, b) && SameButTagLines(c, d)
    ensures SameButTagLines(a + c, b + d)
  {
    hide IsTagLine;
  }

  lemma {:induction false} SameBlocks(a: seq<Image>, b: seq<Image>, operatorBuilder: string)
    requires Retargeted(a, b)
    ensures Blocks(a, operatorBuilder).Some? <==> Blocks(b, operatorBuilder).Some?
    ensures Blocks(a, operatorBuilder).Some? ==>
              SameButTagLines(Blocks(a, operatorBuilder).value, Blocks(b, operatorBuilder).value)
    ensures QuotedNames(a) == QuotedNames(b)
    decreases |a|
  {
    hide RecipeOf, Block, SameButTagLines, OnlyTarget, Quote;
    if a == [] {
      assert SameButTagLines([], []) by { NoLines(); }
    } else {
      var n := |a| - 1;
      Sorting.RelatedParts(a, b, OnlyTarget(), n);
      SameBlocks(a[..n], b[..n], operatorBuilder);
      SameRecipe(a[n], b[n], operatorBuilder);
      SameName(a[n], b[n]);
      if Blocks(a, operatorBuilder).Some? {
        var recipe := RecipeOf(a[n], operatorBuilder).value;
        SameBlock(a[n], b[n], recipe);
        SameAppend(Blocks(a[..n], operatorBuilder).value, Blocks(b[..n], operatorBuilder).value,
                   Block(a[n], recipe), Block(b[n], recipe));
      }
    }
  }

  lemma NoLines()
    ensures SameButTagLines([], [])
  {
  }

  lemma {:induction false} SameFinds(a: seq<Image>, b: seq<Image>)
    requires Retargeted(a, b)
    ensures OperatorBuilder(a) == OperatorBuilder(b)
    ensures Sbom(a).Some? <==> Sbom(b).Some?
    ensures Sbom(a).Some? ==> OnlyTarget()(Sbom(a).value, Sbom(b).value)
    decreases |a|
  {
    hide Resolved;
    if a != [] {
      Sorting.RelatedParts(a, b, OnlyTarget(), 0);
      SameFinds(a[1..], b[1..]);
    }
  }

  /** Where the SBOM generator's target stands in the text. */
  const SBOM_LINE := 17

  lemma HeaderAt(settings: Settings, sbomTarget: string, builds: seq<Image>)
    ensures var header := Header(settings, sbomTarget, builds);
            |header| > SBOM_LINE + 1 && header[SBOM_LINE] == "  default = " + Quote(sbomTarget)
  {
    hide Preamble, Group, Quote;
  }

  ghost predicate SameExcept(a: seq<string>, b: seq<string>, k: nat) {
    |a| == |b| && forall i :: 0 <= i < |a| && i != k ==> a[i] == b[i] || (IsTagLine(a[i]) && IsTagLine(b[i]))
  }

  lemma SameHeader(settings: Settings, s: string, t: string, a: seq<Image>, b: seq<Image>)
    requires QuotedNames(a) == QuotedNames(b)
    ensures SameExcept(Header(settings, s, a), Header(settings, t, b), SBOM_LINE)
  {
    hide Preamble, Quote, QuotedNames, IsTagLine;
  }

  ghost predicate NamesSbom(lines: seq<string>, target: string) {
    |lines| > SBOM_LINE && lines[SBOM_LINE] == "  default = " + Quote(target)
  }

  lemma ExceptAppendCut(h: seq<string>, g: seq<string>, c: seq<string>, d: seq<string>, k: nat)
    requires SameExcept(h, g, k) && k + 1 < |h| && SameButTagLines(c, d)
    ensures SameExcept(Cut(h + c), Cut(g + d), k)
    ensures |Cut(h + c)| > k && |Cut(g + d)| > k && Cut(h + c)[k] == h[k] && Cut(g + d)[k] == g[k]
  {
    hide IsTagLine;
  }

  lemma SameLines(settings: Settings, s: string, t: string, a: seq<Image>, b: seq<Image>, c: seq<string>, d: seq<string>)
    requires QuotedNames(a) == QuotedNames(b) && SameButTagLines(c, d)
    ensures SameExcept(AllLines(settings, s, a, c), AllLines(settings, t, b, d), SBOM_LINE)
    ensures NamesSbom(AllLines(settings, s, a, c), s) && NamesSbom(AllLines(settings, t, b, d), t)
  {
    hide Header, Quote, SameExcept, SameButTagLines, QuotedNames;
    SameHeader(settings, s, t, a, b);
    HeaderAt(settings, s, a);
    HeaderAt(settings, t, b);
    ExceptAppendCut(Header(settings, s, a), Header(settings, t, b), c, d, SBOM_LINE);
  }

  /**
   Two documents that differ in build targets only: the texts agree outside tag lines except where the header
   names the SBOM generator's target.
   */
  lemma RenderRetargeted(settings: Settings, a: seq<Image>, b: seq<Image>)
    requires Retargeted(a, b) && Render(settings, a).Some? && Render(settings, b).Some?
    ensures Sbom(a).Some? && Sbom(b).Some?
    ensures SameExcept(Render(settings, a).value, Render(settings, b).value, SBOM_LINE)
    ensures NamesSbom(Render(settings, a).value, Sbom(a).value.target)
    ensures NamesSbom(Render(settings, b).value, Sbom(b).value.target)
  {
    hide Blocks, Builds, OperatorBuilder, Sbom, AllLines, QuotedNames, SameExcept, SameButTagLines, NamesSbom;
    SameFinds(a, b);
    BuildsRetargeted(a, b);
    SameBlocks(Builds(a), Builds(b), OperatorBuilder(a));
    SameLines(settings, Sbom(a).value.target, Sbom(b).value.target, Builds(a), Builds(b),
              Blocks(Builds(a), OperatorBuilder(a)).value, Blocks(Builds(b), OperatorBuilder(a)).value);
  }

  /** Rendering itself does not depend on build targets, unless the SBOM generator's own is empty. */
  lemma RendersAlike(settings: Settings, a: seq<Image>, b: seq<Image>)
    requires Retargeted(a, b) && Render(settings, a).Some? && Sbom(b).Some? && Sbom(b).value.target != ""
    ensures Render(settings, b).Some?
  {
    hide Blocks, Builds, OperatorBuilder, Sbom, AllLines, QuotedNames, SameButTagLines;
    SameFinds(a, b);
    BuildsRetargeted(a, b);
    SameBlocks(Builds(a), Builds(b), OperatorBuilder(a));
  }

  // -------------------------------------------------------------- the shape of the text

  /** An ordinary line or a tag line. */
  ghost predicate Tame(line: string) {
    Ordinary(line) || IsTagLine(line)
  }

  ghost predicate AllTame(lines: seq<string>) {
    forall i :: 0 <= i < |lines| ==> Tame(lines[i])
  }

  lemma BlockTame(image: Image, recipe: Recipe)
    requires '\n' !in image.bakeTarget && NamesOneLine(recipe.contexts)
    ensures AllTame(Block(image, recipe))
  {
    AboveIndented(image, recipe);
    BelowIndented(image, recipe);
    OpeningLine(image.bakeTarget);
    assert IsTagLine(TagLine(image.target));
    assert Ordinary("}") && Ordinary("");
    hide Above, Below, Opening, TagLine, Ordinary, IsTagLine;
  }

  lemma {:induction false} BlocksTame(builds: seq<Image>, operatorBuilder: string)
    requires Blocks(builds, operatorBuilder).Some? && NamesPlain(builds)
    ensures AllTame(Blocks(builds, operatorBuilder).value)
    decreases |builds|
  {
    hide RecipeOf, Block, Tame;
    if builds != [] {
      var last := builds[|builds| - 1];
      BlocksTame(builds[..|builds| - 1], operatorBuilder);
      RecipeNames(last, operatorBuilder);
      BlockTame(last, RecipeOf(last, operatorBuilder).value);
    }
  }

  lemma RenderTame(settings: Settings, images: seq<Image>)
    requires NamesPlain(Builds(images)) && Render(settings, images).Some?
    ensures AllTame(Render(settings, images).value)
  {
    hide Blocks, Builds, OperatorBuilder, Sbom, Header, AllTame, AllOrdinary, NamesPlain;
    var builds, sbomTarget := Builds(images), Sbom(images).value.target;
    HeaderOrdinary(settings, sbomTarget, builds);
    BlocksTame(builds, OperatorBuilder(images));
    TameAppendCut(Header(settings, sbomTarget, builds), Blocks(builds, OperatorBuilder(images)).value);
  }

  lemma TameAppendCut(header: seq<string>, blocks: seq<string>)
    requires AllOrdinary(header) && AllTame(blocks) && header != []
    ensures AllTame(Cut(header + blocks))
  {
    hide Ordinary, IsTagLine;
  }
}
