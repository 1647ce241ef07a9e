/** What the rendered build graph says of each Bake target: Dockerfile, stage, named contexts and arguments. */
module GraphContents {
  import opened BuildGraphText
  import opened Outcomes
  import Text

  /** The rest of the first line that begins this way. */
  function ValueOf(lines: seq<string>, start: string): Option<string> {
    if lines == [] then None
    else if start <= lines[0] then Some(lines[0][|start|..])
    else ValueOf(lines[1..], start)
  }

  lemma {:induction false} ValueSkips(lines: seq<string>, rest: seq<string>, start: string)
    requires forall i :: 0 <= i < |lines| ==> !(start <= lines[i])
    ensures ValueOf(lines + rest, start) == ValueOf(rest, start)
    decreases |lines|
  {
    if lines == [] {
      assert lines + rest == rest;
    } else {
      assert (lines + rest)[1..] == lines[1..] + rest;
      ValueSkips(lines[1..], rest, start);
    }
  }

  lemma ValueHere(start: string, text: string, rest: seq<string>)
    ensures ValueOf([start + text] + rest, start) == Some(text)
  {
    assert (start + text)[|start|..] == text && (start + text)[..|start|] == start;
  }

  lemma DiffersAt(line: string, start: string, k: nat)
    requires k < |line| && k < |start| && line[k] != start[k]
    ensures !(start <= line)
  {
  }

  // ------------------------------------------------------------------- entries of a map

  /** How the entry of a map begins. */
  function EntryStart(name: string): string {
    "    " + (name + " = ")
  }

  predicate OneWord(name: string) { ' ' !in name }

  /** An entry begins as its own name says, and as no other. */
  lemma EntryBegins(name: string, value: string, key: string)
    requires OneWord(name) && OneWord(key)
    ensures EntryStart(key) <= NamedLine(name, value) <==> key == name
    ensures NamedLine(name, value) == EntryStart(name) + value
  {
    var line, start := NamedLine(name, value), EntryStart(key);
    EntryIs(name, value);
    hide NamedLine, OneWord;
    if key == name {
      assert line[..|start|] == start;
    }
    if start <= line {
      var tail := line[|start|..];
      assert line == start + tail;
      EntryNamed(name, value, key, tail);
    }
  }

  lemma EntryIs(name: string, value: string)
    ensures NamedLine(name, value) == EntryStart(name) + value
  {
  }

  lemma EntryNamed(name: string, value: string, key: string, tail: string)
    requires OneWord(name) && OneWord(key) && EntryStart(name) + value == EntryStart(key) + tail
    ensures key == name
  {
    EntryFrom(name, value);
    EntryFrom(key, tail);
    hide EntryStart;
    Text.CutSplits(name, "= " + value, key, "= " + tail, ' ');
  }

  lemma EntryFrom(name: string, value: string)
    ensures (EntryStart(name) + value)[4..] == name + ([' '] + ("= " + value))
  {
  }

  /** A line of the block itself, not of a map in it. */
  predicate Shallow(line: string) { |line| > 2 && line[2] != ' ' }

  lemma ShallowIsNoEntry(line: string, key: string)
    requires Shallow(line)
    ensures !(EntryStart(key) <= line)
  {
    assert EntryStart(key)[2] == ' ';
    DiffersAt(line, EntryStart(key), 2);
  }

  lemma ShallowSkips(lines: seq<string>, rest: seq<string>, key: string)
    requires forall i :: 0 <= i < |lines| ==> Shallow(lines[i])
    ensures ValueOf(lines + rest, EntryStart(key)) == ValueOf(rest, EntryStart(key))
  {
    forall i | 0 <= i < |lines| ensures !(EntryStart(key) <= lines[i]) {
      ShallowIsNoEntry(lines[i], key);
    }
    hide Shallow, EntryStart;
    ValueSkips(lines, rest, EntryStart(key));
  }

  lemma EntryValue(name: string, value: string, rest: seq<string>, key: string)
    requires OneWord(name) && OneWord(key)
    ensures ValueOf([NamedLine(name, value)] + rest, EntryStart(key)) ==
            if key == name then Some(value) else ValueOf(rest, EntryStart(key))
  {
    EntryBegins(name, value, key);
    hide NamedLine, EntryStart;
    if key == name {
      ValueHere(EntryStart(name), value, rest);
    } else {
      ValueSkips([NamedLine(name, value)], rest, EntryStart(key));
    }
  }

  // ---------------------------------------------------------------------- the two maps

  predicate Distinct(contexts: seq<(string, string)>) {
    && (forall i :: 0 <= i < |contexts| ==> OneWord(contexts[i].0))
    && forall i, j :: 0 <= i < j < |contexts| ==> contexts[i].0 != contexts[j].0
  }

  lemma {:induction false} ContextValue(contexts: seq<(string, string)>, rest: seq<string>, key: string)
    requires Distinct(contexts) && OneWord(key)
    ensures (forall i :: 0 <= i < |contexts| ==> contexts[i].0 != key) ==>
              ValueOf(ContextLines(contexts) + rest, EntryStart(key)) == ValueOf(rest, EntryStart(key))
    ensures forall i :: 0 <= i < |contexts| && contexts[i].0 == key ==>
              ValueOf(ContextLines(contexts) + rest, EntryStart(key)) == Some(Quote(contexts[i].1))
    decreases |contexts|
  {
    hide Quote, NamedLine, EntryStart, OneWord;
    if contexts == [] {
      assert ContextLines(contexts) + rest == rest;
    } else {
      var tail := contexts[1..];
      assert ContextLines(contexts) + rest == [ContextLines(contexts)[0]] + (ContextLines(tail) + rest);
      EntryValue(contexts[0].0, Quote(contexts[0].1), ContextLines(tail) + rest, key);
      ContextValue(tail, rest, key);
      forall i | 0 < i < |contexts| && contexts[i].0 == key
        ensures ValueOf(ContextLines(contexts) + rest, EntryStart(key)) == Some(Quote(contexts[i].1))
      {
        assert tail[i - 1] == contexts[i];
      }
    }
  }

  const LICENSE := "ATUM_IMAGE_LICENSE"
  const REVISION := "ATUM_IMAGE_REVISION"
  const SOURCE := "ATUM_IMAGE_SOURCE"
  const VERSION := "ATUM_IMAGE_VERSION"

  lemma ArgumentNames()
    ensures OneWord(LICENSE) && OneWord(REVISION) && OneWord(SOURCE) && OneWord(VERSION)
    ensures LICENSE[11] == 'L' && REVISION[11] == 'R' && SOURCE[11] == 'S' && VERSION[11] == 'V'
  {
  }

  /** The arguments of a build, by name. */
  function Argument(image: Image, key: string): Option<string> {
    if key == LICENSE then Some(image.license)
    else if key == SOURCE then Some(image.provenance)
    else if key == VERSION then Some(image.version)
    else if key == REVISION && image.bakeTarget == "grafana-plugins" then Some(image.contract)
    else None
  }

  lemma ArgValue(image: Image, rest: seq<string>, key: string)
    requires OneWord(key)
    ensures ValueOf(ArgLines(image) + rest, EntryStart(key)) ==
            match Argument(image, key) case Some(v) => Some(Quote(v)) case None => ValueOf(rest, EntryStart(key))
  {
    ArgumentNames();
    assert Shallow("  args = {") && Shallow("  }");
    hide Quote, NamedLine, EntryStart, OneWord, Shallow, LICENSE, REVISION, SOURCE, VERSION;
    var license, source, version := NamedLine(LICENSE, Quote(image.license)), NamedLine(SOURCE, Quote(image.provenance)),
                                    NamedLine(VERSION, Quote(image.version));
    var revision := if image.bakeTarget == "grafana-plugins" then [NamedLine(REVISION, Quote(image.contract))] else [];
    var last := ["  }"] + rest;
    ArgShape(image, license, revision, source, version, rest);
    ShallowSkips(["  args = {"], [license] + (revision + ([source] + ([version] + last))), key);
    EntryValue(LICENSE, Quote(image.license), revision + ([source] + ([version] + last)), key);
    if revision != [] {
      EntryValue(REVISION, Quote(image.contract), [source] + ([version] + last), key);
    } else {
      assert revision + ([source] + ([version] + last)) == [source] + ([version] + last);
    }
    EntryValue(SOURCE, Quote(image.provenance), [version] + last, key);
    EntryValue(VERSION, Quote(image.version), last, key);
    ShallowSkips(["  }"], rest, key);
  }

  lemma ArgShape(image: Image, license: string, revision: seq<string>, source: string, version: string, rest: seq<string>)
    requires license == NamedLine(LICENSE, Quote(image.license)) && source == NamedLine(SOURCE, Quote(image.provenance))
    requires version == NamedLine(VERSION, Quote(image.version))
    requires revision == if image.bakeTarget == "grafana-plugins" then [NamedLine(REVISION, Quote(image.contract))] else []
    ensures ArgLines(image) + rest ==
            ["  args = {"] + ([license] + (revision + ([source] + ([version] + (["  }"] + rest)))))
  {
    hide Quote, NamedLine;
  }

  // ------------------------------------------------------------------------ the body

  lemma CacheShallow(name: string)
    ensures forall i :: 0 <= i < |CacheLines(name)| ==> Shallow(CacheLines(name)[i])
  {
  }

  lemma AboveShallow(image: Image, recipe: Recipe)
    ensures forall i :: 0 <= i < |Above(image, recipe)| ==> Shallow(Above(image, recipe)[i])
    ensures Shallow(TagLine(image.target))
  {
    hide Quote;
  }

  /** What is under a name behind the tag: a named context, or an argument. */
  lemma BelowEntry(image: Image, recipe: Recipe, key: string)
    requires Distinct(recipe.contexts) && OneWord(key)
    ensures Told(image, recipe, key, ValueOf(Below(image, recipe), EntryStart(key)))
  {
    CacheShallow(image.bakeTarget);
    assert Shallow("  contexts = {") && Shallow("  }");
    hide Quote, ContextLines, ArgLines, CacheLines, Argument, EntryStart, Shallow, OneWord;
    var cache := CacheLines(image.bakeTarget);
    var args := ArgLines(image) + cache;
    ShallowSkips(cache, [], key);
    assert cache + [] == cache;
    ArgValue(image, cache, key);
    if recipe.contexts == [] {
      assert Below(image, recipe) == args;
    } else {
      var tail := ["  }"] + args;
      assert Below(image, recipe) == ["  contexts = {"] + (ContextLines(recipe.contexts) + tail);
      ShallowSkips(["  contexts = {"], ContextLines(recipe.contexts) + tail, key);
      ContextValue(recipe.contexts, tail, key);
      ShallowSkips(["  }"], args, key);
    }
  }

  /** The value is the source of the context of that name or, if there is none, the argument of that name, if any. */
  predicate Told(image: Image, recipe: Recipe, key: string, value: Option<string>) {
    && (forall i :: 0 <= i < |recipe.contexts| && recipe.contexts[i].0 == key ==> value == Some(Quote(recipe.contexts[i].1)))
    && ((forall i :: 0 <= i < |recipe.contexts| ==> recipe.contexts[i].0 != key) ==>
          value == match Argument(image, key) case Some(v) => Some(Quote(v)) case None => None)
  }

  lemma BodyEntry(image: Image, recipe: Recipe, key: string)
    requires Distinct(recipe.contexts) && OneWord(key)
    ensures Told(image, recipe, key, ValueOf(Body(image, recipe), EntryStart(key)))
  {
    AboveShallow(image, recipe);
    hide Above, Below, TagLine, Told, EntryStart, Shallow, OneWord, Distinct;
    BelowEntry(image, recipe, key);
    ShallowSkips(Above(image, recipe), [TagLine(image.target)] + Below(image, recipe), key);
    ShallowSkips([TagLine(image.target)], Below(image, recipe), key);
  }

  const DOCKERFILE := "  dockerfile = "
  const STAGE := "  target     = "

  lemma BodyHead(image: Image, recipe: Recipe)
    ensures ValueOf(Body(image, recipe), DOCKERFILE) ==
            Some(Quote(if image.firstParty then "docker/Dockerfile.operator" else "docker/Dockerfile.delivery"))
    ensures ValueOf(Body(image, recipe), STAGE) == Some(Quote(recipe.stage))
  {
    var file := Quote(if image.firstParty then "docker/Dockerfile.operator" else "docker/Dockerfile.delivery");
    hide Quote, Below, TagLine;
    var inherits := "  inherits   = " + "[\"_attested\"]";
    var rest := [TagLine(image.target)] + Below(image, recipe);
    var stage := [STAGE + Quote(recipe.stage)] + rest;
    assert Body(image, recipe) == [inherits] + ([DOCKERFILE + file] + stage);
    assert inherits[2] == 'i' && DOCKERFILE[2] == 'd' && STAGE[2] == 't';
    DiffersAt(inherits, DOCKERFILE, 2);
    DiffersAt(inherits, STAGE, 2);
    DiffersAt(DOCKERFILE + file, STAGE, 2);
    ValueSkips([inherits], [DOCKERFILE + file] + stage, DOCKERFILE);
    ValueSkips([inherits], [DOCKERFILE + file] + stage, STAGE);
    ValueHere(DOCKERFILE, file, stage);
    ValueSkips([DOCKERFILE + file], stage, STAGE);
    ValueHere(STAGE, Quote(recipe.stage), rest);
  }

  // ------------------------------------------------------------------------- recipes

  /** Every image a compatibility build is made from is declared among its materials; the operator's comes from its mirror. */
  lemma ContextsAreDeclared(image: Image, operatorBuilder: string, i: nat)
    requires RecipeOf(image, operatorBuilder).Some? && i < |RecipeOf(image, operatorBuilder).value.contexts|
    ensures var source := RecipeOf(image, operatorBuilder).value.contexts[i].1;
            if image.firstParty then source == "../.." || source == "docker-image://" + operatorBuilder
            else exists m :: m in image.materials && source == "docker-image://" + m
  {
    hide Text.Contains, HasPrefix, HasSuffix, MaterialWithPrefix;
    if !image.firstParty {
      assert image.official in image.materials;
      var curl := MaterialWithPrefix(image.materials, "docker.io/curlimages/curl@sha256:");
      if curl.Some? {
        MaterialFound(image.materials, "docker.io/curlimages/curl@sha256:");
        assert curl.value in image.materials;
      }
    }
  }

  lemma {:induction false} MaterialFound(materials: seq<string>, prefix: string)
    requires MaterialWithPrefix(materials, prefix).Some?
    ensures var m := MaterialWithPrefix(materials, prefix).value; m in materials && prefix <= m
    decreases |materials|
  {
    if !(prefix <= materials[0]) {
      MaterialFound(materials[1..], prefix);
      assert materials == [materials[0]] + materials[1..];
    }
  }

  lemma ContextsAreDistinct(image: Image, operatorBuilder: string)
    requires RecipeOf(image, operatorBuilder).Some?
    ensures Distinct(RecipeOf(image, operatorBuilder).value.contexts)
  {
    ContextNames();
    hide Text.Contains, HasPrefix, HasSuffix, MaterialWithPrefix, OneWord;
  }

  /** The names of a recipe's contexts stand in order, as the keys of a sorted map. */
  lemma ContextsAreSorted(image: Image, operatorBuilder: string, i: nat, j: nat)
    requires RecipeOf(image, operatorBuilder).Some? && i < j < |RecipeOf(image, operatorBuilder).value.contexts|
    ensures var contexts := RecipeOf(image, operatorBuilder).value.contexts; Text.Less(contexts[i].0, contexts[j].0)
  {
    hide Text.Contains, HasPrefix, HasSuffix, MaterialWithPrefix, Text.Less;
    SourceIsLast();
    VaultIsLast();
  }

  lemma SourceIsLast()
    ensures Text.Less("atum_go_upstream", "atum_source")
  {
    var a, b := "atum_go_upstream", "atum_source";
    assert a[0] == b[0] && a[1] == b[1] && a[2] == b[2] && a[3] == b[3] && a[4] == b[4] && a[5] == 'g' && b[5] == 's';
    LessAt(a, b, 5);
  }

  lemma VaultIsLast()
    ensures Text.Less("atum_curl_upstream", "atum_vault_upstream")
  {
    var a, b := "atum_curl_upstream", "atum_vault_upstream";
    assert a[0] == b[0] && a[1] == b[1] && a[2] == b[2] && a[3] == b[3] && a[4] == b[4] && a[5] == 'c' && b[5] == 'v';
    LessAt(a, b, 5);
  }

  /** The first place where two texts differ decides. */
  lemma {:induction false} LessAt(a: string, b: string, n: nat)
    requires n < |a| && n < |b| && a[n] < b[n] && forall k :: 0 <= k < n ==> a[k] == b[k]
    ensures Text.Less(a, b)
    decreases n
  {
    if n > 0 {
      LessAt(a[1..], b[1..], n - 1);
    }
  }

  /** What a build cannot do without: the operator its builder and its sources, another build its upstream image. */
  lemma ContextsAreGiven(image: Image, operatorBuilder: string)
    requires RecipeOf(image, operatorBuilder).Some?
    ensures var contexts := RecipeOf(image, operatorBuilder).value.contexts;
            if image.firstParty then
              ("atum_go_upstream", "docker-image://" + operatorBuilder) in contexts && ("atum_source", "../..") in contexts
            else
              image.bakeTarget == "garage-init-helper" || exists c :: c in contexts && c.1 == "docker-image://" + image.official
  {
    hide Text.Contains, HasPrefix, HasSuffix, MaterialWithPrefix;
    var contexts := RecipeOf(image, operatorBuilder).value.contexts;
    if image.firstParty {
      assert contexts[0] in contexts && contexts[1] in contexts;
    } else if image.bakeTarget != "garage-init-helper" {
      assert contexts[|contexts| - 1] in contexts && contexts[|contexts| - 1].1 == "docker-image://" + image.official;
    }
  }

  /** The 64 lower-case hexadecimal digits of a hash, not all of them zero. */
  predicate Known(hex: string) {
    && |hex| == 64 && (exists k :: 0 <= k < 64 && hex[k] != '0')
    && forall k :: 0 <= k < 64 ==> '0' <= hex[k] <= '9' || 'a' <= hex[k] <= 'f'
  }

  /** A mirror of the operator's builder, pinned by a digest that is not the placeholder of zeros. */
  ghost predicate PinnedBuilder(image: Image) {
    && image.id == "operator-builder" && image.kind.Mirror? && image.source != ""
    && exists hex :: image.digest == "sha256:" + hex && Known(hex)
  }

  lemma ResolvedMeans(image: Image)
    ensures PinnedBuilder(image) <==>
            image.id == "operator-builder" && image.kind.Mirror? && image.source != "" && Resolved(image.digest)
  {
    if Resolved(image.digest) {
      var hex := image.digest[7..];
      assert image.digest == "sha256:" + hex;
      var i :| 7 <= i < 71 && image.digest[i] != '0';
      assert hex[i - 7] == image.digest[i];
    }
    if hex :| image.digest == "sha256:" + hex && Known(hex) {
      assert forall i :: 7 <= i < 71 ==> image.digest[i] == hex[i - 7];
      var k :| 0 <= k < 64 && hex[k] != '0';
      assert image.digest[k + 7] != '0';
    }
  }

  /** The operator is built by the first pinned mirror of its builder, and by nothing if there is none. */
  lemma {:induction false} OperatorBuilderIs(images: seq<Image>)
    ensures OperatorBuilder(images) == "" <==> forall i :: 0 <= i < |images| ==> !PinnedBuilder(images[i])
    ensures OperatorBuilder(images) != "" ==>
              exists k :: 0 <= k < |images| && PinnedBuilder(images[k]) && (forall i :: 0 <= i < k ==> !PinnedBuilder(images[i]))
                && OperatorBuilder(images) == images[k].source + "@" + images[k].digest
    decreases |images|
  {
    if images != [] {
      ResolvedMeans(images[0]);
      hide PinnedBuilder, Resolved;
      var rest := images[1..];
      OperatorBuilderIs(rest);
      if PinnedBuilder(images[0]) {
        assert images[0].source + "@" + images[0].digest != "";
      } else {
        assert forall i :: 0 < i < |images| ==> images[i] == rest[i - 1];
        if OperatorBuilder(rest) != "" {
          var k :| 0 <= k < |rest| && PinnedBuilder(rest[k]) && (forall i :: 0 <= i < k ==> !PinnedBuilder(rest[i]))
            && OperatorBuilder(rest) == rest[k].source + "@" + rest[k].digest;
          assert images[k + 1] == rest[k];
        }
      }
    }
  }

  lemma ContextNames()
    ensures OneWord("atum_go_upstream") && OneWord("atum_source") && OneWord("atum_curl_upstream")
    ensures OneWord("atum_vault_upstream") && OneWord("atum_grafana_upstream") && OneWord("atum_kubectl_upstream")
    ensures OneWord("atum_postgresql_upstream")
  {
    hide OneWord;
    OwnNames();
    UpstreamNames();
  }

  lemma OwnNames()
    ensures OneWord("atum_go_upstream") && OneWord("atum_source") && OneWord("atum_curl_upstream")
    ensures OneWord("atum_vault_upstream")
  {
  }

  lemma UpstreamNames()
    ensures OneWord("atum_grafana_upstream") && OneWord("atum_kubectl_upstream") && OneWord("atum_postgresql_upstream")
  {
  }

  // ---------------------------------------------------------------------- main result

  lemma {:induction false} BodiesNamedNone(builds: seq<Image>, operatorBuilder: string, name: string)
    requires forall i :: 0 <= i < |builds| ==> builds[i].bakeTarget != name
    ensures BodiesNamed(builds, operatorBuilder, name) == []
    decreases |builds|
  {
    if builds != [] {
      BodiesNamedNone(builds[..|builds| - 1], operatorBuilder, name);
    }
  }

  lemma {:induction false} BodiesNamedOnce(builds: seq<Image>, operatorBuilder: string, k: nat)
    requires k < |builds| && RecipeOf(builds[k], operatorBuilder).Some?
    requires forall i :: 0 <= i < |builds| && i != k ==> builds[i].bakeTarget != builds[k].bakeTarget
    ensures BodiesNamed(builds, operatorBuilder, builds[k].bakeTarget) ==
            Body(builds[k], RecipeOf(builds[k], operatorBuilder).value)
    decreases |builds|
  {
    hide RecipeOf, Body;
    var n := |builds| - 1;
    if k == n {
      BodiesNamedNone(builds[..n], operatorBuilder, builds[n].bakeTarget);
    } else {
      BodiesNamedOnce(builds[..n], operatorBuilder, k);
    }
  }

  /**
   The graph says of each build what the document says: under its Bake target's name stand its Dockerfile, the stage of
   its recipe, the recipe's named contexts and the build's own arguments, and under no other name of a map anything.
   */
  lemma GraphSays(settings: Settings, images: seq<Image>, k: nat, key: string)
    requires Render(settings, images).Some? && NamesPlain(Builds(images)) && k < |Builds(images)| && OneWord(key)
    requires forall i :: 0 <= i < |Builds(images)| && i != k ==> Builds(images)[i].bakeTarget != Builds(images)[k].bakeTarget
    ensures RecipeOf(Builds(images)[k], OperatorBuilder(images)).Some?
    ensures var image := Builds(images)[k];
            var recipe := RecipeOf(image, OperatorBuilder(images)).value;
            var section := Section(Render(settings, images).value, Opening(image.bakeTarget), false);
            && ValueOf(section, DOCKERFILE) ==
               Some(Quote(if image.firstParty then "docker/Dockerfile.operator" else "docker/Dockerfile.delivery"))
            && ValueOf(section, STAGE) == Some(Quote(recipe.stage))
            && Told(image, recipe, key, ValueOf(section, EntryStart(key)))
  {
    hide Render, Builds, OperatorBuilder, RecipeOf, Section, Body, NamesPlain, Told, Distinct, OneWord, Opening, Quote,
      BodiesNamed, Blocks;
    var image := Builds(images)[k];
    RenderHasBlocks(settings, images);
    BuildHasRecipe(Builds(images), OperatorBuilder(images), k);
    var recipe := RecipeOf(image, OperatorBuilder(images)).value;
    RecipeName(image, OperatorBuilder(images));
    RenderedSection(settings, images, image.bakeTarget);
    BodiesNamedOnce(Builds(images), OperatorBuilder(images), k);
    ContextsAreDistinct(image, OperatorBuilder(images));
    BodyHead(image, recipe);
    BodyEntry(image, recipe, key);
  }

  // ----------------------------------------------------------------------- variables

  function VariableOpen(name: string): string { "variable " + Quote(name) + " {" }

  function VariablesText(variables: seq<(string, string)>): seq<string> {
    if variables == [] then [] else Variable(variables[0].0, variables[0].1) + VariablesText(variables[1..])
  }

  /** The variables of the graph, in their order. */
  function Variables(settings: Settings, sbomTarget: string): seq<(string, string)> {
    [("ATUM_CACHE_REGISTRY", TrimSlash(settings.registry) + "/buildkit"),
     ("ATUM_BOOTSTRAP_OUTPUT", "type=registry,oci-mediatypes=true,rewrite-timestamp=true"),
     ("ATUM_DEBIAN_IMAGE", settings.buildBase), ("ATUM_PLATFORM", settings.platform),
     ("ATUM_SBOM_GENERATOR_IMAGE", sbomTarget), ("SOURCE_DATE_EPOCH", "0")]
  }

  lemma HeaderVariables(settings: Settings, sbomTarget: string, builds: seq<Image>)
    ensures Header(settings, sbomTarget, builds) ==
            VariablesText(Variables(settings, sbomTarget)) + (Group(builds) + Shared())
  {
    hide Variable, Group, Shared, TrimSlash;
    var v := Variables(settings, sbomTarget);
    assert v[1..][1..] == v[2..] && v[2..][1..] == v[3..] && v[3..][1..] == v[4..] && v[4..][1..] == v[5..];
    assert v[5..][1..] == [];
    assert VariablesText(v[5..]) == Variable(v[5].0, v[5].1) + VariablesText([]);
    assert VariablesText(v[4..]) == Variable(v[4].0, v[4].1) + VariablesText(v[5..]);
    assert VariablesText(v[3..]) == Variable(v[3].0, v[3].1) + VariablesText(v[4..]);
    assert VariablesText(v[2..]) == Variable(v[2].0, v[2].1) + VariablesText(v[3..]);
    assert VariablesText(v[1..]) == Variable(v[1].0, v[1].1) + VariablesText(v[2..]);
    assert VariablesText(v) == Variable(v[0].0, v[0].1) + VariablesText(v[1..]);
  }

  lemma VariableOpenInjective(a: string, b: string)
    requires VariableOpen(a) == VariableOpen(b)
    ensures a == b
  {
    hide Quote;
    assert Quote(a) == VariableOpen(a)[9..|VariableOpen(a)| - 2] && Quote(b) == VariableOpen(b)[9..|VariableOpen(b)| - 2];
    QuoteInjective(a, b);
  }

  lemma VariableShape(name: string, value: string)
    ensures Variable(name, value) == [VariableOpen(name)] + ["  default = " + Quote(value)] + ["}", ""]
    ensures "  default = " + Quote(value) != "}" && |VariableOpen(name)| > 1
    ensures forall other :: other != name ==> VariableOpen(other) !in Variable(name, value)
  {
    hide Quote;
    forall other | other != name ensures VariableOpen(other) !in Variable(name, value) {
      if VariableOpen(other) == VariableOpen(name) {
        VariableOpenInjective(other, name);
      }
      assert VariableOpen(other)[0] == 'v' && ("  default = " + Quote(value))[0] == ' ';
    }
  }

  predicate Unlike(lines: seq<string>, c: char) {
    forall i :: 0 <= i < |lines| ==> lines[i] == "" || lines[i][0] != c
  }

  lemma {:induction false} VariableSections(variables: seq<(string, string)>, rest: seq<string>, k: nat)
    requires k < |variables| && Unlike(rest, 'v')
    requires forall i :: 0 <= i < |variables| && i != k ==> variables[i].0 != variables[k].0
    ensures Section(VariablesText(variables) + rest, VariableOpen(variables[k].0), false) ==
            ["  default = " + Quote(variables[k].1)]
    decreases |variables|
  {
    var open := VariableOpen(variables[k].0);
    assert open[0] == 'v';
    hide Section, Quote, Variable, VariableOpen;
    var first, tail := Variable(variables[0].0, variables[0].1), VariablesText(variables[1..]) + rest;
    assert VariablesText(variables) + rest == first + tail;
    VariableShape(variables[0].0, variables[0].1);
    if k == 0 {
      VariablesElsewhere(variables[1..], rest, variables[0].0);
      SectionOwn(open, ["  default = " + Quote(variables[0].1)], tail);
    } else {
      SectionSkips(first, tail, open);
      VariableSections(variables[1..], rest, k - 1);
    }
  }

  lemma {:induction false} VariablesElsewhere(variables: seq<(string, string)>, rest: seq<string>, name: string)
    requires Unlike(rest, 'v') && forall i :: 0 <= i < |variables| ==> variables[i].0 != name
    ensures Section(VariablesText(variables) + rest, VariableOpen(name), false) == []
    decreases |variables|
  {
    var open := VariableOpen(name);
    assert open[0] == 'v';
    hide Section, Quote, Variable, VariableOpen;
    if variables == [] {
      assert VariablesText(variables) + rest == rest && rest + [] == rest;
      assert open !in rest;
      SectionSkips(rest, [], open);
      SectionNothing(open);
    } else {
      var first, tail := Variable(variables[0].0, variables[0].1), VariablesText(variables[1..]) + rest;
      assert VariablesText(variables) + rest == first + tail;
      VariableShape(variables[0].0, variables[0].1);
      SectionSkips(first, tail, open);
      VariablesElsewhere(variables[1..], rest, name);
    }
  }

  lemma IndentedUnlike(lines: seq<string>, c: char)
    requires Indented(lines) && c != ' '
    ensures Unlike(lines, c)
  {
    hide Ordinary;
  }

  /** No line of a target begins so. */
  predicate Foreign(c: char) { c != ' ' && c != 't' && c != '}' }

  lemma BlockUnlike(image: Image, recipe: Recipe, c: char)
    requires '\n' !in image.bakeTarget && NamesOneLine(recipe.contexts) && Foreign(c)
    ensures Unlike(Block(image, recipe), c)
  {
    AboveIndented(image, recipe);
    BelowIndented(image, recipe);
    OpeningLine(image.bakeTarget);
    TagLineStart(image.target);
    hide Above, Below, Opening, TagLine, Indented;
    IndentedUnlike(Above(image, recipe), c);
    IndentedUnlike(Below(image, recipe), c);
  }

  lemma {:induction false} BlocksUnlike(builds: seq<Image>, operatorBuilder: string, c: char)
    requires Blocks(builds, operatorBuilder).Some? && NamesPlain(builds) && Foreign(c)
    ensures Unlike(Blocks(builds, operatorBuilder).value, c)
    decreases |builds|
  {
    hide RecipeOf, Block, Unlike;
    if builds == [] {
      NothingUnlike(c);
    } else {
      var front, last := builds[..|builds| - 1], builds[|builds| - 1];
      var recipe := RecipeOf(last, operatorBuilder).value;
      RecipeNames(last, operatorBuilder);
      BlockUnlike(last, recipe, c);
      BlocksUnlike(front, operatorBuilder, c);
      UnlikeAppend(Blocks(front, operatorBuilder).value, Block(last, recipe), c);
    }
  }

  lemma NothingUnlike(c: char)
    ensures Unlike([], c)
  {
  }

  lemma UnlikeAppend(a: seq<string>, b: seq<string>, c: char)
    requires Unlike(a, c) && Unlike(b, c)
    ensures Unlike(a + b, c)
  {
  }

  lemma TargetUnlike(name: string, body: seq<string>, c: char)
    requires Indented(body) && Foreign(c)
    ensures Unlike(SharedTarget(name, body), c)
  {
    OpeningLine(name);
    IndentedUnlike(body, c);
    hide Opening, Indented;
  }

  lemma SharedUnlike(c: char)
    requires Foreign(c)
    ensures Unlike(Shared(), c)
  {
    CommonIndented();
    AttestationsIndented();
    hide CommonSettings, CommonArgs, CommonOutput, Attestations, SharedTarget, Indented, Unlike;
    TargetUnlike("_common", CommonSettings() + CommonArgs() + CommonOutput(), c);
    TargetUnlike("_attested", Attestations(), c);
    UnlikeAppend(SharedTarget("_common", CommonSettings() + CommonArgs() + CommonOutput()),
                 SharedTarget("_attested", Attestations()), c);
  }

  lemma GroupUnlike(builds: seq<Image>)
    ensures Unlike(Group(builds), 'v')
  {
    hide QuotedNames;
    assert ("  targets = [" + QuotedNames(builds) + "]")[0] == ' ';
  }

  /** A section of the whole text, seen as variables, the group, the shared targets and the blocks. */
  lemma FromParts(settings: Settings, sbomTarget: string, builds: seq<Image>, operatorBuilder: string, open: string)
    requires Blocks(builds, operatorBuilder).Some? && |open| > 1
    ensures var blocks := Blocks(builds, operatorBuilder).value;
            var v := Variables(settings, sbomTarget);
            Section(AllLines(settings, sbomTarget, builds, blocks), open, false) ==
            Section(VariablesText(v) + (Group(builds) + (Shared() + blocks)), open, false)
  {
    hide Blocks, Section, Header, Variables, VariablesText, Group, Shared;
    HeaderVariables(settings, sbomTarget, builds);
    BlocksEndClosed(builds, operatorBuilder);
    HeaderEndsClosed(settings, sbomTarget, builds);
    var blocks := Blocks(builds, operatorBuilder).value;
    var all := Header(settings, sbomTarget, builds) + blocks;
    BlankCut(all, open);
    assert all == VariablesText(Variables(settings, sbomTarget)) + (Group(builds) + (Shared() + blocks));
  }

  lemma BlankCut(all: seq<string>, open: string)
    requires EndsClosed(all) && |open| > 1
    ensures Section(Cut(all), open, false) == Section(all, open, false)
  {
    hide Section;
    var front := all[..|all| - 2];
    assert all == front + ["}", ""] && Cut(all) == front + ["}"];
    SectionEnd(front, open, false);
  }

  /** The graph gives each of its variables the value that the document says. */
  lemma VariablesSay(settings: Settings, images: seq<Image>, k: nat)
    requires Render(settings, images).Some? && NamesPlain(Builds(images)) && k < 6
    ensures var v := Variables(settings, Sbom(images).value.target);
            Section(Render(settings, images).value, VariableOpen(v[k].0), false) == ["  default = " + Quote(v[k].1)]
  {
    hide Sbom, Builds, OperatorBuilder, Blocks, Section, AllLines, Quote, VariableOpen, NamesPlain, Variables, VariablesText,
      Unlike, Group, Shared;
    var sbom, builds := Sbom(images).value.target, Builds(images);
    RenderHasBlocks(settings, images);
    var blocks := Blocks(builds, OperatorBuilder(images)).value;
    var v := Variables(settings, sbom);
    VariableNames(settings, sbom, k);
    VariableShape(v[k].0, v[k].1);
    FromParts(settings, sbom, builds, OperatorBuilder(images), VariableOpen(v[k].0));
    GroupUnlike(builds);
    SharedUnlike('v');
    BlocksUnlike(builds, OperatorBuilder(images), 'v');
    UnlikeAppend(Shared(), blocks, 'v');
    UnlikeAppend(Group(builds), Shared() + blocks, 'v');
    VariableSections(v, Group(builds) + (Shared() + blocks), k);
  }

  // --------------------------------------------------------------- the default group

  const GROUP := "group \"default\" {"

  function Names(builds: seq<Image>): seq<string> {
    seq(|builds|, i requires 0 <= i < |builds| => Quote(builds[i].bakeTarget))
  }

  lemma {:induction false} NamesJoined(builds: seq<Image>)
    ensures QuotedNames(builds) == Text.Join(Names(builds), ", ")
    decreases |builds|
  {
    hide Quote;
    if |builds| > 1 {
      var front := builds[..|builds| - 1];
      NamesJoined(front);
      hide QuotedNames, Text.Join;
      assert Names(builds) == Names(front) + [Quote(builds[|builds| - 1].bakeTarget)];
      Text.JoinSnoc(Names(front), Quote(builds[|builds| - 1].bakeTarget), ", ");
      LastName(builds);
    }
  }

  lemma LastName(builds: seq<Image>)
    requires |builds| > 1
    ensures QuotedNames(builds) == QuotedNames(builds[..|builds| - 1]) + ", " + Quote(builds[|builds| - 1].bakeTarget)
  {
  }

  lemma {:induction false} VariablesUnlike(variables: seq<(string, string)>, c: char)
    requires c != ' ' && c != 'v' && c != '}'
    ensures Unlike(VariablesText(variables), c)
    decreases |variables|
  {
    if variables == [] {
      NothingUnlike(c);
    } else {
      VariablesUnlike(variables[1..], c);
      VariableShape(variables[0].0, variables[0].1);
      hide Quote, Variable;
      UnlikeAppend(Variable(variables[0].0, variables[0].1), VariablesText(variables[1..]), c);
    }
  }

  /** A bare `docker buildx bake` builds every build of the document, in Bake-target order, and nothing else. */
  lemma GroupSays(settings: Settings, images: seq<Image>)
    requires Render(settings, images).Some? && NamesPlain(Builds(images))
    ensures Section(Render(settings, images).value, GROUP, false) ==
            ["  targets = [" + Text.Join(Names(Builds(images)), ", ") + "]"]
  {
    hide Sbom, Builds, OperatorBuilder, Blocks, Section, AllLines, Quote, NamesPlain, Variables, VariablesText, Unlike, Shared,
      QuotedNames, Text.Join, Names, Group;
    var sbom, builds := Sbom(images).value.target, Builds(images);
    RenderHasBlocks(settings, images);
    var blocks := Blocks(builds, OperatorBuilder(images)).value;
    FromParts(settings, sbom, builds, OperatorBuilder(images), GROUP);
    VariablesUnlike(Variables(settings, sbom), 'g');
    SharedUnlike('g');
    BlocksUnlike(builds, OperatorBuilder(images), 'g');
    UnlikeAppend(Shared(), blocks, 'g');
    NamesJoined(builds);
    GroupIs(builds);
    GroupFound(VariablesText(Variables(settings, sbom)), "  targets = [" + QuotedNames(builds) + "]", Shared() + blocks);
  }

  lemma GroupIs(builds: seq<Image>)
    ensures Group(builds) == [GROUP] + ["  targets = [" + QuotedNames(builds) + "]"] + ["}", ""]
    ensures "  targets = [" + QuotedNames(builds) + "]" != "}"
  {
    hide QuotedNames;
  }

  lemma GroupFound(before: seq<string>, line: string, after: seq<string>)
    requires Unlike(before, 'g') && Unlike(after, 'g') && line != "}"
    ensures Section(before + ([GROUP] + [line] + ["}", ""] + after), GROUP, false) == [line]
  {
    hide Section;
    assert GROUP[0] == 'g' && GROUP !in before && GROUP !in after;
    SectionSkips(before, [GROUP] + [line] + ["}", ""] + after, GROUP);
    SectionOwn(GROUP, [line], after);
    assert after + [] == after;
    SectionSkips(after, [], GROUP);
    SectionNothing(GROUP);
  }

  lemma VariableNames(settings: Settings, sbomTarget: string, k: nat)
    requires k < 6
    ensures var v := Variables(settings, sbomTarget);
            |v| == 6 && forall i :: 0 <= i < 6 && i != k ==> v[i].0 != v[k].0
  {
    hide TrimSlash;
    assert |"ATUM_CACHE_REGISTRY"| == 19 && |"ATUM_BOOTSTRAP_OUTPUT"| == 21 && |"ATUM_DEBIAN_IMAGE"| == 17;
    assert |"ATUM_PLATFORM"| == 13 && |"ATUM_SBOM_GENERATOR_IMAGE"| == 25 && |"SOURCE_DATE_EPOCH"| == 17;
    assert "ATUM_DEBIAN_IMAGE"[0] == 'A' && "SOURCE_DATE_EPOCH"[0] == 'S';
  }
}
