/** What every build of the rendered graph has in common: its attestations, its output, and a cache of its own. */
module GraphAttested {
  import opened BuildGraphText
  import opened GraphContents
  import opened Outcomes

  // ------------------------------------------------------------------------ the cache

  const CACHE_FROM := "  cache-from = ["
  const CACHE_TO := "  cache-to   = ["

  predicate NoCache(line: string) {
    (|line| > 2 && line[2] != 'c') || (|line| > 3 && line[3] != 'a')
  }

  predicate NoneCached(lines: seq<string>) {
    forall i :: 0 <= i < |lines| ==> NoCache(lines[i])
  }

  lemma NoneFound(lines: seq<string>, rest: seq<string>)
    requires NoneCached(lines)
    ensures ValueOf(lines + rest, CACHE_FROM) == ValueOf(rest, CACHE_FROM)
    ensures ValueOf(lines + rest, CACHE_TO) == ValueOf(rest, CACHE_TO)
  {
    assert CACHE_FROM[2] == 'c' && CACHE_FROM[3] == 'a' && CACHE_TO[2] == 'c' && CACHE_TO[3] == 'a';
    forall i | 0 <= i < |lines| ensures !(CACHE_FROM <= lines[i]) && !(CACHE_TO <= lines[i]) {
      assert NoCache(lines[i]);
    }
    ValueSkips(lines, rest, CACHE_FROM);
    ValueSkips(lines, rest, CACHE_TO);
  }

  lemma HeadNotCached(image: Image, recipe: Recipe)
    ensures NoneCached(Above(image, recipe) + [TagLine(image.target)])
  {
    hide Quote;
  }

  lemma ContextsNotCached(contexts: seq<(string, string)>)
    ensures NoneCached(["  contexts = {"] + ContextLines(contexts) + ["  }"])
  {
    hide Quote;
    var lines := ContextLines(contexts);
    forall i | 0 <= i < |lines| ensures NoCache(lines[i]) {
      assert lines[i][2] == ' ';
    }
    assert NoCache("  contexts = {") && NoCache("  }");
    hide NoCache;
  }

  lemma ArgsNotCached(image: Image)
    ensures NoneCached(ArgLines(image))
  {
    hide Quote;
    assert NoCache("  args = {") && NoCache("  }");
    assert forall name, value :: NoCache(NamedLine(name, value)) by {
      forall name, value ensures NoCache(NamedLine(name, value)) {
        assert NamedLine(name, value)[2] == ' ';
      }
    }
    hide NoCache, NamedLine;
  }

  /** Where the layers of a build are cached: under the name of its Bake target. */
  function CacheOf(name: string): string {
    "\"type=registry,ref=" + "${ATUM_CACHE_REGISTRY}/" + name
  }

  const KEPT := ":cache,mode=max," + "image-manifest=true," + "oci-mediatypes=true\"]"

  lemma LinesCached(name: string)
    ensures ValueOf(CacheLines(name), CACHE_FROM) == Some(CacheOf(name) + ":cache\"]")
    ensures ValueOf(CacheLines(name), CACHE_TO) == Some(CacheOf(name) + KEPT)
  {
    var ref := CacheOf(name);
    assert REF_TYPE + REF_REGISTRY + name == ref;
    assert ref + CACHE_MODE + CACHE_FORMAT + CACHE_TYPES == ref + KEPT;
    hide CacheOf, KEPT, REF_TYPE, REF_REGISTRY, CACHE_MODE, CACHE_FORMAT, CACHE_TYPES;
    var first, second := CACHE_FROM + (ref + ":cache\"]"), CACHE_TO + (ref + KEPT);
    assert CacheLines(name) == [first] + [second] && [second] + [] == [second];
    assert first[8] == 'f' && CACHE_TO[8] == 't';
    DiffersAt(first, CACHE_TO, 8);
    ValueHere(CACHE_FROM, ref + ":cache\"]", [second]);
    ValueSkips([first], [second], CACHE_TO);
    ValueHere(CACHE_TO, ref + KEPT, []);
  }

  lemma BodyCached(image: Image, recipe: Recipe)
    ensures ValueOf(Body(image, recipe), CACHE_FROM) == Some(CacheOf(image.bakeTarget) + ":cache\"]")
    ensures ValueOf(Body(image, recipe), CACHE_TO) == Some(CacheOf(image.bakeTarget) + KEPT)
  {
    HeadNotCached(image, recipe);
    ContextsNotCached(recipe.contexts);
    ArgsNotCached(image);
    LinesCached(image.bakeTarget);
    hide Above, TagLine, ContextLines, ArgLines, CacheLines, NoneCached, CacheOf, ValueOf;
    var head, tail := Above(image, recipe) + [TagLine(image.target)], ArgLines(image) + CacheLines(image.bakeTarget);
    var contexts := ["  contexts = {"] + ContextLines(recipe.contexts) + ["  }"];
    NoneFound(ArgLines(image), CacheLines(image.bakeTarget));
    NoneFound(contexts, tail);
    NoneFound(head, Below(image, recipe));
    assert Body(image, recipe) == head + Below(image, recipe);
    assert Below(image, recipe) == if recipe.contexts == [] then tail else contexts + tail;
  }

  // --------------------------------------------------------------- the shared targets

  const INHERITS := "  inherits   = "

  lemma BodyInherits(image: Image, recipe: Recipe)
    ensures ValueOf(Body(image, recipe), INHERITS) == Some("[\"_attested\"]")
  {
    hide Quote, Below, TagLine;
    ValueHere(INHERITS, "[\"_attested\"]", Body(image, recipe)[1..]);
  }

  predicate IsShared(name: string) { name == "_common" || name == "_attested" }

  function CommonBody(): seq<string> { CommonSettings() + CommonArgs() + CommonOutput() }

  lemma NoBuildIsShared(builds: seq<Image>, operatorBuilder: string, name: string)
    requires Blocks(builds, operatorBuilder).Some? && IsShared(name)
    ensures BodiesNamed(builds, operatorBuilder, name) == []
  {
    hide Blocks, BodiesNamed, RecipeOf;
    forall i | 0 <= i < |builds| ensures builds[i].bakeTarget != name {
      BuildHasRecipe(builds, operatorBuilder, i);
      RecipeName(builds[i], operatorBuilder);
    }
    BodiesNamedNone(builds, operatorBuilder, name);
  }

  lemma NoBrace(lines: seq<string>)
    requires Indented(lines)
    ensures "}" !in lines
  {
    hide Ordinary;
  }

  lemma SharedFound(rest: seq<string>)
    ensures Section(Shared() + rest, Opening("_common"), false) == CommonBody() + Section(rest, Opening("_common"), false)
    ensures Section(Shared() + rest, Opening("_attested"), false) == Attestations() + Section(rest, Opening("_attested"), false)
  {
    CommonIndented();
    AttestationsIndented();
    SharedAre();
    hide CommonSettings, CommonArgs, CommonOutput, Attestations, Indented, Section, Opening, SharedTarget, Shared;
    TwoTargets("_common", CommonBody(), "_attested", Attestations(), rest);
  }

  lemma TwoTargets(first: string, one: seq<string>, second: string, two: seq<string>, rest: seq<string>)
    requires Indented(one) && Indented(two) && first != second
    ensures var lines := SharedTarget(first, one) + SharedTarget(second, two) + rest;
            && Section(lines, Opening(first), false) == one + Section(rest, Opening(first), false)
            && Section(lines, Opening(second), false) == two + Section(rest, Opening(second), false)
  {
    hide Section, Opening, Indented, SharedTarget;
    var a, b := SharedTarget(first, one), SharedTarget(second, two);
    assert a + b + rest == a + (b + rest);
    TargetOpens(first, one, second);
    TargetOpens(second, two, first);
    TargetFound(first, one, b + rest);
    SectionSkips(b, rest, Opening(first));
    SectionSkips(a, b + rest, Opening(second));
    TargetFound(second, two, rest);
  }

  lemma TargetFound(name: string, body: seq<string>, rest: seq<string>)
    requires Indented(body)
    ensures Section(SharedTarget(name, body) + rest, Opening(name), false) == body + Section(rest, Opening(name), false)
  {
    NoBrace(body);
    OpeningLine(name);
    hide Section, Opening, Indented;
    SectionOwn(Opening(name), body, rest);
    assert [Opening(name)] + body + ["}", ""] + rest == SharedTarget(name, body) + rest;
  }

  lemma SharedAre()
    ensures Shared() == SharedTarget("_common", CommonBody()) + SharedTarget("_attested", Attestations())
  {
    hide SharedTarget, CommonSettings, CommonArgs, CommonOutput, Attestations;
  }

  lemma SharedSections(settings: Settings, images: seq<Image>)
    requires Render(settings, images).Some? && NamesPlain(Builds(images))
    ensures Section(Render(settings, images).value, Opening("_common"), false) == CommonBody()
    ensures Section(Render(settings, images).value, Opening("_attested"), false) == Attestations()
  {
    hide Sbom, Builds, OperatorBuilder, Blocks, Section, AllLines, NamesPlain, Shared, Opening, CommonBody, Attestations;
    RenderHasBlocks(settings, images);
    var sbom, builds := Sbom(images).value.target, Builds(images);
    SharedFound(Blocks(builds, OperatorBuilder(images)).value);
    FromShared(settings, sbom, builds, OperatorBuilder(images), "_common");
    FromShared(settings, sbom, builds, OperatorBuilder(images), "_attested");
  }

  /** Nothing before the shared targets, and no build, bears the name of one. */
  lemma FromShared(settings: Settings, sbomTarget: string, builds: seq<Image>, operatorBuilder: string, name: string)
    requires Blocks(builds, operatorBuilder).Some? && NamesPlain(builds) && IsShared(name)
    ensures var blocks := Blocks(builds, operatorBuilder).value;
            && Section(AllLines(settings, sbomTarget, builds, blocks), Opening(name), false) ==
               Section(Shared() + blocks, Opening(name), false)
            && Section(blocks, Opening(name), false) == []
  {
    hide Blocks, Section, AllLines, NamesPlain, Variables, VariablesText, Shared, Group, Opening, IsShared;
    var blocks, v := Blocks(builds, operatorBuilder).value, Variables(settings, sbomTarget);
    NotBefore(v, builds, name);
    FromParts(settings, sbomTarget, builds, operatorBuilder, Opening(name));
    assert VariablesText(v) + (Group(builds) + (Shared() + blocks)) == VariablesText(v) + Group(builds) + (Shared() + blocks);
    SectionSkips(VariablesText(v) + Group(builds), Shared() + blocks, Opening(name));
    NoSharedBlock(builds, operatorBuilder, name);
  }

  lemma NoSharedBlock(builds: seq<Image>, operatorBuilder: string, name: string)
    requires Blocks(builds, operatorBuilder).Some? && NamesPlain(builds) && IsShared(name)
    ensures Section(Blocks(builds, operatorBuilder).value, Opening(name), false) == []
  {
    hide Blocks, Section, NamesPlain, Opening, BodiesNamed;
    SectionBlocks(builds, operatorBuilder, [], name);
    NoBuildIsShared(builds, operatorBuilder, name);
    SectionNothing(Opening(name));
    var blocks := Blocks(builds, operatorBuilder).value;
    assert blocks + [] == blocks;
  }

  lemma NotBefore(variables: seq<(string, string)>, builds: seq<Image>, name: string)
    ensures Opening(name) !in VariablesText(variables) + Group(builds) && |Opening(name)| > 1
  {
    OpeningLine(name);
    VariablesUnlike(variables, 't');
    hide Opening, VariablesText, Group;
    GroupElsewhere(builds, Opening(name));
  }

  /** The lines that make images reproducible and attested. */
  lemma SharedLines()
    ensures "  inherits = " + "[\"_common\"]" in Attestations() && "    " + "\"type=provenance,mode=max\"," in Attestations()
    ensures "    " + ("\"type=sbom,generator=" + "${ATUM_SBOM_GENERATOR_IMAGE}\",") in Attestations()
    ensures "  output = [" + ("\"type=image," + "oci-mediatypes=true," + "rewrite-timestamp=true\"]") in CommonOutput()
    ensures "  platforms = " + "[ATUM_PLATFORM]" in CommonSettings()
    ensures NamedLine("SOURCE_DATE_EPOCH", "SOURCE_DATE_EPOCH") in CommonArgs()
  {
    var attest := Attestations();
    assert attest[0] in attest && attest[2] in attest && attest[3] in attest;
    assert CommonOutput()[0] in CommonOutput() && CommonSettings()[1] in CommonSettings() && CommonArgs()[2] in CommonArgs();
  }

  // ---------------------------------------------------------------------- main result

  /**
   Every build inherits the attestations, provenance at full detail and the bill of materials of the document's own
   generator, and through them the platform, the fixed timestamp and the output; and it caches under its own name.
   */
  lemma BuildsAreAttested(settings: Settings, images: seq<Image>, k: nat)
    requires Render(settings, images).Some? && NamesPlain(Builds(images)) && k < |Builds(images)|
    requires forall i :: 0 <= i < |Builds(images)| && i != k ==> Builds(images)[i].bakeTarget != Builds(images)[k].bakeTarget
    ensures var name := Builds(images)[k].bakeTarget;
            var own := Section(Render(settings, images).value, Opening(name), false);
            && ValueOf(own, INHERITS) == Some("[\"_attested\"]")
            && ValueOf(own, CACHE_FROM) == Some(CacheOf(name) + ":cache\"]") && ValueOf(own, CACHE_TO) == Some(CacheOf(name) + KEPT)
    ensures var attested := Section(Render(settings, images).value, Opening("_attested"), false);
            && "  inherits = " + "[\"_common\"]" in attested && "    " + "\"type=provenance,mode=max\"," in attested
            && "    " + ("\"type=sbom,generator=" + "${ATUM_SBOM_GENERATOR_IMAGE}\",") in attested
    ensures var common := Section(Render(settings, images).value, Opening("_common"), false);
            && "  platforms = " + "[ATUM_PLATFORM]" in common
            && "  output = [" + ("\"type=image," + "oci-mediatypes=true," + "rewrite-timestamp=true\"]") in common
            && NamedLine("SOURCE_DATE_EPOCH", "SOURCE_DATE_EPOCH") in common
  {
    OwnSection(settings, images, k);
    SharedSections(settings, images);
    SharedLines();
    hide Render, Builds, Section, NamesPlain, Opening, CommonSettings, CommonArgs, CommonOutput, Attestations, CacheOf, ValueOf,
      NamedLine;
  }

  lemma OwnSection(settings: Settings, images: seq<Image>, k: nat)
    requires Render(settings, images).Some? && NamesPlain(Builds(images)) && k < |Builds(images)|
    requires forall i :: 0 <= i < |Builds(images)| && i != k ==> Builds(images)[i].bakeTarget != Builds(images)[k].bakeTarget
    ensures var name := Builds(images)[k].bakeTarget;
            var own := Section(Render(settings, images).value, Opening(name), false);
            && ValueOf(own, INHERITS) == Some("[\"_attested\"]")
            && ValueOf(own, CACHE_FROM) == Some(CacheOf(name) + ":cache\"]") && ValueOf(own, CACHE_TO) == Some(CacheOf(name) + KEPT)
  {
    hide Render, Builds, OperatorBuilder, RecipeOf, Section, Body, NamesPlain, Opening, BodiesNamed, Blocks, ValueOf, CacheOf;
    var image := Builds(images)[k];
    RenderHasBlocks(settings, images);
    BuildHasRecipe(Builds(images), OperatorBuilder(images), k);
    var recipe := RecipeOf(image, OperatorBuilder(images)).value;
    RecipeName(image, OperatorBuilder(images));
    RenderedSection(settings, images, image.bakeTarget);
    BodiesNamedOnce(Builds(images), OperatorBuilder(images), k);
    BodyInherits(image, recipe);
    BodyCached(image, recipe);
  }
}
