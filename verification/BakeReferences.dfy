/** Bake targets, parsed Dockerfiles, and how one reference inside a stage resolves. */
module BakeReferences {
  import opened Outcomes
  import Decimal
  import Text

  datatype Target = Target(dockerfile: string, stage: string,
                           contexts: map<string, string>, args: map<string, string>)

  datatype Command =
    | Copy(from: string)
    | RunMounts(sources: seq<string>)
    | Add(inputs: seq<string>, checksum: string)
    | Other

  datatype Stage = Stage(name: string, base: string, commands: seq<Command>)

  /** What a validation run reads: the targets, the Dockerfiles that parse, and the policy base image. */
  datatype World = World(targets: map<string, Target>, dockerfiles: map<string, seq<Stage>>, buildBase: string)

  datatype Problem =
    | Cycle(target: string)
    | NoDockerfile(target: string)
    | MissingStage(target: string)
    | InvalidStage(target: string, reference: string)
    | NonPriorStage(target: string, reference: string)
    | ExternalSource(target: string, reference: string)
    | DynamicAdd(target: string, source: string)
    | UnpinnedAdd(target: string, source: string)

  // ------------------------------------------------------------------- text

  function CutPrefix(s: string, prefix: string): Option<string> {
    if prefix <= s then Some(s[|prefix|..]) else None
  }

  predicate ValidHex(s: string) {
    |s| == 64 && forall i :: 0 <= i < |s| ==> '0' <= s[i] <= '9' || 'a' <= s[i] <= 'f'
  }

  function LowerChar(c: char): char {
    if 'A' <= c <= 'Z' then (c as int + 32) as char else c
  }

  function ToLower(s: string): string {
    seq(|s|, i requires 0 <= i < |s| => LowerChar(s[i]))
  }

  const MAX_INT64: int := 0x7FFF_FFFF_FFFF_FFFF

  /** strconv.Atoi: an optional sign, at least one decimal digit, and a value that fits in 64 bits. */
  function Atoi(s: string): Option<int> {
    var signed := s != [] && (s[0] == '+' || s[0] == '-');
    var digits := if signed then s[1..] else s;
    if digits == [] || !Decimal.IsDigits(digits) then None
    else
      var value := if signed && s[0] == '-' then -Decimal.Value(digits) else Decimal.Value(digits);
      if -MAX_INT64 - 1 <= value <= MAX_INT64 then Some(value) else None
  }

  /** A whole reference that is `${name}` or `$name`, for the name of an argument, stands for its value. */
  function ExpandReference(reference: string, args: map<string, string>): string {
    var braced := "${" <= reference && reference[|reference| - 1] == '}';
    if braced && reference[2..|reference| - 1] in args then args[reference[2..|reference| - 1]]
    else if "$" <= reference && reference[1..] in args then args[reference[1..]]
    else reference
  }

  // ----------------------------------------------------------------- stages

  /** Index of the last stage declared under a (lower-cased) name: later declarations win. */
  function StageByName(stages: seq<Stage>, name: string): (r: Option<nat>)
    ensures r.Some? ==> r.value < |stages| && stages[r.value].name != "" && ToLower(stages[r.value].name) == name
    ensures r.Some? ==> forall i :: r.value < i < |stages| ==> stages[i].name == "" || ToLower(stages[i].name) != name
    ensures r.None? ==> forall i :: 0 <= i < |stages| ==> stages[i].name == "" || ToLower(stages[i].name) != name
  {
    if stages == [] then None
    else
      var last := |stages| - 1;
      if stages[last].name != "" && ToLower(stages[last].name) == name then Some(last)
      else StageByName(stages[..last], name)
  }

  datatype Item = Reference(text: string) | AddInput(source: string, checksum: string)

  function References(texts: seq<string>): seq<Item> {
    if texts == [] then []
    else (if texts[0] == "" then [] else [Reference(texts[0])]) + References(texts[1..])
  }

  function CommandItems(command: Command): seq<Item> {
    match command
    case Copy(from) => if from == "" then [] else [Reference(from)]
    case RunMounts(froms) => References(froms)
    case Add(sources, checksum) => seq(|sources|, i requires 0 <= i < |sources| => AddInput(sources[i], checksum))
    case Other => []
  }

  function CommandsItems(commands: seq<Command>): seq<Item> {
    if commands == [] then [] else CommandItems(commands[0]) + CommandsItems(commands[1..])
  }

  /** Everything a stage refers to, in the order it is examined: FROM, then each command. */
  function Items(stage: Stage): seq<Item> {
    [Reference(stage.base)] + CommandsItems(stage.commands)
  }

  datatype Resolution = Fine | ToStage(index: nat) | ToTarget(name: string) | Bad(problem: Problem)

  /** What one item of stage `current` of target `name` means. */
  function Resolve(w: World, name: string, t: Target, stages: seq<Stage>, current: nat, item: Item): (r: Resolution)
    ensures r.Bad? ==> !r.problem.Cycle?
    ensures r.ToStage? && current <= |stages| ==> r.index < current && r.index < |stages|
  {
    match item
    case AddInput(source, checksum) =>
      if '$' in source then Bad(DynamicAdd(name, source))
      else if !Text.Contains(source, "://") && !("git@" <= source) then Fine
      else if !("https://" <= source) || CutPrefix(checksum, "sha256:").None?
              || !ValidHex(CutPrefix(checksum, "sha256:").value) then
        Bad(UnpinnedAdd(name, source))
      else Fine
    case Reference(text) =>
      var reference := ExpandReference(text, t.args);
      if reference == "scratch" || reference == w.buildBase then Fine
      else
        match Atoi(reference)
        case Some(number) =>
          if number < 0 || number >= current then Bad(InvalidStage(name, reference)) else ToStage(number)
        case None =>
          match StageByName(stages, ToLower(reference))
          case Some(index) =>
            if index >= current then Bad(NonPriorStage(name, reference)) else ToStage(index)
          case None =>
            if reference !in t.contexts then Bad(ExternalSource(name, reference))
            else
              match CutPrefix(t.contexts[reference], "target:")
              case Some(dependency) => ToTarget(dependency)
              case None => Fine
  }

  // ------------------------------------------- the graph of referenced targets

  predicate Parses(w: World, name: string) {
    && name in w.targets
    && w.targets[name].dockerfile != ""
    && w.targets[name].dockerfile in w.dockerfiles
    && w.dockerfiles[w.targets[name].dockerfile] != []
  }

  function Stages(w: World, name: string): seq<Stage>
    requires Parses(w, name)
  {
    w.dockerfiles[w.targets[name].dockerfile]
  }

  /** The stage a target builds: the named one, else the last. */
  function Start(w: World, name: string): (r: Option<nat>)
    requires Parses(w, name)
    ensures r.Some? ==> r.value < |Stages(w, name)|
  {
    var t := w.targets[name];
    if t.stage != "" then StageByName(Stages(w, name), ToLower(t.stage)) else Some(|Stages(w, name)| - 1)
  }

  predicate Active(w: World, name: string) {
    Parses(w, name) && Start(w, name).Some?
  }

  // What a stage says, read off its instructions, and what that means. None of this looks at Items or Resolve.

  /** The stage takes something from there: its base image, a COPY --from or a mount. */
  ghost predicate Mentions(stage: Stage, text: string) {
    || text == stage.base
    || (text != "" && exists c :: c in stage.commands && (c == Copy(text) || (c.RunMounts? && text in c.sources)))
  }

  ghost predicate Adds(stage: Stage, source: string, checksum: string) {
    exists c :: c in stage.commands && c.Add? && source in c.inputs && c.checksum == checksum
  }

  /** The last stage declared under that name, whatever its case. */
  ghost predicate NamedStage(stages: seq<Stage>, name: string, n: nat) {
    && n < |stages| && stages[n].name != "" && ToLower(stages[n].name) == ToLower(name)
    && forall i :: n < i < |stages| ==> stages[i].name == "" || ToLower(stages[i].name) != ToLower(name)
  }

  predicate Given(w: World, reference: string) {
    reference == "scratch" || reference == w.buildBase
  }

  /** A number is a stage's index, other text may be a stage's name; only strictly earlier stages count. */
  ghost predicate MeansStage(w: World, t: Target, stages: seq<Stage>, current: nat, text: string, next: nat) {
    var reference := ExpandReference(text, t.args);
    && !Given(w, reference) && next < current
    && if Atoi(reference).Some? then Atoi(reference).value == next else NamedStage(stages, reference, next)
  }

  /** What is neither is a named context. */
  ghost predicate MeansContext(w: World, t: Target, stages: seq<Stage>, text: string) {
    var reference := ExpandReference(text, t.args);
    !Given(w, reference) && Atoi(reference).None? && forall n: nat :: !NamedStage(stages, reference, n)
  }

  ghost predicate MeansTarget(w: World, t: Target, stages: seq<Stage>, text: string, b: string) {
    var reference := ExpandReference(text, t.args);
    MeansContext(w, t, stages, text) && reference in t.contexts && t.contexts[reference] == "target:" + b
  }

  /** What is wrong with a source that is mentioned. */
  ghost predicate SourceFault(w: World, name: string, t: Target, stages: seq<Stage>, current: nat, text: string, p: Problem) {
    var reference := ExpandReference(text, t.args);
    match p
    case InvalidStage(a, r) =>
      && a == name && r == reference && !Given(w, reference)
      && Atoi(reference).Some? && !(0 <= Atoi(reference).value < current)
    case NonPriorStage(a, r) =>
      && a == name && r == reference && !Given(w, reference)
      && Atoi(reference).None? && exists n: nat :: NamedStage(stages, reference, n) && n >= current
    case ExternalSource(a, r) =>
      a == name && r == reference && MeansContext(w, t, stages, text) && reference !in t.contexts
    case _ => false
  }

  predicate IsRemote(source: string) {
    Text.Contains(source, "://") || "git@" <= source
  }

  /** A remote file is fetched over HTTPS and has a SHA-256 checksum. */
  ghost predicate Pinned(source: string, checksum: string) {
    "https://" <= source && exists hex :: ValidHex(hex) && checksum == "sha256:" + hex
  }

  ghost predicate AddFault(name: string, source: string, checksum: string, p: Problem) {
    match p
    case DynamicAdd(a, s) => a == name && s == source && '$' in source
    case UnpinnedAdd(a, s) => a == name && s == source && '$' !in source && IsRemote(source) && !Pinned(source, checksum)
    case _ => false
  }

  ghost predicate StepsTo(w: World, name: string, stage: nat, next: nat)
    requires Parses(w, name) && stage < |Stages(w, name)|
  {
    exists text :: Mentions(Stages(w, name)[stage], text)
                   && MeansStage(w, w.targets[name], Stages(w, name), stage, text, next)
  }

  ghost predicate DependsOn(w: World, name: string, stage: nat, b: string)
    requires Parses(w, name) && stage < |Stages(w, name)|
  {
    exists text :: Mentions(Stages(w, name)[stage], text)
                   && MeansTarget(w, w.targets[name], Stages(w, name), text, b)
  }

  ghost predicate StageFault(w: World, name: string, stage: nat, p: Problem)
    requires Parses(w, name) && stage < |Stages(w, name)|
  {
    || (exists text :: Mentions(Stages(w, name)[stage], text)
                       && SourceFault(w, name, w.targets[name], Stages(w, name), stage, text, p))
    || (exists source, checksum :: Adds(Stages(w, name)[stage], source, checksum) && AddFault(name, source, checksum, p))
  }

  ghost predicate IsStagePath(w: World, name: string, path: seq<nat>)
    requires Active(w, name)
    decreases |path|
  {
    && path != []
    && path[|path| - 1] < |Stages(w, name)|
    && if |path| == 1 then path[0] == Start(w, name).value
       else IsStagePath(w, name, path[..|path| - 1])
            && StepsTo(w, name, path[|path| - 2], path[|path| - 1])
  }

  ghost predicate UsesStage(w: World, name: string, stage: nat)
    requires Active(w, name)
  {
    exists path :: IsStagePath(w, name, path) && path[|path| - 1] == stage
  }

  /** Target `a` really refers to target `b` from a stage it builds. */
  ghost predicate Edge(w: World, a: string, b: string) {
    && Active(w, a)
    && exists stage: nat :: stage < |Stages(w, a)| && UsesStage(w, a, stage) && DependsOn(w, a, stage, b)
  }

  ghost predicate IsWalk(w: World, walk: seq<string>)
    decreases |walk|
  {
    |walk| >= 2 ==> IsWalk(w, walk[..|walk| - 1]) && Edge(w, walk[|walk| - 2], walk[|walk| - 1])
  }

  ghost predicate ReachableTarget(w: World, roots: seq<string>, name: string) {
    exists walk: seq<string> :: walk != [] && walk[0] in roots && walk[|walk| - 1] == name && IsWalk(w, walk)
  }

  /** A closed walk of at least one edge, starting at a reachable target. */
  ghost predicate HasCycle(w: World, roots: seq<string>) {
    exists walk: seq<string> :: |walk| >= 2 && walk[0] == walk[|walk| - 1]
                                && IsWalk(w, walk) && ReachableTarget(w, roots, walk[0])
  }

  /** A reachable target that a closed walk starts from. */
  ghost predicate OnCycle(w: World, roots: seq<string>, name: string) {
    && ReachableTarget(w, roots, name)
    && exists walk: seq<string> :: |walk| >= 2 && walk[0] == name == walk[|walk| - 1] && IsWalk(w, walk)
  }

  /** What is wrong with a target itself: no Dockerfile, no such stage, or a fault of a stage it builds. */
  ghost predicate Fault(w: World, name: string, p: Problem) {
    && name in w.targets
    && if !Parses(w, name) then p == NoDockerfile(name)
       else if !Active(w, name) then p == MissingStage(name)
       else exists stage: nat :: stage < |Stages(w, name)| && UsesStage(w, name, stage) && StageFault(w, name, stage, p)
  }

  ghost predicate Defective(w: World, name: string) {
    exists p :: Fault(w, name, p)
  }

  // ---------------------------------------------------------------- lemmas

  lemma {:induction false} ReferencesHold(texts: seq<string>, item: Item)
    ensures item in References(texts) <==> item.Reference? && item.text != "" && item.text in texts
    decreases |texts|
  {
    if texts != [] {
      ReferencesHold(texts[1..], item);
      assert texts == [texts[0]] + texts[1..];
    }
  }

  /** One instruction mentions or adds this. */
  predicate Says(command: Command, item: Item) {
    match item
    case Reference(text) => text != "" && (command == Copy(text) || (command.RunMounts? && text in command.sources))
    case AddInput(source, checksum) => command.Add? && source in command.inputs && command.checksum == checksum
  }

  lemma CommandSays(command: Command, item: Item)
    ensures item in CommandItems(command) <==> Says(command, item)
  {
    match command
    case Copy(_) =>
    case RunMounts(sources) => ReferencesHold(sources, item);
    case Add(inputs, checksum) =>
      if Says(command, item) {
        var i :| 0 <= i < |inputs| && inputs[i] == item.source;
        assert CommandItems(command)[i] == item;
      }
    case Other =>
  }

  lemma {:induction false} CommandsSay(commands: seq<Command>, item: Item)
    ensures item in CommandsItems(commands) <==> exists c :: c in commands && Says(c, item)
    decreases |commands|
  {
    hide CommandItems, Says;
    if commands != [] {
      CommandSays(commands[0], item);
      CommandsSay(commands[1..], item);
      assert commands == [commands[0]] + commands[1..];
    }
  }

  /** A whole reference in braces stands for the argument of that name. */
  lemma ExpandsBraces(name: string, args: map<string, string>)
    requires name in args
    ensures ExpandReference("${" + name + "}", args) == args[name]
  {
    var reference := "${" + name + "}";
    assert reference[2..|reference| - 1] == name && reference[..2] == "${";
  }

  /** Without braces too, unless the name itself is in braces that stand for another argument. */
  lemma ExpandsName(name: string, args: map<string, string>)
    requires name in args && forall x :: x in args ==> name != "{" + x + "}"
    ensures ExpandReference("$" + name, args) == args[name]
  {
    var reference := "$" + name;
    assert reference[1..] == name && reference[..1] == "$";
    if "${" <= reference && reference[|reference| - 1] == '}' {
      var inner := reference[2..|reference| - 1];
      assert name[0] == reference[1] && name == "{" + inner + "}";
    }
  }

  /** Everything else stands for itself. */
  lemma ExpandsNothingElse(reference: string, args: map<string, string>)
    requires forall x :: x in args ==> reference != "${" + x + "}" && reference != "$" + x
    ensures ExpandReference(reference, args) == reference
  {
    if "$" <= reference {
      assert reference == "$" + reference[1..];
    }
    if "${" <= reference && reference[|reference| - 1] == '}' {
      assert reference == "${" + reference[2..|reference| - 1] + "}";
    }
  }

  /** A decimal numeral, with or without a sign, is that number if it fits in 64 bits, and otherwise none. */
  lemma AtoiReads(n: int)
    ensures var read := if -MAX_INT64 - 1 <= n <= MAX_INT64 then Some(n) else None;
            && (n >= 0 ==> Atoi(Decimal.Render(n)) == read && Atoi("+" + Decimal.Render(n)) == read)
            && (n <= 0 ==> Atoi("-" + Decimal.Render(-n)) == read)
  {
    hide Decimal.Render, Decimal.Value;
    var digits := Decimal.Render(if n < 0 then -n else n);
    assert ("+" + digits)[1..] == digits && ("-" + digits)[1..] == digits;
  }

  /** Text with anything but digits behind its sign is no number. */
  lemma AtoiNeedsDigits(s: string, k: nat)
    requires k < |s| && !('0' <= s[k] <= '9') && (k > 0 || (s[0] != '+' && s[0] != '-'))
    ensures Atoi(s).None?
  {
    if s[0] == '+' || s[0] == '-' {
      assert s[1..][k - 1] == s[k];
    }
  }

  /** What is examined is exactly what the stage says. */
  lemma ItemsExactly(stage: Stage, item: Item)
    ensures item in Items(stage) <==>
            match item
            case Reference(text) => Mentions(stage, text)
            case AddInput(source, checksum) => Adds(stage, source, checksum)
  {
    hide CommandsItems;
    CommandsSay(stage.commands, item);
    match item
    case Reference(text) =>
      assert (exists c :: c in stage.commands && Says(c, item)) <==>
             text != "" && exists c :: c in stage.commands && (c == Copy(text) || (c.RunMounts? && text in c.sources));
    case AddInput(source, checksum) =>
      assert (exists c :: c in stage.commands && Says(c, item)) <==> Adds(stage, source, checksum);
  }

  lemma NamedStageFound(stages: seq<Stage>, name: string, n: nat)
    ensures StageByName(stages, ToLower(name)) == Some(n) <==> NamedStage(stages, name, n)
  {
  }

  /** What a mentioned source resolves to is what it means. */
  lemma ResolveMeans(w: World, name: string, t: Target, stages: seq<Stage>, current: nat, text: string)
    ensures var r := Resolve(w, name, t, stages, current, Reference(text));
            && (r.ToStage? ==> MeansStage(w, t, stages, current, text, r.index))
            && (forall next: nat :: MeansStage(w, t, stages, current, text, next) ==> r == ToStage(next))
            && (r.ToTarget? ==> MeansTarget(w, t, stages, text, r.name))
            && (forall b :: MeansTarget(w, t, stages, text, b) ==> r == ToTarget(b))
            && (r.Bad? ==> SourceFault(w, name, t, stages, current, text, r.problem))
            && (forall p :: SourceFault(w, name, t, stages, current, text, p) ==> r == Bad(p))
  {
    hide ExpandReference, Atoi, StageByName, ToLower;
    var reference := ExpandReference(text, t.args);
    var found := StageByName(stages, ToLower(reference));
    forall n: nat ensures found == Some(n) <==> NamedStage(stages, reference, n) {
      NamedStageFound(stages, reference, n);
    }
    hide NamedStage;
    if found.Some? {
      assert NamedStage(stages, reference, found.value);
    }
    if reference in t.contexts {
      var context := t.contexts[reference];
      if "target:" <= context {
        assert context == "target:" + context[7..];
      }
      forall b | context == "target:" + b ensures CutPrefix(context, "target:") == Some(b) {
        assert context[7..] == b;
      }
    }
  }

  lemma AddMeans(w: World, name: string, t: Target, stages: seq<Stage>, current: nat, source: string, checksum: string)
    ensures var r := Resolve(w, name, t, stages, current, AddInput(source, checksum));
            && !r.ToStage? && !r.ToTarget?
            && forall p :: r == Bad(p) <==> AddFault(name, source, checksum, p)
  {
    hide Text.Contains;
    if "sha256:" <= checksum {
      assert checksum == "sha256:" + checksum[7..];
    }
    forall hex | checksum == "sha256:" + hex ensures CutPrefix(checksum, "sha256:") == Some(hex) {
      assert checksum[7..] == hex;
    }
  }

  lemma UsesStart(w: World, name: string)
    requires Active(w, name)
    ensures UsesStage(w, name, Start(w, name).value)
  {
    var path := [Start(w, name).value];
    assert IsStagePath(w, name, path);
  }

  lemma StepsDown(w: World, name: string, stage: nat, next: nat)
    requires Active(w, name) && stage < |Stages(w, name)| && StepsTo(w, name, stage, next)
    ensures next < stage
  {
  }

  lemma UsesNext(w: World, name: string, stage: nat, next: nat)
    requires Active(w, name) && stage < |Stages(w, name)| && UsesStage(w, name, stage)
    requires StepsTo(w, name, stage, next)
    ensures next < stage && UsesStage(w, name, next)
  {
    StepsDown(w, name, stage, next);
    hide StepsTo, IsStagePath, Stages, Start, Active;
    var path :| IsStagePath(w, name, path) && path[|path| - 1] == stage;
    LongerPath(w, name, path, next);
  }

  lemma LongerPath(w: World, name: string, path: seq<nat>, next: nat)
    requires Active(w, name) && path != [] && IsStagePath(w, name, path) && next < |Stages(w, name)|
    requires StepsTo(w, name, path[|path| - 1], next)
    ensures UsesStage(w, name, next)
  {
    hide StepsTo, Stages, Start, Active;
    var longer := path + [next];
    assert longer[..|longer| - 1] == path;
    assert IsStagePath(w, name, longer) && longer[|longer| - 1] == next;
  }

  lemma ReachableRoot(w: World, roots: seq<string>, name: string)
    requires name in roots
    ensures ReachableTarget(w, roots, name)
  {
    var walk := [name];
    assert IsWalk(w, walk);
  }

  lemma ReachableNext(w: World, roots: seq<string>, a: string, b: string)
    requires ReachableTarget(w, roots, a) && Edge(w, a, b)
    ensures ReachableTarget(w, roots, b)
  {
    hide Edge;
    var walk :| walk != [] && walk[0] in roots && walk[|walk| - 1] == a && IsWalk(w, walk);
    var longer := walk + [b];
    assert longer[..|longer| - 1] == walk;
    assert IsWalk(w, longer) && longer[|longer| - 1] == b;
  }
}
