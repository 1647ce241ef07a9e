/** Bake target inheritance: templates resolved depth first, with the labels in progress held on a stack. */
module BakeInheritance {
  import opened Outcomes

  /** An attribute of a template: not written, evaluated, or impossible to evaluate. */
  datatype Attribute<T> = Absent | Given(value: T) | Invalid

  datatype Template = Template(
    inherits: Attribute<seq<string>>,
    name: Attribute<string>,
    context: Attribute<string>,
    dockerfile: Attribute<string>,
    stage: Attribute<string>,
    tags: Attribute<seq<string>>,
    contexts: Attribute<map<string, string>>,
    args: Attribute<map<string, string>>)

  datatype Target = Target(name: string, context: string, dockerfile: string, stage: string,
                           tags: seq<string>, contexts: map<string, string>, args: map<string, string>)

  datatype Error = MissingTemplate(id: string) | InheritanceCycle(id: string) | Unevaluable(id: string)

  type Templates = map<string, Template>

  predicate Evaluable(t: Template) {
    && !t.name.Invalid? && !t.context.Invalid? && !t.dockerfile.Invalid? && !t.stage.Invalid?
    && !t.tags.Invalid? && !t.contexts.Invalid? && !t.args.Invalid?
  }

  function Blank(id: string): Target {
    Target(id, "", "", "", [], map[], map[])
  }

  /** mergeBakeTarget: a parent's non-empty fields replace, its maps overlay. */
  function Merge(d: Target, s: Target): Target {
    Target(d.name,
           if s.context != "" then s.context else d.context,
           if s.dockerfile != "" then s.dockerfile else d.dockerfile,
           if s.stage != "" then s.stage else d.stage,
           if |s.tags| > 0 then s.tags else d.tags,
           d.contexts + s.contexts,
           d.args + s.args)
  }

  function Or<T>(attribute: Attribute<T>, fallback: T): T {
    if attribute.Given? then attribute.value else fallback
  }

  /** The template's own attributes, written last. */
  function Overlay(d: Target, t: Template): Target {
    Target(Or(t.name, d.name), Or(t.context, d.context), Or(t.dockerfile, d.dockerfile), Or(t.stage, d.stage),
           Or(t.tags, d.tags), d.contexts + Or(t.contexts, map[]), d.args + Or(t.args, map[]))
  }

  function Parents(templates: Templates, id: string): seq<string> {
    if id in templates && templates[id].inherits.Given? then templates[id].inherits.value else []
  }

  /** Some attribute of the template has no value. */
  predicate Broken(t: Template) {
    || t.inherits.Invalid? || t.name.Invalid? || t.context.Invalid? || t.dockerfile.Invalid? || t.stage.Invalid?
    || t.tags.Invalid? || t.contexts.Invalid? || t.args.Invalid?
  }

  // ------------------------------------------------------- the specification function

  function Resolve(templates: Templates, id: string, stack: set<string>): (r: Result<Target, Error>)
    decreases |templates.Keys - stack|, 1, 0
  {
    if id !in templates then Err(MissingTemplate(id))
    else if id in stack then Err(InheritanceCycle(id))
    else if templates[id].inherits.Invalid? then Err(Unevaluable(id))
    else
      Smaller(templates, id, stack);
      match ResolveParents(templates, id, Parents(templates, id), stack + {id})
      case Err(e) => Err(e)
      case Ok(inherited) =>
        if Evaluable(templates[id]) then Ok(Overlay(inherited, templates[id])) else Err(Unevaluable(id))
  }

  function ResolveParents(templates: Templates, id: string, parents: seq<string>, stack: set<string>)
    : (r: Result<Target, Error>)
    decreases |templates.Keys - stack|, 2, |parents|
  {
    if parents == [] then Ok(Blank(id))
    else
      var last := |parents| - 1;
      match ResolveParents(templates, id, parents[..last], stack)
      case Err(e) => Err(e)
      case Ok(sofar) =>
        match Resolve(templates, parents[last], stack)
        case Err(e) => Err(e)
        case Ok(inherited) => Ok(Merge(sofar, inherited))
  }

  lemma Smaller(templates: Templates, id: string, stack: set<string>)
    requires id in templates && id !in stack
    ensures |templates.Keys - (stack + {id})| < |templates.Keys - stack|
  {
    assert templates.Keys - (stack + {id}) == (templates.Keys - stack) - {id};
  }

  /** The recursive resolver with its loop over parents and its in-place accumulator. */
  method ResolveBakeTarget(templates: Templates, id: string, stack: set<string>)
    returns (r: Result<Target, Error>)
    ensures r == Resolve(templates, id, stack)
    decreases |templates.Keys - stack|
  {
    hide Merge, Overlay, Evaluable, Blank;
    if id !in templates {
      return Err(MissingTemplate(id));
    }
    if id in stack {
      return Err(InheritanceCycle(id));
    }
    var t := templates[id];
    var entered := stack + {id};
    Smaller(templates, id, stack);
    var result := Blank(id);
    if t.inherits.Invalid? {
      return Err(Unevaluable(id));
    }
    if t.inherits.Given? {
      var parents := t.inherits.value;
      for i := 0 to |parents|
        invariant ResolveParents(templates, id, parents[..i], entered) == Ok(result)
      {
        var inherited := ResolveBakeTarget(templates, parents[i], entered);
        assert parents[..i + 1][..i] == parents[..i];
        if inherited.Err? {
          assert ResolveParents(templates, id, parents[..i + 1], entered) == inherited;
          ParentFailure(templates, id, parents, i + 1, entered);
          assert parents[..|parents|] == parents;
          return Err(inherited.error);
        }
        result := Merge(result, inherited.value);
      }
      assert parents[..|parents|] == parents;
    }
    if !Evaluable(t) {
      return Err(Unevaluable(id));
    }
    return Ok(Overlay(result, t));
  }

  /** The first failing parent decides. */
  lemma {:induction false} ParentFailure(templates: Templates, id: string, parents: seq<string>, i: nat, stack: set<string>)
    requires i <= |parents| && ResolveParents(templates, id, parents[..i], stack).Err?
    ensures ResolveParents(templates, id, parents, stack) == ResolveParents(templates, id, parents[..i], stack)
    decreases |parents|
  {
    if i < |parents| {
      assert parents[..|parents| - 1][..i] == parents[..i];
      ParentFailure(templates, id, parents[..|parents| - 1], i, stack);
    } else {
      assert parents[..i] == parents;
    }
  }

  // --------------------------------------------------------- the inheritance graph

  /** A chain of labels, each inheriting from the next. */
  ghost predicate IsChain(templates: Templates, chain: seq<string>)
    decreases |chain|
  {
    |chain| >= 2 ==> chain[1] in Parents(templates, chain[0]) && IsChain(templates, chain[1..])
  }

  ghost predicate Inherits(templates: Templates, id: string, other: string) {
    exists chain: seq<string> :: chain != [] && chain[0] == id && chain[|chain| - 1] == other && IsChain(templates, chain)
  }

  /** Every template below the label exists and can be evaluated. */
  ghost predicate Complete(templates: Templates, id: string) {
    forall other :: Inherits(templates, id, other) ==>
      other in templates && !Broken(templates[other])
  }

  ghost predicate IsLoop(templates: Templates, chain: seq<string>) {
    |chain| >= 2 && chain[0] == chain[|chain| - 1] && IsChain(templates, chain)
  }

  /** No template below the label inherits, directly or not, from itself. Diamonds are allowed. */
  ghost predicate Acyclic(templates: Templates, id: string) {
    forall chain: seq<string> :: chain != [] && Inherits(templates, id, chain[0]) ==> !IsLoop(templates, chain)
  }

  /** A resolved label vouches for each of its parents under a larger stack. */
  lemma {:induction false} ParentResolves(templates: Templates, id: string, parents: seq<string>, stack: set<string>, k: nat)
    requires k < |parents| && ResolveParents(templates, id, parents, stack).Ok?
    ensures Resolve(templates, parents[k], stack).Ok?
    decreases |parents|
  {
    if k < |parents| - 1 {
      ParentResolves(templates, id, parents[..|parents| - 1], stack, k);
    }
  }

  /** Along any chain below a resolved label: present, evaluable, and never back on the stack. */
  lemma {:induction false} ResolvedChain(templates: Templates, chain: seq<string>, stack: set<string>)
    requires chain != [] && IsChain(templates, chain) && Resolve(templates, chain[0], stack).Ok?
    ensures var last := chain[|chain| - 1];
            && last in templates && last !in stack
            && !Broken(templates[last])
    ensures |chain| >= 2 ==> chain[|chain| - 1] != chain[0]
    decreases |chain|
  {
    if |chain| >= 2 {
      var id, parents := chain[0], Parents(templates, chain[0]);
      var k :| 0 <= k < |parents| && parents[k] == chain[1];
      ParentResolves(templates, id, parents, stack + {id}, k);
      ResolvedChain(templates, chain[1..], stack + {id});
    }
  }

  /** No loop hangs below a resolved label. */
  lemma {:induction false} ResolvedNoLoop(templates: Templates, chain: seq<string>, stack: set<string>, loop: seq<string>)
    requires chain != [] && IsChain(templates, chain) && Resolve(templates, chain[0], stack).Ok?
    requires loop != [] && loop[0] == chain[|chain| - 1]
    ensures !IsLoop(templates, loop)
    decreases |chain|
  {
    if |chain| == 1 {
      if IsChain(templates, loop) {
        ResolvedChain(templates, loop, stack);
      }
    } else {
      var id, parents := chain[0], Parents(templates, chain[0]);
      var k :| 0 <= k < |parents| && parents[k] == chain[1];
      ParentResolves(templates, id, parents, stack + {id}, k);
      ResolvedNoLoop(templates, chain[1..], stack + {id}, loop);
    }
  }

  /** What an error says of the label it names, met at the end of a chain. */
  ghost predicate Explains(templates: Templates, chain: seq<string>, stack: set<string>, error: Error)
    requires chain != []
  {
    var last := chain[|chain| - 1];
    && error.id == last
    && match error
       case MissingTemplate(_) => last !in templates
       case InheritanceCycle(_) => last in stack || exists i :: 0 <= i < |chain| - 1 && chain[i] == last
       case Unevaluable(_) => last in templates && Broken(templates[last])
  }

  /** A failure comes with a chain to the template its error is about: missing, unevaluable, or already on the stack. */
  lemma {:induction false} FailureChain(templates: Templates, id: string, stack: set<string>) returns (chain: seq<string>)
    requires Resolve(templates, id, stack).Err?
    ensures chain != [] && chain[0] == id && IsChain(templates, chain)
    ensures Explains(templates, chain, stack, Resolve(templates, id, stack).error)
    decreases |templates.Keys - stack|
  {
    chain := [id];
    if id !in templates || id in stack || templates[id].inherits.Invalid? {
      return;
    }
    Smaller(templates, id, stack);
    var parents := Parents(templates, id);
    if ResolveParents(templates, id, parents, stack + {id}).Err? {
      var k := FailingParent(templates, id, parents, stack + {id});
      var rest := FailureChain(templates, parents[k], stack + {id});
      chain := [id] + rest;
      assert chain[1..] == rest;
      var last := rest[|rest| - 1];
      if i :| 0 <= i < |rest| - 1 && rest[i] == last {
        assert chain[i + 1] == last;
      } else if last == id {
        assert chain[0] == last;
      }
    }
  }

  lemma {:induction false} FailingParent(templates: Templates, id: string, parents: seq<string>, stack: set<string>)
    returns (k: nat)
    requires ResolveParents(templates, id, parents, stack).Err?
    ensures k < |parents| && Resolve(templates, parents[k], stack).Err?
    ensures Resolve(templates, parents[k], stack).error == ResolveParents(templates, id, parents, stack).error
    decreases |parents|
  {
    var last := |parents| - 1;
    if ResolveParents(templates, id, parents[..last], stack).Err? {
      k := FailingParent(templates, id, parents[..last], stack);
    } else {
      k := last;
    }
  }

  lemma {:induction false} ChainPrefix(templates: Templates, chain: seq<string>, n: nat)
    requires IsChain(templates, chain) && n <= |chain|
    ensures IsChain(templates, chain[..n])
    decreases |chain|
  {
    if n >= 2 {
      ChainPrefix(templates, chain[1..], n - 1);
      assert chain[..n][1..] == chain[1..][..n - 1];
    }
  }

  lemma {:induction false} ChainSuffix(templates: Templates, chain: seq<string>, n: nat)
    requires IsChain(templates, chain) && n <= |chain|
    ensures IsChain(templates, chain[n..])
    decreases |chain|
  {
    if n > 0 && |chain| >= 2 {
      ChainSuffix(templates, chain[1..], n - 1);
      assert chain[n..] == chain[1..][n - 1..];
    }
  }

  // -------------------------------------------------------------------- main results

  /** Resolution succeeds if and only if the inheritance graph below the label is complete and acyclic. */
  lemma ResolvesExactly(templates: Templates, id: string)
    ensures Resolve(templates, id, {}).Ok? <==> Complete(templates, id) && Acyclic(templates, id)
  {
    if Resolve(templates, id, {}).Ok? {
      forall other | Inherits(templates, id, other)
        ensures other in templates && !Broken(templates[other])
      {
        var chain: seq<string> :| chain != [] && chain[0] == id && chain[|chain| - 1] == other && IsChain(templates, chain);
        ResolvedChain(templates, chain, {});
      }
      forall loop: seq<string> | loop != [] && Inherits(templates, id, loop[0]) ensures !IsLoop(templates, loop) {
        var chain: seq<string> :| chain != [] && chain[0] == id && chain[|chain| - 1] == loop[0] && IsChain(templates, chain);
        ResolvedNoLoop(templates, chain, {}, loop);
      }
    } else {
      FailureBreaks(templates, id);
    }
  }

  /** A template on a loop of inheritance. */
  ghost predicate OnLoop(templates: Templates, id: string) {
    exists loop: seq<string> :: loop != [] && loop[0] == id && IsLoop(templates, loop)
  }

  /** The error is about a template below the label, and tells what is wrong with it. */
  lemma ErrorIsReal(templates: Templates, id: string)
    requires Resolve(templates, id, {}).Err?
    ensures var error := Resolve(templates, id, {}).error;
            && Inherits(templates, id, error.id)
            && match error
               case MissingTemplate(x) => x !in templates
               case InheritanceCycle(x) => OnLoop(templates, x)
               case Unevaluable(x) => x in templates && Broken(templates[x])
  {
    var chain := FailureChain(templates, id, {});
    var last := chain[|chain| - 1];
    if Resolve(templates, id, {}).error.InheritanceCycle? {
      var i :| 0 <= i < |chain| - 1 && chain[i] == last;
      ChainSuffix(templates, chain, i);
      assert IsLoop(templates, chain[i..]);
    }
  }

  lemma FailureBreaks(templates: Templates, id: string)
    requires Resolve(templates, id, {}).Err?
    ensures !Complete(templates, id) || !Acyclic(templates, id)
  {
    ErrorIsReal(templates, id);
    hide Resolve, Inherits, IsLoop, Broken;
    var error := Resolve(templates, id, {}).error;
    if error.InheritanceCycle? {
      var loop: seq<string> :| loop != [] && loop[0] == error.id && IsLoop(templates, loop);
    }
  }

  /** The last parent, in written order, whose resolved target satisfies a test; -1 when none does. */
  function LastParent(templates: Templates, parents: seq<string>, stack: set<string>, test: Target -> bool): (k: int)
    ensures -1 <= k < |parents|
    ensures k >= 0 ==> Resolve(templates, parents[k], stack).Ok? && test(Resolve(templates, parents[k], stack).value)
    ensures forall i :: k < i < |parents| ==>
              Resolve(templates, parents[i], stack).Err? || !test(Resolve(templates, parents[i], stack).value)
  {
    if parents == [] then -1
    else
      var last := |parents| - 1;
      var r := Resolve(templates, parents[last], stack);
      if r.Ok? && test(r.value) then last else LastParent(templates, parents[..last], stack, test)
  }

  datatype Field = Context | Dockerfile | Stage

  datatype Table = Contexts | Args

  function Text(t: Target, field: Field): string {
    match field case Context => t.context case Dockerfile => t.dockerfile case Stage => t.stage
  }

  function OwnText(t: Template, field: Field): Attribute<string> {
    match field case Context => t.context case Dockerfile => t.dockerfile case Stage => t.stage
  }

  function Entries(t: Target, table: Table): map<string, string> {
    match table case Contexts => t.contexts case Args => t.args
  }

  function OwnEntries(t: Template, table: Table): map<string, string> {
    match table case Contexts => Or(t.contexts, map[]) case Args => Or(t.args, map[])
  }

  function SetsText(field: Field): Target -> bool { (p: Target) => Text(p, field) != "" }

  function SetsTags(): Target -> bool { (p: Target) => |p.tags| > 0 }

  function SetsEntry(table: Table, key: string): Target -> bool { (p: Target) => key in Entries(p, table) }

  lemma {:induction false} ParentsText(templates: Templates, id: string, parents: seq<string>, stack: set<string>, field: Field)
    requires ResolveParents(templates, id, parents, stack).Ok?
    ensures var r := ResolveParents(templates, id, parents, stack).value;
            var k := LastParent(templates, parents, stack, SetsText(field));
            && r.name == id
            && Text(r, field) == if k < 0 then "" else Text(Resolve(templates, parents[k], stack).value, field)
    decreases |parents|
  {
    if parents != [] {
      ParentsText(templates, id, parents[..|parents| - 1], stack, field);
    }
  }

  lemma {:induction false} ParentsTags(templates: Templates, id: string, parents: seq<string>, stack: set<string>)
    requires ResolveParents(templates, id, parents, stack).Ok?
    ensures var r := ResolveParents(templates, id, parents, stack).value;
            var k := LastParent(templates, parents, stack, SetsTags());
            r.tags == if k < 0 then [] else Resolve(templates, parents[k], stack).value.tags
    decreases |parents|
  {
    if parents != [] {
      ParentsTags(templates, id, parents[..|parents| - 1], stack);
    }
  }

  lemma {:induction false} ParentsEntries(templates: Templates, id: string, parents: seq<string>, stack: set<string>,
                                          table: Table, key: string)
    requires ResolveParents(templates, id, parents, stack).Ok?
    ensures var r := ResolveParents(templates, id, parents, stack).value;
            var k := LastParent(templates, parents, stack, SetsEntry(table, key));
            && (key in Entries(r, table) <==> k >= 0)
            && (k >= 0 ==> Entries(r, table)[key] == Entries(Resolve(templates, parents[k], stack).value, table)[key])
    decreases |parents|
  {
    if parents != [] {
      ParentsEntries(templates, id, parents[..|parents| - 1], stack, table, key);
    }
  }

  /**
   Last writer wins, field by field and key by key: the template's own attribute if it is written, else the
   last parent that resolved to something.
   */
  lemma LastWriterWins(templates: Templates, id: string, stack: set<string>, field: Field, table: Table, key: string)
    requires Resolve(templates, id, stack).Ok?
    ensures
      var r, t, parents, inner := Resolve(templates, id, stack).value, templates[id], Parents(templates, id), stack + {id};
      var f := LastParent(templates, parents, inner, SetsText(field));
      var g := LastParent(templates, parents, inner, SetsTags());
      var e := LastParent(templates, parents, inner, SetsEntry(table, key));
      && r.name == Or(t.name, id)
      && Text(r, field) == (if OwnText(t, field).Given? then OwnText(t, field).value
                            else if f >= 0 then Text(Resolve(templates, parents[f], inner).value, field) else "")
      && r.tags == (if t.tags.Given? then t.tags.value
                    else if g >= 0 then Resolve(templates, parents[g], inner).value.tags else [])
      && (key in Entries(r, table) <==> key in OwnEntries(t, table) || e >= 0)
      && (key in OwnEntries(t, table) ==> Entries(r, table)[key] == OwnEntries(t, table)[key])
      && (key !in OwnEntries(t, table) && e >= 0 ==>
            Entries(r, table)[key] == Entries(Resolve(templates, parents[e], inner).value, table)[key])
  {
    var parents, inner := Parents(templates, id), stack + {id};
    ParentsText(templates, id, parents, inner, field);
    ParentsTags(templates, id, parents, inner);
    ParentsEntries(templates, id, parents, inner, table, key);
  }
}
