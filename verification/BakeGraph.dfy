/** The Bake graph: which targets a set of roots needs. */
module BakeGraph {
  import opened Outcomes

  // ============================================================== reachability

  /** Named contexts of each concrete target. */
  type Contexts = map<string, map<string, string>>

  const TARGET_PREFIX := "target:"

  ghost function Universe(targets: Contexts, roots: seq<string>): set<string> {
    (set r | r in roots) +
    (set name, key | name in targets && key in targets[name] && TARGET_PREFIX <= targets[name][key]
       :: targets[name][key][|TARGET_PREFIX|..])
  }

  ghost predicate Depends(targets: Contexts, a: string, b: string) {
    a in targets && exists key :: key in targets[a] && targets[a][key] == TARGET_PREFIX + b
  }

  ghost predicate ClosedUnder(targets: Contexts, names: set<string>) {
    forall a, b :: a in names && Depends(targets, a, b) ==> b in names
  }

  ghost predicate ContainsAll(names: set<string>, roots: seq<string>) {
    forall r :: r in roots ==> r in names
  }

  /** The names that must be in every closed set holding the roots are exactly the ones returned. */
  method Reachable(targets: Contexts, roots: seq<string>) returns (reachable: set<string>)
    ensures ContainsAll(reachable, roots) && ClosedUnder(targets, reachable)
    ensures forall other: set<string> :: ContainsAll(other, roots) && ClosedUnder(targets, other) ==> reachable <= other
  {
    hide Depends, Universe;
    reachable := {};
    var pending := roots;
    RootsInUniverse(targets, roots);
    ghost var universe := Universe(targets, roots);
    while pending != []
      invariant reachable <= universe
      invariant forall p :: p in pending ==> p in universe
      invariant forall r :: r in roots ==> r in reachable || r in pending
      invariant forall a, b :: a in reachable && Depends(targets, a, b) ==> b in reachable || b in pending
      invariant forall other: set<string> :: ContainsAll(other, roots) && ClosedUnder(targets, other) ==>
                  reachable <= other && forall p :: p in pending ==> p in other
      decreases |universe - reachable|, |pending|
    {
      ghost var before, popped := reachable, pending;
      var last := |pending| - 1;
      var name := pending[last];
      pending := pending[..last];
      assert popped == pending + [name];
      if name in reachable {
        continue;
      }
      assert name in universe - reachable;
      assert universe - (reachable + {name}) == universe - reachable - {name};
      reachable := reachable + {name};
      if name !in targets {
        NoDependencies(targets, name);
        continue;
      }
      var more := Dependencies(targets, name);
      forall b | b in more ensures b in universe {
        DependencyInUniverse(targets, roots, name, b);
      }
      pending := pending + more;
    }
  }

  lemma RootsInUniverse(targets: Contexts, roots: seq<string>)
    ensures forall r :: r in roots ==> r in Universe(targets, roots)
  {
  }

  lemma DependencyInUniverse(targets: Contexts, roots: seq<string>, a: string, b: string)
    requires Depends(targets, a, b)
    ensures b in Universe(targets, roots)
  {
    var key :| key in targets[a] && targets[a][key] == TARGET_PREFIX + b;
    assert targets[a][key][|TARGET_PREFIX|..] == b;
  }

  lemma NoDependencies(targets: Contexts, name: string)
    requires name !in targets
    ensures forall b :: !Depends(targets, name, b)
  {
  }

  /** The contexts of one target, visited in no particular order. */
  method Dependencies(targets: Contexts, name: string) returns (more: seq<string>)
    requires name in targets
    ensures forall b :: b in more <==> Depends(targets, name, b)
  {
    more := [];
    var keys := targets[name].Keys;
    while keys != {}
      invariant keys <= targets[name].Keys
      invariant forall b :: b in more ==> Depends(targets, name, b)
      invariant forall key, b :: key in targets[name].Keys - keys && targets[name][key] == TARGET_PREFIX + b ==> b in more
      decreases |keys|
    {
      var key :| key in keys;
      keys := keys - {key};
      var source := targets[name][key];
      if TARGET_PREFIX <= source {
        var dependency := source[|TARGET_PREFIX|..];
        assert source == TARGET_PREFIX + dependency;
        more := more + [dependency];
      }
    }
  }
}
