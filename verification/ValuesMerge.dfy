/** Layered platform values: operational, then generated, then the active profile. */
module ValuesMerge {
  import opened Outcomes
  import opened Text

  datatype Value = Scalar(text: string) | List(items: seq<Value>) | Table(entries: map<string, Value>)

  type Path = seq<string>

  /** Deep merge: the source wins, except that two tables are merged key by key. */
  function Merge(d: Value, s: Value): (r: Value)
    requires d.Table? && s.Table?
    ensures r.Table? && r.entries.Keys == d.entries.Keys + s.entries.Keys
    decreases s
  {
    Table(map key | key in d.entries.Keys + s.entries.Keys ::
      if key !in s.entries then d.entries[key]
      else if key in d.entries && d.entries[key].Table? && s.entries[key].Table? then
        Merge(d.entries[key], s.entries[key])
      else s.entries[key])
  }

  /** The value at a path, if the path leads through tables. */
  function Lookup(v: Value, path: Path): Option<Value> {
    if path == [] then Some(v)
    else if v.Table? && path[0] in v.entries then Lookup(v.entries[path[0]], path[1..])
    else None
  }

  /** A scalar or a list stands at the path. */
  predicate Leaf(v: Value, path: Path, leaf: Value) {
    Lookup(v, path) == Some(leaf) && !leaf.Table?
  }

  /** A layer has something at the path, or something other than a table on the way there. */
  predicate Overrides(layer: Value, path: Path)
    decreases path
  {
    && layer.Table? && path != [] && path[0] in layer.entries
    && (|path| == 1 || !layer.entries[path[0]].Table? || Overrides(layer.entries[path[0]], path[1..]))
  }

  /** What a merge holds: the leaves of the upper layer, and those of the lower one that it does not override. */
  lemma {:induction false} MergedLeaves(d: Value, s: Value, path: Path, leaf: Value)
    requires d.Table? && s.Table?
    ensures Leaf(Merge(d, s), path, leaf) <==> Leaf(s, path, leaf) || (Leaf(d, path, leaf) && !Overrides(s, path))
    decreases path
  {
    if path != [] && path[0] in d.entries && path[0] in s.entries {
      var x, y, rest := d.entries[path[0]], s.entries[path[0]], path[1..];
      assert Lookup(Merge(d, s), path) == Lookup(Merge(d, s).entries[path[0]], rest);
      assert Lookup(d, path) == Lookup(x, rest) && Lookup(s, path) == Lookup(y, rest);
      if x.Table? && y.Table? {
        MergedLeaves(x, y, rest, leaf);
      } else if !x.Table? && rest != [] {
        assert Lookup(x, rest).None?;
      }
    }
  }

  // -------------------------------------------------------------------- collisions

  predicate BothTables(a: Value, b: Value) {
    a.Table? && b.Table?
  }

  /** Two values under one key that the profile may not author. */
  predicate Clash(generated: Value, profile: Value) {
    !BothTables(generated, profile) || (generated.entries == map[] && profile.entries != map[])
  }

  /** A collision: tables on both sides along the path, and a clash at its end. */
  predicate Collides(generated: Value, profile: Value, path: Path)
    decreases path
  {
    && path != []
    && BothTables(generated, profile)
    && path[0] in generated.entries && path[0] in profile.entries
    && var g, p := generated.entries[path[0]], profile.entries[path[0]];
       if |path| == 1 then Clash(g, p) else Collides(g, p, path[1..])
  }

  ghost predicate Collision(generated: Value, profile: Value) {
    exists path :: Collides(generated, profile, path)
  }

  /** Depth-first order with sorted keys. */
  predicate Before(a: Path, b: Path) {
    if a == [] then true
    else if b == [] then false
    else if a[0] != b[0] then Less(a[0], b[0])
    else Before(a[1..], b[1..])
  }

  ghost predicate First(generated: Value, profile: Value, path: Path) {
    Collides(generated, profile, path) && forall other :: Collides(generated, profile, other) ==> Before(path, other)
  }

  lemma {:induction false} BeforeAntisymmetric(a: Path, b: Path)
    requires Before(a, b) && Before(b, a)
    ensures a == b
  {
    if a != [] && b != [] {
      if a[0] != b[0] {
        LeTotal(a[0], b[0]);
      } else {
        BeforeAntisymmetric(a[1..], b[1..]);
        assert a == [a[0]] + a[1..] && b == [b[0]] + b[1..];
      }
    }
  }

  /** Below a clash there is nothing further to collide with. */
  lemma ClashIsDeepest(g: Value, p: Value, path: Path)
    requires Clash(g, p)
    ensures !Collides(g, p, path)
  {
  }

  /** What a key contributes: its own clash, or the collisions below it. */
  lemma CollidesAt(generated: Value, profile: Value, key: string, rest: Path)
    requires BothTables(generated, profile) && key in generated.entries && key in profile.entries
    ensures var g, p := generated.entries[key], profile.entries[key];
            Collides(generated, profile, [key] + rest) <==> if rest == [] then Clash(g, p) else Collides(g, p, rest)
  {
    assert ([key] + rest)[1..] == rest;
  }

  /** The guard as written: it returns the joined path of the first collision, and the empty string for none. */
  method FirstValueCollision(generated: Value, profile: Value, prefix: Path) returns (found: string)
    requires BothTables(generated, profile)
    ensures !Collision(generated, profile) ==> found == ""
    ensures forall path :: First(generated, profile, path) ==> found == Join(prefix + path, ".")
    ensures Collision(generated, profile) ==> exists path :: First(generated, profile, path)
    decreases profile
  {
    var keys := SortKeys(profile.entries.Keys);
    for i := 0 to |keys|
      invariant forall k, rest :: 0 <= k < i ==> !Collides(generated, profile, [keys[k]] + rest)
    {
      var key := keys[i];
      if key !in generated.entries {
        continue;
      }
      var g, p := generated.entries[key], profile.entries[key];
      var path := prefix + [key];
      if p.Table? && g.Table? {
        if g.entries == map[] && p.entries != map[] {
          FirstHere(generated, profile, keys, i, []);
          FirstUnique(generated, profile, [key]);
          return Join(path, ".");
        }
        var collision := FirstValueCollision(g, p, path);
        if collision != "" {
          ghost var rest :| First(g, p, rest);
          assert path + rest == prefix + ([key] + rest);
          FirstHere(generated, profile, keys, i, rest);
          FirstUnique(generated, profile, [key] + rest);
          return collision;
        }
        NestedSilence(g, p, path, collision);
        forall rest ensures !Collides(generated, profile, [key] + rest) {
          CollidesAt(generated, profile, key, rest);
        }
        continue;
      }
      FirstHere(generated, profile, keys, i, []);
      FirstUnique(generated, profile, [key]);
      return Join(path, ".");
    }
    forall path ensures !Collides(generated, profile, path) {
      if path != [] && path[0] in keys {
        var k :| 0 <= k < |keys| && keys[k] == path[0];
        assert path == [keys[k]] + path[1..];
      }
    }
    found := "";
  }

  /** Inside a table the joined path is never empty, so an empty answer really means no collision. */
  lemma NestedSilence(g: Value, p: Value, path: Path, collision: string)
    requires path != [] && collision == ""
    requires forall rest :: First(g, p, rest) ==> collision == Join(path + rest, ".")
    requires Collision(g, p) ==> exists rest :: First(g, p, rest)
    ensures !Collision(g, p)
  {
    if Collision(g, p) {
      var rest :| First(g, p, rest);
      JoinEmpty(path + rest);
    }
  }

  /** The first collision of the table lies under the first key that has one. */
  lemma FirstHere(generated: Value, profile: Value, keys: seq<string>, i: nat, rest: Path)
    requires BothTables(generated, profile) && Sorted(keys) && i < |keys|
    requires forall k :: k in keys <==> k in profile.entries
    requires keys[i] in generated.entries
    requires forall k, r :: 0 <= k < i ==> !Collides(generated, profile, [keys[k]] + r)
    requires var g, p := generated.entries[keys[i]], profile.entries[keys[i]];
             if rest == [] then Clash(g, p) else First(g, p, rest)
    ensures First(generated, profile, [keys[i]] + rest)
  {
    var key := keys[i];
    var g, p := generated.entries[key], profile.entries[key];
    var path := [key] + rest;
    CollidesAt(generated, profile, key, rest);
    forall other | Collides(generated, profile, other) ensures Before(path, other) {
      assert other == [other[0]] + other[1..];
      var k :| 0 <= k < |keys| && keys[k] == other[0];
      assert path[1..] == rest;
      if k == i {
        CollidesAt(generated, profile, key, other[1..]);
        if rest == [] {
          ClashIsDeepest(g, p, other[1..]);
        }
      }
    }
  }

  lemma FirstUnique(generated: Value, profile: Value, path: Path)
    requires First(generated, profile, path)
    ensures forall other :: First(generated, profile, other) ==> other == path
  {
    forall other | First(generated, profile, other) ensures other == path {
      BeforeAntisymmetric(path, other);
    }
  }

  // ------------------------------------------------------------------ main results

  /**
   The three layers merged, or the joined path of the rejected profile value. What is accepted, bar a collision
   under the empty key, keeps every generated leaf and does not depend on which upper layer comes first.
   */
  method MergePlatformValues(operational: Value, generated: Value, profile: Value) returns (r: Result<Value, string>)
    requires operational.Table? && BothTables(generated, profile)
    ensures r.Err? <==> Collision(generated, profile) && !Collides(generated, profile, [""])
    ensures r.Err? ==> exists path :: First(generated, profile, path) && r.error == Join(path, ".")
    ensures r.Ok? ==> r.value == Merge(Merge(operational, generated), profile)
    ensures r.Ok? && !Collides(generated, profile, [""]) ==>
              && r.value == Merge(Merge(operational, profile), generated)
              && forall path :: Lookup(generated, path).Some? && !Lookup(generated, path).value.Table? ==>
                   Lookup(r.value, path) == Lookup(generated, path)
  {
    var path := FirstValueCollision(generated, profile, []);
    assert forall p: Path :: [] + p == p;
    if Collision(generated, profile) {
      ghost var first :| First(generated, profile, first);
      JoinEmpty(first);
      if Collides(generated, profile, [""]) {
        EmptyKeyIsFirst(generated, profile);
        FirstUnique(generated, profile, [""]);
      }
    }
    if path != "" {
      return Err(path);
    }
    if !Collision(generated, profile) {
      LayersCommute(operational, generated, profile);
      forall leaf | Lookup(generated, leaf).Some? && !Lookup(generated, leaf).value.Table?
        ensures Lookup(Merge(Merge(operational, generated), profile), leaf) == Lookup(generated, leaf)
      {
        LeavesProtected(operational, generated, profile, leaf);
      }
    }
    return Ok(Merge(Merge(operational, generated), profile));
  }

  /** The empty key sorts before every other, so its clash is the one the guard sees. */
  lemma EmptyKeyIsFirst(generated: Value, profile: Value)
    requires Collides(generated, profile, [""])
    ensures First(generated, profile, [""])
  {
    forall other | Collides(generated, profile, other) ensures Before([""], other) {
      if other[0] == "" && |other| > 1 {
        ClashIsDeepest(generated.entries[""], profile.entries[""], other[1..]);
      }
    }
  }

  /** A profile that collides nowhere leaves every generated leaf where it was, whatever lies underneath. */
  lemma {:induction false} LeavesProtected(base: Value, generated: Value, profile: Value, path: Path)
    requires base.Table? && BothTables(generated, profile) && !Collision(generated, profile)
    requires Lookup(generated, path).Some? && !Lookup(generated, path).value.Table?
    ensures Lookup(Merge(Merge(base, generated), profile), path) == Lookup(generated, path)
    decreases path
  {
    var key := path[0];
    var g := generated.entries[key];
    var merged := Merge(base, generated);
    if key !in profile.entries {
      assert Merge(merged, profile).entries[key] == merged.entries[key];
      MergedLeaf(base, generated, path);
    } else {
      var p := profile.entries[key];
      CollidesAt(generated, profile, key, []);
      assert !Clash(g, p);
      NoCollisionBelow(generated, profile, key);
      var b := if key in base.entries && base.entries[key].Table? then base.entries[key] else Table(map[]);
      MergeIntoEmpty(g);
      assert merged.entries[key] == Merge(b, g);
      LeavesProtected(b, g, p, path[1..]);
    }
  }

  lemma NoCollisionBelow(generated: Value, profile: Value, key: string)
    requires BothTables(generated, profile) && !Collision(generated, profile)
    requires key in generated.entries && key in profile.entries
    ensures !Collision(generated.entries[key], profile.entries[key])
  {
    forall rest ensures !Collides(generated.entries[key], profile.entries[key], rest) {
      assert !Collides(generated, profile, [key] + rest);
      CollidesAt(generated, profile, key, rest);
    }
  }

  lemma {:induction false} MergedLeaf(base: Value, generated: Value, path: Path)
    requires BothTables(base, generated)
    requires Lookup(generated, path).Some? && !Lookup(generated, path).value.Table?
    ensures Lookup(Merge(base, generated), path) == Lookup(generated, path)
    decreases path
  {
    var key := path[0];
    if key in base.entries && BothTables(base.entries[key], generated.entries[key]) {
      MergedLeaf(base.entries[key], generated.entries[key], path[1..]);
    }
  }

  /** Merging into an empty table is the same as replacing. */
  lemma MergeIntoEmpty(v: Value)
    requires v.Table?
    ensures Merge(Table(map[]), v) == v
  {
  }

  /** The order of the two upper layers does not matter. */
  lemma {:induction false} LayersCommute(base: Value, generated: Value, profile: Value)
    requires base.Table? && BothTables(generated, profile) && !Collision(generated, profile)
    ensures Merge(Merge(base, generated), profile) == Merge(Merge(base, profile), generated)
    decreases generated
  {
    var one, two := Merge(Merge(base, generated), profile), Merge(Merge(base, profile), generated);
    forall key | key in one.entries ensures one.entries[key] == two.entries[key] {
      CommuteAt(base, generated, profile, key);
    }
    assert one.entries == two.entries;
  }

  lemma {:induction false} CommuteAt(base: Value, generated: Value, profile: Value, key: string)
    requires base.Table? && BothTables(generated, profile) && !Collision(generated, profile)
    requires key in base.entries.Keys + generated.entries.Keys + profile.entries.Keys
    ensures Merge(Merge(base, generated), profile).entries[key] == Merge(Merge(base, profile), generated).entries[key]
    decreases generated, 0
  {
    if key in generated.entries && key in profile.entries {
      var g, p := generated.entries[key], profile.entries[key];
      CollidesAt(generated, profile, key, []);
      NoCollisionBelow(generated, profile, key);
      assert !Clash(g, p);
      var b := if key in base.entries && base.entries[key].Table? then base.entries[key] else Table(map[]);
      MergeIntoEmpty(g);
      MergeIntoEmpty(p);
      LayersCommute(b, g, p);
    }
  }

  /** Why the guard is needed: at a clash of unlike values the profile's value is the one that survives. */
  lemma {:induction false} ClashIsOverwritten(base: Value, generated: Value, profile: Value, path: Path)
    requires base.Table? && Collides(generated, profile, path)
    requires Lookup(generated, path).Some? && Lookup(profile, path).Some?
    requires !BothTables(Lookup(generated, path).value, Lookup(profile, path).value)
    ensures Lookup(Merge(Merge(base, generated), profile), path) == Lookup(profile, path)
    decreases path
  {
    var key := path[0];
    var g, p := generated.entries[key], profile.entries[key];
    if |path| > 1 {
      var b := if key in base.entries && base.entries[key].Table? then base.entries[key] else Table(map[]);
      MergeIntoEmpty(g);
      assert Merge(base, generated).entries[key] == Merge(b, g);
      ClashIsOverwritten(b, g, p, path[1..]);
    } else {
      assert path[1..] == [];
      var m := Merge(base, generated).entries[key];
    }
  }

  /** The empty key defeats the guard: the merge is accepted and the generated value is gone. */
  lemma EmptyKeyBypassesGuard()
    ensures var generated := Table(map["" := Scalar("pinned"), "image" := Scalar("sha256")]);
            var profile := Table(map["" := Scalar("mine"), "image" := Scalar("latest")]);
            && Collides(generated, profile, [""]) && Collides(generated, profile, ["image"])
            && Lookup(Merge(Merge(Table(map[]), generated), profile), ["image"]) == Some(Scalar("latest"))
  {
    var generated := Table(map["" := Scalar("pinned"), "image" := Scalar("sha256")]);
    var profile := Table(map["" := Scalar("mine"), "image" := Scalar("latest")]);
    var merged := Merge(Merge(Table(map[]), generated), profile);
    assert merged.entries["image"] == Scalar("latest");
    assert ["image"][1..] == [];
  }
}
