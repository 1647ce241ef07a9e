/** The same merge on mutable maps and lists, where sharing between layers would be visible. */
module ValuesInPlace {
  import opened ValuesMerge

  /** A decoded YAML value: text, a map, or a list. */
  datatype Any = Text(text: string) | MapRef(node: MapNode) | ListRef(list: ListNode)

  class MapNode {
    var entries: map<string, Any>
    /** For a map built here: the objects each entry owns. */
    ghost var parts: map<string, set<object>>

    constructor (entries: map<string, Any>, ghost parts: map<string, set<object>>)
      ensures this.entries == entries && this.parts == parts
    {
      this.entries, this.parts := entries, parts;
    }
  }

  class ListNode {
    var items: seq<Any>

    constructor (items: seq<Any>)
      ensures this.items == items
    {
      this.items := items;
    }
  }

  /** The object graph under `a`, all of it inside `fp`, reads as the value `v`. Sharing is allowed. */
  ghost predicate Denotes(a: Any, v: Value, fp: set<object>)
    reads fp
    decreases v
  {
    match v
    case Scalar(text) => a == Text(text)
    case List(vs) =>
      && a.ListRef? && a.list in fp && |a.list.items| == |vs|
      && forall i :: 0 <= i < |vs| ==> Denotes(a.list.items[i], vs[i], fp)
    case Table(m) =>
      && a.MapRef? && a.node in fp && a.node.entries.Keys == m.Keys
      && forall k :: k in m ==> Denotes(a.node.entries[k], m[k], fp)
  }

  /** As Denotes, and every map exclusively owns what hangs under each of its keys. */
  ghost predicate Owned(a: Any, v: Value, fp: set<object>)
    reads fp
    decreases v
  {
    if !v.Table? then Denotes(a, v, fp)
    else
      && a.MapRef? && a.node in fp
      && a.node.entries.Keys == v.entries.Keys && a.node.parts.Keys == v.entries.Keys
      && (forall k :: k in v.entries ==>
            && a.node.parts[k] <= fp && a.node !in a.node.parts[k]
            && Owned(a.node.entries[k], v.entries[k], a.node.parts[k]))
      && (forall j, k :: j in v.entries && k in v.entries && j != k ==> a.node.parts[j] !! a.node.parts[k])
  }

  lemma {:induction false} DenotesGrows(a: Any, v: Value, fp: set<object>, more: set<object>)
    requires Denotes(a, v, fp) && fp <= more
    ensures Denotes(a, v, more)
    decreases v
  {
    match v
    case Scalar(_) =>
    case List(vs) =>
      forall i | 0 <= i < |vs| ensures Denotes(a.list.items[i], vs[i], more) {
        DenotesGrows(a.list.items[i], vs[i], fp, more);
      }
    case Table(m) =>
      forall k | k in m ensures Denotes(a.node.entries[k], m[k], more) {
        DenotesGrows(a.node.entries[k], m[k], fp, more);
      }
  }

  /** Ownership includes denotation. */
  lemma {:induction false} OwnedDenotes(a: Any, v: Value, fp: set<object>)
    requires Owned(a, v, fp)
    ensures Denotes(a, v, fp)
    decreases v
  {
    if v.Table? {
      forall k | k in v.entries ensures Denotes(a.node.entries[k], v.entries[k], fp) {
        OwnedDenotes(a.node.entries[k], v.entries[k], a.node.parts[k]);
        DenotesGrows(a.node.entries[k], v.entries[k], a.node.parts[k], fp);
      }
    }
  }

  // ------------------------------------------------------------------------ cloning

  /** A deep copy made of new objects only. */
  method CloneValue(a: Any, ghost v: Value, ghost fp: set<object>) returns (b: Any, ghost own: set<object>)
    requires Denotes(a, v, fp)
    ensures Owned(b, v, own) && fresh(own)
    decreases v, 1
  {
    match a
    case Text(text) =>
      b, own := a, {};
    case MapRef(node) =>
      var copy: MapNode;
      copy, own := CloneMap(node, v, fp);
      b := MapRef(copy);
    case ListRef(list) =>
      var items: seq<Any> := [];
      own := {};
      ghost var vs := v.items;
      for i := 0 to |list.items|
        invariant |items| == i && fresh(own)
        invariant forall k :: 0 <= k < i ==> Denotes(items[k], vs[k], own)
      {
        ghost var before := own;
        var item, itemOwn := CloneValue(list.items[i], vs[i], fp);
        OwnedDenotes(item, vs[i], itemOwn);
        own := own + itemOwn;
        forall k | 0 <= k < i ensures Denotes(items[k], vs[k], own) {
          DenotesGrows(items[k], vs[k], before, own);
        }
        DenotesGrows(item, vs[i], itemOwn, own);
        items := items + [item];
      }
      var copy := new ListNode(items);
      ghost var before := own;
      own := own + {copy};
      forall k | 0 <= k < |vs| ensures Denotes(items[k], vs[k], own) {
        DenotesGrows(items[k], vs[k], before, own);
      }
      b := ListRef(copy);
  }

  /** clonePlatformValues: keys are visited in no particular order. */
  method CloneMap(node: MapNode, ghost v: Value, ghost fp: set<object>) returns (copy: MapNode, ghost own: set<object>)
    requires v.Table? && Denotes(MapRef(node), v, fp)
    ensures Owned(MapRef(copy), v, own) && fresh(own)
    decreases v, 0
  {
    hide Owned, Denotes, Cloned;
    KindsAgree(MapRef(node), v, fp);
    var entries: map<string, Any> := map[];
    ghost var parts: map<string, set<object>> := map[];
    own := {};
    NoneCloned(v.entries);
    var rest := node.entries.Keys;
    assert v.entries.Keys - rest == {};
    while rest != {}
      invariant rest <= node.entries.Keys && fresh(own)
      invariant Cloned(entries, v.entries, parts, own, v.entries.Keys - rest)
      decreases |rest|
    {
      var key :| key in rest;
      DenotesEntry(node, v, fp, key);
      var item, itemOwn := CloneValue(node.entries[key], v.entries[key], fp);
      OneMoreCloned(entries, v.entries, parts, own, v.entries.Keys - rest, key, item, itemOwn);
      assert v.entries.Keys - rest + {key} == v.entries.Keys - (rest - {key});
      entries := entries[key := item];
      parts := parts[key := itemOwn];
      own := own + itemOwn;
      rest := rest - {key};
    }
    assert v.entries.Keys - rest == v.entries.Keys;
    copy := OwningNode(entries, parts, v, own);
    own := own + {copy};
  }

  /** A new map that owns the finished entries. */
  method OwningNode(entries: map<string, Any>, ghost parts: map<string, set<object>>, ghost v: Value,
                    ghost own: set<object>) returns (node: MapNode)
    requires v.Table? && Cloned(entries, v.entries, parts, own, v.entries.Keys)
    ensures fresh(node) && Owned(MapRef(node), v, own + {node})
  {
    PartsInside(entries, v.entries, parts, own);
    hide Owned, EntriesOwned;
    node := new MapNode(entries, parts);
    MoreOwned(entries, v.entries, parts, own, own + {node});
    OwnedEntries(node, v, own + {node});
  }

  /** A set of entries, each owning its part of `own` exclusively. */
  ghost predicate EntriesOwned(entries: map<string, Any>, m: map<string, Value>, parts: map<string, set<object>>,
                               own: set<object>)
    reads own
  {
    && entries.Keys == parts.Keys && entries.Keys <= m.Keys
    && (forall k :: k in parts ==> parts[k] <= own && Owned(entries[k], m[k], parts[k]))
    && (forall j, k :: j in parts && k in parts && j != k ==> parts[j] !! parts[k])
  }

  lemma PartsInside(entries: map<string, Any>, m: map<string, Value>, parts: map<string, set<object>>, own: set<object>)
    requires EntriesOwned(entries, m, parts, own)
    ensures entries.Keys == parts.Keys && forall k :: k in parts ==> parts[k] <= own
  {
  }

  /** The entries of the keys in `done`, and no others. */
  ghost predicate Cloned(entries: map<string, Any>, m: map<string, Value>, parts: map<string, set<object>>,
                         own: set<object>, done: set<string>)
    reads own
  {
    entries.Keys == done && EntriesOwned(entries, m, parts, own)
  }

  lemma NoneCloned(m: map<string, Value>)
    ensures Cloned(map[], m, map[], {}, {})
  {
  }

  lemma OneMoreCloned(entries: map<string, Any>, m: map<string, Value>, parts: map<string, set<object>>, own: set<object>,
                      done: set<string>, key: string, item: Any, itemOwn: set<object>)
    requires Cloned(entries, m, parts, own, done) && key in m && Owned(item, m[key], itemOwn) && itemOwn !! own
    ensures Cloned(entries[key := item], m, parts[key := itemOwn], own + itemOwn, done + {key})
  {
    PartsInside(entries, m, parts, own);
    SetEntry(entries, m, parts, own, key, item, m[key], itemOwn);
    assert m[key := m[key]] == m;
  }

  lemma MoreOwned(entries: map<string, Any>, m: map<string, Value>, parts: map<string, set<object>>, own: set<object>,
                  more: set<object>)
    requires EntriesOwned(entries, m, parts, own) && own <= more
    ensures EntriesOwned(entries, m, parts, more)
  {
  }

  lemma SetEntry(entries: map<string, Any>, m: map<string, Value>, parts: map<string, set<object>>, own: set<object>,
                 key: string, item: Any, value: Value, itemOwn: set<object>)
    requires EntriesOwned(entries, m, parts, own)
    requires Owned(item, value, itemOwn)
    requires forall k :: k in parts && k != key ==> parts[k] !! itemOwn
    ensures EntriesOwned(entries[key := item], m[key := value], parts[key := itemOwn], own + itemOwn)
  {
  }

  lemma DropEntry(entries: map<string, Any>, m: map<string, Value>, parts: map<string, set<object>>, own: set<object>,
                  key: string, dest: object)
    requires EntriesOwned(entries, m, parts, own) && key in parts && forall k :: k in parts ==> dest !in parts[k]
    ensures EntriesOwned(entries - {key}, m, parts - {key}, own - parts[key] - {dest})
    ensures parts[key] <= own && Owned(entries[key], m[key], parts[key])
    ensures forall k :: k in parts - {key} ==> parts[k] <= own - parts[key] - {dest}
  {
  }

  /** The inverse of DropEntry, with a new value and a new part. */
  lemma PutBack(entries: map<string, Any>, m: map<string, Value>, parts: map<string, set<object>>, others: set<object>,
                key: string, value: Value, part: set<object>, own: set<object>)
    requires key in entries && entries.Keys == parts.Keys
    requires EntriesOwned(entries - {key}, m, parts - {key}, others)
    requires Owned(entries[key], value, part) && part !! others && others + part <= own
    ensures EntriesOwned(entries, m[key := value], parts[key := part], own)
  {
    PartsInside(entries - {key}, m, parts - {key}, others);
    hide Owned, EntriesOwned;
    SetEntry(entries - {key}, m, parts - {key}, others, key, entries[key], value, part);
    assert (entries - {key})[key := entries[key]] == entries;
    assert (parts - {key})[key := part] == parts[key := part];
    MoreOwned(entries, m[key := value], parts[key := part], others + part, own);
  }

  lemma OwnedEntries(node: MapNode, v: Value, fp: set<object>)
    requires v.Table? && node in fp
    ensures Owned(MapRef(node), v, fp) <==>
            && EntriesOwned(node.entries, v.entries, node.parts, fp) && node.entries.Keys == v.entries.Keys
            && forall k :: k in node.parts ==> node !in node.parts[k]
  {
  }

  // ------------------------------------------------------------------------- merging

  /** The part of a merge done so far: finished keys merged, the others as they were. */
  ghost predicate PartlyMerged(m: map<string, Value>, d: Value, s: Value, done: set<string>)
    requires d.Table? && s.Table?
  {
    && m.Keys == d.entries.Keys + done && done <= s.entries.Keys
    && forall k :: k in m ==> m[k] == if k in done then Merge(d, s).entries[k] else d.entries[k]
  }

  lemma PartlyMergedStep(m: map<string, Value>, d: Value, s: Value, done: set<string>, key: string)
    requires d.Table? && s.Table? && PartlyMerged(m, d, s, done) && key in s.entries && key !in done
    ensures PartlyMerged(m[key := MergedAt(m, key, s.entries[key])], d, s, done + {key})
  {
  }

  lemma PartlyMergedStart(d: Value, s: Value)
    requires d.Table? && s.Table?
    ensures PartlyMerged(d.entries, d, s, {})
  {
  }

  lemma DenotesEntry(node: MapNode, s: Value, fp: set<object>, key: string)
    requires Denotes(MapRef(node), s, fp) && key in node.entries
    ensures s.Table? && key in s.entries && Denotes(node.entries[key], s.entries[key], fp)
  {
  }

  lemma FullyMerged(m: map<string, Value>, d: Value, s: Value)
    requires d.Table? && s.Table? && PartlyMerged(m, d, s, s.entries.Keys)
    ensures m == Merge(d, s).entries
  {
  }

  /** A map reads as a table and nothing else does. */
  lemma KindsAgree(a: Any, v: Value, fp: set<object>)
    requires Denotes(a, v, fp) || Owned(a, v, fp)
    ensures a.MapRef? <==> v.Table?
    ensures a.MapRef? ==> a.node in fp && a.node.entries.Keys == v.entries.Keys
  {
  }

  /**
   mergePlatformValues: updates the destination in place until it reads as the merge. Everything the result
   holds was owned by the destination or is new; the source is not touched.
   */
  method MergeInto(dest: MapNode, ghost d: Value, ghost fp: set<object>,
                   source: MapNode, ghost s: Value, ghost sourceFp: set<object>) returns (ghost own: set<object>)
    requires d.Table? && Owned(MapRef(dest), d, fp)
    requires s.Table? && Denotes(MapRef(source), s, sourceFp)
    requires fp !! sourceFp
    modifies fp
    ensures Owned(MapRef(dest), Merge(d, s), own) && fresh(own - fp)
    decreases s, 1
  {
    hide Owned, EntriesOwned, Denotes, Merge, PartlyMerged;
    PartlyMergedStart(d, s);
    own := fp;
    ghost var m := d.entries;
    KindsAgree(MapRef(dest), d, fp);
    KindsAgree(MapRef(source), s, sourceFp);
    OwnedEntries(dest, d, fp);
    var rest := source.entries.Keys;
    assert s.entries.Keys - rest == {};
    while rest != {}
      invariant Denotes(MapRef(source), s, sourceFp)
      invariant rest <= s.entries.Keys && PartlyMerged(m, d, s, s.entries.Keys - rest)
      invariant fresh(own - fp) && own !! sourceFp && Holds(dest, m, own)
      decreases |rest|
    {
      var key :| key in rest;
      KindsAgree(MapRef(source), s, sourceFp);
      var value := source.entries[key];
      DenotesEntry(source, s, sourceFp, key);
      PartlyMergedStep(m, d, s, s.entries.Keys - rest, key);
      assert s.entries.Keys - rest + {key} == s.entries.Keys - (rest - {key});
      own := MergeKey(dest, m, own, key, value, s.entries[key], sourceFp);
      m := m[key := MergedAt(m, key, s.entries[key])];
      rest := rest - {key};
    }
    assert s.entries.Keys - rest == s.entries.Keys;
    FullyMerged(m, d, s);
    OwnedEntries(dest, Merge(d, s), own);
  }

  ghost function MergedAt(m: map<string, Value>, key: string, value: Value): Value {
    if key in m && m[key].Table? && value.Table? then Merge(m[key], value) else value
  }

  /** A map under construction: it holds `m`, and owns what it holds. */
  ghost predicate Holds(dest: MapNode, m: map<string, Value>, fp: set<object>)
    reads dest, fp
  {
    && dest in fp && EntriesOwned(dest.entries, m, dest.parts, fp) && dest.entries.Keys == m.Keys
    && forall k :: k in dest.parts ==> dest !in dest.parts[k]
  }

  /** One key: two maps are merged in place, anything else is replaced by a copy. */
  method MergeKey(dest: MapNode, ghost m: map<string, Value>, ghost fp: set<object>,
                  key: string, value: Any, ghost v: Value, ghost sourceFp: set<object>) returns (ghost own: set<object>)
    requires Holds(dest, m, fp) && Denotes(value, v, sourceFp) && fp !! sourceFp
    modifies fp
    ensures fresh(own - fp) && Holds(dest, m[key := MergedAt(m, key, v)], own)
    decreases v, 3
  {
    hide Owned;
    KindsAgree(value, v, sourceFp);
    if key in dest.entries {
      KindsAgree(dest.entries[key], m[key], dest.parts[key]);
    }
    if value.MapRef? && key in dest.entries && dest.entries[key].MapRef? {
      own := MergeChild(dest, m, fp, key, value.node, v, sourceFp);
    } else {
      own := ReplaceChild(dest, m, fp, key, value, v, sourceFp);
    }
  }

  method MergeChild(dest: MapNode, ghost m: map<string, Value>, ghost fp: set<object>,
                    key: string, source: MapNode, ghost v: Value, ghost sourceFp: set<object>) returns (ghost own: set<object>)
    requires Holds(dest, m, fp) && v.Table? && Denotes(MapRef(source), v, sourceFp) && fp !! sourceFp
    requires key in m && m[key].Table? && dest.entries[key].MapRef?
    modifies fp
    ensures fresh(own - fp) && Holds(dest, m[key := Merge(m[key], v)], own)
    decreases v, 2
  {
    hide Owned, EntriesOwned, Denotes, Merge, Holds;
    HoldsApart(dest, m, fp, key);
    var child := dest.entries[key];
    ghost var part, parts := dest.parts[key], dest.parts;
    ghost var others := fp - part - {dest};
    ghost var newPart := MergeInto(child.node, m[key], part, source, v, sourceFp);
    dest.parts := parts[key := newPart];
    own := fp + newPart;
    HoldsAgain(dest, m, parts, others, key, Merge(m[key], v), newPart, own);
  }

  /** Taking one entry out of a map that holds `m`. */
  lemma HoldsApart(dest: MapNode, m: map<string, Value>, fp: set<object>, key: string)
    requires Holds(dest, m, fp) && key in m
    ensures dest in fp && dest.entries.Keys == m.Keys == dest.parts.Keys
    ensures forall k :: k in dest.parts ==> dest !in dest.parts[k]
    ensures dest.parts[key] <= fp && Owned(dest.entries[key], m[key], dest.parts[key])
    ensures EntriesOwned(dest.entries - {key}, m, dest.parts - {key}, fp - dest.parts[key] - {dest})
  {
    DropEntry(dest.entries, m, dest.parts, fp, key, dest);
  }

  /** Putting an entry back with a new value. */
  lemma HoldsAgain(dest: MapNode, m: map<string, Value>, parts: map<string, set<object>>, others: set<object>,
                   key: string, value: Value, part: set<object>, own: set<object>)
    requires key in m && dest.entries.Keys == m.Keys == parts.Keys && dest.parts == parts[key := part]
    requires EntriesOwned(dest.entries - {key}, m, parts - {key}, others)
    requires Owned(dest.entries[key], value, part) && part !! others && others + part <= own
    requires dest in own && forall k :: k in dest.parts ==> dest !in dest.parts[k]
    ensures Holds(dest, m[key := value], own)
  {
    PutBack(dest.entries, m, parts, others, key, value, part, own);
  }

  method ReplaceChild(dest: MapNode, ghost m: map<string, Value>, ghost fp: set<object>,
                      key: string, value: Any, ghost v: Value, ghost sourceFp: set<object>) returns (ghost own: set<object>)
    requires Holds(dest, m, fp) && Denotes(value, v, sourceFp)
    modifies dest
    ensures fresh(own - fp) && fp <= own && Holds(dest, m[key := v], own)
  {
    hide Owned;
    var item, itemOwn := CloneValue(value, v, sourceFp);
    SetEntry(dest.entries, m, dest.parts, fp, key, item, v, itemOwn);
    dest.entries := dest.entries[key := item];
    dest.parts := dest.parts[key := itemOwn];
    own := fp + itemOwn;
  }

  // ---------------------------------------------------------------------- the layers

  /**
   The three layers combined. The method has no modifies clause, so the inputs are untouched; the result reads
   as the merge and consists of new objects only, so it shares no map and no list with them.
   */
  method MergeLayers(operational: MapNode, generated: MapNode, profile: MapNode,
                     ghost o: Value, ghost g: Value, ghost p: Value, ghost inputs: set<object>)
    returns (merged: MapNode, ghost own: set<object>)
    requires o.Table? && g.Table? && p.Table?
    requires Denotes(MapRef(operational), o, inputs) && Denotes(MapRef(generated), g, inputs)
    requires Denotes(MapRef(profile), p, inputs)
    ensures Denotes(MapRef(merged), Merge(Merge(o, g), p), own) && fresh(own)
  {
    merged, own := CloneMap(operational, o, inputs);
    own := MergeInto(merged, o, own, generated, g, inputs);
    own := MergeInto(merged, Merge(o, g), own, profile, p, inputs);
    OwnedDenotes(MapRef(merged), Merge(Merge(o, g), p), own);
  }
}
