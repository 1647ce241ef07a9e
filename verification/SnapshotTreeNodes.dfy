/** The linked tree nodes that `add` grows in place, tied to the trees they stand for. */
module SnapshotTreeNodes {
  import opened SnapshotTree

  class TreeNode {
    var entries: seq<Line>
    var directories: map<string, TreeNode>
    /** The objects each subdirectory owns. */
    ghost var parts: map<string, set<object>>

    constructor ()
      ensures entries == [] && directories == map[] && parts == map[]
    {
      entries, directories, parts := [], map[], map[];
    }
  }

  /** The subdirectories read as `m`, each owning its part of `fp` exclusively. */
  ghost predicate Owns(directories: map<string, TreeNode>, m: map<string, Tree>, parts: map<string, set<object>>,
                       fp: set<object>)
    reads fp
    decreases m, 1
  {
    && directories.Keys == parts.Keys && directories.Keys <= m.Keys
    && (forall k :: k in parts ==> parts[k] <= fp && Represents(directories[k], m[k], parts[k]))
    && (forall j, k :: j in parts && k in parts && j != k ==> parts[j] !! parts[k])
  }

  /** The nodes under `node`, all inside `fp`, form the tree `t` without sharing. */
  ghost predicate Represents(node: TreeNode, t: Tree, fp: set<object>)
    reads fp
    decreases t, 0
  {
    && node in fp && node.entries == t.entries && node.directories.Keys == t.directories.Keys
    && node.parts.Keys == t.directories.Keys
    && (forall k :: k in node.parts ==>
          node.parts[k] <= fp && node !in node.parts[k] && Represents(node.directories[k], t.directories[k], node.parts[k]))
    && (forall j, k :: j in node.parts && k in node.parts && j != k ==> node.parts[j] !! node.parts[k])
  }

  lemma RepresentsOwns(node: TreeNode, t: Tree, fp: set<object>)
    requires node in fp
    ensures Represents(node, t, fp) <==>
            && node.entries == t.entries && node.directories.Keys == t.directories.Keys
            && Owns(node.directories, t.directories, node.parts, fp)
            && forall k :: k in node.parts ==> node !in node.parts[k]
  {
  }

  /** Setting one subdirectory aside. */
  lemma Apart(node: TreeNode, t: Tree, fp: set<object>, key: string)
    requires Represents(node, t, fp) && key in t.directories
    ensures node in fp && node.parts.Keys == node.directories.Keys == t.directories.Keys
    ensures node.parts[key] <= fp && node !in node.parts[key]
    ensures Represents(node.directories[key], t.directories[key], node.parts[key])
    ensures Owns(node.directories - {key}, t.directories, node.parts - {key}, fp - node.parts[key] - {node})
  {
  }

  lemma ChildOf(node: TreeNode, t: Tree, fp: set<object>, key: string)
    requires Represents(node, t, fp) && key in t.directories
    ensures key in node.directories && key in node.parts
    ensures Represents(node.directories[key], t.directories[key], node.parts[key])
  {
  }

  /** Putting a subdirectory in place, next to the others. */
  lemma Together(directories: map<string, TreeNode>, m: map<string, Tree>, parts: map<string, set<object>>,
                 others: set<object>, key: string, child: TreeNode, inner: Tree, part: set<object>, fp: set<object>)
    requires Owns(directories - {key}, m, parts - {key}, others)
    requires directories.Keys == parts.Keys && directories.Keys <= m.Keys
    requires Represents(child, inner, part) && part !! others && others + part <= fp
    ensures Owns(directories[key := child], m[key := inner], parts[key := part], fp)
  {
    var ds, ps := directories[key := child], parts[key := part];
    forall k | k in ps ensures ps[k] <= fp && Represents(ds[k], m[key := inner][k], ps[k]) {
      assert k != key ==> k in parts - {key} && (parts - {key})[k] == ps[k];
    }
  }

  /**
   Adds one file below a node, creating the directories that are missing. It refuses a path with an empty, "."
   or ".." component; otherwise the nodes afterwards represent the tree with that file added, and every node
   not in the old tree is new.
   */
  method AddFile(node: TreeNode, ghost t: Tree, ghost fp: set<object>, item: Item)
    returns (ok: bool, ghost own: set<object>)
    requires Represents(node, t, fp) && item.path != []
    modifies fp
    ensures ok == ComponentsGood(item.path)
    ensures ok ==> Represents(node, Add(t, item), own) && fresh(own - fp)
    decreases |item.path|, 1
  {
    hide Represents, Owns;
    RepresentsNode(node, t, fp);
    own := fp;
    var name := item.path[0];
    if !GoodComponent(name) {
      return false, own;
    }
    if |item.path| == 1 {
      AppendLine(node, t, fp, Line(name, item.mode, item.hash));
      return true, own;
    }
    ghost var grown := t.(directories := t.directories[name := Child(t, name)]);
    if name !in node.directories {
      own := NewDirectory(node, t, fp, name);
    } else {
      assert grown == t;
    }
    assert Add(grown, item).directories == Add(t, item).directories;
    ghost var below := own;
    ok, own := Descend(node, grown, below, name, item);
    assert ComponentsGood(item.path) <==> GoodComponent(name) && ComponentsGood(item.path[1..]) by {
      assert item.path == [name] + item.path[1..];
    }
  }

  method AppendLine(node: TreeNode, ghost t: Tree, ghost fp: set<object>, line: Line)
    requires Represents(node, t, fp)
    modifies node
    ensures Represents(node, t.(entries := t.entries + [line]), fp)
  {
    node.entries := node.entries + [line];
  }

  /** An empty directory under a new name. */
  method NewDirectory(node: TreeNode, ghost t: Tree, ghost fp: set<object>, name: string) returns (ghost own: set<object>)
    requires Represents(node, t, fp) && name !in t.directories
    modifies node
    ensures Represents(node, t.(directories := t.directories[name := EMPTY]), own)
    ensures fp <= own && fresh(own - fp)
  {
    hide Represents, Owns;
    RepresentsNode(node, t, fp);
    var child := new TreeNode();
    own := fp + {child};
    EmptyNode(child);
    OneMoreOwned(node, t, fp, name, child);
    node.directories := node.directories[name := child];
    node.parts := node.parts[name := {child}];
    OwnsMore(node.directories, t.directories[name := EMPTY], node.parts, own - {node}, own);
    RepresentsOwns(node, t.(directories := t.directories[name := EMPTY]), own);
  }

  lemma OwnsMore(directories: map<string, TreeNode>, m: map<string, Tree>, parts: map<string, set<object>>,
                 fp: set<object>, more: set<object>)
    requires Owns(directories, m, parts, fp) && fp <= more
    ensures Owns(directories, m, parts, more)
  {
  }

  lemma OneMoreOwned(node: TreeNode, t: Tree, fp: set<object>, name: string, child: TreeNode)
    requires Represents(node, t, fp) && name !in t.directories && child !in fp && Represents(child, EMPTY, {child})
    ensures node.parts.Keys == node.directories.Keys && forall k :: k in node.parts ==> node !in node.parts[k]
    ensures Owns(node.directories[name := child], t.directories[name := EMPTY], node.parts[name := {child}],
                 fp + {child} - {node})
  {
  }

  /** The recursive hash: directories in no particular order, then one sort. */
  method HashNodes(encode: seq<Line> -> Hash, node: TreeNode, ghost t: Tree, ghost fp: set<object>) returns (h: Hash)
    requires Represents(node, t, fp)
    ensures IsTreeHash(encode, t, h)
    decreases t
  {
    hide SortedLines, Key, IsTreeHash, Represents, Owns, Collected;
    RepresentsNode(node, t, fp);
    var hashes: map<string, Hash> := map[];
    var lines := node.entries;
    NoneCollected(encode, t);
    var rest := node.directories.Keys;
    assert t.directories.Keys - rest == {};
    while rest != {}
      invariant rest <= node.directories.Keys && Collected(encode, t, t.directories.Keys - rest, hashes, lines)
      decreases |rest|
    {
      var name :| name in rest;
      ChildOf(node, t, fp, name);
      var child := HashNodes(encode, node.directories[name], t.directories[name], node.parts[name]);
      OneMoreCollected(encode, t, t.directories.Keys - rest, hashes, lines, name, child);
      assert t.directories.Keys - rest + {name} == t.directories.Keys - (rest - {name});
      lines := lines + [Line(name, Dir, child)];
      hashes := hashes[name := child];
      rest := rest - {name};
    }
    assert t.directories.Keys - rest == t.directories.Keys;
    var sorted := SortLines(lines);
    h := encode(sorted);
    AllCollected(encode, t, hashes, lines, sorted);
  }

  lemma EmptyNode(node: TreeNode)
    requires node.entries == [] && node.directories == map[] && node.parts == map[]
    ensures Represents(node, EMPTY, {node})
  {
  }

  /** Adds the rest of the path inside an existing subdirectory. */
  method Descend(node: TreeNode, ghost t: Tree, ghost fp: set<object>, name: string, item: Item)
    returns (ok: bool, ghost own: set<object>)
    requires Represents(node, t, fp) && name in t.directories && |item.path| > 1 && item.path[0] == name
    modifies fp
    ensures ok == ComponentsGood(item.path[1..])
    ensures ok ==> Represents(node, Add(t, item), own) && fresh(own - fp)
    decreases |item.path|, 0
  {
    hide Represents, Owns;
    Apart(node, t, fp, name);
    RepresentsNode(node, t, fp);
    var child := node.directories[name];
    ghost var part, parts := node.parts[name], node.parts;
    ghost var others := fp - part - {node};
    ghost var inner;
    ok, inner := AddFile(child, t.directories[name], part, item.(path := item.path[1..]));
    own := fp + inner;
    if ok {
      node.parts := parts[name := inner];
      Together(node.directories, t.directories, parts, others, name, child,
               Add(t.directories[name], item.(path := item.path[1..])), inner, own);
      assert node.directories[name := child] == node.directories;
      RepresentsOwns(node, Add(t, item), own);
    }
  }

  lemma RepresentsNode(node: TreeNode, t: Tree, fp: set<object>)
    requires Represents(node, t, fp)
    ensures node in fp && node.entries == t.entries && node.directories.Keys == t.directories.Keys
    ensures Owns(node.directories, t.directories, node.parts, fp)
    ensures forall k :: k in node.parts ==> node !in node.parts[k]
  {
  }
}
