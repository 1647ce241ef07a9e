/** The Git tree of a snapshot: built path by path, hashed bottom up. */
module SnapshotTree {
  import opened Outcomes
  import Sorting
  import Text

  type Hash = string

  datatype Mode = Plain | Runnable | Link | Dir

  /** One line of a tree object. */
  datatype Line = Line(name: string, mode: Mode, hash: Hash)

  datatype Tree = Tree(entries: seq<Line>, directories: map<string, Tree>)

  const EMPTY := Tree([], map[])

  /** One file to add: its path components, mode and blob hash. */
  datatype Item = Item(path: seq<string>, mode: Mode, hash: Hash)

  // ------------------------------------------------------------------------- adding

  predicate GoodComponent(c: string) {
    c != "" && c != "." && c != ".."
  }

  predicate GoodPath(path: seq<string>) {
    path != [] && forall i :: 0 <= i < |path| ==> GoodComponent(path[i]) && '/' !in path[i]
  }

  predicate ComponentsGood(path: seq<string>) {
    forall i :: 0 <= i < |path| ==> GoodComponent(path[i])
  }

  function Child(t: Tree, name: string): Tree {
    if name in t.directories then t.directories[name] else EMPTY
  }

  function Add(t: Tree, item: Item): (r: Tree)
    requires item.path != []
    decreases |item.path|
  {
    if |item.path| == 1 then t.(entries := t.entries + [Line(item.path[0], item.mode, item.hash)])
    else
      var inner := Add(Child(t, item.path[0]), item.(path := item.path[1..]));
      t.(directories := t.directories[item.path[0] := inner])
  }

  function Build(items: seq<Item>): (t: Tree)
    requires forall i :: 0 <= i < |items| ==> items[i].path != []
  {
    if items == [] then EMPTY else Add(Build(items[..|items| - 1]), items[|items| - 1])
  }

  // --------------------------------------------------------------------- flattening

  /** How many times the tree holds a file: the multiplicity function of its flattening. */
  function Occurs(t: Tree, item: Item): nat
    decreases |item.path|
  {
    if item.path == [] then 0
    else if |item.path| == 1 then multiset(t.entries)[Line(item.path[0], item.mode, item.hash)]
    else if item.path[0] in t.directories then Occurs(t.directories[item.path[0]], item.(path := item.path[1..]))
    else 0
  }

  lemma OccursEmpty(item: Item)
    ensures Occurs(EMPTY, item) == 0
  {
  }

  /** Adding a file adds exactly that file. */
  lemma {:induction false} AddAddsOne(t: Tree, item: Item, other: Item)
    requires item.path != []
    ensures Occurs(Add(t, item), other) == Occurs(t, other) + if other == item then 1 else 0
    decreases |item.path|
  {
    if |item.path| > 1 && |other.path| > 1 && item.path[0] == other.path[0] {
      var below, otherBelow := item.(path := item.path[1..]), other.(path := other.path[1..]);
      AddAddsOne(Child(t, item.path[0]), below, otherBelow);
      OccursEmpty(otherBelow);
      assert item.path == [item.path[0]] + item.path[1..] && other.path == [other.path[0]] + other.path[1..];
    }
    if |item.path| == 1 && |other.path| == 1 {
      assert item.path == [item.path[0]] && other.path == [other.path[0]];
    }
  }

  /** Flattening the tree gives back exactly the files that were added, with their multiplicities. */
  lemma {:induction false} BuildFlattens(items: seq<Item>, item: Item)
    requires forall i :: 0 <= i < |items| ==> items[i].path != []
    ensures Occurs(Build(items), item) == multiset(items)[item]
    decreases |items|
  {
    hide Occurs, Add;
    if items == [] {
      OccursEmpty(item);
    } else {
      var front, last := items[..|items| - 1], items[|items| - 1];
      BuildFlattens(front, item);
      AddAddsOne(Build(front), last, item);
      assert items == front + [last];
    }
  }

  // ------------------------------------------------------------------------ hashing

  /** The sort key of a tree line: directories compare as if their name ended in a slash. */
  function Key(e: Line): string {
    if e.mode.Dir? then e.name + "/" else e.name
  }

  predicate SortedLines(lines: seq<Line>) {
    forall i, j :: 0 <= i < j < |lines| ==> Text.Le(Key(lines[i]), Key(lines[j]))
  }

  function DirLines(hashes: map<string, Hash>): set<Line> {
    set name | name in hashes :: Line(name, Dir, hashes[name])
  }

  /**
   `h` is a hash the code may compute for the tree: its lines and those of its directories, in some order that
   sorts them, encoded and hashed. Equal keys may come out in any order.
   */
  ghost predicate IsTreeHash(encode: seq<Line> -> Hash, t: Tree, h: Hash)
    decreases t
  {
    exists hashes: map<string, Hash>, lines: seq<Line> :: TreeHashBy(encode, t, h, hashes, lines)
  }

  ghost predicate TreeHashBy(encode: seq<Line> -> Hash, t: Tree, h: Hash, hashes: map<string, Hash>, lines: seq<Line>)
    decreases t, 0
  {
    && hashes.Keys == t.directories.Keys
    && (forall name :: name in hashes ==> IsTreeHash(encode, t.directories[name], hashes[name]))
    && multiset(lines) == multiset(t.entries) + multiset(DirLines(hashes))
    && SortedLines(lines)
    && h == encode(lines)
  }

  lemma DirLinesAdd(hashes: map<string, Hash>, name: string, hash: Hash)
    requires name !in hashes
    ensures DirLines(hashes[name := hash]) == DirLines(hashes) + {Line(name, Dir, hash)}
    ensures Line(name, Dir, hash) !in DirLines(hashes)
    ensures multiset(DirLines(hashes[name := hash])) == multiset(DirLines(hashes)) + multiset{Line(name, Dir, hash)}
  {
    var more := hashes[name := hash];
    forall e | e in DirLines(hashes) ensures e in DirLines(more) {
      assert more[e.name] == hashes[e.name];
    }
    assert name in more && Line(name, Dir, more[name]) == Line(name, Dir, hash);
    forall e | e in DirLines(more) ensures e in DirLines(hashes) + {Line(name, Dir, hash)} {
      if e.name != name {
        assert hashes[e.name] == more[e.name];
      }
    }
  }

  /** The lines of the directories in `done`, each with a hash of its tree, next to the node's own. */
  ghost predicate Collected(encode: seq<Line> -> Hash, t: Tree, done: set<string>, hashes: map<string, Hash>,
                            lines: seq<Line>)
  {
    && hashes.Keys == done && done <= t.directories.Keys
    && (forall name :: name in hashes ==> IsTreeHash(encode, t.directories[name], hashes[name]))
    && multiset(lines) == multiset(t.entries) + multiset(DirLines(hashes))
  }

  lemma NoneCollected(encode: seq<Line> -> Hash, t: Tree)
    ensures Collected(encode, t, {}, map[], t.entries)
  {
    assert DirLines(map[]) == {};
  }

  lemma OneMoreCollected(encode: seq<Line> -> Hash, t: Tree, done: set<string>, hashes: map<string, Hash>,
                         lines: seq<Line>, name: string, hash: Hash)
    requires Collected(encode, t, done, hashes, lines) && name in t.directories && name !in done
    requires IsTreeHash(encode, t.directories[name], hash)
    ensures Collected(encode, t, done + {name}, hashes[name := hash], lines + [Line(name, Dir, hash)])
  {
    hide DirLines, IsTreeHash;
    DirLinesAdd(hashes, name, hash);
  }

  lemma AllCollected(encode: seq<Line> -> Hash, t: Tree, hashes: map<string, Hash>, lines: seq<Line>, sorted: seq<Line>)
    requires Collected(encode, t, t.directories.Keys, hashes, lines)
    requires multiset(sorted) == multiset(lines) && SortedLines(sorted)
    ensures IsTreeHash(encode, t, encode(sorted))
  {
    hide DirLines, SortedLines;
    assert TreeHashBy(encode, t, encode(sorted), hashes, sorted);
  }

  method SortLines(lines: seq<Line>) returns (sorted: seq<Line>)
    ensures multiset(sorted) == multiset(lines) && SortedLines(sorted)
  {
    sorted := Sorting.SortByText(lines, Key);
  }

  /** With distinct keys there is only one way to sort. */
  lemma SortedLinesUnique(a: seq<Line>, b: seq<Line>)
    requires multiset(a) == multiset(b) && SortedLines(a) && SortedLines(b)
    requires forall x, y :: x in multiset(a) && y in multiset(a) && Key(x) == Key(y) ==> x == y
    ensures a == b
  {
    forall x, y | x in a && y in a && Key(x) == Key(y) ensures x == y {
      assert x in multiset(a) && y in multiset(a);
    }
    Sorting.SortedByTextUnique(a, b, Key);
  }

  // ---------------------------------------------------------------- equivalent trees

  /** Every directory holds at least one file somewhere below. */
  ghost predicate NoEmptyDirectory(t: Tree)
    decreases t
  {
    forall name :: name in t.directories ==>
      (exists item :: Occurs(t.directories[name], item) > 0) && NoEmptyDirectory(t.directories[name])
  }

  /** At most one file per path, and no slash or directory mode inside a line. */
  ghost predicate OnePerPath(t: Tree) {
    && (forall a, b :: Occurs(t, a) > 0 && Occurs(t, b) > 0 && a.path == b.path ==> a == b)
    && (forall a :: Occurs(t, a) <= 1)
    && (forall a :: Occurs(t, a) > 0 ==> !a.mode.Dir? && forall i :: 0 <= i < |a.path| ==> '/' !in a.path[i])
  }

  ghost predicate SameFiles(a: Tree, b: Tree) {
    forall item :: Occurs(a, item) == Occurs(b, item)
  }

  lemma OccursBelow(t: Tree, name: string, item: Item)
    requires name in t.directories && item.path != []
    ensures Occurs(t, item.(path := [name] + item.path)) == Occurs(t.directories[name], item)
  {
    assert ([name] + item.path)[1..] == item.path;
  }

  lemma ChildOnePerPath(t: Tree, name: string)
    requires OnePerPath(t) && name in t.directories
    ensures OnePerPath(t.directories[name])
  {
    var child := t.directories[name];
    forall a | Occurs(child, a) > 0
      ensures Occurs(t, a.(path := [name] + a.path)) == Occurs(child, a)
    {
      OccursBelow(t, name, a);
    }
    forall a, b | Occurs(child, a) > 0 && Occurs(child, b) > 0 && a.path == b.path ensures a == b {
      var x, y := a.(path := [name] + a.path), b.(path := [name] + b.path);
      assert Occurs(t, x) > 0 && Occurs(t, y) > 0;
      assert x == y;
    }
    forall a | Occurs(child, a) > 0
      ensures Occurs(child, a) <= 1 && !a.mode.Dir? && forall i :: 0 <= i < |a.path| ==> '/' !in a.path[i]
    {
      var x := a.(path := [name] + a.path);
      assert Occurs(t, x) > 0;
      forall i | 0 <= i < |a.path| ensures '/' !in a.path[i] {
        assert x.path[i + 1] == a.path[i];
      }
    }
  }

  lemma ChildNoEmpty(t: Tree, name: string)
    requires NoEmptyDirectory(t) && name in t.directories
    ensures NoEmptyDirectory(t.directories[name])
  {
  }

  lemma SameFilesSymmetric(a: Tree, b: Tree)
    requires SameFiles(a, b)
    ensures SameFiles(b, a)
  {
  }

  lemma ChildSameFiles(a: Tree, b: Tree, name: string)
    requires SameFiles(a, b) && name in a.directories && name in b.directories
    ensures SameFiles(a.directories[name], b.directories[name])
  {
    forall item ensures Occurs(a.directories[name], item) == Occurs(b.directories[name], item) {
      if item.path != [] {
        OccursBelow(a, name, item);
        OccursBelow(b, name, item);
      }
    }
  }

  lemma SameEntries(a: Tree, b: Tree)
    requires SameFiles(a, b)
    ensures multiset(a.entries) == multiset(b.entries)
  {
    forall e ensures multiset(a.entries)[e] == multiset(b.entries)[e] {
      var item := Item([e.name], e.mode, e.hash);
      assert Occurs(a, item) == Occurs(b, item);
    }
  }

  lemma SameDirectories(a: Tree, b: Tree)
    requires SameFiles(a, b) && NoEmptyDirectory(a)
    ensures a.directories.Keys <= b.directories.Keys
  {
    forall name | name in a.directories ensures name in b.directories {
      var item :| Occurs(a.directories[name], item) > 0;
      OccursBelow(a, name, item);
      assert Occurs(b, item.(path := [name] + item.path)) > 0;
    }
  }

  /** The lines of a node never share a sort key. */
  lemma LinesHaveDistinctKeys(t: Tree, hashes: map<string, Hash>)
    requires OnePerPath(t)
    ensures var lines := multiset(t.entries) + multiset(DirLines(hashes));
            forall x, y :: x in lines && y in lines && Key(x) == Key(y) ==> x == y
  {
    var lines := multiset(t.entries) + multiset(DirLines(hashes));
    forall x, y | x in lines && y in lines && Key(x) == Key(y) ensures x == y {
      FileLine(t, x);
      FileLine(t, y);
      if x.mode.Dir? && y.mode.Dir? {
        assert x.name == (x.name + "/")[..|x.name|] && y.name == (y.name + "/")[..|y.name|];
        assert x in DirLines(hashes) && y in DirLines(hashes);
      } else {
        DirKeyDiffers(x, y);
        DirKeyDiffers(y, x);
        assert x.mode.Dir? || x in multiset(t.entries);
        assert y.mode.Dir? || y in multiset(t.entries);
      }
    }
  }

  lemma DirKeyDiffers(d: Line, f: Line)
    ensures d.mode.Dir? && !f.mode.Dir? && '/' !in f.name ==> Key(d) != Key(f)
  {
    if d.mode.Dir? {
      assert Key(d)[|d.name|] == '/';
    }
  }

  lemma FileLine(t: Tree, e: Line)
    requires OnePerPath(t)
    ensures e in multiset(t.entries) ==> !e.mode.Dir? && '/' !in e.name
    ensures forall f :: e in multiset(t.entries) && f in multiset(t.entries) && e.name == f.name ==> e == f
  {
    var item := Item([e.name], e.mode, e.hash);
    if e in multiset(t.entries) {
      assert Occurs(t, item) > 0;
      assert item.path[0] == e.name;
      forall f | f in multiset(t.entries) && e.name == f.name ensures e == f {
        var other := Item([f.name], f.mode, f.hash);
        assert Occurs(t, other) > 0;
      }
    }
  }

  /** Trees with the same files hash to the same value, however they were built and walked. */
  lemma {:induction false} SameFilesSameHash(encode: seq<Line> -> Hash, a: Tree, b: Tree, ha: Hash, hb: Hash)
    requires SameFiles(a, b) && OnePerPath(a) && OnePerPath(b) && NoEmptyDirectory(a) && NoEmptyDirectory(b)
    requires IsTreeHash(encode, a, ha) && IsTreeHash(encode, b, hb)
    ensures ha == hb
    decreases a
  {
    hide Occurs, OnePerPath, NoEmptyDirectory, SameFiles, DirLines, SortedLines;
    var hashesA, linesA :| TreeHashBy(encode, a, ha, hashesA, linesA);
    var hashesB, linesB :| TreeHashBy(encode, b, hb, hashesB, linesB);
    SameEntries(a, b);
    SameDirectories(a, b);
    SameFilesSymmetric(a, b);
    SameDirectories(b, a);
    forall name | name in hashesA ensures hashesA[name] == hashesB[name] {
      ChildSameFiles(a, b, name);
      ChildOnePerPath(a, name);
      ChildOnePerPath(b, name);
      ChildNoEmpty(a, name);
      ChildNoEmpty(b, name);
      SameFilesSameHash(encode, a.directories[name], b.directories[name], hashesA[name], hashesB[name]);
    }
    assert hashesA == hashesB;
    LinesHaveDistinctKeys(a, hashesA);
    SortedLinesUnique(linesA, linesB);
  }

  // -------------------------------------------------------------------- main results

  /** Files as they come from an index: valid paths, all different. */
  ghost predicate Distinct(items: seq<Item>) {
    && (forall i :: 0 <= i < |items| ==> GoodPath(items[i].path) && !items[i].mode.Dir?)
    && (forall i, j :: 0 <= i < j < |items| ==> items[i].path != items[j].path)
  }

  lemma {:induction false} AddNoEmpty(t: Tree, item: Item)
    requires NoEmptyDirectory(t) && item.path != []
    ensures NoEmptyDirectory(Add(t, item)) && Occurs(Add(t, item), item) > 0
    decreases |item.path|
  {
    hide Occurs;
    AddAddsOne(t, item, item);
    if |item.path| > 1 {
      AddNoEmpty(Child(t, item.path[0]), item.(path := item.path[1..]));
    }
  }

  lemma {:induction false} BuildNoEmpty(items: seq<Item>)
    requires forall i :: 0 <= i < |items| ==> items[i].path != []
    ensures NoEmptyDirectory(Build(items))
    decreases |items|
  {
    if items != [] {
      BuildNoEmpty(items[..|items| - 1]);
      AddNoEmpty(Build(items[..|items| - 1]), items[|items| - 1]);
    }
  }

  lemma BuildOnePerPath(items: seq<Item>)
    requires Distinct(items)
    ensures OnePerPath(Build(items))
  {
    var t := Build(items);
    forall a ensures Occurs(t, a) == multiset(items)[a] {
      BuildFlattens(items, a);
    }
    forall a ensures multiset(items)[a] <= 1 {
      CountAtMostOne(items, a);
    }
    forall a | Occurs(t, a) > 0 ensures a in items {
      assert a in multiset(items);
    }
  }

  lemma {:induction false} CountAtMostOne(items: seq<Item>, a: Item)
    requires forall i, j :: 0 <= i < j < |items| ==> items[i].path != items[j].path
    ensures multiset(items)[a] <= 1
    decreases |items|
  {
    if items != [] {
      var front, last := items[..|items| - 1], items[|items| - 1];
      assert items == front + [last];
      CountAtMostOne(front, a);
      if a == last {
        assert forall i :: 0 <= i < |front| ==> front[i].path != last.path;
        assert a !in front;
      }
    }
  }

  /** The root hash does not depend on the order of insertion, nor on the order directories are walked in. */
  lemma HashIgnoresOrder(encode: seq<Line> -> Hash, a: seq<Item>, b: seq<Item>, ha: Hash, hb: Hash)
    requires Distinct(a) && Distinct(b) && multiset(a) == multiset(b)
    requires IsTreeHash(encode, Build(a), ha) && IsTreeHash(encode, Build(b), hb)
    ensures ha == hb
  {
    forall item ensures Occurs(Build(a), item) == Occurs(Build(b), item) {
      BuildFlattens(a, item);
      BuildFlattens(b, item);
    }
    BuildOnePerPath(a);
    BuildOnePerPath(b);
    BuildNoEmpty(a);
    BuildNoEmpty(b);
    SameFilesSameHash(encode, Build(a), Build(b), ha, hb);
  }
}
