/** The two identities of a snapshot, computed in one pass: the hash of its stream and its Git commit. */
module SnapshotIdentity {
  import opened Outcomes
  import opened SnapshotStream
  import Nodes = SnapshotTreeNodes
  import Sorting
  import Text
  import Tree = SnapshotTree

  /** The four hash functions: stream, blob, tree object (of its sorted lines), and commit (of its root tree). */
  datatype Hashes = Hashes(sha256: Bytes -> string, blob: Bytes -> string, tree: seq<Tree.Line> -> string,
                           commit: string -> string)

  datatype Identity = Identity(sha256: string, commit: string)

  function TreeMode(mode: Mode): Tree.Mode {
    match mode case Plain => Tree.Plain case Runnable => Tree.Runnable case Link => Tree.Link
  }

  /** The file one record adds to the tree. */
  function ItemOf(h: Hashes, e: Entry): Tree.Item {
    Tree.Item(Components(e.name), TreeMode(e.mode), h.blob(e.bytes))
  }

  function ItemsOf(h: Hashes, entries: seq<Entry>): (items: seq<Tree.Item>)
    ensures |items| == |entries| && forall i :: 0 <= i < |items| ==> items[i] == ItemOf(h, entries[i])
    ensures forall i :: 0 <= i < |items| ==> items[i].path != []
  {
    seq(|entries|, i requires 0 <= i < |entries| => ItemOf(h, entries[i]))
  }

  /** What a record adds to the tree tells the record, unless two contents collide. */
  lemma ItemIdentifies(h: Hashes, a: Entry, b: Entry)
    requires h.blob(a.bytes) == h.blob(b.bytes) ==> a.bytes == b.bytes
    ensures ItemOf(h, a) == ItemOf(h, b) <==> a == b
  {
    if ItemOf(h, a) == ItemOf(h, b) {
      assert Text.Join(Components(a.name), "/") == Text.Join(Components(b.name), "/");
    }
  }

  /** The identity of a snapshot with these records. */
  ghost predicate IsIdentity(h: Hashes, entries: seq<Entry>, id: Identity) {
    && id.sha256 == h.sha256(HEADER + Encode(entries))
    && exists root :: Tree.IsTreeHash(h.tree, Tree.Build(ItemsOf(h, entries)), root) && id.commit == h.commit(root)
  }

  /**
   One pass over the index: each record goes into the stream and its file into the tree of nodes. Fails with the
   error of the first file that cannot contribute, or for a replacement no file took; otherwise both identities
   are those of the snapshot's records.
   */
  method ComputeIdentity(h: Hashes, files: seq<File>, overrides: map<string, Bytes>)
    returns (r: Result<Identity, Error>)
    ensures r.Err? ==> Stream(files, overrides) == Err(r.error)
    ensures r.Ok? ==> Stream(files, overrides).Ok? && IsIdentity(h, EntriesOf(files, overrides).value, r.value)
  {
    hide Record, ReadOf, EntryOf, EntriesOf, Encode, Names, ItemsOf, Nodes.Represents, Tree.Build, Tree.IsTreeHash,
      Tree.Add, Tree.ComponentsGood;
    NothingRead(h, overrides);
    var hash := HEADER;
    var remaining := overrides.Keys;
    var root := new Nodes.TreeNode();
    ghost var fp: set<object> := {root};
    Nodes.EmptyNode(root);
    ghost var entries: seq<Entry> := [];
    for i := 0 to |files|
      invariant EntriesOf(files[..i], overrides) == Ok(entries)
      invariant hash == HEADER + Encode(entries)
      invariant remaining == overrides.Keys - Names(files[..i])
      invariant Nodes.Represents(root, Tree.Build(ItemsOf(h, entries)), fp) && fresh(fp)
    {
      NamesSnoc(files, i);
      var read := ReadOf(files[i], overrides);
      EntryAfterRead(files[i], overrides);
      if read.Err? {
        Stops(files, overrides, i);
        return Err(read.error);
      }
      var record := read.value;
      remaining := remaining - {files[i].name};
      hash := hash + Record(record);
      var ok;
      ghost var own;
      ok, own := Nodes.AddFile(root, Tree.Build(ItemsOf(h, entries)), fp, ItemOf(h, record));
      if !ok {
        Stops(files, overrides, i);
        return Err(InvalidPath(files[i].name));
      }
      EntriesSnoc(files, i, overrides);
      OneMoreItem(h, entries, record);
      EncodeSnoc(entries, record);
      assert HEADER + Encode(entries) + Record(record) == HEADER + (Encode(entries) + Record(record));
      entries, fp := entries + [record], own;
    }
    assert files[..|files|] == files;
    if remaining != {} {
      return Err(ReplacementAbsent);
    }
    assert overrides.Keys <= Names(files);
    var treeHash := Nodes.HashNodes(h.tree, root, Tree.Build(ItemsOf(h, entries)), fp);
    return Ok(Identity(h.sha256(hash), h.commit(treeHash)));
  }

  lemma NothingRead(h: Hashes, overrides: map<string, Bytes>)
    ensures EntriesOf([], overrides) == Ok([]) && Encode([]) == [] && Names([]) == {}
    ensures Tree.Build(ItemsOf(h, [])) == Tree.EMPTY
  {
  }

  lemma EntryAfterRead(file: File, overrides: map<string, Bytes>)
    ensures var read := ReadOf(file, overrides);
            EntryOf(file, overrides) == if read.Err? then Err(read.error)
                                        else if Tree.ComponentsGood(Components(read.value.name)) then read
                                        else Err(InvalidPath(file.name))
  {
  }

  lemma EntriesSnoc(files: seq<File>, i: nat, overrides: map<string, Bytes>)
    requires i < |files| && EntriesOf(files[..i], overrides).Ok? && EntryOf(files[i], overrides).Ok?
    ensures EntriesOf(files[..i + 1], overrides) ==
            Ok(EntriesOf(files[..i], overrides).value + [EntryOf(files[i], overrides).value])
  {
    hide EntryOf;
    assert files[..i + 1][..i] == files[..i];
  }

  lemma OneMoreItem(h: Hashes, entries: seq<Entry>, e: Entry)
    ensures Tree.Build(ItemsOf(h, entries + [e])) == Tree.Add(Tree.Build(ItemsOf(h, entries)), ItemOf(h, e))
  {
    var more := ItemsOf(h, entries + [e]);
    assert more[..|entries|] == ItemsOf(h, entries);
  }

  // -------------------------------------------------------------------- main results

  /** The records of an index: proper paths, all different. */
  ghost predicate FromIndex(entries: seq<Entry>) {
    && (forall i :: 0 <= i < |entries| ==> Tree.ComponentsGood(Components(entries[i].name)))
    && (forall i, j :: 0 <= i < j < |entries| ==> entries[i].name != entries[j].name)
  }

  /** Records taken from files with different names are of that kind. */
  lemma {:induction false} RecordsFromIndex(files: seq<File>, overrides: map<string, Bytes>)
    requires EntriesOf(files, overrides).Ok?
    requires forall i, j :: 0 <= i < j < |files| ==> files[i].name != files[j].name
    ensures FromIndex(EntriesOf(files, overrides).value)
    decreases |files|
  {
    EntriesKeepNames(files, overrides);
    if files != [] {
      RecordsFromIndex(files[..|files| - 1], overrides);
      var last := files[|files| - 1];
      EntryMeans(last, overrides, EntryOf(last, overrides).value);
    }
  }

  lemma ItemsDistinct(h: Hashes, entries: seq<Entry>)
    requires FromIndex(entries)
    ensures Tree.Distinct(ItemsOf(h, entries))
  {
    var items := ItemsOf(h, entries);
    forall i, j | 0 <= i < j < |items| ensures items[i].path != items[j].path {
      assert Text.Join(items[i].path, "/") == entries[i].name && Text.Join(items[j].path, "/") == entries[j].name;
    }
  }

  /** The commit depends on which files there are, not on the order they are listed in. */
  lemma CommitIgnoresOrder(h: Hashes, a: seq<Entry>, b: seq<Entry>, ida: Identity, idb: Identity)
    requires FromIndex(a) && FromIndex(b) && multiset(a) == multiset(b)
    requires IsIdentity(h, a, ida) && IsIdentity(h, b, idb)
    ensures ida.commit == idb.commit
  {
    hide Tree.IsTreeHash, Tree.Distinct, Encode, Tree.Build, FromIndex;
    var ra :| Tree.IsTreeHash(h.tree, Tree.Build(ItemsOf(h, a)), ra) && ida.commit == h.commit(ra);
    var rb :| Tree.IsTreeHash(h.tree, Tree.Build(ItemsOf(h, b)), rb) && idb.commit == h.commit(rb);
    ItemsDistinct(h, a);
    ItemsDistinct(h, b);
    ItemsPermuted(h, a, b);
    Tree.HashIgnoresOrder(h.tree, ItemsOf(h, a), ItemsOf(h, b), ra, rb);
  }

  lemma ItemsPermuted(h: Hashes, a: seq<Entry>, b: seq<Entry>)
    requires multiset(a) == multiset(b)
    ensures multiset(ItemsOf(h, a)) == multiset(ItemsOf(h, b))
  {
    var f := (e: Entry) => ItemOf(h, e);
    Sorting.MapPermuted(f, a, b);
    assert ItemsOf(h, a) == Sorting.Map(f, a) && ItemsOf(h, b) == Sorting.Map(f, b);
  }

  /**
   The stream identity is the stronger of the two: unless the two streams collide, snapshots with the same
   stream hash have the same records and so the same commit.
   */
  lemma StreamDeterminesCommit(h: Hashes, a: seq<Entry>, b: seq<Entry>, ida: Identity, idb: Identity)
    requires FromIndex(a) && FromIndex(b) && IsIdentity(h, a, ida) && IsIdentity(h, b, idb)
    requires forall i :: 0 <= i < |a| ==> NulFree(a[i].name)
    requires forall i :: 0 <= i < |b| ==> NulFree(b[i].name)
    requires var x, y := HEADER + Encode(a), HEADER + Encode(b); h.sha256(x) == h.sha256(y) ==> x == y
    ensures ida.sha256 == idb.sha256 ==> a == b && ida == idb
  {
    if ida.sha256 == idb.sha256 {
      assert Encode(a) == (HEADER + Encode(a))[|HEADER|..] == (HEADER + Encode(b))[|HEADER|..] == Encode(b);
      RoundTrip(a);
      RoundTrip(b);
      CommitIgnoresOrder(h, a, b, ida, idb);
    }
  }
}
