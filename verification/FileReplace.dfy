/**
 Crash-atomic replacement of a file: write a temporary, sync it, rename it over the destination, sync the
 directory. Any operation may fail, other processes may rebind the destination between any two operations,
 and the machine may crash after any of them.
 */
module FileReplace {
  import opened Outcomes

  type Name = string
  type Inode = nat

  datatype Entry = Regular(inode: Inode) | Special

  /** `synced` says the bytes are on stable storage; otherwise a crash may leave anything in their place. */
  datatype File = File(bytes: Bytes, synced: bool)

  /**
   One directory as the disk sees it: its entries now, the earlier states not yet superseded by a directory
   sync, and the files.
   */
  datatype Disk = Disk(names: map<Name, Entry>, past: seq<map<Name, Entry>>, files: map<Inode, File>)

  datatype Policy = AnyDestination | ExistingDestination | AbsentDestination

  datatype Error = Exists | NotExist | NotRegular | IoFailed

  const TEMPORARY_PREFIX := ".atum-replace-"

  /** Why a policy turns a destination down, if it does. */
  function Refusal(policy: Policy, binding: Option<Entry>): Option<Error> {
    match policy
    case AbsentDestination => if binding.Some? then Some(Exists) else None
    case AnyDestination => if binding == Some(Special) then Some(NotRegular) else None
    case ExistingDestination =>
      if binding.None? then Some(NotExist) else if binding.value.Special? then Some(NotRegular) else None
  }

  /** The policy has accepted the destination as it was at the call or as others made it. */
  ghost predicate Accepted(policy: Policy, before: Option<Entry>, others: set<Option<Entry>>) {
    exists e :: (e == before || e in others) && Refusal(policy, e).None?
  }

  function Binding(names: map<Name, Entry>, name: Name): Option<Entry> {
    if name in names then Some(names[name]) else None
  }

  /** After a crash each name has the binding it has now or one it had since the last directory sync. */
  ghost predicate MaySurvive(d: Disk, name: Name, binding: Option<Entry>) {
    binding == Binding(d.names, name) || exists i :: 0 <= i < |d.past| && binding == Binding(d.past[i], name)
  }

  /** What a reader can find under a name after a crash. */
  datatype Seen = Nothing | Other | Content(bytes: Bytes)

  /** What a binding shows: unsynced bytes, and those of a file that is gone, may come back as anything. */
  ghost predicate Shows(files: map<Inode, File>, binding: Option<Entry>, seen: Seen) {
    match binding
    case None => seen == Nothing
    case Some(Special) => seen == Other
    case Some(Regular(inode)) =>
      && seen.Content?
      && (inode in files && files[inode].synced ==> seen.bytes == files[inode].bytes)
  }

  ghost predicate MayBeSeen(d: Disk, name: Name, seen: Seen) {
    exists binding :: MaySurvive(d, name, binding) && Shows(d.files, binding, seen)
  }

  /** The file being published: its inode once it has one, and the bytes it is to hold. */
  datatype Publication = Publication(inode: Option<Inode>, data: Bytes)

  predicate Complete(d: Disk, p: Publication) {
    p.inode.Some? && p.inode.value in d.files && d.files[p.inode.value] == File(p.data, true)
  }

  /** One call: its destination, the length of the trace when it began, and the disk it found. */
  datatype Call = Call(dest: Name, start: nat, disk: Disk)

  ghost predicate KeepsFiles(before: Disk, after: Disk) {
    forall i :: i in before.files ==> i in after.files && after.files[i] == before.files[i]
  }

  ghost predicate Accounted(d: Disk, c: Call, p: Publication, others: set<Option<Entry>>, binding: Option<Entry>) {
    || MaySurvive(c.disk, c.dest, binding)
    || binding in others
    || (Complete(d, p) && binding == Some(Regular(p.inode.value)))
  }

  /**
   The files of the call's disk are as they were, and whatever survives at the destination could already be
   found there at the call, was put there by somebody else, or is the new file with all of its bytes on stable
   storage.
   */
  ghost predicate Safe(d: Disk, c: Call, p: Publication, others: set<Option<Entry>>) {
    KeepsFiles(c.disk, d) && forall binding :: MaySurvive(d, c.dest, binding) ==> Accounted(d, c, p, others, binding)
  }

  function Flatten(chunks: seq<Bytes>): Bytes {
    if chunks == [] then [] else Flatten(chunks[..|chunks| - 1]) + chunks[|chunks| - 1]
  }

  lemma SafeGrows(d: Disk, c: Call, p: Publication, q: Publication, others: set<Option<Entry>>, more: set<Option<Entry>>)
    requires Safe(d, c, p, others) && others <= more
    requires q == p || p.inode.None?
    ensures Safe(d, c, q, more)
  {
    hide MaySurvive, KeepsFiles;
    forall binding | MaySurvive(d, c.dest, binding) ensures Accounted(d, c, q, more, binding) {
      assert Accounted(d, c, p, others, binding);
    }
  }

  lemma SafeKeeps(d: Disk, c: Call, p: Publication, others: set<Option<Entry>>)
    requires Safe(d, c, p, others)
    ensures KeepsFiles(c.disk, d)
  {
  }

  /** One operation: the destination keeps its binding, or gets one that is accounted for. */
  lemma SafeStep(d: Disk, after: Disk, c: Call, p: Publication, others: set<Option<Entry>>)
    requires Safe(d, c, p, others) && KeepsFiles(c.disk, after)
    requires after.past == d.past || after.past == d.past + [d.names]
    requires after.past == d.past ==> Binding(after.names, c.dest) == Binding(d.names, c.dest)
    requires Complete(d, p) ==> Complete(after, p)
    requires Binding(after.names, c.dest) == Binding(d.names, c.dest)
             || Accounted(after, c, p, others, Binding(after.names, c.dest))
    ensures Safe(after, c, p, others)
  {
    hide KeepsFiles;
    assert Accounted(d, c, p, others, Binding(d.names, c.dest)) by {
      assert MaySurvive(d, c.dest, Binding(d.names, c.dest));
    }
    forall binding | MaySurvive(after, c.dest, binding) ensures Accounted(after, c, p, others, binding) {
      if binding != Binding(after.names, c.dest) {
        SurvivedBefore(d, after, c.dest, binding);
        assert Accounted(d, c, p, others, binding);
      }
    }
  }

  lemma SurvivedBefore(d: Disk, after: Disk, dest: Name, binding: Option<Entry>)
    requires after.past == d.past || after.past == d.past + [d.names]
    requires MaySurvive(after, dest, binding) && binding != Binding(after.names, dest)
    ensures MaySurvive(d, dest, binding)
  {
    var i :| 0 <= i < |after.past| && binding == Binding(after.past[i], dest);
    if i < |d.past| {
      assert after.past[i] == d.past[i];
    }
  }

  // ---------------------------------------------------------------- the directory

  class Directory {
    /** No operation on the directory or its files fails. */
    const healthy: bool

    /** Set when removing the temporary does not fail, whatever else does. */
    const removes: bool

    var names: map<Name, Entry>
    var files: map<Inode, File>
    /** Directory states a crash may still bring back. */
    ghost var past: seq<map<Name, Entry>>
    /** The disk after each operation so far: every point at which the machine may stop. */
    ghost var trace: seq<Disk>
    /** Bindings of the destination made by other processes during the call. */
    ghost var others: set<Option<Entry>>
    /** The destination as it was at the call or as other processes last left it. */
    ghost var current: Option<Entry>
    /** An existing binding of the destination was replaced by this process. */
    ghost var replaced: bool

    ghost function Image(): Disk
      reads this
    {
      Disk(names, past, files)
    }

    /** Every stopping point of the call so far is safe, and so is the present one. */
    ghost predicate SafeSince(c: Call, p: Publication)
      reads this
    {
      Safe(Image(), c, p, others) && TraceSafe(c, p)
    }

    ghost predicate TraceSafe(c: Call, p: Publication)
      reads this
    {
      c.start <= |trace| && forall k :: c.start <= k < |trace| ==> Safe(trace[k], c, p, others)
    }

    /** Others bind the destination to files that exist; our file is new and none of those; `current` is theirs or old. */
    ghost predicate Apart(c: Call, p: Publication)
      reads this
    {
      && (current == Binding(c.disk.names, c.dest) || current in others)
      && (forall e :: e in others && e.Some? && e.value.Regular? ==> e.value.inode in files)
      && (p.inode.Some? ==>
            && p.inode.value in files && p.inode.value !in c.disk.files
            && Some(Regular(p.inode.value)) !in others)
    }

    /** Notes the disk an operation has left, once it is known to be safe. */
    ghost method Record(c: Call, p: Publication, before: Disk)
      requires Safe(before, c, p, others) && TraceSafe(c, p)
      requires KeepsFiles(c.disk, Image()) && (Complete(before, p) ==> Complete(Image(), p))
      requires past == before.past || past == before.past + [before.names]
      requires past == before.past ==> Binding(names, c.dest) == Binding(before.names, c.dest)
      requires Binding(names, c.dest) == Binding(before.names, c.dest)
               || Accounted(Image(), c, p, others, Binding(names, c.dest))
      modifies `trace
      ensures SafeSince(c, p) && |trace| > |old(trace)|
    {
      SafeStep(before, Image(), c, p, others);
      hide Safe;
      trace := trace + [Image()];
    }

    /** Another process unlinks the destination, or binds it to a file that is not ours, or to something else. */
    method Rebind(dest: Name, ghost c: Call, p: Publication)
      requires Apart(c, p)
      modifies `names, `files, `past, `others, `current
      ensures Apart(c, p) && past == old(past) + [old(names)]
      ensures Binding(names, dest) == current && others == old(others) + {current}
      ensures forall n :: n != dest ==> Binding(names, n) == old(Binding(names, n))
      ensures KeepsFiles(old(Image()), Image())
    {
      var inode: Inode, file: File, kind: nat := *, *, *;
      past := past + [names];
      if kind == 0 {
        names := names - {dest};
      } else if kind == 1 || p.inode == Some(inode) {
        names := names[dest := Special];
      } else {
        if inode !in files {
          files := files[inode := file];
        }
        names := names[dest := Regular(inode)];
      }
      current := Binding(names, dest);
      others := others + {current};
    }

    method OneOther(dest: Name, ghost c: Call, p: Publication)
      requires c.dest == dest && SafeSince(c, p) && Apart(c, p)
      modifies this
      ensures SafeSince(c, p) && Apart(c, p)
      ensures Binding(names, dest) == current && others == old(others) + {current}
      ensures forall n :: n != dest ==> Binding(names, n) == old(Binding(names, n))
      ensures KeepsFiles(old(Image()), Image())
      ensures replaced == old(replaced) && |trace| >= |old(trace)|
    {
      hide Safe, MaySurvive;
      ghost var before, seen := Image(), others;
      SafeKeeps(before, c, p, others);
      Rebind(dest, c, p);
      SafeGrows(before, c, p, p, seen, others);
      forall k | c.start <= k < |trace| ensures Safe(trace[k], c, p, others) {
        SafeGrows(trace[k], c, p, p, seen, others);
      }
      Record(c, p, before);
    }

    /** Other processes rebind the destination any number of times; `made` are the bindings they make. */
    method Others(dest: Name, ghost c: Call, p: Publication) returns (ghost made: set<Option<Entry>>)
      requires c.dest == dest && SafeSince(c, p) && Apart(c, p)
      modifies this
      ensures SafeSince(c, p) && Apart(c, p) && others == old(others) + made
      ensures if made == {} then Binding(names, dest) == old(Binding(names, dest)) && current == old(current)
              else Binding(names, dest) == current && current in made
      ensures forall n :: n != dest ==> Binding(names, n) == old(Binding(names, n))
      ensures KeepsFiles(old(Image()), Image())
      ensures replaced == old(replaced) && |trace| >= |old(trace)|
    {
      hide SafeSince, Apart;
      var turns: nat :| true;
      made := {};
      for turn := 0 to turns
        invariant SafeSince(c, p) && Apart(c, p) && others == old(others) + made
        invariant if made == {} then Binding(names, dest) == old(Binding(names, dest)) && current == old(current)
                  else Binding(names, dest) == current && current in made
        invariant forall n :: n != dest ==> Binding(names, n) == old(Binding(names, n))
        invariant KeepsFiles(old(Image()), Image())
        invariant replaced == old(replaced) && |trace| >= |old(trace)|
      {
        OneOther(dest, c, p);
        made := made + {current};
      }
    }

    // ------------------------------------------------------------ operations

    /** Fstatat: the present binding, unless the call fails. */
    method Stat(name: Name) returns (r: Result<Option<Entry>, Error>)
      ensures if r.Ok? then r.value == Binding(names, name) else r.error == IoFailed && !healthy
    {
      var ok: bool := *;
      return if ok || healthy then Ok(Binding(names, name)) else Err(IoFailed);
    }

    /** Fails exactly as the policy says of the present binding, or because the look-up failed. */
    method ValidateDestination(dest: Name, policy: Policy) returns (error: Option<Error>)
      ensures error == Refusal(policy, Binding(names, dest)) || (error == Some(IoFailed) && !healthy)
    {
      var status := Stat(dest);
      match status {
        case Err(e) => return Some(e);
        case Ok(None) => return if policy.ExistingDestination? then Some(NotExist) else None;
        case Ok(Some(entry)) =>
          if policy.AbsentDestination? {
            return Some(Exists);
          }
          return if entry.Special? then Some(NotRegular) else None;
      }
    }

    /** Nothing but the directory, the files and the trace has changed. */
    twostate predicate Undisturbed()
      reads this
    {
      others == old(others) && current == old(current) && replaced == old(replaced) && |trace| >= |old(trace)|
    }

    /** A new empty file under an unused temporary name. */
    method CreateTemporary(dest: Name, ghost c: Call, data: Bytes) returns (r: Option<(Name, Inode)>)
      requires c.dest == dest && SafeSince(c, Publication(None, data)) && Apart(c, Publication(None, data))
      requires !(TEMPORARY_PREFIX <= dest)
      modifies this
      ensures r.None? ==> names == old(names) && SafeSince(c, Publication(None, data))
                          && Apart(c, Publication(None, data)) && !healthy
      ensures r.Some? ==>
                && r.value.0 != dest && r.value.0 !in old(names) && r.value.1 !in old(files)
                && names == old(names)[r.value.0 := Regular(r.value.1)]
                && files == old(files)[r.value.1 := File([], false)]
                && SafeSince(c, Publication(Some(r.value.1), data))
                && Apart(c, Publication(Some(r.value.1), data))
      ensures Undisturbed()
    {
      hide Safe, MaySurvive;
      var ok: bool := *;
      if !ok && !healthy {
        return None;
      }
      ghost var some := FreshSuffix(names.Keys);
      ghost var unused := FreshInode(files.Keys);
      var suffix: string :| TEMPORARY_PREFIX + suffix !in names;
      var inode: Inode :| inode !in files;
      var name := TEMPORARY_PREFIX + suffix;
      ghost var before, p := Image(), Publication(Some(inode), data);
      SafeKeeps(before, c, Publication(None, data), others);
      past := past + [names];
      names := names[name := Regular(inode)];
      files := files[inode := File([], false)];
      SafeGrows(before, c, Publication(None, data), p, others, others);
      forall k | c.start <= k < |trace| ensures Safe(trace[k], c, p, others) {
        SafeGrows(trace[k], c, Publication(None, data), p, others, others);
      }
      Record(c, p, before);
      return Some((name, inode));
    }

    /** Appends one buffer; a short write leaves any prefix of it. */
    method Append(ghost c: Call, p: Publication, chunk: Bytes) returns (ok: bool)
      requires p.inode.Some? && p.inode.value in files && !files[p.inode.value].synced
      requires SafeSince(c, p) && Apart(c, p)
      modifies this
      ensures SafeSince(c, p) && Apart(c, p) && names == old(names) && Undisturbed()
      ensures p.inode.value in files && !files[p.inode.value].synced
      ensures ok ==> files[p.inode.value].bytes == old(files[p.inode.value].bytes) + chunk
      ensures healthy ==> ok
    {
      hide Safe, MaySurvive;
      ghost var before := Image();
      SafeKeeps(before, c, p, others);
      var written: nat, inode := *, p.inode.value;
      ok := healthy || written >= |chunk|;
      var part := if ok then chunk else chunk[..written];
      files := files[inode := File(files[inode].bytes + part, false)];
      Record(c, p, before);
    }

    /** Forces the file's bytes to stable storage. */
    method SyncFile(ghost c: Call, p: Publication) returns (ok: bool)
      requires p.inode.Some? && p.inode.value in files
      requires SafeSince(c, p) && Apart(c, p)
      modifies this
      ensures SafeSince(c, p) && Apart(c, p) && names == old(names) && Undisturbed()
      ensures p.inode.value in files && files[p.inode.value].bytes == old(files[p.inode.value].bytes)
      ensures ok ==> files[p.inode.value].synced
      ensures healthy ==> ok
    {
      hide Safe, MaySurvive;
      ghost var before := Image();
      SafeKeeps(before, c, p, others);
      ok := *;
      ok := ok || healthy;
      var inode := p.inode.value;
      if ok {
        files := files[inode := files[inode].(synced := true)];
      }
      Record(c, p, before);
    }

    /** Renames over the destination, or refuses to when the policy demands an absent one. */
    method RenameTemporary(temporary: Name, dest: Name, policy: Policy, ghost c: Call, p: Publication)
      returns (error: Option<Error>)
      requires c.dest == dest && temporary in names && temporary != dest
      requires p.inode.Some? && names[temporary] == Regular(p.inode.value)
      requires Complete(Image(), p)
      requires SafeSince(c, p) && Apart(c, p)
      modifies this
      ensures SafeSince(c, p) && Apart(c, p) && files == old(files)
      ensures others == old(others) && current == old(current) && |trace| >= |old(trace)|
      ensures error.Some? ==> names == old(names) && replaced == old(replaced)
      ensures error.None? ==> names == old(names)[dest := Regular(p.inode.value)] - {temporary}
      ensures error.None? ==> replaced == (old(replaced) || old(dest in names))
      ensures policy.AbsentDestination? && old(dest in names) ==> error.Some?
      ensures healthy && !(policy.AbsentDestination? && old(dest in names)) ==> error.None?
    {
      hide Safe, MaySurvive;
      ghost var before := Image();
      SafeKeeps(before, c, p, others);
      var ok: bool := *;
      ok := ok || healthy;
      if policy.AbsentDestination? && dest in names {
        return if ok then Some(Exists) else Some(IoFailed);
      }
      if !ok {
        return Some(IoFailed);
      }
      past := past + [names];
      replaced := replaced || dest in names;
      names := names[dest := names[temporary]] - {temporary};
      Record(c, p, before);
      return None;
    }

    /** After a successful directory sync only the present entries survive a crash. */
    method SyncDirectory(ghost c: Call, p: Publication) returns (ok: bool)
      requires SafeSince(c, p) && Apart(c, p)
      modifies this
      ensures SafeSince(c, p) && Apart(c, p) && names == old(names) && files == old(files) && Undisturbed()
      ensures ok ==> past == []
      ensures healthy ==> ok
    {
      ghost var before := Image();
      ok := *;
      ok := ok || healthy;
      if ok {
        past := [];
      }
      SafeSynced(before, Image(), c, p, others);
      hide Safe;
      trace := trace + [Image()];
    }

    /** The deferred cleanup: best effort, its own failure is ignored. */
    method Unlink(name: Name, dest: Name, ghost c: Call, p: Publication)
      requires c.dest == dest && name != dest && SafeSince(c, p) && Apart(c, p)
      modifies this
      ensures SafeSince(c, p) && Apart(c, p) && files == old(files) && Undisturbed()
      ensures names == old(names) - {name} || (names == old(names) && !healthy && !removes)
    {
      hide Safe, MaySurvive;
      ghost var before := Image();
      SafeKeeps(before, c, p, others);
      var ok: bool := *;
      if ok || healthy || removes {
        past := past + [names];
        names := names - {name};
      }
      Record(c, p, before);
    }

    // ------------------------------------------------------------ the replacement

    /** Writes every chunk and syncs; on success the temporary holds exactly the data, on stable storage. */
    method FillTemporary(temporary: Name, dest: Name, ghost c: Call, p: Publication, chunks: seq<Bytes>)
      returns (error: Option<Error>)
      requires c.dest == dest && temporary != dest && p.inode.Some? && p.inode.value in files
      requires Binding(names, temporary) == Some(Regular(p.inode.value)) && files[p.inode.value] == File([], false)
      requires p.data == Flatten(chunks)
      requires SafeSince(c, p) && Apart(c, p) && Binding(names, dest) == current
      modifies this
      ensures SafeSince(c, p) && Apart(c, p) && Binding(names, dest) == current
      ensures Binding(names, temporary) == Some(Regular(p.inode.value))
      ensures error.None? ==> Complete(Image(), p)
      ensures replaced == old(replaced) && |trace| >= |old(trace)| && old(others) <= others
      ensures healthy ==> error.None?
      ensures forall n :: n != dest ==> Binding(names, n) == old(Binding(names, n))
    {
      hide SafeSince, Apart;
      var inode := p.inode.value;
      for i := 0 to |chunks|
        invariant SafeSince(c, p) && Apart(c, p) && Binding(names, dest) == current
        invariant Binding(names, temporary) == Some(Regular(inode))
        invariant inode in files && files[inode] == File(Flatten(chunks[..i]), false)
        invariant replaced == old(replaced) && |trace| >= |old(trace)| && old(others) <= others
        invariant forall n :: n != dest ==> Binding(names, n) == old(Binding(names, n))
      {
        ghost var made := Others(dest, c, p);
        var ok := Append(c, p, chunks[i]);
        if !ok {
          return Some(IoFailed);
        }
        assert chunks[..i + 1][..i] == chunks[..i];
      }
      assert chunks[..|chunks|] == chunks;
      ghost var made := Others(dest, c, p);
      var ok := SyncFile(c, p);
      return if ok then None else Some(IoFailed);
    }

    /** Leaves the destination to others and drops the temporary. */
    method Abandon(temporary: Name, dest: Name, ghost c: Call, p: Publication)
      requires c.dest == dest && temporary != dest
      requires SafeSince(c, p) && Apart(c, p) && Binding(names, dest) == current
      modifies this
      ensures SafeSince(c, p) && Apart(c, p) && Binding(names, dest) == current
      ensures replaced == old(replaced) && old(others) <= others
      ensures forall n :: n != dest && n != temporary ==> Binding(names, n) == old(Binding(names, n))
      ensures healthy || removes ==> temporary !in names
    {
      hide SafeSince, Apart;
      ghost var made := Others(dest, c, p);
      Unlink(temporary, dest, c, p);
    }

    /** Everything up to the rename. On success the new file is complete and bound to the destination. */
    method Install(dest: Name, policy: Policy, chunks: seq<Bytes>, ghost c: Call)
      returns (error: Option<Error>, p: Publication)
      requires !(TEMPORARY_PREFIX <= dest) && c.dest == dest
      requires SafeSince(c, Publication(None, Flatten(chunks))) && Apart(c, Publication(None, Flatten(chunks)))
      requires Binding(names, dest) == current
      modifies this
      ensures p.data == Flatten(chunks) && SafeSince(c, p) && Apart(c, p)
      ensures error.None? ==> Complete(Image(), p) && Binding(names, dest) == Some(Regular(p.inode.value))
      ensures error.Some? ==> Binding(names, dest) == current && replaced == old(replaced)
      ensures policy.AbsentDestination? ==> replaced == old(replaced)
      ensures policy.AbsentDestination? && current.Some? ==> error.Some?
      ensures old(others) <= others && (error.None? ==> Accepted(policy, Binding(c.disk.names, dest), others))
      ensures healthy && others == {} ==> error == Refusal(policy, Binding(c.disk.names, dest))
      ensures healthy || removes ==> forall n :: n != dest ==> Binding(names, n) == old(Binding(names, n))
    {
      hide SafeSince, Apart, Flatten, Refusal, Accepted, Complete;
      CurrentIsKnown(c, Publication(None, Flatten(chunks)));
      p := Publication(None, Flatten(chunks));
      ghost var made := Others(dest, c, p);
      CurrentIsKnown(c, p);
      error := ValidateDestination(dest, policy);
      if error.Some? {
        return;
      }
      made := Others(dest, c, p);
      var created := CreateTemporary(dest, c, p.data);
      if created.None? {
        return Some(IoFailed), p;
      }
      var temporary, inode := created.value.0, created.value.1;
      p := Publication(Some(inode), p.data);
      error := FillTemporary(temporary, dest, c, p, chunks);
      if error.Some? {
        Abandon(temporary, dest, c, p);
        return;
      }
      error := Swap(temporary, dest, policy, c, p);
    }

    /** The destination as last left is the one of the call or one that others made. */
    ghost method CurrentIsKnown(c: Call, p: Publication)
      requires Apart(c, p)
      ensures current == Binding(c.disk.names, c.dest) || current in others
    {
    }

    /** The second look at the destination and the rename. */
    method Swap(temporary: Name, dest: Name, policy: Policy, ghost c: Call, p: Publication)
      returns (error: Option<Error>)
      requires c.dest == dest && temporary != dest && p.inode.Some?
      requires Binding(names, temporary) == Some(Regular(p.inode.value)) && Complete(Image(), p)
      requires SafeSince(c, p) && Apart(c, p) && Binding(names, dest) == current
      modifies this
      ensures SafeSince(c, p) && Apart(c, p)
      ensures error.None? ==> Complete(Image(), p) && Binding(names, dest) == Some(Regular(p.inode.value))
      ensures error.Some? ==> Binding(names, dest) == current && replaced == old(replaced)
      ensures policy.AbsentDestination? ==> replaced == old(replaced)
      ensures policy.AbsentDestination? && current.Some? ==> error.Some?
      ensures old(others) <= others && (error.None? ==> Accepted(policy, Binding(c.disk.names, dest), others))
      ensures healthy && others == {} ==> error == Refusal(policy, Binding(c.disk.names, dest))
      ensures forall n :: n != dest && n != temporary ==> Binding(names, n) == old(Binding(names, n))
      ensures healthy || removes || error.None? ==> temporary !in names
    {
      hide SafeSince, Apart, Refusal, Accepted;
      ghost var made := Others(dest, c, p);
      CurrentIsKnown(c, p);
      ghost var looked := Binding(names, dest);
      error := ValidateDestination(dest, policy);
      if error.Some? {
        Abandon(temporary, dest, c, p);
        return;
      }
      ghost var seen := others;
      WasAccepted(policy, looked, Binding(c.disk.names, dest), seen);
      made := Others(dest, c, p);
      StillAccepted(policy, Binding(c.disk.names, dest), seen, others);
      error := RenameTemporary(temporary, dest, policy, c, p);
      if error.Some? {
        Abandon(temporary, dest, c, p);
      }
    }

    /**
     Streams the chunks into the destination. Others may rebind it between any two operations.

     At every point of the call where the machine may stop, a reader then finds all of the new bytes, something
     they could have found had it stopped at the call, or what somebody else put there during the call.
     Success means the new bytes are on stable storage and, after a crash, are what is found unless somebody
     rebound the destination after the rename (`late`). A failure without a rename leaves the destination as it
     was or as others left it. A policy that demands an absent destination never replaces one, even one created
     after both checks. Nothing is renamed unless the policy accepts the destination as it was or as others made
     it. With no failing operation and nobody else at work the outcome is exactly the policy's. Whatever fails, if
     the removal of the temporary does not, no other name of the directory has changed, so no temporary is left.
     */
    method ReplaceRegular(dest: Name, policy: Policy, chunks: seq<Bytes>)
      returns (error: Option<Error>, renamed: bool, ghost late: set<Option<Entry>>)
      requires !(TEMPORARY_PREFIX <= dest)
      modifies this
      ensures |old(trace)| <= |trace|
      ensures forall k, seen :: |old(trace)| <= k < |trace| && MayBeSeen(trace[k], dest, seen) ==>
                Explained(old(Image()), trace[k], dest, Flatten(chunks), others, seen)
      ensures forall k :: |old(trace)| <= k < |trace| ==> KeepsFiles(old(Image()), trace[k])
      ensures error.None? ==> renamed && past == [] && late <= others
      ensures error.None? ==> forall seen :: MayBeSeen(Image(), dest, seen) ==>
                seen == Content(Flatten(chunks)) || exists e :: e in late && Shows(files, e, seen)
      ensures !renamed ==> Binding(names, dest) == current && !replaced
      ensures !renamed && others == {} ==> Binding(names, dest) == old(Binding(names, dest))
      ensures policy.AbsentDestination? ==> !replaced
      ensures policy.AbsentDestination? && current.Some? && late == {} ==> error.Some? && !renamed
      ensures renamed ==> Accepted(policy, old(Binding(names, dest)), others)
      ensures healthy && others == {} ==> error == Refusal(policy, old(Binding(names, dest)))
      ensures healthy || removes ==> forall n :: n != dest ==> Binding(names, n) == old(Binding(names, n))
    {
      ghost var c := Call(dest, |trace|, Image());
      others, current, replaced := {}, Binding(names, dest), false;
      late := {};
      ghost var none := Publication(None, Flatten(chunks));
      assert Safe(Image(), c, none, others);
      var p;
      hide Safe;
      hide Accepted, Refusal;
      error, p := Install(dest, policy, chunks, c);
      renamed := error.None?;
      if renamed {
        ghost var before := others;
        late := Others(dest, c, p);
        StillAccepted(policy, Binding(c.disk.names, dest), before, others);
        var synced := SyncDirectory(c, p);
        if synced {
          NewOrLate(Image(), dest, p, late);
        } else {
          error := Some(IoFailed);
        }
      }
      forall k, seen | c.start <= k < |trace| && MayBeSeen(trace[k], dest, seen)
        ensures Explained(c.disk, trace[k], dest, p.data, others, seen)
      {
        CrashExplained(trace[k], c, p, others, seen);
      }
      forall k | c.start <= k < |trace| ensures KeepsFiles(c.disk, trace[k]) {
        SafeKeeps(trace[k], c, p, others);
      }
    }
  }

  lemma WasAccepted(policy: Policy, looked: Option<Entry>, before: Option<Entry>, others: set<Option<Entry>>)
    requires (looked == before || looked in others) && Refusal(policy, looked).None?
    ensures Accepted(policy, before, others) && (policy.AbsentDestination? ==> looked.None?)
  {
  }

  lemma StillAccepted(policy: Policy, before: Option<Entry>, others: set<Option<Entry>>, more: set<Option<Entry>>)
    requires Accepted(policy, before, others) && others <= more
    ensures Accepted(policy, before, more)
  {
  }

  lemma {:induction false} FreshInode(used: set<Inode>) returns (inode: Inode)
    ensures inode !in used && forall i :: i in used ==> i < inode
  {
    inode := 0;
    if used != {} {
      var i :| i in used;
      var above := FreshInode(used - {i});
      inode := if above <= i then i + 1 else above;
      forall j | j in used ensures j < inode {
        assert j == i || j in used - {i};
      }
    }
  }

  lemma {:induction false} FreshSuffix(used: set<Name>) returns (suffix: string)
    ensures TEMPORARY_PREFIX + suffix !in used && forall n :: n in used ==> |n| < |TEMPORARY_PREFIX + suffix|
  {
    suffix := "";
    if used != {} {
      var n :| n in used;
      var longer := FreshSuffix(used - {n});
      suffix := longer + seq(|n|, (_: int) => 'x') + "x";
      forall m | m in used ensures |m| < |TEMPORARY_PREFIX + suffix| {
        assert m == n || m in used - {n};
      }
    }
  }

  lemma SafeSynced(d: Disk, after: Disk, c: Call, p: Publication, others: set<Option<Entry>>)
    requires Safe(d, c, p, others) && after.names == d.names && after.files == d.files
    requires after.past == d.past || after.past == []
    ensures Safe(after, c, p, others)
  {
    forall binding | MaySurvive(after, c.dest, binding) ensures Accounted(after, c, p, others, binding) {
      assert MaySurvive(d, c.dest, binding);
    }
  }

  // ------------------------------------------------------------------ what a reader sees

  /** A sight after a crash: all of the new bytes, one possible before, or the doing of others. */
  ghost predicate Explained(before: Disk, now: Disk, dest: Name, data: Bytes, others: set<Option<Entry>>, seen: Seen) {
    || seen == Content(data)
    || MayBeSeen(before, dest, seen)
    || exists e :: e in others && Shows(now.files, e, seen)
  }

  lemma CrashExplained(d: Disk, c: Call, p: Publication, others: set<Option<Entry>>, seen: Seen)
    requires Safe(d, c, p, others) && MayBeSeen(d, c.dest, seen)
    ensures Explained(c.disk, d, c.dest, p.data, others, seen)
  {
    var binding :| MaySurvive(d, c.dest, binding) && Shows(d.files, binding, seen);
    assert Accounted(d, c, p, others, binding);
    hide MaySurvive;
    if MaySurvive(c.disk, c.dest, binding) {
      assert Shows(c.disk.files, binding, seen);
    }
  }

  lemma NewOrLate(d: Disk, dest: Name, p: Publication, late: set<Option<Entry>>)
    requires d.past == [] && Complete(d, p)
    requires Binding(d.names, dest) == Some(Regular(p.inode.value)) || Binding(d.names, dest) in late
    ensures forall seen :: MayBeSeen(d, dest, seen) ==>
              seen == Content(p.data) || exists e :: e in late && Shows(d.files, e, seen)
  {
  }

  /**
   Old or new: if the destination was settled at the call (directory synced, its file on stable storage) and
   nobody else touches it, a crash at any point of the call shows the bytes of then or all of the new ones.
   */
  lemma OldOrNew(before: Disk, now: Disk, dest: Name, data: Bytes, seen: Seen)
    requires before.past == [] && Explained(before, now, dest, data, {}, seen)
    requires var b := Binding(before.names, dest);
             b.Some? && b.value.Regular? ==> b.value.inode in before.files && before.files[b.value.inode].synced
    ensures seen == Content(data)
            || seen == match Binding(before.names, dest)
                       case None => Nothing
                       case Some(Special) => Other
                       case Some(Regular(inode)) => Content(before.files[inode].bytes)
  {
    if seen != Content(data) {
      var binding :| MaySurvive(before, dest, binding) && Shows(before.files, binding, seen);
    }
  }
}
