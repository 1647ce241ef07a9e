/** The byte stream that identifies a source snapshot. */
module SnapshotStream {
  import opened Outcomes
  import Decimal
  import SnapshotTree
  import Text

  const NUL: char := '\0'

  const HEADER := "atum-git-snapshot-v1\0"

  /** Modes of the Git index. */
  datatype FileMode = Regular | Deprecated | Executable | Symlink | Submodule | Unsupported

  /** The three modes the stream distinguishes, after normalization. */
  datatype Mode = Plain | Runnable | Link

  /** One tracked entry: the captured size, and what opening and reading it yields now. */
  datatype File = File(name: string, mode: FileMode, size: nat, content: Option<Bytes>)

  /** One record of the stream. */
  datatype Entry = Entry(name: string, mode: Mode, bytes: Bytes)

  datatype Error = UnsupportedMode(name: string) | NotReplaceable(name: string) | Unreadable(name: string)
                 | SizeChanged(name: string) | InvalidPath(name: string) | ReplacementAbsent

  function Normalize(mode: FileMode): Option<Mode> {
    match mode
    case Regular => Some(Plain)
    case Deprecated => Some(Plain)
    case Executable => Some(Runnable)
    case Symlink => Some(Link)
    case Submodule => None
    case Unsupported => None
  }

  function Octal(mode: Mode): string {
    match mode case Plain => "644" case Runnable => "755" case Link => "777"
  }

  /** Text closed by a NUL. */
  function Field(s: Bytes): Bytes { s + [NUL] }

  /** name NUL octal-mode NUL decimal-size NUL bytes NUL */
  function Record(e: Entry): Bytes {
    Field(e.name) + Field(Octal(e.mode)) + Field(Decimal.Render(|e.bytes|)) + Field(e.bytes)
  }

  function Encode(entries: seq<Entry>): Bytes {
    if entries == [] then [] else Encode(entries[..|entries| - 1]) + Record(entries[|entries| - 1])
  }

  /** The path components of a name; an empty one, "." and ".." are refused. */
  function Components(name: string): (path: seq<string>)
    ensures path != [] && Text.Join(path, "/") == name
  {
    Text.Split(name, '/')
  }

  /** What opening one file yields, given the replacements. */
  function ReadOf(file: File, overrides: map<string, Bytes>): (r: Result<Entry, Error>) {
    match Normalize(file.mode)
    case None => Err(UnsupportedMode(file.name))
    case Some(mode) =>
      if file.name in overrides then
        if mode != Plain then Err(NotReplaceable(file.name))
        else Ok(Entry(file.name, mode, overrides[file.name]))
      else
        match file.content
        case None => Err(Unreadable(file.name))
        case Some(bytes) =>
          if !file.mode.Symlink? && |bytes| != file.size then Err(SizeChanged(file.name))
          else Ok(Entry(file.name, mode, bytes))
  }

  /** The record one file contributes, once its path has entered the tree. */
  function EntryOf(file: File, overrides: map<string, Bytes>): (r: Result<Entry, Error>) {
    match ReadOf(file, overrides)
    case Err(e) => Err(e)
    case Ok(entry) => if SnapshotTree.ComponentsGood(Components(file.name)) then Ok(entry) else Err(InvalidPath(file.name))
  }

  function EntriesOf(files: seq<File>, overrides: map<string, Bytes>): (r: Result<seq<Entry>, Error>) {
    if files == [] then Ok([])
    else
      match EntriesOf(files[..|files| - 1], overrides)
      case Err(e) => Err(e)
      case Ok(entries) =>
        match EntryOf(files[|files| - 1], overrides)
        case Err(e) => Err(e)
        case Ok(entry) => Ok(entries + [entry])
  }

  /**
   The record a file may contribute: its own name, which is a proper path; its normalized mode; the replacement,
   which only a regular file may have; else the bytes read, as many as were captured unless it is a link.
   */
  predicate Contributes(file: File, overrides: map<string, Bytes>, e: Entry) {
    && e.name == file.name && (forall c :: c in Components(e.name) ==> c != "" && c != "." && c != "..")
    && (match e.mode
        case Plain => file.mode.Regular? || file.mode.Deprecated?
        case Runnable => file.mode.Executable?
        case Link => file.mode.Symlink?)
    && (file.name in overrides ==> e.mode == Plain && e.bytes == overrides[file.name])
    && (file.name !in overrides ==> file.content == Some(e.bytes) && (e.mode == Link || |e.bytes| == file.size))
  }

  /** Exactly the records described are contributed; every other file stops the identity. */
  lemma EntryMeans(file: File, overrides: map<string, Bytes>, e: Entry)
    ensures EntryOf(file, overrides) == Ok(e) <==> Contributes(file, overrides, e)
  {
    var path := Components(file.name);
    hide Components;
    assert forall i :: 0 <= i < |path| ==> path[i] in path;
  }

  /** Why a file stops the identity, in the order the reasons are looked for. */
  lemma EntryErrors(file: File, overrides: map<string, Bytes>)
    requires EntryOf(file, overrides).Err?
    ensures var known := file.mode.Regular? || file.mode.Deprecated? || file.mode.Executable? || file.mode.Symlink?;
            EntryOf(file, overrides).error ==
            if !known then UnsupportedMode(file.name)
            else if file.name in overrides && (file.mode.Executable? || file.mode.Symlink?) then NotReplaceable(file.name)
            else if file.name !in overrides && file.content.None? then Unreadable(file.name)
            else if file.name !in overrides && !file.mode.Symlink? && |file.content.value| != file.size then
              SizeChanged(file.name)
            else InvalidPath(file.name)
  {
  }

  function Names(files: seq<File>): set<string> {
    set i | 0 <= i < |files| :: files[i].name
  }

  /** What Identity feeds to SHA-256. */
  function Stream(files: seq<File>, overrides: map<string, Bytes>): (r: Result<Bytes, Error>) {
    match EntriesOf(files, overrides)
    case Err(e) => Err(e)
    case Ok(entries) =>
      if overrides.Keys <= Names(files) then Ok(HEADER + Encode(entries)) else Err(ReplacementAbsent)
  }

  lemma NamesSnoc(files: seq<File>, i: nat)
    requires i < |files|
    ensures Names(files[..i + 1]) == Names(files[..i]) + {files[i].name}
  {
    var a, b := files[..i + 1], files[..i];
    forall n | n in Names(a) ensures n in Names(b) + {files[i].name} {
      var k :| 0 <= k < |a| && a[k].name == n;
      assert k < i ==> b[k].name == n;
    }
    forall n | n in Names(b) ensures n in Names(a) {
      var k :| 0 <= k < |b| && b[k].name == n;
      assert a[k].name == n;
    }
    assert a[i].name == files[i].name;
  }

  /** The first bad entry decides. */
  lemma {:induction false} Stops(files: seq<File>, overrides: map<string, Bytes>, i: nat)
    requires i < |files| && EntriesOf(files[..i], overrides).Ok? && EntryOf(files[i], overrides).Err?
    ensures EntriesOf(files, overrides) == Err(EntryOf(files[i], overrides).error)
    decreases |files|
  {
    if i < |files| - 1 {
      assert files[..|files| - 1][..i] == files[..i];
      Stops(files[..|files| - 1], overrides, i);
    }
  }

  // ------------------------------------------------------------------------ decoding

  /** Everything up to the first NUL, and everything after it. */
  function Cut(s: Bytes): (r: Option<(Bytes, Bytes)>)
    ensures r.Some? ==> |r.value.1| < |s|
  {
    if s == [] then None
    else if s[0] == NUL then Some(([], s[1..]))
    else
      match Cut(s[1..])
      case None => None
      case Some(parts) => Some(([s[0]] + parts.0, parts.1))
  }

  function ModeOf(text: Bytes): Option<Mode> {
    if text == "644" then Some(Plain)
    else if text == "755" then Some(Runnable)
    else if text == "777" then Some(Link)
    else None
  }

  /** Reads one record off the front of a stream. */
  function DecodeOne(s: Bytes): (r: Option<(Entry, Bytes)>)
    ensures r.Some? ==> |r.value.1| < |s|
  {
    match Cut(s)
    case None => None
    case Some(name) =>
      match Cut(name.1)
      case None => None
      case Some(octal) =>
        match Cut(octal.1)
        case None => None
        case Some(size) =>
          if ModeOf(octal.0).None? || !Decimal.IsDigits(size.0) || size.0 == [] then None
          else
            var n := Decimal.Value(size.0);
            if |size.1| <= n || size.1[n] != NUL then None
            else Some((Entry(name.0, ModeOf(octal.0).value, size.1[..n]), size.1[n + 1..]))
  }

  function Decode(s: Bytes): (r: Option<seq<Entry>>)
    decreases |s|
  {
    if s == [] then Some([])
    else
      match DecodeOne(s)
      case None => None
      case Some(one) =>
        match Decode(one.1)
        case None => None
        case Some(rest) => Some([one.0] + rest)
  }

  predicate NulFree(s: Bytes) {
    forall i :: 0 <= i < |s| ==> s[i] != NUL
  }

  lemma {:induction false} CutAt(a: Bytes, rest: Bytes)
    requires NulFree(a)
    ensures Cut(Field(a) + rest) == Some((a, rest))
    decreases |a|
  {
    var s := Field(a) + rest;
    if a == [] {
      assert s[1..] == rest;
    } else {
      assert s[1..] == Field(a[1..]) + rest;
      CutAt(a[1..], rest);
      assert [a[0]] + a[1..] == a;
    }
  }

  lemma DigitsNulFree(s: Bytes)
    requires Decimal.IsDigits(s)
    ensures NulFree(s)
  {
  }

  /** One record is read back whole, whatever follows it. */
  lemma RecordDecodes(e: Entry, rest: Bytes)
    requires NulFree(e.name)
    ensures DecodeOne(Record(e) + rest) == Some((e, rest))
  {
    var size := Decimal.Render(|e.bytes|);
    var tail := Field(e.bytes) + rest;
    assert tail[..|e.bytes|] == e.bytes && tail[|e.bytes| + 1..] == rest && tail[|e.bytes|] == NUL;
    Regroup(Field(e.name), Field(Octal(e.mode)), Field(size), Field(e.bytes), rest);
    CutAt(e.name, Field(Octal(e.mode)) + (Field(size) + tail));
    CutAt(Octal(e.mode), Field(size) + tail);
    DigitsNulFree(size);
    CutAt(size, tail);
    hide Cut, Field, Record;
    RecordIs(e);
  }

  lemma RecordIs(e: Entry)
    ensures Record(e) == Field(e.name) + Field(Octal(e.mode)) + Field(Decimal.Render(|e.bytes|)) + Field(e.bytes)
  {
  }

  lemma Regroup(a: Bytes, b: Bytes, c: Bytes, d: Bytes, rest: Bytes)
    ensures a + b + c + d + rest == a + (b + (c + (d + rest)))
  {
  }

  /** Records from front to back. */
  lemma EncodeSnoc(front: seq<Entry>, last: Entry)
    ensures Encode(front + [last]) == Encode(front) + Record(last)
  {
    hide Record;
    assert (front + [last])[..|front|] == front;
  }

  lemma {:induction false} EncodeCons(entries: seq<Entry>)
    requires entries != []
    ensures Encode(entries) == Record(entries[0]) + Encode(entries[1..])
    decreases |entries|
  {
    hide Record, Encode;
    EncodeNil();
    if |entries| == 1 {
      EncodeSnoc([], entries[0]);
      assert entries == [] + [entries[0]] && entries[1..] == [];
    } else {
      var front, last := entries[..|entries| - 1], entries[|entries| - 1];
      EncodeCons(front);
      EncodeSnoc(front, last);
      EncodeSnoc(front[1..], last);
      assert entries == front + [last] && entries[1..] == front[1..] + [last];
      var first, middle := Record(entries[0]), Encode(front[1..]);
      assert (first + middle) + Record(last) == first + (middle + Record(last));
    }
  }

  lemma RecordNotEmpty(e: Entry)
    ensures Record(e) != []
  {
  }

  lemma EncodeNil()
    ensures Encode([]) == []
  {
  }

  /** The stream is uniquely decodable. */
  lemma {:induction false} RoundTrip(entries: seq<Entry>)
    requires forall i :: 0 <= i < |entries| ==> NulFree(entries[i].name)
    ensures Decode(Encode(entries)) == Some(entries)
    decreases |entries|
  {
    EncodeNil();
    hide Encode, Record, NulFree, DecodeOne;
    if entries != [] {
      EncodeCons(entries);
      RecordNotEmpty(entries[0]);
      RecordDecodes(entries[0], Encode(entries[1..]));
      RoundTrip(entries[1..]);
      assert [entries[0]] + entries[1..] == entries;
    }
  }

  // -------------------------------------------------------------------- main results

  predicate NamesNulFree(files: seq<File>) {
    forall i :: 0 <= i < |files| ==> NulFree(files[i].name)
  }

  lemma {:induction false} EntriesKeepNames(files: seq<File>, overrides: map<string, Bytes>)
    requires EntriesOf(files, overrides).Ok?
    ensures var entries := EntriesOf(files, overrides).value;
            |entries| == |files| && forall i :: 0 <= i < |files| ==> entries[i].name == files[i].name
    decreases |files|
  {
    if files != [] {
      EntriesKeepNames(files[..|files| - 1], overrides);
    }
  }

  /**
   Unless the two streams collide, identities are equal if and only if names, normalized modes and bytes are.
   */
  lemma EqualIdentityMeansEqualSource(sha256: Bytes -> string, a: seq<File>, b: seq<File>,
                                      oa: map<string, Bytes>, ob: map<string, Bytes>)
    requires NamesNulFree(a) && NamesNulFree(b)
    requires Stream(a, oa).Ok? && Stream(b, ob).Ok?
    requires var x, y := Stream(a, oa).value, Stream(b, ob).value; sha256(x) == sha256(y) ==> x == y
    ensures sha256(Stream(a, oa).value) == sha256(Stream(b, ob).value) <==> EntriesOf(a, oa) == EntriesOf(b, ob)
  {
    if sha256(Stream(a, oa).value) == sha256(Stream(b, ob).value) {
      EqualStreams(a, b, oa, ob);
    }
  }

  lemma EqualStreams(a: seq<File>, b: seq<File>, oa: map<string, Bytes>, ob: map<string, Bytes>)
    requires NamesNulFree(a) && NamesNulFree(b)
    requires Stream(a, oa).Ok? && Stream(a, oa) == Stream(b, ob)
    ensures EntriesOf(a, oa) == EntriesOf(b, ob)
  {
    var ea, eb := EntriesOf(a, oa).value, EntriesOf(b, ob).value;
    EntriesKeepNames(a, oa);
    EntriesKeepNames(b, ob);
    assert HEADER + Encode(ea) == HEADER + Encode(eb);
    assert Encode(ea) == (HEADER + Encode(ea))[|HEADER|..] == (HEADER + Encode(eb))[|HEADER|..] == Encode(eb);
    RoundTrip(ea);
    RoundTrip(eb);
  }

  /** The snapshot with its replacements written into it. */
  function Substitute(files: seq<File>, overrides: map<string, Bytes>): seq<File> {
    seq(|files|, i requires 0 <= i < |files| =>
      if files[i].name in overrides && Normalize(files[i].mode) == Some(Plain) then
        files[i].(size := |overrides[files[i].name]|, content := Some(overrides[files[i].name]))
      else files[i])
  }

  /** Replacements that a snapshot admits: regular entries that it tracks. */
  predicate Admissible(files: seq<File>, overrides: map<string, Bytes>) {
    && overrides.Keys <= Names(files)
    && forall i :: 0 <= i < |files| && files[i].name in overrides ==> Normalize(files[i].mode) == Some(Plain)
  }

  lemma SubstituteOne(file: File, overrides: map<string, Bytes>)
    requires file.name in overrides ==> Normalize(file.mode) == Some(Plain)
    ensures EntryOf(file, overrides) == EntryOf(Substitute([file], overrides)[0], map[])
  {
    hide Components, SnapshotTree.ComponentsGood;
  }

  lemma {:induction false} SubstituteEntries(files: seq<File>, overrides: map<string, Bytes>)
    requires forall i :: 0 <= i < |files| && files[i].name in overrides ==> Normalize(files[i].mode) == Some(Plain)
    ensures EntriesOf(files, overrides) == EntriesOf(Substitute(files, overrides), map[])
    decreases |files|
  {
    hide EntryOf;
    if files != [] {
      var front := files[..|files| - 1];
      SubstituteEntries(front, overrides);
      var sub := Substitute(files, overrides);
      assert sub[..|sub| - 1] == Substitute(front, overrides);
      SubstituteOne(files[|files| - 1], overrides);
    }
  }

  lemma {:induction false} InadmissibleMode(files: seq<File>, overrides: map<string, Bytes>, i: nat)
    requires i < |files| && files[i].name in overrides && Normalize(files[i].mode) != Some(Plain)
    ensures EntriesOf(files, overrides).Err?
    decreases |files|
  {
    if i < |files| - 1 {
      InadmissibleMode(files[..|files| - 1], overrides, i);
    }
  }

  /** Hashing with replacements is hashing the substituted snapshot, and fails otherwise only for inadmissible ones. */
  lemma OverridesAreSubstitution(files: seq<File>, overrides: map<string, Bytes>)
    ensures Admissible(files, overrides) ==> Stream(files, overrides) == Stream(Substitute(files, overrides), map[])
    ensures !Admissible(files, overrides) ==> Stream(files, overrides).Err?
  {
    if Admissible(files, overrides) {
      SubstituteEntries(files, overrides);
    } else if i :| 0 <= i < |files| && files[i].name in overrides && Normalize(files[i].mode) != Some(Plain) {
      InadmissibleMode(files, overrides, i);
    }
  }
}
