/** Repository and tag of an image reference, and replacing the tag. */
module ImageReference {
  import Text

  /** strings.LastIndexByte: -1 when absent. */
  function LastIndex(s: string, c: char): (i: int)
    ensures -1 <= i < |s|
    ensures i >= 0 ==> s[i] == c
    ensures forall k :: i < k < |s| ==> s[k] != c
  {
    if s == "" then -1
    else if s[|s| - 1] == c then |s| - 1
    else LastIndex(s[..|s| - 1], c)
  }

  /** strings.Cut before the first '@'. */
  function BeforeAt(s: string): (r: string)
    ensures r <= s
    ensures '@' !in s ==> r == s
  {
    if s == "" then "" else if s[0] == '@' then "" else [s[0]] + BeforeAt(s[1..])
  }

  function Repository(reference: string): (r: string) {
    var plain := BeforeAt(reference);
    var slash, colon := LastIndex(plain, '/'), LastIndex(plain, ':');
    if colon > slash then plain[..colon] else plain
  }

  function Tag(reference: string): (r: string) {
    var slash, colon := LastIndex(reference, '/'), LastIndex(reference, ':');
    if colon <= slash || colon == |reference| - 1 then "" else reference[colon + 1..]
  }

  predicate PlainTag(tag: string) {
    tag != "" && forall i :: 0 <= i < |tag| ==> tag[i] != '@' && tag[i] != '/' && tag[i] != ':' && tag[i] != ' '
  }

  lemma LastIndexIs(s: string, c: char, i: nat)
    requires i < |s| && s[i] == c && forall k :: i < k < |s| ==> s[k] != c
    ensures LastIndex(s, c) == i
  {
  }

  lemma {:induction false} NoLastIndex(s: string, c: char)
    requires c !in s
    ensures LastIndex(s, c) == -1
    decreases |s|
  {
    if s != "" {
      NoLastIndex(s[..|s| - 1], c);
    }
  }

  // ------------------------------------------------------------------ replacing a tag

  const QUOTES := {'"', '\''}
  const SPACES := {' ', '\t', '\r', '\n'}

  function TrimLeft(s: string, cut: set<char>): string {
    if s != "" && s[0] in cut then TrimLeft(s[1..], cut) else s
  }

  function TrimRight(s: string, cut: set<char>): string {
    if s != "" && s[|s| - 1] in cut then TrimRight(s[..|s| - 1], cut) else s
  }

  /** Surrounding quotes, then surrounding white space, are dropped. */
  function Trimmed(s: string): string {
    TrimRight(TrimLeft(TrimRight(TrimLeft(s, QUOTES), QUOTES), SPACES), SPACES)
  }

  /** Index of the first slash, or the length. */
  function FirstSlash(s: string): (i: nat)
    ensures i <= |s| && (i < |s| ==> s[i] == '/')
    ensures forall k :: 0 <= k < i ==> s[k] != '/'
  {
    if s == "" || s[0] == '/' then 0 else 1 + FirstSlash(s[1..])
  }

  /** The repository with its registry spelled out: names without one belong to docker.io. */
  function Qualified(repository: string): string {
    var slash := FirstSlash(repository);
    var registry := repository[..slash];
    if repository == "" || repository == "auto" then repository
    else if slash == |repository| then "docker.io/library/" + repository
    else if registry == "docker.io" || registry == "index.docker.io" then "docker.io/" + repository[slash + 1..]
    else if registry != "localhost" && '.' !in registry && ':' !in registry then "docker.io/" + repository
    else repository
  }

  /** What qualifying does, by the first component of the name. */
  lemma QualifiedExactly(first: string, rest: string)
    requires '/' !in first && first + "/" + rest != ""
    ensures first != "" && first != "auto" ==> Qualified(first) == "docker.io/library/" + first
    ensures Qualified("auto") == "auto" && Qualified("") == ""
    ensures Qualified(first + "/" + rest) ==
            if first == "docker.io" || first == "index.docker.io" then "docker.io/" + rest
            else if first == "localhost" || '.' in first || ':' in first then first + "/" + rest
            else "docker.io/" + (first + "/" + rest)
  {
    var whole := first + "/" + rest;
    FirstSlashIs(whole, |first|);
    NoSlash(first);
    hide FirstSlash;
    assert whole[..|first|] == first && whole[|first| + 1..] == rest && whole[|first|] == '/';
    assert whole != "auto" by {
      assert '/' !in "auto";
    }
  }

  lemma NoSlash(s: string)
    requires '/' !in s
    ensures FirstSlash(s) == |s|
  {
  }

  /** imageRepository of the updater. */
  function QualifiedRepository(reference: string): string {
    Qualified(Repository(Trimmed(reference)))
  }

  function Retag(reference: string, tag: string): string {
    QualifiedRepository(reference) + ":" + tag
  }

  const FORBIDDEN := {' ', '\t', '\r', '\n', '$'}

  /** The registry library: which references it parses and which tagged ones it accepts. */
  datatype Library = Library(parses: string -> bool, tags: string -> bool)

  predicate ValidReference(library: Library, reference: string) {
    var t := Trimmed(reference);
    && t != "" && !Text.Contains(t, "://") && !Text.Contains(t, "{{")
    && (forall i :: 0 <= i < |t| ==> t[i] !in FORBIDDEN) && library.parses(t)
  }

  /** When replaceImageTag succeeds; its result is Retag. */
  predicate Taggable(library: Library, reference: string, tag: string) {
    ValidReference(library, reference) && '@' !in reference && PlainTag(tag) && library.tags(Retag(reference, tag))
  }

  /** A URL, a template and text with blanks or a variable in it are no references. */
  lemma NoReference(library: Library, before: string, part: string, after: string)
    requires part == "://" || part == "{{" || (|part| == 1 && part[0] in FORBIDDEN)
    requires Trimmed(before + part + after) == before + part + after
    ensures !ValidReference(library, before + part + after)
  {
    var t := before + part + after;
    hide Trimmed;
    if |part| == 1 {
      assert t[|before|] == part[0];
    } else {
      assert t[|before|..] == part + after && part <= t[|before|..];
      assert Text.Contains(t, part);
    }
  }

  /** A tagged reference parses. */
  ghost predicate GoodLibrary(library: Library) {
    forall r :: library.tags(r) ==> library.parses(r)
  }

  /** A reference put together from a repository and a plain tag comes apart again. */
  lemma TagOfTagged(repository: string, tag: string)
    requires PlainTag(tag)
    ensures Tag(repository + ":" + tag) == tag
    ensures '@' !in repository ==> Repository(repository + ":" + tag) == repository
  {
    var r := repository + ":" + tag;
    SplitAt(repository, tag);
    hide LastIndex;
    assert r[|repository| + 1..] == tag && r[..|repository|] == repository;
    if '@' !in repository {
      assert '@' !in r;
    }
  }

  /** A last component without a colon carries no tag, whatever port the registry before it has; a digest is cut off. */
  lemma RepositoryReads(path: string, name: string, rest: string)
    requires '@' !in path && '@' !in name && '/' !in name && ':' !in name
    requires path == "" || path[|path| - 1] == '/'
    ensures Repository(path + name) == path + name && Tag(path + name) == ""
    ensures Repository(path + name + "@" + rest) == path + name
  {
    var r := path + name;
    assert forall k :: |path| <= k < |r| ==> r[k] == name[k - |path|];
    if LastIndex(r, ':') >= 0 {
      assert LastIndex(r, ':') < |path| - 1;
      LastIndexIs(r, '/', |path| - 1);
    }
    CutAt(r, rest);
    assert BeforeAt(r) == r;
  }

  lemma {:induction false} CutAt(a: string, rest: string)
    requires '@' !in a
    ensures BeforeAt(a + "@" + rest) == a
    decreases |a|
  {
    if a != "" {
      CutAt(a[1..], rest);
      assert (a + "@" + rest)[1..] == a[1..] + "@" + rest;
    }
  }

  lemma SplitAt(repository: string, tag: string)
    requires PlainTag(tag)
    ensures var r := repository + ":" + tag; LastIndex(r, ':') == |repository| && LastIndex(r, '/') < |repository|
    ensures '@' !in tag
  {
    var r := repository + ":" + tag;
    assert forall k :: |repository| < k < |r| ==> r[k] == tag[k - |repository| - 1];
    LastIndexIs(r, ':', |repository|);
    LastSlashBefore(r, |repository|);
  }

  lemma LastSlashBefore(r: string, n: nat)
    requires n <= |r| && forall k :: n <= k < |r| ==> r[k] != '/'
    ensures LastIndex(r, '/') < n
  {
  }

  lemma FirstSlashIs(s: string, n: nat)
    requires n <= |s| && (n < |s| ==> s[n] == '/') && forall k :: 0 <= k < n ==> s[k] != '/'
    ensures FirstSlash(s) == n
  {
  }

  /** Spelling out the registry twice changes nothing. */
  lemma QualifiedIdempotent(repository: string)
    ensures Qualified(Qualified(repository)) == Qualified(repository)
  {
    var q := Qualified(repository);
    if q != repository {
      assert q[..9] == "docker.io" && q[9] == '/';
      FirstSlashIs(q, 9);
      hide FirstSlash;
      assert q == "docker.io/" + q[10..];
    }
  }

  lemma QualifiedKeepsOut(repository: string, c: char)
    requires c !in repository && c !in "docker.io/library/"
    ensures c !in Qualified(repository)
  {
    assert c !in "docker.io/" by {
      assert "docker.io/library/"[..10] == "docker.io/";
    }
    hide FirstSlash;
  }

  lemma {:induction false} QualifiedParts(repository: string, part: string)
    requires part != "" && part[0] !in "docker.io/library/" && Text.Contains(Qualified(repository), part)
    ensures Text.Contains(repository, part)
  {
    hide FirstSlash, Text.Contains;
    assert part[0] !in "docker.io/" by {
      assert "docker.io/library/"[..10] == "docker.io/";
    }
    var slash, q := FirstSlash(repository), Qualified(repository);
    if q == "docker.io/library/" + repository {
      Text.PartBehind("docker.io/library/", repository, part);
    } else if q == "docker.io/" + repository {
      Text.PartBehind("docker.io/", repository, part);
    } else if q != repository {
      Text.PartBehind("docker.io/", repository[slash + 1..], part);
      assert repository[slash + 1..] == repository[slash + 1..|repository|];
      Text.PartWithin(repository, slash + 1, |repository|, part);
    }
  }

  // ----------------------------------------------------------------- retagging settles

  lemma TrimNothing(s: string)
    requires s != "" && s[0] !in QUOTES + SPACES && s[|s| - 1] !in QUOTES + SPACES
    ensures Trimmed(s) == s
  {
  }

  lemma {:induction false} TrimLeftKeepsOut(s: string, cut: set<char>, c: char)
    requires c !in s
    ensures c !in TrimLeft(s, cut)
    decreases |s|
  {
    if s != "" && s[0] in cut {
      TrimLeftKeepsOut(s[1..], cut, c);
    }
  }

  lemma {:induction false} TrimRightKeepsOut(s: string, cut: set<char>, c: char)
    requires c !in s
    ensures c !in TrimRight(s, cut)
    decreases |s|
  {
    if s != "" && s[|s| - 1] in cut {
      TrimRightKeepsOut(s[..|s| - 1], cut, c);
    }
  }

  lemma TrimmedKeepsOut(s: string, c: char)
    requires c !in s
    ensures c !in Trimmed(s)
  {
    hide TrimLeft, TrimRight;
    TrimLeftKeepsOut(s, QUOTES, c);
    TrimRightKeepsOut(TrimLeft(s, QUOTES), QUOTES, c);
    TrimLeftKeepsOut(TrimRight(TrimLeft(s, QUOTES), QUOTES), SPACES, c);
    TrimRightKeepsOut(TrimLeft(TrimRight(TrimLeft(s, QUOTES), QUOTES), SPACES), SPACES, c);
  }

  /** Tags as they are derived: plain, and free of everything that a reference must not contain. */
  predicate SafeTag(tag: string) {
    PlainTag(tag) && forall i :: 0 <= i < |tag| ==> tag[i] !in QUOTES + SPACES + {'$', '{'}
  }

  lemma RepositoryWithin(reference: string)
    ensures |Repository(reference)| <= |reference| && Repository(reference) == reference[0..|Repository(reference)|]
  {
  }

  lemma RetagKeepsOut(reference: string, tag: string, c: char)
    requires SafeTag(tag) && c !in Trimmed(reference) && (c in FORBIDDEN || c == '@')
    ensures c !in QualifiedRepository(reference) && c !in Retag(reference, tag)
  {
    hide Qualified, Repository, Trimmed;
    RepositoryWithin(Trimmed(reference));
    QualifiedKeepsOut(Repository(Trimmed(reference)), c);
    assert c !in tag;
  }

  lemma RetagParts(reference: string, tag: string, part: string)
    requires part != "" && part[0] !in "docker.io/library/"
    requires part[|part| - 1] != ':' && part[|part| - 1] !in tag && Text.Contains(Retag(reference, tag), part)
    ensures Text.Contains(Trimmed(reference), part)
  {
    hide Qualified, Repository, Trimmed, Text.Contains;
    var t := Trimmed(reference);
    var repository := Repository(t);
    RepositoryWithin(t);
    assert Retag(reference, tag) == Qualified(repository) + (":" + tag);
    Text.PartBefore(Qualified(repository), ":" + tag, part);
    QualifiedParts(repository, part);
    Text.PartWithin(t, 0, |repository|, part);
  }

  /** The repository does not begin with a quotation mark that another trimming would drop. */
  predicate StartsClean(reference: string) {
    var q := QualifiedRepository(reference);
    q == "" || q[0] !in QUOTES
  }

  lemma NoSpaces(library: Library, reference: string, tag: string)
    requires ValidReference(library, reference) && SafeTag(tag)
    ensures forall c :: c in FORBIDDEN ==> c !in QualifiedRepository(reference) && c !in Retag(reference, tag)
  {
    hide Trimmed, Text.Contains, Retag, QualifiedRepository;
    forall c | c in FORBIDDEN ensures c !in QualifiedRepository(reference) && c !in Retag(reference, tag) {
      RetagKeepsOut(reference, tag, c);
    }
  }

  lemma RetagTrimmed(library: Library, reference: string, tag: string)
    requires ValidReference(library, reference) && SafeTag(tag) && StartsClean(reference)
    ensures Trimmed(Retag(reference, tag)) == Retag(reference, tag)
  {
    NoSpaces(library, reference, tag);
    hide ValidReference, QualifiedRepository, Trimmed;
    var r := Retag(reference, tag);
    assert r[|r| - 1] == tag[|tag| - 1];
    assert r[0] in r && r[0] !in SPACES;
    TrimNothing(r);
  }

  lemma RetagValid(library: Library, reference: string, tag: string)
    requires GoodLibrary(library) && SafeTag(tag) && StartsClean(reference) && Taggable(library, reference, tag)
    ensures ValidReference(library, Retag(reference, tag)) && '@' !in QualifiedRepository(reference)
    ensures '@' !in Retag(reference, tag)
  {
    hide Trimmed, Text.Contains, Retag, QualifiedRepository, StartsClean;
    var r := Retag(reference, tag);
    RetagTrimmed(library, reference, tag);
    NoSpaces(library, reference, tag);
    TrimmedKeepsOut(reference, '@');
    RetagKeepsOut(reference, tag, '@');
    assert '/' !in tag && '{' !in tag;
    if Text.Contains(r, "://") {
      RetagParts(reference, tag, "://");
    }
    if Text.Contains(r, "{{") {
      RetagParts(reference, tag, "{{");
    }
    RetagNotEmpty(reference, tag);
  }

  lemma RetagNotEmpty(reference: string, tag: string)
    ensures Retag(reference, tag) != ""
  {
  }

  /**
   Replacing the tag of a reference: the result has that tag and the qualified repository, is accepted again, and
   replacing the tag again changes nothing.
   */
  lemma RetagSettles(library: Library, reference: string, tag: string)
    requires GoodLibrary(library) && SafeTag(tag) && StartsClean(reference) && Taggable(library, reference, tag)
    ensures var r := Retag(reference, tag);
            && Tag(r) == tag && Repository(r) == QualifiedRepository(reference)
            && Retag(r, tag) == r && Taggable(library, r, tag) && StartsClean(r)
  {
    RetagTrimmed(library, reference, tag);
    RetagValid(library, reference, tag);
    hide Qualified, Repository, Trimmed, Text.Contains, ValidReference, Tag;
    var q := QualifiedRepository(reference);
    TagOfTagged(q, tag);
    QualifiedIdempotent(Repository(Trimmed(reference)));
  }

  lemma {:induction false} TrimLeftStart(s: string, cut: set<char>)
    requires s != "" && s[|s| - 1] !in cut
    ensures var x := TrimLeft(s, cut);
            x != "" && x[0] !in cut && x[|x| - 1] == s[|s| - 1] && forall c :: c in x ==> c in s
    decreases |s|
  {
    if s[0] in cut {
      TrimLeftStart(s[1..], cut);
    }
  }

  /** The condition is needed: with a leading quotation mark a second replacement yields another reference. */
  lemma QuotedRepositoryDrifts(library: Library, reference: string, tag: string)
    requires ValidReference(library, reference) && SafeTag(tag) && !StartsClean(reference)
    ensures Retag(Retag(reference, tag), tag) != Retag(reference, tag)
  {
    hide ValidReference, QualifiedRepository, Trimmed;
    NoSpaces(library, reference, tag);
    var r := Retag(reference, tag);
    assert r[|r| - 1] == tag[|tag| - 1];
    Unquoted(r);
    RetagStart(r, tag);
  }

  /** Trimming text without blanks leaves no quotation mark in front. */
  lemma Unquoted(r: string)
    requires r != "" && r[|r| - 1] !in QUOTES && forall c :: c in SPACES ==> c !in r
    ensures Trimmed(r) != "" && Trimmed(r)[0] !in QUOTES
  {
    var x := TrimLeft(r, QUOTES);
    TrimLeftStart(r, QUOTES);
    assert x[0] in x && x[|x| - 1] in x && x[0] !in SPACES && x[|x| - 1] !in SPACES;
    hide TrimLeft, TrimRight;
    TrimRest(r);
  }

  lemma RetagStart(r: string, tag: string)
    requires Trimmed(r) != "" && Trimmed(r)[0] !in QUOTES
    ensures Retag(r, tag)[0] !in QUOTES
  {
    hide Trimmed, Qualified, Repository;
    QualifiedStart(Trimmed(r));
  }

  const QUOTED := "\" 'a.b/xy"
  const UNQUOTED := "'a.b/xy"

  lemma QuotedTrims()
    ensures Trimmed(QUOTED) == UNQUOTED
  {
    assert TrimRight(QUOTED, QUOTES) == QUOTED && TrimLeft(QUOTED, QUOTES) == QUOTED[1..];
    assert QUOTED[1..][1..] == UNQUOTED;
  }

  lemma LacksPart(s: string, part: string)
    requires part != "" && part[0] !in s
    ensures !Text.Contains(s, part)
  {
    forall k | 0 <= k <= |s| ensures !(part <= s[k..]) {
      if k < |s| {
        assert s[k..][0] == s[k] != part[0];
      }
    }
  }

  /** Under a dotted registry a repository is qualified as it stands. */
  lemma DottedStays(r: string, n: nat)
    requires n < |r| && r[n] == '/' && r[0] == '\'' && '.' in r[..n] && forall k :: 0 <= k < n ==> r[k] != '/'
    ensures Qualified(r) == r
  {
    FirstSlashIs(r, n);
    hide FirstSlash;
    assert n > 0 && r[..n][0] == r[0];
    assert "auto"[0] == 'a' && "docker.io"[0] == 'd' && "index.docker.io"[0] == 'i' && "localhost"[0] == 'l';
  }

  lemma PlainStays(r: string)
    requires '@' !in r && ':' !in r
    ensures Repository(r) == r
  {
    NoLastIndex(r, ':');
    hide LastIndex;
  }

  lemma UnquotedText()
    ensures |UNQUOTED| == 7 && UNQUOTED[0] == '\'' && UNQUOTED[2] == '.' && UNQUOTED[4] == '/'
    ensures forall i :: 0 <= i < 7 ==> UNQUOTED[i] !in FORBIDDEN + {'@', ':', '{'}
    ensures forall i :: 0 <= i < 4 ==> UNQUOTED[i] != '/'
  {
  }

  lemma QuotedStarts()
    ensures QualifiedRepository(QUOTED) == UNQUOTED && UNQUOTED != "" && UNQUOTED[0] in QUOTES
  {
    QuotedTrims();
    UnquotedText();
    hide QUOTED, UNQUOTED, Qualified, Repository, Trimmed;
    assert UNQUOTED[..4][2] == '.';
    DottedStays(UNQUOTED, 4);
    PlainStays(UNQUOTED);
  }

  lemma QuotedValid(library: Library)
    requires library.parses(UNQUOTED)
    ensures ValidReference(library, QUOTED)
  {
    QuotedTrims();
    UnquotedText();
    hide QUOTED, UNQUOTED, Trimmed;
    LacksPart(UNQUOTED, "://");
    LacksPart(UNQUOTED, "{{");
    hide Text.Contains;
  }

  /** Such a reference: one quotation mark hides another behind a blank. */
  lemma QuotedReference(library: Library, tag: string)
    requires library.parses(UNQUOTED) && SafeTag(tag)
    ensures ValidReference(library, QUOTED) && !StartsClean(QUOTED)
    ensures Retag(Retag(QUOTED, tag), tag) != Retag(QUOTED, tag)
  {
    hide QUOTED, UNQUOTED, QualifiedRepository, ValidReference, Retag;
    QuotedStarts();
    QuotedValid(library);
    QuotedRepositoryDrifts(library, QUOTED, tag);
  }

  lemma TrimRest(r: string)
    requires var x := TrimLeft(r, QUOTES); x != "" && x[0] !in SPACES && x[|x| - 1] !in QUOTES + SPACES
    ensures Trimmed(r) == TrimLeft(r, QUOTES)
  {
  }

  /** Qualifying never puts a quotation mark in front. */
  lemma QualifiedStart(x: string)
    requires x != "" && x[0] !in QUOTES
    ensures var q := Qualified(Repository(x)); q == "" || q[0] !in QUOTES
  {
    RepositoryWithin(x);
    hide Repository, FirstSlash;
  }
}
