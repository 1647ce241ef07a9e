/** Tag lines of the build graph: normalization makes its identity ignore exactly what they say. */
module BuildTags {
  import opened Outcomes

  const PREFIX := "  tags       = [\""
  const SUFFIX := "\"]"
  const REPLACEMENT := "  tags       = [\"<build-input-sha256>\"]"

  // ------------------------------------------------------------------- tag lines

  /** One line of a file: its text, and whether a newline follows. */
  datatype Line = Line(body: Bytes, closed: bool)

  predicate IsTagLine(body: Bytes) { PREFIX <= body }

  predicate EndsWith(body: Bytes, suffix: Bytes) {
    |body| >= |suffix| && body[|body| - |suffix|..] == suffix
  }

  predicate Canonical(body: Bytes) { IsTagLine(body) && EndsWith(body, SUFFIX) }

  /** Length of the first line's text. */
  function FirstBody(data: Bytes): (n: nat)
    ensures n <= |data| && (n < |data| ==> data[n] == '\n')
    ensures forall i :: 0 <= i < n ==> data[i] != '\n'
  {
    if data == [] then 0 else if data[0] == '\n' then 0 else 1 + FirstBody(data[1..])
  }

  function Lines(data: Bytes): (r: seq<Line>)
    decreases |data|
  {
    if data == [] then []
    else
      var n := FirstBody(data);
      if n == |data| then [Line(data, false)] else [Line(data[..n], true)] + Lines(data[n + 1..])
  }

  function Text(line: Line): Bytes { if line.closed then line.body + ['\n'] else line.body }

  function Unlines(lines: seq<Line>): Bytes {
    if lines == [] then [] else Text(lines[0]) + Unlines(lines[1..])
  }

  /** Lines as a file can have them: no newline inside, only the last may be open, and an open one is not empty. */
  predicate Proper(lines: seq<Line>) {
    && (forall i :: 0 <= i < |lines| ==> '\n' !in lines[i].body)
    && (forall i :: 0 <= i < |lines| && !lines[i].closed ==> i == |lines| - 1 && lines[i].body != [])
  }

  /** The first line, and the lines of the rest. */
  lemma LinesStep(data: Bytes)
    requires data != []
    ensures var n := FirstBody(data);
            var rest := if n < |data| then data[n + 1..] else [];
            && Lines(data) == [Line(data[..n], n < |data|)] + Lines(rest)
            && data == Text(Line(data[..n], n < |data|)) + rest
  {
    hide FirstBody;
    var n := FirstBody(data);
    if n == |data| {
      assert data[..n] == data;
      assert Lines(data) == [Line(data, false)];
    } else {
      assert data == data[..n] + ['\n'] + data[n + 1..];
    }
  }

  lemma {:induction false} LinesProper(data: Bytes)
    ensures Proper(Lines(data))
    decreases |data|
  {
    if data != [] {
      var n := FirstBody(data);
      if n < |data| {
        LinesProper(data[n + 1..]);
        ProperCons(Line(data[..n], true), Lines(data[n + 1..]));
      }
    }
  }

  lemma ProperCons(first: Line, rest: seq<Line>)
    requires first.closed && '\n' !in first.body && Proper(rest)
    ensures Proper([first] + rest)
  {
    var lines := [first] + rest;
    forall i | 0 <= i < |lines|
      ensures '\n' !in lines[i].body && (!lines[i].closed ==> i == |lines| - 1 && lines[i].body != [])
    {
      if i > 0 {
        assert lines[i] == rest[i - 1];
      }
    }
  }

  lemma {:induction false} LinesUnlines(lines: seq<Line>)
    requires Proper(lines)
    ensures Lines(Unlines(lines)) == lines
    decreases |lines|
  {
    if lines != [] {
      var first, rest := lines[0], lines[1..];
      hide FirstBody;
      LinesUnlines(rest);
      var data := Unlines(lines);
      if first.closed {
        assert data == first.body + ['\n'] + Unlines(rest);
        FirstBodyIs(data, |first.body|);
        assert data[..|first.body|] == first.body && data[|first.body| + 1..] == Unlines(rest);
      } else {
        assert rest == [] && data == first.body;
        FirstBodyIs(data, |data|);
      }
      assert lines == [first] + rest;
    }
  }

  lemma FirstBodyIs(data: Bytes, n: nat)
    requires n <= |data| && (n < |data| ==> data[n] == '\n') && forall i :: 0 <= i < n ==> data[i] != '\n'
    ensures FirstBody(data) == n
  {
  }

  // --------------------------------------------------------------- normalization

  function NormalLine(line: Line): Line {
    if IsTagLine(line.body) then line.(body := REPLACEMENT) else line
  }

  function NormalLines(lines: seq<Line>): seq<Line> {
    seq(|lines|, i requires 0 <= i < |lines| => NormalLine(lines[i]))
  }

  predicate AllCanonical(lines: seq<Line>) {
    forall i :: 0 <= i < |lines| && IsTagLine(lines[i].body) ==> EndsWith(lines[i].body, SUFFIX)
  }

  function TagCount(lines: seq<Line>): nat {
    if lines == [] then 0 else (if IsTagLine(lines[0].body) then 1 else 0) + TagCount(lines[1..])
  }

  /** Every tag line replaced by one placeholder; None when a tag line is not canonical. */
  function Normalize(data: Bytes): (r: Option<Bytes>) {
    if AllCanonical(Lines(data)) then Some(Unlines(NormalLines(Lines(data)))) else None
  }

  /** One line further: what is left to produce and to count. */
  lemma NormalStep(lines: seq<Line>, k: nat)
    requires k < |lines|
    ensures Unlines(NormalLines(lines[k..])) == Text(NormalLine(lines[k])) + Unlines(NormalLines(lines[k + 1..]))
    ensures TagCount(lines[k..]) == (if IsTagLine(lines[k].body) then 1 else 0) + TagCount(lines[k + 1..])
  {
    assert lines[k..][1..] == lines[k + 1..];
    assert NormalLines(lines[k..])[1..] == NormalLines(lines[k + 1..]);
  }

  lemma CanonicalStep(lines: seq<Line>, k: nat)
    requires k < |lines|
    ensures AllCanonical(lines[..k + 1]) <==>
            AllCanonical(lines[..k]) && (IsTagLine(lines[k].body) ==> EndsWith(lines[k].body, SUFFIX))
    ensures IsTagLine(lines[k].body) && !EndsWith(lines[k].body, SUFFIX) ==> !AllCanonical(lines)
  {
    assert lines[..k + 1] == lines[..k] + [lines[k]];
  }

  /** The buffer loop: consumes the data line by line, appends to the result, counts replacements. */
  method NormalizeBuildGraphTargetTags(input: Bytes) returns (r: Option<Bytes>, replaced: nat)
    ensures r == Normalize(input)
    ensures r.Some? ==> replaced == TagCount(Lines(input))
  {
    var data := input;
    var result: Bytes := [];
    replaced := 0;
    ghost var all := Lines(input);
    ghost var done := 0;
    assert all[done..] == all && [] + Unlines(NormalLines(all)) == Unlines(NormalLines(all));
    hide Lines, Unlines, NormalLines, TagCount, AllCanonical, EndsWith;
    assert AllCanonical(all[..0]) by { NothingCanonical(all); }
    while data != []
      invariant done <= |all| && all[done..] == Lines(data)
      invariant AllCanonical(all[..done])
      invariant result + Unlines(NormalLines(all[done..])) == Unlines(NormalLines(all))
      invariant replaced + TagCount(all[done..]) == TagCount(all)
      decreases |data|
    {
      LinesStep(data);
      var n := FirstBody(data);
      var closed := n < |data|;
      var body := data[..n];
      data := if closed then data[n + 1..] else [];
      assert all[done] == all[done..][0] == Line(body, closed);
      assert all[done + 1..] == all[done..][1..] == Lines(data);
      NormalStep(all, done);
      CanonicalStep(all, done);
      var piece := body;
      if PREFIX <= body {
        if !EndsWith(body, SUFFIX) {
          return None, 0;
        }
        piece := REPLACEMENT;
        replaced := replaced + 1;
      }
      if closed {
        piece := piece + ['\n'];
      }
      assert piece == Text(NormalLine(all[done]));
      Glue(result, piece, Unlines(NormalLines(all[done + 1..])));
      result := result + piece;
      done := done + 1;
    }
    NothingLeft(all, done);
    assert result + Unlines(NormalLines(all[done..])) == result;
    return Some(result), replaced;
  }

  lemma Glue(a: Bytes, b: Bytes, c: Bytes)
    ensures a + (b + c) == a + b + c
  {
  }

  lemma NothingCanonical(lines: seq<Line>)
    ensures AllCanonical(lines[..0])
  {
  }

  lemma NothingLeft(lines: seq<Line>, k: nat)
    requires k <= |lines| && lines[k..] == Lines([])
    ensures lines[..k] == lines && Unlines(NormalLines(lines[k..])) == [] && TagCount(lines[k..]) == 0
  {
    assert |lines[k..]| == 0;
  }

  lemma NormalProper(lines: seq<Line>)
    requires Proper(lines)
    ensures Proper(NormalLines(lines))
  {
    ReplacementIsCanonical();
    hide IsTagLine;
    var normal := NormalLines(lines);
    forall i | 0 <= i < |normal|
      ensures '\n' !in normal[i].body && (!normal[i].closed ==> i == |normal| - 1 && normal[i].body != [])
    {
      assert normal[i].closed == lines[i].closed;
      assert normal[i].body == lines[i].body || normal[i].body == REPLACEMENT;
    }
  }

  lemma ReplacementIsCanonical()
    ensures Canonical(REPLACEMENT) && '\n' !in REPLACEMENT
  {
    assert REPLACEMENT[..|PREFIX|] == PREFIX;
    assert REPLACEMENT[|REPLACEMENT| - |SUFFIX|..] == SUFFIX;
  }

  /** Normalizing twice changes nothing further. */
  lemma NormalizeIdempotent(data: Bytes)
    requires Normalize(data).Some?
    ensures Normalize(Normalize(data).value) == Normalize(data)
  {
    var lines := Lines(data);
    LinesProper(data);
    NormalProper(lines);
    LinesUnlines(NormalLines(lines));
    ReplacementIsCanonical();
    assert NormalLines(NormalLines(lines)) == NormalLines(lines);
  }

  /** The same file, except possibly for what canonical tag lines say. */
  predicate SameButTags(a: seq<Line>, b: seq<Line>) {
    && |a| == |b|
    && forall i :: 0 <= i < |a| ==>
         a[i] == b[i] || (a[i].closed == b[i].closed && IsTagLine(a[i].body) && IsTagLine(b[i].body))
  }

  lemma NormalLinesForgetTags(a: seq<Line>, b: seq<Line>)
    ensures NormalLines(a) == NormalLines(b) <==> SameButTags(a, b)
  {
    ReplacementIsCanonical();
    hide IsTagLine;
    if NormalLines(a) == NormalLines(b) {
      assert |a| == |NormalLines(a)| == |b|;
      forall i | 0 <= i < |a|
        ensures a[i] == b[i] || (a[i].closed == b[i].closed && IsTagLine(a[i].body) && IsTagLine(b[i].body))
      {
        assert NormalLines(a)[i] == NormalLines(b)[i];
      }
    }
  }

  /** Normalization forgets the contents of the tag lines, and nothing else. */
  lemma NormalizeForgetsExactlyTags(a: Bytes, b: Bytes)
    requires Normalize(a).Some? && Normalize(b).Some?
    ensures Normalize(a) == Normalize(b) <==> SameButTags(Lines(a), Lines(b))
  {
    hide Lines, NormalLines, SameButTags, Proper;
    var la, lb := Lines(a), Lines(b);
    LinesProper(a);
    LinesProper(b);
    NormalProper(la);
    NormalProper(lb);
    LinesUnlines(NormalLines(la));
    LinesUnlines(NormalLines(lb));
    NormalLinesForgetTags(la, lb);
  }
}
