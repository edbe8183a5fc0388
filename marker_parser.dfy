/**
 * The start-marker parser of headerx.c. A marker is the prefix `//HEADERX`,
 * then `(`, a filename, `,`, a guard tag and `)`, with any number of spaces and
 * tabs before each separator and each token.
 *
 * The C function walks a pointer through the line and stores each token
 * through an out-pointer as soon as it has scanned it, before it looks at the
 * next separator. `Parse` states that outcome as a function of the line;
 * `ParseHeaderLine` is the pointer-walking scanner, proved to compute it.
 */
module MarkerParser {
  import opened Wrappers
  import opened CStrings

  const Prefix: string := "//HEADERX"

  predicate IsAlphaNumeric(c: char)
  {
    ('0' <= c <= '9') || ('a' <= c <= 'z') || ('A' <= c <= 'Z')
  }

  predicate IsWS(c: char)
  {
    c == ' ' || c == '\t'
  }

  /** The character classes the scanner runs over. */
  datatype Class = Blank | FilenameChar | TagChar

  predicate InClass(c: char, k: Class)
  {
    match k
    case Blank => IsWS(c)
    case FilenameChar => IsAlphaNumeric(c) || c == '_' || c == '.' || c == '/'
    case TagChar => IsAlphaNumeric(c) || c == '_'
  }

  /**
   * The classes the scanner tells apart: a blank never continues a token, a
   * separator or the terminating NUL continues nothing, and every tag
   * character may also appear in a filename.
   */
  lemma ClassesSeparate(c: char)
    ensures IsWS(c) ==> !InClass(c, FilenameChar) && !InClass(c, TagChar)
    ensures InClass(c, TagChar) ==> InClass(c, FilenameChar)
    ensures c == '(' || c == ',' || c == ')' || c == NUL ==> !InClass(c, Blank) && !InClass(c, FilenameChar)
  {
  }

  predicate AllIn(s: string, k: Class)
  {
    forall i :: 0 <= i < |s| ==> InClass(s[i], k)
  }

  /** The end of the maximal run of class `k` starting at `i`. */
  function Scan(s: string, i: nat, k: Class): (j: nat)
    requires i <= |s|
    ensures i <= j <= |s|
    ensures AllIn(s[i..j], k)
    ensures !InClass(At(s, j), k)
    decreases |s| - i
  {
    if i < |s| && InClass(s[i], k) then Scan(s, i + 1, k) else i
  }

  /** How far the grammar got: to the end, or to a separator it did not find. */
  datatype Status = Parsed | NotMarker | Expected(want: char, found: char)

  /** What the C function leaves in `*h_filename` and `*h_tag`, and where it stopped. */
  datatype ParseResult = ParseResult(filename: Option<string>, tag: Option<string>, status: Status)

  /** A token: the run `s[i..j]` when it is non-empty, or nothing (the pointer stays NULL). */
  function Token(s: string, i: nat, j: nat): (r: Option<string>)
    requires i <= j <= |s|
    ensures r.Some? ==> r.value != [] && r.value == s[i..j]
  {
    if i < j then Some(s[i..j]) else None
  }

  /**
   * The outcome of `parse_header_line` on line `s`, one function per stage of
   * the grammar; each stage receives the position its scanning loop stopped at.
   */
  function Parse(s: string): (r: ParseResult)
    ensures r.filename.Some? ==> r.filename.value != [] && AllIn(r.filename.value, FilenameChar)
    ensures r.tag.Some? ==> r.tag.value != [] && AllIn(r.tag.value, TagChar)
    ensures r.status == NotMarker <==> !HasPrefix(s, Prefix)
    ensures r.status == NotMarker ==> r.filename == None && r.tag == None
  {
    if !HasPrefix(s, Prefix) then ParseResult(None, None, NotMarker)
    else AfterPrefix(s, Scan(s, |Prefix|, Blank))
  }

  function AfterPrefix(s: string, open: nat): (r: ParseResult)
    requires open <= |s|
    ensures r.status != NotMarker
    ensures r.filename.Some? ==> r.filename.value != [] && AllIn(r.filename.value, FilenameChar)
    ensures r.tag.Some? ==> r.tag.value != [] && AllIn(r.tag.value, TagChar)
  {
    if At(s, open) != '(' then ParseResult(None, None, Expected('(', At(s, open)))
    else FilenameField(s, Scan(s, open + 1, Blank))
  }

  function FilenameField(s: string, start: nat): (r: ParseResult)
    requires start <= |s|
    ensures r.status != NotMarker
    ensures r.filename.Some? ==> r.filename.value != [] && AllIn(r.filename.value, FilenameChar)
    ensures r.tag.Some? ==> r.tag.value != [] && AllIn(r.tag.value, TagChar)
  {
    var end := Scan(s, start, FilenameChar);
    AfterFilename(s, Token(s, start, end), Scan(s, end, Blank))
  }

  function AfterFilename(s: string, filename: Option<string>, comma: nat): (r: ParseResult)
    requires comma <= |s|
    ensures r.status != NotMarker && r.filename == filename
    ensures r.tag.Some? ==> r.tag.value != [] && AllIn(r.tag.value, TagChar)
  {
    if At(s, comma) != ',' then ParseResult(filename, None, Expected(',', At(s, comma)))
    else TagField(s, filename, Scan(s, comma + 1, Blank))
  }

  function TagField(s: string, filename: Option<string>, start: nat): (r: ParseResult)
    requires start <= |s|
    ensures r.status != NotMarker && r.filename == filename
    ensures r.tag.Some? ==> r.tag.value != [] && AllIn(r.tag.value, TagChar)
  {
    var end := Scan(s, start, TagChar);
    AfterTag(s, filename, Token(s, start, end), Scan(s, end, Blank))
  }

  function AfterTag(s: string, filename: Option<string>, tag: Option<string>, close: nat): (r: ParseResult)
    requires close <= |s|
    ensures r.status != NotMarker && r.filename == filename && r.tag == tag
  {
    if At(s, close) != ')' then ParseResult(filename, tag, Expected(')', At(s, close)))
    else ParseResult(filename, tag, Parsed)
  }

  /**
   * The check `start_new_header` makes after parsing: both out-pointers were
   * set. The parser's own verdict (its return value) is ignored.
   */
  predicate Accepted(s: string)
    ensures Accepted(s) ==> HasPrefix(s, Prefix)
  {
    var r := Parse(s);
    r.filename.Some? && r.tag.Some?
  }

  /** One `while(isWS(*src)) src++;` or `for(...; class(*src); src++) c++;` loop. */
  method SkipRun(s: string, i: nat, k: Class) returns (j: nat)
    requires i <= |s|
    ensures j == Scan(s, i, k)
  {
    j := i;
    while j < |s| && InClass(s[j], k)
      invariant i <= j <= |s|
      invariant Scan(s, j, k) == Scan(s, i, k)
      decreases |s| - j
    {
      j := j + 1;
    }
  }

  /** `parse_header_line`, walking an index where the C code walks a pointer. */
  method ParseHeaderLine(s: string) returns (r: ParseResult)
    ensures r == Parse(s)
  {
    if !HasPrefix(s, Prefix) {
      return ParseResult(None, None, NotMarker);
    }
    var p := SkipRun(s, |Prefix|, Blank);
    assert Parse(s) == AfterPrefix(s, p);
    if At(s, p) != '(' {
      return ParseResult(None, None, Expected('(', At(s, p)));
    }
    p := SkipRun(s, p + 1, Blank);
    assert Parse(s) == FilenameField(s, p);
    var start := p;
    p := SkipRun(s, p, FilenameChar);
    var filename := if start < p then Some(s[start..p]) else None;
    assert filename == Token(s, start, p);
    p := SkipRun(s, p, Blank);
    assert Parse(s) == AfterFilename(s, filename, p);
    if At(s, p) != ',' {
      return ParseResult(filename, None, Expected(',', At(s, p)));
    }
    p := SkipRun(s, p + 1, Blank);
    assert Parse(s) == TagField(s, filename, p);
    start := p;
    p := SkipRun(s, p, TagChar);
    var tag := if start < p then Some(s[start..p]) else None;
    assert tag == Token(s, start, p);
    p := SkipRun(s, p, Blank);
    assert Parse(s) == AfterTag(s, filename, tag, p);
    if At(s, p) != ')' {
      return ParseResult(filename, tag, Expected(')', At(s, p)));
    }
    r := ParseResult(filename, tag, Parsed);
  }

  /**
   * A marker line assembled from its parts, one function per grammar stage;
   * `tail` is whatever follows the blanks after the tag.
   */
  function MarkerLine(w1: string, w2: string, f: string, w3: string, w4: string, t: string, w5: string, tail: string): string
  {
    Prefix + (w1 + OpenPart(w2, f, w3, w4, t, w5, tail))
  }

  function OpenPart(w2: string, f: string, w3: string, w4: string, t: string, w5: string, tail: string): string
  {
    "(" + (w2 + FilenamePart(f, w3, w4, t, w5, tail))
  }

  function FilenamePart(f: string, w3: string, w4: string, t: string, w5: string, tail: string): string
  {
    f + (w3 + CommaPart(w4, t, w5, tail))
  }

  function CommaPart(w4: string, t: string, w5: string, tail: string): string
  {
    "," + (w4 + TagPart(t, w5, tail))
  }

  function TagPart(t: string, w5: string, tail: string): string
  {
    t + (w5 + tail)
  }

  /** Blanks are spaces and tabs, the filename and tag non-empty runs of their classes. */
  predicate WellFormedParts(w1: string, w2: string, f: string, w3: string, w4: string, t: string, w5: string)
  {
    AllIn(w1, Blank) && AllIn(w2, Blank) && AllIn(w3, Blank) && AllIn(w4, Blank) && AllIn(w5, Blank)
    && f != [] && AllIn(f, FilenameChar) && t != [] && AllIn(t, TagChar)
  }

  /**
   * What may follow the tag and its blanks `w5`: anything that extends neither
   * the blanks nor, when there are none, the tag itself.
   */
  predicate EndsTag(w5: string, tail: string)
  {
    !IsWS(At(tail, 0)) && (w5 == [] ==> !InClass(At(tail, 0), TagChar))
  }

  /** The parser's verdict once it has reached `tail`: complete exactly when `tail` opens with `)`. */
  function CloseStatus(tail: string): Status
  {
    if At(tail, 0) == ')' then Parsed else Expected(')', At(tail, 0))
  }

  lemma AtJoin(pre: string, post: string)
    ensures At(pre + post, |pre|) == At(post, 0)
  {
  }

  /** A scan started on a run of its class stops exactly where the run ends. */
  lemma {:induction false} ScanOver(pre: string, run: string, post: string, k: Class)
    requires AllIn(run, k) && !InClass(At(post, 0), k)
    ensures Scan(pre + (run + post), |pre|, k) == |pre| + |run|
    decreases |run|
  {
    var s := pre + (run + post);
    if run == [] {
      assert s == pre + post;
      AtJoin(pre, post);
    } else {
      assert s[|pre|] == run[0];
      assert s == (pre + [run[0]]) + (run[1..] + post);
      ScanOver(pre + [run[0]], run[1..], post, k);
    }
  }

  lemma TagStage(pre: string, filename: Option<string>, t: string, w5: string, tail: string)
    requires t != [] && AllIn(t, TagChar) && AllIn(w5, Blank) && EndsTag(w5, tail)
    ensures TagField(pre + TagPart(t, w5, tail), filename, |pre|) == ParseResult(filename, Some(t), CloseStatus(tail))
  {
    var s := pre + TagPart(t, w5, tail);
    assert w5 == [] ==> w5 + tail == tail;
    ScanOver(pre, t, w5 + tail, TagChar);
    assert s[|pre|..|pre| + |t|] == t;
    assert s == (pre + t) + (w5 + tail);
    ScanOver(pre + t, w5, tail, Blank);
    assert s == (pre + t + w5) + tail;
    AtJoin(pre + t + w5, tail);
  }

  lemma CommaStage(pre: string, filename: Option<string>, w4: string, t: string, w5: string, tail: string)
    requires t != [] && AllIn(t, TagChar) && AllIn(w4, Blank) && AllIn(w5, Blank) && EndsTag(w5, tail)
    ensures AfterFilename(pre + CommaPart(w4, t, w5, tail), filename, |pre|)
         == ParseResult(filename, Some(t), CloseStatus(tail))
  {
    var s := pre + CommaPart(w4, t, w5, tail);
    assert s[|pre|] == ',';
    assert s == (pre + ",") + (w4 + TagPart(t, w5, tail));
    ScanOver(pre + ",", w4, TagPart(t, w5, tail), Blank);
    assert s == (pre + "," + w4) + TagPart(t, w5, tail);
    TagStage(pre + "," + w4, filename, t, w5, tail);
  }

  lemma FilenameStage(pre: string, f: string, w3: string, w4: string, t: string, w5: string, tail: string)
    requires WellFormedParts([], [], f, w3, w4, t, w5) && EndsTag(w5, tail)
    ensures FilenameField(pre + FilenamePart(f, w3, w4, t, w5, tail), |pre|)
         == ParseResult(Some(f), Some(t), CloseStatus(tail))
  {
    var s := pre + FilenamePart(f, w3, w4, t, w5, tail);
    ScanOver(pre, f, w3 + CommaPart(w4, t, w5, tail), FilenameChar);
    assert s[|pre|..|pre| + |f|] == f;
    assert s == (pre + f) + (w3 + CommaPart(w4, t, w5, tail));
    ScanOver(pre + f, w3, CommaPart(w4, t, w5, tail), Blank);
    assert s == (pre + f + w3) + CommaPart(w4, t, w5, tail);
    CommaStage(pre + f + w3, Some(f), w4, t, w5, tail);
  }

  lemma OpenStage(pre: string, w2: string, f: string, w3: string, w4: string, t: string, w5: string, tail: string)
    requires WellFormedParts([], w2, f, w3, w4, t, w5) && EndsTag(w5, tail)
    ensures AfterPrefix(pre + OpenPart(w2, f, w3, w4, t, w5, tail), |pre|)
         == ParseResult(Some(f), Some(t), CloseStatus(tail))
  {
    var s := pre + OpenPart(w2, f, w3, w4, t, w5, tail);
    assert s[|pre|] == '(';
    assert s == (pre + "(") + (w2 + FilenamePart(f, w3, w4, t, w5, tail));
    ScanOver(pre + "(", w2, FilenamePart(f, w3, w4, t, w5, tail), Blank);
    assert s == (pre + "(" + w2) + FilenamePart(f, w3, w4, t, w5, tail);
    FilenameStage(pre + "(" + w2, f, w3, w4, t, w5, tail);
  }

  /** A line that does not start with `//HEADERX` yields no filename and no tag. */
  lemma NonMarkerYieldsNothing(s: string)
    requires !HasPrefix(s, Prefix)
    ensures Parse(s) == ParseResult(None, None, NotMarker)
    ensures !Accepted(s)
  {
  }

  /**
   * Any marker built from well-formed parts parses back to exactly its filename
   * and tag, whatever blanks surround them; each token is the maximal run of its
   * class. The closing `)` decides only the status, not the tokens, so the
   * line is accepted with or without it.
   */
  lemma ParseOfMarkerLine(w1: string, w2: string, f: string, w3: string, w4: string,
                          t: string, w5: string, tail: string)
    requires WellFormedParts(w1, w2, f, w3, w4, t, w5) && EndsTag(w5, tail)
    ensures Parse(MarkerLine(w1, w2, f, w3, w4, t, w5, tail)) == ParseResult(Some(f), Some(t), CloseStatus(tail))
    ensures Accepted(MarkerLine(w1, w2, f, w3, w4, t, w5, tail))
  {
    var s := MarkerLine(w1, w2, f, w3, w4, t, w5, tail);
    assert s[..|Prefix|] == Prefix;
    ScanOver(Prefix, w1, OpenPart(w2, f, w3, w4, t, w5, tail), Blank);
    assert s == (Prefix + w1) + OpenPart(w2, f, w3, w4, t, w5, tail);
    OpenStage(Prefix + w1, w2, f, w3, w4, t, w5, tail);
  }

  /** The well-formed marker closed by `)`: the round trip of the marker syntax. */
  lemma RoundTrip(w1: string, w2: string, f: string, w3: string, w4: string, t: string, w5: string, rest: string)
    requires WellFormedParts(w1, w2, f, w3, w4, t, w5)
    ensures Parse(MarkerLine(w1, w2, f, w3, w4, t, w5, ")" + rest)) == ParseResult(Some(f), Some(t), Parsed)
  {
    ParseOfMarkerLine(w1, w2, f, w3, w4, t, w5, ")" + rest);
  }

  lemma Split(s: string, i: nat, j: nat)
    requires i <= j <= |s|
    ensures s[i..] == s[i..j] + s[j..]
  {
  }

  lemma Halves(s: string, i: nat)
    requires i <= |s|
    ensures s == s[..i] + s[i..]
  {
  }

  lemma Uncons(s: string, i: nat)
    requires i < |s|
    ensures s[i..] == [s[i]] + s[i + 1..]
  {
  }

  lemma TagStageBack(s: string, filename: Option<string>, tStart: nat) returns (t: string, w5: string, tail: string)
    requires tStart <= |s| && TagField(s, filename, tStart).tag.Some?
    ensures t != [] && AllIn(t, TagChar) && AllIn(w5, Blank) && EndsTag(w5, tail)
    ensures s[tStart..] == TagPart(t, w5, tail) && TagField(s, filename, tStart).tag == Some(t)
  {
    var tEnd := Scan(s, tStart, TagChar);
    var close := Scan(s, tEnd, Blank);
    t, w5, tail := s[tStart..tEnd], s[tEnd..close], s[close..];
    assert At(tail, 0) == At(s, close);
    Split(s, tEnd, close);
    Split(s, tStart, tEnd);
  }

  lemma CommaStageBack(s: string, filename: Option<string>, comma: nat)
    returns (w4: string, t: string, w5: string, tail: string)
    requires comma <= |s| && AfterFilename(s, filename, comma).tag.Some?
    ensures t != [] && AllIn(t, TagChar) && AllIn(w4, Blank) && AllIn(w5, Blank) && EndsTag(w5, tail)
    ensures s[comma..] == CommaPart(w4, t, w5, tail) && AfterFilename(s, filename, comma).tag == Some(t)
  {
    var tStart := Scan(s, comma + 1, Blank);
    t, w5, tail := TagStageBack(s, filename, tStart);
    w4 := s[comma + 1..tStart];
    Split(s, comma + 1, tStart);
    Uncons(s, comma);
  }

  lemma FilenameStageBack(s: string, fStart: nat)
    returns (f: string, w3: string, w4: string, t: string, w5: string, tail: string)
    requires fStart <= |s| && FilenameField(s, fStart).filename.Some? && FilenameField(s, fStart).tag.Some?
    ensures WellFormedParts([], [], f, w3, w4, t, w5) && EndsTag(w5, tail)
    ensures s[fStart..] == FilenamePart(f, w3, w4, t, w5, tail)
    ensures FilenameField(s, fStart).filename == Some(f) && FilenameField(s, fStart).tag == Some(t)
  {
    var fEnd := Scan(s, fStart, FilenameChar);
    var comma := Scan(s, fEnd, Blank);
    var filename := Token(s, fStart, fEnd);
    assert FilenameField(s, fStart) == AfterFilename(s, filename, comma);
    w4, t, w5, tail := CommaStageBack(s, filename, comma);
    f, w3 := s[fStart..fEnd], s[fEnd..comma];
    Split(s, fEnd, comma);
    Split(s, fStart, fEnd);
  }

  lemma OpenStageBack(s: string, open: nat)
    returns (w2: string, f: string, w3: string, w4: string, t: string, w5: string, tail: string)
    requires open <= |s| && AfterPrefix(s, open).filename.Some? && AfterPrefix(s, open).tag.Some?
    ensures WellFormedParts([], w2, f, w3, w4, t, w5) && EndsTag(w5, tail)
    ensures s[open..] == OpenPart(w2, f, w3, w4, t, w5, tail)
    ensures AfterPrefix(s, open).filename == Some(f) && AfterPrefix(s, open).tag == Some(t)
  {
    var fStart := Scan(s, open + 1, Blank);
    f, w3, w4, t, w5, tail := FilenameStageBack(s, fStart);
    w2 := s[open + 1..fStart];
    Split(s, open + 1, fStart);
    Uncons(s, open);
  }

  /**
   * Conversely, every accepted line is such a marker, split at the places where
   * the scanner stopped: the tokens it yields are the filename and tag parts.
   * Together with ParseOfMarkerLine: a line is accepted exactly when it is a
   * marker line built from well-formed parts, `)` or no `)`.
   */
  lemma AcceptedIsMarkerLine(s: string)
    returns (w1: string, w2: string, f: string, w3: string, w4: string, t: string, w5: string, tail: string)
    requires Accepted(s)
    ensures WellFormedParts(w1, w2, f, w3, w4, t, w5) && EndsTag(w5, tail)
    ensures s == MarkerLine(w1, w2, f, w3, w4, t, w5, tail)
    ensures Parse(s).filename == Some(f) && Parse(s).tag == Some(t)
  {
    var open := Scan(s, |Prefix|, Blank);
    w2, f, w3, w4, t, w5, tail := OpenStageBack(s, open);
    w1 := s[|Prefix|..open];
    Split(s, |Prefix|, open);
    Halves(s, |Prefix|);
  }
}
