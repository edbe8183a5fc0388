/**
 * What `process` promises over whole runs of lines: the exact text of each
 * extracted header, the fail-fast abort, the unterminated block left without
 * `#endif`, and that re-running the extraction rewrites the same files.
 */
module ExtractionProperties {
  import opened Wrappers
  import opened CStrings
  import opened MarkerParser
  import opened HeaderFormat
  import opened Extraction

  /** The text `fprintf("%s", ...)` writes for the chunks `ls`, in order. */
  function Copied(ls: seq<string>): string
  {
    if ls == [] then [] else CStr(ls[0]) + Copied(ls[1..])
  }

  /** The header file of a block with guard `tag` at line `line` of `src` and body `ls`. */
  function HeaderFile(tag: string, line: nat, src: string, ls: seq<string>): string
  {
    Opening(tag, line, src) + Copied(ls) + Closing
  }

  predicate NoStartMarker(ls: seq<string>)
  {
    forall i :: 0 <= i < |ls| ==> !HasPrefix(ls[i], Prefix)
  }

  predicate NoEndMarker(ls: seq<string>)
  {
    forall i :: 0 <= i < |ls| ==> !HasPrefix(ls[i], EndPrefix)
  }

  /** Reading one chunk, then the rest. */
  lemma RunCons(src: string, opener: HeaderOpener, d: Driver, c: string, rest: seq<string>)
    ensures Run(src, opener, d, [c] + rest)
         == match Step(src, opener, d, c)
            case None => Outcome(-1, d.files)
            case Some(next) => Run(src, opener, next, rest)
  {
    assert ([c] + rest)[0] == c && ([c] + rest)[1..] == rest;
  }

  /** While idle, lines without the start prefix are read and dropped. */
  lemma {:induction false} IdleSkips(src: string, opener: HeaderOpener, d: Driver, ls: seq<string>, rest: seq<string>)
    requires d.state == 0 && NoStartMarker(ls)
    ensures Run(src, opener, d, ls + rest) == Run(src, opener, d.(lines := d.lines + |ls|), rest)
    decreases |ls|
  {
    if ls == [] {
      assert ls + rest == rest;
    } else {
      assert (ls + rest)[0] == ls[0] && (ls + rest)[1..] == ls[1..] + rest;
      IdleSkips(src, opener, d.(lines := d.lines + 1), ls[1..], rest);
    }
  }

  /** While capturing, a line without the end prefix is appended to the open header. */
  lemma CaptureStep(src: string, opener: HeaderOpener, d: Driver, c: string, rest: seq<string>)
    requires d.state == 1 && !HasPrefix(c, EndPrefix)
    ensures Run(src, opener, d, [c] + rest) == Run(src, opener, Write(d, CStr(c)).(lines := d.lines + 1), rest)
  {
    RunCons(src, opener, d, c, rest);
  }

  lemma AppendTwice(files: FileSystem, o: string, a: string, b: string)
    requires o in files
    ensures var once := files[o := files[o] + a]; once[o := once[o] + b] == files[o := files[o] + (a + b)]
  {
    assert files[o] + a + b == files[o] + (a + b);
  }

  /**
   * While capturing into `o`, every line without the end prefix (a start marker
   * included: blocks do not nest) is appended to `o` as read.
   */
  lemma {:induction false} CaptureCopies(src: string, opener: HeaderOpener, o: string, n: nat, files: FileSystem,
                                         ls: seq<string>, rest: seq<string>)
    requires o in files && NoEndMarker(ls)
    ensures Run(src, opener, Driver(1, Some(o), n, files), ls + rest)
         == Run(src, opener, Driver(1, Some(o), n + |ls|, files[o := files[o] + Copied(ls)]), rest)
    decreases |ls|
  {
    if ls == [] {
      assert ls + rest == rest;
      assert files[o] + [] == files[o];
      assert files[o := files[o] + []] == files;
    } else {
      var files' := files[o := files[o] + CStr(ls[0])];
      ConsSplit(ls, rest);
      CaptureStep(src, opener, Driver(1, Some(o), n, files), ls[0], ls[1..] + rest);
      assert Write(Driver(1, Some(o), n, files), CStr(ls[0])).(lines := n + 1) == Driver(1, Some(o), n + 1, files');
      NoEndMarkerTail(ls);
      CaptureCopies(src, opener, o, n + 1, files', ls[1..], rest);
      AppendTwice(files, o, CStr(ls[0]), Copied(ls[1..]));
    }
  }

  lemma ConsSplit<T>(xs: seq<T>, ys: seq<T>)
    requires xs != []
    ensures xs + ys == [xs[0]] + (xs[1..] + ys)
  {
  }

  lemma NoEndMarkerTail(ls: seq<string>)
    requires ls != [] && NoEndMarker(ls)
    ensures NoEndMarker(ls[1..])
  {
    forall i | 0 <= i < |ls[1..]| ensures !HasPrefix(ls[1..][i], EndPrefix) {
      assert ls[1..][i] == ls[i + 1];
    }
  }

  /** While idle, an accepted start marker opens its header and writes the guard and directive. */
  lemma OpenStep(src: string, opener: HeaderOpener, d: Driver, marker: string, rest: seq<string>,
                 filename: string, tag: string)
    requires d.state == 0
    requires HasPrefix(marker, Prefix) && opener(marker) == Some((filename, tag))
    ensures Run(src, opener, d, [marker] + rest)
         == Run(src, opener, Driver(1, Some(filename), d.lines + 1,
                                      d.files[filename := Opening(tag, d.lines + 1, src)]), rest)
  {
    RunCons(src, opener, d, marker, rest);
  }

  /** While capturing, an end marker writes `#endif` and closes the header. */
  lemma CloseStep(src: string, opener: HeaderOpener, d: Driver, end: string, rest: seq<string>)
    requires d.state == 1 && HasPrefix(end, EndPrefix)
    ensures Run(src, opener, d, [end] + rest)
         == Run(src, opener, Write(d, Closing).(state := 0, out := None, lines := d.lines + 1), rest)
  {
    RunCons(src, opener, d, end, rest);
  }

  /** An accepted marker followed by body lines: the header holds the guard, directive and body so far. */
  lemma OpenAndCapture(src: string, opener: HeaderOpener, d: Driver, marker: string, ls: seq<string>,
                       tail: seq<string>, filename: string, tag: string)
    requires d.state == 0
    requires HasPrefix(marker, Prefix) && opener(marker) == Some((filename, tag))
    requires NoEndMarker(ls)
    ensures Run(src, opener, d, [marker] + (ls + tail))
         == Run(src, opener, Driver(1, Some(filename), d.lines + 1 + |ls|,
                                      d.files[filename := Opening(tag, d.lines + 1, src) + Copied(ls)]), tail)
  {
    var n: nat := d.lines + 1;
    var begun := d.files[filename := Opening(tag, n, src)];
    OpenStep(src, opener, d, marker, ls + tail, filename, tag);
    CaptureCopies(src, opener, filename, n, begun, ls, tail);
    assert begun[filename := begun[filename] + Copied(ls)] == d.files[filename := Opening(tag, n, src) + Copied(ls)];
  }

  /**
   * A block: a start marker read as line N = d.lines + 1, body lines without the
   * end prefix, then an end marker. Its header file holds exactly the guard,
   * `#line N "src"`, the body as read, and `#endif`; the driver is idle again.
   */
  lemma ExtractBlock(src: string, opener: HeaderOpener, d: Driver, marker: string, ls: seq<string>,
                     end: string, rest: seq<string>, filename: string, tag: string)
    requires d.state == 0
    requires HasPrefix(marker, Prefix) && opener(marker) == Some((filename, tag))
    requires NoEndMarker(ls) && HasPrefix(end, EndPrefix)
    ensures Run(src, opener, d, [marker] + ls + [end] + rest)
         == Run(src, opener,
                Driver(0, None, d.lines + |ls| + 2, d.files[filename := HeaderFile(tag, d.lines + 1, src, ls)]), rest)
  {
    var n := d.lines + 1;
    var full := Driver(1, Some(filename), n + |ls|, d.files[filename := Opening(tag, n, src) + Copied(ls)]);
    var closed := Driver(0, None, d.lines + |ls| + 2, d.files[filename := HeaderFile(tag, n, src, ls)]);
    var after := [end] + rest;
    assert [marker] + ls + [end] + rest == [marker] + (ls + after);
    assert Run(src, opener, d, [marker] + (ls + after)) == Run(src, opener, full, after) by {
      OpenAndCapture(src, opener, d, marker, ls, after, filename, tag);
    }
    assert Run(src, opener, full, after) == Run(src, opener, closed, rest) by {
      CloseStep(src, opener, full, end, rest);
      assert Write(full, Closing).(state := 0, out := None, lines := full.lines + 1) == closed;
    }
  }

  /**
   * A start-prefixed line that is not accepted, or whose header cannot be
   * created, makes `process` return -1 at once: no later line is read.
   */
  lemma RejectedMarkerAborts(src: string, opener: HeaderOpener, d: Driver, marker: string, rest: seq<string>)
    requires d.state == 0
    requires HasPrefix(marker, Prefix) && opener(marker).None?
    ensures Run(src, opener, d, [marker] + rest) == Outcome(-1, d.files)
  {
    assert ([marker] + rest)[0] == marker;
  }

  /**
   * Input that ends while capturing still yields status 0; the header keeps its
   * guard, directive and body but gets no `#endif`.
   */
  lemma UnterminatedBlock(src: string, opener: HeaderOpener, d: Driver, marker: string, ls: seq<string>,
                          filename: string, tag: string)
    requires d.state == 0
    requires HasPrefix(marker, Prefix) && opener(marker) == Some((filename, tag))
    requires NoEndMarker(ls)
    ensures Run(src, opener, d, [marker] + ls)
         == Outcome(0, d.files[filename := Opening(tag, d.lines + 1, src) + Copied(ls)])
  {
    var begun := d.files[filename := Opening(tag, d.lines + 1, src)];
    OpenStep(src, opener, d, marker, ls + [], filename, tag);
    assert ls + [] == ls;
    CaptureCopies(src, opener, filename, d.lines + 1, begun, ls, []);
    assert begun[filename := begun[filename] + Copied(ls)] == d.files[filename := Opening(tag, d.lines + 1, src) + Copied(ls)];
  }

  lemma OverrideUpdate(fs: FileSystem, m: FileSystem, k: string, v: string)
    ensures (fs + m)[k := v] == fs + m[k := v]
  {
  }

  /**
   * What a run writes does not depend on what the file system held before:
   * starting over `fs` overlaid with `d.files` ends in `fs` overlaid with the
   * files the run from `d` ends with, and with the same status.
   */
  lemma {:induction false} RunOverlays(src: string, opener: HeaderOpener, d: Driver, chunks: seq<string>, fs: FileSystem)
    requires Valid(d)
    ensures Run(src, opener, d.(files := fs + d.files), chunks)
         == Outcome(Run(src, opener, d, chunks).status, fs + Run(src, opener, d, chunks).files)
    decreases |chunks|
  {
    var d' := d.(files := fs + d.files);
    if chunks != [] {
      var c := chunks[0];
      match Step(src, opener, d, c)
      case None =>
        assert Step(src, opener, d', c).None?;
      case Some(next) =>
        if d.state == 0 && HasPrefix(c, Prefix) {
          var (f, t) := opener(c).value;
          OverrideUpdate(fs, d.files, f, Opening(t, d.lines + 1, src));
        } else if d.state == 1 {
          var o := d.out.value;
          var text := if HasPrefix(c, EndPrefix) then Closing else CStr(c);
          OverrideUpdate(fs, d.files, o, d.files[o] + text);
        }
        assert Step(src, opener, d', c) == Some(next.(files := fs + next.files));
        RunOverlays(src, opener, next, chunks[1..], fs);
    }
  }

  /**
   * Running the extraction twice over the same source leaves the same files
   * (and the same status) as running it once: headers are truncated and
   * rewritten, never appended to across runs.
   */
  lemma ProcessIdempotent(filename: string, input: Option<seq<string>>, writable: string -> bool, fs: FileSystem)
    ensures ProcessResult(filename, input, writable, ProcessResult(filename, input, writable, fs).files)
         == ProcessResult(filename, input, writable, fs)
  {
    if input.Some? {
      var chunks := input.value;
      var written := Run(filename, Opener(writable), Start(map[]), chunks);
      assert Start(map[]).(files := fs + map[]) == Start(fs);
      RunOverlays(filename, Opener(writable), Start(map[]), chunks, fs);
      var once := fs + written.files;
      assert Start(map[]).(files := once + map[]) == Start(once);
      RunOverlays(filename, Opener(writable), Start(map[]), chunks, once);
      assert once + written.files == once;
    }
  }

  lemma OutHMarker()
    ensures Parse("//HEADERX(out.h,OUT_H)\n") == ParseResult(Some("out.h"), Some("OUT_H"), Parsed)
  {
    assert "//HEADERX(out.h,OUT_H)\n" == MarkerLine("", "", "out.h", "", "", "OUT_H", "", ")\n");
    assert WellFormedParts("", "", "out.h", "", "", "OUT_H", "");
    ParseOfMarkerLine("", "", "out.h", "", "", "OUT_H", "", ")\n");
  }

  /** The marker of `out.h` starts that header wherever the file can be created. */
  lemma OutHOpens(writable: string -> bool)
    requires writable("out.h")
    ensures NewHeader("//HEADERX(out.h,OUT_H)\n", writable) == Some(("out.h", "OUT_H"))
  {
    OutHMarker();
  }

  /**
   * The mixed file `mix.c` holding one block: `out.h` gets the guard, the
   * directive for line 1, the body line and `#endif`.
   */
  lemma MixedFileExample(writable: string -> bool, fs: FileSystem)
    requires writable("out.h")
    ensures ProcessResult("mix.c", Some(["//HEADERX(out.h,OUT_H)\n", "int x;\n", "//ENDX\n"]), writable, fs)
         == Outcome(0, fs["out.h" := "#ifndef OUT_H\n#define OUT_H\n#line 1 \"mix.c\"\nint x;\n#endif\n"])
  {
    OutHOpens(writable);
    MixedFileRun(Opener(writable), fs);
    MixedFileHeader();
  }

  /** The run over `mix.c` with any opener that accepts its marker as `out.h` with guard `OUT_H`. */
  lemma MixedFileRun(opener: HeaderOpener, fs: FileSystem)
    requires opener("//HEADERX(out.h,OUT_H)\n") == Some(("out.h", "OUT_H"))
    ensures Run("mix.c", opener, Start(fs), ["//HEADERX(out.h,OUT_H)\n", "int x;\n", "//ENDX\n"])
         == Outcome(0, fs["out.h" := HeaderFile("OUT_H", 1, "mix.c", ["int x;\n"])])
  {
    var marker := "//HEADERX(out.h,OUT_H)\n";
    var body := ["int x;\n"];
    assert HasPrefix(marker, Prefix) by {
      assert marker[..|Prefix|] == Prefix;
    }
    assert NoEndMarker(body) && HasPrefix("//ENDX\n", EndPrefix) by {
      assert "int x;\n"[..|EndPrefix|][0] == 'i' != EndPrefix[0];
      assert "//ENDX\n"[..|EndPrefix|] == EndPrefix;
    }
    ExtractBlock("mix.c", opener, Start(fs), marker, body, "//ENDX\n", [], "out.h", "OUT_H");
    assert [marker] + body + ["//ENDX\n"] + [] == [marker, "int x;\n", "//ENDX\n"];
  }

  lemma MixedFileDirective()
    ensures LineDirective(1, "mix.c") == "#line 1 \"mix.c\"\n"
  {
    assert Decimal(1) == "1";
  }

  lemma MixedFileBody()
    ensures Copied(["int x;\n"]) == "int x;\n"
  {
    CStrOfPlain("int x;\n");
  }

  lemma MixedFileGuard()
    ensures "#ifndef " + "OUT_H" + "\n" + "#define " + "OUT_H" + "\n" == "#ifndef OUT_H\n#define OUT_H\n"
  {
    assert "#ifndef " + "OUT_H" + "\n" == "#ifndef OUT_H\n";
    assert "#define " + "OUT_H" + "\n" == "#define OUT_H\n";
    assert "#ifndef OUT_H\n" + "#define " + "OUT_H" + "\n" == "#ifndef OUT_H\n" + ("#define " + "OUT_H" + "\n");
  }

  lemma MixedFileOpening()
    ensures Opening("OUT_H", 1, "mix.c") == "#ifndef OUT_H\n#define OUT_H\n#line 1 \"mix.c\"\n"
  {
    MixedFileGuard();
    MixedFileDirective();
  }

  lemma MixedFileHeader()
    ensures HeaderFile("OUT_H", 1, "mix.c", ["int x;\n"])
         == "#ifndef OUT_H\n#define OUT_H\n#line 1 \"mix.c\"\nint x;\n#endif\n"
  {
    MixedFileOpening();
    MixedFileBody();
  }

  /**
   * The marker `//HEADERX(name)` lacks the comma and tag: processing stops with
   * -1 at that line and no file is created or changed.
   */
  lemma MalformedMarkerExample(writable: string -> bool, fs: FileSystem, rest: seq<string>)
    ensures ProcessResult("mix.c", Some(["//HEADERX(name)\n"] + rest), writable, fs) == Outcome(-1, fs)
  {
    var s := "//HEADERX(name)\n";
    assert s[..|Prefix|] == Prefix;
    assert Scan(s, |Prefix|, Blank) == |Prefix|;
    assert Scan(s, |Prefix| + 1, Blank) == |Prefix| + 1;
    assert s == "//HEADERX(" + ("name" + ")\n");
    ScanOver("//HEADERX(", "name", ")\n", FilenameChar);
    assert Scan(s, 14, Blank) == 14;
    assert s[10..14] == "name";
    assert Parse(s) == FilenameField(s, 10);
    assert Parse(s) == AfterFilename(s, Some("name"), 14);
    RejectedMarkerAborts("mix.c", Opener(writable), Start(fs), s, rest);
  }
}
