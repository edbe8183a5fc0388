/**
 * The extraction driver of headerx.c (`start_new_header` and `process`).
 *
 * The source file is the sequence of chunks `fgets` returns; the file system is
 * a map from file name to content, in which `fopen(name, "w")` makes the
 * content empty and `fprintf` appends; whether `fopen` succeeds on a name is
 * the parameter `writable`, and `input` is None when the source cannot be
 * opened for reading. The driver is in state 0 (idle) or 1 (capturing into
 * the open header `out`), and counts the chunks it has read in `lines`.
 */
module Extraction {
  import opened Wrappers
  import opened CStrings
  import opened MarkerParser
  import opened HeaderFormat

  const EndPrefix: string := "//ENDX"

  type FileSystem = map<string, string>

  /**
   * `start_new_header` without the `fopen`: the filename and tag of an accepted
   * marker line whose header file can be created, or None.
   */
  function NewHeader(line: string, writable: string -> bool): (r: Option<(string, string)>)
    ensures r.Some? ==> Accepted(line) && writable(r.value.0)
    ensures r.Some? ==> r.value == (Parse(line).filename.value, Parse(line).tag.value)
    ensures Accepted(line) && writable(Parse(line).filename.value) ==> r.Some?
  {
    var p := Parse(line);
    if p.filename.None? || p.tag.None? then None
    else if !writable(p.filename.value) then None
    else Some((p.filename.value, p.tag.value))
  }

  /** `start_new_header`: runs the scanner and keeps its tokens only when both are set. */
  method StartNewHeader(line: string, writable: string -> bool) returns (r: Option<(string, string)>)
    ensures r == NewHeader(line, writable)
  {
    var p := ParseHeaderLine(line);
    if p.filename == None || p.tag == None {
      return None;
    }
    if !writable(p.filename.value) {
      return None;
    }
    r := Some((p.filename.value, p.tag.value));
  }

  /**
   * What the read loop calls on a start-prefixed line: the filename and tag of
   * the header it opens, or None where `start_new_header` returns NULL.
   */
  type HeaderOpener = string -> Option<(string, string)>

  /** `start_new_header` over the file system's `writable`, as a header opener. */
  function Opener(writable: string -> bool): (opener: HeaderOpener)
    ensures forall line :: opener(line) == NewHeader(line, writable)
  {
    line => NewHeader(line, writable)
  }

  datatype Driver = Driver(state: int, out: Option<string>, lines: nat, files: FileSystem)

  /** An output file is open exactly while capturing, and it exists. */
  predicate Valid(d: Driver)
  {
    (d.state == 0 || d.state == 1)
    && (d.state == 1 <==> d.out.Some?)
    && (d.out.Some? ==> d.out.value in d.files)
  }

  /** The driver before the first read, over the file system `fs`. */
  function Start(fs: FileSystem): (d: Driver)
    ensures Valid(d)
  {
    Driver(0, None, 0, fs)
  }

  /** The text of the file `name`; one that does not exist reads as empty. */
  function Contents(fs: FileSystem, name: string): string
  {
    if name in fs then fs[name] else ""
  }

  /** Appends `text` to the open header; with none open, nothing is written. */
  function Write(d: Driver, text: string): Driver
  {
    match d.out
    case None => d
    case Some(o) => d.(files := d.files[o := Contents(d.files, o) + text])
  }

  /** One turn of the read loop on `chunk`; None when `process` returns -1 at it. */
  function Step(src: string, opener: HeaderOpener, d: Driver, chunk: string): (r: Option<Driver>)
    ensures Valid(d) && r.Some? ==> Valid(r.value)
    ensures r.Some? ==> r.value.lines == d.lines + 1
  {
    var lines := d.lines + 1;
    if d.state == 0 then
      if HasPrefix(chunk, Prefix) then
        match opener(chunk)
        case None => None
        case Some((filename, tag)) => Some(Driver(1, Some(filename), lines, d.files[filename := Opening(tag, lines, src)]))
      else Some(d.(lines := lines))
    else if d.state == 1 then
      if HasPrefix(chunk, EndPrefix) then Some(Write(d, Closing).(state := 0, out := None, lines := lines))
      else Some(Write(d, CStr(chunk)).(lines := lines))
    else
      Some(d.(lines := lines))
  }

  /**
   * Which reads abort, and what the others do to the state: only a start-prefixed
   * line whose header cannot be started aborts, and only while idle; idle lines
   * without the prefix change nothing but the count; capturing ends exactly at
   * an `//ENDX` line.
   */
  lemma StepCases(src: string, opener: HeaderOpener, d: Driver, chunk: string)
    ensures Step(src, opener, d, chunk).None? <==>
              d.state == 0 && HasPrefix(chunk, Prefix) && opener(chunk).None?
    ensures d.state == 0 && !HasPrefix(chunk, Prefix) ==> Step(src, opener, d, chunk) == Some(d.(lines := d.lines + 1))
    ensures d.state == 1 ==> Step(src, opener, d, chunk).Some?
    ensures d.state == 1 && !HasPrefix(chunk, EndPrefix) ==>
              Step(src, opener, d, chunk).value.state == 1 && Step(src, opener, d, chunk).value.out == d.out
    ensures d.state == 1 && HasPrefix(chunk, EndPrefix) ==>
              Step(src, opener, d, chunk).value.state == 0 && Step(src, opener, d, chunk).value.out == None
  {
  }

  datatype Outcome = Outcome(status: int, files: FileSystem)

  /** The read loop from driver `d` over the remaining chunks. */
  function Run(src: string, opener: HeaderOpener, d: Driver, chunks: seq<string>): (r: Outcome)
    ensures r.status == 0 || r.status == -1
    decreases |chunks|
  {
    if chunks == [] then Outcome(0, d.files)
    else
      match Step(src, opener, d, chunks[0])
      case None => Outcome(-1, d.files)
      case Some(next) => Run(src, opener, next, chunks[1..])
  }

  /** `process(filename)`: the status it returns and the files it leaves behind. */
  function ProcessResult(filename: string, input: Option<seq<string>>, writable: string -> bool, fs: FileSystem): (r: Outcome)
    ensures r.status == 0 || r.status == -1
    ensures input.None? ==> r.status == -1 && r.files == fs
  {
    match input
    case None => Outcome(-1, fs)
    case Some(chunks) => Run(filename, Opener(writable), Start(fs), chunks)
  }

  /** Running from `d` over `chunks` is one step, then the rest. */
  lemma RunUnfold(src: string, opener: HeaderOpener, d: Driver, chunks: seq<string>, k: nat)
    requires k < |chunks|
    ensures Run(src, opener, d, chunks[k..])
         == match Step(src, opener, d, chunks[k])
            case None => Outcome(-1, d.files)
            case Some(next) => Run(src, opener, next, chunks[k + 1..])
  {
    assert chunks[k..][0] == chunks[k] && chunks[k..][1..] == chunks[k + 1..];
  }

  /**
   * `case 0` of the read loop on one chunk, with `lines` already counting it:
   * a start marker opens its header and writes the guard, anything else is
   * skipped. `failed` is the early `return -1`.
   */
  method OnIdle(filename: string, writable: string -> bool, lines: nat, files: FileSystem, lbuffer: string)
    returns (failed: bool, state': int, out': Option<string>, files': FileSystem)
    requires lines > 0
    ensures failed <==> Step(filename, Opener(writable), Driver(0, None, lines - 1, files), lbuffer).None?
    ensures failed ==> files' == files
    ensures !failed ==> Step(filename, Opener(writable), Driver(0, None, lines - 1, files), lbuffer)
                        == Some(Driver(state', out', lines, files'))
  {
    failed, state', out', files' := false, 0, None, files;
    if HasPrefix(lbuffer, Prefix) {
      var header := StartNewHeader(lbuffer, writable);
      assert Opener(writable)(lbuffer) == header;
      if header.None? {
        failed := true;
        return;
      }
      var (hFilename, hTag) := header.value;
      var text := Opening(hTag, lines, filename);
      files' := files[hFilename := ""];
      files' := files'[hFilename := files'[hFilename] + text];
      assert "" + text == text;
      assert files' == files[hFilename := text];
      out' := Some(hFilename);
      state' := 1;
    }
  }

  /**
   * `case 1` of the read loop on one chunk, with `lines` already counting it:
   * an end marker closes the header with `#endif`, anything else is copied.
   */
  method OnCapturing(filename: string, writable: string -> bool, out: string, lines: nat, files: FileSystem,
                     lbuffer: string)
    returns (state': int, out': Option<string>, files': FileSystem)
    requires lines > 0 && out in files
    ensures Step(filename, Opener(writable), Driver(1, Some(out), lines - 1, files), lbuffer)
            == Some(Driver(state', out', lines, files'))
  {
    if HasPrefix(lbuffer, EndPrefix) {
      files' := files[out := files[out] + Closing];
      out' := None;
      state' := 0;
    } else {
      files' := files[out := files[out] + CStr(lbuffer)];
      out' := Some(out);
      state' := 1;
    }
  }

  method Process(filename: string, input: Option<seq<string>>, writable: string -> bool, fs: FileSystem)
    returns (status: int, files: FileSystem)
    ensures Outcome(status, files) == ProcessResult(filename, input, writable, fs)
  {
    files := fs;
    if input.None? {
      return -1, files;
    }
    var chunks := input.value;
    var state, lines := 0, 0;
    var out: Option<string> := None;
    var k := 0;
    while k < |chunks|
      invariant 0 <= k <= |chunks| && lines == k
      invariant Valid(Driver(state, out, lines, files))
      invariant Run(filename, Opener(writable), Driver(state, out, lines, files), chunks[k..])
             == Run(filename, Opener(writable), Start(fs), chunks)
    {
      RunUnfold(filename, Opener(writable), Driver(state, out, lines, files), chunks, k);
      var lbuffer := chunks[k];
      k := k + 1;
      lines := lines + 1;
      if state == 0 {
        var failed;
        failed, state, out, files := OnIdle(filename, writable, lines, files, lbuffer);
        if failed {
          return -1, files;
        }
      } else {
        state, out, files := OnCapturing(filename, writable, out.value, lines, files, lbuffer);
      }
    }
    status := 0;
  }
}
