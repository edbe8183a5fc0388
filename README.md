# headerx in Dafny

headerx pulls header text out of mixed C source files. A line starting with
`//HEADERX(<filename>,<tag>)` opens a block. The lines after it are copied into
the named header file until a line starting with `//ENDX`. The copy is wrapped in
an `#ifndef <tag>` / `#define <tag>` guard, a `#line N "<source>"` directive and
a closing `#endif`.

This project models the whole of `headerx.c` except its command-line glue:

- `marker_parser.dfy` (module `MarkerParser`): the character classes
  (`isAlphaNumeric`, `isWS`) and the marker parser `parse_header_line`.
  `Parse` states what the parser leaves in its two out-pointers, and which
  separator it expected and found when it gave up. `ParseHeaderLine` is the scanner itself, with one loop per scan, and
  is proved to compute `Parse`. The lemmas prove a round trip over every
  well-formed marker, and the converse: every accepted line is such a marker.
- `extraction.dfy` (module `Extraction`): `start_new_header` and `process`.
  `Step` is one turn of the read loop and `Run` is the whole loop. `Process` and
  its two `switch` cases, `OnIdle` and `OnCapturing`, are the imperative loop,
  proved to compute `Run`. `Valid` is the invariant "an output file is open
  exactly while capturing", and every step keeps it. `Step` and `Run` take
  what the loop calls on a start-prefixed line as a parameter, the header
  opener. `Opener(writable)` is `start_new_header` over the file system, and
  `process` runs with it. The lemmas about runs therefore hold for every
  opener. Like the `switch`, `Step` only counts the line in a state other
  than 0 or 1. With no header open, a write does nothing. Neither case arises
  from the idle start.
- `extraction_properties.dfy` (module `ExtractionProperties`): the exact text
  of an extracted header, skipping while idle, copying while capturing (no
  nesting), the abort at a rejected marker, the unterminated block, and
  idempotence. Two concrete files are worked through as lemmas.
- `header_format.dfy` (module `HeaderFormat`): `print_line_directive` and the
  guard text, with `%d` rendering proved invertible.
- `line_trim.dfy` (module `LineTrim`): `trim`, as an in-place method on a
  `char` array, proved against the function `TrimEnd`.
- `cstrings.dfy`, `wrappers.dfy`: `strlen`, `%s` and `strncmp` on C strings,
  and an `Option` type.

The environment is passed in as parameters:

- The source file is the sequence of chunks `fgets` returns, or `None` when it
  cannot be opened.
- The file system is a map from name to content. Opening with `"w"` sets the
  content to empty; each `fprintf` appends.
- `writable(name)` says whether `fopen(name, "w")` succeeds.

Where the code and its grammar comment (headerx.c:39-42) disagree, the model
follows the code:

- The grammar comment ends the marker with `)`, yet a marker without it is
  accepted. `parse_header_line` stores both tokens before it checks for `)`.
  `start_new_header` ignores the parser's return value and tests only that
  both tokens were set (headerx.c:64-97).
  In the model, `Parse` reports `Expected(')', c)` for such a line and
  `Accepted` still holds; see `MarkerParser.ParseOfMarkerLine`.
- A line such as `//HEADERX(a,B C)` is accepted with tag `B`. The tag scan
  stops at the blank and only the `)` check fails.
- The filename token may be missing while the tag is present (`//HEADERX(,T)`).
  Such a line is rejected, because only one out-pointer was set.
- The line number in `#line` counts `fgets` chunks, not text lines.

## Model

| member | source | states |
|---|---|---|
| CStrings.Len | headerx.c:115 | `strlen`: the length is the index of the first NUL (the whole buffer when there is none); no earlier character is NUL |
| CStrings.CStr | headerx.c:164 | what `%s` prints of a buffer: the longest prefix without a NUL, ending where the buffer ends or at its first NUL |
| CStrings.HasPrefix | headerx.c:141 | defines a zero `strncmp` over the length of a pattern without NUL: `s` starts with the characters of `p` (also the tests at lines 51 and 157) |
| MarkerParser.IsAlphaNumeric | headerx.c:23-30 | defines `isAlphaNumeric`: the ASCII digits and the lower- and upper-case letters |
| MarkerParser.IsWS | headerx.c:32-37 | defines `isWS`: a blank is a space or a tab |
| MarkerParser.InClass | headerx.c:63-75 | defines the three runs the scanner walks over: blanks, filename characters (`isAlphaNumeric`, `_`, `.`, `/`, line 63) and tag characters (`isAlphaNumeric`, `_`, line 75) |
| MarkerParser.ClassesSeparate | headerx.c:23-37 | documents how the classes relate, as the partner of the three definitions above: blanks never continue a filename or tag; `(`, `,`, `)` and NUL continue nothing; every tag character is also a filename character |
| MarkerParser.Scan | headerx.c:54-78 | a scan loop stops at the end of the maximal run of its class: everything it passed is in the class, the character it stops at (NUL past the end) is not |
| MarkerParser.Parse | headerx.c:44-84 | each token set is a non-empty run of its class (filename `[A-Za-z0-9_./]`, tag `[A-Za-z0-9_]`); the status is NotMarker exactly when the line lacks the `//HEADERX` prefix, and then no token is set |
| MarkerParser.SkipRun | headerx.c:63 | each `while`/`for` scanning loop ends where the maximal run of its class ends |
| MarkerParser.ParseHeaderLine | headerx.c:44-84 | the pointer-walking scanner yields exactly the tokens, and the separator expected and found, that `Parse` specifies |
| MarkerParser.Accepted | headerx.c:95-97 | the test `start_new_header` makes after parsing: both tokens were set, which happens only on a line with the `//HEADERX` prefix |
| MarkerParser.NonMarkerYieldsNothing | headerx.c:49-51 | a line not starting with `//HEADERX` yields no filename and no tag and is never accepted |
| MarkerParser.ScanOver | headerx.c:63-75 | a token scan started on a run of its class, followed by a character outside it, takes exactly that run |
| MarkerParser.ParseOfMarkerLine | headerx.c:54-97 | any marker built from blanks, a non-empty filename and a non-empty tag parses to exactly that filename and tag and is accepted; the status is Parsed when `)` follows and Expected(')', c) otherwise |
| MarkerParser.RoundTrip | headerx.c:39-84 | with the closing `)`, the parse returns exactly the filename and tag the line was built from, whatever spaces and tabs surround them |
| MarkerParser.AcceptedIsMarkerLine | headerx.c:90-97 | every accepted line is such a marker line, and the parsed tokens are its filename and tag parts (the converse of ParseOfMarkerLine) |
| Extraction.NewHeader | headerx.c:86-102 | a header is started exactly when the line is accepted and its file can be created, and then with the parsed filename and tag |
| Extraction.StartNewHeader | headerx.c:86-102 | running the scanner and keeping both tokens only when both are set gives NewHeader |
| Extraction.Step | headerx.c:136-167 | one read counts one more line and keeps the invariant that a header is open exactly while capturing |
| Extraction.StepCases | headerx.c:139-166 | a read aborts exactly when, while idle, the line has the start prefix and no header can be started for it; idle lines without the prefix change nothing but the count; a read while capturing never aborts; capturing ends exactly at an `//ENDX` line, with the header closed |
| Extraction.Write | headerx.c:164 | defines an `fprintf` to the open header: the text is appended to that file's content, nothing else changes (also lines 150-152 and 160) |
| Extraction.Run | headerx.c:136-170 | the loop ends with status 0 or -1 |
| Extraction.OnIdle | headerx.c:140-155 | the idle case of the loop body is one Step: opening the header writes `#ifndef`, `#define` and the `#line` directive for the current line; a failed start leaves the files unchanged |
| Extraction.OnCapturing | headerx.c:156-166 | the capturing case of the loop body is one Step: `//ENDX` appends `#endif` and closes, anything else is appended as `%s` prints it |
| Extraction.ProcessResult | headerx.c:125-171 | `process` as a function: -1 with the files unchanged when the source cannot be opened, otherwise Run from the idle start; the status is always 0 or -1 |
| Extraction.Process | headerx.c:125-171 | the status and files `process` leaves are those of Run from the idle start, or -1 with nothing changed when the source cannot be opened |
| ExtractionProperties.IdleSkips | headerx.c:139-155 | while idle, lines without the start prefix (`//ENDX` lines included) are read and dropped: only the line count changes |
| ExtractionProperties.CaptureCopies | headerx.c:156-166 | while capturing, lines without the end prefix (start markers included, no nesting) are appended to the open header in order, and the state stays capturing |
| ExtractionProperties.CaptureStep | headerx.c:163-165 | while capturing, a line without the end prefix is appended to the open header as `%s` prints it, and the run goes on |
| ExtractionProperties.OpenStep | headerx.c:141-153 | while idle, an accepted marker at line N truncates its header to the guard and `#line N "src"` and starts capturing into it |
| ExtractionProperties.CloseStep | headerx.c:157-162 | while capturing, an `//ENDX` line appends `#endif` and returns to idle with no file open |
| ExtractionProperties.OpenAndCapture | headerx.c:141-165 | an accepted marker at line N followed by lines without the end prefix leaves the header holding the guard, `#line N "src"` and those lines, still open |
| ExtractionProperties.ExtractBlock | headerx.c:136-164 | a marker at line N, body lines L1..Lk and an end marker leave the header holding exactly `#ifndef T`, `#define T`, `#line N "src"`, L1..Lk as read and `#endif`, with the driver idle at line N+k+1 |
| ExtractionProperties.RejectedMarkerAborts | headerx.c:144-147 | a start-prefixed line that is not accepted, or whose header cannot be created, ends the run with -1 at once, no later line read and no file touched |
| ExtractionProperties.UnterminatedBlock | headerx.c:136-170 | input ending inside a block still gives status 0, and the header holds the guard, directive and body but no `#endif` |
| ExtractionProperties.RunOverlays | headerx.c:99-164 | what a run writes does not depend on the earlier contents of the file system: the result is the old files overlaid with the files the run writes |
| ExtractionProperties.ProcessIdempotent | headerx.c:125-171 | processing the same source twice leaves the same files and status as processing it once |
| ExtractionProperties.OutHMarker | headerx.c:44-84 | the line `//HEADERX(out.h,OUT_H)` parses to filename `out.h` and tag `OUT_H` |
| ExtractionProperties.MixedFileRun | headerx.c:136-164 | the run over the three lines of `mix.c`, with any opener that accepts its marker, writes the `out.h` block and ends with status 0 |
| ExtractionProperties.MixedFileExample | headerx.c:136-164 | the three-line `mix.c` with one block gives `out.h` = `#ifndef OUT_H`, `#define OUT_H`, `#line 1 "mix.c"`, `int x;`, `#endif`, and status 0 |
| ExtractionProperties.MalformedMarkerExample | headerx.c:56-147 | the line `//HEADERX(name)` aborts processing with -1 and creates no file |
| HeaderFormat.Decimal | headerx.c:106 | `%d` of a line number is a non-empty string of digits without a leading zero |
| HeaderFormat.DecimalRoundTrip | headerx.c:106 | the digits written denote the line number |
| HeaderFormat.LineDirective | headerx.c:104-107 | defines `print_line_directive`: `#line `, the decimal line number, a blank, the filename in double quotes, and a newline |
| HeaderFormat.Opening | headerx.c:150-152 | defines the three lines written when a block opens: `#ifndef T`, `#define T` and the `#line` directive; the constant `Closing` is the `#endif` line of line 160 |
| HeaderFormat.DirectiveLayout | headerx.c:104-107 | the `#line` directive is `#line `, the digits of the number, a blank, and the quoted filename |
| HeaderFormat.LineDirectiveInjective | headerx.c:104-107 | the `#line` directive determines both the line number and the source filename |
| LineTrim.TrimEnd | headerx.c:109-123 | defines what `trim` leaves of a C string: the string without its trailing run of `\n` and `\r` characters |
| LineTrim.TrimEndIsPrefix | headerx.c:109-123 | trimming keeps a prefix of the string and removes only `\n`/`\r` characters |
| LineTrim.TrimEndHasNoTrailingNewline | headerx.c:116-122 | the trimmed string does not end in `\n` or `\r` |
| LineTrim.TrimEndIdempotent | headerx.c:109-123 | trimming twice is the same as trimming once |
| LineTrim.TrimEndStep | headerx.c:116-122 | walking back one character: a terminator is trimmed away, anything else ends the trimming |
| LineTrim.Trim | headerx.c:109-123 | a NULL buffer is left alone; otherwise the C string becomes TrimEnd of the old one, each removed terminator is overwritten with NUL and every other cell is unchanged |

## Left out

- `main` and `usage` (headerx.c:7-21, 173-211): argument handling and usage text around `process`.
- The verbose flag and every diagnostic printed to stdout or stderr. `Parse` keeps the expected and found characters of a parse error, but no message is modelled.
- Real file I/O. The source is taken as the list of chunks `fgets` returns, so a line longer than 1023 characters arrives as several chunks, each counted and tested for markers on its own. `fopen` success is a fixed function of the file name. The never-closed input handle and any aliasing between the source and a header of the same name are not modelled.
- The C `int` width of the line counter: `lines` is unbounded here.
- Extraction.NewHeader: the NULL check on `header_line` (headerx.c:93) is not modelled, because the only caller passes a buffer `fgets` has filled.
- The undefined return value of `parse_header_line` on success is replaced by the status `Parsed`; its caller never reads it.
