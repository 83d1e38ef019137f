# rucat in Dafny

rucat prints files, or standard input, in one of seven layouts: `ansi` and `utf8` (a box of
box-drawing characters), `xml`, `json`, `markdown` (the default), `ascii` and `pretty`
(syntax highlighting with terminal colour escapes). This project models the part of rucat
that decides what gets printed:

- the run of `main`: the merge of command-line values, the configuration file and the
  built-in defaults; the `-0` list of NUL-separated paths read from standard input; the
  choice between standard input and the file list; directory expansion; the two output
  strategies (streaming, one formatted output per readable file, and aggregating, one JSON
  document); `--strip` on display names; the clipboard buffer and the choice of clipboard
  provider (`Pipeline`, `Settings`, `NulList`, `FileTree`, `Clipboard`, `Paths`);
- `OutputFormat::into_formatter`, the map from output format to formatter (`Formats`);
- the six formatters as writers that are only appended to (`AsciiFormat`, `MarkdownFormat`,
  `XmlFormat`, `AnsiFormat`, `Utf8Format`, `BoxLayout`, `PrettyFormat`), with one shared
  model of Rust's `str::lines()`, of `writeln!` and of `{:>w$}` alignment (`Text`, `Sink`);
- the syntax choice of the `pretty` format: a matcher for the Vim modeline pattern, proved
  to agree with a declarative statement of the regular expression, the scan of the first and
  last five lines, and the four-tier cascade (override, modeline, extension, plain text)
  (`Modeline`, `PrettyFormat`).

Strings are sequences of Unicode scalar values. Where the source compares `str::len()`, which
counts bytes, the model uses `Text.ByteLen`: the UTF-8 length of each character summed, so
`│` and `─` take three bytes each. Standard output, standard error, the clipboard buffer and
every formatter's target are `Sink.Writer` objects whose only operations append. The methods
are proved against functions (`Output`, `Rows`, `Streamed`, `Run`, …), and the properties are
proved about those functions.

The filesystem, standard input, the configuration file, the TOML decoder, the syntax
registry, the highlighter, the JSON serialiser, the byte-to-path conversion and the
clipboard escape are parameters (`Pipeline.Env`). The filesystem is a map from each path
`read_to_string` can open to its text or read error, a map from directory to the entries its
walk yields, and the set of walk entries whose own file type is a regular file.

Where the code and rucat's own tests point different ways, the model follows the code:

- The modeline pattern in `src/formatters/pretty.rs:28` requires an editor identifier
  (`vim`, `vi` or `ex`) and two colons. So `// vim: ft=rust` is not a modeline
  (`Modeline.SingleColonExample`), although `tests/formatter_units.rs:131-146` and
  `tests/cli.rs:147-160` feed exactly that line as if it selected Rust. Their assertions hold
  without any detection: plain-text highlighting also emits `\x1b[`, and the unit test
  compares outputs of different line counts.

Two edge cases also follow the code as written:

- The strip count is clamped so that the last component always survives. A one-component
  path such as `-` is never changed, whatever the count.
- `str::lines()` follows current Rust. A carriage return is removed only before a line feed.
  A final unterminated line ending in `\r` keeps it.

## Model

| member | source | states |
|---|---|---|
| `Paths.StripComponents` | src/main.rs:306-319 | empty and one-component paths are unchanged; otherwise exactly min(n, len−1) leading components go; the last component is kept; n = 0 is the identity |
| `Paths.StripIsSuffix` | src/main.rs:313-318 | what remains is the tail of the path, in order |
| `Paths.StripComponentsCompose` | src/main.rs:306-319 | stripping a then b components equals stripping a + b |
| `Paths.StripToFileName` | src/main.rs:312-318 | a count of at least the number of directories leaves only the file name |
| `Paths.Extension` | src/formatters/markdown.rs:25-27 | present exactly when the path's last component is a file name with a dot after its first character; the extension holds no dot and is what follows the last dot of a non-empty stem |
| `Settings.LoadConfig` | src/main.rs:48-58 | a missing file or a decoding failure gives the all-absent configuration; otherwise the decoded one |
| `Settings.Pick` | src/main.rs:229-238 | the command-line value when present, else the file's value, else the default |
| `Settings.Merge` | src/main.rs:229-238 | each field is resolved separately: format (default Markdown), strip (default 0) and both widths (default 80) by CLI, then file, then default; syntax override by CLI, then file; line numbers are on iff the flag is given or the file says true |
| `Settings.DefaultsWithoutConfig` | src/main.rs:230-238 | with no configuration file, the command line and the built-in defaults decide alone |
| `NulList.SplitNul` | src/main.rs:253 | splitting at zero bytes gives at least one run |
| `NulList.SplitNulRuns` | src/main.rs:253 | no run holds a zero byte |
| `NulList.JoinSplit` | src/main.rs:253 | the runs, rejoined with zero bytes between them, are the input |
| `NulList.SplitJoin` | src/main.rs:253 | zero-free runs joined with zero bytes split back into themselves |
| `NulList.NulSegments` | src/main.rs:253-256 | every path segment is non-empty and holds no zero byte |
| `NulList.NulSegmentsSeparated` | src/main.rs:253-262 | segments before a zero byte come before the segments after it |
| `NulList.TrailingNul` | src/main.rs:253-256 | a trailing zero byte adds no path |
| `NulList.SinglePath` | src/main.rs:253-262 | a non-empty zero-free input is a single path |
| `NulList.AppendNulPaths` | src/main.rs:250-263 | the result is the positional files followed, in order, by one parsed path per non-empty segment |
| `FileTree.ReadFile` | src/main.rs:297-299 | a file's text or its read error; a missing path gives the not-found error |
| `FileTree.FilesOnly` | src/main.rs:127-134 | a walk entry is kept exactly when its own file type is a regular file |
| `FileTree.FilesOnlyAppend` | src/main.rs:127-134 | filtering keeps the walk order: filtering a concatenation is concatenating the filtered parts |
| `FileTree.Expand` | src/main.rs:123-138 | the loop builds the expanded list: each directory replaced by the regular files of its walk, anything else kept, in command-line order |
| `FileTree.ExpandedAppend` | src/main.rs:125-138 | a list split in two expands piece by piece, so order is kept |
| `FileTree.ExpandedNoDirs` | src/main.rs:135-137 | without directories the list is kept as it is, missing paths included |
| `FileTree.ExpandedOrigin` | src/main.rs:124-138 | each expanded path is a non-directory argument or a walk entry of a directory argument whose own file type is a regular file |
| `Clipboard.ChooseProvider` | src/main.rs:207-227 | no provider without `copy`; with `copy`, "osc52" gives Osc52 and "osc5522" gives Osc5522; no name is an error, and so is any other name |
| `Clipboard.ChosenByName` | src/main.rs:216-218 | each provider is chosen by its own name |
| `Formats.KindOf` | src/lib.rs:34-50 | no formatter implements Json |
| `Formats.IntoFormatter` | src/lib.rs:26-53 | None exactly for Json; otherwise a formatter of that format with the line-number flag; Ansi gets the ANSI width, Utf8 the UTF-8 width, and only Pretty gets the syntax override |
| `Formats.IntoFormatterOfKind` | src/lib.rs:34-50 | every formatter is what `into_formatter` makes from its own kind and settings |
| `Formats.OnlyOwnSettings` | src/lib.rs:34-50 | changing another format's width or the syntax override does not change a formatter |
| `Formats.Write` | src/lib.rs:33 | writing through the trait object appends exactly the chosen formatter's output |
| `Text.Lines` | src/formatters/ascii.rs:35 | no line holds a line feed; there are no lines exactly for the empty text |
| `Text.LinesCount` | src/formatters/ascii.rs:29 | one line per line feed, plus one for a final unterminated line |
| `Text.LinesOfTerminated` | src/formatters/ascii.rs:35-41 | `lines()` gives back the rows that `writeln!` wrote |
| `Text.TerminatedOfLines` | src/formatters/ascii.rs:35-41 | writing each line with `writeln!` gives the text back, with a final line feed added if it was missing |
| `Text.NatToString` | src/formatters/ascii.rs:31 | a numeral is a non-empty string of decimal digits |
| `Text.ParseNatToString` | src/formatters/ascii.rs:31 | the numeral reads back as the number |
| `Text.NatToStringLength` | src/formatters/ascii.rs:31 | the numeral's length is the digit count |
| `Text.GutterShape` | src/formatters/ascii.rs:38 | every number from 1 to the total fills a column as wide as the total's digit count: spaces, then its numeral |
| `Text.BodyRows` | src/formatters/ascii.rs:35-41 | one body row per line; unnumbered rows are the lines; numbered row k is padding, k + 1, the separator, then line k |
| `Text.ByteLenAppend` | src/formatters/ansi.rs:45 | the byte length of a concatenation is the sum of the byte lengths |
| `Text.ByteLenRepeat` | src/formatters/ansi.rs:53 | k copies of a character take k times its UTF-8 width |
| `Sink.WriteBody` | src/formatters/ascii.rs:29-42 | the line loop appends exactly the terminated body rows |
| `AsciiFormat.Write` | src/formatters/ascii.rs:26-45 | appends exactly the header row and the body rows, each followed by a line feed |
| `AsciiFormat.RowsLayout` | src/formatters/ascii.rs:28-41 | the first row is `=== <path> ===`; then one row per line; unnumbered rows are the lines verbatim |
| `AsciiFormat.NumberedRow` | src/formatters/ascii.rs:29-38 | numbered row k + 1 is k + 1 right-aligned to the total's digit count, then a space, a vertical bar and a space, then the line |
| `AsciiFormat.PlainIsContent` | src/formatters/ascii.rs:28-41 | unnumbered output is the header line, then the content byte for byte, with a final line feed added if missing |
| `MarkdownFormat.Write` | src/formatters/markdown.rs:23-42 | appends exactly the banner, opening fence, body and closing fence rows |
| `MarkdownFormat.OutputLayout` | src/formatters/markdown.rs:28-39 | the output is banner, fence with extension, body, then closing fence, each ending in a line feed |
| `MarkdownFormat.BodyLayout` | src/formatters/markdown.rs:30-38 | one body row per line; unnumbered rows are the lines; numbered rows are the right-aligned number, one space, then the line |
| `MarkdownFormat.PlainIsFenced` | src/formatters/markdown.rs:25-39 | unnumbered output is `---\nFile: <path>\n---\n`, the fence tagged with the extension or bare, the content, then the closing fence |
| `MarkdownFormat.StdinOutput` | src/formatters/markdown.rs:25-39 | one-line standard input `X` prints as `---\nFile: -\n---\n` + "```\n" + `X\n` + "```\n" |
| `XmlFormat.EscIsPerChar` | src/formatters/xml.rs:23-29 | the replacement chain maps each character to exactly one entity, independently of its neighbours |
| `XmlFormat.EscChar` | src/formatters/xml.rs:23-29 | one character escapes to exactly its entity; later replacements do not touch entities already produced |
| `XmlFormat.EscNoMarkup` | src/formatters/xml.rs:23-29 | no raw `<`, `>`, `"` or `'` survives escaping |
| `XmlFormat.EscIdentity` | src/formatters/xml.rs:23-29 | text without `& < > " '` is unchanged |
| `XmlFormat.EntityIsEscapedAgain` | src/formatters/xml.rs:24 | an entity in the input is escaped again: `&lt;` becomes `&amp;lt;` |
| `XmlFormat.UnescapeEsc` | src/formatters/xml.rs:23-29 | escaping loses nothing: the entities read back to the original text |
| `XmlFormat.EscAppend` | src/formatters/xml.rs:23-29 | escaping a concatenation is concatenating the escapes |
| `XmlFormat.Write` | src/formatters/xml.rs:32-52 | appends exactly the rows of the numbered or the single-line layout |
| `XmlFormat.NumberedLayout` | src/formatters/xml.rs:33-42 | `<file path="P">`, then one `  <line no="i">esc(line)</line>` per line with i from 1 unpadded, then `</file>`; empty content gives the two tags alone |
| `XmlFormat.PlainLayout` | src/formatters/xml.rs:43-49 | one line `<file path="P">esc(content)</file>`; the path is not escaped; the whole content is escaped, line feeds included |
| `BoxLayout.Padded` | src/formatters/ansi.rs:68-77 | `pad` keeps s as a prefix and adds only spaces; the result has max(len(s), w) bytes; a string of w bytes or more is unchanged |
| `BoxLayout.PaddedShape` | src/formatters/utf8.rs:66-75 | a string shorter than w bytes is followed by exactly w − len(s) spaces |
| `BoxLayout.Pad` | src/formatters/ansi.rs:68-77 | the `push_str` and `extend` loop builds the padded string |
| `BoxLayout.MaxByteLen` | src/formatters/ansi.rs:38-47 | the running maximum bounds every row and is reached by one of them, or is 0 with no rows |
| `BoxLayout.Interior` | src/formatters/ansi.rs:36-51 | the interior is at least the width, the header's byte length and every body row's byte length, and equals one of them |
| `BoxLayout.RenderBody` | src/formatters/ansi.rs:35-47 | the loop builds the rendered rows and their maximum byte length |
| `BoxLayout.Write` | src/formatters/ansi.rs:26-64 | appends exactly the box rows: top, header, separator, body, bottom |
| `BoxLayout.WriteFramed` | src/formatters/ansi.rs:59-61 | appends each rendered line framed by `│` and padded to the interior width, in order |
| `BoxLayout.Shape` | src/formatters/ansi.rs:53-62 | line-count + 4 rows in order top, header, separator, body, bottom; the three borders are the same `hr` and have equal byte length; the header row holds exactly `interior` bytes between the bars |
| `BoxLayout.BodyRow` | src/formatters/ansi.rs:58-60 | body row k is `│`, rendered line k padded to exactly `interior` bytes, `│` |
| `BoxLayout.HeaderRow` | src/formatters/ansi.rs:49-57 | the header row is the whole header plus the spaces that fill the interior; the interior is at least the width and at least the header |
| `AnsiFormat.Write` | src/formatters/ansi.rs:26-65 | `Ansi::write` appends the box under the header ` File: <path>` |
| `AnsiFormat.HeaderRow` | src/formatters/ansi.rs:49-56 | the header ` File: <path>` is never cut and is padded to the interior width |
| `AnsiFormat.HeaderLength` | src/formatters/ansi.rs:49 | the header takes 7 bytes besides the path, with no trailing space |
| `Utf8Format.Write` | src/formatters/utf8.rs:27-63 | `Utf8::write` appends the box under the header ` File: <path> ` |
| `Utf8Format.HeaderRow` | src/formatters/utf8.rs:49-56 | the header ` File: <path> ` is never cut and is padded to the interior width |
| `Utf8Format.HeaderLength` | src/formatters/utf8.rs:49 | the header takes 8 bytes besides the path, including a trailing space |
| `Modeline.KeywordEnd` | src/formatters/pretty.rs:28 | an editor identifier match ends two or three characters on |
| `Modeline.ColonFrom` | src/formatters/pretty.rs:28 | `[^:]*:` stops at the first colon at or after the position |
| `Modeline.ValueEnd` | src/formatters/pretty.rs:28 | the capture runs over the maximal run of `[A-Za-z0-9_.-]` |
| `Modeline.MatchAtSound` | src/formatters/pretty.rs:27-29 | a capture found by the matcher at a position is a match of the pattern there |
| `Modeline.MatchAtComplete` | src/formatters/pretty.rs:27-29 | wherever the pattern matches, the matcher finds the capture |
| `Modeline.FindSpec` | src/formatters/pretty.rs:27-29 | a found capture comes from the leftmost position where the pattern matches; nothing is found only if the pattern matches nowhere |
| `Modeline.FirstMatchWins` | src/formatters/pretty.rs:27-29 | at the leftmost matching position the capture is the full value run |
| `Modeline.OneColonNoMatch` | src/formatters/pretty.rs:28 | a line with fewer than two colons never matches |
| `Modeline.ColonSeparatedExample` | src/formatters/pretty.rs:28 | `# vim: ts=4:ft=rust` yields `rust` |
| `Modeline.SingleColonExample` | src/formatters/pretty.rs:28 | `// vim: ft=rust` yields nothing |
| `Modeline.ScanOrder` | src/formatters/pretty.rs:32-56 | the result is the first capture in the order: first five lines forward, then (more than five lines only) the last five backward |
| `Modeline.HeadWins` | src/formatters/pretty.rs:36-43 | a match among the first five lines wins over any match near the end, and it is the first such match |
| `Modeline.ModelineLocal` | src/formatters/pretty.rs:36-55 | only the first five and the last five lines are looked at |
| `Modeline.FindSyntaxFromModeline` | src/formatters/pretty.rs:31-56 | the two early-return loops compute the modeline scan |
| `Modeline.ScanFirst` | src/formatters/pretty.rs:36-43 | the first loop returns the first capture among the first five lines |
| `Modeline.ScanLast` | src/formatters/pretty.rs:45-54 | the second loop returns the first capture among the last five lines, nearest the end first |
| `PrettyFormat.Cascade` | src/formatters/pretty.rs:68-83 | a known override wins; else a known modeline name; else the extension's syntax; else plain text |
| `PrettyFormat.UnknownOverrideIgnored` | src/formatters/pretty.rs:70-72 | an override the registry does not know is not an error; the choice is as if none was given |
| `PrettyFormat.UnknownModelineUsesExtension` | src/formatters/pretty.rs:74-77 | an unknown modeline name falls through to the extension, even if another line names a known syntax |
| `PrettyFormat.Escaped` | src/formatters/pretty.rs:89-92 | each line prints as its highlighting after the lines before it, or as itself when highlighting fails |
| `PrettyFormat.Highlighter.HighlightLine` | src/formatters/pretty.rs:89-92 | highlighting a line depends on the lines fed before it and records it |
| `PrettyFormat.Write` | src/formatters/pretty.rs:64-105 | appends one row per content line, highlighted with the cascade's syntax |
| `PrettyFormat.WriteLines` | src/formatters/pretty.rs:86-103 | the loops feed every line to the highlighter in order and write one row each |
| `PrettyFormat.RowAt` | src/formatters/pretty.rs:86-102 | row k is line k highlighted, or plain on error; numbered, it is k + 1 right-aligned to the total's digit count, then ` │ ` |
| `PrettyFormat.PlainWhenHighlightingFails` | src/formatters/pretty.rs:89-101 | when every highlight fails, the unnumbered output is the content itself |
| `Pipeline.Readable` | src/main.rs:148-150 | a path is kept exactly when it can be read |
| `Pipeline.ReadableAppend` | src/main.rs:148-150 | filtering keeps the order: filtering a concatenation is concatenating the filtered parts |
| `Pipeline.StreamFiles` | src/main.rs:172-192 | the streaming loop appends exactly the streamed outputs to standard output, standard error and the clipboard buffer |
| `Pipeline.StreamPath` | src/main.rs:173-191 | a readable file is formatted under its stripped name; an unreadable one writes `Error reading <full path>: <reason>` to standard error |
| `Pipeline.WriteFormatted` | src/main.rs:177-187 | the same formatted text goes to the clipboard buffer, then to standard output |
| `Pipeline.WriteJson` | src/main.rs:160-170 | the document goes to the clipboard buffer as it is and to standard output with a line feed |
| `Pipeline.ProcessFiles` | src/main.rs:118-195 | expansion, then one JSON document or the streamed outputs |
| `Pipeline.ProcessStdin` | src/main.rs:67-116 | standard input is formatted under `-`; a read error is returned and nothing is written |
| `Pipeline.ProcessInput` | src/main.rs:269-283 | standard input when there is no file and no `-0`, else the file list |
| `Pipeline.Execute` | src/main.rs:197-295 | `main` writes what `Run` describes and returns its exit status |
| `Pipeline.StreamedCopyIsStdout` | src/main.rs:177-185 | when streaming, the clipboard buffer gets byte-identical output to standard output |
| `Pipeline.StreamedAppend` | src/main.rs:172-192 | paths are processed in order and independently |
| `Pipeline.UnreadableOnlyReported` | src/main.rs:172-192 | an unreadable file only adds its line to standard error; the other output is that of the readable files alone |
| `Pipeline.NoErrorsIffReadable` | src/main.rs:190 | standard error stays empty iff every path can be read |
| `Pipeline.JsonEntriesReadable` | src/main.rs:147-158 | the entries are the readable paths in order, each under its stripped display name with its content |
| `Pipeline.JsonFilesDocument` | src/main.rs:147-170 | JSON mode writes exactly one document, with a line feed on standard output and nothing on standard error |
| `Pipeline.StdinRoute` | src/main.rs:270 | standard input is the content iff no file is named and `-0` is absent |
| `Pipeline.ProviderErrorFirst` | src/main.rs:207-227 | a provider that cannot be chosen ends the run with status 1 and its message, before any input is read |
| `Pipeline.FilesRouteSucceeds` | src/main.rs:276-283 | the file route never fails; unreadable files are only reported and the exit status is 0 |
| `Pipeline.StdinNotUtf8Fails` | src/main.rs:71-72 | standard input that is not UTF-8 ends the run with status 1 and no output |
| `Pipeline.StdinUnderDash` | src/main.rs:73-91 | standard input is formatted under the display name `-` whatever the strip count |
| `Pipeline.NulWithoutPaths` | src/main.rs:270-283 | with `-0` and no paths at all, the file route still runs and writes nothing |
| `Pipeline.CopyMirrorsOutput` | src/main.rs:85-91 | outside JSON mode the clipboard buffer holds exactly the formatted output |
| `Pipeline.JsonCopyLacksNewline` | src/main.rs:103-107 | in JSON mode the clipboard buffer lacks the final line feed that standard output gets |
| `Pipeline.EscapeLast` | src/main.rs:285-292 | with a provider, the escape carrying the buffer is written once, after all other output, and the run exits 0 |

## Left out

- Command-line parsing: `Args::parse_with_trailing` is not part of this model. Its error kinds (unknown flag, missing value, invalid number, invalid format name, disabled feature) are therefore not modelled, and the run starts from a resolved `Cli.Args` record.
- I/O is modelled by parameters: reading standard input, `fs::read_to_string`, the configuration directory lookup, TOML decoding and `serde_json::to_string_pretty`. Their results are inputs to the model.
- `WalkDir` is represented by the list of entries each directory's walk yields. Its traversal order and its dropped errors are taken as given.
- syntect is represented by a registry of finite maps and a highlighting function. This covers `find_syntax_by_token`, `find_syntax_by_extension`, `HighlightLines`, `as_24_bit_terminal_escaped`, themes and the lazy statics.
- `ClipboardProvider::copy_to_clipboard` (base64 and OSC framing) is a parameter, because it is a call into an encoding crate. So is the conversion of `-0` byte segments into paths, which differs between Unix and other targets.
- The clipboard buffer's `String::from_utf8_lossy` is not modelled. The buffer only ever holds formatter output, which is valid UTF-8, so the conversion changes nothing.
- Write errors on standard output, standard error or the buffer are not modelled: every write succeeds. `process::exit` and a returned error are both modelled as an `Outcome` with exit status 1.
- Paths are modelled only as far as `Path::iter` shows them: a component sequence, with the root as a component. `display` joins the components with `/`. Non-UTF-8 path names are not modelled.
- The `Error reading` line on standard error shows the path with its components joined by `/`. The source prints `p.display()`, which keeps the path as typed, so `dir//a` or a trailing `/` print differently there.
- `usize` arithmetic is unbounded in the model. Widths and line counts far beyond the address space are not modelled.
- The build without the `clipboard` feature is not modelled separately. It behaves like a run without `copy`.
- build.rs (man page and completions) and the `Formatter` trait declaration are not modelled.
