/**
 * The run of `main`: the clipboard provider, the settings merge, the `-0` path list, the
 * choice between standard input and the file list, the two output strategies (one formatted
 * output per readable file, or one JSON document) and the clipboard escape at the end.
 * Standard output, standard error and the clipboard buffer are writers that are only
 * appended to.
 */
module Pipeline {
  import opened Wrappers
  import opened Text
  import opened Paths
  import opened Sink
  import opened Cli
  import opened Settings
  import opened Formats
  import opened NulList
  import opened FileTree
  import opened Clipboard
  import PrettyFormat

  /** `FileEntry`: one object of the JSON document. */
  datatype FileEntry = FileEntry(path: string, content: string)

  /**
   * What a run reads, and the foreign code it calls: the filesystem; standard input as bytes
   * (for `-0`) and as the text `read_to_string` gives (`None` when it is not UTF-8); the
   * configuration file's text and the TOML decoder; the syntax registry and highlighter;
   * `serde_json::to_string_pretty`; the byte-to-path conversion; the clipboard escape.
   */
  datatype Env = Env(
    fs: FileSystem,
    stdin: seq<byte>,
    stdinText: Option<string>,
    configFile: Option<string>,
    parseConfig: string -> Option<Config>,
    registry: PrettyFormat.Registry,
    engine: PrettyFormat.Engine,
    toJson: seq<FileEntry> -> string,
    parsePath: seq<byte> -> Path,
    copyEscape: CopyEscape)

  /** The message of the error `read_to_string` returns for standard input that is not UTF-8. */
  const StdinNotUtf8: string := "stream did not contain valid UTF-8"

  /** The message written to standard error, on a line of its own, for a file that cannot be read. */
  function ReadError(p: Path, reason: string): string
  {
    "Error reading " + Display(p) + ": " + reason
  }

  /** The message `main` prints for the error it returns. */
  function ErrorReport(e: string): string
  {
    "Error: " + e
  }

  /** What a processing step appends to standard output, standard error and the clipboard buffer. */
  datatype Streams = Streams(stdout: string, stderr: string, clipboard: string)

  // ---------------------------------------------------------------------------
  // process_files
  // ---------------------------------------------------------------------------

  /** What a formatter writes for a display path and a content. */
  type Renderer = (Path, string) -> string

  /** The formatter `f` as a renderer. */
  function RendererOf(f: Formatter, env: Env): Renderer
  {
    (p: Path, content: string) => Render(f, env.registry, env.engine, p, content)
  }

  /**
   * Streaming: each path in order, a readable file rendered under its stripped display
   * name (to the clipboard buffer and to standard output alike), an unreadable one reported
   * under its full name on standard error.
   */
  function Streamed(render: Renderer, fs: FileSystem, strip: nat, paths: seq<Path>): Streams
  {
    if paths == [] then Streams([], [], [])
    else Concat(Streamed(render, fs, strip, paths[..|paths| - 1]), Delta(render, fs, strip, paths[|paths| - 1]))
  }

  /** What one path adds to the three outputs. */
  function Delta(render: Renderer, fs: FileSystem, strip: nat, p: Path): Streams
  {
    match ReadFile(fs, p)
    case Ok(content) =>
      var out := render(StripComponents(p, strip), content);
      Streams(out, [], out)
    case Err(reason) => Streams([], ReadError(p, reason) + "\n", [])
  }

  /** The outputs `a`, then the outputs `b`. */
  function Concat(a: Streams, b: Streams): Streams
  {
    Streams(a.stdout + b.stdout, a.stderr + b.stderr, a.clipboard + b.clipboard)
  }

  lemma StreamedSnoc(render: Renderer, fs: FileSystem, strip: nat, paths: seq<Path>, i: nat)
    requires i < |paths|
    ensures Streamed(render, fs, strip, paths[..i + 1]) == Concat(Streamed(render, fs, strip, paths[..i]), Delta(render, fs, strip, paths[i]))
  {
    assert paths[..i + 1][..i] == paths[..i];
  }

  /** The paths that can be read, in order. */
  function Readable(fs: FileSystem, paths: seq<Path>): (r: seq<Path>)
    ensures forall q :: q in r <==> q in paths && ReadFile(fs, q).Ok?
  {
    if paths == [] then []
    else
      var p := paths[|paths| - 1];
      assert paths == paths[..|paths| - 1] + [p];
      Readable(fs, paths[..|paths| - 1]) + (if ReadFile(fs, p).Ok? then [p] else [])
  }

  /** Filtering keeps the order of the paths: a list split in two is filtered piece by piece. */
  lemma {:induction false} ReadableAppend(fs: FileSystem, a: seq<Path>, b: seq<Path>)
    ensures Readable(fs, a + b) == Readable(fs, a) + Readable(fs, b)
    decreases |b|
  {
    if b == [] {
      assert a + b == a;
    } else {
      var b' := b[..|b| - 1];
      assert (a + b)[..|a + b| - 1] == a + b';
      assert (a + b)[|a + b| - 1] == b[|b| - 1];
      ReadableAppend(fs, a, b');
    }
  }

  /** The `filter_map` and `map` chain of the JSON branch. */
  function JsonEntries(fs: FileSystem, strip: nat, paths: seq<Path>): seq<FileEntry>
  {
    if paths == [] then []
    else
      var p := paths[|paths| - 1];
      JsonEntries(fs, strip, paths[..|paths| - 1])
      + match ReadFile(fs, p)
        case Ok(content) => [FileEntry(Display(StripComponents(p, strip)), content)]
        case Err(_) => []
  }

  /** One JSON document: with a line feed on standard output, without one in the clipboard buffer. */
  function JsonDocument(env: Env, entries: seq<FileEntry>): Streams
  {
    var json := env.toJson(entries);
    Streams(json + "\n", [], json)
  }

  /** The formatter `into_formatter` gives for the merged settings. */
  function FormatterOf(o: FormattingOptions): Option<Formatter>
  {
    IntoFormatter(o.format, o.ansiWidth, o.utf8Width, o.lineNumbers, o.prettySyntax)
  }

  /** `process_files`: the expanded list, as one JSON document or streamed file by file. */
  function FilesOutput(o: FormattingOptions, env: Env, files: seq<Path>): Streams
  {
    var paths := Expanded(env.fs, files);
    if o.format == Json then JsonDocument(env, JsonEntries(env.fs, o.strip, paths))
    else Streamed(RendererOf(FormatterOf(o).value, env), env.fs, o.strip, paths)
  }

  // ---------------------------------------------------------------------------
  // process_stdin and main
  // ---------------------------------------------------------------------------

  /** `process_stdin`: standard input formatted under the name `-`, or the error reading it. */
  function StdinOutput(o: FormattingOptions, env: Env): Result<Streams, string>
  {
    match env.stdinText
    case None => Err(StdinNotUtf8)
    case Some(buf) =>
      var disp := StripComponents(StdinPath, o.strip);
      match FormatterOf(o)
      case Some(f) =>
        var out := Render(f, env.registry, env.engine, disp, buf);
        Ok(Streams(out, [], out))
      case None => Ok(JsonDocument(env, [FileEntry(Display(disp), buf)]))
  }

  /** The file list after `-0`: the positional files, then the paths read from standard input. */
  function FileList(args: Args, env: Env): seq<Path>
  {
    if args.nullSep then args.files + Parsed(env.parsePath, NulSegments(env.stdin)) else args.files
  }

  /** Whether standard input is the content: no file and no `-0`. */
  predicate ReadsStdin(args: Args, files: seq<Path>)
  {
    |files| == 0 && !args.nullSep
  }

  /** The settings of the run: command line, then configuration file, then defaults. */
  function Options(args: Args, env: Env): FormattingOptions
  {
    Merge(args, LoadConfig(env.configFile, env.parseConfig))
  }

  /** What processing the input produces, before the clipboard escape. */
  function Produced(args: Args, env: Env): Result<Streams, string>
  {
    var files := FileList(args, env);
    if ReadsStdin(args, files) then StdinOutput(Options(args, env), env)
    else Ok(FilesOutput(Options(args, env), env, files))
  }

  /** The escape carrying the clipboard buffer, written when copying with a provider. */
  function Escape(copy: bool, provider: Option<ClipboardProvider>, env: Env, buffer: string): string
  {
    if copy && provider.Some? then env.copyEscape(provider.value, buffer) else []
  }

  /** What a run writes and the status it exits with. */
  datatype Outcome = Outcome(stdout: string, stderr: string, exitCode: nat)

  /** `main`. */
  function Run(args: Args, env: Env): Outcome
  {
    match ChooseProvider(args.copy, args.clipboardProviderForTest)
    case Err(message) => Outcome([], message + "\n", 1)
    case Ok(provider) => Conclude(args.copy, provider, env, Produced(args, env))
  }

  /** The end of `main`: the error `process_stdin` returned, or the output and the escape. */
  function Conclude(copy: bool, provider: Option<ClipboardProvider>, env: Env, produced: Result<Streams, string>): Outcome
  {
    match produced
    case Err(e) => Outcome([], ErrorReport(e) + "\n", 1)
    case Ok(s) => Outcome(s.stdout + Escape(copy, provider, env, s.clipboard), s.stderr, 0)
  }

  // ---------------------------------------------------------------------------
  // The imperative run
  // ---------------------------------------------------------------------------

  /** The clipboard buffer's writer, when there is one. */
  function Buffers(clipboard: Option<Writer>): set<Writer>
  {
    if clipboard.Some? then {clipboard.value} else {}
  }

  /** The three outputs are different streams. */
  predicate Distinct(stdout: Writer, stderr: Writer, clipboard: Option<Writer>)
  {
    stdout != stderr && (clipboard.Some? ==> clipboard.value != stdout && clipboard.value != stderr)
  }

  /** The streaming loop of `process_files`, with `render` what `f` writes. */
  method StreamFiles(f: Formatter, ghost render: Renderer, env: Env, strip: nat, paths: seq<Path>,
                     stdout: Writer, stderr: Writer, clipboard: Option<Writer>)
    requires forall p, content {:trigger Render(f, env.registry, env.engine, p, content)}
               :: render(p, content) == Render(f, env.registry, env.engine, p, content)
    requires Distinct(stdout, stderr, clipboard)
    modifies stdout, stderr, Buffers(clipboard)
    ensures stdout.text == old(stdout.text) + Streamed(render, env.fs, strip, paths).stdout
    ensures stderr.text == old(stderr.text) + Streamed(render, env.fs, strip, paths).stderr
    ensures clipboard.Some? ==> clipboard.value.text == old(clipboard.value.text) + Streamed(render, env.fs, strip, paths).clipboard
  {
    ghost var acc := Streams([], [], []);
    var i := 0;
    while i < |paths|
      invariant 0 <= i <= |paths|
      invariant acc == Streamed(render, env.fs, strip, paths[..i])
      invariant stdout.text == old(stdout.text) + acc.stdout
      invariant stderr.text == old(stderr.text) + acc.stderr
      invariant clipboard.Some? ==> clipboard.value.text == old(clipboard.value.text) + acc.clipboard
    {
      ghost var d := Delta(render, env.fs, strip, paths[i]);
      StreamPath(f, render, env, strip, paths[i], stdout, stderr, clipboard);
      ConcatAssoc(old(stdout.text), acc.stdout, d.stdout);
      ConcatAssoc(old(stderr.text), acc.stderr, d.stderr);
      if clipboard.Some? {
        ConcatAssoc(old(clipboard.value.text), acc.clipboard, d.clipboard);
      }
      StreamedSnoc(render, env.fs, strip, paths, i);
      acc := Concat(acc, d);
      i := i + 1;
    }
    assert paths[..i] == paths;
  }

  /** The body of the streaming loop: one path formatted, or its read error reported. */
  method StreamPath(f: Formatter, ghost render: Renderer, env: Env, strip: nat, p: Path,
                    stdout: Writer, stderr: Writer, clipboard: Option<Writer>)
    requires forall p, content {:trigger Render(f, env.registry, env.engine, p, content)}
               :: render(p, content) == Render(f, env.registry, env.engine, p, content)
    requires Distinct(stdout, stderr, clipboard)
    modifies stdout, stderr, Buffers(clipboard)
    ensures stdout.text == old(stdout.text) + Delta(render, env.fs, strip, p).stdout
    ensures stderr.text == old(stderr.text) + Delta(render, env.fs, strip, p).stderr
    ensures clipboard.Some? ==> clipboard.value.text == old(clipboard.value.text) + Delta(render, env.fs, strip, p).clipboard
  {
    match ReadFile(env.fs, p)
    case Ok(content) => {
      var display := StripComponents(p, strip);
      WriteFormatted(f, render, env, display, content, stdout, clipboard);
    }
    case Err(e) => {
      stderr.WriteLine(ReadError(p, e));
    }
  }

  /** `f.write` into the clipboard buffer when copying, then into standard output. */
  method WriteFormatted(f: Formatter, ghost render: Renderer, env: Env, display: Path, content: string,
                        stdout: Writer, clipboard: Option<Writer>)
    requires forall p, content {:trigger Render(f, env.registry, env.engine, p, content)}
               :: render(p, content) == Render(f, env.registry, env.engine, p, content)
    requires clipboard.Some? ==> clipboard.value != stdout
    modifies stdout, Buffers(clipboard)
    ensures stdout.text == old(stdout.text) + render(display, content)
    ensures clipboard.Some? ==> clipboard.value.text == old(clipboard.value.text) + render(display, content)
  {
    if clipboard.Some? {
      Write(f, env.registry, env.engine, display, content, clipboard.value);
      Write(f, env.registry, env.engine, display, content, stdout);
    } else {
      Write(f, env.registry, env.engine, display, content, stdout);
    }
  }

  /** A JSON document: to the clipboard buffer as it is, to standard output with a line feed. */
  method WriteJson(env: Env, entries: seq<FileEntry>, stdout: Writer, clipboard: Option<Writer>)
    requires clipboard.Some? ==> clipboard.value != stdout
    modifies stdout, Buffers(clipboard)
    ensures stdout.text == old(stdout.text) + JsonDocument(env, entries).stdout
    ensures clipboard.Some? ==> clipboard.value.text == old(clipboard.value.text) + JsonDocument(env, entries).clipboard
  {
    var json := env.toJson(entries);
    if clipboard.Some? {
      clipboard.value.Write(json);
    }
    stdout.WriteLine(json);
  }

  /** `process_files`. */
  method ProcessFiles(files: seq<Path>, o: FormattingOptions, env: Env,
                      stdout: Writer, stderr: Writer, clipboard: Option<Writer>)
    requires Distinct(stdout, stderr, clipboard)
    modifies stdout, stderr, Buffers(clipboard)
    ensures stdout.text == old(stdout.text) + FilesOutput(o, env, files).stdout
    ensures stderr.text == old(stderr.text) + FilesOutput(o, env, files).stderr
    ensures clipboard.Some? ==> clipboard.value.text == old(clipboard.value.text) + FilesOutput(o, env, files).clipboard
  {
    var paths := Expand(env.fs, files);
    var fmt := FormatterOf(o);
    if o.format == Json {
      var entries := JsonEntries(env.fs, o.strip, paths);
      WriteJson(env, entries, stdout, clipboard);
    } else {
      StreamFiles(fmt.value, RendererOf(fmt.value, env), env, o.strip, paths, stdout, stderr, clipboard);
    }
  }

  /** `process_stdin`: `Some` of the read error, or `None` once the input is written. */
  method ProcessStdin(o: FormattingOptions, env: Env, stdout: Writer, clipboard: Option<Writer>)
    returns (error: Option<string>)
    requires clipboard.Some? ==> clipboard.value != stdout
    modifies stdout, Buffers(clipboard)
    ensures error.Some? <==> StdinOutput(o, env).Err?
    ensures error.Some? ==> error.value == StdinOutput(o, env).error && stdout.text == old(stdout.text)
    ensures error.None? ==> stdout.text == old(stdout.text) + StdinOutput(o, env).value.stdout
    ensures error.None? && clipboard.Some?
            ==> clipboard.value.text == old(clipboard.value.text) + StdinOutput(o, env).value.clipboard
    ensures error.Some? && clipboard.Some? ==> clipboard.value.text == old(clipboard.value.text)
  {
    if env.stdinText.None? {
      return Some(StdinNotUtf8);
    }
    var buf := env.stdinText.value;
    var fmt := FormatterOf(o);
    var display := StripComponents(StdinPath, o.strip);
    if fmt.Some? {
      if clipboard.Some? {
        Write(fmt.value, env.registry, env.engine, display, buf, clipboard.value);
        Write(fmt.value, env.registry, env.engine, display, buf, stdout);
      } else {
        Write(fmt.value, env.registry, env.engine, display, buf, stdout);
      }
    } else {
      WriteJson(env, [FileEntry(Display(display), buf)], stdout, clipboard);
    }
    return None;
  }

  /** The dispatch of `main`: standard input when there is no file and no `-0`, else the files. */
  method ProcessInput(args: Args, env: Env, o: FormattingOptions, files: seq<Path>,
                      stdout: Writer, stderr: Writer, clipboard: Option<Writer>)
    returns (error: Option<string>)
    requires o == Options(args, env) && files == FileList(args, env)
    requires Distinct(stdout, stderr, clipboard)
    modifies stdout, stderr, Buffers(clipboard)
    ensures error.Some? <==> Produced(args, env).Err?
    ensures error.Some? ==> error.value == Produced(args, env).error
    ensures error.Some? ==> stdout.text == old(stdout.text) && stderr.text == old(stderr.text)
    ensures error.None? ==> stdout.text == old(stdout.text) + Produced(args, env).value.stdout
    ensures error.None? ==> stderr.text == old(stderr.text) + Produced(args, env).value.stderr
    ensures error.None? && clipboard.Some?
            ==> clipboard.value.text == old(clipboard.value.text) + Produced(args, env).value.clipboard
  {
    if |files| == 0 && !args.nullSep {
      error := ProcessStdin(o, env, stdout, clipboard);
    } else {
      ProcessFiles(files, o, env, stdout, stderr, clipboard);
      error := None;
    }
  }

  /** `main`, writing to standard output and standard error and returning the exit status. */
  method Execute(args: Args, env: Env, stdout: Writer, stderr: Writer) returns (exitCode: nat)
    requires stdout != stderr
    modifies stdout, stderr
    ensures stdout.text == old(stdout.text) + Run(args, env).stdout
    ensures stderr.text == old(stderr.text) + Run(args, env).stderr
    ensures exitCode == Run(args, env).exitCode
  {
    var config := LoadConfig(env.configFile, env.parseConfig);
    var chosen := ChooseProvider(args.copy, args.clipboardProviderForTest);
    if chosen.Err? {
      stderr.WriteLine(chosen.error);
      return 1;
    }
    var provider := chosen.value;
    var o := Merge(args, config);
    var files := args.files;
    if args.nullSep {
      files := AppendNulPaths(files, env.stdin, env.parsePath);
    }
    var clipboard: Option<Writer> := None;
    if args.copy {
      var buffer := new Writer();
      clipboard := Some(buffer);
    }
    var error := ProcessInput(args, env, o, files, stdout, stderr, clipboard);
    if error.Some? {
      stderr.WriteLine(ErrorReport(error.value));
      return 1;
    }
    ghost var produced := Produced(args, env).value;
    assert clipboard.Some? ==> clipboard.value.text == [] + produced.clipboard;
    ghost var before := stdout.text;
    if clipboard.Some? && provider.Some? {
      var content := clipboard.value.text;
      assert content == produced.clipboard;
      stdout.Write(env.copyEscape(provider.value, content));
    }
    ghost var escape := Escape(args.copy, provider, env, produced.clipboard);
    assert stdout.text == before + escape;
    ConcatAssoc(old(stdout.text), produced.stdout, escape);
    return 0;
  }

  // ---------------------------------------------------------------------------
  // Properties of the streaming strategy
  // ---------------------------------------------------------------------------

  /** When copying, the clipboard buffer receives exactly what standard output receives. */
  lemma {:induction false} StreamedCopyIsStdout(render: Renderer, fs: FileSystem, strip: nat, paths: seq<Path>)
    ensures Streamed(render, fs, strip, paths).clipboard == Streamed(render, fs, strip, paths).stdout
    decreases |paths|
  {
    if paths != [] {
      StreamedCopyIsStdout(render, fs, strip, paths[..|paths| - 1]);
    }
  }

  /** Paths are processed in order and independently: a list split in two streams piece by piece. */
  lemma {:induction false} StreamedAppend(render: Renderer, fs: FileSystem, strip: nat, a: seq<Path>, b: seq<Path>)
    ensures Streamed(render, fs, strip, a + b) == Concat(Streamed(render, fs, strip, a), Streamed(render, fs, strip, b))
    decreases |b|
  {
    if b == [] {
      assert a + b == a;
      var s := Streamed(render, fs, strip, a);
      assert s.stdout + [] == s.stdout && s.stderr + [] == s.stderr && s.clipboard + [] == s.clipboard;
    } else {
      var b' := b[..|b| - 1];
      assert (a + b)[..|a + b| - 1] == a + b';
      assert (a + b)[|a + b| - 1] == b[|b| - 1];
      StreamedAppend(render, fs, strip, a, b');
      var x := Streamed(render, fs, strip, a);
      var y := Streamed(render, fs, strip, b');
      var d := Delta(render, fs, strip, b[|b| - 1]);
      ConcatAssoc(x.stdout, y.stdout, d.stdout);
      ConcatAssoc(x.stderr, y.stderr, d.stderr);
      ConcatAssoc(x.clipboard, y.clipboard, d.clipboard);
    }
  }

  /**
   * An unreadable file only adds its line to standard error: standard output and the
   * clipboard buffer are what the readable files alone give, and those give no error.
   */
  lemma {:induction false} UnreadableOnlyReported(render: Renderer, fs: FileSystem, strip: nat, paths: seq<Path>)
    ensures Streamed(render, fs, strip, paths).stdout == Streamed(render, fs, strip, Readable(fs, paths)).stdout
    ensures Streamed(render, fs, strip, paths).clipboard == Streamed(render, fs, strip, Readable(fs, paths)).clipboard
    ensures Streamed(render, fs, strip, Readable(fs, paths)).stderr == []
    decreases |paths|
  {
    if paths != [] {
      var init := paths[..|paths| - 1];
      var p := paths[|paths| - 1];
      UnreadableOnlyReported(render, fs, strip, init);
      var tail := if ReadFile(fs, p).Ok? then [p] else [];
      StreamedAppend(render, fs, strip, Readable(fs, init), tail);
      if tail == [] {
        var s := Streamed(render, fs, strip, Readable(fs, init));
        assert Readable(fs, init) + tail == Readable(fs, init);
      } else {
        assert tail[..0] == [];
      }
    }
  }

  /** Standard error stays empty exactly when every path can be read. */
  lemma {:induction false} NoErrorsIffReadable(render: Renderer, fs: FileSystem, strip: nat, paths: seq<Path>)
    ensures Streamed(render, fs, strip, paths).stderr == [] <==> forall k :: 0 <= k < |paths| ==> ReadFile(fs, paths[k]).Ok?
    decreases |paths|
  {
    if paths != [] {
      var init := paths[..|paths| - 1];
      var p := paths[|paths| - 1];
      NoErrorsIffReadable(render, fs, strip, init);
      assert forall k :: 0 <= k < |init| ==> init[k] == paths[k];
      if ReadFile(fs, p).Err? {
        assert |Delta(render, fs, strip, p).stderr| > 0;
      }
    }
  }

  // ---------------------------------------------------------------------------
  // Properties of the JSON strategy
  // ---------------------------------------------------------------------------

  /**
   * The JSON entries are the readable paths in order, each under its stripped display name
   * with its content; unreadable paths are left out.
   */
  lemma {:induction false} JsonEntriesReadable(fs: FileSystem, strip: nat, paths: seq<Path>)
    ensures |JsonEntries(fs, strip, paths)| == |Readable(fs, paths)|
    ensures forall k :: 0 <= k < |Readable(fs, paths)| ==>
              JsonEntries(fs, strip, paths)[k]
              == FileEntry(Display(StripComponents(Readable(fs, paths)[k], strip)), ReadFile(fs, Readable(fs, paths)[k]).value)
    decreases |paths|
  {
    if paths != [] {
      JsonEntriesReadable(fs, strip, paths[..|paths| - 1]);
    }
  }

  /**
   * With `--format json` the file list gives one document: on standard output with a line
   * feed, in the clipboard buffer without one, and nothing on standard error.
   */
  lemma JsonFilesDocument(o: FormattingOptions, env: Env, files: seq<Path>)
    requires o.format == Json
    ensures var json := env.toJson(JsonEntries(env.fs, o.strip, Expanded(env.fs, files)));
            FilesOutput(o, env, files) == Streams(json + "\n", [], json)
  {
  }

  // ---------------------------------------------------------------------------
  // Properties of the run
  // ---------------------------------------------------------------------------

  /** Standard input is the content exactly when no file is named and `-0` is absent. */
  lemma StdinRoute(args: Args, env: Env)
    ensures ReadsStdin(args, FileList(args, env)) <==> args.files == [] && !args.nullSep
  {
  }

  /**
   * A clipboard provider that cannot be chosen ends the run with status 1 and its message,
   * before any input is read: the run is the same whatever the inputs.
   */
  lemma ProviderErrorFirst(args: Args, env: Env, env': Env)
    requires ChooseProvider(args.copy, args.clipboardProviderForTest).Err?
    ensures Run(args, env) == Outcome([], ChooseProvider(args.copy, args.clipboardProviderForTest).error + "\n", 1)
    ensures Run(args, env) == Run(args, env')
  {
  }

  /**
   * The file route never fails: an unreadable file is only reported on standard error and
   * the run still exits with status 0.
   */
  lemma FilesRouteSucceeds(args: Args, env: Env)
    requires ChooseProvider(args.copy, args.clipboardProviderForTest).Ok?
    requires !ReadsStdin(args, FileList(args, env))
    ensures Produced(args, env).Ok?
    ensures Run(args, env).exitCode == 0 && Run(args, env).stderr == Produced(args, env).value.stderr
  {
  }

  /** Standard input that is not UTF-8 ends the run with status 1 and nothing on standard output. */
  lemma StdinNotUtf8Fails(args: Args, env: Env)
    requires ChooseProvider(args.copy, args.clipboardProviderForTest).Ok?
    requires args.files == [] && !args.nullSep && env.stdinText.None?
    ensures Run(args, env) == Outcome([], ErrorReport(StdinNotUtf8) + "\n", 1)
  {
  }

  /** Standard input is formatted under the display name `-`, whatever the strip count. */
  lemma StdinUnderDash(args: Args, env: Env)
    requires args.files == [] && !args.nullSep && env.stdinText.Some?
    requires FormatterOf(Options(args, env)).Some?
    ensures var out := Render(FormatterOf(Options(args, env)).value, env.registry, env.engine, StdinPath, env.stdinText.value);
            Produced(args, env) == Ok(Streams(out, [], out))
  {
  }

  /** With `-0` and no path at all, the file route still runs and writes nothing. */
  lemma NulWithoutPaths(args: Args, env: Env)
    requires args.nullSep && args.files == [] && NulSegments(env.stdin) == []
    requires Options(args, env).format != Json
    ensures Produced(args, env) == Ok(Streams([], [], []))
  {
    assert FileList(args, env) == [];
  }

  /** Outside JSON mode the clipboard buffer holds exactly the formatted output. */
  lemma CopyMirrorsOutput(args: Args, env: Env)
    requires Options(args, env).format != Json && Produced(args, env).Ok?
    ensures Produced(args, env).value.clipboard == Produced(args, env).value.stdout
  {
    var files := FileList(args, env);
    if !ReadsStdin(args, files) {
      var o := Options(args, env);
      StreamedCopyIsStdout(RendererOf(FormatterOf(o).value, env), env.fs, o.strip, Expanded(env.fs, files));
    }
  }

  /** In JSON mode the clipboard buffer holds the document without the final line feed. */
  lemma JsonCopyLacksNewline(args: Args, env: Env)
    requires Options(args, env).format == Json && Produced(args, env).Ok?
    ensures Produced(args, env).value.stdout == Produced(args, env).value.clipboard + "\n"
    ensures Produced(args, env).value.stderr == []
  {
  }

  /**
   * With a provider, the escape carrying the clipboard buffer is written once, after all
   * other output, and the run succeeds; without `copy` nothing is added.
   */
  lemma EscapeLast(args: Args, env: Env)
    requires ChooseProvider(args.copy, args.clipboardProviderForTest).Ok? && Produced(args, env).Ok?
    ensures var s := Produced(args, env).value;
            var provider := ChooseProvider(args.copy, args.clipboardProviderForTest).value;
            && Run(args, env).exitCode == 0
            && Run(args, env).stderr == s.stderr
            && (args.copy ==> Run(args, env).stdout == s.stdout + env.copyEscape(provider.value, s.clipboard))
            && (!args.copy ==> Run(args, env).stdout == s.stdout)
  {
  }
}
