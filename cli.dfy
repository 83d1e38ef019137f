/** The invocation: the seven output formats and the resolved command-line arguments. */
module Cli {
  import opened Wrappers
  import opened Paths

  /** `OutputFormat`, as `--format` and the configuration file name them. */
  datatype OutputFormat = Ansi | Xml | Json | Markdown | Ascii | Utf8 | Pretty

  /**
   * `Args` after the command line was resolved: the positional files in order, and each
   * option as given or absent. `copy` and `clipboardProviderForTest` are the clipboard
   * build's two extra fields.
   */
  datatype Args = Args(
    files: seq<Path>,
    format: Option<OutputFormat>,
    ansiWidth: Option<nat>,
    utf8Width: Option<nat>,
    lineNumbers: bool,
    nullSep: bool,
    strip: Option<nat>,
    prettySyntax: Option<string>,
    copy: bool,
    clipboardProviderForTest: Option<string>)
}
