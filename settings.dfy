/**
 * The settings a run formats with: the configuration file's values, and their merge with
 * the command line and the built-in defaults (command line, then configuration file, then
 * default, field by field).
 */
module Settings {
  import opened Wrappers
  import opened Cli

  /** `Config`: the optional values of `config.toml`, every one absent by default. */
  datatype Config = Config(
    format: Option<OutputFormat>,
    numbers: Option<bool>,
    strip: Option<nat>,
    ansiWidth: Option<nat>,
    utf8Width: Option<nat>,
    prettySyntax: Option<string>)

  const DefaultConfig: Config := Config(None, None, None, None, None, None)

  /** The width both box layouts take when neither the command line nor the file sets one. */
  const DefaultWidth: nat := 80

  /** The format used when neither the command line nor the file names one. */
  const DefaultFormat: OutputFormat := Markdown

  /**
   * `load_config`: `file` is the text of the configuration file when the configuration
   * directory and the file exist (an unreadable file reads as the empty text), and `parse`
   * is the TOML decoder, `None` on malformed input. Anything that goes wrong gives the default.
   */
  function LoadConfig(file: Option<string>, parse: string -> Option<Config>): (c: Config)
    ensures file.None? ==> c == DefaultConfig
    ensures file.Some? && parse(file.value).Some? ==> c == parse(file.value).value
    ensures file.Some? && parse(file.value).None? ==> c == DefaultConfig
  {
    match file
    case None => DefaultConfig
    case Some(text) => parse(text).UnwrapOr(DefaultConfig)
  }

  /** `FormattingOptions`: every setting resolved. */
  datatype FormattingOptions = FormattingOptions(
    format: OutputFormat,
    lineNumbers: bool,
    strip: nat,
    prettySyntax: Option<string>,
    ansiWidth: nat,
    utf8Width: nat)

  /** The three-level choice of one setting: the command line's, else the file's, else `default`. */
  function Pick<T>(cli: Option<T>, file: Option<T>, default: T): (r: T)
    ensures cli.Some? ==> r == cli.value
    ensures cli.None? && file.Some? ==> r == file.value
    ensures cli.None? && file.None? ==> r == default
  {
    cli.Or(file).UnwrapOr(default)
  }

  /**
   * The settings merge of `main`. Each setting is resolved on its own by the same precedence:
   * command line, configuration file, default (Markdown, no stripping, width 80, no syntax
   * override). Line numbers are on when the flag is given or the file turns them on, so a file
   * value of `true` cannot be switched off from the command line.
   */
  function Merge(args: Args, config: Config): (o: FormattingOptions)
    ensures o.format == Pick(args.format, config.format, DefaultFormat)
    ensures o.strip == Pick(args.strip, config.strip, 0)
    ensures o.ansiWidth == Pick(args.ansiWidth, config.ansiWidth, DefaultWidth)
    ensures o.utf8Width == Pick(args.utf8Width, config.utf8Width, DefaultWidth)
    ensures args.prettySyntax.Some? ==> o.prettySyntax == args.prettySyntax
    ensures args.prettySyntax.None? ==> o.prettySyntax == config.prettySyntax
    ensures o.lineNumbers <==> args.lineNumbers || config.numbers == Some(true)
  {
    FormattingOptions(
      args.format.Or(config.format).UnwrapOr(DefaultFormat),
      args.lineNumbers || config.numbers.UnwrapOr(false),
      args.strip.Or(config.strip).UnwrapOr(0),
      args.prettySyntax.Or(config.prettySyntax),
      args.ansiWidth.Or(config.ansiWidth).UnwrapOr(DefaultWidth),
      args.utf8Width.Or(config.utf8Width).UnwrapOr(DefaultWidth))
  }

  /** Without a configuration file the command line alone decides, with the built-in defaults. */
  lemma DefaultsWithoutConfig(args: Args)
    ensures var o := Merge(args, LoadConfig(None, _ => None));
            && o.format == args.format.UnwrapOr(Markdown)
            && o.lineNumbers == args.lineNumbers
            && o.strip == args.strip.UnwrapOr(0)
            && o.prettySyntax == args.prettySyntax
            && o.ansiWidth == args.ansiWidth.UnwrapOr(80)
            && o.utf8Width == args.utf8Width.UnwrapOr(80)
  {
  }
}
