/**
 * `OutputFormat::into_formatter`: the formatter for each output format, with the settings
 * each one receives, and the dispatch of `Formatter::write` to the six formatters.
 */
module Formats {
  import opened Wrappers
  import opened Paths
  import opened Sink
  import opened Cli
  import AsciiFormat
  import MarkdownFormat
  import XmlFormat
  import AnsiFormat
  import Utf8Format
  import PrettyFormat

  /** The six formatter structs, with the fields each carries. */
  datatype Formatter =
    | AnsiFormatter(width: nat, lineNumbers: bool)
    | XmlFormatter(lineNumbers: bool)
    | MarkdownFormatter(lineNumbers: bool)
    | AsciiFormatter(lineNumbers: bool)
    | Utf8Formatter(width: nat, lineNumbers: bool)
    | PrettyFormatter(lineNumbers: bool, syntaxOverride: Option<string>)

  /** The output format a formatter implements. */
  function KindOf(f: Formatter): (k: OutputFormat)
    ensures k != Json
  {
    match f
    case AnsiFormatter(_, _) => Ansi
    case XmlFormatter(_) => Xml
    case MarkdownFormatter(_) => Markdown
    case AsciiFormatter(_) => Ascii
    case Utf8Formatter(_, _) => Utf8
    case PrettyFormatter(_, _) => Pretty
  }

  /**
   * `into_formatter`: `None` exactly for `Json`, and otherwise a formatter of the same kind
   * that gets the line-numbers flag; the ANSI box gets the ANSI width, the UTF-8 box the UTF-8
   * width, and only the pretty formatter gets the syntax override.
   */
  function IntoFormatter(format: OutputFormat, ansiWidth: nat, utf8Width: nat, ln: bool, prettySyntax: Option<string>)
    : (r: Option<Formatter>)
    ensures r.None? <==> format == Json
    ensures r.Some? ==> KindOf(r.value) == format && r.value.lineNumbers == ln
    ensures r.Some? && r.value.AnsiFormatter? ==> r.value.width == ansiWidth
    ensures r.Some? && r.value.Utf8Formatter? ==> r.value.width == utf8Width
    ensures r.Some? && r.value.PrettyFormatter? ==> r.value.syntaxOverride == prettySyntax
  {
    match format
    case Ansi => Some(AnsiFormatter(ansiWidth, ln))
    case Xml => Some(XmlFormatter(ln))
    case Markdown => Some(MarkdownFormatter(ln))
    case Ascii => Some(AsciiFormatter(ln))
    case Utf8 => Some(Utf8Formatter(utf8Width, ln))
    case Pretty => Some(PrettyFormatter(ln, prettySyntax))
    case Json => None
  }

  /** The width setting a formatter of its kind would have been given, or 0 for none. */
  function AnsiWidthOf(f: Formatter): nat
  {
    if f.AnsiFormatter? then f.width else 0
  }

  function Utf8WidthOf(f: Formatter): nat
  {
    if f.Utf8Formatter? then f.width else 0
  }

  function SyntaxOf(f: Formatter): Option<string>
  {
    if f.PrettyFormatter? then f.syntaxOverride else None
  }

  /** Every formatter is what `into_formatter` makes from its kind and its own settings. */
  lemma IntoFormatterOfKind(f: Formatter)
    ensures IntoFormatter(KindOf(f), AnsiWidthOf(f), Utf8WidthOf(f), f.lineNumbers, SyntaxOf(f)) == Some(f)
  {
  }

  /**
   * A formatter depends only on the settings of its own kind: the ANSI width matters only to
   * `Ansi`, the UTF-8 width only to `Utf8` and the syntax override only to `Pretty`.
   */
  lemma OnlyOwnSettings(format: OutputFormat, a: nat, a': nat, u: nat, u': nat, ln: bool, s: Option<string>, s': Option<string>)
    ensures IntoFormatter(format, a, u, ln, s)
            == IntoFormatter(format, if format == Ansi then a else a', if format == Utf8 then u else u',
                             ln, if format == Pretty then s else s')
  {
  }

  /** `Formatter::write`, as a function of the display path and the content. */
  function Render(f: Formatter, reg: PrettyFormat.Registry, engine: PrettyFormat.Engine, p: Path, content: string): string
  {
    match f
    case AnsiFormatter(width, ln) => AnsiFormat.Output(width, ln, p, content)
    case XmlFormatter(ln) => XmlFormat.Output(ln, p, content)
    case MarkdownFormatter(ln) => MarkdownFormat.Output(ln, p, content)
    case AsciiFormatter(ln) => AsciiFormat.Output(ln, p, content)
    case Utf8Formatter(width, ln) => Utf8Format.Output(width, ln, p, content)
    case PrettyFormatter(ln, syntax) => PrettyFormat.Output(reg, engine, ln, syntax, p, content)
  }

  /** `Formatter::write` through the boxed trait object: the formatter's own `write`. */
  method Write(f: Formatter, reg: PrettyFormat.Registry, engine: PrettyFormat.Engine, p: Path, content: string, w: Writer)
    modifies w
    ensures w.text == old(w.text) + Render(f, reg, engine, p, content)
  {
    match f
    case AnsiFormatter(width, ln) => AnsiFormat.Write(width, ln, p, content, w);
    case XmlFormatter(ln) => XmlFormat.Write(ln, p, content, w);
    case MarkdownFormatter(ln) => MarkdownFormat.Write(ln, p, content, w);
    case AsciiFormatter(ln) => AsciiFormat.Write(ln, p, content, w);
    case Utf8Formatter(width, ln) => Utf8Format.Write(width, ln, p, content, w);
    case PrettyFormatter(ln, syntax) => PrettyFormat.Write(reg, engine, ln, syntax, p, content, w);
  }
}
