/**
 * The `pretty` format: syntax highlighting with terminal colour escapes. The syntax is
 * chosen by a four-tier cascade (override, modeline, extension, plain text); the syntax
 * registry and the highlighter are oracles.
 */
module PrettyFormat {
  import opened Wrappers
  import opened Text
  import opened Paths
  import opened Sink
  import Modeline

  /** Separator between the line number and the highlighted line. */
  const NumberSeparator: string := [' ', '\U{2502}', ' ']

  // ---------------------------------------------------------------------------
  // Syntax selection
  // ---------------------------------------------------------------------------

  /** A syntax definition of the registry; only its identity matters here. */
  datatype Syntax = Syntax(name: string)

  /**
   * The bundled syntax registry: what `find_syntax_by_token` and `find_syntax_by_extension`
   * find for a name, and the plain-text syntax.
   */
  datatype Registry = Registry(byToken: map<string, Syntax>, byExtension: map<string, Syntax>, plainText: Syntax)

  function FindByToken(reg: Registry, token: string): Option<Syntax>
  {
    if token in reg.byToken then Some(reg.byToken[token]) else None
  }

  function FindByExtension(reg: Registry, ext: string): Option<Syntax>
  {
    if ext in reg.byExtension then Some(reg.byExtension[ext]) else None
  }

  /** A name, when there is one, looked up by token. */
  function ByToken(reg: Registry, name: Option<string>): Option<Syntax>
  {
    if name.Some? then FindByToken(reg, name.value) else None
  }

  /** Whether `name` is present and names a syntax of the registry. */
  predicate Recognised(reg: Registry, name: Option<string>)
  {
    name.Some? && name.value in reg.byToken
  }

  /**
   * The cascade: the override if the registry knows it, else the modeline name if the
   * registry knows it, else the syntax for the extension, else plain text.
   */
  function Cascade(reg: Registry, override: Option<string>, modeline: Option<string>, ext: string): (r: Syntax)
    ensures Recognised(reg, override) ==> r == reg.byToken[override.value]
    ensures !Recognised(reg, override) && Recognised(reg, modeline) ==> r == reg.byToken[modeline.value]
    ensures !Recognised(reg, override) && !Recognised(reg, modeline) && ext in reg.byExtension
            ==> r == reg.byExtension[ext]
    ensures !Recognised(reg, override) && !Recognised(reg, modeline) && ext !in reg.byExtension
            ==> r == reg.plainText
  {
    ByToken(reg, override).Or(ByToken(reg, modeline)).Or(FindByExtension(reg, ext)).UnwrapOr(reg.plainText)
  }

  /** The syntax `Pretty::write` highlights a file with. */
  function SelectSyntax(reg: Registry, override: Option<string>, p: Path, content: string): Syntax
  {
    Cascade(reg, override, Modeline.ModelineSyntax(Lines(content)), ExtensionOrEmpty(p))
  }

  /** An override the registry does not know is ignored, with no error. */
  lemma UnknownOverrideIgnored(reg: Registry, override: Option<string>, p: Path, content: string)
    requires override.Some? && override.value !in reg.byToken
    ensures SelectSyntax(reg, override, p, content) == SelectSyntax(reg, None, p, content)
  {
  }

  /**
   * A modeline name the registry does not know sends the choice to the extension: no other
   * modeline line is tried, even one that names a known syntax.
   */
  lemma UnknownModelineUsesExtension(reg: Registry, override: Option<string>, p: Path, content: string, k: nat)
    requires !Recognised(reg, override)
    requires Modeline.ModelineSyntax(Lines(content)).Some? && !Recognised(reg, Modeline.ModelineSyntax(Lines(content)))
    requires k < |Lines(content)| && Recognised(reg, Modeline.Find(Lines(content)[k]))
    ensures SelectSyntax(reg, override, p, content) == FindByExtension(reg, ExtensionOrEmpty(p)).UnwrapOr(reg.plainText)
  {
  }

  // ---------------------------------------------------------------------------
  // Highlighting
  // ---------------------------------------------------------------------------

  /**
   * What highlighting `line` with a syntax gives after the lines already fed to the same
   * highlighter: the line with 24-bit colour escapes, or `None` when highlighting fails.
   */
  type Engine = (Syntax, seq<string>, string) -> Option<string>

  /** `HighlightLines`: a highlighter for one syntax that keeps its parse state from line to line. */
  class Highlighter {
    const syntax: Syntax
    const engine: Engine
    /** The lines highlighted so far, in order. */
    var fed: seq<string>

    constructor (syntax: Syntax, engine: Engine)
      ensures this.syntax == syntax && this.engine == engine && fed == []
    {
      this.syntax := syntax;
      this.engine := engine;
      fed := [];
    }

    /** `highlight_line` followed by `as_24_bit_terminal_escaped`. */
    method HighlightLine(line: string) returns (r: Option<string>)
      modifies this
      ensures fed == old(fed) + [line]
      ensures r == engine(syntax, old(fed), line)
    {
      r := engine(syntax, fed, line);
      fed := fed + [line];
    }
  }

  /** What is printed for each line: its highlighting, or the line itself when that fails. */
  function Escaped(engine: Engine, syntax: Syntax, ls: seq<string>): (r: seq<string>)
    ensures |r| == |ls|
    ensures forall k :: 0 <= k < |ls| ==> r[k] == engine(syntax, ls[..k], ls[k]).UnwrapOr(ls[k])
  {
    seq(|ls|, k requires 0 <= k < |ls| => engine(syntax, ls[..k], ls[k]).UnwrapOr(ls[k]))
  }

  function Rows(reg: Registry, engine: Engine, lineNumbers: bool, override: Option<string>, p: Path, content: string): seq<string>
  {
    var ls := Lines(content);
    Body(lineNumbers, Escaped(engine, SelectSyntax(reg, override, p, content), ls), NumberSeparator)
  }

  function Output(reg: Registry, engine: Engine, lineNumbers: bool, override: Option<string>, p: Path, content: string): string
  {
    Terminated(Rows(reg, engine, lineNumbers, override, p, content))
  }

  /** `Pretty::write`. */
  method Write(reg: Registry, engine: Engine, lineNumbers: bool, override: Option<string>, p: Path, content: string, w: Writer)
    modifies w
    ensures w.text == old(w.text) + Output(reg, engine, lineNumbers, override, p, content)
  {
    var modeline := Modeline.FindSyntaxFromModeline(content);
    var syntax := Cascade(reg, override, modeline, ExtensionOrEmpty(p));
    var h := new Highlighter(syntax, engine);
    WriteLines(lineNumbers, Lines(content), h, w);
  }

  /** The two loops of `Pretty::write`: one highlighted line per content line. */
  method WriteLines(lineNumbers: bool, ls: seq<string>, h: Highlighter, w: Writer)
    requires h.fed == []
    modifies h, w
    ensures h.fed == ls
    ensures w.text == old(w.text) + Terminated(Body(lineNumbers, Escaped(h.engine, h.syntax, ls), NumberSeparator))
  {
    ghost var esc := Escaped(h.engine, h.syntax, ls);
    ghost var rows := Body(lineNumbers, esc, NumberSeparator);
    var digits := if lineNumbers then |NatToString(|ls|)| else 0;
    NatToStringLength(|ls|);
    var i := 0;
    while i < |ls|
      invariant 0 <= i <= |ls|
      invariant h.fed == ls[..i]
      invariant w.text == old(w.text) + Terminated(rows[..i])
    {
      var highlighted := h.HighlightLine(ls[i]);
      var escaped := match highlighted
        case Some(s) => s
        case None => ls[i];
      BodyAt(lineNumbers, esc, NumberSeparator, DecimalLength(|ls|), i);
      if lineNumbers {
        w.WriteLine(PadLeft(NatToString(i + 1), digits) + NumberSeparator + escaped);
      } else {
        w.WriteLine(escaped);
      }
      NextRowAt(old(w.text), rows, i);
      PrefixSnoc(ls, i);
      i := i + 1;
    }
    assert ls[..i] == ls;
    assert rows[..i] == rows;
  }

  // ---------------------------------------------------------------------------
  // Properties
  // ---------------------------------------------------------------------------

  /**
   * One output line per content line, in order: line `k` is its highlighting after the `k`
   * lines before it, or the plain line when highlighting fails, numbered as `{k:>w$} │ ` with
   * `w` the digit count of the line count.
   */
  lemma {:induction false} RowAt(reg: Registry, engine: Engine, lineNumbers: bool, override: Option<string>, p: Path, content: string, k: nat)
    requires k < |Lines(content)|
    ensures var ls := Lines(content);
            var text := engine(SelectSyntax(reg, override, p, content), ls[..k], ls[k]).UnwrapOr(ls[k]);
            && |Rows(reg, engine, lineNumbers, override, p, content)| == |ls|
            && Rows(reg, engine, lineNumbers, override, p, content)[k]
               == if lineNumbers then PadLeft(NatToString(k + 1), DecimalLength(|ls|)) + NumberSeparator + text else text
  {
    var ls := Lines(content);
    var esc := Escaped(engine, SelectSyntax(reg, override, p, content), ls);
    BodyAt(lineNumbers, esc, NumberSeparator, DecimalLength(|ls|), k);
  }

  /**
   * When highlighting fails on every line, the unnumbered output is the content itself, with
   * a final line feed added when missing (for a text without CR LF).
   */
  lemma {:induction false} PlainWhenHighlightingFails(reg: Registry, engine: Engine, override: Option<string>, p: Path, content: string)
    requires forall s, fed, line :: engine(s, fed, line).None?
    requires NoCrLf(content)
    ensures Output(reg, engine, false, override, p, content)
            == if content == [] || content[|content| - 1] == '\n' then content else content + "\n"
  {
    var ls := Lines(content);
    var esc := Escaped(engine, SelectSyntax(reg, override, p, content), ls);
    assert esc == ls;
    TerminatedOfLines(content);
  }
}
