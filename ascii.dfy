/** The `ascii` format: a `=== path ===` header line, then the content lines, optionally numbered. */
module AsciiFormat {
  import opened Text
  import opened Paths
  import opened Sink

  /** Separator between the line number and the line. */
  const NumberSeparator: string := " | "

  function Header(p: Path): string
  {
    "=== " + Display(p) + " ==="
  }

  /** The rows written: the header, then one row per line of the content. */
  function Rows(lineNumbers: bool, p: Path, content: string): seq<string>
  {
    [Header(p)] + Body(lineNumbers, Lines(content), NumberSeparator)
  }

  function Output(lineNumbers: bool, p: Path, content: string): string
  {
    Terminated(Rows(lineNumbers, p, content))
  }

  /** `Ascii::write`. */
  method Write(lineNumbers: bool, p: Path, content: string, w: Writer)
    modifies w
    ensures w.text == old(w.text) + Output(lineNumbers, p, content)
  {
    ghost var pre := w.text;
    w.WriteLine(Header(p));
    FirstRow(pre, Header(p));
    WriteBody(lineNumbers, Lines(content), NumberSeparator, w);
    NextRows(pre, [Header(p)], Body(lineNumbers, Lines(content), NumberSeparator));
  }

  /** The first row is the header; then exactly one row per content line, in order. */
  lemma RowsLayout(lineNumbers: bool, p: Path, content: string)
    ensures |Rows(lineNumbers, p, content)| == 1 + |Lines(content)|
    ensures Rows(lineNumbers, p, content)[0] == "=== " + Display(p) + " ==="
    ensures !lineNumbers ==> Rows(lineNumbers, p, content)[1..] == Lines(content)
  {
    assert Rows(lineNumbers, p, content)[1..] == Body(lineNumbers, Lines(content), NumberSeparator);
  }

  /**
   * Line `k + 1` prints as its number right-aligned to the width of the line count, then
   * `" | "`, then the line; all numbers take the same width.
   */
  lemma NumberedRow(p: Path, content: string, k: nat)
    requires k < |Lines(content)|
    ensures DecimalLength(k + 1) <= DecimalLength(|Lines(content)|)
    ensures Rows(true, p, content)[k + 1]
            == Spaces(DecimalLength(|Lines(content)|) - DecimalLength(k + 1)) + NatToString(k + 1) + " | " + Lines(content)[k]
    ensures |Gutter(k + 1, |Lines(content)|)| == DecimalLength(|Lines(content)|)
  {
    BodyRows(true, Lines(content), NumberSeparator, k);
    GutterShape(k + 1, |Lines(content)|);
  }

  /**
   * Without numbers the format is the content itself under the header: a text whose lines
   * end in line feeds (and holds no CR LF) is written back byte for byte, and a missing final
   * line feed is added.
   */
  lemma {:induction false} PlainIsContent(p: Path, content: string)
    requires NoCrLf(content)
    ensures Output(false, p, content)
            == Header(p) + "\n" + (if content == [] || content[|content| - 1] == '\n' then content else content + "\n")
  {
    TerminatedCons(Header(p), Lines(content));
    TerminatedOfLines(content);
  }
}
