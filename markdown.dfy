/**
 * The `markdown` format (the default): a `---` / `File:` / `---` banner, then the content in a
 * fenced code block whose info string is the path's extension.
 */
module MarkdownFormat {
  import opened Text
  import opened Paths
  import opened Sink

  /** Separator between the line number and the line: a single space. */
  const NumberSeparator: string := " "

  const FenceMark: string := "```"

  /** The banner, written by one `writeln!` as three lines. */
  function Banner(p: Path): string
  {
    "---\nFile: " + Display(p) + "\n---"
  }

  /** The opening fence, tagged with the extension, or bare when there is none. */
  function OpeningFence(p: Path): string
  {
    FenceMark + ExtensionOrEmpty(p)
  }

  function Rows(lineNumbers: bool, p: Path, content: string): seq<string>
  {
    [Banner(p)] + [OpeningFence(p)] + Body(lineNumbers, Lines(content), NumberSeparator) + [FenceMark]
  }

  function Output(lineNumbers: bool, p: Path, content: string): string
  {
    Terminated(Rows(lineNumbers, p, content))
  }

  /** `Markdown::write`. */
  method Write(lineNumbers: bool, p: Path, content: string, w: Writer)
    modifies w
    ensures w.text == old(w.text) + Output(lineNumbers, p, content)
  {
    ghost var pre := w.text;
    w.WriteLine(Banner(p));
    FirstRow(pre, Banner(p));
    w.WriteLine(OpeningFence(p));
    NextRow(pre, [Banner(p)], OpeningFence(p));
    ghost var body := Body(lineNumbers, Lines(content), NumberSeparator);
    WriteBody(lineNumbers, Lines(content), NumberSeparator, w);
    NextRows(pre, [Banner(p)] + [OpeningFence(p)], body);
    w.WriteLine(FenceMark);
    NextRow(pre, [Banner(p)] + [OpeningFence(p)] + body, FenceMark);
  }

  /**
   * The output is the banner, the opening fence with the extension, the body lines, and the
   * closing fence, each ending in a line feed.
   */
  lemma OutputLayout(lineNumbers: bool, p: Path, content: string)
    ensures Output(lineNumbers, p, content)
            == Banner(p) + "\n" + OpeningFence(p) + "\n"
               + Terminated(Body(lineNumbers, Lines(content), NumberSeparator)) + FenceMark + "\n"
  {
    Framed(Banner(p), OpeningFence(p), Body(lineNumbers, Lines(content), NumberSeparator), FenceMark);
  }

  lemma Framed(a: string, b: string, body: seq<string>, c: string)
    ensures Terminated([a] + [b] + body + [c]) == a + "\n" + b + "\n" + Terminated(body) + c + "\n"
  {
    var h := [a] + [b];
    assert [a][..0] == [] && h[..1] == [a];
    assert Terminated([a]) == a + "\n";
    assert Terminated(h) == a + "\n" + b + "\n";
    var x := h + body;
    assert (x + [c])[..|x|] == x;
    TerminatedAppend(h, body);
    assert Terminated(x + [c]) == Terminated(h) + Terminated(body) + c + "\n";
  }

  /** There is one body row per content line; numbered rows are `{i:>w$} {line}`. */
  lemma BodyLayout(p: Path, content: string, k: nat)
    requires k < |Lines(content)|
    ensures |Rows(true, p, content)| == |Lines(content)| + 3
    ensures Rows(false, p, content)[k + 2] == Lines(content)[k]
    ensures DecimalLength(k + 1) <= DecimalLength(|Lines(content)|)
    ensures Rows(true, p, content)[k + 2]
            == Spaces(DecimalLength(|Lines(content)|) - DecimalLength(k + 1)) + NatToString(k + 1) + NumberSeparator + Lines(content)[k]
  {
    var ls := Lines(content);
    BodyRows(true, ls, NumberSeparator, k);
    BodyRows(false, ls, NumberSeparator, k);
    RowsAt(true, p, content, k);
    RowsAt(false, p, content, k);
  }

  lemma RowsAt(lineNumbers: bool, p: Path, content: string, k: nat)
    requires k < |Body(lineNumbers, Lines(content), NumberSeparator)|
    ensures |Rows(lineNumbers, p, content)| == |Body(lineNumbers, Lines(content), NumberSeparator)| + 3
    ensures Rows(lineNumbers, p, content)[k + 2] == Body(lineNumbers, Lines(content), NumberSeparator)[k]
  {
    var body := Body(lineNumbers, Lines(content), NumberSeparator);
    var head := [Banner(p)] + [OpeningFence(p)];
    assert Rows(lineNumbers, p, content) == head + body + [FenceMark];
    assert (head + body + [FenceMark])[k + 2] == (head + body)[k + 2] == body[k];
  }

  /**
   * Without numbers the fenced block holds the content byte for byte (for a text without
   * CR LF), with a line feed added before the closing fence when the content lacked one.
   */
  lemma {:induction false} PlainIsFenced(p: Path, content: string)
    requires NoCrLf(content)
    ensures Output(false, p, content)
            == "---\nFile: " + Display(p) + "\n---\n" + "```" + ExtensionOrEmpty(p) + "\n"
               + (if content == [] || content[|content| - 1] == '\n' then content else content + "\n") + "```\n"
  {
    OutputLayout(false, p, content);
    TerminatedOfLines(content);
    HeadText(p);
    ConcatAssoc(Banner(p) + "\n" + OpeningFence(p) + "\n" + Terminated(Lines(content)), FenceMark, "\n");
  }

  /**
   * The banner and the opening fence, each with its line feed, spelled out. Kept apart so that
   * `PlainIsFenced` does not search for this regrouping among its other facts.
   */
  lemma HeadText(p: Path)
    ensures Banner(p) + "\n" + OpeningFence(p) + "\n"
            == "---\nFile: " + Display(p) + "\n---\n" + "```" + ExtensionOrEmpty(p) + "\n"
  {
  }

  /** Standard input has the display name `-` and no extension, so the fence is bare. */
  lemma StdinOutput(x: string)
    requires x != [] && '\n' !in x
    ensures Output(false, StdinPath, x) == "---\nFile: -\n---\n```\n" + x + "\n```\n"
  {
    assert Display(StdinPath) == "-";
    assert ExtensionOrEmpty(StdinPath) == "";
    assert NoCrLf(x);
    PlainIsFenced(StdinPath, x);
  }
}
