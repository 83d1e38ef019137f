/**
 * The `utf8` format: the same box as `ansi`, with one trailing space in the header,
 * ` File: <path> `.
 */
module Utf8Format {
  import opened Wrappers
  import opened Text
  import opened Paths
  import opened Sink
  import BoxLayout

  function Header(p: Path): string
  {
    " File: " + Display(p) + " "
  }

  function Output(width: nat, lineNumbers: bool, p: Path, content: string): string
  {
    BoxLayout.Output(width, lineNumbers, Header(p), content)
  }

  /** `Utf8::write`. */
  method Write(width: nat, lineNumbers: bool, p: Path, content: string, w: Writer)
    modifies w
    ensures w.text == old(w.text) + Output(width, lineNumbers, p, content)
  {
    BoxLayout.Write(width, lineNumbers, Header(p), content, w);
  }

  /**
   * The header row is the header, ` File: <path> `, padded with spaces to the interior width, which is
   * never narrower than the configured width nor than the header.
   */
  lemma HeaderRow(width: nat, lineNumbers: bool, p: Path, content: string)
    ensures var n := BoxLayout.Interior(width, Header(p), BoxLayout.Rendered(lineNumbers, content));
            && n >= width && n >= ByteLen(Header(p))
            && BoxLayout.Rows(width, lineNumbers, Header(p), content)[1]
               == [BoxLayout.Vertical] + BoxLayout.Padded(Header(p), n) + [BoxLayout.Vertical]
            && BoxLayout.Padded(Header(p), n) == Header(p) + Spaces(n - ByteLen(Header(p)))
  {
    BoxLayout.HeaderRow(width, lineNumbers, Header(p), content);
  }

  /** The header takes 8 bytes besides the displayed path. */
  lemma HeaderLength(p: Path)
    ensures ByteLen(Header(p)) == ByteLen(Display(p)) + 8
  {
    var tag := " File: ";
    assert Header(p) == tag + Display(p) + " ";
    ByteLenAppend(tag, Display(p));
    ByteLenAppend(tag + Display(p), " ");
    ByteLenAscii(tag);
    ByteLenAscii(" ");
  }
}
