/** The `dyn Write` a formatter writes into: an in-memory stream that is only ever appended to. */
module Sink {
  import opened Text

  class Writer {
    /** Everything written so far. */
    var text: string

    constructor ()
      ensures text == []
    {
      text := [];
    }

    /** `write!`: appends `s` as it is. */
    method Write(s: string)
      modifies this
      ensures text == old(text) + s
    {
      text := text + s;
    }

    /** `writeln!`: appends `s` and a line feed. */
    method WriteLine(s: string)
      modifies this
      ensures text == old(text) + s + "\n"
    {
      text := text + s + "\n";
    }
  }

  /**
   * The loop the line-oriented formatters share: one `writeln!` per line, either the line
   * itself or `{:>w$}` of its number (from 1), `sep`, then the line, with `w` the digit
   * count of the number of lines.
   */
  method WriteBody(lineNumbers: bool, ls: seq<string>, sep: string, w: Writer)
    modifies w
    ensures w.text == old(w.text) + Terminated(Body(lineNumbers, ls, sep))
  {
    var total := |ls|;
    var width := if lineNumbers then |NatToString(total)| else 0;
    NatToStringLength(total);
    ghost var digits := DecimalLength(total);
    ghost var body := Body(lineNumbers, ls, sep);
    var i := 0;
    while i < |ls|
      invariant 0 <= i <= |ls|
      invariant w.text == old(w.text) + Terminated(body[..i])
    {
      var row;
      if lineNumbers {
        row := PadLeft(NatToString(i + 1), width) + sep + ls[i];
      } else {
        row := ls[i];
      }
      BodyAt(lineNumbers, ls, sep, digits, i);
      w.WriteLine(row);
      NextRowAt(old(w.text), body, i);
      i := i + 1;
    }
    assert body[..i] == body;
  }

  // The three steps by which a formatter's writes build up `Terminated(rows)` after the
  // text `pre` that was there before.

  lemma FirstRow(pre: string, row: string)
    ensures pre + row + "\n" == pre + Terminated([row])
  {
  }

  lemma NextRow(pre: string, done: seq<string>, row: string)
    ensures pre + Terminated(done) + row + "\n" == pre + Terminated(done + [row])
  {
    assert (done + [row])[..|done|] == done;
  }

  lemma NextRowAt(pre: string, rows: seq<string>, i: nat)
    requires i < |rows|
    ensures pre + Terminated(rows[..i]) + rows[i] + "\n" == pre + Terminated(rows[..i + 1])
  {
    NextRow(pre, rows[..i], rows[i]);
    assert rows[..i] + [rows[i]] == rows[..i + 1];
  }

  lemma NextRows(pre: string, done: seq<string>, more: seq<string>)
    ensures pre + Terminated(done) + Terminated(more) == pre + Terminated(done + more)
  {
    TerminatedAppend(done, more);
  }
}
