/**
 * The box that the `ansi` and `utf8` formats draw around a file: a top border, the header
 * row, a separator, one row per content line and a bottom border. All widths are byte
 * lengths (`str::len()`), as in the source; the drawing characters take three bytes each.
 */
module BoxLayout {
  import opened Wrappers
  import opened Text
  import opened Sink

  const Horizontal: char := '\U{2500}'
  const Vertical: char := '\U{2502}'
  const TopLeft: char := '\U{250C}'
  const TopRight: char := '\U{2510}'
  const TeeLeft: char := '\U{251C}'
  const TeeRight: char := '\U{2524}'
  const BottomLeft: char := '\U{2514}'
  const BottomRight: char := '\U{2518}'

  /** Separator between the line number and the line in a numbered box row. */
  const NumberSeparator: string := [' ', Vertical, ' ']

  // ---------------------------------------------------------------------------
  // pad
  // ---------------------------------------------------------------------------

  /** The number of spaces `pad` appends: what `s` lacks of `width` bytes, none if it lacks nothing. */
  function Fill(s: string, width: nat): nat
  {
    if ByteLen(s) < width then width - ByteLen(s) else 0
  }

  /** `pad(s, width)`: `s` followed by spaces up to `width` bytes; a longer `s` is kept whole. */
  function Padded(s: string, width: nat): (r: string)
    ensures ByteLen(r) == Max(ByteLen(s), width)
    ensures |s| <= |r| && r[..|s|] == s
    ensures forall k :: |s| <= k < |r| ==> r[k] == ' '
    ensures ByteLen(s) >= width ==> r == s
  {
    FilledLength(s, Fill(s, width));
    s + Spaces(Fill(s, width))
  }

  /** Appending `fill` spaces adds `fill` bytes and keeps `s` as the prefix. */
  lemma FilledLength(s: string, fill: nat)
    ensures ByteLen(s + Spaces(fill)) == ByteLen(s) + fill
    ensures (s + Spaces(fill))[..|s|] == s
    ensures fill == 0 ==> s + Spaces(fill) == s
  {
    ByteLenAppend(s, Spaces(fill));
    ByteLenSpaces(fill);
    if fill == 0 {
      assert Spaces(fill) == [];
    }
  }

  /** A padded text is the text followed by exactly the missing number of spaces. */
  lemma PaddedShape(s: string, width: nat)
    ensures ByteLen(s) <= width ==> Padded(s, width) == s + Spaces(width - ByteLen(s))
  {
    if ByteLen(s) <= width {
      assert Fill(s, width) == width - ByteLen(s);
    }
  }

  /** `pad`, building the result with `push_str` and one pushed space at a time. */
  method Pad(s: string, width: nat) returns (out: string)
    ensures out == Padded(s, width)
  {
    out := s;
    var len := ByteLen(s);
    if len < width {
      var k := 0;
      while k < width - len
        invariant 0 <= k <= width - len
        invariant out == s + Spaces(k)
      {
        assert Spaces(k + 1) == Spaces(k) + " ";
        out := out + " ";
        k := k + 1;
      }
    }
  }

  // ---------------------------------------------------------------------------
  // Interior width
  // ---------------------------------------------------------------------------

  /** The largest byte length among `rows`, 0 when there are none. */
  function MaxByteLen(rows: seq<string>): (r: nat)
    ensures forall k :: 0 <= k < |rows| ==> ByteLen(rows[k]) <= r
    ensures rows == [] ==> r == 0
    ensures rows != [] ==> exists k :: 0 <= k < |rows| && ByteLen(rows[k]) == r
  {
    if rows == [] then 0
    else
      var front := rows[..|rows| - 1];
      var m := MaxByteLen(front);
      assert forall k :: 0 <= k < |front| ==> front[k] == rows[k];
      if m < ByteLen(rows[|rows| - 1]) then ByteLen(rows[|rows| - 1]) else m
  }

  /**
   * The interior width: the least width that holds the header and every body row and is at
   * least the configured minimum.
   */
  function Interior(width: nat, header: string, body: seq<string>): (n: nat)
    ensures n >= width && n >= ByteLen(header)
    ensures forall k :: 0 <= k < |body| ==> ByteLen(body[k]) <= n
    ensures n == width || n == ByteLen(header) || exists k :: 0 <= k < |body| && ByteLen(body[k]) == n
  {
    Max(Max(MaxByteLen(body), ByteLen(header)), width)
  }

  // ---------------------------------------------------------------------------
  // Rows
  // ---------------------------------------------------------------------------

  /** The rendered body: each line as it is, or `{i:>digits} │ {line}`. */
  function Rendered(lineNumbers: bool, content: string): seq<string>
  {
    Body(lineNumbers, Lines(content), NumberSeparator)
  }

  /** `"─".repeat(n)`. */
  function Hr(n: nat): string
  {
    Repeat(Horizontal, n)
  }

  function Top(n: nat): string
  {
    [TopLeft] + Hr(n) + [TopRight]
  }

  function Middle(n: nat): string
  {
    [TeeLeft] + Hr(n) + [TeeRight]
  }

  function Bottom(n: nat): string
  {
    [BottomLeft] + Hr(n) + [BottomRight]
  }

  /** A text row: `│`, the padded text, `│`. */
  function Framed(s: string, n: nat): string
  {
    [Vertical] + Padded(s, n) + [Vertical]
  }

  function FramedAll(body: seq<string>, n: nat): (r: seq<string>)
    ensures |r| == |body|
    ensures forall k :: 0 <= k < |body| ==> r[k] == Framed(body[k], n)
  {
    seq(|body|, k requires 0 <= k < |body| => Framed(body[k], n))
  }

  function Rows(width: nat, lineNumbers: bool, header: string, content: string): seq<string>
  {
    var body := Rendered(lineNumbers, content);
    var n := Interior(width, header, body);
    [Top(n)] + [Framed(header, n)] + [Middle(n)] + FramedAll(body, n) + [Bottom(n)]
  }

  function Output(width: nat, lineNumbers: bool, header: string, content: string): string
  {
    Terminated(Rows(width, lineNumbers, header, content))
  }

  /** The body half of `write`: renders each line and keeps the running maximum byte length. */
  method RenderBody(lineNumbers: bool, ls: seq<string>) returns (body: seq<string>, interior: nat)
    ensures body == Body(lineNumbers, ls, NumberSeparator)
    ensures interior == MaxByteLen(body)
  {
    var digits := if lineNumbers then |NatToString(|ls|)| else 0;
    NatToStringLength(|ls|);
    ghost var rendered := Body(lineNumbers, ls, NumberSeparator);
    body := [];
    interior := 0;
    var i := 0;
    while i < |ls|
      invariant 0 <= i <= |ls|
      invariant body == rendered[..i]
      invariant interior == MaxByteLen(body)
    {
      var base;
      if lineNumbers {
        base := PadLeft(NatToString(i + 1), digits) + [' ', Vertical, ' '] + ls[i];
      } else {
        base := ls[i];
      }
      BodyAt(lineNumbers, ls, NumberSeparator, DecimalLength(|ls|), i);
      MaxByteLenSnoc(body, base);
      if interior < ByteLen(base) {
        interior := ByteLen(base);
      }
      PrefixSnoc(rendered, i);
      body := body + [base];
      i := i + 1;
    }
    assert |rendered| == |ls|;
    assert rendered[..i] == rendered;
  }

  lemma MaxByteLenSnoc(rows: seq<string>, x: string)
    ensures MaxByteLen(rows + [x]) == Max(MaxByteLen(rows), ByteLen(x))
  {
    assert (rows + [x])[..|rows|] == rows;
  }

  /** The shared `write` of the two box formats, for a given header text. */
  method Write(width: nat, lineNumbers: bool, header: string, content: string, w: Writer)
    modifies w
    ensures w.text == old(w.text) + Output(width, lineNumbers, header, content)
  {
    var body, interior := RenderBody(lineNumbers, Lines(content));
    interior := Max(interior, ByteLen(header));
    interior := Max(interior, width);
    var hr := Repeat(Horizontal, interior);
    ghost var n := interior;
    ghost var pre := w.text;
    var top := [TopLeft] + hr + [TopRight];
    w.WriteLine(top);
    FirstRow(pre, Top(n));
    var padded := Pad(header, interior);
    w.WriteLine([Vertical] + padded + [Vertical]);
    NextRow(pre, [Top(n)], Framed(header, n));
    w.WriteLine([TeeLeft] + hr + [TeeRight]);
    NextRow(pre, [Top(n)] + [Framed(header, n)], Middle(n));
    ghost var head := [Top(n)] + [Framed(header, n)] + [Middle(n)];
    ghost var framed := FramedAll(body, n);
    WriteFramed(body, interior, w);
    NextRows(pre, head, framed);
    w.WriteLine([BottomLeft] + hr + [BottomRight]);
    NextRow(pre, head + framed, Bottom(n));
  }

  /** The loop of `write` over the rendered lines: each one framed at the interior width. */
  method WriteFramed(body: seq<string>, interior: nat, w: Writer)
    modifies w
    ensures w.text == old(w.text) + Terminated(FramedAll(body, interior))
  {
    ghost var framed := FramedAll(body, interior);
    var i := 0;
    while i < |body|
      invariant 0 <= i <= |body|
      invariant w.text == old(w.text) + Terminated(framed[..i])
    {
      var padded := Pad(body[i], interior);
      w.WriteLine([Vertical] + padded + [Vertical]);
      NextRowAt(old(w.text), framed, i);
      i := i + 1;
    }
    assert framed[..i] == framed;
  }

  // ---------------------------------------------------------------------------
  // Shape of the box
  // ---------------------------------------------------------------------------

  lemma ByteLenFramed(s: string, n: nat)
    ensures ByteLen(Framed(s, n)) == Max(ByteLen(s), n) + 6
  {
    ByteLenAppend([Vertical] + Padded(s, n), [Vertical]);
    ByteLenAppend([Vertical], Padded(s, n));
    assert ByteLen([Vertical]) == 3 by {
      assert [Vertical][..0] == [];
    }
  }

  lemma ByteLenBorder(l: char, n: nat, r: char)
    requires Utf8Width(l) == 3 && Utf8Width(r) == 3
    ensures ByteLen([l] + Hr(n) + [r]) == 3 * n + 6
  {
    ByteLenAppend([l] + Hr(n), [r]);
    ByteLenAppend([l], Hr(n));
    ByteLenRepeat(Horizontal, n);
    assert [l][..0] == [] && [r][..0] == [];
  }

  /**
   * The box has one row per content line plus four: top border, header, separator, the body
   * rows in order, bottom border. Every text row is `│`, exactly `Interior` bytes, `│`; the
   * three borders are the same run of `─` between different corners, so they have the same
   * length.
   */
  lemma {:induction false} Shape(width: nat, lineNumbers: bool, header: string, content: string)
    ensures var rows := Rows(width, lineNumbers, header, content);
            var n := Interior(width, header, Rendered(lineNumbers, content));
            && |rows| == |Lines(content)| + 4
            && rows[0] == [TopLeft] + Hr(n) + [TopRight]
            && rows[1] == [Vertical] + Padded(header, n) + [Vertical]
            && rows[2] == [TeeLeft] + Hr(n) + [TeeRight]
            && rows[|rows| - 1] == [BottomLeft] + Hr(n) + [BottomRight]
            && ByteLen(rows[0]) == ByteLen(rows[2]) == ByteLen(rows[|rows| - 1]) == 3 * n + 6
            && ByteLen(rows[1]) == n + 6
  {
    var body := Rendered(lineNumbers, content);
    var n := Interior(width, header, body);
    assert |body| == |Lines(content)|;
    RowsIndex(Top(n), Framed(header, n), Middle(n), FramedAll(body, n), Bottom(n));
    ByteLenBorder(TopLeft, n, TopRight);
    ByteLenBorder(TeeLeft, n, TeeRight);
    ByteLenBorder(BottomLeft, n, BottomRight);
    ByteLenFramed(header, n);
  }

  /** The rows around the body of `[a] + [b] + [c] + mid + [d]`. */
  lemma RowsIndex<T>(a: T, b: T, c: T, mid: seq<T>, d: T)
    ensures var rows := [a] + [b] + [c] + mid + [d];
            |rows| == |mid| + 4 && rows[0] == a && rows[1] == b && rows[2] == c && rows[|rows| - 1] == d
  {
  }

  /**
   * The header row is `│`, the whole header followed by the spaces that make up the interior
   * width, `│`:
   * the interior is never narrower than the configured width nor than the header.
   */
  lemma HeaderRow(width: nat, lineNumbers: bool, header: string, content: string)
    ensures var n := Interior(width, header, Rendered(lineNumbers, content));
            && n >= width && n >= ByteLen(header)
            && Rows(width, lineNumbers, header, content)[1] == [Vertical] + Padded(header, n) + [Vertical]
            && Padded(header, n) == header + Spaces(n - ByteLen(header))
  {
    var n := Interior(width, header, Rendered(lineNumbers, content));
    Shape(width, lineNumbers, header, content);
    PaddedShape(header, n);
  }

  /**
   * Body row `k` is `│`, then the `k`-th rendered line padded with spaces to exactly
   * `Interior` bytes, then `│`.
   */
  lemma {:induction false} BodyRow(width: nat, lineNumbers: bool, header: string, content: string, k: nat)
    requires k < |Lines(content)|
    ensures var rows := Rows(width, lineNumbers, header, content);
            var body := Rendered(lineNumbers, content);
            var n := Interior(width, header, body);
            && |body| == |Lines(content)|
            && rows[k + 3] == [Vertical] + Padded(body[k], n) + [Vertical]
            && ByteLen(Padded(body[k], n)) == n
            && Padded(body[k], n)[..|body[k]|] == body[k]
  {
    var body := Rendered(lineNumbers, content);
    assert |body| == |Lines(content)|;
    RowAt(width, lineNumbers, header, content, k);
  }

  /** Row `k + 3` of the box frames body row `k`. */
  lemma RowAt(width: nat, lineNumbers: bool, header: string, content: string, k: nat)
    requires k < |Rendered(lineNumbers, content)|
    ensures var body := Rendered(lineNumbers, content);
            Rows(width, lineNumbers, header, content)[k + 3] == Framed(body[k], Interior(width, header, body))
  {
    var body := Rendered(lineNumbers, content);
    var n := Interior(width, header, body);
    var head := [Top(n)] + [Framed(header, n)] + [Middle(n)];
    var framed := FramedAll(body, n);
    assert Rows(width, lineNumbers, header, content) == head + framed + [Bottom(n)];
    assert (head + framed + [Bottom(n)])[k + 3] == framed[k];
  }
}
