/**
 * The `xml` format: a `<file path="...">` element holding the escaped content, either whole or
 * as one numbered `<line>` element per line.
 */
module XmlFormat {
  import opened Text
  import opened Paths
  import opened Sink

  // ---------------------------------------------------------------------------
  // Escaping
  // ---------------------------------------------------------------------------

  /** The characters `esc` replaces. */
  predicate IsSpecial(c: char)
  {
    c == '&' || c == '<' || c == '>' || c == '"' || c == '\''
  }

  /** The characters that must not appear raw in escaped text. */
  predicate IsMarkup(c: char)
  {
    c == '<' || c == '>' || c == '"' || c == '\''
  }

  /** `str::replace` of a character by a string: every occurrence of `c` becomes `r`. */
  function Replace(s: string, c: char, r: string): string
  {
    if s == [] then [] else (if s[0] == c then r else [s[0]]) + Replace(s[1..], c, r)
  }

  /** `esc`: the chain of five replacements, ampersand first. */
  function Esc(s: string): string
  {
    Replace(Replace(Replace(Replace(Replace(s, '&', "&amp;"), '<', "&lt;"), '>', "&gt;"), '"', "&quot;"), '\'', "&apos;")
  }

  /** The reference for one character: its entity, or the character itself. */
  function Entity(c: char): (r: string)
    ensures r != []
  {
    match c
    case '&' => "&amp;"
    case '<' => "&lt;"
    case '>' => "&gt;"
    case '"' => "&quot;"
    case '\'' => "&apos;"
    case _ => [c]
  }

  /** The reference escaping: each character replaced by its `Entity`, independently. */
  function EscapeEach(s: string): string
  {
    if s == [] then [] else Entity(s[0]) + EscapeEach(s[1..])
  }

  lemma {:induction false} ReplaceAppend(a: string, b: string, c: char, r: string)
    ensures Replace(a + b, c, r) == Replace(a, c, r) + Replace(b, c, r)
    decreases |a|
  {
    if a == [] {
      assert a + b == b;
    } else {
      assert (a + b)[0] == a[0];
      assert (a + b)[1..] == a[1..] + b;
      ReplaceAppend(a[1..], b, c, r);
    }
  }

  lemma {:induction false} ReplaceAbsent(s: string, c: char, r: string)
    requires c !in s
    ensures Replace(s, c, r) == s
    decreases |s|
  {
    if s != [] {
      assert s[0] != c;
      assert forall j :: 0 <= j < |s[1..]| ==> s[1..][j] == s[j + 1];
      ReplaceAbsent(s[1..], c, r);
      assert [s[0]] + s[1..] == s;
    }
  }

  lemma EscAppend(a: string, b: string)
    ensures Esc(a + b) == Esc(a) + Esc(b)
  {
    var a1, b1 := Replace(a, '&', "&amp;"), Replace(b, '&', "&amp;");
    ReplaceAppend(a, b, '&', "&amp;");
    var a2, b2 := Replace(a1, '<', "&lt;"), Replace(b1, '<', "&lt;");
    ReplaceAppend(a1, b1, '<', "&lt;");
    var a3, b3 := Replace(a2, '>', "&gt;"), Replace(b2, '>', "&gt;");
    ReplaceAppend(a2, b2, '>', "&gt;");
    var a4, b4 := Replace(a3, '"', "&quot;"), Replace(b3, '"', "&quot;");
    ReplaceAppend(a3, b3, '"', "&quot;");
    ReplaceAppend(a4, b4, '\'', "&apos;");
  }

  lemma ReplaceSingle(x: char, c: char, r: string)
    ensures Replace([x], c, r) == if x == c then r else [x]
  {
    assert [x][1..] == [];
  }

  /** An entity holds only `&`, lower-case letters and `;`. */
  lemma EntityHasNoMarkup(c: char)
    requires IsSpecial(c)
    ensures forall k :: 0 <= k < |Entity(c)| ==> !IsMarkup(Entity(c)[k])
  {
  }

  /** The replacements after an entity was produced leave it alone. */
  lemma EntityStable(c: char, d: char, r: string)
    requires IsSpecial(c) && IsMarkup(d)
    ensures Replace(Entity(c), d, r) == Entity(c)
  {
    EntityHasNoMarkup(c);
    ReplaceAbsent(Entity(c), d, r);
  }

  /** One character escapes to exactly its entity: the entities the chain produces are not escaped again. */
  lemma EscChar(c: char)
    ensures Esc([c]) == Entity(c)
  {
    ReplaceSingle(c, '&', "&amp;");
    ReplaceSingle(c, '<', "&lt;");
    ReplaceSingle(c, '>', "&gt;");
    ReplaceSingle(c, '"', "&quot;");
    ReplaceSingle(c, '\'', "&apos;");
    if IsSpecial(c) {
      EntityStable(c, '<', "&lt;");
      EntityStable(c, '>', "&gt;");
      EntityStable(c, '"', "&quot;");
      EntityStable(c, '\'', "&apos;");
    }
  }

  /** `esc` replaces every character by its entity independently of its neighbours. */
  lemma {:induction false} EscIsPerChar(s: string)
    ensures Esc(s) == EscapeEach(s)
    decreases |s|
  {
    if s != [] {
      assert s == [s[0]] + s[1..];
      EscAppend([s[0]], s[1..]);
      EscChar(s[0]);
      EscIsPerChar(s[1..]);
    }
  }

  /** No raw `<`, `>`, `"` or `'` survives escaping. */
  lemma {:induction false} EscNoMarkup(s: string)
    ensures forall k :: 0 <= k < |Esc(s)| ==> !IsMarkup(Esc(s)[k])
  {
    EscIsPerChar(s);
    EachNoMarkup(s);
  }

  lemma {:induction false} EachNoMarkup(s: string)
    ensures forall k :: 0 <= k < |EscapeEach(s)| ==> !IsMarkup(EscapeEach(s)[k])
    decreases |s|
  {
    if s != [] {
      var e, rest := Entity(s[0]), EscapeEach(s[1..]);
      EachNoMarkup(s[1..]);
      assert forall k :: 0 <= k < |e| ==> !IsMarkup(e[k]) by {
        if IsSpecial(s[0]) {
          assert e[0] == '&';
        }
      }
      forall k | 0 <= k < |e + rest|
        ensures !IsMarkup((e + rest)[k])
      {
        if k >= |e| {
          assert (e + rest)[k] == rest[k - |e|];
        }
      }
    }
  }

  /** Text without the five special characters is left as it is. */
  lemma {:induction false} EscIdentity(s: string)
    requires forall k :: 0 <= k < |s| ==> !IsSpecial(s[k])
    ensures Esc(s) == s
  {
    EscIsPerChar(s);
    EachIdentity(s);
  }

  lemma {:induction false} EachIdentity(s: string)
    requires forall k :: 0 <= k < |s| ==> !IsSpecial(s[k])
    ensures EscapeEach(s) == s
    decreases |s|
  {
    if s != [] {
      assert !IsSpecial(s[0]);
      assert forall k :: 0 <= k < |s[1..]| ==> s[1..][k] == s[k + 1];
      EachIdentity(s[1..]);
      assert [s[0]] + s[1..] == s;
    }
  }

  /** `t` begins with `e`. */
  predicate StartsWith(t: string, e: string)
  {
    |e| <= |t| && t[..|e|] == e
  }

  /** The first character that `t` stands for, and how many characters of `t` stand for it. */
  function Token(t: string): (r: (char, nat))
    requires t != []
    ensures 1 <= r.1 <= |t|
  {
    if t[0] != '&' then (t[0], 1)
    else if StartsWith(t, "&amp;") then ('&', 5)
    else if StartsWith(t, "&lt;") then ('<', 4)
    else if StartsWith(t, "&gt;") then ('>', 4)
    else if StartsWith(t, "&quot;") then ('"', 6)
    else if StartsWith(t, "&apos;") then ('\'', 6)
    else ('&', 1)
  }

  /** Reading the five entities back, leftmost first. */
  function Unescape(t: string): string
    decreases |t|
  {
    if t == [] then [] else [Token(t).0] + Unescape(t[Token(t).1..])
  }

  lemma TokenOfEntity(c: char, rest: string)
    ensures Token(Entity(c) + rest) == (c, |Entity(c)|)
  {
    var e := Entity(c);
    var t := e + rest;
    assert t[..|e|] == e;
    if c == '<' || c == '>' || c == '"' {
      assert |t| >= 5 ==> t[..5][1] == t[1];
    }
    if c == '>' || c == '"' || c == '\'' {
      assert t[..4][1] == t[1];
    }
    if c == '"' {
      assert t[..4][1] == t[1];
    }
    if c == '\'' {
      assert |t| >= 5 ==> t[..5][2] == t[2];
      assert t[..6][1] == t[1];
    }
  }

  lemma UnescapeEntity(c: char, rest: string)
    ensures Unescape(Entity(c) + rest) == [c] + Unescape(rest)
  {
    var t := Entity(c) + rest;
    TokenOfEntity(c, rest);
    assert t[|Entity(c)|..] == rest;
  }

  /** Escaping loses nothing: the entities read back to the original text. */
  lemma {:induction false} UnescapeEsc(s: string)
    ensures Unescape(Esc(s)) == s
  {
    EscIsPerChar(s);
    UnescapeEach(s);
  }

  lemma {:induction false} UnescapeEach(s: string)
    ensures Unescape(EscapeEach(s)) == s
    decreases |s|
  {
    if s != [] {
      UnescapeEntity(s[0], EscapeEach(s[1..]));
      UnescapeEach(s[1..]);
      assert [s[0]] + s[1..] == s;
    }
  }

  /**
   * An entity already present in the input is escaped once more, not kept: its ampersand
   * becomes `&amp;` (so `&lt;` becomes `&amp;lt;`).
   */
  lemma EntityIsEscapedAgain(c: char)
    requires IsSpecial(c)
    ensures Esc(Entity(c)) == "&amp;" + Entity(c)[1..]
  {
    var e := Entity(c);
    var tail := e[1..];
    assert e == [e[0]] + tail;
    assert forall k :: 0 <= k < |tail| ==> !IsSpecial(tail[k]);
    EscAppend([e[0]], tail);
    EscChar(e[0]);
    EscIdentity(tail);
  }

  // ---------------------------------------------------------------------------
  // The document
  // ---------------------------------------------------------------------------

  /** The opening tag; the path is written verbatim, not escaped. */
  function OpenTag(p: Path): string
  {
    "<file path=\"" + Display(p) + "\">"
  }

  const CloseTag: string := "</file>"

  /** One numbered line element; the number is not padded. */
  function LineElement(no: nat, line: string): string
  {
    "  <line no=\"" + NatToString(no) + "\">" + Esc(line) + "</line>"
  }

  /** The line elements for `ls`, numbered from 1. */
  function LineElements(ls: seq<string>): (r: seq<string>)
    ensures |r| == |ls|
    ensures forall k :: 0 <= k < |ls| ==> r[k] == LineElement(k + 1, ls[k])
  {
    seq(|ls|, k requires 0 <= k < |ls| => LineElement(k + 1, ls[k]))
  }

  function Rows(lineNumbers: bool, p: Path, content: string): seq<string>
  {
    if lineNumbers then [OpenTag(p)] + LineElements(Lines(content)) + [CloseTag]
    else [OpenTag(p) + Esc(content) + CloseTag]
  }

  function Output(lineNumbers: bool, p: Path, content: string): string
  {
    Terminated(Rows(lineNumbers, p, content))
  }

  /** `Xml::write`. */
  method Write(lineNumbers: bool, p: Path, content: string, w: Writer)
    modifies w
    ensures w.text == old(w.text) + Output(lineNumbers, p, content)
  {
    ghost var pre := w.text;
    if lineNumbers {
      w.WriteLine(OpenTag(p));
      FirstRow(pre, OpenTag(p));
      var ls := Lines(content);
      ghost var elements := LineElements(ls);
      ghost var start := w.text;
      var i := 0;
      while i < |ls|
        invariant 0 <= i <= |ls|
        invariant w.text == start + Terminated(elements[..i])
      {
        w.WriteLine(LineElement(i + 1, ls[i]));
        NextRowAt(start, elements, i);
        i := i + 1;
      }
      assert elements[..i] == elements;
      NextRows(pre, [OpenTag(p)], elements);
      w.WriteLine(CloseTag);
      NextRow(pre, [OpenTag(p)] + elements, CloseTag);
    } else {
      w.WriteLine(OpenTag(p) + Esc(content) + CloseTag);
      FirstRow(pre, OpenTag(p) + Esc(content) + CloseTag);
    }
  }

  /**
   * With numbers: the opening tag, one `<line no="i">` element per line holding that line
   * escaped, with i running from 1 unpadded, then the closing tag, each on its own line. An
   * empty content gives the two tags alone.
   */
  lemma NumberedLayout(p: Path, content: string)
    ensures |Rows(true, p, content)| == |Lines(content)| + 2
    ensures Rows(true, p, content)[0] == "<file path=\"" + Display(p) + "\">"
    ensures forall k :: 0 <= k < |Lines(content)| ==>
              Rows(true, p, content)[k + 1]
              == "  <line no=\"" + NatToString(k + 1) + "\">" + Esc(Lines(content)[k]) + "</line>"
    ensures Rows(true, p, content)[|Lines(content)| + 1] == "</file>"
    ensures content == [] ==> Output(true, p, content) == "<file path=\"" + Display(p) + "\">\n</file>\n"
  {
    var rows := Rows(true, p, content);
    var es := LineElements(Lines(content));
    assert rows == [OpenTag(p)] + es + [CloseTag];
    forall k | 0 <= k < |Lines(content)|
      ensures rows[k + 1] == es[k]
    {
    }
    if content == [] {
      assert rows == [OpenTag(p), CloseTag];
      TerminatedCons(OpenTag(p), [CloseTag]);
      assert Terminated([CloseTag]) == Terminated([]) + CloseTag + "\n";
    }
  }

  /**
   * Without numbers: a single line holding the whole content escaped, line feeds included,
   * between the tags.
   */
  lemma PlainLayout(p: Path, content: string)
    ensures Output(false, p, content) == "<file path=\"" + Display(p) + "\">" + Esc(content) + "</file>" + "\n"
  {
    FirstRow([], OpenTag(p) + Esc(content) + CloseTag);
    assert [] + (OpenTag(p) + Esc(content) + CloseTag) + "\n" == OpenTag(p) + Esc(content) + CloseTag + "\n";
  }
}
