/**
 * Text primitives shared by every formatter: Rust's `str::lines()`, the rows that
 * consecutive `writeln!` calls produce, decimal numerals and `{:>w$}` right alignment,
 * and the UTF-8 byte length that `str::len()` reports.
 */
module Text {
  import opened Wrappers

  /** Index of the first `x` in `s`, or `|s|` when there is none. */
  function IndexOf<T(==)>(s: seq<T>, x: T): (k: nat)
    ensures k <= |s|
    ensures forall j :: 0 <= j < k ==> s[j] != x
    ensures k < |s| ==> s[k] == x
  {
    if s == [] || s[0] == x then 0 else 1 + IndexOf(s[1..], x)
  }

  lemma {:induction false} IndexOfSeparated<T>(a: seq<T>, x: T, b: seq<T>)
    requires x !in a
    ensures IndexOf(a + [x] + b, x) == |a|
  {
    var s := a + [x] + b;
    assert s[|a|] == x;
    assert forall j :: 0 <= j < |a| ==> s[j] == a[j];
  }

  // ---------------------------------------------------------------------------
  // Rows written with `writeln!`
  // ---------------------------------------------------------------------------

  /** The text written by one `writeln!` per row: every row followed by a line feed. */
  function Terminated(rows: seq<string>): string
  {
    if rows == [] then [] else Terminated(rows[..|rows| - 1]) + rows[|rows| - 1] + "\n"
  }

  lemma {:induction false} TerminatedAppend(a: seq<string>, b: seq<string>)
    ensures Terminated(a + b) == Terminated(a) + Terminated(b)
    decreases |b|
  {
    if b == [] {
      assert a + b == a;
    } else {
      var b' := b[..|b| - 1];
      assert (a + b)[..|a + b| - 1] == a + b';
      TerminatedAppend(a, b');
    }
  }

  /** Writing rows[..i] and then row i is writing rows[..i + 1]. */
  lemma TerminatedSnoc(rows: seq<string>, i: nat)
    requires i < |rows|
    ensures Terminated(rows[..i + 1]) == Terminated(rows[..i]) + rows[i] + "\n"
  {
    assert rows[..i + 1][..i] == rows[..i];
  }

  lemma TerminatedCons(row: string, rest: seq<string>)
    ensures Terminated([row] + rest) == row + "\n" + Terminated(rest)
  {
    TerminatedAppend([row], rest);
    assert Terminated([row]) == Terminated([]) + row + "\n";
  }

  // ---------------------------------------------------------------------------
  // str::lines()
  // ---------------------------------------------------------------------------

  /** Drops one carriage return ending a line that was terminated by a line feed. */
  function StripCr(line: string): string
  {
    if |line| > 0 && line[|line| - 1] == '\r' then line[..|line| - 1] else line
  }

  /**
   * Rust's `str::lines()`: the text split at each line feed, one carriage return before
   * a line feed removed, no empty final line after a trailing line feed, and no line at
   * all for the empty text. A final line without a line feed is kept whole.
   */
  function Lines(s: string): (r: seq<string>)
    ensures forall k :: 0 <= k < |r| ==> '\n' !in r[k]
    ensures r == [] <==> s == []
    decreases |s|
  {
    if s == [] then []
    else
      var k := IndexOf(s, '\n');
      if k == |s| then [s] else [StripCr(s[..k])] + Lines(s[k + 1..])
  }

  /** Number of occurrences of `c` in `s`. */
  function Count(s: string, c: char): nat
  {
    if s == [] then 0 else (if s[0] == c then 1 else 0) + Count(s[1..], c)
  }

  lemma {:induction false} CountAbsent(s: string, c: char)
    requires c !in s
    ensures Count(s, c) == 0
  {
    if s != [] {
      assert s[0] != c;
      assert forall j :: 0 <= j < |s[1..]| ==> s[1..][j] == s[j + 1];
      CountAbsent(s[1..], c);
    }
  }

  lemma {:induction false} CountAtFirst(s: string, c: char, k: nat)
    requires k < |s| && s[k] == c
    requires forall j :: 0 <= j < k ==> s[j] != c
    ensures Count(s, c) == 1 + Count(s[k + 1..], c)
    decreases k
  {
    if k > 0 {
      assert s[1..][k - 1] == c;
      assert s[1..][k..] == s[k + 1..];
      CountAtFirst(s[1..], c, k - 1);
    }
  }

  /** One line per line feed, plus one for a final line that has none. */
  lemma {:induction false} LinesCount(s: string)
    ensures |Lines(s)| == Count(s, '\n') + (if s != [] && s[|s| - 1] != '\n' then 1 else 0)
    decreases |s|
  {
    if s != [] {
      var k := IndexOf(s, '\n');
      if k == |s| {
        assert '\n' !in s;
        CountAbsent(s, '\n');
      } else {
        var t := s[k + 1..];
        CountAtFirst(s, '\n', k);
        LinesCount(t);
        if t != [] {
          assert t[|t| - 1] == s[|s| - 1];
        }
      }
    }
  }

  /** A value `lines()` can yield as a line of a terminated text. */
  ghost predicate IsLine(l: string)
  {
    '\n' !in l && (l == [] || l[|l| - 1] != '\r')
  }

  /** Splitting written rows gives the rows back: `lines()` inverts `Terminated`. */
  lemma {:induction false} LinesOfTerminated(ls: seq<string>)
    requires forall k :: 0 <= k < |ls| ==> IsLine(ls[k])
    ensures Lines(Terminated(ls)) == ls
    decreases |ls|
  {
    if ls != [] {
      var x, rest := ls[0], ls[1..];
      assert ls == [x] + rest;
      TerminatedCons(x, rest);
      var s := Terminated(ls);
      assert s == x + "\n" + Terminated(rest);
      IndexOfSeparated(x, '\n', Terminated(rest));
      assert s[..|x|] == x;
      assert s[|x| + 1..] == Terminated(rest);
      LinesOfTerminated(rest);
    }
  }

  /** No carriage return is directly followed by a line feed. */
  ghost predicate NoCrLf(s: string)
  {
    forall i :: 0 <= i < |s| - 1 ==> !(s[i] == '\r' && s[i + 1] == '\n')
  }

  /** Writing each line of `s` with `writeln!` gives `s` back, with a final line feed added when it lacked one. */
  lemma {:induction false} TerminatedOfLines(s: string)
    requires NoCrLf(s)
    ensures Terminated(Lines(s)) == if s == [] || s[|s| - 1] == '\n' then s else s + "\n"
    decreases |s|
  {
    if s != [] {
      var k := IndexOf(s, '\n');
      if k == |s| {
        assert Terminated([s]) == Terminated([]) + s + "\n";
      } else {
        var t := s[k + 1..];
        NoCrLfSplit(s, k);
        TerminatedOfLines(t);
        TerminatedCons(s[..k], Lines(t));
        TerminatedOfLinesStep(s, k, Terminated(Lines(t)));
      }
    }
  }

  /** The pieces of a text without CR LF around its first line feed at `k`. */
  lemma NoCrLfSplit(s: string, k: nat)
    requires NoCrLf(s) && k < |s| && s[k] == '\n'
    ensures NoCrLf(s[k + 1..])
    ensures StripCr(s[..k]) == s[..k]
  {
    var t := s[k + 1..];
    forall i | 0 <= i < |t| - 1 ensures !(t[i] == '\r' && t[i + 1] == '\n') {
      assert t[i] == s[k + 1 + i] && t[i + 1] == s[k + 2 + i];
    }
    if k > 0 {
      assert 0 <= k - 1 < |s| - 1;
      assert s[k - 1] != '\r';
    }
  }

  lemma TerminatedOfLinesStep(s: string, k: nat, rest: string)
    requires k < |s| && s[k] == '\n'
    requires var t := s[k + 1..]; rest == if t == [] || t[|t| - 1] == '\n' then t else t + "\n"
    ensures s[..k] + "\n" + rest == if s[|s| - 1] == '\n' then s else s + "\n"
  {
    var t := s[k + 1..];
    assert s == s[..k] + "\n" + t;
    if t != [] {
      assert t[|t| - 1] == s[|s| - 1];
    }
  }

  // ---------------------------------------------------------------------------
  // Decimal numerals and `{:>w$}`
  // ---------------------------------------------------------------------------

  function DigitChar(d: nat): (c: char)
    requires d < 10
    ensures '0' <= c <= '9'
  {
    (('0' as int) + d) as char
  }

  function DigitValue(c: char): nat
    requires '0' <= c <= '9'
  {
    (c as int) - ('0' as int)
  }

  predicate IsDigits(s: string)
  {
    forall k :: 0 <= k < |s| ==> '0' <= s[k] <= '9'
  }

  /** `n.to_string()` for an unsigned integer. */
  function NatToString(n: nat): (r: string)
    ensures r != [] && IsDigits(r)
    decreases n
  {
    if n < 10 then [DigitChar(n)] else NatToString(n / 10) + [DigitChar(n % 10)]
  }

  /** The value of a string of decimal digits. */
  function ParseDecimal(s: string): nat
    requires IsDigits(s)
  {
    if s == [] then 0 else ParseDecimal(s[..|s| - 1]) * 10 + DigitValue(s[|s| - 1])
  }

  /** The numeral that `to_string` writes reads back as the number. */
  lemma {:induction false} ParseNatToString(n: nat)
    ensures ParseDecimal(NatToString(n)) == n
    decreases n
  {
    if n >= 10 {
      var s := NatToString(n);
      assert s[..|s| - 1] == NatToString(n / 10);
      ParseNatToString(n / 10);
    }
  }

  /** Number of decimal digits of `n` (`n.to_string().len()`). */
  function DecimalLength(n: nat): (r: nat)
    ensures r >= 1
  {
    if n < 10 then 1 else 1 + DecimalLength(n / 10)
  }

  lemma {:induction false} NatToStringLength(n: nat)
    ensures |NatToString(n)| == DecimalLength(n)
    decreases n
  {
    if n >= 10 {
      NatToStringLength(n / 10);
    }
  }

  lemma {:induction false} DecimalLengthMonotone(i: nat, n: nat)
    requires i <= n
    ensures DecimalLength(i) <= DecimalLength(n)
    decreases n
  {
    if i >= 10 {
      DecimalLengthMonotone(i / 10, n / 10);
    }
  }

  function Spaces(k: nat): (r: string)
    ensures |r| == k && forall j :: 0 <= j < k ==> r[j] == ' '
  {
    if k == 0 then [] else Spaces(k - 1) + " "
  }

  /** Rust's `{:>w$}` on a string: right-aligned in a field of `w` characters, never cut. */
  function PadLeft(s: string, w: nat): string
  {
    if |s| < w then Spaces(w - |s|) + s else s
  }

  /** The line-number column: `{:>digits$}` of `i`, with digits the length of `total`. */
  function Gutter(i: nat, total: nat): string
  {
    PadLeft(NatToString(i), DecimalLength(total))
  }

  /** Every number from 1 to `total` gets a column of the same width: spaces, then its numeral. */
  lemma GutterShape(i: nat, total: nat)
    requires 1 <= i <= total
    ensures DecimalLength(i) <= DecimalLength(total)
    ensures |Gutter(i, total)| == DecimalLength(total)
    ensures Gutter(i, total) == Spaces(DecimalLength(total) - DecimalLength(i)) + NatToString(i)
  {
    NatToStringLength(i);
    DecimalLengthMonotone(i, total);
  }

  /** The rows of the numbered layout: line `k` (from 1) as its gutter, `sep`, then the line. */
  function NumberedLines(ls: seq<string>, sep: string): (r: seq<string>)
  {
    seq(|ls|, k requires 0 <= k < |ls| => Gutter(k + 1, |ls|) + sep + ls[k])
  }

  /** The body rows of a formatter: the lines as they are, or numbered with `sep`. */
  function Body(lineNumbers: bool, ls: seq<string>, sep: string): seq<string>
  {
    if lineNumbers then NumberedLines(ls, sep) else ls
  }

  /** Each body row holds its line, numbered consecutively from 1 in a column of fixed width. */
  lemma BodyRows(lineNumbers: bool, ls: seq<string>, sep: string, k: nat)
    requires k < |ls|
    ensures |Body(lineNumbers, ls, sep)| == |ls|
    ensures !lineNumbers ==> Body(lineNumbers, ls, sep)[k] == ls[k]
    ensures DecimalLength(k + 1) <= DecimalLength(|ls|)
    ensures lineNumbers ==>
              (Body(lineNumbers, ls, sep)[k]
               == Spaces(DecimalLength(|ls|) - DecimalLength(k + 1)) + NatToString(k + 1) + sep + ls[k])
  {
    GutterShape(k + 1, |ls|);
  }

  /** Row `i` of the body, in the form the formatters build it. */
  lemma BodyAt(lineNumbers: bool, ls: seq<string>, sep: string, width: nat, i: nat)
    requires i < |ls| && width == DecimalLength(|ls|)
    ensures |Body(lineNumbers, ls, sep)| == |ls|
    ensures Body(lineNumbers, ls, sep)[i]
            == if lineNumbers then PadLeft(NatToString(i + 1), width) + sep + ls[i] else ls[i]
  {
    if lineNumbers {
      assert NumberedLines(ls, sep)[i] == Gutter(i + 1, |ls|) + sep + ls[i];
    }
  }

  /**
   * Concatenation regroups. Called as a lemma so that the proofs that build outputs piece by
   * piece see this one instance instead of searching for it.
   */
  lemma ConcatAssoc<T>(x: seq<T>, y: seq<T>, z: seq<T>)
    ensures x + y + z == x + (y + z)
  {
  }

  /** Extending a prefix by the next element. */
  lemma PrefixSnoc<T>(s: seq<T>, i: nat)
    requires i < |s|
    ensures s[..i] + [s[i]] == s[..i + 1]
  {
  }

  // ---------------------------------------------------------------------------
  // UTF-8 byte length (`str::len()`)
  // ---------------------------------------------------------------------------

  /** Number of bytes in the UTF-8 encoding of `c`. */
  function Utf8Width(c: char): nat
  {
    if c as int < 0x80 then 1
    else if c as int < 0x800 then 2
    else if c as int < 0x10000 then 3
    else 4
  }

  /** `str::len()`: the length of the UTF-8 encoding of `s`, in bytes. */
  function ByteLen(s: string): nat
  {
    if s == [] then 0 else ByteLen(s[..|s| - 1]) + Utf8Width(s[|s| - 1])
  }

  /** An ASCII string takes one byte per character. */
  lemma {:induction false} ByteLenAscii(s: string)
    requires forall k :: 0 <= k < |s| ==> s[k] as int < 0x80
    ensures ByteLen(s) == |s|
  {
    if s != [] {
      ByteLenAscii(s[..|s| - 1]);
    }
  }

  lemma {:induction false} ByteLenAppend(a: string, b: string)
    ensures ByteLen(a + b) == ByteLen(a) + ByteLen(b)
    decreases |b|
  {
    if b != [] {
      var b' := b[..|b| - 1];
      assert (a + b)[..|a + b| - 1] == a + b';
      assert (a + b)[|a + b| - 1] == b[|b| - 1];
      assert ByteLen(a + b) == ByteLen(a + b') + Utf8Width(b[|b| - 1]);
      ByteLenAppend(a, b');
    } else {
      assert a + b == a;
    }
  }

  /** `str::repeat` for a one-character string. */
  function Repeat(c: char, k: nat): (r: string)
    ensures |r| == k && forall j :: 0 <= j < k ==> r[j] == c
  {
    seq(k, _ => c)
  }

  lemma {:induction false} ByteLenRepeat(c: char, k: nat)
    ensures ByteLen(Repeat(c, k)) == k * Utf8Width(c)
    decreases k
  {
    if k > 0 {
      assert Repeat(c, k)[..k - 1] == Repeat(c, k - 1);
      ByteLenRepeat(c, k - 1);
    }
  }

  lemma ByteLenSpaces(k: nat)
    ensures ByteLen(Spaces(k)) == k
  {
    assert Spaces(k) == Repeat(' ', k);
    ByteLenRepeat(' ', k);
  }
}
