/**
 * Vim modeline detection. The pattern searched for in a line is
 *   (?:vim|vi|ex)\s*:[^:]*:(?:ft|filetype|syntax)=([a-zA-Z0-9_.-]+)
 * unanchored and leftmost-first. `MatchAt` is a deterministic matcher for one start
 * position; `MatchSpan` says declaratively what it means for the pattern to match there,
 * and the two are proved to agree.
 */
module Modeline {
  import opened Wrappers
  import opened Text

  // ---------------------------------------------------------------------------
  // Character classes
  // ---------------------------------------------------------------------------

  /** `\s` of the regex: the Unicode White_Space characters. */
  predicate IsSpace(c: char)
  {
    || ('\t' <= c <= '\r') || c == ' ' || c == '\U{85}' || c == '\U{A0}' || c == '\U{1680}'
    || ('\U{2000}' <= c <= '\U{200A}') || c == '\U{2028}' || c == '\U{2029}' || c == '\U{202F}'
    || c == '\U{205F}' || c == '\U{3000}'
  }

  /** `[a-zA-Z0-9_.-]`. */
  predicate IsValueChar(c: char)
  {
    ('a' <= c <= 'z') || ('A' <= c <= 'Z') || ('0' <= c <= '9') || c == '_' || c == '.' || c == '-'
  }

  // ---------------------------------------------------------------------------
  // The matcher, one piece of the pattern at a time
  // ---------------------------------------------------------------------------

  predicate Has(line: string, i: nat, c: char)
  {
    i < |line| && line[i] == c
  }

  /** End of the editor identifier at `s`; `vim` is tried before `vi`. */
  function KeywordEnd(line: string, s: nat): (r: Option<nat>)
    ensures r.Some? ==> s + 2 <= r.value <= |line|
  {
    if Has(line, s, 'v') && Has(line, s + 1, 'i') then
      if Has(line, s + 2, 'm') then Some(s + 3) else Some(s + 2)
    else if Has(line, s, 'e') && Has(line, s + 1, 'x') then Some(s + 2)
    else None
  }

  /** End of the run of whitespace starting at `i`. */
  function SpacesEnd(line: string, i: nat): (r: nat)
    requires i <= |line|
    ensures i <= r <= |line|
    ensures forall k :: i <= k < r ==> IsSpace(line[k])
    ensures r == |line| || !IsSpace(line[r])
    decreases |line| - i
  {
    if i < |line| && IsSpace(line[i]) then SpacesEnd(line, i + 1) else i
  }

  /** The first ':' at or after `i`. */
  function ColonFrom(line: string, i: nat): (r: Option<nat>)
    requires i <= |line|
    ensures r.Some? ==> i <= r.value < |line| && line[r.value] == ':'
                        && forall k :: i <= k < r.value ==> line[k] != ':'
    ensures r.None? ==> forall k :: i <= k < |line| ==> line[k] != ':'
    decreases |line| - i
  {
    if i == |line| then None
    else if line[i] == ':' then Some(i)
    else ColonFrom(line, i + 1)
  }

  /** Position of the '=' after the key `ft`, `filetype` or `syntax` that starts at `i`. */
  function KeyEnd(line: string, i: nat): (r: Option<nat>)
    ensures r.Some? ==> i + 2 <= r.value < |line| && line[r.value] == '='
  {
    if Has(line, i, 'f') && Has(line, i + 1, 't') && Has(line, i + 2, '=') then Some(i + 2)
    else if Has(line, i, 'f') && Has(line, i + 1, 'i') && Has(line, i + 2, 'l') && Has(line, i + 3, 'e')
            && Has(line, i + 4, 't') && Has(line, i + 5, 'y') && Has(line, i + 6, 'p') && Has(line, i + 7, 'e')
            && Has(line, i + 8, '=') then Some(i + 8)
    else if Has(line, i, 's') && Has(line, i + 1, 'y') && Has(line, i + 2, 'n') && Has(line, i + 3, 't')
            && Has(line, i + 4, 'a') && Has(line, i + 5, 'x') && Has(line, i + 6, '=') then Some(i + 6)
    else None
  }

  /** End of the run of value characters starting at `i`: the greedy `+`. */
  function ValueEnd(line: string, i: nat): (r: nat)
    requires i <= |line|
    ensures i <= r <= |line|
    ensures forall k :: i <= k < r ==> IsValueChar(line[k])
    ensures r == |line| || !IsValueChar(line[r])
    decreases |line| - i
  {
    if i < |line| && IsValueChar(line[i]) then ValueEnd(line, i + 1) else i
  }

  /** The capture of a match of the pattern that starts at `s`, if there is one. */
  function MatchAt(line: string, s: nat): Option<string>
  {
    match KeywordEnd(line, s)
    case None => None
    case Some(a) => FromSpaces(line, a)
  }

  /** The rest of the match after the identifier: whitespace, then ':'. */
  function FromSpaces(line: string, a: nat): Option<string>
    requires a <= |line|
  {
    var b := SpacesEnd(line, a);
    if Has(line, b, ':') then FromText(line, b + 1) else None
  }

  /** The rest after the first ':': colon-free text, then ':'. */
  function FromText(line: string, i: nat): Option<string>
    requires i <= |line|
  {
    match ColonFrom(line, i)
    case None => None
    case Some(c) => FromKey(line, c + 1)
  }

  /** The rest after the second ':': the key, then '='. */
  function FromKey(line: string, i: nat): Option<string>
  {
    match KeyEnd(line, i)
    case None => None
    case Some(d) => FromValue(line, d + 1)
  }

  /** The captured value: the longest non-empty run of value characters. */
  function FromValue(line: string, i: nat): Option<string>
    requires i <= |line|
  {
    var e := ValueEnd(line, i);
    if e == i then None else Some(line[i..e])
  }

  /** `Regex::captures(line).get(1)`: the capture of the leftmost match. */
  function Find(line: string): Option<string>
  {
    FindFrom(line, 0)
  }

  function FindFrom(line: string, s: nat): Option<string>
    decreases |line| - s
  {
    if s >= |line| then None
    else
      match MatchAt(line, s)
      case Some(v) => Some(v)
      case None => FindFrom(line, s + 1)
  }

  // ---------------------------------------------------------------------------
  // What a match is
  // ---------------------------------------------------------------------------

  ghost predicate IsKeyword(w: string)
  {
    w == "vim" || w == "vi" || w == "ex"
  }

  ghost predicate IsKey(w: string)
  {
    w == "ft" || w == "filetype" || w == "syntax"
  }

  /**
   * The pattern matches `line[s..e]`: the identifier `line[s..a]`, whitespace `line[a..b]`,
   * ':' at `b`, colon-free text up to the ':' at `c`, the key `line[c+1..d]`, '=' at `d` and
   * the non-empty captured value `line[d+1..e]`.
   */
  ghost predicate MatchSpan(line: string, s: nat, a: nat, b: nat, c: nat, d: nat, e: nat)
  {
    && s <= a <= b < c < d && d + 1 < e <= |line|
    && IsKeyword(line[s..a])
    && (forall k :: a <= k < b ==> IsSpace(line[k]))
    && line[b] == ':'
    && (forall k :: b < k < c ==> line[k] != ':')
    && line[c] == ':'
    && IsKey(line[c + 1..d])
    && line[d] == '='
    && (forall k :: d < k < e ==> IsValueChar(line[k]))
  }

  /** The pattern matches at `s` with capture `v`, the value run taken as far as it goes. */
  ghost predicate MatchesAt(line: string, s: nat, v: string)
  {
    exists a: nat, b: nat, c: nat, d: nat, e: nat :: MatchSpan(line, s, a, b, c, d, e) && (e == |line| || !IsValueChar(line[e])) && v == line[d + 1..e]
  }

  ghost predicate Matchable(line: string, s: nat)
  {
    exists a: nat, b: nat, c: nat, d: nat, e: nat :: MatchSpan(line, s, a, b, c, d, e)
  }

  lemma KeywordSound(line: string, s: nat)
    requires KeywordEnd(line, s).Some?
    ensures IsKeyword(line[s..KeywordEnd(line, s).value])
  {
    var a := KeywordEnd(line, s).value;
    var w := line[s..a];
    if a == s + 3 {
      assert w == "vim" by {
        assert w[0] == 'v' && w[1] == 'i' && w[2] == 'm';
      }
    } else if line[s] == 'v' {
      assert w == "vi" by {
        assert w[0] == 'v' && w[1] == 'i';
      }
    } else {
      assert w == "ex" by {
        assert w[0] == 'e' && w[1] == 'x';
      }
    }
  }

  lemma KeySound(line: string, i: nat)
    requires KeyEnd(line, i).Some?
    ensures IsKey(line[i..KeyEnd(line, i).value])
  {
    var d := KeyEnd(line, i).value;
    var w := line[i..d];
    if d == i + 2 {
      assert w == "ft" by {
        assert w[0] == 'f' && w[1] == 't';
      }
    } else if d == i + 8 {
      assert w == "filetype" by {
        assert w[0] == 'f' && w[1] == 'i' && w[2] == 'l' && w[3] == 'e';
        assert w[4] == 't' && w[5] == 'y' && w[6] == 'p' && w[7] == 'e';
      }
    } else {
      assert w == "syntax" by {
        assert w[0] == 's' && w[1] == 'y' && w[2] == 'n' && w[3] == 't' && w[4] == 'a' && w[5] == 'x';
      }
    }
  }

  /** Soundness: a capture of the matcher is a capture of the pattern. */
  lemma MatchAtSound(line: string, s: nat)
    requires MatchAt(line, s).Some?
    ensures MatchesAt(line, s, MatchAt(line, s).value)
  {
    var a := KeywordEnd(line, s).value;
    var b := SpacesEnd(line, a);
    var c := ColonFrom(line, b + 1).value;
    var d := KeyEnd(line, c + 1).value;
    var e := ValueEnd(line, d + 1);
    KeywordSound(line, s);
    KeySound(line, c + 1);
    SpanOf(line, s, a, b, c, d, e);
  }

  lemma SpanOf(line: string, s: nat, a: nat, b: nat, c: nat, d: nat, e: nat)
    requires s <= a <= b < c < d && d + 1 < e <= |line|
    requires IsKeyword(line[s..a])
    requires forall k :: a <= k < b ==> IsSpace(line[k])
    requires line[b] == ':'
    requires forall k :: b + 1 <= k < c ==> line[k] != ':'
    requires line[c] == ':'
    requires IsKey(line[c + 1..d])
    requires line[d] == '='
    requires forall k :: d + 1 <= k < e ==> IsValueChar(line[k])
    ensures MatchSpan(line, s, a, b, c, d, e)
  {
  }

  lemma KeywordComplete(line: string, s: nat, a: nat, b: nat)
    requires s <= a <= b < |line| && IsKeyword(line[s..a])
    requires forall k :: a <= k < b ==> IsSpace(line[k])
    requires line[b] == ':'
    ensures KeywordEnd(line, s) == Some(a)
  {
    var w := line[s..a];
    if w == "vim" {
      assert line[s] == w[0] && line[s + 1] == w[1] && line[s + 2] == w[2];
    } else if w == "vi" {
      assert line[s] == w[0] && line[s + 1] == w[1];
      assert !IsSpace('m');
      assert a < |line| && line[a] != 'm';
    } else {
      assert line[s] == w[0] && line[s + 1] == w[1];
    }
  }

  lemma SpacesEndAt(line: string, a: nat, b: nat)
    requires a <= b < |line|
    requires forall k :: a <= k < b ==> IsSpace(line[k])
    requires !IsSpace(line[b])
    ensures SpacesEnd(line, a) == b
  {
  }

  lemma KeyComplete(line: string, i: nat, d: nat)
    requires i <= d < |line| && IsKey(line[i..d]) && line[d] == '='
    ensures KeyEnd(line, i) == Some(d)
  {
    var w := line[i..d];
    if w == "ft" {
      assert line[i] == w[0] && line[i + 1] == w[1];
    } else if w == "filetype" {
      assert line[i] == w[0] && line[i + 1] == w[1] && line[i + 2] == w[2] && line[i + 3] == w[3];
      assert line[i + 4] == w[4] && line[i + 5] == w[5] && line[i + 6] == w[6] && line[i + 7] == w[7];
    } else {
      assert line[i] == w[0] && line[i + 1] == w[1] && line[i + 2] == w[2];
      assert line[i + 3] == w[3] && line[i + 4] == w[4] && line[i + 5] == w[5];
    }
  }

  /** Completeness: wherever the pattern can match, the matcher finds a capture. */
  lemma MatchAtComplete(line: string, s: nat, a: nat, b: nat, c: nat, d: nat, e: nat)
    requires MatchSpan(line, s, a, b, c, d, e)
    ensures MatchAt(line, s) == Some(line[d + 1..ValueEnd(line, d + 1)])
  {
    KeywordComplete(line, s, a, b);
    FromSpacesComplete(line, a, b, c, d, e);
  }

  lemma FromSpacesComplete(line: string, a: nat, b: nat, c: nat, d: nat, e: nat)
    requires a <= b < c < d && d + 1 < e <= |line|
    requires forall k :: a <= k < b ==> IsSpace(line[k])
    requires line[b] == ':'
    requires forall k :: b < k < c ==> line[k] != ':'
    requires line[c] == ':' && IsKey(line[c + 1..d]) && line[d] == '='
    requires forall k :: d < k < e ==> IsValueChar(line[k])
    ensures FromSpaces(line, a) == Some(line[d + 1..ValueEnd(line, d + 1)])
  {
    SpacesEndAt(line, a, b);
    FromTextComplete(line, b + 1, c, d, e);
  }

  lemma FromTextComplete(line: string, i: nat, c: nat, d: nat, e: nat)
    requires i <= c < d && d + 1 < e <= |line|
    requires forall k :: i <= k < c ==> line[k] != ':'
    requires line[c] == ':' && IsKey(line[c + 1..d]) && line[d] == '='
    requires forall k :: d < k < e ==> IsValueChar(line[k])
    ensures FromText(line, i) == Some(line[d + 1..ValueEnd(line, d + 1)])
  {
    ColonFromAt(line, i, c);
    FromKeyComplete(line, c + 1, d, e);
  }

  lemma ColonFromAt(line: string, i: nat, c: nat)
    requires i <= c < |line| && line[c] == ':'
    requires forall k :: i <= k < c ==> line[k] != ':'
    ensures ColonFrom(line, i) == Some(c)
  {
  }

  lemma FromKeyComplete(line: string, i: nat, d: nat, e: nat)
    requires i <= d && d + 1 < e <= |line|
    requires IsKey(line[i..d]) && line[d] == '='
    requires forall k :: d < k < e ==> IsValueChar(line[k])
    ensures FromKey(line, i) == Some(line[d + 1..ValueEnd(line, d + 1)])
  {
    KeyComplete(line, i, d);
    assert ValueEnd(line, d + 1) >= e;
  }

  lemma MatchAtNone(line: string, s: nat)
    requires MatchAt(line, s).None?
    ensures !Matchable(line, s)
  {
    if Matchable(line, s) {
      var a, b, c, d, e :| MatchSpan(line, s, a, b, c, d, e);
      MatchAtComplete(line, s, a, b, c, d, e);
    }
  }

  /** `Find` returns the capture at the leftmost position where the pattern matches. */
  lemma {:induction false} FindFromSome(line: string, s: nat)
    requires forall t: nat :: t < s ==> !Matchable(line, t)
    requires FindFrom(line, s).Some?
    ensures exists t: nat :: s <= t < |line| && MatchesAt(line, t, FindFrom(line, s).value)
                             && forall u: nat :: u < t ==> !Matchable(line, u)
    decreases |line| - s
  {
    if MatchAt(line, s).Some? {
      MatchAtSound(line, s);
    } else {
      MatchAtNone(line, s);
      FindFromSome(line, s + 1);
    }
  }

  /** `Find` returns nothing only when the pattern matches nowhere. */
  lemma {:induction false} FindFromNone(line: string, s: nat)
    requires forall t: nat :: t < s ==> !Matchable(line, t)
    requires FindFrom(line, s).None?
    ensures forall t: nat :: !Matchable(line, t)
    decreases |line| - s
  {
    if s >= |line| {
      forall t: nat
        ensures !Matchable(line, t)
      {
        if t >= s {
          NoMatchPastEnd(line, t);
        }
      }
    } else {
      MatchAtNone(line, s);
      FindFromNone(line, s + 1);
    }
  }

  lemma ValueEndAt(line: string, i: nat, e: nat)
    requires i <= e <= |line|
    requires forall k :: i <= k < e ==> IsValueChar(line[k])
    requires e == |line| || !IsValueChar(line[e])
    ensures ValueEnd(line, i) == e
    decreases e - i
  {
    if i < e {
      ValueEndAt(line, i + 1, e);
    }
  }

  lemma {:induction false} FindFromSkip(line: string, t: nat, s: nat)
    requires t <= s
    requires forall u: nat :: t <= u < s ==> MatchAt(line, u).None?
    ensures FindFrom(line, t) == FindFrom(line, s)
    decreases s - t
  {
    if t < s {
      FindFromSkip(line, t + 1, s);
    }
  }

  /**
   * Conversely: at the leftmost position where the pattern matches, `Find` returns that
   * match's capture, the value run taken as far as it goes.
   */
  lemma FirstMatchWins(line: string, s: nat, a: nat, b: nat, c: nat, d: nat, e: nat)
    requires MatchSpan(line, s, a, b, c, d, e) && (e == |line| || !IsValueChar(line[e]))
    requires forall t: nat :: t < s ==> !Matchable(line, t)
    ensures Find(line) == Some(line[d + 1..e])
  {
    forall u: nat | u < s
      ensures MatchAt(line, u).None?
    {
      UnmatchableNone(line, u);
    }
    FindFromSkip(line, 0, s);
    MatchAtComplete(line, s, a, b, c, d, e);
    ValueEndAt(line, d + 1, e);
    assert s < |line|;
    assert FindFrom(line, s) == MatchAt(line, s);
  }

  lemma UnmatchableNone(line: string, u: nat)
    requires !Matchable(line, u)
    ensures MatchAt(line, u).None?
  {
    if MatchAt(line, u).Some? {
      MatchAtSound(line, u);
    }
  }

  lemma NoMatchPastEnd(line: string, t: nat)
    requires t >= |line|
    ensures !Matchable(line, t)
  {
  }

  lemma FindSpec(line: string)
    ensures Find(line).Some? ==>
              exists t: nat :: t < |line| && MatchesAt(line, t, Find(line).value)
                          && forall u: nat :: u < t ==> !Matchable(line, u)
    ensures Find(line).None? ==> forall t: nat :: !Matchable(line, t)
  {
    if Find(line).Some? {
      FindFromSome(line, 0);
    } else {
      FindFromNone(line, 0);
    }
  }

  /** A line with fewer than two colons never matches: the pattern needs two. */
  lemma OneColonNoMatch(line: string)
    requires forall i, j :: 0 <= i < j < |line| && line[i] == ':' ==> line[j] != ':'
    ensures Find(line) == None
  {
    forall t: nat, a: nat, b: nat, c: nat, d: nat, e: nat
      ensures !MatchSpan(line, t, a, b, c, d, e)
    {
      if b < c < |line| && line[b] == ':' {
        assert line[c] != ':';
      }
    }
    FindSpec(line);
  }

  // ---------------------------------------------------------------------------
  // find_syntax_from_modeline
  // ---------------------------------------------------------------------------

  /** The capture of each line. */
  function Captures(ls: seq<string>): (r: seq<Option<string>>)
    ensures |r| == |ls| && forall k :: 0 <= k < |ls| ==> r[k] == Find(ls[k])
  {
    seq(|ls|, k requires 0 <= k < |ls| => Find(ls[k]))
  }

  /** The last `n` elements, nearest the end first. */
  function NearEnd<T>(xs: seq<T>, n: nat): (r: seq<T>)
    requires n <= |xs|
    ensures |r| == n && forall k :: 0 <= k < n ==> r[k] == xs[|xs| - 1 - k]
  {
    seq(n, k requires 0 <= k < n => xs[|xs| - 1 - k])
  }

  /** The capture of the first line of `ls` that matches. */
  function FirstMatch(ls: seq<string>): Option<string>
  {
    FirstPresent(Captures(ls))
  }

  /**
   * The syntax name a file's modeline gives: the capture of the first of the first five
   * lines that matches; failing that, when there are more than five lines, the capture of
   * the first of the last five lines that matches, looking from the end.
   */
  function ModelineSyntax(ls: seq<string>): Option<string>
  {
    FirstMatch(ls[..Min(5, |ls|)]).Or(if |ls| > 5 then FirstMatch(NearEnd(ls, 5)) else None)
  }

  /**
   * The scan as one sequence: the result is the capture of the first line that matches in
   * the order first five lines, then the last five from the end. By the contract of
   * `FirstPresent` it is absent exactly when none of those lines matches, and otherwise it
   * is the capture of one of them that every line looked at before it fails to match.
   */
  lemma {:induction false} ScanOrder(ls: seq<string>)
    ensures ModelineSyntax(ls) == FirstPresent(Captures(ls[..Min(5, |ls|)]) + (if |ls| > 5 then Captures(NearEnd(ls, 5)) else []))
  {
    var head := Captures(ls[..Min(5, |ls|)]);
    var tail := if |ls| > 5 then Captures(NearEnd(ls, 5)) else [];
    FirstPresentAppend(head, tail);
  }

  lemma {:induction false} FirstPresentAppend<T>(a: seq<Option<T>>, b: seq<Option<T>>)
    ensures FirstPresent(a + b) == FirstPresent(a).Or(FirstPresent(b))
  {
    if a != [] {
      assert (a + b)[0] == a[0];
      assert (a + b)[1..] == a[1..] + b;
      FirstPresentAppend(a[1..], b);
    } else {
      assert a + b == b;
    }
  }

  /**
   * In a file of more than five lines, a match among the first five wins over any match near
   * the end.
   */
  lemma {:induction false} HeadWins(ls: seq<string>, k: nat)
    requires |ls| > 5 && k < 5 && Find(ls[k]).Some?
    ensures ModelineSyntax(ls) == FirstMatch(ls[..5])
    ensures exists j :: 0 <= j <= k && ModelineSyntax(ls) == Find(ls[j])
  {
    var head := Captures(ls[..5]);
    assert head[k] == Find(ls[k]);
    var r := FirstPresent(head);
    var j :| 0 <= j < |head| && head[j] == r && forall i :: 0 <= i < j ==> head[i].None?;
    assert j <= k;
    assert head[j] == Find(ls[j]);
  }

  /** Only the first five and the last five lines are ever looked at. */
  lemma {:induction false} ModelineLocal(ls: seq<string>, ms: seq<string>)
    requires |ls| == |ms|
    requires forall k :: 0 <= k < |ls| && (k < 5 || k >= |ls| - 5) ==> ls[k] == ms[k]
    ensures ModelineSyntax(ls) == ModelineSyntax(ms)
  {
    assert ls[..Min(5, |ls|)] == ms[..Min(5, |ms|)];
    if |ls| > 5 {
      assert NearEnd(ls, 5) == NearEnd(ms, 5);
    }
  }

  /**
   * `find_syntax_from_modeline`: collect the lines, scan the first five in order, then, if
   * there are more than five, the last five from the end; the first capture is returned at once.
   */
  method FindSyntaxFromModeline(content: string) returns (r: Option<string>)
    ensures r == ModelineSyntax(Lines(content))
  {
    var lines := Lines(content);
    r := ScanFirst(lines);
    if r.Some? {
      return r;
    }
    if |lines| > 5 {
      r := ScanLast(lines);
    }
  }

  /** The first loop: the first five lines in order, returning at the first capture. */
  method ScanFirst(lines: seq<string>) returns (r: Option<string>)
    ensures r == FirstMatch(lines[..Min(5, |lines|)])
  {
    ghost var caps := Captures(lines[..Min(5, |lines|)]);
    var i := 0;
    while i < |lines| && i < 5
      invariant 0 <= i <= |caps|
      invariant FirstPresent(caps) == FirstPresent(caps[i..])
    {
      var c := Find(lines[i]);
      assert caps[i..][0] == c;
      if c.Some? {
        return c;
      }
      assert caps[i..][1..] == caps[i + 1..];
      i := i + 1;
    }
    assert caps[i..] == [];
    return None;
  }

  /** The second loop: the last five lines from the end, returning at the first capture. */
  method ScanLast(lines: seq<string>) returns (r: Option<string>)
    requires |lines| > 5
    ensures r == FirstMatch(NearEnd(lines, 5))
  {
    ghost var caps := Captures(NearEnd(lines, 5));
    var j := 0;
    while j < 5
      invariant 0 <= j <= 5
      invariant FirstPresent(caps) == FirstPresent(caps[j..])
    {
      var c := Find(lines[|lines| - 1 - j]);
      assert caps[j..][0] == c;
      if c.Some? {
        return c;
      }
      assert caps[j..][1..] == caps[j + 1..];
      j := j + 1;
    }
    assert caps[j..] == [];
    return None;
  }

  /** A text before the second colon does not stop the match: `# vim: ts=4:ft=rust` names `rust`. */
  lemma ColonSeparatedExample()
    ensures Find("# vim: ts=4:ft=rust") == Some("rust")
  {
    var line := "# vim: ts=4:ft=rust";
    NoKeywordAt(line, 0);
    NoKeywordAt(line, 1);
    ExampleSpan();
    FirstMatchWins(line, 2, 5, 5, 11, 14, 19);
    ExampleCapture();
  }

  lemma ExampleSpan()
    ensures MatchSpan("# vim: ts=4:ft=rust", 2, 5, 5, 11, 14, 19)
    ensures |"# vim: ts=4:ft=rust"| == 19
  {
  }

  lemma ExampleCapture()
    ensures "# vim: ts=4:ft=rust"[15..19] == "rust"
  {
    var line := "# vim: ts=4:ft=rust";
    assert line[15..19] == line[15..];
  }

  /** No match starts at a character that cannot begin `vim`, `vi` or `ex`. */
  lemma NoKeywordAt(line: string, t: nat)
    requires t < |line| && line[t] != 'v' && line[t] != 'e'
    ensures !Matchable(line, t)
  {
    forall a: nat, b: nat, c: nat, d: nat, e: nat
      ensures !MatchSpan(line, t, a, b, c, d, e)
    {
      if t < a <= |line| {
        assert line[t..a][0] == line[t];
      }
    }
  }

  /** With a single colon there is no match: `// vim: ft=rust` names nothing. */
  lemma SingleColonExample()
    ensures Find("// vim: ft=rust") == None
  {
    OneColonNoMatch("// vim: ft=rust");
  }
}
