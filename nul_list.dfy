/**
 * The `-0` path list: standard input read as bytes, split at every zero byte, empty pieces
 * dropped, each remaining piece taken as a path and appended to the positional files.
 */
module NulList {
  import opened Text
  import opened Paths

  newtype byte = x: int | 0 <= x < 256

  /**
   * `<[u8]>::split(|b| *b == 0)`: the runs of bytes between zero bytes, in order. `k` zero
   * bytes give `k + 1` runs, any of which may be empty.
   */
  function SplitNul(bytes: seq<byte>): (r: seq<seq<byte>>)
    ensures |r| >= 1
    decreases |bytes|
  {
    var i := IndexOf(bytes, 0);
    if i == |bytes| then [bytes] else [bytes[..i]] + SplitNul(bytes[i + 1..])
  }

  /** No run holds a zero byte. */
  lemma {:induction false} SplitNulRuns(bytes: seq<byte>)
    ensures forall k :: 0 <= k < |SplitNul(bytes)| ==> 0 !in SplitNul(bytes)[k]
    decreases |bytes|
  {
    var i := IndexOf(bytes, 0);
    if i < |bytes| {
      assert forall j :: 0 <= j < i ==> bytes[..i][j] == bytes[j];
      SplitNulRuns(bytes[i + 1..]);
    }
  }

  /** The runs put back together with a zero byte between neighbours. */
  function JoinNul(parts: seq<seq<byte>>): seq<byte>
  {
    if parts == [] then []
    else if |parts| == 1 then parts[0]
    else parts[0] + [0] + JoinNul(parts[1..])
  }

  /** Splitting loses nothing: the runs and the zero bytes between them are the input. */
  lemma {:induction false} JoinSplit(bytes: seq<byte>)
    ensures JoinNul(SplitNul(bytes)) == bytes
    decreases |bytes|
  {
    var i := IndexOf(bytes, 0);
    if i < |bytes| {
      var rest := bytes[i + 1..];
      var tail := SplitNul(rest);
      JoinSplit(rest);
      assert ([bytes[..i]] + tail)[1..] == tail;
      assert bytes == bytes[..i] + [0] + rest;
    }
  }

  /** Runs without zero bytes are split back into themselves. */
  lemma {:induction false} SplitJoin(parts: seq<seq<byte>>)
    requires |parts| >= 1
    requires forall k :: 0 <= k < |parts| ==> 0 !in parts[k]
    ensures SplitNul(JoinNul(parts)) == parts
    decreases |parts|
  {
    var first := parts[0];
    if |parts| == 1 {
      assert forall j :: 0 <= j < |first| ==> first[j] != 0;
      assert IndexOf(first, 0) == |first|;
    } else {
      var rest := parts[1..];
      var tail := JoinNul(rest);
      var s := first + [0] + tail;
      IndexOfSeparated(first, 0, tail);
      assert s[..|first|] == first;
      assert s[|first| + 1..] == tail;
      SplitJoin(rest);
      assert parts == [first] + rest;
    }
  }

  /** A zero byte separates the runs before it from the runs after it. */
  lemma {:induction false} SplitNulSeparated(a: seq<byte>, b: seq<byte>)
    ensures SplitNul(a + [0] + b) == SplitNul(a) + SplitNul(b)
    decreases |a|
  {
    var i := IndexOf(a, 0);
    if i == |a| {
      NoZeroInFront(a, b);
    } else {
      SplitNulSeparated(a[i + 1..], b);
      ZeroInFront(a, b, i);
    }
  }

  /** When `a` holds no zero byte, `a + [0] + b` splits into `a` and the runs of `b`. */
  lemma NoZeroInFront(a: seq<byte>, b: seq<byte>)
    requires IndexOf(a, 0) == |a|
    ensures SplitNul(a) == [a]
    ensures SplitNul(a + [0] + b) == [a] + SplitNul(b)
  {
    var s := a + [0] + b;
    assert 0 !in a by {
      forall j | 0 <= j < |a| ensures a[j] != 0 {
      }
    }
    IndexOfSeparated(a, 0, b);
    assert s[..|a|] == a;
    assert s[|a| + 1..] == b;
  }

  /**
   * When `a` holds a zero byte, `a + [0] + b` splits at the same place as `a`, so the claim
   * for `a` follows from the claim for what comes after that zero byte.
   */
  lemma ZeroInFront(a: seq<byte>, b: seq<byte>, i: nat)
    requires i == IndexOf(a, 0) < |a|
    requires SplitNul(a[i + 1..] + [0] + b) == SplitNul(a[i + 1..]) + SplitNul(b)
    ensures SplitNul(a + [0] + b) == SplitNul(a) + SplitNul(b)
  {
    var s := a + [0] + b;
    IndexOfPrefix(a, [0], 0);
    IndexOfPrefix(a + [0], b, 0);
    SplitAt(s, i);
    SplitAt(a, i);
    SlicesAround(a, b, i);
    ConcatAssoc([a[..i]], SplitNul(a[i + 1..]), SplitNul(b));
  }

  /** A sequence splits at its first zero byte. */
  lemma SplitAt(s: seq<byte>, i: nat)
    requires i == IndexOf(s, 0) < |s|
    ensures SplitNul(s) == [s[..i]] + SplitNul(s[i + 1..])
  {
  }

  /** A first occurrence inside `a` is still the first one once more is appended. */
  lemma {:induction false} IndexOfPrefix<T>(a: seq<T>, c: seq<T>, x: T)
    requires IndexOf(a, x) < |a|
    ensures IndexOf(a + c, x) == IndexOf(a, x)
    decreases |a|
  {
    if a[0] != x {
      assert (a + c)[1..] == a[1..] + c;
      IndexOfPrefix(a[1..], c, x);
    }
  }

  /** The pieces of `a + [0] + b` on either side of an index `i` inside `a`. */
  lemma SlicesAround(a: seq<byte>, b: seq<byte>, i: nat)
    requires i < |a|
    ensures (a + [0] + b)[..i] == a[..i]
    ensures (a + [0] + b)[i + 1..] == a[i + 1..] + [0] + b
  {
  }

  /** The non-empty runs, in order. */
  function NonEmpty(parts: seq<seq<byte>>): (r: seq<seq<byte>>)
    ensures forall k :: 0 <= k < |r| ==> r[k] != [] && r[k] in parts
  {
    if parts == [] then []
    else (if parts[0] == [] then [] else [parts[0]]) + NonEmpty(parts[1..])
  }

  lemma {:induction false} NonEmptyAppend(a: seq<seq<byte>>, b: seq<seq<byte>>)
    ensures NonEmpty(a + b) == NonEmpty(a) + NonEmpty(b)
    decreases |a|
  {
    if a == [] {
      assert a + b == b;
    } else {
      assert (a + b)[1..] == a[1..] + b;
      NonEmptyAppend(a[1..], b);
    }
  }

  /** The paths `-0` contributes, as bytes: the non-empty runs between zero bytes. */
  function NulSegments(bytes: seq<byte>): (r: seq<seq<byte>>)
    ensures forall k :: 0 <= k < |r| ==> r[k] != [] && 0 !in r[k]
  {
    SplitNulRuns(bytes);
    NonEmpty(SplitNul(bytes))
  }

  /** The segments before a zero byte come before the segments after it. */
  lemma NulSegmentsSeparated(a: seq<byte>, b: seq<byte>)
    ensures NulSegments(a + [0] + b) == NulSegments(a) + NulSegments(b)
  {
    SplitNulSeparated(a, b);
    NonEmptyAppend(SplitNul(a), SplitNul(b));
  }

  /** A trailing zero byte, as `find -print0` writes, adds no path. */
  lemma TrailingNul(a: seq<byte>)
    ensures NulSegments(a + [0]) == NulSegments(a)
  {
    NulSegmentsSeparated(a, []);
    assert a + [0] + [] == a + [0];
    assert SplitNul([]) == [[]];
  }

  /** A non-empty run without zero bytes is a single path. */
  lemma SinglePath(a: seq<byte>)
    requires a != [] && 0 !in a
    ensures NulSegments(a) == [a]
  {
    SplitJoin([a]);
    assert JoinNul([a]) == a;
    assert NonEmpty([a]) == [a] + NonEmpty([]);
  }

  /** Each segment taken as a path, in order. */
  function Parsed(parsePath: seq<byte> -> Path, segments: seq<seq<byte>>): (r: seq<Path>)
    ensures |r| == |segments|
    ensures forall k :: 0 <= k < |r| ==> r[k] == parsePath(segments[k])
  {
    seq(|segments|, k requires 0 <= k < |segments| => parsePath(segments[k]))
  }

  /**
   * The loop of `main` under `-0`: every non-empty segment, taken as a path by `parsePath`
   * (`OsStr::from_bytes` then `PathBuf::from`), is pushed after the files already there.
   */
  method AppendNulPaths(files: seq<Path>, bytes: seq<byte>, parsePath: seq<byte> -> Path) returns (r: seq<Path>)
    ensures r == files + Parsed(parsePath, NulSegments(bytes))
  {
    var parts := SplitNul(bytes);
    r := files;
    var i := 0;
    while i < |parts|
      invariant 0 <= i <= |parts|
      invariant r == files + Parsed(parsePath, NonEmpty(parts[..i]))
    {
      var part := parts[i];
      ParsedStep(parsePath, parts, i);
      if part == [] {
        i := i + 1;
        continue;
      }
      r := r + [parsePath(part)];
      i := i + 1;
    }
    assert parts[..i] == parts;
    assert NulSegments(bytes) == NonEmpty(parts);
  }

  /** One more run examined by the loop: a path more exactly when the run is not empty. */
  lemma ParsedStep(parsePath: seq<byte> -> Path, parts: seq<seq<byte>>, i: nat)
    requires i < |parts|
    ensures Parsed(parsePath, NonEmpty(parts[..i + 1]))
            == Parsed(parsePath, NonEmpty(parts[..i])) + (if parts[i] == [] then [] else [parsePath(parts[i])])
  {
    assert parts[..i + 1] == parts[..i] + [parts[i]];
    NonEmptyAppend(parts[..i], [parts[i]]);
    assert NonEmpty([parts[i]]) == if parts[i] == [] then [] else [parts[i]];
  }
}
