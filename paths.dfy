/**
 * Paths as the program sees them through `Path::iter`: a sequence of components, where an
 * absolute path starts with the root component "/". Display, extension and the display-name
 * stripping of `--strip`.
 */
module Paths {
  import opened Wrappers

  type Path = seq<string>

  const Root: string := "/"

  /** The path that stands for standard input. */
  const StdinPath: Path := ["-"]

  /** Components joined by "/". */
  function Join(cs: seq<string>): string
  {
    if cs == [] then []
    else if |cs| == 1 then cs[0]
    else Join(cs[..|cs| - 1]) + "/" + cs[|cs| - 1]
  }

  /** `Path::display`: the components joined by "/", with no separator after the root. */
  function Display(p: Path): string
  {
    if p == [] then []
    else if p[0] == Root then Root + Join(p[1..])
    else Join(p)
  }

  /** Index of the last '.' in `name`, if any. */
  function LastDot(name: string): (r: Option<nat>)
    ensures r.None? ==> '.' !in name
    ensures r.Some? ==> r.value < |name| && name[r.value] == '.'
                        && forall j :: r.value < j < |name| ==> name[j] != '.'
  {
    if name == [] then None
    else if name[|name| - 1] == '.' then Some(|name| - 1)
    else
      var r := LastDot(name[..|name| - 1]);
      assert forall j :: 0 <= j < |name| - 1 ==> name[..|name| - 1][j] == name[j];
      r
  }

  /**
   * A final component that has an extension: a file name (not the root, "." or "..") with a
   * '.' somewhere after its first character.
   */
  ghost predicate HasExtension(name: string)
  {
    && name != Root && name != "." && name != ".."
    && exists i :: 0 < i < |name| && name[i] == '.'
  }

  /**
   * `Path::extension`: the part of the file name after its last '.', when the path ends in a
   * file name (not the root, "." or "..") and that dot is not the name's first character.
   */
  function Extension(p: Path): (r: Option<string>)
    ensures r.Some? <==> p != [] && HasExtension(p[|p| - 1])
    ensures r.Some? ==> p != [] && '.' !in r.value
    ensures r.Some? ==> exists stem :: stem != [] && p[|p| - 1] == stem + "." + r.value
  {
    if p == [] then None
    else
      var name := p[|p| - 1];
      if name == Root || name == "." || name == ".." then None
      else
        match LastDot(name)
        case None => None
        case Some(i) =>
          if i == 0 then None
          else
            var ext := name[i + 1..];
            assert name == name[..i] + "." + ext;
            assert forall j :: 0 <= j < |ext| ==> ext[j] == name[i + 1 + j];
            Some(ext)
  }

  /** The extension as the formatters use it, `""` when there is none. */
  function ExtensionOrEmpty(p: Path): string
  {
    Extension(p).UnwrapOr("")
  }

  /**
   * `strip_components`: drops up to `n` leading components but always keeps the last one;
   * the empty path is returned as it is.
   */
  function StripComponents(p: Path, n: nat): (r: Path)
    ensures |p| <= 1 ==> r == p
    ensures |p| >= 2 ==> |r| == |p| - Min(n, |p| - 1)
    ensures p != [] ==> r != [] && r[|r| - 1] == p[|p| - 1]
    ensures n == 0 ==> r == p
  {
    if p == [] then p
    else
      var start := if |p| > 1 then Min(n, |p| - 1) else 0;
      p[start..]
  }

  /** What is left is the tail of the path: its last `|r|` components, in order. */
  lemma StripIsSuffix(p: Path, n: nat)
    ensures var r := StripComponents(p, n);
            |r| <= |p| && forall j :: 0 <= j < |r| ==> r[j] == p[|p| - |r| + j]
  {
  }

  /** Stripping twice is stripping the sum. */
  lemma StripComponentsCompose(p: Path, a: nat, b: nat)
    ensures StripComponents(StripComponents(p, a), b) == StripComponents(p, a + b)
  {
    if |p| >= 2 {
      var s1 := Min(a, |p| - 1);
      var q := p[s1..];
      assert StripComponents(p, a) == q;
      if |q| >= 2 {
        var s2 := Min(b, |q| - 1);
        assert s1 + s2 == Min(a + b, |p| - 1);
        assert q[s2..] == p[s1 + s2..];
      }
    }
  }

  /** With a count of at least the number of directories, only the file name is left. */
  lemma StripToFileName(p: Path, n: nat)
    requires p != [] && n >= |p| - 1
    ensures StripComponents(p, n) == [p[|p| - 1]]
  {
    var r := StripComponents(p, n);
    assert |r| == 1;
  }
}
