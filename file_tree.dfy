/**
 * The filesystem a run reads, and the first loop of `process_files`: every directory named
 * on the command line is replaced by the regular files below it, in walk order.
 */
module FileTree {
  import opened Wrappers
  import opened Paths

  /** What `read_to_string` reports for a path that does not exist. */
  const NotFound: string := "No such file or directory (os error 2)"

  /**
   * The filesystem: `texts` maps every path that `read_to_string` can open (following
   * symbolic links, FIFOs and devices included) to the text it gives or to the error it
   * reports (permission denied, not UTF-8, a directory); `walks` maps every path that
   * `is_dir` accepts to the entries `WalkDir` yields below it (depth one and more, in its
   * order, entries it failed to read already dropped); `regular` holds the walk entries
   * whose own file type, not following a symbolic link, is a regular file.
   */
  datatype FileSystem = FileSystem(texts: map<Path, Result<string, string>>, walks: map<Path, seq<Path>>, regular: set<Path>)

  predicate IsDir(fs: FileSystem, p: Path)
  {
    p in fs.walks
  }

  /** `DirEntry::file_type().is_file()` of a walk entry. */
  predicate IsRegular(fs: FileSystem, p: Path)
  {
    p in fs.regular
  }

  /** `read_file_content`: the file's text, or the reason it cannot be read. */
  function ReadFile(fs: FileSystem, p: Path): (r: Result<string, string>)
    ensures p in fs.texts ==> r == fs.texts[p]
    ensures p !in fs.texts ==> r == Err(NotFound)
  {
    if p in fs.texts then fs.texts[p] else Err(NotFound)
  }

  /** The entries `file_type().is_file()` keeps, in order. */
  function FilesOnly(fs: FileSystem, entries: seq<Path>): (r: seq<Path>)
    ensures forall q :: q in r <==> q in entries && IsRegular(fs, q)
  {
    if entries == [] then []
    else
      var last := entries[|entries| - 1];
      var front := FilesOnly(fs, entries[..|entries| - 1]);
      assert entries == entries[..|entries| - 1] + [last];
      front + (if IsRegular(fs, last) then [last] else [])
  }

  /** The filter keeps walk order: a list split in two is filtered piece by piece. */
  lemma {:induction false} FilesOnlyAppend(fs: FileSystem, a: seq<Path>, b: seq<Path>)
    ensures FilesOnly(fs, a + b) == FilesOnly(fs, a) + FilesOnly(fs, b)
    decreases |b|
  {
    if b == [] {
      assert a + b == a;
    } else {
      var b' := b[..|b| - 1];
      assert (a + b)[..|a + b| - 1] == a + b';
      assert (a + b)[|a + b| - 1] == b[|b| - 1];
      FilesOnlyAppend(fs, a, b');
    }
  }

  /** What one command-line path turns into: a directory its files, anything else itself. */
  function Expansion(fs: FileSystem, p: Path): seq<Path>
  {
    if IsDir(fs, p) then FilesOnly(fs, fs.walks[p]) else [p]
  }

  /** The expanded path list: each path's expansion, in command-line order. */
  function Expanded(fs: FileSystem, ps: seq<Path>): seq<Path>
  {
    if ps == [] then [] else Expanded(fs, ps[..|ps| - 1]) + Expansion(fs, ps[|ps| - 1])
  }

  /** The expansion loop of `process_files`, pushing into `paths`. */
  method Expand(fs: FileSystem, files: seq<Path>) returns (paths: seq<Path>)
    ensures paths == Expanded(fs, files)
  {
    paths := [];
    var i := 0;
    while i < |files|
      invariant 0 <= i <= |files|
      invariant paths == Expanded(fs, files[..i])
    {
      var p := files[i];
      assert files[..i + 1][..i] == files[..i];
      if p in fs.walks {
        var entries := fs.walks[p];
        ghost var before := paths;
        var j := 0;
        while j < |entries|
          invariant 0 <= j <= |entries|
          invariant paths == before + FilesOnly(fs, entries[..j])
        {
          assert entries[..j + 1][..j] == entries[..j];
          if entries[j] in fs.regular {
            paths := paths + [entries[j]];
          }
          j := j + 1;
        }
        assert entries[..j] == entries;
      } else {
        paths := paths + [p];
      }
      i := i + 1;
    }
    assert files[..i] == files;
  }

  /** Expansion keeps the command-line order: a list split in two expands piece by piece. */
  lemma {:induction false} ExpandedAppend(fs: FileSystem, a: seq<Path>, b: seq<Path>)
    ensures Expanded(fs, a + b) == Expanded(fs, a) + Expanded(fs, b)
    decreases |b|
  {
    if b == [] {
      assert a + b == a;
    } else {
      var b' := b[..|b| - 1];
      assert (a + b)[..|a + b| - 1] == a + b';
      assert b[..|b| - 1] == b';
      ExpandedAppend(fs, a, b');
    }
  }

  /** Without directories the list is kept as it is, missing paths included. */
  lemma {:induction false} ExpandedNoDirs(fs: FileSystem, ps: seq<Path>)
    requires forall k :: 0 <= k < |ps| ==> !IsDir(fs, ps[k])
    ensures Expanded(fs, ps) == ps
    decreases |ps|
  {
    if ps != [] {
      var ps' := ps[..|ps| - 1];
      assert forall k :: 0 <= k < |ps'| ==> ps'[k] == ps[k];
      ExpandedNoDirs(fs, ps');
    }
  }

  /**
   * Every expanded path is a command-line path that is not a directory, or a regular file
   * the walk of a command-line directory yielded.
   */
  lemma {:induction false} ExpandedOrigin(fs: FileSystem, ps: seq<Path>, q: Path)
    requires q in Expanded(fs, ps)
    ensures (q in ps && !IsDir(fs, q))
            || (IsRegular(fs, q) && exists p :: p in ps && IsDir(fs, p) && q in fs.walks[p])
    decreases |ps|
  {
    var ps' := ps[..|ps| - 1];
    var p := ps[|ps| - 1];
    assert p in ps;
    if q in Expanded(fs, ps') {
      ExpandedOrigin(fs, ps', q);
      assert forall x :: x in ps' ==> x in ps;
    } else {
      assert q in Expansion(fs, p);
    }
  }
}
