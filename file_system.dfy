/**
 * The filesystem as the evidence collectors see it: a map from path strings to file contents and
 * a set of directories that have been created. `Path.Combine` and `Path.GetFileName` are modelled
 * on the text of the paths, with `/` as the separator and no normalisation of `..`.
 */
module FileSystem {
  import opened Text

  newtype byte = b: int | 0 <= b < 256

  type Bytes = seq<byte>

  type Path = string

  /** The first part of a combined path: a separator is added unless the part is empty or ends in one. */
  function DirPrefix(a: Path): (p: Path)
    ensures StartsWith(p, a)
    ensures p == [] || p[|p| - 1] == '/'
    // the separator is appended only when `a` does not already end in one
    ensures (a == [] || a[|a| - 1] == '/') ==> p == a
    ensures |p| <= |a| + 1
  {
    if a == [] then [] else if a[|a| - 1] == '/' then a else a + "/"
  }

  /** `Path.Combine(a, b)`: an empty `b` gives `a`, a rooted `b` replaces `a`, otherwise the two are joined. */
  function Combine(a: Path, b: Path): Path
  {
    if b == [] then a
    else if b[0] == '/' then b
    else DirPrefix(a) + b
  }

  /** A non-empty path segment without separators, such as "sbom" or "bom.json". */
  predicate Segment(s: string)
  {
    s != [] && '/' !in s
  }

  /** A non-empty path that is not rooted: combining appends it. */
  predicate Relative(s: string)
  {
    s != [] && s[0] != '/'
  }

  /** A relative path that does not end in a separator either, such as a folder name. */
  predicate Folder(s: string)
  {
    Relative(s) && s[|s| - 1] != '/'
  }

  /** `Path.GetFileName`: the text after the last separator. */
  function FileName(p: Path): (n: Path)
    ensures '/' !in n
  {
    if p == [] then []
    else if p[|p| - 1] == '/' then []
    else FileName(p[..|p| - 1]) + [p[|p| - 1]]
  }

  /** Combining a directory with a segment puts the segment after the directory's prefix. */
  lemma CombineSegment(a: Path, b: Path)
    requires Relative(b)
    ensures Combine(a, b) == DirPrefix(a) + b
    ensures StartsWith(Combine(a, b), a)
  {
  }

  /** `Path.Combine(a, d, f)` for two segments: the prefix of `a`, then "d/f". */
  lemma CombineTwoSegments(a: Path, d: Path, f: Path)
    requires Folder(d) && Relative(f)
    ensures Combine(Combine(a, d), f) == DirPrefix(a) + d + "/" + f
    ensures StartsWith(Combine(Combine(a, d), f), a)
  {
    CombineSegment(a, d);
    var x := DirPrefix(a) + d;
    assert x[|x| - 1] == d[|d| - 1];
    CombineSegment(x, f);
  }

  /** The file name of a segment joined to any directory is the segment itself. */
  lemma {:induction false} FileNameOfCombine(a: Path, name: Path)
    requires Segment(name)
    ensures FileName(Combine(a, name)) == name
  {
    assert name[0] in name;
    CombineSegment(a, name);
    FileNameAfterSeparator(DirPrefix(a), name);
  }

  lemma {:induction false} FileNameAfterSeparator(prefix: Path, name: Path)
    requires prefix == [] || prefix[|prefix| - 1] == '/'
    requires '/' !in name
    ensures FileName(prefix + name) == name
    decreases |name|
  {
    if name == [] {
      assert prefix + name == prefix;
    } else {
      var n := |name| - 1;
      var init := name[..n];
      assert name[n] in name;
      assert '/' !in init;
      FileNameAfterSeparator(prefix, init);
      var p := prefix + name;
      assert p[|p| - 1] == name[n];
      assert p[..|p| - 1] == prefix + init;
      assert FileName(p) == FileName(prefix + init) + [name[n]];
      assert name == init + [name[n]];
    }
  }

  /** Two paths under one prefix differ when their remainders differ at some position. */
  lemma DistinctAfterPrefix(p: Path, x: Path, y: Path, i: nat)
    requires i < |x| && i < |y| && x[i] != y[i]
    ensures p + x != p + y
  {
    assert (p + x)[|p| + i] == x[i];
    assert (p + y)[|p| + i] == y[i];
  }

  /** Two paths differ when their endings differ at the same distance from the end. */
  lemma DistinctEndings(a: Path, x: Path, b: Path, y: Path, i: nat)
    requires 0 < i <= |x| && i <= |y| && x[|x| - i] != y[|y| - i]
    ensures a + x != b + y
  {
    var p := a + x;
    var q := b + y;
    assert p[|p| - i] == x[|x| - i];
    assert q[|q| - i] == y[|y| - i];
  }

  /** Two segments joined to the same directory differ when the segments differ at some position. */
  lemma CombinedSegmentsDiffer(a: Path, x: Path, y: Path, i: nat)
    requires Relative(x) && Relative(y) && i < |x| && i < |y| && x[i] != y[i]
    ensures Combine(a, x) != Combine(a, y)
  {
    CombineSegment(a, x);
    CombineSegment(a, y);
    DistinctAfterPrefix(DirPrefix(a), x, y, i);
  }

  /** Two files in sub-folders differ when their names differ at the same distance from the end. */
  lemma CombinedFilesDiffer(a: Path, d: Path, f: Path, b: Path, e: Path, g: Path, i: nat)
    requires Folder(d) && Relative(f) && Folder(e) && Relative(g)
    requires 0 < i <= |f| && i <= |g| && f[|f| - i] != g[|g| - i]
    ensures Combine(Combine(a, d), f) != Combine(Combine(b, e), g)
  {
    CombineTwoSegments(a, d, f);
    CombineTwoSegments(b, e, g);
    DistinctEndings(DirPrefix(a) + d + "/", f, DirPrefix(b) + e + "/", g, i);
  }

  // ---------------------------------------------------------------------------------------------

  datatype FileSystem = FileSystem(files: map<Path, Bytes>, dirs: set<Path>)

  /** `File.Exists`. */
  predicate FileExists(fs: FileSystem, p: Path)
  {
    p in fs.files
  }

  /** `Directory.Exists`. */
  predicate DirectoryExists(fs: FileSystem, p: Path)
  {
    p in fs.dirs
  }

  /** `FileCopy.GetSizeOrZero` and `FileInfo.Length`: the length of the file, 0 when it is absent. */
  function SizeOrZero(fs: FileSystem, p: Path): nat
  {
    if p in fs.files then |fs.files[p]| else 0
  }

  /** `Directory.CreateDirectory`: idempotent, no file changes. */
  function CreateDirectory(fs: FileSystem, p: Path): FileSystem
  {
    fs.(dirs := fs.dirs + {p})
  }

  /** `File.WriteAllText` and `File.Create` followed by a copy: the file is created or truncated. */
  function WriteFile(fs: FileSystem, p: Path, data: Bytes): FileSystem
  {
    fs.(files := fs.files[p := data])
  }

  /** `FileCopy.CopyAsync` and the stream copies: the destination gets the source's bytes. */
  function CopyFile(fs: FileSystem, source: Path, destination: Path): FileSystem
    requires source in fs.files
  {
    WriteFile(fs, destination, fs.files[source])
  }

  /** `fs'` agrees with `fs` on path `p`: both lack it or both hold the same bytes. */
  predicate SameAt(fs: FileSystem, fs': FileSystem, p: Path)
  {
    (p in fs.files <==> p in fs'.files) && (p in fs.files ==> fs'.files[p] == fs.files[p])
  }
}
