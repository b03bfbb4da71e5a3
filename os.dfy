/**
 * An abstract local filesystem and the three Go standard-library calls the
 * issuance workflow makes on it: `os.Stat`, `os.ReadFile` and `os.MkdirAll`.
 * A path is a sequence of components; `filepath.Join` appends components.
 */
module Os {

  /** A path as its list of components: `a/b/c` is ["a", "b", "c"]. */
  type Path = seq<string>

  /** `filepath.Join(dir, name)` for a single-component name. */
  function Join(dir: Path, name: string): (p: Path)
    ensures |p| == |dir| + 1 && p[..|dir|] == dir && p[|dir|] == name
  {
    dir + [name]
  }

  /** What a path names: a directory, or a regular file with its contents. */
  datatype Entry = Dir | File(data: string)

  /** The filesystem: every existing path and what it names. */
  type FileSystem = map<Path, Entry>

  /** The `syscall.Errno` values the modelled calls can report. */
  datatype Errno = ENOENT | EISDIR | ENOTDIR

  /**
   * A Go `error` value: either a message built with `errors.New` or
   * `fmt.Errorf`, or an `*os.PathError` from a filesystem call. Errors
   * returned by collaborators may be any of these.
   */
  datatype Error =
    | Message(text: string)
    | PathError(op: string, path: Path, errno: Errno)

  /** A Go `error` result: `nil`, or a non-nil error. */
  datatype Status = Nil | Fail(err: Error)

  /** A value together with a nil error, or a non-nil error. */
  datatype Result<T> = Success(value: T) | Failure(error: Error)

  /** `os.Stat(p)`: a nil error exactly when the path is present. */
  function Stat(fs: FileSystem, p: Path): (err: Status)
    ensures err == Nil <==> p in fs
    ensures err.Fail? ==> err.err == PathError("stat", p, ENOENT)
  {
    if p in fs then Nil else Fail(PathError("stat", p, ENOENT))
  }

  /** `os.ReadFile(p)`: the whole contents of a regular file, verbatim. */
  function ReadFile(fs: FileSystem, p: Path): (r: Result<string>)
    ensures r.Success? <==> p in fs && fs[p].File?
    ensures r.Success? ==> r.value == fs[p].data
    ensures r.Failure? ==> r.error.PathError? && r.error.path == p
  {
    if p !in fs then Failure(PathError("open", p, ENOENT))
    else if fs[p].Dir? then Failure(PathError("read", p, EISDIR))
    else Success(fs[p].data)
  }

  /** The non-empty prefixes of a path: the path itself and its ancestors. */
  function Prefixes(p: Path): set<Path>
  {
    set i | 1 <= i <= |p| :: p[..i]
  }

  /** Some ancestor of `p`, or `p` itself, is a regular file. */
  predicate BlockedByFile(fs: FileSystem, p: Path)
  {
    exists q :: q in Prefixes(p) && q in fs && fs[q].File?
  }

  /**
   * `os.MkdirAll(p, mode)`: creates `p` and every missing ancestor as
   * directories; does nothing if they already are directories; fails with
   * ENOTDIR when some component on the way is a regular file.
   */
  function MkdirAll(fs: FileSystem, p: Path): Result<FileSystem>
  {
    if BlockedByFile(fs, p) then Failure(PathError("mkdir", p, ENOTDIR))
    else Success(fs + map q | q in Prefixes(p) && q !in fs :: Dir)
  }

  /** A prefix, in the sense of `Prefixes`, is a non-empty initial segment. */
  lemma PrefixesAreInitialSegments(p: Path, q: Path)
    ensures q in Prefixes(p) <==> 0 < |q| && q <= p
  {
    if 0 < |q| && q <= p {
      assert q == p[..|q|];
    }
  }

  /**
   * What `MkdirAll` promises: it fails exactly when a regular file is in the
   * way, and otherwise keeps every existing entry, adds only directories on
   * the path, and leaves the path and all its ancestors as directories.
   */
  lemma MkdirAllSpec(fs: FileSystem, p: Path)
    ensures MkdirAll(fs, p).Failure? <==> BlockedByFile(fs, p)
    ensures MkdirAll(fs, p).Failure? ==> MkdirAll(fs, p).error == PathError("mkdir", p, ENOTDIR)
    ensures MkdirAll(fs, p).Success? ==>
              var fs' := MkdirAll(fs, p).value;
              (forall q :: q in fs ==> q in fs' && fs'[q] == fs[q]) &&
              (forall q :: q in fs' && q !in fs ==> 0 < |q| <= |p| && q <= p && fs'[q] == Dir) &&
              (forall q :: 0 < |q| && q <= p ==> q in fs' && fs'[q] == Dir)
  {
    if MkdirAll(fs, p).Success? {
      var fs' := MkdirAll(fs, p).value;
      forall q | q in fs' && q !in fs
        ensures 0 < |q| <= |p| && q <= p && fs'[q] == Dir
      {
        PrefixesAreInitialSegments(p, q);
      }
      forall q | 0 < |q| && q <= p
        ensures q in fs' && fs'[q] == Dir
      {
        PrefixesAreInitialSegments(p, q);
      }
    }
  }
}
