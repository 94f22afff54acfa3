/** The path abstraction every pipeline writes through (local directories and
    object-store prefixes alike): a map from path to file contents. Directories
    are implicit: a directory exists when some file lies under it. A store can
    be configured with paths it refuses to write or delete, which is how the
    model lets a write, copy or delete fail. */
module Store {
  import opened Values

  type Path = string

  /** `dir / name` */
  function JoinPath(dir: Path, name: string): Path
  {
    dir + "/" + name
  }

  /** `p` lies strictly inside the directory or prefix `dir`. */
  predicate IsUnder(p: Path, dir: Path)
  {
    |p| > |dir| && p[..|dir|] == dir && p[|dir|] == '/'
  }

  predicate AtOrUnder(p: Path, dir: Path)
  {
    p == dir || IsUnder(p, dir)
  }

  lemma JoinIsUnder(dir: Path, name: string)
    ensures IsUnder(JoinPath(dir, name), dir)
  {
    assert JoinPath(dir, name)[..|dir|] == dir;
  }

  /** Being under a directory is transitive. */
  lemma UnderTransitive(p: Path, d: Path, e: Path)
    requires IsUnder(p, d) && IsUnder(d, e)
    ensures IsUnder(p, e)
  {
    assert p[..|d|][..|e|] == p[..|e|];
  }

  /** A path outside a directory is outside every directory below it. */
  lemma OutsideUnder(p: Path, d: Path, e: Path)
    requires IsUnder(d, e) && !AtOrUnder(p, e)
    ensures !AtOrUnder(p, d)
  {
    if IsUnder(p, d) {
      UnderTransitive(p, d, e);
    }
  }

  /** Two directories that both contain a path are equal or nested. */
  lemma CommonDescendant(p: Path, d1: Path, d2: Path)
    requires IsUnder(p, d1) && IsUnder(p, d2)
    ensures d1 == d2 || IsUnder(d1, d2) || IsUnder(d2, d1)
  {
    if |d1| < |d2| {
      assert d2[..|d1|] == p[..|d2|][..|d1|];
    } else if |d2| < |d1| {
      assert d1[..|d2|] == p[..|d1|][..|d2|];
    }
  }

  datatype File =
    | Rows(rows: seq<Record>)   // a columnar data file
    | Text(text: string)        // a small text file (a marker)

  /** `UPath(p).exists()`: a file, or a directory with something under it. */
  predicate PathExists(files: map<Path, File>, p: Path)
  {
    p in files || exists q | q in files :: IsUnder(q, p)
  }

  class FileStore {
    var files: map<Path, File>
    const refused: set<Path>

    constructor (initial: map<Path, File>, refusing: set<Path>)
      ensures files == initial && refused == refusing
    {
      files := initial;
      refused := refusing;
    }

    predicate Exists(p: Path)
      reads this
    {
      PathExists(files, p)
    }

    /** Opens `p` for writing and writes `f` (truncating any old contents);
        a refused path raises before anything is written. */
    method Write(p: Path, f: File) returns (ok: bool)
      modifies this
      ensures ok == (p !in refused)
      ensures files == if ok then old(files)[p := f] else old(files)
    {
      ok := p !in refused;
      if ok {
        files := files[p := f];
      }
    }

    /** Copies `src` byte for byte to `dst` (`shutil.copyfileobj` between two
        opened files): fails when the source is missing or the destination
        refuses the write. */
    method Copy(src: Path, dst: Path) returns (ok: bool)
      modifies this
      ensures ok == (src in old(files) && dst !in refused)
      ensures files == if ok then old(files)[dst := old(files)[src]] else old(files)
    {
      ok := src in files && dst !in refused;
      if ok {
        files := files[dst := files[src]];
      }
    }

    /** `UPath(p).unlink(missing_ok=True)`: removing a missing file is not an
        error; removing a refused one is. */
    method Unlink(p: Path) returns (ok: bool)
      modifies this
      ensures ok == (p !in old(files) || p !in refused)
      ensures files == if ok then old(files) - {p} else old(files)
    {
      ok := p !in files || p !in refused;
      if ok {
        files := files - {p};
      }
    }

    /** `fs.rm(p, recursive=True)`: removes `p` and everything under it, or
        nothing when one of those paths is refused. */
    method RemoveTree(p: Path) returns (ok: bool)
      modifies this
      ensures ok == (forall q | q in old(files) && AtOrUnder(q, p) :: q !in refused)
      ensures files == if ok then RemovedTree(old(files), p) else old(files)
    {
      ok := forall q | q in files && AtOrUnder(q, p) :: q !in refused;
      if ok {
        files := RemovedTree(files, p);
      }
    }
  }

  function RemovedTree(files: map<Path, File>, p: Path): (r: map<Path, File>)
    ensures forall q :: q in r <==> q in files && !AtOrUnder(q, p)
    ensures forall q | q in r :: r[q] == files[q]
  {
    map q | q in files && !AtOrUnder(q, p) :: files[q]
  }

  /** The rows read back from the given files, in order. */
  function StoredRows(files: map<Path, File>, paths: seq<Path>): (rows: seq<seq<Record>>)
    ensures |rows| == |paths|
  {
    seq(|paths|, k requires 0 <= k < |paths| =>
      if paths[k] in files && files[paths[k]].Rows? then files[paths[k]].rows else [])
  }
}
