/**
 * The part of Node's `fs/promises` the sync touches on the destination side, as a mutable disk:
 * the directories that exist, each with the files directly inside it, and the paths at which the
 * operating system refuses to create or write anything (permission denied, disk full), each with
 * the message Node reports. Writing a file where a directory of that name exists fails on its own.
 */
module FileSystem {
  import opened Wrappers

  /** A path as its segments; `path.join` normalisation is not modelled. */
  type Path = seq<string>

  /** What a read or write under a directory that does not exist fails with (Node also names the path). */
  const NoSuchFile: string := "ENOENT: no such file or directory"
  /** What writing a file where a directory of that name exists fails with. */
  const IsADirectory: string := "EISDIR: illegal operation on a directory"

  /** The path and all its ancestors, the root `[]` included. */
  function Prefixes(p: Path): set<Path>
  {
    set k | 0 <= k <= |p| :: p[..k]
  }

  /** The directories after `mkdir(p, { recursive: true })` succeeds: missing ancestors are created empty. */
  function MakeDirs(dirs: map<Path, map<string, string>>, p: Path): (r: map<Path, map<string, string>>)
    ensures p in r
    ensures Prefixes(p) <= r.Keys
    ensures forall q :: q in dirs ==> q in r && r[q] == dirs[q]
    ensures forall q :: q in r && q !in dirs ==> q in Prefixes(p) && r[q] == map[]
  {
    assert p == p[..|p|];
    dirs + map q | q in Prefixes(p) && q !in dirs :: map[]
  }

  /** Why `fs.writeFile` of `dir/name` fails, or `None` when it succeeds. */
  function WriteError(existing: set<Path>, failures: map<Path, string>, dir: Path, name: string): Option<string>
  {
    if dir !in existing then Some(NoSuchFile)
    else if dir + [name] in existing then Some(IsADirectory)
    else if dir + [name] in failures then Some(failures[dir + [name]])
    else None
  }

  class Disk {
    var dirs: map<Path, map<string, string>>
    const failures: map<Path, string>

    constructor (dirs: map<Path, map<string, string>>, failures: map<Path, string>)
      ensures this.dirs == dirs && this.failures == failures
    {
      this.dirs := dirs;
      this.failures := failures;
    }

    /** `fs.access(p)` resolves exactly when `p` exists. */
    method Access(p: Path) returns (found: bool)
      ensures found <==> p in dirs
    {
      found := p in dirs;
    }

    /**
     * `fs.mkdir(p, { recursive: true })`: succeeds without change when `p` exists; otherwise creates
     * `p` and its missing ancestors, unless the system refuses `p`.
     */
    method MakeDirectory(p: Path) returns (error: Option<string>)
      modifies this
      ensures p in old(dirs) ==> error == None && dirs == old(dirs)
      ensures p !in old(dirs) && p in failures ==> error == Some(failures[p]) && dirs == old(dirs)
      ensures p !in old(dirs) && p !in failures ==> error == None && dirs == MakeDirs(old(dirs), p)
    {
      if p in dirs {
        error := None;
      } else if p in failures {
        error := Some(failures[p]);
      } else {
        dirs := MakeDirs(dirs, p);
        error := None;
      }
    }

    /** `fs.writeFile(dir/name, content)`: creates or overwrites the file, or fails and changes nothing. */
    method WriteFile(dir: Path, name: string, content: string) returns (error: Option<string>)
      modifies this
      ensures error == WriteError(old(dirs).Keys, failures, dir, name)
      ensures error.Some? ==> dirs == old(dirs)
      ensures error.None? ==> dir in old(dirs) && dirs == old(dirs)[dir := old(dirs)[dir][name := content]]
    {
      error := WriteError(dirs.Keys, failures, dir, name);
      if error.None? {
        dirs := dirs[dir := dirs[dir][name := content]];
      }
    }
  }
}
