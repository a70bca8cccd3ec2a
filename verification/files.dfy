/** The file system the build reads and writes, as `fs` exposes it to the
    builder: `existsSync`, `readFileSync`, `mkdirSync(…, {recursive: true})`
    and `writeFileSync`. */
module Files {

  import opened Wrappers
  import opened Paths

  /** The `code` of the error `readFileSync` or `readdirSync` throws. */
  datatype IoError = Enoent(path: string) | Eisdir(path: string) | Enotdir(path: string)

  /** A snapshot of the file system: file contents by path, and the directories. */
  datatype Tree = Tree(files: map<string, string>, dirs: set<string>)

  /** `fs.existsSync(p)`: true for files and directories alike. */
  predicate Exists(t: Tree, p: string) {
    p in t.files || p in t.dirs
  }

  /** `fs.readFileSync(p, 'utf8')`. */
  function Read(t: Tree, p: string): (r: Result<string, IoError>)
    ensures r.Ok? <==> p in t.files
    ensures r.Ok? ==> r.value == t.files[p]
    ensures r.Err? && p in t.dirs ==> r.error == Eisdir(p)
    ensures r.Err? && p !in t.dirs ==> r.error == Enoent(p)
  {
    if p in t.files then Ok(t.files[p])
    else if p in t.dirs then Err(Eisdir(p))
    else Err(Enoent(p))
  }

  /** `if (!fs.existsSync(d)) fs.mkdirSync(d, {recursive: true})`. */
  function EnsureDir(t: Tree, d: string): (t': Tree)
    ensures t'.files == t.files
    ensures Exists(t', d)
    ensures Exists(t, d) ==> t' == t
    ensures !Exists(t, d) ==> t'.dirs == t.dirs + DirChain(d)
  {
    if Exists(t, d) then t else Tree(t.files, t.dirs + DirChain(d))
  }

  /** `fs.writeFileSync(p, s)`: creates or overwrites the one file `p`. */
  function Write(t: Tree, p: string, s: string): (t': Tree)
    ensures t'.dirs == t.dirs
    ensures t'.files.Keys == t.files.Keys + {p}
    ensures t'.files[p] == s
    ensures forall q :: q in t.files && q != p ==> t'.files[q] == t.files[q]
  {
    Tree(t.files[p := s], t.dirs)
  }

  /** The live file system the build runs against. */
  class FileStore {
    var files: map<string, string>
    var dirs: set<string>

    constructor (files: map<string, string>, dirs: set<string>)
      ensures State() == Tree(files, dirs)
    {
      this.files := files;
      this.dirs := dirs;
    }

    /** The current snapshot. */
    function State(): Tree
      reads this
    {
      Tree(files, dirs)
    }

    function ReadFile(p: string): Result<string, IoError>
      reads this
    {
      Read(State(), p)
    }

    method MakeDirIfMissing(d: string)
      modifies this
      ensures State() == EnsureDir(old(State()), d)
    {
      if !(d in files || d in dirs) {
        dirs := dirs + DirChain(d);
      }
    }

    method WriteFile(p: string, s: string)
      modifies this
      ensures State() == Write(old(State()), p, s)
    {
      files := files[p := s];
    }
  }
}
