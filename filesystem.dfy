/**
 * The read-only view of the machine both listers and the file endpoint work
 * against: a map from resolved path to what is there, Node's `path.join` as
 * an uninterpreted function, and the two base directories (`os.homedir()`
 * and `process.cwd()`).
 */
module FileSystem {
  import opened Wrappers

  type Path = string

  /** What a resolved path names. */
  datatype Node =
    | File
    | Directory(entries: seq<string>)  // the names `readdirSync` returns, in its order
    | Unreadable                      // exists, but reading it fails (permission, I/O error)

  datatype Host = Host(
    tree: map<Path, Node>,
    join: (Path, Path) -> Path,  // `path.join`, left uninterpreted
    home: Path,                  // `os.homedir()`
    cwd: Path                    // `process.cwd()`
  )

  /** `fs.existsSync(p)`. */
  predicate Exists(h: Host, p: Path) {
    p in h.tree
  }

  /** `fs.readdirSync(p)`: the entries, or None where the call throws. */
  function ReadDir(h: Host, p: Path): Option<seq<string>> {
    if p in h.tree && h.tree[p].Directory? then Some(h.tree[p].entries) else None
  }
}
