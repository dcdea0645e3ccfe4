/** The directories of one lane as a map from paths to file contents, and the atomic operations
    of `dir.rs` on it. The hidden settling form of an in-progress name has its own directory
    here; module Names shows that the two forms of a name never meet. */
module Disk {
  import opened Messages

  datatype Dir = PendingDir | InProgressDir | SettlingDir | FailedDir

  type Name = nat

  datatype Path = Path(dir: Dir, name: Name)

  type Files = map<Path, Raw>

  /** One file system call with an effect. */
  datatype FsOp =
    | NoOp
    | Write(path: Path, contents: Raw)
    | Rename(from: Path, to: Path)
    | Remove(path: Path)

  /** A rename or removal of an absent path changes nothing, as in `rename_if_present` and
      `remove_if_present`. A rename or write onto an existing path replaces it. */
  function Perform(files: Files, op: FsOp): Files {
    match op
    case NoOp => files
    case Write(path, contents) => files[path := contents]
    case Rename(from, to) => if from in files then (files - {from})[to := files[from]] else files
    case Remove(path) => files - {path}
  }

  predicate Present(files: Files, name: Name) {
    || Path(PendingDir, name) in files
    || Path(InProgressDir, name) in files
    || Path(SettlingDir, name) in files
    || Path(FailedDir, name) in files
  }

  /** Each base name belongs to at most one file. */
  ghost predicate UniqueNames(files: Files) {
    forall p, q | p in files && q in files && p.name == q.name :: p == q
  }
}
