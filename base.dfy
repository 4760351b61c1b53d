/**
  Shared vocabulary of the cwldep model: bytes, paths, lock entries,
  dependency declarations, operations, and the host facilities
  (`os.path.relpath`, the SHA-1 hex digest) that the core calls but does
  not define.
 */
module Base {

  newtype byte = x: int | 0 <= x < 256

  /** A filesystem path or URL path, as text. */
  type Path = string

  /** A content digest in the textual form stored in the lockfile. */
  type Checksum = string

  datatype Option<+T> = None | Some(value: T)

  /** Python truthiness of an optional string: present and not empty. */
  predicate Truthy(o: Option<string>) {
    o.Some? && o.value != ""
  }

  /** The operations that reach the dependency core (`add` continues as an install). */
  datatype Operation = Install | Update | Check | Clean | Add

  /** One value of the lockfile: the `upstream`, `version`, optional `checksum`,
      `retrieved_at` and `installed_to` keys. */
  datatype LockEntry = LockEntry(
    upstream: string,
    version: string,
    checksum: Option<Checksum>,
    retrievedAt: string,
    installedTo: seq<Path>)

  /** A dependency declaration inside a `Dependencies` hint: `upstream` is
      always there, `version` and `installTo` are optional. */
  datatype Dep = Dep(upstream: string, version: Option<string>, installTo: Option<string>)

  /** The result of `urllib.parse.urlsplit` that the core reads, with the text it came from. */
  datatype Url = Url(text: string, scheme: string, netloc: string, path: Path)

  /** Facilities of the running process that the core uses as black boxes:
      the working directory, `os.path.relpath(path, start)` and the hex digest
      of SHA-1 over a whole byte string. Only equality of digests matters. */
  datatype Host = Host(cwd: Path, relpath: (Path, Path) -> Path, sha1: seq<byte> -> Checksum)

  /** `os.path.relpath(p, os.getcwd())`: the key a target is locked under. */
  function RelOf(host: Host, p: Path): Path {
    host.relpath(p, host.cwd)
  }

  function Min(a: int, b: int): int {
    if a <= b then a else b
  }
}
