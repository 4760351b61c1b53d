/**
  Content integrity: the chunked hashing loop, `verify` (is an installed
  artifact still the locked one?) and the lock bookkeeping of `download`
  (stream a fetched body to a temporary sibling, hash it, compare it with
  the prior lock, then install it and record a fresh entry).

  The filesystem is a `Disk` object whose `files` map holds the regular
  files by the path the process opens them with; the run's `verified`
  dictionary is a `VerifiedSet` object. Both are updated in place, as the
  source updates the disk and the dictionary.
 */
module Integrity {
  import opened Base

  /** The read size of both hashing loops, `2**16` bytes. */
  const CHUNK_SIZE: nat := 65536

  /** Regular files on disk: `os.path.isfile(p)` is `p in files`. */
  class Disk {
    var files: map<Path, seq<byte>>

    constructor (files: map<Path, seq<byte>>)
      ensures this.files == files
    {
      this.files := files;
    }
  }

  /** The `verified` dictionary of one run, keyed by path relative to the working directory. */
  class VerifiedSet {
    var entries: map<Path, LockEntry>

    constructor ()
      ensures entries == map[]
    {
      entries := map[];
    }
  }

  /** `f.read(CHUNK_SIZE)` when `pos` bytes have been read already. */
  function ReadChunk(data: seq<byte>, pos: nat): (chunk: seq<byte>)
    requires pos <= |data|
    ensures pos + |chunk| <= |data| && chunk == data[pos..pos + |chunk|]
    ensures chunk == [] <==> pos == |data|
  {
    data[pos..Min(pos + CHUNK_SIZE, |data|)]
  }

  /** The hashing loop of `verify`: read a chunk, and while it is not empty
      feed it to the hash and read the next one. Every byte of the file is fed
      exactly once and in order, so the digest is that of the whole content. */
  method HashFile(sha1: seq<byte> -> Checksum, data: seq<byte>) returns (digest: Checksum)
    ensures digest == sha1(data)
  {
    var absorbed: seq<byte> := [];  // what `h.update` has been given so far
    var pos: nat := 0;
    var content := ReadChunk(data, pos);
    pos := pos + |content|;
    while content != []
      invariant pos <= |data|
      invariant absorbed + content == data[..pos]
      invariant content == [] ==> pos == |data|
      decreases |data| - |absorbed|
    {
      absorbed := absorbed + content;
      content := ReadChunk(data, pos);
      pos := pos + |content|;
    }
    assert absorbed == data[..|data|] == data;
    digest := sha1(absorbed);
  }

  /** What `verify` decides: the target is a file, its relative path is
      locked, and the digest of its whole content is the locked checksum. */
  predicate IsCurrent(host: Host, files: map<Path, seq<byte>>, tgt: Path, locks: map<Path, LockEntry>) {
    && tgt in files
    && RelOf(host, tgt) in locks
    && locks[RelOf(host, tgt)].checksum == Some(host.sha1(files[tgt]))
  }

  /** `verify(tgt, locks, verified)`. The source reads `locks[rel]["checksum"]`
      once the file exists and `rel` is locked, so such an entry must have one. */
  method Verify(host: Host, tgt: Path, locks: map<Path, LockEntry>, verified: VerifiedSet, disk: Disk)
    returns (ok: bool)
    requires tgt in disk.files && RelOf(host, tgt) in locks ==> locks[RelOf(host, tgt)].checksum.Some?
    modifies verified
    ensures ok == IsCurrent(host, disk.files, tgt, locks)
    ensures ok ==> verified.entries == old(verified.entries)[RelOf(host, tgt) := locks[RelOf(host, tgt)]]
    ensures !ok ==> verified.entries == old(verified.entries)
  {
    var rel := RelOf(host, tgt);
    if tgt !in disk.files || rel !in locks {
      return false;
    }
    var digest := HashFile(host.sha1, disk.files[tgt]);
    if digest == locks[rel].checksum.value {
      verified.entries := verified.entries[rel := locks[rel]];
      ok := true;
    } else {
      ok := false;
    }
  }

  /** What `download` reports about a target. */
  datatype FetchReport =
    | NeedInstall      // check mode, and the target is missing or not locked
    | Unlocked         // fetched; no prior lock entry to compare with
    | UpToDate         // fetched; same checksum as the prior lock
    | UpstreamChanged  // fetched; the checksum differs from the prior lock

  /** The temporary sibling the body is streamed into. */
  function DownloadTemp(tgt: Path): Path {
    tgt + "_download_"
  }

  /** The comparison of a fresh checksum with the prior lock. */
  function CompareWithLock(rel: Path, locks: map<Path, LockEntry>, checksum: Checksum): (report: FetchReport)
    requires rel in locks ==> locks[rel].checksum.Some?
    ensures report != NeedInstall
    ensures report == Unlocked <==> rel !in locks
    ensures report == UpstreamChanged <==> rel in locks && locks[rel].checksum != Some(checksum)
    ensures report == UpToDate <==> rel in locks && locks[rel].checksum == Some(checksum)
  {
    if rel !in locks then Unlocked
    else if locks[rel].checksum.value != checksum then UpstreamChanged
    else UpToDate
  }

  /** The entry `download` records for a freshly installed body. */
  function FreshEntry(host: Host, tgt: Path, url: string, version: string, body: seq<byte>, now: string): LockEntry {
    LockEntry(url, version, Some(host.sha1(body)), now, [RelOf(host, tgt)])
  }

  /** Whether `download` in check mode stops before fetching anything. */
  predicate StopsEarly(host: Host, files: map<Path, seq<byte>>, tgt: Path, locks: map<Path, LockEntry>, checkOnly: bool) {
    checkOnly && (tgt !in files || RelOf(host, tgt) !in locks)
  }

  /** The lock bookkeeping of `download(tgt, url, version, locks, verified, check_only)`.
      `body` is what the HTTP GET of `url` streams back and `now` the
      `retrieved_at` timestamp. */
  method Download(host: Host, tgt: Path, url: string, version: string, locks: map<Path, LockEntry>,
                  verified: VerifiedSet, checkOnly: bool, disk: Disk, body: seq<byte>, now: string)
    returns (report: FetchReport)
    requires RelOf(host, tgt) in locks && (!checkOnly || tgt in disk.files) ==>
      locks[RelOf(host, tgt)].checksum.Some?
    modifies verified, disk
    ensures StopsEarly(host, old(disk.files), tgt, locks, checkOnly) ==>
      report == NeedInstall && disk.files == old(disk.files) && verified.entries == old(verified.entries)
    ensures !StopsEarly(host, old(disk.files), tgt, locks, checkOnly) ==>
      report == CompareWithLock(RelOf(host, tgt), locks, host.sha1(body))
    ensures checkOnly && !StopsEarly(host, old(disk.files), tgt, locks, checkOnly) ==>
      disk.files == old(disk.files)[DownloadTemp(tgt) := body] && verified.entries == old(verified.entries)
    ensures !checkOnly ==> disk.files == (old(disk.files) - {DownloadTemp(tgt)})[tgt := body]
    ensures !checkOnly ==>
      verified.entries == old(verified.entries)[RelOf(host, tgt) := FreshEntry(host, tgt, url, version, body, now)]
    ensures !checkOnly ==> IsCurrent(host, disk.files, tgt, verified.entries)
  {
    var dltgt := DownloadTemp(tgt);
    var rel := RelOf(host, tgt);
    if checkOnly && (tgt !in disk.files || rel !in locks) {
      return NeedInstall;
    }
    var absorbed := StreamToTemp(disk, dltgt, body);
    var checksum := host.sha1(absorbed);
    report := CompareWithLock(rel, locks, checksum);
    if checkOnly {
      return;
    }
    // os.rename(dltgt, tgt)
    disk.files := (disk.files - {dltgt})[tgt := disk.files[dltgt]];
    verified.entries := verified.entries[rel := LockEntry(url, version, Some(checksum), now, [rel])];
  }

  /** `open(dltgt, "wb")`, then one write and one `h.update` per streamed
      chunk: the temporary file ends up holding the whole body, and the hash
      has been fed the whole body. */
  method StreamToTemp(disk: Disk, dltgt: Path, body: seq<byte>) returns (absorbed: seq<byte>)
    modifies disk
    ensures absorbed == body
    ensures disk.files == old(disk.files)[dltgt := body]
  {
    disk.files := disk.files[dltgt := []];
    absorbed := [];
    var pos: nat := 0;
    while pos < |body|
      invariant pos <= |body|
      invariant absorbed == body[..pos]
      invariant disk.files == old(disk.files)[dltgt := body[..pos]]
    {
      var content := body[pos..Min(pos + CHUNK_SIZE, |body|)];
      absorbed := absorbed + content;
      disk.files := disk.files[dltgt := disk.files[dltgt] + content];
      pos := pos + |content|;
    }
  }

  /** Fetching the same body twice records the same checksum and install
      paths; when the body changes to one with another digest, the next run
      reports that upstream has changed. */
  lemma RefetchReport(host: Host, tgt: Path, url: string, version: string, before: seq<byte>, after: seq<byte>,
                      earlier: string, now: string, locks: map<Path, LockEntry>)
    requires locks == map[RelOf(host, tgt) := FreshEntry(host, tgt, url, version, before, earlier)]
    ensures CompareWithLock(RelOf(host, tgt), locks, host.sha1(after)) ==
      if host.sha1(after) == host.sha1(before) then UpToDate else UpstreamChanged
    ensures before == after ==>
      FreshEntry(host, tgt, url, version, after, now) ==
      locks[RelOf(host, tgt)].(retrievedAt := now)
  {
  }
}
