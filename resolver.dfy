/**
  The dependency resolver `cwl_deps`: for each declaration of a
  `Dependencies` hint it derives the install directory and the target path
  from the URL, classifies the URL by scheme and suffix, and then
  - for a workflow descriptor (`.cwl`) retrieves the descriptor and every
    file it references (skipping those `verify` finds current) and recurses
    into the descriptor's own dependency declarations with the install
    directory as the new base directory;
  - for an archive downloads it and records the extraction directory;
  - otherwise probes for a git repository and records the commit it checks out.

  The network, git and the document loader are the `World`: what a GET
  returns, whether the repository probe answers, what `git rev-parse`
  prints, and the references and nested declarations the loader finds,
  which come with each declaration as a finite tree.
 */
module Resolver {
  import opened Base
  import opened PosixPath
  import opened Integrity

  // ---------------------------------------------------------------------
  // Inputs

  /** A declaration together with what the document loader discovers for it
      when it is a descriptor: the `File` references reached from it (in the
      order they are visited, after the descriptor itself) and the
      declarations of the `Dependencies` hints inside it, in order. */
  datatype Decl = Decl(
    upstream: Url,
    version: Option<string>,
    installTo: Option<string>,
    secondaryFiles: seq<Url>,
    nested: seq<Decl>)

  /** What the process observes of the outside world during one run. */
  datatype World = World(
    host: Host,
    get: string -> seq<byte>,            // the body a GET of the URL streams back
    isRepository: string -> bool,        // the `.git/info/refs` probe of the URL answers 200
    revParse: (Path, string) -> Option<string>,  // `git rev-parse <rev>` inside a directory; None when it exits non-zero
    head: Path -> Option<string>,                // `git rev-parse HEAD` inside a directory, before any checkout; None when it exits non-zero
    now: string)                         // the `retrieved_at` stamp of entries written this run

  datatype Failure =
    | MissingChecksum(rel: Path)     // `locks[rel]["checksum"]` raised KeyError
    | ArchiveMissing(rel: Path)      // opening the archive at `rel` for extraction raised FileNotFoundError
    | ArchiveNotRecorded(rel: Path)  // `verified[rel]` raised KeyError after an archive download
    | UnboundName(name: string)      // a global the module never defines raised NameError
    | GitFailed(rel: Path)           // `git rev-parse` for the checkout at `rel` raised CalledProcessError

  /** Whether a call ran to completion or an exception ended the run. */
  datatype Outcome = Pass | Fail(failure: Failure)

  // ---------------------------------------------------------------------
  // Placement rules

  predicate EndsWith(s: string, suffix: string) {
    |suffix| <= |s| && s[|s| - |suffix|..] == suffix
  }

  /** The path of a declaration's checkout mirrored under `basedir`:
      `join(basedir, netloc, path.lstrip("/"))`. */
  function MirrorPath(basedir: Path, url: Url): Path {
    Join(Join(basedir, url.netloc), LStripSlashes(url.path))
  }

  /** `installTo`: the declared directory under `basedir`, else the directory
      of the mirrored path. */
  function InstallDir(basedir: Path, installTo: Option<string>, url: Url): Path {
    if Truthy(installTo) then Join(basedir, installTo.value) else Dirname(MirrorPath(basedir, url))
  }

  /** The target of a declaration: its URL's last path component inside `installTo`. */
  function TargetPath(installTo: Path, url: Url): Path {
    Join(installTo, Basename(url.path))
  }

  /** Without a declared `installTo`, the target is exactly the mirrored path
      `basedir/netloc/path` (for paths without doubled slashes). */
  lemma TargetMirrorsUrl(basedir: Path, url: Url)
    requires NoDoubleSlash(MirrorPath(basedir, url))
    ensures TargetPath(InstallDir(basedir, None, url), url) == MirrorPath(basedir, url)
  {
    var full := MirrorPath(basedir, url);
    BasenameOfLStrip(url.path);
    BasenameOfJoin(Join(basedir, url.netloc), LStripSlashes(url.path));
    JoinDirnameBasename(full);
  }

  /** Wherever it is installed, the target keeps the URL's file name. */
  lemma TargetKeepsUrlName(installTo: Path, url: Url)
    ensures Basename(TargetPath(installTo, url)) == Basename(url.path)
  {
    var name := Basename(url.path);
    assert name == [] || name[0] != '/' by {
      if name != [] {
        assert name[0] == url.path[SlashEnd(url.path)];
      }
    }
    BasenameOfJoin(installTo, name);
    assert SlashEnd(name) == 0;
  }

  /** Where `retrieve` puts a referenced file: `installTo` joined with the
      file's URL path relative to the directory of the descriptor's URL path. */
  function RetrieveTarget(host: Host, installTo: Path, descriptor: Url, loc: Url): Path {
    Join(installTo, host.relpath(loc.path, Dirname(descriptor.path)))
  }

  // ---------------------------------------------------------------------
  // Classification

  datatype Kind = Descriptor | Archive | Repository | Unsupported

  datatype ArchiveFormat = GzipTar | Bzip2Tar | Zip

  /** The extraction routine chosen for an archive, by suffix. */
  function ArchiveFormatOf(path: Path): Option<ArchiveFormat> {
    if EndsWith(path, ".tar.gz") then Some(GzipTar)
    else if EndsWith(path, ".tar.bz2") then Some(Bzip2Tar)
    else if EndsWith(path, ".zip") then Some(Zip)
    else None
  }

  predicate Fetchable(scheme: string) {
    scheme == "http" || scheme == "https"
  }

  /** A text ending in a suffix ends in the suffix's last character. */
  lemma LastCharOfSuffix(s: string, suffix: string)
    requires suffix != []
    ensures EndsWith(s, suffix) ==> s[|s| - 1] == suffix[|suffix| - 1]
  {
    if EndsWith(s, suffix) {
      assert s[|s| - |suffix|..][|suffix| - 1] == s[|s| - 1];
    }
  }

  /** A path ending in `.cwl` has none of the archive suffixes. */
  lemma DescriptorIsNoArchive(path: Path)
    requires EndsWith(path, ".cwl")
    ensures ArchiveFormatOf(path) == None
  {
    LastCharOfSuffix(path, ".cwl");
    LastCharOfSuffix(path, ".tar.gz");
    LastCharOfSuffix(path, ".tar.bz2");
    LastCharOfSuffix(path, ".zip");
  }

  /** The `if/elif` chain over scheme and suffix. The kinds do not depend on
      the order of the tests: every archive has an extraction routine and no
      descriptor looks like an archive. */
  function Classify(url: Url): (k: Kind)
    ensures k == Unsupported <==> !Fetchable(url.scheme)
    ensures k == Descriptor <==> Fetchable(url.scheme) && EndsWith(url.path, ".cwl")
    ensures k == Archive <==> Fetchable(url.scheme) && ArchiveFormatOf(url.path).Some?
    ensures k == Repository <==>
      Fetchable(url.scheme) && !EndsWith(url.path, ".cwl") && ArchiveFormatOf(url.path).None?
  {
    if !(url.scheme == "http" || url.scheme == "https") then Unsupported
    else if EndsWith(url.path, ".cwl") then
      DescriptorIsNoArchive(url.path);
      Descriptor
    else if EndsWith(url.path, ".tar.gz") || EndsWith(url.path, ".tar.bz2") || EndsWith(url.path, ".zip") then Archive
    else Repository
  }

  // ---------------------------------------------------------------------
  // Retrieval and repository rules

  /** `retrieve` skips the download of a file `verify` accepted, except
      when updating or checking. */
  predicate SkipsDownload(verifiedOk: bool, op: Operation) {
    verifiedOk && op != Update && op != Check
  }

  /** The version a repository is checked out at: the locked one when the
      target is locked and the operation is not `update`, else the declared one. */
  function ChosenVersion(rel: Path, locks: map<Path, LockEntry>, op: Operation, declared: Option<string>): Option<string> {
    if rel in locks && op != Update then Some(locks[rel].version) else declared
  }

  /** The commit the checkout at `tgt` is left at, with the last `rev-parse`
      run inside the checkout: with a version, its resolution once HEAD has
      been read (and checked out unless HEAD is already there); otherwise the
      HEAD that clone or fetch produced. `None` when a `rev-parse` fails: an
      unknown version, or no checkout at all because the clone failed. */
  function RecordedCommit(world: World, tgt: Path, version: Option<string>): Option<string> {
    if Truthy(version) then
      if world.revParse(tgt, version.value).None? || world.head(tgt).None? then None
      else world.revParse(tgt, version.value)
    else world.head(tgt)
  }

  /** As written: the version is resolved and checked out inside the
      checkout, but the final `git rev-parse HEAD` runs without `cwd=tgt`,
      so the entry records the HEAD of the process's working directory, and
      the step raises when that directory is not a checkout. */
  function RecordedCommitAsWritten(world: World, tgt: Path, version: Option<string>): Option<string> {
    if Truthy(version) && (world.revParse(tgt, version.value).None? || world.head(tgt).None?) then None
    else world.head(world.host.cwd)
  }

  /** A repository's lock entry: the commit as version, no checksum. */
  function RepoEntry(upstream: string, commit: string, now: string, rel: Path): LockEntry {
    LockEntry(upstream, commit, None, now, [rel])
  }

  /** Updating always re-resolves the declared version. */
  lemma UpdateUsesDeclaredVersion(rel: Path, locks: map<Path, LockEntry>, declared: Option<string>)
    ensures ChosenVersion(rel, locks, Update, declared) == declared
  {
  }

  /** A repository recorded with the commit it was left at stays pinned: a
      later run that is not an update resolves the same commit again, as long
      as `git rev-parse` of a commit id inside the checkout names that commit. */
  lemma RepositoryPinStable(world: World, later: World, upstream: string, tgt: Path, declared: Option<string>,
                            op: Operation, locks: map<Path, LockEntry>, next: map<Path, LockEntry>, laterOp: Operation)
    requires laterOp != Update
    requires var rel := RelOf(world.host, tgt);
      var commit := RecordedCommit(world, tgt, ChosenVersion(rel, locks, op, declared));
      && commit.Some? && commit.value != ""
      && later.revParse(tgt, commit.value) == commit && later.head(tgt).Some?
      && later.host.relpath == world.host.relpath && later.host.cwd == world.host.cwd
      && rel in next && next[rel] == RepoEntry(upstream, commit.value, world.now, rel)
    ensures var rel := RelOf(world.host, tgt);
      var commit := RecordedCommit(world, tgt, ChosenVersion(rel, locks, op, declared));
      && ChosenVersion(RelOf(later.host, tgt), next, laterOp, declared) == Some(commit.value)
      && RecordedCommit(later, tgt, ChosenVersion(RelOf(later.host, tgt), next, laterOp, declared)) == commit
  {
  }

  /** The source as written loses the pin: when the working directory's HEAD
      `h` differs from the pinned commit checked out in the target, the entry
      names `h`, and the next run that is not an update checks out what `h`
      resolves to inside the checkout, which is not the pinned commit. */
  lemma PinLostAsWritten(world: World, upstream: string, tgt: Path, pin: string, h: string, laterOp: Operation)
    requires pin != "" && world.revParse(tgt, pin) == Some(pin) && world.head(tgt).Some?
    requires world.head(world.host.cwd) == Some(h) && h != "" && h != pin
    requires world.revParse(tgt, h) != Some(pin)
    requires laterOp != Update
    ensures RecordedCommit(world, tgt, Some(pin)) == Some(pin)
    ensures RecordedCommitAsWritten(world, tgt, Some(pin)) == Some(h)
    ensures var rel := RelOf(world.host, tgt);
      var next := map[rel := RepoEntry(upstream, h, world.now, rel)];
      && ChosenVersion(rel, next, laterOp, Some(pin)) == Some(h)
      && RecordedCommit(world, tgt, ChosenVersion(rel, next, laterOp, Some(pin))) != Some(pin)
  {
  }

  // ---------------------------------------------------------------------
  // Two globals the traversal names but the module never binds

  // ---------------------------------------------------------------------
  // Check mode leaves only download temporaries behind

  predicate IsDownloadTemp(p: Path) {
    EndsWith(p, "_download_")
  }

  /** The files on disk other than `*_download_` temporaries. */
  function WithoutTemps(files: map<Path, seq<byte>>): map<Path, seq<byte>> {
    map p | p in files && !IsDownloadTemp(p) :: files[p]
  }

  lemma WritingTempKeepsOthers(files: map<Path, seq<byte>>, tgt: Path, body: seq<byte>)
    ensures WithoutTemps(files[DownloadTemp(tgt) := body]) == WithoutTemps(files)
  {
    var t := DownloadTemp(tgt);
    assert t[|t| - |"_download_"|..] == "_download_";
    assert IsDownloadTemp(t);
  }

  // ---------------------------------------------------------------------
  // The traversal, stated on values

  /** Whether `verify` or `download` would read a missing `checksum` of a
      locked entry for this target. */
  predicate ChecksumMissing(host: Host, files: map<Path, seq<byte>>, tgt: Path, locks: map<Path, LockEntry>, checkOnly: bool) {
    && RelOf(host, tgt) in locks
    && locks[RelOf(host, tgt)].checksum.None?
    && (tgt in files || !checkOnly)
  }

  /** What the traversal reads and writes: the `verified` dictionary and the
      regular files on disk. */
  datatype State = State(entries: map<Path, LockEntry>, files: map<Path, seq<byte>>)

  /** How a step ended, and the state it left behind. */
  datatype Run = Run(outcome: Outcome, state: State)

  /** From `s` to `t` no key of `verified` is dropped, and in check mode no
      file other than a `_download_` temporary is written. */
  predicate Grows(s: State, t: State, op: Operation) {
    && s.entries.Keys <= t.entries.Keys
    && (op == Check ==> WithoutTemps(t.files) == WithoutTemps(s.files))
  }

  /** The outcome is not a NameError: every name the step uses is bound. */
  predicate NoNameError(o: Outcome) {
    o.Fail? ==> !o.failure.UnboundName?
  }

  /** `verify` on the state: a current target gets its locked entry recorded. */
  function VerifyStep(host: Host, tgt: Path, locks: map<Path, LockEntry>, s: State): State {
    if IsCurrent(host, s.files, tgt, locks) then
      s.(entries := s.entries[RelOf(host, tgt) := locks[RelOf(host, tgt)]])
    else s
  }

  /** `download` on the state, with the empty version `cwl_deps` passes:
      nothing when check mode stops early, only the temporary in check mode,
      otherwise the body installed at the target under a fresh entry. */
  function DownloadStep(host: Host, tgt: Path, url: string, locks: map<Path, LockEntry>, checkOnly: bool,
                        body: seq<byte>, now: string, s: State): State {
    if StopsEarly(host, s.files, tgt, locks, checkOnly) then s
    else if checkOnly then s.(files := s.files[DownloadTemp(tgt) := body])
    else
      State(s.entries[RelOf(host, tgt) := FreshEntry(host, tgt, url, "", body, now)],
            (s.files - {DownloadTemp(tgt)})[tgt := body])
  }

  /** `retrieve(obj)`: place a referenced file, keep it when `verify` accepts
      it and the operation is neither `update` nor `check`, otherwise download
      it (check-only exactly when the operation is `check`). */
  function RetrieveRun(world: World, installTo: Path, descriptor: Url, loc: Url, locks: map<Path, LockEntry>,
                       op: Operation, s: State): Run {
    var tgt := RetrieveTarget(world.host, installTo, descriptor, loc);
    if ChecksumMissing(world.host, s.files, tgt, locks, op == Check) then
      Run(Fail(MissingChecksum(RelOf(world.host, tgt))), s)
    else
      var v := VerifyStep(world.host, tgt, locks, s);
      if SkipsDownload(IsCurrent(world.host, s.files, tgt, locks), op) then Run(Pass, v)
      else Run(Pass, DownloadStep(world.host, tgt, loc.text, locks, op == Check, world.get(loc.text), world.now, v))
  }

  /** `retrieve` over the descriptor and the files it references, in order,
      up to the first that raises. */
  function RetrieveAllRun(world: World, installTo: Path, descriptor: Url, locs: seq<Url>,
                          locks: map<Path, LockEntry>, op: Operation, s: State): Run
  {
    if locs == [] then Run(Pass, s)
    else
      var first := RetrieveRun(world, installTo, descriptor, locs[0], locks, op, s);
      if first.outcome.Fail? then first
      else RetrieveAllRun(world, installTo, descriptor, locs[1..], locks, op, first.state)
  }

  /** The archive branch of `cwl_deps`, with the unbound `ex` corrected to
      the directory the archive is extracted into: download it, open it for
      extraction (which raises when it is not on disk), then add that
      directory beside the target in its `installed_to`. Reading the entry
      back is a KeyError when neither `verify` nor `download` recorded one. */
  function ArchiveRun(world: World, installTo: Path, url: Url, locks: map<Path, LockEntry>, op: Operation,
                      s: State): Run {
    var tgt := TargetPath(installTo, url);
    var rel := RelOf(world.host, tgt);
    if ChecksumMissing(world.host, s.files, tgt, locks, op == Check) then Run(Fail(MissingChecksum(rel)), s)
    else
      var t := DownloadStep(world.host, tgt, url.text, locks, op == Check, world.get(url.text), world.now, s);
      if tgt !in t.files then Run(Fail(ArchiveMissing(rel)), t)
      else if rel !in t.entries then Run(Fail(ArchiveNotRecorded(rel)), t)
      else Run(Pass, t.(entries := t.entries[rel := t.entries[rel].(installedTo := [tgt, RelOf(world.host, installTo)])]))
  }

  /** The repository branch of `cwl_deps`, with the commit read inside the
      checkout: when the probe answers, record the commit the checkout is
      left at; a failing `rev-parse` raises. */
  function RepositoryRun(world: World, installTo: Path, d: Decl, locks: map<Path, LockEntry>, op: Operation,
                         s: State): Run {
    var tgt := TargetPath(installTo, d.upstream);
    var rel := RelOf(world.host, tgt);
    if world.isRepository(d.upstream.text) then
      match RecordedCommit(world, tgt, ChosenVersion(rel, locks, op, d.version))
      case None => Run(Fail(GitFailed(rel)), s)
      case Some(commit) => Run(Pass, s.(entries := s.entries[rel := RepoEntry(d.upstream.text, commit, world.now, rel)]))
    else Run(Pass, s)
  }

  /** One iteration of the loop in `cwl_deps`, with the unbound
      `DEP_NAMESPACE_URL` corrected: a descriptor whose files are all
      retrieved continues with its own declarations under its install
      directory. */
  function ResolveRun(world: World, basedir: Path, d: Decl, locks: map<Path, LockEntry>, op: Operation,
                      s: State): Run
    decreases d, 0
  {
    var installTo := InstallDir(basedir, d.installTo, d.upstream);
    match Classify(d.upstream)
    case Unsupported => Run(Pass, s)
    case Descriptor =>
      var retrieved := RetrieveAllRun(world, installTo, d.upstream, [d.upstream] + d.secondaryFiles, locks, op, s);
      if retrieved.outcome.Fail? then retrieved
      else CwlDepsRun(world, installTo, d.nested, locks, op, retrieved.state)
    case Archive => ArchiveRun(world, installTo, d.upstream, locks, op, s)
    case Repository => RepositoryRun(world, installTo, d, locks, op, s)
  }

  /** `cwl_deps`: the declarations in order, up to the first that raises. */
  function CwlDepsRun(world: World, basedir: Path, deps: seq<Decl>, locks: map<Path, LockEntry>, op: Operation,
                      s: State): Run
    decreases deps, 1
  {
    if deps == [] then Run(Pass, s)
    else
      var first := ResolveRun(world, basedir, deps[0], locks, op, s);
      if first.outcome.Fail? then first
      else CwlDepsRun(world, basedir, deps[1..], locks, op, first.state)
  }

  // ---------------------------------------------------------------------
  // Two globals the traversal names but the module never binds

  /** The descriptor branch as written: once its files are retrieved, the
      search for its own `Dependencies` hints names `DEP_NAMESPACE_URL`,
      which is never bound, and raises NameError. */
  function DescriptorRunAsWritten(world: World, installTo: Path, d: Decl, locks: map<Path, LockEntry>,
                                  op: Operation, s: State): Run {
    var retrieved := RetrieveAllRun(world, installTo, d.upstream, [d.upstream] + d.secondaryFiles, locks, op, s);
    if retrieved.outcome.Fail? then retrieved
    else Run(Fail(UnboundName("DEP_NAMESPACE_URL")), retrieved.state)
  }

  /** The archive branch as written: the `installed_to` update evaluates
      `os.path.relpath(ex, ...)` before it looks up `verified[rel]`, and `ex`
      is never bound, so it raises NameError once the download and the
      extraction complete. */
  function ArchiveRunAsWritten(world: World, installTo: Path, url: Url, locks: map<Path, LockEntry>,
                               op: Operation, s: State): Run {
    var tgt := TargetPath(installTo, url);
    var rel := RelOf(world.host, tgt);
    if ChecksumMissing(world.host, s.files, tgt, locks, op == Check) then Run(Fail(MissingChecksum(rel)), s)
    else
      var t := DownloadStep(world.host, tgt, url.text, locks, op == Check, world.get(url.text), world.now, s);
      if tgt !in t.files then Run(Fail(ArchiveMissing(rel)), t)
      else Run(Fail(UnboundName("ex")), t)
  }

  // ---------------------------------------------------------------------
  // Properties of the steps

  /** A download never drops a key; in check mode it records nothing and
      writes only the temporary; otherwise the target is current afterwards
      against the entry it recorded. */
  lemma DownloadStepSpec(host: Host, tgt: Path, url: string, locks: map<Path, LockEntry>, checkOnly: bool,
                         body: seq<byte>, now: string, s: State)
    ensures var t := DownloadStep(host, tgt, url, locks, checkOnly, body, now, s);
      && s.entries.Keys <= t.entries.Keys
      && (checkOnly ==> t.entries == s.entries && WithoutTemps(t.files) == WithoutTemps(s.files))
      && (!checkOnly ==> IsCurrent(host, t.files, tgt, t.entries))
  {
    if checkOnly && !StopsEarly(host, s.files, tgt, locks, checkOnly) {
      WritingTempKeepsOthers(s.files, tgt, body);
    }
  }

  /** `retrieve` raises exactly when a locked entry lacks its checksum, and
      then changes nothing; it never drops a key, writes no regular file in
      check mode, and after a pass outside check mode the target is current
      against what `verified` records for it. */
  lemma RetrieveRunSpec(world: World, installTo: Path, descriptor: Url, loc: Url, locks: map<Path, LockEntry>,
                        op: Operation, s: State)
    ensures var r := RetrieveRun(world, installTo, descriptor, loc, locks, op, s);
      var tgt := RetrieveTarget(world.host, installTo, descriptor, loc);
      && Grows(s, r.state, op) && NoNameError(r.outcome)
      && (r.outcome.Fail? <==> ChecksumMissing(world.host, s.files, tgt, locks, op == Check))
      && (r.outcome.Fail? ==> r.state == s)
      && (r.outcome.Pass? && op != Check ==> IsCurrent(world.host, r.state.files, tgt, r.state.entries))
  {
    var tgt := RetrieveTarget(world.host, installTo, descriptor, loc);
    var v := VerifyStep(world.host, tgt, locks, s);
    DownloadStepSpec(world.host, tgt, loc.text, locks, op == Check, world.get(loc.text), world.now, v);
  }

  /** The archive branch raises exactly when a locked entry lacks its
      checksum or, in check mode, when `verify` did not record the archive
      before; outside check mode the fresh entry is recorded with the
      extraction directory, in check mode the recorded entry gains it. */
  lemma ArchiveRunCases(world: World, installTo: Path, url: Url, locks: map<Path, LockEntry>, op: Operation, s: State)
    ensures var r := ArchiveRun(world, installTo, url, locks, op, s);
      var tgt := TargetPath(installTo, url);
      var rel := RelOf(world.host, tgt);
      var extracted := [tgt, RelOf(world.host, installTo)];
      && (r.outcome.Fail? <==> ChecksumMissing(world.host, s.files, tgt, locks, op == Check)
                               || (op == Check && (tgt !in s.files || rel !in s.entries)))
      && (r.outcome.Pass? && op != Check ==>
            r.state.entries == s.entries[rel := FreshEntry(world.host, tgt, url.text, "",
                                 world.get(url.text), world.now).(installedTo := extracted)])
      && (r.outcome.Pass? && op == Check ==>
            r.state.entries == s.entries[rel := s.entries[rel].(installedTo := extracted)])
  {
  }

  /** The archive branch never drops a key, writes no regular file in check
      mode, and raises no NameError; after a pass outside check mode the
      archive is current against its entry. */
  lemma ArchiveRunSpec(world: World, installTo: Path, url: Url, locks: map<Path, LockEntry>, op: Operation, s: State)
    ensures var r := ArchiveRun(world, installTo, url, locks, op, s);
      var tgt := TargetPath(installTo, url);
      && Grows(s, r.state, op) && NoNameError(r.outcome)
      && (r.outcome.Pass? && op != Check ==> IsCurrent(world.host, r.state.files, tgt, r.state.entries))
  {
    var tgt := TargetPath(installTo, url);
    DownloadStepSpec(world.host, tgt, url.text, locks, op == Check, world.get(url.text), world.now, s);
  }

  /** The repository branch touches no file, keeps every key, and raises
      nothing but a failing `rev-parse`. */
  lemma RepositoryRunSpec(world: World, installTo: Path, d: Decl, locks: map<Path, LockEntry>, op: Operation, s: State)
    ensures var r := RepositoryRun(world, installTo, d, locks, op, s);
      && r.state.files == s.files && Grows(s, r.state, op) && NoNameError(r.outcome)
  {
  }

  /** A repository whose chosen version git cannot resolve raises, and the
      step leaves the state as it was. */
  lemma UnknownVersionRaises(world: World, basedir: Path, d: Decl, locks: map<Path, LockEntry>, op: Operation, s: State)
    requires Classify(d.upstream) == Repository && world.isRepository(d.upstream.text)
    requires var tgt := TargetPath(InstallDir(basedir, d.installTo, d.upstream), d.upstream);
      var version := ChosenVersion(RelOf(world.host, tgt), locks, op, d.version);
      Truthy(version) && world.revParse(tgt, version.value).None?
    ensures var tgt := TargetPath(InstallDir(basedir, d.installTo, d.upstream), d.upstream);
      ResolveRun(world, basedir, d, locks, op, s) == Run(Fail(GitFailed(RelOf(world.host, tgt))), s)
  {
    var installTo := InstallDir(basedir, d.installTo, d.upstream);
    assert ResolveRun(world, basedir, d, locks, op, s) == RepositoryRun(world, installTo, d, locks, op, s);
  }

  // ---------------------------------------------------------------------
  // Properties of the traversal

  /** Retrieving a list of files only adds keys, writes no regular file in
      check mode, and raises nothing but a missing checksum. */
  lemma {:induction false} RetrieveAllGrows(world: World, installTo: Path, descriptor: Url, locs: seq<Url>,
                                            locks: map<Path, LockEntry>, op: Operation, s: State)
    ensures var r := RetrieveAllRun(world, installTo, descriptor, locs, locks, op, s);
      Grows(s, r.state, op) && NoNameError(r.outcome)
  {
    if locs != [] {
      RetrieveRunSpec(world, installTo, descriptor, locs[0], locks, op, s);
      var first := RetrieveRun(world, installTo, descriptor, locs[0], locks, op, s);
      if first.outcome.Pass? {
        RetrieveAllGrows(world, installTo, descriptor, locs[1..], locks, op, first.state);
      }
    }
  }

  /** Resolving a declaration, its nested declarations included, never drops
      a key of `verified`, writes no regular file other than a `_download_`
      temporary in check mode, and never raises a NameError. */
  lemma {:induction false} ResolveGrows(world: World, basedir: Path, d: Decl, locks: map<Path, LockEntry>,
                                        op: Operation, s: State)
    decreases d, 0
    ensures var r := ResolveRun(world, basedir, d, locks, op, s);
      Grows(s, r.state, op) && NoNameError(r.outcome)
  {
    var installTo := InstallDir(basedir, d.installTo, d.upstream);
    var r := ResolveRun(world, basedir, d, locks, op, s);
    match Classify(d.upstream)
    case Unsupported =>
      assert r == Run(Pass, s);
    case Archive =>
      ArchiveRunSpec(world, installTo, d.upstream, locks, op, s);
      assert r == ArchiveRun(world, installTo, d.upstream, locks, op, s);
    case Repository =>
      RepositoryRunSpec(world, installTo, d, locks, op, s);
      assert r == RepositoryRun(world, installTo, d, locks, op, s);
    case Descriptor =>
      var locs := [d.upstream] + d.secondaryFiles;
      RetrieveAllGrows(world, installTo, d.upstream, locs, locks, op, s);
      var retrieved := RetrieveAllRun(world, installTo, d.upstream, locs, locks, op, s);
      if retrieved.outcome.Pass? {
        CwlDepsGrows(world, installTo, d.nested, locks, op, retrieved.state);
        assert r == CwlDepsRun(world, installTo, d.nested, locks, op, retrieved.state);
      } else {
        assert r == retrieved;
      }
  }

  /** The same for a whole list of declarations. */
  lemma {:induction false} CwlDepsGrows(world: World, basedir: Path, deps: seq<Decl>, locks: map<Path, LockEntry>,
                                        op: Operation, s: State)
    decreases deps, 1
    ensures var r := CwlDepsRun(world, basedir, deps, locks, op, s);
      Grows(s, r.state, op) && NoNameError(r.outcome)
  {
    if deps != [] {
      ResolveGrows(world, basedir, deps[0], locks, op, s);
      var first := ResolveRun(world, basedir, deps[0], locks, op, s);
      if first.outcome.Pass? {
        CwlDepsGrows(world, basedir, deps[1..], locks, op, first.state);
      }
    }
  }

  /** Declarations whose scheme is unsupported are only logged: nothing changes. */
  lemma {:induction false} UnsupportedChangesNothing(world: World, basedir: Path, deps: seq<Decl>,
                                                     locks: map<Path, LockEntry>, op: Operation, s: State)
    requires forall i :: 0 <= i < |deps| ==> Classify(deps[i].upstream) == Unsupported
    ensures CwlDepsRun(world, basedir, deps, locks, op, s) == Run(Pass, s)
  {
    if deps != [] {
      assert Classify(deps[0].upstream) == Unsupported;
      UnsupportedChangesNothing(world, basedir, deps[1..], locks, op, s);
    }
  }

  /** Resolving `a + b` resolves `a` and, unless it raised, continues with
      `b` from where `a` left the state. */
  lemma {:induction false} CwlDepsAppend(world: World, basedir: Path, a: seq<Decl>, b: seq<Decl>,
                                         locks: map<Path, LockEntry>, op: Operation, s: State)
    ensures var first := CwlDepsRun(world, basedir, a, locks, op, s);
      CwlDepsRun(world, basedir, a + b, locks, op, s) ==
        if first.outcome.Fail? then first else CwlDepsRun(world, basedir, b, locks, op, first.state)
  {
    if a == [] {
      assert a + b == b;
    } else {
      assert (a + b)[0] == a[0];
      assert (a + b)[1..] == a[1..] + b;
      var head := ResolveRun(world, basedir, a[0], locks, op, s);
      if head.outcome.Pass? {
        CwlDepsAppend(world, basedir, a[1..], b, locks, op, head.state);
      }
    }
  }

  /** Resolving one more declaration after `a` continues from where `a` left the state. */
  lemma CwlDepsSnoc(world: World, basedir: Path, a: seq<Decl>, d: Decl,
                    locks: map<Path, LockEntry>, op: Operation, s: State)
    ensures var first := CwlDepsRun(world, basedir, a, locks, op, s);
      CwlDepsRun(world, basedir, a + [d], locks, op, s) ==
        if first.outcome.Fail? then first else ResolveRun(world, basedir, d, locks, op, first.state)
  {
    CwlDepsAppend(world, basedir, a, [d], locks, op, s);
    assert [d][0] == d && [d][1..] == [];
  }

  /** Once the declarations before `k` have raised, the traversal ends with
      that exception and that state: no later declaration is resolved. */
  lemma StopsAtFirstFailure(world: World, basedir: Path, deps: seq<Decl>, k: nat,
                            locks: map<Path, LockEntry>, op: Operation, s: State)
    requires k <= |deps|
    requires CwlDepsRun(world, basedir, deps[..k], locks, op, s).outcome.Fail?
    ensures CwlDepsRun(world, basedir, deps, locks, op, s) == CwlDepsRun(world, basedir, deps[..k], locks, op, s)
  {
    assert deps == deps[..k] + deps[k..];
    CwlDepsAppend(world, basedir, deps[..k], deps[k..], locks, op, s);
  }

  /** A descriptor whose files are all retrieved continues with its own
      declarations, with its install directory as their base directory. */
  lemma DescriptorRecursesIntoNested(world: World, basedir: Path, d: Decl, locks: map<Path, LockEntry>,
                                     op: Operation, s: State)
    requires Classify(d.upstream) == Descriptor
    requires RetrieveAllRun(world, InstallDir(basedir, d.installTo, d.upstream), d.upstream,
                            [d.upstream] + d.secondaryFiles, locks, op, s).outcome == Pass
    ensures var installTo := InstallDir(basedir, d.installTo, d.upstream);
      ResolveRun(world, basedir, d, locks, op, s) ==
        CwlDepsRun(world, installTo, d.nested, locks, op,
                   RetrieveAllRun(world, installTo, d.upstream, [d.upstream] + d.secondaryFiles, locks, op, s).state)
  {
  }

  /** As written, no descriptor declaration passes. It raises NameError
      exactly when its files are all retrieved, which is where the corrected
      step goes on into the nested declarations, from the same state;
      otherwise both fail alike. */
  lemma DescriptorNeverCompletesAsWritten(world: World, basedir: Path, d: Decl, locks: map<Path, LockEntry>,
                                          op: Operation, s: State)
    requires Classify(d.upstream) == Descriptor
    ensures var installTo := InstallDir(basedir, d.installTo, d.upstream);
      var w := DescriptorRunAsWritten(world, installTo, d, locks, op, s);
      var r := ResolveRun(world, basedir, d, locks, op, s);
      && w.outcome != Pass
      && (w.outcome == Fail(UnboundName("DEP_NAMESPACE_URL")) <==>
            RetrieveAllRun(world, installTo, d.upstream, [d.upstream] + d.secondaryFiles, locks, op, s).outcome == Pass)
      && (w.outcome == Fail(UnboundName("DEP_NAMESPACE_URL")) ==>
            r == CwlDepsRun(world, installTo, d.nested, locks, op, w.state))
      && (w.outcome != Fail(UnboundName("DEP_NAMESPACE_URL")) ==> w == r)
  {
    var installTo := InstallDir(basedir, d.installTo, d.upstream);
    RetrieveAllGrows(world, installTo, d.upstream, [d.upstream] + d.secondaryFiles, locks, op, s);
  }

  /** As written, no archive declaration passes. It raises NameError exactly
      when the download and the extraction complete, from the state they
      leave; there the corrected step either records the extraction
      directory in that state or, with no entry to read back, raises
      KeyError. Otherwise both fail alike. */
  lemma ArchiveNeverCompletesAsWritten(world: World, installTo: Path, url: Url, locks: map<Path, LockEntry>,
                                       op: Operation, s: State)
    ensures var w := ArchiveRunAsWritten(world, installTo, url, locks, op, s);
      var r := ArchiveRun(world, installTo, url, locks, op, s);
      var tgt := TargetPath(installTo, url);
      var rel := RelOf(world.host, tgt);
      && w.outcome != Pass
      && (w.outcome == Fail(UnboundName("ex")) <==>
            !ChecksumMissing(world.host, s.files, tgt, locks, op == Check) && (op != Check || tgt in s.files))
      && (w.outcome == Fail(UnboundName("ex")) ==>
            if rel in w.state.entries
            then r == Run(Pass, w.state.(entries := w.state.entries[rel := w.state.entries[rel].(
                                           installedTo := [tgt, RelOf(world.host, installTo)])]))
            else r == Run(Fail(ArchiveNotRecorded(rel)), w.state))
      && (w.outcome != Fail(UnboundName("ex")) ==> w == r)
  {
  }

  /** git answers every `rev-parse` the traversal runs. */
  ghost predicate GitAnswers(world: World) {
    && (forall p: Path, rev: string :: world.revParse(p, rev).Some?)
    && (forall p: Path :: world.head(p).Some?)
  }

  /** When git answers, declarations that are repositories or unsupported
      never raise. */
  lemma {:induction false} RepositoriesAlwaysPass(world: World, basedir: Path, deps: seq<Decl>,
                                                  locks: map<Path, LockEntry>, op: Operation, s: State)
    requires GitAnswers(world)
    requires forall i :: 0 <= i < |deps| ==>
      Classify(deps[i].upstream) == Repository || Classify(deps[i].upstream) == Unsupported
    ensures CwlDepsRun(world, basedir, deps, locks, op, s).outcome == Pass
  {
    if deps != [] {
      var first := ResolveRun(world, basedir, deps[0], locks, op, s);
      RepositoryPasses(world, basedir, deps[0], locks, op, s);
      RepositoriesAlwaysPass(world, basedir, deps[1..], locks, op, first.state);
    }
  }

  /** One repository or unsupported declaration, when git answers. */
  lemma RepositoryPasses(world: World, basedir: Path, d: Decl, locks: map<Path, LockEntry>, op: Operation, s: State)
    requires GitAnswers(world)
    requires Classify(d.upstream) == Repository || Classify(d.upstream) == Unsupported
    ensures ResolveRun(world, basedir, d, locks, op, s).outcome == Pass
  {
    if Classify(d.upstream) == Repository {
      var installTo := InstallDir(basedir, d.installTo, d.upstream);
      assert ResolveRun(world, basedir, d, locks, op, s) == RepositoryRun(world, installTo, d, locks, op, s);
    }
  }

  // ---------------------------------------------------------------------
  // The traversal, on the `Disk` and the `verified` dictionary

  /** `retrieve(obj)` inside `cwl_deps`. */
  method Retrieve(world: World, installTo: Path, descriptor: Url, loc: Url, locks: map<Path, LockEntry>,
                  op: Operation, verified: VerifiedSet, disk: Disk)
    returns (outcome: Outcome)
    modifies verified, disk
    ensures Run(outcome, State(verified.entries, disk.files)) ==
      RetrieveRun(world, installTo, descriptor, loc, locks, op, State(old(verified.entries), old(disk.files)))
    ensures old(verified.entries).Keys <= verified.entries.Keys
    ensures op == Check ==> WithoutTemps(disk.files) == WithoutTemps(old(disk.files))
    ensures var tgt := RetrieveTarget(world.host, installTo, descriptor, loc);
      outcome.Fail? <==> ChecksumMissing(world.host, old(disk.files), tgt, locks, op == Check)
    ensures var tgt := RetrieveTarget(world.host, installTo, descriptor, loc);
      var rel := RelOf(world.host, tgt);
      outcome == Pass && SkipsDownload(IsCurrent(world.host, old(disk.files), tgt, locks), op) ==>
        disk.files == old(disk.files) && verified.entries == old(verified.entries)[rel := locks[rel]]
    ensures var tgt := RetrieveTarget(world.host, installTo, descriptor, loc);
      var rel := RelOf(world.host, tgt);
      var body := world.get(loc.text);
      outcome == Pass && op != Check && !SkipsDownload(IsCurrent(world.host, old(disk.files), tgt, locks), op) ==>
        && disk.files == (old(disk.files) - {DownloadTemp(tgt)})[tgt := body]
        && verified.entries == old(verified.entries)[rel := FreshEntry(world.host, tgt, loc.text, "", body, world.now)]
    ensures var tgt := RetrieveTarget(world.host, installTo, descriptor, loc);
      var rel := RelOf(world.host, tgt);
      outcome == Pass && op == Check ==>
        && verified.entries == (if IsCurrent(world.host, old(disk.files), tgt, locks)
                                then old(verified.entries)[rel := locks[rel]] else old(verified.entries))
        && disk.files == (if StopsEarly(world.host, old(disk.files), tgt, locks, true) then old(disk.files)
                          else old(disk.files)[DownloadTemp(tgt) := world.get(loc.text)])
  {
    RetrieveRunSpec(world, installTo, descriptor, loc, locks, op, State(verified.entries, disk.files));
    var tgt := RetrieveTarget(world.host, installTo, descriptor, loc);
    var rel := RelOf(world.host, tgt);
    if tgt in disk.files && rel in locks && locks[rel].checksum.None? {
      return Fail(MissingChecksum(rel));
    }
    var ok := Verify(world.host, tgt, locks, verified, disk);
    if SkipsDownload(ok, op) {
      return Pass;
    }
    var checkOnly := op == Check;
    if rel in locks && (!checkOnly || tgt in disk.files) && locks[rel].checksum.None? {
      return Fail(MissingChecksum(rel));
    }
    var _ := Download(world.host, tgt, loc.text, "", locks, verified, checkOnly, disk, world.get(loc.text), world.now);
    outcome := Pass;
  }

  /** The descriptor branch's loop: `retrieve` on the descriptor and on every
      file it references, in order, up to the first that raises. */
  method RetrieveAll(world: World, installTo: Path, descriptor: Url, locs: seq<Url>, locks: map<Path, LockEntry>,
                     op: Operation, verified: VerifiedSet, disk: Disk)
    returns (outcome: Outcome)
    modifies verified, disk
    ensures Run(outcome, State(verified.entries, disk.files)) ==
      RetrieveAllRun(world, installTo, descriptor, locs, locks, op, State(old(verified.entries), old(disk.files)))
  {
    ghost var s0 := State(verified.entries, disk.files);
    var k := 0;
    while k < |locs|
      invariant 0 <= k <= |locs|
      invariant RetrieveAllRun(world, installTo, descriptor, locs, locks, op, s0) ==
        RetrieveAllRun(world, installTo, descriptor, locs[k..], locks, op, State(verified.entries, disk.files))
    {
      outcome := Retrieve(world, installTo, descriptor, locs[k], locks, op, verified, disk);
      assert locs[k..][0] == locs[k] && locs[k..][1..] == locs[k + 1..];
      if outcome.Fail? {
        return;
      }
      k := k + 1;
    }
    assert locs[k..] == [];
    outcome := Pass;
  }

  /** The archive branch: download the archive, then record the directory it
      is extracted into beside the target. */
  method FetchArchive(world: World, installTo: Path, url: Url, locks: map<Path, LockEntry>, op: Operation,
                      verified: VerifiedSet, disk: Disk)
    returns (outcome: Outcome)
    modifies verified, disk
    ensures Run(outcome, State(verified.entries, disk.files)) ==
      ArchiveRun(world, installTo, url, locks, op, State(old(verified.entries), old(disk.files)))
    ensures var tgt := TargetPath(installTo, url);
      var rel := RelOf(world.host, tgt);
      var extracted := [tgt, RelOf(world.host, installTo)];
      && (outcome.Fail? <==> ChecksumMissing(world.host, old(disk.files), tgt, locks, op == Check)
                             || (op == Check && (tgt !in old(disk.files) || rel !in old(verified.entries))))
      && (outcome.Pass? && op != Check ==>
            verified.entries == old(verified.entries)[rel := FreshEntry(world.host, tgt, url.text, "",
                                 world.get(url.text), world.now).(installedTo := extracted)])
      && (outcome.Pass? && op == Check ==>
            verified.entries == old(verified.entries)[rel := old(verified.entries)[rel].(installedTo := extracted)])
  {
    ArchiveRunCases(world, installTo, url, locks, op, State(verified.entries, disk.files));
    var tgt := TargetPath(installTo, url);
    var rel := RelOf(world.host, tgt);
    var checkOnly := op == Check;
    if rel in locks && (!checkOnly || tgt in disk.files) && locks[rel].checksum.None? {
      return Fail(MissingChecksum(rel));
    }
    var _ := Download(world.host, tgt, url.text, "", locks, verified, checkOnly, disk, world.get(url.text), world.now);
    if tgt !in disk.files {
      return Fail(ArchiveMissing(rel));
    }
    if rel !in verified.entries {
      return Fail(ArchiveNotRecorded(rel));
    }
    // the archive is extracted into installTo, which is recorded beside it
    var extracted := RelOf(world.host, installTo);
    verified.entries := verified.entries[rel := verified.entries[rel].(installedTo := [tgt, extracted])];
    outcome := Pass;
  }

  /** The repository branch: when the probe answers, clone or fetch into the
      target, check out the chosen version and record the commit it is left at. */
  method ProbeRepository(world: World, installTo: Path, d: Decl, locks: map<Path, LockEntry>, op: Operation,
                         verified: VerifiedSet, disk: Disk)
    returns (outcome: Outcome)
    modifies verified
    ensures Run(outcome, State(verified.entries, disk.files)) ==
      RepositoryRun(world, installTo, d, locks, op, State(old(verified.entries), disk.files))
    ensures var tgt := TargetPath(installTo, d.upstream);
      var rel := RelOf(world.host, tgt);
      var commit := RecordedCommit(world, tgt, ChosenVersion(rel, locks, op, d.version));
      && (outcome.Fail? <==> world.isRepository(d.upstream.text) && commit.None?)
      && (outcome.Fail? ==> outcome == Fail(GitFailed(rel)) && verified.entries == old(verified.entries))
      && (outcome.Pass? ==>
            verified.entries == if world.isRepository(d.upstream.text)
                                then old(verified.entries)[rel := RepoEntry(d.upstream.text, commit.value, world.now, rel)]
                                else old(verified.entries))
  {
    var tgt := TargetPath(installTo, d.upstream);
    outcome := Pass;
    if world.isRepository(d.upstream.text) {
      // clone into tgt, or fetch when tgt is already a checkout
      var rel := RelOf(world.host, tgt);
      var version := ChosenVersion(rel, locks, op, d.version);
      var commit := world.head(tgt);
      if Truthy(version) {
        var co := world.revParse(tgt, version.value);
        var head := world.head(tgt);
        if co.None? || head.None? {
          return Fail(GitFailed(rel));
        }
        // `git checkout co` unless HEAD is already there; HEAD is then `co`
        commit := co;
      }
      if commit.None? {
        return Fail(GitFailed(rel));
      }
      verified.entries := verified.entries[rel := RepoEntry(d.upstream.text, commit.value, world.now, rel)];
    }
  }

  /** One iteration of the loop in `cwl_deps`. What it keeps is stated
      about `ResolveRun` by `ResolveGrows`. */
  method ResolveDecl(world: World, basedir: Path, d: Decl, locks: map<Path, LockEntry>, op: Operation,
                     verified: VerifiedSet, disk: Disk)
    returns (outcome: Outcome)
    modifies verified, disk
    decreases d, 0
    ensures Run(outcome, State(verified.entries, disk.files)) ==
      ResolveRun(world, basedir, d, locks, op, State(old(verified.entries), old(disk.files)))
  {
    var url := d.upstream;
    var installTo := InstallDir(basedir, d.installTo, url);
    // os.makedirs(installTo) is not modelled: directories are not on the Disk
    match Classify(url)
    case Unsupported =>
      // "Scheme ... not supported" is logged and the loop moves on
      outcome := Pass;
    case Descriptor =>
      outcome := RetrieveAll(world, installTo, url, [url] + d.secondaryFiles, locks, op, verified, disk);
      if outcome.Pass? {
        outcome := CwlDeps(world, installTo, d.nested, locks, op, verified, disk);
      }
    case Archive =>
      outcome := FetchArchive(world, installTo, url, locks, op, verified, disk);
    case Repository =>
      outcome := ProbeRepository(world, installTo, d, locks, op, verified, disk);
  }

  /** `cwl_deps(basedir, dependencies, locks, verified, operation)`: the
      declarations in order; an exception ends the whole traversal. What it
      keeps is stated about `CwlDepsRun` by `CwlDepsGrows`, the order and the
      stop by `CwlDepsAppend` and `StopsAtFirstFailure`. */
  method CwlDeps(world: World, basedir: Path, deps: seq<Decl>, locks: map<Path, LockEntry>, op: Operation,
                 verified: VerifiedSet, disk: Disk)
    returns (outcome: Outcome)
    modifies verified, disk
    decreases deps, 1
    ensures Run(outcome, State(verified.entries, disk.files)) ==
      CwlDepsRun(world, basedir, deps, locks, op, State(old(verified.entries), old(disk.files)))
  {
    ghost var s0 := State(verified.entries, disk.files);
    var i := 0;
    while i < |deps|
      invariant 0 <= i <= |deps|
      invariant CwlDepsRun(world, basedir, deps[..i], locks, op, s0) == Run(Pass, State(verified.entries, disk.files))
    {
      outcome := ResolveDecl(world, basedir, deps[i], locks, op, verified, disk);
      CwlDepsSnoc(world, basedir, deps[..i], deps[i], locks, op, s0);
      assert deps[..i + 1] == deps[..i] + [deps[i]];
      if outcome.Fail? {
        StopsAtFirstFailure(world, basedir, deps, i + 1, locks, op, s0);
        return;
      }
      i := i + 1;
    }
    assert deps[..i] == deps;
    outcome := Pass;
  }
}
