# cwldep core, modelled in Dafny

cwldep is a dependency manager for Common Workflow Language documents. A
workflow declares its dependencies in a `dep:Dependencies` hint, one
declaration per upstream URL. `cwldep install | update | check | clean`
walks these declarations, fetches each one into a directory derived from
its URL and records what it installed in a lockfile (`<workflow>.dep.lock`).
Each lock entry holds the upstream, the version, the SHA-1 checksum, the
retrieval time and the installed paths. `cwldep add` inserts a declaration
into a workflow's hints.

This project models the bookkeeping at the heart of `cwldep/__init__.py`:

- `expand_ns`, in module `Namespaces`. It is a pure string function and is
  modelled as the source computes it (`split(":", 2)`, then `"".join`). It
  is proved against an independent description in terms of colon positions.
- `verify` and the lock logic of `download`, in module `Integrity`.
  - The disk is a `Disk` object whose `files` map is updated in place.
  - The run's `verified` dictionary is a `VerifiedSet` object.
  - Both chunked hashing loops are loops over the byte sequence.
- `cwl_deps`, in module `Resolver`:
  - the placement rules (`installTo` and the target path, over a model of
    `posixpath` in module `PosixPath`);
  - the scheme and suffix classification;
  - the secondary-file skip rule;
  - the repository version rule;
  - the traversal itself, as two mutually recursive methods (`CwlDeps` and
    `ResolveDecl`) that thread `verified` and the disk through the recursion
    into nested descriptors. `ResolveDecl` retrieves a descriptor's files
    through `RetrieveAll`, which calls `Retrieve` once per file.
- The reconciliation loop at the end of `main`, in module `LockManager`.
  Orphaned lock entries are either carried into the new lock or, under
  `clean`, have their installed paths removed.
- `add_dep` and its inner `_add`, in module `AddDependency`. It is an
  in-place edit of a `Workflow` object's hints, in list form or mapping
  form. It is specified by pure functions whose properties are proved as
  lemmas.

External facilities are inputs. `os.path.relpath`, the working directory and
the SHA-1 hex digest form a `Host` value (module `Base`); only equality of
digests matters. What the network, git and the CWL loader report during a
run forms a `World` value:

- the body a GET streams back;
- whether the repository probe answers;
- what `git rev-parse` prints, or that it exits non-zero;
- the referenced files of a descriptor and the declarations nested in it.

An exception that ends the run (a `KeyError`, a `NameError`) is modelled as
a `Fail` outcome. Only an unsupported scheme is logged and skipped; any
exception propagates out of `cwl_deps` and ends the run, and the model
stops the traversal there.

The traversal is stated twice. `ResolveRun` and `CwlDepsRun` are functions
over a `State` (the `verified` entries and the files on disk); the methods
`CwlDeps`, `ResolveDecl`, `RetrieveAll`, `Retrieve`, `FetchArchive` and
`ProbeRepository` update the `VerifiedSet` and `Disk` objects and are proved
equal to those functions. The lemmas about the functions then carry over
to the methods.

## Model

| member | source | states |
|---|---|---|
| Namespaces.Split | cwldep/__init__.py:210 | Python's `split(":", 2)` returns at least one part and at most three. |
| Namespaces.ExpandNs | cwldep/__init__.py:209-214 | `expand_ns` as the source computes it, with no contract of its own. Its meaning is stated by `Namespaces.ExpandNsSpec` and the lemmas below. |
| Namespaces.ExpandNsSpec | cwldep/__init__.py:209-214 | When the text before the first colon is a key, the result is that namespace followed by the local name. Otherwise the symbol comes back unchanged. |
| Namespaces.SplitJoin | cwldep/__init__.py:210-212 | The first part of `split(":", 2)` is the text before the first colon. Joining the remaining parts gives the text after it, with the next colon dropped. |
| Namespaces.ExpandKnownPrefix | cwldep/__init__.py:209-212 | `prefix:name` with a known prefix and a colon-free name expands to the namespace followed by `name`. |
| Namespaces.ExpandDropsSecondColon | cwldep/__init__.py:210-212 | `prefix:a:b` expands to the namespace followed by `ab`: the second colon is lost. |
| Namespaces.ExpandUnknownPrefix | cwldep/__init__.py:211-214 | A symbol whose prefix is not a key is returned unchanged. |
| Namespaces.ExpandBareKey | cwldep/__init__.py:210-212 | A colon-free symbol that is itself a key expands to its namespace. |
| Namespaces.ExpandNsNoColonExample | tests/test_cwldep.py:8-10 | `symbol` is returned unchanged when it is not a key. |
| Namespaces.ExpandNsKnownExample | tests/test_cwldep.py:12-14 | `dep:symbol` becomes `CWLDEP_URL + "symbol"` when `dep` is bound to `CWLDEP_URL`. |
| Namespaces.ExpandUnknownColonPrefix | tests/test_cwldep.py:16-18 | `prefix:name` with an unbound, colon-free prefix (such as `other:symbol`) is returned unchanged. |
| PosixPath.Join | cwldep/__init__.py:119-127 | `os.path.join` of two parts, with no contract of its own. `PosixPath.BasenameOfJoin` and `PosixPath.JoinDirnameBasename` state what placement relies on. |
| PosixPath.Dirname | cwldep/__init__.py:121 | `os.path.dirname`, with no contract of its own. `PosixPath.JoinDirnameBasename` states that it and `Basename` split a path. |
| PosixPath.Basename | cwldep/__init__.py:127 | `os.path.basename`, with no contract of its own. `PosixPath.BasenameOfJoin` and `PosixPath.BasenameOfLStrip` state how it meets `join` and `lstrip`. |
| PosixPath.LStripSlashes | cwldep/__init__.py:121 | `str.lstrip("/")`, with no contract of its own. `PosixPath.BasenameOfLStrip` states that it keeps the basename. |
| PosixPath.BasenameOfJoin | cwldep/__init__.py:127 | Joining a relative component onto a directory keeps that component's basename. |
| PosixPath.BasenameOfLStrip | cwldep/__init__.py:121 | `lstrip("/")` does not change a path's basename. |
| PosixPath.JoinDirnameBasename | cwldep/__init__.py:121-127 | `join(dirname(p), basename(p)) == p` for a path without doubled slashes. |
| Integrity.ReadChunk | cwldep/__init__.py:85-88 | A read returns the next bytes of the file at the current position, and is empty exactly at the end of the file. |
| Integrity.HashFile | cwldep/__init__.py:83-88 | The chunk loop terminates, and its digest is the hash of the whole content. |
| Integrity.IsCurrent | cwldep/__init__.py:80-89 | What `verify` decides, with no contract of its own. `Integrity.Verify` returns exactly this predicate. |
| Integrity.Verify | cwldep/__init__.py:77-93 | The result is true iff the target is a file, its relative path is locked, and the hash of its content equals the locked checksum. On true, only `verified[rel]` changes, to `locks[rel]`. On false, `verified` is unchanged. |
| Integrity.DownloadTemp | cwldep/__init__.py:37 | The temporary a download streams into, `tgt + "_download_"`. No contract of its own; `Integrity.Download` and `Resolver.WritingTempKeepsOthers` state what writing it changes. |
| Integrity.StopsEarly | cwldep/__init__.py:43-46 | In check mode, a missing target or an unlocked path stops `download` before any fetch. No contract of its own; `Integrity.Download` states that nothing then changes. |
| Integrity.CompareWithLock | cwldep/__init__.py:56-60 | The result is "upstream changed" iff the path is locked with another checksum, "up to date" iff it is locked with the same checksum, and "unlocked" otherwise. |
| Integrity.FreshEntry | cwldep/__init__.py:67-74 | The entry `download` records, with no contract of its own. `Integrity.Download` states that the target is current against it, and `Integrity.RefetchReport` compares two of them. |
| Integrity.StreamToTemp | cwldep/__init__.py:48-54 | The temporary file ends up holding the whole body, and the hash has been fed the whole body. |
| Integrity.Download | cwldep/__init__.py:36-74 | In check mode, a target that is missing or unlocked stops the call before any fetch, and nothing changes. Otherwise the report compares the fresh checksum with the lock. Check mode leaves only the temporary file behind and never touches `verified`. Outside check mode the body is renamed onto the target, and only `verified[rel]` changes, to the fresh entry. The target then passes `verify` against the new entries. |
| Integrity.RefetchReport | cwldep/__init__.py:56-74 | Against an entry recorded by an earlier download, the report is "up to date" iff the new digest is the same. Refetching the same body records the same entry apart from the time stamp. |
| Resolver.InstallDir | cwldep/__init__.py:118-121 | `installTo`: the declared directory under `basedir`, else the directory of the mirrored path. No contract of its own; `Resolver.TargetMirrorsUrl` states where the target then lands. |
| Resolver.TargetPath | cwldep/__init__.py:127 | `join(installTo, basename(path))`, with no contract of its own. `Resolver.TargetMirrorsUrl` and `Resolver.TargetKeepsUrlName` state its properties. |
| Resolver.TargetMirrorsUrl | cwldep/__init__.py:118-127 | Without a declared `installTo`, and when the mirrored path `basedir/netloc/path` (leading slashes of the path removed) has no doubled slash, the target is exactly that mirrored path. |
| Resolver.TargetKeepsUrlName | cwldep/__init__.py:127 | The target's basename is the URL path's basename, wherever it is installed. |
| Resolver.RetrieveTarget | cwldep/__init__.py:146-148 | Where `retrieve` puts a referenced file: `installTo` joined with the file's path relative to the descriptor's directory. No contract of its own; `Resolver.Retrieve` and `Resolver.RetrieveRunSpec` are stated at this path. |
| Resolver.MirrorPath | cwldep/__init__.py:121 | `basedir/netloc/path`, the leading slashes of the path removed. No contract of its own; `Resolver.TargetMirrorsUrl` states that the target is this path. |
| Resolver.ArchiveFormatOf | cwldep/__init__.py:162-172 | The archive format the suffix selects, tested in the source's order. No contract of its own; `Resolver.Classify` states that a path has an archive kind iff this is some format. |
| Resolver.DescriptorIsNoArchive | cwldep/__init__.py:129-162 | A `.cwl` path has none of the archive suffixes, so the order of the suffix tests does not matter. |
| Resolver.Classify | cwldep/__init__.py:126-206 | The kind is unsupported iff the scheme is not http(s). It is a descriptor iff the scheme is http(s) and the path ends in `.cwl`. It is an archive iff the scheme is http(s) and the path has an archive suffix. It is a repository otherwise. |
| Resolver.SkipsDownload | cwldep/__init__.py:151-152 | `retrieve` returns early iff `verify` succeeded and the operation is neither `update` nor `check`. No contract of its own; `Resolver.Retrieve` states what skipping leaves. |
| Resolver.RepoEntry | cwldep/__init__.py:198-203 | The lock entry of a repository: upstream, commit as version, no checksum, the time, `installed_to = [rel]`. No contract of its own; `Resolver.ProbeRepository` states when it is recorded. |
| Resolver.ChosenVersion | cwldep/__init__.py:184-187 | The locked version when the target is locked and the operation is not `update`, else the declared one. No contract of its own; `Resolver.UpdateUsesDeclaredVersion` and `Resolver.RepositoryPinStable` state its use. |
| Resolver.RecordedCommit | cwldep/__init__.py:189-196 | Corrected: the commit the checkout at the target is left at, or none when a `rev-parse` inside the checkout fails. No contract of its own; `Resolver.RepositoryPinStable` states that recording it keeps the pin, and `Resolver.UnknownVersionRaises` what a failure does. |
| Resolver.RecordedCommitAsWritten | cwldep/__init__.py:189-196 | As written: none when a version is chosen and a `rev-parse` inside the checkout fails, else the HEAD of the working directory, or none when that `rev-parse` fails too. No contract of its own; `Resolver.PinLostAsWritten` states its consequence. |
| Resolver.UpdateUsesDeclaredVersion | cwldep/__init__.py:184-187 | Under `update`, the declared version is chosen, whatever the lock holds. |
| Resolver.RepositoryPinStable | cwldep/__init__.py:184-203 | With the commit resolved inside the checkout, a later run that is not an update chooses the recorded commit and records it again. |
| Resolver.PinLostAsWritten | cwldep/__init__.py:184-196 | As written, a checkout pinned at `pin` records the working directory's HEAD `h` instead, while the corrected version records `pin`. When `h` does not resolve to `pin` inside the checkout, a later run that is not an update chooses `h` and leaves the checkout at a commit other than `pin`. |
| Resolver.DescriptorRunAsWritten | cwldep/__init__.py:139-160 | As written: the descriptor's files are retrieved, and then the search for its nested hints raises NameError on `DEP_NAMESPACE_URL`. No contract of its own; `Resolver.DescriptorNeverCompletesAsWritten` relates it to the corrected step. |
| Resolver.DescriptorNeverCompletesAsWritten | cwldep/__init__.py:139-160 | As written, a descriptor step never passes. It raises NameError iff all its files are retrieved; from that same state the corrected step goes on with `cwl_deps` of the nested declarations. When retrieval fails, the as-written and the corrected step fail alike. |
| Resolver.ArchiveRunAsWritten | cwldep/__init__.py:162-174 | As written: the missing-checksum check and the download, the extraction's open of the archive, and then the NameError on `ex` at line 174. No contract of its own; `Resolver.ArchiveNeverCompletesAsWritten` relates it to the corrected step. |
| Resolver.ArchiveNeverCompletesAsWritten | cwldep/__init__.py:162-174 | As written, an archive step never passes. It raises NameError on `ex` iff no checksum is missing and, in check mode, the archive is on disk: the download and the extraction complete. From the state they leave, the corrected step records the extraction directory, or raises KeyError when there is no entry to read back. Otherwise the as-written and the corrected step fail alike. |
| Resolver.WritingTempKeepsOthers | cwldep/__init__.py:37-63 | Writing a `_download_` temporary changes no other file. |
| Resolver.ChecksumMissing | cwldep/__init__.py:56-89 | A locked entry without a checksum would be read: by `verify` (line 89) when the target exists, or by `download` (line 57) outside check mode. No contract of its own; `Resolver.RetrieveRunSpec` states that `retrieve` raises exactly then. |
| Resolver.VerifyStep | cwldep/__init__.py:77-93 | `verify` on a state: a current target gets its locked entry in `verified`. No contract of its own; it is the state `Integrity.Verify` leaves. |
| Resolver.DownloadStep | cwldep/__init__.py:36-74 | `download` on a state, with the empty version `cwl_deps` passes. No contract of its own; `Resolver.DownloadStepSpec` states its properties. |
| Resolver.DownloadStepSpec | cwldep/__init__.py:36-74 | A download never drops a key of `verified`. In check mode it records nothing and writes no file but its temporary. Otherwise the target is current against the entry it recorded. |
| Resolver.RetrieveRun | cwldep/__init__.py:145-153 | `retrieve(obj)` on a state. No contract of its own; `Resolver.RetrieveRunSpec` states its properties and `Resolver.Retrieve` is proved equal to it. |
| Resolver.RetrieveRunSpec | cwldep/__init__.py:145-153 | `retrieve` raises iff a locked entry without a checksum would be read, and then changes nothing. It never drops a key and never raises NameError. In check mode it writes no file but a `_download_` temporary. After a pass outside check mode, the target is current against what `verified` records for it. |
| Resolver.Retrieve | cwldep/__init__.py:145-153 | The new `verified` and disk are what `Resolver.RetrieveRun` gives. The call fails iff a locked entry without a checksum would be read. When `verify` succeeds and the operation is neither `update` nor `check`, the download is skipped, the disk is unchanged and only `verified[rel]` changes, to the locked entry. Outside check mode otherwise, the body replaces the target and `verified[rel]` becomes the fresh entry. In check mode `verified[rel]` changes only when `verify` succeeded, and the disk gains only the temporary unless `download` stops early. Keys of `verified` are never lost. In check mode no regular file that `download` manages is written other than its `_download_` temporary. |
| Resolver.RetrieveAllRun | cwldep/__init__.py:139-155 | `retrieve` over the descriptor and its referenced files in order, up to the first that raises. No contract of its own; `Resolver.RetrieveAllGrows` states its properties and `Resolver.RetrieveAll` is proved equal to it. |
| Resolver.RetrieveAllGrows | cwldep/__init__.py:139-155 | Retrieving the files keeps every key of `verified`, writes no regular file but temporaries in check mode, and raises nothing but a missing checksum. |
| Resolver.RetrieveAll | cwldep/__init__.py:139-155 | The loop over the files leaves `verified` and the disk as `Resolver.RetrieveAllRun` gives, and fails exactly as it does. |
| Resolver.ArchiveRun | cwldep/__init__.py:162-174 | Corrected archive branch on a state, with `ex` taken as `installTo`. No contract of its own; `Resolver.ArchiveRunCases` and `Resolver.ArchiveRunSpec` state its properties. |
| Resolver.ArchiveRunCases | cwldep/__init__.py:162-174 | Corrected archive branch: it fails iff a locked entry without a checksum would be read or, in check mode, the archive is not on disk (opening it for extraction raises) or not yet in `verified`. After a pass outside check mode, `verified[rel]` is the fresh entry with `installed_to = [tgt, relpath(installTo)]`. After a pass in check mode, only the `installed_to` of the entry already there changes, to that list. |
| Resolver.ArchiveRunSpec | cwldep/__init__.py:162-174 | The archive branch never drops a key, writes no regular file but its temporary in check mode, and never raises NameError. After a pass outside check mode the archive is current against its entry. |
| Resolver.FetchArchive | cwldep/__init__.py:162-174 | The state is what `Resolver.ArchiveRun` gives, and the three cases of `Resolver.ArchiveRunCases` hold of `verified`. |
| Resolver.RepositoryRun | cwldep/__init__.py:176-203 | Corrected repository branch on a state. No contract of its own; `Resolver.ProbeRepository` states it in full and `Resolver.RepositoryRunSpec` states its frame. |
| Resolver.RepositoryRunSpec | cwldep/__init__.py:176-203 | The repository branch leaves the disk alone, keeps every key of `verified` and never raises NameError. |
| Resolver.ProbeRepository | cwldep/__init__.py:176-203 | The state is what `Resolver.RepositoryRun` gives, and the disk is left alone. The step fails iff the probe answers and a `rev-parse` inside the checkout fails; it then fails with `GitFailed` and `verified` is unchanged. When it passes and the probe answered, `verified[rel]` becomes an entry with the commit the checkout is left at, no checksum and `installed_to = [rel]`. When the probe did not answer, nothing changes. |
| Resolver.UnknownVersionRaises | cwldep/__init__.py:184-191 | A repository whose chosen version `git rev-parse` cannot resolve inside the checkout raises `GitFailed`, and the state is left as it was. |
| Resolver.ResolveRun | cwldep/__init__.py:114-206 | One declaration on a state, with the two unbound names corrected. No contract of its own; the lemmas below state its properties and `Resolver.ResolveDecl` is proved equal to it. |
| Resolver.CwlDepsRun | cwldep/__init__.py:113-206 | `cwl_deps` on a state: the declarations in order, up to the first that raises. No contract of its own; the lemmas below state its properties and `Resolver.CwlDeps` is proved equal to it. |
| Resolver.ResolveGrows | cwldep/__init__.py:114-206 | Resolving a declaration, nested declarations included, keeps every key of `verified` and never raises NameError. In check mode no regular file that `download` manages is written other than a `_download_` temporary. |
| Resolver.CwlDepsGrows | cwldep/__init__.py:113-206 | The same for a whole list of declarations. |
| Resolver.UnsupportedChangesNothing | cwldep/__init__.py:205-206 | A list of only unsupported declarations passes and changes nothing. |
| Resolver.CwlDepsAppend | cwldep/__init__.py:114 | Resolving `a + b` resolves `a`, and then, unless `a` raised, `b` from the state `a` left. |
| Resolver.CwlDepsSnoc | cwldep/__init__.py:114 | Resolving one more declaration after `a` continues from the state `a` left, unless `a` raised. |
| Resolver.StopsAtFirstFailure | cwldep/__init__.py:113-206 | Once the declarations before position `k` raise, the whole traversal ends with that outcome and that state: no later declaration is resolved. |
| Resolver.DescriptorRecursesIntoNested | cwldep/__init__.py:155-160 | Corrected descriptor branch: once all its files are retrieved, the result is `cwl_deps` of the nested declarations, with `installTo` as their base directory, from the state retrieval left. |
| Resolver.RepositoryPasses | cwldep/__init__.py:176-206 | When every `rev-parse` answers, one repository or unsupported declaration passes. |
| Resolver.RepositoriesAlwaysPass | cwldep/__init__.py:176-206 | When every `rev-parse` answers, a list of only repository and unsupported declarations passes. |
| Resolver.ResolveDecl | cwldep/__init__.py:114-206 | Corrected: the new `verified` and disk, and the outcome, are what `Resolver.ResolveRun` gives. Its frame is stated by `Resolver.ResolveGrows`, its descriptor case by `Resolver.DescriptorRecursesIntoNested`, and its archive and repository cases by `Resolver.ArchiveRunCases` and `Resolver.ProbeRepository`. |
| Resolver.CwlDeps | cwldep/__init__.py:113-206 | Corrected: the new `verified` and disk are what `Resolver.CwlDepsRun` gives, with the same outcome. Order and the stop at the first failure are stated by `Resolver.CwlDepsAppend` and `Resolver.StopsAtFirstFailure`, the frame by `Resolver.CwlDepsGrows`. |
| LockManager.Orphans | cwldep/__init__.py:298-299 | The prior entries the run did not reach. No contract of its own; `LockManager.Reconcile` and `LockManager.CarriedLock` state its use. |
| LockManager.OrphansAmong | cwldep/__init__.py:298-302 | The entries of the keys visited that are locked and not in `verified`. No contract of its own; `LockManager.Reconcile` states its use. |
| LockManager.OrphanPaths | cwldep/__init__.py:298-306 | The `installed_to` paths of a key when it is an orphan, else none. No contract of its own; `LockManager.RemovedPathsExactly` states its meaning. |
| LockManager.RemovedPaths | cwldep/__init__.py:298-306 | The paths `clean` removes, in lock order. No contract of its own; `LockManager.RemovedPathsExactly` states its meaning. |
| LockManager.RemoveInstalled | cwldep/__init__.py:301-306 | Every `installed_to` path of an orphan is removed, in order. |
| LockManager.Reconcile | cwldep/__init__.py:297-316 | Outside `clean`, the new lock is `verified` plus every orphan with its old entry, nothing is removed, and the flag is set iff an orphan exists. Under `clean`, `verified` is unchanged, the flag is clear, and the removed paths are the orphans' `installed_to`, in lock order. |
| LockManager.CarriedLock | cwldep/__init__.py:307-309 | The carried lock equals the prior lock overlaid with this run's entries. Every prior key survives, and entries recorded this run are untouched. |
| LockManager.RemovedPathsExactly | cwldep/__init__.py:298-306 | A path is removed iff some orphan visited lists it in `installed_to`. |
| LockManager.CleanRemovesOrphanPaths | cwldep/__init__.py:298-306 | Under `clean`, the removed paths are exactly the union of the orphans' `installed_to`. |
| AddDependency.NewDep | cwldep/__init__.py:224-228 | The new declaration always has the upstream. It has `version` or `installTo` iff the matching argument is truthy, and then with that value. |
| AddDependency.Merge | cwldep/__init__.py:234 | `u.update(obj)`, with no contract of its own. `AddDependency.AddToDepsSpec` states that the merged entry carries the new keys. |
| AddDependency.DependenciesTest | cwldep/__init__.py:231-242 | The corrected class test of lines 231 and 242: the expanded class is the Dependencies URL. No contract of its own; `AddDependency.DependenciesClassPasses` and `AddDependency.UnboundDepFailsTest` state when it passes. |
| AddDependency.FirstDependenciesHint | cwldep/__init__.py:229-231 | The result is the first hint whose class passes the test, or none when no hint passes. |
| AddDependency.FirstWithUpstream | cwldep/__init__.py:232-233 | The result is the first declaration with the given upstream, or none when there is none. |
| AddDependency.DependenciesClassPasses | cwldep/__init__.py:231-238 | With `dep` bound to the cwldep namespace, the class `dep:Dependencies` expands to the Dependencies URL. |
| AddDependency.AddToDeps | cwldep/__init__.py:232-236 | The inner loop on values, with no contract of its own. `AddDependency.AddToDepsSpec` and `AddDependency.AddToDepsTwice` state its properties. |
| AddDependency.AddToDepsSpec | cwldep/__init__.py:232-236 | The list grows by one iff the upstream is new. Entries with other upstreams are unchanged. An entry with the upstream carries the new keys, and keeps its own `version` and `installTo` where the declaration has none. Unique upstreams stay unique. |
| AddDependency.AddToDepsTwice | cwldep/__init__.py:232-236 | Adding the same declaration to a list twice gives the same list as adding it once. |
| AddDependency.FirstClass | cwldep/__init__.py:249 | The position of the mapping entry with the given key, or none when there is none. |
| AddDependency.SetKey | cwldep/__init__.py:249 | `hints[key] = value` on a mapping kept as a sequence of entries. No contract of its own; `AddDependency.AddToNoHints` and `AddDependency.MapFormReplacesUnrecognisedHint` state its effect. |
| AddDependency.AddToHintsBy | cwldep/__init__.py:223-249 | `_add` on values for a given class test, after `setdefault("hints", {})`. No contract of its own; `AddDependency.AddChangesOneList` and `AddDependency.AddTwiceIsIdempotent` state its properties. |
| AddDependency.AddToItems | cwldep/__init__.py:229-249 | The scan of a list or mapping on values, with no contract of its own. `AddDependency.AddChangesOneList` states its properties. |
| AddDependency.AddToHints | cwldep/__init__.py:222-249 | The corrected `_add` on values, with the document's namespaces. No contract of its own; the lemmas below state its properties. |
| AddDependency.AddToNoHints | cwldep/__init__.py:223-249 | A workflow without hints, or with empty hints, gets `hints["dep:Dependencies"]["dependencies"] == [obj]`. |
| AddDependency.AddChangesOneList | cwldep/__init__.py:229-249 | The form of the hints is kept, and one hint changes while the rest are unchanged. When some hint passes the class test, the first such hint keeps its class and gets the declaration added to its list, and no hint is added. When none passes, a list gains one last `dep:Dependencies` hint holding just the declaration. A mapping then sets `dep:Dependencies` to just the declaration: in place when that key is there, otherwise as a new last entry. |
| AddDependency.AddTwiceIsIdempotent | cwldep/__init__.py:229-249 | For two class tests that agree on every hint the first `_add` saw, and where the second accepts `dep:Dependencies`, a second `_add` of the same declaration changes nothing. |
| AddDependency.SecondAddDepIsIdempotent | cwldep/__init__.py:222-253 | The first `add_dep` tests with the document's namespaces; the second tests with `dep` bound, as line 253 leaves it. When binding `dep` changes no verdict on the hints the first saw, the second `add_dep` leaves the hints as the first did. |
| AddDependency.BoundDepKeepsVerdicts | cwldep/__init__.py:253 | When `dep` is already bound to the cwldep namespace, binding it again changes no verdict, so `AddDependency.SecondAddDepIsIdempotent` applies. |
| AddDependency.UnboundDepFailsTest | cwldep/__init__.py:231 | With `dep` unbound, `dep:Dependencies` does not pass the test. |
| AddDependency.RecognisedOnlyLater | cwldep/__init__.py:229-239 | A `dep:Dependencies` hint that the first test misses and the second accepts gets a second hint from the first `_add`. The second `_add` then adds the declaration to the first hint too. |
| AddDependency.SecondAddDepAfterBindingDiffers | cwldep/__init__.py:222-253 | With `dep` unbound in the document, `add_dep` twice on `[dep:Dependencies with [a]]` is not idempotent. The first call appends a second hint with `[obj]`; the second call adds `obj` to the first hint as well. |
| AddDependency.MapFormReplacesUnrecognisedHint | cwldep/__init__.py:240-249 | In mapping form with `dep` unbound, an existing `dep:Dependencies` entry is not recognised and is overwritten with just the new declaration. |
| AddDependency.AddToHintsAsWritten | cwldep/__init__.py:229-249 | As written, `_add` fails on the first comparison with the unbound name. No contract of its own; `AddDependency.AddAsWrittenFailsWithHints` states when. |
| AddDependency.AddAsWrittenFailsWithHints | cwldep/__init__.py:229-249 | As written, `_add` fails iff the hints are a non-empty list or mapping. Where it does not fail, it agrees with the corrected edit. |
| AddDependency.AddAsWrittenExample | cwldep/__init__.py:229-239 | A list with an empty `dep:Dependencies` hint makes the as-written edit fail. The corrected edit puts the declaration into that hint. |
| AddDependency.Workflow.AddHint | cwldep/__init__.py:222-249 | The workflow's hints become the corrected `_add` edit of the old hints. Namespaces and `id` are unchanged. |
| AddDependency.UpdateItems | cwldep/__init__.py:229-249 | The scan and update of the hints computes the corrected `_add` edit of a list or mapping. |
| AddDependency.FindDependenciesHint | cwldep/__init__.py:230-231 | The loop stops at the first hint whose class passes the test, or at the end. |
| AddDependency.UpdateOrAppend | cwldep/__init__.py:232-236 | The inner loop merges into the first entry with the same upstream, or appends. |
| AddDependency.AddDep | cwldep/__init__.py:222-256 | The hints are edited by `_add`. Then `$namespaces["dep"] == CWLDEP_URL` and `id` is removed. The result is false iff there was no `id`, where `del` raises `KeyError`. |

## Left out

- Network I/O is not modelled. The body a GET streams back and the
  repository probe are inputs, in `World`. A connection error makes
  `requests.get` raise (lines 50 and 177) and ends the run; the model has
  no such failure, so every GET returns a body and every probe answers
  yes or no.
- Resolver.RepositoriesAlwaysPass: it assumes, besides `GitAnswers`, that
  the probe's GET returns, because connection errors are not modelled.
- git is not modelled. Clone, fetch and checkout are not modelled, and what
  `git rev-parse` prints, or its failure, is an input. A failed clone
  (line 182) shows up only as the `rev-parse` calls inside the target
  failing. `git fetch --all` (line 180) runs
  without `cwd`, in the working directory's repository, so it does not
  update an existing checkout; the model takes the HEAD the checkout has as
  an input either way.
- tar and zip extraction are not modelled, beyond opening the archive:
  a missing archive raises. The files it extracts are absent from the
  `Disk`, and an archive that is on disk but malformed does not raise in
  the model.
- The CWL loader is not modelled: `load_nocheck`, `scandeps`, `visit_class`,
  `fetch_document` and `resolve_all`.
  - The files a descriptor references, and the declarations nested in it,
    come with each declaration as a finite tree. They are given in the order
    visited.
  - A finite tree has no cycles. The source has no guard against a
    descriptor that depends on itself. As written, line 160 raises
    NameError before any recursion; the corrected traversal would recurse
    without end on such a descriptor.
- `visit_class` is assumed to reach `_add` once, on the root `Workflow`.
- Dictionary iteration order is given as the `order` of the lock's keys.
- SHA-1 and `os.path.relpath` are opaque functions of their arguments.
- `os.makedirs`, `os.remove` and `shutil.rmtree` are not modelled. Removal
  is recorded as the list of removed paths, and directories are not on the
  `Disk`. `shutil.rmtree` raises on a path that is already gone (line 306),
  for instance one listed by two orphans, and the lock is then not written;
  the model records the path as removed and goes on.
- Logging, argparse, YAML and JSON serialisation, the final rename of the
  workflow file, and the lockfile write are not modelled. The new lock is
  the final `verified`.
- `datetime.now` is an opaque time stamp.
- A hint without a `class` key, a `Dependencies` hint without a
  `dependencies` key (lines 114, 232 and 243), and a declaration without
  `upstream`, are not modelled. They would raise `KeyError` in the source.
- The `search` operation is not modelled. It prints a placeholder.
- Integrity.Verify: requires a checksum on a locked entry for an existing
  target, as the source reads `locks[rel]["checksum"]` unguarded. The
  traversal models a missing checksum as a `KeyError` failure instead.
- Integrity.Download: requires a checksum on a locked entry it would compare
  with, for the same reason.
- Resolver.Retrieve: when a missing checksum is read in `download`, the
  source has already left the `_download_` file on disk; the model fails
  before writing it.
- Resolver.ArchiveRun: the same holds for the archive's download; the model
  fails on the missing checksum before writing the `_download_` file.
- Resolver.FetchArchive: as `Resolver.ArchiveRun`, it fails before writing
  the `_download_` file that the source leaves.
- Resolver.Retrieve: its check-mode frame covers only the regular files
  `download` manages. The source's check mode still creates the target's
  directory (lines 149-150), which the model leaves out because directories
  are not on the `Disk`.
- Resolver.ResolveGrows: its check-mode frame covers only the regular files
  `download` manages. The source's check mode still creates `installTo`
  (lines 123-124), extracts archives into it (lines 164-172) and clones,
  fetches and checks out repositories (lines 179-195); none of these is on
  the `Disk`.
- Resolver.CwlDepsGrows: its check-mode frame has the same limits as
  `Resolver.ResolveGrows`.
- Resolver.ResolveDecl: its contract is the equality with
  `Resolver.ResolveRun`. The kept keys and the check-mode frame hold by
  `Resolver.ResolveGrows`, with the limits above.
- Resolver.CwlDeps: its contract is the equality with `Resolver.CwlDepsRun`.
  The kept keys and the check-mode frame hold by `Resolver.CwlDepsGrows`,
  with the limits above.

## Findings

| source | as written | input that shows it | evidently intended | confidence | as-written member | corrected member |
|---|---|---|---|---|---|---|
| cwldep/__init__.py:196 | `git rev-parse HEAD` runs without `cwd=tgt`, so the lock records the HEAD of the working directory's repository | a repository declaration pinned at commit C, installed from a working directory whose own HEAD is not C | record the commit checked out in the target, so that the next install keeps the pin | high (not executed) | Resolver.PinLostAsWritten | Resolver.RepositoryPinStable |
| cwldep/__init__.py:160 | the search for a descriptor's nested `Dependencies` hints names `DEP_NAMESPACE_URL`, which the module never binds | any `.cwl` declaration whose files are retrieved | search for `CWLDEP_DEPENDENCIES_URL`, as `main` does at line 295 | high (not executed) | Resolver.DescriptorNeverCompletesAsWritten | Resolver.DescriptorRecursesIntoNested |
| cwldep/__init__.py:231-242 | `_add` compares each hint class with the unbound `DEP_NAMESPACE_URL` | a workflow whose hints are `[{"class": "dep:Dependencies", "dependencies": []}]` | compare with `CWLDEP_DEPENDENCIES_URL` | high (not executed) | AddDependency.AddAsWrittenExample | AddDependency.Workflow.AddHint |
| cwldep/__init__.py:174 | the archive's `installed_to` update evaluates `os.path.relpath(ex, ...)`, and `ex` is never bound | any `.tar.gz`, `.tar.bz2` or `.zip` declaration whose download and extraction complete | record the directory the archive was extracted into (`installTo`) | high (not executed) | Resolver.ArchiveNeverCompletesAsWritten | Resolver.ArchiveRunCases |
