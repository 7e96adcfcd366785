# A model of Nix's installables, value inputs, zsync binary cache and file-system helpers

This project models, in Dafny, four pieces of the Nix package manager:

- **Installables** (`installables.dfy`, over the data model in `derived_path.dfy`). This is
  how a command line's installables become built paths:
  - `build2` plans one batch of derived paths and a backmap from each path to the requests
    for it.
  - It then either resolves the batch without building (`Realise::Nothing` and
    `Realise::Derivation`), or hands the batch, once, to the build executor and routes each
    build result back to every request for its path.
  - `throwBuildErrors` turns failed results into one error.
  - `build`, `toBuiltPaths`, `toStorePathSet`, `toStorePaths`, `toStorePath`,
    `toDerivations`, `getDeriver`, `toDerivedPath` and the two `applyDefaultInstallables`
    build on that.
  - So does the choice between `--file`, `--expr` and standard input.
- **Value inputs** (`value_input.dfy`). This is the fetcher for `value:` URLs:
  `inputFromURL`, `inputFromAttrs`, `toURL`, `hasAllInfo` and `getSourcePath`.
- **The HTTP+zsync binary cache store** (`zsync_store.dfy`). It covers:
  - the cache URI the store is opened with;
  - the URI schemes it registers;
  - the 60-second back-off state (`maybeDisable` and `checkEnabled`);
  - request construction;
  - the `fileExists` classification of transfer errors;
  - the `getFile` dispatch between plain HTTP and the `zsync` subprocess.
- **File-system helpers** (`file_system.dfy`): `baseNameOf`, the `chmodIfNeeded` decision,
  and the bytes-freed accounting of the recursive `deletePath`.

Shared modules:

- `ordered.dfy`: the order in which `std::set<std::string>` and `std::map<std::string, _>`
  are visited (lexicographic), with `Least` (`*s.begin()`) and `SortedElements`.
- `globals.dfy`: the global settings (`readOnlyMode`, `printMissing`, `tryFallback`) and
  the logger. Both are classes whose fields the operations update.
- `strings.dfy`: `hasPrefix` and `hasSuffix`.
- `wrappers.dfy`: `Option`, `Result` and `Outcome`. Thrown exceptions become `Failure` or
  `Fail` values.

The code that loops or mutates is written as methods with loops:

- the planning and result loops of `build2`;
- `throwBuildErrors`;
- the loops of `toDerivations`, `toStorePathSet` and `toStorePaths`;
- `baseNameOf`;
- the recursive deletion;
- the query and attribute loops of `inputFromURL` and `inputFromAttrs`;
- the store's methods.

Each method is proved equal to a specification function, and the source's promises are
proved about those functions as lemmas. The store, the build executor, the evaluator,
`string2Int`, the HTTP transfer, the HTTP store's own `getFile` and `runProgram2` are
passed in as functions. The build executor is an object that records every batch it is
asked to build.

Behaviour worth noting:

- `inputFromURL` reports parameter errors for the first bad query parameter in `std::map`
  order. The model proves that it is the least bad name.
- The zsync store's constructor pops a trailing `/` from `cacheUri` and then overwrites
  `cacheUri` from the unpopped raw URI. So the popped slash comes back
  (`ZsyncStore.CacheUriKeepsTrailingSlash`). Here the model follows the code, not its
  evident intent of dropping the slash.
- `_deletePath` counts files with two links as freed (`FileSystem.FreedAllWhenFewLinks`).

## Model

| member | source | states |
|---|---|---|
| Installables.ToDerivedPath | src/libcmd/installables.cc:129-135 | succeeds exactly when the installable expands to one derived path, and returns it; otherwise the error carries the installable's description and the count |
| Installables.GetDeriver | src/libcmd/installables.cc:137-147 | fails exactly when the store knows no valid deriver; otherwise returns a known deriver that precedes every other one in set order |
| Installables.SelectSource | src/libcmd/installables.cc:154-176 | `--file` with `--expr` is the usage error "'--file' and '--expr' are exclusive"; otherwise `--file` turns pure evaluation off, `-` selects standard input, another file name selects that file, `--expr` selects the expression, and neither selects nothing |
| Installables.GetBuiltPath | src/libcmd/installables.cc:223-245 | the result forgets back to the given derived path, and every built level holds what the store resolves for the truncated reference to the level below |
| Installables.GetBuiltPathUnique | src/libcmd/installables.cc:223-245 | those two properties determine getBuiltPath's result: any resolved path that forgets back to `b` is it |
| Installables.GetBuiltPathResolves | src/libcmd/installables.cc:230-241 | for a store that resolves as resolveDerivedPath does (`StoreOk`), resolving through the truncated reference at each level ends at the path the whole reference resolves to |
| Installables.GetBuiltPathShape | src/libcmd/installables.cc:230-241 | resolution keeps the depth of the chain and its output names |
| Installables.PlanBatch | src/libcmd/installables.cc:307-315 | `pathsToBuild` is every derived path of every installable, in installable order then expansion order; `backmap` maps each path to its requests |
| Installables.BackmapCount | src/libcmd/installables.cc:310-315 | `backmap[p]` holds as many requests as `p` occurs in `pathsToBuild` |
| Installables.OccurrencesAt | src/libcmd/installables.cc:310-315 | a request is in `backmap[p]` exactly when some installable made it for `p` |
| Installables.ResolveWithoutBuilding | src/libcmd/installables.cc:321-346 | the result list of the Nothing/Derivation branch: for each path of the batch in order, the statically resolved result for every request in `backmap[path]` |
| Installables.StaticResultResolved | src/libcmd/installables.cc:327-336 | under `StoreOk`, a static result for `drv^outputs` holds the derivation resolveDerivedPath gives, and named outputs map to exactly those outputs of it |
| Installables.StaticResultsFanOut | src/libcmd/installables.cc:321-346 | without building, a result is produced exactly for each request made, carrying that request's installable and info |
| Installables.StaticResultsMember | src/libcmd/installables.cc:324-345 | a result is in the list exactly when it is the static result of some batch path and some request in its backmap entry |
| Installables.DuplicatedRequest | src/libcmd/installables.cc:324-345 | a path requested twice is visited twice, and each visit serves both requests: four results, in that order |
| Installables.StaticResultsDistinct | src/libcmd/installables.cc:321-346 | when no path is requested twice, there is exactly one result per request, in request order |
| Installables.ThrowBuildErrors | src/libcmd/installables.cc:260-289 | the outcome is `BuildErrors` of the results, and the log gains the failed results' messages only when two or more failed |
| Installables.LogFailures | src/libcmd/installables.cc:276-285 | logs each non-empty error message of the failed results in order, and collects the set of their printed paths |
| Installables.FailedMember | src/libcmd/installables.cc:264-269 | a result is kept in `failed` exactly when it is in the results and did not succeed |
| Installables.BuildErrorsNone | src/libcmd/installables.cc:271-272 | nothing is thrown exactly when every build result succeeded |
| Installables.BuildErrorsSingle | src/libcmd/installables.cc:273-274 | a single failure is rethrown with its own message, and nothing is logged |
| Installables.BuildErrorsMany | src/libcmd/installables.cc:275-287 | with two or more failures, the error lists the failed paths in sorted order, exactly those of failed results, and each failed result's non-empty message is logged |
| Installables.CollectOutputs | src/libcmd/installables.cc:358-360 | the output map has the built outputs' names, each mapped to its realisation's store path |
| Installables.RouteBuildResults | src/libcmd/installables.cc:353-380 | the result list of the Outputs branch: for each build result in order, one result for every request in `backmap[result.path]` |
| Installables.BuiltResultsMember | src/libcmd/installables.cc:353-380 | a result is produced exactly for each pair of a build result and a request for its path |
| Installables.BuiltResultContents | src/libcmd/installables.cc:355-377 | each routed result carries the request's installable and info and the raw build result; a built path is resolved with the built outputs' map |
| Installables.BuildAndRoute | src/libcmd/installables.cc:348-383 | the executor is called once, with the whole batch; the missing-paths report is logged only when `printMissing` is set; build errors are thrown before routing |
| Installables.Build2 | src/libcmd/installables.cc:291-387 | build2's result in each mode; `readOnlyMode` is set exactly for `Realise::Nothing`; the executor is called only for `Realise::Outputs`; the log entries made |
| Installables.StaticModesIgnoreExecutor | src/libcmd/installables.cc:319-346 | without `Realise::Outputs`, neither the executor nor `printMissing` changes the result or the log |
| Installables.Build | src/libcmd/installables.cc:247-258 | build2's results, in order, without their installables, with build2's effects |
| Installables.DropInstallables | src/libcmd/installables.cc:254-257 | the i-th element is the i-th pair's built path with its result |
| Installables.ToBuiltPathsFromResults | src/libcmd/installables.cc:546-552 | the free toBuiltPaths returns `PathsOfResults`: the same length, each element the path of the corresponding result |
| Installables.ToBuiltPaths | src/libcmd/installables.cc:389-410 | operating on outputs, the built paths of build in order; operating on derivations, `readOnlyMode` for `Realise::Nothing`, then each derivation of toDerivations (with derivers) in set order, as an opaque path |
| Installables.OpaqueDerivations | src/libcmd/installables.cc:404-408 | each derivation, in set order, as an opaque built path |
| Installables.ToDerivations | src/libcmd/installables.cc:454-478 | the set of derivations of every derived path of every installable, or the first error in request order |
| Installables.DrvForBuiltRequest | src/libcmd/installables.cc:472-474 | under `StoreOk`, a `drv^outputs` request contributes getBuiltPath's store path for its derivation reference, and for a constant reference `drv` itself |
| Installables.DerivationsOfDrvRequests | src/libcmd/installables.cc:454-478 | under `StoreOk`, toDerivations over `drv^outputs` requests with constant references succeeds with exactly the set of those derivations |
| Installables.DerivationsSuccess | src/libcmd/installables.cc:454-478 | succeeds exactly when every request has a derivation, and then yields exactly those derivations |
| Installables.DerivationsFirstError | src/libcmd/installables.cc:461-477 | a failure is the error of the first request, in order, that has no derivation |
| Installables.DerivationsKeepFailure | src/libcmd/installables.cc:460-477 | once a request fails, later requests do not change the error |
| Installables.ToStorePathSet | src/libcmd/installables.cc:412-424 | the union of the output paths of toBuiltPaths' built paths, or its error, with its effects |
| Installables.UniteOutPaths | src/libcmd/installables.cc:418-422 | the loop's set is the union of every built path's output paths |
| Installables.UnionOutPathsMember | src/libcmd/installables.cc:418-422 | a path is in the union exactly when some built path has it as an output path |
| Installables.ToStorePaths | src/libcmd/installables.cc:426-438 | each built path's output paths, in set order, concatenated in built-path order, or toBuiltPaths' error |
| Installables.ConcatenateOutPaths | src/libcmd/installables.cc:432-436 | the loop's list is the concatenation of every built path's output paths in set order |
| Installables.ConcatCoversUnion | src/libcmd/installables.cc:412-438 | toStorePaths and toStorePathSet name the same store paths |
| Installables.ToStorePath | src/libcmd/installables.cc:440-452 | the single store path of toStorePathSet when there is exactly one; otherwise the error "should evaluate to one store path" |
| Installables.DefaultRawInstallables | src/libcmd/installables.cc:495-502 | an empty list becomes `["."]`; a non-empty list is unchanged |
| Installables.DefaultBuiltPathsInstallables | src/libcmd/installables.cc:540-544 | as above, except that with `--all` an empty list stays empty |
| Installables.DefaultsIdempotent | src/libcmd/installables.cc:495-544 | applying either default twice is the same as applying it once |
| FileSystem.BaseNameOf | src/libutil/file-system.cc:163-179 | the loop's result is the last component of the path after trailing separators are dropped |
| FileSystem.BaseNameNoSep | src/libutil/file-system.cc:163-179 | the base name never contains a separator |
| FileSystem.BaseNameOfSeparators | src/libutil/file-system.cc:165-170 | a path made only of separators, or the empty path, has the empty base name |
| FileSystem.BaseNameOfJoin | src/libutil/file-system.cc:163-179 | the base name of `dir + "/" + name` plus any number of trailing slashes is `name` |
| FileSystem.BaseNameOfBare | src/libutil/file-system.cc:168-178 | a separator-free name followed by any number of separators has that name as its base name: no separator is found, so the result starts at 0 |
| FileSystem.BaseNameIdempotent | src/libutil/file-system.cc:163-179 | the base name of a base name is itself |
| FileSystem.XorTestMeaning | src/libutil/file-system.cc:772-773 | the exclusive-or test holds exactly when the two modes agree on every masked bit |
| FileSystem.AfterChmod | src/libutil/file-system.cc:775 | the mode lstat reports after chmod(2): a symbolic link's own mode is unchanged, because chmod follows the link; any other file gets the 07777 bits of the requested mode and keeps its file-type bits |
| FileSystem.ChmodIfNeeded | src/libutil/file-system.cc:767-779 | chmod is attempted exactly when a masked bit differs; the call fails only when that chmod fails; the mode afterwards is AfterChmod's, and for a file that is not a symbolic link it agrees with the wanted one under a mask within 07777 |
| FileSystem.ChmodIfNeededIdempotent | src/libutil/file-system.cc:767-779 | for a mask within 07777 and a file that is not a symbolic link, after a successful call the same call changes nothing and reports false |
| FileSystem.ChmodIfNeededSymlinkRepeats | src/libutil/file-system.cc:770-778 | on a symbolic link whose mode differs under the mask, a successful call reports true and leaves the link's mode as it was, so every later call chmods again |
| FileSystem.ChmodIfNeededRepeats | src/libutil/file-system.cc:767-779 | for a mask that reaches the file-type bits where the file and the requested mode differ, every later call chmods again to the same mode and reports true |
| FileSystem.AccessibleMode | src/libutil/file-system.cc:455-461 | a directory's mode is changed only if it lacks an owner permission bit; the new mode has all three and keeps every other bit |
| FileSystem.DeleteNode | src/libutil/file-system.cc:417-489 | the recursion adds exactly what deleting the node frees to the running count, skipping `.` and `..` |
| FileSystem.FreedAtMostSize | src/libutil/file-system.cc:431-452 | the count never exceeds the total size of the files below |
| FileSystem.FreedAllWhenFewLinks | src/libutil/file-system.cc:431-452 | when every file below has one or two links, the whole size is counted |
| FileSystem.FreedNothingWhenShared | src/libutil/file-system.cc:449-451 | when every file below has three or more links, nothing is counted |
| FileSystem.DeletePath | src/libutil/file-system.cc:491-538 | the count starts at 0; a missing parent directory (ENOENT) or a missing entry deletes nothing; otherwise exactly the named entry is removed and the count is what it freed |
| ValueInput.InputFromURL | src/libfetchers/value.cc:9-33 | another scheme gives no input; an authority is an error; otherwise the first bad parameter's error, else the input with `type`, `value` and the parameters |
| ValueInput.ParseParams | src/libfetchers/value.cc:20-30 | with no bad parameter, it builds every attribute; otherwise it stops at the least bad parameter name, the first one the loop visits |
| ValueInput.AddParam | src/libfetchers/value.cc:21-30 | `rev` and `narHash` are copied as strings; `revCount` and `lastModified` are parsed as 64-bit integers or rejected as invalid; any other name is unsupported |
| ValueInput.FromURLAttrs | src/libfetchers/value.cc:16-32 | an accepted URL's input has exactly the query's names plus `type` = "value" and `value` = the path; every parameter is known and typed |
| ValueInput.AcceptedURL | src/libfetchers/value.cc:9-33 | an input is returned only for scheme `value` with no bad parameter |
| ValueInput.FromURLRejectsUnknown | src/libfetchers/value.cc:29-30 | an unknown query parameter is always an error |
| ValueInput.FromURLFixesTypeAndValue | src/libfetchers/value.cc:17-30 | `type` and `value` cannot be set through the query |
| ValueInput.InputFromAttrs | src/libfetchers/value.cc:35-54 | `value` must be a string attribute; the least name not on the list of allowed names is an error; otherwise the attributes with `type` set to "value" |
| ValueInput.FromAttrsIdempotent | src/libfetchers/value.cc:35-54 | re-reading an accepted input's attributes gives the same input |
| ValueInput.FromURLThenFromAttrs | src/libfetchers/value.cc:9-54 | an input read from a URL is accepted unchanged by inputFromAttrs |
| ValueInput.GetStrAttr | src/libfetchers/value.cc:37 | succeeds exactly on a string attribute and returns it; otherwise reports a missing or non-string attribute |
| ValueInput.AttrsToQuery | src/libfetchers/value.cc:58 | every attribute becomes a query parameter with its value rendered as text |
| ValueInput.URLOf | src/libfetchers/value.cc:56-66 | fails exactly when `value` is not a string; otherwise the result has scheme `value`, no authority, that path, and every other attribute except `type` rendered into the query |
| ValueInput.ToURL | src/libfetchers/value.cc:56-66 | the method builds the URL URLOf describes |
| ValueInput.HasAllInfo | src/libfetchers/value.cc:68-71 | holds for every input |
| ValueInput.GetSourcePath | src/libfetchers/value.cc:73-76 | the `value` attribute when it is a string; otherwise an error |
| ValueInput.ToURLThenFromURL | src/libfetchers/value.cc:9-66 | for a well-typed input, and an integer parser that reads back what is printed, toURL followed by inputFromURL gives back the input |
| ValueInput.FromURLThenToURL | src/libfetchers/value.cc:9-66 | inputFromURL followed by toURL gives back the URL's scheme, path and query, when integers print back as written |
| ValueInput.SourcePathOfURL | src/libfetchers/value.cc:18 | the source path of an input read from a URL is the URL's path |
| ZsyncStore.ZsyncBinaryCacheStore.constructor | src/libstore/zsync-binary-cache-store.cc:38-57 | `cacheUri` is the scheme's base before `+`, then `://`, then the raw URI; the state starts enabled |
| ZsyncStore.SchemeBase | src/libstore/zsync-binary-cache-store.cc:53 | the scheme up to its first `+`: a prefix free of `+`, followed by `+` unless it is the whole scheme |
| ZsyncStore.CacheUriOf | src/libstore/zsync-binary-cache-store.cc:49-54 | the final `cacheUri` is a `+`-free prefix of the scheme, then `://`, then the raw URI unchanged, whatever the popped slash |
| ZsyncStore.SchemeBaseOf | src/libstore/zsync-binary-cache-store.cc:53 | the base of `base + "+" + rest` is `base` when `base` has no `+` |
| ZsyncStore.UriSchemes | src/libstore/zsync-binary-cache-store.cc:80-84 | exactly two schemes are registered, `http+zsync` and `https+zsync` |
| ZsyncStore.UriSchemesShape | src/libstore/zsync-binary-cache-store.cc:80-84 | every registered scheme is `http` or `https` followed by `+zsync` |
| ZsyncStore.ZsyncSchemeCacheUri | src/libstore/zsync-binary-cache-store.cc:49-54 | for a `+zsync` scheme, `cacheUri` is the plain base scheme, `://`, and the raw URI |
| ZsyncStore.CacheUriKeepsTrailingSlash | src/libstore/zsync-binary-cache-store.cc:51-54 | a trailing slash of the raw URI survives the constructor |
| ZsyncStore.ZsyncBinaryCacheStore.GetUri | src/libstore/zsync-binary-cache-store.cc:59-62 | the URI is `cacheUri` |
| ZsyncStore.ZsyncBinaryCacheStore.MakeRequest | src/libstore/zsync-binary-cache-store.cc:145-152 | an `https://`, `http://` or `file://` path is used as is; any other path is placed under `cacheUri` |
| ZsyncStore.MakeRequestIdempotent | src/libstore/zsync-binary-cache-store.cc:145-152 | when `cacheUri` is a full URI, making a request from a request's URI gives the same request |
| ZsyncStore.AfterMaybeDisable | src/libstore/zsync-binary-cache-store.cc:88-97 | the state changes only when the cache is enabled and fallback is on, and then the cache is disabled until 60 seconds from now |
| ZsyncStore.ZsyncBinaryCacheStore.MaybeDisable | src/libstore/zsync-binary-cache-store.cc:88-97 | the state becomes AfterMaybeDisable's, and the disabling message is logged exactly when it changes |
| ZsyncStore.AfterCheckEnabled | src/libstore/zsync-binary-cache-store.cc:99-109 | afterwards the cache is enabled exactly when it was enabled or the deadline has passed; a refused state is unchanged |
| ZsyncStore.ZsyncBinaryCacheStore.CheckEnabled | src/libstore/zsync-binary-cache-store.cc:99-109 | passes exactly when the state admits the call now; otherwise fails with "substituter ... is disabled"; re-enabling is logged |
| ZsyncStore.BackOffWindow | src/libstore/zsync-binary-cache-store.cc:91-103 | after a failure at time t, calls are refused up to and including t + 60 and admitted after |
| ZsyncStore.FailuresDoNotExtend | src/libstore/zsync-binary-cache-store.cc:91 | a second failure while disabled does not move the deadline |
| ZsyncStore.NoFallbackStaysEnabled | src/libstore/zsync-binary-cache-store.cc:91 | without fallback, failures never disable the cache |
| ZsyncStore.RefusalIsStable | src/libstore/zsync-binary-cache-store.cc:102-108 | a refused call leaves the state as it was, so calls before the deadline are refused too |
| ZsyncStore.AdmittedStaysAdmitted | src/libstore/zsync-binary-cache-store.cc:102-106 | once admitted, the cache is enabled and further checks change nothing |
| ZsyncStore.ExistsFromTransfer | src/libstore/zsync-binary-cache-store.cc:115-127 | a successful HEAD means present; NotFound or Forbidden means absent; any other error is rethrown |
| ZsyncStore.ZsyncBinaryCacheStore.FileExists | src/libstore/zsync-binary-cache-store.cc:111-128 | result, back-off state and log lines are those of `FileExistsResult`, `FileExistsState` and `FileExistsLogs` for the answer to a HEAD request for the path: a refused check fails without a transfer; otherwise a HEAD request for the path decides, and only a rethrown error runs maybeDisable |
| ZsyncStore.ZsyncBinaryCacheStore.HeadRequest | src/libstore/zsync-binary-cache-store.cc:116-117 | the request fileExists sends is makeRequest's URI with the HEAD flag set |
| ZsyncStore.FileExistsOutcome | src/libstore/zsync-binary-cache-store.cc:111-128 | a refused call changes neither state nor log; an admitted one answers what the transfer says; on success the cache is enabled; a non-missing failure with fallback on disables it until the failure time plus 60 seconds and logs one error, and without fallback leaves the state checkEnabled made |
| ZsyncStore.ZsyncRunShape | src/libstore/zsync-binary-cache-store.cc:159-166 | the subprocess is `sh -c` in /tmp; the command fetches `cacheUri/path.zsync` and ends by printing the path's base name, which has no `/` |
| ZsyncStore.ZsyncBinaryCacheStore.GetFile | src/libstore/zsync-binary-cache-store.cc:154-172 | a path not ending in `.nar.gz` goes to the HTTP store unchanged and leaves the state alone; otherwise checkEnabled, then the zsync subprocess |
| ZsyncStore.GetFileDispatch | src/libstore/zsync-binary-cache-store.cc:156-158 | for a path not ending in `.nar.gz`, the result is the HTTP store's, whatever the back-off state and time |
| ZsyncStore.NullOnMissing | src/libstore/zsync-binary-cache-store.cc:173-181 | a `NoSuchBinaryCacheFile` error, which only the HTTP store's branch raises, becomes a null result; any other error propagates; contents are returned as they are |
| ZsyncStore.ZsyncBinaryCacheStore.GetFileContents | src/libstore/zsync-binary-cache-store.cc:173-181 | getFile's contents, with the HTTP store's `NoSuchBinaryCacheFile` as a null result, and getFile's effects |
| ZsyncStore.ZsyncNeverNull | src/libstore/zsync-binary-cache-store.cc:154-181 | when the subprocess fails only with exec errors, a `.nar.gz` path never gives a null result: it gives the subprocess's output, SubstituterDisabled or an exec error |

## Left out

- I/O is not modelled: the real file system, the network, subprocesses and the terminal. Each becomes a value or a function parameter.
- Concurrency is not modelled: the zsync store's `Sync<State>` lock is dropped because the model is sequential.
- Clocks are not modelled: `steady_clock` time is an integer number of seconds passed in by the caller.
- Evaluation is not modelled: an installable carries the derived paths the evaluator expands it to.
- `parseInstallables` is not modelled beyond the choice of source: the attribute-path parsing, `ExtendedOutputsSpec::parse` and the evaluation of the chosen file or expression are left out.
- Completion and the command constructors are left out. They only register flags.
- `RawInstallablesCommand::run` reading installables from standard input is left out, because it is I/O.
- The store and the evaluation store are one store, whose services are functions:
  - `resolveDerivedPath`;
  - `queryValidDerivers`;
  - `DerivedPath::to_string`.
- `Installables.ToDerivations` and the other users of `resolveDerivedPath` do not model its errors, such as an output with no known path: the resolution functions are total. What they are taken to compute is stated as `Installables.StoreOk` (an opaque path resolves to itself; an output resolves through the path its derivation resolves to; named outputs resolve to exactly those names), and the lemmas that need it require it.
- `printMissing` is not modelled in full: only the fact that it is called is recorded, and the report's contents are left out.
- Errors are structured values rather than formatted strings. `Installables.Describe` gives the texts.
- `BuildResult::rethrow` is modelled as an error carrying the result's message.
- `FileSystem.DeleteNode`: `bytesFreed` is unbounded; the source's `uint64_t` would wrap only beyond 2^64 bytes.
- `FileSystem.DeletePath` does not model failures to open the parent directory other than ENOENT: those throw "opening directory" in the source, and here the parent is either missing or readable.
- `FileSystem.DeleteNode` leaves out errors and interrupts: errors of `fstatat`, `fchmodat`, `openat`, `readdir` and `unlinkat` other than a missing entry, and `checkInterrupt`.
- `FileSystem.DeleteNode`: directory entries are visited in the order the tree lists them, standing for `readdir`'s order.
- `FileSystem.AccessibleMode` is proved apart: the deletion does not apply it to the tree, since a deleted tree's modes are not observable afterwards.
- `FileSystem.ChmodIfNeeded`: whether chmod(2) succeeds is a parameter, and the error is the path and mode it was called with.
- `FileSystem.ChmodIfNeeded` always takes the mask as an argument. The default mask of the declaration, 0777, is the constant `FileSystem.DefaultChmodMask`; the declaration's header is not part of this model.
- `ValueInput.InputFromURL`: `url.to_string()` in the parameter errors is modelled as the URL's original text `url.url`.
- `ValueInput.InputFromURL` takes `string2Int<uint64_t>` as a parameter.
- `ValueInput.ToURL` takes the integer rendering of `attrsToQuery` as a parameter.
- `getStrAttr` and `attrsToQuery` are defined in `src/libfetchers/attrs.cc`, which is not part of this model. They are modelled from their use here.
- `markChangedFile` and `fetch` of the value fetcher are left out. The first does nothing; the second writes the `value` attribute to the store as a new text object named "value" (`addTextToStore`), which is store I/O.
- `init` and `upsertFile` of the zsync store are left out. They work with the disk cache and uploads, which are I/O.
- `ZsyncStore.ExistsFromTransfer`: transfer error kinds other than NotFound and Forbidden are merged into one kind, because `fileExists` treats them alike.
- `HttpBinaryCacheStore::getFile` and `runProgram2` are function parameters. `src/libstore/http-binary-cache-store.hh` declares the former, and neither body is part of this model.
- `ZsyncStore.ZsyncBinaryCacheStore.GetFile` accepts any `run`, including one that fails with another error than an exec error; `runProgram2` fails only with `ExecError`, and `ZsyncStore.ZsyncNeverNull` states what follows under that premise (`ZsyncStore.RunFailsByExec`).
- The callback variant of the zsync store's `getFile` is left out. It passes `ZsyncStore.ZsyncBinaryCacheStore.GetFileContents`'s outcome to the callback.
- Message colouring and log levels beyond error, info and debug are left out.
