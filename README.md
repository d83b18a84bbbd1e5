# myks smart mode, modelled in Dafny

myks renders Kubernetes manifests for a tree of environments (`envs/<env>/`) and their
applications (`envs/<env>/_apps/<app>/`). Applications are built from prototypes
(`prototypes/<ns>/<name>/`). In smart mode it looks at the files git reports as changed and
decides how much to re-render. There are three outcomes:

- nothing specific, meaning everything (`(nil, nil)`);
- whole environments (`(envs, nil)`);
- individual applications (`(envs, apps)`).

Whether an empty result list is nil depends on `removeDuplicates`, whose body is not part of this
model. If it returns nil for an empty input, a change set with no target at all also yields
`(nil, nil)`. The model states both cases.

This project models that decision and the small helpers around it:

- `collections.dfy` (module `Collections`): duplicate removal, an order-preserving filter, Go's
  string order and the sort that uses it. It also proves that a sorted, duplicate-free list is
  determined by its set of elements.
- `patterns.dfy` (module `Patterns`): the seven regular expressions built from the naming
  conventions in `Globe`. Each one is a structured matcher that follows RE2's leftmost-first
  preference: lazy groups stop as early as they can and the optional group is tried first.
  This module also gives what `FindStringSubmatch` returns for each expression.
- `smart_mode.dfy` (module `SmartMode`): the path classification (`getChanges`,
  `checkFileChanged`), the modified-prototype/app/env collectors, the deletion filter, the
  prototype fan-out through the environment inventory, the resolver `runSmartMode` and the
  final append of missing applications.
- `scenarios.dfy` (module `Scenarios`): end-to-end runs of the resolver on typical change sets.
  Each run is stated for any path that has the right shape, for either nil behaviour of
  `removeDuplicates`. The downgrade run holds for every `removeSubPaths` that keeps at least one
  entry of a non-empty list; the other runs take `removeSubPaths` to keep everything (each list
  there has at most one environment-data hit).
- `git.dfy` (module `Git`): parsing the output of `git diff --name-status` and
  `git status --porcelain` into (path, status) records, and filtering those records by status.
- `util.dfy` (module `Util`): `appendIfNotExists`, secret redaction for logged command lines,
  the log message for a command, and the `--file=` argument list passed to `ytt`.

Map iteration order in Go is unspecified. Where the source iterates over a map, the model
either takes the key enumeration as an input, required to list every key exactly once, or picks
keys with `:|`. Up to the final `sort.Strings` calls, results are stated as sets.

## Model

| member | source | states |
|---|---|---|
| Collections.Dedup | internal/myks/smart_mode.go:119-126 | the result has no duplicates, the same elements as the input, and is no longer than it |
| Collections.Filter | internal/myks/git.go:67 | keeps exactly the elements that satisfy the predicate, and is no longer than the input |
| Collections.FilterPartition | internal/myks/git.go:63-75 | a filter and the filter by the complementary predicate together have the input's length |
| Collections.SortStrings | internal/myks/smart_mode.go:121-127 | the result is sorted in Go's string order and is a permutation of the input |
| Collections.SortKeepsElems | internal/myks/smart_mode.go:121-127 | sorting keeps the element set and the absence of duplicates |
| Collections.SortedUnique | internal/myks/smart_mode.go:117-128 | two sorted, duplicate-free lists with the same elements are equal; with the exact-set ensures of SmartMode.RunSmartMode, the result therefore does not depend on map order, provided the set `removeSubPaths` returns depends only on the set it is given (the model leaves `removeSubPaths` open) |
| Collections.SortedSet | internal/myks/smart_mode.go:119-127 | removeDuplicates followed by sort.Strings gives a sorted, duplicate-free list with the input's elements |
| Collections.LeTransitive | internal/myks/smart_mode.go:121 | Go's string order is transitive (with LeTotal and LeAntisymmetric: a total order) |
| Patterns.EnvCapture | internal/myks/smart_mode.go:35-37 | an environment is captured iff the path is `<envs>/<one or more chars>/<env-data>`, and the capture is that directory |
| Patterns.AppCaptureMatches | internal/myks/smart_mode.go:39-41 | the app pattern matches iff the path starts with `<envs>/` and has an acceptable `/_apps/` split |
| Patterns.AppCaptureShape | internal/myks/smart_mode.go:39-41 | the env capture ends at the earliest acceptable `/_apps/`; the app is the next slash-free segment; together they spell the path's start |
| Patterns.AppCaptureLayout | internal/myks/smart_mode.go:39-41 | `<envs>/<env>/_apps/<app>/<rest>` captures (`<envs>/<env>`, `<app>`) |
| Patterns.AppCaptureNoAppDir | internal/myks/smart_mode.go:39-41 | a file directly in `_apps/` with no further `/` does not match |
| Patterns.StepDirAtIff | internal/myks/smart_mode.go:26-29 | the step-directory alternation matches at a position iff one of the step directories, followed by `/` and no newline, is there |
| Patterns.ProtoCaptureSound | internal/myks/smart_mode.go:26-33 | a captured prototype name starts a path segment under `<protos>/` and the step-dir or data-file tail follows it |
| Patterns.ProtoCaptureComplete | internal/myks/smart_mode.go:26-33 | every newline-free path under `<protos>/` in which the tail occurs yields a capture |
| Patterns.ProtoCaptureNamespaced | internal/myks/smart_mode.go:26-33 | `<protos>/<ns>/<name><tail>` captures `<name>`; the optional namespace group is preferred even when `<name>` is a step directory |
| Patterns.ProtoCaptureFlat | internal/myks/smart_mode.go:26-33 | `<protos>/<name>/<file>` without a namespace captures `<name>` |
| Patterns.ProtoCaptureFlatStepDir | internal/myks/smart_mode.go:26-29 | `<protos>/<name>/<step dir>/<file>` without a namespace captures `<name>`: the namespace group cannot match, since no step-directory tail follows either `/` |
| Patterns.ProtoCaptureSecondSegment | internal/myks/smart_mode.go:26-29 | with the tail right after the second segment, the capture is that second segment |
| Patterns.Submatches | internal/myks/smart_mode.go:14-41 | a match yields the whole path plus exactly as many groups as the expression has |
| SmartMode.GetChanges | internal/myks/smart_mode.go:177-197 | the two lists are the first and second groups of every match, expression by expression, then path by path |
| SmartMode.CapturesAppend | internal/myks/smart_mode.go:179-194 | collecting captures distributes over concatenation of the match list |
| SmartMode.PathSubmatchesEmpty | internal/myks/smart_mode.go:167-175 | an expression yields no captures iff it matches none of the paths |
| SmartMode.CheckFileChanged | internal/myks/smart_mode.go:167-175 | true iff some expression matches some path |
| SmartMode.CheckGlobalConfigChanged | internal/myks/smart_mode.go:148-150 | true iff some path matches the library-dir, global ytt-dir or base env-data pattern |
| SmartMode.EnvChanges | internal/myks/smart_mode.go:162-163 | the env pattern yields the env capture of each matching path, in order, and an empty second list |
| SmartMode.AppChanges | internal/myks/smart_mode.go:157-158 | the app pattern yields two lists of equal length; entry i of each comes from the same path |
| SmartMode.ProtoChangesOne | internal/myks/smart_mode.go:152-155 | each prototype pattern yields the name captured from each matching path and an empty second list |
| SmartMode.ProtoChanges | internal/myks/smart_mode.go:152-155 | the prototype captures are those of the data-file pattern followed by those of the step-dir pattern |
| SmartMode.ChangedPrototypes | internal/myks/smart_mode.go:152-155 | a name is a modified prototype iff some path captures it with either prototype pattern |
| SmartMode.GetModifiedPrototypes | internal/myks/smart_mode.go:152-155 | returns exactly the modified prototypes |
| SmartMode.GetModifiedEnvs | internal/myks/smart_mode.go:162-165 | the env captures, passed through removeSubPaths; every result comes from some path's env capture |
| SmartMode.FilterDeletedEnvs | internal/myks/smart_mode.go:199-210 | keeps exactly the (env, app) pairs whose env is not deleted, in order and still paired; both outputs have the same length |
| SmartMode.LiveAppHits | internal/myks/smart_mode.go:157-160 | a pair is a live app hit iff some path captures it and its env is not deleted |
| SmartMode.GetModifiedApps | internal/myks/smart_mode.go:157-160 | pairs up to exactly the live app hits, in path order |
| SmartMode.AppsUsing | internal/myks/smart_mode.go:137-142 | the names of the applications whose prototype key is the prototype or ends in `/<prototype>` |
| SmartMode.UsageEnvStep | internal/myks/smart_mode.go:136-142 | visiting one more environment adds it iff it has an application using the prototype |
| SmartMode.UsageAppStep | internal/myks/smart_mode.go:137-142 | visiting one more environment adds exactly the names of its applications using the prototype |
| SmartMode.UsageSnoc | internal/myks/smart_mode.go:135-143 | the usage of a list of prototypes is the union of the usage of each prototype |
| SmartMode.UsageOfOne | internal/myks/smart_mode.go:136-143 | for one prototype, lists exactly the environments and application names that use it |
| SmartMode.FindPrototypeUsage | internal/myks/smart_mode.go:132-146 | duplicate-free lists of exactly the envs and app names with an application whose prototype key equals a changed name or ends in `/name` |
| SmartMode.Combine | internal/myks/smart_mode.go:115-129 | with env-data changes, apps is nil and envs is the sorted, duplicate-free set of all three sources; otherwise both are sorted, duplicate-free sets of their sources; a list is nil exactly when it is empty and `removeDuplicates` returns nil for an empty input |
| SmartMode.RunSmartMode | internal/myks/smart_mode.go:98-130 | `(nil, nil)` iff a global path changed (deletions included) or, when `removeDuplicates` returns nil for an empty input, there is no target at all; nil envs imply nil apps; without a global change, apps is nil iff `removeSubPaths` leaves some live env-data capture (or it would be empty and nil), and so, when `removeSubPaths` keeps at least one entry of a non-empty list, iff some non-deleted env-data file changed; envs and apps are sorted, duplicate-free and exactly the target sets |
| SmartMode.ResolveTargets | internal/myks/smart_mode.go:110-128 | with no global change: envs sorted, duplicate-free and exactly the env-data, live-app and prototype-usage environments, nil only when empty and `removeDuplicates` makes it nil; apps nil iff `removeSubPaths` leaves some live env-data capture (when it keeps an entry of every non-empty list: iff a non-deleted env-data file changed) or it is empty and made nil, else exactly the live-app and prototype-usage names |
| SmartMode.DeletedEnvsFromDeletions | internal/myks/smart_mode.go:100-102 | every deleted environment comes from a path whose status is `D` |
| SmartMode.AppendMissing | internal/myks/smart_mode.go:77 | the existing apps come first, unchanged and in order, and the missing apps follow them without deduplication; a nil list stays nil only when nothing is missing |
| Scenarios.AppChangeScenario | internal/myks/smart_mode.go:98-130 | one changed file inside an application gives exactly that env and that app |
| Scenarios.PrototypeScenario | internal/myks/smart_mode.go:98-146 | one changed prototype file gives the env and app of the one application built from it |
| Scenarios.DeletedEnvScenario | internal/myks/smart_mode.go:98-130 | deleting an env's data file, together with a change inside one of its apps, gives two empty lists, or `(nil, nil)` (rebuild everything) when `removeDuplicates` returns nil for an empty input |
| Scenarios.DowngradeScenario | internal/myks/smart_mode.go:110-122 | an env-data change next to an app change re-renders both whole environments and no apps, for every `removeSubPaths` that keeps only entries of its input and at least one entry of a non-empty list |
| Git.JoinSplit | internal/myks/git.go:44 | joining the pieces of strings.Split on newlines gives back the text |
| Git.SplitJoin | internal/myks/git.go:44 | splitting a join of newline-free pieces gives back the pieces |
| Git.ParseLineSpec | internal/myks/git.go:43-48 | a line yields nothing iff it fails the pattern; otherwise the path is the rest after the prefix and the status is the first character of the trimmed prefix; the slice panics iff the trimmed prefix is empty |
| Git.ParseExamples | internal/myks/git.go:43-48 | `M\t<p>` and ` M <p>` give status M; `?? <p>` gives `?`; an all-space prefix panics |
| Git.EntriesMembers | internal/myks/git.go:44-51 | no more records than lines; a record is present iff some line parses to it |
| Git.EntryFromLine | internal/myks/git.go:45-48 | every record's path is the tail of a matching line after its prefix |
| Git.ConvertToChangedFiles | internal/myks/git.go:41-53 | the records of the matching lines in line order when no line has an all-space prefix; otherwise a panic at the first such line |
| Git.GetChangedFiles | internal/myks/git.go:18-39 | fetched iff the commands it runs succeed and convert without a panic; failed iff the diff (with a revision) fails, or the diff is clean and the status command fails; a panic otherwise; diff records come first and status records follow |
| Git.ExtractChangedFilePaths | internal/myks/git.go:55-61 | same length and order; element i is the path of record i |
| Git.WithStatus | internal/myks/git.go:63-68 | the empty status gives all paths; otherwise exactly the paths of records with that status |
| Git.WithoutStatus | internal/myks/git.go:70-75 | the empty status gives all paths; otherwise exactly the paths of records with another status |
| Git.WithStatusSnoc | internal/myks/git.go:63-68 | order and multiplicity: no records give no paths; one more record adds its path at the end exactly when the status is empty or matches |
| Git.WithoutStatusSnoc | internal/myks/git.go:70-75 | order and multiplicity: no records give no paths; one more record adds its path at the end exactly when the status is empty or differs |
| Git.StatusPartition | internal/myks/git.go:63-75 | for a non-empty status the two lists together have one path per record |
| Util.AppendIfNotExists | internal/myks/util.go:205-213 | present: unchanged and false; absent: appended and true; the element is in the result and the length grew by at most one |
| Util.RedactNoMatch | internal/myks/util.go:28-36 | an argument with no `password=`, `secret=` or `token=` match is left unchanged |
| Util.RedactOne | internal/myks/util.go:32-34 | an argument that starts with `<key>=<value>`, with the value running up to whitespace or the end, has it replaced by `<key>=[REDACTED]` |
| Util.RedactAfterPrefix | internal/myks/util.go:28-36 | the first `n` characters of an argument, none of which starts a match, are copied unchanged, and the scan continues on the rest |
| Util.RedactInside | internal/myks/util.go:32-34 | the pattern is not anchored: `<key>=<value>` after any text in which no match starts becomes `<key>=[REDACTED]` in place |
| Util.RedactFlag | internal/myks/util.go:32-34 | `<prefix><key>=<value>` with no `=` in the prefix, as in `--password=abc` or `--vault-token=abc`, becomes `<prefix><key>=[REDACTED]` |
| Util.MatchPreserved | internal/myks/util.go:32-34 | redacting what follows some text never creates a new match at its start |
| Util.RedactIdempotent | internal/myks/util.go:32-34 | redacting twice is redacting once |
| Util.RedactAll | internal/myks/util.go:28-36 | one output per argument, in order, each the redacted argument |
| Util.RedactAllIdempotent | internal/myks/util.go:28-36 | reductSecrets applied twice equals applying it once |
| Util.ReductSecrets | internal/myks/util.go:28-37 | the loop produces the redacted argument list |
| Util.MsgVerbatim | internal/myks/util.go:263-266 | arguments without a secret are left unchanged by redaction, so the message ends with `cmd` and the space-joined arguments exactly as given |
| Util.MsgOfRedacted | internal/myks/util.go:263-266 | building the message from already redacted args shows the same text |
| Util.YttArgs | internal/myks/util.go:269-278 | one `--file=<p>` per path in order, then `--file=-` when stdin is attached, then the extra args |

## Left out

- Running git, reading the `CI` variable and the head-revision helpers (`getMainBranchHeadRevision`, `getCurrentBranchHeadRevision`, `getDiffRevision`): the command outputs and their failure are inputs of `Git.GetChangedFiles`.
- `DetectChangedEnvsAndApps` and `MissingApplications` (smart_mode.go lines 43-96), apart from the final append: they read the environment inventory and the rendered tree from disk. The inventory is an input (`Inventory`), and so is the missing-apps list.
- The conversion from the `[]ChangedFile` list to the `ChangedFiles` map: it is not in the modelled files. `runSmartMode` takes the map.
- `removeSubPaths` is not in the modelled files. It is an input function that may only drop entries (`SubsetCollapse`), and its direction is not pinned. Where a result needs it, the model also assumes that a non-empty list keeps at least one entry (`KeepsSome`). That holds whichever of two nested paths is kept, and such results say so.
- `removeDuplicates`, `filterMap` and `extract` are not in the modelled files. They are modelled by a keep-first dedup and an order-preserving filter. Of the dedup, only its no-duplicates and same-set contracts are used. Of the filter, its keeps-exactly contract is used, and so is its order: Git.WithStatusSnoc and Git.WithoutStatusSnoc state that `extract` keeps the matching files in their order.
- `removeDuplicates` returning nil: its body is not part of this model, so whether it returns nil for an empty input is the parameter `nilOnEmpty` of SmartMode.RunSmartMode, and both cases are stated. Elsewhere the nil-versus-empty distinction of Go slices is not modelled: an empty list stands for both, except for the apps list of SmartMode.AppendMissing.
- Regular-expression metacharacters in configured directory names other than `.` are matched literally. A `.` matches any character except a newline, as in the source, which does not escape the names.
- `process` (errgroup concurrency), filesystem and YAML helpers, `sortYaml`, `hash`, `runCmd`, template.go and main.go: I/O, concurrency or library calls outside this core.
- Util.YttArgs: the standard-input reader is modelled only by whether it is present, and the `ytt` process is not run.
- Util.MsgRunCmd has no contract of its own. What it promises is stated by Util.MsgVerbatim and Util.MsgOfRedacted.
- Go's `sort.Strings` is modelled as a pure insertion sort on values rather than an in-place sort of the slice. Only its result (sorted and a permutation) matters to the resolver.
