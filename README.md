# DevDock core, modelled in Dafny

DevDock is a VS Code extension that runs the active file's program in a Docker container.
For each language it has:

- an image `<lang>-dev-image:latest`;
- a container `<lang>-dev-container`;
- a Dockerfile `<dir>/<lang>.Dockerfile`, which is written from a built-in template when it is missing.

Before `docker run`, the extension reads the Dockerfile's `EXPOSE` and `VOLUME` lines. Each exposed port goes to a free host port near a random one. Each volume goes to a host path taken from a `<Dockerfile>.mount.json` sidecar, which is written with defaults the first time. The build, run and log commands are sent as one `;`-joined text to a terminal cached under the container's name.

A per-image `buildStatus` map keeps a second `run` of the same image out while the first one awaits.

The configuration file is a deep merge of the user's JSON with the defaults, written via a temporary file and a rename.

This project models that core:

- `src/utils/dockerUtils.ts`;
- `src/utils/configUtils.ts`;
- `src/utils/terminalUtils.ts`;
- `src/config/constants.ts`.

The state the source updates in place is modelled as classes:

- `Files.FileSystem`: the files, a map from path to contents.
- `Docker.BuildGuard`: `buildStatus`.
- `Terminals.TerminalRegistry` and `Terminals.Terminal`: the terminal cache and the texts each terminal has received.

The loops of the source are `while` loops proved against specification functions:

- the regex `exec` loops of `parseDockerfile`;
- the port loop of `mapDockerPorts`;
- the retry of `findAvailablePort`;
- the listing sweeps;
- the stack-based merge;
- the `forEach` that joins commands.

Everything outside the process is a parameter of the model:

- what docker prints for a listing;
- the bind probe (`isFree`);
- the draws of `Math.random`;
- `JSON.parse` and `JSON.stringify`;
- the user's Yes/No answer;
- the active file's directory.

Modules:

- `Text`: JavaScript string helpers: `\s`, `trim`, `split`, `join`, `parseInt` in base 10, and `[...new Set(xs)]`.
- `JsonValues`: JSON values and paths.
- `ConfigMerge`: the merge.
- `Config`: load, save, ensure, language detection, `makeDockerfile`.
- `Constants`: the two tables.
- `DockerfileParser`, `Ports`, `Volumes`: the Dockerfile scanner and the option builders.
- `Terminals`: the terminal cache.
- `Docker`: names, commands, sweeps, guard, `run`, `logs`.

## Model

| member | source | states |
|---|---|---|
| Docker.ImageName | src/utils/dockerUtils.ts:52 | the image name is the language with `-dev-image:latest` appended, and the language can be read back from it |
| Docker.ContainerName | src/utils/dockerUtils.ts:53 | the container name is the language with `-dev-container` appended, and the language can be read back from it |
| Config.DockerfilePath | src/utils/dockerUtils.ts:54 | the Dockerfile path is `<dir>/<language>.Dockerfile` with nothing else between directory and name: taking off `<dir>/` and `.Dockerfile` gives the language back; with no active directory `<dir>` is `null` |
| Docker.CheckImage | src/utils/dockerUtils.ts:26 | the command is `docker images -q ` followed by the image name, which can be read back |
| Docker.CheckContainer | src/utils/dockerUtils.ts:27-28 | the command is `docker ps -a -q -f name=` followed by the container name, which can be read back |
| Docker.LatestContainer | src/utils/dockerUtils.ts:29-30 | the command is `docker ps --latest -q -a -f name=` followed by the container name, which can be read back |
| Docker.ListContainers | src/utils/dockerUtils.ts:31-32 | the listing command wraps the container name in its name filter and ID format, and the name can be read back |
| Docker.ImagesByName | src/utils/dockerUtils.ts:36-37 | the listing command wraps the image name in its reference filter and ID format, and the name can be read back |
| Docker.RemoveImageById | src/utils/dockerUtils.ts:38 | the command is `docker rmi -f ` followed by the id, which can be read back |
| Docker.RemoveContainerById | src/utils/dockerUtils.ts:39 | the command is `docker rm -f ` followed by the id, which can be read back |
| Text.UnwrapWrapped | src/utils/dockerUtils.ts:25-40 | a text built as prefix, argument and suffix gives the argument back, which makes every builder above injective |
| Docker.NonBlank | src/utils/dockerUtils.ts:63-64 | the ids the `if (id)` test lets through are exactly the listed ids that are not empty |
| Docker.RemovalsOfNonBlank | src/utils/dockerUtils.ts:63-67 | the sweep issues one removal per non-empty id, in listing order |
| Docker.Sweep | src/utils/dockerUtils.ts:57-67 | the `forEach` over the trimmed listing split at newlines issues exactly the removals of its non-empty lines, in order |
| Docker.RemoveEach | src/utils/dockerUtils.ts:63-67 | the `forEach` loop issues exactly one removal per non-empty id, in order, and none for an empty one |
| Docker.SweepRemovesListedIds | src/utils/dockerUtils.ts:57-67 | an id is removed exactly when it is a non-empty line of the listing (both directions); a blank listing removes nothing |
| Docker.RemoveContainer | src/utils/dockerUtils.ts:120-139 | `removeContainer` issues the container listing, then one `docker rm -f` per non-empty listed id |
| Docker.RemoveImage | src/utils/dockerUtils.ts:141-172 | `removeImage` issues the dangling and named listings, then the named ids' `docker rmi -f`, then the dangling ids' |
| Docker.SetWhenBusy | src/utils/dockerUtils.ts:69-76 | marking an image that is already being built as building leaves the guard's map unchanged |
| Docker.GuardExcludes | src/utils/dockerUtils.ts:69-76 | a taken image entry refuses a second acquisition, leaves every other image's outcome as it was, and can be taken again once cleared |
| Docker.BuildGuard.Begin | src/utils/dockerUtils.ts:57-76 | the container sweep is issued whether or not the guard is free; the guard is acquired exactly when the image's entry is not true, and then that entry is set |
| Docker.BuildGuard.BeginTwice | src/utils/dockerUtils.ts:57-79 | a second `run` of the same language while the first still holds the guard sweeps again and is refused; only the image's entry is set |
| Docker.BuildGuard.End | src/utils/dockerUtils.ts:103-105 | the `finally` clears the image's entry and no other |
| Docker.Plan | src/utils/dockerUtils.ts:88-98 | the plan has three commands |
| Docker.PlanNamesLanguage | src/utils/dockerUtils.ts:88-98 | the plan builds the language's image from the given Dockerfile, runs it under the language's container name with both options, and shows that container's log |
| Docker.Prepare | src/utils/dockerUtils.ts:79-86 | a missing Dockerfile is written from the language's template, and no other file changes |
| Docker.ResolveOptions | src/utils/dockerUtils.ts:92-93 | the port option, then the volume option, of the Dockerfile as it now stands; a port search that finds no port stops the run before the volume step |
| Docker.Build | src/utils/dockerUtils.ts:78-100 | the `try` block's outcome and files are those of the specification functions `BuildResult` and `BuildFiles` |
| Docker.Dispatch | src/utils/dockerUtils.ts:100 | a plan goes as one `;`-joined text to the container's terminal; any other outcome leaves every terminal as it was |
| Docker.Attempt | src/utils/dockerUtils.ts:42-93 | no active file fails before any command is issued; a busy image is refused after the sweep, with the guard and files untouched; otherwise the guard is held and the outcome and files are those of `RunResult` and `RunFiles` |
| Docker.Finish | src/utils/dockerUtils.ts:100-105 | the plan reaches the terminal, and then the image's entry is cleared on every way out of the `try` |
| Docker.Run | src/utils/dockerUtils.ts:42-106 | `run`: its outcome and files follow `RunResult` and `RunFiles`; a refused run changes neither the guard nor any terminal; any run that took the guard ends with the image's entry false and others unchanged; only a dispatched plan reaches a terminal |
| Docker.FreshDockerfileDeclaresNothing | src/utils/dockerUtils.ts:85 | a Dockerfile freshly written from any template, or not yet written, declares no port and no volume; so running the parse before or after the unawaited `makeDockerfile` gives the same lists |
| Docker.FreshRunDispatchesBarePlan | src/utils/dockerUtils.ts:79-100 | a first run without a Dockerfile writes the template and dispatches the plan with empty port and volume options |
| Docker.LogsText | src/utils/dockerUtils.ts:108-118 | the text `logs` sends is the one-command plan `docker logs -f <container>` joined as `runMultilineCommandsOnTerminal` joins it |
| Docker.Logs | src/utils/dockerUtils.ts:108-118 | `logs` sends only `docker logs -f <container>;` to the container's terminal, and no other terminal changes |
| DockerfileParser.CaptureAt | src/utils/dockerUtils.ts:203 | the keyword matches at the position, followed by at least one whitespace character (newlines included) and a non-empty capture that runs to the end of the line |
| DockerfileParser.CaptureAtCases | src/utils/dockerUtils.ts:203 | once the keyword is at the position: no match when no white space follows it; when the white-space run stops before the end of the text, the capture is exactly the rest of that line; when it runs to the end, a match exists iff the run holds a non-terminator after its first character, and the capture is the last such character alone |
| DockerfileParser.CapturesAfterSpace | src/utils/dockerUtils.ts:203-207 | a keyword, one white-space character (a newline included) and a value free of white space give exactly one capture, the whole value |
| DockerfileParser.ExposeValueOnNextLine | src/utils/dockerUtils.ts:203-239 | `EXPOSE`, a newline and a value such as `8080/tcp` declare exactly the one port its leading digits spell |
| DockerfileParser.FindMatch | src/utils/dockerUtils.ts:207 | `exec` from `lastIndex` finds the first position at or after it where the pattern matches, and none before it |
| DockerfileParser.ScanPorts | src/utils/dockerUtils.ts:203-214 | the `EXPOSE` loop appends each match's numeric tokens in match order |
| DockerfileParser.ScanVolumes | src/utils/dockerUtils.ts:217-235 | the `VOLUME` loop appends each match's JSON array elements or non-empty tokens in match order |
| DockerfileParser.ParseDockerfile | src/utils/dockerUtils.ts:196-245 | the lists are the de-duplicated scans of the file; an unreadable file gives two empty lists |
| DockerfileParser.ParsedListsFirstOccurrences | src/utils/dockerUtils.ts:237-240 | both lists are without duplicates, hold exactly the scanned values, and keep each at its first occurrence |
| DockerfileParser.CapturesStep | src/utils/dockerUtils.ts:207-214 | each match adds its capture ahead of later ones and resumes after it, so no occurrence overwrites an earlier one |
| DockerfileParser.ExposedPortsAppend | src/utils/dockerUtils.ts:213 | the ports of two runs of matches are the ports of the first followed by those of the second |
| DockerfileParser.DeclaredVolumesAppend | src/utils/dockerUtils.ts:227-233 | the volumes of two runs of matches are the volumes of the first followed by those of the second |
| DockerfileParser.KeepNumbers | src/utils/dockerUtils.ts:209-212 | the kept ports are exactly the tokens whose base-10 `parseInt` is a number |
| DockerfileParser.KeepNumbersOne | src/utils/dockerUtils.ts:211-212 | one token is kept, as its number, exactly when `parseInt` reads one |
| DockerfileParser.KeepNumbersAppend | src/utils/dockerUtils.ts:211-212 | `map` then `filter` distributes over concatenation, so the ports keep the tokens' order and multiplicity |
| DockerfileParser.KeepNonEmpty | src/utils/dockerUtils.ts:232 | `filter(Boolean)` keeps exactly the non-empty tokens |
| DockerfileParser.KeepNonEmptyOne | src/utils/dockerUtils.ts:232 | one token is kept exactly when it is non-empty |
| DockerfileParser.KeepNonEmptyAppend | src/utils/dockerUtils.ts:232 | `filter(Boolean)` distributes over concatenation, so the volumes keep the tokens' order and multiplicity |
| DockerfileParser.ExposeReadsNumericPrefix | src/utils/dockerUtils.ts:211 | a token such as `8080/tcp` gives the port of its leading digits |
| DockerfileParser.NoKeywordNoCaptures | src/utils/dockerUtils.ts:203-207 | a text without the keyword has no match |
| Text.SplitOn | src/utils/dockerUtils.ts:61-62 | `split` with one separator gives pieces free of it that join back to the text |
| Text.SplitOnJoin | src/utils/dockerUtils.ts:61-62 | splitting a join of separator-free pieces gives the pieces back |
| Text.Trim | src/utils/dockerUtils.ts:61 | `trim` gives a text neither end of which is white space, and leaves a text without any unchanged |
| Text.TrimIsSlice | src/utils/dockerUtils.ts:61 | `trim` gives exactly the slice of the text between its leading and its trailing white space |
| Text.SplitRuns | src/utils/dockerUtils.ts:210 | `split(/[\s,]+/)` gives pieces with no whitespace or comma, and a text without either as its only piece |
| Text.SplitRunsJoin | src/utils/dockerUtils.ts:210 | splitting pieces joined by a run of white space and commas gives the pieces back, when none holds a separator and all after the first are non-empty |
| Text.ParseIntOfIntToString | src/utils/dockerUtils.ts:211 | base-10 `parseInt` reads back every printed integer; on JavaScript numbers this holds for magnitudes below 2^53 (see Left out) |
| Text.Dedup | src/utils/dockerUtils.ts:238-239 | `[...new Set(xs)]` holds each element of `xs` exactly once |
| Text.DedupKeepsFirstOccurrenceOrder | src/utils/dockerUtils.ts:238-239 | the de-duplicated list orders its elements by their first occurrence |
| Ports.RandomHighPort | src/utils/dockerUtils.ts:308-312 | the candidate lies in [30000, 60000] and is `floor(r * 30001) + 30000` |
| Ports.LeastFree | src/utils/dockerUtils.ts:314-327 | the result is the least port at or above the start that binds, every port before it failed, and no result means none up to 65535 binds |
| Ports.FindAvailablePort | src/utils/dockerUtils.ts:314-327 | the retry loop returns the least free port at or above the start |
| Ports.Externals | src/utils/dockerUtils.ts:298-300 | each declared port gets, in order, the least free port at or above its own random candidate |
| Ports.MapDockerPorts | src/utils/dockerUtils.ts:290-306 | the loop builds exactly `PortOption`: empty for no ports, else one `-p ext:int` per port, joined by spaces |
| Ports.PortOptionRoundTrip | src/utils/dockerUtils.ts:290-306 | reading the option back gives one (external, internal) pair per declared port, in declaration order |
| Volumes.SidecarPath | src/utils/dockerUtils.ts:255 | the sidecar's path extends the Dockerfile's path, so it is another file |
| Volumes.SidecarIsNotDockerfile | src/utils/dockerUtils.ts:255-270 | writing or removing the sidecar does not change what the Dockerfile says |
| Volumes.MapDockerVolumes | src/utils/dockerUtils.ts:247-288 | the option and the files after the call are `VolumeOption` and `FilesAfter` |
| Volumes.NoVolumesNoSidecar | src/utils/dockerUtils.ts:250-253 | with no declared volume the option is empty, no file changes, and the sidecar is neither read nor needed |
| Volumes.FirstCallWritesDefaults | src/utils/dockerUtils.ts:259-270 | with no sidecar, the call writes `{volumes: v -> "./" + v}` and maps each volume to `./<v>` |
| Volumes.SecondCallLeavesSidecar | src/utils/dockerUtils.ts:274-280 | a second call writes nothing and gives the same option as the first |
| Volumes.DefaultMappings | src/utils/dockerUtils.ts:261-266 | with the default table, each volume `v` maps to `-v ./v:v` |
| Volumes.EntryIsHost | src/utils/dockerUtils.ts:283 | a non-empty string entry is the host path |
| Volumes.MissingOrEmptyFallsBack | src/utils/dockerUtils.ts:283 | a missing entry, or one that is null, empty, false or 0, falls back to `/app` + the volume |
| Volumes.MissingTableRejects | src/utils/dockerUtils.ts:275-285 | a sidecar without a `volumes` table makes the call fail |
| Volumes.VolumeOptionRoundTrip | src/utils/dockerUtils.ts:282-287 | reading the option back gives one (host, volume) pair per declared volume, in parse order |
| Volumes.Mappings | src/utils/dockerUtils.ts:282-285 | one mapping per declared volume, in order: the k-th is `-v` with the host path chosen for the k-th volume and the volume |
| ConfigMerge.MergeFields | src/utils/configUtils.ts:40-77 | the result has the union of the keys; a default-only key keeps its default; two objects merge recursively; otherwise the user value wins; an empty user object gives the defaults |
| ConfigMerge.MergeConfigsIterative | src/utils/configUtils.ts:40-77 | the stack loop computes exactly the recursive merge of the user's for-in entries into the defaults |
| ConfigMerge.KeysOf | src/utils/configUtils.ts:51 | the `for…in` enumerates each key of the object once |
| ConfigMerge.ForInEntries | src/utils/configUtils.ts:51 | `for…in` over an object gives its fields, over an array or string its indices, over anything else nothing |
| ConfigMerge.DefaultsSurvive | src/utils/configUtils.ts:51-72 | a default value on a path the user object does not reach survives the merge |
| ConfigMerge.UserValuesWin | src/utils/configUtils.ts:69-72 | a non-object user value lands at its path in the result |
| ConfigMerge.MergeSelf | src/utils/configUtils.ts:40-77 | merging the defaults into themselves gives the defaults |
| ConfigMerge.MergeStable | src/utils/configUtils.ts:40-77 | merging the defaults again changes nothing |
| Config.AtomicWriteConfig | src/utils/configUtils.ts:84-95 | the path holds the content, no `.tmp` file is left, and no other path changes |
| Config.SaveConfig | src/utils/configUtils.ts:100-107 | the path holds the printed configuration, written atomically |
| Config.LoadConfig | src/utils/configUtils.ts:113-143 | success exactly when the file exists and parses; then the parsed data; otherwise the defaults with the not-found or read-failure message |
| Config.EnsuredConfig | src/utils/configUtils.ts:205-226 | the saved configuration is an object holding every default key; it is the merge when loading succeeds and the defaults when it fails |
| Config.EnsureConfigFile | src/utils/configUtils.ts:205-226 | the config file ends holding the printed `EnsuredConfig`, and no `.tmp` file is left |
| Config.EnsureConfigIdempotent | src/utils/configUtils.ts:205-226 | a second `ensureConfigFile` writes what the first wrote |
| Config.DefaultEntrySurvives | src/utils/configUtils.ts:205-226 | a default entry the user's file does not override is in the saved configuration |
| Config.Extension | src/utils/configUtils.ts:175 | the extension is the text after the last `.` of the whole path, or the whole path without one |
| Config.ExtensionAfterLastDot | src/utils/configUtils.ts:175 | a path ending in `.` and a dot-free text has that text as its extension |
| Config.DetectLanguage | src/utils/configUtils.ts:166-197 | no editor, an empty extension and an unmapped extension fail with their messages; success exactly when the extension is mapped, giving its language (corrected lookup, see Findings) |
| Config.DetectsMappedExtension | src/utils/configUtils.ts:183-191 | a mapped extension detects its language |
| Config.DottedDirectoryDecides | src/utils/configUtils.ts:175 | a dot in a directory name and none in the file name makes the text after the directory's dot the extension |
| Config.DetectedLanguageHasTemplate | src/utils/configUtils.ts:183-191 | a detected language always has a template |
| Config.DetectLanguageAsWritten | src/utils/configUtils.ts:183-191 | the truthy `languageMap[ext]` lookup as written |
| Config.AsWrittenAcceptsInheritedName | src/utils/configUtils.ts:183-191 | as written, an extension naming an inherited object member is accepted where the corrected lookup rejects it |
| Config.AsWrittenAcceptsConstructor | src/utils/configUtils.ts:183-191 | as written, `main.constructor` is accepted, and the corrected lookup rejects it |
| Config.AsWrittenAgreesElsewhere | src/utils/configUtils.ts:166-197 | on every other file name the as-written and corrected lookups agree |
| Config.MakeDockerfile | src/utils/configUtils.ts:256-299 | no template writes nothing; an existing file and an answer other than "Yes" cancel and write nothing; otherwise the path holds exactly the template |
| Config.StringTable | src/config/constants.ts:19-28 | the JSON form of a string table has the same keys and values |
| Constants.LanguageMapContents | src/config/constants.ts:20-27 | `languageMap` has exactly the six extensions, mapped to their six languages |
| Constants.LanguageMapInjective | src/config/constants.ts:20-27 | no two extensions map to one language |
| Constants.EveryLanguageHasTemplate | src/config/constants.ts:20-88 | every language of `languageMap` has a template |
| Constants.TemplateShape | src/config/constants.ts:29-87 | lines starting `FROM `, with `WORKDIR /app` and `COPY . /app` third and fourth and no capital E, join to a well-formed template free of `EXPOSE` and `VOLUME` |
| Constants.TemplateEntryShape | src/config/constants.ts:29-87 | each language's template is well formed and has no directive |
| Constants.TemplatesWellFormed | src/config/constants.ts:28-88 | every template starts with `FROM `, contains `WORKDIR /app` and `COPY . /app`, and contains neither `EXPOSE` nor `VOLUME` |
| Constants.PythonTemplateShape | src/config/constants.ts:29-38 | the python template is well formed and has no directive |
| Constants.NodeTemplateShape | src/config/constants.ts:39-48 | the node template is well formed and has no directive |
| Constants.GoTemplateShape | src/config/constants.ts:49-58 | the go template is well formed and has no directive |
| Constants.TypescriptTemplateShape | src/config/constants.ts:59-68 | the typescript template is well formed and has no directive |
| Constants.JavaTemplateShape | src/config/constants.ts:69-77 | the java template is well formed and has no directive |
| Constants.CppTemplateShape | src/config/constants.ts:78-87 | the cpp template is well formed and has no directive |
| Terminals.TerminalRegistry.GetOrCreate | src/utils/terminalUtils.ts:21-35 | a cached name returns its terminal and creates none; an uncached one creates exactly one terminal, cached under the name, with other entries unchanged |
| Terminals.TerminalRegistry.GetOrCreateTwice | src/utils/terminalUtils.ts:21-35 | two calls with one name return the same terminal |
| Terminals.TerminalRegistry.TerminalRun | src/utils/terminalUtils.ts:37-41 | the command, unchanged, is the one text the container's terminal receives; no other terminal changes |
| Terminals.TerminalRegistry.RunMultilineCommands | src/utils/terminalUtils.ts:43-58 | one text, each command followed by `;`, goes to the container's terminal; no other terminal changes |
| Terminals.JoinCommands | src/utils/terminalUtils.ts:47-52 | the `forEach` builds each command followed by `;`, in order, and "" for no commands |
| Terminals.JoinTerminated | src/utils/terminalUtils.ts:50-52 | one more command appends that command and its `;` |
| Terminals.CommandsRoundTrip | src/utils/terminalUtils.ts:47-56 | commands without `;` can be split back out of the sent text, whose length is their total length plus one per command |
| Terminals.SentTexts | src/utils/terminalUtils.ts:19 | the texts received, per cached name |
| Files.FileSystem.WriteFile | src/utils/configUtils.ts:288 | the path holds the content and nothing else changes |
| Files.FileSystem.Rename | src/utils/configUtils.ts:94 | a present source moves to the target, and an absent one leaves the files as they were |
| JsonValues.GetSetSame | src/utils/configUtils.ts:71 | after `mergedRef[key] = userVal` the path reads the new value |
| JsonValues.GetSetOther | src/utils/configUtils.ts:71 | an assignment leaves every path that neither contains nor extends it unchanged |
| JsonValues.SetSetCommute | src/utils/configUtils.ts:65-71 | assignments at incomparable paths commute, so the stack's pop order does not matter |
| JsonValues.SetSetSame | src/utils/configUtils.ts:71 | a second assignment to one path overrides the first |

## Left out

- Subprocess execution (`execSync`, `exec`, `checkDockerAvailability`, `checkContainerExists1`) is not modelled. A listing's output is an input string, and the commands issued are an output sequence.
- The bind probe and `Math.random` are parameters: `isFree`, and a draw in [0, 1) for each port. The draws are floating point in the source and real numbers here.
- File reads, `stat`, `access`, `writeFile`, `rename` and `mkdir` act on a map from path to contents. A read that fails for a reason other than absence is not modelled.
- `JSON.parse` and `JSON.stringify` are abstract functions. Their indentation is not modelled.
- The event loop is not modelled. `run` is split at its awaits into `Attempt` (sweep, guard, build) and `Finish` (dispatch, release), and `BeginTwice` shows a second `run` refused in between.
- `makeDockerfile` is not awaited in `run`. The model lets it finish first. `Docker.FreshDockerfileDeclaresNothing` shows that the parse gives empty lists in either order.
- `getConfigFilePath`, `getRootPath` and `getActiveFilePath` are not part of this model. The active file's directory is a parameter, and the config path is too.
- VS Code alerts, `terminal.show`, logging and the command registration in `src/extension.ts` and `src/commands/*` are not part of this model.
- ConfigMerge.MergeConfigsIterative: the shallow copy at configUtils.ts:42 shares the default configuration's nested objects, so the source's assignment at :71 also changes `DEFAULT_CONFIG`. The model merges immutable JSON trees, so that aliasing is not captured. Its consequence: `ensureConfigFile` runs at activation (extension.ts:25), so a user's `languageMap` or `dockerTemplates` entries end up inside the tables of `DEFAULT_CONFIG` that `detectLanguage` (configUtils.ts:183) and `makeDockerfile` (configUtils.ts:257) read. The five members below describe the shipped tables only.
- Config.DetectLanguage: reads the shipped `languageMap`. A user entry merged in at activation, such as `"rs": "rust"`, is not seen.
- Config.MakeDockerfile: reads the shipped `dockerTemplates`. A user template merged in at activation is not seen.
- Config.DetectedLanguageHasTemplate: holds for the shipped tables only. With a user `languageMap` entry such as `"rs": "rust"` and no rust template, `main.rs` is detected as "rust" and then has no template.
- Docker.FreshDockerfileDeclaresNothing: holds for the shipped templates only. A user template with an `EXPOSE 8000` line makes a freshly written Dockerfile declare that port.
- Docker.FreshRunDispatchesBarePlan: holds for the shipped templates only. With a user template that declares ports or volumes, the first run's plan carries `-p` or `-v` options.
- ConfigMerge.KeysOf: `for…in` order is left open. Insertion order, inherited enumerable keys and a `__proto__` key are not modelled.
- Ports.LeastFree: the search stops at 65535, where Node refuses to listen and the promise is rejected. It is modelled as no free port, and the run fails.
- Ports.RandomHighPort: models `Math.floor(Math.random() * 30001) + 30000` with a real draw. The rounding of floating point is not modelled.
- Volumes.HostFor: a volume that names an inherited member of `Object.prototype` reads no entry here.
- Terminals.TerminalRegistry.GetOrCreate: a terminal name equal to an inherited member of `Object.prototype` is treated as uncached.
- JSON numbers are integers in the model.
- Text.ParseInt: `parseInt` returns a double, while the model returns an unbounded integer. Above 2^53 nearby values round to the same double (9007199254740993 reads as 9007199254740992, so the `Set` merges the two). A token of several hundred digits reads as `Infinity`, which is not `NaN` and so is kept. Integers from 1e21 upward print in exponent form (`1e+21`). Text.ParseIntOfIntToString therefore matches JavaScript only for magnitudes below 2^53.

## Findings

| source | as written | input that shows it | evidently intended | confidence | as-written member | corrected member |
|---|---|---|---|---|---|---|
| src/utils/configUtils.ts:183-191 | `languageMap[fileExtension]` is a plain object lookup, so inherited members of `Object.prototype` are truthy | active file `main.constructor` (also `toString`, `valueOf`, …) | only the six listed extensions are accepted; others fail with `Unsupported file type` | not executed | Config.AsWrittenAcceptsConstructor | Config.DetectLanguage |
