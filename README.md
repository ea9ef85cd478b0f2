# Image-build coordinator of the Maven Docker plugin

This project models `BuildService`, which builds one image of the Maven Docker plugin. For one image configuration, `buildImage`:

1. validates the image name;
2. snapshots the id the name currently points to, when the cleanup mode removes;
3. asks the archive service for the build-context archive;
4. merges the caller's build arguments with the configuration's;
5. picks the Dockerfile name to forward;
6. runs the engine build and queries the new id (`doBuildImage`);
7. logs "Built image";
8. removes the superseded image with force when the old id differs from the new one.

A removal that fails with a `DockerAccessException` is logged as a warning and swallowed under `TRY_TO_REMOVE`. Under every other mode it is rethrown.

The collaborators are not modelled. These are the image-name check, the query service, the archive service, the Docker client and the logger. Each call is answered by a result chosen in advance (`Access.Collaborators`): a value, or a thrown exception. Each call and each log line becomes an event on a trace (`Events.Event`).

The model has two layers:

- `BuildService.Run` is the reference semantics of one call: the trace it produces and how it ends.
- `BuildService.BuildImage` is the step-by-step coordinator. It appends to a local trace, returns early on every exception and calls `BuildService.DoBuildImage`. It is proved to produce exactly what `Run` produces.

Every property in module `Properties` is therefore a property of the coordinator itself. Module `Scenarios` works through whole calls on concrete configurations.

`prepareBuildArgs` puts both maps into Guava's immutable-map builder. `build()` throws `IllegalArgumentException` on a repeated key. So when the caller and the configuration define the same key, the call fails before any build. Neither side wins. A description of the plugin says the caller's argument takes precedence. The model follows the code: `BuildService.PrepareBuildArgs` fails with `DuplicateBuildArgs` exactly when the key sets overlap, and `Scenarios.CallerAndConfigurationShareKey` shows this for one call.

`CleanupMode` itself is not part of this model. `isRemove()` is false for `NONE` and true for `REMOVE` and `TRY_TO_REMOVE`. This is the only reading under which the `TRY_TO_REMOVE` branch of the catch block can be reached.

## Model

| member | source | states |
|---|---|---|
| BuildService.BuildImage | src/main/java/io/fabric8/maven/docker/service/BuildService.java:41-82 | The coordinator produces exactly the trace and outcome of `Run`: every call in order, early exit on each exception, and the removal that is swallowed or rethrown |
| BuildService.Run | src/main/java/io/fabric8/maven/docker/service/BuildService.java:44-45 | Name validation is the first event of every call; if it throws, the trace is that one event and the call ends with the validator's exception, so no query, archive, build or removal happens |
| BuildService.DoBuildImage | src/main/java/io/fabric8/maven/docker/service/BuildService.java:103-107 | The engine build receives the given name, archive, Dockerfile name, cleanup flag, `noCache` and arguments; a query of the new id follows only when the build returned; the result is the query's answer or the build's exception |
| BuildService.PrepareBuildArgs | src/main/java/io/fabric8/maven/docker/service/BuildService.java:84-91 | The merge succeeds exactly when the caller's keys and the configuration's keys are disjoint (null configuration arguments count as none); otherwise it fails with the duplicate-key error naming the shared keys |
| BuildService.MergedArgs | src/main/java/io/fabric8/maven/docker/service/BuildService.java:84-91 | A successful merge holds exactly the keys of both sides, each with its own value; null configuration arguments return the caller's map unchanged; a failure names a non-empty key set |
| BuildService.GetDockerfileName | src/main/java/io/fabric8/maven/docker/service/BuildService.java:93-99 | A name is forwarded exactly when Dockerfile mode is on, and `null` otherwise |
| BuildService.DockerfileNameIsLeaf | src/main/java/io/fabric8/maven/docker/service/BuildService.java:93-99 | The forwarded name is `name` if and only if Dockerfile mode is on and `name` is the last path segment of the configured Dockerfile |
| Config.CleanupMode.IsRemove | src/main/java/io/fabric8/maven/docker/service/BuildService.java:51-54 | Only `NONE` does not remove; `TRY_TO_REMOVE` removes |
| Files.LastIndexOfIsLast | src/main/java/io/fabric8/maven/docker/service/BuildService.java:95 | The last-index search finds the last separator: the found position holds it, no later position does, and -1 means it does not occur |
| Files.GetNameIsLeaf | src/main/java/io/fabric8/maven/docker/service/BuildService.java:95 | `getName` returns a suffix of the path with no separator, either the whole path or preceded by a separator |
| Files.LeafNameUnique | src/main/java/io/fabric8/maven/docker/service/BuildService.java:95 | A path has one leaf name only |
| Properties.EarlyExits | src/main/java/io/fabric8/maven/docker/service/BuildService.java:49-58 | A throwing snapshot query, archive service or merge ends the call with that exception right after the call that threw; nothing after it happens |
| Properties.BuildExits | src/main/java/io/fabric8/maven/docker/service/BuildService.java:61-69 | A throwing build ends the call before the query of the new id; a throwing query ends it before the "Built image" line; with no removal due, the call ends normally after that line |
| Properties.RemovalSucceeds | src/main/java/io/fabric8/maven/docker/service/BuildService.java:69-72 | When removal is due and succeeds, the trace ends with the forced removal of the old id and the "Removed image" line, and the call returns normally |
| Properties.RemovalSwallowed | src/main/java/io/fabric8/maven/docker/service/BuildService.java:73-76 | A Docker access failure of the removal under `TRY_TO_REMOVE` is followed by the warning line, and the call returns normally |
| Properties.RemovalRethrown | src/main/java/io/fabric8/maven/docker/service/BuildService.java:73-79 | Any other removal failure ends the call with that exception, unchanged, right after the removal |
| Properties.CallCounts | src/main/java/io/fabric8/maven/docker/service/BuildService.java:52-81 | How often each call occurs. The id is queried once before the build when the mode removes, and once after a build that returned. The build happens once when every earlier step returned. "Built image" is logged once the new id is known, plus "Removed image" after a successful removal. The removal happens once when due, and never otherwise. There is one warning exactly when the failure is tolerated |
| Properties.OnlyCalls | src/main/java/io/fabric8/maven/docker/service/BuildService.java:61-81 | Any build event is the forwarded build, right after the pre-build events. Any removal is the forced removal of the old id, right after the "Built image" line, and only when due. Any warning is the last event, and only when the failure is tolerated |
| Properties.FlagMapping | src/main/java/io/fabric8/maven/docker/service/BuildService.java:61-66 | Every engine build receives the image name, `cleanUp == isRemove()`, the caller's `noCache`, the resolved Dockerfile name and the successfully merged arguments |
| Properties.SnapshotOnlyWhenRemoving | src/main/java/io/fabric8/maven/docker/service/BuildService.java:49-54 | Once the build is issued, the old id was queried before it if and only if the cleanup mode removes |
| Properties.BuiltBeforeRemoval | src/main/java/io/fabric8/maven/docker/service/BuildService.java:61-76 | After a build that returned, the new id is queried and then "Built image" is logged. The removal comes right after that line. The trace ends with "Removed image" or with the warning |
| Properties.ToleranceRule | src/main/java/io/fabric8/maven/docker/service/BuildService.java:73-79 | A tolerated failure gives one warning, as the last event, and a normal return. Any other removal failure, and every failure under `REMOVE`, is rethrown unchanged with no warning |
| Properties.OutcomeRule | src/main/java/io/fabric8/maven/docker/service/BuildService.java:41-82 | The call returns normally if and only if the build and the query of the new id returned, and any due removal succeeded or was tolerated |
| Properties.NoneMode | src/main/java/io/fabric8/maven/docker/service/BuildService.java:49-54 | Under `NONE` the id is queried only after the build, no removal and no warning occur, and the build does not force-remove intermediate containers |
| Properties.RemoveVersusTryToRemove | src/main/java/io/fabric8/maven/docker/service/BuildService.java:73-79 | `REMOVE` and `TRY_TO_REMOVE` give the same execution, except for a due removal that fails with a Docker access error. There `REMOVE` rethrows, and `TRY_TO_REMOVE` adds the warning and returns normally |
| Scenarios.BuiltLineFormat | src/main/java/io/fabric8/maven/docker/service/BuildService.java:67 | The info line after the build is "desc: Built image id", with "null" for a null id |
| Scenarios.RemovedLineFormat | src/main/java/io/fabric8/maven/docker/service/BuildService.java:72 | The info line after a removal is "desc: Removed image old" |
| Scenarios.WarnLineFormat | src/main/java/io/fabric8/maven/docker/service/BuildService.java:75-76 | The warning is "desc: msg (old image) [cause]" when the failure has a cause |
| Scenarios.WarnLineWithoutCause | src/main/java/io/fabric8/maven/docker/service/BuildService.java:75-76 | Without a cause, the warning ends at "(old image)" |
| Scenarios.FreshBuild | src/main/java/io/fabric8/maven/docker/service/BuildService.java:49-69 | Under `REMOVE` with no previous image: validate, query, archive, forced build, query, "Built image", and no removal |
| Scenarios.ReplaceExisting | src/main/java/io/fabric8/maven/docker/service/BuildService.java:69-72 | Replacing an image under `REMOVE` removes the old id once, with force, and logs "Removed image" |
| Scenarios.TolerateFailure | src/main/java/io/fabric8/maven/docker/service/BuildService.java:73-76 | Under `TRY_TO_REMOVE` a busy image gives the warning and a normal return |
| Scenarios.SurfaceFailure | src/main/java/io/fabric8/maven/docker/service/BuildService.java:77-79 | Under `REMOVE` the same failure is rethrown unchanged, and the trace ends at the removal |
| Scenarios.CallerAndConfigurationShareKey | src/main/java/io/fabric8/maven/docker/service/BuildService.java:84-91 | A key that the caller and the configuration both define fails the call before the build, naming that key |
| Scenarios.NoCleanup | src/main/java/io/fabric8/maven/docker/service/BuildService.java:49-69 | Under `NONE` there is no snapshot and no removal, the build does not force-remove, and the new id is still queried |
| Scenarios.NullNewId | src/main/java/io/fabric8/maven/docker/service/BuildService.java:67-72 | A null new id differs from the old id, so the old image is removed and the line shows "null" |
| Scenarios.DockerfileLeafName | src/main/java/io/fabric8/maven/docker/service/BuildService.java:93-95 | In Dockerfile mode, "src/main/docker/Dockerfile" is forwarded as "Dockerfile" |

## Left out

- The Docker client, the query service, the archive service and the logger are network, file-system and logging I/O. Each call is an answer chosen in advance (`Access.Collaborators`), and each log call is a trace event holding the line.
- The grammar of `ImageName.validate` is not part of this model. Validation is an input that passes or throws.
- `MojoParameters` and the archive file's lifetime are not modelled. The coordinator only passes them on. The archive is represented by its path.
- Guava's `ImmutableMap.Builder` internals are not modelled. `BuildService.PrepareBuildArgs` keeps only "disjoint union or failure". Its error carries the whole set of shared keys, while Guava's message names only the first repeated key it meets.
- A null caller argument map, and null keys or values in either map, throw `NullPointerException` in the source. The model's maps cannot hold null, so these cases cannot arise.
- Exception messages are strings, and a cause is the cause's message. A null message or a null cause message (shown as "null" in the warning) is not modelled.
- `Files.GetName` follows `File.getName` with `/` as the only separator. Windows separators and `File`'s path normalisation are not modelled.
- Concurrent builds of the same name are not modelled; the coordinator has no concurrency.
- Parsing and the other members of `CleanupMode` are not part of this model. Only the three modes and `isRemove` are modelled.
- Logging-framework formatting, levels and appenders are not modelled. Only the line passed to `info` or `warn` is.
- Unchecked exceptions from a collaborator are `Access.Exception.RuntimeException`. They always propagate. The catch block at line 73 handles only `DockerAccessException`.
