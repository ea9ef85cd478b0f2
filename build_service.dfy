/**
 * The image-build coordinator: for one image configuration it validates the
 * name, snapshots the old image id when the cleanup mode removes, asks for a
 * build-context archive, merges the build arguments, runs the engine build,
 * queries the new id and removes the superseded image, tolerating a failed
 * removal only under `TryToRemove`.
 *
 * `Run` is the reference semantics of one call: the trace it produces and
 * how it ends. `BuildImage` is the step-by-step coordinator, proved to
 * produce exactly that.
 */
module BuildService {
  import opened Wrappers
  import opened Config
  import opened Access
  import opened Events
  import Files

  /** How a call of `buildImage` ends: it returns normally, or throws. */
  datatype Outcome = Completed | Threw(exception: Exception)

  /** The trace a call produced, and how it ended. */
  datatype Execution = Execution(trace: seq<Event>, outcome: Outcome)

  /** The build arguments of the configuration, with `null` read as no arguments. */
  function ConfigArgs(build: BuildImageConfiguration): map<string, string> {
    if build.args.Null? then map[] else build.args.value
  }

  /**
   * `prepareBuildArgs`: an immutable-map builder receives the caller's
   * arguments and then, when present, the configuration's. Building fails
   * with the builder's duplicate-key error as soon as a key was put twice,
   * so there is no precedence between the two: the merge fails exactly when
   * the key sets overlap (see `MergedArgs` for what it returns otherwise).
   */
  function PrepareBuildArgs(buildArgs: map<string, string>, build: BuildImageConfiguration)
    : (r: Result<map<string, string>, Exception>)
    ensures r.Success? <==> buildArgs.Keys !! ConfigArgs(build).Keys
    ensures r.Failure? ==> r.error == DuplicateBuildArgs(buildArgs.Keys * ConfigArgs(build).Keys)
  {
    var configArgs := ConfigArgs(build);
    var duplicates := buildArgs.Keys * configArgs.Keys;
    if duplicates != {} then
      assert exists k :: k in duplicates;
      Failure(DuplicateBuildArgs(duplicates))
    else
      assert forall k | k in buildArgs :: k !in configArgs by {
        forall k | k in buildArgs ensures k !in configArgs {
          assert k !in duplicates;
        }
      }
      Success(buildArgs + configArgs)
  }

  /**
   * A successful merge holds every caller argument and every configuration
   * argument with its own value and nothing else; a configuration without
   * arguments leaves the caller's map as it is; a failed merge names a
   * non-empty set of keys, the ones both sides define.
   */
  lemma MergedArgs(buildArgs: map<string, string>, build: BuildImageConfiguration)
    ensures var r := PrepareBuildArgs(buildArgs, build);
      && (r.Success? ==> r.value.Keys == buildArgs.Keys + ConfigArgs(build).Keys)
      && (r.Success? ==> forall k | k in buildArgs :: r.value[k] == buildArgs[k])
      && (r.Success? ==> forall k | k in ConfigArgs(build) :: r.value[k] == ConfigArgs(build)[k])
      && (r.Failure? ==> r.error.keys != {})
      && (build.args.Null? ==> r == Success(buildArgs))
  {
    var configArgs := ConfigArgs(build);
    var duplicates := buildArgs.Keys * configArgs.Keys;
    if duplicates != {} {
      assert exists k :: k in duplicates;
    } else {
      assert build.args.Null? ==> buildArgs + configArgs == buildArgs;
    }
  }

  /** `getDockerfileName`: the leaf name of the Dockerfile in Dockerfile mode, `null` otherwise. */
  function GetDockerfileName(build: BuildImageConfiguration): (r: Nullable<string>)
    ensures r.NonNull? <==> build.dockerFileMode
  {
    if build.dockerFileMode then NonNull(Files.GetName(build.dockerFile)) else Null
  }

  /** The forwarded name, when there is one, is the leaf name of the configured Dockerfile and no other string. */
  lemma DockerfileNameIsLeaf(build: BuildImageConfiguration, name: string)
    ensures GetDockerfileName(build) == NonNull(name) <==> build.dockerFileMode && Files.IsLeafName(name, build.dockerFile)
  {
    Files.GetNameIsLeaf(build.dockerFile);
    if build.dockerFileMode && Files.IsLeafName(name, build.dockerFile) {
      Files.LeafNameUnique(name, Files.GetName(build.dockerFile), build.dockerFile);
    }
  }

  function BuiltLine(description: string, newImageId: Nullable<string>): string {
    description + ": Built image " + Show(newImageId)
  }

  function RemovedLine(description: string, oldImageId: string): string {
    description + ": Removed image " + oldImageId
  }

  /** The warning for a tolerated removal failure; the cause's message is appended in brackets when there is a cause. */
  function WarnLine(description: string, e: Exception): string
    requires e.DockerAccessException?
  {
    description + ": " + e.message + " (old image)"
      + (if e.cause.NonNull? then " [" + e.cause.value + "]" else "")
  }

  /** The reference semantics of `buildImage`, stage by stage, each stage appending to the trace. */
  function Run(image: ImageConfiguration, noCache: bool, buildArgs: map<string, string>,
               env: Collaborators): (r: Execution)
    ensures |r.trace| >= 1 && r.trace[0] == ValidateName(image.name)
    ensures env.validation.Throws? ==>
              r == Execution([ValidateName(image.name)], Threw(env.validation.exception))
  {
    var name := image.name;
    var build := image.build;
    var mode := build.cleanupMode;
    var t := [ValidateName(name)];
    if env.validation.Throws? then Execution(t, Threw(env.validation.exception))
    else
      var t := if mode.IsRemove() then t + [QueryImageId(name)] else t;
      if mode.IsRemove() && env.imageIdBefore.Throws? then Execution(t, Threw(env.imageIdBefore.exception))
      else
        var oldImageId := if mode.IsRemove() then env.imageIdBefore.value else Null;
        var t := t + [CreateArchive(name)];
        if env.archive.Throws? then Execution(t, Threw(env.archive.exception))
        else
          var merged := PrepareBuildArgs(buildArgs, build);
          if merged.Failure? then Execution(t, Threw(merged.error))
          else
            var t := t + ([EngineBuild(name, env.archive.value, GetDockerfileName(build),
                                       mode.IsRemove(), noCache, merged.value)]
                          + (if env.engineBuild.Returns? then [QueryImageId(name)] else []));
            if env.engineBuild.Throws? then Execution(t, Threw(env.engineBuild.exception))
            else if env.imageIdAfter.Throws? then Execution(t, Threw(env.imageIdAfter.exception))
            else
              var newImageId := env.imageIdAfter.value;
              var t := t + [LogInfo(BuiltLine(image.description, newImageId))];
              if oldImageId.Null? || oldImageId == newImageId then Execution(t, Completed)
              else
                var t := t + [EngineRemove(oldImageId.value, true)];
                match env.removal
                case Returns(_) =>
                  Execution(t + [LogInfo(RemovedLine(image.description, oldImageId.value))], Completed)
                case Throws(e) =>
                  if e.DockerAccessException? && mode == TryToRemove then
                    Execution(t + [LogWarn(WarnLine(image.description, e))], Completed)
                  else
                    Execution(t, Threw(e))
  }

  /**
   * `doBuildImage`: the engine build, then, once it has returned, the query
   * for the id the name now points to. A failing build is not followed by
   * the query.
   */
  method DoBuildImage(imageName: string, dockerArchive: string, dockerfileName: Nullable<string>,
                      cleanUp: bool, noCache: bool, buildArgs: map<string, string>,
                      engineBuild: Call<()>, imageIdAfter: Call<Nullable<string>>)
    returns (trace: seq<Event>, newImageId: Call<Nullable<string>>)
    ensures trace == [EngineBuild(imageName, dockerArchive, dockerfileName, cleanUp, noCache, buildArgs)]
                     + (if engineBuild.Returns? then [QueryImageId(imageName)] else [])
    ensures newImageId == if engineBuild.Returns? then imageIdAfter else Throws(engineBuild.exception)
  {
    trace := [EngineBuild(imageName, dockerArchive, dockerfileName, cleanUp, noCache, buildArgs)];
    if engineBuild.Throws? {
      newImageId := Throws(engineBuild.exception);
      return;
    }
    trace := trace + [QueryImageId(imageName)];
    newImageId := imageIdAfter;
  }

  /**
   * `buildImage`: the coordinator itself. Each collaborator call and log
   * line is appended to `trace` as it happens; an exception ends the call
   * at once, except a Docker access failure of the removal under
   * `TryToRemove`, which is logged and swallowed.
   */
  method BuildImage(image: ImageConfiguration, noCache: bool, buildArgs: map<string, string>,
                    env: Collaborators)
    returns (trace: seq<Event>, outcome: Outcome)
    ensures Execution(trace, outcome) == Run(image, noCache, buildArgs, env)
  {
    var imageName := image.name;
    trace := [ValidateName(imageName)];
    if env.validation.Throws? {
      return trace, Threw(env.validation.exception);
    }

    var buildConfig := image.build;
    var oldImageId: Nullable<string> := Null;
    var cleanupMode := buildConfig.cleanupMode;
    if cleanupMode.IsRemove() {
      trace := trace + [QueryImageId(imageName)];
      if env.imageIdBefore.Throws? {
        return trace, Threw(env.imageIdBefore.exception);
      }
      oldImageId := env.imageIdBefore.value;
    }

    trace := trace + [CreateArchive(imageName)];
    if env.archive.Throws? {
      return trace, Threw(env.archive.exception);
    }
    var dockerArchive := env.archive.value;

    var mergedBuildMap := PrepareBuildArgs(buildArgs, buildConfig);
    if mergedBuildMap.Failure? {
      return trace, Threw(mergedBuildMap.error);
    }

    var buildTrace, newImageId := DoBuildImage(imageName, dockerArchive, GetDockerfileName(buildConfig),
                                               cleanupMode.IsRemove(), noCache, mergedBuildMap.value,
                                               env.engineBuild, env.imageIdAfter);
    trace := trace + buildTrace;
    if newImageId.Throws? {
      return trace, Threw(newImageId.exception);
    }
    trace := trace + [LogInfo(BuiltLine(image.description, newImageId.value))];

    if oldImageId.NonNull? && oldImageId != newImageId.value {
      trace := trace + [EngineRemove(oldImageId.value, true)];
      match env.removal {
        case Returns(_) =>
          trace := trace + [LogInfo(RemovedLine(image.description, oldImageId.value))];
        case Throws(exp) =>
          if exp.DockerAccessException? && cleanupMode == TryToRemove {
            trace := trace + [LogWarn(WarnLine(image.description, exp))];
          } else {
            return trace, Threw(exp);
          }
      }
    }
    outcome := Completed;
  }
}
