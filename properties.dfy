/**
 * What `buildImage` promises, proved of its reference semantics `Run`
 * (and so, through the postcondition of `BuildService.BuildImage`, of the
 * coordinator itself).
 */
module Properties {
  import opened Wrappers
  import opened Config
  import opened Access
  import opened Events
  import opened BuildService

  /** Every step before the engine build returned: validation, the snapshot (when removing), the archive, the merge. */
  ghost predicate BuildIssued(image: ImageConfiguration, buildArgs: map<string, string>, env: Collaborators) {
    && env.validation.Returns?
    && (image.build.cleanupMode.IsRemove() ==> env.imageIdBefore.Returns?)
    && env.archive.Returns?
    && PrepareBuildArgs(buildArgs, image.build).Success?
  }

  /** The build was issued and returned, and so did the query for the new id. */
  ghost predicate BuildReturned(image: ImageConfiguration, buildArgs: map<string, string>, env: Collaborators) {
    BuildIssued(image, buildArgs, env) && env.engineBuild.Returns? && env.imageIdAfter.Returns?
  }

  /** The snapshot of the old image id: taken only when the cleanup mode removes. */
  function OldImageId(image: ImageConfiguration, env: Collaborators): Nullable<string> {
    if image.build.cleanupMode.IsRemove() && env.imageIdBefore.Returns? then env.imageIdBefore.value else Null
  }

  /** The old image is to be removed: the build returned, there was an old id, and the new id (possibly null) differs. */
  ghost predicate RemovalDue(image: ImageConfiguration, buildArgs: map<string, string>, env: Collaborators) {
    && BuildReturned(image, buildArgs, env)
    && OldImageId(image, env).NonNull?
    && OldImageId(image, env) != env.imageIdAfter.value
  }

  /** The removal failed with a Docker access error under `TryToRemove`. */
  ghost predicate RemovalTolerated(image: ImageConfiguration, buildArgs: map<string, string>, env: Collaborators) {
    && RemovalDue(image, buildArgs, env)
    && env.removal.Throws?
    && env.removal.exception.DockerAccessException?
    && image.build.cleanupMode == TryToRemove
  }

  /** The events before the engine build: validation, the snapshot query when removing, the archive. */
  function PreBuild(image: ImageConfiguration): seq<Event> {
    [ValidateName(image.name)]
      + (if image.build.cleanupMode.IsRemove() then [QueryImageId(image.name)] else [])
      + [CreateArchive(image.name)]
  }

  /** The engine build the coordinator issues once every earlier step has returned. */
  ghost function Forwarded(image: ImageConfiguration, noCache: bool, buildArgs: map<string, string>,
                           env: Collaborators): Event
    requires BuildIssued(image, buildArgs, env)
  {
    EngineBuild(image.name, env.archive.value, GetDockerfileName(image.build),
                image.build.cleanupMode.IsRemove(), noCache, PrepareBuildArgs(buildArgs, image.build).value)
  }

  /** The info line once the new id is known. */
  function BuiltInfo(image: ImageConfiguration, env: Collaborators): Event
    requires env.imageIdAfter.Returns?
  {
    LogInfo(BuiltLine(image.description, env.imageIdAfter.value))
  }

  /** The forced removal of the old image. */
  function OldRemoval(image: ImageConfiguration, env: Collaborators): Event
    requires OldImageId(image, env).NonNull?
  {
    EngineRemove(OldImageId(image, env).value, true)
  }

  /** The info line after a successful removal. */
  function RemovedInfo(image: ImageConfiguration, env: Collaborators): Event
    requires OldImageId(image, env).NonNull?
  {
    LogInfo(RemovedLine(image.description, OldImageId(image, env).value))
  }

  /** The warning that replaces a tolerated removal failure. */
  function RemovalWarning(image: ImageConfiguration, env: Collaborators): Event
    requires env.removal.Throws? && env.removal.exception.DockerAccessException?
  {
    LogWarn(WarnLine(image.description, env.removal.exception))
  }

  // ---------------------------------------------------------------------
  // The paths through `buildImage`

  /** Before the build, every exception ends the call unchanged, right after the call that threw it. */
  lemma EarlyExits(image: ImageConfiguration, noCache: bool, buildArgs: map<string, string>, env: Collaborators)
    ensures var r := Run(image, noCache, buildArgs, env);
      env.validation.Returns? && image.build.cleanupMode.IsRemove() && env.imageIdBefore.Throws? ==>
        r == Execution([ValidateName(image.name), QueryImageId(image.name)], Threw(env.imageIdBefore.exception))
    ensures var r := Run(image, noCache, buildArgs, env);
      env.validation.Returns? && (image.build.cleanupMode.IsRemove() ==> env.imageIdBefore.Returns?)
      && env.archive.Throws? ==>
        r == Execution(PreBuild(image), Threw(env.archive.exception))
    ensures var r := Run(image, noCache, buildArgs, env);
      env.validation.Returns? && (image.build.cleanupMode.IsRemove() ==> env.imageIdBefore.Returns?)
      && env.archive.Returns? && PrepareBuildArgs(buildArgs, image.build).Failure? ==>
        r == Execution(PreBuild(image), Threw(PrepareBuildArgs(buildArgs, image.build).error))
  {
  }

  /** A failing build or post-build query ends the call unchanged; nothing is logged or removed. */
  lemma BuildExits(image: ImageConfiguration, noCache: bool, buildArgs: map<string, string>, env: Collaborators)
    ensures var r := Run(image, noCache, buildArgs, env);
      BuildIssued(image, buildArgs, env) && env.engineBuild.Throws? ==>
        r == Execution(PreBuild(image) + [Forwarded(image, noCache, buildArgs, env)],
                       Threw(env.engineBuild.exception))
    ensures var r := Run(image, noCache, buildArgs, env);
      BuildIssued(image, buildArgs, env) && env.engineBuild.Returns? && env.imageIdAfter.Throws? ==>
        r == Execution(PreBuild(image) + [Forwarded(image, noCache, buildArgs, env)] + [QueryImageId(image.name)],
                       Threw(env.imageIdAfter.exception))
    ensures var r := Run(image, noCache, buildArgs, env);
      BuildReturned(image, buildArgs, env) && !RemovalDue(image, buildArgs, env) ==>
        r == Execution(PreBuild(image) + [Forwarded(image, noCache, buildArgs, env)] + [QueryImageId(image.name)] + [BuiltInfo(image, env)],
                       Completed)
  {
  }

  /**
   * Once removal is due: the "Built image" line, the forced removal of the
   * old id, then the "Removed image" line, the warning that swallows the
   * failure, or the failure rethrown unchanged.
   */
  lemma CleanupPaths(image: ImageConfiguration, noCache: bool, buildArgs: map<string, string>, env: Collaborators)
    ensures var r := Run(image, noCache, buildArgs, env);
      RemovalDue(image, buildArgs, env) && env.removal.Returns? ==>
        r == Execution(PreBuild(image) + [Forwarded(image, noCache, buildArgs, env)] + [QueryImageId(image.name)] + [BuiltInfo(image, env)] + [OldRemoval(image, env)] + [RemovedInfo(image, env)],
                       Completed)
    ensures var r := Run(image, noCache, buildArgs, env);
      RemovalTolerated(image, buildArgs, env) ==>
        r == Execution(PreBuild(image) + [Forwarded(image, noCache, buildArgs, env)] + [QueryImageId(image.name)] + [BuiltInfo(image, env)] + [OldRemoval(image, env)] + [RemovalWarning(image, env)],
                       Completed)
    ensures var r := Run(image, noCache, buildArgs, env);
      RemovalDue(image, buildArgs, env) && env.removal.Throws? && !RemovalTolerated(image, buildArgs, env) ==>
        r == Execution(PreBuild(image) + [Forwarded(image, noCache, buildArgs, env)] + [QueryImageId(image.name)] + [BuiltInfo(image, env)] + [OldRemoval(image, env)],
                       Threw(env.removal.exception))
  {
    RemovalSucceeds(image, noCache, buildArgs, env);
    RemovalSwallowed(image, noCache, buildArgs, env);
    RemovalRethrown(image, noCache, buildArgs, env);
  }

  /** A successful removal is followed by the "Removed image" line. */
  lemma RemovalSucceeds(image: ImageConfiguration, noCache: bool, buildArgs: map<string, string>, env: Collaborators)
    ensures var r := Run(image, noCache, buildArgs, env);
      RemovalDue(image, buildArgs, env) && env.removal.Returns? ==>
        r == Execution(PreBuild(image) + [Forwarded(image, noCache, buildArgs, env)] + [QueryImageId(image.name)] + [BuiltInfo(image, env)] + [OldRemoval(image, env)] + [RemovedInfo(image, env)],
                       Completed)
  {
  }

  /** A tolerated removal failure is followed by the warning, and the call returns normally. */
  lemma RemovalSwallowed(image: ImageConfiguration, noCache: bool, buildArgs: map<string, string>, env: Collaborators)
    ensures var r := Run(image, noCache, buildArgs, env);
      RemovalTolerated(image, buildArgs, env) ==>
        r == Execution(PreBuild(image) + [Forwarded(image, noCache, buildArgs, env)] + [QueryImageId(image.name)] + [BuiltInfo(image, env)] + [OldRemoval(image, env)] + [RemovalWarning(image, env)],
                       Completed)
  {
  }

  /** Any other removal failure ends the call with that exception, unchanged. */
  lemma RemovalRethrown(image: ImageConfiguration, noCache: bool, buildArgs: map<string, string>, env: Collaborators)
    ensures var r := Run(image, noCache, buildArgs, env);
      RemovalDue(image, buildArgs, env) && env.removal.Throws? && !RemovalTolerated(image, buildArgs, env) ==>
        r == Execution(PreBuild(image) + [Forwarded(image, noCache, buildArgs, env)] + [QueryImageId(image.name)] + [BuiltInfo(image, env)] + [OldRemoval(image, env)],
                       Threw(env.removal.exception))
  {
  }

  // ---------------------------------------------------------------------
  // How often each kind of call and log line occurs

  lemma CountPreBuild(image: ImageConfiguration, k: Kind)
    ensures Count(PreBuild(image), k) == if image.build.cleanupMode.IsRemove() && k == Query then 1 else 0
  {
    var n := image.name;
    CountSnoc([], ValidateName(n), k);
    if image.build.cleanupMode.IsRemove() {
      CountSnoc([ValidateName(n)], QueryImageId(n), k);
      CountSnoc([ValidateName(n), QueryImageId(n)], CreateArchive(n), k);
    } else {
      CountSnoc([ValidateName(n)], CreateArchive(n), k);
    }
  }

  /** The counts of a call that ends before the build: at most the snapshot query. */
  lemma CountEarlyExit(image: ImageConfiguration, noCache: bool, buildArgs: map<string, string>, env: Collaborators,
                       k: Kind)
    requires !BuildIssued(image, buildArgs, env)
    ensures Count(Run(image, noCache, buildArgs, env).trace, k)
         == if env.validation.Returns? && image.build.cleanupMode.IsRemove() && k == Query then 1 else 0
  {
    var n := image.name;
    EarlyExits(image, noCache, buildArgs, env);
    CountSnoc([], ValidateName(n), k);
    if env.validation.Throws? {
    } else if image.build.cleanupMode.IsRemove() && env.imageIdBefore.Throws? {
      CountSnoc([ValidateName(n)], QueryImageId(n), k);
    } else {
      CountPreBuild(image, k);
    }
  }

  /** The counts of a call that issues the build and removes nothing. */
  lemma CountBuildExit(image: ImageConfiguration, noCache: bool, buildArgs: map<string, string>, env: Collaborators,
                       k: Kind)
    requires BuildIssued(image, buildArgs, env) && !RemovalDue(image, buildArgs, env)
    ensures Count(Run(image, noCache, buildArgs, env).trace, k)
         == (if image.build.cleanupMode.IsRemove() && k == Query then 1 else 0)
          + (if k == Build then 1 else 0)
          + (if env.engineBuild.Returns? && k == Query then 1 else 0)
          + (if BuildReturned(image, buildArgs, env) && k == Info then 1 else 0)
  {
    var pre := PreBuild(image);
    var b := Forwarded(image, noCache, buildArgs, env);
    var q := QueryImageId(image.name);
    BuildExits(image, noCache, buildArgs, env);
    CountPreBuild(image, k);
    CountSnoc(pre, b, k);
    if env.engineBuild.Returns? {
      CountSnoc(pre + [b], q, k);
      if env.imageIdAfter.Returns? {
        CountSnoc(pre + [b] + [q], BuiltInfo(image, env), k);
        assert Run(image, noCache, buildArgs, env).trace == pre + [b] + [q] + [BuiltInfo(image, env)];
      } else {
        assert Run(image, noCache, buildArgs, env).trace == pre + [b] + [q];
      }
    } else {
      assert Run(image, noCache, buildArgs, env).trace == pre + [b];
    }
  }

  /** The counts of a call that removes the old image. */
  lemma CountCleanup(image: ImageConfiguration, noCache: bool, buildArgs: map<string, string>, env: Collaborators,
                     k: Kind)
    requires RemovalDue(image, buildArgs, env)
    ensures Count(Run(image, noCache, buildArgs, env).trace, k)
         == (if image.build.cleanupMode.IsRemove() && k == Query then 1 else 0)
          + (if k == Build then 1 else 0)
          + (if k == Query then 1 else 0)
          + (if k == Info then 1 else 0)
          + (if k == Removal then 1 else 0)
          + (if env.removal.Returns? && k == Info then 1 else 0)
          + (if RemovalTolerated(image, buildArgs, env) && k == Warning then 1 else 0)
  {
    var t := Run(image, noCache, buildArgs, env).trace;
    var pre := PreBuild(image);
    var b := Forwarded(image, noCache, buildArgs, env);
    var q := QueryImageId(image.name);
    var built := BuiltInfo(image, env);
    var rm := OldRemoval(image, env);
    CleanupPaths(image, noCache, buildArgs, env);
    CountPreBuild(image, k);
    CountSnoc(pre, b, k);
    CountSnoc(pre + [b], q, k);
    CountSnoc(pre + [b] + [q], built, k);
    CountSnoc(pre + [b] + [q] + [built], rm, k);
    var done := pre + [b] + [q] + [built] + [rm];
    if env.removal.Returns? {
      CountSnoc(done, RemovedInfo(image, env), k);
      assert t == done + [RemovedInfo(image, env)];
    } else if RemovalTolerated(image, buildArgs, env) {
      CountSnoc(done, RemovalWarning(image, env), k);
      assert t == done + [RemovalWarning(image, env)];
    } else {
      assert t == done;
    }
  }

  // ---------------------------------------------------------------------
  // The properties of `buildImage`

  /**
   * How often each collaborator call and log line occurs: the snapshot
   * query once when the mode removes, the build once when every earlier
   * step returned, the query for the new id once after a build that
   * returned, the "Built image" line once the new id is known, the removal
   * once when due, then either the "Removed image" line or, when the
   * failure is tolerated, one warning.
   */
  lemma CallCounts(image: ImageConfiguration, noCache: bool, buildArgs: map<string, string>, env: Collaborators)
    ensures var t := Run(image, noCache, buildArgs, env).trace;
      Count(t, Query)
        == (if env.validation.Returns? && image.build.cleanupMode.IsRemove() then 1 else 0)
         + (if BuildIssued(image, buildArgs, env) && env.engineBuild.Returns? then 1 else 0)
    ensures Count(Run(image, noCache, buildArgs, env).trace, Build) == if BuildIssued(image, buildArgs, env) then 1 else 0
    ensures Count(Run(image, noCache, buildArgs, env).trace, Info)
         == (if BuildReturned(image, buildArgs, env) then 1 else 0)
          + (if RemovalDue(image, buildArgs, env) && env.removal.Returns? then 1 else 0)
    ensures Count(Run(image, noCache, buildArgs, env).trace, Removal) == if RemovalDue(image, buildArgs, env) then 1 else 0
    ensures Count(Run(image, noCache, buildArgs, env).trace, Warning) == if RemovalTolerated(image, buildArgs, env) then 1 else 0
  {
    if !BuildIssued(image, buildArgs, env) {
      CountEarlyExit(image, noCache, buildArgs, env, Query);
      CountEarlyExit(image, noCache, buildArgs, env, Build);
      CountEarlyExit(image, noCache, buildArgs, env, Info);
      CountEarlyExit(image, noCache, buildArgs, env, Removal);
      CountEarlyExit(image, noCache, buildArgs, env, Warning);
    } else if !RemovalDue(image, buildArgs, env) {
      CountBuildExit(image, noCache, buildArgs, env, Query);
      CountBuildExit(image, noCache, buildArgs, env, Build);
      CountBuildExit(image, noCache, buildArgs, env, Info);
      CountBuildExit(image, noCache, buildArgs, env, Removal);
      CountBuildExit(image, noCache, buildArgs, env, Warning);
    } else {
      CountCleanup(image, noCache, buildArgs, env, Query);
      CountCleanup(image, noCache, buildArgs, env, Build);
      CountCleanup(image, noCache, buildArgs, env, Info);
      CountCleanup(image, noCache, buildArgs, env, Removal);
      CountCleanup(image, noCache, buildArgs, env, Warning);
    }
  }

  /**
   * The build, the removal and the warning each occur at one position at
   * most: the build right after the pre-build events, the removal right
   * after the "Built image" line, the warning at the end.
   */
  lemma OnlyCalls(image: ImageConfiguration, noCache: bool, buildArgs: map<string, string>, env: Collaborators)
    ensures var t := Run(image, noCache, buildArgs, env).trace;
      forall j | 0 <= j < |t| && t[j].EngineBuild? ::
        BuildIssued(image, buildArgs, env) && j == |PreBuild(image)| && t[j] == Forwarded(image, noCache, buildArgs, env)
    ensures var t := Run(image, noCache, buildArgs, env).trace;
      forall j | 0 <= j < |t| && t[j].EngineRemove? ::
        RemovalDue(image, buildArgs, env) && j == |PreBuild(image)| + 3 && t[j] == OldRemoval(image, env)
    ensures var t := Run(image, noCache, buildArgs, env).trace;
      forall j | 0 <= j < |t| && t[j].LogWarn? ::
        RemovalTolerated(image, buildArgs, env) && j == |t| - 1 && t[j] == RemovalWarning(image, env)
  {
    var t := Run(image, noCache, buildArgs, env).trace;
    var pre := PreBuild(image);
    CallCounts(image, noCache, buildArgs, env);
    SnapshotOnlyWhenRemoving(image, noCache, buildArgs, env);
    BuiltBeforeRemoval(image, noCache, buildArgs, env);
    AtMostAt(t, Build, BuildIssued(image, buildArgs, env), |pre|);
    AtMostAt(t, Removal, RemovalDue(image, buildArgs, env), |pre| + 3);
    AtMostAt(t, Warning, RemovalTolerated(image, buildArgs, env), |t| - 1);
  }

  /**
   * The flags and values the engine build receives: `forceRemove` is
   * `IsRemove()`, `noCache` is the caller's, the Dockerfile name is the
   * leaf name or `null`, the arguments are the merged map.
   */
  lemma FlagMapping(image: ImageConfiguration, noCache: bool, buildArgs: map<string, string>, env: Collaborators)
    ensures var t := Run(image, noCache, buildArgs, env).trace;
      forall j | 0 <= j < |t| && t[j].EngineBuild? ::
        && t[j].name == image.name
        && t[j].forceRemove == image.build.cleanupMode.IsRemove()
        && t[j].noCache == noCache
        && t[j].dockerfileName == GetDockerfileName(image.build)
        && PrepareBuildArgs(buildArgs, image.build) == Success(t[j].args)
  {
    OnlyCalls(image, noCache, buildArgs, env);
  }

  /** Before the build, the old id has been queried exactly when the cleanup mode removes. */
  lemma SnapshotOnlyWhenRemoving(image: ImageConfiguration, noCache: bool, buildArgs: map<string, string>,
                                 env: Collaborators)
    ensures var t := Run(image, noCache, buildArgs, env).trace;
      BuildIssued(image, buildArgs, env) ==>
        && |PreBuild(image)| < |t|
        && t[|PreBuild(image)|] == Forwarded(image, noCache, buildArgs, env)
        && (QueryImageId(image.name) in t[..|PreBuild(image)|] <==> image.build.cleanupMode.IsRemove())
  {
    if BuildIssued(image, buildArgs, env) {
      var t := Run(image, noCache, buildArgs, env).trace;
      var pre := PreBuild(image);
      var b := Forwarded(image, noCache, buildArgs, env);
      if RemovalDue(image, buildArgs, env) {
        CleanupPaths(image, noCache, buildArgs, env);
      } else {
        BuildExits(image, noCache, buildArgs, env);
      }
      assert t[..|pre| + 1] == pre + [b];
      assert t[..|pre|] == pre;
    }
  }

  /**
   * Once the build returned, the new id is queried and the "Built image"
   * line logged, right before the old image is removed; the line for how
   * the removal went ends the trace.
   */
  lemma BuiltBeforeRemoval(image: ImageConfiguration, noCache: bool, buildArgs: map<string, string>,
                           env: Collaborators)
    ensures var t := Run(image, noCache, buildArgs, env).trace;
      BuildReturned(image, buildArgs, env) ==>
        && |PreBuild(image)| + 2 < |t|
        && t[|PreBuild(image)| + 1] == QueryImageId(image.name)
        && t[|PreBuild(image)| + 2] == BuiltInfo(image, env)
    ensures var t := Run(image, noCache, buildArgs, env).trace;
      RemovalDue(image, buildArgs, env) ==>
        && |PreBuild(image)| + 3 < |t|
        && t[|PreBuild(image)| + 2] == BuiltInfo(image, env)
        && t[|PreBuild(image)| + 3] == OldRemoval(image, env)
    ensures var t := Run(image, noCache, buildArgs, env).trace;
      RemovalDue(image, buildArgs, env) && env.removal.Returns? ==> t[|t| - 1] == RemovedInfo(image, env)
    ensures var t := Run(image, noCache, buildArgs, env).trace;
      RemovalTolerated(image, buildArgs, env) ==> t[|t| - 1] == RemovalWarning(image, env)
  {
    BuildExits(image, noCache, buildArgs, env);
    CleanupPaths(image, noCache, buildArgs, env);
  }

  /**
   * A removal that fails with a Docker access error under `TryToRemove` is
   * logged as one warning and the call returns normally; any other removal
   * failure, and every failure under `Remove`, is rethrown unchanged and
   * logs no warning.
   */
  lemma ToleranceRule(image: ImageConfiguration, noCache: bool, buildArgs: map<string, string>, env: Collaborators)
    ensures var r := Run(image, noCache, buildArgs, env);
      RemovalTolerated(image, buildArgs, env) ==>
        r.outcome == Completed && Count(r.trace, Warning) == 1 && r.trace[|r.trace| - 1] == RemovalWarning(image, env)
    ensures var r := Run(image, noCache, buildArgs, env);
      RemovalDue(image, buildArgs, env) && env.removal.Throws? && !RemovalTolerated(image, buildArgs, env) ==>
        r.outcome == Threw(env.removal.exception) && Count(r.trace, Warning) == 0
    ensures var r := Run(image, noCache, buildArgs, env);
      RemovalDue(image, buildArgs, env) && env.removal.Throws? && image.build.cleanupMode == Remove ==>
        r.outcome == Threw(env.removal.exception) && Count(r.trace, Warning) == 0
  {
    CleanupPaths(image, noCache, buildArgs, env);
    CallCounts(image, noCache, buildArgs, env);
  }

  /**
   * The call returns normally exactly when the build and the query for the
   * new id returned and any due removal succeeded or was tolerated.
   */
  lemma OutcomeRule(image: ImageConfiguration, noCache: bool, buildArgs: map<string, string>, env: Collaborators)
    ensures Run(image, noCache, buildArgs, env).outcome.Completed? <==>
      && BuildReturned(image, buildArgs, env)
      && (!RemovalDue(image, buildArgs, env) || env.removal.Returns? || RemovalTolerated(image, buildArgs, env))
  {
    EarlyExits(image, noCache, buildArgs, env);
    BuildExits(image, noCache, buildArgs, env);
    CleanupPaths(image, noCache, buildArgs, env);
  }

  /**
   * Under `None`: no snapshot, so the id is queried at most once, after the
   * build; no intermediate containers are force-removed; the old image is
   * never removed and no warning is logged.
   */
  lemma NoneMode(image: ImageConfiguration, noCache: bool, buildArgs: map<string, string>, env: Collaborators)
    requires image.build.cleanupMode == None
    ensures var t := Run(image, noCache, buildArgs, env).trace;
      && Count(t, Query) == (if BuildIssued(image, buildArgs, env) && env.engineBuild.Returns? then 1 else 0)
      && Count(t, Removal) == 0
      && Count(t, Warning) == 0
      && (forall j | 0 <= j < |t| && t[j].EngineBuild? :: !t[j].forceRemove)
  {
    CallCounts(image, noCache, buildArgs, env);
    FlagMapping(image, noCache, buildArgs, env);
  }

  /**
   * `Remove` and `TryToRemove` behave alike except when the removal fails
   * with a Docker access error: `Remove` rethrows it, `TryToRemove` logs
   * the warning instead and returns normally.
   */
  lemma RemoveVersusTryToRemove(image: ImageConfiguration, noCache: bool, buildArgs: map<string, string>,
                                env: Collaborators)
    requires image.build.cleanupMode == Remove
    ensures var tolerant := image.(build := image.build.(cleanupMode := TryToRemove));
      var strict := Run(image, noCache, buildArgs, env);
      var lenient := Run(tolerant, noCache, buildArgs, env);
      if RemovalDue(image, buildArgs, env) && env.removal.Throws? && env.removal.exception.DockerAccessException? then
        && strict.outcome == Threw(env.removal.exception)
        && lenient == Execution(strict.trace + [RemovalWarning(image, env)], Completed)
      else
        strict == lenient
  {
    var tolerant := image.(build := image.build.(cleanupMode := TryToRemove));
    assert PreBuild(tolerant) == PreBuild(image);
    assert GetDockerfileName(tolerant.build) == GetDockerfileName(image.build);
    assert PrepareBuildArgs(buildArgs, tolerant.build) == PrepareBuildArgs(buildArgs, image.build);
    if !BuildIssued(image, buildArgs, env) {
      EarlyExits(image, noCache, buildArgs, env);
      EarlyExits(tolerant, noCache, buildArgs, env);
    } else if !RemovalDue(image, buildArgs, env) {
      BuildExits(image, noCache, buildArgs, env);
      BuildExits(tolerant, noCache, buildArgs, env);
    } else {
      CleanupPaths(image, noCache, buildArgs, env);
      CleanupPaths(tolerant, noCache, buildArgs, env);
    }
  }
}
