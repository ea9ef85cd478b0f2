/**
 * Whole calls on concrete configurations and collaborator answers: the
 * image "app:1" described as "app", built from the archive
 * "docker-build.tar", with the id "sha:O" before the build and "sha:N"
 * after it.
 */
module Scenarios {
  import opened Wrappers
  import opened Config
  import opened Access
  import opened Events
  import opened BuildService
  import opened Properties

  function App(mode: CleanupMode, args: map<string, string>): ImageConfiguration {
    ImageConfiguration("app:1", "app", BuildImageConfiguration(mode, NonNull(args), false, "src/main/docker/Dockerfile"))
  }

  /** Every collaborator returns; the ids before and after the build and the removal's answer are given. */
  function Answers(before: Nullable<string>, after: Nullable<string>, removal: Call<()>): Collaborators {
    Collaborators(Returns(()), Returns(before), Returns("docker-build.tar"), Returns(()), Returns(after), removal)
  }

  const V := ValidateName("app:1")
  const Q := QueryImageId("app:1")
  const A := CreateArchive("app:1")
  const ArgA := map["A" := "1"]
  const Busy := DockerAccessException("busy", NonNull("container X"))

  /** The engine build of "app:1" from the archive, without a Dockerfile name and with the cache. */
  function B(forceRemove: bool, args: map<string, string>): Event {
    EngineBuild("app:1", "docker-build.tar", Null, forceRemove, false, args)
  }

  /** The "Built image" line, character for character, for an id and for a null id. */
  lemma BuiltLineFormat()
    ensures BuiltLine("app", NonNull("sha:N")) == "app: Built image sha:N"
    ensures BuiltLine("app", Null) == "app: Built image null"
  {
  }

  /** The "Removed image" line, character for character. */
  lemma RemovedLineFormat()
    ensures RemovedLine("app", "sha:O") == "app: Removed image sha:O"
  {
  }

  /** The warning, character for character, with the cause's message in brackets. */
  lemma WarnLineFormat()
    ensures WarnLine("app", Busy) == "app: busy (old image) [container X]"
  {
  }

  /** The warning for a failure without a cause ends at "(old image)". */
  lemma WarnLineWithoutCause()
    ensures WarnLine("app", DockerAccessException("busy", Null)) == "app: busy (old image)"
  {
  }

  /** A fresh build under `Remove` with no prior image: nothing is removed. */
  lemma FreshBuild()
    ensures Run(App(Remove, ArgA), false, map[], Answers(Null, NonNull("sha:N"), Returns(())))
         == Execution([V, Q, A, B(true, ArgA), Q, LogInfo(BuiltLine("app", NonNull("sha:N")))], Completed)
  {
    var image := App(Remove, ArgA);
    var env := Answers(Null, NonNull("sha:N"), Returns(()));
    assert map[] + ArgA == ArgA;
    BuildExits(image, false, map[], env);
    assert PreBuild(image) + [B(true, ArgA)] + [Q] + [LogInfo(BuiltLine("app", NonNull("sha:N")))]
        == [V, Q, A, B(true, ArgA), Q, LogInfo(BuiltLine("app", NonNull("sha:N")))];
  }

  /** Replacing an image under `Remove`: the old one is removed once, with force. */
  lemma ReplaceExisting()
    ensures Run(App(Remove, ArgA), false, map[], Answers(NonNull("sha:O"), NonNull("sha:N"), Returns(())))
         == Execution([V, Q, A, B(true, ArgA), Q, LogInfo(BuiltLine("app", NonNull("sha:N"))),
                       EngineRemove("sha:O", true), LogInfo(RemovedLine("app", "sha:O"))],
                      Completed)
  {
    var image := App(Remove, ArgA);
    var env := Answers(NonNull("sha:O"), NonNull("sha:N"), Returns(()));
    assert map[] + ArgA == ArgA;
    CleanupPaths(image, false, map[], env);
    assert PreBuild(image) + [B(true, ArgA)] + [Q] + [LogInfo(BuiltLine("app", NonNull("sha:N")))]
           + [EngineRemove("sha:O", true)] + [LogInfo(RemovedLine("app", "sha:O"))]
        == [V, Q, A, B(true, ArgA), Q, LogInfo(BuiltLine("app", NonNull("sha:N"))),
            EngineRemove("sha:O", true), LogInfo(RemovedLine("app", "sha:O"))];
  }

  /** Under `TryToRemove` a failed removal is one warning and the call returns normally. */
  lemma TolerateFailure()
    ensures Run(App(TryToRemove, ArgA), false, map[], Answers(NonNull("sha:O"), NonNull("sha:N"), Throws(Busy)))
         == Execution([V, Q, A, B(true, ArgA), Q, LogInfo(BuiltLine("app", NonNull("sha:N"))),
                       EngineRemove("sha:O", true), LogWarn(WarnLine("app", Busy))],
                      Completed)
  {
    var image := App(TryToRemove, ArgA);
    var env := Answers(NonNull("sha:O"), NonNull("sha:N"), Throws(Busy));
    assert map[] + ArgA == ArgA;
    CleanupPaths(image, false, map[], env);
    assert PreBuild(image) + [B(true, ArgA)] + [Q] + [LogInfo(BuiltLine("app", NonNull("sha:N")))]
           + [EngineRemove("sha:O", true)] + [LogWarn(WarnLine("app", Busy))]
        == [V, Q, A, B(true, ArgA), Q, LogInfo(BuiltLine("app", NonNull("sha:N"))),
            EngineRemove("sha:O", true), LogWarn(WarnLine("app", Busy))];
  }

  /** Under `Remove` the same failure is rethrown unchanged and no warning is logged. */
  lemma SurfaceFailure()
    ensures Run(App(Remove, ArgA), false, map[], Answers(NonNull("sha:O"), NonNull("sha:N"), Throws(Busy)))
         == Execution([V, Q, A, B(true, ArgA), Q, LogInfo(BuiltLine("app", NonNull("sha:N"))),
                       EngineRemove("sha:O", true)],
                      Threw(Busy))
  {
    var image := App(Remove, ArgA);
    var env := Answers(NonNull("sha:O"), NonNull("sha:N"), Throws(Busy));
    assert map[] + ArgA == ArgA;
    CleanupPaths(image, false, map[], env);
    assert PreBuild(image) + [B(true, ArgA)] + [Q] + [LogInfo(BuiltLine("app", NonNull("sha:N")))]
           + [EngineRemove("sha:O", true)]
        == [V, Q, A, B(true, ArgA), Q, LogInfo(BuiltLine("app", NonNull("sha:N"))), EngineRemove("sha:O", true)];
  }

  /**
   * A key that both the caller and the configuration define fails the
   * merge, so no build is issued (the caller's value does not win).
   */
  lemma CallerAndConfigurationShareKey()
    ensures Run(App(None, map["K" := "spec", "J" := "spec"]), false, map["K" := "caller"],
                Answers(Null, NonNull("sha:N"), Returns(())))
         == Execution([V, A], Threw(DuplicateBuildArgs({"K"})))
  {
    assert map["K" := "caller"].Keys * map["K" := "spec", "J" := "spec"].Keys == {"K"};
  }

  /** Under `None` the id is queried once, after the build, nothing is removed and `forceRemove` is off. */
  lemma NoCleanup()
    ensures Run(App(None, ArgA), false, map[], Answers(NonNull("sha:O"), NonNull("sha:N"), Returns(())))
         == Execution([V, A, B(false, ArgA), Q, LogInfo(BuiltLine("app", NonNull("sha:N")))], Completed)
  {
    var image := App(None, ArgA);
    var env := Answers(NonNull("sha:O"), NonNull("sha:N"), Returns(()));
    assert map[] + ArgA == ArgA;
    BuildExits(image, false, map[], env);
    assert PreBuild(image) + [B(false, ArgA)] + [Q] + [LogInfo(BuiltLine("app", NonNull("sha:N")))]
        == [V, A, B(false, ArgA), Q, LogInfo(BuiltLine("app", NonNull("sha:N")))];
  }

  /** A null new id differs from the old id: the old image is removed, and the line shows "null". */
  lemma NullNewId()
    ensures Run(App(Remove, map[]), false, map[], Answers(NonNull("sha:O"), Null, Returns(())))
         == Execution([V, Q, A, B(true, map[]), Q, LogInfo(BuiltLine("app", Null)),
                       EngineRemove("sha:O", true), LogInfo(RemovedLine("app", "sha:O"))],
                      Completed)
  {
    var image := App(Remove, map[]);
    var env := Answers(NonNull("sha:O"), Null, Returns(()));
    var none: map<string, string> := map[];
    assert none + none == none;
    CleanupPaths(image, false, map[], env);
    assert PreBuild(image) + [B(true, map[])] + [Q] + [LogInfo(BuiltLine("app", Null))]
           + [EngineRemove("sha:O", true)] + [LogInfo(RemovedLine("app", "sha:O"))]
        == [V, Q, A, B(true, map[]), Q, LogInfo(BuiltLine("app", Null)),
            EngineRemove("sha:O", true), LogInfo(RemovedLine("app", "sha:O"))];
  }

  /** A dockerfile-mode build forwards the Dockerfile's leaf name. */
  lemma DockerfileLeafName()
    ensures GetDockerfileName(BuildImageConfiguration(None, Null, true, "src/main/docker/" + "Dockerfile"))
         == NonNull("Dockerfile")
  {
    var dir, name := "src/main/docker/", "Dockerfile";
    assert (dir + name)[|dir| - 1] == '/';
    assert (dir + name)[|dir|..] == name;
    DockerfileNameIsLeaf(BuildImageConfiguration(None, Null, true, dir + name), name);
  }
}
