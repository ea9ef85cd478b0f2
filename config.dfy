/**
 * The parts of an image configuration that the build coordinator reads:
 * the image name and description, and the build section with its cleanup
 * mode, its build arguments and its Dockerfile setting.
 */
module Config {
  import opened Wrappers

  /**
   * The cleanup policy for the image that a rebuild supersedes. Its enum
   * source is not part of this model; `IsRemove` is taken to be false for
   * `None` only, which is the one reading under which the tolerant branch
   * of the coordinator can be reached.
   */
  datatype CleanupMode = None | Remove | TryToRemove {

    /** Whether the previous image id is snapshotted and later removed. */
    predicate IsRemove()
      ensures IsRemove() <==> this != None
      ensures this == TryToRemove ==> IsRemove()
    {
      match this
      case None => false
      case Remove => true
      case TryToRemove => true
    }
  }

  /** The build section of an image configuration. */
  datatype BuildImageConfiguration = BuildImageConfiguration(
    cleanupMode: CleanupMode,
    args: Nullable<map<string, string>>,  // null when the configuration has no build arguments
    dockerFileMode: bool,                  // whether a named Dockerfile is forwarded to the engine
    dockerFile: string)                    // path of that Dockerfile; read only in Dockerfile mode

  /** An image configuration: the name to build and tag, a label for log lines, the build section. */
  datatype ImageConfiguration = ImageConfiguration(
    name: string,
    description: string,
    build: BuildImageConfiguration)
}
