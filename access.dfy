/**
 * The collaborators of the build coordinator: the image-name check, the
 * query service, the archive service and the Docker client. Each call the
 * coordinator makes is answered by a result chosen in advance, either a
 * returned value or a thrown exception.
 */
module Access {
  import opened Wrappers

  /** The exceptions that reach the coordinator. */
  datatype Exception =
    | DockerAccessException(message: string, cause: Nullable<string>)  // `cause` is the message of the nested cause, if any
    | MojoExecutionException(message: string)
    | IllegalArgumentException(message: string)                       // an image name the reference grammar rejects
    | DuplicateBuildArgs(keys: set<string>)                            // the map builder's IllegalArgumentException on repeated keys
    | RuntimeException(message: string)                                // any other unchecked exception of a collaborator

  /** The answer to one call: the value it returns, or the exception it throws. */
  datatype Call<+T> = Returns(value: T) | Throws(exception: Exception)

  /**
   * One pre-chosen answer per call site of `buildImage`. The query service
   * is asked twice, before and after the build, so it has two answers.
   */
  datatype Collaborators = Collaborators(
    validation: Call<()>,                   // ImageName.validate(name)
    imageIdBefore: Call<Nullable<string>>,  // queryService.getImageId(name), before the build
    archive: Call<string>,                  // archiveService.createArchive(...), the archive's path
    engineBuild: Call<()>,                  // docker.buildImage(...)
    imageIdAfter: Call<Nullable<string>>,   // queryService.getImageId(name), after the build
    removal: Call<()>)                      // docker.removeImage(oldImageId, true)
}
