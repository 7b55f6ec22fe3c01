/** The parsed command line of the `find` command. */
module Options {

  /**
   * `{ path, metadata, object, field, strict }` as the `find` command's function
   * destructures it; `object` is named `objectName` here, since `object` is a
   * Dafny keyword.
   */
  datatype Args = Args(path: string, metadata: string, objectName: string, field: string, strict: bool)

  /** The metadata kinds the command line accepts. */
  const MetadataSupport: seq<string> := ["report", "dashboard"]
}
