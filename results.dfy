/** Optional values and the errors the resolution engine and the change reader raise. */
module Results {

  /** Java's nullable references: None stands for null. */
  datatype Option<+T> = None | Some(value: T)

  /** The exceptions monarch throws, as values. */
  datatype Error =
    /** IllegalArgumentException "Cannot create a change from 'null'." */
    | NullChangeMap
    /** NullPointerException when a change is built from a null container. */
    | NullArgument(name: string)
    /** ClassCastException when a field of a change document has the wrong shape. */
    | WrongType(field: string)
    /** IllegalArgumentException "Could not find target in hierarchy. Target: ..." */
    | TargetNotFound(target: string)

  datatype Result<+T> = Success(value: T) | Failure(error: Error)
}
