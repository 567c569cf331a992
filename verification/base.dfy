/**
 Shared value types: an optional value, the outcome of an operation that may
 panic in the engine, and the unsigned byte used by colours and voxels.
 */
module Base {

  /** An optional value (Rust's `Option`). */
  datatype Option<+T> = None | Some(value: T) {

    /** The wrapped value, or `default` when there is none. */
    function GetOr(default: T): T {
      match this
      case Some(v) => v
      case None => default
    }
  }

  /** Why an operation of the engine stops with a panic. */
  datatype Fault =
    | IndexOutOfBounds       // a `Vec` index past its length
    | DivisionByZero         // an integer division by zero
    | MeshSizesDiffer        // `Mesh::merge` on meshes of different vertex layouts
    | MenuAlreadyCreated     // an editor asked to build its menu twice
    | MissingColor           // an `unwrap` of a widget colour that is not set

  /** The result of an operation that either returns or panics. */
  datatype Result<+T> = Ok(value: T) | Fail(fault: Fault)

  /** Rust's `u8`. */
  type Byte = x: int | 0 <= x < 256
}
