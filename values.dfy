/** The values the reactive core stores, compares and hands to callbacks. */
module Values {

  datatype Option<T> = None | Some(value: T)

  /** A property name of a data object. */
  type Key = string

  /** The identity of a data object (an object reference). */
  type ObjId = nat

  /** The `id` a Subject receives from the module-level counter. */
  type SubjectId = nat

  /** The identity of an Observer object. */
  type ObserverId = nat

  /**
   * A JavaScript value as far as the core distinguishes values: `undefined`, `null`,
   * the primitives (compared by value) and object references (compared by identity).
   * Datatype equality is therefore exactly the source's `===`, and `!=` its `!==`.
   */
  datatype Value =
    | Undefined
    | Null
    | Bool(b: bool)
    | Num(n: int)
    | Str(s: string)
    | Obj(ref: ObjId)
}
