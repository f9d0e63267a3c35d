/** Attribute values with their exact runtime type, and the errors the object model raises. */
module Values {

  /** The exact nominal type of an attribute value. `Other` names any further
      class (float, list, a user class, ...); it is distinct from the three built-ins. */
  datatype TypeTag = StrT | IntT | BoolT | OtherT(name: string)

  /** An attribute value. `Instance` is an opaque object of the class `cls`. */
  datatype Value =
    | Str(s: string)
    | Int(i: int)
    | Bool(b: bool)
    | Instance(cls: string, id: nat)

  /** The exact runtime type of a value: no subclass relation, so a `Bool`
      is never an `IntT` even though the host language's bool subclasses int. */
  function TagOf(v: Value): TypeTag {
    match v
    case Str(_) => StrT
    case Int(_) => IntT
    case Bool(_) => BoolT
    case Instance(cls, _) => OtherT(cls)
  }

  /** Every failure the object model reports, one constructor per raise site. */
  datatype Error =
    | UnknownAttribute(key: string)                              // set of an undeclared key
    | TypeMismatch(key: string, expected: TypeTag, actual: TypeTag) // set with a wrong exact type
    | MissingAttribute(key: string)                              // get of a key never set
    | NotLinked                                                  // check of an unlinked constraint
    | UnregisteredEntity(identifier: string)                     // create_entity of an unknown type
    | UnregisteredConstraint(identifier: string)                 // create_constraint of an unknown type
    | NotConstraintAndEntity                                     // link not given one of each kind
    | UnknownConstraintType(identifier: string)                  // link of a constraint this factory never registered
    | IncompatibleLink(required: string, given: string)          // link to an entity of the wrong type

  datatype Result<T> = Ok(value: T) | Err(error: Error)

  datatype Outcome = Pass | Fail(error: Error)
}
