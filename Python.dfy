/** The few Python values the command helpers store and test: keyword-argument
    values, option defaults and the `hikari.UNDEFINED` sentinel. */
module Python {

  datatype PyValue =
    | PyNone
    | PyBool(b: bool)
    | PyInt(i: int)
    | PyStr(s: string)
    | PyUndefined              // hikari.UNDEFINED, whose __bool__ is False
    | PyObject(id: string)     // any other object; truthy by Python's default

  /** `bool(v)` for the values above. */
  predicate Truthy(v: PyValue) {
    match v
    case PyNone => false
    case PyBool(b) => b
    case PyInt(i) => i != 0
    case PyStr(s) => s != []
    case PyUndefined => false
    case PyObject(_) => true
  }
}
