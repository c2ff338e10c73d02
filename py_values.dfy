/** The Python values that pydantic's `mode='before'` validators receive before
    any type conversion: the raw field values of a model's input dictionary. */
module PyValues {

  /** A raw Python value. `float` is modelled by `real` (no NaN or infinities);
      every value of another type (list, dict, object, ...) is `PyOther`,
      which records only whether the value is truthy (an empty list or dict
      is not). */
  datatype Value =
    | PyNone
    | PyBool(b: bool)
    | PyInt(i: int)
    | PyFloat(x: real)
    | PyStr(s: string)
    | PyTuple(items: seq<Value>)
    | PyOther(truthy: bool)

  /** `isinstance(v, (int, float))`; `bool` is a subclass of `int` in Python. */
  predicate IsNumber(v: Value) {
    v.PyBool? || v.PyInt? || v.PyFloat?
  }

  /** The numeric value of a number (`True` is 1, `False` is 0). */
  function NumberValue(v: Value): real
    requires IsNumber(v)
  {
    match v
    case PyBool(b) => if b then 1.0 else 0.0
    case PyInt(i) => i as real
    case PyFloat(x) => x
  }

  /** Python truthiness: `None`, `False`, zero and empty strings and tuples are
      false; an opaque value is as truthy as it records. */
  predicate Truthy(v: Value) {
    match v
    case PyNone => false
    case PyBool(b) => b
    case PyInt(i) => i != 0
    case PyFloat(x) => x != 0.0
    case PyStr(s) => s != []
    case PyTuple(items) => items != []
    case PyOther(t) => t
  }

  /** `values.get(key)`: the value stored under `key`, or `None` when the key is absent. */
  function Get(values: map<string, Value>, key: string): Value {
    if key in values then values[key] else PyNone
  }
}
