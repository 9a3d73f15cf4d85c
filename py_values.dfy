/** The Python values a database row (a `RealDictRow`) or a request body can
    hold, as far as the shared helpers look at them. */
module PyValues {
  import opened OrderedDict

  datatype Value =
    | PyNone
    | PyBool(b: bool)
    | PyInt(i: int)
    | PyStr(s: string)
      /** A `date` or `datetime`, together with what `str()` makes of it. */
    | PyDate(text: string)
    | PyDateTime(text: string)
      /** Any other object, known by the name of its type. */
    | PyOther(typeName: string)
    | PyDict(entries: Dict<Value>)
    | PyList(items: seq<Value>)

  predicate IsDate(v: Value) { v.PyDate? || v.PyDateTime? }

  /** The qualified name of the value's type, as `type(v)` prints it. */
  function TypeName(v: Value): (t: string)
    ensures v.PyOther? ==> t == v.typeName
    ensures IsDate(v) ==> |t| > 9 && t[..9] == "datetime."
    ensures !v.PyOther? && !IsDate(v) ==> t != [] && '.' !in t
  {
    match v
    case PyNone => "NoneType"
    case PyBool(_) => "bool"
    case PyInt(_) => "int"
    case PyStr(_) => "str"
    case PyDate(_) => "datetime.date"
    case PyDateTime(_) => "datetime.datetime"
    case PyOther(name) => name
    case PyDict(_) => "dict"
    case PyList(_) => "list"
  }
}
