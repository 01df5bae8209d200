/** The scalar values a decoded JSON body or a query string hands to the
    models, with the two PHP conversions both the factory and the validator
    apply to them. */
module PhpValues {
  import opened PhpStrings

  /** A value of a request array: decoded JSON or a query parameter. */
  datatype RequestValue = Null | Text(s: string) | Int(i: int) | Bool(b: bool)

  /** `(int)$v`. */
  function ToInt(v: RequestValue): int {
    match v
    case Text(s) => LeadingInt(s)
    case Int(i) => i
    case Bool(b) => if b then 1 else 0
    case Null => 0
  }

  /** `if ($v)`: null, `false`, `0`, "" and "0" are false, everything else
      (the string "false" included) is true. */
  predicate Truthy(v: RequestValue) {
    match v
    case Text(s) => !IsEmptyString(s)
    case Int(i) => i != 0
    case Bool(b) => b
    case Null => false
  }
}
