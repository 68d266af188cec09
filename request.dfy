/** Values that arrive in request bodies and query strings, with JavaScript's truthiness. */
module Request {
  import opened Wrappers
  import opened UserModel

  /** A JSON body field as the handler sees it (`Undefined` when the field is missing). */
  datatype JsValue = Undefined | Null | Bool(b: bool) | Num(n: int) | Str(s: string) | Object

  predicate Truthy(v: JsValue) {
    match v
    case Undefined => false
    case Null => false
    case Bool(b) => b
    case Num(n) => n != 0
    case Str(s) => s != ""
    case Object => true
  }

  /** A user id given as a string: one that parses as an object id, or any other text. */
  datatype IdRef = ObjectId(id: UserId) | Malformed(raw: string)

  /** A supplied id is truthy unless it is absent or the empty string. */
  predicate IdGiven(r: Option<IdRef>) {
    r.Some? && !(r.value.Malformed? && r.value.raw == "")
  }
}
