/**
 * The JavaScript values the two authentication handlers look at: the fields of a parsed
 * JSON request body, the columns of a database row, and the `code` property of a caught
 * error, together with JavaScript's truthiness test (`!x`).
 */
module JsValues {

  datatype Option<+T> = None | Some(value: T)

  /** A value as it can appear in a parsed JSON body or a database row. `Undefined` is
      what reading a missing property yields. */
  datatype JsValue =
    | Undefined
    | Null
    | Bool(b: bool)
    | Num(n: real)
    | Str(s: string)
    | Arr(items: seq<JsValue>)
    | Obj(entries: seq<(string, JsValue)>)

  /** JavaScript truthiness: `undefined`, `null`, `false`, `0`, `-0` and `""` are falsy;
      every other value, every array and every object included, is truthy. */
  predicate Truthy(v: JsValue)
    ensures Truthy(v) <==> v !in FALSY
  {
    match v
    case Undefined => false
    case Null => false
    case Bool(b) => b
    case Num(n) => n != 0.0
    case Str(s) => s != ""
    case Arr(_) => true
    case Obj(_) => true
  }

  /** The falsy values a JSON body can hold (`-0` is `Num(0.0)` here). */
  const FALSY: set<JsValue> := {Undefined, Null, Bool(false), Num(0.0), Str("")}

  /** An exception caught by a handler's `catch` block, seen through the one property the
      handlers read from it: `error.code` (`Undefined` when the error carries no code). */
  datatype JsError = JsError(code: JsValue)

  /** The error raised by reading a property of `undefined` (`newUser.id_usuario` when the
      store returned no row): a TypeError, which has no `code`. */
  const TYPE_ERROR: JsError := JsError(Undefined)

  /** A row returned by the store, as an object from column name to value. */
  type Row = map<string, JsValue>

  /** Property access `row.name`: `undefined` for a column the row does not have. */
  function Column(row: Row, name: string): JsValue {
    if name in row then row[name] else Undefined
  }
}
