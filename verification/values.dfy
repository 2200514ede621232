/**
 * Values shared by every module of the model: an optional value (Python's
 * `None` or a value), the outcome of a computation that may raise, the kinds
 * of Python exception the modelled code raises or catches, and parsed JSON.
 */
module Values {

  /** A value that may be Python's `None`. */
  datatype Option<+T> = None | Some(value: T) {
    function GetOr(default: T): T {
      match this
      case Some(v) => v
      case None => default
    }
  }

  /** The Python exceptions the modelled code raises, catches or lets escape. */
  datatype PyError =
    | KeyError       // a missing dictionary key
    | IndexError     // a list or string index out of range
    | TypeError      // subscripting a value that does not support it
    | ValueError     // `int(...)` on a string that is not a number, or a body that is not JSON
    | RequestError   // an HTTP request that fails
    | DoesNotExist   // a database lookup that finds no row
    | NameError      // a name that is not bound, such as Python 2's `unicode` under Python 3

  /** Either the value a Python expression evaluates to, or the exception it raises. */
  datatype Result<+T> = Ok(value: T) | Err(error: PyError)

  /** A parsed JSON document, as `json.loads` returns it. */
  datatype Json =
    | JNull
    | JBool(b: bool)
    | JNumber(n: int)
    | JString(s: string)
    | JArray(items: seq<Json>)
    | JObject(fields: map<string, Json>)

  /** A subscript applied to a JSON value: a dictionary key or a list index. */
  datatype Subscript = Key(name: string) | Index(i: nat)

  /**
   * Python's `value[sub]` on a parsed JSON value: a missing key raises
   * KeyError (an integer on a dictionary is a missing key too), an index past
   * the end raises IndexError, a string indexed by a number gives its one-char
   * substring, and anything else raises TypeError.
   */
  function Get(value: Json, sub: Subscript): (r: Result<Json>)
    ensures r.Ok? && value.JObject? ==> sub.Key? && sub.name in value.fields && r.value == value.fields[sub.name]
    ensures r.Ok? && value.JArray? ==> sub.Index? && sub.i < |value.items| && r.value == value.items[sub.i]
    ensures r.Ok? ==> value.JObject? || value.JArray? || value.JString?
    ensures r.Err? ==> r.error in {KeyError, IndexError, TypeError}
  {
    match (value, sub)
    case (JObject(m), Key(k)) => if k in m then Ok(m[k]) else Err(KeyError)
    case (JObject(_), Index(_)) => Err(KeyError)
    case (JArray(s), Index(i)) => if i < |s| then Ok(s[i]) else Err(IndexError)
    case (JString(s), Index(i)) => if i < |s| then Ok(JString([s[i]])) else Err(IndexError)
    case (_, _) => Err(TypeError)
  }

  /** `value[p0][p1]...`, stopping at the first subscript that raises. */
  function GetPath(value: Json, path: seq<Subscript>): Result<Json>
    decreases |path|
  {
    if path == [] then Ok(value)
    else
      match Get(value, path[0])
      case Ok(v) => GetPath(v, path[1..])
      case Err(e) => Err(e)
  }
}
