/**
 * The JavaScript values the modelled code inspects: parsed JSON, documents read from
 * the database, and the handful of environment variables it consults.
 */
module JsValues {
  import opened Wrappers

  /** A JavaScript value as far as the modelled code looks at it. Numbers are reals (no NaN, no infinities). */
  datatype JsValue =
    | JsUndefined
    | JsNull
    | JsBool(b: bool)
    | JsNumber(n: real)
    | JsString(s: string)
    | JsArray(elems: seq<JsValue>)
    | JsObject(fields: map<string, JsValue>)

  /**
   * Property access `v.name`: reading a property of `null` or `undefined` throws a
   * TypeError; any other non-object value, and an object without the property, gives `undefined`.
   */
  function GetProperty(v: JsValue, name: string): (r: Result<JsValue, string>)
    ensures r.Failure? <==> v.JsNull? || v.JsUndefined?
    ensures r.Success? && r.value != JsUndefined ==> v.JsObject? && name in v.fields && v.fields[name] == r.value
    ensures v.JsObject? && name in v.fields ==> r == Success(v.fields[name])
    ensures v.JsObject? && name !in v.fields ==> r == Success(JsUndefined)
  {
    match v
    case JsNull => Failure("Cannot read properties of null")
    case JsUndefined => Failure("Cannot read properties of undefined")
    case JsObject(fields) => Success(if name in fields then fields[name] else JsUndefined)
    case _ => Success(JsUndefined)
  }

  /**
   * The environment variables the code reads. An unset variable is the empty string:
   * for every test the code makes (truthiness, `=== 'production'`) unset and empty behave alike.
   */
  datatype Env = Env(nodeEnv: string, vercelUrl: string, reactAppApiUrl: string)

  predicate IsProduction(env: Env) {
    env.nodeEnv == "production"
  }
}
