/** Ruby values as the framework sees them: message headers, worker results,
    future values and the arguments of mailbox messages. */
module Values {

  datatype Option<T> = None | Some(value: T) {
    function GetOr(default: T): T {
      if Some? then value else default
    }
  }

  /** The Ruby objects the framework passes around. `Hash` keys are strings,
      which is all message headers use. */
  datatype Value =
    | Nil
    | Bool(b: bool)
    | Int(i: int)
    | Str(s: string)
    | Sym(name: string)
    | List(items: seq<Value>)
    | Hash(entries: map<string, Value>)

  /** Message headers: a Ruby Hash from header name to value. */
  type Headers = map<string, Value>

  /** Ruby truthiness: only `nil` and `false` are falsy. */
  predicate Truthy(v: Value) {
    !v.Nil? && v != Bool(false)
  }

  /** `v.length`: String, Symbol, Array and Hash answer it; every other
      object raises NoMethodError, which is `None` here. */
  function Length(v: Value): (r: Option<nat>)
    ensures r.Some? <==> (v.Str? || v.Sym? || v.List? || v.Hash?)
    ensures v.List? ==> r == Some(|v.items|)
    ensures v.Str? ==> r == Some(|v.s|)
  {
    match v
    case Str(s) => Some(|s|)
    case Sym(n) => Some(|n|)
    case List(xs) => Some(|xs|)
    case Hash(m) => Some(|m|)
    case _ => None
  }

  /** `headers[key]`: a missing key reads as nil. */
  function Get(h: Headers, key: string): (r: Value)
    ensures key in h ==> r == h[key]
    ensures key !in h ==> r == Nil
  {
    if key in h then h[key] else Nil
  }

  /** The exceptions the modelled code raises or lets through. */
  datatype Error =
    | NotImplementedError
    | ArgumentError(given: nat, expected: nat)
    | NoMethodError(selector: string)
    | NameError(name: string)
    | Failure(reason: Value)

  /** How a Ruby call ends: it returns a value or raises. */
  datatype Outcome = Returned(value: Value) | Raised(error: Error)
}
