/** Shared failure-compatible types: the null-or-value `Option`, the exceptions
    the handlers raise, and `Result` carrying either a value or one of them. */
module Wrappers {

  /** A C# reference or nullable value: `None` stands for `null`. */
  datatype Option<+T> = None | Some(value: T) {
    function GetOr(default: T): T {
      match this
      case Some(v) => v
      case None => default
    }
  }

  /** The exceptions the modelled code raises or lets escape. */
  datatype Error =
    | ArgumentNull(param: string)      // ArgumentNullException(nameof(param))
    | Argument(message: string)        // ArgumentException(message)
    | NullReference                    // a member access on a null reference
    | InvalidOperation                 // Nullable<T>.Value on null, or a JSON node of the wrong kind
    | IndexOutOfRange                  // an array index past its end
    | ArgumentOutOfRange               // a List<T> or JsonArray indexer past its end
    | KeyNotFound(key: string)         // a dictionary indexer on a missing key
    | Format                           // float.Parse on text that is not a number, or new Uri on text that is not a URI
    | StatesRuntime(message: string)   // the workflow orchestrator rejects a step
    | Service(message: string)         // an exception thrown by a cloud call
    | Thrown(message: string)          // an explicit `throw new Exception(message)`

  datatype Result<+T> = Success(value: T) | Failure(error: Error) {
    predicate IsFailure() { Failure? }

    function PropagateFailure<U>(): Result<U>
      requires Failure?
    {
      Failure(error)
    }

    function Extract(): T
      requires Success?
    {
      value
    }
  }

  /** Process environment variables; a missing name is an unset variable. */
  type Env = map<string, string>

  /** `Environment.GetEnvironmentVariable(name)`, which is null when unset. */
  function GetEnv(env: Env, name: string): (r: Option<string>)
    ensures r.Some? <==> name in env
    ensures r.Some? ==> r.value == env[name]
  {
    if name in env then Some(env[name]) else None
  }

  /** `GetEnvironmentVariable(name) ?? default`. */
  function EnvOr(env: Env, name: string, default: string): (r: string)
    ensures name !in env ==> r == default
    ensures name in env ==> r == env[name]
  {
    GetEnv(env, name).GetOr(default)
  }

  /** C# string interpolation renders a null string as the empty string. */
  function Interp(s: Option<string>): string {
    s.GetOr("")
  }
}
