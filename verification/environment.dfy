/**
 * The process environment as seen through `os.getenv`, and the fail-fast
 * check that every configuration getter of the pipeline performs.
 */
module Environment {
  import opened Results

  /** The process environment: variable name to value. */
  type Env = map<string, string>

  /** `os.getenv(name)`: the value, or `None` when the variable is unset. */
  function GetEnv(env: Env, name: string): (r: Option<string>)
    ensures r.Some? <==> name in env
    ensures r.Some? ==> r.value == env[name]
  {
    if name in env then Some(env[name]) else None
  }

  /** The message of the `RuntimeError` raised for a missing variable. */
  function MissingMessage(name: string): string
  {
    "Environment variable " + name + " is not set!"
  }

  /**
   * `value = os.getenv(name); if not value: raise RuntimeError(...); return value`.
   * Python's `not value` holds both for `None` and for the empty string.
   */
  function RequireEnv(env: Env, name: string): (r: Result<string>)
    ensures r.Ok? <==> name in env && env[name] != ""
    ensures r.Ok? ==> r.value == env[name]
    ensures r.Err? ==> r.message == MissingMessage(name)
  {
    match GetEnv(env, name)
    case None => Err(MissingMessage(name))
    case Some(value) => if value == "" then Err(MissingMessage(name)) else Ok(value)
  }
}
