/** Small shared vocabulary: optional values, parsed request bodies, ids and bytes. */
module Common {

  datatype Option<+T> = None | Some(value: T) {
    function GetOr(default: T): T {
      if Some? then value else default
    }
  }

  /** What `await request.json()` or `await request.formData()` yields: a value, or the
      error it throws, with that error's message. */
  datatype Parsed<+T> = Parsed(value: T) | Unparsable(message: string)

  /** A MongoDB ObjectId, in its string form. */
  type Id = string

  type byte = x: int | 0 <= x < 256

  /** JavaScript truthiness of an optional string: absent and "" are both falsy. */
  predicate Truthy(s: Option<string>) {
    s.Some? && s.value != ""
  }

  /** `process.env.NAME || fallback`: an unset or empty variable gives the fallback. */
  function EnvOr(env: Option<string>, fallback: string): string {
    if Truthy(env) then env.value else fallback
  }
}
