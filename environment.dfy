/**
 * The process environment (`process.env`) as a map from variable name to value.
 * A variable that is unset is absent from the map.
 */
module Environment {
  import opened Wrappers

  type Env = map<string, string>

  /** `process.env[name]` */
  function Get(env: Env, name: string): (v: Option<string>)
    ensures v.Some? <==> name in env
    ensures v.Some? ==> v.value == env[name]
  {
    if name in env then Some(env[name]) else None
  }

  /** JavaScript truthiness of an optional string: defined and not empty. */
  predicate Truthy(v: Option<string>) {
    v.Some? && v.value != []
  }

  /** `v || fallback` for an optional string. */
  function Or(v: Option<string>, fallback: string): (r: string)
    ensures Truthy(v) ==> r == v.value
    ensures !Truthy(v) ==> r == fallback
  {
    if Truthy(v) then v.value else fallback
  }
}
