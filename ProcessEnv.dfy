/** The process environment (`process.env`) and the two ways the host process reads a
    variable from it. */
module ProcessEnv {
  type Env = map<string, string>

  /** `process.env[name]` used as a condition: set and not empty. */
  predicate Truthy(env: Env, name: string) {
    name in env && env[name] != ""
  }

  /** `process.env[name] || ''` */
  function EnvOr(env: Env, name: string): (r: string)
    ensures name in env ==> r == env[name]
    ensures name !in env ==> r == ""
  {
    if name in env then env[name] else ""
  }
}
