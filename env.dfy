/** `envVar`: a required environment variable with an optional default. The environment is a map. */
module Env {
  import opened JsValues

  /** The message of the error thrown for a missing variable. */
  function NotSetMessage(name: string): string {
    name + " environment variable is not set"
  }

  /** `envVar(name, defaultValue)`: the value when set and non-empty, else the default, else an `Error`. */
  function EnvVar(env: map<string, string>, name: string, defaultValue: Option<string>): (r: Completion<string>)
    ensures name in env && env[name] != "" ==> r == Returned(env[name])
    ensures (name !in env || env[name] == "") && defaultValue.None? ==> r == Threw(Err(ErrorOf("Error", NotSetMessage(name))))
    ensures (name !in env || env[name] == "") && defaultValue.Some? ==> r == Returned(defaultValue.value)
  {
    if name in env && env[name] != "" then Returned(env[name])
    else if defaultValue.None? then Threw(Err(ErrorOf("Error", NotSetMessage(name))))
    else Returned(defaultValue.value)
  }

  /** An empty variable is treated exactly like an unset one. */
  lemma EmptyIsUnset(env: map<string, string>, name: string, defaultValue: Option<string>)
    ensures EnvVar(env[name := ""], name, defaultValue) == EnvVar(env - {name}, name, defaultValue)
  {
  }

  /** Variables other than `name` play no part. */
  lemma OnlyNameMatters(env: map<string, string>, other: string, v: string, name: string, defaultValue: Option<string>)
    requires other != name
    ensures EnvVar(env[other := v], name, defaultValue) == EnvVar(env, name, defaultValue)
  {
  }
}
