/**
 * A variable frame of the interpreter (Pengo/src/Environment.h).  The `functions` map and
 * the `stop`/`returnVal` pair belong to every frame; only a function call reads the last
 * two.
 */
module Environments {
  import opened Wrappers
  import opened Tokens
  import opened Values
  import Functions

  datatype EnvironmentType = Global | Function | Loop | Generic

  datatype Environment = Environment(
    kind: EnvironmentType,
    variables: map<string, Value>,
    functions: map<string, Functions.Function>,
    stop: bool,
    returnVal: Value)

  /** A default-constructed frame of the given kind: no variables, no functions, not
      stopped, a Null return value. */
  function NewFrame(kind: EnvironmentType): (e: Environment)
    ensures e.kind == kind && e.variables == map[] && e.functions == map[]
    ensures !e.stop && e.returnVal == Null
  {
    Environment(kind, map[], map[], false, Null)
  }

  /** hasVariable. */
  predicate HasVariable(env: Environment, name: string) {
    name in env.variables
  }

  /** getVariable: the bound value, or the "not defined" report with the token's position
      (the source exits with -2). */
  function GetVariable(env: Environment, t: Token): (r: Result<Value, RuntimeError>)
    ensures r.Ok? <==> HasVariable(env, t.text)
    ensures r.Ok? ==> r.value == env.variables[t.text]
    ensures r.Err? ==> r.error == UndefinedVariable(t.text, t.line, t.pos)
  {
    if HasVariable(env, t.text) then Ok(env.variables[t.text])
    else Err(UndefinedVariable(t.text, t.line, t.pos))
  }

  /** `m_variables[name] = v`. */
  function Declare(env: Environment, name: string, v: Value): (e: Environment)
    ensures e.kind == env.kind && e.functions == env.functions
    ensures e.stop == env.stop && e.returnVal == env.returnVal
    ensures HasVariable(e, name) && e.variables[name] == v
    ensures forall n :: n != name ==> (HasVariable(e, n) <==> HasVariable(env, n))
    ensures forall n :: n != name && n in env.variables ==> n in e.variables && e.variables[n] == env.variables[n]
  {
    env.(variables := env.variables[name := v])
  }

  /** Reading a name back after declaring it gives the declared value, and declaring one
      name does not change what another reads. */
  lemma ReadAfterDeclare(env: Environment, name: string, v: Value, t: Token)
    ensures GetVariable(Declare(env, name, v), t) ==
      (if t.text == name then Ok(v) else GetVariable(env, t))
  {
  }
}
