/**
 * Callable values of the interpreter (Pengo/src/Function.h, Pengo/src/Function.cpp).
 *
 * A function is a built-in or a user function with parameter names and a body.  Nothing
 * in the source sets a user function's `args`; the model takes it to be the number of
 * parameters.  The body of a user function is a block statement whose statements run
 * directly in the call frame, so the model keeps the statement list.  Console output is
 * an output trace the calls append to; `input` and `random` read stdin and a seeded
 * generator and end the run with `Unmodelled`.
 */
module Functions {
  import opened Wrappers
  import opened Values
  import Ast

  const PrintName := "print"
  const PrintLnName := "println"
  const InputName := "input"
  const ToIntName := "int"
  const RandomName := "random"

  datatype Builtin = PrintFn | PrintLnFn | InputFn | ToIntFn | RandomFn

  datatype Function =
    | BuiltIn(which: Builtin)
    | User(params: seq<string>, body: seq<Ast.Statement>)

  /** The `args` field: fixed per built-in, the parameter count of a user function. */
  function Arity(f: Function): nat {
    match f
    case BuiltIn(PrintFn) => 1
    case BuiltIn(PrintLnFn) => 1
    case BuiltIn(InputFn) => 0
    case BuiltIn(ToIntFn) => 1
    case BuiltIn(RandomFn) => 2
    case User(params, _) => |params|
  }

  /** The `builtIn` flag: the Function default is true, UserFunction clears it. */
  predicate IsBuiltIn(f: Function) {
    f.BuiltIn?
  }

  /** The table the interpreter's constructor fills. */
  const Builtins: map<string, Function> := map[
    PrintName := BuiltIn(PrintFn),
    PrintLnName := BuiltIn(PrintLnFn),
    InputName := BuiltIn(InputFn),
    ToIntName := BuiltIn(ToIntFn),
    RandomName := BuiltIn(RandomFn)]

  /** The table holds exactly the five names, each bound to a distinct built-in with the
      arity its class declares. */
  lemma BuiltinTable()
    ensures Builtins.Keys == {"print", "println", "input", "int", "random"}
    ensures forall n :: n in Builtins ==> IsBuiltIn(Builtins[n])
    ensures forall m, n :: m in Builtins && n in Builtins && m != n ==> Builtins[m] != Builtins[n]
    ensures Arity(Builtins["print"]) == 1 && Arity(Builtins["println"]) == 1
    ensures Arity(Builtins["input"]) == 0 && Arity(Builtins["int"]) == 1 && Arity(Builtins["random"]) == 2
  {
  }

  /** What a call returns: its value and the output trace after it. */
  datatype Returned = Returned(v: Value, out: string)

  /**
   * The `call` of a built-in.  Built-ins do not check the argument count: `print`,
   * `println` and `int` read `values[0]` (an empty list is undefined in the source and
   * ends the run here) and ignore further arguments.  `int` of a non-String takes no
   * branch of the source (the Float branch is not modelled).
   */
  function CallBuiltin(which: Builtin, values: seq<Value>, out: string): (r: Result<Returned, RuntimeError>)
    ensures which in {PrintFn, PrintLnFn, ToIntFn} && values == [] ==> r == Err(MissingArgument)
    ensures which == PrintFn && values != [] ==>
      (r.Ok? <==> ToString(values[0]).Ok?) && (r.Ok? ==> r.value == Returned(Null, out + ToString(values[0]).value))
    ensures which == PrintLnFn && values != [] ==>
      (r.Ok? <==> ToString(values[0]).Ok?) && (r.Ok? ==> r.value == Returned(Null, out + ToString(values[0]).value + "\n"))
    ensures which == ToIntFn && values != [] ==>
      (r.Ok? <==> values[0].Str? && StoI(values[0].s).Ok?) &&
      (r.Ok? ==> r.value == Returned(Integer(StoI(values[0].s).value), out))
    ensures which in {InputFn, RandomFn} ==> r.Err? && r.error.Unmodelled?
  {
    match which
    case PrintFn =>
      if values == [] then Err(MissingArgument)
      else var s :- ToString(values[0]); Ok(Returned(Null, out + s))
    case PrintLnFn =>
      if values == [] then Err(MissingArgument)
      else var s :- ToString(values[0]); Ok(Returned(Null, out + s + "\n"))
    case ToIntFn =>
      if values == [] then Err(MissingArgument)
      else if values[0].Str? then var i :- StoI(values[0].s); Ok(Returned(Integer(i), out))
      else Err(BadVariant)
    case InputFn => Err(Unmodelled(InputName))
    case RandomFn => Err(Unmodelled(RandomName))
  }

  /** `int` reads back the decimal text of any integer. */
  lemma ToIntOfDecimal(i: Int32, rest: seq<Value>, out: string)
    ensures CallBuiltin(ToIntFn, [Str(Decimal(i))] + rest, out) == Ok(Returned(Integer(i), out))
  {
    StoIDecimal(i);
  }

  /** `println` writes what `print` writes, then a newline. */
  lemma PrintLnIsPrintThenNewline(values: seq<Value>, out: string)
    requires CallBuiltin(PrintFn, values, out).Ok?
    ensures CallBuiltin(PrintLnFn, values, out) == Ok(Returned(Null, CallBuiltin(PrintFn, values, out).value.out + "\n"))
  {
  }

  /** A built-in only looks at as many arguments as its arity; the rest are ignored. */
  lemma {:induction false} ExtraArgumentsIgnored(which: Builtin, values: seq<Value>, extra: seq<Value>, out: string)
    requires |values| == Arity(BuiltIn(which))
    ensures CallBuiltin(which, values + extra, out) == CallBuiltin(which, values, out)
  {
    if |values| > 0 {
      assert (values + extra)[0] == values[0];
    }
  }

  /** The call frame of a user function: `values[i]` under `params[i]`, in order, so a
      repeated parameter name keeps the last value. */
  function Bind(params: seq<string>, values: seq<Value>): (m: map<string, Value>)
    requires |params| == |values|
    ensures forall x :: x in m <==> x in params
  {
    if params == [] then map[]
    else
      var n := |params| - 1;
      assert forall x :: x in params <==> x in params[..n] || x == params[n];
      Bind(params[..n], values[..n])[params[n] := values[n]]
  }

  /** A parameter that is not repeated later holds its own argument. */
  lemma {:induction false} BindLastWins(params: seq<string>, values: seq<Value>, i: nat)
    requires |params| == |values| && i < |params|
    requires forall j :: i < j < |params| ==> params[j] != params[i]
    ensures Bind(params, values)[params[i]] == values[i]
  {
    var n := |params| - 1;
    if i < n {
      BindLastWins(params[..n], values[..n], i);
    }
  }
}
