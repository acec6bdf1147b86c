/**
 * The tree-walking evaluator (Pengo/src/Interpreter.cpp and UserFunction::call of
 * Pengo/src/Function.cpp).
 *
 * The interpreter state is the global frame, the stack of frames (innermost last), the
 * function table and the output trace.  A user function may call itself without end, so
 * evaluation carries fuel that each user call spends; running out ends the run with
 * `OutOfFuel`.  Every fatal report, exception and undefined case of the source ends the
 * run with the matching error.
 */
module Interpreter {
  import opened Wrappers
  import opened Tokens
  import opened Values
  import opened Environments
  import Functions
  import Ast

  datatype State = State(
    global: Environment,
    frames: seq<Environment>,
    functions: map<string, Functions.Function>,
    out: string)

  datatype Evaluated = Evaluated(v: Value, st: State)
  datatype EvaluatedAll = EvaluatedAll(vs: seq<Value>, st: State)

  function Top(st: State): Environment
    requires st.frames != []
  {
    st.frames[|st.frames| - 1]
  }

  /** Nothing but the output trace changes, and the trace only grows. */
  predicate OnlyOutput(s: State, t: State) {
    t == s.(out := t.out) && s.out <= t.out
  }

  /** What a statement may change: the variables of the innermost frame, or of the global
      frame when the stack is empty, and the output trace by appending. */
  predicate Evolves(s: State, t: State) {
    && |t.frames| == |s.frames|
    && t.functions == s.functions
    && s.out <= t.out
    && if s.frames == [] then t.global == s.global.(variables := t.global.variables)
       else
         && t.global == s.global
         && t.frames[..|s.frames| - 1] == s.frames[..|s.frames| - 1]
         && Top(t) == Top(s).(variables := Top(t).variables)
  }

  lemma EvolvesTrans(a: State, b: State, c: State)
    requires Evolves(a, b) && Evolves(b, c)
    ensures Evolves(a, c)
  {
  }

  /** Pushing a frame, changing only what a statement may change, and popping it again
      leaves the state as it was apart from the output. */
  lemma PopRestores(st: State, frame: Environment, t: State)
    requires Evolves(st.(frames := st.frames + [frame]), t)
    ensures t.frames != []
    ensures OnlyOutput(st, t.(frames := t.frames[..|t.frames| - 1]))
  {
    assert t.frames[..|t.frames| - 1] == (st.frames + [frame])[..|st.frames|] == st.frames;
  }

  /** The variables a declaration writes: the innermost frame's, or the global ones. */
  function Scope(st: State): map<string, Value> {
    if st.frames == [] then st.global.variables else Top(st).variables
  }

  /** visitVarDeclare's store. */
  function DeclareIn(st: State, name: string, v: Value): (t: State)
    ensures Evolves(st, t)
    ensures Scope(t) == Scope(st)[name := v]
  {
    if st.frames == [] then st.(global := Declare(st.global, name, v))
    else
      var n := |st.frames| - 1;
      var t := st.(frames := st.frames[..n] + [Declare(st.frames[n], name, v)]);
      assert t.frames[..n] == st.frames[..n];
      t
  }

  // ---- name resolution ----

  /** Frame `i` binds `name` and no frame inside it does. */
  predicate Innermost(frames: seq<Environment>, name: string, i: int) {
    && 0 <= i < |frames|
    && HasVariable(frames[i], name)
    && forall j :: i < j < |frames| ==> !HasVariable(frames[j], name)
  }

  /** The loop of findVariable over the stack, from the innermost frame outwards. */
  function FindInFrames(frames: seq<Environment>, name: string): (r: Option<Value>)
    ensures r.Some? <==> exists i :: 0 <= i < |frames| && HasVariable(frames[i], name)
    ensures r.Some? ==> exists i :: Innermost(frames, name, i) && r.value == frames[i].variables[name]
    decreases |frames|
  {
    if frames == [] then None
    else
      var n := |frames| - 1;
      if HasVariable(frames[n], name) then
        assert Innermost(frames, name, n);
        Some(frames[n].variables[name])
      else
        InnermostOutside(frames, name);
        FindInFrames(frames[..n], name)
  }

  /** When the innermost frame does not bind a name, the innermost binder among the outer
      frames is the innermost binder of the whole stack. */
  lemma InnermostOutside(frames: seq<Environment>, name: string)
    requires frames != [] && !HasVariable(frames[|frames| - 1], name)
    ensures var n := |frames| - 1;
      && (forall i :: 0 <= i < n ==> frames[..n][i] == frames[i])
      && (forall i :: Innermost(frames[..n], name, i) ==> Innermost(frames, name, i))
  {
  }

  /** At most one frame is the innermost binder of a name. */
  lemma InnermostUnique(frames: seq<Environment>, name: string, i: int, k: int)
    requires Innermost(frames, name, i) && Innermost(frames, name, k)
    ensures i == k
  {
  }

  /**
   * findVariable: the innermost frame binding the name, then the global frame, then the
   * function table (giving a function value); an unknown name is the global frame's
   * "not defined" report.
   */
  function FindVariable(st: State, t: Token): (r: Result<Value, RuntimeError>)
    ensures r.Ok? <==>
      (exists i :: 0 <= i < |st.frames| && HasVariable(st.frames[i], t.text)) ||
      HasVariable(st.global, t.text) || t.text in st.functions
    ensures forall i :: Innermost(st.frames, t.text, i) ==> r == Ok(st.frames[i].variables[t.text])
    ensures (forall i :: 0 <= i < |st.frames| ==> !HasVariable(st.frames[i], t.text)) ==>
      && (HasVariable(st.global, t.text) ==> r == Ok(st.global.variables[t.text]))
      && (!HasVariable(st.global, t.text) && t.text in st.functions ==> r == Ok(Fn(t.text)))
    ensures r.Err? ==> r.error == UndefinedVariable(t.text, t.line, t.pos)
  {
    var found := FindInFrames(st.frames, t.text);
    if found.Some? then
      forall i | Innermost(st.frames, t.text, i)
        ensures found.value == st.frames[i].variables[t.text]
      {
        var k :| Innermost(st.frames, t.text, k) && found.value == st.frames[k].variables[t.text];
        InnermostUnique(st.frames, t.text, i, k);
      }
      Ok(found.value)
    else if HasVariable(st.global, t.text) then GetVariable(st.global, t)
    else if t.text in st.functions then Ok(Fn(t.text))
    else GetVariable(st.global, t)
  }

  // ---- evaluation ----

  /**
   * Expressions.  Binary operands are evaluated left then right; a call evaluates the
   * callee, then the arguments left to right, then dispatches.  Only a function value can
   * be called (`std::get<Function*>` throws otherwise).  A user call with the wrong
   * argument count is fatal before any frame is pushed; otherwise it pushes a Function
   * frame binding the parameters, runs the body there and pops the frame.
   */
  function Eval(fuel: nat, st: State, e: Ast.Expression): (r: Result<Evaluated, RuntimeError>)
    ensures r.Ok? ==> OnlyOutput(st, r.value.st)
    decreases fuel, 1, e
  {
    match e
    case Literal(t) =>
      var v :- LiteralValue(t);
      Ok(Evaluated(v, st))
    case Var(t) =>
      var v :- FindVariable(st, t);
      Ok(Evaluated(v, st))
    case Binary(left, op, right) =>
      var a :- Eval(fuel, st, left);
      var b :- Eval(fuel, a.st, right);
      var v :- BinaryOp(op, a.v, b.v);
      Ok(Evaluated(v, b.st))
    case Call(callee, args) =>
      var f :- Eval(fuel, st, callee);
      var xs :- EvalArgs(fuel, f.st, args);
      Invoke(fuel, f.v, xs)
  }

  /** The dispatch of a call once callee and arguments are evaluated. */
  function Invoke(fuel: nat, f: Value, xs: EvaluatedAll): (r: Result<Evaluated, RuntimeError>)
    ensures r.Ok? ==> OnlyOutput(xs.st, r.value.st)
    decreases fuel, 0
  {
    if !f.Fn? || f.name !in xs.st.functions then Err(NotCallable)
    else
      match xs.st.functions[f.name]
      case BuiltIn(which) =>
        var ret :- Functions.CallBuiltin(which, xs.vs, xs.st.out);
        Ok(Evaluated(ret.v, xs.st.(out := ret.out)))
      case User(params, body) =>
        if |xs.vs| != |params| then Err(ArityMismatch(|params|, |xs.vs|))
        else if fuel == 0 then Err(OutOfFuel)
        else
          var frame := Environment(Function, Functions.Bind(params, xs.vs), map[], false, Null);
          var pushed := xs.st.(frames := xs.st.frames + [frame]);
          var done :- ExecBody(fuel - 1, pushed, body);
          PopRestores(xs.st, frame, done.st);
          Ok(Evaluated(done.v, done.st.(frames := done.st.frames[..|done.st.frames| - 1])))
  }

  /** The argument list, left to right. */
  function EvalArgs(fuel: nat, st: State, args: seq<Ast.Expression>): (r: Result<EvaluatedAll, RuntimeError>)
    ensures r.Ok? ==> OnlyOutput(st, r.value.st) && |r.value.vs| == |args|
    decreases fuel, 1, args
  {
    if args == [] then Ok(EvaluatedAll([], st))
    else
      var a :- Eval(fuel, st, args[0]);
      var rest :- EvalArgs(fuel, a.st, args[1..]);
      Ok(EvaluatedAll([a.v] + rest.vs, rest.st))
  }

  /**
   * Statements.  An expression statement discards its value; a print statement writes the
   * text of the value and a newline; a declaration stores into the innermost frame, or the
   * global frame when the stack is empty; a block pushes a fresh Generic frame, runs its
   * statements and pops it, so nothing but the output survives it.
   */
  function Exec(fuel: nat, st: State, s: Ast.Statement): (r: Result<State, RuntimeError>)
    ensures r.Ok? ==> Evolves(st, r.value)
    ensures s.BlockStatement? && r.Ok? ==> OnlyOutput(st, r.value)
    decreases fuel, 2, s
  {
    match s
    case ExpressionStatement(e) =>
      var x :- Eval(fuel, st, e);
      Ok(x.st)
    case PrintStatement(e) =>
      var x :- Eval(fuel, st, e);
      var text :- ToString(x.v);
      Ok(x.st.(out := x.st.out + text + "\n"))
    case VarDeclareStatement(name, e) =>
      var x :- Eval(fuel, st, e);
      Ok(DeclareIn(x.st, name.text, x.v))
    case BlockStatement(statements) =>
      var frame := NewFrame(Generic);
      var inner :- ExecSeq(fuel, st.(frames := st.frames + [frame]), statements);
      PopRestores(st, frame, inner);
      Ok(inner.(frames := inner.frames[..|inner.frames| - 1]))
  }

  /** Statements in order (a block's list, or the program). */
  function ExecSeq(fuel: nat, st: State, ss: seq<Ast.Statement>): (r: Result<State, RuntimeError>)
    ensures r.Ok? ==> Evolves(st, r.value)
    decreases fuel, 2, ss
  {
    if ss == [] then Ok(st)
    else
      var next :- Exec(fuel, st, ss[0]);
      var last :- ExecSeq(fuel, next, ss[1..]);
      EvolvesTrans(st, next, last);
      Ok(last)
  }

  /**
   * The body loop of UserFunction::call: after each statement a set `stop` flag on the
   * call frame returns `returnVal` at once; a body that runs to its end returns Null.  No
   * statement sets the flag, so a frame pushed with it clear always returns Null.
   */
  function ExecBody(fuel: nat, st: State, ss: seq<Ast.Statement>): (r: Result<Evaluated, RuntimeError>)
    requires st.frames != []
    ensures r.Ok? ==> Evolves(st, r.value.st)
    ensures r.Ok? && !Top(st).stop ==> r.value.v == Null
    decreases fuel, 2, ss
  {
    if ss == [] then Ok(Evaluated(Null, st))
    else
      var next :- Exec(fuel, st, ss[0]);
      if Top(next).stop then Ok(Evaluated(Top(next).returnVal, next))
      else
        var done :- ExecBody(fuel, next, ss[1..]);
        EvolvesTrans(st, next, done.st);
        Ok(done)
  }

  // ---- properties of evaluation ----

  /** Statement lists run in order: a list that is split runs its first part, then the
      second part from where the first left off. */
  lemma {:induction false} ExecSeqAppend(fuel: nat, st: State, a: seq<Ast.Statement>, b: seq<Ast.Statement>)
    ensures ExecSeq(fuel, st, a + b) ==
      if ExecSeq(fuel, st, a).Ok? then ExecSeq(fuel, ExecSeq(fuel, st, a).value, b) else ExecSeq(fuel, st, a)
    decreases |a|
  {
    if a != [] {
      assert (a + b)[0] == a[0] && (a + b)[1..] == a[1..] + b;
      if Exec(fuel, st, a[0]).Ok? {
        ExecSeqAppend(fuel, Exec(fuel, st, a[0]).value, a[1..], b);
      }
    } else {
      assert a + b == b;
    }
  }

  /** Arguments are evaluated left to right: the last argument is evaluated in the state
      the ones before it leave. */
  lemma {:induction false} EvalArgsAppend(fuel: nat, st: State, args: seq<Ast.Expression>, last: Ast.Expression)
    ensures EvalArgs(fuel, st, args).Err? ==> EvalArgs(fuel, st, args + [last]) == Err(EvalArgs(fuel, st, args).error)
    ensures EvalArgs(fuel, st, args).Ok? ==>
      var xs := EvalArgs(fuel, st, args).value;
      && (Eval(fuel, xs.st, last).Err? ==> EvalArgs(fuel, st, args + [last]) == Err(Eval(fuel, xs.st, last).error))
      && (Eval(fuel, xs.st, last).Ok? ==>
            EvalArgs(fuel, st, args + [last]) == Ok(EvaluatedAll(xs.vs + [Eval(fuel, xs.st, last).value.v], Eval(fuel, xs.st, last).value.st)))
    decreases |args|
  {
    if args == [] {
      assert args + [last] == [last] && [last][1..] == [];
      if Eval(fuel, st, last).Ok? {
        var x := Eval(fuel, st, last).value;
        assert [x.v] + [] == [] + [x.v];
      }
    } else {
      assert (args + [last])[0] == args[0] && (args + [last])[1..] == args[1..] + [last];
      if Eval(fuel, st, args[0]).Ok? {
        var a := Eval(fuel, st, args[0]).value;
        EvalArgsAppend(fuel, a.st, args[1..], last);
        if EvalArgs(fuel, a.st, args[1..]).Ok? {
          var rest := EvalArgs(fuel, a.st, args[1..]).value;
          if Eval(fuel, rest.st, last).Ok? {
            var x := Eval(fuel, rest.st, last).value;
            assert [a.v] + (rest.vs + [x.v]) == ([a.v] + rest.vs) + [x.v];
          }
        }
      }
    }
  }

  /** A declaration binds its value in the innermost frame (or the global frame), leaves
      every outer frame alone, and is what the name reads afterwards, shadowing any outer
      binding. */
  lemma DeclarationShadows(fuel: nat, st: State, name: Token, e: Ast.Expression)
    requires Exec(fuel, st, Ast.VarDeclareStatement(name, e)).Ok?
    ensures Eval(fuel, st, e).Ok?
    ensures var after := Exec(fuel, st, Ast.VarDeclareStatement(name, e)).value;
      && Evolves(st, after)
      && Scope(after) == Scope(st)[name.text := Eval(fuel, st, e).value.v]
      && FindVariable(after, name) == Ok(Eval(fuel, st, e).value.v)
  {
    var after := Exec(fuel, st, Ast.VarDeclareStatement(name, e)).value;
    if after.frames != [] {
      assert Innermost(after.frames, name.text, |after.frames| - 1);
    }
  }

  /** A print statement appends the text of its value and a newline to the output. */
  lemma PrintAppendsLine(fuel: nat, st: State, e: Ast.Expression)
    requires Exec(fuel, st, Ast.PrintStatement(e)).Ok?
    ensures Eval(fuel, st, e).Ok? && ToString(Eval(fuel, st, e).value.v).Ok?
    ensures Exec(fuel, st, Ast.PrintStatement(e)).value ==
      Eval(fuel, st, e).value.st.(out := Eval(fuel, st, e).value.st.out + ToString(Eval(fuel, st, e).value.v).value + "\n")
  {
  }

  /** A function body whose frame is not stopped runs every statement, exactly like a
      statement list, and returns Null. */
  lemma {:induction false} BodyRunsToEnd(fuel: nat, st: State, ss: seq<Ast.Statement>)
    requires st.frames != [] && !Top(st).stop
    ensures ExecBody(fuel, st, ss).Ok? <==> ExecSeq(fuel, st, ss).Ok?
    ensures ExecBody(fuel, st, ss).Ok? ==> ExecBody(fuel, st, ss).value == Evaluated(Null, ExecSeq(fuel, st, ss).value)
    ensures ExecBody(fuel, st, ss).Err? ==> ExecBody(fuel, st, ss).error == ExecSeq(fuel, st, ss).error
    decreases |ss|
  {
    if ss != [] {
      if Exec(fuel, st, ss[0]).Ok? {
        var next := Exec(fuel, st, ss[0]).value;
        assert !Top(next).stop;
        BodyRunsToEnd(fuel, next, ss[1..]);
      }
    }
  }

  /** A call evaluates its callee, then its arguments, then dispatches. */
  lemma EvalCall(fuel: nat, st: State, callee: Ast.Expression, args: seq<Ast.Expression>)
    requires Eval(fuel, st, callee).Ok?
    requires EvalArgs(fuel, Eval(fuel, st, callee).value.st, args).Ok?
    ensures Eval(fuel, st, Ast.Call(callee, args)) ==
      Invoke(fuel, Eval(fuel, st, callee).value.v, EvalArgs(fuel, Eval(fuel, st, callee).value.st, args).value)
  {
  }

  /** The dispatch to a user function refuses a wrong argument count, and then a call
      with no fuel left. */
  lemma InvokeRefused(fuel: nat, f: Value, xs: EvaluatedAll)
    requires f.Fn? && f.name in xs.st.functions && xs.st.functions[f.name].User?
    ensures var fn := xs.st.functions[f.name];
      var r := Invoke(fuel, f, xs);
      && (|xs.vs| != |fn.params| ==> r == Err(ArityMismatch(|fn.params|, |xs.vs|)))
      && (|xs.vs| == |fn.params| && fuel == 0 ==> r == Err(OutOfFuel))
  {
  }

  /** A dispatch to a user function that gets through succeeds exactly when the body does
      as a statement list in a Function frame holding the parameters, and returns Null. */
  lemma InvokeRuns(fuel: nat, f: Value, xs: EvaluatedAll)
    requires f.Fn? && f.name in xs.st.functions && xs.st.functions[f.name].User?
    requires |xs.vs| == |xs.st.functions[f.name].params| && fuel > 0
    ensures var fn := xs.st.functions[f.name];
      var r := Invoke(fuel, f, xs);
      var frame := Environment(Function, Functions.Bind(fn.params, xs.vs), map[], false, Null);
      && (r.Ok? <==> ExecSeq(fuel - 1, xs.st.(frames := xs.st.frames + [frame]), fn.body).Ok?)
      && (r.Ok? ==> r.value.v == Null)
  {
    var fn := xs.st.functions[f.name];
    var frame := Environment(Function, Functions.Bind(fn.params, xs.vs), map[], false, Null);
    BodyRunsToEnd(fuel - 1, xs.st.(frames := xs.st.frames + [frame]), fn.body);
  }

  /**
   * A call of a user function: a wrong argument count is fatal; otherwise the body runs
   * in a Function frame holding exactly the parameters, and the call returns Null with
   * the stack, the global frame and the table as before.
   */
  lemma UserCall(fuel: nat, st: State, callee: Ast.Expression, args: seq<Ast.Expression>)
    requires Eval(fuel, st, callee).Ok? && Eval(fuel, st, callee).value.v.Fn?
    requires var f := Eval(fuel, st, callee).value;
      f.v.name in st.functions && st.functions[f.v.name].User? && EvalArgs(fuel, f.st, args).Ok?
    ensures var f := Eval(fuel, st, callee).value;
      var params := st.functions[f.v.name].params;
      var xs := EvalArgs(fuel, f.st, args).value;
      var r := Eval(fuel, st, Ast.Call(callee, args));
      && (|xs.vs| != |params| ==> r == Err(ArityMismatch(|params|, |xs.vs|)))
      && (|xs.vs| == |params| && fuel == 0 ==> r == Err(OutOfFuel))
      && (r.Ok? ==> r.value.v == Null && OnlyOutput(st, r.value.st))
      && (|xs.vs| == |params| && fuel > 0 ==>
            var frame := Environment(Function, Functions.Bind(params, xs.vs), map[], false, Null);
            (r.Ok? <==> ExecSeq(fuel - 1, xs.st.(frames := xs.st.frames + [frame]), st.functions[f.v.name].body).Ok?))
  {
    var f := Eval(fuel, st, callee).value;
    var xs := EvalArgs(fuel, f.st, args).value;
    EvalCall(fuel, st, callee, args);
    assert xs.st.functions == st.functions;
    InvokeRefused(fuel, f.v, xs);
    if |xs.vs| == |st.functions[f.v.name].params| && fuel > 0 {
      InvokeRuns(fuel, f.v, xs);
    }
  }

  // ---- the program ----

  /** The state the constructor sets up: an empty Generic global frame, no stack, the
      built-in table and no output. */
  const Initial := State(NewFrame(Generic), [], Functions.Builtins, "")

  /** interpret: the top-level statements in order, from the initial state. */
  function Interpret(program: seq<Ast.Statement>, fuel: nat): (r: Result<State, RuntimeError>)
    ensures r.Ok? ==> r.value.frames == [] && r.value.functions == Functions.Builtins
    ensures r.Ok? ==> r.value.global.kind == Generic
  {
    ExecSeq(fuel, Initial, program)
  }

  /** A program runs its statements in order: the second part starts where the first
      part left the interpreter. */
  lemma InterpretAppend(a: seq<Ast.Statement>, b: seq<Ast.Statement>, fuel: nat)
    ensures Interpret(a + b, fuel) ==
      if Interpret(a, fuel).Ok? then ExecSeq(fuel, Interpret(a, fuel).value, b) else Interpret(a, fuel)
  {
    ExecSeqAppend(fuel, Initial, a, b);
  }
}
