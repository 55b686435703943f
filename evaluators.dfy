/** The two script evaluators. The foreign steps (loading and calling a Lua
    chunk, evaluating and calling JavaScript) are given as their observable
    outcomes; the evaluators decide how those outcomes settle the promise they
    return. A settled promise keeps its first settlement, so the first reject or
    resolve that runs decides the result. */
module Evaluators {
  import opened JsValues

  /** Milliseconds before the evaluators' own timer rejects. */
  const TimeoutMessage := "Function timed out after 5 seconds of inactivity"
  const NotAFunctionMessage := "Used snippet code is not a function"
  const InvalidTypeMessage := "User-defined function returned invalid type. Expected a Promise, string or number."
  /** What calling a value that is not a function throws. */
  const CallNotFunctionError := Obj("TypeError: executable is not a function")

  // ---------------------------------------------------------------- Lua

  /** One foreign Lua step: the arguments `qprint` received during it, in
      order, and the error it raised, if any. */
  datatype LuaStep = LuaStep(prints: seq<Value>, error: Option<Value>)

  /** Running a snippet's code: `DoString(code)`, then calling the global `qw`
      with the matched text. Both steps run, whatever the first one did. */
  datatype LuaRun = LuaRun(load: LuaStep, call: LuaStep)

  /** The text accumulated by `e += a` over the `qprint` arguments. */
  function Output(prints: seq<Value>): (r: string)
    ensures prints == [] ==> r == ""
    decreases |prints|
  {
    if prints == [] then "" else Output(prints[..|prints| - 1]) + ToJsString(prints[|prints| - 1])
  }

  /** Printing `a` and then `b` leaves the text of `a` followed by that of `b`. */
  lemma {:induction false} OutputConcat(a: seq<Value>, b: seq<Value>)
    ensures Output(a + b) == Output(a) + Output(b)
    decreases |b|
  {
    if b == [] {
      assert a + b == a;
    } else {
      var b' := b[..|b| - 1];
      assert (a + b)[..|a + b| - 1] == a + b';
      assert (a + b)[|a + b| - 1] == b[|b| - 1];
      OutputConcat(a, b');
    }
  }

  /** How a Lua evaluation settles: a load error rejects with its text, else a
      call error rejects with the error itself, else the promise resolves with
      everything printed during both steps. */
  function LuaOutcome(run: LuaRun): (r: Settlement)
    ensures !r.Pending?
    ensures r.Fulfilled? <==> run.load.error.None? && run.call.error.None?
    ensures r.Fulfilled? ==> r.value.Str?
    ensures run.load.error.Some? ==> r.Rejected? && r.reason.Str?
  {
    if run.load.error.Some? then Rejected(Str(ToJsString(run.load.error.value)))
    else if run.call.error.Some? then Rejected(run.call.error.value)
    else Fulfilled(Str(Output(run.load.prints + run.call.prints)))
  }

  /** `_evaluateLua`: the steps in the source's order, each `reject` or
      `resolve` acting only on a pending promise. */
  method EvaluateLua(run: LuaRun) returns (p: Settlement)
    ensures p == LuaOutcome(run)
    ensures run.load.error.Some? ==> p == Rejected(Str(ToJsString(run.load.error.value)))
    ensures !p.Pending?
  {
    p := Pending;
    var e := "";
    // lua.DoString(code): qprint appends its argument to e
    for i := 0 to |run.load.prints|
      invariant e == Output(run.load.prints[..i])
    {
      assert run.load.prints[..i + 1][..i] == run.load.prints[..i];
      e := e + ToJsString(run.load.prints[i]);
    }
    assert run.load.prints[..|run.load.prints|] == run.load.prints;
    if run.load.error.Some? {
      p := Reject(p, Str(ToJsString(run.load.error.value)));
    }
    // GetGlobal('qw'), Push(matchedString), Call(1, 0)
    for i := 0 to |run.call.prints|
      invariant e == Output(run.load.prints) + Output(run.call.prints[..i])
    {
      assert run.call.prints[..i + 1][..i] == run.call.prints[..i];
      e := e + ToJsString(run.call.prints[i]);
    }
    assert run.call.prints[..|run.call.prints|] == run.call.prints;
    OutputConcat(run.load.prints, run.call.prints);
    if run.call.error.Some? {
      p := Reject(p, run.call.error.value);
    }
    // r(e): `clearTimeout` runs before `resolve` on every path, so the
    // 5-second rejection is never left pending and is not modelled here
    p := Resolve(p, Str(e));
  }

  // --------------------------------------------------------- JavaScript

  /** How a returned thenable settles before the deadline, if it does. */
  datatype Settles = Fulfills(value: Value) | Rejects(reason: Value) | NeverSettles

  /** Calling the evaluated function with the matched text. */
  datatype JsCall =
    | CallThrows(error: Value)
    | CallReturns(result: Value)
    | CallReturnsThenable(settles: Settles)

  /** Evaluating the snippet's code as an expression. */
  datatype JsRun =
    | EvalThrows(error: Value)
    | EvalNotCallable
    | EvalCallable(call: JsCall)

  /** `_evaluateJavascript`: the steps in the source's order. The source does
      not return after its early rejections, so every later step still runs and
      is a no-op on the already settled promise. */
  method EvaluateJavascript(run: JsRun) returns (p: Settlement)
    ensures run.EvalThrows? ==> p == Rejected(Str(ToJsString(run.error)))
    ensures run.EvalNotCallable? ==> p == Rejected(Str(NotAFunctionMessage))
    ensures run.EvalCallable? && run.call.CallThrows? ==> p == Rejected(run.call.error)
    ensures run.EvalCallable? && run.call.CallReturns? ==>
      p == (if run.call.result.Str? || run.call.result.Num? then Fulfilled(run.call.result)
            else Rejected(Str(InvalidTypeMessage)))
    ensures run == EvalCallable(CallReturnsThenable(NeverSettles)) ==> p == Rejected(Str(TimeoutMessage))
    ensures forall v :: run == EvalCallable(CallReturnsThenable(Fulfills(v))) ==> p == Fulfilled(v)
    ensures forall v :: run == EvalCallable(CallReturnsThenable(Rejects(v))) ==> p == Rejected(v)
    ensures !p.Pending?
  {
    p := Pending;
    var timerPending := true;
    // executable = eval(code)
    var executable: Option<JsCall> := None;
    match run {
      case EvalThrows(err) => p := Reject(p, Str(ToJsString(err)));
      case EvalNotCallable =>
      case EvalCallable(call) => executable := Some(call);
    }
    if executable.None? {
      p := Reject(p, Str(NotAFunctionMessage));
    }
    // e = executable(matchedString); None while e is undefined
    var e: Option<JsCall> := None;
    if executable.None? {
      p := Reject(p, CallNotFunctionError);
    } else if executable.value.CallThrows? {
      p := Reject(p, executable.value.error);
    } else {
      e := executable;
    }
    if e.Some? && e.value.CallReturnsThenable? {
      // e.then(r).catch(reject)
      match e.value.settles {
        case Fulfills(v) => timerPending := false; p := Resolve(p, v);
        case Rejects(reason) => p := Reject(p, reason);
        case NeverSettles =>
      }
    } else if e.Some? && (e.value.result.Str? || e.value.result.Num?) {
      timerPending := false;
      p := Resolve(p, e.value.result);
    } else {
      p := Reject(p, Str(InvalidTypeMessage));
    }
    if timerPending {
      // the timer set at the start fires after 5000 milliseconds
      p := Reject(p, Str(TimeoutMessage));
    }
  }
}
