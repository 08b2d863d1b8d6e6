/** What evaluating an expression means: the operations in the order in which a stack
    machine performs them, and nothing else. */
module ExpressionMeaning {
  import opened Text
  import opened Expression

  // ------------------------------------------------------------- a stack machine

  datatype Instruction =
    | PushNumber(literal: string)
    | PushRef(message: string, field: string)
    | Negation
    | Operate(op: Op)

  /** Operands first, the left one before the right one; a plus sign does nothing. */
  function Postfix(e: Expr): seq<Instruction> {
    match e
    case Num(literal) => [PushNumber(literal)]
    case Ref(message, field) => [PushRef(message, field)]
    case Unary(neg, arg) => Postfix(arg) + (if neg then [Negation] else [])
    case Binary(op, left, right) => Postfix(left) + Postfix(right) + [Operate(op)]
  }

  /** The stack after one instruction, its top at the end; None when it runs empty. */
  function Execute<V>(stack: seq<V>, i: Instruction, number: string -> V, resolve: (string, string) -> V,
                      negate: V -> V, apply: (Op, V, V) -> V): Option<seq<V>> {
    var n := |stack|;
    match i
    case PushNumber(literal) => Some(stack + [number(literal)])
    case PushRef(message, field) => Some(stack + [resolve(message, field)])
    case Negation => if n < 1 then None else Some(stack[..n - 1] + [negate(stack[n - 1])])
    case Operate(op) => if n < 2 then None else Some(stack[..n - 2] + [apply(op, stack[n - 2], stack[n - 1])])
  }

  function RunAll<V>(stack: seq<V>, code: seq<Instruction>, number: string -> V, resolve: (string, string) -> V,
                     negate: V -> V, apply: (Op, V, V) -> V): Option<seq<V>>
    decreases |code|
  {
    if code == [] then Some(stack)
    else
      var next := Execute(stack, code[0], number, resolve, negate, apply);
      if next.None? then None else RunAll(next.value, code[1..], number, resolve, negate, apply)
  }

  lemma {:induction false} RunOn<V>(stack: seq<V>, a: seq<Instruction>, b: seq<Instruction>, number: string -> V,
                   resolve: (string, string) -> V, negate: V -> V, apply: (Op, V, V) -> V)
    ensures var mid := RunAll(stack, a, number, resolve, negate, apply);
            RunAll(stack, a + b, number, resolve, negate, apply)
            == if mid.None? then None else RunAll(mid.value, b, number, resolve, negate, apply)
    decreases |a|
  {
    if a == [] {
      assert a + b == b;
    } else {
      assert (a + b)[1..] == a[1..] + b;
      var next := Execute(stack, a[0], number, resolve, negate, apply);
      if next.Some? { RunOn(next.value, a[1..], b, number, resolve, negate, apply); }
    }
  }

  lemma RunOne<V>(stack: seq<V>, i: Instruction, number: string -> V, resolve: (string, string) -> V,
                  negate: V -> V, apply: (Op, V, V) -> V)
    ensures RunAll(stack, [i], number, resolve, negate, apply) == Execute(stack, i, number, resolve, negate, apply)
  {
  }

  /** Evaluation leaves on the stack what the machine does, over any kind of number. */
  lemma {:induction false} MachineAgrees<V>(e: Expr, stack: seq<V>, number: string -> V, resolve: (string, string) -> V,
                          negate: V -> V, apply: (Op, V, V) -> V)
    ensures RunAll(stack, Postfix(e), number, resolve, negate, apply)
            == Some(stack + [Evaluate(e, number, resolve, negate, apply)])
    decreases e
  {
    match e
    case Num(literal) => RunOne(stack, PushNumber(literal), number, resolve, negate, apply);
    case Ref(message, field) => RunOne(stack, PushRef(message, field), number, resolve, negate, apply);
    case Unary(neg, arg) =>
      var v := Evaluate(arg, number, resolve, negate, apply);
      MachineAgrees(arg, stack, number, resolve, negate, apply);
      RunOn(stack, Postfix(arg), if neg then [Negation] else [], number, resolve, negate, apply);
      RunOne(stack + [v], Negation, number, resolve, negate, apply);
    case Binary(op, left, right) =>
      var x := Evaluate(left, number, resolve, negate, apply);
      var y := Evaluate(right, number, resolve, negate, apply);
      MachineAgrees(left, stack, number, resolve, negate, apply);
      MachineAgrees(right, stack + [x], number, resolve, negate, apply);
      RunOn(stack, Postfix(left), Postfix(right), number, resolve, negate, apply);
      RunOn(stack, Postfix(left) + Postfix(right), [Operate(op)], number, resolve, negate, apply);
      RunOne(stack + [x] + [y], Operate(op), number, resolve, negate, apply);
      assert (stack + [x] + [y])[..|stack|] == stack;
  }

  // ------------------------------------------------------------- the term algebra

  predicate HasPlus(e: Expr) {
    match e
    case Unary(neg, arg) => !neg || HasPlus(arg)
    case Binary(_, left, right) => HasPlus(left) || HasPlus(right)
    case _ => false
  }

  /** Evaluated into expressions, an expression without plus signs is itself. */
  lemma {:induction false} EvaluateIsTerm(e: Expr)
    requires !HasPlus(e)
    ensures Evaluate(e, literal => Num(literal), (message, field) => Ref(message, field), x => Unary(true, x),
                     (op, x, y) => Binary(op, x, y)) == e
  {
    match e
    case Unary(_, arg) => EvaluateIsTerm(arg);
    case Binary(_, left, right) =>
      EvaluateIsTerm(left);
      EvaluateIsTerm(right);
    case _ =>
  }
}
