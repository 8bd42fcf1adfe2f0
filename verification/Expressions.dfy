/** Integer expressions: what they mean, how they are written as lambda terms, and
    the proof that the machine computes their value. */
module Expressions {
  import opened LambdaText
  import opened Options
  import opened Zam
  import opened Krivine
  import opened MachineRuns

  datatype Operator = Add | Sub | Mult | Eq | Leq

  datatype Expr =
    | Num(lit: string)
    | Bin(op: Operator, left: Expr, right: Expr)
    | Cond(test: Expr, yes: Expr, no: Expr)
    | Any(term: Term)  // a term without a value, such as an endless computation

  function OperatorName(op: Operator): string {
    match op
    case Add => "add"
    case Sub => "sub"
    case Mult => "mult"
    case Eq => "eq"
    case Leq => "leq"
  }

  /** The source term of an expression. */
  function Encode(e: Expr): Term {
    match e
    case Num(lit) => Var(lit)
    case Bin(op, l, r) => App(App(Var(OperatorName(op)), Encode(l)), Encode(r))
    case Cond(c, y, n) => App(App(App(Var("ifelse"), Encode(c)), Encode(y)), Encode(n))
    case Any(t) => t
  }

  function Operate(op: Operator, l: int, r: int): int {
    match op
    case Add => ToInt32(l + r)
    case Sub => ToInt32(l - r)
    case Mult => ToInt32(l * r)
    case Eq => if l == r then 1 else 0
    case Leq => if l <= r then 1 else 0
  }

  /** The value of an expression in 32-bit arithmetic; the branch not chosen plays no part. */
  function Eval(e: Expr): Option<int> {
    match e
    case Num(lit) =>
      (match Literal(lit)
       case Some(IntV(i)) => Some(i)
       case _ => None)
    case Bin(op, l, r) =>
      (match (Eval(l), Eval(r))
       case (Some(x), Some(y)) => Some(Operate(op, x, y))
       case _ => None)
    case Cond(c, y, n) =>
      (match Eval(c)
       case Some(i) => if i != 0 then Eval(y) else Eval(n)
       case None => None)
    case Any(_) => None
  }

  /** The environment leaves the predefined names alone. */
  predicate Unshadowed(env: Env<Code>) {
    Lookup(env, "ifelse").None? && forall op :: Lookup(env, OperatorName(op)).None?
  }

  function BuiltinOf(op: Operator): Builtin {
    match op
    case Add => OpAdd
    case Sub => OpSub
    case Mult => OpMult
    case Eq => OpCmpEq
    case Leq => OpCmpLeq
  }

  /** The arithmetic operators leave a pending TAILAPPLY behind, the comparisons do not. */
  function Trailer(op: Operator): Code {
    if op == Eq || op == Leq then End else TAIL
  }

  lemma OperatorProper(op: Operator)
    ensures Literal(OperatorName(op)).None? && Proper(Var(OperatorName(op)))
    ensures Literal("ifelse").None? && Proper(Var("ifelse"))
  {
    hide Balanced;
    var v := OperatorName(op);
    BalancedParenFree(v);
    BalancedParenFree("ifelse");
    assert op == Leq ==> v[2] == 'q';
    assert op != Leq ==> v[0] != 'l';
    assert "ifelse"[0] == 'i';
  }

  lemma OperatorMeaning(op: Operator, env: Env<Code>)
    requires Unshadowed(env)
    ensures Meaning(env, OperatorName(op)) == Some(Clos(BinaryOp(BuiltinOf(op), Trailer(op)), Empty))
    ensures Meaning(env, "ifelse") == Some(Clos(IFELSE, Empty))
  {
    assert Lookup(env, OperatorName(op)).None?;
  }

  lemma LocalNames()
    ensures Literal("x").None? && Literal("y").None? && Literal("op").None?
    ensures Proper(Var("x")) && Proper(Var("y")) && Proper(Var("op"))
    ensures Proper(BINARY) && Proper(UNARY)
  {
    assert Proper(PICK);
    assert Proper(Lam("y", PICK));
  }

  function OpCode(b: Builtin): Clos<Code> {
    Clos(Then(Op(b), End), Empty)
  }

  /** The environment in which the body of a predefined operator runs. */
  function OperandEnv(b: Builtin, l: Clos<Code>, r: Clos<Code>): Env<Code> {
    Bind("y", r, Bind("x", l, Bind("op", OpCode(b), Empty)))
  }

  const BINARY_SOURCE := "@op(@x(@y x y op))"

  /** Entering a predefined operator pushes its builtin in front of the operands. */
  lemma EnterBinary(b: Builtin, rest: Code, k: Code, args: seq<Clos<Code>>, res: seq<Value>)
    requires args != []
    ensures Reaches(At(Append(BinaryOp(b, rest), k), Empty, args, res),
                    At(Then(ResolveName(BINARY_SOURCE), Append(rest, k)), Empty, [OpCode(b)] + args, res))
  {
    hide GLOBALS, Resolve, Apply;
    var m := At(Append(BinaryOp(b, rest), k), Empty, args, res);
    assert Append(Then(ResolveName(BINARY_SOURCE), rest), k) == Then(ResolveName(BINARY_SOURCE), Append(rest, k));
    assert m.prog == Then(Closure(Then(Op(b), End)), Then(ResolveName(BINARY_SOURCE), Append(rest, k)));
    ReachesStep(m);
  }

  /** The operator's abstractions take the builtin and both operands. */
  lemma GrabOperands(b: Builtin, l: Clos<Code>, r: Clos<Code>, k: Code, args: seq<Clos<Code>>, res: seq<Value>)
    ensures Reaches(At(Then(ResolveName(BINARY_SOURCE), k), Empty, [OpCode(b), l, r] + args, res),
                    At(Then(ResolveName(Text(PICK)), k), OperandEnv(b, l, r), args, res))
  {
    hide Text, ParseFrom, GLOBALS, Reaches, Run, Means, Proper;
    var a0, a1, a2 := [OpCode(b), l, r] + args, [l, r] + args, [r] + args;
    assert a0[1..] == a1 && a1[1..] == a2 && a2[1..] == args;
    var e1 := Bind("op", OpCode(b), Empty);
    var e2 := Bind("x", l, e1);
    BinaryMeans();
    RunLam(BINARY_SOURCE, "op", BINARY.body, k, Empty, a0, res);
    RunLam(Text(BINARY.body), "x", BINARY.body.body, k, e1, a1, res);
    RunLam(Text(BINARY.body.body), "y", PICK, k, e2, a2, res);
    var m0 := At(Then(ResolveName(BINARY_SOURCE), k), Empty, a0, res);
    var m1 := At(Then(ResolveName(Text(BINARY.body)), k), e1, a1, res);
    var m2 := At(Then(ResolveName(Text(BINARY.body.body)), k), e2, a2, res);
    ReachesTrans(m0, m1, m2);
    ReachesTrans(m0, m2, At(Then(ResolveName(Text(PICK)), k), OperandEnv(b, l, r), args, res));
  }

  lemma BinaryMeans()
    ensures Means(BINARY_SOURCE, BINARY) && Means(Text(BINARY.body), BINARY.body)
    ensures Means(Text(BINARY.body.body), BINARY.body.body) && Means(Text(PICK), PICK)
  {
    hide Text, ParseFrom, Denotes;
    BinaryText();
    LocalNames();
    assert BINARY_SOURCE[0] == '@';
    TextMeans(BINARY.body);
    TextMeans(BINARY.body.body);
    TextMeans(PICK);
  }

  /** Calling a predefined operator brings its body to run with both operands bound. */
  lemma CallBinary(src: string, op: Operator, l: Term, r: Term, k: Code, env: Env<Code>,
                   args: seq<Clos<Code>>, res: seq<Value>)
    requires Means(src, App(App(Var(OperatorName(op)), l), r)) && Proper(l) && Proper(r)
    requires args != [] && Unshadowed(env)
    ensures var b, k1 := BuiltinOf(op), Append(Trailer(op), k);
            var c1, c2 := Clos(Source(Text(l)), env), Clos(Source(Text(r)), env);
            Reaches(At(Then(ResolveName(src), k), env, args, res),
                    At(Then(ResolveName(Text(PICK)), k1), OperandEnv(b, c1, c2), args, res))
  {
    hide Text, ParseFrom, GLOBALS, Reaches, Run, Means, Append, OperatorName, Literal, Proper, Unshadowed, SoundSource;
    var f := Var(OperatorName(op));
    var b, k1 := BuiltinOf(op), Append(Trailer(op), k);
    var c1, c2 := Clos(Source(Text(l)), env), Clos(Source(Text(r)), env);
    OperatorProper(op);
    OperatorMeaning(op, env);
    TextMeans(App(f, l));
    TextMeans(f);
    var m0 := At(Then(ResolveName(src), k), env, args, res);
    var m1 := At(Then(ResolveName(Text(App(f, l))), k), env, [c2] + args, res);
    var m2 := At(Then(ResolveName(Text(f)), k), env, [c1] + ([c2] + args), res);
    var m3 := At(Append(BinaryOp(b, Trailer(op)), k), Empty, [c1, c2] + args, res);
    assert [c1] + ([c2] + args) == [c1, c2] + args;
    RunApp(src, App(f, l), r, k, env, args, res);
    RunApp(Text(App(f, l)), f, l, k, env, [c2] + args, res);
    RunVar(Text(f), OperatorName(op), Clos(BinaryOp(b, Trailer(op)), Empty), k, env, [c1, c2] + args, res);
    EnterBinary(b, Trailer(op), k, [c1, c2] + args, res);
    assert [OpCode(b)] + ([c1, c2] + args) == [OpCode(b), c1, c2] + args;
    GrabOperands(b, c1, c2, k1, args, res);
    ReachesTrans(m0, m1, m2);
    ReachesTrans(m0, m2, m3);
    var m4 := At(Then(ResolveName(BINARY_SOURCE), k1), Empty, [OpCode(b), c1, c2] + args, res);
    ReachesTrans(m0, m3, m4);
    ReachesTrans(m0, m4, At(Then(ResolveName(Text(PICK)), k1), OperandEnv(b, c1, c2), args, res));
  }

  /** The pending computations while the operands of a body are evaluated. */
  function Waiting(v: string, b: Builtin, l: Clos<Code>, r: Clos<Code>): Clos<Code> {
    Clos(Source(Text(Var(v))), OperandEnv(b, l, r))
  }

  lemma OperandLookup(b: Builtin, l: Clos<Code>, r: Clos<Code>)
    ensures Lookup(OperandEnv(b, l, r), "y") == Some(r) && Lookup(OperandEnv(b, l, r), "op") == Some(OpCode(b))
  {
    assert Lookup(Bind("x", l, Bind("op", OpCode(b), Empty)), "op") == Some(OpCode(b));
  }

  /** The body pushes its second operand and the builtin, then runs its first operand. */
  lemma FirstOperand(b: Builtin, l: Clos<Code>, r: Clos<Code>, k: Code, args: seq<Clos<Code>>, res: seq<Value>)
    requires args != []
    ensures Reaches(At(Then(ResolveName(Text(PICK)), k), OperandEnv(b, l, r), args, res),
                    At(Append(l.code, k), l.env, [Waiting("y", b, l, r), Waiting("op", b, l, r)] + args, res))
  {
    hide Text, ParseFrom, GLOBALS, Reaches, Run, Means, Append, Literal;
    var e := OperandEnv(b, l, r);
    var a1 := [Waiting("op", b, l, r)] + args;
    var a2 := [Waiting("y", b, l, r)] + a1;
    assert a2 == [Waiting("y", b, l, r), Waiting("op", b, l, r)] + args;
    LocalNames();
    BinaryMeans();
    var t := App(Var("x"), Var("y"));
    TextMeans(t);
    TextMeans(Var("x"));
    RunApp(Text(PICK), t, Var("op"), k, e, args, res);
    RunApp(Text(t), Var("x"), Var("y"), k, e, a1, res);
    assert Lookup(e, "x") == Some(l);
    RunVar(Text(Var("x")), "x", l, k, e, a2, res);
    var m0 := At(Then(ResolveName(Text(PICK)), k), e, args, res);
    var m1 := At(Then(ResolveName(Text(t)), k), e, a1, res);
    var m2 := At(Then(ResolveName(Text(Var("x"))), k), e, a2, res);
    ReachesTrans(m0, m1, m2);
    ReachesTrans(m0, m2, At(Append(l.code, k), l.env, a2, res));
  }

  /** When the first operand is done the machine runs the next pending one. */
  lemma NextOperand(v: string, b: Builtin, l: Clos<Code>, r: Clos<Code>, c: Clos<Code>, k: Code, env: Env<Code>,
                    args: seq<Clos<Code>>, res: seq<Value>)
    requires v == "x" || v == "y" || v == "op"
    requires Lookup(OperandEnv(b, l, r), v) == Some(c)
    ensures Reaches(At(Then(TailApply, k), env, [Waiting(v, b, l, r)] + args, res), At(Append(c.code, k), c.env, args, res))
  {
    hide Text, ParseFrom, GLOBALS, Reaches, Run, Means, Literal;
    LocalNames();
    TextMeans(Var(v));
    var w := Waiting(v, b, l, r);
    RunTail(k, env, w, args, res);
    assert Append(w.code, k) == Then(ResolveName(Text(Var(v))), k);
    RunVar(Text(Var(v)), v, c, k, w.env, args, res);
    ReachesTrans(At(Then(TailApply, k), env, [w] + args, res), At(Append(w.code, k), w.env, args, res),
                 At(Append(c.code, k), c.env, args, res));
  }

  /** The builtin combines the two results in source order and leaves a pending TAILAPPLY. */
  lemma RunBuiltin(op: Operator, x: int, y: int, k: Code, args: seq<Clos<Code>>, res: seq<Value>)
    ensures Reaches(At(Append(OpCode(BuiltinOf(op)).code, Append(Trailer(op), k)), Empty, args, [IntV(y), IntV(x)] + res),
                    At(Then(TailApply, k), Empty, args, [IntV(Operate(op, x, y))] + res))
  {
    hide GLOBALS, Reaches, Run, ParseFrom;
    var m := At(Append(OpCode(BuiltinOf(op)).code, Append(Trailer(op), k)), Empty, args, [IntV(y), IntV(x)] + res);
    assert ([IntV(y), IntV(x)] + res)[2..] == res;
    ReachesStep(m);
    if op == Eq || op == Leq {
      var bit := if Operate(op, x, y) == 1 then "1" else "0";
      assert Step(m) == At(Then(ResolveName(bit), k), Empty, args, res);
      BitText(bit);
      BitValue();
      RunLiteral(bit, bit, k, Empty, args, res);
      ReachesTrans(m, Step(m), At(Then(TailApply, k), Empty, args, [IntV(Operate(op, x, y))] + res));
    } else {
      assert Append(TAIL, k) == Then(TailApply, k);
    }
  }

  lemma BitValue()
    ensures Literal("0") == Some(IntV(0)) && Literal("1") == Some(IntV(1))
    ensures !("let" <= "0") && !("let" <= "1")
  {
    assert "0"[..0] == "" && "1"[..0] == "";
    assert DigitsValue("0", 8) == Some(0) && DigitsValue("1", 10) == Some(1);
  }

  // ----- the conditional -----

  const UNARY_SOURCE := "@op(@x x op)"

  function TestEnv(c: Clos<Code>): Env<Code> {
    Bind("x", c, Bind("op", OpCode(OpIfElse), Empty))
  }

  function WaitingTest(c: Clos<Code>): Clos<Code> {
    Clos(Source(Text(Var("op"))), TestEnv(c))
  }

  lemma UnaryMeans()
    ensures Means(UNARY_SOURCE, UNARY) && Means(Text(UNARY.body), UNARY.body)
    ensures Means(Text(UNARY.body.body), UNARY.body.body)
    ensures Means(Text(Var("x")), Var("x")) && Means(Text(Var("op")), Var("op"))
  {
    hide Text, ParseFrom, Denotes;
    UnaryText();
    LocalNames();
    assert UNARY_SOURCE[0] == '@';
    TextMeans(UNARY.body);
    TextMeans(UNARY.body.body);
    TextMeans(Var("x"));
    TextMeans(Var("op"));
  }

  lemma EnterIfElse(k: Code, args: seq<Clos<Code>>, res: seq<Value>)
    requires args != []
    ensures Reaches(At(Append(IFELSE, k), Empty, args, res),
                    At(Then(ResolveName(UNARY_SOURCE), Then(TailApply, k)), Empty, [OpCode(OpIfElse)] + args, res))
  {
    hide GLOBALS, Resolve, Apply;
    var m := At(Append(IFELSE, k), Empty, args, res);
    assert Append(TAIL, k) == Then(TailApply, k);
    assert Append(Then(ResolveName(UNARY_SOURCE), TAIL), k) == Then(ResolveName(UNARY_SOURCE), Then(TailApply, k));
    assert m.prog == Then(Closure(Then(Op(OpIfElse), End)), Then(ResolveName(UNARY_SOURCE), Then(TailApply, k)));
    ReachesStep(m);
  }

  /** The predefined conditional runs its test first. */
  lemma GrabTest(c: Clos<Code>, k: Code, args: seq<Clos<Code>>, res: seq<Value>)
    requires args != []
    ensures Reaches(At(Then(ResolveName(UNARY_SOURCE), k), Empty, [OpCode(OpIfElse), c] + args, res),
                    At(Append(c.code, k), c.env, [WaitingTest(c)] + args, res))
  {
    hide Text, ParseFrom, GLOBALS, Reaches, Run, Means, Append, Literal;
    UnaryMeans();
    LocalNames();
    var a0, a1 := [OpCode(OpIfElse), c] + args, [c] + args;
    assert a0[1..] == a1 && a1[1..] == args;
    var e1, e2 := Bind("op", OpCode(OpIfElse), Empty), TestEnv(c);
    RunLam(UNARY_SOURCE, "op", UNARY.body, k, Empty, a0, res);
    RunLam(Text(UNARY.body), "x", UNARY.body.body, k, e1, a1, res);
    RunApp(Text(UNARY.body.body), Var("x"), Var("op"), k, e2, args, res);
    assert Lookup(e2, "x") == Some(c);
    RunVar(Text(Var("x")), "x", c, k, e2, [WaitingTest(c)] + args, res);
    var m0 := At(Then(ResolveName(UNARY_SOURCE), k), Empty, a0, res);
    var m1 := At(Then(ResolveName(Text(UNARY.body)), k), e1, a1, res);
    var m2 := At(Then(ResolveName(Text(UNARY.body.body)), k), e2, args, res);
    var m3 := At(Then(ResolveName(Text(Var("x"))), k), e2, [WaitingTest(c)] + args, res);
    ReachesTrans(m0, m1, m2);
    ReachesTrans(m0, m2, m3);
    ReachesTrans(m0, m3, At(Append(c.code, k), c.env, [WaitingTest(c)] + args, res));
  }

  /** Both branches stay closed on the argument stack. */
  lemma PushBranches(src: string, c: Term, y: Term, n: Term, k: Code, env: Env<Code>, args: seq<Clos<Code>>, res: seq<Value>)
    requires Means(src, App(App(App(Var("ifelse"), c), y), n)) && Proper(c) && Proper(y) && args != []
    ensures Reaches(At(Then(ResolveName(src), k), env, args, res),
                    At(Then(ResolveName(Text(App(Var("ifelse"), c))), k), env,
                       [Clos(Source(Text(y)), env), Clos(Source(Text(n)), env)] + args, res))
  {
    hide Text, ParseFrom, GLOBALS, Reaches, Means, Append, Literal, Run;
    var f1 := App(Var("ifelse"), c);
    var f2 := App(f1, y);
    OperatorProper(Add);
    TextMeans(f2);
    var cy, cn := Clos(Source(Text(y)), env), Clos(Source(Text(n)), env);
    assert [cy] + ([cn] + args) == [cy, cn] + args;
    RunApp(src, f2, n, k, env, args, res);
    RunApp(Text(f2), f1, y, k, env, [cn] + args, res);
    ReachesTrans(At(Then(ResolveName(src), k), env, args, res),
                 At(Then(ResolveName(Text(f2)), k), env, [cn] + args, res),
                 At(Then(ResolveName(Text(f1)), k), env, [cy, cn] + args, res));
  }

  /** The predefined conditional starts the test. */
  lemma StartTest(c: Term, k: Code, env: Env<Code>, args: seq<Clos<Code>>, res: seq<Value>)
    requires Proper(c) && args != [] && Unshadowed(env)
    ensures var cc := Clos(Source(Text(c)), env);
            Reaches(At(Then(ResolveName(Text(App(Var("ifelse"), c))), k), env, args, res),
                    At(Append(cc.code, Then(TailApply, k)), env, [WaitingTest(cc)] + args, res))
  {
    hide Text, ParseFrom, GLOBALS, Reaches, Means, Append, Literal, Run;
    var f := Var("ifelse");
    var f1 := App(f, c);
    var cc := Clos(Source(Text(c)), env);
    OperatorProper(Add);
    OperatorMeaning(Add, env);
    TextMeans(f1);
    TextMeans(f);
    var a1 := [cc] + args;
    RunApp(Text(f1), f, c, k, env, args, res);
    RunVar(Text(f), "ifelse", Clos(IFELSE, Empty), k, env, a1, res);
    EnterIfElse(k, a1, res);
    assert [OpCode(OpIfElse)] + a1 == [OpCode(OpIfElse), cc] + args;
    GrabTest(cc, Then(TailApply, k), args, res);
    var m0 := At(Then(ResolveName(Text(f1)), k), env, args, res);
    var m1 := At(Then(ResolveName(Text(f)), k), env, a1, res);
    var m2 := At(Append(IFELSE, k), Empty, a1, res);
    var m3 := At(Then(ResolveName(UNARY_SOURCE), Then(TailApply, k)), Empty, [OpCode(OpIfElse)] + a1, res);
    ReachesTrans(m0, m1, m2);
    ReachesTrans(m0, m2, m3);
    ReachesTrans(m0, m3, At(Append(cc.code, Then(TailApply, k)), env, [WaitingTest(cc)] + args, res));
  }

  lemma CallIfElse(src: string, c: Term, y: Term, n: Term, k: Code, env: Env<Code>, args: seq<Clos<Code>>, res: seq<Value>)
    requires Means(src, App(App(App(Var("ifelse"), c), y), n)) && Proper(c) && Proper(y) && Proper(n)
    requires args != [] && Unshadowed(env)
    ensures var cc := Clos(Source(Text(c)), env);
            Reaches(At(Then(ResolveName(src), k), env, args, res),
                    At(Append(cc.code, Then(TailApply, k)), env,
                       [WaitingTest(cc), Clos(Source(Text(y)), env), Clos(Source(Text(n)), env)] + args, res))
  {
    hide Text, ParseFrom, GLOBALS, Reaches, Means, Append, Run;
    var cc, cy, cn := Clos(Source(Text(c)), env), Clos(Source(Text(y)), env), Clos(Source(Text(n)), env);
    var a := [cy, cn] + args;
    PushBranches(src, c, y, n, k, env, args, res);
    StartTest(c, k, env, a, res);
    assert [WaitingTest(cc)] + a == [WaitingTest(cc), cy, cn] + args;
    ReachesTrans(At(Then(ResolveName(src), k), env, args, res),
                 At(Then(ResolveName(Text(App(Var("ifelse"), c))), k), env, a, res),
                 At(Append(cc.code, Then(TailApply, k)), env, [WaitingTest(cc)] + a, res));
  }

  /** With the test done, only the chosen branch runs. */
  lemma Choose(i: int, cc: Clos<Code>, cy: Clos<Code>, cn: Clos<Code>, k: Code, env: Env<Code>,
               args: seq<Clos<Code>>, res: seq<Value>)
    ensures var chosen := if i != 0 then cy else cn;
            Reaches(At(Then(TailApply, Then(TailApply, k)), env, [WaitingTest(cc), cy, cn] + args, [IntV(i)] + res),
                    At(Append(chosen.code, k), chosen.env, args, res))
  {
    hide Text, ParseFrom, GLOBALS, Reaches, Run, Means, Literal;
    var chosen := if i != 0 then cy else cn;
    var k1 := Then(TailApply, k);
    var r1 := [IntV(i)] + res;
    var a := [cy, cn] + args;
    var w := WaitingTest(cc);
    UnaryMeans();
    LocalNames();
    assert [w, cy, cn] + args == [w] + a;
    RunTail(k1, env, w, a, r1);
    assert Append(w.code, k1) == Then(ResolveName(Text(Var("op"))), k1);
    assert Lookup(w.env, "op") == Some(OpCode(OpIfElse));
    RunVar(Text(Var("op")), "op", OpCode(OpIfElse), k1, w.env, a, r1);
    var m0 := At(Then(TailApply, k1), env, [w] + a, r1);
    var m1 := At(Append(w.code, k1), w.env, a, r1);
    var m2 := At(Append(OpCode(OpIfElse).code, k1), Empty, a, r1);
    assert m2.prog == Then(Op(OpIfElse), k1);
    var m3 := At(k1, Empty, [chosen] + args, res);
    assert a[2..] == args && a[1..] == [cn] + args && r1[1..] == res;
    assert Step(m2) == m3;
    ReachesStep(m2);
    RunTail(k, Empty, chosen, args, res);
    ReachesTrans(m0, m1, m2);
    ReachesTrans(m0, m2, m3);
    ReachesTrans(m0, m3, At(Append(chosen.code, k), chosen.env, args, res));
  }

  // ----- the machine computes the value -----

  lemma SourceAppend(src: string, k: Code)
    ensures Append(Source(src), k) == Then(ResolveName(src), k)
  {
  }

  /** Main result: with any continuation, arguments and results pending, running an expression
      pushes exactly its value and goes on with TAILAPPLY and the continuation. */
  lemma {:induction false} EvalRuns(e: Expr, src: string, k: Code, env: Env<Code>, args: seq<Clos<Code>>, res: seq<Value>)
    returns (after: Env<Code>)
    requires Means(src, Encode(e)) && Proper(Encode(e)) && Eval(e).Some?
    requires args != [] && Unshadowed(env)
    ensures Reaches(At(Then(ResolveName(src), k), env, args, res),
                    At(Then(TailApply, k), after, args, [IntV(Eval(e).value)] + res))
    decreases e, 1
  {
    hide Text, ParseFrom, GLOBALS, Reaches, Run, Means, Literal, Append;
    match e
    case Num(lit) =>
      RunLiteral(src, lit, k, env, args, res);
      after := env;
    case Bin(_, _, _) =>
      after := BinRuns(e, src, k, env, args, res);
    case Cond(_, _, _) =>
      after := CondRuns(e, src, k, env, args, res);
  }

  lemma {:induction false} BinRuns(e: Expr, src: string, k: Code, env: Env<Code>, args: seq<Clos<Code>>, res: seq<Value>)
    returns (after: Env<Code>)
    requires e.Bin? && Means(src, Encode(e)) && Proper(Encode(e)) && Eval(e).Some?
    requires args != [] && Unshadowed(env)
    ensures Reaches(At(Then(ResolveName(src), k), env, args, res),
                    At(Then(TailApply, k), after, args, [IntV(Eval(e).value)] + res))
    decreases e, 0
  {
    hide Text, ParseFrom, GLOBALS, Reaches, Run, Means, Literal, Append, Unshadowed, Operate;
    var Bin(op, l, r) := e;
    var tl, tr, x, y := Encode(l), Encode(r), Eval(l).value, Eval(r).value;
    var b, k1 := BuiltinOf(op), Append(Trailer(op), k);
    var c1, c2 := Clos(Source(Text(tl)), env), Clos(Source(Text(tr)), env);
    var wy, wop := Waiting("y", b, c1, c2), Waiting("op", b, c1, c2);
    var a1, a2 := [wop] + args, [wy, wop] + args;
    assert [wy] + a1 == a2;
    var r1 := [IntV(x)] + res;
    TextMeans(tl);
    TextMeans(tr);
    SourceAppend(Text(tl), k1);
    SourceAppend(Text(tr), k1);
    CallBinary(src, op, tl, tr, k, env, args, res);
    FirstOperand(b, c1, c2, k1, args, res);
    var e1 := EvalRuns(l, Text(tl), k1, env, a2, res);
    OperandLookup(b, c1, c2);
    NextOperand("y", b, c1, c2, c2, k1, e1, a1, r1);
    var e2 := EvalRuns(r, Text(tr), k1, env, a1, r1);
    assert [IntV(y)] + r1 == [IntV(y), IntV(x)] + res;
    NextOperand("op", b, c1, c2, OpCode(b), k1, e2, args, [IntV(y), IntV(x)] + res);
    RunBuiltin(op, x, y, k, args, res);
    after := Empty;
    var m0 := At(Then(ResolveName(src), k), env, args, res);
    var m1 := At(Then(ResolveName(Text(PICK)), k1), OperandEnv(b, c1, c2), args, res);
    var m2 := At(Then(ResolveName(Text(tl)), k1), env, a2, res);
    var m3 := At(Then(TailApply, k1), e1, a2, r1);
    var m4 := At(Then(ResolveName(Text(tr)), k1), env, a1, r1);
    var m5 := At(Then(TailApply, k1), e2, a1, [IntV(y), IntV(x)] + res);
    var m6 := At(Append(OpCode(b).code, k1), Empty, args, [IntV(y), IntV(x)] + res);
    ReachesTrans(m0, m1, m2);
    ReachesTrans(m0, m2, m3);
    ReachesTrans(m0, m3, m4);
    ReachesTrans(m0, m4, m5);
    ReachesTrans(m0, m5, m6);
    ReachesTrans(m0, m6, At(Then(TailApply, k), after, args, [IntV(Eval(e).value)] + res));
  }

  lemma {:induction false} CondRuns(e: Expr, src: string, k: Code, env: Env<Code>, args: seq<Clos<Code>>, res: seq<Value>)
    returns (after: Env<Code>)
    requires e.Cond? && Means(src, Encode(e)) && Proper(Encode(e)) && Eval(e).Some?
    requires args != [] && Unshadowed(env)
    ensures Reaches(At(Then(ResolveName(src), k), env, args, res),
                    At(Then(TailApply, k), after, args, [IntV(Eval(e).value)] + res))
    decreases e, 0
  {
    hide Text, ParseFrom, GLOBALS, Reaches, Run, Means, Literal, Append, Unshadowed;
    var Cond(c, y, n) := e;
    var tc, ty, tn, i := Encode(c), Encode(y), Encode(n), Eval(c).value;
    var cc, cy, cn := Clos(Source(Text(tc)), env), Clos(Source(Text(ty)), env), Clos(Source(Text(tn)), env);
    var k1 := Then(TailApply, k);
    var a1 := [WaitingTest(cc), cy, cn] + args;
    assert Proper(App(App(Var("ifelse"), tc), ty)) && Proper(App(Var("ifelse"), tc));
    TextMeans(tc);
    TextMeans(ty);
    TextMeans(tn);
    SourceAppend(Text(tc), k1);
    SourceAppend(Text(ty), k);
    SourceAppend(Text(tn), k);
    CallIfElse(src, tc, ty, tn, k, env, args, res);
    var e1 := EvalRuns(c, Text(tc), k1, env, a1, res);
    Choose(i, cc, cy, cn, k, e1, args, res);
    var chosen := if i != 0 then y else n;
    after := EvalRuns(chosen, Text(Encode(chosen)), k, env, args, res);
    var m0 := At(Then(ResolveName(src), k), env, args, res);
    var m1 := At(Then(ResolveName(Text(tc)), k1), env, a1, res);
    var m2 := At(Then(TailApply, k1), e1, a1, [IntV(i)] + res);
    var m3 := At(Then(ResolveName(Text(Encode(chosen))), k), env, args, res);
    ReachesTrans(m0, m1, m2);
    ReachesTrans(m0, m2, m3);
    ReachesTrans(m0, m3, At(Then(TailApply, k), after, args, [IntV(Eval(e).value)] + res));
  }

  /** Main result: the program for an expression halts with the value as its only result. */
  lemma ExpressionHalts(e: Expr, src: string) returns (steps: nat)
    requires Means(src, Encode(e)) && Proper(Encode(e)) && Eval(e).Some?
    ensures var m := Run(Start(src), steps);
            m.status == Halted && m.results == [IntV(Eval(e).value)]
  {
    hide Text, ParseFrom, GLOBALS, Means, Eval;
    var halt := Clos(Then(Halt, End), Empty);
    var m0 := Start(src);
    var m1 := At(Then(ResolveName(src), End), Empty, [halt], []);
    assert Step(m0) == m1;
    ReachesStep(m0);
    var after := EvalRuns(e, src, End, Empty, [halt], []);
    var m2 := At(Then(TailApply, End), after, [halt], [IntV(Eval(e).value)]);
    assert [IntV(Eval(e).value)] + [] == [IntV(Eval(e).value)];
    ReachesTrans(m0, m1, m2);
    var m3 := At(Then(Halt, End), Empty, [], [IntV(Eval(e).value)]);
    assert Step(m2) == m3;
    RunTwo(m2);
    ReachesTrans(m0, m2, Step(m3));
    steps :| Run(m0, steps) == Step(m3);
  }
}
