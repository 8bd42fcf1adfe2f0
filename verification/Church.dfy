/** The predefined functions that answer with Church booleans: an answer takes two arguments and goes
    on with one of them. */
module Church {
  import opened LambdaText
  import opened Options
  import opened Zam
  import opened Krivine
  import opened MachineRuns
  import opened Expressions

  const FIRST_SOURCE := "@x@y x"
  const SECOND_SOURCE := "@x@y y"

  lemma AnswersMean()
    ensures Means(FIRST_SOURCE, Lam("x", Lam("y", Var("x")))) && Means(SECOND_SOURCE, Lam("x", Lam("y", Var("y"))))
    ensures Means(Text(Lam("y", Var("x"))), Lam("y", Var("x"))) && Means(Text(Lam("y", Var("y"))), Lam("y", Var("y")))
    ensures Means(Text(Var("x")), Var("x")) && Means(Text(Var("y")), Var("y"))
  {
    hide Text, ParseFrom, Denotes;
    ChurchText("x");
    ChurchText("y");
    LocalNames();
    assert "@x@y " + "x" == FIRST_SOURCE && "@x@y " + "y" == SECOND_SOURCE;
    assert FIRST_SOURCE[0] == '@' && SECOND_SOURCE[0] == '@';
    assert Proper(Lam("y", Var("x"))) && Proper(Lam("y", Var("y")));
    TextMeans(Lam("y", Var("x")));
    TextMeans(Lam("y", Var("y")));
    TextMeans(Var("x"));
    TextMeans(Var("y"));
  }

  /** The answer for true goes on with its first argument, that for false with its second. */
  lemma AnswerPicks(first: bool, a: Clos<Code>, b: Clos<Code>, k: Code, env: Env<Code>, args: seq<Clos<Code>>, res: seq<Value>)
    ensures var src, c := if first then FIRST_SOURCE else SECOND_SOURCE, if first then a else b;
            Reaches(At(Then(ResolveName(src), k), env, [a, b] + args, res), At(Append(c.code, k), c.env, args, res))
  {
    hide Text, ParseFrom, GLOBALS, Reaches, Run, Means, Append, Literal;
    var src, c, v := if first then FIRST_SOURCE else SECOND_SOURCE, if first then a else b, if first then "x" else "y";
    AnswersMean();
    LocalNames();
    var e1 := Bind("x", a, env);
    var e2 := Bind("y", b, e1);
    var a1 := [b] + args;
    assert ([a, b] + args)[1..] == a1 && a1[1..] == args;
    RunLam(src, "x", Lam("y", Var(v)), k, env, [a, b] + args, res);
    RunLam(Text(Lam("y", Var(v))), "y", Var(v), k, e1, a1, res);
    assert Lookup(e1, "x") == Some(a);
    RunVar(Text(Var(v)), v, c, k, e2, args, res);
    var m0 := At(Then(ResolveName(src), k), env, [a, b] + args, res);
    var m1 := At(Then(ResolveName(Text(Lam("y", Var(v)))), k), e1, a1, res);
    var m2 := At(Then(ResolveName(Text(Var(v))), k), e2, args, res);
    ReachesTrans(m0, m1, m2);
    ReachesTrans(m0, m2, At(Append(c.code, k), c.env, args, res));
  }

  /** The predefined booleans are these answers, and the predefined comparisons apply their builtins. */
  lemma Predefined()
    ensures Lookup(GLOBALS, "true_church") == Some(Clos(Source(FIRST_SOURCE), Empty))
    ensures Lookup(GLOBALS, "false_church") == Some(Clos(Source(SECOND_SOURCE), Empty))
    ensures Lookup(GLOBALS, "eq_church") == Some(Clos(BinaryOp(OpCmpEqChurch, End), Empty))
    ensures Lookup(GLOBALS, "leq_church") == Some(Clos(BinaryOp(OpCmpLeqChurch, End), Empty))
  {
  }

  /** The builtin of a comparison picks among the two pending arguments. */
  lemma ComparisonPicks(equal: bool, x: int, y: int, a: Clos<Code>, b: Clos<Code>, k: Code, args: seq<Clos<Code>>, res: seq<Value>)
    ensures var op := if equal then OpCmpEqChurch else OpCmpLeqChurch;
            var c := if (if equal then x == y else x <= y) then a else b;
            Reaches(At(Append(OpCode(op).code, k), Empty, [a, b] + args, [IntV(y), IntV(x)] + res),
                    At(Append(c.code, k), c.env, args, res))
  {
    hide GLOBALS, Reaches, Run, ParseFrom;
    var op, holds := if equal then OpCmpEqChurch else OpCmpLeqChurch, if equal then x == y else x <= y;
    var src, c := if holds then FIRST_SOURCE else SECOND_SOURCE, if holds then a else b;
    var m := At(Append(OpCode(op).code, k), Empty, [a, b] + args, [IntV(y), IntV(x)] + res);
    assert ([IntV(y), IntV(x)] + res)[2..] == res;
    assert Append(Then(Op(op), End), k) == Then(Op(op), k);
    assert BinaryAnswer(op, y, x) == Answer(src);
    var r := [IntV(y), IntV(x)] + res;
    assert Operands(r) == Some((y, x));
    assert Step(m) == ApplyBinary(m, op, k);
    assert Step(m) == At(Then(ResolveName(src), k), Empty, [a, b] + args, res);
    ReachesStep(m);
    AnswerPicks(holds, a, b, k, Empty, args, res);
    ReachesTrans(m, Step(m), At(Append(c.code, k), c.env, args, res));
  }

  /** A comparison with a Church answer, called with two expressions and two more arguments, evaluates
      the expressions in their order and goes on with the argument that their values select. */
  lemma ComparisonRuns(equal: bool, l: Expr, r: Expr, env: Env<Code>, a: Clos<Code>, b: Clos<Code>, k: Code,
                       args: seq<Clos<Code>>, res: seq<Value>)
    requires Proper(Encode(l)) && Proper(Encode(r)) && Eval(l).Some? && Eval(r).Some? && Unshadowed(env)
    ensures var op := if equal then OpCmpEqChurch else OpCmpLeqChurch;
            var cl, cr := Clos(Source(Text(Encode(l))), env), Clos(Source(Text(Encode(r))), env);
            var x, y := Eval(l).value, Eval(r).value;
            var c := if (if equal then x == y else x <= y) then a else b;
            Reaches(At(Append(BinaryOp(op, End), k), Empty, [cl, cr, a, b] + args, res),
                    At(Append(c.code, k), c.env, args, res))
  {
    hide Text, ParseFrom, GLOBALS, Reaches, Run, Means, Literal, Append, Unshadowed, Eval, Encode, Proper;
    var op := if equal then OpCmpEqChurch else OpCmpLeqChurch;
    var tl, tr, x, y := Encode(l), Encode(r), Eval(l).value, Eval(r).value;
    var cl, cr := Clos(Source(Text(tl)), env), Clos(Source(Text(tr)), env);
    var c := if (if equal then x == y else x <= y) then a else b;
    var wy, wop := Waiting("y", op, cl, cr), Waiting("op", op, cl, cr);
    var a0 := [a, b] + args;
    var a1 := [wop] + a0;
    var a2 := [wy, wop] + a0;
    assert [wy] + a1 == a2 && [cl, cr] + a0 == [cl, cr, a, b] + args;
    var r1, r2 := [IntV(x)] + res, [IntV(y), IntV(x)] + res;
    assert [IntV(y)] + r1 == r2;
    assert [OpCode(op)] + ([cl, cr] + a0) == [OpCode(op), cl, cr] + a0;
    TextMeans(tl);
    TextMeans(tr);
    SourceAppend(Text(tl), k);
    SourceAppend(Text(tr), k);
    assert Append(End, k) == k by { EndAppend(k); }
    EnterBinary(op, End, k, [cl, cr] + a0, res);
    GrabOperands(op, cl, cr, k, a0, res);
    FirstOperand(op, cl, cr, k, a0, res);
    var e1 := EvalRuns(l, Text(tl), k, env, a2, res);
    OperandLookup(op, cl, cr);
    NextOperand("y", op, cl, cr, cr, k, e1, a1, r1);
    var e2 := EvalRuns(r, Text(tr), k, env, a1, r1);
    NextOperand("op", op, cl, cr, OpCode(op), k, e2, a0, r2);
    ComparisonPicks(equal, x, y, a, b, k, args, res);
    var m0 := At(Append(BinaryOp(op, End), k), Empty, [cl, cr, a, b] + args, res);
    var m1 := At(Then(ResolveName(BINARY_SOURCE), k), Empty, [OpCode(op), cl, cr] + a0, res);
    var m2 := At(Then(ResolveName(Text(PICK)), k), OperandEnv(op, cl, cr), a0, res);
    var m3 := At(Then(ResolveName(Text(tl)), k), env, a2, res);
    var m4 := At(Then(TailApply, k), e1, a2, r1);
    var m5 := At(Then(ResolveName(Text(tr)), k), env, a1, r1);
    var m6 := At(Then(TailApply, k), e2, a1, r2);
    var m7 := At(Append(OpCode(op).code, k), Empty, a0, r2);
    ReachesTrans(m0, m1, m2);
    ReachesTrans(m0, m2, m3);
    ReachesTrans(m0, m3, m4);
    ReachesTrans(m0, m4, m5);
    ReachesTrans(m0, m5, m6);
    ReachesTrans(m0, m6, m7);
    ReachesTrans(m0, m7, At(Append(c.code, k), c.env, args, res));
  }

  // ----- the conditional on Church booleans -----

  const CHOICE_SOURCE := "@expr@yes@no(expr yes no)"

  function ChoiceEnv(ce: Clos<Code>, cy: Clos<Code>, cn: Clos<Code>): Env<Code> {
    Bind("no", cn, Bind("yes", cy, Bind("expr", ce, Empty)))
  }

  lemma ChoiceNames()
    ensures Literal("expr").None? && Literal("yes").None? && Literal("no").None?
    ensures Proper(CHOICE) && Proper(App(Var("expr"), Var("yes")))
    ensures Proper(Var("expr")) && Proper(Var("yes")) && Proper(Var("no"))
    ensures Proper(Lam("yes", Lam("no", CHOICE))) && Proper(Lam("no", CHOICE))
  {
    hide Balanced;
    BalancedParenFree("expr");
    BalancedParenFree("yes");
    BalancedParenFree("no");
    assert "expr"[0] == 'e' && "yes"[0] == 'y' && "no"[0] == 'n';
  }

  lemma ChoiceMeans()
    ensures Means(CHOICE_SOURCE, Lam("expr", Lam("yes", Lam("no", CHOICE))))
  {
    hide Text, ParseFrom, Denotes;
    ChoiceText();
    assert CHOICE_SOURCE[0] == '@';
  }

  lemma ChoiceLookup(ce: Clos<Code>, cy: Clos<Code>, cn: Clos<Code>)
    ensures var e := ChoiceEnv(ce, cy, cn);
            Lookup(e, "expr") == Some(ce) && Lookup(e, "yes") == Some(cy) && Lookup(e, "no") == Some(cn)
  {
    assert Lookup(Bind("yes", cy, Bind("expr", ce, Empty)), "expr") == Some(ce);
  }

  lemma GrabChoice(ce: Clos<Code>, cy: Clos<Code>, cn: Clos<Code>, k: Code, args: seq<Clos<Code>>, res: seq<Value>)
    ensures Reaches(At(Then(ResolveName(CHOICE_SOURCE), k), Empty, [ce, cy, cn] + args, res),
                    At(Then(ResolveName(Text(CHOICE)), k), ChoiceEnv(ce, cy, cn), args, res))
  {
    hide Text, ParseFrom, GLOBALS, Reaches, Run, Means, Proper;
    var t2, t1 := Lam("no", CHOICE), Lam("yes", Lam("no", CHOICE));
    var a0, a1, a2 := [ce, cy, cn] + args, [cy, cn] + args, [cn] + args;
    assert a0[1..] == a1 && a1[1..] == a2 && a2[1..] == args;
    var e1 := Bind("expr", ce, Empty);
    var e2 := Bind("yes", cy, e1);
    ChoiceMeans();
    ChoiceNames();
    TextMeans(t1);
    TextMeans(t2);
    RunLam(CHOICE_SOURCE, "expr", t1, k, Empty, a0, res);
    RunLam(Text(t1), "yes", t2, k, e1, a1, res);
    RunLam(Text(t2), "no", CHOICE, k, e2, a2, res);
    var m0 := At(Then(ResolveName(CHOICE_SOURCE), k), Empty, a0, res);
    var m1 := At(Then(ResolveName(Text(t1)), k), e1, a1, res);
    var m2 := At(Then(ResolveName(Text(t2)), k), e2, a2, res);
    ReachesTrans(m0, m1, m2);
    ReachesTrans(m0, m2, At(Then(ResolveName(Text(CHOICE)), k), ChoiceEnv(ce, cy, cn), args, res));
  }

  lemma EnterChoice(ce: Clos<Code>, cy: Clos<Code>, cn: Clos<Code>, k: Code, args: seq<Clos<Code>>, res: seq<Value>)
    requires args != []
    ensures var e := ChoiceEnv(ce, cy, cn);
            Reaches(At(Then(ResolveName(Text(CHOICE)), k), e, args, res),
                    At(Append(ce.code, k), ce.env,
                       [Clos(Source(Text(Var("yes"))), e), Clos(Source(Text(Var("no"))), e)] + args, res))
  {
    hide Text, ParseFrom, GLOBALS, Reaches, Run, Means, Append, Literal, Proper;
    var e, t := ChoiceEnv(ce, cy, cn), App(Var("expr"), Var("yes"));
    var py, pn := Clos(Source(Text(Var("yes"))), e), Clos(Source(Text(Var("no"))), e);
    var a1, a2 := [pn] + args, [py, pn] + args;
    assert [py] + a1 == a2;
    ChoiceNames();
    ChoiceLookup(ce, cy, cn);
    TextMeans(CHOICE);
    TextMeans(t);
    TextMeans(Var("expr"));
    RunApp(Text(CHOICE), t, Var("no"), k, e, args, res);
    RunApp(Text(t), Var("expr"), Var("yes"), k, e, a1, res);
    RunVar(Text(Var("expr")), "expr", ce, k, e, a2, res);
    var m0 := At(Then(ResolveName(Text(CHOICE)), k), e, args, res);
    var m1 := At(Then(ResolveName(Text(t)), k), e, a1, res);
    var m2 := At(Then(ResolveName(Text(Var("expr"))), k), e, a2, res);
    ReachesTrans(m0, m1, m2);
    ReachesTrans(m0, m2, At(Append(ce.code, k), ce.env, a2, res));
  }

  /** The predefined conditional, called with a Church boolean and two more arguments, goes on with the
      one that the boolean selects. */
  lemma ChoiceRuns(first: bool, env: Env<Code>, cy: Clos<Code>, cn: Clos<Code>, k: Code, args: seq<Clos<Code>>, res: seq<Value>)
    requires args != []
    ensures Lookup(GLOBALS, "ifelse_church") == Some(Clos(Source(CHOICE_SOURCE), Empty))
    ensures var ce, c := Clos(Source(if first then FIRST_SOURCE else SECOND_SOURCE), env), if first then cy else cn;
            Reaches(At(Then(ResolveName(CHOICE_SOURCE), k), Empty, [ce, cy, cn] + args, res),
                    At(Append(c.code, k), c.env, args, res))
  {
    assert Lookup(GLOBALS, "ifelse_church") == Some(Clos(Source(CHOICE_SOURCE), Empty));
    hide Text, ParseFrom, GLOBALS, Reaches, Run, Means, Literal, Proper, ChoiceEnv;
    var src, v, c := if first then FIRST_SOURCE else SECOND_SOURCE, if first then "yes" else "no", if first then cy else cn;
    var ce := Clos(Source(src), env);
    var e := ChoiceEnv(ce, cy, cn);
    var py, pn, p := Clos(Source(Text(Var("yes"))), e), Clos(Source(Text(Var("no"))), e), Clos(Source(Text(Var(v))), e);
    ChoiceNames();
    ChoiceLookup(ce, cy, cn);
    TextMeans(Var(v));
    SourceAppend(src, k);
    SourceAppend(Text(Var(v)), k);
    GrabChoice(ce, cy, cn, k, args, res);
    EnterChoice(ce, cy, cn, k, args, res);
    AnswerPicks(first, py, pn, k, env, args, res);
    RunVar(Text(Var(v)), v, c, k, e, args, res);
    var m0 := At(Then(ResolveName(CHOICE_SOURCE), k), Empty, [ce, cy, cn] + args, res);
    var m1 := At(Then(ResolveName(Text(CHOICE)), k), e, args, res);
    var m2 := At(Then(ResolveName(src), k), env, [py, pn] + args, res);
    var m3 := At(Append(p.code, k), e, args, res);
    ReachesTrans(m0, m1, m2);
    ReachesTrans(m0, m2, m3);
    ReachesTrans(m0, m3, At(Append(c.code, k), c.env, args, res));
  }

  lemma EndAppend(k: Code)
    ensures Append(End, k) == k
  {
  }
}
