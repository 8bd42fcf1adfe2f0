/** Derived rules of the machine: what a source text does as a whole. */
module MachineRuns {
  import opened LambdaText
  import opened Options
  import opened Zam
  import opened Krivine

  ghost predicate Reaches(m: Machine, n: Machine) {
    exists steps: nat :: Run(m, steps) == n
  }

  lemma {:induction false} RunPlus(m: Machine, a: nat, b: nat)
    ensures Run(m, a + b) == Run(Run(m, a), b)
    decreases a
  {
    hide Step;
    if a > 0 && !Stopped(m) {
      RunPlus(Step(m), a - 1, b);
    }
  }

  lemma ReachesTrans(l: Machine, m: Machine, n: Machine)
    requires Reaches(l, m) && Reaches(m, n)
    ensures Reaches(l, n)
  {
    var a: nat :| Run(l, a) == m;
    var b: nat :| Run(m, b) == n;
    RunPlus(l, a, b);
  }

  lemma ReachesStep(m: Machine)
    requires !Stopped(m)
    ensures Run(m, 1) == Step(m) && Reaches(m, Step(m)) && Reaches(m, m)
  {
    assert Run(m, 1) == Step(m) && Run(m, 0) == m;
  }

  lemma RunTwo(m: Machine)
    requires !Stopped(m) && !Stopped(Step(m))
    ensures Run(m, 2) == Step(Step(m)) && Reaches(m, Step(Step(m)))
  {
    hide Step;
    assert Run(Step(m), 1) == Step(Step(m));
  }

  /** A stopped configuration stays as it is. */
  lemma StoppedStays(m: Machine, i: nat, j: nat)
    requires i <= j && Stopped(Run(m, i))
    ensures Run(m, j) == Run(m, i)
  {
    hide Step;
    RunPlus(m, i, j - i);
    assert Run(Run(m, i), j - i) == Run(m, i);
  }

  // ----- texts that the machine reads as terms -----

  /** No variable is taken for the start of a definition. */
  predicate Proper(t: Term) {
    match t
    case Var(v) => IsName(v) && Balanced(v, 0) && !("let" <= v)
    case Lam(v, b) => IsName(v) && Balanced(v, 0) && Proper(b)
    case App(f, a) => Proper(f) && Proper(a)
  }

  predicate Means(src: string, t: Term) {
    Denotes(src, t) && !("let" <= src)
  }

  lemma {:induction false} ProperPrintable(t: Term)
    requires Proper(t)
    ensures Printable(t)
  {
    match t
    case Var(_) =>
    case Lam(_, b) => ProperPrintable(b);
    case App(f, a) =>
      ProperPrintable(f);
      ProperPrintable(a);
  }

  lemma {:induction false} PrintNoLet(t: Term, rest: string)
    requires Proper(t) && Follows(rest)
    ensures !("let" <= Print(t, '\0') + rest)
    decreases t
  {
    var s := Print(t, '\0') + rest;
    match t
    case Var(v) =>
      if |v| >= 3 {
        assert s[..3] == v[..3];
      } else if rest != "" {
        assert s[|v|] == rest[0];
      }
    case Lam(v, b) =>
      assert s[0] == '(';
    case App(f, a) =>
      var tail := if a.Var? then Print(a, 'a') + rest else " (" + (Print(a, '(') + ")" + rest);
      PrintNoLet(f, tail);
      assert s == Print(f, '\0') + tail;
  }

  lemma TextMeans(t: Term)
    requires Proper(t)
    ensures Means(Text(t), t)
  {
    ProperPrintable(t);
    TextDenotes(t);
    PrintNoLet(t, "");
    assert Text(t) + "" == Text(t);
  }

  // ----- derived rules -----

  function At(prog: Code, env: Env<Code>, args: seq<Clos<Code>>, results: seq<Value>): Machine {
    Machine(prog, env, args, results, Running)
  }

  function Source(src: string): Code {
    Then(ResolveName(src), End)
  }

  /** An application pushes its argument, closed in the current environment. */
  lemma RunApp(src: string, f: Term, a: Term, k: Code, env: Env<Code>, args: seq<Clos<Code>>, res: seq<Value>)
    requires Means(src, App(f, a)) && !SkipsArgument(At(k, env, args, res), Source(Text(a)))
    ensures var m := At(Then(ResolveName(src), k), env, args, res);
            var n := At(Then(ResolveName(Text(f)), k), env, [Clos(Source(Text(a)), env)] + args, res);
            Run(m, 2) == n && Reaches(m, n)
  {
    hide ParseFrom, Text, GLOBALS, UpToClose;
    var m := At(Then(ResolveName(src), k), env, args, res);
    assert Step(m) == At(Then(Closure(Source(Text(a))), Then(ResolveName(Text(f)), k)), env, args, res);
    RunTwo(m);
  }

  /** An abstraction takes the first pending argument. */
  lemma RunLam(src: string, v: string, b: Term, k: Code, env: Env<Code>, args: seq<Clos<Code>>, res: seq<Value>)
    requires Means(src, Lam(v, b)) && args != []
    ensures var m := At(Then(ResolveName(src), k), env, args, res);
            var n := At(Then(ResolveName(Text(b)), k), Bind(v, args[0], env), args[1..], res);
            Run(m, 2) == n && Reaches(m, n)
  {
    hide ParseFrom, Text, GLOBALS;
    var m := At(Then(ResolveName(src), k), env, args, res);
    assert Step(m) == At(Then(Grab(v), Then(ResolveName(Text(b)), k)), env, args, res);
    RunTwo(m);
  }

  lemma RunLiteral(src: string, v: string, k: Code, env: Env<Code>, args: seq<Clos<Code>>, res: seq<Value>)
    requires Means(src, Var(v)) && Literal(v).Some?
    ensures var m := At(Then(ResolveName(src), k), env, args, res);
            var n := At(Then(TailApply, k), env, args, [Literal(v).value] + res);
            Run(m, 1) == n && Reaches(m, n)
  {
    hide ParseFrom, Literal, GLOBALS;
    ReachesStep(At(Then(ResolveName(src), k), env, args, res));
  }

  lemma RunTail(k: Code, env: Env<Code>, c: Clos<Code>, args: seq<Clos<Code>>, res: seq<Value>)
    ensures var m := At(Then(TailApply, k), env, [c] + args, res);
            var n := At(Append(c.code, k), c.env, args, res);
            Run(m, 1) == n && Reaches(m, n)
  {
    ReachesStep(At(Then(TailApply, k), env, [c] + args, res));
  }

  /** The closure that a variable stands for, bound locally or predefined. */
  function Meaning(env: Env<Code>, v: string): Option<Clos<Code>> {
    if Lookup(env, v).Some? then Lookup(env, v)
    else if v in NETWORK_FUNCTIONS then None
    else Lookup(GLOBALS, v)
  }

  /** A variable runs the computation it stands for in that computation's own environment. */
  lemma RunVar(src: string, v: string, c: Clos<Code>, k: Code, env: Env<Code>, args: seq<Clos<Code>>, res: seq<Value>)
    requires Means(src, Var(v)) && Literal(v).None? && Meaning(env, v) == Some(c)
    ensures var m := At(Then(ResolveName(src), k), env, args, res);
            var n := At(Append(c.code, k), c.env, args, res);
            Run(m, 3) == n && Reaches(m, n)
  {
    hide ParseFrom, Literal, GLOBALS;
    var m := At(Then(ResolveName(src), k), env, args, res);
    assert Step(m) == At(Then(Access(v), Then(TailApply, k)), env, args, res);
    assert Step(Step(m)) == At(Then(TailApply, k), env, [c] + args, res);
    RunTwo(m);
    RunTail(k, env, c, args, res);
    RunPlus(m, 2, 1);
  }
}
