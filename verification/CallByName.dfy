/** Call-by-name reduction to weak head form by substitution, and the proof that the
    machine simulates it: closures and environments stand in for substitution. */
module CallByName {
  import opened LambdaText
  import opened Options
  import opened Zam
  import opened Krivine
  import opened MachineRuns

  // ----- reference semantics -----

  datatype Lambda =
    | Free(name: string)
    | Lit(value: Value)
    | Fun(name: string, body: Lambda)
    | Call(fct: Lambda, arg: Lambda)
    | Stop

  /** Only closed terms are substituted, so nothing is captured. */
  function Subst(t: Lambda, x: string, s: Lambda): Lambda {
    match t
    case Free(y) => if y == x then s else t
    case Fun(y, b) => if y == x then t else Fun(y, Subst(b, x, s))
    case Call(f, a) => Call(Subst(f, x, s), Subst(a, x, s))
    case _ => t
  }

  datatype Redex = Next(term: Lambda, pushed: Option<Value>) | Reached | Stuck

  /** One step at the head: an abstraction takes its argument, a literal is pushed as a
      result and gives way to its argument, HALT is the end whatever follows it. */
  function Reduce(t: Lambda): Redex {
    match t
    case Stop => Reached
    case Call(Fun(x, b), a) => Next(Subst(b, x, a), None)
    case Call(Lit(v), a) => Next(a, Some(v))
    case Call(f, a) =>
      (match Reduce(f)
       case Next(g, v) => Next(Call(g, a), v)
       case r => r)
    case _ => Stuck
  }

  function Push(v: Option<Value>, res: seq<Value>): seq<Value> {
    match v
    case None => res
    case Some(x) => [x] + res
  }

  /** The results with which HALT is reached in at most `n` steps. */
  function Normalise(t: Lambda, res: seq<Value>, n: nat): Option<seq<Value>>
    decreases n
  {
    match Reduce(t)
    case Reached => Some(res)
    case Stuck => None
    case Next(u, v) => if n == 0 then None else Normalise(u, Push(v, res), n - 1)
  }

  // ----- closures denote closed terms -----

  predicate Legible(src: string) {
    Parse(src).Done? && Parse(src).term.Some? && Proper(Parse(src).term.value) && !("let" <= src)
  }

  function SourceTerm(src: string): Term
    requires Legible(src)
  {
    Parse(src).term.value
  }

  const HALT := Then(Halt, End)

  predicate IsSource(c: Code) {
    c.Then? && c.tail.End? && c.head.ResolveName? && Legible(c.head.src)
  }

  function Decode(t: Term, env: Env<Code>, bound: set<string>): Lambda
    decreases env, 1, t
  {
    match t
    case Var(v) =>
      if Literal(v).Some? then Lit(Literal(v).value) else if v in bound then Free(v) else DecodeVar(v, env)
    case Lam(v, b) => Fun(v, Decode(b, env, bound + {v}))
    case App(f, a) => Call(Decode(f, env, bound), Decode(a, env, bound))
  }

  function DecodeVar(v: string, env: Env<Code>): Lambda
    decreases env, 0
  {
    match env
    case Empty => Free(v)
    case Bind(n, c, next) => if n == v then DecodeClos(c) else DecodeVar(v, next)
  }

  function DecodeClos(c: Clos<Code>): Lambda
    decreases c
  {
    if IsSource(c.code) then Decode(SourceTerm(c.code.head.src), c.env, {}) else Stop
  }

  /** Every variable of the term is a literal, bound in it, or bound by the environment. */
  predicate ClosedTerm(t: Term, env: Env<Code>, bound: set<string>) {
    match t
    case Var(v) => Literal(v).Some? || v in bound || Lookup(env, v).Some?
    case Lam(v, b) => ClosedTerm(b, env, bound + {v})
    case App(f, a) => ClosedTerm(f, env, bound) && ClosedTerm(a, env, bound)
  }

  predicate ClosedEnv(env: Env<Code>) {
    match env
    case Empty => true
    case Bind(_, c, next) => ClosedClos(c) && ClosedEnv(next)
  }

  predicate ClosedClos(c: Clos<Code>) {
    c.code == HALT || (IsSource(c.code) && ClosedTerm(SourceTerm(c.code.head.src), c.env, {}) && ClosedEnv(c.env))
  }

  predicate Closed(t: Lambda, bound: set<string>) {
    match t
    case Free(v) => v in bound
    case Fun(v, b) => Closed(b, bound + {v})
    case Call(f, a) => Closed(f, bound) && Closed(a, bound)
    case _ => true
  }

  lemma {:induction false} ClosedMore(t: Lambda, small: set<string>, big: set<string>)
    requires Closed(t, small) && small <= big
    ensures Closed(t, big)
  {
    match t
    case Fun(v, b) => ClosedMore(b, small + {v}, big + {v});
    case Call(f, a) =>
      ClosedMore(f, small, big);
      ClosedMore(a, small, big);
    case _ =>
  }

  lemma {:induction false} SubstClosed(t: Lambda, bound: set<string>, x: string, s: Lambda)
    requires Closed(t, bound) && x !in bound
    ensures Subst(t, x, s) == t
  {
    match t
    case Fun(v, b) => if v != x { SubstClosed(b, bound + {v}, x, s); }
    case Call(f, a) =>
      SubstClosed(f, bound, x, s);
      SubstClosed(a, bound, x, s);
    case _ =>
  }

  lemma {:induction false} DecodeClosed(t: Term, env: Env<Code>, bound: set<string>)
    requires ClosedTerm(t, env, bound) && ClosedEnv(env)
    ensures Closed(Decode(t, env, bound), bound)
    decreases env, 1, t
  {
    match t
    case Var(v) =>
      if Literal(v).None? && v !in bound {
        DecodeVarClosed(v, env);
        ClosedMore(DecodeVar(v, env), {}, bound);
      }
    case Lam(v, b) => DecodeClosed(b, env, bound + {v});
    case App(f, a) =>
      DecodeClosed(f, env, bound);
      DecodeClosed(a, env, bound);
  }

  lemma {:induction false} DecodeVarClosed(v: string, env: Env<Code>)
    requires Lookup(env, v).Some? && ClosedEnv(env)
    ensures Closed(DecodeVar(v, env), {})
    ensures DecodeVar(v, env) == DecodeClos(Lookup(env, v).value) && ClosedClos(Lookup(env, v).value)
    decreases env, 0
  {
    match env
    case Bind(n, c, next) =>
      if n == v {
        DecodeClosClosed(c);
      } else {
        DecodeVarClosed(v, next);
      }
  }

  lemma {:induction false} DecodeClosClosed(c: Clos<Code>)
    requires ClosedClos(c)
    ensures Closed(DecodeClos(c), {})
    decreases c
  {
    if IsSource(c.code) {
      DecodeClosed(SourceTerm(c.code.head.src), c.env, {});
    }
  }

  /** A binding that the term shadows does not matter. */
  lemma {:induction false} DecodeShadowed(t: Term, x: string, c: Clos<Code>, env: Env<Code>, bound: set<string>)
    requires x in bound
    ensures Decode(t, Bind(x, c, env), bound) == Decode(t, env, bound)
    decreases t
  {
    match t
    case Var(v) =>
    case Lam(v, b) => DecodeShadowed(b, x, c, env, bound + {v});
    case App(f, a) =>
      DecodeShadowed(f, x, c, env, bound);
      DecodeShadowed(a, x, c, env, bound);
  }

  /** Binding a closure in the environment is substituting the term it denotes. */
  lemma {:induction false} BindIsSubst(t: Term, x: string, c: Clos<Code>, env: Env<Code>, bound: set<string>)
    requires x !in bound && ClosedTerm(t, env, bound + {x}) && ClosedEnv(env) && ClosedClos(c)
    ensures Subst(Decode(t, env, bound + {x}), x, DecodeClos(c)) == Decode(t, Bind(x, c, env), bound)
    decreases t
  {
    match t
    case Var(v) =>
      if Literal(v).None? && v != x && v !in bound {
        DecodeVarClosed(v, env);
        SubstClosed(DecodeVar(v, env), {}, x, DecodeClos(c));
      }
    case Lam(v, b) =>
      if v == x {
        assert bound + {x} + {x} == bound + {x};
        DecodeShadowed(b, x, c, env, bound + {x});
      } else {
        assert bound + {x} + {v} == bound + {v} + {x};
        BindIsSubst(b, x, c, env, bound + {v});
      }
    case App(f, a) =>
      BindIsSubst(f, x, c, env, bound);
      BindIsSubst(a, x, c, env, bound);
  }

  /** What is closed before binding stays closed after it. */
  lemma {:induction false} ClosedBind(t: Term, x: string, c: Clos<Code>, env: Env<Code>, bound: set<string>)
    requires ClosedTerm(t, env, bound + {x})
    ensures ClosedTerm(t, Bind(x, c, env), bound)
    decreases t
  {
    match t
    case Var(v) =>
    case Lam(v, b) =>
      assert bound + {x} + {v} == bound + {v} + {x};
      ClosedBind(b, x, c, env, bound + {v});
    case App(f, a) =>
      ClosedBind(f, x, c, env, bound);
      ClosedBind(a, x, c, env, bound);
  }

  // ----- the machine between two source texts -----

  /** The term that the pending arguments are still to be applied to. */
  function Unwind(t: Lambda, args: seq<Clos<Code>>): Lambda
    decreases |args|
  {
    if args == [] then t else Unwind(Call(t, DecodeClos(args[0])), args[1..])
  }

  /** The configuration that is about to run a computation, and the term it denotes. */
  function Focus(c: Clos<Code>, args: seq<Clos<Code>>, res: seq<Value>): Machine {
    At(c.code, c.env, args, res)
  }

  function Denoted(c: Clos<Code>, args: seq<Clos<Code>>): Lambda {
    Unwind(DecodeClos(c), args)
  }

  predicate ClosedFocus(c: Clos<Code>, args: seq<Clos<Code>>) {
    ClosedClos(c) && forall i :: 0 <= i < |args| ==> ClosedClos(args[i])
  }

  /** What happens until the machine runs the next computation. */
  datatype Move =
    | Move(focus: Clos<Code>, args: seq<Clos<Code>>, pushed: Option<Value>, steps: nat, reduces: bool)
    | NoMove

  function MoveOf(c: Clos<Code>, args: seq<Clos<Code>>): Move
    requires IsSource(c.code)
  {
    match SourceTerm(c.code.head.src)
    case App(f, a) =>
      Move(Clos(Source(Text(f)), c.env), [Clos(Source(Text(a)), c.env)] + args, None, 2, false)
    case Lam(v, b) =>
      if args == [] then NoMove
      else Move(Clos(Source(Text(b)), Bind(v, args[0], c.env)), args[1..], None, 2, true)
    case Var(v) =>
      if Literal(v).Some? then
        if args == [] then NoMove else Move(args[0], args[1..], Literal(v), 2, true)
      else if Lookup(c.env, v).Some? then Move(Lookup(c.env, v).value, args, None, 3, false)
      else NoMove
  }

  lemma SourceMeans(c: Code)
    requires IsSource(c)
    ensures Means(c.head.src, SourceTerm(c.head.src)) && c == Then(ResolveName(c.head.src), End)
  {
    hide ParseFrom;
    ProperPrintable(SourceTerm(c.head.src));
  }

  lemma TextSource(t: Term)
    requires Proper(t)
    ensures IsSource(Source(Text(t))) && SourceTerm(Text(t)) == t
  {
    hide ParseFrom, Text;
    TextMeans(t);
  }

  lemma {:induction false} AppendEnd(c: Code)
    ensures Append(c, End) == c
  {
    RenderAppend(c, End);
  }

  /** The skip test of the configuration, if it is about to push an argument. */
  predicate SkipsAt(m: Machine) {
    !Stopped(m) && m.prog.head.Closure? && SkipsArgument(m, m.prog.head.body)
  }

  ghost predicate NeverSkips(m: Machine) {
    forall n: nat :: !SkipsAt(Run(m, n))
  }

  lemma NeverSkipsLater(m: Machine, j: nat)
    requires NeverSkips(m)
    ensures NeverSkips(Run(m, j))
  {
    hide Step, SkipsAt;
    forall n: nat ensures !SkipsAt(Run(Run(m, j), n)) {
      RunPlus(m, j, n);
      assert !SkipsAt(Run(m, j + n));
    }
  }

  /** The machine makes every move in the stated number of instructions. */
  lemma MoveRuns(c: Clos<Code>, args: seq<Clos<Code>>, res: seq<Value>)
    requires IsSource(c.code) && ClosedFocus(c, args) && MoveOf(c, args).Move?
    requires !SkipsAt(Run(Focus(c, args, res), 1))
    ensures var mv := MoveOf(c, args);
            Run(Focus(c, args, res), mv.steps) == Focus(mv.focus, mv.args, Push(mv.pushed, res))
  {
    hide ParseFrom, Text, GLOBALS, Run, Reaches, Means, Literal, UpToClose, ClosedFocus, Legible;
    var src, env := c.code.head.src, c.env;
    SourceMeans(c.code);
    match SourceTerm(src)
    case App(f, a) =>
      AppSkip(src, f, a, env, args, res);
      RunApp(src, f, a, End, env, args, res);
    case Lam(v, b) =>
      RunLam(src, v, b, End, env, args, res);
    case Var(v) =>
      if Literal(v).Some? {
        var m := Focus(c, args, res);
        var res1 := [Literal(v).value] + res;
        RunLiteral(src, v, End, env, args, res);
        assert args == [args[0]] + args[1..];
        RunTail(End, env, args[0], args[1..], res1);
        AppendEnd(args[0].code);
        RunPlus(m, 1, 1);
      } else {
        var d := Lookup(env, v).value;
        RunVar(src, v, d, End, env, args, res);
        AppendEnd(d.code);
      }
  }

  lemma AppSkip(src: string, f: Term, a: Term, env: Env<Code>, args: seq<Clos<Code>>, res: seq<Value>)
    requires Means(src, App(f, a))
    ensures SkipsAt(Run(At(Source(src), env, args, res), 1))
        <==> SkipsArgument(At(End, env, args, res), Source(Text(a)))
  {
    hide ParseFrom, Text, GLOBALS, UpToClose, Lookup;
    var m := At(Source(src), env, args, res);
    assert Step(m) == At(Then(Closure(Source(Text(a))), Then(ResolveName(Text(f)), End)), env, args, res);
    assert Run(m, 1) == Step(m);
  }

  // ----- reduction under pending arguments -----

  lemma {:induction false} ReduceUnwind(t: Lambda, u: Lambda, v: Option<Value>, args: seq<Clos<Code>>)
    requires t.Call? && Reduce(t) == Next(u, v)
    ensures Reduce(Unwind(t, args)) == Next(Unwind(u, args), v)
    decreases |args|
  {
    if args != [] {
      var a := DecodeClos(args[0]);
      assert Reduce(Call(t, a)) == Next(Call(u, a), v);
      ReduceUnwind(Call(t, a), Call(u, a), v, args[1..]);
    }
  }

  lemma {:induction false} ReduceHalt(t: Lambda, args: seq<Clos<Code>>)
    requires Reduce(t) == Reached
    ensures Reduce(Unwind(t, args)) == Reached
    decreases |args|
  {
    if args != [] {
      ReduceHalt(Call(t, DecodeClos(args[0])), args[1..]);
    }
  }

  lemma SourceClosed(c: Clos<Code>)
    requires IsSource(c.code) && ClosedClos(c)
    ensures var t := SourceTerm(c.code.head.src);
            ClosedEnv(c.env) && Proper(t) && DecodeClos(c) == Decode(t, c.env, {}) &&
            match t
            case App(f, a) => Proper(f) && Proper(a) && ClosedTerm(f, c.env, {}) && ClosedTerm(a, c.env, {})
            case Lam(v, b) => Proper(b) && ClosedTerm(b, c.env, {v})
            case Var(v) => Literal(v).Some? || Lookup(c.env, v).Some?
  {
    hide ParseFrom;
    var t := SourceTerm(c.code.head.src);
    assert t.Lam? ==> {} + {t.name} == {t.name};
  }

  lemma SourceClosClosed(t: Term, env: Env<Code>)
    requires Proper(t) && ClosedTerm(t, env, {}) && ClosedEnv(env)
    ensures ClosedClos(Clos(Source(Text(t)), env)) && DecodeClos(Clos(Source(Text(t)), env)) == Decode(t, env, {})
  {
    hide ParseFrom, Text, Legible;
    TextSource(t);
  }

  /** A move keeps everything closed. */
  lemma MoveClosed(c: Clos<Code>, args: seq<Clos<Code>>)
    requires IsSource(c.code) && ClosedFocus(c, args) && MoveOf(c, args).Move?
    ensures ClosedFocus(MoveOf(c, args).focus, MoveOf(c, args).args)
  {
    SourceClosed(c);
    hide ParseFrom, Text, Literal, Legible, ClosedTerm, ClosedClos;
    var env := c.env;
    match SourceTerm(c.code.head.src)
    case App(f, a) =>
      SourceClosClosed(f, env);
      SourceClosClosed(a, env);
    case Lam(v, b) =>
      assert {} + {v} == {v};
      ClosedBind(b, v, args[0], env, {});
      SourceClosClosed(b, Bind(v, args[0], env));
    case Var(v) =>
      if Literal(v).None? {
        DecodeVarClosed(v, env);
      }
  }

  /** A move is one step of reduction, or none at all. */
  lemma MoveReduces(c: Clos<Code>, args: seq<Clos<Code>>)
    requires IsSource(c.code) && ClosedFocus(c, args) && MoveOf(c, args).Move?
    ensures var mv := MoveOf(c, args);
            if mv.reduces then Reduce(Denoted(c, args)) == Next(Denoted(mv.focus, mv.args), mv.pushed)
            else Denoted(c, args) == Denoted(mv.focus, mv.args) && mv.pushed == None
  {
    SourceClosed(c);
    hide ParseFrom, Text, Literal, Legible, ClosedTerm, ClosedClos, DecodeClos, Reduce;
    var env := c.env;
    match SourceTerm(c.code.head.src)
    case App(f, a) =>
      SourceClosClosed(f, env);
      SourceClosClosed(a, env);
      assert ([Clos(Source(Text(a)), env)] + args)[1..] == args;
    case Lam(v, b) =>
      assert {} + {v} == {v};
      ClosedBind(b, v, args[0], env, {});
      SourceClosClosed(b, Bind(v, args[0], env));
      LamReduces(v, b, args, env);
    case Var(v) =>
      if Literal(v).Some? {
        LiteralReduces(Literal(v).value, args);
      } else {
        DecodeVarClosed(v, env);
      }
  }

  lemma LiteralReduces(v: Value, args: seq<Clos<Code>>)
    requires args != []
    ensures Reduce(Unwind(Lit(v), args)) == Next(Unwind(DecodeClos(args[0]), args[1..]), Some(v))
  {
    var u := DecodeClos(args[0]);
    ReduceUnwind(Call(Lit(v), u), u, Some(v), args[1..]);
  }

  lemma LamReduces(v: string, b: Term, args: seq<Clos<Code>>, env: Env<Code>)
    requires args != [] && ClosedEnv(env) && ClosedClos(args[0]) && ClosedTerm(b, env, {v})
    ensures Reduce(Unwind(Decode(Lam(v, b), env, {}), args))
         == Next(Unwind(Decode(b, Bind(v, args[0], env), {}), args[1..]), None)
  {
    assert {} + {v} == {v};
    BindIsSubst(b, v, args[0], env, {});
    var t := Call(Fun(v, Decode(b, env, {v})), DecodeClos(args[0]));
    ReduceUnwind(t, Decode(b, Bind(v, args[0], env), {}), None, args[1..]);
  }

  /** Without a move both the reduction and the machine are stuck. */
  lemma NoMoveStuck(c: Clos<Code>, args: seq<Clos<Code>>, res: seq<Value>)
    requires IsSource(c.code) && ClosedFocus(c, args) && MoveOf(c, args).NoMove?
    ensures Reduce(Denoted(c, args)) == Stuck
    ensures var m := Run(Focus(c, args, res), 2); Stopped(m) && m.status == Undefined
  {
    SourceClosed(c);
    hide ParseFrom, Text, GLOBALS, Legible, Lookup, ClosedTerm, ClosedClos, DecodeClos;
    SourceMeans(c.code);
    var m := Focus(c, args, res);
    assert args == [] && !Stopped(m) && !Stopped(Step(m));
    RunTwo(m);
  }

  // ----- moves that do not reduce come to an end -----

  function TermSize(t: Term): nat {
    match t
    case Var(_) => 1
    case Lam(_, b) => 1 + TermSize(b)
    case App(f, a) => 1 + TermSize(f) + TermSize(a)
  }

  function EnvSize(env: Env<Code>): nat {
    match env
    case Empty => 0
    case Bind(_, c, next) => ClosSize(c) + EnvSize(next)
  }

  function ClosSize(c: Clos<Code>): nat {
    if IsSource(c.code) then TermSize(SourceTerm(c.code.head.src)) + EnvSize(c.env) else 0
  }

  lemma {:induction false} LookupSize(env: Env<Code>, v: string)
    requires Lookup(env, v).Some?
    ensures ClosSize(Lookup(env, v).value) <= EnvSize(env)
  {
    match env
    case Bind(n, _, next) => if n != v { LookupSize(next, v); }
  }

  lemma MoveShrinks(c: Clos<Code>, args: seq<Clos<Code>>)
    requires IsSource(c.code) && ClosedFocus(c, args) && MoveOf(c, args).Move? && !MoveOf(c, args).reduces
    ensures ClosSize(MoveOf(c, args).focus) < ClosSize(c)
  {
    SourceClosed(c);
    hide ParseFrom, Text, Literal, Legible, ClosedTerm, ClosedClos;
    match SourceTerm(c.code.head.src)
    case App(f, _) => TextSource(f);
    case Var(v) => LookupSize(c.env, v);
    case _ =>
  }

  // ----- arguments that are skipped -----

  /** The move would push an argument, but the skip test fires. */
  predicate Skipped(c: Clos<Code>, args: seq<Clos<Code>>)
    requires IsSource(c.code)
  {
    var t := SourceTerm(c.code.head.src);
    t.App? && SkipsArgument(At(End, c.env, args, []), Source(Text(t.arg)))
  }

  /** A term in front of the arguments that were skipped, the last of them first. */
  function Wrap(t: Lambda, lost: seq<Lambda>): Lambda
    decreases |lost|
  {
    if lost == [] then t else Wrap(Call(t, lost[0]), lost[1..])
  }

  lemma {:induction false} ReduceWrap(t: Lambda, u: Lambda, v: Option<Value>, lost: seq<Lambda>)
    requires Reduce(t) == Next(u, v)
    ensures Reduce(Wrap(t, lost)) == Next(Wrap(u, lost), v)
    decreases |lost|
  {
    if lost != [] {
      ReduceWrap(Call(t, lost[0]), Call(u, lost[0]), v, lost[1..]);
    }
  }

  lemma {:induction false} WrapHalt(t: Lambda, lost: seq<Lambda>)
    requires Reduce(t) == Reached
    ensures Reduce(Wrap(t, lost)) == Reached
    decreases |lost|
  {
    if lost != [] {
      WrapHalt(Call(t, lost[0]), lost[1..]);
    }
  }

  /** A reduction that reaches HALT does so in front of one more argument, too. */
  lemma {:induction false} NormaliseCall(t: Lambda, a: Lambda, res: seq<Value>, k: nat, out: seq<Value>)
    requires Normalise(t, res, k) == Some(out)
    ensures Normalise(Call(t, a), res, k) == Some(out)
    decreases k
  {
    match Reduce(t) {
      case Next(u, v) =>
        ReduceWrap(t, u, v, [a]);
        assert Wrap(t, [a]) == Call(t, a) && Wrap(u, [a]) == Call(u, a);
        NormaliseCall(u, a, Push(v, res), k - 1, out);
      case Reached =>
      case Stuck =>
    }
  }

  lemma ApplicationRuns(src: string, f: Term, a: Term, env: Env<Code>, args: seq<Clos<Code>>, res: seq<Value>)
    requires Means(src, App(f, a))
    ensures var skip := SkipsArgument(At(End, env, args, res), Source(Text(a)));
            Run(At(Source(src), env, args, res), 2)
            == Focus(Clos(Source(Text(f)), env), if skip then args else [Clos(Source(Text(a)), env)] + args, res)
  {
    hide ParseFrom, Text, GLOBALS, UpToClose, Lookup, Run;
    var m := At(Source(src), env, args, res);
    RunTwo(m);
  }

  /** With its argument skipped, an application goes on with its function and nothing pending. */
  lemma SkipRuns(c: Clos<Code>, args: seq<Clos<Code>>, res: seq<Value>)
    requires IsSource(c.code) && ClosedFocus(c, args) && Skipped(c, args)
    ensures var t := SourceTerm(c.code.head.src);
            t.App? &&
            var d := Clos(Source(Text(t.fct)), c.env);
            && args == [] && Run(Focus(c, args, res), 2) == Focus(d, [], res) && ClosedFocus(d, [])
            && Denoted(c, args) == Call(Denoted(d, []), Decode(t.arg, c.env, {})) && ClosSize(d) < ClosSize(c)
  {
    SourceClosed(c);
    SourceMeans(c.code);
    hide ParseFrom, Text, Run, Legible, ClosedTerm, ClosedClos, UpToClose, Lookup, DecodeClos;
    var t := SourceTerm(c.code.head.src);
    SourceClosClosed(t.fct, c.env);
    TextSource(t.fct);
    ApplicationRuns(c.code.head.src, t.fct, t.arg, c.env, args, res);
  }

  /** Otherwise the skip test does not fire between this computation and the next. */
  lemma NotSkipped(c: Clos<Code>, args: seq<Clos<Code>>, res: seq<Value>)
    requires IsSource(c.code) && !Skipped(c, args)
    ensures !SkipsAt(Run(Focus(c, args, res), 1))
  {
    hide ParseFrom, Text, GLOBALS, Lookup, UpToClose, Legible;
    SourceMeans(c.code);
    var t := SourceTerm(c.code.head.src);
    var m := Focus(c, args, res);
    if t.App? {
      AppSkip(c.code.head.src, t.fct, t.arg, c.env, args, res);
    } else {
      assert Run(m, 1) == Step(m);
    }
  }

  ghost predicate NeverCrashes(m: Machine) {
    forall n: nat :: Run(m, n).status != Undefined
  }

  lemma NeverCrashesLater(m: Machine, j: nat)
    requires NeverCrashes(m)
    ensures NeverCrashes(Run(m, j))
  {
    hide Step;
    forall n: nat ensures Run(Run(m, j), n).status != Undefined {
      RunPlus(m, j, n);
      assert Run(m, j + n).status != Undefined;
    }
  }

  // ----- simulation -----

  predicate HaltsWith(m: Machine, out: seq<Value>) {
    m.status == Halted && m.results == out
  }

  lemma HaltRuns(env: Env<Code>, args: seq<Clos<Code>>, res: seq<Value>)
    ensures var c := Clos(HALT, env);
            HaltsWith(Run(Focus(c, args, res), 1), res) && Stopped(Run(Focus(c, args, res), 1))
    ensures Reduce(Denoted(Clos(HALT, env), args)) == Reached
  {
    hide GLOBALS;
    var c := Clos(HALT, env);
    var m := Focus(c, args, res);
    assert Run(m, 1) == Step(m);
    ReduceHalt(Stop, args);
  }

  /** If the reduction reaches HALT, so does the machine, with the same results, unless it crashes.
      Where it never skips an argument it does not crash either. */
  lemma {:induction false} Complete(c: Clos<Code>, args: seq<Clos<Code>>, lost: seq<Lambda>, res: seq<Value>,
                                    k: nat, out: seq<Value>)
    returns (n: nat)
    requires var m := Focus(c, args, res); NeverCrashes(m) || (NeverSkips(m) && lost == [])
    requires ClosedFocus(c, args) && Normalise(Wrap(Denoted(c, args), lost), res, k) == Some(out)
    ensures HaltsWith(Run(Focus(c, args, res), n), out)
    decreases k, ClosSize(c)
  {
    hide ParseFrom, Text, GLOBALS, Run, Reduce, Denoted, Focus, ClosSize, SkipsAt, Skipped, Legible, NeverCrashes, NeverSkips;
    var m := Focus(c, args, res);
    if c.code == HALT {
      HaltRuns(c.env, args, res);
      WrapHalt(Denoted(c, args), lost);
      n := 1;
    } else if MoveOf(c, args).NoMove? {
      NoMoveStuck(c, args, res);
      CrashHere(m, 2);
      assert false;
    } else if Skipped(c, args) {
      SkipRuns(c, args, res);
      SkipHere(c, args, res);
      var t := SourceTerm(c.code.head.src);
      var d := Clos(Source(Text(t.fct)), c.env);
      var a := Decode(t.arg, c.env, {});
      assert ([a] + lost)[1..] == lost;
      NeverCrashesLater(m, 2);
      n := Complete(d, [], [a] + lost, res, k, out);
      RunPlus(m, 2, n);
      n := 2 + n;
    } else {
      var mv := MoveOf(c, args);
      NotSkipped(c, args, res);
      MoveRuns(c, args, res);
      MoveClosed(c, args);
      MoveReduces(c, args);
      if NeverCrashes(m) {
        NeverCrashesLater(m, mv.steps);
      } else {
        NeverSkipsLater(m, mv.steps);
      }
      if mv.reduces {
        ReduceWrap(Denoted(c, args), Denoted(mv.focus, mv.args), mv.pushed, lost);
      } else {
        MoveShrinks(c, args);
      }
      n := Complete(mv.focus, mv.args, lost, Push(mv.pushed, res), if mv.reduces then k - 1 else k, out);
      RunPlus(m, mv.steps, n);
      n := mv.steps + n;
    }
  }

  lemma CrashHere(m: Machine, n: nat)
    requires Run(m, n).status == Undefined
    ensures !NeverCrashes(m)
  {
    hide Run;
  }

  lemma SkipHere(c: Clos<Code>, args: seq<Clos<Code>>, res: seq<Value>)
    requires IsSource(c.code) && Skipped(c, args)
    ensures !NeverSkips(Focus(c, args, res))
  {
    hide ParseFrom, Text, GLOBALS, Lookup, UpToClose, Legible, Run, SkipsAt;
    SourceMeans(c.code);
    var t := SourceTerm(c.code.head.src);
    AppSkip(c.code.head.src, t.fct, t.arg, c.env, args, res);
  }

  /** Where the machine stops it has crashed, or halted with the results with which the reduction
      reaches HALT, arguments skipped or not. */
  lemma {:induction false} Faithful(c: Clos<Code>, args: seq<Clos<Code>>, res: seq<Value>, n: nat) returns (k: nat)
    requires ClosedFocus(c, args) && Stopped(Run(Focus(c, args, res), n))
    ensures var m := Run(Focus(c, args, res), n);
            m.status == Undefined || (m.status == Halted && Normalise(Denoted(c, args), res, k) == Some(m.results))
    decreases n
  {
    hide ParseFrom, Text, GLOBALS, Run, Reduce, Denoted, ClosSize, SkipsAt, Skipped, Legible, Step;
    var m := Focus(c, args, res);
    k := 0;
    if c.code == HALT {
      HaltRuns(c.env, args, res);
      SameStop(m, 1, n);
    } else if MoveOf(c, args).NoMove? {
      NoMoveStuck(c, args, res);
      SameStop(m, 2, n);
    } else if Skipped(c, args) {
      SkipRuns(c, args, res);
      var t := SourceTerm(c.code.head.src);
      var d := Clos(Source(Text(t.fct)), c.env);
      StopsLater(m, 2, n);
      k := Faithful(d, [], res, n - 2);
      var end := Run(m, n);
      if end.status == Halted {
        NormaliseCall(Denoted(d, []), Decode(t.arg, c.env, {}), res, k, end.results);
      }
    } else {
      var mv := MoveOf(c, args);
      NotSkipped(c, args, res);
      MoveRuns(c, args, res);
      MoveClosed(c, args);
      MoveReduces(c, args);
      StopsLater(m, mv.steps, n);
      k := Faithful(mv.focus, mv.args, Push(mv.pushed, res), n - mv.steps);
      k := if mv.reduces then k + 1 else k;
    }
  }

  lemma StopsLater(m: Machine, j: nat, n: nat)
    requires !Stopped(Run(m, j)) && Stopped(Run(m, n))
    ensures j < n && Run(m, n) == Run(Run(m, j), n - j)
  {
    hide Run, Stopped;
    if n <= j {
      StoppedStays(m, n, j);
    } else {
      RunPlus(m, j, n - j);
    }
  }

  /** A run stops in one configuration only. */
  lemma SameStop(m: Machine, i: nat, j: nat)
    requires Stopped(Run(m, i)) && Stopped(Run(m, j))
    ensures Run(m, i) == Run(m, j)
  {
    hide Run;
    if i <= j {
      StoppedStays(m, i, j);
    } else {
      StoppedStays(m, j, i);
    }
  }

  /** The reduction that an expression stands for: the expression applied to HALT. */
  function Program(src: string): Lambda
    requires Legible(src)
  {
    Call(Decode(SourceTerm(src), Empty, {}), Stop)
  }

  ghost predicate MachineYields(src: string, out: seq<Value>) {
    exists n: nat :: HaltsWith(Run(Start(src), n), out)
  }

  ghost predicate ReductionYields(src: string, out: seq<Value>)
    requires Legible(src)
  {
    exists k: nat :: Normalise(Program(src), [], k) == Some(out)
  }

  const BOTTOM: Clos<Code> := Clos(HALT, Empty)

  lemma StartFocus(src: string)
    requires Legible(src) && ClosedTerm(SourceTerm(src), Empty, {})
    ensures Run(Start(src), 1) == Focus(Clos(Source(src), Empty), [BOTTOM], []) && !Stopped(Run(Start(src), 1))
    ensures ClosedFocus(Clos(Source(src), Empty), [BOTTOM])
    ensures Denoted(Clos(Source(src), Empty), [BOTTOM]) == Program(src)
  {
    hide ParseFrom, GLOBALS;
    var m := Start(src);
    assert Run(m, 1) == Step(m);
    var t := Decode(SourceTerm(src), Empty, {});
    assert DecodeClos(BOTTOM) == Stop && DecodeClos(Clos(Source(src), Empty)) == t;
    assert [BOTTOM][1..] == [];
    assert ClosedEnv(Empty) && ClosedClos(BOTTOM) && ClosedClos(Clos(Source(src), Empty));
    assert Unwind(t, [BOTTOM]) == Unwind(Call(t, Stop), [BOTTOM][1..]);
  }

  ghost predicate MachineCrashes(src: string) {
    !NeverCrashes(Start(src))
  }

  predicate ClosedSource(src: string) {
    Legible(src) && ClosedTerm(SourceTerm(src), Empty, {})
  }

  /** Soundness, for every closed expression: if the machine halts, it does so with the results with
      which the reduction reaches HALT, whatever it may have skipped on the way. */
  lemma MachineNeverWrong(src: string, out: seq<Value>)
    requires ClosedSource(src) && MachineYields(src, out)
    ensures ReductionYields(src, out)
  {
    hide ParseFrom, GLOBALS, Run, Normalise, Step, Start, Legible, Focus, Program, ClosedFocus;
    StartFocus(src);
    var n: nat :| HaltsWith(Run(Start(src), n), out);
    StopsLater(Start(src), 1, n);
    var k := Faithful(Clos(Source(src), Empty), [BOTTOM], [], n - 1);
  }

  /** Main result: the machine halts with given results exactly if the reduction reaches HALT with
      them and the machine does not crash. */
  lemma MachineIsCallByName(src: string, out: seq<Value>)
    requires ClosedSource(src)
    ensures MachineYields(src, out) <==> ReductionYields(src, out) && !MachineCrashes(src)
  {
    hide ParseFrom, GLOBALS, Run, Normalise, Step, Start, SkipsAt, Legible, Focus, Program, ClosedFocus;
    var m := Start(src);
    if MachineYields(src, out) {
      MachineNeverWrong(src, out);
      var n: nat :| HaltsWith(Run(m, n), out);
      forall j: nat ensures Run(m, j).status != Undefined {
        if Run(m, j).status == Undefined {
          SameStop(m, n, j);
        }
      }
    }
    if ReductionYields(src, out) && !MachineCrashes(src) {
      NeverCrashesLater(m, 1);
      ReductionRuns(src, out);
    }
  }

  lemma ReductionRuns(src: string, out: seq<Value>)
    requires ClosedSource(src) && ReductionYields(src, out)
    requires NeverCrashes(Run(Start(src), 1)) || NeverSkips(Run(Start(src), 1))
    ensures MachineYields(src, out)
  {
    hide ParseFrom, GLOBALS, Run, Normalise, Step, Start, SkipsAt, Legible, Focus, Program, ClosedFocus;
    StartFocus(src);
    var k: nat :| Normalise(Program(src), [], k) == Some(out);
    var n := Complete(Clos(Source(src), Empty), [BOTTOM], [], [], k, out);
    RunPlus(Start(src), 1, n);
    assert HaltsWith(Run(Start(src), 1 + n), out);
  }

  /** Only an argument skipped can make the machine crash where the reduction reaches HALT: while
      the skip test does not fire, the two agree without reservation. */
  lemma AgreeWithoutSkipping(src: string, out: seq<Value>)
    requires ClosedSource(src) && NeverSkips(Start(src))
    ensures MachineYields(src, out) <==> ReductionYields(src, out)
  {
    hide ParseFrom, GLOBALS, Run, Normalise, Step, Start, SkipsAt, Legible;
    if MachineYields(src, out) {
      MachineNeverWrong(src, out);
    }
    if ReductionYields(src, out) {
      NeverSkipsLater(Start(src), 1);
      ReductionRuns(src, out);
    }
  }

  /** A reduction has one outcome. */
  lemma {:induction false} OneOutcome(t: Lambda, res: seq<Value>, j: nat, k: nat)
    requires Normalise(t, res, j).Some? && Normalise(t, res, k).Some?
    ensures Normalise(t, res, j) == Normalise(t, res, k)
    decreases j
  {
    hide Reduce;
    if Reduce(t).Next? {
      OneOutcome(Reduce(t).term, Push(Reduce(t).pushed, res), j - 1, k - 1);
    }
  }
}
