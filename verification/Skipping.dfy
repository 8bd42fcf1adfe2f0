/** When the machine's test for skipping an argument cannot fire, and what happens when it does. */
module Skipping {
  import opened LambdaText
  import opened Options
  import opened Zam
  import opened Krivine
  import opened MachineRuns
  import opened CallByName

  // ----- when the skip test cannot fire -----

  /** The reduction is about to hand HALT itself to an abstraction. */
  predicate TakesHalt(t: Lambda) {
    match t
    case Call(Fun(_, _), a) => a == Stop
    case Call(f, _) => TakesHalt(f)
    case _ => false
  }

  predicate KeepsHaltFor(t: Lambda, k: nat)
    decreases k
  {
    !TakesHalt(t) && (k > 0 && Reduce(t).Next? ==> KeepsHaltFor(Reduce(t).term, k - 1))
  }

  /** In no reduct is HALT itself handed to an abstraction. */
  ghost predicate KeepsHalt(t: Lambda) {
    forall k: nat :: KeepsHaltFor(t, k)
  }

  lemma KeepsHaltNext(t: Lambda)
    requires KeepsHalt(t) && Reduce(t).Next?
    ensures KeepsHalt(Reduce(t).term)
  {
    hide Reduce;
    forall k: nat ensures KeepsHaltFor(Reduce(t).term, k) {
      assert KeepsHaltFor(t, k + 1);
    }
  }

  lemma {:induction false} TakesHaltUnwind(t: Lambda, args: seq<Clos<Code>>)
    requires t.Call? && TakesHalt(t)
    ensures TakesHalt(Unwind(t, args))
    decreases |args|
  {
    if args != [] {
      TakesHaltUnwind(Call(t, DecodeClos(args[0])), args[1..]);
    }
  }

  /** HALT is running, or still waits behind all arguments. */
  predicate HaltWaits(c: Clos<Code>, args: seq<Clos<Code>>) {
    c.code == HALT || (args != [] && args[|args| - 1] == BOTTOM)
  }

  lemma MoveKeepsHalt(c: Clos<Code>, args: seq<Clos<Code>>)
    requires IsSource(c.code) && ClosedFocus(c, args) && HaltWaits(c, args) && KeepsHalt(Denoted(c, args))
    ensures MoveOf(c, args).Move?
    ensures HaltWaits(MoveOf(c, args).focus, MoveOf(c, args).args)
    ensures KeepsHalt(Denoted(MoveOf(c, args).focus, MoveOf(c, args).args))
  {
    SourceClosed(c);
    hide ParseFrom, Text, Literal, Legible, ClosedTerm, ClosedClos, Reduce, KeepsHalt;
    if MoveOf(c, args).reduces {
      MoveReduces(c, args);
      KeepsHaltNext(Denoted(c, args));
    } else {
      MoveReduces(c, args);
    }
    match SourceTerm(c.code.head.src)
    case Lam(v, b) =>
      LamKeepsHalt(c, v, b, args);
    case _ =>
  }

  lemma LamKeepsHalt(c: Clos<Code>, v: string, b: Term, args: seq<Clos<Code>>)
    requires IsSource(c.code) && SourceTerm(c.code.head.src) == Lam(v, b)
    requires args != [] && KeepsHalt(Denoted(c, args)) && ClosedClos(c)
    ensures args[0] != BOTTOM
  {
    SourceClosed(c);
    hide ParseFrom, Reduce;
    assert KeepsHaltFor(Denoted(c, args), 0);
    if args[0] == BOTTOM {
      var f := DecodeClos(c);
      assert f == Fun(v, Decode(b, c.env, {} + {v}));
      assert DecodeClos(BOTTOM) == Stop;
      TakesHaltUnwind(Call(f, Stop), args[1..]);
    }
  }

  /** The instructions inside a move do not meet the skip test elsewhere. */
  lemma MoveDoesNotSkip(c: Clos<Code>, args: seq<Clos<Code>>, res: seq<Value>, n: nat)
    requires IsSource(c.code) && ClosedFocus(c, args) && MoveOf(c, args).Move? && !Skipped(c, args)
    requires n < MoveOf(c, args).steps
    ensures !SkipsAt(Run(Focus(c, args, res), n))
  {
    SourceClosed(c);
    SourceMeans(c.code);
    hide ParseFrom, Text, GLOBALS, Legible, ClosedTerm, ClosedClos, UpToClose;
    var m := Focus(c, args, res);
    assert Run(m, 0) == m && Run(m, 1) == Step(m);
    if n == 2 {
      RunTwo(m);
    }
  }

  lemma PendingNotSkipped(c: Clos<Code>, args: seq<Clos<Code>>)
    requires IsSource(c.code) && args != []
    ensures !Skipped(c, args)
  {
    hide ParseFrom, Text, Legible;
  }

  lemma {:induction false} RunDoesNotSkip(c: Clos<Code>, args: seq<Clos<Code>>, res: seq<Value>, n: nat)
    requires ClosedFocus(c, args) && HaltWaits(c, args) && KeepsHalt(Denoted(c, args))
    ensures !SkipsAt(Run(Focus(c, args, res), n))
    decreases n
  {
    hide ParseFrom, Text, GLOBALS, Legible, ClosedTerm, KeepsHalt, Denoted, Run, SkipsArgument;
    var m := Focus(c, args, res);
    if c.code == HALT {
      HaltRuns(c.env, args, res);
      if n == 0 {
        assert Run(m, 0) == m by { ZeroSteps(m); }
      } else {
        StoppedStays(m, 1, n);
      }
    } else {
      MoveKeepsHalt(c, args);
      PendingNotSkipped(c, args);
      var mv := MoveOf(c, args);
      if n < mv.steps {
        MoveDoesNotSkip(c, args, res, n);
      } else {
        MoveDoesNotSkip(c, args, res, 1);
        MoveRuns(c, args, res);
        MoveClosed(c, args);
        RunPlus(m, mv.steps, n - mv.steps);
        RunDoesNotSkip(mv.focus, mv.args, CallByName.Push(mv.pushed, res), n - mv.steps);
      }
    }
  }

  lemma ZeroSteps(m: Machine)
    ensures Run(m, 0) == m
  {
  }

  /** Main result: it is enough that the reduction, a matter of the expression alone, never
      hands HALT to an abstraction. */
  lemma KeepingHaltNeverSkips(src: string)
    requires ClosedSource(src) && KeepsHalt(Program(src))
    ensures NeverSkips(Start(src))
  {
    hide ParseFrom, GLOBALS, Run, Legible, Focus, Program, ClosedFocus, KeepsHalt, SkipsAt;
    var c := Clos(Source(src), Empty);
    StartFocus(src);
    assert [BOTTOM][|[BOTTOM]| - 1] == BOTTOM;
    forall n: nat ensures !SkipsAt(Run(Start(src), n)) {
      if n == 0 {
        StartDoesNotSkip(src);
      } else {
        RunPlus(Start(src), 1, n - 1);
        RunDoesNotSkip(c, [BOTTOM], [], n - 1);
      }
    }
  }

  lemma StartDoesNotSkip(src: string)
    ensures !SkipsAt(Run(Start(src), 0))
  {
  }

  lemma HaltKeepersAgree(src: string, out: seq<Value>)
    requires ClosedSource(src) && KeepsHalt(Program(src))
    ensures MachineYields(src, out) <==> ReductionYields(src, out)
  {
    hide *;
    KeepingHaltNeverSkips(src);
    AgreeWithoutSkipping(src, out);
  }

  // ----- a condition on the expression's text alone -----

  function Binders(t: Term): set<string> {
    match t
    case Var(_) => {}
    case Lam(v, b) => {v} + Binders(b)
    case App(f, a) => Binders(f) + Binders(a)
  }

  /** No argument is one of these variables by itself. */
  predicate PassesNone(t: Term, names: set<string>) {
    match t
    case Var(_) => true
    case Lam(_, b) => PassesNone(b, names)
    case App(f, a) => PassesNone(f, names) && PassesNone(a, names) && (a.Var? ==> a.name !in names)
  }

  /** No variable that is bound anywhere in the expression is an argument by itself. */
  predicate PassesNoBound(t: Term) {
    PassesNone(t, Binders(t))
  }

  /** The terms and the names that a run starting from such an expression meets. */
  predicate TermWithin(t: Term, names: set<string>) {
    Proper(t) && PassesNone(t, names) && Binders(t) <= names
  }

  predicate EnvWithin(env: Env<Code>, names: set<string>) {
    match env
    case Empty => true
    case Bind(v, c, next) => v in names && IsName(v) && ClosWithin(c, names) && EnvWithin(next, names)
  }

  predicate ClosWithin(c: Clos<Code>, names: set<string>) {
    c.code == HALT || (IsSource(c.code) && TermWithin(SourceTerm(c.code.head.src), names) && EnvWithin(c.env, names))
  }

  lemma {:induction false} LookupWithin(env: Env<Code>, v: string, names: set<string>)
    requires EnvWithin(env, names) && Lookup(env, v).Some?
    ensures v in names && IsName(v) && ClosWithin(Lookup(env, v).value, names)
  {
    match env
    case Bind(n, _, next) => if n != v { LookupWithin(next, v, names); }
  }

  /** A text cut at its first closing parenthesis is a part of its beginning, or goes beyond it. */
  lemma {:induction false} CutShape(v: string, rest: string)
    ensures if ')' in v then |UpToClose(v + rest)| < |v| && UpToClose(v + rest) == v[..|UpToClose(v + rest)|]
            else UpToClose(v + rest) == v + UpToClose(rest)
  {
    if v == "" {
      assert v + rest == rest;
    } else if v[0] != ')' {
      CutShape(v[1..], rest);
      assert (v + rest)[1..] == v[1..] + rest;
      assert v == [v[0]] + v[1..];
    }
  }

  /** A name with a closing parenthesis, cut there, is no name any more. */
  lemma CutNameIsNoName(v: string, k: nat)
    requires IsName(v) && k < |v| && ')' in v
    ensures !IsName(v[..k])
  {
    assert !IsPlainName(v) && v[0] == '\'';
    if k >= 1 {
      assert v[..k][0] == '\'' && !IsNameChar('\'');
      assert v[..k][k - 1] == v[k - 1];
    }
  }

  /** Nor is a name followed by a space. */
  lemma SpacedIsNoName(v: string, rest: string)
    requires IsName(v) && rest != "" && rest[0] == ' '
    ensures !IsName(v + rest)
  {
    var s := v + rest;
    assert s[|v|] == ' ' && s[0] == v[0];
    if IsQuotedName(v) {
      assert s[|v| - 1] == '\'';
    }
  }

  /** The text of an abstraction or application, cut at its first closing parenthesis, is no name. */
  lemma {:induction false} CutTextIsNoName(t: Term, rest: string)
    requires Proper(t) && (!t.Lam? ==> rest != "" && rest[0] == ' ')
    ensures !IsName(UpToClose(Print(t, '\0') + rest))
    decreases t
  {
    match t {
      case Lam(v, b) =>
        ParenIsNoName(Print(t, '\0') + rest);
      case Var(v) =>
        CutShape(v, rest);
        if ')' in v {
          CutNameIsNoName(v, |UpToClose(v + rest)|);
        } else {
          SpacedIsNoName(v, UpToClose(rest));
        }
      case App(f, a) =>
        AppText(f, a, rest);
        CutTextIsNoName(f, AppTail(a, rest));
    }
  }

  lemma ParenIsNoName(s: string)
    requires s != "" && s[0] == '('
    ensures !IsName(UpToClose(s))
  {
    assert UpToClose(s)[0] == '(';
  }

  function AppTail(a: Term, rest: string): string {
    if a.Var? then " " + (a.name + rest) else " (" + (Print(a, '(') + (")" + rest))
  }

  lemma AppText(f: Term, a: Term, rest: string)
    ensures Print(App(f, a), '\0') + rest == Print(f, '\0') + AppTail(a, rest)
  {
    AppPrint(f, a);
    hide Print;
    if a.Var? {
      JoinName(Print(f, '\0'), a.name, rest);
    } else {
      JoinParens(Print(f, '\0'), Print(a, '('), rest);
    }
  }

  lemma AppPrint(f: Term, a: Term)
    ensures Print(App(f, a), '\0') == Print(f, '\0') + if a.Var? then " " + a.name else " (" + Print(a, '(') + ")"
  {
    var p := Print(f, '\0');
    if !a.Var? {
      var q := Print(a, '(');
      assert Print(App(f, a), '\0') == p + " (" + q + ")";
      hide Print;
      JoinFour(p, " (", q, ")");
    }
  }

  lemma JoinFour(a: string, b: string, c: string, d: string)
    ensures a + b + c + d == a + (b + c + d)
  {
  }

  lemma JoinName(p: string, v: string, rest: string)
    ensures p + (" " + v) + rest == p + (" " + (v + rest))
  {
  }

  lemma JoinParens(p: string, q: string, rest: string)
    ensures p + (" (" + q + ")") + rest == p + (" (" + (q + (")" + rest)))
  {
  }

  /** What is looked up in place of an argument is the argument's own name, or no name at all. */
  lemma CutArgument(a: Term)
    requires Proper(a)
    ensures var v := UpToClose(Text(a)); (a.Var? && v == a.name) || !IsName(v)
  {
    assert Text(a) + "" == Text(a);
    match a {
      case Var(x) =>
        CutShape(x, "");
        if ')' in x {
          CutNameIsNoName(x, |UpToClose(x + "")|);
        } else {
          assert UpToClose(x + "") == x + "" == x;
        }
      case Lam(_, _) =>
        CutTextIsNoName(a, "");
      case App(f, b) =>
        AppText(f, b, "");
        CutTextIsNoName(f, AppTail(b, ""));
    }
  }

  lemma ArgumentNotHeld(a: Term, env: Env<Code>, names: set<string>)
    requires Proper(a) && EnvWithin(env, names) && (a.Var? ==> a.name !in names)
    ensures Lookup(env, UpToClose(Text(a))).None?
  {
    hide Text, UpToClose, IsName, ClosWithin;
    CutArgument(a);
    if Lookup(env, UpToClose(Text(a))).Some? {
      LookupWithin(env, UpToClose(Text(a)), names);
    }
  }

  lemma WithinNotSkipped(c: Clos<Code>, args: seq<Clos<Code>>, names: set<string>)
    requires IsSource(c.code) && ClosWithin(c, names)
    ensures !Skipped(c, args)
  {
    hide ParseFrom, Text, Legible, UpToClose, Lookup;
    var t := SourceTerm(c.code.head.src);
    if t.App? {
      ArgumentNotHeld(t.arg, c.env, names);
    }
  }

  lemma MoveWithin(c: Clos<Code>, args: seq<Clos<Code>>, names: set<string>)
    requires IsSource(c.code) && ClosWithin(c, names) && MoveOf(c, args).Move?
    requires forall x :: x in args ==> ClosWithin(x, names)
    ensures ClosWithin(MoveOf(c, args).focus, names)
    ensures forall x :: x in MoveOf(c, args).args ==> ClosWithin(x, names)
  {
    hide ParseFrom, Text, Legible, Literal;
    match SourceTerm(c.code.head.src) {
      case App(f, a) =>
        TextSource(f);
        TextSource(a);
      case Lam(v, b) =>
        TextSource(b);
        assert args[0] in args;
      case Var(v) =>
        if Literal(v).None? {
          LookupWithin(c.env, v, names);
        }
    }
  }

  lemma {:induction false} WithinNeverSkips(c: Clos<Code>, args: seq<Clos<Code>>, res: seq<Value>, n: nat, names: set<string>)
    requires ClosedFocus(c, args) && ClosWithin(c, names) && forall x :: x in args ==> ClosWithin(x, names)
    ensures !SkipsAt(Run(Focus(c, args, res), n))
    decreases n
  {
    hide ParseFrom, Text, GLOBALS, Legible, ClosedTerm, Denoted, Run, SkipsArgument, ClosWithin, Skipped;
    var m := Focus(c, args, res);
    if c.code == HALT {
      HaltRuns(c.env, args, res);
      if n == 0 {
        assert Run(m, 0) == m by { ZeroSteps(m); }
      } else {
        StoppedStays(m, 1, n);
      }
    } else {
      WithinNotSkipped(c, args, names);
      var mv := MoveOf(c, args);
      if mv.NoMove? {
        NoMoveStuck(c, args, res);
        if n < 2 {
          StuckDoesNotSkip(c, args, res, n);
        } else {
          StoppedStays(m, 2, n);
        }
      } else if n < mv.steps {
        MoveDoesNotSkip(c, args, res, n);
      } else {
        NotSkipped(c, args, res);
        MoveRuns(c, args, res);
        MoveClosed(c, args);
        MoveWithin(c, args, names);
        RunPlus(m, mv.steps, n - mv.steps);
        WithinNeverSkips(mv.focus, mv.args, CallByName.Push(mv.pushed, res), n - mv.steps, names);
      }
    }
  }

  lemma StuckDoesNotSkip(c: Clos<Code>, args: seq<Clos<Code>>, res: seq<Value>, n: nat)
    requires IsSource(c.code) && MoveOf(c, args).NoMove? && n < 2
    ensures !SkipsAt(Run(Focus(c, args, res), n))
  {
    SourceMeans(c.code);
    hide ParseFrom, Text, GLOBALS, Legible, UpToClose;
    var m := Focus(c, args, res);
    assert Run(m, 0) == m && Run(m, 1) == Step(m);
  }

  lemma StartWithin(src: string)
    requires ClosedSource(src) && PassesNoBound(SourceTerm(src))
    ensures var names := Binders(SourceTerm(src));
            ClosWithin(Clos(Source(src), Empty), names) && ClosWithin(BOTTOM, names)
  {
    hide ParseFrom, PassesNone, Proper, ClosedTerm, Binders;
    assert IsSource(Source(src));
  }

  /** Main result: an expression in which no bound variable is an argument by itself never meets the
      skip test. That can be read off the expression. */
  lemma PassingNoBoundNeverSkips(src: string)
    requires ClosedSource(src) && PassesNoBound(SourceTerm(src))
    ensures NeverSkips(Start(src))
  {
    hide ParseFrom, GLOBALS, Run, Focus, Program, ClosedFocus, SkipsAt, ClosWithin, Binders, PassesNone, Legible;
    var c, names := Clos(Source(src), Empty), Binders(SourceTerm(src));
    StartFocus(src);
    StartWithin(src);
    forall n: nat ensures !SkipsAt(Run(Start(src), n)) {
      if n == 0 {
        StartDoesNotSkip(src);
      } else {
        RunPlus(Start(src), 1, n - 1);
        WithinNeverSkips(c, [BOTTOM], [], n - 1, names);
      }
    }
  }

  /** For such expressions the machine is call-by-name reduction, without reservation. */
  lemma PassingNoBoundAgrees(src: string, out: seq<Value>)
    requires ClosedSource(src) && PassesNoBound(SourceTerm(src))
    ensures MachineYields(src, out) <==> ReductionYields(src, out)
  {
    hide *;
    PassingNoBoundNeverSkips(src);
    AgreeWithoutSkipping(src, out);
  }

  // ----- the skip test loses an argument -----

  function LambdaSize(t: Lambda): nat {
    match t
    case Fun(_, b) => 1 + LambdaSize(b)
    case Call(f, a) => 1 + LambdaSize(f) + LambdaSize(a)
    case _ => 1
  }

  lemma CallDiffers(t: Lambda, a: Lambda)
    ensures t != Call(t, a)
  {
    assert LambdaSize(t) < LambdaSize(Call(t, a));
  }

  /** Running an application keeps the denoted term exactly if the skip test does not fire. */
  lemma ApplicationKeepsMeaning(src: string, f: Term, a: Term, env: Env<Code>, args: seq<Clos<Code>>, res: seq<Value>)
    requires Legible(src) && SourceTerm(src) == App(f, a)
    requires ClosedFocus(Clos(Source(src), env), args)
    ensures var m := Run(At(Source(src), env, args, res), 2);
            m == Focus(Clos(Source(Text(f)), env), m.args, res) &&
            (Denoted(Clos(Source(Text(f)), env), m.args) == Denoted(Clos(Source(src), env), args)
             <==> !SkipsArgument(At(End, env, args, res), Source(Text(a))))
  {
    var c := Clos(Source(src), env);
    assert IsSource(c.code);
    SourceClosed(c);
    SourceMeans(c.code);
    hide ParseFrom, Text, Run, Legible, ClosedTerm, ClosedClos, UpToClose, Lookup, DecodeClos;
    SourceClosClosed(f, env);
    SourceClosClosed(a, env);
    ApplicationRuns(src, f, a, env, args, res);
    CallDiffers(Decode(f, env, {}), Decode(a, env, {}));
    assert ([Clos(Source(Text(a)), env)] + args)[1..] == args;
  }

  /** The reduction of this term reaches HALT in four steps, without results. */
  const LOSER_BODY: Term := App(Lam("z", Var("h")), Var("x"))
  const LOSER_INNER: Term := App(Lam("x", Lam("h", LOSER_BODY)), Var("x"))
  const LOSER: Term := App(Lam("x", LOSER_INNER), Var("5"))

  lemma FiveIsLiteral()
    ensures Literal("5") == Some(IntV(5))
    ensures Literal("x").None? && Literal("h").None? && Literal("z").None?
  {
    assert "5"[..0] == "";
    assert DigitsValue("5", 10) == Some(5);
  }

  lemma LoserClosed()
    ensures Proper(LOSER) && ClosedTerm(LOSER, Empty, {})
  {
    FiveIsLiteral();
    assert Proper(LOSER_BODY) && Proper(LOSER_INNER);
    var b1 := {} + {"x"};
    var b2 := b1 + {"x"} + {"h"};
    assert ClosedTerm(Lam("z", Var("h")), Empty, b2) && ClosedTerm(Var("x"), Empty, b2);
    assert ClosedTerm(LOSER_BODY, Empty, b2);
    assert ClosedTerm(Lam("x", Lam("h", LOSER_BODY)), Empty, b1);
    assert ClosedTerm(LOSER_INNER, Empty, b1);
  }

  lemma LoserReduces()
    ensures Normalise(Call(Decode(LOSER, Empty, {}), Stop), [], 4) == Some([])
  {
    FiveIsLiteral();
    hide Literal;
    var five := Lit(IntV(5));
    var body := Call(Fun("z", Free("h")), Free("x"));
    var inner := Call(Fun("x", Fun("h", body)), Free("x"));
    assert Decode(LOSER_BODY, Empty, {} + {"x"} + {"x"} + {"h"}) == body;
    assert Decode(LOSER_INNER, Empty, {} + {"x"}) == inner;
    assert Decode(LOSER, Empty, {}) == Call(Fun("x", inner), five);
    var t0 := Call(Call(Fun("x", inner), five), Stop);
    var t1 := Call(Call(Fun("x", Fun("h", body)), five), Stop);
    assert Subst(inner, "x", five) == Call(Fun("x", Fun("h", body)), five);
    assert Reduce(t0) == Next(t1, None);
    var body5 := Call(Fun("z", Free("h")), five);
    assert Subst(body, "x", five) == body5;
    var t2 := Call(Fun("h", body5), Stop);
    assert Reduce(t1) == Next(t2, None);
    var t3 := Call(Fun("z", Stop), five);
    assert Subst(body5, "h", Stop) == t3;
    assert Reduce(t2) == Next(t3, None);
    assert Reduce(t3) == Next(Stop, None);
    hide Reduce;
    assert Normalise(Stop, [], 0) == Some([]) by { StopReached(); }
    assert Normalise(t3, [], 1) == Some([]);
    assert Normalise(t2, [], 2) == Some([]);
    assert Normalise(t1, [], 3) == Some([]);
  }

  lemma StopReached()
    ensures Normalise(Stop, [], 0) == Some([])
  {
  }

  /** The configuration in which the last argument, HALT, has just been taken. */
  const LOSER_ENV: Env<Code> :=
    Bind("h", BOTTOM, Bind("x", Clos(Source(Text(Var("x"))), Bind("x", Clos(Source(Text(Var("5"))), Empty), Empty)),
                           Bind("x", Clos(Source(Text(Var("5"))), Empty), Empty)))

  lemma LoserRuns()
    ensures Reaches(Start(Text(LOSER)), At(Source(Text(LOSER_BODY)), LOSER_ENV, [], []))
  {
    hide ParseFrom, Text, GLOBALS, Reaches, Run, Means, Literal;
    FiveIsLiteral();
    LoserClosed();
    var five := Clos(Source(Text(Var("5"))), Empty);
    var e1 := Bind("x", five, Empty);
    var again := Clos(Source(Text(Var("x"))), e1);
    var e2 := Bind("x", again, e1);
    var f1, f2, f3 := LOSER.fct, LOSER_INNER.fct, LOSER_INNER.fct.body;
    TextMeans(LOSER);
    TextMeans(f1);
    TextMeans(LOSER_INNER);
    TextMeans(f2);
    TextMeans(f3);
    var m := Start(Text(LOSER));
    var m0 := At(Source(Text(LOSER)), Empty, [BOTTOM], []);
    assert Step(m) == m0;
    ReachesStep(m);
    RunApp(Text(LOSER), f1, Var("5"), End, Empty, [BOTTOM], []);
    RunLam(Text(f1), "x", LOSER_INNER, End, Empty, [five] + [BOTTOM], []);
    RunApp(Text(LOSER_INNER), f2, Var("x"), End, e1, [BOTTOM], []);
    RunLam(Text(f2), "x", f3, End, e1, [again] + [BOTTOM], []);
    RunLam(Text(f3), "h", LOSER_BODY, End, e2, [BOTTOM], []);
    assert ([five] + [BOTTOM])[1..] == [BOTTOM] && ([again] + [BOTTOM])[1..] == [BOTTOM] && [BOTTOM][1..] == [];
    var m1 := At(Source(Text(f1)), Empty, [five] + [BOTTOM], []);
    var m2 := At(Source(Text(LOSER_INNER)), e1, [BOTTOM], []);
    var m3 := At(Source(Text(f2)), e1, [again] + [BOTTOM], []);
    var m4 := At(Source(Text(f3)), e2, [BOTTOM], []);
    ReachesTrans(m, m0, m1);
    ReachesTrans(m, m1, m2);
    ReachesTrans(m, m2, m3);
    ReachesTrans(m, m3, m4);
    ReachesTrans(m, m4, At(Source(Text(LOSER_BODY)), LOSER_ENV, [], []));
  }

  /** With its argument skipped the abstraction finds nothing to take. */
  lemma LoserSkips()
    ensures var m := Run(At(Source(Text(LOSER_BODY)), LOSER_ENV, [], []), 4); Stopped(m) && m.status == Undefined
  {
    hide ParseFrom, GLOBALS;
    FiveIsLiteral();
    LoserClosed();
    hide Literal;
    var f, src := LOSER_BODY.fct, Text(LOSER_BODY);
    TextMeans(LOSER_BODY);
    TextMeans(f);
    var m := At(Source(src), LOSER_ENV, [], []);
    assert Text(Var("x")) == "x" && UpToClose("x") == "x" by { assert "x"[1..] == ""; }
    assert SkipsArgument(At(End, LOSER_ENV, [], []), Source("x"));
    ApplicationRuns(src, f, Var("x"), LOSER_ENV, [], []);
    var n := At(Source(Text(f)), LOSER_ENV, [], []);
    assert Step(n) == At(Then(Grab("z"), Source(Text(Var("h")))), LOSER_ENV, [], []);
    RunTwo(n);
    RunPlus(m, 2, 2);
  }

  /** A concrete failure: this closed expression reduces to HALT without results, but the skip
      test drops an argument and the machine takes one from the empty stack instead. */
  lemma SkippingLosesAnArgument(out: seq<Value>)
    ensures ClosedSource(Text(LOSER)) && ReductionYields(Text(LOSER), [])
    ensures MachineCrashes(Text(LOSER)) && !MachineYields(Text(LOSER), out)
  {
    hide ParseFrom, Text, GLOBALS, Run, Step, Normalise, Decode, Print, Start, LOSER_ENV, LOSER, LOSER_BODY;
    LoserClosed();
    TextSource(LOSER);
    LoserReduces();
    assert Normalise(Program(Text(LOSER)), [], 4) == Some([]);
    LoserRuns();
    LoserSkips();
    var m := Start(Text(LOSER));
    var a: nat :| Run(m, a) == At(Source(Text(LOSER_BODY)), LOSER_ENV, [], []);
    RunPlus(m, a, 4);
    if MachineYields(Text(LOSER), out) {
      var n: nat :| HaltsWith(Run(m, n), out);
      SameStop(m, a + 4, n);
      assert false;
    }
  }
}
