/** The configuration as the program stores it: the program and every pending
    computation are texts, taken apart and put together again at each instruction. */
module NfnMachine {
  import opened LambdaText
  import opened Options
  import opened Zam
  import opened Krivine

  // ----- texts of environments and closures -----

  function RenderEnv(e: Env<Code>): Env<string> {
    match e
    case Empty => Empty
    case Bind(n, c, next) => Bind(n, RenderClos(c), RenderEnv(next))
  }

  function RenderClos(c: Clos<Code>): Clos<string> {
    Clos(Render(c.code), RenderEnv(c.env))
  }

  function RenderArgs(args: seq<Clos<Code>>): seq<Clos<string>> {
    seq(|args|, i requires 0 <= i < |args| => RenderClos(args[i]))
  }

  lemma RenderPush(c: Clos<Code>, args: seq<Clos<Code>>)
    ensures RenderArgs([c] + args) == [RenderClos(c)] + RenderArgs(args)
  {
  }

  lemma RenderPop(args: seq<Clos<Code>>)
    requires args != []
    ensures RenderArgs(args)[0] == RenderClos(args[0]) && RenderArgs(args)[1..] == RenderArgs(args[1..])
  {
  }

  lemma {:induction false} LookupRender(e: Env<Code>, name: string)
    ensures Lookup(RenderEnv(e), name) == match Lookup(e, name)
                                          case None => None
                                          case Some(c) => Some(RenderClos(c))
  {
    match e
    case Empty =>
    case Bind(n, _, next) => LookupRender(next, name);
  }

  /** Scannable programs are told apart by their texts. */
  lemma {:induction false} RenderInjective(c: Code, d: Code)
    requires ScannableCode(c) && ScannableCode(d) && c.Then? && d.Then?
    requires Render(c) == Render(d)
    ensures c == d
    decreases c
  {
    hide Render, SoundSource;
    NextTokenExact(c.head, c.tail);
    NextTokenExact(d.head, d.tail);
    if c.head.Closure? {
      RenderInjective(c.head.body, d.head.body);
    }
    if c.tail.Then? {
      RenderInjective(c.tail, d.tail);
    }
  }

  // ----- texts of programs -----

  /** The continuation as it is glued behind new instructions. */
  function Pending(contd: Option<string>): string {
    match contd
    case None => ""
    case Some(s) => ";" + s
  }

  lemma RenderThen(i: Instr, k: Code)
    ensures Render(Then(i, k)) == RenderInstr(i) + Pending(RestText(k))
  {
    RenderSplit(i, k);
  }

  lemma RenderTwo(i: Instr, j: Instr, k: Code)
    ensures Render(Then(i, Then(j, k))) == RenderInstr(i) + ";" + RenderInstr(j) + Pending(RestText(k))
  {
    hide Render, RenderInstr;
    RenderThen(i, Then(j, k));
    RenderThen(j, k);
    JoinPrograms(RenderInstr(i), RenderInstr(j), Pending(RestText(k)));
  }

  lemma JoinPrograms(a: string, b: string, c: string)
    ensures a + (";" + (b + c)) == a + ";" + b + c
  {
  }

  lemma JoinSemicolon(a: string, b: string)
    ensures a + (b + ";") == a + b + ";"
  {
  }

  lemma TailApplyText(k: Code)
    ensures Render(Then(TailApply, k)) == "TAILAPPLY" + Pending(RestText(k))
  {
    RenderThen(TailApply, k);
  }

  lemma InstrText(v: string)
    ensures RenderInstr(Access(v)) == "ACCESS(" + v + ")"
    ensures RenderInstr(Grab(v)) == "GRAB(" + v + ")"
    ensures RenderInstr(ResolveName(v)) == "RESOLVENAME(" + v + ")"
    ensures RenderInstr(TailApply) == "TAILAPPLY"
  {
  }

  lemma AccessText(v: string, k: Code)
    ensures Render(Then(Access(v), Then(TailApply, k))) == "ACCESS(" + v + ");" + "TAILAPPLY" + Pending(RestText(k))
  {
    hide Render, RenderInstr;
    RenderTwo(Access(v), TailApply, k);
    InstrText(v);
    assert "ACCESS(" + v + ")" + ";" == "ACCESS(" + v + ");";
  }

  lemma ResolveText(src: string, k: Code)
    ensures Render(Then(ResolveName(src), k)) == "RESOLVENAME(" + src + ")" + Pending(RestText(k))
  {
    hide Render, RenderInstr;
    RenderThen(ResolveName(src), k);
    InstrText(src);
  }

  lemma GrabText(v: string, src: string, k: Code)
    ensures Render(Then(Grab(v), Then(ResolveName(src), k)))
         == "GRAB(" + v + ");" + ("RESOLVENAME(" + src + ")") + Pending(RestText(k))
  {
    hide Render, RenderInstr;
    RenderTwo(Grab(v), ResolveName(src), k);
    InstrText(v);
    InstrText(src);
    assert "GRAB(" + v + ")" + ";" == "GRAB(" + v + ");";
  }

  lemma ApplicationText(arg: string, fct: string, k: Code)
    ensures Render(Then(Closure(Then(ResolveName(arg), End)), Then(ResolveName(fct), k)))
         == "CLOSURE(RESOLVENAME(" + arg + "));" + ("RESOLVENAME(" + fct + ")") + Pending(RestText(k))
  {
    hide Render, RenderInstr;
    RenderTwo(Closure(Then(ResolveName(arg), End)), ResolveName(fct), k);
    InstrText(fct);
    ClosureText(arg);
    JoinSemicolon("CLOSURE(RESOLVENAME(" + arg, "))");
    assert "))" + ";" == "));";
  }

  lemma ClosureText(arg: string)
    ensures RenderInstr(Closure(Then(ResolveName(arg), End))) == "CLOSURE(RESOLVENAME(" + arg + "))"
  {
    ResolveText(arg, End);
    assert RenderInstr(Closure(Then(ResolveName(arg), End)))
        == "CLOSURE" + ("(" + Render(Then(ResolveName(arg), End)) + ")");
  }

  // ----- the text of an argument as the skip test sees it -----

  lemma {:induction false} UpToCloseExact(src: string, rest: string)
    ensures UpToClose(src + ")" + rest) == UpToClose(src) && |UpToClose(src)| < |src + ")" + rest|
  {
    if src != "" {
      assert (src + ")" + rest)[1..] == src[1..] + ")" + rest;
      UpToCloseExact(src[1..], rest);
    }
  }

  const RESOLVE_HEAD := "RESOLVENAME("

  lemma ResolveHead(body: Code)
    requires ScannableCode(body) && body.Then?
    ensures RESOLVE_HEAD <= Render(body) <==> body.head.ResolveName?
    ensures body.head.ResolveName? ==>
              var text := Render(body)[|RESOLVE_HEAD|..];
              UpToClose(text) == UpToClose(body.head.src) && |UpToClose(text)| < |text|
  {
    hide Render, SoundSource, ScannableCode, NextToken, UpToClose;
    var s := Render(body);
    if body.head.ResolveName? {
      var src := body.head.src;
      ResolveText(src, body.tail);
      UpToCloseExact(src, Pending(RestText(body.tail)));
      assert s == RESOLVE_HEAD + (src + ")" + Pending(RestText(body.tail)));
      assert s[|RESOLVE_HEAD|..] == src + ")" + Pending(RestText(body.tail));
    } else if RESOLVE_HEAD <= s {
      HeadAndTail(body);
      NextTokenExact(body.head, body.tail);
      NotResolve(s);
      assert false;
    }
  }

  lemma NotResolve(s: string)
    requires RESOLVE_HEAD <= s
    ensures NextToken(s).token == TResolveName
  {
    var m := "RESOLVENAME";
    var rest := s[|m|..];
    assert s == m + rest && rest[0] == '(';
    HeadLengthExact(m, rest);
    MnemonicClassified(ResolveName(""), rest);
    assert s[..|m|] == m;
  }

  // ----- the predefined functions -----

  function BinaryCommand(op: string, tail: string): string {
    "CLOSURE(" + op + ");" + ("RESOLVENAME(" + "@op(@x(@y x y op))" + ")") + tail
  }

  lemma OpClosureText(op: Builtin)
    ensures RenderInstr(Closure(Then(Op(op), End))) == "CLOSURE(" + BuiltinName(op) + ")"
    ensures Render(TAIL) == "TAILAPPLY"
  {
    hide BuiltinName;
    assert Render(Then(Op(op), End)) == BuiltinName(op);
    assert RenderInstr(TailApply) == "TAILAPPLY";
  }

  lemma BinaryCommandText(op: Builtin, rest: Code)
    ensures Render(BinaryOp(op, rest)) == BinaryCommand(BuiltinName(op), Pending(RestText(rest)))
  {
    hide Render, RenderInstr, BuiltinName;
    RenderTwo(Closure(Then(Op(op), End)), ResolveName("@op(@x(@y x y op))"), rest);
    OpClosureText(op);
    InstrText("@op(@x(@y x y op))");
    var n := BuiltinName(op);
    assert "CLOSURE(" + n + ")" + ";" == "CLOSURE(" + n + ");";
  }

  lemma IfElseCommandText()
    ensures Render(IFELSE) == "CLOSURE(" + "OP_IFELSE" + ");" + ("RESOLVENAME(" + "@op(@x x op)" + ")") + ";TAILAPPLY"
    ensures Lookup(GLOBALS, "ifelse") == Some(Clos(IFELSE, Empty))
  {
    hide Render, RenderInstr;
    RenderTwo(Closure(Then(Op(OpIfElse), End)), ResolveName("@op(@x x op)"), TAIL);
    OpClosureText(OpIfElse);
    InstrText("@op(@x x op)");
    assert "CLOSURE(" + BuiltinName(OpIfElse) + ")" + ";" == "CLOSURE(" + BuiltinName(OpIfElse) + ");";
    assert RestText(TAIL) == Some("TAILAPPLY") && Pending(Some("TAILAPPLY")) == ";TAILAPPLY";
  }

  method AllocAndAdd(env: Env<string>, name: string, cmd: string) returns (e: Env<string>)
    ensures e == Bind(name, Clos(cmd, Empty), env)
  {
    e := Bind(name, Clos(cmd, Empty), env);
  }

  method SetupChurchEnvironment() returns (env: Env<string>)
    ensures env == RenderEnv(CHURCH_GLOBALS)
  {
    hide Render, RenderInstr, BinaryCommand;
    ResolveText("@x@y x", End);
    ResolveText("@x@y y", End);
    ResolveText("@expr@yes@no(expr yes no)", End);
    BinaryCommandText(OpCmpEqChurch, End);
    BinaryCommandText(OpCmpLeqChurch, End);
    env := AllocAndAdd(Empty, "true_church", "RESOLVENAME(" + "@x@y x" + ")" + "");
    env := AllocAndAdd(env, "false_church", "RESOLVENAME(" + "@x@y y" + ")" + "");
    env := AllocAndAdd(env, "eq_church", BinaryCommand("OP_CMPEQ_CHURCH", ""));
    env := AllocAndAdd(env, "leq_church", BinaryCommand("OP_CMPLEQ_CHURCH", ""));
    env := AllocAndAdd(env, "ifelse_church", "RESOLVENAME(" + "@expr@yes@no(expr yes no)" + ")" + "");
  }

  method SetupGlobalEnvironment() returns (env: Env<string>)
    ensures env == RenderEnv(GLOBALS)
  {
    hide Render, RenderInstr, BinaryCommand;
    BinaryCommandText(OpCmpEq, End);
    BinaryCommandText(OpCmpLeq, End);
    IfElseCommandText();
    BinaryCommandText(OpAdd, TAIL);
    BinaryCommandText(OpSub, TAIL);
    BinaryCommandText(OpMult, TAIL);
    OpClosureText(OpAdd);
    assert RestText(TAIL) == Some("TAILAPPLY") && Pending(Some("TAILAPPLY")) == ";TAILAPPLY";
    env := SetupChurchEnvironment();
    env := AllocAndAdd(env, "eq", BinaryCommand("OP_CMPEQ", ""));
    env := AllocAndAdd(env, "leq", BinaryCommand("OP_CMPLEQ", ""));
    env := AllocAndAdd(env, "ifelse", "CLOSURE(" + "OP_IFELSE" + ");" + ("RESOLVENAME(" + "@op(@x x op)" + ")") + ";TAILAPPLY");
    env := AllocAndAdd(env, "add", BinaryCommand("OP_ADD", ";TAILAPPLY"));
    env := AllocAndAdd(env, "sub", BinaryCommand("OP_SUB", ";TAILAPPLY"));
    env := AllocAndAdd(env, "mult", BinaryCommand("OP_MULT", ";TAILAPPLY"));
  }

  method SearchInEnvironment(environment: Env<string>, name: string) returns (c: Option<Clos<string>>)
    ensures c == Lookup(environment, name)
  {
    var env := environment;
    while env.Bind?
      invariant Lookup(environment, name) == Lookup(env, name)
      decreases env
    {
      if env.name == name {
        return Some(env.clos);
      }
      env := env.next;
    }
    c := None;
  }

  /** The text before the first closing parenthesis; None if there is none. */
  method StrChrClose(s: string) returns (v: Option<string>)
    ensures v == if |UpToClose(s)| < |s| then Some(UpToClose(s)) else None
  {
    var p := 0;
    while p < |s| && s[p] != ')'
      invariant p <= |s|
      invariant |UpToClose(s)| == p + |UpToClose(s[p..])|
    {
      assert s[p..][1..] == s[p + 1..];
      p := p + 1;
    }
    UpToClosePrefix(s);
    assert |UpToClose(s[p..])| == 0;
    assert UpToClose(s) == s[..p];
    v := if p < |s| then Some(s[..p]) else None;
  }

  lemma {:induction false} UpToClosePrefix(s: string)
    ensures UpToClose(s) <= s
  {
    if s != "" && s[0] != ')' {
      UpToClosePrefix(s[1..]);
    }
  }

  /** The text of a term, through a scratch buffer that is large enough. */
  method Printed(t: Term) returns (s: string)
    ensures s == Text(t)
  {
    ghost var size := |Text(t)|;
    var n := PrintSize(t);
    var dummybuf := new char[n + 2];
    var len := TermToStr(dummybuf, 0, t, '\0');
    s := dummybuf[..len];
  }

  /** An upper bound of the printed length. */
  function PrintSize(t: Term): (n: nat)
    ensures forall last :: |Print(t, last)| <= n
  {
    match t
    case Var(v) => |v| + 1
    case Lam(v, b) => |v| + PrintSize(b) + 3
    case App(f, a) => PrintSize(f) + PrintSize(a) + 3
  }

  lemma StartSound(expression: string)
    requires SoundSource(expression)
    ensures Sound(Start(expression))
  {
    hide SoundSource;
    var m := Start(expression);
    assert ScannableCode(End);
    assert Scannable(Halt) && ScannableCode(Then(Halt, End));
    assert Scannable(m.prog.head) && ScannableCode(m.prog.tail);
  }

  lemma JoinEnd(a: string, b: string)
    ensures a + b + "" == a + b
  {
  }

  lemma HaltClosureText()
    ensures RenderInstr(Closure(Then(Halt, End))) == "CLOSURE(HALT)"
  {
  }

  lemma StartText(expression: string)
    ensures Render(Start(expression).prog) == "CLOSURE(HALT);" + ("RESOLVENAME(" + expression + ")")
  {
    hide Render, RenderInstr;
    HaltClosureText();
    RenderTwo(Closure(Then(Halt, End)), ResolveName(expression), End);
    InstrText(expression);
    JoinEnd("CLOSURE(HALT);", "RESOLVENAME(" + expression + ")");
    assert "CLOSURE(HALT)" + ";" == "CLOSURE(HALT);";
  }

  lemma SoundHead(m: Machine)
    requires Sound(m) && m.prog.Then?
    ensures Scannable(m.prog.head) && ScannableCode(m.prog.tail)
    ensures m.prog.head.ResolveName? ==> SoundSource(m.prog.head.src)
  {
    hide SoundEnv, SoundClos;
    HeadAndTail(m.prog);
  }

  lemma BuiltinStep(m: Machine)
    requires !Stopped(m) && m.prog.head.Op?
    ensures Step(m) == Apply(m, m.prog.head.op, m.prog.tail)
  {
  }

  lemma AppendThen(c: Code, k: Code)
    requires c.Then?
    ensures Append(c, k).Then?
  {
  }

  lemma AppendText(c: Code, k: Code)
    requires c.Then?
    ensures RestText(Append(c, k)) == Some(Render(c) + Pending(RestText(k)))
  {
    hide Render, Append;
    RenderAppend(c, k);
    AppendThen(c, k);
    assert Render(c) + "" == Render(c);
    assert Render(c) + ";" + Render(k) == Render(c) + (";" + Render(k));
  }

  lemma SkipTest(m: Machine, body: Code, v: string)
    requires Sound(m) && m.args == [] && ScannableCode(body) && body.Then? && body.head.ResolveName?
    requires v == UpToClose(body.head.src)
    ensures var c := Lookup(RenderEnv(m.env), v);
            SkipsArgument(m, body) <==> c.Some? && c.value.code == Render(body)
  {
    hide Render, SoundSource, ScannableCode;
    LookupRender(m.env, v);
    var c := Lookup(m.env, v);
    if c.Some? && Render(c.value.code) == Render(body) {
      LookupSound(m.env, v);
      RenderInjective(c.value.code, body);
    }
  }

  // ----- the configuration -----

  /** The stored texts and stacks are those of the structured configuration. */
  ghost predicate Shows(prog: Option<string>, env: Env<string>, args: seq<Clos<string>>, results: seq<Value>,
                        status: Status, m: Machine)
  {
    prog == RestText(m.prog) && env == RenderEnv(m.env) && args == RenderArgs(m.args) &&
    results == m.results && status == m.status
  }

  class Configuration {
    var prog: Option<string>
    var env: Env<string>
    var argumentStack: seq<Clos<string>>
    var resultStack: seq<Value>
    var status: Status
    const globalDict: Env<string>
    ghost var m: Machine  // the structured configuration that the texts stand for

    ghost predicate Valid()
      reads this
    {
      Sound(m) && Shows(prog, env, argumentStack, resultStack, status, m) && globalDict == RenderEnv(GLOBALS)
    }

    constructor (expression: string)
      requires SoundSource(expression)
      ensures Valid() && m == Start(expression)
    {
      hide Render, RenderInstr, SoundSource;
      var dict := SetupGlobalEnvironment();
      globalDict := dict;
      prog := Some("CLOSURE(HALT);" + ("RESOLVENAME(" + expression + ")"));
      env, argumentStack, resultStack, status := Empty, [], [], Running;
      m := Start(expression);
      StartSound(expression);
      StartText(expression);
    }

    /** What one instruction does to the texts is what it does to the structured configuration. */
    method ZamTerm()
      requires Valid() && !Stopped(m)
      modifies this
      ensures Valid() && m == Step(old(m))
    {
      hide Render, RenderInstr, SoundSource, ScannableCode, NextToken, Resolve, Apply;
      ghost var i, k := m.prog.head, m.prog.tail;
      HeadAndTail(m.prog);
      NextTokenExact(i, k);
      var token, arg, contd := ScanToken(prog.value);
      match token
      case TAccess =>
        DoAccess(arg.value, contd);
      case TClosure =>
        DoClosure(arg.value, contd);
      case TGrab =>
        DoGrab(arg.value, contd);
      case THalt =>
        DoHalt(contd);
      case TResolveName =>
        DoResolveName(arg.value, contd);
      case TTailApply =>
        DoTailApply(contd);
      case TBuiltin(op) =>
        DoBuiltin(op, contd);
    }

    /** The instruction at the head of the program, with its continuation. */
    ghost predicate At(i: Instr, contd: Option<string>)
      reads this
    {
      Valid() && !Stopped(m) && m.prog.head == i && contd == RestText(m.prog.tail)
    }

    method DoAccess(arg: string, contd: Option<string>)
      requires At(Access(arg), contd)
      modifies this
      ensures Valid() && m == Step(old(m))
    {
      hide Render, Sound, GLOBALS, Lookup, RenderEnv;
      StepSound(m);
      LookupRender(m.env, arg);
      LookupRender(GLOBALS, arg);
      ghost var before := m;
      m := Step(m);
      var c := SearchInEnvironment(env, arg);
      if c.None? {
        if arg in NETWORK_FUNCTIONS {
          status := Outside;
          return;
        }
        c := SearchInEnvironment(globalDict, arg);
        if c.None? {
          prog := None;
          return;
        }
      }
      RenderPush(m.args[0], before.args);
      argumentStack := [c.value] + argumentStack;
      prog := contd;
    }

    method DoClosure(arg: string, contd: Option<string>)
      requires !Stopped(m) && m.prog.head.Closure? && arg == Render(m.prog.head.body)
      requires At(m.prog.head, contd)
      modifies this
      ensures Valid() && m == Step(old(m))
    {
      ghost var before, body := m, m.prog.head.body;
      hide Render, Sound, SkipsArgument, ScannableCode, RenderEnv, GLOBALS;
      StepSound(m);
      var skip := Skips(arg);
      RenderPush(Clos(body, m.env), m.args);
      m := Step(m);
      if skip {
        prog := if contd.None? then Some(arg) else contd;
      } else {
        argumentStack := [Clos(arg, env)] + argumentStack;
        prog := contd;
      }
    }

    /** The test for an argument that is bound to itself. */
    method Skips(arg: string) returns (skip: bool)
      requires Valid() && !Stopped(m) && m.prog.head.Closure? && arg == Render(m.prog.head.body)
      ensures skip == SkipsArgument(m, m.prog.head.body)
    {
      ghost var body := m.prog.head.body;
      HeadAndTail(m.prog);
      ResolveHead(body);
      hide Render, ScannableCode;
      skip := false;
      if argumentStack == [] && RESOLVE_HEAD <= arg {
        var v := StrChrClose(arg[|RESOLVE_HEAD|..]);
        if v.Some? {
          var c := SearchInEnvironment(env, v.value);
          skip := c.Some? && c.value.code == arg;
          SkipTest(m, body, v.value);
        }
      }
    }

    method DoGrab(arg: string, contd: Option<string>)
      requires At(Grab(arg), contd)
      modifies this
      ensures Valid() && m == Step(old(m))
    {
      hide Render, Sound, GLOBALS;
      StepSound(m);
      if argumentStack == [] {
        status := Undefined;
      } else {
        RenderPop(m.args);
        env := Bind(arg, argumentStack[0], env);
        argumentStack := argumentStack[1..];
        prog := contd;
      }
      m := Step(m);
    }

    method DoHalt(contd: Option<string>)
      requires At(Halt, contd)
      modifies this
      ensures Valid() && m == Step(old(m))
    {
      hide Render, Sound, GLOBALS, RenderEnv;
      StepSound(m);
      m := Step(m);
      argumentStack := [];
      status := Halted;
      prog := contd;
    }

    method DoTailApply(contd: Option<string>)
      requires At(TailApply, contd)
      modifies this
      ensures Valid() && m == Step(old(m))
    {
      assert m.args != [] ==> SoundClos(m.args[0]);
      hide Render, Sound, ScannableCode, RenderEnv, GLOBALS;
      StepSound(m);
      if argumentStack == [] {
        status := Undefined;
      } else {
        RenderPop(m.args);
        AppendText(m.args[0].code, m.prog.tail);
        prog := Some(argumentStack[0].code + Pending(contd));
        env := argumentStack[0].env;
        argumentStack := argumentStack[1..];
      }
      m := Step(m);
    }

    method DoResolveName(arg: string, contd: Option<string>)
      requires At(ResolveName(arg), contd)
      modifies this
      ensures Valid() && m == Step(old(m))
    {
      hide Render, ParseFrom, ScannableCode, Balanced, Sound, Literal, RenderEnv, GLOBALS, RenderArgs;
      SoundHead(m);
      ghost var k := m.prog.tail;
      StepSound(m);
      m := Step(m);
      if "let" <= arg {
        status := Outside;
        return;
      }
      var cp := new Cursor(arg);
      var parsed := cp.StrToTerm();
      var t := parsed.value;
      if t.Var? {
        if Literal(t.name).Some? {
          resultStack := [Literal(t.name).value] + resultStack;
          prog := Some("TAILAPPLY" + Pending(contd));
          TailApplyText(k);
        } else {
          prog := Some("ACCESS(" + t.name + ");" + "TAILAPPLY" + Pending(contd));
          AccessText(t.name, k);
        }
      } else if t.Lam? {
        var body := Printed(t.body);
        prog := Some("GRAB(" + t.name + ");" + ("RESOLVENAME(" + body + ")") + Pending(contd));
        GrabText(t.name, body, k);
      } else {
        var n := Printed(t.arg);
        var f := Printed(t.fct);
        prog := Some("CLOSURE(RESOLVENAME(" + n + "));" + ("RESOLVENAME(" + f + ")") + Pending(contd));
        ApplicationText(n, f, k);
      }
    }

    method DoBuiltin(op: Builtin, contd: Option<string>)
      requires At(Op(op), contd)
      modifies this
      ensures Valid() && m == Step(old(m))
    {
      if op == OpFind || op == OpRaw {
        hide Render, ScannableCode;
        status, m := Outside, m.(status := Outside);
      } else if op == OpIfElse {
        DoIfElse(contd);
      } else {
        DoBinary(op, contd);
      }
    }

    method DoBinary(op: Builtin, contd: Option<string>)
      requires op != OpFind && op != OpRaw && op != OpIfElse
      requires At(Op(op), contd)
      modifies this
      ensures Valid() && m == Step(old(m))
    {
      hide Render, Sound, BinaryAnswer, Step, RenderEnv, GLOBALS, RenderArgs;
      ghost var k := m.prog.tail;
      StepSound(m);
      BuiltinStep(m);
      m := Step(m);
      if |resultStack| < 2 {
        status := Paused;
        return;
      }
      var i1, i2 := 0, 0;
      if resultStack[0].IntV? {
        if !resultStack[1].IntV? {
          status := Undefined;
          return;
        }
        i1, i2 := resultStack[0].i, resultStack[1].i;
      }
      resultStack := resultStack[2..];
      match BinaryAnswer(op, i1, i2)
      case Push(h) =>
        resultStack, prog := [IntV(h)] + resultStack, contd;
      case Answer(cp) =>
        ResolveText(cp, k);
        prog := Some("RESOLVENAME(" + cp + ")" + Pending(contd));
    }

    method DoIfElse(contd: Option<string>)
      requires At(Op(OpIfElse), contd)
      modifies this
      ensures Valid() && m == Step(old(m))
    {
      hide Render, Sound, Step, RenderEnv, GLOBALS;
      StepSound(m);
      BuiltinStep(m);
      m := Step(m);
      if resultStack == [] {
        status := Paused;
        return;
      }
      var h := resultStack[0];
      resultStack := resultStack[1..];
      if !h.IntV? {
        prog := None;
        return;
      }
      if h.i != 0 {
        if argumentStack == [] {
          status := Undefined;
          return;
        }
        var stack := argumentStack[0];
        argumentStack := argumentStack[1..];
        argumentStack := [stack] + if argumentStack == [] then [] else argumentStack[1..];
      } else {
        argumentStack := if argumentStack == [] then [] else argumentStack[1..];
      }
      prog := contd;
    }
  }

  // ----- the result -----

  function DecimalNat(n: nat): (s: string)
    ensures s != ""
  {
    if n < 10 then [('0' as int + n) as char] else DecimalNat(n / 10) + [('0' as int + n % 10) as char]
  }

  function Decimal(i: int): string {
    if i < 0 then "-" + DecimalNat(-i) else DecimalNat(i)
  }

  /** The decimal text of a number reads back as that number, and has no leading zero. */
  lemma {:induction false} DecimalReads(n: nat)
    ensures DigitsValue(DecimalNat(n), 10) == Some(n)
    ensures IsDigit(DecimalNat(n)[0]) && (DecimalNat(n)[0] == '0' ==> n == 0)
  {
    if n < 10 {
      assert DecimalNat(n)[..0] == "";
    } else {
      DecimalReads(n / 10);
      assert DecimalNat(n)[..|DecimalNat(n)| - 1] == DecimalNat(n / 10);
    }
  }

  /** A decimal notation of an integer: a minus sign for a negative one, and no leading zeros. */
  predicate Notation(text: string, i: int) {
    if i < 0 then text != "" && text[0] == '-' && DigitsValue(text[1..], 10) == Some(-i) && text[1..2] != "0"
    else text != "" && text[0] != '-' && DigitsValue(text, 10) == Some(i) && (i > 0 ==> text[0] != '0')
  }

  lemma DecimalNotation(i: int)
    ensures Notation(Decimal(i), i)
  {
    hide DigitsValue, DecimalNat;
    DecimalReads(if i < 0 then -i else i);
    if i < 0 {
      assert Decimal(i)[1..] == DecimalNat(-i);
      assert Decimal(i)[1..2] == [DecimalNat(-i)[0]];
    }
  }

  /** A text is the notation of one integer at most. */
  lemma NotationOfOne(text: string, i: int, j: int)
    requires Notation(text, i) && Notation(text, j)
    ensures i == j
  {
    hide DigitsValue;
  }

  /** The text of one result; contents of named objects come from the content store. */
  function Exported(v: Value, content: map<string, string>): string {
    match v
    case IntV(i) => Decimal(i)
    case PrefixV(u) => if u in content then content[u] else ""
    case ConstV(_) => ""
  }

  function Export(results: seq<Value>, content: map<string, string>): string {
    if results == [] then "" else Exported(results[0], content) + Export(results[1..], content)
  }

  /** Results are exported one by one, in their order: integers in decimal notation, named contents
      as the content that is found, and nothing for what is not found and for constants. */
  lemma {:induction false} ExportAppend(a: seq<Value>, b: seq<Value>, content: map<string, string>)
    ensures Export(a + b, content) == Export(a, content) + Export(b, content)
  {
    hide Exported;
    if a == [] {
      assert a + b == b;
    } else {
      ExportAppend(a[1..], b, content);
      assert (a + b)[1..] == a[1..] + b && (a + b)[0] == a[0];
      assert Exported(a[0], content) + (Export(a[1..], content) + Export(b, content))
          == (Exported(a[0], content) + Export(a[1..], content)) + Export(b, content);
    }
  }

  lemma ExportInteger(i: int, content: map<string, string>)
    ensures Export([IntV(i)], content) == Decimal(i)
  {
    hide Decimal;
    assert [IntV(i)][1..] == [] && Decimal(i) + "" == Decimal(i);
  }

  lemma ExportOne(v: Value, content: map<string, string>)
    ensures v.IntV? ==> Notation(Export([v], content), v.i)
    ensures v.PrefixV? ==> Export([v], content) == if v.uri in content then content[v.uri] else ""
    ensures v.ConstV? ==> Export([v], content) == ""
  {
    hide Decimal, Notation;
    assert [v][1..] == [] && Exported(v, content) + "" == Exported(v, content);
    if v.IntV? {
      DecimalNotation(v.i);
    }
  }

  method ExportResultStack(c: Configuration, content: map<string, string>) returns (res: string)
    modifies c`resultStack
    ensures res == Export(old(c.resultStack), content) && c.resultStack == []
  {
    hide Exported;
    res := "";
    while c.resultStack != []
      invariant res + Export(c.resultStack, content) == Export(old(c.resultStack), content)
      decreases |c.resultStack|
    {
      res := res + Exported(c.resultStack[0], content);
      c.resultStack := c.resultStack[1..];
    }
  }

  /** Steps a configuration until its program is used up or it has stopped. */
  method RunToEnd(config: Configuration, ghost bound: nat)
    requires config.Valid() && Stopped(Run(config.m, bound))
    modifies config
    ensures config.Valid() && config.m == old(Run(config.m, bound))
  {
    hide Step, Configuration.Valid;
    ghost var n := bound;
    RunningOrStopped(config);
    while config.prog.Some? && config.status.Running?
      invariant config.Valid() && old(Run(config.m, bound)) == Run(config.m, n)
      invariant Stopped(config.m) <==> !(config.prog.Some? && config.status.Running?)
      decreases n
    {
      config.ZamTerm();
      n := n - 1;
      RunningOrStopped(config);
    }
  }

  lemma RunningOrStopped(config: Configuration)
    requires config.Valid()
    ensures Stopped(config.m) <==> !(config.prog.Some? && config.status.Running?)
  {
    hide Step, Render, RenderEnv, RenderArgs, GLOBALS, Sound;
  }

  /** Runs an expression to its end, which must come within `bound` instructions. */
  method Reduction(expression: string, content: map<string, string>, ghost bound: nat)
    returns (res: Option<string>, status: Status)
    requires expression != "" ==> SoundSource(expression) && Stopped(Run(Start(expression), bound))
    ensures expression == "" ==> res == None
    ensures expression != "" ==>
              var m := Run(Start(expression), bound);
              status == m.status && res == if m.status.Paused? then None else Some(Export(m.results, content))
  {
    if expression == "" {
      return None, Running;
    }
    hide Start, Run, SoundSource, Export;
    var config := new Configuration(expression);
    RunToEnd(config, bound);
    status := config.status;
    if status.Paused? {
      return None, status;
    }
    var text := ExportResultStack(config, content);
    res := Some(text);
  }
}
