/** The abstract machine on instruction lists. Environments are immutable lists
    that closures share, as in the program; memory management is left out. */
module Krivine {
  import opened LambdaText
  import opened Options
  import opened Zam

  datatype Env<C> = Empty | Bind(name: string, clos: Clos<C>, next: Env<C>)
  datatype Clos<C> = Clos(code: C, env: Env<C>)

  datatype Value = IntV(i: int) | ConstV(text: string) | PrefixV(uri: string)

  datatype Status =
    | Running
    | Halted     // HALT was executed
    | Paused     // a builtin waits for its operands
    | Undefined  // the program dereferences a null pointer or reads a value of the wrong kind
    | Outside    // definitions, network operations and programs that the machine never builds

  /** A configuration; the empty program stands for the null program that ends the loop. */
  datatype Machine = Machine(prog: Code, env: Env<Code>, args: seq<Clos<Code>>, results: seq<Value>, status: Status)

  // ----- integers -----

  /** Two's complement reading of the low 32 bits. */
  function ToInt32(x: int): (r: int)
    ensures -0x8000_0000 <= r < 0x8000_0000
    ensures -0x8000_0000 <= x < 0x8000_0000 ==> r == x
  {
    (x + 0x8000_0000) % 0x1_0000_0000 - 0x8000_0000
  }

  const LONG_MAX: int := 0x7fff_ffff_ffff_ffff

  function DigitValue(c: char): (d: nat) {
    if '0' <= c <= '9' then c as int - '0' as int
    else if 'a' <= c <= 'f' then c as int - 'a' as int + 10
    else if 'A' <= c <= 'F' then c as int - 'A' as int + 10
    else 99
  }

  function DigitsValue(v: string, base: nat): (r: Option<nat>) {
    if v == "" then Some(0)
    else
      var d := DigitValue(v[|v| - 1]);
      match DigitsValue(v[..|v| - 1], base)
      case None => None
      case Some(n) => if d < base then Some(n * base + d) else None
  }

  /** The whole identifier read as a C integer constant: decimal, octal or hexadecimal. */
  function LiteralInt(v: string): (r: Option<int>)
    requires v != ""
  {
    var n := if |v| > 2 && v[0] == '0' && (v[1] == 'x' || v[1] == 'X') then DigitsValue(v[2..], 16)
             else if v[0] == '0' then DigitsValue(v, 8)
             else DigitsValue(v, 10);
    match n
    case None => None
    case Some(k) => Some(ToInt32(if k <= LONG_MAX then k else LONG_MAX))
  }

  /** Identifiers that denote themselves: integers, quoted constants and content names. */
  function Literal(v: string): Option<Value> {
    if v == "" then None
    else if IsDigit(v[0]) then match LiteralInt(v) case None => None case Some(i) => Some(IntV(i))
    else if v[0] == '\'' && 2 <= |v| then Some(ConstV(v[1..|v| - 1]))
    else if v[0] == '/' then Some(PrefixV(v))
    else None
  }

  // ----- environments -----

  function Lookup<C>(e: Env<C>, name: string): Option<Clos<C>> {
    match e
    case Empty => None
    case Bind(n, c, next) => if n == name then Some(c) else Lookup(next, name)
  }

  function BinaryOp(op: Builtin, rest: Code): Code {
    Then(Closure(Then(Op(op), End)), Then(ResolveName("@op(@x(@y x y op))"), rest))
  }

  const TAIL := Then(TailApply, End)

  const IFELSE: Code := Then(Closure(Then(Op(OpIfElse), End)), Then(ResolveName("@op(@x x op)"), TAIL))

  function Global(name: string, code: Code, next: Env<Code>): Env<Code> {
    Bind(name, Clos(code, Empty), next)
  }

  /** The predefined functions that work without the network. */
  const CHURCH_GLOBALS: Env<Code> :=
    Global("ifelse_church", Then(ResolveName("@expr@yes@no(expr yes no)"), End),
    Global("leq_church", BinaryOp(OpCmpLeqChurch, End),
    Global("eq_church", BinaryOp(OpCmpEqChurch, End),
    Global("false_church", Then(ResolveName("@x@y y"), End),
    Global("true_church", Then(ResolveName("@x@y x"), End),
    Empty)))))

  const GLOBALS: Env<Code> :=
    Global("mult", BinaryOp(OpMult, TAIL),
    Global("sub", BinaryOp(OpSub, TAIL),
    Global("add", BinaryOp(OpAdd, TAIL),
    Global("ifelse", IFELSE,
    Global("leq", BinaryOp(OpCmpLeq, End),
    Global("eq", BinaryOp(OpCmpEq, End),
    CHURCH_GLOBALS))))))

  const NETWORK_FUNCTIONS: set<string> := {"call", "raw", "translate"}

  // ----- one instruction -----

  function UpToClose(s: string): string {
    if s == "" || s[0] == ')' then "" else [s[0]] + UpToClose(s[1..])
  }

  /** The machine believes that it is about to push an argument it already holds: with no argument
      pending, the text of the argument is looked up as a variable and found bound to itself. */
  predicate SkipsArgument(m: Machine, body: Code) {
    m.args == [] && body.Then? && body.head.ResolveName? &&
    var c := Lookup(m.env, UpToClose(body.head.src));
    c.Some? && c.value.code == body
  }

  function Resolve(m: Machine, src: string, k: Code): Machine {
    if "let" <= src then m.(status := Outside)
    else match Parse(src)
      case Diverges => m.(status := Undefined)
      case Done(None, _) => m.(status := Undefined)
      case Done(Some(Var(v)), _) =>
        if Literal(v).Some? then m.(prog := Then(TailApply, k), results := [Literal(v).value] + m.results)
        else m.(prog := Then(Access(v), Then(TailApply, k)))
      case Done(Some(Lam(v, b)), _) =>
        m.(prog := Then(Grab(v), Then(ResolveName(Text(b)), k)))
      case Done(Some(App(f, a)), _) =>
        m.(prog := Then(Closure(Then(ResolveName(Text(a)), End)), Then(ResolveName(Text(f)), k)))
  }

  /** The operands of a binary builtin: the last result comes first. The kind of the first
      one is tested for both. */
  function Operands(r: seq<Value>): (o: Option<(int, int)>)
    requires 2 <= |r|
  {
    if r[0].IntV? then if r[1].IntV? then Some((r[0].i, r[1].i)) else None
    else Some((0, 0))
  }

  /** A binary builtin pushes an integer or goes on with the source text of its answer. */
  datatype Answer = Push(i: int) | Answer(src: string)

  function BinaryAnswer(op: Builtin, i1: int, i2: int): Answer {
    match op
    case OpAdd => Push(ToInt32(i1 + i2))
    case OpSub => Push(ToInt32(i2 - i1))
    case OpMult => Push(ToInt32(i2 * i1))
    case OpCmpEq => Answer(if i1 == i2 then "1" else "0")
    case OpCmpLeq => Answer(if i2 <= i1 then "1" else "0")
    case OpCmpEqChurch => Answer(if i1 == i2 then "@x@y x" else "@x@y y")
    case _ => Answer(if i2 <= i1 then "@x@y x" else "@x@y y")
  }

  function ApplyBinary(m: Machine, op: Builtin, k: Code): Machine {
    if |m.results| < 2 then m.(status := Paused)
    else match Operands(m.results)
      case None => m.(status := Undefined)
      case Some((i1, i2)) =>
        match BinaryAnswer(op, i1, i2)
        case Push(i) => m.(prog := k, results := [IntV(i)] + m.results[2..])
        case Answer(src) => m.(prog := Then(ResolveName(src), k), results := m.results[2..])
  }

  function ApplyIfElse(m: Machine, k: Code): Machine {
    if m.results == [] then m.(status := Paused)
    else
      var h, rest := m.results[0], m.results[1..];
      if !h.IntV? then m.(prog := End, results := rest)
      else if h.i != 0 then
        if m.args == [] then m.(status := Undefined, results := rest)
        else m.(prog := k, args := [m.args[0]] + if |m.args| == 1 then [] else m.args[2..], results := rest)
      else m.(prog := k, args := if m.args == [] then [] else m.args[1..], results := rest)
  }

  function Apply(m: Machine, op: Builtin, k: Code): Machine {
    match op
    case OpFind => m.(status := Outside)
    case OpRaw => m.(status := Outside)
    case OpIfElse => ApplyIfElse(m, k)
    case _ => ApplyBinary(m, op, k)
  }

  predicate Stopped(m: Machine) {
    m.prog.End? || !m.status.Running?
  }

  function Step(m: Machine): Machine
    requires !Stopped(m)
  {
    var k := m.prog.tail;
    match m.prog.head
    case Access(v) =>
      if Lookup(m.env, v).Some? then m.(prog := k, args := [Lookup(m.env, v).value] + m.args)
      else if v in NETWORK_FUNCTIONS then m.(status := Outside)
      else if Lookup(GLOBALS, v).Some? then m.(prog := k, args := [Lookup(GLOBALS, v).value] + m.args)
      else m.(prog := End)
    case Closure(body) =>
      if SkipsArgument(m, body) then m.(prog := if k.End? then body else k)
      else m.(prog := k, args := [Clos(body, m.env)] + m.args)
    case Grab(v) =>
      if m.args == [] then m.(status := Undefined)
      else m.(prog := k, env := Bind(v, m.args[0], m.env), args := m.args[1..])
    case Halt =>
      m.(prog := k, args := [], status := Halted)
    case ResolveName(src) =>
      Resolve(m, src, k)
    case TailApply =>
      if m.args == [] then m.(status := Undefined)
      else m.(prog := Append(m.args[0].code, k), env := m.args[0].env, args := m.args[1..])
    case Op(op) =>
      Apply(m, op, k)
  }

  /** The configuration after at most `n` instructions. */
  function Run(m: Machine, n: nat): Machine
    decreases n
  {
    if n == 0 || Stopped(m) then m else Run(Step(m), n - 1)
  }

  function Start(src: string): Machine {
    Machine(Then(Closure(Then(Halt, End)), Then(ResolveName(src), End)), Empty, [], [], Running)
  }

  // ----- what every instruction keeps -----

  predicate SoundEnv(e: Env<Code>) {
    match e
    case Empty => true
    case Bind(_, c, next) => SoundClos(c) && SoundEnv(next)
  }

  predicate SoundClos(c: Clos<Code>) {
    c.code.Then? && ScannableCode(c.code) && SoundEnv(c.env)
  }

  /** Every program text in the configuration can be scanned and parsed. */
  predicate Sound(m: Machine) {
    ScannableCode(m.prog) && SoundEnv(m.env) && forall i :: 0 <= i < |m.args| ==> SoundClos(m.args[i])
  }

  lemma {:induction false} LookupSound(e: Env<Code>, name: string)
    requires SoundEnv(e) && Lookup(e, name).Some?
    ensures SoundClos(Lookup(e, name).value)
  {
    match e
    case Bind(n, _, next) => if n != name { LookupSound(next, name); }
  }

  // ----- the source texts that the machine itself supplies -----

  const PICK: Term := App(App(Var("x"), Var("y")), Var("op"))
  const BINARY: Term := Lam("op", Lam("x", Lam("y", PICK)))
  const UNARY: Term := Lam("op", Lam("x", App(Var("x"), Var("op"))))

  lemma PickShape()
    ensures Print(PICK, 'a') == " x y op"
  {
    assert Print(App(Var("x"), Var("y")), 'a') == " x y";
  }

  lemma BinaryShape()
    ensures "@" + ("op" + Print(BINARY.body, 'a')) == "@op(@x(@y x y op))"
  {
    PickShape();
    assert Print(Lam("y", PICK), 'a') == "(@y x y op)";
    assert Print(Lam("x", Lam("y", PICK)), 'a') == "(@x(@y x y op))";
  }

  lemma UnaryShape()
    ensures "@" + ("op" + Print(UNARY.body, 'a')) == "@op(@x x op)"
  {
    assert Print(App(Var("x"), Var("op")), 'a') == " x op";
    assert Print(Lam("x", App(Var("x"), Var("op"))), 'a') == "(@x x op)";
  }

  lemma BinaryText()
    ensures Denotes("@op(@x(@y x y op))", BINARY) && SoundSource("@op(@x(@y x y op))")
  {
    BinaryShape();
    BareLambda("op", BINARY.body);
  }

  lemma UnaryText()
    ensures Denotes("@op(@x x op)", UNARY) && SoundSource("@op(@x x op)")
  {
    UnaryShape();
    BareLambda("op", UNARY.body);
  }

  /** An abstraction without the outer parentheses that the printer would add. */
  lemma BareBinder(v: string, body: string, b: Term)
    requires IsName(v) && Balanced(v, 0) && Printable(b) && Follows(body)
    requires Parse(body) == Done(Some(b), "") && Balanced(body, 0)
    ensures var src := "@" + (v + body);
            Parse(src) == Done(Some(Lam(v, b)), "") && Balanced(src, 0)
  {
    hide ParseFrom;
    ParseBinder(v, body, b, "");
    assert Balanced("@" + (v + body), 0) by {
      BalancedBehind("@", v);
      BalancedConcat("@" + v, body, 0, 0);
      assert "@" + v + body == "@" + (v + body);
    }
  }

  lemma BareLambda(v: string, b: Term)
    requires IsName(v) && Balanced(v, 0) && Printable(b)
    ensures var src := "@" + (v + Print(b, 'a'));
            Parse(src) == Done(Some(Lam(v, b)), "") && Balanced(src, 0)
  {
    var body := Print(b, 'a');
    PrintBalanced(b, 'a');
    assert Follows(body) && Parse(body) == Done(Some(b), "") by {
      PrintableWellNamed(b);
      assert body + "" == body;
      BodyFollows(b, "");
      ParsePrint(b, 'a', "");
    }
    BareBinder(v, body, b);
  }

  const CHOICE: Term := App(App(Var("expr"), Var("yes")), Var("no"))

  lemma ChurchText(v: string)
    requires v == "x" || v == "y"
    ensures Denotes("@x@y " + v, Lam("x", Lam("y", Var(v)))) && SoundSource("@x@y " + v)
  {
    hide ParseFrom, Balanced;
    BalancedParenFree("x");
    BalancedParenFree("y");
    var inner := "@" + ("y" + Print(Var(v), 'a'));
    BareLambda("y", Var(v));
    BareBinder("x", inner, Lam("y", Var(v)));
    assert "@" + ("x" + inner) == "@x@y " + v;
  }

  lemma ChoiceShape()
    ensures "@" + ("no" + ("(" + Print(CHOICE, '(') + ")")) == "@no(expr yes no)"
  {
    assert Print(App(Var("expr"), Var("yes")), '(') == "expr yes";
    assert Print(CHOICE, '(') == "expr yes no";
  }

  lemma ChoiceNames()
    ensures forall v | v in {"expr", "yes", "no"} :: IsName(v) && Balanced(v, 0)
    ensures Printable(CHOICE) && Printable(Lam("no", CHOICE)) && Printable(Lam("yes", Lam("no", CHOICE)))
  {
    forall v | v in {"expr", "yes", "no"} ensures Balanced(v, 0) {
      BalancedParenFree(v);
    }
    hide Balanced;
  }

  lemma ChoiceBody()
    ensures var body := "(" + Print(CHOICE, '(') + ")";
            Parse(body) == Done(Some(CHOICE), "") && Balanced(body, 0)
  {
    hide ParseFrom, Print, Balanced;
    ChoiceNames();
    var inner := Print(CHOICE, '(') + (")" + "");
    PrintableWellNamed(CHOICE);
    ParsePrintParens(CHOICE, '(', "");
    ParseParens("", inner, CHOICE, "", None);
    assert ParseFrom("", Some(CHOICE)) == Done(Some(CHOICE), "") by { EndOfText(Some(CHOICE)); }
    PrintBalanced(CHOICE, '(');
    BalancedParens(Print(CHOICE, '('));
    assert "" + "(" + inner == "(" + Print(CHOICE, '(') + ")";
  }

  lemma EndOfText(acc: Option<Term>)
    ensures ParseFrom("", acc) == Done(acc, "")
  {
  }

  const NO_SOURCE := "@no(expr yes no)"
  const YES_SOURCE := "@yes@no(expr yes no)"

  lemma NoText()
    ensures Parse(NO_SOURCE) == Done(Some(Lam("no", CHOICE)), "") && Balanced(NO_SOURCE, 0)
  {
    hide ParseFrom, Print, Balanced, IsName, Printable;
    ChoiceNames();
    ChoiceBody();
    ChoiceShape();
    BareBinder("no", "(" + Print(CHOICE, '(') + ")", CHOICE);
  }

  lemma YesText()
    ensures Parse(YES_SOURCE) == Done(Some(Lam("yes", Lam("no", CHOICE))), "") && Balanced(YES_SOURCE, 0)
  {
    hide ParseFrom, Print, Balanced, IsName, Printable;
    ChoiceNames();
    NoText();
    BareBinder("yes", NO_SOURCE, Lam("no", CHOICE));
    assert "@" + ("yes" + NO_SOURCE) == YES_SOURCE;
  }

  lemma ChoiceText()
    ensures SoundSource("@expr@yes@no(expr yes no)")
    ensures Denotes("@expr@yes@no(expr yes no)", Lam("expr", Lam("yes", Lam("no", CHOICE))))
  {
    hide ParseFrom, Print, Balanced, IsName;
    ChoiceNames();
    YesText();
    BareBinder("expr", YES_SOURCE, Lam("yes", Lam("no", CHOICE)));
    assert "@" + ("expr" + YES_SOURCE) == "@expr@yes@no(expr yes no)";
  }

  lemma BitText(v: string)
    requires v == "0" || v == "1"
    ensures Denotes(v, Var(v)) && SoundSource(v)
  {
    TextDenotes(Var(v));
  }

  lemma Extended(name: string, code: Code, next: Env<Code>)
    requires code.Then? && ScannableCode(code) && SoundEnv(next)
    ensures SoundEnv(Global(name, code, next))
  {
  }

  lemma BinaryExtended(name: string, op: Builtin, rest: Code, next: Env<Code>)
    requires (rest == End || rest == TAIL) && SoundEnv(next)
    ensures SoundEnv(Global(name, BinaryOp(op, rest), next))
  {
    hide ParseFrom, Print, Balanced, SoundSource, SoundEnv;
    BinaryText();
    assert ScannableCode(Then(Op(op), End)) && ScannableCode(TAIL);
    Extended(name, BinaryOp(op, rest), next);
  }

  lemma PlainExtended(name: string, src: string, next: Env<Code>)
    requires SoundSource(src) && SoundEnv(next)
    ensures SoundEnv(Global(name, Then(ResolveName(src), End), next))
  {
    hide SoundSource, SoundEnv;
    Extended(name, Then(ResolveName(src), End), next);
  }

  lemma ChurchGlobalsSound()
    ensures SoundEnv(CHURCH_GLOBALS)
  {
    hide ParseFrom, Print, Balanced, SoundSource;
    ChurchText("x");
    ChurchText("y");
    ChoiceText();
    assert "@x@y " + "x" == "@x@y x" && "@x@y " + "y" == "@x@y y";
    assert SoundEnv(Empty);
    hide SoundEnv;
    PlainExtended("true_church", "@x@y x", Empty);
    var e1 := Global("true_church", Then(ResolveName("@x@y x"), End), Empty);
    PlainExtended("false_church", "@x@y y", e1);
    var e2 := Global("false_church", Then(ResolveName("@x@y y"), End), e1);
    BinaryExtended("eq_church", OpCmpEqChurch, End, e2);
    var e3 := Global("eq_church", BinaryOp(OpCmpEqChurch, End), e2);
    BinaryExtended("leq_church", OpCmpLeqChurch, End, e3);
    var e4 := Global("leq_church", BinaryOp(OpCmpLeqChurch, End), e3);
    PlainExtended("ifelse_church", "@expr@yes@no(expr yes no)", e4);
  }

  lemma IfElseSound()
    ensures ScannableCode(IFELSE)
  {
    hide ParseFrom, Print, Balanced, SoundSource;
    UnaryText();
    assert ScannableCode(Then(Op(OpIfElse), End)) && ScannableCode(TAIL);
  }

  lemma GlobalsSound()
    ensures SoundEnv(GLOBALS)
  {
    hide SoundSource, SoundEnv, ScannableCode;
    ChurchGlobalsSound();
    IfElseSound();
    BinaryExtended("eq", OpCmpEq, End, CHURCH_GLOBALS);
    var e1 := Global("eq", BinaryOp(OpCmpEq, End), CHURCH_GLOBALS);
    BinaryExtended("leq", OpCmpLeq, End, e1);
    var e2 := Global("leq", BinaryOp(OpCmpLeq, End), e1);
    Extended("ifelse", IFELSE, e2);
    var e3 := Global("ifelse", IFELSE, e2);
    BinaryExtended("add", OpAdd, TAIL, e3);
    var e4 := Global("add", BinaryOp(OpAdd, TAIL), e3);
    BinaryExtended("sub", OpSub, TAIL, e4);
    var e5 := Global("sub", BinaryOp(OpSub, TAIL), e4);
    BinaryExtended("mult", OpMult, TAIL, e5);
  }

  // ----- soundness is kept -----

  lemma ResolveSound(m: Machine, src: string, k: Code)
    requires Sound(m) && SoundSource(src) && ScannableCode(k)
    ensures Sound(Resolve(m, src, k))
  {
    hide ParseFrom, Print, Balanced;
    match Parse(src).term.value
    case Var(v) =>
      assert ScannableCode(Then(TailApply, k));
      assert Scannable(Access(v));
    case Lam(v, b) =>
      TextDenotes(b);
      assert Scannable(Grab(v)) && ScannableCode(Then(ResolveName(Text(b)), k));
    case App(f, a) =>
      TextDenotes(f);
      TextDenotes(a);
      assert ScannableCode(Then(ResolveName(Text(f)), k));
      assert ScannableCode(Then(ResolveName(Text(a)), End));
      assert Scannable(Closure(Then(ResolveName(Text(a)), End)));
  }

  lemma AnswerSound(op: Builtin, i1: int, i2: int, k: Code)
    requires ScannableCode(k) && BinaryAnswer(op, i1, i2).Answer?
    ensures ScannableCode(Then(ResolveName(BinaryAnswer(op, i1, i2).src), k))
  {
    hide ParseFrom, Print, Balanced, SoundSource;
    BitText("0");
    BitText("1");
    ChurchText("x");
    ChurchText("y");
    assert "@x@y " + "x" == "@x@y x" && "@x@y " + "y" == "@x@y y";
  }

  lemma ApplySound(m: Machine, op: Builtin, k: Code)
    requires Sound(m) && ScannableCode(k)
    ensures Sound(Apply(m, op, k))
  {
    hide ScannableCode, BinaryAnswer;
    if op != OpIfElse && 2 <= |m.results| && Operands(m.results).Some? {
      var (i1, i2) := Operands(m.results).value;
      if BinaryAnswer(op, i1, i2).Answer? {
        AnswerSound(op, i1, i2, k);
      }
    }
    EndScannable();
  }

  lemma EndScannable()
    ensures ScannableCode(End)
  {
  }

  lemma AccessSound(m: Machine, v: string)
    requires Sound(m)
    ensures Lookup(m.env, v).Some? ==> SoundClos(Lookup(m.env, v).value)
    ensures Lookup(GLOBALS, v).Some? ==> SoundClos(Lookup(GLOBALS, v).value)
  {
    hide SoundClos;
    GlobalsSound();
    if Lookup(m.env, v).Some? {
      LookupSound(m.env, v);
    }
    if Lookup(GLOBALS, v).Some? {
      LookupSound(GLOBALS, v);
    }
  }

  /** Every instruction keeps every program text scannable and parseable. */
  lemma StepSound(m: Machine)
    requires Sound(m) && !Stopped(m)
    ensures Sound(Step(m))
  {
    var k := m.prog.tail;
    HeadAndTail(m.prog);
    EndScannable();
    hide ScannableCode, Scannable, SoundSource, Resolve, Apply, SkipsArgument, Lookup, GLOBALS;
    match m.prog.head
    case Access(v) => AccessSound(m, v);
    case ResolveName(src) => ResolveSound(m, src, k);
    case TailApply =>
      if m.args != [] {
        ScannableAppend(m.args[0].code, k);
      }
    case Op(op) => ApplySound(m, op, k);
    case _ =>
  }
}
