/** Programs of the abstract machine: the instruction list, the text it is
    written as, and the scanner that takes one instruction off the text. */
module Zam {
  import opened LambdaText
  import opened Options

  datatype Builtin =
    | OpAdd | OpFind | OpMult | OpRaw | OpSub
    | OpCmpEqChurch | OpCmpLeqChurch | OpCmpEq | OpCmpLeq | OpIfElse

  datatype Instr =
    | Access(name: string)
    | Closure(body: Code)
    | Grab(name: string)
    | Halt
    | ResolveName(src: string)
    | TailApply
    | Op(op: Builtin)

  datatype Code = End | Then(head: Instr, tail: Code)

  function Append(c: Code, k: Code): Code {
    match c
    case End => k
    case Then(i, t) => Then(i, Append(t, k))
  }

  // ----- instruction text -----

  const BUILTINS: seq<Builtin> :=
    [OpAdd, OpFind, OpMult, OpRaw, OpSub, OpCmpEqChurch, OpCmpLeqChurch, OpCmpEq, OpCmpLeq, OpIfElse]

  function BuiltinName(op: Builtin): string {
    match op
    case OpAdd => "OP_ADD"
    case OpFind => "OP_FIND"
    case OpMult => "OP_MULT"
    case OpRaw => "OP_RAW"
    case OpSub => "OP_SUB"
    case OpCmpEqChurch => "OP_CMPEQ_CHURCH"
    case OpCmpLeqChurch => "OP_CMPLEQ_CHURCH"
    case OpCmpEq => "OP_CMPEQ"
    case OpCmpLeq => "OP_CMPLEQ"
    case OpIfElse => "OP_IFELSE"
  }

  function Mnemonic(i: Instr): string {
    match i
    case Access(_) => "ACCESS"
    case Closure(_) => "CLOSURE"
    case Grab(_) => "GRAB"
    case Halt => "HALT"
    case ResolveName(_) => "RESOLVENAME"
    case TailApply => "TAILAPPLY"
    case Op(op) => BuiltinName(op)
  }

  function Argument(i: Instr): Option<string>
    decreases i, 0
  {
    match i
    case Access(v) => Some(v)
    case Closure(body) => Some(Render(body))
    case Grab(v) => Some(v)
    case ResolveName(src) => Some(src)
    case _ => None
  }

  function RenderInstr(i: Instr): string
    decreases i, 1
  {
    Mnemonic(i) + match Argument(i) case None => "" case Some(a) => "(" + a + ")"
  }

  function Render(c: Code): string
    decreases c
  {
    match c
    case End => ""
    case Then(i, End) => RenderInstr(i)
    case Then(i, t) => RenderInstr(i) + ";" + Render(t)
  }

  // ----- scanning -----

  datatype Token =
    | TUnknown | TAccess | TApply | TCall | TClosure | TFox | TGrab | THalt | TResolveName | TTailApply
    | TBuiltin(op: Builtin)

  datatype Scan = Scan(token: Token, arg: Option<string>, cont: Option<string>)

  function HeadLength(s: string): (n: nat)
    ensures n <= |s|
  {
    if s == "" || s[0] == '(' || s[0] == ';' then 0 else 1 + HeadLength(s[1..])
  }

  function FindBuiltin(prog: string, from: nat): Token
    requires from <= |BUILTINS|
    decreases |BUILTINS| - from
  {
    if from == |BUILTINS| then TUnknown
    else if BuiltinName(BUILTINS[from]) <= prog then TBuiltin(BUILTINS[from])
    else FindBuiltin(prog, from + 1)
  }

  /** A mnemonic is recognised by any of its prefixes, a builtin by its full name. */
  function Classify(head: string, prog: string): Token {
    if head <= "ACCESS" then TAccess
    else if head <= "APPLY" then TApply
    else if head <= "CALL" then TCall
    else if head <= "CLOSURE" then TClosure
    else if head <= "FOX" then TFox
    else if head <= "GRAB" then TGrab
    else if head <= "HALT" then THalt
    else if head <= "RESOLVENAME" then TResolveName
    else if head <= "TAILAPPLY" then TTailApply
    else FindBuiltin(prog, 0)
  }

  /** Number of characters before the parenthesis that closes `nesting` open ones and the argument. */
  function ArgLength(s: string, nesting: nat): (n: nat)
    ensures n <= |s|
  {
    if s == "" || (s[0] == ')' && nesting == 0) then 0
    else 1 + ArgLength(s[1..], if s[0] == '(' then nesting + 1 else if s[0] == ')' then nesting - 1 else nesting)
  }

  function Continuation(s: string): Option<string> {
    if s != "" && s[0] == ';' then Some(s[1..]) else None
  }

  function NextToken(prog: string): Scan {
    var len := HeadLength(prog);
    var token := Classify(prog[..len], prog);
    if len < |prog| && prog[len] == '(' then
      var inner := prog[len + 1..];
      var n := ArgLength(inner, 0);
      Scan(token, Some(inner[..n]), Continuation(if n < |inner| then inner[n + 1..] else inner))
    else
      Scan(token, None, Continuation(prog[len..]))
  }

  method Recognise(head: string, prog: string) returns (token: Token)
    ensures token == Classify(head, prog)
  {
    token := TUnknown;
    if head <= "ACCESS" { token := TAccess; }
    else if head <= "APPLY" { token := TApply; }
    else if head <= "CALL" { token := TCall; }
    else if head <= "CLOSURE" { token := TClosure; }
    else if head <= "FOX" { token := TFox; }
    else if head <= "GRAB" { token := TGrab; }
    else if head <= "HALT" { token := THalt; }
    else if head <= "RESOLVENAME" { token := TResolveName; }
    else if head <= "TAILAPPLY" { token := TTailApply; }
    else {
      var i := 0;
      while i < |BUILTINS|
        invariant i <= |BUILTINS| && token == TUnknown
        invariant FindBuiltin(prog, 0) == FindBuiltin(prog, i)
      {
        if BuiltinName(BUILTINS[i]) <= prog {
          token := TBuiltin(BUILTINS[i]);
          break;
        }
        i := i + 1;
      }
    }
  }

  /** Walks over the argument to the parenthesis that closes it. */
  method FindClose(text: string) returns (cp2: nat)
    ensures cp2 == ArgLength(text, 0)
  {
    var nesting := 0;
    cp2 := 0;
    while cp2 < |text| && (text[cp2] != ')' || nesting > 0)
      invariant cp2 <= |text| && 0 <= nesting
      invariant ArgLength(text, 0) == cp2 + ArgLength(text[cp2..], nesting)
    {
      assert text[cp2..][1..] == text[cp2 + 1..];
      if text[cp2] == '(' {
        nesting := nesting + 1;
      } else if text[cp2] == ')' {
        nesting := nesting - 1;
      }
      cp2 := cp2 + 1;
    }
  }

  method FindHead(prog: string) returns (cp: nat)
    ensures cp == HeadLength(prog)
  {
    cp := 0;
    while cp < |prog| && prog[cp] != '(' && prog[cp] != ';'
      invariant cp <= |prog|
      invariant HeadLength(prog) == cp + HeadLength(prog[cp..])
    {
      assert prog[cp..][1..] == prog[cp + 1..];
      cp := cp + 1;
    }
  }

  method ScanToken(prog: string) returns (token: Token, argdup: Option<string>, cont: Option<string>)
    ensures NextToken(prog) == Scan(token, argdup, cont)
  {
    var len := FindHead(prog);
    token := Recognise(prog[..len], prog);
    argdup := None;
    var cp := prog[len..];
    if len < |prog| && prog[len] == '(' {
      cp := prog[len + 1..];
      var cp2 := FindClose(cp);
      argdup := Some(cp[..cp2]);
      if cp2 < |cp| {
        cp := cp[cp2 + 1..];
      }
    }
    cont := if cp != "" && cp[0] == ';' then Some(cp[1..]) else None;
  }

  // ----- the scanner takes the machine's own text apart -----

  predicate ParenFree(s: string) {
    forall i :: 0 <= i < |s| ==> s[i] != '(' && s[i] != ')'
  }

  /** Parentheses close what they open, starting inside `nesting` open ones. */
  predicate Balanced(s: string, nesting: nat) {
    if s == "" then nesting == 0
    else if s[0] == '(' then Balanced(s[1..], nesting + 1)
    else if s[0] == ')' then nesting > 0 && Balanced(s[1..], nesting - 1)
    else Balanced(s[1..], nesting)
  }

  /** Legal identifiers that do not disturb the count of parentheses. */
  predicate Printable(t: Term) {
    match t
    case Var(v) => IsName(v) && Balanced(v, 0)
    case Lam(v, b) => IsName(v) && Balanced(v, 0) && Printable(b)
    case App(f, a) => Printable(f) && Printable(a)
  }

  /** A source text that denotes a printable term. */
  predicate Denotes(src: string, t: Term) {
    Printable(t) && Parse(src).Done? && Parse(src).term == Some(t)
  }

  predicate SoundSource(src: string) {
    Balanced(src, 0) && Parse(src).Done? && Parse(src).term.Some? && Printable(Parse(src).term.value)
  }

  /** Instructions whose text the scanner can take apart again. */
  predicate Scannable(i: Instr) {
    match i
    case Access(v) => Balanced(v, 0)
    case Grab(v) => Balanced(v, 0)
    case ResolveName(src) => SoundSource(src)
    case Closure(body) => body.Then? && ScannableCode(body)
    case _ => true
  }

  predicate ScannableCode(c: Code) {
    match c
    case End => true
    case Then(i, t) => Scannable(i) && ScannableCode(t)
  }

  lemma {:induction false} BalancedConcat(a: string, b: string, m: nat, n: nat)
    requires Balanced(a, m) && Balanced(b, n)
    ensures Balanced(a + b, m + n)
  {
    if a == "" {
      assert a + b == b;
    } else {
      assert (a + b)[1..] == a[1..] + b;
      BalancedConcat(a[1..], b, if a[0] == '(' then m + 1 else if a[0] == ')' then m - 1 else m, n);
    }
  }

  lemma {:induction false} BalancedParenFree(s: string)
    requires ParenFree(s)
    ensures Balanced(s, 0)
  {
    if s != "" {
      BalancedParenFree(s[1..]);
    }
  }

  lemma BalancedBehind(c: string, v: string)
    requires |c| == 1 && ParenFree(c) && Balanced(v, 0)
    ensures Balanced(c + v, 0)
  {
    assert (c + v)[1..] == v;
  }

  lemma BalancedParens(a: string)
    requires Balanced(a, 0)
    ensures Balanced("(" + a + ")", 0)
  {
    assert Balanced(")", 1) by { assert ")"[1..] == ""; }
    BalancedConcat(a, ")", 0, 1);
    assert "(" + a + ")" == "(" + (a + ")");
    assert ("(" + (a + ")"))[1..] == a + ")";
  }

  /** An argument is found whole exactly if its parentheses balance. */
  lemma {:induction false} ArgLengthExact(a: string, nesting: nat, rest: string)
    ensures ArgLength(a + ")" + rest, nesting) == |a| <==> Balanced(a, nesting)
  {
    var s := a + ")" + rest;
    if a == "" {
      assert s[0] == ')';
    } else {
      assert s[1..] == a[1..] + ")" + rest;
      if a[0] == ')' {
        if nesting > 0 {
          ArgLengthExact(a[1..], nesting - 1, rest);
        }
      } else {
        ArgLengthExact(a[1..], if a[0] == '(' then nesting + 1 else nesting, rest);
      }
    }
  }

  lemma {:induction false} HeadLengthExact(m: string, rest: string)
    requires forall i :: 0 <= i < |m| ==> m[i] != '(' && m[i] != ';'
    requires rest == "" || rest[0] == '(' || rest[0] == ';'
    ensures HeadLength(m + rest) == |m|
  {
    if m == "" {
      assert m + rest == rest;
    } else {
      assert (m + rest)[1..] == m[1..] + rest;
      HeadLengthExact(m[1..], rest);
    }
  }

  function TokenOf(i: Instr): Token {
    match i
    case Access(_) => TAccess
    case Closure(_) => TClosure
    case Grab(_) => TGrab
    case Halt => THalt
    case ResolveName(_) => TResolveName
    case TailApply => TTailApply
    case Op(op) => TBuiltin(op)
  }

  predicate HeadOnly(m: string) {
    forall k :: 0 <= k < |m| ==> m[k] != '(' && m[k] != ';' && m[k] != ')'
  }

  lemma BuiltinText(op: Builtin)
    ensures HeadOnly(BuiltinName(op))
  {
    match op
    case OpAdd =>
    case OpFind =>
    case OpMult =>
    case OpRaw =>
    case OpSub =>
    case OpCmpEqChurch =>
    case OpCmpLeqChurch =>
    case OpCmpEq =>
    case OpCmpLeq =>
    case OpIfElse =>
  }

  lemma MnemonicText(i: Instr)
    ensures HeadOnly(Mnemonic(i))
  {
    match i
    case Op(op) => BuiltinText(op);
    case _ =>
  }

  /** No builtin's name starts another's that comes later in the table. */
  lemma BuiltinNotEarlier(op: Builtin, j: nat, k: nat, rest: string)
    requires j < k < |BUILTINS| && BUILTINS[k] == op
    requires rest == "" || rest[0] == ';'
    ensures !(BuiltinName(BUILTINS[j]) <= BuiltinName(op) + rest)
  {
    var a, b := BuiltinName(BUILTINS[j]), BuiltinName(op) + rest;
    var p := if j < 5 || k == 9 then 3 else if j == 5 && k == 7 then 8 else if j == 6 && k == 8 then 9 else 6;
    assert p < |a| && (p < |b| ==> a[p] != b[p]);
  }

  lemma {:induction false} BuiltinFoundFrom(op: Builtin, j: nat, k: nat, rest: string)
    requires j <= k < |BUILTINS| && BUILTINS[k] == op
    requires rest == "" || rest[0] == ';'
    ensures FindBuiltin(BuiltinName(op) + rest, j) == TBuiltin(op)
    decreases k - j
  {
    if j < k {
      BuiltinNotEarlier(op, j, k, rest);
      BuiltinFoundFrom(op, j + 1, k, rest);
    }
  }

  lemma BuiltinListed(op: Builtin) returns (k: nat)
    ensures k < |BUILTINS| && BUILTINS[k] == op
  {
    k := match op
      case OpAdd => 0
      case OpFind => 1
      case OpMult => 2
      case OpRaw => 3
      case OpSub => 4
      case OpCmpEqChurch => 5
      case OpCmpLeqChurch => 6
      case OpCmpEq => 7
      case OpCmpLeq => 8
      case OpIfElse => 9;
  }

  lemma BuiltinClassified(op: Builtin, rest: string)
    requires rest == "" || rest[0] == ';'
    ensures FindBuiltin(BuiltinName(op) + rest, 0) == TBuiltin(op) && |BuiltinName(op)| > 0 && BuiltinName(op)[0] == 'O'
  {
    var k := BuiltinListed(op);
    BuiltinFoundFrom(op, 0, k, rest);
  }

  lemma MnemonicClassified(i: Instr, rest: string)
    requires rest == "" || rest[0] == ';' || !i.Op?
    ensures Classify(Mnemonic(i), Mnemonic(i) + rest) == TokenOf(i)
  {
    hide FindBuiltin, BuiltinName;
    var m := Mnemonic(i);
    match i
    case Op(op) =>
      BuiltinClassified(op, rest);
      assert m[0] == 'O';
    case Access(_) =>
    case Closure(_) =>
      assert m[1] == 'L';
    case Grab(_) =>
      assert m[0] == 'G';
    case Halt =>
      assert m[0] == 'H';
    case ResolveName(_) =>
      assert m[0] == 'R';
    case TailApply =>
      assert m[0] == 'T';
  }

  lemma {:induction false} RenderBalanced(c: Code)
    requires ScannableCode(c)
    ensures Balanced(Render(c), 0)
    decreases c
  {
    match c
    case End =>
    case Then(i, t) =>
      RenderInstrBalanced(i);
      if t.Then? {
        RenderBalanced(t);
        BalancedParenFree(";");
        BalancedConcat(RenderInstr(i), ";", 0, 0);
        BalancedConcat(RenderInstr(i) + ";", Render(t), 0, 0);
      }
  }

  lemma {:induction false} RenderInstrBalanced(i: Instr)
    requires Scannable(i)
    ensures Balanced(RenderInstr(i), 0)
    ensures Argument(i).Some? ==> Balanced(Argument(i).value, 0)
    decreases i
  {
    MnemonicText(i);
    BalancedParenFree(Mnemonic(i));
    match i {
      case Access(v) =>
      case Grab(v) =>
      case Closure(body) => RenderBalanced(body);
      case _ =>
    }
    if Argument(i).Some? {
      BalancedParens(Argument(i).value);
      BalancedConcat(Mnemonic(i), "(" + Argument(i).value + ")", 0, 0);
      assert RenderInstr(i) == Mnemonic(i) + ("(" + Argument(i).value + ")");
    } else {
      assert RenderInstr(i) == Mnemonic(i);
    }
  }

  /** The text behind an instruction: nothing, or a semicolon and the rest of the program. */
  function Behind(t: Code): string {
    if t.End? then "" else ";" + Render(t)
  }

  function RestText(t: Code): Option<string> {
    if t.End? then None else Some(Render(t))
  }

  lemma ScanArgument(m: string, a: string, behind: string)
    requires HeadOnly(m) && Balanced(a, 0)
    ensures var prog := m + "(" + a + ")" + behind;
            NextToken(prog) == Scan(Classify(m, prog), Some(a), Continuation(behind))
  {
    hide Balanced, ArgLength, HeadLength, Classify;
    var inner := a + ")" + behind;
    var rest := "(" + inner;
    var prog := m + "(" + a + ")" + behind;
    assert prog == m + rest;
    HeadLengthExact(m, rest);
    assert prog[..|m|] == m && prog[|m| + 1..] == inner;
    ArgLengthExact(a, 0, behind);
    assert inner[..|a|] == a && inner[|a| + 1..] == behind;
  }

  lemma ScanPlain(m: string, behind: string)
    requires HeadOnly(m) && (behind == "" || behind[0] == ';')
    ensures NextToken(m + behind) == Scan(Classify(m, m + behind), None, Continuation(behind))
  {
    HeadLengthExact(m, behind);
    assert (m + behind)[..|m|] == m && (m + behind)[|m|..] == behind;
  }

  lemma ScanInstr(i: Instr, behind: string)
    requires Argument(i).Some? ==> Balanced(Argument(i).value, 0)
    requires behind == "" || behind[0] == ';'
    ensures NextToken(RenderInstr(i) + behind) == Scan(TokenOf(i), Argument(i), Continuation(behind))
  {
    hide Render, Balanced, NextToken, Classify, HeadOnly, BuiltinName;
    var m := Mnemonic(i);
    MnemonicText(i);
    match Argument(i)
    case None =>
      assert RenderInstr(i) == m;
      ScanPlain(m, behind);
      MnemonicClassified(i, behind);
    case Some(a) =>
      var rest := "(" + a + ")" + behind;
      assert RenderInstr(i) + behind == m + "(" + a + ")" + behind == m + rest;
      ScanArgument(m, a, behind);
      MnemonicClassified(i, rest);
  }

  lemma HeadAndTail(c: Code)
    requires ScannableCode(c) && c.Then?
    ensures Scannable(c.head) && ScannableCode(c.tail)
    ensures c.head.Closure? ==> c.head.body.Then? && ScannableCode(c.head.body)
    ensures c.head.ResolveName? ==> SoundSource(c.head.src)
    ensures RestText(c) == Some(Render(Then(c.head, c.tail)))
  {
  }

  lemma JoinText(r: string, q: string)
    ensures r + "" == r && r + ";" + q == r + (";" + q)
    ensures Continuation("") == None && Continuation(";" + q) == Some(q)
  {
    assert (";" + q)[1..] == q;
  }

  lemma RenderSplit(i: Instr, t: Code)
    ensures Render(Then(i, t)) == RenderInstr(i) + Behind(t)
    ensures Continuation(Behind(t)) == RestText(t)
    ensures Behind(t) == "" || Behind(t)[0] == ';'
  {
    JoinText(RenderInstr(i), Render(t));
  }

  /** Main result: whatever the nesting depth, the scanner recovers the instruction, its
      balanced argument and the remaining program from the text the machine builds. */
  lemma NextTokenExact(i: Instr, t: Code)
    requires Scannable(i)
    ensures NextToken(Render(Then(i, t))) == Scan(TokenOf(i), Argument(i), RestText(t))
  {
    var behind := Behind(t);
    RenderSplit(i, t);
    assert NextToken(RenderInstr(i) + behind) == Scan(TokenOf(i), Argument(i), RestText(t)) by {
      RenderInstrBalanced(i);
      ScanInstr(i, behind);
    }
  }

  lemma {:induction false} RenderAppend(c: Code, k: Code)
    ensures c.Then? && k.Then? ==> Render(Append(c, k)) == Render(c) + ";" + Render(k)
    ensures k.End? ==> Append(c, k) == c
  {
    match c
    case End =>
    case Then(i, t) =>
      RenderAppend(t, k);
      if t.End? {
        assert Append(t, k) == k;
      }
  }

  lemma {:induction false} ScannableAppend(c: Code, k: Code)
    requires ScannableCode(c) && ScannableCode(k)
    ensures ScannableCode(Append(c, k))
  {
    match c
    case End =>
    case Then(i, t) => ScannableAppend(t, k);
  }

  lemma PrintLamShape(v: string, b: Term, last: char)
    ensures Print(Lam(v, b), last) == "(" + (("@" + v) + Print(b, 'a')) + ")"
  {
    var p := Print(b, 'a');
    assert "(@" + v + p + ")" == "(" + (("@" + v) + p) + ")";
  }

  lemma PrintAppShape(f: Term, a: Term, last: char)
    requires !a.Var?
    ensures Print(App(f, a), last) == Print(f, last) + (" " + ("(" + Print(a, '(') + ")"))
  {
    var p, q := Print(f, last), Print(a, '(');
    assert p + " (" + q + ")" == p + (" " + ("(" + q + ")"));
  }

  lemma {:induction false} PrintBalanced(t: Term, last: char)
    requires Printable(t)
    ensures Balanced(Print(t, last), 0)
    decreases t
  {
    match t
    case Var(v) =>
      BalancedBehind(" ", v);
    case Lam(v, b) =>
      PrintBalanced(b, 'a');
      BalancedBehind("@", v);
      BalancedConcat("@" + v, Print(b, 'a'), 0, 0);
      BalancedParens(("@" + v) + Print(b, 'a'));
      PrintLamShape(v, b, last);
    case App(f, a) =>
      PrintBalanced(f, last);
      if a.Var? {
        PrintBalanced(a, 'a');
        BalancedConcat(Print(f, last), Print(a, 'a'), 0, 0);
      } else {
        PrintBalanced(a, '(');
        BalancedParens(Print(a, '('));
        BalancedParenFree(" ");
        BalancedConcat(" ", "(" + Print(a, '(') + ")", 0, 0);
        BalancedConcat(Print(f, last), " " + ("(" + Print(a, '(') + ")"), 0, 0);
        PrintAppShape(f, a, last);
      }
  }

  lemma {:induction false} PrintableWellNamed(t: Term)
    requires Printable(t)
    ensures WellNamed(t)
  {
    match t
    case Var(_) =>
    case Lam(_, b) => PrintableWellNamed(b);
    case App(f, a) =>
      PrintableWellNamed(f);
      PrintableWellNamed(a);
  }

  /** The text of a printable term is a sound source for that very term. */
  lemma TextDenotes(t: Term)
    requires Printable(t)
    ensures Denotes(Text(t), t) && SoundSource(Text(t))
  {
    PrintBalanced(t, '\0');
    PrintableWellNamed(t);
    PrintParseRoundTrip(t);
  }
}
