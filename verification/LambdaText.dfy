/** Lambda terms and their textual form: the printer and the recursive-descent
    parser that the abstract machine uses to pass subterms around as strings. */
module LambdaText {
  import opened Options

  datatype Term =
    | Var(name: string)
    | Lam(name: string, body: Term)
    | App(fct: Term, arg: Term)

  const LAMBDA_CHAR := '@'

  // ----- character classes (the "C" locale) -----

  predicate IsDigit(c: char) { '0' <= c <= '9' }

  predicate IsAlnum(c: char) {
    IsDigit(c) || 'a' <= c <= 'z' || 'A' <= c <= 'Z'
  }

  predicate IsNameChar(c: char) {
    IsAlnum(c) || c == '_' || c == '=' || c == '/' || c == '.'
  }

  predicate IsSpace(c: char) {
    c == ' ' || '\t' <= c <= '\r'
  }

  // ----- legal identifiers -----

  predicate IsPlainName(v: string) {
    v != "" && forall i :: 0 <= i < |v| ==> IsNameChar(v[i])
  }

  predicate IsQuotedName(v: string) {
    2 <= |v| && v[0] == '\'' && v[|v| - 1] == '\'' &&
    forall i :: 1 <= i < |v| - 1 ==> v[i] != '\''
  }

  predicate IsName(v: string) {
    IsPlainName(v) || IsQuotedName(v)
  }

  predicate WellNamed(t: Term) {
    match t
    case Var(v) => IsName(v)
    case Lam(v, b) => IsName(v) && WellNamed(b)
    case App(f, a) => WellNamed(f) && WellNamed(a)
  }

  // ----- printing -----

  /** The text of `t`, where `last` is the character printed just before it. */
  function Print(t: Term, last: char): (s: string) {
    match t
    case Lam(v, b) => "(@" + v + Print(b, 'a') + ")"
    case Var(v) => if IsAlnum(last) then " " + v else v
    case App(f, Var(v)) => Print(f, last) + Print(Var(v), 'a')
    case App(f, a) => Print(f, last) + " (" + Print(a, '(') + ")"
  }

  /** Text printed at the start of a scratch buffer. */
  function Text(t: Term): (s: string) {
    Print(t, '\0')
  }

  // ----- parsing: the argument is the text at the cursor -----

  datatype ParseResult =
    | Done(term: Option<Term>, rest: string)  // None stands for the null term
    | Diverges                                // endless loop, or a quote that is never closed

  function SkipSpaces(s: string): (r: string)
    ensures |r| <= |s|
    ensures r != "" ==> !IsSpace(r[0])
    ensures s != "" && !IsSpace(s[0]) ==> r == s
  {
    if s != "" && IsSpace(s[0]) then SkipSpaces(s[1..]) else s
  }

  function NameLength(s: string): (n: nat)
    ensures n <= |s|
  {
    if s != "" && IsNameChar(s[0]) then 1 + NameLength(s[1..]) else 0
  }

  function QuoteEnd(s: string): (r: Option<nat>)
    ensures r.Some? ==> r.value < |s| && s[r.value] == '\''
  {
    if s == "" then None
    else if s[0] == '\'' then Some(0)
    else match QuoteEnd(s[1..])
      case None => None
      case Some(n) => Some(n + 1)
  }

  /** Length of the variable at the cursor; None if its closing quote is missing. */
  function VarLength(s: string): (r: Option<nat>)
    ensures r.Some? ==> r.value <= |s|
  {
    if s != "" && s[0] == '\'' then
      match QuoteEnd(s[1..])
      case None => None
      case Some(n) => Some(n + 2)
    else Some(NameLength(s))
  }

  function Combine(acc: Option<Term>, t: Term): Term {
    match acc
    case None => t
    case Some(f) => App(f, t)
  }

  /** An abstraction whose body is the null term has the shape of a variable. */
  function Abstraction(v: string, body: Option<Term>): Term {
    match body
    case None => Var(v)
    case Some(b) => Lam(v, b)
  }

  /** The parser loop entered at text `s` with the term `acc` read so far. */
  function ParseFrom(s: string, acc: Option<Term>): (r: ParseResult)
    ensures r.Done? ==> |r.rest| <= |s|
    decreases |s|
  {
    if s == "" then Done(acc, s)
    else
      var p := SkipSpaces(s);
      if p != "" && p[0] == ')' then Done(acc, p)
      else if p != "" && p[0] == '(' then
        match ParseFrom(p[1..], None)
        case Diverges => Diverges
        case Done(None, q) => Done(None, q)
        case Done(Some(t), q) =>
          if q == "" || q[0] != ')' then Done(None, q)
          else ParseFrom(q[1..], Some(Combine(acc, t)))
      else if p != "" && p[0] == LAMBDA_CHAR then
        match VarLength(p[1..])
        case None => Diverges
        case Some(n) =>
          match ParseFrom(p[1..][n..], None)
          case Diverges => Diverges
          case Done(b, q) => ParseFrom(q, Some(Combine(acc, Abstraction(p[1..][..n], b))))
      else
        match VarLength(p)
        case None => Diverges
        case Some(n) =>
          if |p| - n == |s| then Diverges
          else ParseFrom(p[n..], Some(Combine(acc, Var(p[..n]))))
  }

  function Parse(s: string): (r: ParseResult) {
    ParseFrom(s, None)
  }

  // ----- parsing undoes printing -----

  /** What may follow a name. */
  predicate Follows(rest: string) {
    rest == "" || rest[0] == ' ' || rest[0] == ')' || rest[0] == '(' || rest[0] == LAMBDA_CHAR
  }

  lemma {:induction false} NameLengthExact(v: string, rest: string)
    requires forall i :: 0 <= i < |v| ==> IsNameChar(v[i])
    requires Follows(rest)
    ensures NameLength(v + rest) == |v|
  {
    if v == "" {
      assert v + rest == rest;
    } else {
      assert (v + rest)[1..] == v[1..] + rest;
      NameLengthExact(v[1..], rest);
    }
  }

  lemma {:induction false} QuoteEndExact(v: string, rest: string)
    requires v != "" && v[|v| - 1] == '\''
    requires forall i :: 0 <= i < |v| - 1 ==> v[i] != '\''
    ensures QuoteEnd(v + rest) == Some(|v| - 1)
  {
    if |v| > 1 {
      assert (v + rest)[1..] == v[1..] + rest;
      QuoteEndExact(v[1..], rest);
    }
  }

  lemma VarLengthExact(v: string, rest: string)
    requires IsName(v) && Follows(rest)
    ensures VarLength(v + rest) == Some(|v|)
  {
    if IsPlainName(v) {
      NameLengthExact(v, rest);
    } else {
      assert (v + rest)[1..] == v[1..] + rest;
      QuoteEndExact(v[1..], rest);
    }
  }

  lemma SkipOne(space: string, p: string)
    requires (space == "" || space == " ") && p != "" && !IsSpace(p[0])
    ensures SkipSpaces(space + p) == p
  {
    if space == "" {
      assert space + p == p;
    } else {
      assert (space + p)[1..] == p;
    }
  }

  lemma ParseVarAtom(v: string, space: string, rest: string, acc: Option<Term>)
    requires IsName(v) && Follows(rest) && (space == "" || space == " ")
    ensures ParseFrom(space + v + rest, acc) == ParseFrom(rest, Some(Combine(acc, Var(v))))
  {
    hide SkipSpaces, Combine, ParseFrom, VarLength;
    var s, p := space + v + rest, v + rest;
    SkipOne(space, p);
    assert s == space + p;
    VarLengthExact(v, rest);
    assert p[..|v|] == v && p[|v|..] == rest;
    ParseNameStep(s, p, |v|, acc);
  }

  lemma ParseNameStep(s: string, p: string, n: nat, acc: Option<Term>)
    requires SkipSpaces(s) == p && p != "" && p[0] != ')' && p[0] != '(' && p[0] != LAMBDA_CHAR
    requires VarLength(p) == Some(n) && 0 < n <= |p|
    ensures ParseFrom(s, acc) == ParseFrom(p[n..], Some(Combine(acc, Var(p[..n]))))
  {
    hide SkipSpaces, Combine, VarLength;
  }

  /** A printed abstraction body never extends the name of its binder. */
  lemma {:induction false} BodyFollows(b: Term, rest: string)
    requires WellNamed(b)
    ensures Print(b, 'a') != "" && Follows(Print(b, 'a') + rest)
  {
    match b
    case Var(_) =>
    case Lam(_, _) =>
    case App(f, _) => BodyFollows(f, rest);
  }

  lemma ParseParens(space: string, inner: string, t: Term, rest: string, acc: Option<Term>)
    requires space == "" || space == " "
    requires ParseFrom(inner, None) == Done(Some(t), ")" + rest)
    ensures ParseFrom(space + "(" + inner, acc) == ParseFrom(rest, Some(Combine(acc, t)))
  {
    hide VarLength, SkipSpaces, Combine;
    var s, p := space + "(" + inner, "(" + inner;
    SkipOne(space, p);
    assert s == space + p && p[1..] == inner;
    assert (")" + rest)[1..] == rest;
  }

  lemma ParseBinder(v: string, body: string, b: Term, rest: string)
    requires IsName(v) && Follows(body) && (rest == "" || rest[0] == ')')
    requires ParseFrom(body, None) == Done(Some(b), rest)
    ensures ParseFrom("@" + (v + body), None) == Done(Some(Lam(v, b)), rest)
  {
    var p := "@" + (v + body);
    assert p[1..] == v + body;
    VarLengthExact(v, body);
    assert (v + body)[..|v|] == v && (v + body)[|v|..] == body;
    assert SkipSpaces(rest) == rest;
  }

  lemma PrintLam(v: string, b: Term, last: char, rest: string)
    ensures Print(Lam(v, b), last) + rest == "" + "(" + ("@" + (v + (Print(b, 'a') + (")" + rest))))
  {
  }

  lemma PrintAppVar(f: Term, v: string, last: char, rest: string)
    ensures Print(App(f, Var(v)), last) + rest == Print(f, last) + (" " + v + rest)
  {
  }

  lemma PrintApp(f: Term, a: Term, last: char, rest: string)
    requires !a.Var?
    ensures Print(App(f, a), last) + rest == Print(f, last) + (" " + "(" + (Print(a, '(') + (")" + rest)))
  {
  }

  /** Reading back the text of a well-named term yields the term and stops just behind it. */
  lemma {:induction false} ParsePrint(t: Term, last: char, rest: string)
    requires WellNamed(t) && Follows(rest)
    ensures ParseFrom(Print(t, last) + rest, None) == ParseFrom(rest, Some(t))
    decreases t, 0, 1
  {
    match t
    case Var(v) =>
      ParseVarAtom(v, if IsAlnum(last) then " " else "", rest, None);
      assert "" + v == v;
    case Lam(v, b) =>
      ParsePrintLam(v, b, last, rest);
    case App(f, a) =>
      ParsePrintApp(f, a, last, rest);
  }

  lemma {:induction false} ParsePrintLam(v: string, b: Term, last: char, rest: string)
    requires WellNamed(Lam(v, b)) && Follows(rest)
    ensures ParseFrom(Print(Lam(v, b), last) + rest, None) == ParseFrom(rest, Some(Lam(v, b)))
    decreases Lam(v, b), 0, 0
  {
    var body := Print(b, 'a') + (")" + rest);
    ParsePrintParens(b, 'a', rest);
    BodyFollows(b, ")" + rest);
    ParseBinder(v, body, b, ")" + rest);
    ParseParens("", "@" + (v + body), Lam(v, b), rest, None);
    PrintLam(v, b, last, rest);
  }

  lemma {:induction false} ParsePrintApp(f: Term, a: Term, last: char, rest: string)
    requires WellNamed(App(f, a)) && Follows(rest)
    ensures ParseFrom(Print(App(f, a), last) + rest, None) == ParseFrom(rest, Some(App(f, a)))
    decreases App(f, a), 0, 0
  {
    if a.Var? {
      PrintAppVar(f, a.name, last, rest);
      ParsePrint(f, last, " " + a.name + rest);
      ParseVarAtom(a.name, " ", rest, Some(f));
    } else {
      var inner := Print(a, '(') + (")" + rest);
      PrintApp(f, a, last, rest);
      ParsePrint(f, last, " " + "(" + inner);
      ParsePrintParens(a, '(', rest);
      ParseParens(" ", inner, a, rest, Some(f));
    }
  }

  lemma {:induction false} ParsePrintParens(t: Term, last: char, rest: string)
    requires WellNamed(t)
    ensures ParseFrom(Print(t, last) + (")" + rest), None) == Done(Some(t), ")" + rest)
    decreases t, 1
  {
    ParsePrint(t, last, ")" + rest);
    assert SkipSpaces(")" + rest) == ")" + rest;
  }

  /** Main result: the parser inverts the printer, although the printer drops the
      parentheses around left-nested applications. */
  lemma PrintParseRoundTrip(t: Term)
    requires WellNamed(t)
    ensures Parse(Text(t)) == Done(Some(t), "")
  {
    ParsePrint(t, '\0', "");
    assert Text(t) + "" == Text(t);
  }

  /** Hence no two well-named terms share a text. */
  lemma TextInjective(t: Term, u: Term)
    requires WellNamed(t) && WellNamed(u) && Text(t) == Text(u)
    ensures t == u
  {
    PrintParseRoundTrip(t);
    PrintParseRoundTrip(u);
  }

  // ----- the procedures -----

  /** `after` is `before` with `s` and a terminating NUL written at `at`. */
  ghost predicate Wrote(before: seq<char>, after: seq<char>, at: nat, s: string) {
    at + |s| < |before| && after == before[..at] + s + ['\0'] + before[at + |s| + 1..]
  }

  lemma WroteMore(x: seq<char>, y: seq<char>, z: seq<char>, at: nat, s: string, u: string)
    requires Wrote(x, y, at, s) && Wrote(y, z, at + |s|, u)
    ensures Wrote(x, z, at, s + u)
  {
    assert y[..at + |s|] == x[..at] + s;
    assert y[at + |s| + |u| + 1..] == x[at + |s| + |u| + 1..];
  }

  method Sprintf(cfg: array<char>, at: nat, s: string) returns (len: nat)
    requires at + |s| < cfg.Length
    modifies cfg
    ensures len == |s| && Wrote(old(cfg[..]), cfg[..], at, s)
  {
    forall i | 0 <= i < |s| {
      cfg[at + i] := s[i];
    }
    len := |s|;
    cfg[at + len] := '\0';
  }

  /** Continues behind the text `done` that was written at `at` into a buffer holding `before`. */
  method SprintfMore(cfg: array<char>, at: nat, len: nat, s: string, ghost before: seq<char>, ghost done: string)
    returns (total: nat)
    requires len == |done| && at + len + |s| < cfg.Length
    requires Wrote(before, cfg[..], at, done)
    modifies cfg
    ensures total == |done + s| && Wrote(before, cfg[..], at, done + s)
  {
    ghost var middle := cfg[..];
    var n := Sprintf(cfg, at + len, s);
    WroteMore(before, middle, cfg[..], at, done, s);
    total := len + n;
  }

  /** Prints `t` into the buffer at `at`; the printed length is returned. */
  method TermToStr(cfg: array<char>, at: nat, t: Term, last: char) returns (len: nat)
    requires at + |Print(t, last)| < cfg.Length
    modifies cfg
    ensures len == |Print(t, last)| && Wrote(old(cfg[..]), cfg[..], at, Print(t, last))
    decreases t, 0
  {
    ghost var before := cfg[..];
    if t.Lam? {
      len := Sprintf(cfg, at, "(@" + t.name);
      len := TermToStrMore(cfg, at, len, t.body, 'a', before, "(@" + t.name);
      len := SprintfMore(cfg, at, len, ")", before, "(@" + t.name + Print(t.body, 'a'));
    } else if t.Var? {
      len := Sprintf(cfg, at, if IsAlnum(last) then " " + t.name else t.name);
    } else if t.arg.Var? {
      len := TermToStr(cfg, at, t.fct, last);
      len := TermToStrMore(cfg, at, len, t.arg, 'a', before, Print(t.fct, last));
    } else {
      len := TermToStr(cfg, at, t.fct, last);
      len := SprintfMore(cfg, at, len, " (", before, Print(t.fct, last));
      len := TermToStrMore(cfg, at, len, t.arg, '(', before, Print(t.fct, last) + " (");
      len := SprintfMore(cfg, at, len, ")", before, Print(t.fct, last) + " (" + Print(t.arg, '('));
    }
  }

  method TermToStrMore(cfg: array<char>, at: nat, len: nat, t: Term, last: char,
                       ghost before: seq<char>, ghost done: string)
    returns (total: nat)
    requires len == |done| && at + len + |Print(t, last)| < cfg.Length
    requires Wrote(before, cfg[..], at, done)
    modifies cfg
    ensures total == |done + Print(t, last)| && Wrote(before, cfg[..], at, done + Print(t, last))
    decreases t, 1
  {
    ghost var middle := cfg[..];
    var n := TermToStr(cfg, at + len, t, last);
    WroteMore(before, middle, cfg[..], at, done, Print(t, last));
    total := len + n;
  }

  /** The shared cursor: the text that has not been consumed yet. */
  class Cursor {
    var rest: string

    constructor (s: string)
      ensures rest == s
    {
      rest := s;
    }

    method ParseVar() returns (v: string)
      requires VarLength(rest).Some?
      modifies this
      ensures var n := VarLength(old(rest)).value; v == old(rest)[..n] && rest == old(rest)[n..]
    {
      var p := 0;
      if rest != "" && rest[0] == '\'' {
        p := 1;
        while rest[p] != '\''
          invariant 1 <= p < |rest|
          invariant QuoteEnd(rest[p..]).Some? && QuoteEnd(rest[1..]).value == p - 1 + QuoteEnd(rest[p..]).value
          decreases |rest| - p
        {
          assert rest[p..][1..] == rest[p + 1..];
          p := p + 1;
        }
        p := p + 1;
      } else {
        while p < |rest| && IsNameChar(rest[p])
          invariant p <= |rest|
          invariant NameLength(rest) == p + NameLength(rest[p..])
        {
          assert rest[p..][1..] == rest[p + 1..];
          p := p + 1;
        }
      }
      v := rest[..p];
      rest := rest[p..];
    }

    /** Total on the texts on which the recursive descent comes to an end. */
    method StrToTerm() returns (t: Option<Term>)
      requires !Parse(rest).Diverges?
      modifies this
      ensures Parse(old(rest)) == Done(t, rest)
      decreases |rest|
    {
      t := None;
      while rest != ""
        invariant |rest| <= |old(rest)|
        invariant Parse(old(rest)) == ParseFrom(rest, t)
        decreases |rest|
      {
        ghost var before := rest;
        while rest != "" && IsSpace(rest[0])
          invariant |rest| <= |before|
          invariant SkipSpaces(before) == SkipSpaces(rest)
          decreases |rest|
        {
          rest := rest[1..];
        }
        var s: Option<Term>;
        if rest != "" && rest[0] == ')' {
          return;
        } else if rest != "" && rest[0] == '(' {
          rest := rest[1..];
          s := StrToTerm();
          if s.None? {
            return None;
          }
          if rest == "" || rest[0] != ')' {
            return None;
          }
          rest := rest[1..];
        } else if rest != "" && rest[0] == LAMBDA_CHAR {
          rest := rest[1..];
          var v := ParseVar();
          s := StrToTerm();
          s := Some(Abstraction(v, s));
        } else {
          var v := ParseVar();
          s := Some(Var(v));
        }
        t := Some(Combine(t, s.value));
      }
    }
  }
}
