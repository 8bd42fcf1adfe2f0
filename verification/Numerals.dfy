/** Literals of the source language: what the numerals in them denote, and which identifiers are
    literals at all. */
module Numerals {
  import opened LambdaText
  import opened Options
  import opened Zam
  import opened Krivine
  import opened NfnMachine
  import opened MachineRuns
  import opened Expressions

  const DIGITS := "0123456789abcdef"
  const CAPITALS := "0123456789ABCDEF"

  /** The usual notation of a number in a base. */
  function Numeral(n: nat, base: nat): (s: string)
    requires 2 <= base <= 16
    ensures s != ""
  {
    if n < base then [DIGITS[n]]
    else
      Quotient(n, base);
      Numeral(n / base, base) + [DIGITS[n % base]]
  }

  lemma DigitReads(d: nat)
    requires d < 16
    ensures DigitValue(DIGITS[d]) == d && DigitValue(CAPITALS[d]) == d
    ensures d < 10 ==> IsDigit(DIGITS[d])
    ensures DIGITS[d] == '0' <==> d == 0
    ensures DIGITS[d] != 'x' && DIGITS[d] != 'X' && DIGITS[d] != '-'
  {
  }

  lemma DigitBehind(s: string, d: nat, base: nat)
    requires d < base <= 16
    ensures DigitsValue(s + [DIGITS[d]], base)
         == match DigitsValue(s, base) case None => None case Some(n) => Some(n * base + d)
  {
    hide DigitValue;
    DigitReads(d);
    assert (s + [DIGITS[d]])[..|s|] == s;
  }

  lemma LongNumeral(n: nat, base: nat) returns (q: nat, d: nat)
    requires 2 <= base <= n && base <= 16
    ensures 0 < q < n && d < base && n == q * base + d
    ensures Numeral(n, base) == Numeral(q, base) + [DIGITS[d]]
  {
    q, d := n / base, n % base;
    Quotient(n, base);
  }

  lemma Quotient(n: nat, base: nat)
    requires 2 <= base <= n
    ensures 0 < n / base < n && n == n / base * base + n % base
  {
    var q := n / base;
    assert n == base * q + n % base;
    assert q >= 1;
    assert base * q >= 2 * q;
  }

  lemma ShortNumeral(n: nat, base: nat)
    requires n < base && 2 <= base <= 16
    ensures Numeral(n, base) == [DIGITS[n]]
  {
  }

  lemma {:induction false} NumeralReads(n: nat, base: nat)
    requires 2 <= base <= 16
    ensures DigitsValue(Numeral(n, base), base) == Some(n)
  {
    hide DigitsValue, Numeral;
    if n < base {
      ShortNumeral(n, base);
      DigitBehind("", n, base);
      assert "" + [DIGITS[n]] == [DIGITS[n]];
      assert DigitsValue("", base) == Some(0) by { NoDigits(base); }
    } else {
      var q, d := LongNumeral(n, base);
      NumeralReads(q, base);
      DigitBehind(Numeral(q, base), d, base);
    }
  }

  lemma NoDigits(base: nat)
    ensures DigitsValue("", base) == Some(0)
  {
  }

  lemma {:induction false} NumeralStarts(n: nat, base: nat)
    requires 2 <= base <= 16
    ensures Numeral(n, base)[0] == '0' <==> n == 0
  {
    if n < base {
      DigitReads(n);
      ShortNumeral(n, base);
    } else {
      hide Numeral, DIGITS;
      var q, d := LongNumeral(n, base);
      NumeralStarts(q, base);
    }
  }

  lemma {:induction false} NumeralDigits(n: nat, base: nat)
    requires 2 <= base <= 16
    ensures base <= 10 ==> forall i :: 0 <= i < |Numeral(n, base)| ==> IsDigit(Numeral(n, base)[i])
    ensures forall i :: 0 <= i < |Numeral(n, base)| ==> Numeral(n, base)[i] != 'x' && Numeral(n, base)[i] != 'X'
  {
    hide Numeral, DIGITS;
    if n < base {
      DigitReads(n);
      ShortNumeral(n, base);
    } else {
      var q, d := LongNumeral(n, base);
      DigitReads(d);
      NumeralDigits(q, base);
    }
  }

  /** A text is a numeral exactly if it consists of digits of the base. */
  lemma {:induction false} DigitsExact(v: string, base: nat)
    ensures DigitsValue(v, base).Some? <==> forall i :: 0 <= i < |v| ==> DigitValue(v[i]) < base
  {
    hide DigitValue;
    if v != "" {
      DigitsExact(v[..|v| - 1], base);
    }
  }

  /** The value of a C integer that is read into a `long` and kept as an `int`. */
  function Kept(n: nat): int {
    ToInt32(if n <= LONG_MAX then n else LONG_MAX)
  }

  lemma KeptExactly(n: nat)
    requires n < 0x8000_0000
    ensures Kept(n) == n
  {
  }

  /** Decimal, octal and hexadecimal literals denote their numbers. */
  lemma DecimalLiteral(n: nat)
    ensures Literal(Numeral(n, 10)) == Some(IntV(Kept(n)))
  {
    hide DigitsValue, Numeral, ToInt32;
    NumeralReads(n, 10);
    NumeralStarts(n, 10);
    NumeralDigits(n, 10);
    var v := Numeral(n, 10);
    assert IsDigit(v[0]);
    if n == 0 {
      assert v == "0" by { ZeroNumeral(10); }
      assert DigitsValue("0", 8) == Some(0) by { ZeroNumeral(8); NumeralReads(0, 8); }
    }
  }

  lemma ZeroNumeral(base: nat)
    requires 2 <= base <= 16
    ensures Numeral(0, base) == "0"
  {
  }

  lemma OctalLiteral(n: nat)
    ensures Literal("0" + Numeral(n, 8)) == Some(IntV(Kept(n)))
  {
    hide DigitsValue, Numeral, ToInt32;
    NumeralReads(n, 8);
    NumeralDigits(n, 8);
    var v := "0" + Numeral(n, 8);
    assert v[0] == '0' && v[1] == Numeral(n, 8)[0];
    LeadingZero(Numeral(n, 8), 8);
  }

  lemma {:induction false} LeadingZero(v: string, base: nat)
    requires base >= 2
    ensures DigitsValue("0" + v, base) == DigitsValue(v, base)
  {
    hide DigitValue;
    assert DigitValue('0') == 0 by { DigitReads(0); }
    var w := "0" + v;
    if v == "" {
      assert w[..0] == "";
    } else {
      LeadingZero(v[..|v| - 1], base);
      assert w[..|w| - 1] == "0" + v[..|v| - 1];
    }
  }

  lemma HexadecimalLiteral(n: nat, x: char)
    requires x == 'x' || x == 'X'
    ensures Literal("0" + ([x] + Numeral(n, 16))) == Some(IntV(Kept(n)))
  {
    hide DigitsValue, Numeral, ToInt32;
    NumeralReads(n, 16);
    var v := "0" + ([x] + Numeral(n, 16));
    assert v[0] == '0' && v[1] == x && v[2..] == Numeral(n, 16);
  }

  /** A quoted text is a constant, a name with a leading slash is a content name, and any other
      identifier that does not start with a digit is a variable. */
  lemma OtherLiterals(t: string, v: string)
    ensures Literal("'" + (t + "'")) == Some(ConstV(t))
    ensures Literal("/" + t) == Some(PrefixV("/" + t))
    ensures v != "" && (v[0] in "_=." || 'a' <= v[0] <= 'z' || 'A' <= v[0] <= 'Z') ==> Literal(v) == None
  {
    var quoted := "'" + (t + "'");
    assert quoted[1..|quoted| - 1] == t;
  }

  lemma {:induction false} DecimalIsNumeral(n: nat)
    ensures DecimalNat(n) == Numeral(n, 10)
  {
    var d := n % 10;
    assert DIGITS[d] == ('0' as int + d) as char;
    if n >= 10 {
      DecimalIsNumeral(n / 10);
    }
  }

  // ----- the operators on numbers -----

  lemma NumberProper(n: nat)
    ensures Proper(Var(Decimal(n)))
  {
    hide Numeral;
    DecimalIsNumeral(n);
    NumeralDigits(n, 10);
    var v := Decimal(n);
    BalancedParenFree(v);
    assert IsPlainName(v);
  }

  /** A result that is not negative can be used as a literal again. */
  lemma ResultIsLiteral(n: nat)
    requires n < 0x8000_0000
    ensures Literal(Decimal(n)) == Some(IntV(n))
  {
    hide Literal;
    DecimalIsNumeral(n);
    DecimalLiteral(n);
  }

  lemma WrapsAround(x: int)
    ensures (ToInt32(x) - x) % 0x1_0000_0000 == 0
    ensures 0x8000_0000 <= x < 0x1_0000_0000 ==> ToInt32(x) == x - 0x1_0000_0000
  {
    var q := (x + 0x8000_0000) / 0x1_0000_0000;
    assert ToInt32(x) - x == -0x1_0000_0000 * q;
  }

  lemma OperateMeans(op: Operator, a: nat, b: nat)
    requires a < 0x8000_0000 && b < 0x8000_0000
    ensures var r := Operate(op, a, b);
            && -0x8000_0000 <= r < 0x8000_0000
            && (op.Add? ==> r == if a + b < 0x8000_0000 then a + b else a + b - 0x1_0000_0000)
            && (op.Sub? ==> r == a - b)
            && (op.Mult? ==> (r - a * b) % 0x1_0000_0000 == 0)
            && (op.Eq? ==> r == if a == b then 1 else 0)
            && (op.Leq? ==> r == if a <= b then 1 else 0)
  {
    hide ToInt32;
    WrapsAround(a + b);
    WrapsAround(a * b);
  }

  /** An operator applied to two numbers is an expression that the machine evaluates to the result
      of 32-bit arithmetic, or to one for a comparison that holds and zero for one that does not. */
  lemma OperatorsMean(op: Operator, a: nat, b: nat)
    requires a < 0x8000_0000 && b < 0x8000_0000
    ensures var e := Bin(op, Num(Decimal(a)), Num(Decimal(b)));
            && Proper(Encode(e)) && Eval(e).Some? && var r := Eval(e).value;
            && -0x8000_0000 <= r < 0x8000_0000
            && (op.Add? ==> r == if a + b < 0x8000_0000 then a + b else a + b - 0x1_0000_0000)
            && (op.Sub? ==> r == a - b)
            && (op.Mult? ==> (r - a * b) % 0x1_0000_0000 == 0)
            && (op.Eq? ==> r == if a == b then 1 else 0)
            && (op.Leq? ==> r == if a <= b then 1 else 0)
  {
    hide Literal, Decimal, Operate;
    OperatorProper(op);
    NumberProper(a);
    NumberProper(b);
    ResultIsLiteral(a);
    ResultIsLiteral(b);
    OperateMeans(op, a, b);
  }

  /** The conditional on a comparison of two numbers is its chosen branch. */
  lemma ConditionalMeans(a: nat, b: nat, yes: Expr, no: Expr)
    requires a < 0x8000_0000 && b < 0x8000_0000
    ensures Eval(Cond(Bin(Leq, Num(Decimal(a)), Num(Decimal(b))), yes, no)) == if a <= b then Eval(yes) else Eval(no)
  {
    hide Literal, Decimal;
    ResultIsLiteral(a);
    ResultIsLiteral(b);
    assert Eval(Bin(Leq, Num(Decimal(a)), Num(Decimal(b)))) == Some(if a <= b then 1 else 0);
  }

  // ----- builtins without their operands -----

  /** A binary builtin waits for a second operand. If the last result is a number and the one before is
      not, the program reads a wrong value; if the last is none, both count as zero. */
  lemma WithoutOperands(m: Machine, op: Builtin, k: Code, i: int, v: Value, w: Value, rest: seq<Value>)
    requires !v.IntV?
    ensures |m.results| < 2 ==> ApplyBinary(m, op, k) == m.(status := Paused)
    ensures m.results == [IntV(i), v] + rest ==> ApplyBinary(m, op, k) == m.(status := Undefined)
    ensures m.results == [v, w] + rest ==>
              ApplyBinary(m, op, k) == ApplyBinary(m.(results := [IntV(0), IntV(0)] + rest), op, k)
  {
    hide BinaryAnswer;
    assert ([v, w] + rest)[2..] == rest && ([IntV(0), IntV(0)] + rest)[2..] == rest;
  }

  /** The conditional waits for its test; a test that is no number ends the program. */
  lemma WithoutTest(m: Machine, k: Code, v: Value, rest: seq<Value>)
    requires !v.IntV?
    ensures m.results == [] ==> ApplyIfElse(m, k) == m.(status := Paused)
    ensures m.results == [v] + rest ==> ApplyIfElse(m, k) == m.(prog := End, results := rest)
  {
    assert ([v] + rest)[1..] == rest;
  }
}
