/** From the text of an expression to the text of its value: what holds of the structured machine,
    carried over to the machine on strings. */
module Evaluation {
  import opened LambdaText
  import opened Options
  import opened Zam
  import opened Krivine
  import opened NfnMachine
  import opened MachineRuns
  import opened Expressions
  import opened CallByName
  import Skipping

  /** Whatever the spacing and the parentheses of its source text, an expression that has a value
      is reduced to that value, in decimal notation. */
  method Evaluate(src: string, ghost e: Expr, content: map<string, string>) returns (res: Option<string>, status: Status)
    requires SoundSource(src) && Means(src, Encode(e)) && Proper(Encode(e)) && Eval(e).Some?
    ensures status == Halted && res == Some(Decimal(Eval(e).value))
    ensures Notation(res.value, Eval(e).value)
  {
    hide SoundSource, Means, Proper, Eval, Run, Start, Export, Notation, Decimal;
    ghost var steps := ExpressionHalts(e, src);
    NotEmpty(src, Encode(e));
    res, status := Reduction(src, content, steps);
    ExportOne(IntV(Eval(e).value), content);
    ExportInteger(Eval(e).value, content);
  }

  lemma NotEmpty(src: string, t: Term)
    requires Means(src, t)
    ensures src != ""
  {
  }

  /** The printed form of an expression is such a text. */
  lemma PrintedForm(e: Expr)
    requires Proper(Encode(e))
    ensures SoundSource(Text(Encode(e))) && Means(Text(Encode(e)), Encode(e))
  {
    hide SoundSource, Means;
    ProperPrintable(Encode(e));
    TextDenotes(Encode(e));
    TextMeans(Encode(e));
  }

  // ----- call by name on strings -----

  /** The machine on strings, run to its end on a closed expression, halts or crashes. If it halts,
      what it exports are the results with which the reduction reaches HALT; if the reduction does
      and the machine does not crash, it halts. */
  method ReduceByName(src: string, content: map<string, string>, ghost bound: nat)
    returns (res: Option<string>, status: Status)
    requires SoundSource(src) && ClosedSource(src) && Stopped(Run(Start(src), bound))
    ensures status == Halted || (status == Undefined && MachineCrashes(src))
    ensures status == Halted ==> !MachineCrashes(src) && exists out :: ReductionYields(src, out)
    ensures forall out :: ReductionYields(src, out) && !MachineCrashes(src) ==> status == Halted
    ensures forall out :: ReductionYields(src, out) && status == Halted ==> res == Some(Export(out, content))
  {
    hide SoundSource, ClosedSource, Run, Start, Export, MachineCrashes, ReductionYields;
    SourceNotEmpty(src);
    res, status := Reduction(src, content, bound);
    Outcome(src, bound);
  }

  lemma SourceNotEmpty(src: string)
    requires ClosedSource(src)
    ensures src != ""
  {
  }

  lemma Outcome(src: string, n: nat)
    requires ClosedSource(src) && Stopped(Run(Start(src), n))
    ensures var m := Run(Start(src), n);
            && (m.status == Halted || (m.status == Undefined && MachineCrashes(src)))
            && (m.status == Halted ==> !MachineCrashes(src) && ReductionYields(src, m.results))
            && (forall out :: ReductionYields(src, out) && m.status == Halted ==> out == m.results)
            && (forall out :: ReductionYields(src, out) && !MachineCrashes(src) ==> m.status == Halted)
  {
    hide ParseFrom, Run, Start, Normalise, Step, Focus, Program, ClosedFocus, Legible;
    var m := Run(Start(src), n);
    StartFocus(src);
    StopsLater(Start(src), 1, n);
    var k := Faithful(Clos(Source(src), Empty), [BOTTOM], [], n - 1);
    if m.status == Halted {
      assert HaltsWith(Run(Start(src), n), m.results);
      MachineIsCallByName(src, m.results);
      forall out | ReductionYields(src, out) ensures out == m.results {
        SameResults(src, out, m.results);
      }
    } else {
      CrashHere(Start(src), n);
    }
  }

  /** The reduction reaches HALT with one list of results at most. */
  lemma SameResults(src: string, out: seq<Value>, other: seq<Value>)
    requires Legible(src) && ReductionYields(src, out) && ReductionYields(src, other)
    ensures out == other
  {
    hide Normalise, Program, Legible;
    var j: nat :| Normalise(Program(src), [], j) == Some(out);
    var k: nat :| Normalise(Program(src), [], k) == Some(other);
    OneOutcome(Program(src), [], j, k);
  }

  /** Without a bound variable that is an argument by itself, the machine on strings halts exactly if
      the reduction reaches HALT. */
  method ReduceSafely(src: string, content: map<string, string>, ghost bound: nat)
    returns (res: Option<string>, status: Status)
    requires SoundSource(src) && ClosedSource(src) && Stopped(Run(Start(src), bound))
    requires Skipping.PassesNoBound(SourceTerm(src))
    ensures status == Halted <==> exists out :: ReductionYields(src, out)
    ensures forall out :: ReductionYields(src, out) ==> res == Some(Export(out, content))
  {
    hide SoundSource, Legible, ClosedTerm, Run, Start, Export, MachineCrashes, ReductionYields;
    res, status := ReduceByName(src, content, bound);
    forall out | ReductionYields(src, out) ensures !MachineCrashes(src) {
      Skipping.PassingNoBoundAgrees(src, out);
      MachineIsCallByName(src, out);
    }
  }
}
