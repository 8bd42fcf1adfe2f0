/** The source language as a grammar, with spacing and parentheses, and the proof that the parser reads
    every text of the grammar as the term that it spells. */
module Grammar {
  import opened LambdaText
  import opened Options
  import opened Zam
  import MachineRuns

  /** Words, parenthesized phrases, and binders that reach to the end of their phrase; each item of a
      phrase has spaces in front. */
  datatype Item = Word(name: string) | Group(inner: Phrase, pad: string) | Binder(name: string, body: Phrase)
  datatype Phrase = Nil | More(pad: string, head: Item, tail: Phrase)

  function Spell(p: Phrase): string {
    match p
    case Nil => ""
    case More(pad, h, t) => pad + (SpellItem(h) + Spell(t))
  }

  function SpellItem(i: Item): string {
    match i
    case Word(v) => v
    case Group(p, pad) => "(" + (Spell(p) + (pad + ")"))
    case Binder(v, p) => "@" + (v + Spell(p))
  }

  /** A phrase applies its first item to the others, one after the other. */
  function Meaning(acc: Option<Term>, p: Phrase): Option<Term>
    decreases p
  {
    match p
    case Nil => acc
    case More(_, h, t) =>
      match ItemMeaning(h)
      case None => None
      case Some(x) => Meaning(Some(if acc.Some? then App(acc.value, x) else x), t)
  }

  function ItemMeaning(i: Item): Option<Term>
    decreases i
  {
    match i
    case Word(v) => Some(Var(v))
    case Group(p, _) => Meaning(None, p)
    case Binder(v, p) =>
      match Meaning(None, p)
      case None => None
      case Some(b) => Some(Lam(v, b))
  }

  const NUMBERS := "0123456789"
  const SMALL_LETTERS := "abcdefghijklmnopqrstuvwxyz"
  const BIG_LETTERS := "ABCDEFGHIJKLMNOPQRSTUVWXYZ"

  predicate NameChar(c: char) {
    c in NUMBERS || c in SMALL_LETTERS || c in BIG_LETTERS || c in "_=/."
  }

  /** Spaces, tabs, line and page ends. */
  predicate Blank(pad: string) {
    forall c :: c in pad ==> c == ' ' || 9 <= c as int <= 13
  }

  predicate Plain(v: string) {
    v != "" && forall c :: c in v ==> NameChar(c)
  }

  predicate Quoted(v: string) {
    |v| >= 2 && v[0] == '\'' && v[|v| - 1] == '\'' && '\'' !in v[1..|v| - 1]
  }

  /** A plain name ends where something else than a name starts. */
  predicate Parted(v: string, rest: string) {
    Plain(v) && rest != "" ==> !NameChar(rest[0])
  }

  predicate Legal(p: Phrase)
    decreases p, 0
  {
    match p
    case Nil => true
    case More(pad, h, t) =>
      && Blank(pad) && LegalItem(h) && Legal(t)
      && (h.Word? ==> Parted(h.name, Spell(t))) && (h.Binder? ==> t.Nil?)
  }

  predicate LegalItem(i: Item)
    decreases i
  {
    match i
    case Word(v) => Plain(v) || Quoted(v)
    case Group(p, pad) => p.More? && Legal(p) && Blank(pad)
    case Binder(v, p) => (Plain(v) || Quoted(v)) && p.More? && Legal(p) && Parted(v, Spell(p))
  }

  // ----- characters -----

  lemma Numbers(c: char)
    ensures c in NUMBERS <==> '0' <= c <= '9'
  {
    if '0' <= c <= '9' {
      assert NUMBERS[c as int - '0' as int] == c;
    }
  }

  lemma SmallLetters(c: char)
    ensures c in SMALL_LETTERS <==> 'a' <= c <= 'z'
  {
    if 'a' <= c <= 'z' {
      assert SMALL_LETTERS[c as int - 'a' as int] == c;
    }
  }

  lemma BigLetters(c: char)
    ensures c in BIG_LETTERS <==> 'A' <= c <= 'Z'
  {
    if 'A' <= c <= 'Z' {
      assert BIG_LETTERS[c as int - 'A' as int] == c;
    }
  }

  lemma NameChars(c: char)
    ensures IsNameChar(c) <==> NameChar(c)
  {
    hide NUMBERS, SMALL_LETTERS, BIG_LETTERS;
    Numbers(c);
    SmallLetters(c);
    BigLetters(c);
    assert c in "_=/." <==> c == '_' || c == '=' || c == '/' || c == '.';
  }

  lemma NamesAre(v: string)
    ensures Plain(v) <==> IsPlainName(v)
    ensures Quoted(v) <==> IsQuotedName(v)
  {
    forall c ensures IsNameChar(c) <==> NameChar(c) {
      NameChars(c);
    }
    hide NameChar, IsNameChar;
    if Quoted(v) || IsQuotedName(v) {
      var inner := v[1..|v| - 1];
      forall i | 1 <= i < |v| - 1 ensures v[i] == inner[i - 1] {
      }
    }
  }

  lemma {:induction false} PadSkipped(pad: string, rest: string)
    requires Blank(pad) && (rest != "" ==> !IsSpace(rest[0]))
    ensures SkipSpaces(pad + rest) == rest
  {
    if pad == "" {
      assert pad + rest == rest;
    } else {
      assert pad[0] in pad && IsSpace(pad[0]);
      assert (pad + rest)[1..] == pad[1..] + rest;
      assert forall c :: c in pad[1..] ==> c in pad;
      PadSkipped(pad[1..], rest);
    }
  }

  lemma {:induction false} PlainLength(v: string, rest: string)
    requires forall i :: 0 <= i < |v| ==> IsNameChar(v[i])
    requires rest != "" ==> !IsNameChar(rest[0])
    ensures NameLength(v + rest) == |v|
  {
    if v == "" {
      assert v + rest == rest;
    } else {
      assert (v + rest)[1..] == v[1..] + rest;
      PlainLength(v[1..], rest);
    }
  }

  lemma WordLength(v: string, rest: string)
    requires (Plain(v) || Quoted(v)) && Parted(v, rest)
    ensures VarLength(v + rest) == Some(|v|)
    ensures v[0] != '(' && v[0] != ')' && v[0] != '@' && !IsSpace(v[0])
  {
    NamesAre(v);
    if Plain(v) {
      if rest != "" {
        NameChars(rest[0]);
      }
      PlainLength(v, rest);
    } else {
      QuoteEndExact(v[1..], rest);
      assert (v + rest)[1..] == v[1..] + rest;
    }
  }

  // ----- the parser reads the grammar -----

  /** A phrase ends with the text or at a closing parenthesis. */
  predicate Closes(rest: string) {
    rest == "" || (SkipSpaces(rest) != "" && SkipSpaces(rest)[0] == ')')
  }

  lemma ClosesParted(v: string, rest: string)
    requires Closes(rest)
    ensures Parted(v, rest)
  {
    if rest != "" {
      NameChars(rest[0]);
      hide NameChar;
    }
  }

  lemma ItemStarts(i: Item, rest: string)
    requires LegalItem(i)
    ensures SpellItem(i) != "" && !IsSpace((SpellItem(i) + rest)[0])
  {
    match i {
      case Word(v) => NamesAre(v);
      case _ =>
    }
  }

  /** Parsing goes on behind the spaces in front of an item. */
  lemma AtItem(pad: string, text: string, acc: Option<Term>)
    requires Blank(pad) && text != "" && !IsSpace(text[0])
    ensures SkipSpaces(pad + text) == text && pad + text != ""
  {
    PadSkipped(pad, text);
  }

  lemma WordStep(pad: string, v: string, rest: string, acc: Option<Term>)
    requires Blank(pad) && (Plain(v) || Quoted(v)) && Parted(v, rest)
    ensures ParseFrom(pad + (v + rest), acc) == ParseFrom(rest, Some(if acc.Some? then App(acc.value, Var(v)) else Var(v)))
  {
    WordLength(v, rest);
    hide VarLength;
    AtItem(pad, v + rest, acc);
    assert (v + rest)[..|v|] == v && (v + rest)[|v|..] == rest;
  }

  lemma GroupStep(pad: string, inner: string, t: Term, rest: string, acc: Option<Term>)
    requires Blank(pad) && ParseFrom(inner + (")" + rest), None) == Done(Some(t), ")" + rest)
    ensures ParseFrom(pad + ("(" + (inner + (")" + rest))), acc) == ParseFrom(rest, Some(if acc.Some? then App(acc.value, t) else t))
  {
    hide VarLength;
    var text := "(" + (inner + (")" + rest));
    AtItem(pad, text, acc);
    assert text[1..] == inner + (")" + rest) && (")" + rest)[1..] == rest;
  }

  lemma BinderStep(pad: string, v: string, body: string, b: Term, rest: string, acc: Option<Term>)
    requires Blank(pad) && (Plain(v) || Quoted(v)) && Parted(v, body + rest)
    requires ParseFrom(body + rest, None) == Done(Some(b), SkipSpaces(rest)) && Closes(rest)
    ensures ParseFrom(pad + ("@" + (v + (body + rest))), acc)
         == Done(Some(if acc.Some? then App(acc.value, Lam(v, b)) else Lam(v, b)), SkipSpaces(rest))
  {
    WordLength(v, body + rest);
    hide VarLength;
    var text := "@" + (v + (body + rest));
    AtItem(pad, text, acc);
    assert text[1..] == v + (body + rest);
    assert (v + (body + rest))[..|v|] == v && (v + (body + rest))[|v|..] == body + rest;
  }

  lemma CloseStep(rest: string, acc: Option<Term>)
    requires Closes(rest)
    ensures ParseFrom(rest, acc) == Done(acc, SkipSpaces(rest))
  {
    hide VarLength;
  }

  lemma PartedAhead(v: string, t: string, rest: string)
    requires Parted(v, t) && Closes(rest)
    ensures Parted(v, t + rest)
  {
    if t == "" {
      assert t + rest == rest;
      ClosesParted(v, rest);
    }
  }

  lemma PadCloses(pad: string, rest: string)
    requires Blank(pad)
    ensures Closes(pad + (")" + rest)) && SkipSpaces(pad + (")" + rest)) == ")" + rest
  {
    PadSkipped(pad, ")" + rest);
  }

  /** Main result: behind what was read so far, the parser reads a phrase as its meaning, up to where
      the phrase closes. */
  lemma {:induction false} PhraseRead(p: Phrase, rest: string, acc: Option<Term>)
    requires Legal(p) && Closes(rest) && (p.More? || acc.Some?)
    ensures Meaning(acc, p).Some? && ParseFrom(Spell(p) + rest, acc) == Done(Meaning(acc, p), SkipSpaces(rest))
    decreases p, 1
  {
    hide ParseFrom, SkipSpaces, Closes, Parted, Plain, Quoted, Blank;
    match p
    case Nil =>
      assert Spell(p) + rest == rest;
      CloseStep(rest, acc);
    case More(pad, h, t) =>
      var tail := Spell(t) + rest;
      match h {
        case Word(v) =>
          assert Spell(p) + rest == pad + (v + tail);
          PartedAhead(v, Spell(t), rest);
          WordStep(pad, v, tail, acc);
          PhraseRead(t, rest, Some(if acc.Some? then App(acc.value, Var(v)) else Var(v)));
        case Group(inner, close) =>
          var end := close + (")" + tail);
          assert Spell(p) + rest == pad + ("(" + ((Spell(inner) + close) + (")" + tail)));
          PadCloses(close, tail);
          PhraseRead(inner, end, None);
          assert Spell(inner) + end == (Spell(inner) + close) + (")" + tail);
          var x := Meaning(None, inner).value;
          GroupStep(pad, Spell(inner) + close, x, tail, acc);
          PhraseRead(t, rest, Some(if acc.Some? then App(acc.value, x) else x));
        case Binder(v, body) =>
          assert Spell(p) + rest == pad + ("@" + (v + (Spell(body) + rest)));
          PartedAhead(v, Spell(body), rest);
          PhraseRead(body, rest, None);
          BinderStep(pad, v, Spell(body), Meaning(None, body).value, rest, acc);
      }
  }

  lemma NothingCloses()
    ensures Closes("") && SkipSpaces("") == ""
  {
  }

  /** Every text of the grammar is parsed as the term that it spells, and used up. */
  lemma TextRead(p: Phrase)
    requires p.More? && Legal(p)
    ensures Meaning(None, p).Some? && Parse(Spell(p)) == Done(Meaning(None, p), "")
  {
    NothingCloses();
    hide ParseFrom, SkipSpaces, Closes;
    PhraseRead(p, "", None);
    assert Spell(p) + "" == Spell(p);
  }

  // ----- texts outside of the grammar -----

  /** A group that is not closed, or empty, is no term. */
  lemma Unclosed(p: Phrase)
    requires p.More? && Legal(p)
    ensures Parse("(" + Spell(p)) == Done(None, "")
  {
    NothingCloses();
    assert SkipSpaces("(" + Spell(p)) == "(" + Spell(p);
    hide SkipSpaces, Closes, VarLength;
    PhraseRead(p, "", None);
    assert Spell(p) + "" == Spell(p) && ("(" + Spell(p))[1..] == Spell(p);
  }

  lemma EmptyGroup(rest: string)
    ensures Parse("(" + (")" + rest)) == Done(None, ")" + rest)
  {
    var s := "(" + (")" + rest);
    assert s[1..] == ")" + rest;
    assert ParseFrom(")" + rest, None) == Done(None, ")" + rest);
  }

  /** No binder takes what follows the phrase into its body. */
  predicate Unbound(p: Phrase) {
    p.More? ==> !p.head.Binder? && Unbound(p.tail)
  }

  lemma {:induction false} PhraseThen(p: Phrase, pad: string, acc: Option<Term>)
    requires Legal(p) && Unbound(p) && Blank(pad) && pad != "" && (p.More? || acc.Some?)
    ensures Meaning(acc, p).Some? && ParseFrom(Spell(p) + pad, acc) == ParseFrom(pad, Meaning(acc, p))
    decreases p
  {
    hide ParseFrom, SkipSpaces, Closes, Parted, Plain, Quoted, Blank;
    match p
    case Nil =>
      assert Spell(p) + pad == pad;
    case More(front, h, t) =>
      var tail := Spell(t) + pad;
      match h {
        case Word(v) =>
          assert Spell(p) + pad == front + (v + tail);
          PartedPad(v, Spell(t), pad);
          WordStep(front, v, tail, acc);
          PhraseThen(t, pad, Some(if acc.Some? then App(acc.value, Var(v)) else Var(v)));
        case Group(inner, close) =>
          assert Spell(p) + pad == front + ("(" + ((Spell(inner) + close) + (")" + tail)));
          PadCloses(close, tail);
          PhraseRead(inner, close + (")" + tail), None);
          assert Spell(inner) + (close + (")" + tail)) == (Spell(inner) + close) + (")" + tail);
          var x := Meaning(None, inner).value;
          GroupStep(front, Spell(inner) + close, x, tail, acc);
          PhraseThen(t, pad, Some(if acc.Some? then App(acc.value, x) else x));
      }
  }

  lemma PartedPad(v: string, t: string, pad: string)
    requires Parted(v, t) && Blank(pad) && pad != ""
    ensures Parted(v, t + pad)
  {
    if t == "" {
      NameChars(pad[0]);
      hide NameChar;
      assert t + pad == pad && pad[0] in pad;
    }
  }

  lemma {:induction false} OnlyPad(pad: string)
    requires Blank(pad)
    ensures SkipSpaces(pad) == ""
  {
    PadSkipped(pad, "");
    assert pad + "" == pad;
  }

  /** Spaces behind a source text are taken for one more variable, without a name. */
  lemma TrailingSpaces(p: Phrase, pad: string)
    requires p.More? && Legal(p) && Unbound(p) && Blank(pad) && pad != ""
    ensures Meaning(None, p).Some?
    ensures Parse(Spell(p) + pad) == Done(Some(App(Meaning(None, p).value, Var(""))), "")
  {
    PhraseThen(p, pad, None);
    OnlyPad(pad);
    hide SkipSpaces, Blank, Legal;
  }

  // ----- texts for the machine -----

  /** No name disturbs the count of parentheses. */
  predicate Even(p: Phrase)
    decreases p
  {
    match p
    case Nil => true
    case More(_, h, t) => EvenItem(h) && Even(t)
  }

  predicate EvenItem(i: Item)
    decreases i
  {
    match i
    case Word(v) => Balanced(v, 0)
    case Group(p, _) => Even(p)
    case Binder(v, p) => Balanced(v, 0) && Even(p)
  }

  lemma PadBalanced(pad: string)
    requires Blank(pad)
    ensures Balanced(pad, 0)
  {
    forall i | 0 <= i < |pad| ensures pad[i] != '(' && pad[i] != ')' {
      assert pad[i] in pad;
    }
    BalancedParenFree(pad);
  }

  lemma {:induction false} SpellBalanced(p: Phrase)
    requires Legal(p) && Even(p)
    ensures Balanced(Spell(p), 0)
    decreases p
  {
    hide Balanced, Blank, Parted;
    match p
    case Nil =>
      assert Balanced("", 0) by { NothingBalanced(); }
    case More(pad, h, t) =>
      PadBalanced(pad);
      ItemBalanced(h);
      SpellBalanced(t);
      BalancedConcat(SpellItem(h), Spell(t), 0, 0);
      BalancedConcat(pad, SpellItem(h) + Spell(t), 0, 0);
  }

  lemma NothingBalanced()
    ensures Balanced("", 0)
  {
  }

  lemma {:induction false} ItemBalanced(i: Item)
    requires LegalItem(i) && EvenItem(i)
    ensures Balanced(SpellItem(i), 0)
    decreases i
  {
    hide Balanced, Blank, Parted, Plain, Quoted;
    match i
    case Word(v) =>
    case Group(p, pad) =>
      SpellBalanced(p);
      PadBalanced(pad);
      BalancedConcat(Spell(p), pad, 0, 0);
      BalancedParens(Spell(p) + pad);
      assert "(" + (Spell(p) + pad) + ")" == "(" + (Spell(p) + (pad + ")"));
    case Binder(v, p) =>
      SpellBalanced(p);
      BalancedConcat(v, Spell(p), 0, 0);
      assert Balanced("@" + (v + Spell(p)), 0) by {
        BalancedBehind("@", v + Spell(p));
      }
  }

  lemma {:induction false} MeaningPrintable(acc: Option<Term>, p: Phrase)
    requires Legal(p) && Even(p) && (acc.Some? ==> Printable(acc.value))
    ensures Meaning(acc, p).Some? ==> Printable(Meaning(acc, p).value)
    decreases p
  {
    hide Balanced, Blank, Parted;
    match p
    case Nil =>
    case More(_, h, t) =>
      ItemPrintable(h);
      if ItemMeaning(h).Some? {
        var x := ItemMeaning(h).value;
        MeaningPrintable(Some(if acc.Some? then App(acc.value, x) else x), t);
      }
  }

  lemma {:induction false} ItemPrintable(i: Item)
    requires LegalItem(i) && EvenItem(i)
    ensures ItemMeaning(i).Some? ==> Printable(ItemMeaning(i).value)
    decreases i
  {
    hide Balanced, Blank, Parted, Plain, Quoted, IsPlainName, IsQuotedName;
    match i
    case Word(v) => NamesAre(v);
    case Group(p, _) => MeaningPrintable(None, p);
    case Binder(v, p) =>
      NamesAre(v);
      MeaningPrintable(None, p);
  }

  /** A text of the grammar that does not start a definition is one that the machine can run, and means
      for the machine what it spells. */
  lemma TextRuns(p: Phrase)
    requires p.More? && Legal(p) && Even(p) && !("let" <= Spell(p))
    ensures Meaning(None, p).Some?
    ensures SoundSource(Spell(p)) && MachineRuns.Means(Spell(p), Meaning(None, p).value)
  {
    TextRead(p);
    SpellBalanced(p);
    MeaningPrintable(None, p);
    hide ParseFrom, Balanced, Legal, Even;
  }
}
