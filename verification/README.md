# A verified model of CCN-lite

CCN-lite is a forwarder for content-centric networks: hosts ask for named data with *interests*, and
relays answer from a content store or pass the interest on and remember who asked. This project
models the parts of `ccn-lite/src` in which most of the logic is, and proves what they are for.

**Named functions** (`LambdaText`, `Grammar`, `Zam`, `Krivine`, `NfnMachine`, `MachineRuns`,
`Expressions`, `Numerals`, `Church`, `CallByName`, `Skipping`, `Evaluation`). A named-function expression is a lambda term. It is compiled
while it runs, to a text of instructions that is scanned, cut and printed again at every step.

- `LambdaText`: the printer fills a buffer, the parser advances a cursor; parsing undoes printing,
  although the printer drops the parentheses around applications to the left.
- `Grammar`: the source language as a grammar, with its spacing and parentheses; the parser reads every
  text of the grammar as the term that it spells.
- `Zam`: instruction texts, the token scanner, and what keeps a text scannable.
- `Krivine`: the machine on structured instructions, with closures and environments.
- `NfnMachine`: the machine as it is, on strings. Every step on strings is a step of the structured
  machine, so that what is proved of one holds of the other; `Evaluation` says it of whole runs, from
  source text to result text.
- `Expressions`: integer expressions over `add`, `sub`, `mult`, `eq`, `leq` and `ifelse` end with
  exactly their value, in 32-bit arithmetic. A branch that is not chosen may be any term, one without
  an end included. The text that is exported reads back as the value.
- `Numerals`, `Church`: what decimal, octal and hexadecimal literals denote and what the operators make
  of numbers; and what the predefined Church booleans, comparisons and conditional do.
- `CallByName`: reduction of closed lambda terms to the left and outside, by substitution. The
  machine halts with given results if and only if reduction reaches the final `HALT` with them and
  the machine does not crash (`MachineIsCallByName`), for every closed term. It is never wrong
  (`MachineNeverWrong`), but it may crash where reduction has a result: when only one argument is
  left, an application to a variable may skip its argument altogether
  (`ccn-lite/src/ccnl-ext-nfnkrivine.c:740-756`), which is then missing.
- `Skipping`: when an argument is skipped. A single step keeps the meaning exactly if the test for
  skipping fails (`ApplicationKeepsMeaning`). `SkippingLosesAnArgument` gives a closed term that
  reduces to `HALT` while the machine crashes. If no bound variable is an argument by itself, which
  can be read off the term (`PassesNoBound`), the test never succeeds, and machine and reduction
  agree without reservation (`PassingNoBoundAgrees`). So they do for terms of which no reduct hands
  `HALT` to an abstraction, a condition on all reducts that cannot be read off.

**Fragmentation** (`FragWire`, `Fragmentation`, `Reassembly`, `FragFace`). Packets are cut into
fragments with 14-bit sequence numbers in two wire formats.

- The network may lose, repeat and reorder fragments at will. The reassembly buffer is always the
  prefix of one unfinished packet, and every delivered frame is one packet that was sent, unless two
  fragments that arrive one after the other are *mistaken for neighbours*: their numbers are
  consecutive only because of a wrap. `NoWrapNoMistake` and `ShortJumpsNoMistake` give conditions
  under which this cannot happen, `WrapSplices` a run in which it does.
- On a lossless link, exactly the packets are lost whose fragments straddle a wrap: the sender masks
  its numbers, the receiver does not mask the number it expects.
- Draining a face keeps the order, and keeps to the MTU exactly if the smallest header does. It ends
  exactly if no packet that is reached has an MTU of just the header size (`DrainEnds`). A queue of
  composed packets arrives whole, inside one window of the sequence numbers (`PacketsArrive`).

**The relay** (`Matching`, `RelayState`, `Relay`, `RelayRuns`, `RelayTheorems`, `RelayLaws`,
`RelayAnswers`).
Pending interests (PIT), content store, routes (FIB), nonces and faces, changed in place by arriving
frames, ageing and face removal. `RelayState` says what each operation does to the lists;
`Relay.Forwarder` does it in place. In every reachable state, no stored content answers a pending
interest of its suite, pending interests differ, each waits for some live face and for none twice,
and no face has received more data than it asked for. `RelayLaws` says where interests go, at once and
again while they wait, and which face stands for which peer. `RelayAnswers` says exactly which steps end
the wait of a face, and that a face is answered exactly once if none does before its data comes.

**Packets and hashes** (`NdnTlv`, `NdnPacket`, `NdnRoundTrip`, `NdnFields`; `RdrCodec`; `Octets`, `Words`,
`Sha256Standard`, `Sha256Constants`, `Sha256Example`, `Sha256`, `Hmac`). NDN packets are composed
backwards and parse back with the same content; `NdnFields` gives the type numbers, and reads selectors
in any order. Expression trees of local remote procedure calls are read back from what was written, and
the predicted length is the length. `Sha256Standard` writes down FIPS 180-4 with the full message
schedule: its functions are characterised bit by bit, its constants are roots of primes, and the whole
of it gives the published digest of "abc". The streaming context with its circular schedule inside its
own buffer computes it, and on top of it HMAC as in section 2 of RFC 2104.

Notes where the code and its purpose differ, all of them kept in the model:

- A data packet for which there is no room makes `ccnl_ndntlv_prependContent` return 1 instead of -1
  if exactly the signature type is what does not fit (`ccn-lite/src/ccnl-pkt-ndntlv.c:528-530`).
- A chunk number is read from any component that starts with a zero byte; without a chunk number a
  name is read back with one exactly if it has such a component (`ChunkNumberRoundTrip`).
- The parser accepts a field head that is cut off after its type at the end of a packet
  (`NdnPacket.LeftOver`).
- Spaces behind a whole source text are read as an application to a variable without a name
  (`Grammar.TrailingSpaces`, `ccn-lite/src/ccnl-ext-nfnparse.c:70-118`).
- The scanner counts parentheses without regard to quotes. A quoted constant in which they do not
  balance makes it cut the argument at the wrong place (`Zam.ArgLengthExact`,
  `ccn-lite/src/ccnl-ext-nfnkrivine.c:262-326`).
- With an MTU below 8 bytes an NDN fragment takes all that is left of the packet and is emitted
  without the outer heads for which 8 bytes are too few (`FragWire.NdnHeadless`).
- A CCNx fragment's hop limit is 0; it passes because the limit is counted down in an unsigned byte.
- The cache never evicts: the loop that looks for the oldest entry always ends without one.
- `sub` and `leq` take the top of the stack as their right operand; the kind of that operand is
  tested for both (`ccn-lite/src/ccnl-ext-nfnops.c:46-64`).

To verify: `dafny verify dfyconfig.toml`.

## Model

| member | source | states |
|---|---|---|
| LambdaText.PrintParseRoundTrip | ccn-lite/src/ccnl-ext-nfnparse.c:58-156 | parsing the printed form of any term with legal names gives the term back and uses up the text |
| LambdaText.TextInjective | ccn-lite/src/ccnl-ext-nfnparse.c:120-156 | two terms with legal names have the same printed form only if they are equal |
| LambdaText.TermToStr | ccn-lite/src/ccnl-ext-nfnparse.c:120-156 | the buffer receives exactly the printed form and a terminating zero, nothing else changes, and the length is returned |
| LambdaText.Cursor.ParseVar | ccn-lite/src/ccnl-ext-nfnparse.c:29-56 | a plain or quoted name is taken off the cursor and no more |
| LambdaText.Cursor.StrToTerm | ccn-lite/src/ccnl-ext-nfnparse.c:58-118 | the loop with its accumulator computes the parse of the text and leaves the cursor where the parse ends |
| Grammar.PhraseRead | ccn-lite/src/ccnl-ext-nfnparse.c:58-118 | behind what was read so far, any phrase of words, parentheses and binders, with any spacing, is parsed as its meaning, up to where it closes |
| Grammar.TextRead | ccn-lite/src/ccnl-ext-nfnparse.c:58-118 | every text of the grammar is parsed as the term that it spells, and used up |
| Grammar.TextRuns | ccn-lite/src/ccnl-ext-nfnparse.c:58-118 | if its names balance their parentheses and it defines nothing, the machine can run it and takes it for that term |
| Grammar.Unclosed | ccn-lite/src/ccnl-ext-nfnparse.c:75-90 | a group that is not closed is no term |
| Grammar.TrailingSpaces | ccn-lite/src/ccnl-ext-nfnparse.c:70-118 | spaces behind the whole text are taken for one more variable, without a name |
| Zam.ScanToken | ccn-lite/src/ccnl-ext-nfnkrivine.c:262-326 | the scanner yields token, balanced argument and continuation of any text |
| Zam.ArgLengthExact | ccn-lite/src/ccnl-ext-nfnkrivine.c:262-326 | the scanner finds the end of an argument if and only if the parentheses of the argument balance, quoted or not |
| Zam.NextTokenExact | ccn-lite/src/ccnl-ext-nfnkrivine.c:262-326 | from the text of an instruction list the scanner recovers the instruction, its whole argument at any nesting, and the text of the rest |
| Zam.BuiltinFoundFrom | ccn-lite/src/ccnl-ext-nfnops.c:448-465 | the search through the table of builtins finds each one although it compares prefixes only |
| Zam.ScannableAppend | ccn-lite/src/ccnl-ext-nfnkrivine.c:790-808 | programs put in front of programs stay scannable |
| Zam.TextDenotes | ccn-lite/src/ccnl-ext-nfnkrivine.c:598-618 | the printed subterm put into an instruction is balanced and denotes the subterm |
| Krivine.StepSound | ccn-lite/src/ccnl-ext-nfnkrivine.c:623-828 | every step keeps all programs, closures and environments scannable |
| Krivine.GlobalsSound | ccn-lite/src/ccnl-ext-nfnkrivine.c:841-881 | so are the definitions the machine starts with |
| NfnMachine.SetupGlobalEnvironment | ccn-lite/src/ccnl-ext-nfnkrivine.c:833-881 | the environment of command strings shows the structured definitions |
| NfnMachine.SearchInEnvironment | ccn-lite/src/ccnl-ext-nfnkrivine.c:204-212 | the innermost binding of a name is found, or none |
| NfnMachine.RenderInjective | ccn-lite/src/ccnl-ext-nfnkrivine.c:748-756 | different instruction lists have different texts |
| NfnMachine.Configuration.constructor | ccn-lite/src/ccnl-ext-nfnkrivine.c:943-955 | the first configuration shows the structured start state |
| NfnMachine.Configuration.ZamTerm | ccn-lite/src/ccnl-ext-nfnkrivine.c:623-828 | one step on the program string, the two stacks and the environment is exactly one step of the structured machine |
| NfnMachine.Configuration.DoResolveName | ccn-lite/src/ccnl-ext-nfnkrivine.c:503-620 | compiling a variable, literal, abstraction or application by printing and parsing again is the structured step |
| NfnMachine.Configuration.DoClosure | ccn-lite/src/ccnl-ext-nfnkrivine.c:735-770 | pushing an argument closure, with the test for skipping it, is the structured step |
| NfnMachine.Configuration.DoBinary | ccn-lite/src/ccnl-ext-nfnops.c:46-83 | popping two integers in order and pushing or compiling the answer is the structured step |
| NfnMachine.Configuration.DoIfElse | ccn-lite/src/ccnl-ext-nfnops.c:338-369 | the branch is put in front of the program that the top of the result stack selects |
| NfnMachine.ExportResultStack | ccn-lite/src/ccnl-ext-nfnkrivine.c:883-921 | the results are written one behind the other, from the top |
| NfnMachine.ExportAppend | ccn-lite/src/ccnl-ext-nfnkrivine.c:883-921 | results are exported one by one in their order |
| NfnMachine.ExportOne | ccn-lite/src/ccnl-ext-nfnkrivine.c:883-921 | an integer is exported in decimal notation, a name as the content that is found under it |
| NfnMachine.DecimalNotation | ccn-lite/src/ccnl-ext-nfnkrivine.c:911-916 | the text of an integer has a minus sign if and only if it is negative, no leading zero, and digits that read back as its magnitude |
| NfnMachine.DecimalReads | ccn-lite/src/ccnl-ext-nfnkrivine.c:911-916 | the digits of a number read back as the number |
| NfnMachine.Reduction | ccn-lite/src/ccnl-ext-nfnkrivine.c:924-991 | the loop runs to the end of the structured run and exports its results |
| MachineRuns.RunApp | ccn-lite/src/ccnl-ext-nfnkrivine.c:609-618 | an application pushes its argument's closure and goes on with the function, in two steps, unless the skipping test holds |
| MachineRuns.RunLam | ccn-lite/src/ccnl-ext-nfnkrivine.c:598-608 | an abstraction binds the top argument and goes on with its body |
| MachineRuns.RunVar | ccn-lite/src/ccnl-ext-nfnkrivine.c:657-675 | a variable runs the closure it is bound to, in that closure's environment |
| MachineRuns.RunLiteral | ccn-lite/src/ccnl-ext-nfnkrivine.c:560-588 | a literal pushes its value |
| Numerals.DecimalLiteral | ccn-lite/src/ccnl-ext-nfnkrivine.c:560-577 | the decimal numeral of a number is a literal for it, kept in 32 bits |
| Numerals.OctalLiteral | ccn-lite/src/ccnl-ext-nfnkrivine.c:560-577 | so is the octal numeral behind a zero |
| Numerals.HexadecimalLiteral | ccn-lite/src/ccnl-ext-nfnkrivine.c:560-577 | and the hexadecimal one behind 0x or 0X |
| Numerals.DigitsExact | ccn-lite/src/ccnl-ext-nfnkrivine.c:560-577 | a text is a numeral if and only if all of it are digits of the base |
| Numerals.OtherLiterals | ccn-lite/src/ccnl-ext-nfnkrivine.c:575-588 | quoted texts are constants, names with a slash in front content names, and names with a letter in front variables |
| Numerals.ResultIsLiteral | ccn-lite/src/ccnl-ext-nfnkrivine.c:911-916 | an exported number that is not negative is a literal for itself |
| Expressions.EvalRuns | ccn-lite/src/ccnl-ext-nfnkrivine.c:857-869 | running an expression in front of any continuation, with any stacks, reaches the continuation with exactly its value pushed |
| Expressions.BinRuns | ccn-lite/src/ccnl-ext-nfnops.c:302-336 | operands are evaluated and taken in source order |
| Expressions.CondRuns | ccn-lite/src/ccnl-ext-nfnops.c:338-369 | only the chosen branch of `ifelse` runs |
| Numerals.OperatorsMean | ccn-lite/src/ccnl-ext-nfnops.c:46-83 | an operator applied to two numbers has as its value the sum, difference or product in 32 bits, or one or zero as they compare |
| Numerals.ConditionalMeans | ccn-lite/src/ccnl-ext-nfnops.c:338-369 | a conditional on a comparison of numbers is the branch that the comparison selects |
| Numerals.WithoutOperands | ccn-lite/src/ccnl-ext-nfnops.c:46-83 | with too few results a binary builtin pauses the machine; a number on top of something else is read wrongly, and anything else on top makes both operands zero |
| Numerals.WithoutTest | ccn-lite/src/ccnl-ext-nfnops.c:338-369 | without a result the conditional pauses, and a test that is no number ends the program |
| Church.AnswerPicks | ccn-lite/src/ccnl-ext-nfnops.c:267-300 | the answer for true goes on with its first argument, that for false with its second |
| Church.ComparisonRuns | ccn-lite/src/ccnl-ext-nfnkrivine.c:850-853 | a comparison with a Church answer evaluates both operands in order and goes on with the argument that they select |
| Church.ChoiceRuns | ccn-lite/src/ccnl-ext-nfnkrivine.c:854-856 | the conditional on a Church boolean goes on with the branch that it selects |
| Expressions.ExpressionHalts | ccn-lite/src/ccnl-ext-nfnkrivine.c:962-973 | the machine started on an expression halts with its value as the only result |
| Evaluation.Evaluate | ccn-lite/src/ccnl-ext-nfnkrivine.c:924-991 | from source text to result text: the run halts, and the text is the decimal notation of the value, sign included |
| CallByName.BindIsSubst | ccn-lite/src/ccnl-ext-nfnkrivine.c:774-781 | binding a closure in the environment denotes substitution of what the closure denotes |
| CallByName.MoveReduces | ccn-lite/src/ccnl-ext-nfnkrivine.c:503-620 | a move of the machine is one step of weak-head reduction, or none, of the denoted term |
| CallByName.NoMoveStuck | ccn-lite/src/ccnl-ext-nfnkrivine.c:657-675 | without a move, the machine does not halt and the denoted term does not reduce |
| CallByName.MachineIsCallByName | ccn-lite/src/ccnl-ext-nfnkrivine.c:503-828 | for every closed term, the machine halts with given results if and only if call-by-name reduction reaches HALT with them and the machine does not crash |
| CallByName.MachineNeverWrong | ccn-lite/src/ccnl-ext-nfnkrivine.c:503-828 | for every closed term, a result of the machine is the result of the reduction, whatever was skipped on the way |
| CallByName.OneOutcome | ccn-lite/src/ccnl-ext-nfnkrivine.c:503-828 | a reduction has one result at most |
| CallByName.AgreeWithoutSkipping | ccn-lite/src/ccnl-ext-nfnkrivine.c:740-756 | on runs where the skipping test never holds, machine and reduction agree without reservation |
| Skipping.PassingNoBoundNeverSkips | ccn-lite/src/ccnl-ext-nfnkrivine.c:740-756 | in a run from a closed term in which no bound variable is an argument by itself, the skipping test never holds |
| Skipping.PassingNoBoundAgrees | ccn-lite/src/ccnl-ext-nfnkrivine.c:503-828 | for these terms the machine halts with given results if and only if reduction reaches HALT with them |
| Skipping.HaltKeepersAgree | ccn-lite/src/ccnl-ext-nfnkrivine.c:503-828 | the same for every closed term that never lets an abstraction take the final argument |
| Skipping.KeepingHaltNeverSkips | ccn-lite/src/ccnl-ext-nfnkrivine.c:740-756 | for those terms the skipping test never holds |
| Skipping.ApplicationKeepsMeaning | ccn-lite/src/ccnl-ext-nfnkrivine.c:740-756 | an application step keeps the denoted term if and only if the skipping test fails |
| Skipping.SkippingLosesAnArgument | ccn-lite/src/ccnl-ext-nfnkrivine.c:740-756 | a closed term that reduces to HALT and on which the machine crashes, having skipped an argument |
| Evaluation.ReduceByName | ccn-lite/src/ccnl-ext-nfnkrivine.c:924-991 | from source text to result text: a run that comes to its end halts, with the exported results of the reduction, or has crashed |
| Evaluation.ReduceSafely | ccn-lite/src/ccnl-ext-nfnkrivine.c:924-991 | without a bound variable that is an argument by itself, it halts if and only if the reduction has results, and exports them |
| NdnTlv.VarNumReads | ccn-lite/src/ccnl-pkt-ndntlv.c:31-52 | a written number is read back exactly if it has at most 32 bits |
| NdnTlv.BigEndianReads | ccn-lite/src/ccnl-pkt-ndntlv.c:54-64 | the bytes of a number read back as the number if they are enough |
| NdnTlv.HeadReads | ccn-lite/src/ccnl-pkt-ndntlv.c:66-75 | type and length of a field are read back and the value follows |
| NdnTlv.Writer.PrependTLval | ccn-lite/src/ccnl-pkt-ndntlv.c:320-342 | a number is put in front of what is written, or nothing changes for lack of room |
| NdnTlv.Writer.PrependTL | ccn-lite/src/ccnl-pkt-ndntlv.c:344-354 | a field head is put in front exactly if there is room |
| NdnTlv.Writer.PrependBlob | ccn-lite/src/ccnl-pkt-ndntlv.c:411-425 | a whole field is put in front exactly if there is room |
| NdnPacket.WidthIsFilled | ccn-lite/src/ccnl-pkt-ndntlv.c:356-376 | the fill table completes the bytes of a number to a permitted width |
| NdnPacket.PrependNonNegIntVal | ccn-lite/src/ccnl-pkt-ndntlv.c:356-376 | the number is written in one, two or four bytes |
| NdnPacket.PrependIncludedNonNegInt | ccn-lite/src/ccnl-pkt-ndntlv.c:391-409 | a marker and the number form one field |
| NdnPacket.PrependName | ccn-lite/src/ccnl-pkt-ndntlv.c:427-462 | the components, and a chunk number as one more, form the name field |
| NdnPacket.PrependInterest | ccn-lite/src/ccnl-pkt-ndntlv.c:466-500 | the Interest stands in the buffer and its length is returned; failure exactly for a scope out of range or lack of room |
| NdnPacket.PrependContent | ccn-lite/src/ccnl-pkt-ndntlv.c:502-574 | the Data stands in the buffer and its length is returned; failure exactly for lack of room, with the wrong sign in one case |
| NdnPacket.Bytes2Pkt | ccn-lite/src/ccnl-pkt-ndntlv.c:77-291 | the loop over fields computes the parse, failing where the program bails out |
| NdnFields.NumberBytes | ccn-lite/src/ccnl-pkt-ndntlv.c:31-52 | numbers of types and lengths take one byte, or a marker with two or four bytes in network order |
| NdnFields.InterestLayout | ccn-lite/src/ccnl-pkt-ndntlv.c:466-500 | an Interest is, in type numbers, 5 around 7 (components 8), 10, 12 with 4000 ms, and 11 |
| NdnFields.DataLayout | ccn-lite/src/ccnl-pkt-ndntlv.c:502-574 | a Data is 6 around 7 (components 8), 20, 21, 22 and 23 |
| NdnFields.FinalBlockLayout | ccn-lite/src/ccnl-pkt-ndntlv.c:502-574 | the final block id is a component in a field of type 26, behind a zero byte |
| NdnFields.OtherFieldStep | ccn-lite/src/ccnl-pkt-ndntlv.c:120-280 | a field of any other type, the life time for one, changes nothing |
| NdnFields.OtherMetaInfo | ccn-lite/src/ccnl-pkt-ndntlv.c:207-232 | nor does meta information other than the final block id |
| NdnFields.ExcessComponents | ccn-lite/src/ccnl-pkt-ndntlv.c:139-156 | components beyond the sixty-fourth are passed over |
| NdnFields.SecondNameRefused | ccn-lite/src/ccnl-pkt-ndntlv.c:126-130 | a packet with two names is refused |
| NdnFields.CutFieldRefused | ccn-lite/src/ccnl-pkt-ndntlv.c:54-75 | so is one with a field longer than what is left |
| NdnFields.OtherPacketRefused | ccn-lite/src/ccnl-pkt-ndntlv.c:99-114 | and one of another type than Interest, Data or fragment |
| NdnFields.Defaults | ccn-lite/src/ccnl-pkt-ndntlv.c:116-118 | without fields the scope is 3, and 0 to 64 further components match |
| NdnFields.NumberRead | ccn-lite/src/ccnl-pkt-ndntlv.c:54-64 | a written number is read as it is, up to the sign of an `int` |
| NdnFields.SelectorsRead | ccn-lite/src/ccnl-pkt-ndntlv.c:171-196 | minimum and maximum of further components, freshness and unknown selectors, in any order, set exactly what they say |
| NdnFields.SelectorsInInterest | ccn-lite/src/ccnl-pkt-ndntlv.c:171-196 | an Interest with a name and selectors is read with exactly their values, and the defaults for those that are absent |
| NdnRoundTrip.ParseComponents | ccn-lite/src/ccnl-pkt-ndntlv.c:139-156 | the coded components parse back, with the chunk number of the last marked one |
| NdnRoundTrip.InterestRoundTrip | ccn-lite/src/ccnl-pkt-ndntlv.c:466-500 | a composed Interest parses back with the same components, nonce and scope |
| NdnRoundTrip.DataRoundTrip | ccn-lite/src/ccnl-pkt-ndntlv.c:502-574 | a composed Data parses back with the same components, payload and final block id |
| NdnRoundTrip.ChunkNumberRoundTrip | ccn-lite/src/ccnl-pkt-ndntlv.c:144-149 | the chunk number survives exactly if there is one or no component looks like one |
| FragWire.ProgressUnlessHeaderOnly | ccn-lite/src/ccnl-pkt-ndntlv.c:590-607 | a fragment carries something unless nothing remains or the MTU is exactly the smallest header |
| FragWire.FragmentFitsMtu | ccn-lite/src/ccnl-pkt-ndntlv.c:590-636 | a fragment fits the MTU exactly if the smallest header does; the estimated header bounds the real one |
| FragWire.FragmentFillsMtu | ccn-lite/src/ccnl-pkt-ndntlv.c:590-607 | a fragment that leaves something behind fills the MTU, in NDN but for at most four bytes |
| FragWire.SuiteExactly | ccn-lite/src/ccnl-core-util.c:731-801 | NDN packets are those that start with 5, 6 or 100, CCNx packets those that start with 1 and 0 to 3 |
| FragWire.ComposedSuite | ccn-lite/src/ccnl-core-util.c:731-801 | every composed Interest and Data is dispatched as NDN |
| FragWire.FragmentLayout | ccn-lite/src/ccnl-pkt-ccntlv.c:554-599 | the bytes of a fragment in both formats, in numbers |
| FragWire.CcntlvMkFrag | ccn-lite/src/ccnl-pkt-ccntlv.c:554-599 | the buffer holds the CCNx fragment with payload, flag and number cut at the offset |
| FragWire.NdntlvMkFrag | ccn-lite/src/ccnl-pkt-ndntlv.c:578-639 | composing backwards in the estimated space yields the NDN fragment, or, with an MTU below the smallest header, one without the outer heads that do not fit |
| FragWire.CcnWireRoundTrip | ccn-lite/src/ccnl-core-fwd.c:330-411 | a CCNx fragment is read back exactly unless its 16-bit length overflows into the header |
| FragWire.HopLimit | ccn-lite/src/ccnl-core-fwd.c:330-411 | a CCNx fragment is dropped for its hop limit if and only if that is 1 |
| FragWire.NdnWireRoundTrip | ccn-lite/src/ccnl-core-fwd.c:78-98 | an NDN fragment is read back with its flag, number and payload |
| FragWire.WireRoundTrip | ccn-lite/src/ccnl-core-util.c:731-801 | a datagram is dispatched to its suite and yields the fragment that was sent |
| Fragmentation.RoundDecreases | ccn-lite/src/ccnl-core.c:308-338 | a drain makes progress in queued packets and unsent bytes |
| Fragmentation.StuckAtHeader | ccn-lite/src/ccnl-pkt-ccntlv.c:565-567 | with an MTU of exactly the header, a round leaves the sender where it was |
| Fragmentation.DrainEnds | ccn-lite/src/ccnl-core.c:308-338 | a drain comes to rest if and only if neither the packet being cut nor one before the first without fragments has an MTU of exactly its header |
| Fragmentation.CutsCarryPacket | ccn-lite/src/ccnl-ext-frag.c:375-425 | the payloads of a packet's fragments are the packet |
| Fragmentation.CutsForm | ccn-lite/src/ccnl-ext-frag.c:375-425 | they have consecutive numbers and offsets, and only the last reaches the end |
| Fragmentation.FlagsMarkEnds | ccn-lite/src/ccnl-pkt-ndntlv.c:616-624 | the flags mark the only, the first, the last and the other fragments |
| Fragmentation.DrainSends | ccn-lite/src/ccnl-core.c:308-338 | a drain sends the rest of the current packet and the queue in order, and stops at, and loses, the first packet of a suite without fragments |
| Fragmentation.QueueForm | ccn-lite/src/ccnl-core.c:308-338 | the payloads of a drained queue are its packets in order, consecutively numbered |
| Fragmentation.QueueFitsMtu | ccn-lite/src/ccnl-pkt-ndntlv.c:590-636 | each fragment of a drained queue fits the MTU exactly if its smallest header does |
| Fragmentation.RunForm | ccn-lite/src/ccnl-ext-frag.c:427-452 | however arrivals and rounds interleave, the fragments sent are whole packets cut one after the other |
| Reassembly.Safety | ccn-lite/src/ccnl-ext-frag.c:783-891 | under loss, repetition and reordering the buffer is a prefix of one unfinished packet and each delivered frame is a packet that was sent |
| Reassembly.NoWrapNoMistake | ccn-lite/src/ccnl-ext-frag.c:810-822 | fragments whose numbers do not wrap are never mistaken for neighbours |
| Reassembly.ShortJumpsNoMistake | ccn-lite/src/ccnl-ext-frag.c:810-822 | nor are any, if each arrival is less than a sequence space away from its expected place |
| Reassembly.PacketArrives | ccn-lite/src/ccnl-ext-frag.c:783-891 | in order and without loss, a packet arrives exactly if its numbers do not wrap, whatever the receiver held |
| Reassembly.LosslessLink | ccn-lite/src/ccnl-ext-frag.c:783-891 | of a drained queue, exactly the packets arrive whose numbers do not wrap, in order |
| Reassembly.IntactIsAll | ccn-lite/src/ccnl-ext-frag.c:783-891 | inside one window of the sequence space that is the whole queue |
| FragFace.Face.FragGetNext | ccn-lite/src/ccnl-ext-frag.c:375-452 | one fragment is cut and the offset, the number and the current packet move on |
| FragFace.Face.Cts | ccn-lite/src/ccnl-core.c:308-338 | the self-calling drain ends and queues exactly the datagrams of the drained fragments |
| FragFace.Face.Enqueue | ccn-lite/src/ccnl-core.c:341-375 | a packet that is already queued is refused, another is appended and the face drained |
| FragFace.Face.RxBeginEnd | ccn-lite/src/ccnl-ext-frag.c:783-891 | the buffer, the expected number and the delivered frame are those of the receiver |
| FragFace.EndToEnd | ccn-lite/src/ccnl-core.c:308-338 | what one face drains into datagrams, another hands up: the queue without the packets that straddle a wrap |
| FragFace.PacketsArrive | ccn-lite/src/ccnl-core.c:308-338 | a queue of composed NDN packets and of CCNx packets comes to an end of draining, and arrives whole and in order inside one window |
| FragFace.WrapSplices | ccn-lite/src/ccnl-ext-frag.c:810-822 | across a wrap, a frame that was never sent can be delivered |
| Matching.PrefixCmp | ccn-lite/src/ccnl-core-util.c:131-172 | exact comparison of names, or the length of the common prefix with the digest as a last component |
| Matching.CommonIsPrefix | ccn-lite/src/ccnl-core-util.c:131-172 | all components match exactly if one name is a prefix of the other |
| Matching.IPrefixOfC | ccn-lite/src/ccnl-core-util.c:175-201 | the suffix bounds hold and the interest's name is a prefix of the data's |
| Matching.PrefixOfDataExactly | ccn-lite/src/ccnl-core-util.c:175-201 | an interest matches if and only if the number of components behind its name, the digest counted last, is within its bounds and its name is the beginning, or the whole with the digest |
| Matching.UnboundedMatches | ccn-lite/src/ccnl-core-util.c:175-201 | with the default bounds it matches whatever is named below its name |
| Matching.CMatch | ccn-lite/src/ccnl-pkt-ndntlv.c:299-311 | the relation by which the content store is searched |
| Matching.IsSame | ccn-lite/src/ccnl-core.c:531-565 | suite, name and, for NDN, suffix bounds and publisher's key locator agree |
| Matching.SameExactly | ccn-lite/src/ccnl-core.c:531-565 | interests are the same if and only if they differ in nonce, scope and time to live only, or, outside NDN, also in the NDN fields |
| Matching.ForwardingExactly | ccn-lite/src/ccnl-core-fwd.c:104-120 | scopes 0 to 2 and a time to live of 0 keep an interest here |
| Matching.SameMatchesSame | ccn-lite/src/ccnl-core.c:531-565 | interests that count as the same are answered by the same data |
| Relay.Forwarder.NonceFindOrAppend | ccn-lite/src/ccnl-core.c:809-831 | a known nonce is reported, a new one put in front, and a full list loses its last through the trailing pointer |
| Relay.Forwarder.AppendPending | ccn-lite/src/ccnl-core.c:403-430 | a waiting face gets a new time, another is appended |
| Relay.Forwarder.Propagate | ccn-lite/src/ccnl-core.c:433-498 | the interest goes out once per route of its suite that its name extends, and not back to a face that does not reflect |
| Relay.Forwarder.HandleInterest | ccn-lite/src/ccnl-core-fwd.c:123-204 | the whole new state after an interest: duplicate, answered, not to be forwarded, joined or new |
| Relay.Forwarder.ServePending | ccn-lite/src/ccnl-core.c:648-749 | matching entries are unlinked while the list is walked, and each waiting face is served once |
| Relay.Forwarder.HandleContent | ccn-lite/src/ccnl-core-fwd.c:25-75 | the whole new state after data: known, unsolicited, served, and stored |
| Relay.Forwarder.RemoveFace | ccn-lite/src/ccnl-core.c:140-199 | a face disappears from PIT, FIB and face list, and entries that wait for nobody else with it |
| Relay.Forwarder.DoAgeing | ccn-lite/src/ccnl-core.c:752-806 | old contents, interests and faces are removed and the other interests sent again |
| Relay.Forwarder.GetFaceOrCreate | ccn-lite/src/ccnl-core.c:74-137 | the face of a peer is found and its time renewed, or a new face put in front; without a given interface it is the first of the peer's address family, or there is no face |
| Relay.Forwarder.CoreRx | ccn-lite/src/ccnl-core.c:871-924 | the packets of an arriving frame are handled in order for the face of the frame |
| RelayRuns.ServeIs | ccn-lite/src/ccnl-core.c:648-749 | serving takes away exactly the matching entries and serves exactly the faces waiting in one of them, each once |
| RelayRuns.HandleInterestKeeps | ccn-lite/src/ccnl-core-fwd.c:123-204 | an interest keeps the invariants: it enters the PIT only if no content answers it and none is the same |
| RelayRuns.HandleDataKeeps | ccn-lite/src/ccnl-core-fwd.c:25-75 | data keeps them: it enters the store only when nothing it answers is pending |
| RelayRuns.RemoveFaceKeeps | ccn-lite/src/ccnl-core.c:140-199 | so does the removal of a face |
| RelayRuns.AgeKeeps | ccn-lite/src/ccnl-core.c:752-806 | and ageing |
| RelayTheorems.RunKeeps | ccn-lite/src/ccnl-core-fwd.c:44-75 | in every reachable state: store and PIT apart, PIT entries different, waiting lists non-empty and without repetition, all faces named in PIT and FIB live, content count right |
| RelayLaws.InvariantsMean | ccn-lite/src/ccnl-core-fwd.c:44-75 | these invariants one by one, in terms of the lists |
| RelayTheorems.ServesExactly | ccn-lite/src/ccnl-core.c:648-749 | new data goes exactly once to each face waiting in a matching entry and to no other; exactly those entries go; data nobody wants changes nothing |
| RelayTheorems.PropagatedExactly | ccn-lite/src/ccnl-core.c:433-498 | an interest goes to a face if and only if a route to it takes the interest |
| RelayTheorems.InterestOutcome | ccn-lite/src/ccnl-core-fwd.c:123-204 | an interest is refused, or answered at once by a content that matches it, or its face then waits in an entry for the same interest, which is sent to its routes; a new entry is fresh and knows where it came from, another gains the face, or the face a new time, and nothing else |
| RelayLaws.RefusedExactly | ccn-lite/src/ccnl-core-fwd.c:123-204 | an interest is refused if and only if it is an NDN interest with a nonce in the list, or nothing stored matches it and its scope or time to live keeps it here |
| RelayLaws.FirstHit | ccn-lite/src/ccnl-core-fwd.c:130-154 | the content that answers is the first in the store |
| RelayLaws.NewInterestSpreads | ccn-lite/src/ccnl-core.c:386-498 | a new interest is sent to exactly the faces with a route of its suite for a prefix of its name, and back to where it came from only if that face reflects |
| RelayLaws.SameInterestSpreads | ccn-lite/src/ccnl-core.c:403-498 | an interest like a pending one is sent again as that one, and not back to where that one came from |
| RelayLaws.SentAgain | ccn-lite/src/ccnl-core.c:770-796 | ageing sends again exactly the interests less than 4 seconds old and sent again at most twice, to the faces with a route for them |
| RelayLaws.RouteServes | ccn-lite/src/ccnl-core.c:433-498 | a configured route takes the interests below its prefix, takes none away from another face, and makes its face permanent |
| RelayLaws.RoutesGo | ccn-lite/src/ccnl-core.c:173-182 | with a face exactly its routes go |
| RelayLaws.FaceOfPeer | ccn-lite/src/ccnl-core.c:74-137 | what comes from a peer comes in on the face that stands for the peer, which is not expired then; a new face has a new id, and other faces stay as they are |
| RelayLaws.FaceOnFirst | ccn-lite/src/ccnl-core.c:104-131 | a peer without an interface gets a new face on the first interface of its family |
| RelayLaws.OneFacePerPeer | ccn-lite/src/ccnl-core.c:74-137 | in every reachable state different faces stand for different peers |
| RelayTheorems.AgesExactly | ccn-lite/src/ccnl-core.c:752-806 | exactly the old contents, the expired faces, and the interests timed out or without a waiting face left go; the other interests stay in order, retried once more and without the faces that went (if, as in every reachable state, each entry waits for some face) |
| RelayAnswers.FrameIsSteps | ccn-lite/src/ccnl-core.c:871-924 | a frame of several packets does what frames of one packet each would do: its face is found again, unchanged, for each |
| RelayAnswers.StepSpares | ccn-lite/src/ccnl-core.c:648-806 | after a step a face goes on waiting if and only if no new data came that answers its interest, the interest did not time out, and the face was not removed |
| RelayAnswers.GoesOnWaiting | ccn-lite/src/ccnl-core.c:648-806 | over any run of such steps the face waits and the invariants hold |
| RelayAnswers.AwaitedIsNew | ccn-lite/src/ccnl-core-fwd.c:44-75 | data that a pending interest asks for is not in the store, so that it is not dropped as known |
| RelayAnswers.AnswerComesBack | ccn-lite/src/ccnl-core.c:648-749 | an interest is kept pending; after any steps that do not end the wait, data that answers it is sent exactly once to the face that asked, and nothing it answers stays pending |
| RelayTheorems.RunBalanced | ccn-lite/src/ccnl-core-fwd.c:155-204 | over whole runs, data sent to a face plus its pending entries never exceed the interests it sent |
| RelayTheorems.NonceWindow | ccn-lite/src/ccnl-core.c:809-831 | the nonce list is exactly the most recent 256 accepted nonces, each once |
| RelayTheorems.DuplicatesDropped | ccn-lite/src/ccnl-core.c:834-851 | an interest whose nonce is in that window leaves no other trace |
| Words.SwappedLoad | ccn-lite/src/lib-sha256.c:68-82 | on either byte order, the swapped load reads network order |
| Words.SwappedStore | ccn-lite/src/lib-sha256.c:334-344 | and the swapped store writes it |
| Sha256Standard.ChChooses | ccn-lite/src/lib-sha256.c:104-104 | where the first word has a one the second is chosen, and elsewhere the third |
| Sha256Standard.MajVotes | ccn-lite/src/lib-sha256.c:105-105 | where two words agree they decide, and elsewhere the third |
| Sha256Standard.RotRMoves | ccn-lite/src/lib-sha256.c:99-99 | rotation moves each bit to the right, around the end |
| Sha256Standard.PadExact | ccn-lite/src/lib-sha256.c:290-340 | the padded message is the shortest sequence of blocks made of the message, a one bit, zeros, and the length in bits |
| Sha256Standard.PadInjective | ccn-lite/src/lib-sha256.c:290-340 | no two messages have the same padding |
| Sha256Constants.StartRoots | ccn-lite/src/lib-sha256.c:136-145 | the initial words are the first 32 bits behind the point of the square roots of eight primes |
| Sha256Constants.Roots0 | ccn-lite/src/lib-sha256.c:115-133 | the first sixteen keys are those of the cube roots of sixteen primes |
| Sha256Constants.Roots16 | ccn-lite/src/lib-sha256.c:115-133 | so are the next |
| Sha256Constants.Roots32 | ccn-lite/src/lib-sha256.c:115-133 | and the next |
| Sha256Constants.Roots48 | ccn-lite/src/lib-sha256.c:115-133 | and the last |
| Sha256Example.DigestOfAbc | ccn-lite/src/lib-sha256.c:163-351 | the whole definition gives the digest of "abc" that is published in appendix B.1 of FIPS 180-2 |
| Sha256.CircularStep | ccn-lite/src/lib-sha256.c:204-225 | updating one of sixteen words in place yields the next word of the full schedule and keeps the last sixteen |
| Sha256.Context.FirstRounds | ccn-lite/src/lib-sha256.c:180-202 | sixteen rounds while the block is copied, even if the block is the buffer |
| Sha256.Context.LaterRounds | ccn-lite/src/lib-sha256.c:204-225 | the other rounds are those of section 6.2.2 of FIPS 180-4 |
| Sha256.Context.Transform | ccn-lite/src/lib-sha256.c:163-239 | the state becomes the compression of state and block, also if the block is the context's own buffer |
| Sha256.Context.Init | ccn-lite/src/lib-sha256.c:150-161 | the context has taken in the empty message |
| Sha256.Context.Update | ccn-lite/src/lib-sha256.c:242-288 | the message grows by the bytes given, however they are cut into calls |
| Sha256.Context.Final | ccn-lite/src/lib-sha256.c:290-351 | the digest is SHA-256 of the whole message, padded as in section 5.1.1 of FIPS 180-4, and the context is cleared |
| Sha256.HashChunks | ccn-lite/src/lib-sha256.c:242-351 | however a message is cut into chunks, updating with them in order and finishing yields SHA-256 of the message |
| Hmac.KeyVal | ccn-lite/src/ccnl-ext-hmac.c:28-45 | the key of block length of section 2 of RFC 2104 |
| Hmac.KeySetup | ccn-lite/src/ccnl-ext-hmac.c:69-85 | a context that has taken in the padded key, cut off at the block length |
| Hmac.Sign | ccn-lite/src/ccnl-ext-hmac.c:88-109 | the leading bytes asked for of the HMAC of section 2 of RFC 2104 |
| Hmac.KeyValueStandsForKey | ccn-lite/src/ccnl-ext-hmac.c:28-45 | signing with a key value computed beforehand is HMAC with the key |
| Hmac.ShortKey | ccn-lite/src/ccnl-ext-hmac.c:88-109 | for a key of at most a block, HMAC is the hash of the key with 0x5c and the hash of the key with 0x36 and the text |
| Hmac.LongKey | ccn-lite/src/ccnl-ext-hmac.c:28-45 | a longer key stands for its hash |
| RdrCodec.GetFlatLen | ccn-lite/src/ccnl-pkt-localrpc.c:432-488 | the predicted length |
| RdrCodec.EncodeLength | ccn-lite/src/ccnl-pkt-localrpc.c:432-488 | it is the number of bytes of the encoding |
| RdrCodec.TreeTypes | ccn-lite/src/ccnl-pkt-localrpc.h:36-50 | which types are leaves, lists, and lists with a node in front, in numbers |
| RdrCodec.NumberLayout | ccn-lite/src/ccnl-pkt-localrpc.c:490-531 | a number is of type 1 and takes as few bytes as it can, but one at least |
| RdrCodec.NumberTaken | ccn-lite/src/ccnl-pkt-localrpc.c:133-252 | a number of any width is read, and 32 bits of it are kept |
| RdrCodec.OtherTypeRefused | ccn-lite/src/ccnl-pkt-localrpc.c:133-252 | other types are not read |
| RdrCodec.CutTreeRefused | ccn-lite/src/ccnl-pkt-localrpc.c:133-252 | nor are fields longer than what is left |
| RdrCodec.FillTandL | ccn-lite/src/ccnl-pkt-localrpc.c:490-531 | a field head is written at its place and nothing else changes |
| RdrCodec.Fill | ccn-lite/src/ccnl-pkt-localrpc.c:533-613 | the recursive writer fills exactly the encoding into its place |
| RdrCodec.Serialize | ccn-lite/src/ccnl-pkt-localrpc.c:615-628 | for encodings below 2^31 bytes, the encoding and its length, or -1 and an unchanged buffer if there is no room |
| RdrCodec.GetType | ccn-lite/src/ccnl-pkt-localrpc.c:133-252 | the reader with its list loop computes the decoding |
| RdrCodec.DecodeEncode | ccn-lite/src/ccnl-pkt-localrpc.c:133-252 | every written tree of less than 2^31 bytes is read back whatever follows it, and exactly its bytes are used |

## Left out

- CallByName.MachineIsCallByName: that the machine crashes is a condition on its run; a condition on the term that excludes it is sufficient only (`Skipping.PassesNoBound`)
- Evaluation.Evaluate: requires source text with balanced parentheses that parses completely; on others the program loops in its parser or loses text
- NfnMachine.SetupGlobalEnvironment: `call`, `raw` and `translate` are missing from the predefined names, because what they compile to needs the network
- NfnMachine.ExportResultStack: results with a raw prefix and thunks are missing
- NfnMachine.Reduction: the loop is given a bound by which the run ends, because a run may be endless
- FragFace.Face.Cts: faces with an MTU below 8 bytes, and queues on which the drain does not end
- FragFace.Face.Enqueue: the same
- FragWire.CcnWireRoundTrip: the reader does not model reading the fragment's type and length beyond the end of a datagram of less than four more bytes
- NdnPacket.Bytes2Pkt: a field longer than the packet is refused; the program reads beyond it
- RdrCodec.GetType: a length of 2^31 or more is refused; the program takes it for a negative number; error codes are not told apart, and a node is decoded when it is read rather than when its type is first asked for
- RdrCodec.Serialize: encodings of 2^31 bytes and more, for which the program's `int` lengths overflow
- Relay.Forwarder.CoreRx: a frame is given as its packets, up to the first that cannot be read, not as bytes
- RdrCodec.GetFlatLen: lengths are computed anew instead of cached in the nodes
- Named functions: `let`, `CALL`, `APPLY`, `FOX`, thunks, `OP_FIND`, `OP_RAW`, `OP_NSTRANS` and everything else that needs the network; a machine that meets one of them stops as paused or outside of the model
- Named functions: signed 32-bit overflow is two's complement; scratch strings are large enough; the copy of a missing continuation is missing, as with the checked allocator
- Memory: allocation succeeds; reference counts and freeing are not modelled
- Fragmentation: IOTTLV fragments, obsolete protocols, code-switch headers, scheduling
- NDN packets: HMAC signatures, the `NFN` and `THUNK` name components, and `contentpos`
- Relay: CCNB, management, NACK, crypto, taps, KITE and packets without a name
- Relay: a queued packet goes out at once, as without scheduler and fragmentation, so that the check for packets already queued has no effect
- Relay: sums of component counts and suffix bounds do not overflow
- SHA-256: the bit count is a number below 2^64 that is written in network order, without the two intermediate byte reversals; messages of 2^61 bytes and more
