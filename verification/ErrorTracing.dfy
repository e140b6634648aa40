/** How the proxy traces reported errors back to the commands of its batch: by the word it finds in
    its own buffer at the location of each. */
module ErrorTracing {
  import opened Words
  import opened Wire
  import opened Commands
  import opened Batching
  import opened ReaderState

  /** The commands whose errors the proxy returns; those of all others are only logged. */
  predicate Decisive(opcode: uint16) {
    opcode == Code(OpValidateDisplay) || opcode == Code(OpPresentDisplay) || opcode == Code(OpPresentOrValidateDisplay)
  }

  /** What the loop over the reported errors makes of them. */
  function Traced(errors: seq<CommandError>, n: nat, words: seq<uint32>): int32
    requires n <= |errors|
  {
    if n == 0 then NO_ERROR
    else if LooksDecisive(errors[n - 1], words) then errors[n - 1].error
    else Traced(errors, n - 1, words)
  }

  /** The word at the location of an entry reads as the header of a decisive command. */
  predicate LooksDecisive(e: CommandError, words: seq<uint32>) {
    Decisive(OpcodeAt(words, e.location))
  }

  /** The entry was reported for a validate, present or present-or-validate command of the batch. */
  predicate Proper(e: CommandError, fs: seq<Frame>) {
    exists k | 0 <= k < |fs| :: e.location == Location(fs, k) && Decisive(fs[k].op)
  }

  /** Entry i is the last of the first n with a property. */
  predicate LastLooking(errors: seq<CommandError>, n: nat, words: seq<uint32>, i: nat) {
    i < n <= |errors| && LooksDecisive(errors[i], words) && forall j | i < j < n :: !LooksDecisive(errors[j], words)
  }

  predicate LastProper(errors: seq<CommandError>, n: nat, fs: seq<Frame>, i: nat) {
    i < n <= |errors| && Proper(errors[i], fs) && forall j | i < j < n :: !Proper(errors[j], fs)
  }

  predicate NoneLooking(errors: seq<CommandError>, n: nat, words: seq<uint32>) {
    n <= |errors| && forall j | 0 <= j < n :: !LooksDecisive(errors[j], words)
  }

  predicate NoneProper(errors: seq<CommandError>, n: nat, fs: seq<Frame>) {
    n <= |errors| && forall j | 0 <= j < n :: !Proper(errors[j], fs)
  }

  /** The loop picks the last entry that looks decisive. */
  lemma {:induction false} TracedIsLastLooking(errors: seq<CommandError>, n: nat, words: seq<uint32>)
    returns (i: Option<nat>)
    requires n <= |errors|
    ensures if i.None? then NoneLooking(errors, n, words) && Traced(errors, n, words) == NO_ERROR
            else LastLooking(errors, n, words, i.value) && Traced(errors, n, words) == errors[i.value].error
  {
    hide LooksDecisive;
    if n == 0 {
      i := None;
    } else if LooksDecisive(errors[n - 1], words) {
      i := Some(n - 1);
    } else {
      i := TracedIsLastLooking(errors, n - 1, words);
    }
  }

  lemma ProperLooks(e: CommandError, fs: seq<Frame>)
    requires Proper(e, fs) && |Flatten(fs)| <= UINT32_MAX
    ensures LooksDecisive(e, Flatten(fs))
  {
    var k :| 0 <= k < |fs| && e.location == Location(fs, k) && Decisive(fs[k].op);
    OpcodeAtLocation(fs, k);
  }

  /** What the proxy means to return: the error of the last proper entry, if any. */
  ghost predicate AsMeant(errors: seq<CommandError>, fs: seq<Frame>, i: Option<nat>) {
    if i.None? then NoneProper(errors, |errors|, fs) else LastProper(errors, |errors|, fs, i.value)
  }

  /** For every list of reported errors, wherever they point: the proxy picks the entry it means to
      pick exactly when the last entry that looks decisive, if there is one, is proper.  Otherwise it
      returns the error of an entry that no decisive command caused. */
  lemma TracedAsMeantIff(errors: seq<CommandError>, fs: seq<Frame>) returns (i: Option<nat>)
    requires |Flatten(fs)| <= UINT32_MAX
    ensures i.Some? ==> LastLooking(errors, |errors|, Flatten(fs), i.value)
    ensures i.None? ==> NoneLooking(errors, |errors|, Flatten(fs))
    ensures Traced(errors, |errors|, Flatten(fs)) == if i.Some? then errors[i.value].error else NO_ERROR
    ensures AsMeant(errors, fs, i) <==> (i.Some? ==> Proper(errors[i.value], fs))
  {
    i := TracedIsLastLooking(errors, |errors|, Flatten(fs));
    hide Flatten, Proper, LooksDecisive;
    forall j | 0 <= j < |errors| && Proper(errors[j], fs)
      ensures LooksDecisive(errors[j], Flatten(fs))
    {
      ProperLooks(errors[j], fs);
    }
  }

  /** The error of the last proper entry among the first n, if any. */
  ghost function MeantError(errors: seq<CommandError>, n: nat, fs: seq<Frame>): int32
    requires n <= |errors|
  {
    if n == 0 then NO_ERROR
    else if Proper(errors[n - 1], fs) then errors[n - 1].error
    else MeantError(errors, n - 1, fs)
  }

  lemma {:induction false} MeantBefore(errors: seq<CommandError>, i: nat, n: nat, fs: seq<Frame>)
    requires i <= n <= |errors| && forall j | i <= j < n :: !Proper(errors[j], fs)
    ensures MeantError(errors, n, fs) == MeantError(errors, i, fs)
  {
    hide Proper;
    if i < n { MeantBefore(errors, i, n - 1, fs); }
  }

  /** The same for the error returned, whichever entry it comes from: it is the one meant exactly when
      the last entry that looks decisive, if there is one, is proper or has the error meant without it. */
  lemma ErrorAsMeantIff(errors: seq<CommandError>, fs: seq<Frame>) returns (i: Option<nat>)
    requires |Flatten(fs)| <= UINT32_MAX
    ensures i.Some? ==> LastLooking(errors, |errors|, Flatten(fs), i.value)
    ensures i.None? ==> NoneLooking(errors, |errors|, Flatten(fs))
    ensures Traced(errors, |errors|, Flatten(fs)) == MeantError(errors, |errors|, fs)
            <==> (i.Some? && !Proper(errors[i.value], fs) ==>
                    errors[i.value].error == MeantError(errors, i.value, fs))
  {
    hide Flatten, Proper, LooksDecisive;
    i := TracedAsMeantIff(errors, fs);
    forall j | 0 <= j < |errors| && Proper(errors[j], fs)
      ensures LooksDecisive(errors[j], Flatten(fs))
    {
      ProperLooks(errors[j], fs);
    }
    MeantBefore(errors, if i.Some? then i.value + 1 else 0, |errors|, fs);
  }

  /** A service that reports errors only at the locations of commands is always traced as meant. */
  lemma ReportedAtCommands(e: CommandError, fs: seq<Frame>, k: nat)
    requires k < |fs| && e.location == Location(fs, k) && |Flatten(fs)| <= UINT32_MAX
    ensures LooksDecisive(e, Flatten(fs)) <==> Proper(e, fs)
  {
    OpcodeAtLocation(fs, k);
    if LooksDecisive(e, Flatten(fs)) { assert e.location == Location(fs, k) && Decisive(fs[k].op); }
    if Proper(e, fs) { ProperLooks(e, fs); }
  }

  /** The last error reported is returned if it was reported at a validate, present or
      present-or-validate command of the batch, and makes no difference at any other command. */
  lemma ReportedLast(errors: seq<CommandError>, e: CommandError, fs: seq<Frame>, k: nat)
    requires k < |fs| && e.location == Location(fs, k) && |Flatten(fs)| <= UINT32_MAX
    ensures Traced(errors + [e], |errors| + 1, Flatten(fs))
            == if fs[k].op in {Code(OpValidateDisplay), Code(OpPresentDisplay), Code(OpPresentOrValidateDisplay)}
               then e.error else Traced(errors, |errors|, Flatten(fs))
  {
    OpcodeAtLocation(fs, k);
    TracedPrefix(errors, [e], |errors|, Flatten(fs));
  }

  lemma {:induction false} TracedPrefix(a: seq<CommandError>, b: seq<CommandError>, n: nat, words: seq<uint32>)
    requires n <= |a|
    ensures Traced(a + b, n, words) == Traced(a, n, words)
  {
    if n > 0 { TracedPrefix(a, b, n - 1, words); }
  }

  /** The batch of the witness: one call, whose argument looks like the header of a present command. */
  const MISLEADING: seq<Call> := [OnLayer(0, 0, SetLayerZOrder(0x0205_0000))]

  lemma MisleadingWords()
    ensures Encodable(ExpandAll(MISLEADING))
    ensures EncodeAll(ExpandAll(MISLEADING))
            == [Frame(0, [0, 0]), Frame(1, [0, 0]), Frame(Code(OpSetLayerZOrder), [0x0205_0000])]
  {
    hide Encodable, EncodeAll, PushedAll, Encode, ExpandAll, Expand;
    var cs: seq<Command> := [];
    var select, layer, order := Command.SelectDisplay(0), SelectLayer(0), SetLayerZOrder(0x0205_0000);
    MisleadingParts();
    ExpandSnoc([], MISLEADING[0]);
    assert [] + MISLEADING == MISLEADING && ExpandAll(MISLEADING) == [select] + [layer] + [order];
    EncodeSelection(cs, select);
    assert cs + [select] == [select];
    EncodeSelection([select], layer);
    EncodeSnoc([select] + [layer], order);
  }

  lemma MisleadingParts()
    ensures Encodable([]) && EncodeAll([]) == [] && PushedAll([]) == []
    ensures ExpandAll([]) == []
            && Expand(MISLEADING[0]) == [Command.SelectDisplay(0)] + [SelectLayer(0)] + [SetLayerZOrder(0x0205_0000)]
    ensures Encode(Command.SelectDisplay(0), 0) == Frame(0, [0, 0]) && Encode(SelectLayer(0), 0) == Frame(1, [0, 0])
    ensures Encode(SetLayerZOrder(0x0205_0000), 0) == Frame(Code(OpSetLayerZOrder), [0x0205_0000])
  {
  }

  lemma MisleadingStream()
    ensures Encodable(ExpandAll(MISLEADING))
    ensures Flatten(EncodeAll(ExpandAll(MISLEADING)))
            == [Header(0, 2), 0, 0, Header(1, 2), 0, 0, Header(Code(OpSetLayerZOrder), 1), 0x0205_0000]
  {
    MisleadingWords();
    hide Encodable, EncodeAll, ExpandAll, Header, Code;
    var a: Frame, b: Frame := Frame(0, [0, 0]), Frame(1, [0, 0]);
    var c: Frame := Frame(Code(OpSetLayerZOrder), [0x0205_0000]);
    var fs := [a, b, c];
    assert fs[1..] == [b, c] && [b, c][1..] == [c] && [c][1..] == [];
    assert Flatten([c]) == FrameWords(c) + [];
    assert Flatten([b, c]) == FrameWords(b) + Flatten([c]);
    assert Flatten(fs) == FrameWords(a) + Flatten([b, c]);
  }

  /** A batch the proxy can really write, and a reply the service can really send: an error reported
      inside the only call, which is neither validate nor present, is returned as if it were. */
  lemma TracedToAnArgument()
    ensures Encodable(ExpandAll(MISLEADING))
    ensures var fs, errors := EncodeAll(ExpandAll(MISLEADING)), [CommandError(7, 3)];
            && NoneProper(errors, 1, fs) && Traced(errors, 1, Flatten(fs)) == 3
  {
    MisleadingWords();
    MisleadingStream();
    hide Encodable, EncodeAll, ExpandAll, Flatten;
    var fs, errors := EncodeAll(ExpandAll(MISLEADING)), [CommandError(7, 3)];
    assert HeaderOp(0x0205_0000) == Code(OpPresentDisplay);
    assert OpcodeAt(Flatten(fs), 7) == Code(OpPresentDisplay);
  }
}
