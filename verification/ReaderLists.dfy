/** The list commands of a reply, taken in parts: reading a list piece by piece, down to one
    pair at a time, has the effect of reading it at once. */
module ReaderLists {
  import opened Words
  import opened Wire
  import opened ReaderState

  // ---------------------------------------------------------------- the messages of the list commands

  lemma ReadTypesCommand(args: seq<uint32>, table: HandleTable)
    requires |args| <= MAX_LENGTH
    ensures ReadMessage(Frame(Code(OpSetChangedCompositionTypes), args), table)
            == if |args| % 3 == 0 then Types(Layers(args, |args| / 3), Signed(Thirds(args, |args| / 3))) else Malformed
  {
    hide Layers, Thirds, Signed;
  }

  lemma ReadRequestsCommand(args: seq<uint32>, table: HandleTable)
    requires |args| <= MAX_LENGTH
    ensures ReadMessage(Frame(Code(OpSetDisplayRequests), args), table)
            == if |args| % 3 == 1
               then Requests(args[0], Layers(args[1..], (|args| - 1) / 3), Thirds(args[1..], (|args| - 1) / 3))
               else Malformed
  {
    hide Layers, Thirds;
  }

  lemma ReadFencesCommand(args: seq<uint32>, table: HandleTable)
    requires |args| <= MAX_LENGTH
    ensures ReadMessage(Frame(Code(OpSetReleaseFences), args), table)
            == if |args| % 3 == 0 then ReleaseFences(Layers(args, |args| / 3), Sources(Thirds(args, |args| / 3), table))
               else Malformed
  {
    hide Layers, Thirds, Sources;
  }

  // ---------------------------------------------------------------- in parts

  lemma {:induction false} DuplicatesPrefix(a: seq<Option<int>>, b: seq<Option<int>>, dup: Dup, k: nat, n: nat)
    requires n <= |a|
    ensures DupCalls(a + b, n) == DupCalls(a, n)
    ensures Duplicates(a + b, dup, k, n) == Duplicates(a, dup, k, n)
  {
    if n > 0 { DuplicatesPrefix(a, b, dup, k, n - 1); }
  }

  lemma {:induction false} DuplicatesSuffix(a: seq<Option<int>>, b: seq<Option<int>>, dup: Dup, k: nat, n: nat)
    requires n <= |b|
    ensures DupCalls(a + b, |a| + n) == DupCalls(a, |a|) + DupCalls(b, n)
    ensures Duplicates(a + b, dup, k, |a| + n)
            == Duplicates(a, dup, k, |a|) + Duplicates(b, dup, k + DupCalls(a, |a|), n)
  {
    if n == 0 {
      DuplicatesPrefix(a, b, dup, k, |a|);
    } else {
      DuplicatesSuffix(a, b, dup, k, n - 1);
    }
  }

  /** Two lists in a row have the effect of their concatenation. */
  lemma PerformTypesTwice(s: State, dup: Dup, a: seq<uint64>, ta: seq<int32>, b: seq<uint64>, tb: seq<int32>)
    requires s.current.Some?
    ensures Perform(Types(b, tb), dup, Perform(Types(a, ta), dup, s))
            == Perform(Types(a + b, ta + tb), dup, s)
  {
    var rd := Current(s);
    assert rd.changedLayers + a + b == rd.changedLayers + (a + b);
    assert rd.compositionTypes + ta + tb == rd.compositionTypes + (ta + tb);
  }

  lemma PerformRequestsTwice(s: State, dup: Dup, mask: uint32, a: seq<uint64>, ma: seq<uint32>,
                             b: seq<uint64>, mb: seq<uint32>)
    requires s.current.Some?
    ensures Perform(Message.Requests(mask, b, mb), dup, Perform(Message.Requests(mask, a, ma), dup, s))
            == Perform(Message.Requests(mask, a + b, ma + mb), dup, s)
  {
    var rd := Current(s);
    assert rd.requestedLayers + a + b == rd.requestedLayers + (a + b);
    assert rd.requestMasks + ma + mb == rd.requestMasks + (ma + mb);
  }

  lemma PerformFences(s: State, dup: Dup, layers: seq<uint64>, sources: seq<Option<int>>)
    requires s.current.Some?
    ensures Perform(Message.ReleaseFences(layers, sources), dup, s)
            == AddFences(s, layers, Duplicates(sources, dup, s.dups, |sources|), DupCalls(sources, |sources|))
    ensures Perform(Message.ReleaseFences(layers, sources), dup, s).dups == s.dups + DupCalls(sources, |sources|)
    ensures Perform(Message.ReleaseFences(layers, sources), dup, s).current == s.current
  {
    hide Duplicates, DupCalls, Bag;
  }

  lemma PerformFencesTwice(s: State, dup: Dup, a: seq<uint64>, sa: seq<Option<int>>,
                           b: seq<uint64>, sb: seq<Option<int>>)
    requires s.current.Some?
    ensures Perform(Message.ReleaseFences(b, sb), dup, Perform(Message.ReleaseFences(a, sa), dup, s))
            == Perform(Message.ReleaseFences(a + b, sa + sb), dup, s)
  {
    hide Perform, AddFences, Duplicates, DupCalls;
    var one, n := Perform(Message.ReleaseFences(a, sa), dup, s), DupCalls(sa, |sa|);
    PerformFences(s, dup, a, sa);
    PerformFences(one, dup, b, sb);
    PerformFences(s, dup, a + b, sa + sb);
    DuplicatesSuffix(sa, sb, dup, s.dups, |sb|);
    AddFencesTwice(s, a, Duplicates(sa, dup, s.dups, |sa|), n,
                   b, Duplicates(sb, dup, s.dups + n, |sb|), DupCalls(sb, |sb|));
  }

  lemma BagTwice(p: multiset<int>, a: seq<int>, b: seq<int>)
    ensures p + Bag(a) + Bag(b) == p + Bag(a + b)
  {
    BagAppend(a, b);
  }

  lemma AddFencesTwice(s: State, a: seq<uint64>, fa: seq<int>, ka: nat, b: seq<uint64>, fb: seq<int>, kb: nat)
    requires s.current.Some?
    ensures AddFences(AddFences(s, a, fa, ka), b, fb, kb) == AddFences(s, a + b, fa + fb, ka + kb)
  {
    var rd := Current(s);
    BagTwice(s.ledger.produced, fa, fb);
    assert rd.releasedLayers + a + b == rd.releasedLayers + (a + b);
    assert rd.releaseFences + fa + fb == rd.releaseFences + (fa + fb);
    var one := rd.(releasedLayers := rd.releasedLayers + a, releaseFences := rd.releaseFences + fa);
    var two := one.(releasedLayers := one.releasedLayers + b, releaseFences := one.releaseFences + fb);
    WithCurrentTwice(s.data, s.current.value, one, two);
  }

  lemma WithCurrentTwice(data: map<uint64, ReturnData>, d: uint64, one: ReturnData, two: ReturnData)
    ensures data[d := one][d := two] == data[d := two]
  {
  }

  /** Empty lists have no effect. */
  lemma PerformEmpty(s: State, dup: Dup)
    requires s.current.Some? && s.current.value in s.data
    ensures Perform(Types([], []), dup, s) == s
    ensures Perform(Message.ReleaseFences([], []), dup, s) == s
    ensures Perform(Message.Requests(Current(s).displayRequests, [], []), dup, s) == s
  {
    var rd := Current(s);
    assert rd.(changedLayers := rd.changedLayers + [], compositionTypes := rd.compositionTypes + []) == rd;
    assert rd.(requestedLayers := rd.requestedLayers + [], requestMasks := rd.requestMasks + []) == rd;
    assert rd.(releasedLayers := rd.releasedLayers + [], releaseFences := rd.releaseFences + []) == rd;
    assert s.data[s.current.value := rd] == s.data;
  }
}
