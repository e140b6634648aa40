/** The response round trip: whatever a server writes, cut into however many commands, the
    client's reader ends with the results the server meant. */
module RoundTrip {
  import opened Words
  import opened Wire
  import opened Responses
  import opened ReaderState
  import opened ReaderLists
  import opened ReaderInvariants

  // ---------------------------------------------------------------- intended results

  function SourcesOf(fences: seq<int>): (sources: seq<Option<int>>)
    ensures |sources| == |fences|
  {
    seq(|fences|, i requires 0 <= i < |fences| => SourceOf(fences[i]))
  }

  /** What a response asks of the reader, as one message however long its lists; the writer
      writes nothing at all for an empty list, so even the mask of such a request is lost. */
  function Intended(r: Response): Option<Message> {
    match r
    case Select(display) => Some(Message.SelectDisplay(display))
    case ReportError(location, error) => Some(Message.Error(location, error))
    case PresentOrValidateResult(state) => Some(Message.Result(state))
    case PresentFence(fence) => Some(Message.PresentFence(SourceOf(fence)))
    case ChangedTypes(layers, types) =>
      var n := Min(|layers|, |types|);
      if n == 0 then None else Some(Message.Types(layers[..n], types[..n]))
    case Requests(mask, layers, masks) =>
      var n := Min(|layers|, |masks|);
      if n == 0 then None else Some(Message.Requests(mask, layers[..n], masks[..n]))
    case ReleaseFences(layers, fences) =>
      var n := Min(|layers|, |fences|);
      if n == 0 then None else Some(Message.ReleaseFences(layers[..n], SourcesOf(fences[..n])))
  }

  /** Results and errors need no selection; everything else is about the selected display. */
  predicate Free(r: Response) { r.Select? || r.ReportError? }

  predicate Selecting(rs: seq<Response>, selected: bool) {
    selected || exists i | 0 <= i < |rs| :: rs[i].Select?
  }

  /** A server selects a display before it reports anything about one. */
  predicate Guarded(rs: seq<Response>, selected: bool) {
    forall i | 0 <= i < |rs| && !Free(rs[i]) :: Selecting(rs[..i], selected)
  }

  function Fold(r: Response, dup: Dup, s: State): State {
    match Intended(r)
    case None => s
    case Some(m) => if Accepts(m, s.current.Some?) then Perform(m, dup, s) else s
  }

  function FoldAll(rs: seq<Response>, dup: Dup, s: State): State {
    if rs == [] then s else Fold(rs[|rs| - 1], dup, FoldAll(rs[..|rs| - 1], dup, s))
  }

  // ---------------------------------------------------------------- reading back argument lists

  lemma {:induction false} LayersPrefix(args: seq<uint32>, more: seq<uint32>, n: nat)
    requires 3 * n <= |args|
    ensures Layers(args + more, n) == Layers(args, n)
    ensures Thirds(args + more, n) == Thirds(args, n)
  {
    if n > 0 { LayersPrefix(args, more, n - 1); }
  }

  lemma LastTriple(args: seq<uint32>, n: nat, layer: uint64, word: uint32)
    requires |args| == 3 * n
    ensures var more := args + [Low(layer), High(layer), word];
            Layers(more, n + 1) == Layers(args, n) + [layer] && Thirds(more, n + 1) == Thirds(args, n) + [word]
  {
    JoinSplit(layer);
    hide Join, Low, High;
    LayersPrefix(args, [Low(layer), High(layer), word], n);
  }

  lemma {:induction false} TriplesRoundTrip(layers: seq<uint64>, words: seq<uint32>, from: nat, end: nat)
    requires from <= end <= |layers| && end <= |words|
    ensures Layers(Triples(layers, words, from, end), end - from) == layers[from..end]
    ensures Thirds(Triples(layers, words, from, end), end - from) == words[from..end]
    decreases end
  {
    hide Layers, Thirds, Low, High;
    if from < end {
      TriplesRoundTrip(layers, words, from, end - 1);
      LastTriple(Triples(layers, words, from, end - 1), end - 1 - from, layers[end - 1], words[end - 1]);
      assert layers[from..end] == layers[from..end - 1] + [layers[end - 1]];
      assert words[from..end] == words[from..end - 1] + [words[end - 1]];
    }
  }

  lemma SignedRoundTrip(types: seq<int32>, n: nat)
    requires n <= |types|
    ensures Signed(SignedWords(types)[..n]) == types[..n]
  {
  }

  lemma FencesRoundTrip(fences: seq<int>, base: nat, n: nat, table: HandleTable)
    requires n <= |fences| && Room(base, |FenceTable(fences, n)|)
    requires Holds(table, base, FenceTable(fences, n))
    ensures Sources(FenceWords(fences, base, n), table) == SourcesOf(fences[..n])
  {
    hide FenceSource, FenceWords, FenceTable, Holds;
    forall i | 0 <= i < n
      ensures FenceSource(FenceWords(fences, base, n)[i], table) == SourceOf(fences[i])
    {
      FenceWordAt(fences, base, n, i);
      if fences[i] >= 0 { FenceHeld(fences, base, n, table, i); }
      FenceRoundTrip(fences[i], base + |FenceTable(fences, i)|, table);
    }
  }

  /** Where the handle of one fence of a list is found. */
  lemma FenceHeld(fences: seq<int>, base: nat, n: nat, table: HandleTable, i: nat)
    requires i < n <= |fences| && Holds(table, base, FenceTable(fences, n)) && fences[i] >= 0
    ensures base + |FenceTable(fences, i)| < |table|
    ensures table[base + |FenceTable(fences, i)|] == FenceHandle(fences[i])
  {
    FenceTableGrows(fences, i + 1, n);
    assert table[base..base + |FenceTable(fences, n)|][|FenceTable(fences, i)|] == FenceHandle(fences[i]);
  }

  // ---------------------------------------------------------------- chunks

  /** The list message with a given opcode. */
  function Listing(op: Opcode, mask: uint32, layers: seq<uint64>, words: seq<uint32>, table: HandleTable): Message {
    if op.OpSetChangedCompositionTypes? then Types(layers, Signed(words))
    else if op.OpSetDisplayRequests? then Message.Requests(mask, layers, words)
    else Message.ReleaseFences(layers, Sources(words, table))
  }

  predicate ListOpcode(op: Opcode) {
    op.OpSetChangedCompositionTypes? || op.OpSetDisplayRequests? || op.OpSetReleaseFences?
  }

  function Prefix(op: Opcode, mask: uint32): seq<uint32> {
    if op.OpSetDisplayRequests? then [mask] else []
  }

  lemma ThreeEach(n: nat)
    ensures 3 * n % 3 == 0 && 3 * n / 3 == n && (3 * n + 1) % 3 == 1
  {
  }

  lemma ReadTypes(layers: seq<uint64>, words: seq<uint32>, from: nat, end: nat, table: HandleTable)
    requires from <= end <= |layers| && end <= |words| && end - from <= PAIR_LIMIT
    ensures ReadMessage(Frame(Code(OpSetChangedCompositionTypes), Triples(layers, words, from, end)), table)
            == Types(layers[from..end], Signed(words[from..end]))
  {
    hide ReadMessage, Layers, Thirds, Triples, Signed;
    ThreeEach(end - from);
    ReadTypesCommand(Triples(layers, words, from, end), table);
    TriplesRoundTrip(layers, words, from, end);
  }

  lemma ReadRequests(mask: uint32, layers: seq<uint64>, words: seq<uint32>, from: nat, end: nat, table: HandleTable)
    requires from <= end <= |layers| && end <= |words| && end - from <= REQUEST_LIMIT
    ensures ReadMessage(Frame(Code(OpSetDisplayRequests), [mask] + Triples(layers, words, from, end)), table)
            == Message.Requests(mask, layers[from..end], words[from..end])
  {
    hide ReadMessage, Layers, Thirds, Triples;
    ThreeEach(end - from);
    var args := [mask] + Triples(layers, words, from, end);
    ReadRequestsCommand(args, table);
    TriplesRoundTrip(layers, words, from, end);
    assert args[1..] == Triples(layers, words, from, end) && |args| % 3 == 1;
  }

  lemma ReadFences(layers: seq<uint64>, words: seq<uint32>, from: nat, end: nat, table: HandleTable)
    requires from <= end <= |layers| && end <= |words| && end - from <= PAIR_LIMIT
    ensures ReadMessage(Frame(Code(OpSetReleaseFences), Triples(layers, words, from, end)), table)
            == Message.ReleaseFences(layers[from..end], Sources(words[from..end], table))
  {
    hide ReadMessage, Layers, Thirds, Triples, Sources;
    ThreeEach(end - from);
    ReadFencesCommand(Triples(layers, words, from, end), table);
    TriplesRoundTrip(layers, words, from, end);
  }

  lemma ReadListing(op: Opcode, mask: uint32, layers: seq<uint64>, words: seq<uint32>, from: nat, end: nat,
                    table: HandleTable)
    requires ListOpcode(op) && from <= end <= |layers| && end <= |words|
    requires |Prefix(op, mask)| + 3 * (end - from) <= MAX_LENGTH
    ensures ReadMessage(Frame(Code(op), Prefix(op, mask) + Triples(layers, words, from, end)), table)
            == Listing(op, mask, layers[from..end], words[from..end], table)
  {
    assert [] + Triples(layers, words, from, end) == Triples(layers, words, from, end);
    match op
    case OpSetChangedCompositionTypes => ReadTypes(layers, words, from, end, table);
    case OpSetDisplayRequests => ReadRequests(mask, layers, words, from, end, table);
    case OpSetReleaseFences => ReadFences(layers, words, from, end, table);
  }

  lemma ListingTwice(op: Opcode, mask: uint32, a: seq<uint64>, wa: seq<uint32>, b: seq<uint64>, wb: seq<uint32>,
                     table: HandleTable, dup: Dup, s: State)
    requires ListOpcode(op) && s.current.Some?
    ensures Perform(Listing(op, mask, b, wb, table), dup, Perform(Listing(op, mask, a, wa, table), dup, s))
            == Perform(Listing(op, mask, a + b, wa + wb, table), dup, s)
  {
    if op.OpSetChangedCompositionTypes? {
      assert Signed(wa + wb) == Signed(wa) + Signed(wb);
      PerformTypesTwice(s, dup, a, Signed(wa), b, Signed(wb));
    } else if op.OpSetDisplayRequests? {
      PerformRequestsTwice(s, dup, mask, a, wa, b, wb);
    } else {
      assert Sources(wa + wb, table) == Sources(wa, table) + Sources(wb, table);
      PerformFencesTwice(s, dup, a, Sources(wa, table), b, Sources(wb, table));
    }
  }

  predicate AllAccepted(ms: seq<Message>, selected: bool) {
    ms == [] || (Accepts(ms[0], selected) && AllAccepted(ms[1..], selected || ms[0].SelectDisplay?))
  }

  /** Messages that are all accepted leave the parser ready for more. */
  lemma {:induction false} ParseThen(a: seq<Message>, b: seq<Message>, dup: Dup, s: State)
    requires AllAccepted(a, s.current.Some?)
    ensures ParseMessages(a + b, dup, s) == ParseMessages(b, dup, ParseMessages(a, dup, s).state)
    ensures AllAccepted(b, ParseMessages(a, dup, s).state.current.Some?) ==> AllAccepted(a + b, s.current.Some?)
  {
    if a == [] {
      assert a + b == b;
    } else {
      SelectionStep(a[0], dup, s);
      ParseThen(a[1..], b, dup, Perform(a[0], dup, s));
      assert (a + b)[1..] == a[1..] + b;
    }
  }

  /** The state after a stretch of a list has been read, and after it has been read in two parts. */
  function Listed(op: Opcode, mask: uint32, layers: seq<uint64>, words: seq<uint32>, from: nat, end: nat,
                  table: HandleTable, dup: Dup, s: State): State
    requires s.current.Some? && from <= end <= |layers| && end <= |words|
  {
    if from == end then s else Perform(Listing(op, mask, layers[from..end], words[from..end], table), dup, s)
  }

  lemma PerformKeepsCurrent(m: Message, dup: Dup, s: State)
    requires Accepts(m, s.current.Some?) && !m.SelectDisplay?
    ensures Perform(m, dup, s).current == s.current
  {
  }

  lemma ListedInParts(op: Opcode, mask: uint32, layers: seq<uint64>, words: seq<uint32>, from: nat, mid: nat, end: nat,
                      table: HandleTable, dup: Dup, s: State)
    requires ListOpcode(op) && s.current.Some? && from < mid <= end <= |layers| && end <= |words|
    ensures Listed(op, mask, layers, words, from, mid, table, dup, s).current.Some?
    ensures Listed(op, mask, layers, words, mid, end, table, dup,
                   Listed(op, mask, layers, words, from, mid, table, dup, s))
            == Listed(op, mask, layers, words, from, end, table, dup, s)
  {
    hide Perform;
    ListingAccepted(op, mask, layers[from..mid], words[from..mid], table);
    PerformKeepsCurrent(Listing(op, mask, layers[from..mid], words[from..mid], table), dup, s);
    hide Listing;
    if mid < end {
      ListingTwice(op, mask, layers[from..mid], words[from..mid], layers[mid..end], words[mid..end], table, dup, s);
      assert layers[from..mid] + layers[mid..end] == layers[from..end];
      assert words[from..mid] + words[mid..end] == words[from..end];
    }
  }

  lemma ParseCons(m: Message, rest: seq<Message>, dup: Dup, s: State)
    requires Accepts(m, s.current.Some?)
    ensures ParseMessages([m] + rest, dup, s) == ParseMessages(rest, dup, Perform(m, dup, s))
    ensures AllAccepted([m] + rest, s.current.Some?)
            == AllAccepted(rest, s.current.Some? || m.SelectDisplay?)
  {
    assert ([m] + rest)[1..] == rest;
  }

  lemma NothingToParse(dup: Dup, s: State)
    ensures ParseMessages([], dup, s) == Parsed(s, NO_ERROR) && AllAccepted([], true)
  {
  }

  lemma ListingAccepted(op: Opcode, mask: uint32, layers: seq<uint64>, words: seq<uint32>, table: HandleTable)
    ensures var m := Listing(op, mask, layers, words, table); Accepts(m, true) && !m.SelectDisplay?
  {
  }

  lemma ReadMessagesCons(f: Frame, rest: seq<Frame>, table: HandleTable)
    ensures ReadMessages([f] + rest, table) == [ReadMessage(f, table)] + ReadMessages(rest, table)
  {
    assert ([f] + rest)[1..] == rest;
  }

  /** The messages a reader finds in the chunks of a list. */
  function ChunkMessages(op: Opcode, mask: uint32, layers: seq<uint64>, words: seq<uint32>, limit: nat,
                         from: nat, total: nat, table: HandleTable): seq<Message>
    requires from <= total <= |layers| && total <= |words| && 0 < limit
    decreases total - from
  {
    if from == total then []
    else
      var next := from + Min(total - from, limit);
      [Listing(op, mask, layers[from..next], words[from..next], table)]
      + ChunkMessages(op, mask, layers, words, limit, next, total, table)
  }

  lemma ReadListingThen(op: Opcode, mask: uint32, layers: seq<uint64>, words: seq<uint32>, from: nat, end: nat,
                        rest: seq<Frame>, table: HandleTable)
    requires ListOpcode(op) && from <= end <= |layers| && end <= |words|
    requires |Prefix(op, mask)| + 3 * (end - from) <= MAX_LENGTH
    ensures ReadMessages([Frame(Code(op), Prefix(op, mask) + Triples(layers, words, from, end))] + rest, table)
            == [Listing(op, mask, layers[from..end], words[from..end], table)] + ReadMessages(rest, table)
  {
    ReadListing(op, mask, layers, words, from, end, table);
    ReadMessagesCons(Frame(Code(op), Prefix(op, mask) + Triples(layers, words, from, end)), rest, table);
  }

  lemma {:induction false} ReadChunks(op: Opcode, mask: uint32, layers: seq<uint64>, words: seq<uint32>, limit: nat,
                                      from: nat, total: nat, table: HandleTable)
    requires ListOpcode(op) && from <= total <= |layers| && total <= |words|
    requires 0 < limit && |Prefix(op, mask)| + 3 * limit <= MAX_LENGTH
    ensures ReadMessages(Chunks(Code(op), Prefix(op, mask), layers, words, limit, from, total), table)
            == ChunkMessages(op, mask, layers, words, limit, from, total, table)
    decreases total - from
  {
    hide Triples, Listing, ReadMessages, ReadMessage;
    if from < total {
      var next := from + Min(total - from, limit);
      var rest := Chunks(Code(op), Prefix(op, mask), layers, words, limit, next, total);
      ReadChunks(op, mask, layers, words, limit, next, total, table);
      ReadListingThen(op, mask, layers, words, from, next, rest, table);
    }
  }

  /** Reading back the chunks of a list, however many there are, has the effect of the list. */
  lemma {:induction false} ChunksEffect(op: Opcode, mask: uint32, layers: seq<uint64>, words: seq<uint32>,
                                        limit: nat, from: nat, total: nat,
                                        table: HandleTable, dup: Dup, s: State)
    requires ListOpcode(op) && s.current.Some? && from <= total <= |layers| && total <= |words| && 0 < limit
    ensures var ms := ChunkMessages(op, mask, layers, words, limit, from, total, table);
            AllAccepted(ms, true) && ParseMessages(ms, dup, s)
            == Parsed(Listed(op, mask, layers, words, from, total, table, dup, s), NO_ERROR)
    decreases total - from
  {
    hide Listing, ParseMessages, AllAccepted, Perform;
    if from == total {
      NothingToParse(dup, s);
    } else {
      var next := from + Min(total - from, limit);
      var m := Listing(op, mask, layers[from..next], words[from..next], table);
      ListingAccepted(op, mask, layers[from..next], words[from..next], table);
      ParseCons(m, ChunkMessages(op, mask, layers, words, limit, next, total, table), dup, s);
      ListedInParts(op, mask, layers, words, from, next, total, table, dup, s);
      ChunksEffect(op, mask, layers, words, limit, next, total, table, dup, Perform(m, dup, s));
    }
  }

  /** The two together: what parsing the chunks of a whole list does. */
  lemma ListEffect(op: Opcode, mask: uint32, layers: seq<uint64>, words: seq<uint32>, limit: nat, n: nat,
                   table: HandleTable, dup: Dup, s: State)
    requires ListOpcode(op) && s.current.Some? && n <= |layers| && n <= |words|
    requires 0 < limit && |Prefix(op, mask)| + 3 * limit <= MAX_LENGTH
    ensures var ms := ReadMessages(Chunks(Code(op), Prefix(op, mask), layers, words, limit, 0, n), table);
            AllAccepted(ms, true) && ParseMessages(ms, dup, s)
            == Parsed(if n == 0 then s else Perform(Listing(op, mask, layers[..n], words[..n], table), dup, s),
                      NO_ERROR)
  {
    ReadChunks(op, mask, layers, words, limit, 0, n, table);
    ChunksEffect(op, mask, layers, words, limit, 0, n, table, dup, s);
    assert layers[0..n] == layers[..n] && words[0..n] == words[..n];
  }

  // ---------------------------------------------------------------- one response

  lemma SingleEffect(f: Frame, table: HandleTable, dup: Dup, s: State)
    requires Accepts(ReadMessage(f, table), s.current.Some?)
    ensures AllAccepted(ReadMessages([f], table), s.current.Some?)
    ensures ParseMessages(ReadMessages([f], table), dup, s)
            == Parsed(Perform(ReadMessage(f, table), dup, s), NO_ERROR)
  {
    assert ReadMessages([f], table) == [ReadMessage(f, table)] + ReadMessages([], table);
  }

  lemma FenceListEffect(layers: seq<uint64>, fences: seq<int>, base: nat, table: HandleTable, dup: Dup, s: State)
    requires RoomFor(Response.ReleaseFences(layers, fences), base) && s.current.Some?
    requires Holds(table, base, Added(Response.ReleaseFences(layers, fences)))
    ensures var r := Response.ReleaseFences(layers, fences);
            AllAccepted(ReadMessages(EncodeResponse(r, base), table), true) &&
            ParseMessages(ReadMessages(EncodeResponse(r, base), table), dup, s)
            == Parsed(Fold(r, dup, s), NO_ERROR)
  {
    var n := Min(|layers|, |fences|);
    FencesRoundTrip(fences, base, n, table);
    var words := FenceWords(fences, base, n);
    ListEffect(OpSetReleaseFences, 0, layers, words, PAIR_LIMIT, n, table, dup, s);
    assert words[..n] == words;
  }

  lemma PlainListEffect(r: Response, base: nat, table: HandleTable, dup: Dup, s: State)
    requires (r.ChangedTypes? || r.Requests?) && s.current.Some?
    ensures AllAccepted(ReadMessages(EncodeResponse(r, base), table), s.current.Some?)
    ensures ParseMessages(ReadMessages(EncodeResponse(r, base), table), dup, s)
            == Parsed(Fold(r, dup, s), NO_ERROR)
  {
    hide Chunks, ReadMessages, ParseMessages, AllAccepted, Perform, Signed, SignedWords;
    match r
    case ChangedTypes(layers, types) =>
      var n := Min(|layers|, |types|);
      SignedRoundTrip(types, n);
      ListEffect(OpSetChangedCompositionTypes, 0, layers, SignedWords(types), PAIR_LIMIT, n, table, dup, s);
    case Requests(mask, layers, masks) =>
      var n := Min(|layers|, |masks|);
      ListEffect(OpSetDisplayRequests, mask, layers, masks, REQUEST_LIMIT, n, table, dup, s);
  }

  lemma ResponseEffect(r: Response, base: nat, table: HandleTable, dup: Dup, s: State)
    requires RoomFor(r, base) && (Free(r) || s.current.Some?)
    requires Holds(table, base, Added(r))
    ensures AllAccepted(ReadMessages(EncodeResponse(r, base), table), s.current.Some?)
    ensures ParseMessages(ReadMessages(EncodeResponse(r, base), table), dup, s)
            == Parsed(Fold(r, dup, s), NO_ERROR)
  {
    hide Perform, ParseMessages, ReadMessages, AllAccepted, Chunks, FenceTable, FenceWords;
    match r
    case Select(display) =>
      JoinSplit(display);
      SingleEffect(Frame(Code(OpSelectDisplay), [Low(display), High(display)]), table, dup, s);
    case ReportError(location, error) =>
      SingleEffect(Frame(Code(OpSetError), [location, ToWord(error)]), table, dup, s);
    case PresentOrValidateResult(state) =>
      SingleEffect(Frame(Code(OpSetPresentOrValidateDisplayResult), [state]), table, dup, s);
    case PresentFence(fence) =>
      if fence >= 0 { HoldsOne(table, base, FenceHandle(fence)); }
      FenceRoundTrip(fence, base, table);
      SingleEffect(Frame(Code(OpSetPresentFence), [FenceWord(fence, base)]), table, dup, s);
    case ChangedTypes(_, _) => PlainListEffect(r, base, table, dup, s);
    case Requests(_, _, _) => PlainListEffect(r, base, table, dup, s);
    case ReleaseFences(layers, fences) => FenceListEffect(layers, fences, base, table, dup, s);
  }

  // ---------------------------------------------------------------- whole batches

  lemma {:induction false} ReadMessagesAppend(a: seq<Frame>, b: seq<Frame>, table: HandleTable)
    ensures ReadMessages(a + b, table) == ReadMessages(a, table) + ReadMessages(b, table)
  {
    if a == [] {
      assert a + b == b;
    } else {
      assert (a + b)[1..] == a[1..] + b;
      ReadMessagesAppend(a[1..], b, table);
    }
  }

  lemma FoldSelects(r: Response, dup: Dup, s: State)
    requires Free(r) || s.current.Some?
    ensures Fold(r, dup, s).current.Some? == (s.current.Some? || r.Select?)
  {
  }

  lemma GuardedInit(rs: seq<Response>, selected: bool)
    requires rs != [] && Guarded(rs, selected)
    ensures Guarded(rs[..|rs| - 1], selected)
    ensures Free(rs[|rs| - 1]) || Selecting(rs[..|rs| - 1], selected)
  {
    var init := rs[..|rs| - 1];
    forall i | 0 <= i < |init| && !Free(init[i])
      ensures Selecting(init[..i], selected)
    {
      assert init[..i] == rs[..i] && init[i] == rs[i];
    }
  }

  lemma SelectingSnoc(rs: seq<Response>, selected: bool)
    requires rs != []
    ensures Selecting(rs, selected) == (Selecting(rs[..|rs| - 1], selected) || rs[|rs| - 1].Select?)
  {
    if i :| 0 <= i < |rs| && rs[i].Select? {
      if i < |rs| - 1 { assert rs[..|rs| - 1][i].Select?; }
    }
    var init := rs[..|rs| - 1];
    if i :| 0 <= i < |init| && init[i].Select? {
      assert rs[i].Select?;
    }
  }

  lemma {:induction false} ResponsesEffect(rs: seq<Response>, table: HandleTable, dup: Dup, s: State)
    requires |AddedAll(rs)| <= MAX_HANDLES && AddedAll(rs) <= table && Guarded(rs, s.current.Some?)
    ensures var ms := ReadMessages(EncodeResponses(rs), table);
            AllAccepted(ms, s.current.Some?) &&
            ParseMessages(ms, dup, s) == Parsed(FoldAll(rs, dup, s), NO_ERROR)
    ensures FoldAll(rs, dup, s).current.Some? == Selecting(rs, s.current.Some?)
  {
    if rs != [] {
      var init, last := rs[..|rs| - 1], rs[|rs| - 1];
      var base, t := |AddedAll(init)|, FoldAll(init, dup, s);
      GuardedInit(rs, s.current.Some?);
      SelectingSnoc(rs, s.current.Some?);
      HoldsPrefix(table, AddedAll(init), Added(last));
      ResponsesEffect(init, table, dup, s);
      ResponseEffect(last, base, table, dup, t);
      FoldSelects(last, dup, t);
      var a, b := EncodeResponses(init), EncodeResponse(last, base);
      ReadMessagesAppend(a, b, table);
      ParseThen(ReadMessages(a, table), ReadMessages(b, table), dup, s);
    }
  }

  /** The response round trip, for any number of displays and lists of any length: reading the
      words and handles a server wrote succeeds, and leaves what folding the responses over the
      reader's state gives. */
  lemma ResponseRoundTrip(rs: seq<Response>, table: HandleTable, dup: Dup, s: State)
    requires |AddedAll(rs)| <= MAX_HANDLES && AddedAll(rs) <= table && Guarded(rs, s.current.Some?)
    ensures ParseWords(Flatten(EncodeResponses(rs)), table, dup, s)
            == Parsed(FoldAll(rs, dup, s), NO_ERROR)
  {
    ParseFrames(EncodeResponses(rs), table, dup, s);
    ResponsesEffect(rs, table, dup, s);
  }

  /** The same for a whole reply, which the client parses after discarding all earlier results. */
  lemma ReplyArrives(rs: seq<Response>, table: HandleTable, dup: Dup, s: State)
    requires Keyed(s) && |AddedAll(rs)| <= MAX_HANDLES && AddedAll(rs) <= table && Guarded(rs, false)
    ensures Parse(s, Flatten(EncodeResponses(rs)), table, dup) == Parsed(FoldAll(rs, dup, ResetData(s)), NO_ERROR)
  {
    ResponseRoundTrip(rs, table, dup, ResetData(s));
  }
}
