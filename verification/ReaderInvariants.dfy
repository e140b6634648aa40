/** What holds of the reader in every reachable state, and what its parser accepts. */
module ReaderInvariants {
  import opened Words
  import opened Wire
  import opened ReaderState
  import opened ReaderLists

  // ---------------------------------------------------------------- the invariant

  /** Each pair of lists that the callers index together has equal lengths. */
  predicate Parallel(rd: ReturnData) {
    && |rd.changedLayers| == |rd.compositionTypes|
    && |rd.requestedLayers| == |rd.requestMasks|
    && |rd.releasedLayers| == |rd.releaseFences|
  }

  /** Each descriptor produced is in exactly one place: held, handed out, or closed. */
  ghost predicate Conserved(s: State)
    requires Keyed(s)
  {
    s.ledger.produced == s.ledger.closed + s.ledger.handedOut + Held(s.displays, s.data)
  }

  ghost predicate Sound(s: State) {
    Keyed(s) && (forall d | d in s.data :: Parallel(s.data[d])) && Conserved(s)
  }

  // ---------------------------------------------------------------- bags of held descriptors

  lemma {:induction false} HeldElsewhere(displays: seq<uint64>, data: map<uint64, ReturnData>,
                                         display: uint64, rd: ReturnData)
    requires (forall d | d in displays :: d in data) && display !in displays
    ensures Held(displays, data[display := rd]) == Held(displays, data)
  {
    if displays != [] {
      HeldElsewhere(displays[..|displays| - 1], data, display, rd);
    }
  }

  lemma BagSwap(h: multiset<int>, n: multiset<int>, o: multiset<int>)
    ensures h + n + o == h + o + n
  {
  }

  lemma BagUnder(h': multiset<int>, o: multiset<int>, h: multiset<int>, n: multiset<int>, last: multiset<int>)
    requires h' + o == h + n
    ensures h' + last + o == h + last + n
  {
    BagSwap(h', last, o);
    BagSwap(h, last, n);
  }

  lemma {:induction false} HeldUpdate(displays: seq<uint64>, data: map<uint64, ReturnData>,
                                      display: uint64, rd: ReturnData)
    requires (forall d | d in displays :: d in data) && display in displays
    requires forall i, j | 0 <= i < j < |displays| :: displays[i] != displays[j]
    ensures Held(displays, data[display := rd]) + HeldBy(data[display])
            == Held(displays, data) + HeldBy(rd)
  {
    var n := |displays| - 1;
    var init, last, data' := displays[..n], displays[n], data[display := rd];
    assert last in displays;
    if last == display {
      HeldElsewhere(init, data, display, rd);
      BagSwap(Held(init, data), HeldBy(rd), HeldBy(data[display]));
    } else {
      assert display in init;
      HeldUpdate(init, data, display, rd);
      BagUnder(Held(init, data'), HeldBy(data[display]), Held(init, data), HeldBy(rd), HeldBy(data[last]));
    }
  }

  lemma BagBalance(p: multiset<int>, c: multiset<int>, h: multiset<int>, o: multiset<int>,
                   p': multiset<int>, c': multiset<int>, h': multiset<int>, n: multiset<int>)
    requires p == c + h && h' + o == h + n && p' + c + o == p + c' + n
    ensures p' == c' + h'
  {
    forall x
      ensures p'[x] == (c' + h')[x]
    {
      assert (h' + o)[x] == (h + n)[x] && (p' + c + o)[x] == (p + c' + n)[x] && p[x] == (c + h)[x];
    }
  }

  /** Replacing one display's results moves exactly the difference of what they hold. */
  lemma ReplaceSound(s: State, display: uint64, rd: ReturnData, t: State)
    requires Sound(s) && display in s.data && Parallel(rd)
    requires t.displays == s.displays && t.data == s.data[display := rd] && t.current == s.current
    requires t.ledger.produced + (s.ledger.closed + s.ledger.handedOut) + HeldBy(s.data[display])
             == s.ledger.produced + (t.ledger.closed + t.ledger.handedOut) + HeldBy(rd)
    ensures Sound(t)
  {
    HeldUpdate(s.displays, s.data, display, rd);
    assert Keyed(t);
    BagBalance(s.ledger.produced, s.ledger.closed + s.ledger.handedOut, Held(s.displays, s.data),
               HeldBy(s.data[display]), t.ledger.produced, t.ledger.closed + t.ledger.handedOut,
               Held(t.displays, t.data), HeldBy(rd));
  }

  // ---------------------------------------------------------------- each step keeps it

  /** A new entry holds no descriptor. */
  lemma HeldMore(displays: seq<uint64>, data: map<uint64, ReturnData>, display: uint64)
    requires (forall d | d in displays :: d in data) && display !in displays
    ensures Held(displays + [display], data[display := NO_DATA]) == Held(displays, data)
  {
    BagOne(-1);
    assert HeldBy(NO_DATA) == multiset{};
    hide HeldBy;
    HeldElsewhere(displays, data, display, NO_DATA);
    assert (displays + [display])[..|displays|] == displays;
    assert Held(displays, data) + multiset{} == Held(displays, data);
  }

  lemma SelectSound(s: State, display: uint64)
    requires Sound(s)
    ensures Sound(SelectEntry(s, display))
  {
    hide Held, HeldBy;
    if display !in s.data {
      HeldMore(s.displays, s.data, display);
      assert Parallel(NO_DATA);
    }
  }

  lemma ReplaceFenceSound(s: State, fence: int, calls: nat)
    requires Sound(s) && s.current.Some?
    ensures Sound(ReplaceFence(s, fence, calls))
  {
    hide Held;
    var t := ReplaceFence(s, fence, calls);
    ReplaceSound(s, s.current.value, t.data[s.current.value], t);
  }

  lemma AddFencesSound(s: State, layers: seq<uint64>, fences: seq<int>, calls: nat)
    requires Sound(s) && s.current.Some? && |layers| == |fences|
    ensures Sound(AddFences(s, layers, fences, calls))
  {
    hide Held;
    var t := AddFences(s, layers, fences, calls);
    BagAppend(Current(s).releaseFences, fences);
    ReplaceSound(s, s.current.value, t.data[s.current.value], t);
  }

  predicate Balanced(m: Message) {
    match m
    case Types(layers, types) => |layers| == |types|
    case Requests(_, layers, masks) => |layers| == |masks|
    case ReleaseFences(layers, sources) => |layers| == |sources|
    case _ => true
  }

  lemma ReadBalanced(f: Frame, table: HandleTable)
    ensures Balanced(ReadMessage(f, table))
  {
  }

  lemma PerformSound(m: Message, dup: Dup, s: State)
    requires Sound(s) && Balanced(m) && Accepts(m, s.current.Some?)
    ensures Sound(Perform(m, dup, s))
  {
    hide Held, SelectEntry, ReplaceFence, AddFences, Bag, Duplicates;
    var t := Perform(m, dup, s);
    match m
    case SelectDisplay(display) => SelectSound(s, display);
    case Error(_, _) =>
    case PresentFence(source) =>
      ReplaceFenceSound(s, Duplicate(source, dup, s.dups), if source.Some? then 1 else 0);
    case ReleaseFences(layers, sources) =>
      AddFencesSound(s, layers, Duplicates(sources, dup, s.dups, |sources|), DupCalls(sources, |sources|));
    case Types(_, _) => ReplaceSound(s, s.current.value, t.data[s.current.value], t);
    case Requests(_, _, _) => ReplaceSound(s, s.current.value, t.data[s.current.value], t);
    case Result(_) => ReplaceSound(s, s.current.value, t.data[s.current.value], t);
  }

  lemma {:induction false} ParseWordsSound(words: seq<uint32>, table: HandleTable, dup: Dup, s: State)
    requires Sound(s)
    ensures Sound(ParseWords(words, table, dup, s).state)
    decreases |words|
  {
    if WholeCommand(words) {
      var m := ReadMessage(FirstFrame(words), table);
      if Accepts(m, s.current.Some?) {
        ReadBalanced(FirstFrame(words), table);
        PerformSound(m, dup, s);
        ParseWordsSound(AfterFirst(words), table, dup, Perform(m, dup, s));
      }
    }
  }

  lemma ResetSound(s: State)
    requires Sound(s)
    ensures Keyed(s) && Sound(ResetData(s))
  {
  }

  lemma ParseSound(s: State, words: seq<uint32>, table: HandleTable, dup: Dup)
    requires Sound(s)
    ensures Keyed(s) && Sound(Parse(s, words, table, dup).state)
  {
    hide Sound, ResetData, ParseWords;
    ResetSound(s);
    ParseWordsSound(words, table, dup, ResetData(s));
  }

  lemma TakeFencesSound(s: State, display: uint64)
    requires Sound(s) && display in s.data
    ensures Sound(TakeReleaseFences(s, display))
    ensures Sound(TakePresentFence(s, display))
  {
    hide Held;
    var rd := s.data[display];
    BagOne(-1);
    ReplaceSound(s, display, rd.(releasedLayers := [], releaseFences := []), TakeReleaseFences(s, display));
    ReplaceSound(s, display, rd.(presentFence := -1), TakePresentFence(s, display));
  }

  lemma TakeListsSound(s: State, display: uint64)
    requires Sound(s) && display in s.data
    ensures Sound(TakeChangedTypes(s, display))
    ensures Sound(TakeRequests(s, display))
  {
    hide Held, Bag;
    var rd := s.data[display];
    ReplaceSound(s, display, rd.(changedLayers := [], compositionTypes := []), TakeChangedTypes(s, display));
    ReplaceSound(s, display, rd.(requestedLayers := [], requestMasks := []), TakeRequests(s, display));
  }

  lemma TakeSound(s: State, display: uint64)
    requires Sound(s)
    ensures Sound(TakeErrors(s))
    ensures Sound(TakeChangedTypes(s, display))
    ensures Sound(TakeRequests(s, display))
    ensures Sound(TakeReleaseFences(s, display))
    ensures Sound(TakePresentFence(s, display))
  {
    hide Held, Bag;
    if display in s.data {
      TakeListsSound(s, display);
      TakeFencesSound(s, display);
    }
  }

  /** What was taken is gone, so that a second take gets nothing; the mask stays. */
  lemma TakenOnce(s: State, display: uint64)
    ensures TakeErrors(s).errors == []
    ensures var rd := Entry(TakeChangedTypes(s, display), display);
            rd.changedLayers == [] && rd.compositionTypes == []
    ensures var rd := Entry(TakeRequests(s, display), display);
            rd.requestedLayers == [] && rd.requestMasks == [] && rd.displayRequests == Entry(s, display).displayRequests
    ensures var rd := Entry(TakeReleaseFences(s, display), display); rd.releasedLayers == [] && rd.releaseFences == []
    ensures Entry(TakePresentFence(s, display), display).presentFence == -1
  {
  }

  /** A take changes nothing else: no other display, no other part of this one. */
  lemma TakesAreLocal(s: State, display: uint64, other: uint64)
    ensures forall t | t in {TakeChangedTypes(s, display), TakeRequests(s, display),
                             TakeReleaseFences(s, display), TakePresentFence(s, display)} ::
              && t.errors == s.errors && t.displays == s.displays && t.current == s.current && t.dups == s.dups
              && t.data.Keys == s.data.Keys && (other != display ==> Entry(t, other) == Entry(s, other))
    ensures TakeErrors(s) == s.(errors := [])
    ensures var rd, was := Entry(TakeChangedTypes(s, display), display), Entry(s, display);
            rd == was.(changedLayers := rd.changedLayers, compositionTypes := rd.compositionTypes)
    ensures var rd, was := Entry(TakeRequests(s, display), display), Entry(s, display);
            rd == was.(requestedLayers := rd.requestedLayers, requestMasks := rd.requestMasks)
    ensures var rd, was := Entry(TakeReleaseFences(s, display), display), Entry(s, display);
            rd == was.(releasedLayers := rd.releasedLayers, releaseFences := rd.releaseFences)
    ensures var rd, was := Entry(TakePresentFence(s, display), display), Entry(s, display);
            rd == was.(presentFence := rd.presentFence)
  {
    hide Bag;
  }

  /** Of the first n fences of a list, those of repeated layers are among all of them. */
  lemma {:induction false} ClosedToBag(layers: seq<uint64>, fences: seq<int>, n: nat)
    requires n <= |layers| && n <= |fences|
    ensures ClosedTo(layers, fences, n) <= BagTo(fences, n)
  {
    if n > 0 { ClosedToBag(layers, fences, n - 1); }
  }

  lemma CloseTakenSound(s: State, fds: multiset<int>)
    requires Sound(s) && fds <= s.ledger.handedOut
    ensures Sound(CloseTaken(s, fds))
  {
    hide Held;
    var l, t := s.ledger, CloseTaken(s, fds).ledger;
    assert t.closed + t.handedOut == l.closed + l.handedOut;
  }

  lemma PassSound(s: State, display: uint64, known: set<uint64>)
    requires Sound(s)
    ensures Sound(PassReleaseFences(s, display, known))
  {
    if display in s.data && |s.data[display].releasedLayers| == |s.data[display].releaseFences| {
      var rd := s.data[display];
      TakeFencesSound(s, display);
      ClosedToBag(rd.releasedLayers, rd.releaseFences, |rd.releasedLayers|);
      hide Sound;
      CloseTakenSound(TakeReleaseFences(s, display), ClosedHere(rd.releasedLayers, rd.releaseFences, known));
    }
  }

  // ---------------------------------------------------------------- every run

  /** What a client can ask of its reader, and what it can do with a descriptor it was handed. */
  datatype Request =
    | DoParse(words: seq<uint32>, table: HandleTable)
    | DoTakeErrors
    | DoTakeChangedTypes(display: uint64)
    | DoTakeRequests(display: uint64)
    | DoTakeReleaseFences(display: uint64)
    | DoTakePresentFence(display: uint64)
    | DoPassReleaseFences(display: uint64, known: set<uint64>)
    | DoDrop(fd: int)

  ghost function Serve(s: State, request: Request, dup: Dup): State
    requires Keyed(s)
  {
    match request
    case DoParse(words, table) => Parse(s, words, table, dup).state
    case DoTakeErrors => TakeErrors(s)
    case DoTakeChangedTypes(display) => TakeChangedTypes(s, display)
    case DoTakeRequests(display) => TakeRequests(s, display)
    case DoTakeReleaseFences(display) => TakeReleaseFences(s, display)
    case DoTakePresentFence(display) => TakePresentFence(s, display)
    case DoPassReleaseFences(display, known) => PassReleaseFences(s, display, known)
    case DoDrop(fd) => if fd in s.ledger.handedOut then CloseTaken(s, multiset{fd}) else s
  }

  const INITIAL := State([], [], map[], None, 0, Ledger(multiset{}, multiset{}, multiset{}))

  /** Some run of requests leads a new reader to the given state. */
  ghost predicate Reaches(run: seq<Request>, dup: Dup, s: State) {
    if run == [] then s == INITIAL
    else exists before :: Reaches(run[..|run| - 1], dup, before) && Keyed(before) &&
                          s == Serve(before, run[|run| - 1], dup)
  }

  lemma {:induction false} ServeSound(s: State, request: Request, dup: Dup)
    requires Sound(s)
    ensures Sound(Serve(s, request, dup))
  {
    hide Sound, Parse, PassReleaseFences, CloseTaken, TakeReleaseFences, TakePresentFence;
    match request
    case DoParse(words, table) => ParseSound(s, words, table, dup);
    case DoTakeErrors => TakeSound(s, 0);
    case DoTakeChangedTypes(display) => TakeSound(s, display);
    case DoTakeRequests(display) => TakeSound(s, display);
    case DoTakeReleaseFences(display) => TakeSound(s, display);
    case DoTakePresentFence(display) => TakeSound(s, display);
    case DoPassReleaseFences(display, known) => PassSound(s, display, known);
    case DoDrop(fd) => if fd in s.ledger.handedOut { CloseTakenSound(s, multiset{fd}); }
  }

  /** In every reachable state the lists are parallel and no descriptor is lost or duplicated. */
  lemma {:induction false} ReachableSound(run: seq<Request>, dup: Dup, s: State)
    requires Reaches(run, dup, s)
    ensures Sound(s)
    decreases |run|
  {
    if run != [] {
      var before :| Reaches(run[..|run| - 1], dup, before) && Keyed(before) &&
                    s == Serve(before, run[|run| - 1], dup);
      ReachableSound(run[..|run| - 1], dup, before);
      ServeSound(before, run[|run| - 1], dup);
    }
  }

  // ---------------------------------------------------------------- who has the descriptors

  lemma {:induction false} ParseHandsOutNothing(words: seq<uint32>, table: HandleTable, dup: Dup, s: State)
    ensures ParseWords(words, table, dup, s).state.ledger.handedOut == s.ledger.handedOut
    decreases |words|
  {
    hide ReadMessage, Accepts, Perform;
    if WholeCommand(words) {
      var m := ReadMessage(FirstFrame(words), table);
      if Accepts(m, s.current.Some?) {
        PerformHandsOutNothing(m, dup, s);
        ParseHandsOutNothing(AfterFirst(words), table, dup, Perform(m, dup, s));
      }
    }
  }

  lemma PerformHandsOutNothing(m: Message, dup: Dup, s: State)
    requires Accepts(m, s.current.Some?)
    ensures Perform(m, dup, s).ledger.handedOut == s.ledger.handedOut
  {
    hide Bag, Duplicates, DupCalls;
  }

  /** The caller comes to have the fences it takes, still open, and no others, until it closes them. */
  lemma OnlyTakesHandOut(s: State, request: Request, dup: Dup)
    requires Keyed(s)
    ensures !request.DoPassReleaseFences? && !request.DoDrop? ==>
              Serve(s, request, dup).ledger.handedOut
              == s.ledger.handedOut
                 + (if request.DoTakeReleaseFences? then Bag(Entry(s, request.display).releaseFences)
                    else if request.DoTakePresentFence? then Bag([Entry(s, request.display).presentFence])
                    else multiset{})
    ensures !request.DoParse? && !request.DoPassReleaseFences? && !request.DoDrop? ==>
              Serve(s, request, dup).ledger.closed == s.ledger.closed
    ensures request.DoDrop? && request.fd in s.ledger.handedOut ==>
              && Serve(s, request, dup).ledger.handedOut == s.ledger.handedOut - multiset{request.fd}
              && Serve(s, request, dup).ledger.closed == s.ledger.closed + multiset{request.fd}
  {
    hide Keyed, ParseWords, Held;
    NoBag();
    if request.DoParse? { ParseHandsOutNothing(request.words, request.table, dup, ResetData(s)); }
  }

  lemma NoBag()
    ensures Bag([]) == multiset{} && Bag([-1]) == multiset{}
  {
    BagOne(-1);
  }

  // ---------------------------------------------------------------- where descriptors come from

  function PresentIn(sources: seq<Option<int>>): seq<int> {
    if sources == [] then []
    else
      var last := sources[|sources| - 1];
      PresentIn(sources[..|sources| - 1]) + if last.Some? then [last.value] else []
  }

  /** The descriptors an accepted message has duplicated, in order. */
  function Wanted(m: Message): seq<int> {
    match m
    case PresentFence(Some(fd)) => [fd]
    case ReleaseFences(_, sources) => PresentIn(sources)
    case _ => []
  }

  /** The same for the commands of a batch, up to the first that is cut short or rejected. */
  function WantedIn(words: seq<uint32>, table: HandleTable, selected: bool): seq<int>
    decreases |words|
  {
    if !WholeCommand(words) then []
    else
      var m := ReadMessage(FirstFrame(words), table);
      if Accepts(m, selected) then Wanted(m) + WantedIn(AfterFirst(words), table, selected || m.SelectDisplay?) else []
  }

  function WantedOver(run: seq<Request>): seq<int> {
    if run == [] then []
    else
      var last := run[|run| - 1];
      WantedOver(run[..|run| - 1]) + if last.DoParse? then WantedIn(last.words, last.table, false) else []
  }

  /** What `dup` answers for them, when it has been called k times before. */
  function Answers(dup: Dup, k: nat, fds: seq<int>): (answers: seq<int>)
    ensures |answers| == |fds|
  {
    seq(|fds|, i requires 0 <= i < |fds| => dup(k + i, fds[i]))
  }

  lemma AnswersAppend(dup: Dup, k: nat, a: seq<int>, b: seq<int>)
    ensures Bag(Answers(dup, k, a + b)) == Bag(Answers(dup, k, a)) + Bag(Answers(dup, k + |a|, b))
  {
    assert Answers(dup, k, a + b) == Answers(dup, k, a) + Answers(dup, k + |a|, b);
    BagAppend(Answers(dup, k, a), Answers(dup, k + |a|, b));
  }

  lemma DuplicateBag(source: Option<int>, dup: Dup, k: nat)
    ensures Bag([Duplicate(source, dup, k)]) == Bag(Answers(dup, k, if source.Some? then [source.value] else []))
  {
    BagOne(Duplicate(source, dup, k));
    if source.Some? {
      BagOne(dup(k, source.value));
      assert Answers(dup, k, [source.value]) == [dup(k, source.value)];
    }
  }

  lemma {:induction false} DuplicatesBag(sources: seq<Option<int>>, dup: Dup, k: nat)
    ensures DupCalls(sources, |sources|) == |PresentIn(sources)|
    ensures Bag(Duplicates(sources, dup, k, |sources|)) == Bag(Answers(dup, k, PresentIn(sources)))
  {
    hide Bag, Duplicate, Answers;
    if sources == [] {
      assert Answers(dup, k, []) == [];
    } else {
      var n := |sources| - 1;
      var init, last := sources[..n], sources[n];
      DuplicatesBag(init, dup, k);
      assert sources == init + [last];
      DuplicatesPrefix(init, [last], dup, k, n);
      BagAppend(Duplicates(init, dup, k, n), [Duplicate(last, dup, k + DupCalls(init, n))]);
      DuplicateBag(last, dup, k + DupCalls(init, n));
      AnswersAppend(dup, k, PresentIn(init), if last.Some? then [last.value] else []);
    }
  }

  lemma PerformProduces(m: Message, dup: Dup, s: State)
    requires Accepts(m, s.current.Some?)
    ensures var t := Perform(m, dup, s);
            && t.dups == s.dups + |Wanted(m)|
            && t.ledger.produced == s.ledger.produced + Bag(Answers(dup, s.dups, Wanted(m)))
            && t.current.Some? == (s.current.Some? || m.SelectDisplay?)
  {
    hide Duplicates, DupCalls, PresentIn;
    assert Answers(dup, s.dups, []) == [] && s.ledger.produced + multiset{} == s.ledger.produced;
    match m
    case PresentFence(source) => DuplicateBag(source, dup, s.dups);
    case ReleaseFences(_, sources) => DuplicatesBag(sources, dup, s.dups);
    case _ =>
  }

  lemma {:induction false} ParseProduces(words: seq<uint32>, table: HandleTable, dup: Dup, s: State)
    ensures var t, fds := ParseWords(words, table, dup, s).state, WantedIn(words, table, s.current.Some?);
            t.dups == s.dups + |fds| && t.ledger.produced == s.ledger.produced + Bag(Answers(dup, s.dups, fds))
    decreases |words|
  {
    hide ReadMessage, Perform, Accepts, Wanted, Answers, Bag;
    NoAnswers(dup, s.dups);
    assert s.ledger.produced + multiset{} == s.ledger.produced;
    if WholeCommand(words) {
      var m := ReadMessage(FirstFrame(words), table);
      if Accepts(m, s.current.Some?) {
        PerformProduces(m, dup, s);
        var t := Perform(m, dup, s);
        ParseProduces(AfterFirst(words), table, dup, t);
        var a, b := Wanted(m), WantedIn(AfterFirst(words), table, t.current.Some?);
        AnswersAppend(dup, s.dups, a, b);
        BagSum(s.ledger.produced, Bag(Answers(dup, s.dups, a)), Bag(Answers(dup, t.dups, b)));
      }
    }
  }

  lemma NoAnswers(dup: Dup, k: nat)
    ensures Bag(Answers(dup, k, [])) == multiset{}
  {
    assert Answers(dup, k, []) == [];
  }

  lemma BagSum(a: multiset<int>, b: multiset<int>, c: multiset<int>)
    ensures a + b + c == a + (b + c)
  {
  }

  /** What a request other than a parse does to the calls of `dup` and the descriptors produced. */
  lemma OnlyParseProduces(s: State, request: Request, dup: Dup)
    requires Keyed(s) && !request.DoParse?
    ensures Serve(s, request, dup).dups == s.dups
    ensures Serve(s, request, dup).ledger.produced == s.ledger.produced
  {
    hide Keyed, Bag, ClosedHere;
  }

  /** In every reachable state the descriptors the reader ever produced are exactly the answers of
      `dup`, one call for each fence of each accepted command, in order, failed ones aside. */
  lemma {:induction false} ProducedAreAnswers(run: seq<Request>, dup: Dup, s: State)
    requires Reaches(run, dup, s)
    ensures s.dups == |WantedOver(run)| && s.ledger.produced == Bag(Answers(dup, 0, WantedOver(run)))
    decreases |run|
  {
    hide Serve, WantedIn, Answers, Bag, Keyed;
    if run == [] {
      NoAnswers(dup, 0);
    } else {
      var init, last := run[..|run| - 1], run[|run| - 1];
      var before :| Reaches(init, dup, before) && Keyed(before) && s == Serve(before, last, dup);
      ProducedAreAnswers(init, dup, before);
      if last.DoParse? {
        ServeParseProduces(before, last, dup);
        AnswersAppend(dup, 0, WantedOver(init), WantedIn(last.words, last.table, false));
      } else {
        OnlyParseProduces(before, last, dup);
        assert WantedOver(init) + [] == WantedOver(init);
      }
    }
  }

  lemma ServeParseProduces(s: State, request: Request, dup: Dup)
    requires Keyed(s) && request.DoParse?
    ensures var t, fds := Serve(s, request, dup), WantedIn(request.words, request.table, false);
            t.dups == s.dups + |fds| && t.ledger.produced == s.ledger.produced + Bag(Answers(dup, s.dups, fds))
  {
    hide Keyed, ParseWords, WantedIn, Answers, Bag, Held;
    ParseProduces(request.words, request.table, dup, ResetData(s));
  }

  /** Destroying the reader after any run leaves nothing open that was not handed out. */
  lemma DestroyedReaderLeaksNothing(run: seq<Request>, dup: Dup, s: State)
    requires Reaches(run, dup, s)
    ensures Keyed(s)
    ensures var end := ResetData(s).ledger; end.produced == end.closed + end.handedOut
  {
    ReachableSound(run, dup, s);
  }

  // ---------------------------------------------------------------- what the parser accepts

  /** True when one of the first k messages selects a display, or one was selected before. */
  predicate SelectedBefore(ms: seq<Message>, k: nat, selected: bool)
    requires k <= |ms|
  {
    selected || exists j | 0 <= j < k :: ms[j].SelectDisplay?
  }

  predicate AcceptableUpTo(ms: seq<Message>, n: nat, selected: bool)
    requires n <= |ms|
  {
    forall k | 0 <= k < n :: Accepts(ms[k], SelectedBefore(ms, k, selected))
  }

  function ReadMessages(fs: seq<Frame>, table: HandleTable): (ms: seq<Message>)
    ensures |ms| == |fs|
  {
    if fs == [] then [] else [ReadMessage(fs[0], table)] + ReadMessages(fs[1..], table)
  }

  lemma SelectionStep(m: Message, dup: Dup, s: State)
    requires Accepts(m, s.current.Some?)
    ensures Perform(m, dup, s).current.Some? == (s.current.Some? || m.SelectDisplay?)
  {
  }

  lemma SelectedBeforeCons(ms: seq<Message>, k: nat, selected: bool)
    requires 0 < k <= |ms|
    ensures SelectedBefore(ms, k, selected)
            == SelectedBefore(ms[1..], k - 1, selected || ms[0].SelectDisplay?)
  {
    if j :| 0 <= j < k && ms[j].SelectDisplay? {
      if j > 0 { assert ms[1..][j - 1].SelectDisplay?; }
    }
    if j :| 0 <= j < k - 1 && ms[1..][j].SelectDisplay? {
      assert ms[j + 1].SelectDisplay?;
    }
  }

  lemma AcceptableCons(ms: seq<Message>, n: nat, selected: bool)
    requires 0 < n <= |ms|
    ensures AcceptableUpTo(ms, n, selected)
            == (Accepts(ms[0], selected)
                && AcceptableUpTo(ms[1..], n - 1, selected || ms[0].SelectDisplay?))
  {
    var rest, after := ms[1..], selected || ms[0].SelectDisplay?;
    forall k | 0 < k < n
      ensures Accepts(ms[k], SelectedBefore(ms, k, selected))
              == Accepts(rest[k - 1], SelectedBefore(rest, k - 1, after))
    {
      SelectedBeforeCons(ms, k, selected);
    }
    assert SelectedBefore(ms, 0, selected) == selected;
    if Accepts(ms[0], selected) && AcceptableUpTo(rest, n - 1, after) {
      forall k | 0 <= k < n
        ensures Accepts(ms[k], SelectedBefore(ms, k, selected))
      {
        if k > 0 { assert Accepts(rest[k - 1], SelectedBefore(rest, k - 1, after)); }
      }
    }
    if AcceptableUpTo(ms, n, selected) {
      forall k | 0 <= k < n - 1
        ensures Accepts(rest[k], SelectedBefore(rest, k, after))
      {
        assert Accepts(ms[k + 1], SelectedBefore(ms, k + 1, selected));
      }
    }
  }

  /** True when every command but possibly the last is accepted. */
  predicate AllButLastAccepted(ms: seq<Message>, selected: bool) {
    ms == [] || AcceptableUpTo(ms, |ms| - 1, selected)
  }

  lemma AllButLastCons(ms: seq<Message>, selected: bool)
    requires |ms| > 1
    ensures AllButLastAccepted(ms, selected)
            == (Accepts(ms[0], selected)
                && AllButLastAccepted(ms[1..], selected || ms[0].SelectDisplay?))
  {
    AcceptableCons(ms, |ms| - 1, selected);
  }

  /** The parser on a stream of whole commands, seen as a loop over messages. */
  function ParseMessages(ms: seq<Message>, dup: Dup, s: State): Parsed {
    if ms == [] then Parsed(s, NO_ERROR)
    else if Accepts(ms[0], s.current.Some?) then ParseMessages(ms[1..], dup, Perform(ms[0], dup, s))
    else Parsed(s, if |ms| == 1 then NO_ERROR else NO_RESOURCES)
  }

  lemma {:induction false} ParseFrames(fs: seq<Frame>, table: HandleTable, dup: Dup, s: State)
    ensures ParseWords(Flatten(fs), table, dup, s) == ParseMessages(ReadMessages(fs, table), dup, s)
  {
    if fs != [] {
      FirstFrameOf(fs[0], Flatten(fs[1..]));
      var m := ReadMessage(fs[0], table);
      if Accepts(m, s.current.Some?) {
        ParseFrames(fs[1..], table, dup, Perform(m, dup, s));
      }
      assert ReadMessages(fs, table)[1..] == ReadMessages(fs[1..], table);
    }
  }

  lemma {:induction false} ParseMessagesIff(ms: seq<Message>, dup: Dup, s: State)
    ensures ParseMessages(ms, dup, s).error == NO_ERROR <==> AllButLastAccepted(ms, s.current.Some?)
  {
    if ms != [] {
      if |ms| > 1 { AllButLastCons(ms, s.current.Some?); }
      if Accepts(ms[0], s.current.Some?) {
        SelectionStep(ms[0], dup, s);
        ParseMessagesIff(ms[1..], dup, Perform(ms[0], dup, s));
      }
    }
  }

  lemma {:induction false} ParsedWhole(words: seq<uint32>, table: HandleTable, dup: Dup, s: State)
    requires ParseWords(words, table, dup, s).error == NO_ERROR
    ensures Split(words).Some?
    decreases |words|
  {
    if words != [] {
      var m := ReadMessage(FirstFrame(words), table);
      if Accepts(m, s.current.Some?) {
        ParsedWhole(AfterFirst(words), table, dup, Perform(m, dup, s));
      } else {
        assert Split(AfterFirst(words)) == Some([]);
      }
    }
  }

  /** parse returns NONE exactly when the words split into whole commands of which all but
      possibly the last are accepted; in particular a rejected last command goes unnoticed. */
  lemma ParseNoneIff(words: seq<uint32>, table: HandleTable, dup: Dup, s: State)
    ensures ParseWords(words, table, dup, s).error == NO_ERROR
            <==> exists fs :: words == Flatten(fs) &&
                              AllButLastAccepted(ReadMessages(fs, table), s.current.Some?)
  {
    if ParseWords(words, table, dup, s).error == NO_ERROR {
      ParsedWhole(words, table, dup, s);
      var fs := Split(words).value;
      SplitFlatten(words, fs);
      ParseFrames(fs, table, dup, s);
      ParseMessagesIff(ReadMessages(fs, table), dup, s);
    }
    if fs :| words == Flatten(fs) && AllButLastAccepted(ReadMessages(fs, table), s.current.Some?) {
      ParseFrames(fs, table, dup, s);
      ParseMessagesIff(ReadMessages(fs, table), dup, s);
    }
  }

  // ---------------------------------------------------------------- nothing left over

  /** Equal in everything a caller can observe. */
  predicate SameResults(s: State, t: State) {
    s.errors == t.errors && s.displays == t.displays && s.data == t.data
    && s.current == t.current && s.dups == t.dups
  }

  lemma PerformSame(m: Message, dup: Dup, s: State, t: State)
    requires SameResults(s, t) && Accepts(m, s.current.Some?)
    ensures SameResults(Perform(m, dup, s), Perform(m, dup, t))
  {
  }

  lemma {:induction false} ParseWordsSame(words: seq<uint32>, table: HandleTable, dup: Dup, s: State, t: State)
    requires SameResults(s, t)
    ensures SameResults(ParseWords(words, table, dup, s).state, ParseWords(words, table, dup, t).state)
    ensures ParseWords(words, table, dup, s).error == ParseWords(words, table, dup, t).error
    decreases |words|
  {
    if WholeCommand(words) {
      var m := ReadMessage(FirstFrame(words), table);
      if Accepts(m, s.current.Some?) {
        PerformSame(m, dup, s, t);
        ParseWordsSame(AfterFirst(words), table, dup, Perform(m, dup, s), Perform(m, dup, t));
      }
    }
  }

  /** The outcome of parse is a function of the words and handles just read: two readers with
      any history whatever, parsing the same batch with the same descriptors, agree. */
  lemma ParseForgetsThePast(s: State, t: State, words: seq<uint32>, table: HandleTable, dup: Dup)
    requires Keyed(s) && Keyed(t) && s.dups == t.dups
    ensures SameResults(Parse(s, words, table, dup).state, Parse(t, words, table, dup).state)
    ensures Parse(s, words, table, dup).error == Parse(t, words, table, dup).error
  {
    ParseWordsSame(words, table, dup, ResetData(s), ResetData(t));
  }
}
