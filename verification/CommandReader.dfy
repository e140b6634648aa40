/** The client's reader: a buffer of words copied from the queue, a cursor with the bounds of the
    current command, and the per-display results it fills in. */
module CommandReaders {
  import opened Words
  import opened Wire
  import opened ReaderState
  import opened ReaderLists
  import opened MessageQueues

  /** What becomes of a command, rejected ones included. */
  function Outcome(m: Message, dup: Dup, s: State): State {
    if Accepts(m, s.current.Some?) then Perform(m, dup, s) else s
  }

  lemma OutcomeKeyed(m: Message, dup: Dup, s: State)
    requires Keyed(s)
    ensures Keyed(Outcome(m, dup, s))
  {
  }

  predicate HasOneFd(handle: Option<Handle>) { handle.Some? && |handle.value.fds| == 1 }

  // ---------------------------------------------------------------- pairs, one at a time

  /** The state after the first n pairs of a list command have been read. */
  function TypesRead(s: State, dup: Dup, args: seq<uint32>, n: nat): State {
    if s.current.Some? && 3 * n <= |args| then Perform(Types(Layers(args, n), Signed(Thirds(args, n))), dup, s) else s
  }

  function RequestsRead(s: State, dup: Dup, mask: uint32, args: seq<uint32>, n: nat): State {
    if s.current.Some? && 3 * n <= |args| then Perform(Requests(mask, Layers(args, n), Thirds(args, n)), dup, s) else s
  }

  function FencesRead(s: State, dup: Dup, args: seq<uint32>, table: HandleTable, n: nat): State {
    if s.current.Some? && 3 * n <= |args|
    then Perform(ReleaseFences(Layers(args, n), Sources(Thirds(args, n), table)), dup, s) else s
  }

  lemma NothingRead(s: State, dup: Dup, args: seq<uint32>, table: HandleTable)
    requires s.current.Some? && Keyed(s)
    ensures TypesRead(s, dup, args, 0) == s
    ensures FencesRead(s, dup, args, table, 0) == s
  {
    PerformEmpty(s, dup);
    assert Signed([]) == [] && Sources([], table) == [];
  }

  lemma TypesStep(s: State, dup: Dup, args: seq<uint32>, i: nat)
    requires s.current.Some? && 3 * i + 3 <= |args|
    ensures Perform(Types([Join(args[3 * i], args[3 * i + 1])], [ToSigned(args[3 * i + 2])]), dup,
                    TypesRead(s, dup, args, i))
            == TypesRead(s, dup, args, i + 1)
    ensures TypesRead(s, dup, args, i).current == s.current
  {
    var layer, word := Join(args[3 * i], args[3 * i + 1]), args[3 * i + 2];
    assert Signed(Thirds(args, i) + [word]) == Signed(Thirds(args, i)) + [ToSigned(word)];
    PerformTypesTwice(s, dup, Layers(args, i), Signed(Thirds(args, i)), [layer], [ToSigned(word)]);
  }

  /** Setting the mask first and then adding pairs is adding pairs under that mask. */
  lemma MaskSet(s: State, dup: Dup, mask: uint32, args: seq<uint32>, n: nat)
    requires s.current.Some? && Keyed(s) && 3 * n <= |args|
    ensures var s' := WithCurrent(s, Current(s).(displayRequests := mask));
            && RequestsRead(s', dup, mask, args, 0) == s' && Current(s').displayRequests == mask
            && RequestsRead(s', dup, mask, args, n) == RequestsRead(s, dup, mask, args, n)
  {
    var rd, layers, masks := Current(s), Layers(args, n), Thirds(args, n);
    WithCurrentTwice(s.data, s.current.value, rd.(displayRequests := mask),
                     rd.(displayRequests := mask, requestedLayers := rd.requestedLayers + layers,
                         requestMasks := rd.requestMasks + masks));
    PerformEmpty(WithCurrent(s, rd.(displayRequests := mask)), dup);
  }

  lemma RequestsStep(s: State, dup: Dup, mask: uint32, args: seq<uint32>, i: nat)
    requires s.current.Some? && 3 * i + 3 <= |args|
    ensures Perform(Requests(mask, [Join(args[3 * i], args[3 * i + 1])], [args[3 * i + 2]]), dup,
                    RequestsRead(s, dup, mask, args, i))
            == RequestsRead(s, dup, mask, args, i + 1)
    ensures RequestsRead(s, dup, mask, args, i).current == s.current
  {
    PerformRequestsTwice(s, dup, mask, Layers(args, i), Thirds(args, i),
                         [Join(args[3 * i], args[3 * i + 1])], [args[3 * i + 2]]);
  }

  lemma FencesStep(s: State, dup: Dup, args: seq<uint32>, table: HandleTable, i: nat)
    requires s.current.Some? && 3 * i + 3 <= |args|
    ensures FencesRead(s, dup, args, table, i).current == s.current
    ensures Perform(ReleaseFences([Join(args[3 * i], args[3 * i + 1])], [FenceSource(args[3 * i + 2], table)]), dup,
                    FencesRead(s, dup, args, table, i))
            == FencesRead(s, dup, args, table, i + 1)
  {
    var layer, source := Join(args[3 * i], args[3 * i + 1]), FenceSource(args[3 * i + 2], table);
    assert Sources(Thirds(args, i + 1), table) == Sources(Thirds(args, i), table) + [source];
    PerformFencesTwice(s, dup, Layers(args, i), Sources(Thirds(args, i), table), [layer], [source]);
  }

  lemma OneFence(s: State, dup: Dup, layer: uint64, source: Option<int>)
    requires s.current.Some?
    ensures Perform(ReleaseFences([layer], [source]), dup, s)
            == AddFences(s, [layer], [Duplicate(source, dup, s.dups)], if source.Some? then 1 else 0)
  {
    assert DupCalls([source], 0) == 0 && Duplicates([source], dup, s.dups, 0) == [];
    assert Duplicates([source], dup, s.dups, 1) == [Duplicate(source, dup, s.dups)];
  }

  lemma NoWordsLeft(words: seq<uint32>, table: HandleTable, dup: Dup, s: State)
    ensures words == [] ==> ParseWords(words, table, dup, s) == Parsed(s, NO_ERROR)
  {
  }

  /** One round of parsing. */
  lemma ParseOne(words: seq<uint32>, table: HandleTable, dup: Dup, s: State)
    requires words != []
    ensures if !WholeCommand(words) then ParseWords(words, table, dup, s) == Parsed(s, NO_RESOURCES) else
            var m := ReadMessage(FirstFrame(words), table);
            ParseWords(words, table, dup, s)
            == if Accepts(m, s.current.Some?) then ParseWords(AfterFirst(words), table, dup, Outcome(m, dup, s))
               else Parsed(Outcome(m, dup, s), if AfterFirst(words) == [] then NO_ERROR else NO_RESOURCES)
  {
    hide WholeCommand, FirstFrame, AfterFirst, ReadMessage, Accepts, Perform;
  }

  // ---------------------------------------------------------------- what becomes of a list command

  lemma TypesOutcome(args: seq<uint32>, table: HandleTable, dup: Dup, s: State)
    requires |args| <= MAX_LENGTH && Keyed(s)
    ensures var m := ReadMessage(Frame(Code(OpSetChangedCompositionTypes), args), table);
            && Accepts(m, s.current.Some?) == (|args| % 3 == 0 && s.current.Some?)
            && Outcome(m, dup, s)
               == if Accepts(m, s.current.Some?) then TypesRead(s, dup, args, |args| / 3) else s
    ensures s.current.Some? ==> TypesRead(s, dup, args, 0) == s
  {
    hide Perform, Layers, Thirds, Signed, Keyed, ReadMessage, Code;
    ReadTypesCommand(args, table);
    if s.current.Some? { NothingRead(s, dup, args, table); }
  }

  lemma RequestsOutcome(args: seq<uint32>, table: HandleTable, dup: Dup, s: State)
    requires |args| <= MAX_LENGTH
    ensures var m := ReadMessage(Frame(Code(OpSetDisplayRequests), args), table);
            && Accepts(m, s.current.Some?) == (|args| % 3 == 1 && s.current.Some?)
            && Outcome(m, dup, s)
               == if Accepts(m, s.current.Some?) then RequestsRead(s, dup, args[0], args[1..], (|args| - 1) / 3) else s
  {
    hide Perform, Layers, Thirds, ReadMessage, Code;
    ReadRequestsCommand(args, table);
  }

  lemma PresentFenceOutcome(args: seq<uint32>, table: HandleTable, dup: Dup, s: State)
    requires |args| <= MAX_LENGTH
    ensures var m := ReadMessage(Frame(Code(OpSetPresentFence), args), table);
            && Accepts(m, s.current.Some?) == (|args| == 1 && s.current.Some?)
            && Outcome(m, dup, s)
               == if !Accepts(m, s.current.Some?) then s else
                  var source := FenceSource(args[0], table);
                  ReplaceFence(s, Duplicate(source, dup, s.dups), if source.Some? then 1 else 0)
  {
    hide FenceSource, Duplicate, ReplaceFence;
  }

  lemma FencesOutcome(args: seq<uint32>, table: HandleTable, dup: Dup, s: State)
    requires |args| <= MAX_LENGTH && Keyed(s)
    ensures var m := ReadMessage(Frame(Code(OpSetReleaseFences), args), table);
            && Accepts(m, s.current.Some?) == (|args| % 3 == 0 && s.current.Some?)
            && Outcome(m, dup, s)
               == if Accepts(m, s.current.Some?) then FencesRead(s, dup, args, table, |args| / 3) else s
    ensures s.current.Some? ==> FencesRead(s, dup, args, table, 0) == s
  {
    hide Perform, Layers, Thirds, Sources, Keyed, ReadMessage, Code;
    ReadFencesCommand(args, table);
    if s.current.Some? { NothingRead(s, dup, args, table); }
  }

  // ---------------------------------------------------------------- closing what is held

  lemma HeldByParts(rd: ReturnData)
    ensures HeldBy(rd) == Bag([rd.presentFence]) + BagTo(rd.releaseFences, |rd.releaseFences|)
    ensures BagTo(rd.releaseFences, 0) == multiset{}
  {
  }

  lemma OneMoreFd(fds: seq<int>, i: nat)
    requires i < |fds|
    ensures BagTo(fds, i + 1) == BagTo(fds, i) + Bag([fds[i]])
  {
    BagOne(fds[i]);
  }

  // ---------------------------------------------------------------- command locations

  /** The offsets recorded for the commands begun so far are where those commands start. */
  ghost predicate Located(locations: seq<uint32>, seen: seq<Frame>) {
    |locations| == |seen| && forall k | 0 <= k < |seen| :: locations[k] == Location(seen, k)
  }

  lemma NothingSeen()
    ensures Located([], []) && Flatten([]) == []
  {
  }

  lemma LocatedSnoc(locations: seq<uint32>, seen: seq<Frame>, f: Frame, at: uint32)
    requires Located(locations, seen) && at == |Flatten(seen)|
    ensures Located(locations + [at], seen + [f])
  {
    forall k | 0 <= k < |seen| + 1
      ensures (locations + [at])[k] == Location(seen + [f], k)
    {
      assert (seen + [f])[..k] == seen[..k];
      assert seen[..|seen|] == seen;
    }
  }

  /** Commands read from the front of a stream are the stream's first commands. */
  lemma {:induction false} SeenIsPrefix(seen: seq<Frame>, fs: seq<Frame>, rest: seq<uint32>)
    requires Flatten(seen) + rest == Flatten(fs)
    ensures seen <= fs
  {
    if seen != [] {
      assert fs != [];
      var after := Flatten(seen[1..]) + rest;
      assert Flatten(fs) == FrameWords(seen[0]) + after;
      FirstFrameOf(seen[0], after);
      FirstFrameOf(fs[0], Flatten(fs[1..]));
      SeenIsPrefix(seen[1..], fs[1..], rest);
    }
  }

  /** Error locations agree across the two sides: while a reader consumes a stream the writer
      produced, the location it has for the k-th command is one where the writer finds that
      command's opcode. */
  lemma LocationsAgree(words: seq<uint32>, fs: seq<Frame>, seen: seq<Frame>, locations: seq<uint32>, k: nat)
    requires words == Flatten(fs) && |words| <= UINT32_MAX
    requires Flatten(seen) <= words && Located(locations, seen) && k < |seen|
    ensures k < |fs| && seen[k] == fs[k] && OpcodeAt(words, locations[k]) == fs[k].op
  {
    SeenIsPrefix(seen, fs, words[|Flatten(seen)|..]);
    assert seen[..k] == fs[..k];
    OpcodeAtLocation(fs, k);
  }

  /** The first command of a stretch of a buffer. */
  lemma FrontFrame(words: seq<uint32>, at: nat, size: nat)
    requires at < size <= |words|
    ensures WholeCommand(words[at..size]) <==> at + 1 + HeaderLength(words[at]) <= size
    ensures WholeCommand(words[at..size]) ==>
              var f, end := FirstFrame(words[at..size]), at + 1 + HeaderLength(words[at]);
              && f == Frame(HeaderOp(words[at]), words[at + 1..end]) && AfterFirst(words[at..size]) == words[end..size]
              && words[..end] == words[..at] + FrameWords(f)
  {
    hide FrameWords;
    if WholeCommand(words[at..size]) {
      var f, end := FirstFrame(words[at..size]), at + 1 + HeaderLength(words[at]);
      Window(words, at, size, 1, 1 + HeaderLength(words[at]));
      assert words[at..size] == words[at..end] + words[end..size];
      assert FrameWords(f) == words[at..end] by { FirstFrameWords(words[at..size], words[at..end], words[end..size]); }
    }
  }

  lemma Window(words: seq<uint32>, at: nat, size: nat, from: nat, end: nat)
    requires from <= end && at + end <= size <= |words|
    ensures words[at..size][from..end] == words[at + from..at + end]
  {
    forall i | 0 <= i < end - from
      ensures words[at..size][from..end][i] == words[at + from..at + end][i]
    {
      assert words[at..size][from + i] == words[at + from + i];
    }
  }

  lemma FirstFrameWords(words: seq<uint32>, front: seq<uint32>, rest: seq<uint32>)
    requires WholeCommand(words) && words == front + rest && rest == AfterFirst(words)
    ensures FrameWords(FirstFrame(words)) == front
  {
    var f := FirstFrame(words);
    assert words == FrameWords(f) + rest;
    assert |FrameWords(f)| == |front|;
    assert (FrameWords(f) + rest)[..|front|] == FrameWords(f) && (front + rest)[..|front|] == front;
  }

  // ---------------------------------------------------------------- the reader

  class CommandReader {
    const dup: Dup

    var queue: MessageQueue?
    var dataMaxSize: uint32
    var data: array<uint32>
    var dataSize: uint32
    var dataRead: uint32
    var commandBegin: uint32
    var commandEnd: uint32
    var dataHandles: HandleTable

    var errors: seq<CommandError>
    var displays: seq<uint64>
    var returnData: map<uint64, ReturnData>
    var current: Option<uint64>

    /** How often `dup` was called, and where its descriptors went. */
    var dups: nat
    ghost var ledger: Ledger

    /** The commands begun since the batch was read, and the location each had. */
    ghost var seen: seq<Frame>
    ghost var locations: seq<uint32>

    ghost function Abs(): State
      reads this
    {
      State(errors, displays, returnData, current, dups, ledger)
    }

    ghost predicate Valid()
      reads this
    {
      data.Length == dataMaxSize && dataRead <= dataSize <= dataMaxSize
    }

    /** No cursor arithmetic wraps. */
    predicate NoWrap()
      reads this
    {
      dataSize + MAX_LENGTH <= UINT32_MAX
    }

    /** The words not yet read. */
    ghost function Rest(): seq<uint32>
      requires Valid()
      reads this, data
    {
      data[dataRead..dataSize]
    }

    /** Between commands. */
    ghost predicate AtBoundary()
      requires Valid()
      reads this, data
    {
      commandEnd == 0 && commandBegin == dataRead && data[..dataRead] == Flatten(seen) && Located(locations, seen)
    }

    ghost predicate QueueValid()
      reads this, queue
    {
      queue != null ==> queue.Valid()
    }

    /** No batch at hand. */
    ghost predicate Idle()
      reads this
    {
      dataSize == dataRead == commandBegin == commandEnd == 0 && dataHandles == [] && seen == [] && locations == []
    }

    // -------------------------------------------------------------- the queue

    constructor (dup: Dup)
      ensures Valid() && AtBoundary() && Idle() && Keyed(Abs()) && queue == null && this.dup == dup && fresh(data)
      ensures Abs() == State([], [], map[], None, 0, Ledger(multiset{}, multiset{}, multiset{}))
    {
      this.dup := dup;
      queue, dataMaxSize, data := null, 0, new uint32[0];
      dataSize, dataRead, commandBegin, commandEnd, dataHandles := 0, 0, 0, 0, [];
      errors, displays, returnData, current := [], [], map[], None;
      dups, ledger := 0, Ledger(multiset{}, multiset{}, multiset{});
      seen, locations := [], [];
    }

    /** `valid` says whether the peer's descriptor could be mapped. */
    method SetMQDescriptor(descriptor: MessageQueue, valid: bool) returns (ok: bool)
      modifies this`queue
      ensures ok == valid && queue == if valid then descriptor else null
    {
      queue := descriptor;
      ok := valid;
      if !valid {
        queue := null;
      }
    }

    /** Takes a batch out of the queue: possible exactly when that many words are there. */
    method ReadQueue(commandLength: uint32, commandHandles: HandleTable) returns (ok: bool)
      requires Valid() && QueueValid()
      modifies this`dataMaxSize, this`data, this`dataSize, this`dataRead, this`commandBegin, this`commandEnd
      modifies this`dataHandles, this`seen, this`locations, data, queue
      ensures Valid() && QueueValid() && (data == old(data) || fresh(data))
      ensures ok <==> queue != null && commandLength <= |old(queue.contents)|
      ensures ok ==> AtBoundary() && dataRead == 0 && seen == [] && dataHandles == commandHandles
      ensures ok ==> Rest() == old(queue.contents)[..commandLength]
      ensures ok ==> queue.contents == old(queue.contents)[commandLength..]
      ensures !ok && old(Idle()) ==> Idle()
      ensures !ok && queue != null ==> queue.contents == old(queue.contents)
      ensures Abs() == old(Abs())
    {
      ok := false;
      if queue == null {
        return;
      }
      if dataMaxSize < queue.capacity {
        dataMaxSize := queue.capacity;
        data := new uint32[dataMaxSize](_ => 0);
      }
      if commandLength > dataMaxSize {
        return;
      }
      var words;
      ok, words := queue.Read(commandLength);
      if ok {
        Load(words, commandHandles);
      }
    }

    method Fill(words: seq<uint32>)
      requires |words| <= data.Length
      modifies data
      ensures data[..|words|] == words
    {
      forall i | 0 <= i < |words| {
        data[i] := words[i];
      }
    }

    method Load(words: seq<uint32>, handles: HandleTable)
      requires data.Length == dataMaxSize && |words| <= dataMaxSize
      modifies this`dataSize, this`dataRead, this`commandBegin, this`commandEnd, this`dataHandles
      modifies this`seen, this`locations, data
      ensures Valid() && AtBoundary() && dataRead == 0 && seen == [] && dataHandles == handles
      ensures Rest() == words && Abs() == old(Abs())
    {
      hide Located, Flatten;
      NothingSeen();
      Fill(words);
      Restart(|words|, handles);
      assert data[..dataRead] == [];
    }

    /** The cursor before the first of so many words. */
    method Restart(size: uint32, handles: HandleTable)
      modifies this`dataSize, this`dataRead, this`commandBegin, this`commandEnd, this`dataHandles
      modifies this`seen, this`locations
      ensures dataSize == size && dataRead == commandBegin == commandEnd == 0 && dataHandles == handles
      ensures seen == [] && locations == [] && Abs() == old(Abs())
    {
      dataSize, dataRead, commandBegin, commandEnd := size, 0, 0, 0;
      dataHandles := handles;
      seen, locations := [], [];
    }

    method Reset()
      requires Valid()
      modifies this`dataSize, this`dataRead, this`commandBegin, this`commandEnd, this`dataHandles
      modifies this`seen, this`locations
      ensures Valid() && AtBoundary() && Idle() && Abs() == old(Abs())
    {
      hide Located, Flatten;
      NothingSeen();
      Restart(0, []);
      assert data[..dataRead] == [];
    }

    // -------------------------------------------------------------- one command

    predicate IsEmpty()
      reads this
    {
      dataRead >= dataSize
    }

    /** Reads a header; undone when fewer words are left than it announces. */
    method BeginCommand() returns (ok: bool, command: uint16, length: uint16)
      requires Valid() && !IsEmpty() && NoWrap()
      modifies this`dataRead, this`commandEnd, this`seen, this`locations
      ensures Valid() && ok == WholeCommand(old(Rest()))
      ensures ok ==> dataRead + length == commandEnd <= dataSize && 0 < commandEnd
      ensures ok ==> FirstFrame(old(Rest())) == Frame(command, data[dataRead..commandEnd])
      ensures ok ==> AfterFirst(old(Rest())) == data[commandEnd..dataSize]
      ensures ok && old(AtBoundary()) ==> data[..commandEnd] == Flatten(seen) && Located(locations, seen)
      ensures !ok ==> dataRead == old(dataRead) && unchanged(`commandEnd, `seen, `locations)
    {
      hide Located, Flatten, WholeCommand, FirstFrame, AfterFirst, FrameWords, HeaderOp, HeaderLength;
      FrontFrame(data[..], dataRead, dataSize);
      ghost var rest := Rest();
      var val := Read();
      command, length := HeaderOp(val), HeaderLength(val);
      if dataRead + length > dataSize {
        dataRead := dataRead - 1;
        return false, command, length;
      }
      commandEnd := dataRead + length;
      ok := true;
      ghost var f := FirstFrame(rest);
      if old(AtBoundary()) {
        FlattenSnoc(seen, f);
        LocatedSnoc(locations, seen, f, commandBegin);
      }
      seen, locations := seen + [f], locations + [GetCommandLoc()];
    }

    /** Ends the command where its header said, however much of it was read. */
    method EndCommand()
      requires commandEnd <= dataSize
      modifies this`dataRead, this`commandBegin, this`commandEnd
      ensures dataRead == if old(commandEnd) == 0 then old(dataRead) else old(commandEnd)
      ensures commandBegin == old(commandEnd) && commandEnd == 0
    {
      if commandEnd == 0 {
      } else if dataRead > commandEnd {
        dataRead := commandEnd;
      } else if dataRead < commandEnd {
        dataRead := commandEnd;
      }
      commandBegin := commandEnd;
      commandEnd := 0;
    }

    function GetCommandLoc(): uint32
      reads this
    {
      commandBegin
    }

    method Read() returns (val: uint32)
      requires Valid() && dataRead < dataSize
      modifies this`dataRead
      ensures val == data[old(dataRead)] && dataRead == old(dataRead) + 1
    {
      val := data[dataRead];
      dataRead := dataRead + 1;
    }

    method ReadSigned() returns (val: int32)
      requires Valid() && dataRead < dataSize
      modifies this`dataRead
      ensures val == ToSigned(data[old(dataRead)]) && dataRead == old(dataRead) + 1
    {
      val := ToSigned(data[dataRead]);
      dataRead := dataRead + 1;
    }

    method Read64() returns (val: uint64)
      requires Valid() && dataRead + 1 < dataSize
      modifies this`dataRead
      ensures val == Join(data[old(dataRead)], data[old(dataRead) + 1]) && dataRead == old(dataRead) + 2
    {
      var lo := Read();
      var hi := Read();
      val := Join(lo, hi);
    }

    method ReadColor() returns (color: Color)
      requires Valid() && dataRead < dataSize
      modifies this`dataRead
      ensures color == UnpackColor(data[old(dataRead)]) && dataRead == old(dataRead) + 1
      ensures data[old(dataRead)] == color.r + 0x100 * color.g + 0x1_0000 * color.b + 0x100_0000 * color.a
    {
      hide UnpackColor;
      var val := Read();
      color := UnpackColor(val);
      ColorOfWord(val);
    }

    /** Ownership of the handle is not transferred. */
    method ReadHandle() returns (handle: Option<Handle>, useCache: bool)
      requires Valid() && dataRead < dataSize
      modifies this`dataRead
      ensures HandleRead(handle, useCache) == LookupHandle(data[old(dataRead)], dataHandles)
      ensures useCache <==> ToSigned(data[old(dataRead)]) == CACHED
      ensures var index := data[old(dataRead)];
              handle == if index < MAX_HANDLES && index < |dataHandles| then dataHandles[index] else None
      ensures dataRead == old(dataRead) + 1
    {
      handle := None;
      var index := ReadSigned();
      if index == EMPTY {
        useCache := false;
      } else if index == CACHED {
        useCache := true;
      } else {
        if 0 <= index < |dataHandles| {
          handle := dataHandles[index];
        }
        useCache := false;
      }
    }

    /** Ownership of the fence is transferred to the caller. */
    method ReadFence() returns (fence: int)
      requires Valid() && dataRead < dataSize
      modifies this`dataRead, this`dups, this`ledger
      ensures var source := FenceSource(data[old(dataRead)], dataHandles);
              fence == Duplicate(source, dup, old(dups)) && dups == old(dups) + if source.Some? then 1 else 0
      ensures var index := data[old(dataRead)];
              if index < MAX_HANDLES && index < |dataHandles| && HasOneFd(dataHandles[index])
              then var answer := dup(old(dups), dataHandles[index].value.fds[0]);
                   fence == (if answer >= 0 then answer else -1) && dups == old(dups) + 1
              else fence == -1 && dups == old(dups)
      ensures ledger == old(ledger).(produced := old(ledger).produced + Bag([fence]))
      ensures dataRead == old(dataRead) + 1
    {
      BagOne(-1);
      var handle, _ := ReadHandle();
      if handle.None? || |handle.value.fds| == 0 {
        return -1;
      }
      if |handle.value.fds| != 1 {
        return -1;
      }
      fence := dup(dups, handle.value.fds[0]);
      dups := dups + 1;
      if fence < 0 {
        fence := -1;
      }
      ledger := ledger.(produced := ledger.produced + Bag([fence]));
    }

    // -------------------------------------------------------------- the handlers

    /** Inside a command of which nothing but the header has been read. */
    ghost predicate InCommand(length: uint16)
      reads this
    {
      Valid() && Keyed(Abs()) && dataRead + length == commandEnd <= dataSize
    }

    /** The message of the command at hand; the handlers take it as their ghost parameter `m`. */
    ghost function Pending(command: uint16): Message
      requires Valid() && dataRead <= commandEnd <= dataSize && commandEnd - dataRead <= MAX_LENGTH
      reads this, data
    {
      ReadMessage(Frame(command, data[dataRead..commandEnd]), dataHandles)
    }

    /** What the current-display pointer points at. */
    function CurrentData(): (rd: ReturnData)
      reads this
      ensures rd == Current(Abs())
    {
      if current.Some? && current.value in returnData then returnData[current.value] else NO_DATA
    }

    method SetCurrent(rd: ReturnData)
      requires current.Some?
      modifies this`returnData
      ensures Abs() == WithCurrent(old(Abs()), rd)
    {
      returnData := returnData[current.value := rd];
    }

    method Close(fd: int)
      modifies this`ledger
      ensures ledger == old(ledger).(closed := old(ledger).closed + Bag([fd]))
    {
      BagOne(fd);
      if fd >= 0 {
        ledger := ledger.(closed := ledger.closed + multiset{fd});
      }
    }

    method ParseSelectDisplay(length: uint16, ghost m: Message) returns (parsed: bool)
      requires InCommand(length) && m == Pending(Code(OpSelectDisplay))
      modifies this`dataRead, this`displays, this`returnData, this`current
      ensures parsed == Accepts(m, old(current).Some?)
      ensures parsed <==> length == 2
      ensures parsed ==> current == Some(Join(data[old(dataRead)], data[old(dataRead) + 1]))
      ensures Abs() == Outcome(m, dup, old(Abs())) && Keyed(Abs())
      ensures dataRead == if parsed then commandEnd else old(dataRead)
    {
      if length != 2 {
        return false;
      }
      var display := Read64();
      if display !in returnData {
        returnData, displays := returnData[display := NO_DATA], displays + [display];
      }
      current := Some(display);
      parsed := true;
    }

    method ParseSetError(length: uint16, ghost m: Message) returns (parsed: bool)
      requires InCommand(length) && m == Pending(Code(OpSetError))
      modifies this`dataRead, this`errors
      ensures parsed == Accepts(m, old(current).Some?)
      ensures parsed <==> length == 2
      ensures parsed ==>
                errors == old(errors) + [CommandError(data[old(dataRead)], ToSigned(data[old(dataRead) + 1]))]
      ensures Abs() == Outcome(m, dup, old(Abs()))
      ensures dataRead == if parsed then commandEnd else old(dataRead)
    {
      if length != 2 {
        return false;
      }
      var location := Read();
      var error := ReadSigned();
      errors := errors + [CommandError(location, error)];
      parsed := true;
    }

    method ParseTypePair()
      requires Valid() && dataRead + 2 < dataSize && current.Some?
      modifies this`dataRead, this`returnData
      ensures var layer, word := Join(data[old(dataRead)], data[old(dataRead) + 1]), data[old(dataRead) + 2];
              Abs() == Perform(Types([layer], [ToSigned(word)]), dup, old(Abs()))
      ensures dataRead == old(dataRead) + 3
    {
      var layer := Read64();
      var kind := ReadSigned();
      var rd := CurrentData();
      SetCurrent(rd.(changedLayers := rd.changedLayers + [layer], compositionTypes := rd.compositionTypes + [kind]));
    }

    method ParseSetChangedCompositionTypes(length: uint16, ghost m: Message) returns (parsed: bool)
      requires InCommand(length) && m == Pending(Code(OpSetChangedCompositionTypes))
      modifies this`dataRead, this`returnData
      ensures parsed == Accepts(m, old(current).Some?)
      ensures parsed <==> length % 3 == 0 && current.Some?
      ensures Abs() == Outcome(m, dup, old(Abs()))
      ensures dataRead == if parsed then commandEnd else old(dataRead)
    {
      hide Keyed, Accepts, Outcome, TypesRead, ReadMessage, Code;
      ghost var args := data[dataRead..commandEnd];
      TypesOutcome(args, dataHandles, dup, Abs());
      if length % 3 != 0 || current.None? {
        return false;
      }
      ParseTypePairs(length / 3, args, Abs());
      parsed := true;
    }

    method ParseTypePairs(pairs: nat, ghost args: seq<uint32>, ghost s: State)
      requires Valid() && s == Abs() == TypesRead(s, dup, args, 0) && current.Some?
      requires dataRead + 3 * pairs == commandEnd <= dataSize && args == data[dataRead..commandEnd]
      modifies this`dataRead, this`returnData
      ensures Abs() == TypesRead(s, dup, args, pairs)
      ensures dataRead == commandEnd
    {
      hide Perform, TypesRead;
      var count := pairs;
      ghost var i := 0;
      while count > 0
        invariant 0 <= count && 0 <= i && i + count == pairs && dataRead == old(dataRead) + 3 * i
        invariant Abs() == TypesRead(s, dup, args, i)
      {
        TypesStep(s, dup, args, i);
        ParseTypePair();
        count, i := count - 1, i + 1;
      }
    }

    method ParseRequestPair()
      requires Valid() && dataRead + 2 < dataSize && current.Some?
      modifies this`dataRead, this`returnData
      ensures var layer, mask := Join(data[old(dataRead)], data[old(dataRead) + 1]), data[old(dataRead) + 2];
              Abs() == Perform(Requests(old(CurrentData()).displayRequests, [layer], [mask]), dup, old(Abs()))
      ensures CurrentData().displayRequests == old(CurrentData()).displayRequests
      ensures dataRead == old(dataRead) + 3
    {
      var layer := Read64();
      var mask := Read();
      var rd := CurrentData();
      SetCurrent(rd.(requestedLayers := rd.requestedLayers + [layer], requestMasks := rd.requestMasks + [mask]));
    }

    method ParseRequestPairs(pairs: nat, ghost args: seq<uint32>, ghost s: State)
      requires Valid() && s == Abs() == RequestsRead(s, dup, Current(s).displayRequests, args, 0) && current.Some?
      requires dataRead + 3 * pairs == commandEnd <= dataSize && args == data[dataRead..commandEnd]
      modifies this`dataRead, this`returnData
      ensures Abs() == RequestsRead(s, dup, Current(s).displayRequests, args, pairs)
      ensures dataRead == commandEnd
    {
      ghost var mask := Current(s).displayRequests;
      hide Perform, RequestsRead;
      var count := pairs;
      ghost var i := 0;
      while count > 0
        invariant 0 <= count && 0 <= i && i + count == pairs && dataRead == old(dataRead) + 3 * i
        invariant Abs() == RequestsRead(s, dup, mask, args, i)
        invariant CurrentData().displayRequests == mask
      {
        RequestsStep(s, dup, mask, args, i);
        ParseRequestPair();
        count, i := count - 1, i + 1;
      }
    }

    method ParseSetDisplayRequests(length: uint16, ghost m: Message) returns (parsed: bool)
      requires InCommand(length) && m == Pending(Code(OpSetDisplayRequests))
      modifies this`dataRead, this`returnData
      ensures parsed == Accepts(m, old(current).Some?)
      ensures parsed <==> length % 3 == 1 && current.Some?
      ensures Abs() == Outcome(m, dup, old(Abs()))
      ensures dataRead == if parsed then commandEnd else old(dataRead)
    {
      hide Keyed, Accepts, Outcome, RequestsRead, ReadMessage, Code;
      ghost var args := data[dataRead..commandEnd];
      RequestsOutcome(args, dataHandles, dup, Abs());
      if length % 3 != 1 || current.None? {
        return false;
      }
      ParseMaskAndPairs((length - 1) / 3, args, Abs());
      parsed := true;
    }

    method ParseMaskAndPairs(pairs: nat, ghost args: seq<uint32>, ghost s: State)
      requires Valid() && s == Abs() && Keyed(s) && current.Some?
      requires dataRead + 1 + 3 * pairs == commandEnd <= dataSize && args == data[dataRead..commandEnd]
      modifies this`dataRead, this`returnData
      ensures Abs() == RequestsRead(s, dup, args[0], args[1..], pairs)
      ensures dataRead == commandEnd
    {
      var displayRequests := Read();
      var rd := CurrentData();
      SetCurrent(rd.(displayRequests := displayRequests));
      MaskSet(s, dup, displayRequests, args[1..], pairs);
      hide RequestsRead;
      assert data[dataRead..commandEnd] == args[1..];
      ParseRequestPairs(pairs, args[1..], Abs());
    }

    /** The fence read from the stream replaces the display's present fence, which is closed. */
    method ParseSetPresentFence(length: uint16, ghost m: Message) returns (parsed: bool)
      requires InCommand(length) && m == Pending(Code(OpSetPresentFence))
      modifies this`dataRead, this`returnData, this`dups, this`ledger
      ensures parsed == Accepts(m, old(current).Some?)
      ensures parsed <==> length == 1 && current.Some?
      ensures Abs() == Outcome(m, dup, old(Abs()))
      ensures dataRead == if parsed then commandEnd else old(dataRead)
    {
      hide Keyed, Accepts, Outcome, ReadMessage, Code, Bag, Duplicate, FenceSource;
      PresentFenceOutcome(data[dataRead..commandEnd], dataHandles, dup, Abs());
      if length != 1 || current.None? {
        return false;
      }
      var rd := CurrentData();
      Close(rd.presentFence);
      var fence := ReadFence();
      SetCurrent(rd.(presentFence := fence));
      parsed := true;
    }

    method ParseFencePair()
      requires Valid() && dataRead + 2 < dataSize && current.Some?
      modifies this`dataRead, this`returnData, this`dups, this`ledger
      ensures var layer, source := Join(data[old(dataRead)], data[old(dataRead) + 1]),
                                   FenceSource(data[old(dataRead) + 2], dataHandles);
              Abs() == Perform(ReleaseFences([layer], [source]), dup, old(Abs()))
      ensures dataRead == old(dataRead) + 3
    {
      ghost var s, source := Abs(), FenceSource(data[dataRead + 2], dataHandles);
      hide Perform, FenceSource, Bag, Join, Duplicate;
      var layer := Read64();
      OneFence(s, dup, layer, source);
      var fence := ReadFence();
      var rd := CurrentData();
      SetCurrent(rd.(releasedLayers := rd.releasedLayers + [layer], releaseFences := rd.releaseFences + [fence]));
    }

    method ParseFencePairs(pairs: nat, ghost args: seq<uint32>, ghost s: State)
      requires Valid() && s == Abs() == FencesRead(s, dup, args, dataHandles, 0) && current.Some?
      requires dataRead + 3 * pairs == commandEnd <= dataSize && args == data[dataRead..commandEnd]
      modifies this`dataRead, this`returnData, this`dups, this`ledger
      ensures Abs() == FencesRead(s, dup, args, dataHandles, pairs)
      ensures dataRead == commandEnd
    {
      hide Perform, FencesRead, FenceSource;
      var count := pairs;
      ghost var i := 0;
      while count > 0
        invariant 0 <= count && 0 <= i && i + count == pairs && dataRead == old(dataRead) + 3 * i
        invariant Abs() == FencesRead(s, dup, args, dataHandles, i)
      {
        FencesStep(s, dup, args, dataHandles, i);
        ParseFencePair();
        count, i := count - 1, i + 1;
      }
    }

    method ParseSetReleaseFences(length: uint16, ghost m: Message) returns (parsed: bool)
      requires InCommand(length) && m == Pending(Code(OpSetReleaseFences))
      modifies this`dataRead, this`returnData, this`dups, this`ledger
      ensures parsed == Accepts(m, old(current).Some?)
      ensures parsed <==> length % 3 == 0 && current.Some?
      ensures Abs() == Outcome(m, dup, old(Abs()))
      ensures dataRead == if parsed then commandEnd else old(dataRead)
    {
      hide Keyed, Accepts, Outcome, FencesRead, ReadMessage, Code;
      ghost var args := data[dataRead..commandEnd];
      FencesOutcome(args, dataHandles, dup, Abs());
      if length % 3 != 0 || current.None? {
        return false;
      }
      ParseFencePairs(length / 3, args, Abs());
      parsed := true;
    }

    method ParseSetPresentOrValidateDisplayResult(length: uint16, ghost m: Message) returns (parsed: bool)
      requires InCommand(length) && m == Pending(Code(OpSetPresentOrValidateDisplayResult))
      modifies this`dataRead, this`returnData
      ensures parsed == Accepts(m, old(current).Some?)
      ensures parsed <==> length == 1 && current.Some?
      ensures parsed ==> CurrentData().presentOrValidateState == Some(data[old(dataRead)])
      ensures Abs() == Outcome(m, dup, old(Abs()))
      ensures dataRead == if parsed then commandEnd else old(dataRead)
    {
      if length != 1 || current.None? {
        return false;
      }
      var presentOrValidateState := Read();
      var rd := CurrentData();
      SetCurrent(rd.(presentOrValidateState := Some(presentOrValidateState)));
      parsed := true;
    }

    // -------------------------------------------------------------- a whole batch

    method ParseCommand(command: uint16, length: uint16, ghost m: Message) returns (parsed: bool)
      requires InCommand(length) && m == Pending(command)
      modifies this`dataRead, this`errors, this`displays, this`returnData, this`current, this`dups, this`ledger
      ensures parsed == Accepts(m, old(current).Some?)
      ensures Abs() == Outcome(m, dup, old(Abs())) && Keyed(Abs())
      ensures dataRead == if parsed then commandEnd else old(dataRead)
    {
      OutcomeKeyed(m, dup, Abs());
      if command == Code(OpSelectDisplay) {
        parsed := ParseSelectDisplay(length, m);
      } else if command == Code(OpSetError) {
        parsed := ParseSetError(length, m);
      } else if command == Code(OpSetChangedCompositionTypes) {
        parsed := ParseSetChangedCompositionTypes(length, m);
      } else if command == Code(OpSetDisplayRequests) {
        parsed := ParseSetDisplayRequests(length, m);
      } else if command == Code(OpSetPresentFence) {
        parsed := ParseSetPresentFence(length, m);
      } else if command == Code(OpSetReleaseFences) {
        parsed := ParseSetReleaseFences(length, m);
      } else if command == Code(OpSetPresentOrValidateDisplayResult) {
        parsed := ParseSetPresentOrValidateDisplayResult(length, m);
      } else {
        parsed := false;
      }
    }

    /** One round of the parse loop; `more` is false when the loop is left. */
    method ParseNext() returns (more: bool)
      requires Valid() && AtBoundary() && Keyed(Abs()) && !IsEmpty() && NoWrap()
      modifies this`dataRead, this`commandBegin, this`commandEnd, this`seen, this`locations
      modifies this`errors, this`displays, this`returnData, this`current, this`dups, this`ledger
      ensures Valid() && AtBoundary() && Keyed(Abs())
      ensures more ==> dataRead > old(dataRead)
      ensures ParseWords(old(Rest()), dataHandles, dup, old(Abs()))
              == if more then ParseWords(Rest(), dataHandles, dup, Abs())
                 else Parsed(Abs(), if IsEmpty() then NO_ERROR else NO_RESOURCES)
    {
      hide Keyed, Located, Flatten, ReadMessage, Accepts, Outcome, ParseWords, WholeCommand, FirstFrame, AfterFirst;
      ParseOne(Rest(), dataHandles, dup, Abs());
      var ok, command, length := BeginCommand();
      if !ok {
        return false;
      }
      more := ParseCommand(command, length, Pending(command));
      EndCommand();
    }

    /** Parses the batch at hand, discarding all that earlier batches left behind. */
    method Parse() returns (error: int32)
      requires Valid() && AtBoundary() && Keyed(Abs()) && NoWrap()
      modifies this`dataRead, this`commandBegin, this`commandEnd, this`seen, this`locations
      modifies this`errors, this`displays, this`returnData, this`current, this`dups, this`ledger
      ensures Valid() && AtBoundary() && Keyed(Abs())
      ensures Parsed(Abs(), error) == ReaderState.Parse(old(Abs()), old(Rest()), dataHandles, dup)
    {
      hide Keyed, Located, Flatten, ParseWords, ReaderState.ResetData, Held;
      ghost var goal := ReaderState.Parse(Abs(), Rest(), dataHandles, dup);
      ResetData();
      var more := true;
      while more && !IsEmpty()
        invariant Valid() && AtBoundary() && Keyed(Abs())
        invariant goal == if more then ParseWords(Rest(), dataHandles, dup, Abs())
                          else Parsed(Abs(), if IsEmpty() then NO_ERROR else NO_RESOURCES)
        decreases more, dataSize - dataRead
      {
        more := ParseNext();
      }
      error := if IsEmpty() then NO_ERROR else NO_RESOURCES;
      NoWordsLeft(Rest(), dataHandles, dup, Abs());
    }

    /** Forgets all results; the descriptors they hold are closed. */
    method ResetData()
      requires Keyed(Abs())
      modifies this`errors, this`displays, this`returnData, this`current, this`ledger
      ensures Abs() == ReaderState.ResetData(old(Abs())) && Keyed(Abs())
    {
      errors := [];
      CloseHeld();
      displays, returnData := [], map[];
      current := None;
    }

    method CloseHeld()
      requires Keyed(Abs())
      modifies this`ledger
      ensures ledger == old(ledger).(closed := old(ledger).closed + Held(displays, returnData))
    {
      hide HeldBy, Bag;
      for i := 0 to |displays|
        invariant ledger == old(ledger).(closed := old(ledger).closed + Held(displays[..i], returnData))
      {
        assert displays[..i + 1][..i] == displays[..i];
        CloseHeldBy(returnData[displays[i]]);
      }
      assert displays[..|displays|] == displays;
    }

    method CloseHeldBy(rd: ReturnData)
      modifies this`ledger
      ensures ledger == old(ledger).(closed := old(ledger).closed + HeldBy(rd))
    {
      hide Bag, BagTo;
      HeldByParts(rd);
      Close(rd.presentFence);
      ghost var start := ledger.closed;
      for i := 0 to |rd.releaseFences|
        invariant ledger == old(ledger).(closed := start + BagTo(rd.releaseFences, i))
      {
        OneMoreFd(rd.releaseFences, i);
        Close(rd.releaseFences[i]);
      }
    }

    // -------------------------------------------------------------- taking results out

    method TakeErrors() returns (taken: seq<CommandError>)
      modifies this`errors
      ensures taken == old(errors) && Abs() == ReaderState.TakeErrors(old(Abs()))
      ensures old(Keyed(Abs())) ==> Keyed(Abs())
    {
      taken := errors;
      errors := [];
    }

    /** The counts are the lengths of the lists a following take returns. */
    method HasChanges(display: uint64) returns (changes: bool, numTypes: nat, numMasks: nat)
      ensures display in returnData ==> numTypes == |returnData[display].compositionTypes|
      ensures display in returnData ==> numMasks == |returnData[display].requestMasks|
      ensures display !in returnData ==> numTypes == numMasks == 0
      ensures changes <==> numTypes + numMasks > 0
    {
      if display !in returnData {
        return false, 0, 0;
      }
      var rd := returnData[display];
      return !(rd.compositionTypes == [] && rd.requestMasks == []), |rd.compositionTypes|, |rd.requestMasks|;
    }

    method TakeChangedCompositionTypes(display: uint64) returns (layers: seq<uint64>, types: seq<int32>)
      modifies this`returnData
      ensures Abs() == ReaderState.TakeChangedTypes(old(Abs()), display)
      ensures old(Keyed(Abs())) ==> Keyed(Abs())
      ensures if display in old(returnData)
              then var rd := old(returnData)[display]; layers == rd.changedLayers && types == rd.compositionTypes
              else layers == [] && types == []
    {
      if display !in returnData {
        return [], [];
      }
      var rd := returnData[display];
      layers, types := rd.changedLayers, rd.compositionTypes;
      returnData := returnData[display := rd.(changedLayers := [], compositionTypes := [])];
    }

    method TakeDisplayRequests(display: uint64) returns (mask: uint32, layers: seq<uint64>, masks: seq<uint32>)
      modifies this`returnData
      ensures Abs() == ReaderState.TakeRequests(old(Abs()), display)
      ensures old(Keyed(Abs())) ==> Keyed(Abs())
      ensures if display in old(returnData)
              then var rd := old(returnData)[display];
                   mask == rd.displayRequests && layers == rd.requestedLayers && masks == rd.requestMasks
              else mask == 0 && layers == [] && masks == []
    {
      if display !in returnData {
        return 0, [], [];
      }
      var rd := returnData[display];
      mask, layers, masks := rd.displayRequests, rd.requestedLayers, rd.requestMasks;
      returnData := returnData[display := rd.(requestedLayers := [], requestMasks := [])];
    }

    /** Ownership of the fences passes to the caller. */
    method TakeReleaseFences(display: uint64) returns (layers: seq<uint64>, fences: seq<int>)
      modifies this`returnData, this`ledger
      ensures Abs() == ReaderState.TakeReleaseFences(old(Abs()), display)
      ensures old(Keyed(Abs())) ==> Keyed(Abs())
      ensures if display in old(returnData)
              then var rd := old(returnData)[display]; layers == rd.releasedLayers && fences == rd.releaseFences
              else layers == [] && fences == []
    {
      if display !in returnData {
        return [], [];
      }
      var rd := returnData[display];
      layers, fences := rd.releasedLayers, rd.releaseFences;
      returnData := returnData[display := rd.(releasedLayers := [], releaseFences := [])];
      ledger := ledger.(handedOut := ledger.handedOut + Bag(fences));
    }

    /** The caller closes descriptors it was handed. */
    ghost method CloseTaken(fds: multiset<int>)
      requires fds <= ledger.handedOut
      modifies this`ledger
      ensures ledger == Settle(old(ledger), fds)
    {
      ledger := Settle(ledger, fds);
    }

    method TakePresentFence(display: uint64) returns (fence: int)
      modifies this`returnData, this`ledger
      ensures Abs() == ReaderState.TakePresentFence(old(Abs()), display)
      ensures old(Keyed(Abs())) ==> Keyed(Abs())
      ensures fence == if display in old(returnData) then old(returnData)[display].presentFence else -1
    {
      if display !in returnData {
        return -1;
      }
      var rd := returnData[display];
      fence := rd.presentFence;
      returnData := returnData[display := rd.(presentFence := -1)];
      ledger := ledger.(handedOut := ledger.handedOut + Bag([fence]));
    }

    /** `indeterminate` is whatever an entry no result was reported for happens to contain. */
    method TakePresentOrValidateStage(display: uint64, indeterminate: uint32) returns (state: uint32)
      ensures state == if display !in returnData then UINT32_MAX
                       else if returnData[display].presentOrValidateState.None? then indeterminate
                       else returnData[display].presentOrValidateState.value
    {
      if display !in returnData {
        return UINT32_MAX;
      }
      var found := returnData[display].presentOrValidateState;
      state := if found.Some? then found.value else indeterminate;
    }
  }
}
