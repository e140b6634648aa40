/** The writer: a growable buffer of words, a table of handles, and the temporary handles
    that own the fences entrusted to it. */
module CommandWriters {
  import opened Words
  import opened Wire
  import opened Commands
  import opened Responses
  import opened MessageQueues

  /** The capacity after making room for `needed` words; the doubling shift drops the top bit. */
  function Grown(maxSize: uint32, needed: uint32): (size: uint32)
    ensures needed <= size && maxSize <= size
    ensures maxSize < needed && maxSize < 0x8000_0000 ==> 2 * maxSize <= size
    ensures size == maxSize || size == needed || size == 2 * maxSize
    ensures needed <= maxSize ==> size == maxSize
  {
    var doubled := maxSize * 2 % 0x1_0000_0000;
    if needed <= maxSize then maxSize
    else if doubled < needed then needed
    else doubled
  }

  /** A run of growth requests on a buffer: each adds words at some fill level. */
  datatype Request = Request(written: uint32, grow: uint32)

  /** Capacity after a run, the words copied along the way, and whether every capacity that was
      grown fitted the doubling shift. */
  datatype Usage = Usage(maxSize: uint32, copied: nat, shiftFits: bool)

  function Grow(u: Usage, r: Request): Usage {
    if r.written + r.grow <= u.maxSize || r.written + r.grow > UINT32_MAX then u
    else Usage(Grown(u.maxSize, r.written + r.grow), u.copied + r.written,
               u.shiftFits && u.maxSize < 0x8000_0000)
  }

  /** The usage after the first n requests of a run. */
  function After(initial: uint32, run: seq<Request>, n: nat): Usage
    requires n <= |run|
  {
    if n == 0 then Usage(initial, 0, true) else Grow(After(initial, run, n - 1), run[n - 1])
  }

  /** All the words ever copied while growing fit the given capacity. */
  predicate Amortised(u: Usage, maxSize: uint32) {
    u.maxSize == maxSize && (u.shiftFits ==> u.copied <= maxSize)
  }

  /** A run a writer can make: the words written always fit the buffer. */
  predicate Possible(initial: uint32, run: seq<Request>, n: nat)
    requires n <= |run|
  {
    n == 0 || (Possible(initial, run, n - 1) && run[n - 1].written <= After(initial, run, n - 1).maxSize)
  }

  /** Growth is amortised: over the writer's whole life, the words copied while growing never
      exceed the capacity reached, as long as no capacity was too large to double. */
  lemma {:induction false} GrowthIsAmortised(initial: uint32, run: seq<Request>, n: nat)
    requires n <= |run| && Possible(initial, run, n)
    ensures initial <= After(initial, run, n).maxSize
    ensures After(initial, run, n).shiftFits ==>
              After(initial, run, n).copied <= After(initial, run, n).maxSize
  {
    if n > 0 { GrowthIsAmortised(initial, run, n - 1); }
  }

  /** The fence that reaches the peer: none at all when no temporary handle could be made. */
  function Delivered(fence: int, handleOk: bool): int { if handleOk then fence else -1 }

  /** What is delivered of each fence in a list, given which handles could be made. */
  predicate Deliveries(delivered: seq<int>, given: seq<int>, handlesOk: seq<bool>) {
    |delivered| == |given| == |handlesOk|
    && forall i | 0 <= i < |given| :: delivered[i] == Delivered(given[i], handlesOk[i])
  }

  /** A list of words cut short, or padded with zeros, to the given length. */
  function Fit(words: seq<uint32>, length: nat): (fitted: seq<uint32>)
    ensures |fitted| == length
    ensures forall i | 0 <= i < length :: fitted[i] == if i < |words| then words[i] else 0
  {
    if |words| >= length then words[..length] else words + seq(length - |words|, _ => 0)
  }

  /** Fitting the words of a whole buffer fits the arguments of the command that ends it. */
  lemma FitSuffix(before: seq<uint32>, args: seq<uint32>, length: nat)
    ensures Fit(before + args, |before| + length) == before + Fit(args, length)
    ensures |args| == length ==> Fit(args, length) == args
  {
  }

  // ---------------------------------------------------------------- custody of fences

  /** Every fence entrusted to the writer, and every one it has closed. */
  datatype FenceLedger = FenceLedger(received: multiset<int>, closed: multiset<int>)

  /** The temporary handles, each owning the fence inside it, and the ledger. */
  datatype Custody = Custody(temporary: seq<Handle>, fences: FenceLedger)

  function OwnedFds(handles: seq<Handle>): seq<int> {
    if handles == [] then [] else OwnedFds(handles[..|handles| - 1]) + handles[|handles| - 1].fds
  }

  /** Each fence received is owned by one temporary handle or has been closed. */
  ghost predicate InCustody(c: Custody) {
    c.fences.received == c.fences.closed + Bag(OwnedFds(c.temporary))
  }

  /** Every temporary handle can be found in the table the peer will be given. */
  ghost predicate Backed(temporary: seq<Handle>, table: HandleTable) {
    forall h | h in temporary :: Some(h) in table
  }

  /** The temporary handle a delivered fence is wrapped in. */
  function Wrapped(delivered: int): seq<Handle> {
    if delivered >= 0 then [Handle([delivered], 0)] else []
  }

  /** What becomes of a fence: wrapped, and open until the next reset, when a handle can be made, and
      closed at once when none can. */
  function Entrust(c: Custody, fence: int, handleOk: bool): Custody {
    Custody(c.temporary + Wrapped(Delivered(fence, handleOk)),
            FenceLedger(With(c.fences.received, fence),
                        if handleOk then c.fences.closed else With(c.fences.closed, fence)))
  }

  /** A fence that is sent is open in a handle of its own; one that is not is closed, once. */
  lemma SentFencesStayOpen(c: Custody, fence: int, handleOk: bool)
    requires fence >= 0
    ensures var d := Entrust(c, fence, handleOk);
            && d.fences.received == c.fences.received + multiset{fence}
            && (handleOk ==> Delivered(fence, handleOk) == fence && FenceHandle(fence) == Some(Handle([fence], 0))
                             && d.temporary == c.temporary + [Handle([fence], 0)]
                             && d.fences.closed == c.fences.closed)
            && (!handleOk ==> Delivered(fence, handleOk) == -1 && FenceHandle(-1) == None
                              && d.temporary == c.temporary && d.fences.closed == c.fences.closed + multiset{fence})
  {
  }

  /** The same for the first n fences of a list. */
  function EntrustTo(c: Custody, given: seq<int>, handlesOk: seq<bool>, n: nat): Custody
    requires n <= |given| && n <= |handlesOk|
  {
    if n == 0 then c else Entrust(EntrustTo(c, given, handlesOk, n - 1), given[n - 1], handlesOk[n - 1])
  }

  lemma OwnedSnoc(handles: seq<Handle>, h: Handle)
    ensures Bag(OwnedFds(handles + [h])) == Bag(OwnedFds(handles)) + Bag(h.fds)
  {
    assert (handles + [h])[..|handles|] == handles;
    BagAppend(OwnedFds(handles), h.fds);
  }

  /** The fences of a list that have been written are the writer's, and no others. */
  lemma {:induction false} EntrustToReceives(c: Custody, given: seq<int>, handlesOk: seq<bool>, n: nat)
    requires n <= |given| && n <= |handlesOk|
    ensures EntrustTo(c, given, handlesOk, n).fences.received == c.fences.received + BagTo(given, n)
  {
    if n > 0 { EntrustToReceives(c, given, handlesOk, n - 1); }
  }

  lemma EntrustInCustody(c: Custody, fence: int, handleOk: bool)
    requires InCustody(c)
    ensures InCustody(Entrust(c, fence, handleOk))
  {
    if Delivered(fence, handleOk) >= 0 {
      OwnedSnoc(c.temporary, Handle([fence], 0));
      BagOne(fence);
    } else {
      assert c.temporary + [] == c.temporary;
    }
  }

  lemma BackedMore(temporary: seq<Handle>, table: HandleTable, more: HandleTable)
    requires Backed(temporary, table)
    ensures Backed(temporary, table + more)
  {
  }

  lemma EntrustBacked(c: Custody, table: HandleTable, fence: int, handleOk: bool)
    requires Backed(c.temporary, table)
    ensures Backed(Entrust(c, fence, handleOk).temporary, table + FenceEntry(Delivered(fence, handleOk)))
  {
  }

  // ---------------------------------------------------------------- buffer and region commands

  /** The words that follow the buffer and the fence. */
  function Tail(c: Command): seq<uint32> {
    if c.SetClientTarget? then [ToWord(c.dataspace)] + RegionWords(Sent(c.damage, TARGET_RECT_LIMIT)) else []
  }

  lemma BufferWords(c: Command, slot: uint32, buffer: Option<Handle>, fence: int, base: nat)
    requires || (c.SetClientTarget? && c == Command.SetClientTarget(slot, buffer, fence, c.dataspace, c.damage))
             || c == Command.SetOutputBuffer(slot, buffer, fence) || c == Command.SetLayerBuffer(slot, buffer, fence)
    requires Room(base, |Listed(buffer)| + |FenceEntry(fence)|) && WellFormed(c) && HandleRoom(c, base)
    ensures 3 + |Tail(c)| <= MAX_LENGTH
    ensures Args(c, base) == BufferArgs(slot, buffer, fence, base) + Tail(c)
  {
    hide Listed, FenceEntry, BufferArgs, RegionWords;
    var args := BufferArgs(slot, buffer, fence, base);
    if c.SetClientTarget? {
      var head, region := [ToWord(c.dataspace)], RegionWords(Sent(c.damage, TARGET_RECT_LIMIT));
      assert args + head + region == args + (head + region);
    } else {
      assert args + [] == args;
    }
  }

  /** What encoding a command with a buffer and a fence comes to. */
  lemma BufferEncoding(c: Command, slot: uint32, buffer: Option<Handle>, fence: int, table: HandleTable)
    requires || (c.SetClientTarget? && c == Command.SetClientTarget(slot, buffer, fence, c.dataspace, c.damage))
             || c == Command.SetOutputBuffer(slot, buffer, fence) || c == Command.SetLayerBuffer(slot, buffer, fence)
    requires Room(|table|, |Listed(buffer)| + |FenceEntry(fence)|)
    ensures WellFormed(c) && HandleRoom(c, |table|) && 3 + |Tail(c)| <= MAX_LENGTH
    ensures Encode(c, |table|) == Frame(Code(OpcodeOf(c)), BufferArgs(slot, buffer, fence, |table|) + Tail(c))
    ensures table + Pushed(c) == table + Listed(buffer) + FenceEntry(fence)
  {
    hide Listed, FenceEntry, BufferArgs, RegionWords, Code, Args;
    assert Pushed(c) == Listed(buffer) + FenceEntry(fence);
    assert table + (Listed(buffer) + FenceEntry(fence)) == table + Listed(buffer) + FenceEntry(fence);
    BufferWords(c, slot, buffer, fence, |table|);
  }

  // ---------------------------------------------------------------- lists

  lemma FirstChunk(op: uint16, prefix: seq<uint32>, layers: seq<uint64>, words: seq<uint32>, limit: nat,
                   at: nat, total: nat)
    requires at < total <= |layers| && total <= |words| && 0 < limit && |prefix| + 3 * limit <= MAX_LENGTH
    ensures var next := at + Min(total - at, limit);
            Chunks(op, prefix, layers, words, limit, at, total)
            == [Frame(op, prefix + Triples(layers, words, at, next))]
               + Chunks(op, prefix, layers, words, limit, next, total)
  {
    hide Triples;
  }

  lemma FlattenCons(f: Frame, rest: seq<Frame>)
    ensures |Flatten([f] + rest)| == 1 + |f.args| + |Flatten(rest)|
  {
    assert ([f] + rest)[1..] == rest;
  }

  /** Moving the next command of a list from what is left to what is written. */
  lemma NextChunk(done: seq<Frame>, rest: seq<Frame>, all: seq<Frame>, op: uint16, prefix: seq<uint32>,
                  layers: seq<uint64>, words: seq<uint32>, limit: nat, at: nat, total: nat)
    returns (f: Frame, left: seq<Frame>)
    requires at < total <= |layers| && total <= |words| && 0 < limit && |prefix| + 3 * limit <= MAX_LENGTH
    requires rest == Chunks(op, prefix, layers, words, limit, at, total) && done + rest == all
    requires |Flatten(done)| + |Flatten(rest)| <= UINT32_MAX
    ensures f == Frame(op, prefix + Triples(layers, words, at, at + Min(total - at, limit)))
    ensures left == Chunks(op, prefix, layers, words, limit, at + Min(total - at, limit), total)
    ensures done + [f] + left == all
    ensures |Flatten(done)| + 1 + |f.args| <= UINT32_MAX
    ensures |Flatten(done + [f])| + |Flatten(left)| <= UINT32_MAX
  {
    hide Chunks, Flatten, Header, Triples;
    FirstChunk(op, prefix, layers, words, limit, at, total);
    f, left := rest[0], rest[1..];
    FlattenSnoc(done, f);
    FlattenCons(f, left);
    assert rest == [f] + left;
  }

  lemma ChunksEnd(op: uint16, prefix: seq<uint32>, layers: seq<uint64>, words: seq<uint32>, limit: nat, total: nat)
    requires total <= |layers| && total <= |words| && 0 < limit && |prefix| + 3 * limit <= MAX_LENGTH
    ensures Chunks(op, prefix, layers, words, limit, total, total) == []
  {
  }

  lemma NextTriple(layers: seq<uint64>, words: seq<uint32>, from: nat, i: nat)
    requires from <= i < |layers| && i < |words|
    ensures Triples(layers, words, from, i) + [Low(layers[i]), High(layers[i]), words[i]]
            == Triples(layers, words, from, i + 1)
  {
  }

  /** What writing fences changes: the arguments of the open command, the table, the custody. */
  datatype Progress = Progress(args: seq<uint32>, table: HandleTable, custody: Custody)

  /** One more (layer, fence) pair. */
  function PairStep(p: Progress, layer: uint64, fence: int, handleOk: bool): Progress {
    Progress(p.args + [Low(layer), High(layer), StepWord(p, Delivered(fence, handleOk))],
             p.table + FenceEntry(Delivered(fence, handleOk)), Entrust(p.custody, fence, handleOk))
  }

  function StepWord(p: Progress, delivered: int): uint32 {
    if delivered >= 0 ==> |p.table| < MAX_HANDLES then FenceWord(delivered, |p.table|) else 0
  }

  function PairRun(p: Progress, layers: seq<uint64>, given: seq<int>, handlesOk: seq<bool>, from: nat, end: nat)
    : Progress
    requires from <= end <= |layers| && end <= |given| == |handlesOk|
    decreases end
  {
    if from == end then p
    else PairStep(PairRun(p, layers, given, handlesOk, from, end - 1),
                  layers[end - 1], given[end - 1], handlesOk[end - 1])
  }

  lemma PairStepGrows(p: Progress, layer: uint64, fence: int, handleOk: bool)
    ensures |PairStep(p, layer, fence, handleOk).table| == |p.table| + if Delivered(fence, handleOk) >= 0 then 1 else 0
    ensures |PairStep(p, layer, fence, handleOk).args| == |p.args| + 3
  {
  }

  lemma {:induction false} PairRunGrows(p: Progress, layers: seq<uint64>, given: seq<int>, handlesOk: seq<bool>,
                                        from: nat, mid: nat, end: nat)
    requires from <= mid <= end <= |layers| && end <= |given| == |handlesOk|
    ensures |PairRun(p, layers, given, handlesOk, from, mid).table|
            <= |PairRun(p, layers, given, handlesOk, from, end).table|
    decreases end
  {
    hide PairStep;
    if mid < end {
      PairRunGrows(p, layers, given, handlesOk, from, mid, end - 1);
      PairStepGrows(PairRun(p, layers, given, handlesOk, from, end - 1),
                    layers[end - 1], given[end - 1], handlesOk[end - 1]);
    }
  }

  lemma {:induction false} PairRunLength(p: Progress, layers: seq<uint64>, given: seq<int>, handlesOk: seq<bool>,
                                         from: nat, end: nat)
    requires from <= end <= |layers| && end <= |given| == |handlesOk|
    ensures |PairRun(p, layers, given, handlesOk, from, end).args| == |p.args| + 3 * (end - from)
    decreases end
  {
    hide PairStep;
    if from < end {
      PairRunLength(p, layers, given, handlesOk, from, end - 1);
      PairStepGrows(PairRun(p, layers, given, handlesOk, from, end - 1),
                    layers[end - 1], given[end - 1], handlesOk[end - 1]);
    }
  }

  lemma {:induction false} PairRunTable(p: Progress, table: HandleTable, layers: seq<uint64>, given: seq<int>,
                                        handlesOk: seq<bool>, delivered: seq<int>, from: nat, end: nat)
    requires from <= end <= |layers| && end <= |given| && Deliveries(delivered, given, handlesOk)
    requires p.table == table + FenceTable(delivered, from)
    ensures PairRun(p, layers, given, handlesOk, from, end).table == table + FenceTable(delivered, end)
    decreases end
  {
    if from < end {
      PairRunTable(p, table, layers, given, handlesOk, delivered, from, end - 1);
      TableStep(table, delivered, end - 1);
    }
  }

  lemma TableStep(table: HandleTable, delivered: seq<int>, i: nat)
    requires i < |delivered|
    ensures table + FenceTable(delivered, i) + FenceEntry(delivered[i]) == table + FenceTable(delivered, i + 1)
  {
  }

  lemma {:induction false} PairRunCustody(p: Progress, custody: Custody, layers: seq<uint64>, given: seq<int>,
                                          handlesOk: seq<bool>, from: nat, end: nat)
    requires from <= end <= |layers| && end <= |given| == |handlesOk|
    requires p.custody == EntrustTo(custody, given, handlesOk, from)
    ensures PairRun(p, layers, given, handlesOk, from, end).custody == EntrustTo(custody, given, handlesOk, end)
    decreases end
  {
    hide Entrust;
    if from < end { PairRunCustody(p, custody, layers, given, handlesOk, from, end - 1); }
  }

  lemma {:induction false} PairRunBacked(p: Progress, layers: seq<uint64>, given: seq<int>, handlesOk: seq<bool>,
                                         from: nat, end: nat)
    requires from <= end <= |layers| && end <= |given| == |handlesOk| && Backed(p.custody.temporary, p.table)
    ensures var q := PairRun(p, layers, given, handlesOk, from, end); Backed(q.custody.temporary, q.table)
    decreases end
  {
    hide Backed, Entrust, FenceEntry;
    if from < end {
      PairRunBacked(p, layers, given, handlesOk, from, end - 1);
      var q := PairRun(p, layers, given, handlesOk, from, end - 1);
      EntrustBacked(q.custody, q.table, given[end - 1], handlesOk[end - 1]);
    }
  }

  /** Each word refers to the handles of the fences before it. */
  ghost predicate Refer(words: seq<uint32>, delivered: seq<int>, base: nat, n: nat) {
    n <= |words| && n <= |delivered| &&
    forall i {:trigger words[i]} | 0 <= i < n ::
      (delivered[i] >= 0 ==> base + |FenceTable(delivered, i)| < MAX_HANDLES) &&
      words[i] == FenceWord(delivered[i], base + |FenceTable(delivered, i)|)
  }

  lemma FenceWordsRefer(delivered: seq<int>, base: nat, n: nat)
    requires n <= |delivered| && Room(base, |FenceTable(delivered, n)|)
    ensures Refer(FenceWords(delivered, base, n), delivered, base, n)
  {
    forall i | 0 <= i < n
      ensures (delivered[i] >= 0 ==> base + |FenceTable(delivered, i)| < MAX_HANDLES) &&
              FenceWords(delivered, base, n)[i] == FenceWord(delivered[i], base + |FenceTable(delivered, i)|)
    {
      FenceWordAt(delivered, base, n, i);
    }
  }

  /** Each word is the one the run writes when it gets there. */
  ghost predicate Follows(p: Progress, layers: seq<uint64>, given: seq<int>, handlesOk: seq<bool>,
                          words: seq<uint32>, from: nat, end: nat)
    requires from <= end <= |layers| && end <= |given| == |handlesOk| && end <= |words|
  {
    forall i {:trigger words[i]} | from <= i < end ::
      words[i] == StepWord(PairRun(p, layers, given, handlesOk, from, i), Delivered(given[i], handlesOk[i]))
  }

  lemma {:induction false} PairRunFollows(p: Progress, layers: seq<uint64>, given: seq<int>, handlesOk: seq<bool>,
                                          words: seq<uint32>, from: nat, end: nat)
    requires from <= end <= |layers| && end <= |given| == |handlesOk| && end <= |words|
    requires p.args == [] && Follows(p, layers, given, handlesOk, words, from, end)
    ensures PairRun(p, layers, given, handlesOk, from, end).args == Triples(layers, words, from, end)
    decreases end
  {
    if from < end { PairRunFollows(p, layers, given, handlesOk, words, from, end - 1); }
  }

  /** Writing a stretch of a fence list adds the stretch of its encoding. */
  lemma PairRunArgs(p: Progress, table: HandleTable, layers: seq<uint64>, given: seq<int>,
                    handlesOk: seq<bool>, delivered: seq<int>, words: seq<uint32>, from: nat, end: nat)
    requires from <= end <= |layers| && end <= |given| && Deliveries(delivered, given, handlesOk)
    requires Refer(words, delivered, |table|, end)
    requires p.table == table + FenceTable(delivered, from) && p.args == []
    ensures PairRun(p, layers, given, handlesOk, from, end).args == Triples(layers, words, from, end)
  {
    forall i | from <= i < end
      ensures words[i] == StepWord(PairRun(p, layers, given, handlesOk, from, i), Delivered(given[i], handlesOk[i]))
    {
      PairRunTable(p, table, layers, given, handlesOk, delivered, from, i);
    }
    PairRunFollows(p, layers, given, handlesOk, words, from, end);
  }

  /** A fence list to be written: what of it will reach the peer, as which words, and the table and
      the custody it starts from. */
  datatype FencePlan = FencePlan(total: nat, delivered: seq<int>, words: seq<uint32>, table: HandleTable,
                                 custody: Custody)

  ghost predicate Planned(plan: FencePlan, layers: seq<uint64>, given: seq<int>, handlesOk: seq<bool>) {
    && plan.total <= |layers| && plan.total <= |given| && Deliveries(plan.delivered, given, handlesOk)
    && |plan.table| + |FenceTable(plan.delivered, plan.total)| <= MAX_HANDLES
    && plan.words == FenceWords(plan.delivered, |plan.table|, plan.total)
  }

  /** The table and the custody once the fences before a position have been written. */
  ghost predicate SoFar(plan: FencePlan, given: seq<int>, handlesOk: seq<bool>, at: nat,
                        table: HandleTable, custody: Custody) {
    && at <= |plan.delivered| && at <= |given| && at <= |handlesOk|
    && table == plan.table + FenceTable(plan.delivered, at)
    && custody == EntrustTo(plan.custody, given, handlesOk, at)
  }

  /** The commands of the list still to be written. */
  ghost predicate Left(plan: FencePlan, layers: seq<uint64>, limit: nat, at: nat, left: seq<Frame>) {
    && at <= plan.total <= |layers| && plan.total <= |plan.words| && 0 < limit <= PAIR_LIMIT
    && left == Chunks(Code(OpSetReleaseFences), [], layers, plan.words, limit, at, plan.total)
  }

  lemma NextLeft(done: seq<Frame>, rest: seq<Frame>, all: seq<Frame>, plan: FencePlan, layers: seq<uint64>,
                 limit: nat, at: nat)
    returns (f: Frame, left: seq<Frame>)
    requires Left(plan, layers, limit, at, rest) && at < plan.total && done + rest == all
    requires |Flatten(done)| + |Flatten(rest)| <= UINT32_MAX
    ensures var next := at + Min(plan.total - at, limit);
            && Left(plan, layers, limit, next, left)
            && f == Frame(Code(OpSetReleaseFences), Triples(layers, plan.words, at, next))
            && |f.args| == 3 * (next - at)
    ensures done + [f] + left == all && |Flatten(done)| + 1 + |f.args| <= UINT32_MAX
    ensures |Flatten(done + [f])| + |Flatten(left)| <= UINT32_MAX
  {
    hide Chunks, Triples, Flatten, Code;
    f, left := NextChunk(done, rest, all, Code(OpSetReleaseFences), [], layers, plan.words, limit, at, plan.total);
    assert [] + Triples(layers, plan.words, at, at + Min(plan.total - at, limit)) == f.args;
  }

  /** The command being written, with more arguments. */
  function Extend(c: OpenCommand, words: seq<uint32>): OpenCommand { c.(args := c.args + words) }

  lemma ExtendTwice(c: OpenCommand, a: seq<uint32>, b: seq<uint32>)
    ensures Extend(Extend(c, a), b) == Extend(c, a + b) && Extend(c, []) == c
  {
    assert c.args + a + b == c.args + (a + b);
  }

  lemma ExtendThrice(c: OpenCommand, a: uint32, b: uint32, d: uint32)
    ensures Extend(Extend(Extend(c, [a]), [b]), [d]) == Extend(c, [a, b, d])
  {
    assert c.args + [a] + [b] + [d] == c.args + [a, b, d];
  }

  /** A command being written: what its header announced, and the arguments so far. */
  datatype OpenCommand = OpenCommand(op: uint16, length: uint16, args: seq<uint32>)

  class CommandWriter {
    var dataMaxSize: uint32
    var data: array<uint32>
    var dataWritten: uint32
    var commandEnd: uint32
    var dataHandles: HandleTable
    var temporaryHandles: seq<Handle>
    var queue: MessageQueue?

    /** The finished commands in the buffer, and the one being written. */
    ghost var frames: seq<Frame>
    ghost var open: OpenCommand

    ghost var fences: FenceLedger

    /** The growth so far. */
    ghost var usage: Usage

    ghost function Kept(): Custody
      reads this
    {
      Custody(temporaryHandles, fences)
    }

    /** What holds inside and outside of commands. */
    ghost predicate Owned()
      reads this, data
    {
      && data.Length == dataMaxSize && dataWritten <= dataMaxSize
      && InCustody(Kept()) && Amortised(usage, dataMaxSize)
    }

    /** Between commands: the buffer holds exactly the finished commands, and the table every
        temporary handle. */
    ghost predicate Valid()
      reads this, data
    {
      && Owned() && commandEnd == 0 && data[..dataWritten] == Flatten(frames)
      && Backed(temporaryHandles, dataHandles)
    }

    /** Inside a command: the buffer also holds its header and the arguments so far. */
    ghost predicate Writing()
      reads this, data
    {
      && Owned() && commandEnd <= dataMaxSize
      && commandEnd == |Flatten(frames)| + 1 + open.length
      && data[..dataWritten] == Flatten(frames) + [Header(open.op, open.length)] + open.args
    }

    predicate CanGrow(words: nat)
      reads this
    {
      dataWritten + words <= UINT32_MAX
    }

    // -------------------------------------------------------------- storage

    constructor (initialMaxSize: uint32)
      ensures Valid() && fresh(data) && dataMaxSize == initialMaxSize && queue == null
      ensures frames == [] && dataHandles == [] && fences == FenceLedger(multiset{}, multiset{})
    {
      dataMaxSize := initialMaxSize;
      data := new uint32[initialMaxSize](_ => 0);
      dataWritten, commandEnd := 0, 0;
      dataHandles, temporaryHandles, queue := [], [], null;
      frames, open := [], OpenCommand(0, 0, []);
      fences, usage := FenceLedger(multiset{}, multiset{}), Usage(initialMaxSize, 0, true);
    }

    /** Empties the writer; the fences it owns are closed, the handles of its callers are not. */
    method Reset()
      requires Owned()
      modifies this`dataWritten, this`commandEnd, this`dataHandles, this`temporaryHandles, this`frames, this`fences
      ensures Valid() && frames == [] && dataWritten == 0 && dataHandles == [] && temporaryHandles == []
      ensures fences == FenceLedger(old(fences).received, old(fences).received)
    {
      dataWritten, commandEnd := 0, 0;
      dataHandles := [];
      frames := [];
      CloseAll(temporaryHandles);
      temporaryHandles := [];
      assert data[..dataWritten] == [];
    }

    method CloseAll(handles: seq<Handle>)
      modifies this`fences
      ensures fences == old(fences).(closed := old(fences).closed + Bag(OwnedFds(handles)))
    {
      for i := 0 to |handles|
        invariant fences == old(fences).(closed := old(fences).closed + Bag(OwnedFds(handles[..i])))
      {
        assert handles[..i + 1][..i] == handles[..i];
        BagAppend(OwnedFds(handles[..i]), handles[i].fds);
        fences := fences.(closed := fences.closed + Bag(handles[i].fds));
      }
      assert handles[..|handles|] == handles;
    }

    method GetCommand(offset: uint32) returns (opcode: uint16)
      requires Valid()
      ensures opcode == OpcodeAt(Flatten(frames), offset)
      ensures opcode == if offset < dataWritten then data[offset] / 0x1_0000 else 0
    {
      var val := if offset < dataWritten then data[offset] else 0;
      assert offset < dataWritten ==> val == data[..dataWritten][offset];
      opcode := HeaderOp(val);
    }

    ghost predicate QueueValid()
      reads this, queue
    {
      queue != null ==> queue.Valid()
    }

    /** True when the present queue is large enough for whatever the buffer may hold. */
    predicate CanReuseQueue()
      reads this
    {
      queue != null && dataMaxSize <= queue.capacity
    }

    /** Puts the batch into the queue, discarding what the peer never read of earlier batches, and
        replacing a queue that is too small.  `queueOk` says whether a new queue can be set up. */
    method WriteQueue(queueOk: bool)
      returns (ok: bool, queueChanged: bool, commandLength: uint32, commandHandles: HandleTable)
      requires Valid() && QueueValid()
      modifies this`queue, queue
      ensures Valid() && QueueValid() && (queue == old(queue) || fresh(queue))
      ensures ok <==> old(CanReuseQueue()) || queueOk
      ensures ok ==> queue != null && queue.contents == Flatten(frames) && CanReuseQueue()
      ensures ok ==> commandLength == |Flatten(frames)| && commandHandles == dataHandles
      ensures ok ==> (queueChanged <==> !old(CanReuseQueue())) && (queueChanged <==> queue != old(queue))
      ensures ok && queueChanged ==> queue.capacity == dataMaxSize
      ensures !ok ==> queue == old(queue)
    {
      ok, queueChanged, commandLength, commandHandles := false, false, 0, [];
      var staleDataSize := 0;
      if queue != null {
        staleDataSize := queue.AvailableToRead();
      }
      if staleDataSize > 0 {
        var _, _ := queue.Read(staleDataSize);
      }
      if queue != null && dataMaxSize <= queue.capacity {
        ok := queue.Write(data[..dataWritten]);
      } else {
        if !queueOk {
          return;
        }
        var newQueue := new MessageQueue(dataMaxSize);
        ok := newQueue.Write(data[..dataWritten]);
        queue, queueChanged := newQueue, true;
      }
      commandLength, commandHandles := dataWritten, dataHandles;
    }

    method GrowData(grow: uint32)
      requires Owned() && CanGrow(grow)
      modifies this`data, this`dataMaxSize, this`usage
      ensures Owned() && dataWritten + grow <= dataMaxSize
      ensures dataMaxSize == Grown(old(dataMaxSize), dataWritten + grow)
      ensures usage == Grow(old(usage), Request(dataWritten, grow))
      ensures data == old(data) || fresh(data)
      ensures data[..dataWritten] == old(data[..dataWritten])
    {
      var newWritten := dataWritten + grow;
      if newWritten <= dataMaxSize {
        return;
      }
      var newMaxSize := dataMaxSize * 2 % 0x1_0000_0000;
      if newMaxSize < newWritten {
        newMaxSize := newWritten;
      }
      var newData := new uint32[newMaxSize](_ => 0);
      forall i | 0 <= i < dataWritten {
        newData[i] := data[i];
      }
      assert newData[..dataWritten] == data[..dataWritten];
      usage := Grow(usage, Request(dataWritten, grow));
      dataMaxSize := newMaxSize;
      data := newData;
    }

    // -------------------------------------------------------------- one command

    /** Writes a header and makes room for what it announces.  A command begun inside another is
        logged by the source and begun all the same; the buffer is then no list of commands. */
    method BeginCommand(command: Opcode, count: uint16)
      requires Owned() && CanGrow(1 + count)
      modifies this`data, this`dataMaxSize, this`usage, this`dataWritten, this`commandEnd
      modifies this`open, data
      ensures Owned() && dataWritten + count == commandEnd <= dataMaxSize
      ensures dataMaxSize == Grown(old(dataMaxSize), old(dataWritten) + 1 + count)
      ensures data[..dataWritten] == old(data[..dataWritten]) + [Header(Code(command), count)]
      ensures data == old(data) || fresh(data)
      ensures old(Valid()) ==> Writing() && open == OpenCommand(Code(command), count, [])
    {
      hide Flatten, InCustody, Amortised, Backed;
      GrowData(1 + count);
      ghost var before := data[..dataWritten];
      open := OpenCommand(Code(command), count, []);
      data[dataWritten] := Header(Code(command), count);
      dataWritten := dataWritten + 1;
      assert data[..dataWritten] == before + [Header(Code(command), count)];
      assert before + [Header(Code(command), count)] + [] == before + [Header(Code(command), count)];
      commandEnd := dataWritten + count;
    }

    /** Closes the command: exactly the announced number of words is kept, cut short or padded
        with zeros where the caller miscounted.  An end without a begin is logged and ignored. */
    method EndCommand()
      requires Owned() && commandEnd <= dataMaxSize
      modifies this`dataWritten, this`commandEnd, this`frames, data
      ensures Owned() && commandEnd == 0
      ensures data[..dataWritten] == if old(commandEnd) == 0 then old(data[..dataWritten])
                                     else Fit(old(data[..dataWritten]), old(commandEnd))
      ensures old(Valid()) ==> Valid() && frames == old(frames)
      ensures old(Writing() && Backed(temporaryHandles, dataHandles)) ==>
                Valid() && frames == old(frames) + [Frame(open.op, Fit(open.args, open.length))]
      ensures |open.args| == open.length ==> Fit(open.args, open.length) == open.args
    {
      hide Flatten, InCustody, Amortised, Backed;
      ghost var words, wasWriting := data[..dataWritten], Writing();
      FitData();
      if wasWriting {
        FitSuffix(Flatten(frames) + [Header(open.op, open.length)], open.args, open.length);
        assert Flatten(frames) + [Header(open.op, open.length)] + Fit(open.args, open.length)
               == Flatten(frames) + FrameWords(Frame(open.op, Fit(open.args, open.length)));
        FlattenSnoc(frames, Frame(open.op, Fit(open.args, open.length)));
        frames := frames + [Frame(open.op, Fit(open.args, open.length))];
      }
      commandEnd := 0;
    }

    /** The three ways to end a command. */
    method FitData()
      requires Owned() && commandEnd <= dataMaxSize
      modifies this`dataWritten, data
      ensures Owned()
      ensures data[..dataWritten] == if commandEnd == 0 then old(data[..dataWritten])
                                     else Fit(old(data[..dataWritten]), commandEnd)
    {
      hide InCustody, Amortised;
      if commandEnd == 0 {
      } else if dataWritten > commandEnd {
        assert data[..commandEnd] == data[..dataWritten][..commandEnd];
        dataWritten := commandEnd;
      } else {
        while dataWritten < commandEnd
          invariant Owned() && old(dataWritten) <= dataWritten <= commandEnd
          invariant data[..dataWritten] == old(data[..dataWritten]) + seq(dataWritten - old(dataWritten), _ => 0)
        {
          data[dataWritten] := 0;
          dataWritten := dataWritten + 1;
        }
      }
    }

    method Write(val: uint32)
      requires Writing() && dataWritten < dataMaxSize
      modifies this`dataWritten, this`open, data
      ensures Writing() && open == Extend(old(open), [val])
      ensures dataWritten == old(dataWritten) + 1
    {
      data[dataWritten] := val;
      dataWritten := dataWritten + 1;
      open := open.(args := open.args + [val]);
    }

    method WriteSigned(val: int32)
      requires Writing() && dataWritten < dataMaxSize
      modifies this`dataWritten, this`open, data
      ensures Writing() && open == Extend(old(open), [ToWord(val)])
      ensures dataWritten == old(dataWritten) + 1
    {
      Write(ToWord(val));
    }

    method Write64(val: uint64)
      requires Writing() && dataWritten + 2 <= dataMaxSize
      modifies this`dataWritten, this`open, data
      ensures Writing() && open == Extend(old(open), [Low(val), High(val)])
      ensures dataWritten == old(dataWritten) + 2
    {
      Write(Low(val));
      Write(High(val));
    }

    method WriteRect(rect: Rect)
      requires Writing() && dataWritten + 4 <= dataMaxSize
      modifies this`dataWritten, this`open, data
      ensures Writing() && open == Extend(old(open), RectWords(rect))
      ensures dataWritten == old(dataWritten) + 4
    {
      hide Flatten, Header, InCustody, Amortised;
      WriteSigned(rect.left);
      WriteSigned(rect.top);
      WriteSigned(rect.right);
      WriteSigned(rect.bottom);
    }

    method WriteRegion(region: seq<Rect>)
      requires Writing() && dataWritten + 4 * |region| <= dataMaxSize
      modifies this`dataWritten, this`open, data
      ensures Writing() && open == Extend(old(open), RegionWords(region))
      ensures dataWritten == old(dataWritten) + 4 * |region|
    {
      hide Flatten, Header, InCustody, Amortised, RectWords;
      for i := 0 to |region|
        invariant Writing() && open == Extend(old(open), RegionWords(region[..i]))
        invariant dataWritten == old(dataWritten) + 4 * i
      {
        WriteRect(region[i]);
        assert region[..i + 1][..i] == region[..i];
      }
      assert region[..|region|] == region;
    }

    /** Ownership of the handle stays with the caller. */
    method WriteHandle(handle: Option<Handle>, useCache: bool)
      requires Writing() && dataWritten < dataMaxSize && Room(|dataHandles|, |Listed(handle)|)
      modifies this`dataWritten, this`open, this`dataHandles, data
      ensures Writing() && open == Extend(old(open), [HandleWord(handle, useCache, |old(dataHandles)|)])
      ensures dataWritten == old(dataWritten) + 1
      ensures dataHandles == old(dataHandles) + Listed(handle)
    {
      hide Flatten, Header, InCustody, Amortised;
      if handle.None? {
        WriteSigned(if useCache then CACHED else EMPTY);
        return;
      }
      dataHandles := dataHandles + [handle];
      WriteSigned(|dataHandles| - 1);
    }

    /** Ownership of the fence passes to the writer.  `handleOk` says whether the temporary handle
        can be allocated; if not, the fence is waited for and closed here and now. */
    method WriteFence(fence: int, handleOk: bool)
      requires Writing() && dataWritten < dataMaxSize
      requires (Delivered(fence, handleOk) >= 0 ==> |dataHandles| < MAX_HANDLES)
      modifies this`dataWritten, this`open, this`dataHandles, this`temporaryHandles
      modifies this`fences, data
      ensures Writing()
      ensures open == Extend(old(open), [FenceWord(Delivered(fence, handleOk), |old(dataHandles)|)])
      ensures dataWritten == old(dataWritten) + 1
      ensures dataHandles == old(dataHandles) + FenceEntry(Delivered(fence, handleOk))
      ensures Kept() == Entrust(old(Kept()), fence, handleOk)
    {
      hide Flatten, InCustody, Amortised, Backed, Entrust;
      var handle := GetFenceHandle(fence, handleOk);
      WriteHandle(handle, false);
    }

    /** Wraps a fence in a temporary handle the writer owns, or closes it when there is none. */
    method GetFenceHandle(fence: int, handleOk: bool) returns (handle: Option<Handle>)
      requires InCustody(Kept())
      modifies this`temporaryHandles, this`fences
      ensures InCustody(Kept()) && handle == FenceHandle(Delivered(fence, handleOk))
      ensures handle == if fence >= 0 && handleOk then Some(Handle([fence], 0)) else None
      ensures temporaryHandles == old(temporaryHandles) + if handle.Some? then [handle.value] else []
      ensures fences.received == old(fences.received) + (if fence >= 0 then multiset{fence} else multiset{})
      ensures fences.closed == old(fences.closed)
                               + if fence >= 0 && handle.None? then multiset{fence} else multiset{}
      ensures Kept() == Entrust(old(Kept()), fence, handleOk)
    {
      EntrustInCustody(Kept(), fence, handleOk);
      hide InCustody;
      handle := None;
      if fence >= 0 {
        fences := fences.(received := fences.received + multiset{fence});
        if handleOk {
          handle := FenceHandle(fence);
          temporaryHandles := temporaryHandles + [handle.value];
        } else {
          fences := fences.(closed := fences.closed + multiset{fence});
        }
      }
    }

    // -------------------------------------------------------------- the client's commands
    //
    // The preconditions are what the writer demands of its callers: a buffer whose size fits a
    // word (it aborts the process otherwise) and a table whose indices fit a signed word.

    /** The shape of every command of fixed length: begin, the words one by one, end. */
    method WriteCommand(command: Opcode, words: seq<uint32>)
      requires Valid() && |words| <= MAX_LENGTH && CanGrow(1 + |words|)
      modifies this`data, this`dataMaxSize, this`usage, this`dataWritten, this`commandEnd
      modifies this`open, this`frames, data
      ensures Valid() && (data == old(data) || fresh(data))
      ensures frames == old(frames) + [Frame(Code(command), words)]
      ensures dataMaxSize == Grown(old(dataMaxSize), old(dataWritten) + 1 + |words|)
    {
      hide Flatten, Fit, InCustody, Amortised, Backed, Grown;
      BeginCommand(command, |words|);
      WriteWords(words);
      assert open.args == words;
      EndCommand();
    }

    method WriteWords(words: seq<uint32>)
      requires Writing() && dataWritten + |words| <= dataMaxSize
      modifies this`dataWritten, this`open, data
      ensures Writing() && open == Extend(old(open), words)
      ensures dataWritten == old(dataWritten) + |words|
    {
      hide Extend, Flatten, Header, InCustody, Amortised;
      ExtendTwice(open, [], []);
      for i := 0 to |words|
        invariant Writing() && open == Extend(old(open), words[..i])
        invariant dataWritten == old(dataWritten) + i
      {
        Write(words[i]);
        ExtendTwice(old(open), words[..i], [words[i]]);
        assert words[..i + 1] == words[..i] + [words[i]];
      }
      assert words[..|words|] == words;
    }

    /** The shape of a region command: too many rectangles are sent as none. */
    method WriteRegionCommand(command: Opcode, region: seq<Rect>)
      requires Valid() && CanGrow(1 + 4 * |Sent(region, LAYER_RECT_LIMIT)|)
      modifies this`data, this`dataMaxSize, this`usage, this`dataWritten, this`commandEnd
      modifies this`open, this`frames, data
      ensures Valid() && (data == old(data) || fresh(data))
      ensures frames == old(frames) + [Frame(Code(command), RegionWords(Sent(region, LAYER_RECT_LIMIT)))]
    {
      hide Flatten, Fit, InCustody, Amortised, Backed, RectWords, RegionWords, Header, Code;
      var doWrite := |region| <= MAX_LENGTH / 4;
      BeginCommand(command, if doWrite then |region| * 4 else 0);
      if doWrite {
        WriteRegion(region);
      }
      assert open.args == RegionWords(Sent(region, LAYER_RECT_LIMIT));
      EndCommand();
    }

    /** The shape of a command that carries a buffer and a fence. */
    method WriteBufferCommand(command: Opcode, slot: uint32, buffer: Option<Handle>, fence: int, handleOk: bool,
                              tail: seq<uint32>)
      requires Valid() && 3 + |tail| <= MAX_LENGTH && CanGrow(4 + |tail|)
      requires Room(|dataHandles|, |Listed(buffer)| + |FenceEntry(Delivered(fence, handleOk))|)
      modifies this`data, this`dataMaxSize, this`usage, this`dataWritten, this`commandEnd
      modifies this`open, this`frames, data
      modifies this`dataHandles, this`temporaryHandles, this`fences
      ensures Valid() && (data == old(data) || fresh(data))
      ensures frames == old(frames) + [Frame(Code(command),
                BufferArgs(slot, buffer, Delivered(fence, handleOk), |old(dataHandles)|) + tail)]
      ensures dataHandles == old(dataHandles) + Listed(buffer) + FenceEntry(Delivered(fence, handleOk))
      ensures Kept() == Entrust(old(Kept()), fence, handleOk)
    {
      hide BufferArgs, Flatten, Fit, FenceEntry, Listed, With, InCustody, Amortised, Backed, Header;
      ghost var args := BufferArgs(slot, buffer, Delivered(fence, handleOk), |dataHandles|);
      BeginCommand(command, 3 + |tail|);
      ghost var custody, table := Kept(), dataHandles;
      WriteBuffer(slot, buffer, fence, handleOk);
      BackedMore(custody.temporary, table, Listed(buffer));
      EntrustBacked(custody, table + Listed(buffer), fence, handleOk);
      assert open.args == args;
      WriteWords(tail);
      EndCommand();
    }

    method WriteHandleCommand(command: Opcode, handle: Option<Handle>)
      requires Valid() && CanGrow(2) && Room(|dataHandles|, |Listed(handle)|)
      modifies this`data, this`dataMaxSize, this`usage, this`dataWritten, this`commandEnd
      modifies this`open, this`frames, this`dataHandles, data
      ensures Valid() && (data == old(data) || fresh(data))
      ensures frames == old(frames) + [Frame(Code(command), [HandleWord(handle, false, |old(dataHandles)|)])]
      ensures dataHandles == old(dataHandles) + Listed(handle)
    {
      hide Flatten, Fit, InCustody, Amortised, Backed, HandleWord;
      BeginCommand(command, 1);
      BackedMore(temporaryHandles, dataHandles, Listed(handle));
      WriteHandle(handle, false);
      assert open.args == [HandleWord(handle, false, |old(dataHandles)|)];
      EndCommand();
    }

    method WriteBuffer(slot: uint32, buffer: Option<Handle>, fence: int, handleOk: bool)
      requires Writing() && dataWritten + 3 <= dataMaxSize
      requires Room(|dataHandles|, |Listed(buffer)| + |FenceEntry(Delivered(fence, handleOk))|)
      modifies this`dataWritten, this`open, this`dataHandles, this`temporaryHandles, this`fences, data
      ensures Writing()
      ensures open == Extend(old(open), BufferArgs(slot, buffer, Delivered(fence, handleOk), |old(dataHandles)|))
      ensures dataWritten == old(dataWritten) + 3
      ensures dataHandles == old(dataHandles) + Listed(buffer) + FenceEntry(Delivered(fence, handleOk))
      ensures Kept() == Entrust(old(Kept()), fence, handleOk)
    {
      hide Flatten, InCustody, Amortised, Backed, Header, Entrust, HandleWord, FenceWord, Delivered;
      ghost var index := HandleWord(buffer, true, |dataHandles|);
      ghost var word := FenceWord(Delivered(fence, handleOk), |dataHandles| + |Listed(buffer)|);
      Write(slot);
      WriteHandle(buffer, true);
      WriteFence(fence, handleOk);
      ExtendThrice(old(open), slot, index, word);
    }

    method SelectDisplay(display: uint64)
      requires Valid() && CanGrow(3)
      modifies this`data, this`dataMaxSize, this`usage, this`dataWritten, this`commandEnd
      modifies this`open, this`frames, data
      ensures Valid() && (data == old(data) || fresh(data))
      ensures frames == old(frames) + [Encode(Command.SelectDisplay(display), |dataHandles|)]
      ensures dataMaxSize == Grown(old(dataMaxSize), old(dataWritten) + 3)
    {
      WriteCommand(OpSelectDisplay, [Low(display), High(display)]);
    }

    method SelectLayer(layer: uint64)
      requires Valid() && CanGrow(3)
      modifies this`data, this`dataMaxSize, this`usage, this`dataWritten, this`commandEnd
      modifies this`open, this`frames, data
      ensures Valid() && (data == old(data) || fresh(data))
      ensures frames == old(frames) + [Encode(Command.SelectLayer(layer), |dataHandles|)]
    {
      WriteCommand(OpSelectLayer, [Low(layer), High(layer)]);
    }

    method SetColorTransform(matrix: seq<uint32>, hint: int32)
      requires Valid() && CanGrow(18)
      requires |matrix| == 16
      modifies this`data, this`dataMaxSize, this`usage, this`dataWritten, this`commandEnd
      modifies this`open, this`frames, data
      ensures Valid() && (data == old(data) || fresh(data))
      ensures frames == old(frames) + [Encode(Command.SetColorTransform(matrix, hint), |dataHandles|)]
    {
      WriteCommand(OpSetColorTransform, matrix + [ToWord(hint)]);
    }

    method SetClientTarget(slot: uint32, target: Option<Handle>, acquireFence: int, handleOk: bool,
                           dataspace: int32, damage: seq<Rect>)
      requires Valid() && CanGrow(5 + 4 * |Sent(damage, TARGET_RECT_LIMIT)|)
      requires Room(|dataHandles|, |Listed(target)| + |FenceEntry(Delivered(acquireFence, handleOk))|)
      modifies this`data, this`dataMaxSize, this`usage, this`dataWritten, this`commandEnd
      modifies this`open, this`frames, data
      modifies this`dataHandles, this`temporaryHandles, this`fences
      ensures Valid() && (data == old(data) || fresh(data))
      ensures var c := Command.SetClientTarget(slot, target, Delivered(acquireFence, handleOk), dataspace, damage);
              frames == old(frames) + [Encode(c, |old(dataHandles)|)] && dataHandles == old(dataHandles) + Pushed(c)
      ensures Kept() == Entrust(old(Kept()), acquireFence, handleOk)
    {
      hide Encode, WellFormed, HandleRoom, BufferArgs, Pushed, Listed, FenceEntry, Delivered, Entrust;
      hide Code, RegionWords;
      var doWrite := |damage| <= (MAX_LENGTH - 4) / 4;
      var tail := [ToWord(dataspace)] + if doWrite then RegionWords(damage) else RegionWords([]);
      ghost var fence := Delivered(acquireFence, handleOk);
      BufferEncoding(Command.SetClientTarget(slot, target, fence, dataspace, damage), slot, target, fence, dataHandles);
      WriteBufferCommand(OpSetClientTarget, slot, target, acquireFence, handleOk, tail);
    }

    method SetOutputBuffer(slot: uint32, buffer: Option<Handle>, releaseFence: int, handleOk: bool)
      requires Valid() && CanGrow(4)
      requires Room(|dataHandles|, |Listed(buffer)| + |FenceEntry(Delivered(releaseFence, handleOk))|)
      modifies this`data, this`dataMaxSize, this`usage, this`dataWritten, this`commandEnd
      modifies this`open, this`frames, data
      modifies this`dataHandles, this`temporaryHandles, this`fences
      ensures Valid() && (data == old(data) || fresh(data))
      ensures var c := Command.SetOutputBuffer(slot, buffer, Delivered(releaseFence, handleOk));
              frames == old(frames) + [Encode(c, |old(dataHandles)|)] && dataHandles == old(dataHandles) + Pushed(c)
      ensures Kept() == Entrust(old(Kept()), releaseFence, handleOk)
    {
      hide Encode, WellFormed, HandleRoom, BufferArgs, Pushed, Listed, FenceEntry, Delivered, Entrust, Code;
      ghost var fence := Delivered(releaseFence, handleOk);
      BufferEncoding(Command.SetOutputBuffer(slot, buffer, fence), slot, buffer, fence, dataHandles);
      WriteBufferCommand(OpSetOutputBuffer, slot, buffer, releaseFence, handleOk, []);
    }

    method SetLayerBuffer(slot: uint32, buffer: Option<Handle>, acquireFence: int, handleOk: bool)
      requires Valid() && CanGrow(4)
      requires Room(|dataHandles|, |Listed(buffer)| + |FenceEntry(Delivered(acquireFence, handleOk))|)
      modifies this`data, this`dataMaxSize, this`usage, this`dataWritten, this`commandEnd
      modifies this`open, this`frames, data
      modifies this`dataHandles, this`temporaryHandles, this`fences
      ensures Valid() && (data == old(data) || fresh(data))
      ensures var c := Command.SetLayerBuffer(slot, buffer, Delivered(acquireFence, handleOk));
              frames == old(frames) + [Encode(c, |old(dataHandles)|)] && dataHandles == old(dataHandles) + Pushed(c)
      ensures Kept() == Entrust(old(Kept()), acquireFence, handleOk)
    {
      hide Encode, WellFormed, HandleRoom, BufferArgs, Pushed, Listed, FenceEntry, Delivered, Entrust, Code;
      ghost var fence := Delivered(acquireFence, handleOk);
      BufferEncoding(Command.SetLayerBuffer(slot, buffer, fence), slot, buffer, fence, dataHandles);
      WriteBufferCommand(OpSetLayerBuffer, slot, buffer, acquireFence, handleOk, []);
    }

    method ValidateDisplay()
      requires Valid() && CanGrow(1)
      modifies this`data, this`dataMaxSize, this`usage, this`dataWritten, this`commandEnd
      modifies this`open, this`frames, data
      ensures Valid() && (data == old(data) || fresh(data))
      ensures frames == old(frames) + [Encode(Command.ValidateDisplay, |dataHandles|)]
      ensures dataMaxSize == Grown(old(dataMaxSize), old(dataWritten) + 1)
    {
      WriteCommand(OpValidateDisplay, []);
    }

    method PresentOrValidateDisplay()
      requires Valid() && CanGrow(1)
      modifies this`data, this`dataMaxSize, this`usage, this`dataWritten, this`commandEnd
      modifies this`open, this`frames, data
      ensures Valid() && (data == old(data) || fresh(data))
      ensures frames == old(frames) + [Encode(Command.PresentOrValidateDisplay, |dataHandles|)]
      ensures dataMaxSize == Grown(old(dataMaxSize), old(dataWritten) + 1)
    {
      WriteCommand(OpPresentOrValidateDisplay, []);
    }

    method AcceptDisplayChanges()
      requires Valid() && CanGrow(1)
      modifies this`data, this`dataMaxSize, this`usage, this`dataWritten, this`commandEnd
      modifies this`open, this`frames, data
      ensures Valid() && (data == old(data) || fresh(data))
      ensures frames == old(frames) + [Encode(Command.AcceptDisplayChanges, |dataHandles|)]
    {
      WriteCommand(OpAcceptDisplayChanges, []);
    }

    method PresentDisplay()
      requires Valid() && CanGrow(1)
      modifies this`data, this`dataMaxSize, this`usage, this`dataWritten, this`commandEnd
      modifies this`open, this`frames, data
      ensures Valid() && (data == old(data) || fresh(data))
      ensures frames == old(frames) + [Encode(Command.PresentDisplay, |dataHandles|)]
      ensures dataMaxSize == Grown(old(dataMaxSize), old(dataWritten) + 1)
    {
      WriteCommand(OpPresentDisplay, []);
    }

    method SetLayerCursorPosition(x: int32, y: int32)
      requires Valid() && CanGrow(3)
      modifies this`data, this`dataMaxSize, this`usage, this`dataWritten, this`commandEnd
      modifies this`open, this`frames, data
      ensures Valid() && (data == old(data) || fresh(data))
      ensures frames == old(frames) + [Encode(Command.SetLayerCursorPosition(x, y), |dataHandles|)]
    {
      WriteCommand(OpSetLayerCursorPosition, [ToWord(x), ToWord(y)]);
    }

    method SetLayerSurfaceDamage(damage: seq<Rect>)
      requires Valid() && CanGrow(1 + 4 * |Sent(damage, LAYER_RECT_LIMIT)|)
      modifies this`data, this`dataMaxSize, this`usage, this`dataWritten, this`commandEnd
      modifies this`open, this`frames, data
      ensures Valid() && (data == old(data) || fresh(data))
      ensures frames == old(frames) + [Encode(Command.SetLayerSurfaceDamage(damage), |dataHandles|)]
    {
      WriteRegionCommand(OpSetLayerSurfaceDamage, damage);
    }

    method SetLayerBlendMode(mode: int32)
      requires Valid() && CanGrow(2)
      modifies this`data, this`dataMaxSize, this`usage, this`dataWritten, this`commandEnd
      modifies this`open, this`frames, data
      ensures Valid() && (data == old(data) || fresh(data))
      ensures frames == old(frames) + [Encode(Command.SetLayerBlendMode(mode), |dataHandles|)]
    {
      WriteCommand(OpSetLayerBlendMode, [ToWord(mode)]);
    }

    method SetLayerColor(color: Color)
      requires Valid() && CanGrow(2)
      modifies this`data, this`dataMaxSize, this`usage, this`dataWritten, this`commandEnd
      modifies this`open, this`frames, data
      ensures Valid() && (data == old(data) || fresh(data))
      ensures frames == old(frames) + [Encode(Command.SetLayerColor(color), |dataHandles|)]
    {
      WriteCommand(OpSetLayerColor, [PackColor(color)]);
    }

    method SetLayerCompositionType(composition: int32)
      requires Valid() && CanGrow(2)
      modifies this`data, this`dataMaxSize, this`usage, this`dataWritten, this`commandEnd
      modifies this`open, this`frames, data
      ensures Valid() && (data == old(data) || fresh(data))
      ensures frames == old(frames) + [Encode(Command.SetLayerCompositionType(composition), |dataHandles|)]
    {
      WriteCommand(OpSetLayerCompositionType, [ToWord(composition)]);
    }

    method SetLayerDataspace(dataspace: int32)
      requires Valid() && CanGrow(2)
      modifies this`data, this`dataMaxSize, this`usage, this`dataWritten, this`commandEnd
      modifies this`open, this`frames, data
      ensures Valid() && (data == old(data) || fresh(data))
      ensures frames == old(frames) + [Encode(Command.SetLayerDataspace(dataspace), |dataHandles|)]
    {
      WriteCommand(OpSetLayerDataspace, [ToWord(dataspace)]);
    }

    method SetLayerDisplayFrame(frame: Rect)
      requires Valid() && CanGrow(5)
      modifies this`data, this`dataMaxSize, this`usage, this`dataWritten, this`commandEnd
      modifies this`open, this`frames, data
      ensures Valid() && (data == old(data) || fresh(data))
      ensures frames == old(frames) + [Encode(Command.SetLayerDisplayFrame(frame), |dataHandles|)]
    {
      WriteCommand(OpSetLayerDisplayFrame, RectWords(frame));
    }

    method SetLayerPlaneAlpha(alpha: uint32)
      requires Valid() && CanGrow(2)
      modifies this`data, this`dataMaxSize, this`usage, this`dataWritten, this`commandEnd
      modifies this`open, this`frames, data
      ensures Valid() && (data == old(data) || fresh(data))
      ensures frames == old(frames) + [Encode(Command.SetLayerPlaneAlpha(alpha), |dataHandles|)]
    {
      WriteCommand(OpSetLayerPlaneAlpha, [alpha]);
    }

    method SetLayerSidebandStream(stream: Option<Handle>)
      requires Valid() && CanGrow(2)
      requires Room(|dataHandles|, |Listed(stream)|)
      modifies this`data, this`dataMaxSize, this`usage, this`dataWritten, this`commandEnd
      modifies this`open, this`frames, data
      modifies this`dataHandles, this`temporaryHandles, this`fences
      ensures Valid() && (data == old(data) || fresh(data))
      ensures frames == old(frames) + [Encode(Command.SetLayerSidebandStream(stream), |old(dataHandles)|)]
      ensures dataHandles == old(dataHandles) + Pushed(Command.SetLayerSidebandStream(stream))
      ensures Kept() == old(Kept())
    {
      WriteHandleCommand(OpSetLayerSidebandStream, stream);
    }

    method SetLayerSourceCrop(crop: FRect)
      requires Valid() && CanGrow(5)
      modifies this`data, this`dataMaxSize, this`usage, this`dataWritten, this`commandEnd
      modifies this`open, this`frames, data
      ensures Valid() && (data == old(data) || fresh(data))
      ensures frames == old(frames) + [Encode(Command.SetLayerSourceCrop(crop), |dataHandles|)]
    {
      WriteCommand(OpSetLayerSourceCrop, [crop.left, crop.top, crop.right, crop.bottom]);
    }

    method SetLayerTransform(transform: int32)
      requires Valid() && CanGrow(2)
      modifies this`data, this`dataMaxSize, this`usage, this`dataWritten, this`commandEnd
      modifies this`open, this`frames, data
      ensures Valid() && (data == old(data) || fresh(data))
      ensures frames == old(frames) + [Encode(Command.SetLayerTransform(transform), |dataHandles|)]
    {
      WriteCommand(OpSetLayerTransform, [ToWord(transform)]);
    }

    method SetLayerVisibleRegion(visible: seq<Rect>)
      requires Valid() && CanGrow(1 + 4 * |Sent(visible, LAYER_RECT_LIMIT)|)
      modifies this`data, this`dataMaxSize, this`usage, this`dataWritten, this`commandEnd
      modifies this`open, this`frames, data
      ensures Valid() && (data == old(data) || fresh(data))
      ensures frames == old(frames) + [Encode(Command.SetLayerVisibleRegion(visible), |dataHandles|)]
    {
      WriteRegionCommand(OpSetLayerVisibleRegion, visible);
    }

    method SetLayerZOrder(z: uint32)
      requires Valid() && CanGrow(2)
      modifies this`data, this`dataMaxSize, this`usage, this`dataWritten, this`commandEnd
      modifies this`open, this`frames, data
      ensures Valid() && (data == old(data) || fresh(data))
      ensures frames == old(frames) + [Encode(Command.SetLayerZOrder(z), |dataHandles|)]
    {
      WriteCommand(OpSetLayerZOrder, [z]);
    }

    // -------------------------------------------------------------- the server's responses

    method SetError(location: uint32, error: int32)
      requires Valid() && CanGrow(3)
      modifies this`data, this`dataMaxSize, this`usage, this`dataWritten, this`commandEnd
      modifies this`open, this`frames, data
      ensures Valid() && (data == old(data) || fresh(data))
      ensures frames == old(frames) + EncodeResponse(ReportError(location, error), |dataHandles|)
    {
      WriteCommand(OpSetError, [location, ToWord(error)]);
    }

    method SetPresentOrValidateResult(state: uint32)
      requires Valid() && CanGrow(2)
      modifies this`data, this`dataMaxSize, this`usage, this`dataWritten, this`commandEnd
      modifies this`open, this`frames, data
      ensures Valid() && (data == old(data) || fresh(data))
      ensures frames == old(frames) + EncodeResponse(PresentOrValidateResult(state), |dataHandles|)
    {
      WriteCommand(OpSetPresentOrValidateDisplayResult, [state]);
    }

    method SetPresentFence(fence: int, handleOk: bool)
      requires Valid() && CanGrow(2)
      requires (Delivered(fence, handleOk) >= 0 ==> |dataHandles| < MAX_HANDLES)
      modifies this`data, this`dataMaxSize, this`usage, this`dataWritten, this`commandEnd
      modifies this`open, this`frames, data
      modifies this`dataHandles, this`temporaryHandles, this`fences
      ensures Valid() && (data == old(data) || fresh(data))
      ensures frames == old(frames) + EncodeResponse(PresentFence(Delivered(fence, handleOk)), |old(dataHandles)|)
      ensures dataHandles == old(dataHandles) + Added(PresentFence(Delivered(fence, handleOk)))
      ensures Kept() == Entrust(old(Kept()), fence, handleOk)
    {
      WriteFenceCommand(OpSetPresentFence, fence, handleOk);
    }

    method WriteFenceCommand(command: Opcode, fence: int, handleOk: bool)
      requires Valid() && CanGrow(2)
      requires (Delivered(fence, handleOk) >= 0 ==> |dataHandles| < MAX_HANDLES)
      modifies this`data, this`dataMaxSize, this`usage, this`dataWritten, this`commandEnd
      modifies this`open, this`frames, data
      modifies this`dataHandles, this`temporaryHandles, this`fences
      ensures Valid() && (data == old(data) || fresh(data))
      ensures frames == old(frames)
                + [Frame(Code(command), [FenceWord(Delivered(fence, handleOk), |old(dataHandles)|)])]
      ensures dataHandles == old(dataHandles) + FenceEntry(Delivered(fence, handleOk))
      ensures Kept() == Entrust(old(Kept()), fence, handleOk)
    {
      hide Flatten, Fit, InCustody, Amortised, Backed, With, FenceEntry;
      ghost var word := FenceWord(Delivered(fence, handleOk), |dataHandles|);
      EntrustBacked(Kept(), dataHandles, fence, handleOk);
      BeginCommand(command, 1);
      WriteFence(fence, handleOk);
      assert open.args == [word];
      EndCommand();
    }

    /** One command of a pair list; `f` is the frame it becomes. */
    method WriteChunk(command: Opcode, prefix: seq<uint32>, layers: seq<uint64>, words: seq<uint32>,
                      from: nat, end: nat, ghost f: Frame)
      requires Valid() && from <= end <= |layers| && end <= |words|
      requires |prefix| + 3 * (end - from) <= MAX_LENGTH && CanGrow(1 + |prefix| + 3 * (end - from))
      requires f == Frame(Code(command), prefix + Triples(layers, words, from, end))
      modifies this`data, this`dataMaxSize, this`usage, this`dataWritten, this`commandEnd
      modifies this`open, this`frames, data
      ensures Valid() && (data == old(data) || fresh(data))
      ensures frames == old(frames) + [f]
    {
      hide Flatten, Fit, InCustody, Amortised, Backed, Triples, Header, Code;
      BeginCommand(command, |prefix| + 3 * (end - from));
      WriteWords(prefix);
      assert open.args == prefix;
      WritePairs(layers, words, from, end);
      EndCommand();
    }

    method WritePair(layer: uint64, word: uint32)
      requires Writing() && dataWritten + 3 <= dataMaxSize
      modifies this`dataWritten, this`open, data
      ensures Writing() && open == Extend(old(open), [Low(layer), High(layer), word])
      ensures dataWritten == old(dataWritten) + 3
    {
      hide Flatten, Header, InCustody, Amortised;
      Write64(layer);
      Write(word);
      assert old(open).args + [Low(layer), High(layer)] + [word] == old(open).args + [Low(layer), High(layer), word];
    }

    method WritePairs(layers: seq<uint64>, words: seq<uint32>, from: nat, end: nat)
      requires Writing() && from <= end <= |layers| && end <= |words|
      requires dataWritten + 3 * (end - from) <= dataMaxSize
      modifies this`dataWritten, this`open, data
      ensures Writing() && open == Extend(old(open), Triples(layers, words, from, end))
      ensures dataWritten == old(dataWritten) + 3 * (end - from)
    {
      ExtendTwice(open, [], []);
      assert Triples(layers, words, from, from) == [];
      hide Triples, Extend, Flatten, Header, InCustody, Amortised;
      for i := from to end
        invariant Writing() && open == Extend(old(open), Triples(layers, words, from, i))
        invariant dataWritten == old(dataWritten) + 3 * (i - from)
      {
        NextTriple(layers, words, from, i);
        ExtendTwice(old(open), Triples(layers, words, from, i), [Low(layers[i]), High(layers[i]), words[i]]);
        WritePair(layers[i], words[i]);
      }
    }

    /** Writes a pair list in as many commands as it needs. */
    method WriteList(command: Opcode, prefix: seq<uint32>, layers: seq<uint64>, words: seq<uint32>,
                     limit: nat, total: nat)
      requires Valid() && total <= |layers| && total <= |words| && 0 < limit && |prefix| + 3 * limit <= MAX_LENGTH
      requires CanGrow(|Flatten(Chunks(Code(command), prefix, layers, words, limit, 0, total))|)
      modifies this`data, this`dataMaxSize, this`usage, this`dataWritten, this`commandEnd
      modifies this`open, this`frames, data
      ensures Valid() && (data == old(data) || fresh(data))
      ensures frames == old(frames) + Chunks(Code(command), prefix, layers, words, limit, 0, total)
    {
      hide Triples, Flatten, InCustody, Amortised, Backed, Chunks;
      ChunksEnd(Code(command), prefix, layers, words, limit, total);
      ghost var left := Chunks(Code(command), prefix, layers, words, limit, 0, total);
      ghost var all, f := frames + left, Frame(0, []);
      FlattenAppend(frames, left);
      var current := 0;
      while current < total
        invariant 0 <= current <= total
        invariant Valid() && (data == old(data) || fresh(data))
        invariant left == Chunks(Code(command), prefix, layers, words, limit, current, total)
        invariant frames + left == all && |Flatten(frames)| + |Flatten(left)| <= UINT32_MAX
      {
        f, left := NextChunk(frames, left, all, Code(command), prefix, layers, words, limit, current, total);
        var next := current + Min(total - current, limit);
        WriteChunk(command, prefix, layers, words, current, next, f);
        current := next;
      }
    }

    method SetChangedCompositionTypes(layers: seq<uint64>, types: seq<int32>)
      requires Valid()
      requires CanGrow(|Flatten(EncodeResponse(ChangedTypes(layers, types), |dataHandles|))|)
      modifies this`data, this`dataMaxSize, this`usage, this`dataWritten, this`commandEnd
      modifies this`open, this`frames, data
      ensures Valid() && (data == old(data) || fresh(data))
      ensures frames == old(frames) + EncodeResponse(ChangedTypes(layers, types), |dataHandles|)
    {
      WriteList(OpSetChangedCompositionTypes, [], layers, SignedWords(types), PAIR_LIMIT, Min(|layers|, |types|));
    }

    method SetDisplayRequests(mask: uint32, layers: seq<uint64>, masks: seq<uint32>)
      requires Valid()
      requires CanGrow(|Flatten(EncodeResponse(Requests(mask, layers, masks), |dataHandles|))|)
      modifies this`data, this`dataMaxSize, this`usage, this`dataWritten, this`commandEnd
      modifies this`open, this`frames, data
      ensures Valid() && (data == old(data) || fresh(data))
      ensures frames == old(frames) + EncodeResponse(Requests(mask, layers, masks), |dataHandles|)
    {
      WriteList(OpSetDisplayRequests, [mask], layers, masks, REQUEST_LIMIT, Min(|layers|, |masks|));
    }

    ghost function Now(): Progress
      reads this
    {
      Progress(open.args, dataHandles, Kept())
    }

    method WriteFencePair(layer: uint64, fence: int, handleOk: bool)
      requires Writing() && dataWritten + 3 <= dataMaxSize
      requires (Delivered(fence, handleOk) >= 0 ==> |dataHandles| < MAX_HANDLES)
      modifies this`dataWritten, this`open, this`dataHandles, this`temporaryHandles, this`fences, data
      ensures Writing() && open == old(open).(args := open.args) && dataWritten == old(dataWritten) + 3
      ensures Now() == PairStep(old(Now()), layer, fence, handleOk)
    {
      ghost var args, word := open.args, FenceWord(Delivered(fence, handleOk), |dataHandles|);
      Write64(layer);
      WriteFence(fence, handleOk);
      assert open.args == args + [Low(layer), High(layer), word];
    }

    method WriteFencePairs(layers: seq<uint64>, given: seq<int>, handlesOk: seq<bool>, from: nat, end: nat)
      requires Writing() && from <= end <= |layers| && end <= |given| == |handlesOk|
      requires dataWritten + 3 * (end - from) <= dataMaxSize
      requires |PairRun(Now(), layers, given, handlesOk, from, end).table| <= MAX_HANDLES
      modifies this`dataWritten, this`open, this`dataHandles, this`temporaryHandles, this`fences, data
      ensures Writing() && open == old(open).(args := open.args)
      ensures Now() == PairRun(old(Now()), layers, given, handlesOk, from, end)
    {
      hide PairStep;
      for i := from to end
        invariant Writing() && open == old(open).(args := open.args)
        invariant dataWritten == old(dataWritten) + 3 * (i - from)
        invariant Now() == PairRun(old(Now()), layers, given, handlesOk, from, i)
      {
        PairRunGrows(old(Now()), layers, given, handlesOk, from, i + 1, end);
        PairStepGrows(Now(), layers[i], given[i], handlesOk[i]);
        WriteFencePair(layers[i], given[i], handlesOk[i]);
      }
    }

    /** One command of a fence list. */
    method WriteFenceChunk(layers: seq<uint64>, given: seq<int>, handlesOk: seq<bool>, from: nat, end: nat)
      requires Valid() && from <= end <= |layers| && end <= |given| == |handlesOk|
      requires end - from <= PAIR_LIMIT && CanGrow(1 + 3 * (end - from))
      requires |PairRun(Now().(args := []), layers, given, handlesOk, from, end).table| <= MAX_HANDLES
      modifies this`data, this`dataMaxSize, this`usage, this`dataWritten, this`commandEnd
      modifies this`open, this`frames, data
      modifies this`dataHandles, this`temporaryHandles, this`fences
      ensures Valid() && (data == old(data) || fresh(data))
      ensures var p := PairRun(old(Now()).(args := []), layers, given, handlesOk, from, end);
              |p.args| == 3 * (end - from) && frames == old(frames) + [Frame(Code(OpSetReleaseFences), p.args)] &&
              dataHandles == p.table && Kept() == p.custody
    {
      hide Flatten, Fit, InCustody, Amortised, Backed, PairRun;
      BeginCommand(OpSetReleaseFences, 3 * (end - from));
      WriteFencePairs(layers, given, handlesOk, from, end);
      PairRunLength(old(Now()).(args := []), layers, given, handlesOk, from, end);
      PairRunBacked(old(Now()).(args := []), layers, given, handlesOk, from, end);
      EndCommand();
    }

    /** The same, as one step of a planned list; `f` is the frame it becomes. */
    method WriteFenceStretch(layers: seq<uint64>, given: seq<int>, handlesOk: seq<bool>, from: nat, end: nat,
                             ghost plan: FencePlan, ghost f: Frame)
      requires Valid() && from <= end <= from + PAIR_LIMIT && CanGrow(1 + 3 * (end - from))
      requires Planned(plan, layers, given, handlesOk) && end <= plan.total
      requires SoFar(plan, given, handlesOk, from, dataHandles, Kept())
      requires f == Frame(Code(OpSetReleaseFences), Triples(layers, plan.words, from, end))
      modifies this`data, this`dataMaxSize, this`usage, this`dataWritten, this`commandEnd
      modifies this`open, this`frames, data
      modifies this`dataHandles, this`temporaryHandles, this`fences
      ensures Valid() && (data == old(data) || fresh(data))
      ensures frames == old(frames) + [f]
      ensures SoFar(plan, given, handlesOk, end, dataHandles, Kept())
    {
      ghost var start, delivered, table := Now().(args := []), plan.delivered, plan.table;
      FenceWordsRefer(delivered, |table|, plan.total);
      PairRunArgs(start, table, layers, given, handlesOk, delivered, plan.words, from, end);
      PairRunTable(start, table, layers, given, handlesOk, delivered, from, end);
      PairRunCustody(start, plan.custody, layers, given, handlesOk, from, end);
      FenceTableGrows(delivered, end, plan.total);
      WriteFenceChunk(layers, given, handlesOk, from, end);
    }

    /** The next command of a fence list; `rest` are the commands still to come, `all` what the
        buffer will hold in the end. */
    method WriteNextFences(layers: seq<uint64>, given: seq<int>, handlesOk: seq<bool>, from: nat, total: nat,
                           limit: nat, ghost plan: FencePlan, ghost rest: seq<Frame>, ghost all: seq<Frame>)
      returns (next: nat, ghost left: seq<Frame>)
      requires Valid() && Planned(plan, layers, given, handlesOk)
      requires from < total == plan.total && 0 < limit <= PAIR_LIMIT
      requires SoFar(plan, given, handlesOk, from, dataHandles, Kept())
      requires Left(plan, layers, limit, from, rest)
      requires frames + rest == all && |Flatten(frames)| + |Flatten(rest)| <= UINT32_MAX
      modifies this`data, this`dataMaxSize, this`usage, this`dataWritten, this`commandEnd
      modifies this`open, this`frames, data
      modifies this`dataHandles, this`temporaryHandles, this`fences
      ensures Valid() && (data == old(data) || fresh(data))
      ensures from < next == from + Min(total - from, limit)
      ensures SoFar(plan, given, handlesOk, next, dataHandles, Kept())
      ensures Left(plan, layers, limit, next, left)
      ensures frames + left == all && |Flatten(frames)| + |Flatten(left)| <= UINT32_MAX
    {
      hide Planned, SoFar, Left, Triples, Flatten, InCustody, Amortised, Backed;
      ghost var f;
      f, left := NextLeft(frames, rest, all, plan, layers, limit, from);
      next := from + Min(total - from, limit);
      WriteFenceStretch(layers, given, handlesOk, from, next, plan, f);
    }

    /** Writes a fence list in as many commands as it needs. */
    method WriteFenceList(layers: seq<uint64>, given: seq<int>, handlesOk: seq<bool>, total: nat, limit: nat,
                          ghost plan: FencePlan)
      requires Valid() && Planned(plan, layers, given, handlesOk) && total == plan.total && 0 < limit <= PAIR_LIMIT
      requires SoFar(plan, given, handlesOk, 0, dataHandles, Kept())
      requires CanGrow(|Flatten(Chunks(Code(OpSetReleaseFences), [], layers, plan.words, limit, 0, total))|)
      modifies this`data, this`dataMaxSize, this`usage, this`dataWritten, this`commandEnd
      modifies this`open, this`frames, data
      modifies this`dataHandles, this`temporaryHandles, this`fences
      ensures Valid() && (data == old(data) || fresh(data))
      ensures frames == old(frames) + Chunks(Code(OpSetReleaseFences), [], layers, plan.words, limit, 0, total)
      ensures SoFar(plan, given, handlesOk, total, dataHandles, Kept())
    {
      assert total <= |layers| && total <= |plan.words|;
      hide Planned, SoFar, Flatten, InCustody, Amortised, Backed, Chunks;
      ghost var left := Chunks(Code(OpSetReleaseFences), [], layers, plan.words, limit, 0, total);
      ghost var all := frames + left;
      FlattenAppend(frames, left);
      var current := 0;
      while current < total
        invariant 0 <= current <= total
        invariant Valid() && (data == old(data) || fresh(data))
        invariant SoFar(plan, given, handlesOk, current, dataHandles, Kept())
        invariant Left(plan, layers, limit, current, left)
        invariant frames + left == all && |Flatten(frames)| + |Flatten(left)| <= UINT32_MAX
      {
        current, left := WriteNextFences(layers, given, handlesOk, current, total, limit, plan, left, all);
      }
      ChunksEnd(Code(OpSetReleaseFences), [], layers, plan.words, limit, total);
    }

    /** `delivered` is what reaches the peer of each fence, given which handles can be made. */
    method SetReleaseFences(layers: seq<uint64>, given: seq<int>, handlesOk: seq<bool>, ghost delivered: seq<int>)
      requires Valid() && Deliveries(delivered, given, handlesOk)
      requires |dataHandles| + |Added(ReleaseFences(layers, delivered))| <= MAX_HANDLES
      requires CanGrow(|Flatten(EncodeResponse(ReleaseFences(layers, delivered), |dataHandles|))|)
      modifies this`data, this`dataMaxSize, this`usage, this`dataWritten, this`commandEnd
      modifies this`open, this`frames, data
      modifies this`dataHandles, this`temporaryHandles, this`fences
      ensures Valid() && (data == old(data) || fresh(data))
      ensures frames == old(frames) + EncodeResponse(ReleaseFences(layers, delivered), |old(dataHandles)|)
      ensures dataHandles == old(dataHandles) + Added(ReleaseFences(layers, delivered))
      ensures Kept() == EntrustTo(old(Kept()), given, handlesOk, Min(|layers|, |given|))
    {
      var total := Min(|layers|, |given|);
      ghost var words := FenceWords(delivered, |dataHandles|, total);
      WriteFenceList(layers, given, handlesOk, total, PAIR_LIMIT,
                     FencePlan(total, delivered, words, dataHandles, Kept()));
    }
  }
}
