/** The wire format shared by the two directions of the composer command stream:
    a stream is a list of frames, each a header word (opcode in the upper half,
    argument count in the lower half) followed by its arguments.  Handles travel
    beside the words, in a table the words index. */
module Wire {
  import opened Words

  datatype Opcode =
    | OpSelectDisplay | OpSelectLayer
    | OpSetError | OpSetChangedCompositionTypes | OpSetDisplayRequests | OpSetPresentFence
    | OpSetReleaseFences | OpSetPresentOrValidateDisplayResult
    | OpSetColorTransform | OpSetClientTarget | OpSetOutputBuffer
    | OpValidateDisplay | OpAcceptDisplayChanges | OpPresentDisplay | OpPresentOrValidateDisplay
    | OpSetLayerCursorPosition | OpSetLayerBuffer | OpSetLayerSurfaceDamage
    | OpSetLayerBlendMode | OpSetLayerColor | OpSetLayerCompositionType | OpSetLayerDataspace
    | OpSetLayerDisplayFrame | OpSetLayerPlaneAlpha | OpSetLayerSidebandStream
    | OpSetLayerSourceCrop | OpSetLayerTransform | OpSetLayerVisibleRegion | OpSetLayerZOrder

  /** The number of an opcode, already shifted out of the header's upper half. */
  function Code(op: Opcode): uint16 {
    match op
    case OpSelectDisplay => 0x000
    case OpSelectLayer => 0x001
    case OpSetError => 0x100
    case OpSetChangedCompositionTypes => 0x101
    case OpSetDisplayRequests => 0x102
    case OpSetPresentFence => 0x103
    case OpSetReleaseFences => 0x104
    case OpSetPresentOrValidateDisplayResult => 0x105
    case OpSetColorTransform => 0x200
    case OpSetClientTarget => 0x201
    case OpSetOutputBuffer => 0x202
    case OpValidateDisplay => 0x203
    case OpAcceptDisplayChanges => 0x204
    case OpPresentDisplay => 0x205
    case OpPresentOrValidateDisplay => 0x206
    case OpSetLayerCursorPosition => 0x300
    case OpSetLayerBuffer => 0x301
    case OpSetLayerSurfaceDamage => 0x302
    case OpSetLayerBlendMode => 0x400
    case OpSetLayerColor => 0x401
    case OpSetLayerCompositionType => 0x402
    case OpSetLayerDataspace => 0x403
    case OpSetLayerDisplayFrame => 0x404
    case OpSetLayerPlaneAlpha => 0x405
    case OpSetLayerSidebandStream => 0x406
    case OpSetLayerSourceCrop => 0x407
    case OpSetLayerTransform => 0x408
    case OpSetLayerVisibleRegion => 0x409
    case OpSetLayerZOrder => 0x40a
  }

  /** The opcode with a given number (the reader's `switch`). */
  function OpcodeFor(code: uint16): Option<Opcode> {
    if code == 0x000 then Some(OpSelectDisplay)
    else if code == 0x001 then Some(OpSelectLayer)
    else if code == 0x100 then Some(OpSetError)
    else if code == 0x101 then Some(OpSetChangedCompositionTypes)
    else if code == 0x102 then Some(OpSetDisplayRequests)
    else if code == 0x103 then Some(OpSetPresentFence)
    else if code == 0x104 then Some(OpSetReleaseFences)
    else if code == 0x105 then Some(OpSetPresentOrValidateDisplayResult)
    else if code == 0x200 then Some(OpSetColorTransform)
    else if code == 0x201 then Some(OpSetClientTarget)
    else if code == 0x202 then Some(OpSetOutputBuffer)
    else if code == 0x203 then Some(OpValidateDisplay)
    else if code == 0x204 then Some(OpAcceptDisplayChanges)
    else if code == 0x205 then Some(OpPresentDisplay)
    else if code == 0x206 then Some(OpPresentOrValidateDisplay)
    else if code == 0x300 then Some(OpSetLayerCursorPosition)
    else if code == 0x301 then Some(OpSetLayerBuffer)
    else if code == 0x302 then Some(OpSetLayerSurfaceDamage)
    else if code == 0x400 then Some(OpSetLayerBlendMode)
    else if code == 0x401 then Some(OpSetLayerColor)
    else if code == 0x402 then Some(OpSetLayerCompositionType)
    else if code == 0x403 then Some(OpSetLayerDataspace)
    else if code == 0x404 then Some(OpSetLayerDisplayFrame)
    else if code == 0x405 then Some(OpSetLayerPlaneAlpha)
    else if code == 0x406 then Some(OpSetLayerSidebandStream)
    else if code == 0x407 then Some(OpSetLayerSourceCrop)
    else if code == 0x408 then Some(OpSetLayerTransform)
    else if code == 0x409 then Some(OpSetLayerVisibleRegion)
    else if code == 0x40a then Some(OpSetLayerZOrder)
    else None
  }

  /** The numbers are distinct, so the number of an opcode denotes it. */
  lemma OpcodeRoundTrip(op: Opcode)
    ensures OpcodeFor(Code(op)) == Some(op)
  {
  }

  // ---------------------------------------------------------------- frames

  datatype RawFrame = Frame(op: uint16, args: seq<uint32>)

  type Frame = f: RawFrame | |f.args| <= MAX_LENGTH witness Frame(0, [])

  function Header(op: uint16, length: uint16): uint32 { 0x1_0000 * op + length }

  function HeaderOp(w: uint32): uint16 { w / 0x1_0000 }

  function HeaderLength(w: uint32): uint16 { w % 0x1_0000 }

  lemma HeaderRoundTrip(op: uint16, length: uint16)
    ensures HeaderOp(Header(op, length)) == op
    ensures HeaderLength(Header(op, length)) == length
  {
  }

  lemma HeaderOfParts(w: uint32)
    ensures Header(HeaderOp(w), HeaderLength(w)) == w
  {
  }

  function FrameWords(f: Frame): seq<uint32> { [Header(f.op, |f.args|)] + f.args }

  function Flatten(fs: seq<Frame>): seq<uint32> {
    if fs == [] then [] else FrameWords(fs[0]) + Flatten(fs[1..])
  }

  lemma {:induction false} FlattenAppend(a: seq<Frame>, b: seq<Frame>)
    ensures Flatten(a + b) == Flatten(a) + Flatten(b)
  {
    if a == [] {
      assert a + b == b;
    } else {
      assert (a + b)[0] == a[0] && (a + b)[1..] == a[1..] + b;
      FlattenAppend(a[1..], b);
    }
  }

  lemma FlattenSnoc(fs: seq<Frame>, f: Frame)
    ensures Flatten(fs + [f]) == Flatten(fs) + FrameWords(f)
  {
    FlattenAppend(fs, [f]);
    assert Flatten([f]) == FrameWords(f) + Flatten([]);
  }

  // ---------------------------------------------------------------- splitting

  /** True when a whole command starts the given words (the length check of the reader). */
  predicate WholeCommand(words: seq<uint32>) {
    words != [] && 1 + HeaderLength(words[0]) <= |words|
  }

  function FirstFrame(words: seq<uint32>): (f: Frame)
    requires WholeCommand(words)
    ensures words == FrameWords(f) + AfterFirst(words)
  {
    HeaderOfParts(words[0]);
    Frame(HeaderOp(words[0]), words[1..1 + HeaderLength(words[0])])
  }

  function AfterFirst(words: seq<uint32>): seq<uint32>
    requires WholeCommand(words)
  {
    words[1 + HeaderLength(words[0])..]
  }

  lemma FirstFrameOf(f: Frame, rest: seq<uint32>)
    ensures WholeCommand(FrameWords(f) + rest)
    ensures FirstFrame(FrameWords(f) + rest) == f
    ensures AfterFirst(FrameWords(f) + rest) == rest
  {
    var words := FrameWords(f) + rest;
    HeaderRoundTrip(f.op, |f.args|);
    assert words[0] == Header(f.op, |f.args|);
    assert words[1..1 + |f.args|] == f.args;
    assert words[1 + |f.args|..] == rest;
  }

  /** The frames of a stream, when it splits into whole commands with nothing left over. */
  function Split(words: seq<uint32>): Option<seq<Frame>>
    decreases |words|
  {
    if words == [] then Some([])
    else if !WholeCommand(words) then None
    else match Split(AfterFirst(words))
      case None => None
      case Some(fs) => Some([FirstFrame(words)] + fs)
  }

  lemma {:induction false} SplitOfFlatten(fs: seq<Frame>)
    ensures Split(Flatten(fs)) == Some(fs)
  {
    if fs != [] {
      FirstFrameOf(fs[0], Flatten(fs[1..]));
      SplitOfFlatten(fs[1..]);
      assert fs == [fs[0]] + fs[1..];
    }
  }

  lemma {:induction false} FlattenOfSplit(words: seq<uint32>, fs: seq<Frame>)
    requires Split(words) == Some(fs)
    ensures words == Flatten(fs)
    decreases |words|
  {
    if words != [] {
      assert fs[1..] == Split(AfterFirst(words)).value;
      FlattenOfSplit(AfterFirst(words), fs[1..]);
    }
  }

  /** Splitting is the exact inverse of flattening: a stream splits in at most one way. */
  lemma SplitFlatten(words: seq<uint32>, fs: seq<Frame>)
    ensures Split(words) == Some(fs) <==> words == Flatten(fs)
  {
    SplitOfFlatten(fs);
    if Split(words) == Some(fs) { FlattenOfSplit(words, fs); }
  }

  // ---------------------------------------------------------------- command locations

  /** Offset of the k-th command of a stream. */
  function Location(fs: seq<Frame>, k: nat): nat
    requires k <= |fs|
  {
    |Flatten(fs[..k])|
  }

  /** What the writer finds at an offset of its own stream: the opcode half of the word there,
      or opcode 0 past the end. */
  function OpcodeAt(words: seq<uint32>, offset: uint32): uint16 {
    if offset < |words| then HeaderOp(words[offset]) else 0
  }

  /** The two sides agree on locations: at the offset where the k-th command starts
      the writer finds the opcode of the k-th command. */
  lemma OpcodeAtLocation(fs: seq<Frame>, k: nat)
    requires k < |fs| && |Flatten(fs)| <= UINT32_MAX
    ensures Location(fs, k) < |Flatten(fs)|
    ensures OpcodeAt(Flatten(fs), Location(fs, k)) == fs[k].op
  {
    assert fs == fs[..k] + fs[k..];
    FlattenAppend(fs[..k], fs[k..]);
    HeaderRoundTrip(fs[k].op, |fs[k].args|);
    assert Flatten(fs[k..])[0] == Header(fs[k].op, |fs[k].args|);
  }

  lemma {:induction false} LocationIncreases(fs: seq<Frame>, j: nat, k: nat)
    requires j < k <= |fs|
    ensures Location(fs, j) < Location(fs, k)
  {
    assert fs[..k] == fs[..j] + fs[j..k];
    FlattenAppend(fs[..j], fs[j..k]);
  }

  // ---------------------------------------------------------------- handles

  /** A native handle: the descriptors it carries, and a tag that tells apart handles
      with the same descriptors (the source compares nothing but pointers). */
  datatype Handle = Handle(fds: seq<int>, tag: nat)

  type HandleTable = seq<Option<Handle>>

  const EMPTY: int32 := -1
  const CACHED: int32 := -2
  const MAX_HANDLES := 0x8000_0000

  /** True when a table of the given size can take n more handles: the index is a signed word. */
  predicate Room(base: nat, n: nat) {
    n == 0 || base + n <= MAX_HANDLES
  }

  datatype HandleRead = HandleRead(handle: Option<Handle>, useCache: bool)

  /** How the reader resolves a handle word. */
  function LookupHandle(w: uint32, table: HandleTable): HandleRead {
    var index := ToSigned(w);
    if index == EMPTY then HandleRead(None, false)
    else if index == CACHED then HandleRead(None, true)
    else if 0 <= index < |table| then HandleRead(table[index], false)
    else HandleRead(None, false)
  }

  /** The descriptor a fence word makes the reader duplicate, if it carries exactly one. */
  function FenceSource(w: uint32, table: HandleTable): Option<int> {
    match LookupHandle(w, table).handle
    case None => None
    case Some(h) => if |h.fds| == 1 then Some(h.fds[0]) else None
  }

  /** How the writer refers to the next handle, or to none at all. */
  function HandleWord(h: Option<Handle>, useCache: bool, index: nat): uint32
    requires index < MAX_HANDLES || h.None?
  {
    match h
    case None => ToWord(if useCache then CACHED else EMPTY)
    case Some(_) => ToWord(index)
  }

  /** The temporary handle wrapped around a fence. */
  function FenceHandle(fence: int): Option<Handle> {
    if fence >= 0 then Some(Handle([fence], 0)) else None
  }

  function FenceWord(fence: int, index: nat): uint32
    requires fence >= 0 ==> index < MAX_HANDLES
  {
    if fence >= 0 then index else ToWord(EMPTY)
  }

  /** What a fence adds to the table. */
  function FenceEntry(fence: int): HandleTable {
    if fence >= 0 then [FenceHandle(fence)] else []
  }

  function Listed(h: Option<Handle>): HandleTable {
    if h.None? then [] else [h]
  }

  /** A fence as the receiving side sees it: every negative descriptor reads as "no fence". */
  function SourceOf(fence: int): Option<int> {
    if fence >= 0 then Some(fence) else None
  }

  lemma FenceRoundTrip(fence: int, index: nat, table: HandleTable)
    requires fence >= 0 ==> index < MAX_HANDLES && index < |table| && table[index] == FenceHandle(fence)
    ensures FenceSource(FenceWord(fence, index), table) == SourceOf(fence)
  {
  }

  lemma HandleRoundTrip(h: Option<Handle>, useCache: bool, index: nat, table: HandleTable)
    requires h.Some? ==> index < MAX_HANDLES && index < |table| && table[index] == h
    ensures LookupHandle(HandleWord(h, useCache, index), table) == HandleRead(h, h.None? && useCache)
  {
  }

  /** True when the table holds, from `base` on, the handles a command pushed. */
  predicate Holds(table: HandleTable, base: nat, pushed: HandleTable) {
    base + |pushed| <= |table| && table[base..base + |pushed|] == pushed
  }

  lemma HoldsParts(table: HandleTable, base: nat, a: HandleTable, b: HandleTable)
    requires Holds(table, base, a + b)
    ensures Holds(table, base, a) && Holds(table, base + |a|, b)
  {
    var all := table[base..base + |a + b|];
    assert all[..|a|] == table[base..base + |a|];
    assert all[|a|..] == table[base + |a|..base + |a| + |b|];
  }

  lemma HoldsOne(table: HandleTable, base: nat, h: Option<Handle>)
    requires Holds(table, base, [h])
    ensures base < |table| && table[base] == h
  {
    assert table[base..base + 1][0] == h;
  }

  lemma HoldsPrefix(table: HandleTable, a: HandleTable, b: HandleTable)
    requires a + b <= table
    ensures a <= table && Holds(table, |a|, b)
  {
    assert table[..|a + b|] == a + b;
  }

  // ---------------------------------------------------------------- descriptor bags

  /** The real (non-negative) descriptors among the first n of a list, with multiplicity. */
  function BagTo(fds: seq<int>, n: nat): multiset<int>
    requires n <= |fds|
  {
    if n == 0 then multiset{} else With(BagTo(fds, n - 1), fds[n - 1])
  }

  function Bag(fds: seq<int>): multiset<int> { BagTo(fds, |fds|) }

  /** A bag of descriptors after one more, unless it is "no fence". */
  function With(fds: multiset<int>, fd: int): multiset<int> {
    if fd >= 0 then fds + multiset{fd} else fds
  }

  lemma {:induction false} BagPrefix(a: seq<int>, b: seq<int>, n: nat)
    requires n <= |a|
    ensures BagTo(a + b, n) == BagTo(a, n)
  {
    if n > 0 { BagPrefix(a, b, n - 1); }
  }

  lemma {:induction false} BagSuffix(a: seq<int>, b: seq<int>, n: nat)
    requires n <= |b|
    ensures BagTo(a + b, |a| + n) == Bag(a) + BagTo(b, n)
  {
    if n == 0 {
      BagPrefix(a, b, |a|);
    } else {
      BagSuffix(a, b, n - 1);
    }
  }

  lemma BagAppend(a: seq<int>, b: seq<int>)
    ensures Bag(a + b) == Bag(a) + Bag(b)
  {
    BagSuffix(a, b, |b|);
  }

  lemma BagOne(fd: int)
    ensures Bag([fd]) == With(multiset{}, fd)
  {
    assert BagTo([fd], 0) == multiset{};
  }
}
