/** The client's half of the stream: the commands the composer proxy batches,
    how each is encoded, and how a receiver decodes it with the reader's primitives. */
module Commands {
  import opened Words
  import opened Wire

  datatype Rect = Rect(left: int32, top: int32, right: int32, bottom: int32)

  /** Floating-point rectangle; floats travel as opaque words. */
  datatype FRect = FRect(left: uint32, top: uint32, right: uint32, bottom: uint32)

  datatype Command =
    | SelectDisplay(display: uint64)
    | SelectLayer(layer: uint64)
    | SetColorTransform(matrix: seq<uint32>, hint: int32)
    | SetClientTarget(slot: uint32, target: Option<Handle>, acquireFence: int, dataspace: int32,
                      damage: seq<Rect>)
    | SetOutputBuffer(slot: uint32, buffer: Option<Handle>, releaseFence: int)
    | ValidateDisplay
    | PresentOrValidateDisplay
    | AcceptDisplayChanges
    | PresentDisplay
    | SetLayerCursorPosition(x: int32, y: int32)
    | SetLayerBuffer(slot: uint32, buffer: Option<Handle>, acquireFence: int)
    | SetLayerSurfaceDamage(damage: seq<Rect>)
    | SetLayerBlendMode(mode: int32)
    | SetLayerColor(color: Color)
    | SetLayerCompositionType(composition: int32)
    | SetLayerDataspace(dataspace: int32)
    | SetLayerDisplayFrame(frame: Rect)
    | SetLayerPlaneAlpha(alpha: uint32)
    | SetLayerSidebandStream(stream: Option<Handle>)
    | SetLayerSourceCrop(crop: FRect)
    | SetLayerTransform(transform: int32)
    | SetLayerVisibleRegion(visible: seq<Rect>)
    | SetLayerZOrder(z: uint32)

  predicate WellFormed(c: Command) {
    c.SetColorTransform? ==> |c.matrix| == 16
  }

  // ---------------------------------------------------------------- encoding

  function RectWords(r: Rect): seq<uint32> {
    [ToWord(r.left), ToWord(r.top), ToWord(r.right), ToWord(r.bottom)]
  }

  function RegionWords(region: seq<Rect>): (words: seq<uint32>)
    ensures |words| == 4 * |region|
  {
    if region == [] then []
    else RegionWords(region[..|region| - 1]) + RectWords(region[|region| - 1])
  }

  /** The region as sent: one that does not fit in a command is sent as no rectangle at all,
      which means "the whole layer". */
  function Sent(region: seq<Rect>, limit: nat): seq<Rect> {
    if |region| <= limit then region else []
  }

  const TARGET_RECT_LIMIT := (MAX_LENGTH - 4) / 4
  const LAYER_RECT_LIMIT := MAX_LENGTH / 4

  /** The handles a command adds to the table. */
  function Pushed(c: Command): HandleTable {
    match c
    case SetClientTarget(_, target, fence, _, _) => Listed(target) + FenceEntry(fence)
    case SetOutputBuffer(_, buffer, fence) => Listed(buffer) + FenceEntry(fence)
    case SetLayerBuffer(_, buffer, fence) => Listed(buffer) + FenceEntry(fence)
    case SetLayerSidebandStream(stream) => Listed(stream)
    case _ => []
  }

  function OpcodeOf(c: Command): Opcode {
    match c
    case SelectDisplay(_) => OpSelectDisplay
    case SelectLayer(_) => OpSelectLayer
    case SetColorTransform(_, _) => OpSetColorTransform
    case SetClientTarget(_, _, _, _, _) => OpSetClientTarget
    case SetOutputBuffer(_, _, _) => OpSetOutputBuffer
    case ValidateDisplay => OpValidateDisplay
    case PresentOrValidateDisplay => OpPresentOrValidateDisplay
    case AcceptDisplayChanges => OpAcceptDisplayChanges
    case PresentDisplay => OpPresentDisplay
    case SetLayerCursorPosition(_, _) => OpSetLayerCursorPosition
    case SetLayerBuffer(_, _, _) => OpSetLayerBuffer
    case SetLayerSurfaceDamage(_) => OpSetLayerSurfaceDamage
    case SetLayerBlendMode(_) => OpSetLayerBlendMode
    case SetLayerColor(_) => OpSetLayerColor
    case SetLayerCompositionType(_) => OpSetLayerCompositionType
    case SetLayerDataspace(_) => OpSetLayerDataspace
    case SetLayerDisplayFrame(_) => OpSetLayerDisplayFrame
    case SetLayerPlaneAlpha(_) => OpSetLayerPlaneAlpha
    case SetLayerSidebandStream(_) => OpSetLayerSidebandStream
    case SetLayerSourceCrop(_) => OpSetLayerSourceCrop
    case SetLayerTransform(_) => OpSetLayerTransform
    case SetLayerVisibleRegion(_) => OpSetLayerVisibleRegion
    case SetLayerZOrder(_) => OpSetLayerZOrder
  }

  /** True when the table can still take the handles of a command. */
  predicate HandleRoom(c: Command, base: nat) {
    Room(base, |Pushed(c)|)
  }

  function BufferArgs(slot: uint32, buffer: Option<Handle>, fence: int, base: nat): (args: seq<uint32>)
    requires Room(base, |Listed(buffer)| + |FenceEntry(fence)|)
    ensures |args| == 3
  {
    [slot, HandleWord(buffer, true, base), FenceWord(fence, base + |Listed(buffer)|)]
  }

  function Args(c: Command, base: nat): (args: seq<uint32>)
    requires WellFormed(c) && HandleRoom(c, base)
    ensures |args| <= MAX_LENGTH
  {
    match c
    case SelectDisplay(display) => [Low(display), High(display)]
    case SelectLayer(layer) => [Low(layer), High(layer)]
    case SetColorTransform(matrix, hint) => matrix + [ToWord(hint)]
    case SetClientTarget(slot, target, fence, dataspace, damage) =>
      BufferArgs(slot, target, fence, base) + [ToWord(dataspace)]
      + RegionWords(Sent(damage, TARGET_RECT_LIMIT))
    case SetOutputBuffer(slot, buffer, fence) => BufferArgs(slot, buffer, fence, base)
    case ValidateDisplay => []
    case PresentOrValidateDisplay => []
    case AcceptDisplayChanges => []
    case PresentDisplay => []
    case SetLayerCursorPosition(x, y) => [ToWord(x), ToWord(y)]
    case SetLayerBuffer(slot, buffer, fence) => BufferArgs(slot, buffer, fence, base)
    case SetLayerSurfaceDamage(damage) => RegionWords(Sent(damage, LAYER_RECT_LIMIT))
    case SetLayerBlendMode(mode) => [ToWord(mode)]
    case SetLayerColor(color) => [PackColor(color)]
    case SetLayerCompositionType(composition) => [ToWord(composition)]
    case SetLayerDataspace(dataspace) => [ToWord(dataspace)]
    case SetLayerDisplayFrame(frame) => RectWords(frame)
    case SetLayerPlaneAlpha(alpha) => [alpha]
    case SetLayerSidebandStream(stream) => [HandleWord(stream, false, base)]
    case SetLayerSourceCrop(crop) => [crop.left, crop.top, crop.right, crop.bottom]
    case SetLayerTransform(transform) => [ToWord(transform)]
    case SetLayerVisibleRegion(visible) => RegionWords(Sent(visible, LAYER_RECT_LIMIT))
    case SetLayerZOrder(z) => [z]
  }

  function Encode(c: Command, base: nat): Frame
    requires WellFormed(c) && HandleRoom(c, base)
  {
    Frame(Code(OpcodeOf(c)), Args(c, base))
  }

  /** The words of a command, one by one, where there is more than one. */
  lemma WordOrder(c: Command, base: nat)
    requires WellFormed(c) && HandleRoom(c, base)
    ensures var args := Args(c, base);
            && (c.SelectDisplay? ==> args == [c.display % 0x1_0000_0000, c.display / 0x1_0000_0000])
            && (c.SelectLayer? ==> args == [c.layer % 0x1_0000_0000, c.layer / 0x1_0000_0000])
            && (c.SetColorTransform? ==> |args| == 17 && args[..16] == c.matrix && ToSigned(args[16]) == c.hint)
            && (c.SetLayerCursorPosition? ==> |args| == 2 && ToSigned(args[0]) == c.x && ToSigned(args[1]) == c.y)
            && (c.SetLayerDisplayFrame? ==>
                  && |args| == 4 && ToSigned(args[0]) == c.frame.left && ToSigned(args[1]) == c.frame.top
                  && ToSigned(args[2]) == c.frame.right && ToSigned(args[3]) == c.frame.bottom)
            && (c.SetLayerSourceCrop? ==> args == [c.crop.left, c.crop.top, c.crop.right, c.crop.bottom])
            && (c.SetLayerColor? ==>
                  args == [c.color.r + 0x100 * c.color.g + 0x1_0000 * c.color.b + 0x100_0000 * c.color.a])
            && (c.SetOutputBuffer? || c.SetLayerBuffer? ==> |args| == 3 && args[0] == c.slot)
            && (c.SetClientTarget? ==> |args| >= 4 && args[0] == c.slot && ToSigned(args[3]) == c.dataspace)
  {
    hide RegionWords;
  }

  // ---------------------------------------------------------------- decoding

  function ReadRect(args: seq<uint32>, at: nat): Rect
    requires at + 4 <= |args|
  {
    Rect(ToSigned(args[at]), ToSigned(args[at + 1]), ToSigned(args[at + 2]), ToSigned(args[at + 3]))
  }

  function ReadRegion(args: seq<uint32>, at: nat): seq<Rect>
    requires at <= |args| && (|args| - at) % 4 == 0
  {
    seq((|args| - at) / 4, i requires 0 <= i < (|args| - at) / 4 => ReadRect(args, at + 4 * i))
  }

  function ReadSource(w: uint32, table: HandleTable): int {
    match FenceSource(w, table)
    case None => -1
    case Some(fd) => fd
  }

  /** A buffer argument stands for a handle or for the receiver's cache, never for nothing. */
  predicate ReadableBuffer(w: uint32, table: HandleTable) {
    var r := LookupHandle(w, table);
    r.handle.Some? || r.useCache
  }

  /** What the arguments of an opcode say to a receiver that reads them with the reader's
      primitives. */
  function DecodeArgs(op: Opcode, args: seq<uint32>, table: HandleTable): Option<Command> {
    var n := |args|;
    match op
    case OpSelectDisplay => if n == 2 then Some(SelectDisplay(Join(args[0], args[1]))) else None
    case OpSelectLayer => if n == 2 then Some(SelectLayer(Join(args[0], args[1]))) else None
    case OpSetColorTransform =>
      if n == 17 then Some(SetColorTransform(args[..16], ToSigned(args[16]))) else None
    case OpSetClientTarget =>
      if n >= 4 && n % 4 == 0 && ReadableBuffer(args[1], table) then
        Some(SetClientTarget(args[0], LookupHandle(args[1], table).handle, ReadSource(args[2], table),
                             ToSigned(args[3]), ReadRegion(args, 4)))
      else None
    case OpSetOutputBuffer =>
      if n == 3 && ReadableBuffer(args[1], table) then
        Some(SetOutputBuffer(args[0], LookupHandle(args[1], table).handle, ReadSource(args[2], table)))
      else None
    case OpValidateDisplay => if n == 0 then Some(ValidateDisplay) else None
    case OpPresentOrValidateDisplay => if n == 0 then Some(PresentOrValidateDisplay) else None
    case OpAcceptDisplayChanges => if n == 0 then Some(AcceptDisplayChanges) else None
    case OpPresentDisplay => if n == 0 then Some(PresentDisplay) else None
    case OpSetLayerCursorPosition =>
      if n == 2 then Some(SetLayerCursorPosition(ToSigned(args[0]), ToSigned(args[1]))) else None
    case OpSetLayerBuffer =>
      if n == 3 && ReadableBuffer(args[1], table) then
        Some(SetLayerBuffer(args[0], LookupHandle(args[1], table).handle, ReadSource(args[2], table)))
      else None
    case OpSetLayerSurfaceDamage =>
      if n % 4 == 0 then Some(SetLayerSurfaceDamage(ReadRegion(args, 0))) else None
    case OpSetLayerBlendMode => if n == 1 then Some(SetLayerBlendMode(ToSigned(args[0]))) else None
    case OpSetLayerColor => if n == 1 then Some(SetLayerColor(UnpackColor(args[0]))) else None
    case OpSetLayerCompositionType =>
      if n == 1 then Some(SetLayerCompositionType(ToSigned(args[0]))) else None
    case OpSetLayerDataspace => if n == 1 then Some(SetLayerDataspace(ToSigned(args[0]))) else None
    case OpSetLayerDisplayFrame =>
      if n == 4 then Some(SetLayerDisplayFrame(ReadRect(args, 0))) else None
    case OpSetLayerPlaneAlpha => if n == 1 then Some(SetLayerPlaneAlpha(args[0])) else None
    case OpSetLayerSidebandStream =>
      if n == 1 && !LookupHandle(args[0], table).useCache then
        Some(SetLayerSidebandStream(LookupHandle(args[0], table).handle))
      else None
    case OpSetLayerSourceCrop =>
      if n == 4 then Some(SetLayerSourceCrop(FRect(args[0], args[1], args[2], args[3]))) else None
    case OpSetLayerTransform => if n == 1 then Some(SetLayerTransform(ToSigned(args[0]))) else None
    case OpSetLayerVisibleRegion =>
      if n % 4 == 0 then Some(SetLayerVisibleRegion(ReadRegion(args, 0))) else None
    case OpSetLayerZOrder => if n == 1 then Some(SetLayerZOrder(args[0])) else None
    case _ => None
  }

  function Decode(f: Frame, table: HandleTable): Option<Command> {
    match OpcodeFor(f.op)
    case None => None
    case Some(op) => DecodeArgs(op, f.args, table)
  }

  // ---------------------------------------------------------------- round trip of one command

  /** Every negative fence reads as -1, "no fence". */
  function OrNoFence(fence: int): int { if fence >= 0 then fence else -1 }

  /** What a command means to its receiver: every negative fence is "no fence", and a rectangle
      list that is too long for one command means "everywhere". */
  function Meaning(c: Command): Command {
    match c
    case SetClientTarget(slot, target, fence, dataspace, damage) =>
      SetClientTarget(slot, target, OrNoFence(fence), dataspace, Sent(damage, TARGET_RECT_LIMIT))
    case SetOutputBuffer(slot, buffer, fence) => SetOutputBuffer(slot, buffer, OrNoFence(fence))
    case SetLayerBuffer(slot, buffer, fence) => SetLayerBuffer(slot, buffer, OrNoFence(fence))
    case SetLayerSurfaceDamage(damage) => SetLayerSurfaceDamage(Sent(damage, LAYER_RECT_LIMIT))
    case SetLayerVisibleRegion(visible) => SetLayerVisibleRegion(Sent(visible, LAYER_RECT_LIMIT))
    case _ => c
  }

  lemma {:induction false} RegionWordAt(region: seq<Rect>, i: nat)
    requires i < |region|
    ensures ReadRect(RegionWords(region), 4 * i) == region[i]
  {
    var n := |region| - 1;
    if i < n {
      RegionWordAt(region[..n], i);
    }
  }

  lemma RegionRoundTrip(args: seq<uint32>, at: nat, region: seq<Rect>)
    requires at <= |args| && args[at..] == RegionWords(region)
    ensures (|args| - at) % 4 == 0 && ReadRegion(args, at) == region
  {
    forall i | 0 <= i < |region|
      ensures ReadRect(args, at + 4 * i) == region[i]
    {
      RegionWordAt(region, i);
      assert ReadRect(args, at + 4 * i) == ReadRect(args[at..], 4 * i);
    }
  }

  lemma WholeRegionRoundTrip(region: seq<Rect>)
    ensures |RegionWords(region)| % 4 == 0 && ReadRegion(RegionWords(region), 0) == region
  {
    assert RegionWords(region)[0..] == RegionWords(region);
    RegionRoundTrip(RegionWords(region), 0, region);
  }

  lemma BufferRoundTrip(slot: uint32, buffer: Option<Handle>, fence: int, base: nat, table: HandleTable)
    requires Room(base, |Listed(buffer)| + |FenceEntry(fence)|)
    requires Holds(table, base, Listed(buffer) + FenceEntry(fence))
    ensures var args := BufferArgs(slot, buffer, fence, base);
            ReadableBuffer(args[1], table) && LookupHandle(args[1], table).handle == buffer &&
            ReadSource(args[2], table) == OrNoFence(fence)
  {
    HoldsParts(table, base, Listed(buffer), FenceEntry(fence));
    if buffer.Some? { HoldsOne(table, base, buffer); }
    if fence >= 0 { HoldsOne(table, base + |Listed(buffer)|, FenceHandle(fence)); }
    HandleRoundTrip(buffer, true, base, table);
    FenceRoundTrip(fence, base + |Listed(buffer)|, table);
  }

  lemma DecodeClientTarget(c: Command, base: nat, table: HandleTable)
    requires c.SetClientTarget? && HandleRoom(c, base) && Holds(table, base, Pushed(c))
    ensures DecodeArgs(OpcodeOf(c), Args(c, base), table) == Some(Meaning(c))
  {
    BufferRoundTrip(c.slot, c.target, c.acquireFence, base, table);
    RegionRoundTrip(Args(c, base), 4, Sent(c.damage, TARGET_RECT_LIMIT));
  }

  lemma DecodeRegion(c: Command, base: nat, table: HandleTable)
    requires c.SetLayerSurfaceDamage? || c.SetLayerVisibleRegion?
    ensures HandleRoom(c, base) && DecodeArgs(OpcodeOf(c), Args(c, base), table) == Some(Meaning(c))
  {
    hide RegionWords, ReadRegion, Sent;
    WholeRegionRoundTrip(Sent(if c.SetLayerSurfaceDamage? then c.damage else c.visible, LAYER_RECT_LIMIT));
  }

  lemma DecodeBuffer(c: Command, base: nat, table: HandleTable)
    requires c.SetOutputBuffer? || c.SetLayerBuffer? || c.SetLayerSidebandStream?
    requires HandleRoom(c, base) && Holds(table, base, Pushed(c))
    ensures DecodeArgs(OpcodeOf(c), Args(c, base), table) == Some(Meaning(c))
  {
    match c
    case SetOutputBuffer(slot, buffer, fence) => BufferRoundTrip(slot, buffer, fence, base, table);
    case SetLayerBuffer(slot, buffer, fence) => BufferRoundTrip(slot, buffer, fence, base, table);
    case SetLayerSidebandStream(stream) =>
      if stream.Some? { HoldsOne(table, base, stream); }
      HandleRoundTrip(stream, false, base, table);
  }

  lemma {:induction false} DecodeWide(c: Command, base: nat, table: HandleTable)
    requires || c.SelectDisplay? || c.SelectLayer? || c.SetColorTransform?
             || c.SetLayerCursorPosition? || c.SetLayerDisplayFrame? || c.SetLayerSourceCrop?
    requires WellFormed(c) && HandleRoom(c, base)
    ensures DecodeArgs(OpcodeOf(c), Args(c, base), table) == Some(Meaning(c))
  {
    match c
    case SelectDisplay(display) => JoinSplit(display);
    case SelectLayer(layer) => JoinSplit(layer);
    case SetColorTransform(matrix, hint) => assert Args(c, base)[..16] == matrix;
    case _ =>
  }

  lemma {:induction false} DecodeNarrow(c: Command, base: nat, table: HandleTable)
    requires WellFormed(c) && HandleRoom(c, base) && |Args(c, base)| <= 1 && !c.SetLayerSidebandStream?
    requires !c.SetLayerSurfaceDamage? && !c.SetLayerVisibleRegion?
    ensures DecodeArgs(OpcodeOf(c), Args(c, base), table) == Some(Meaning(c))
  {
    if c.SetLayerColor? { ColorRoundTrip(c.color); }
  }

  lemma {:induction false} DecodeEncodeArgs(c: Command, base: nat, table: HandleTable)
    requires WellFormed(c) && HandleRoom(c, base) && Holds(table, base, Pushed(c))
    ensures DecodeArgs(OpcodeOf(c), Args(c, base), table) == Some(Meaning(c))
  {
    hide DecodeArgs, Meaning, Holds, HandleRoom, WellFormed, OpcodeOf;
    if c.SetClientTarget? {
      DecodeClientTarget(c, base, table);
    } else if c.SetOutputBuffer? || c.SetLayerBuffer? || c.SetLayerSidebandStream? {
      DecodeBuffer(c, base, table);
    } else if c.SetLayerSurfaceDamage? || c.SetLayerVisibleRegion? {
      DecodeRegion(c, base, table);
    } else if || c.SelectDisplay? || c.SelectLayer? || c.SetColorTransform? || c.SetLayerCursorPosition?
              || c.SetLayerDisplayFrame? || c.SetLayerSourceCrop? {
      DecodeWide(c, base, table);
    } else {
      DecodeNarrow(c, base, table);
    }
  }

  /** Decoding an encoded command gives back its meaning, whatever else is in the table. */
  lemma DecodeEncode(c: Command, base: nat, table: HandleTable)
    requires WellFormed(c) && HandleRoom(c, base) && Holds(table, base, Pushed(c))
    ensures Decode(Encode(c, base), table) == Some(Meaning(c))
  {
    OpcodeRoundTrip(OpcodeOf(c));
    DecodeEncodeArgs(c, base, table);
  }

  /** Nothing is lost of a command whose fence is one or -1 and whose region has up to 16383 rectangles,
      16382 for a client target. */
  lemma MeaningIsWhole(c: Command)
    requires c.SetClientTarget? ==> c.acquireFence >= -1 && |c.damage| <= 16382
    requires c.SetOutputBuffer? ==> c.releaseFence >= -1
    requires c.SetLayerBuffer? ==> c.acquireFence >= -1
    requires c.SetLayerSurfaceDamage? ==> |c.damage| <= 16383
    requires c.SetLayerVisibleRegion? ==> |c.visible| <= 16383
    ensures Meaning(c) == c
  {
  }

  // ---------------------------------------------------------------- whole batches

  function PushedAll(cs: seq<Command>): HandleTable {
    if cs == [] then [] else PushedAll(cs[..|cs| - 1]) + Pushed(cs[|cs| - 1])
  }

  predicate Encodable(cs: seq<Command>) {
    && (forall c | c in cs :: WellFormed(c))
    && |PushedAll(cs)| <= MAX_HANDLES
  }

  /** The frames of a batch: each command indexes the handles pushed before it. */
  function EncodeAll(cs: seq<Command>): (fs: seq<Frame>)
    requires Encodable(cs)
    ensures |fs| == |cs|
  {
    if cs == [] then []
    else
      var init, last := cs[..|cs| - 1], cs[|cs| - 1];
      EncodeAll(init) + [Encode(last, |PushedAll(init)|)]
  }

  function DecodeAll(fs: seq<Frame>, table: HandleTable): Option<seq<Command>> {
    if fs == [] then Some([])
    else match (DecodeAll(fs[..|fs| - 1], table), Decode(fs[|fs| - 1], table))
      case (Some(cs), Some(c)) => Some(cs + [c])
      case _ => None
  }

  function Meanings(cs: seq<Command>): seq<Command> {
    if cs == [] then [] else Meanings(cs[..|cs| - 1]) + [Meaning(cs[|cs| - 1])]
  }

  lemma DecodeAllSnoc(fs: seq<Frame>, f: Frame, table: HandleTable, cs: seq<Command>, c: Command)
    requires DecodeAll(fs, table) == Some(cs) && Decode(f, table) == Some(c)
    ensures DecodeAll(fs + [f], table) == Some(cs + [c])
  {
    assert (fs + [f])[..|fs + [f]| - 1] == fs;
  }

  lemma {:induction false} DecodeEncodeAll(cs: seq<Command>, table: HandleTable)
    requires Encodable(cs) && PushedAll(cs) <= table
    ensures DecodeAll(EncodeAll(cs), table) == Some(Meanings(cs))
  {
    if cs != [] {
      var init, last := cs[..|cs| - 1], cs[|cs| - 1];
      assert last in cs;
      HoldsPrefix(table, PushedAll(init), Pushed(last));
      DecodeEncodeAll(init, table);
      DecodeEncode(last, |PushedAll(init)|, table);
      DecodeAllSnoc(EncodeAll(init), Encode(last, |PushedAll(init)|), table, Meanings(init), Meaning(last));
    }
  }
}
