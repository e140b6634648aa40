/** The composer proxy: it batches calls with its writer, ships the batch, reads the reply with
    its reader, and traces the errors reported back to the commands that caused them. */
module Composers {
  import opened Words
  import opened Wire
  import opened Commands
  import opened Batching
  import ReaderState
  import opened ReaderInvariants
  import opened MessageQueues
  import opened CommandWriters
  import opened CommandReaders
  import opened ErrorTracing
  import InputQueues

  const NO_ERROR := ReaderState.NO_ERROR
  const NO_RESOURCES := ReaderState.NO_RESOURCES

  // ---------------------------------------------------------------- the batch

  /** The writer holds exactly the given calls. */
  ghost predicate Batched(batch: seq<Call>, frames: seq<Frame>, handles: HandleTable) {
    && (forall call | call in batch :: ValidCall(call)) && Encodable(ExpandAll(batch))
    && frames == EncodeAll(ExpandAll(batch)) && handles == PushedAll(ExpandAll(batch))
  }

  function Extended(handles: HandleTable, c: Command): (extended: HandleTable)
    ensures extended == handles + Pushed(c)
  {
    if Pushed(c) == [] then handles else handles + Pushed(c)
  }

  /** A batch grows by a call when the writer's frames and handles grow by its commands. */
  lemma BatchGrows(batch: seq<Call>, call: Call, cs: seq<Command>, frames: seq<Frame>, handles: HandleTable)
    requires (forall call | call in batch :: ValidCall(call)) && ValidCall(call)
    requires cs == ExpandAll(batch) + Expand(call) && Encodable(cs)
    requires frames == EncodeAll(cs) && handles == PushedAll(cs)
    ensures Batched(batch + [call], frames, handles)
  {
    hide ValidCall, Encodable, EncodeAll, PushedAll, ExpandAll, Expand;
    ExpandSnoc(batch, call);
  }

  lemma BatchDisplayCall(batch: seq<Call>, frames: seq<Frame>, handles: HandleTable, display: uint64, c: Command)
    requires Batched(batch, frames, handles) && HandleRoom(c, |handles|)
    requires ValidCall(OnDisplay(display, c))
    ensures Batched(batch + [OnDisplay(display, c)],
                    frames + [Encode(SelectDisplay(display), |handles|)] + [Encode(c, |handles|)],
                    Extended(handles, c))
  {
    var cs, select := ExpandAll(batch), SelectDisplay(display);
    assert cs + Expand(OnDisplay(display, c)) == cs + [select] + [c];
    hide EncodeAll, PushedAll, Encodable, Encode, Pushed, ExpandAll, Expand, HandleRoom;
    EncodeSelection(cs, select);
    EncodeSnoc(cs + [select], c);
    BatchGrows(batch, OnDisplay(display, c), cs + [select] + [c],
               frames + [Encode(select, |handles|)] + [Encode(c, |handles|)], Extended(handles, c));
  }

  lemma BatchLayerCall(batch: seq<Call>, frames: seq<Frame>, handles: HandleTable, display: uint64, layer: uint64,
                       c: Command)
    requires Batched(batch, frames, handles) && HandleRoom(c, |handles|)
    requires ValidCall(OnLayer(display, layer, c))
    ensures Batched(batch + [OnLayer(display, layer, c)],
                    frames + [Encode(SelectDisplay(display), |handles|)] + [Encode(SelectLayer(layer), |handles|)]
                    + [Encode(c, |handles|)],
                    Extended(handles, c))
  {
    var cs, select, also := ExpandAll(batch), SelectDisplay(display), SelectLayer(layer);
    assert cs + Expand(OnLayer(display, layer, c)) == cs + [select] + [also] + [c];
    hide EncodeAll, PushedAll, Encodable, Encode, Pushed, ExpandAll, Expand, HandleRoom;
    EncodeSelection(cs, select);
    EncodeSelection(cs + [select], also);
    EncodeSnoc(cs + [select] + [also], c);
    BatchGrows(batch, OnLayer(display, layer, c), cs + [select] + [also] + [c],
               frames + [Encode(select, |handles|)] + [Encode(also, |handles|)] + [Encode(c, |handles|)],
               Extended(handles, c));
  }

  // ---------------------------------------------------------------- replies

  /** What the service answers to a batch; with `NoReply` the transport failed.  A new output queue
      may come with it, and `length` words of the reply wait in that queue or in the present one. */
  datatype Reply =
    | NoReply
    | Reply(error: int32, outChanged: bool, queueError: int32, length: uint32, handles: HandleTable)

  /** Everything about one batch that is not the proxy's own doing: whether a new queue can be
      allocated and what the service says to it, how much of the batch the service reads, its
      answer, and whether the descriptor of a new output queue can be mapped. */
  datatype Service = Service(queueOk: bool, inputQueueError: int32, peerRead: nat, reply: Reply, descriptorValid: bool)

  /** What the proxy makes of a reply when `queued` is what the output queue holds, if there is one. */
  ghost function Heard(reply: Reply, queued: Option<seq<uint32>>, dup: ReaderState.Dup, s: ReaderState.State)
    : ReaderState.Parsed
    requires ReaderState.Keyed(s)
  {
    if reply.NoReply? then ReaderState.Parsed(s, NO_RESOURCES)
    else if reply.error != NO_ERROR then ReaderState.Parsed(s, reply.error)
    else if reply.outChanged && reply.queueError != NO_ERROR then ReaderState.Parsed(s, reply.queueError)
    else if queued.None? || reply.length > |queued.value| then ReaderState.Parsed(s, NO_RESOURCES)
    else ReaderState.Parse(s, queued.value[..reply.length], reply.handles, dup)
  }

  /** The reply is taken without error exactly when the service reports none, the queue it names can be
      read, it holds the announced words, and these split into commands of which all but possibly
      the last are understood. */
  lemma HeardWithoutErrorIff(reply: Reply, queued: Option<seq<uint32>>, dup: ReaderState.Dup, s: ReaderState.State)
    requires ReaderState.Keyed(s)
    ensures Heard(reply, queued, dup, s).error == NO_ERROR
            <==> && reply.Reply? && reply.error == NO_ERROR && (reply.outChanged ==> reply.queueError == NO_ERROR)
                 && queued.Some? && reply.length <= |queued.value|
                 && exists fs :: queued.value[..reply.length] == Flatten(fs)
                                 && AllButLastAccepted(ReadMessages(fs, reply.handles), false)
  {
    if reply.Reply? && queued.Some? && reply.length <= |queued.value| {
      ParseNoneIff(queued.value[..reply.length], reply.handles, dup, ReaderState.ResetData(s));
    }
  }

  /** What remains of that once the errors have been traced to the batch's own words. */
  function Settled(heard: ReaderState.Parsed, words: seq<uint32>): ReaderState.Parsed {
    var errors := heard.state.errors;
    if heard.error != NO_ERROR then heard
    else ReaderState.Parsed(ReaderState.TakeErrors(heard.state), Traced(errors, |errors|, words))
  }

  lemma EmptyBatch(batch: seq<Call>, frames: seq<Frame>, handles: HandleTable)
    requires Batched(batch, frames, handles)
    ensures frames == [] <==> batch == []
  {
    if batch != [] {
      assert Expand(batch[|batch| - 1]) != [];
    }
  }

  /** However a reply is taken, the reader's results stay sound. */
  lemma HeardSound(reply: Reply, queued: Option<seq<uint32>>, dup: ReaderState.Dup, s: ReaderState.State)
    requires Sound(s)
    ensures ReaderState.Keyed(s) && Sound(Heard(reply, queued, dup, s).state)
    ensures Sound(ReaderState.TakeErrors(Heard(reply, queued, dup, s).state))
  {
    hide Sound, ReaderState.Parse, ReaderState.TakeErrors;
    ResetSound(s);
    if reply.Reply? && queued.Some? && reply.length <= |queued.value| {
      ParseSound(s, queued.value[..reply.length], reply.handles, dup);
    }
    TakeSound(Heard(reply, queued, dup, s).state, 0);
  }

  /** What becomes of the results and which error is returned when a batch of these words is executed:
      it cannot be sent, there is nothing to send, or the service answers it. */
  function Ran(q: InputQueues.Queues, a: InputQueues.Attempt, words: seq<uint32>, answer: ReaderState.Parsed,
               s: ReaderState.State): ReaderState.Parsed
  {
    if !InputQueues.Ships(q, a) then ReaderState.Parsed(s, if a.queueOk then a.inputQueueError else NO_RESOURCES)
    else if words == [] then ReaderState.Parsed(s, NO_ERROR)
    else Settled(answer, words)
  }

  /** An execution ends without an error exactly when the batch is sent and either is empty or was
      answered without an error of its own or of a decisive command; the results are then those of the
      answer, and on a failure before it those there were. */
  lemma RanWithoutErrorIff(q: InputQueues.Queues, a: InputQueues.Attempt, words: seq<uint32>,
                           answer: ReaderState.Parsed, s: ReaderState.State)
    ensures Ran(q, a, words, answer, s).error == NO_ERROR
            <==> && InputQueues.Ships(q, a)
                 && (words != [] ==>
                       && answer.error == NO_ERROR
                       && Traced(answer.state.errors, |answer.state.errors|, words) == NO_ERROR)
    ensures Ran(q, a, words, answer, s).state
            == if !InputQueues.Ships(q, a) || words == [] then s
               else if answer.error == NO_ERROR then ReaderState.TakeErrors(answer.state) else answer.state
  {
    hide Traced, InputQueues.Fits;
  }

  /** The capacity of the buffer once a call of four words is batched, three to select the display. */
  function CapacityFor(maxSize: uint32, written: uint32): uint32
    requires written + 4 <= UINT32_MAX
  {
    Grown(Grown(maxSize, written + 3), written + 4)
  }

  /** The words a batch is encoded in. */
  function WordsOf(batch: seq<Call>): seq<uint32> {
    if Encodable(ExpandAll(batch)) then Flatten(EncodeAll(ExpandAll(batch))) else []
  }

  lemma BatchedWords(batch: seq<Call>, frames: seq<Frame>, handles: HandleTable)
    requires Batched(batch, frames, handles)
    ensures WordsOf(batch) == Flatten(frames)
  {
  }

  /** The present-or-validate state a caller gets for a display. */
  function Stage(s: ReaderState.State, display: uint64, indeterminate: uint32): uint32 {
    if display !in s.data then UINT32_MAX
    else if s.data[display].presentOrValidateState.None? then indeterminate
    else s.data[display].presentOrValidateState.value
  }

  /** What a transaction hands over: the words in the queue, the handles beside them, and whether the
      queue is one the service has. */
  datatype Shipment = Shipment(words: seq<uint32>, handles: HandleTable, shared: bool)

  /** The service is handed something exactly when a non-empty batch is sent; what it can recover from
      the words and handles is the calls batched, and `shared` says whether it can read them. */
  ghost predicate HandsOver(sent: Option<Shipment>, batch: seq<Call>, sends: bool, shared: bool) {
    && (sent.Some? <==> sends && batch != [])
    && (sent.Some? ==>
          && Received(sent.value.words, sent.value.handles) == Some(CallMeanings(batch))
          && sent.value.shared == shared)
  }

  lemma WholeBatch(batch: seq<Call>, frames: seq<Frame>, handles: HandleTable, sends: bool, shared: bool)
    requires Batched(batch, frames, handles)
    ensures HandsOver(if sends && frames != [] then Some(Shipment(Flatten(frames), handles, shared)) else None,
                      batch, sends, shared)
    ensures Batched([], [], [])
  {
    BatchingPreservesMeaning(batch);
    hide Flatten, Received, CallMeanings;
    EmptyBatch(batch, frames, handles);
    NoCalls();
  }

  lemma NoCalls()
    ensures Batched([], [], [])
  {
  }

  /** What the service leaves in the queue; it reads all the words it asks for or none. */
  function Unread(words: seq<uint32>, peerRead: nat): seq<uint32> {
    if peerRead <= |words| then words[peerRead..] else words
  }

  /** The reader's cursor cannot wrap on a reply. */
  predicate Readable(reply: Reply) {
    reply.Reply? ==> reply.length + MAX_LENGTH <= UINT32_MAX
  }

  lemma NoWords(frames: seq<Frame>)
    ensures |Flatten(frames)| == 0 <==> frames == []
  {
  }

  // ---------------------------------------------------------------- the proxy

  class Composer {
    const writer: CommandWriter
    const reader: CommandReader

    /** The calls batched since the last batch was shipped. */
    ghost var batch: seq<Call>

    /** The queue the service reads batches from. */
    ghost var serviceQueue: MessageQueue?

    /** Every batch executed so far, as far as its queue is concerned. */
    ghost var attempts: seq<InputQueues.Attempt>

    /** What the last execution handed to the service, if it came to that. */
    ghost var sent: Option<Shipment>

    /** The writer's side: its buffer and handle table hold exactly the batched calls. */
    ghost predicate Valid()
      reads this, writer, writer.data
    {
      writer.Valid() && Batched(batch, writer.frames, writer.dataHandles)
    }

    /** The reader's side: between two batches, with results in which nothing is lost.  Batching a call
        leaves it alone. */
    ghost predicate Ready()
      reads this, writer, writer.queue, reader, reader.data, reader.queue
    {
      && reader.Valid() && reader.Idle() && ReaderState.Keyed(reader.Abs()) && Sound(reader.Abs())
      && reader.QueueValid() && writer.QueueValid()
      && writer.data != reader.data && (writer.queue == null || writer.queue != reader.queue)
      && Queues() == InputQueues.After(attempts, |attempts|)
    }

    /** The writer's queue, and whether the service has it. */
    ghost function Queues(): InputQueues.Queues
      reads this, writer
    {
      if writer.queue == null then InputQueues.NO_QUEUE
      else InputQueues.Queues(Some(writer.queue.capacity), writer.queue == serviceQueue)
    }

    constructor (initialMaxSize: uint32, dup: ReaderState.Dup)
      ensures Valid() && Ready() && batch == [] && attempts == [] && fresh(writer) && fresh(reader)
      ensures fresh(writer.data) && fresh(reader.data)
    {
      writer := new CommandWriter(initialMaxSize);
      reader := new CommandReader(dup);
      batch, serviceQueue, attempts, sent := [], null, [], None;
    }

    // -------------------------------------------------------------- batched calls
    //
    // They always succeed.  Their preconditions are those of the writer: the buffer's size must
    // fit a word, and the indices of the handle table a signed word.

    method SelectLayer(display: uint64, layer: uint64)
      requires writer.Valid() && writer.CanGrow(6)
      modifies writer`data, writer`dataMaxSize, writer`usage, writer`dataWritten, writer`commandEnd
      modifies writer`open, writer`frames, writer.data
      ensures writer.Valid() && (writer.data == old(writer.data) || fresh(writer.data))
      ensures writer.dataWritten == old(writer.dataWritten) + 6
      ensures writer.frames == old(writer.frames) + [Encode(Command.SelectDisplay(display), |writer.dataHandles|)]
                                                  + [Encode(Command.SelectLayer(layer), |writer.dataHandles|)]
    {
      SelectDisplay(display);
      FlattenSnoc(writer.frames, Encode(Command.SelectLayer(layer), |writer.dataHandles|));
      writer.SelectLayer(layer);
    }

    method SelectDisplay(display: uint64)
      requires writer.Valid() && writer.CanGrow(3)
      modifies writer`data, writer`dataMaxSize, writer`usage, writer`dataWritten, writer`commandEnd
      modifies writer`open, writer`frames, writer.data
      ensures writer.Valid() && (writer.data == old(writer.data) || fresh(writer.data))
      ensures writer.dataWritten == old(writer.dataWritten) + 3
      ensures writer.dataMaxSize == Grown(old(writer.dataMaxSize), old(writer.dataWritten) + 3)
      ensures writer.frames == old(writer.frames) + [Encode(Command.SelectDisplay(display), |writer.dataHandles|)]
    {
      FlattenSnoc(writer.frames, Encode(Command.SelectDisplay(display), |writer.dataHandles|));
      writer.SelectDisplay(display);
    }

    method SetClientTarget(display: uint64, slot: uint32, target: Option<Handle>,
                           acquireFence: int, handleOk: bool, dataspace: int32, damage: seq<Rect>)
      requires Valid() && writer.CanGrow(3 + 5 + 4 * |Sent(damage, TARGET_RECT_LIMIT)|)
      requires Room(|writer.dataHandles|, |Listed(target)| + |FenceEntry(Delivered(acquireFence, handleOk))|)
      modifies this`batch, writer`data, writer`dataMaxSize, writer`usage, writer`dataWritten, writer`commandEnd
      modifies writer`open, writer`frames, writer.data
      modifies writer`dataHandles, writer`temporaryHandles, writer`fences
      ensures Valid() && (writer.data == old(writer.data) || fresh(writer.data))
      ensures var fence := Delivered(acquireFence, handleOk);
              batch == old(batch)
                       + [OnDisplay(display, Command.SetClientTarget(slot, target, fence, dataspace, damage))]
      ensures writer.Kept() == Entrust(old(writer.Kept()), acquireFence, handleOk)
    {
      hide Batched, ReaderState.Keyed, Sound, Located, Flatten, Encode, InCustody, Amortised, Backed;
      ghost var fence := Delivered(acquireFence, handleOk);
      ghost var call := OnDisplay(display, Command.SetClientTarget(slot, target, fence, dataspace, damage));
      BatchDisplayCall(batch, writer.frames, writer.dataHandles, display, call.command);
      hide Pushed, Extended, FenceEntry, Listed;
      SelectDisplay(display);
      writer.SetClientTarget(slot, target, acquireFence, handleOk, dataspace, damage);
      batch := batch + [call];
    }

    method SetColorTransform(display: uint64, matrix: seq<uint32>, hint: int32)
      requires Valid() && writer.CanGrow(3 + 18)
      requires |matrix| == 16
      modifies this`batch, writer`data, writer`dataMaxSize, writer`usage, writer`dataWritten, writer`commandEnd
      modifies writer`open, writer`frames, writer.data
      ensures Valid() && (writer.data == old(writer.data) || fresh(writer.data))
      ensures batch == old(batch) + [OnDisplay(display, Command.SetColorTransform(matrix, hint))]
    {
      hide Batched, ReaderState.Keyed, Sound, Located, Flatten, Encode, InCustody, Amortised, Backed;
      ghost var call := OnDisplay(display, Command.SetColorTransform(matrix, hint));
      BatchDisplayCall(batch, writer.frames, writer.dataHandles, display, call.command);
      SelectDisplay(display);
      writer.SetColorTransform(matrix, hint);
      batch := batch + [call];
    }

    /** The writer takes over what duplicating the fence returns, and the caller keeps its own. */
    method SetOutputBuffer(display: uint64, buffer: Option<Handle>, releaseFence: int, dup: int -> int, handleOk: bool)
      requires Valid() && writer.CanGrow(3 + 4)
      requires Room(|writer.dataHandles|, |Listed(buffer)| + |FenceEntry(Delivered(dup(releaseFence), handleOk))|)
      modifies this`batch, writer`data, writer`dataMaxSize, writer`usage, writer`dataWritten, writer`commandEnd
      modifies writer`open, writer`frames, writer.data
      modifies writer`dataHandles, writer`temporaryHandles, writer`fences
      ensures Valid() && (writer.data == old(writer.data) || fresh(writer.data))
      ensures var fence := Delivered(dup(releaseFence), handleOk);
              batch == old(batch) + [OnDisplay(display, Command.SetOutputBuffer(0, buffer, fence))]
      ensures writer.Kept() == Entrust(old(writer.Kept()), dup(releaseFence), handleOk)
    {
      hide Batched, ReaderState.Keyed, Sound, Located, Flatten, Encode, InCustody, Amortised, Backed;
      var duplicate := dup(releaseFence);
      ghost var call := OnDisplay(display, Command.SetOutputBuffer(0, buffer, Delivered(duplicate, handleOk)));
      BatchDisplayCall(batch, writer.frames, writer.dataHandles, display, call.command);
      hide Pushed, Extended, FenceEntry, Listed;
      SelectDisplay(display);
      writer.SetOutputBuffer(0, buffer, duplicate, handleOk);
      batch := batch + [call];
    }

    method AcceptDisplayChanges(display: uint64)
      requires Valid() && writer.CanGrow(3 + 1)
      modifies this`batch, writer`data, writer`dataMaxSize, writer`usage, writer`dataWritten, writer`commandEnd
      modifies writer`open, writer`frames, writer.data
      ensures Valid() && (writer.data == old(writer.data) || fresh(writer.data))
      ensures batch == old(batch) + [OnDisplay(display, Command.AcceptDisplayChanges)]
    {
      hide Batched, ReaderState.Keyed, Sound, Located, Flatten, Encode, InCustody, Amortised, Backed;
      ghost var call := OnDisplay(display, Command.AcceptDisplayChanges);
      BatchDisplayCall(batch, writer.frames, writer.dataHandles, display, call.command);
      SelectDisplay(display);
      writer.AcceptDisplayChanges();
      batch := batch + [call];
    }

    // The commands that the calls at the end of this class begin with.

    method BatchValidate(display: uint64)
      requires Valid() && writer.CanGrow(3 + 1)
      modifies this`batch, writer`data, writer`dataMaxSize, writer`usage, writer`dataWritten, writer`commandEnd
      modifies writer`open, writer`frames, writer.data
      ensures Valid() && (writer.data == old(writer.data) || fresh(writer.data))
      ensures batch == old(batch) + [OnDisplay(display, Command.ValidateDisplay)]
      ensures writer.dataMaxSize == CapacityFor(old(writer.dataMaxSize), old(writer.dataWritten))
    {
      hide Batched, ReaderState.Keyed, Sound, Located, Flatten, Encode, InCustody, Amortised, Backed, Grown;
      ghost var call := OnDisplay(display, Command.ValidateDisplay);
      BatchDisplayCall(batch, writer.frames, writer.dataHandles, display, call.command);
      SelectDisplay(display);
      writer.ValidateDisplay();
      batch := batch + [call];
    }

    method BatchPresent(display: uint64)
      requires Valid() && writer.CanGrow(3 + 1)
      modifies this`batch, writer`data, writer`dataMaxSize, writer`usage, writer`dataWritten, writer`commandEnd
      modifies writer`open, writer`frames, writer.data
      ensures Valid() && (writer.data == old(writer.data) || fresh(writer.data))
      ensures batch == old(batch) + [OnDisplay(display, Command.PresentDisplay)]
      ensures writer.dataMaxSize == CapacityFor(old(writer.dataMaxSize), old(writer.dataWritten))
    {
      hide Batched, ReaderState.Keyed, Sound, Located, Flatten, Encode, InCustody, Amortised, Backed, Grown;
      ghost var call := OnDisplay(display, Command.PresentDisplay);
      BatchDisplayCall(batch, writer.frames, writer.dataHandles, display, call.command);
      SelectDisplay(display);
      writer.PresentDisplay();
      batch := batch + [call];
    }

    method BatchPresentOrValidate(display: uint64)
      requires Valid() && writer.CanGrow(3 + 1)
      modifies this`batch, writer`data, writer`dataMaxSize, writer`usage, writer`dataWritten, writer`commandEnd
      modifies writer`open, writer`frames, writer.data
      ensures Valid() && (writer.data == old(writer.data) || fresh(writer.data))
      ensures batch == old(batch) + [OnDisplay(display, Command.PresentOrValidateDisplay)]
      ensures writer.dataMaxSize == CapacityFor(old(writer.dataMaxSize), old(writer.dataWritten))
    {
      hide Batched, ReaderState.Keyed, Sound, Located, Flatten, Encode, InCustody, Amortised, Backed, Grown;
      ghost var call := OnDisplay(display, Command.PresentOrValidateDisplay);
      BatchDisplayCall(batch, writer.frames, writer.dataHandles, display, call.command);
      SelectDisplay(display);
      writer.PresentOrValidateDisplay();
      batch := batch + [call];
    }

    method SetLayerCursorPosition(display: uint64, layer: uint64, x: int32, y: int32)
      requires Valid() && writer.CanGrow(6 + 3)
      modifies this`batch, writer`data, writer`dataMaxSize, writer`usage, writer`dataWritten, writer`commandEnd
      modifies writer`open, writer`frames, writer.data
      ensures Valid() && (writer.data == old(writer.data) || fresh(writer.data))
      ensures batch == old(batch) + [OnLayer(display, layer, Command.SetLayerCursorPosition(x, y))]
    {
      hide Batched, ReaderState.Keyed, Sound, Located, Flatten, Encode, InCustody, Amortised, Backed;
      ghost var call := OnLayer(display, layer, Command.SetLayerCursorPosition(x, y));
      BatchLayerCall(batch, writer.frames, writer.dataHandles, display, layer, call.command);
      SelectLayer(display, layer);
      writer.SetLayerCursorPosition(x, y);
      batch := batch + [call];
    }

    method SetLayerBuffer(display: uint64, layer: uint64, slot: uint32, buffer: Option<Handle>,
                          acquireFence: int, handleOk: bool)
      requires Valid() && writer.CanGrow(6 + 4)
      requires Room(|writer.dataHandles|, |Listed(buffer)| + |FenceEntry(Delivered(acquireFence, handleOk))|)
      modifies this`batch, writer`data, writer`dataMaxSize, writer`usage, writer`dataWritten, writer`commandEnd
      modifies writer`open, writer`frames, writer.data
      modifies writer`dataHandles, writer`temporaryHandles, writer`fences
      ensures Valid() && (writer.data == old(writer.data) || fresh(writer.data))
      ensures var fence := Delivered(acquireFence, handleOk);
              batch == old(batch) + [OnLayer(display, layer, Command.SetLayerBuffer(slot, buffer, fence))]
      ensures writer.Kept() == Entrust(old(writer.Kept()), acquireFence, handleOk)
    {
      hide Batched, ReaderState.Keyed, Sound, Located, Flatten, Encode, InCustody, Amortised, Backed;
      ghost var fence := Delivered(acquireFence, handleOk);
      ghost var call := OnLayer(display, layer, Command.SetLayerBuffer(slot, buffer, fence));
      BatchLayerCall(batch, writer.frames, writer.dataHandles, display, layer, call.command);
      hide Pushed, Extended, FenceEntry, Listed;
      SelectLayer(display, layer);
      writer.SetLayerBuffer(slot, buffer, acquireFence, handleOk);
      batch := batch + [call];
    }

    method SetLayerSurfaceDamage(display: uint64, layer: uint64, damage: seq<Rect>)
      requires Valid() && writer.CanGrow(6 + 1 + 4 * |Sent(damage, LAYER_RECT_LIMIT)|)
      modifies this`batch, writer`data, writer`dataMaxSize, writer`usage, writer`dataWritten, writer`commandEnd
      modifies writer`open, writer`frames, writer.data
      ensures Valid() && (writer.data == old(writer.data) || fresh(writer.data))
      ensures batch == old(batch) + [OnLayer(display, layer, Command.SetLayerSurfaceDamage(damage))]
    {
      hide Batched, ReaderState.Keyed, Sound, Located, Flatten, Encode, InCustody, Amortised, Backed;
      ghost var call := OnLayer(display, layer, Command.SetLayerSurfaceDamage(damage));
      BatchLayerCall(batch, writer.frames, writer.dataHandles, display, layer, call.command);
      SelectLayer(display, layer);
      writer.SetLayerSurfaceDamage(damage);
      batch := batch + [call];
    }

    method SetLayerBlendMode(display: uint64, layer: uint64, mode: int32)
      requires Valid() && writer.CanGrow(6 + 2)
      modifies this`batch, writer`data, writer`dataMaxSize, writer`usage, writer`dataWritten, writer`commandEnd
      modifies writer`open, writer`frames, writer.data
      ensures Valid() && (writer.data == old(writer.data) || fresh(writer.data))
      ensures batch == old(batch) + [OnLayer(display, layer, Command.SetLayerBlendMode(mode))]
    {
      hide Batched, ReaderState.Keyed, Sound, Located, Flatten, Encode, InCustody, Amortised, Backed;
      ghost var call := OnLayer(display, layer, Command.SetLayerBlendMode(mode));
      BatchLayerCall(batch, writer.frames, writer.dataHandles, display, layer, call.command);
      SelectLayer(display, layer);
      writer.SetLayerBlendMode(mode);
      batch := batch + [call];
    }

    method SetLayerColor(display: uint64, layer: uint64, color: Color)
      requires Valid() && writer.CanGrow(6 + 2)
      modifies this`batch, writer`data, writer`dataMaxSize, writer`usage, writer`dataWritten, writer`commandEnd
      modifies writer`open, writer`frames, writer.data
      ensures Valid() && (writer.data == old(writer.data) || fresh(writer.data))
      ensures batch == old(batch) + [OnLayer(display, layer, Command.SetLayerColor(color))]
    {
      hide Batched, ReaderState.Keyed, Sound, Located, Flatten, Encode, InCustody, Amortised, Backed;
      ghost var call := OnLayer(display, layer, Command.SetLayerColor(color));
      BatchLayerCall(batch, writer.frames, writer.dataHandles, display, layer, call.command);
      SelectLayer(display, layer);
      writer.SetLayerColor(color);
      batch := batch + [call];
    }

    method SetLayerCompositionType(display: uint64, layer: uint64, composition: int32)
      requires Valid() && writer.CanGrow(6 + 2)
      modifies this`batch, writer`data, writer`dataMaxSize, writer`usage, writer`dataWritten, writer`commandEnd
      modifies writer`open, writer`frames, writer.data
      ensures Valid() && (writer.data == old(writer.data) || fresh(writer.data))
      ensures batch == old(batch) + [OnLayer(display, layer, Command.SetLayerCompositionType(composition))]
    {
      hide Batched, ReaderState.Keyed, Sound, Located, Flatten, Encode, InCustody, Amortised, Backed;
      ghost var call := OnLayer(display, layer, Command.SetLayerCompositionType(composition));
      BatchLayerCall(batch, writer.frames, writer.dataHandles, display, layer, call.command);
      SelectLayer(display, layer);
      writer.SetLayerCompositionType(composition);
      batch := batch + [call];
    }

    method SetLayerDataspace(display: uint64, layer: uint64, dataspace: int32)
      requires Valid() && writer.CanGrow(6 + 2)
      modifies this`batch, writer`data, writer`dataMaxSize, writer`usage, writer`dataWritten, writer`commandEnd
      modifies writer`open, writer`frames, writer.data
      ensures Valid() && (writer.data == old(writer.data) || fresh(writer.data))
      ensures batch == old(batch) + [OnLayer(display, layer, Command.SetLayerDataspace(dataspace))]
    {
      hide Batched, ReaderState.Keyed, Sound, Located, Flatten, Encode, InCustody, Amortised, Backed;
      ghost var call := OnLayer(display, layer, Command.SetLayerDataspace(dataspace));
      BatchLayerCall(batch, writer.frames, writer.dataHandles, display, layer, call.command);
      SelectLayer(display, layer);
      writer.SetLayerDataspace(dataspace);
      batch := batch + [call];
    }

    method SetLayerDisplayFrame(display: uint64, layer: uint64, frame: Rect)
      requires Valid() && writer.CanGrow(6 + 5)
      modifies this`batch, writer`data, writer`dataMaxSize, writer`usage, writer`dataWritten, writer`commandEnd
      modifies writer`open, writer`frames, writer.data
      ensures Valid() && (writer.data == old(writer.data) || fresh(writer.data))
      ensures batch == old(batch) + [OnLayer(display, layer, Command.SetLayerDisplayFrame(frame))]
    {
      hide Batched, ReaderState.Keyed, Sound, Located, Flatten, Encode, InCustody, Amortised, Backed;
      ghost var call := OnLayer(display, layer, Command.SetLayerDisplayFrame(frame));
      BatchLayerCall(batch, writer.frames, writer.dataHandles, display, layer, call.command);
      SelectLayer(display, layer);
      writer.SetLayerDisplayFrame(frame);
      batch := batch + [call];
    }

    method SetLayerPlaneAlpha(display: uint64, layer: uint64, alpha: uint32)
      requires Valid() && writer.CanGrow(6 + 2)
      modifies this`batch, writer`data, writer`dataMaxSize, writer`usage, writer`dataWritten, writer`commandEnd
      modifies writer`open, writer`frames, writer.data
      ensures Valid() && (writer.data == old(writer.data) || fresh(writer.data))
      ensures batch == old(batch) + [OnLayer(display, layer, Command.SetLayerPlaneAlpha(alpha))]
    {
      hide Batched, ReaderState.Keyed, Sound, Located, Flatten, Encode, InCustody, Amortised, Backed;
      ghost var call := OnLayer(display, layer, Command.SetLayerPlaneAlpha(alpha));
      BatchLayerCall(batch, writer.frames, writer.dataHandles, display, layer, call.command);
      SelectLayer(display, layer);
      writer.SetLayerPlaneAlpha(alpha);
      batch := batch + [call];
    }

    method SetLayerSidebandStream(display: uint64, layer: uint64, sideband: Option<Handle>)
      requires Valid() && writer.CanGrow(6 + 2)
      requires Room(|writer.dataHandles|, |Listed(sideband)|)
      modifies this`batch, writer`data, writer`dataMaxSize, writer`usage, writer`dataWritten, writer`commandEnd
      modifies writer`open, writer`frames, writer.data
      modifies writer`dataHandles, writer`temporaryHandles, writer`fences
      ensures Valid() && (writer.data == old(writer.data) || fresh(writer.data))
      ensures batch == old(batch) + [OnLayer(display, layer, Command.SetLayerSidebandStream(sideband))]
      ensures writer.Kept() == old(writer.Kept())
    {
      hide Batched, ReaderState.Keyed, Sound, Located, Flatten, Encode, InCustody, Amortised, Backed;
      ghost var call := OnLayer(display, layer, Command.SetLayerSidebandStream(sideband));
      BatchLayerCall(batch, writer.frames, writer.dataHandles, display, layer, call.command);
      hide Pushed, Extended, FenceEntry, Listed;
      SelectLayer(display, layer);
      writer.SetLayerSidebandStream(sideband);
      batch := batch + [call];
    }

    method SetLayerSourceCrop(display: uint64, layer: uint64, crop: FRect)
      requires Valid() && writer.CanGrow(6 + 5)
      modifies this`batch, writer`data, writer`dataMaxSize, writer`usage, writer`dataWritten, writer`commandEnd
      modifies writer`open, writer`frames, writer.data
      ensures Valid() && (writer.data == old(writer.data) || fresh(writer.data))
      ensures batch == old(batch) + [OnLayer(display, layer, Command.SetLayerSourceCrop(crop))]
    {
      hide Batched, ReaderState.Keyed, Sound, Located, Flatten, Encode, InCustody, Amortised, Backed;
      ghost var call := OnLayer(display, layer, Command.SetLayerSourceCrop(crop));
      BatchLayerCall(batch, writer.frames, writer.dataHandles, display, layer, call.command);
      SelectLayer(display, layer);
      writer.SetLayerSourceCrop(crop);
      batch := batch + [call];
    }

    method SetLayerTransform(display: uint64, layer: uint64, transform: int32)
      requires Valid() && writer.CanGrow(6 + 2)
      modifies this`batch, writer`data, writer`dataMaxSize, writer`usage, writer`dataWritten, writer`commandEnd
      modifies writer`open, writer`frames, writer.data
      ensures Valid() && (writer.data == old(writer.data) || fresh(writer.data))
      ensures batch == old(batch) + [OnLayer(display, layer, Command.SetLayerTransform(transform))]
    {
      hide Batched, ReaderState.Keyed, Sound, Located, Flatten, Encode, InCustody, Amortised, Backed;
      ghost var call := OnLayer(display, layer, Command.SetLayerTransform(transform));
      BatchLayerCall(batch, writer.frames, writer.dataHandles, display, layer, call.command);
      SelectLayer(display, layer);
      writer.SetLayerTransform(transform);
      batch := batch + [call];
    }

    method SetLayerVisibleRegion(display: uint64, layer: uint64, visible: seq<Rect>)
      requires Valid() && writer.CanGrow(6 + 1 + 4 * |Sent(visible, LAYER_RECT_LIMIT)|)
      modifies this`batch, writer`data, writer`dataMaxSize, writer`usage, writer`dataWritten, writer`commandEnd
      modifies writer`open, writer`frames, writer.data
      ensures Valid() && (writer.data == old(writer.data) || fresh(writer.data))
      ensures batch == old(batch) + [OnLayer(display, layer, Command.SetLayerVisibleRegion(visible))]
    {
      hide Batched, ReaderState.Keyed, Sound, Located, Flatten, Encode, InCustody, Amortised, Backed;
      ghost var call := OnLayer(display, layer, Command.SetLayerVisibleRegion(visible));
      BatchLayerCall(batch, writer.frames, writer.dataHandles, display, layer, call.command);
      SelectLayer(display, layer);
      writer.SetLayerVisibleRegion(visible);
      batch := batch + [call];
    }

    method SetLayerZOrder(display: uint64, layer: uint64, z: uint32)
      requires Valid() && writer.CanGrow(6 + 2)
      modifies this`batch, writer`data, writer`dataMaxSize, writer`usage, writer`dataWritten, writer`commandEnd
      modifies writer`open, writer`frames, writer.data
      ensures Valid() && (writer.data == old(writer.data) || fresh(writer.data))
      ensures batch == old(batch) + [OnLayer(display, layer, Command.SetLayerZOrder(z))]
    {
      hide Batched, ReaderState.Keyed, Sound, Located, Flatten, Encode, InCustody, Amortised, Backed;
      ghost var call := OnLayer(display, layer, Command.SetLayerZOrder(z));
      BatchLayerCall(batch, writer.frames, writer.dataHandles, display, layer, call.command);
      SelectLayer(display, layer);
      writer.SetLayerZOrder(z);
      batch := batch + [call];
    }

    // -------------------------------------------------------------- shipping the batch

    /** The queue the reader will take the reply from. */
    ghost function OutputQueue(reply: Reply, descriptor: MessageQueue, valid: bool): MessageQueue?
      reads reader
    {
      if reply.Reply? && reply.error == NO_ERROR && reply.outChanged && reply.queueError == NO_ERROR
      then (if valid then descriptor else null)
      else reader.queue
    }

    ghost function Queued(reply: Reply, descriptor: MessageQueue, valid: bool): Option<seq<uint32>>
      reads reader, reader.queue, descriptor
    {
      var queue := OutputQueue(reply, descriptor, valid);
      if queue == null then None else Some(queue.contents)
    }

    /** Takes the reply's words out of the output queue and parses them. */
    method ReadReply(length: uint32, handles: HandleTable) returns (error: int32)
      requires Ready() && length + MAX_LENGTH <= UINT32_MAX
      modifies reader, reader.data, reader.queue
      ensures Ready()
      ensures ReaderState.Parsed(reader.Abs(), error)
              == old(if reader.queue == null || length > |reader.queue.contents|
                     then ReaderState.Parsed(reader.Abs(), NO_RESOURCES)
                     else ReaderState.Parse(reader.Abs(), reader.queue.contents[..length], handles, reader.dup))
    {
      hide ReaderState.Keyed, Sound, Located, Flatten, ReaderState.Parse;
      if reader.queue != null && length <= |reader.queue.contents| {
        ParseSound(reader.Abs(), reader.queue.contents[..length], handles, reader.dup);
      }
      var read := reader.ReadQueue(length, handles);
      if read {
        error := reader.Parse();
        reader.Reset();
      } else {
        error := NO_RESOURCES;
      }
    }

    /** The callback of the transaction. */
    method Receive(reply: Reply, descriptor: MessageQueue, valid: bool) returns (error: int32)
      requires Ready() && reply.Reply? && descriptor.Valid() && descriptor != writer.queue
      requires reply.length + MAX_LENGTH <= UINT32_MAX
      modifies reader, reader.data, reader.queue, descriptor
      ensures Ready()
      ensures ReaderState.Parsed(reader.Abs(), error)
              == Heard(reply, old(Queued(reply, descriptor, valid)), reader.dup, old(reader.Abs()))
    {
      hide ReaderState.Keyed, Sound, Located, Flatten, ReaderState.Parse;
      error := reply.error;
      if error == NO_ERROR && reply.outChanged {
        error := reply.queueError;
        if error == NO_ERROR {
          var _ := reader.SetMQDescriptor(descriptor, valid);
        }
      }
      if error != NO_ERROR {
        return;
      }
      error := ReadReply(reply.length, reply.handles);
    }

    /** The error to return for a batch whose reply was parsed. */
    method Trace(errors: seq<ReaderState.CommandError>) returns (error: int32)
      requires writer.Valid()
      ensures error == Traced(errors, |errors|, Flatten(writer.frames))
    {
      error := NO_ERROR;
      for i := 0 to |errors|
        invariant error == Traced(errors, i, Flatten(writer.frames))
      {
        var command := writer.GetCommand(errors[i].location);
        if Decisive(command) {
          error := errors[i].error;
        }
      }
    }

    /** True when the batch reaches the point of being sent: a large enough queue is at hand, or one
        can be set up and the service takes it. */
    ghost predicate Ships(service: Service)
      reads this, writer
    {
      InputQueues.Ships(Queues(), Attempted(service))
    }

    ghost function Attempted(service: Service): InputQueues.Attempt
      reads writer
    {
      InputQueues.Attempt(writer.dataMaxSize, service.queueOk, service.inputQueueError)
    }

    /** Puts the batch into a queue, offering it to the service if it is new. */
    method Prepare(service: Service)
      returns (error: int32, commandLength: uint32, commandHandles: HandleTable)
      requires writer.Valid() && Ready()
      modifies this`serviceQueue, this`attempts, writer`queue, writer.queue
      ensures writer.Valid() && Ready() && (writer.queue == old(writer.queue) || fresh(writer.queue))
      ensures attempts == old(attempts) + [Attempted(service)]
      ensures Queues() == InputQueues.Prepared(old(Queues()), Attempted(service))
      ensures error == if old(Ships(service)) then NO_ERROR
                       else if service.queueOk then service.inputQueueError else NO_RESOURCES
      ensures error == NO_ERROR ==>
                && writer.queue != null && writer.queue.contents == Flatten(writer.frames)
                && commandLength == |Flatten(writer.frames)| && commandHandles == writer.dataHandles
    {
      InputQueues.AfterSnoc(attempts, Attempted(service));
      attempts := attempts + [Attempted(service)];
      hide ReaderState.Keyed, Sound, Located, Flatten, InCustody, Amortised, Backed;
      var ok, queueChanged, length, handles := writer.WriteQueue(service.queueOk);
      if !ok {
        return NO_RESOURCES, 0, [];
      }
      error, commandLength, commandHandles := NO_ERROR, length, handles;
      if queueChanged {
        error := service.inputQueueError;
        if error == NO_ERROR {
          serviceQueue := writer.queue;
        }
      }
    }

    ghost function Answer(service: Service, descriptor: MessageQueue): ReaderState.Parsed
      requires Ready()
      reads this, writer, writer.queue, reader, reader.data, reader.queue, descriptor
    {
      Heard(service.reply, Queued(service.reply, descriptor, service.descriptorValid), reader.dup, reader.Abs())
    }

    /** The transaction: the service is handed the words of the batch and its handles, reads as much of
        them as it likes, and answers. */
    method ExecuteCommands(commandLength: uint32, commandHandles: HandleTable, service: Service,
                           descriptor: MessageQueue)
      returns (error: int32)
      requires Ready() && writer.queue != null && descriptor.Valid() && descriptor != writer.queue
      requires Readable(service.reply) && commandLength <= |writer.queue.contents|
      modifies this`sent, writer.queue, reader, reader.data, reader.queue, descriptor
      ensures Ready()
      ensures sent == Some(Shipment(old(writer.queue.contents)[..commandLength], commandHandles, Queues().shared))
      ensures writer.queue.contents == Unread(old(writer.queue.contents), service.peerRead)
      ensures ReaderState.Parsed(reader.Abs(), error) == old(Answer(service, descriptor))
    {
      hide ReaderState.Keyed, Sound, Located, Flatten, ReaderState.Parse, InputQueues.After;
      sent := Some(Shipment(writer.queue.contents[..commandLength], commandHandles, writer.queue == serviceQueue));
      var _, _ := writer.queue.Read(service.peerRead);
      if service.reply.NoReply? {
        return NO_RESOURCES;
      }
      error := Receive(service.reply, descriptor, service.descriptorValid);
    }

    /** The transaction, and the errors it reports. */
    method Transact(commandLength: uint32, commandHandles: HandleTable, service: Service, descriptor: MessageQueue)
      returns (error: int32)
      requires writer.Valid() && Ready() && writer.queue != null && descriptor.Valid() && descriptor != writer.queue
      requires Readable(service.reply) && commandLength == |writer.queue.contents|
      modifies this`sent, writer.queue, reader, reader.data, reader.queue, descriptor
      ensures writer.Valid() && Ready()
      ensures sent == Some(Shipment(old(writer.queue.contents), commandHandles, Queues().shared))
      ensures ReaderState.Parsed(reader.Abs(), error)
              == Settled(old(Answer(service, descriptor)), Flatten(writer.frames))
    {
      hide ReaderState.Keyed, Sound, Located, Flatten, InCustody, Amortised, Backed, Heard, InputQueues.After;
      assert writer.queue.contents[..commandLength] == writer.queue.contents;
      error := ExecuteCommands(commandLength, commandHandles, service, descriptor);
      if error == NO_ERROR {
        TakeSound(reader.Abs(), 0);
        var errors := reader.TakeErrors();
        error := Trace(errors);
      }
    }

    /** The reader's results and the error a shipped batch ends with. */
    ghost function Executed(service: Service, descriptor: MessageQueue): ReaderState.Parsed
      requires Ready()
      reads this, writer, writer.queue, reader, reader.data, reader.queue, descriptor
    {
      Ran(Queues(), Attempted(service), Flatten(writer.frames), Answer(service, descriptor), reader.Abs())
    }

    /** What an execution hands over: the whole batch, when it comes to that. */
    ghost function Handed(service: Service): Option<Shipment>
      reads this, writer
    {
      if Ships(service) && writer.frames != []
      then Some(Shipment(Flatten(writer.frames), writer.dataHandles,
                         InputQueues.Prepared(Queues(), Attempted(service)).shared))
      else None
    }

    /** Everything but emptying the writer. */
    method Ship(service: Service, descriptor: MessageQueue) returns (error: int32)
      requires writer.Valid() && Ready() && descriptor.Valid() && descriptor != writer.queue
      requires Readable(service.reply)
      modifies this`serviceQueue, this`attempts, this`sent, writer`queue, writer.queue
      modifies reader, reader.data, reader.queue, descriptor
      ensures writer.Valid() && Ready()
      ensures attempts == old(attempts) + [old(Attempted(service))] && sent == old(Handed(service))
      ensures ReaderState.Parsed(reader.Abs(), error) == old(Executed(service, descriptor))
    {
      hide ReaderState.Keyed, Sound, Located, Flatten, InCustody, Amortised, Backed, Heard, Settled;
      hide InputQueues.After, InputQueues.Prepared;
      NoWords(writer.frames);
      sent := None;
      var commandLength, commandHandles;
      error, commandLength, commandHandles := Prepare(service);
      if error == NO_ERROR && commandLength != 0 {
        error := Transact(commandLength, commandHandles, service, descriptor);
      }
    }

    /** Ships the batch.  The service is handed just the calls batched, or nothing; on every path the
        writer is left empty, with the fences it owned closed. */
    method Execute(service: Service, descriptor: MessageQueue) returns (error: int32)
      requires Valid() && Ready() && descriptor.Valid() && descriptor != writer.queue
      requires Readable(service.reply)
      modifies this`batch, this`serviceQueue, this`attempts, this`sent, writer, writer.queue
      modifies reader, reader.data, reader.queue, descriptor
      ensures Valid() && Ready() && batch == [] && writer.dataWritten == 0
      ensures writer.fences == FenceLedger(old(writer.fences).received, old(writer.fences).received)
      ensures attempts == old(attempts) + [old(Attempted(service))] && sent == old(Handed(service))
      ensures HandsOver(sent, old(batch), old(Ships(service)), InputQueues.After(attempts, |attempts|).shared)
      ensures ReaderState.Parsed(reader.Abs(), error) == old(Executed(service, descriptor))
    {
      hide Batched, ReaderState.Keyed, Sound, Located, Flatten, InCustody, Amortised, Backed, Heard, Settled;
      hide HandsOver, InputQueues.After, InputQueues.Prepared;
      WholeBatch(batch, writer.frames, writer.dataHandles, Ships(service),
                 InputQueues.Prepared(Queues(), Attempted(service)).shared);
      InputQueues.AfterSnoc(attempts, Attempted(service));
      error := Ship(service, descriptor);
      writer.Reset();
      batch := [];
    }

    // -------------------------------------------------------------- validating and presenting

    /** The batch executed after one more call of four words. */
    ghost function WithCall(service: Service): InputQueues.Attempt
      requires writer.CanGrow(4)
      reads writer
    {
      InputQueues.Attempt(CapacityFor(writer.dataMaxSize, writer.dataWritten), service.queueOk,
                          service.inputQueueError)
    }

    /** What executing the batch comes to after one more such call. */
    ghost function Submitted(call: Call, service: Service, descriptor: MessageQueue): ReaderState.Parsed
      requires Ready() && writer.CanGrow(4)
      reads this, writer, writer.queue, reader, reader.data, reader.queue, descriptor
    {
      Ran(Queues(), WithCall(service), WordsOf(batch + [call]), Answer(service, descriptor), reader.Abs())
    }

    method RunPresent(display: uint64, service: Service, descriptor: MessageQueue) returns (error: int32)
      requires Valid() && Ready() && writer.CanGrow(4) && descriptor.Valid() && descriptor != writer.queue
      requires Readable(service.reply)
      modifies this`batch, this`serviceQueue, this`attempts, this`sent, writer, writer.data, writer.queue
      modifies reader, reader.data, reader.queue, descriptor
      ensures Valid() && Ready() && batch == [] && writer.dataWritten == 0
      ensures writer.fences == FenceLedger(old(writer.fences).received, old(writer.fences).received)
      ensures attempts == old(attempts) + [old(WithCall(service))]
      ensures HandsOver(sent, old(batch) + [OnDisplay(display, Command.PresentDisplay)],
                        InputQueues.Ships(old(Queues()), old(WithCall(service))),
                        InputQueues.After(attempts, |attempts|).shared)
      ensures ReaderState.Parsed(reader.Abs(), error)
              == old(Submitted(OnDisplay(display, Command.PresentDisplay), service, descriptor))
    {
      hide Batched, ReaderState.Keyed, Sound, Located, Flatten, InCustody, Amortised, Backed, Heard, Traced, HandsOver;
      hide InputQueues.After, InputQueues.Ships, CapacityFor, Ran, WordsOf;
      BatchPresent(display);
      BatchedWords(batch, writer.frames, writer.dataHandles);
      error := Execute(service, descriptor);
    }

    /** Presents the frame and hands out its present fence. */
    method PresentDisplay(display: uint64, service: Service, descriptor: MessageQueue)
      returns (error: int32, presentFence: int)
      requires Valid() && Ready() && writer.CanGrow(4) && descriptor.Valid() && descriptor != writer.queue
      requires Readable(service.reply)
      modifies this`batch, this`serviceQueue, this`attempts, this`sent, writer, writer.data, writer.queue
      modifies reader, reader.data, reader.queue, descriptor
      ensures Valid() && Ready() && batch == [] && writer.dataWritten == 0
      ensures writer.fences == FenceLedger(old(writer.fences).received, old(writer.fences).received)
      ensures attempts == old(attempts) + [old(WithCall(service))]
      ensures HandsOver(sent, old(batch) + [OnDisplay(display, Command.PresentDisplay)],
                        InputQueues.Ships(old(Queues()), old(WithCall(service))),
                        InputQueues.After(attempts, |attempts|).shared)
      ensures var done := old(Submitted(OnDisplay(display, Command.PresentDisplay), service, descriptor));
              && error == done.error
              && presentFence == (if error == NO_ERROR then ReaderState.Entry(done.state, display).presentFence else -1)
              && reader.Abs() == (if error == NO_ERROR
                                  then ReaderState.TakePresentFence(done.state, display) else done.state)
    {
      hide Batched, ReaderState.Keyed, Sound, Located, Flatten, InCustody, Amortised, Backed, Heard, Traced, HandsOver;
      hide InputQueues.After, InputQueues.Ships, CapacityFor, Ran, WordsOf, ReaderState.TakePresentFence;
      presentFence := -1;
      error := RunPresent(display, service, descriptor);
      if error == NO_ERROR {
        TakeSound(reader.Abs(), display);
        presentFence := reader.TakePresentFence(display);
      }
    }

    method RunValidate(display: uint64, service: Service, descriptor: MessageQueue) returns (error: int32)
      requires Valid() && Ready() && writer.CanGrow(4) && descriptor.Valid() && descriptor != writer.queue
      requires Readable(service.reply)
      modifies this`batch, this`serviceQueue, this`attempts, this`sent, writer, writer.data, writer.queue
      modifies reader, reader.data, reader.queue, descriptor
      ensures Valid() && Ready() && batch == [] && writer.dataWritten == 0
      ensures writer.fences == FenceLedger(old(writer.fences).received, old(writer.fences).received)
      ensures attempts == old(attempts) + [old(WithCall(service))]
      ensures HandsOver(sent, old(batch) + [OnDisplay(display, Command.ValidateDisplay)],
                        InputQueues.Ships(old(Queues()), old(WithCall(service))),
                        InputQueues.After(attempts, |attempts|).shared)
      ensures ReaderState.Parsed(reader.Abs(), error)
              == old(Submitted(OnDisplay(display, Command.ValidateDisplay), service, descriptor))
    {
      hide Batched, ReaderState.Keyed, Sound, Located, Flatten, InCustody, Amortised, Backed, Heard, Traced, HandsOver;
      hide InputQueues.After, InputQueues.Ships, CapacityFor, Ran, WordsOf;
      BatchValidate(display);
      BatchedWords(batch, writer.frames, writer.dataHandles);
      error := Execute(service, descriptor);
    }

    /** Validates the frame and counts the changes the service asks for. */
    method ValidateDisplay(display: uint64, service: Service, descriptor: MessageQueue)
      returns (error: int32, numTypes: nat, numRequests: nat)
      requires Valid() && Ready() && writer.CanGrow(4) && descriptor.Valid() && descriptor != writer.queue
      requires Readable(service.reply)
      modifies this`batch, this`serviceQueue, this`attempts, this`sent, writer, writer.data, writer.queue
      modifies reader, reader.data, reader.queue, descriptor
      ensures Valid() && Ready() && batch == [] && writer.dataWritten == 0
      ensures writer.fences == FenceLedger(old(writer.fences).received, old(writer.fences).received)
      ensures attempts == old(attempts) + [old(WithCall(service))]
      ensures HandsOver(sent, old(batch) + [OnDisplay(display, Command.ValidateDisplay)],
                        InputQueues.Ships(old(Queues()), old(WithCall(service))),
                        InputQueues.After(attempts, |attempts|).shared)
      ensures ReaderState.Parsed(reader.Abs(), error)
              == old(Submitted(OnDisplay(display, Command.ValidateDisplay), service, descriptor))
      ensures numTypes
              == if error == NO_ERROR then |ReaderState.Entry(reader.Abs(), display).compositionTypes| else 0
      ensures numRequests == if error == NO_ERROR then |ReaderState.Entry(reader.Abs(), display).requestMasks| else 0
    {
      hide Batched, ReaderState.Keyed, Sound, Located, Flatten, InCustody, Amortised, Backed, Heard, Traced, HandsOver;
      hide InputQueues.After, InputQueues.Ships, CapacityFor, Ran, WordsOf, ReaderState.TakePresentFence;
      numTypes, numRequests := 0, 0;
      error := RunValidate(display, service, descriptor);
      if error == NO_ERROR {
        var changes;
        changes, numTypes, numRequests := reader.HasChanges(display);
      }
    }

    method RunPresentOrValidate(display: uint64, service: Service, descriptor: MessageQueue) returns (error: int32)
      requires Valid() && Ready() && writer.CanGrow(4) && descriptor.Valid() && descriptor != writer.queue
      requires Readable(service.reply)
      modifies this`batch, this`serviceQueue, this`attempts, this`sent, writer, writer.data, writer.queue
      modifies reader, reader.data, reader.queue, descriptor
      ensures Valid() && Ready() && batch == [] && writer.dataWritten == 0
      ensures writer.fences == FenceLedger(old(writer.fences).received, old(writer.fences).received)
      ensures attempts == old(attempts) + [old(WithCall(service))]
      ensures HandsOver(sent, old(batch) + [OnDisplay(display, Command.PresentOrValidateDisplay)],
                        InputQueues.Ships(old(Queues()), old(WithCall(service))),
                        InputQueues.After(attempts, |attempts|).shared)
      ensures ReaderState.Parsed(reader.Abs(), error)
              == old(Submitted(OnDisplay(display, Command.PresentOrValidateDisplay), service, descriptor))
    {
      hide Batched, ReaderState.Keyed, Sound, Located, Flatten, InCustody, Amortised, Backed, Heard, Traced, HandsOver;
      hide InputQueues.After, InputQueues.Ships, CapacityFor, Ran, WordsOf;
      BatchPresentOrValidate(display);
      BatchedWords(batch, writer.frames, writer.dataHandles);
      error := Execute(service, descriptor);
    }

    /** Presents the frame if the service can, or else validates it; which of the two happened is
        in the state reported.  `indeterminate` is what the state reads as when none was. */
    method PresentOrValidateDisplay(display: uint64, service: Service, descriptor: MessageQueue, indeterminate: uint32)
      returns (error: int32, numTypes: nat, numRequests: nat, presentFence: int, state: uint32)
      requires Valid() && Ready() && writer.CanGrow(4) && descriptor.Valid() && descriptor != writer.queue
      requires Readable(service.reply)
      modifies this`batch, this`serviceQueue, this`attempts, this`sent, writer, writer.data, writer.queue
      modifies reader, reader.data, reader.queue, descriptor
      ensures Valid() && Ready() && batch == [] && writer.dataWritten == 0
      ensures writer.fences == FenceLedger(old(writer.fences).received, old(writer.fences).received)
      ensures attempts == old(attempts) + [old(WithCall(service))]
      ensures HandsOver(sent, old(batch) + [OnDisplay(display, Command.PresentOrValidateDisplay)],
                        InputQueues.Ships(old(Queues()), old(WithCall(service))),
                        InputQueues.After(attempts, |attempts|).shared)
      ensures var done := old(Submitted(OnDisplay(display, Command.PresentOrValidateDisplay), service, descriptor));
              var entry := ReaderState.Entry(done.state, display);
              && error == done.error
              && state == (if error == NO_ERROR then Stage(done.state, display, indeterminate) else 0)
              && presentFence == (if error == NO_ERROR && state == 1 then entry.presentFence else -1)
              && reader.Abs() == (if error == NO_ERROR && state == 1
                                  then ReaderState.TakePresentFence(done.state, display) else done.state)
              && numTypes == (if error == NO_ERROR && state == 0 then |entry.compositionTypes| else 0)
              && numRequests == (if error == NO_ERROR && state == 0 then |entry.requestMasks| else 0)
    {
      hide Batched, ReaderState.Keyed, Sound, Located, Flatten, InCustody, Amortised, Backed, Heard, Traced, HandsOver;
      hide InputQueues.After, InputQueues.Ships, CapacityFor, Ran, WordsOf, ReaderState.TakePresentFence;
      numTypes, numRequests, presentFence, state := 0, 0, -1, 0;
      error := RunPresentOrValidate(display, service, descriptor);
      if error == NO_ERROR {
        numTypes, numRequests, presentFence, state := TakeStage(display, indeterminate);
      }
    }

    /** What the caller gets out of the results, depending on the state reported. */
    method TakeStage(display: uint64, indeterminate: uint32)
      returns (numTypes: nat, numRequests: nat, presentFence: int, state: uint32)
      requires Ready()
      modifies reader`returnData, reader`ledger
      ensures Ready() && state == Stage(old(reader.Abs()), display, indeterminate)
      ensures presentFence == if state == 1 then ReaderState.Entry(old(reader.Abs()), display).presentFence else -1
      ensures reader.Abs() == if state == 1 then ReaderState.TakePresentFence(old(reader.Abs()), display)
                              else old(reader.Abs())
      ensures numTypes == if state == 0 then |ReaderState.Entry(reader.Abs(), display).compositionTypes| else 0
      ensures numRequests == if state == 0 then |ReaderState.Entry(reader.Abs(), display).requestMasks| else 0
    {
      hide ReaderState.Keyed, Sound, Located, Flatten, InputQueues.After, ReaderState.TakePresentFence;
      numTypes, numRequests, presentFence, state := 0, 0, -1, 0;
      TakeSound(reader.Abs(), display);
      state := reader.TakePresentOrValidateStage(display, indeterminate);
      if state == 1 {
        presentFence := reader.TakePresentFence(display);
      }
      if state == 0 {
        var changes;
        changes, numTypes, numRequests := reader.HasChanges(display);
      }
    }
  }
}
