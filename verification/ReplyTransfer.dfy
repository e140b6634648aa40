/** A whole reply, from the calls a service makes on its writer to the results in the client's
    reader.  The service is not part of the repository; any sequence of its calls is allowed. */
module ReplyTransfer {
  import opened Words
  import opened Wire
  import opened Responses
  import opened ReaderState
  import opened RoundTrip
  import opened CommandWriters
  import opened CommandReaders

  /** A response as the service gives it to its writer, and which temporary handles can be made. */
  datatype Given = Given(response: Response, handlesOk: seq<bool>)

  predicate WellGiven(g: Given) {
    && (g.response.PresentFence? ==> |g.handlesOk| == 1)
    && (g.response.ReleaseFences? ==> |g.handlesOk| == |g.response.fences|)
  }

  function DeliveredFences(given: seq<int>, handlesOk: seq<bool>, n: nat): (delivered: seq<int>)
    requires n <= |given| && n <= |handlesOk|
    ensures |delivered| == n && forall i | 0 <= i < n :: delivered[i] == Delivered(given[i], handlesOk[i])
  {
    if n == 0 then []
    else DeliveredFences(given, handlesOk, n - 1) + [Delivered(given[n - 1], handlesOk[n - 1])]
  }

  /** The response that reaches the client: a fence without a handle reads as none. */
  function Reaching(g: Given): Response
    requires WellGiven(g)
  {
    match g.response
    case PresentFence(fence) => Response.PresentFence(Delivered(fence, g.handlesOk[0]))
    case ReleaseFences(layers, fences) =>
      Response.ReleaseFences(layers, DeliveredFences(fences, g.handlesOk, |fences|))
    case _ => g.response
  }

  function ReachingAll(gs: seq<Given>): (rs: seq<Response>)
    requires forall g | g in gs :: WellGiven(g)
    ensures |rs| == |gs| && forall i | 0 <= i < |gs| :: rs[i] == Reaching(gs[i])
  {
    if gs == [] then [] else ReachingAll(gs[..|gs| - 1]) + [Reaching(gs[|gs| - 1])]
  }

  /** Who has the fences of the first n responses: each that is written goes to the writer. */
  function EntrustedTo(c: Custody, gs: seq<Given>, n: nat): Custody
    requires n <= |gs| && forall g | g in gs :: WellGiven(g)
  {
    if n == 0 then c else EntrustedBy(EntrustedTo(c, gs, n - 1), gs[n - 1])
  }

  function EntrustedBy(c: Custody, g: Given): Custody
    requires WellGiven(g)
  {
    match g.response
    case PresentFence(fence) => Entrust(c, fence, g.handlesOk[0])
    case ReleaseFences(layers, fences) => EntrustTo(c, fences, g.handlesOk, Min(|layers|, |fences|))
    case _ => c
  }

  // ---------------------------------------------------------------- sizes

  /** The words and handles of the first responses of a reply are among those of the whole reply. */
  lemma {:induction false} ReplyPrefix(rs: seq<Response>, n: nat)
    requires n <= |rs| && |AddedAll(rs)| <= MAX_HANDLES
    ensures |AddedAll(rs[..n])| <= |AddedAll(rs)|
    ensures |Flatten(EncodeResponses(rs[..n]))| <= |Flatten(EncodeResponses(rs))|
  {
    hide AddedAll, EncodeResponses, EncodeResponse, Flatten, Added;
    if n == |rs| {
      assert rs[..n] == rs;
    } else {
      var init, last := rs[..|rs| - 1], rs[|rs| - 1];
      assert rs == init + [last] && rs[..n] == init[..n];
      AddedSnoc(init, last);
      EncodeResponsesSnoc(init, last);
      ReplyPrefix(init, n);
      FlattenAppend(EncodeResponses(init), EncodeResponse(last, |AddedAll(init)|));
    }
  }

  lemma AddedSnoc(rs: seq<Response>, r: Response)
    ensures AddedAll(rs + [r]) == AddedAll(rs) + Added(r)
  {
    assert (rs + [r])[..|rs|] == rs;
  }

  lemma NextResponse(rs: seq<Response>, i: nat)
    requires i < |rs| && |AddedAll(rs)| <= MAX_HANDLES && |Flatten(EncodeResponses(rs))| <= UINT32_MAX
    ensures |AddedAll(rs[..i])| + |Added(rs[i])| <= MAX_HANDLES
    ensures |Flatten(EncodeResponses(rs[..i]))| + |Flatten(EncodeResponse(rs[i], |AddedAll(rs[..i])|))| <= UINT32_MAX
    ensures AddedAll(rs[..i + 1]) == AddedAll(rs[..i]) + Added(rs[i])
    ensures EncodeResponses(rs[..i + 1]) == EncodeResponses(rs[..i]) + EncodeResponse(rs[i], |AddedAll(rs[..i])|)
  {
    hide AddedAll, EncodeResponses, EncodeResponse, Flatten, Added;
    ReplyPrefix(rs, i + 1);
    assert rs[..i + 1] == rs[..i] + [rs[i]];
    AddedSnoc(rs[..i], rs[i]);
    EncodeResponsesSnoc(rs[..i], rs[i]);
    FlattenAppend(EncodeResponses(rs[..i]), EncodeResponse(rs[i], |AddedAll(rs[..i])|));
  }

  // ---------------------------------------------------------------- writing

  /** One call of the service. */
  method WriteResponse(writer: CommandWriter, g: Given)
    requires writer.Valid() && WellGiven(g)
    requires |writer.dataHandles| + |Added(Reaching(g))| <= MAX_HANDLES
    requires writer.CanGrow(|Flatten(EncodeResponse(Reaching(g), |writer.dataHandles|))|)
    modifies writer`data, writer`dataMaxSize, writer`usage, writer`dataWritten, writer`commandEnd
    modifies writer`open, writer`frames, writer.data
    modifies writer`dataHandles, writer`temporaryHandles, writer`fences
    ensures writer.Valid() && (writer.data == old(writer.data) || fresh(writer.data))
    ensures writer.frames == old(writer.frames) + EncodeResponse(Reaching(g), |old(writer.dataHandles)|)
    ensures writer.dataHandles == old(writer.dataHandles) + Added(Reaching(g))
    ensures writer.Kept() == EntrustedBy(old(writer.Kept()), g)
  {
    hide InCustody, Amortised, Backed, Chunks, FenceTable, FenceWords, EntrustTo;
    match g.response
    case Select(display) => writer.SelectDisplay(display);
    case ReportError(location, error) => writer.SetError(location, error);
    case PresentOrValidateResult(state) => writer.SetPresentOrValidateResult(state);
    case ChangedTypes(layers, types) => writer.SetChangedCompositionTypes(layers, types);
    case Requests(mask, layers, masks) => writer.SetDisplayRequests(mask, layers, masks);
    case PresentFence(fence) => writer.SetPresentFence(fence, g.handlesOk[0]);
    case ReleaseFences(layers, fences) =>
      writer.SetReleaseFences(layers, fences, g.handlesOk, DeliveredFences(fences, g.handlesOk, |fences|));
  }

  lemma NoResponses()
    ensures AddedAll([]) == [] && EncodeResponses([]) == []
  {
  }

  /** Any run of response calls on an empty writer leaves the encoding of the responses that reach
      the client, and their handles. */
  method WriteReply(writer: CommandWriter, gs: seq<Given>, ghost rs: seq<Response>)
    requires writer.Valid() && writer.frames == [] && writer.dataHandles == []
    requires (forall g | g in gs :: WellGiven(g)) && rs == ReachingAll(gs)
    requires |AddedAll(rs)| <= MAX_HANDLES && |Flatten(EncodeResponses(rs))| <= UINT32_MAX
    modifies writer`data, writer`dataMaxSize, writer`usage, writer`dataWritten, writer`commandEnd
    modifies writer`open, writer`frames, writer.data
    modifies writer`dataHandles, writer`temporaryHandles, writer`fences
    ensures writer.Valid() && (writer.data == old(writer.data) || fresh(writer.data))
    ensures writer.frames == EncodeResponses(rs) && writer.dataHandles == AddedAll(rs)
    ensures writer.Kept() == EntrustedTo(old(writer.Kept()), gs, |gs|)
  {
    hide AddedAll, EncodeResponses, EncodeResponse, Flatten, Added, Reaching, InCustody, Amortised, Backed;
    hide ReachingAll, WellGiven, EntrustedBy;
    NoResponses();
    assert rs[..0] == [];
    for i := 0 to |gs|
      invariant writer.Valid() && (writer.data == old(writer.data) || fresh(writer.data))
      invariant |AddedAll(rs[..i])| <= MAX_HANDLES
      invariant writer.frames == EncodeResponses(rs[..i]) && writer.dataHandles == AddedAll(rs[..i])
      invariant writer.Kept() == EntrustedTo(old(writer.Kept()), gs, i)
    {
      NextResponse(rs, i);
      WriteResponse(writer, gs[i]);
    }
    assert rs[..|gs|] == rs;
  }

  // ---------------------------------------------------------------- the whole way

  /** Whatever the writer holds, and whatever is left in its queue, goes through the queue: the reader
      parses exactly the writer's words and handles. */
  method Carry(writer: CommandWriter, reader: CommandReader) returns (error: int32)
    requires writer.Valid() && writer.QueueValid() && reader.data != writer.data
    requires reader.Valid() && Keyed(reader.Abs()) && |Flatten(writer.frames)| + MAX_LENGTH <= UINT32_MAX
    modifies writer`queue, writer.queue, reader, reader.data
    ensures Parsed(reader.Abs(), error)
            == Parse(old(reader.Abs()), Flatten(writer.frames), writer.dataHandles, reader.dup)
  {
    hide Flatten, Keyed, Parse, Located, InCustody, Amortised, Backed;
    ghost var words, table, before := Flatten(writer.frames), writer.dataHandles, reader.Abs();
    var ok, _, length, handles := writer.WriteQueue(true);
    ok := reader.SetMQDescriptor(writer.queue, true);
    assert words[..length] == words;
    ok := reader.ReadQueue(length, handles);
    assert reader.Rest() == words && reader.dataHandles == table && reader.Abs() == before;
    assert |reader.Rest()| == reader.dataSize;
    error := reader.Parse();
  }

  /** A whole reply: the client's reader ends with the fold of the responses that reach it, from a
      reader that forgot all earlier results, and no error. */
  method Transfer(writer: CommandWriter, reader: CommandReader, gs: seq<Given>, ghost rs: seq<Response>)
    returns (error: int32)
    requires writer.Valid() && writer.frames == [] && writer.dataHandles == [] && writer.QueueValid()
    requires reader.Valid() && Keyed(reader.Abs()) && reader.data != writer.data
    requires (forall g | g in gs :: WellGiven(g)) && rs == ReachingAll(gs) && Guarded(rs, false)
    requires |AddedAll(rs)| <= MAX_HANDLES && |Flatten(EncodeResponses(rs))| + MAX_LENGTH <= UINT32_MAX
    modifies writer, writer.data, writer.queue, reader, reader.data
    ensures error == NO_ERROR
    ensures reader.Abs() == FoldAll(rs, reader.dup, ResetData(old(reader.Abs())))
  {
    hide AddedAll, EncodeResponses, Flatten, Keyed, Guarded, FoldAll, Parse, ResetData, Located;
    hide InCustody, Amortised, Backed;
    ReplyArrives(rs, AddedAll(rs), reader.dup, reader.Abs());
    WriteReply(writer, gs, rs);
    error := Carry(writer, reader);
  }
}
