/** What a caller of the proxy gets when the service answers a batch with a reply of its writer: the
    errors it reports, and for each display what it says of that display. */
module ProxyReplies {
  import opened Words
  import opened Wire
  import opened Commands
  import opened Batching
  import opened Responses
  import opened RoundTrip
  import opened MessageQueues
  import opened ErrorTracing
  import opened Composers
  import InputQueues
  import PerDisplay
  import ReaderState

  /** The service answers with these responses: it reports no error of its own, and the output queue
      begins with their words. */
  ghost predicate Answers(reply: Reply, queued: Option<seq<uint32>>, rs: seq<Response>) {
    && reply.Reply? && reply.error == NO_ERROR && (reply.outChanged ==> reply.queueError == NO_ERROR)
    && |AddedAll(rs)| <= MAX_HANDLES && Guarded(rs, false) && reply.handles == AddedAll(rs)
    && queued.Some? && Flatten(EncodeResponses(rs)) <= queued.value
    && reply.length == |Flatten(EncodeResponses(rs))|
  }

  /** Such a reply is heard as the fold of its responses, over a reader that forgot all earlier results. */
  lemma ReplyHeard(reply: Reply, queued: Option<seq<uint32>>, rs: seq<Response>, dup: ReaderState.Dup,
                   s: ReaderState.State)
    requires ReaderState.Keyed(s) && Answers(reply, queued, rs)
    ensures Heard(reply, queued, dup, s)
            == ReaderState.Parsed(FoldAll(rs, dup, ReaderState.ResetData(s)), NO_ERROR)
  {
    hide Flatten, EncodeResponses, AddedAll, Guarded, FoldAll, ReaderState.Keyed, ReaderState.ResetData;
    hide ReaderState.Parse;
    assert queued.value[..reply.length] == Flatten(EncodeResponses(rs));
    ReplyArrives(rs, reply.handles, dup, s);
  }

  /** When a batch is sent and answered so, the error returned is traced from the errors reported, and
      the results of each display are what the reply says of it. */
  lemma AnsweredRun(q: InputQueues.Queues, a: InputQueues.Attempt, words: seq<uint32>, reply: Reply,
                    queued: Option<seq<uint32>>, rs: seq<Response>, dup: ReaderState.Dup, s: ReaderState.State,
                    display: uint64)
    requires ReaderState.Keyed(s) && Answers(reply, queued, rs) && InputQueues.Ships(q, a) && words != []
    ensures var ran, errors := Ran(q, a, words, Heard(reply, queued, dup, s), s), PerDisplay.ErrorsOf(rs);
            && ran.error == Traced(errors, |errors|, words) && ran.state.errors == []
            && (display in ran.state.data <==> Select(display) in rs)
            && ReaderState.Entry(ran.state, display) == PerDisplay.Summary(PerDisplay.Own(rs, s.dups, display), dup)
  {
    hide Answers, Heard, Traced, InputQueues.Ships, FoldAll, ReaderState.Keyed, ReaderState.Held;
    hide PerDisplay.ErrorsOf, PerDisplay.Own, PerDisplay.Summary;
    ReplyHeard(reply, queued, rs, dup, s);
    PerDisplay.ResultsPerDisplay(rs, dup, ReaderState.ResetData(s), display);
    PerDisplay.FoldErrors(rs, dup, ReaderState.ResetData(s));
    PerDisplay.NoTurns(dup);
    assert [] + PerDisplay.ErrorsOf(rs) == PerDisplay.ErrorsOf(rs);
  }

  /** When it is not, the results are the earlier ones and the error says what failed first. */
  lemma FailedRun(q: InputQueues.Queues, a: InputQueues.Attempt, words: seq<uint32>, reply: Reply,
                  queued: Option<seq<uint32>>, dup: ReaderState.Dup, s: ReaderState.State)
    requires ReaderState.Keyed(s) && words != []
    ensures var large := q.capacity.Some? && a.maxSize <= q.capacity.value;
            var ran := Ran(q, a, words, Heard(reply, queued, dup, s), s);
            var answered := large || (a.queueOk && a.inputQueueError == NO_ERROR);
            && (!large && !a.queueOk ==> ran == ReaderState.Parsed(s, NO_RESOURCES))
            && (!large && a.queueOk && a.inputQueueError != NO_ERROR ==>
                  ran == ReaderState.Parsed(s, a.inputQueueError))
            && (answered && reply.NoReply? ==> ran == ReaderState.Parsed(s, NO_RESOURCES))
            && (answered && reply.Reply? && reply.error != NO_ERROR ==> ran == ReaderState.Parsed(s, reply.error))
            && (answered && reply.Reply? && reply.error == NO_ERROR ==>
                  && (reply.outChanged && reply.queueError != NO_ERROR ==>
                        ran == ReaderState.Parsed(s, reply.queueError))
                  && (!(reply.outChanged && reply.queueError != NO_ERROR)
                      && (queued.None? || reply.length > |queued.value|) ==>
                        ran == ReaderState.Parsed(s, NO_RESOURCES)))
  {
    hide ReaderState.Keyed, ReaderState.Parse, Traced;
  }

  /** The same of a proxy about to validate or present: what it will return is in the reply. */
  lemma Answered(proxy: Composer, display: uint64, c: Command, service: Service, descriptor: MessageQueue,
                 rs: seq<Response>, other: uint64)
    requires proxy.Valid() && proxy.Ready() && proxy.writer.CanGrow(4)
    requires c.PresentDisplay? || c.ValidateDisplay? || c.PresentOrValidateDisplay?
    requires Answers(service.reply, proxy.Queued(service.reply, descriptor, service.descriptorValid), rs)
    requires InputQueues.Ships(proxy.Queues(), proxy.WithCall(service))
    ensures var done := proxy.Submitted(OnDisplay(display, c), service, descriptor);
            var errors, words := PerDisplay.ErrorsOf(rs), WordsOf(proxy.batch + [OnDisplay(display, c)]);
            && done.error == Traced(errors, |errors|, words) && (other in done.state.data <==> Select(other) in rs)
            && ReaderState.Entry(done.state, other)
               == PerDisplay.Summary(PerDisplay.Own(rs, proxy.reader.dups, other), proxy.reader.dup)
  {
    hide Answers, Traced, Heard, Ran, Flatten, ReaderState.Keyed, InputQueues.Ships, Batched, WordsOf, CapacityFor;
    hide PerDisplay.ErrorsOf, PerDisplay.Own, PerDisplay.Summary;
    SentWords(proxy, display, c);
    AnsweredRun(proxy.Queues(), proxy.WithCall(service), WordsOf(proxy.batch + [OnDisplay(display, c)]), service.reply,
                proxy.Queued(service.reply, descriptor, service.descriptorValid), rs, proxy.reader.dup,
                proxy.reader.Abs(), other);
  }

  lemma SentWords(proxy: Composer, display: uint64, c: Command)
    requires proxy.Valid() && (c.PresentDisplay? || c.ValidateDisplay? || c.PresentOrValidateDisplay?)
    ensures WordsOf(proxy.batch + [OnDisplay(display, c)]) != []
  {
    hide Batched, WordsOf, Flatten;
    var frames, handles := proxy.writer.frames, proxy.writer.dataHandles;
    BatchDisplayCall(proxy.batch, frames, handles, display, c);
    var more := frames + [Encode(SelectDisplay(display), |handles|)] + [Encode(c, |handles|)];
    BatchedWords(proxy.batch + [OnDisplay(display, c)], more, Extended(handles, c));
    NoWords(more);
  }

  /** Presenting, when the service answers with these responses: the fence returned is the duplicate of
      the one they say of the display. */
  method Present(proxy: Composer, display: uint64, service: Service, descriptor: MessageQueue, ghost rs: seq<Response>)
    returns (error: int32, presentFence: int)
    requires proxy.Valid() && proxy.Ready() && proxy.writer.CanGrow(4)
    requires descriptor.Valid() && descriptor != proxy.writer.queue && Readable(service.reply)
    requires Answers(service.reply, proxy.Queued(service.reply, descriptor, service.descriptorValid), rs)
    requires InputQueues.Ships(proxy.Queues(), proxy.WithCall(service))
    modifies proxy`batch, proxy`serviceQueue, proxy`attempts, proxy`sent
    modifies proxy.writer, proxy.writer.data, proxy.writer.queue
    modifies proxy.reader, proxy.reader.data, proxy.reader.queue, descriptor
    ensures var errors, call := PerDisplay.ErrorsOf(rs), OnDisplay(display, Command.PresentDisplay);
            error == Traced(errors, |errors|, WordsOf(old(proxy.batch) + [call]))
    ensures presentFence
            == if error != NO_ERROR then -1
               else PerDisplay.Summary(PerDisplay.Own(rs, old(proxy.reader.dups), display),
                                       proxy.reader.dup).presentFence
  {
    hide Answers, Traced, Heard, Ran, Flatten, ReaderState.Keyed, InputQueues.Ships, Batched, WordsOf, CapacityFor;
    hide PerDisplay.ErrorsOf, PerDisplay.Own, PerDisplay.Summary, ReaderState.TakePresentFence, HandsOver;
    Answered(proxy, display, Command.PresentDisplay, service, descriptor, rs, display);
    error, presentFence := proxy.PresentDisplay(display, service, descriptor);
  }

  /** Validating: the counts are of the lists the responses add up to for the display. */
  method Validate(proxy: Composer, display: uint64, service: Service, descriptor: MessageQueue,
                  ghost rs: seq<Response>)
    returns (error: int32, numTypes: nat, numRequests: nat)
    requires proxy.Valid() && proxy.Ready() && proxy.writer.CanGrow(4)
    requires descriptor.Valid() && descriptor != proxy.writer.queue && Readable(service.reply)
    requires Answers(service.reply, proxy.Queued(service.reply, descriptor, service.descriptorValid), rs)
    requires InputQueues.Ships(proxy.Queues(), proxy.WithCall(service))
    modifies proxy`batch, proxy`serviceQueue, proxy`attempts, proxy`sent
    modifies proxy.writer, proxy.writer.data, proxy.writer.queue
    modifies proxy.reader, proxy.reader.data, proxy.reader.queue, descriptor
    ensures var errors, call := PerDisplay.ErrorsOf(rs), OnDisplay(display, Command.ValidateDisplay);
            error == Traced(errors, |errors|, WordsOf(old(proxy.batch) + [call]))
    ensures var said := PerDisplay.Summary(PerDisplay.Own(rs, old(proxy.reader.dups), display), proxy.reader.dup);
            error == NO_ERROR ==> numTypes == |said.compositionTypes| && numRequests == |said.requestMasks|
  {
    hide Answers, Traced, Heard, Ran, Flatten, ReaderState.Keyed, InputQueues.Ships, Batched, WordsOf, CapacityFor;
    hide PerDisplay.ErrorsOf, PerDisplay.Own, PerDisplay.Summary, HandsOver;
    Answered(proxy, display, Command.ValidateDisplay, service, descriptor, rs, display);
    error, numTypes, numRequests := proxy.ValidateDisplay(display, service, descriptor);
  }

  /** An error the service reports last, at a validate, present or present-or-validate command of the
      batch, is the one returned. */
  lemma ReportedErrorReturned(rs: seq<Response>, location: uint32, error: int32, fs: seq<Frame>, k: nat)
    requires k < |fs| && location == Location(fs, k) && |Flatten(fs)| <= UINT32_MAX
    requires fs[k].op in {Code(OpValidateDisplay), Code(OpPresentDisplay), Code(OpPresentOrValidateDisplay)}
    ensures var errors := PerDisplay.ErrorsOf(rs + [ReportError(location, error)]);
            Traced(errors, |errors|, Flatten(fs)) == error
  {
    assert (rs + [ReportError(location, error)])[..|rs|] == rs;
    hide Flatten, Traced;
    ReportedLast(PerDisplay.ErrorsOf(rs), ReaderState.CommandError(location, error), fs, k);
  }
}
