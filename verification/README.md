# Carthage composer: a verified model

Carthage drives a display through a composer service. Nearly everything it asks of the service is not called but
written: the proxy batches calls as 32-bit words in a growable buffer, ships the buffer through a shared-memory queue
together with a table of native handles, and reads back a reply in the same format. Around that stream sit a wrapper
that caches layer state and owns layers and displays, a surface that latches, presents and releases frame buffers one
frame late, and a work thread. This project models those parts in Dafny and proves what they promise each other.

`dafny verify dfyconfig.toml` checks the whole project.

## Layout

| file | what it holds |
|---|---|
| `Words.dfy`, `Wire.dfy` | machine words, headers, frames, handle words, command locations |
| `Commands.dfy`, `Batching.dfy` | the client's commands, and the meaning of a batch of calls |
| `Responses.dfy`, `RoundTrip.dfy`, `PerDisplay.dfy` | the server's responses, their round trip, and the results display by display |
| `ReplyTransfer.dfy` | a whole reply, from the calls on the server's writer to the client's results |
| `ErrorTracing.dfy`, `InputQueues.dfy` | how reported errors are traced to a batch, and which queue the batches go through |
| `ReaderState.dfy`, `ReaderLists.dfy`, `ReaderInvariants.dfy` | what the reader does to its state, and what holds in every state it can reach |
| `MessageQueue.dfy` | the queue, as a bounded sequence |
| `CommandWriter.dfy`, `CommandReader.dfy`, `Composer.dfy` | the classes, with their buffers, cursors, tables and queues updated in place |
| `ProxyReplies.dfy` | what a caller of the proxy gets of a reply |
| `Displays.dfy`, `DisplayResults.dfy`, `LayerCache.dfy` | display and layer ownership, consumption of results, cached setters |
| `FramebufferSurface.dfy`, `WorkThread.dfy` | the latch/present/release protocol, and the work queue |

## How to read it

A class that works step by step is proved against functions on its abstract value: the writer against the list of
frames it holds, the reader against `ReaderState.State`, the device and the surface against the state of their own
module. The theorems are about those functions and about runs of them, so they hold of the classes.

Ownership of file descriptors is kept in ledgers, as multisets. The writer's says which fences it received and closed,
and beside it stand the temporary handles that own the rest; the reader's says which it produced, closed and handed
out, and a display that takes fences from it settles them in the same ledger. A descriptor is a number, and negative
numbers are no descriptor; two descriptors may be the same number, so conservation is counted.

What the environment decides is a parameter: whether a handle or a queue can be allocated, what `dup` returns on each
call, what the service answers and how much of a batch it reads, how it answers while a frame is presented, which
buffer the queue hands out. The preconditions are the ones the source has: sizes that fit a 32-bit word, fewer than
2^31 handles, and for the buffer queue the guarantees spelled out in `FramebufferSurfaces.Enabled`.

## Results that are not plain successes

- A request mask that comes without layers is never written (`PerDisplay.MaskLost`; `PerDisplay.MaskArrivesIff` has the
  exact condition).
- parse does not notice a rejected last command (`ReaderInvariants.ParseNoneIff`,
  `PerDisplay.RejectedLastGoesUnnoticed`).
- The present-or-validate state of a display can be read without ever having been set (`PerDisplay.StateLeftUnset`;
  `PerDisplay.StateDefinedIff` has the exact condition).
- An error reported at a location inside a command may be traced to a command that is not there
  (`ErrorTracing.TracedToAnArgument`; `ErrorTracing.TracedAsMeantIff` has the exact condition under which the entry
  meant is picked, `ErrorTracing.ErrorAsMeantIff` that for the error meant).
- After a dropped batch the layer cache does not repair itself (`LayerCaches.DroppedBatchIsNotRepaired`); the exact
  condition for elision to be invisible is `LayerCaches.ElisionIsInvisibleIff`.
- A virtual display can be destroyed before its layers (`Displays.ReusedIdDestroysFirst`), if and only if the service
  hands out the id of a display that still has layers (`Displays.VirtualDisplaysGoLast`).
- A queue the service refused once is not offered to it again, and later batches are sent through it
  (`InputQueues.RefusedQueueIsUsed`; `InputQueues.StrandedIff` has the exact condition over every run).

## Model

| member | source | states |
|---|---|---|
| `Wire.OpcodeRoundTrip` | include/IComposerCommandBuffer.h:480-491 | Opcode numbers are distinct: the number in a header denotes one opcode. |
| `Wire.HeaderRoundTrip` | include/IComposerCommandBuffer.h:480-491 | The opcode and the 16-bit length packed into a header word come out again. |
| `Wire.SplitFlatten` | include/IComposerCommandBuffer.h:715-743 | Words split into whole commands in at most one way, and splitting is the exact inverse of writing the commands one after the other. |
| `Wire.OpcodeAtLocation` | include/IComposerCommandBuffer.h:83-88 | At the offset where the k-th command of a stream starts, the writer finds the opcode of that command. |
| `Wire.LocationIncreases` | include/IComposerCommandBuffer.h:761-764 | Later commands have larger locations, so a location names one command. |
| `Wire.HandleRoundTrip` | include/IComposerCommandBuffer.h:565-582 | A handle word written for a handle, for none, or for a cached one is read back as just that, whatever else the table holds. |
| `Wire.FenceRoundTrip` | include/IComposerCommandBuffer.h:584-599 | A fence word makes the reader duplicate exactly the fence written, and every negative fence reads as none. |
| `Words.ColorRoundTrip` | include/IComposerCommandBuffer.h:556-562 | The four channels of a colour survive packing into one word. |
| `Words.JoinSplit` | include/IComposerCommandBuffer.h:525-531 | A 64-bit value survives being sent as its low and high words. |
| `Commands.DecodeEncode` | include/IComposerCommandBuffer.h:143-478 | Each of the 23 client commands, decoded with the reader primitives, gives back the command; a region over the limit gives the empty region and any negative fence gives "no fence". |
| `Commands.DecodeEncodeAll` | include/IComposerCommandBuffer.h:143-608 | The same for any batch with its shared handle table: each command finds its own handles among those of all the others. |
| `Commands.MeaningIsWhole` | include/IComposerCommandBuffer.h:268-477 | Nothing is lost of a command whose fence is one or -1 and whose region has up to 16383 rectangles, 16382 for a client target. |
| `Commands.WordOrder` | include/IComposerCommandBuffer.h:143-477 | The words of the commands with several arguments, in the order they are written. |
| `Batching.BatchingPreservesMeaning` | HWC/android_10/ComposerHal.cpp:476-702 | For any sequence of batched proxy calls, a receiver that tracks the selected display and layer recovers exactly those calls, in order, each with its display, layer and arguments. |
| `Responses.FenceWordAt` | include/IComposerCommandBuffer.h:234-254 | The i-th fence word of a list indexes the handles of the fences before it. |
| `RoundTrip.FencesRoundTrip` | include/IComposerCommandBuffer.h:234-254 | The fence words of a list of any length resolve to the fences of that list. |
| `RoundTrip.ListEffect` | HWC/android_10/ComposerHal.cpp:1126-1206 | Parsing the commands a list of any length was cut into is accepted throughout and has the effect of one message with the whole list; an empty list has none. |
| `Responses.FullCommands` | include/IComposerCommandBuffer.h:177-254 | Every command of a list but the last carries as many pairs as a 16-bit length allows: 21845, or 21844 after a mask. |
| `RoundTrip.ResponseRoundTrip` | HWC/android_10/ComposerHal.cpp:1051-1215 | Parsing what a server wrote, for any number of displays and lists of any length, returns NONE and leaves the fold of its responses over the reader state. |
| `RoundTrip.ReplyArrives` | HWC/android_10/ComposerHal.cpp:1051-1101 | The same for a whole reply: the fold starts from a reader that forgot all earlier results and closed their fences. |
| `ReplyTransfer.WriteResponse` | include/IComposerCommandBuffer.h:143-254 | Each response call of the service appends the encoding of the response that reaches the client, a fence without a handle being none, and its handles; the writer has taken over every fence written, or closed it where no handle could be made. |
| `ReplyTransfer.WriteReply` | include/IComposerCommandBuffer.h:143-254 | Any run of response calls on an empty writer leaves exactly the encoding of the responses that reach the client, and their handles, with custody of all their fences. |
| `ReplyTransfer.Carry` | include/IComposerCommandBuffer.h:90-135 | From the writer through its queue to the reader: what is parsed is the frames and handles of the writer, whatever was left in the queue before. |
| `ReplyTransfer.Transfer` | HWC/android_10/ComposerHal.cpp:1051-1101 | The whole way: for any run of guarded response calls the client reads without an error the fold of the responses that reach it, from a reader that forgot all earlier results. |
| `PerDisplay.ResultsPerDisplay` | HWC/android_10/ComposerHal.cpp:1103-1215 | All results for a display are a summary of the responses addressed to it, told from the responses alone: lists concatenated, each fence what dup answers for the very descriptor sent, last mask, last state and last present fence win, nothing from other displays; the current display is the last one selected. |
| `PerDisplay.FoldErrors` | HWC/android_10/ComposerHal.cpp:1113-1124 | Every error a reply reports is there, with its location, in order. |
| `PerDisplay.ReplyResults` | HWC/android_10/ComposerHal.cpp:1051-1233 | A whole reply, encoded and parsed: no error, exactly the errors it reports, and for each display the summary of what it says of that display. |
| `PerDisplay.StateDefinedIff` | HWC/android_10/ComposerHal.h:258-273 | After a reply has been parsed, the present-or-validate state of a display has a value exactly when the reply reports one while that display is selected; the source gives it no initial value. |
| `PerDisplay.StateLeftUnset` | HWC/android_10/ComposerHal.h:258-273 | A reply that selects a display and reports nothing leaves its state unset. |
| `PerDisplay.MaskArrivesIff` | include/IComposerCommandBuffer.h:200-224 | From the words the server writes to the results the client parses: a new request mask for the selected display is there exactly when both lists that come with it are non-empty; without layers nothing is written, so the mask is lost. |
| `PerDisplay.MaskLost` | include/IComposerCommandBuffer.h:200-224 | A whole reply that selects a display and has a mask but no layer parses without an error and leaves no request for the display. |
| `PerDisplay.RejectedLastGoesUnnoticed` | HWC/android_10/ComposerHal.cpp:1092-1100 | A reply that ends in a command no one knows parses without an error (the witness for the "possibly the last" below). |
| `ReaderInvariants.ReachableSound` | HWC/android_10/ComposerHal.cpp:1051-1317 | In every state reachable by any mix of parse, take, and closing or passing on what was taken: list pairs have equal lengths, map and current entry agree, and each descriptor produced by readFence is held once, is with the caller once, or was closed once. |
| `ReaderInvariants.DestroyedReaderLeaksNothing` | HWC/android_10/ComposerHal.cpp:1049 | Destroying the reader after any such run leaves no descriptor open that is not with the caller. |
| `ReaderInvariants.PassSound` | HWC/android_10/HWC2.cpp:557-588 | A display that takes its release fences and closes those it cannot pass on keeps the invariant: every one closed was handed out and still open. |
| `ReaderInvariants.ParseNoneIff` | HWC/android_10/ComposerHal.cpp:1051-1101 | parse is total on arbitrary words and returns NONE exactly when they split into whole commands and every command except possibly the last is accepted. |
| `ReaderInvariants.ParseForgetsThePast` | HWC/android_10/ComposerHal.cpp:1217-1233 | The outcome of parse is a function of the batch: two readers with any history agree on result, errors and per-display data. |
| `ReaderInvariants.PerformSound` | HWC/android_10/ComposerHal.cpp:1103-1215 | Each accepted command keeps the invariant; replacing a present fence closes the old one. |
| `ReaderInvariants.TakeSound` | HWC/android_10/ComposerHal.cpp:1235-1317 | Each take keeps the invariant; the fences taken move from held to handed out. |
| `ReaderInvariants.TakenOnce` | HWC/android_10/ComposerHal.cpp:1235-1317 | What was taken is gone: a second take gets nothing. |
| `ReaderInvariants.TakesAreLocal` | HWC/android_10/ComposerHal.cpp:1235-1317 | A take changes no other display and nothing else of its own. |
| `ReaderInvariants.OnlyTakesHandOut` | HWC/android_10/ComposerHal.cpp:1292-1317 | The caller comes to have exactly the fences it takes, still open, and keeps them until it closes them; parsing hands out none. |
| `ReaderInvariants.ProducedAreAnswers` | include/IComposerCommandBuffer.h:836-856 | In every reachable state the descriptors ever produced are exactly the answers of dup, one call for each fence of each accepted command, in order, failed calls aside. |
| `ReaderLists.PerformFencesTwice` | HWC/android_10/ComposerHal.cpp:1186-1206 | Two fence lists in a row equal their concatenation, counting the calls of dup. |
| `CommandReaders.CommandReader.constructor` | include/IComposerCommandBuffer.h:653-657 | A new reader is between batches, with no results and no queue. |
| `CommandReaders.CommandReader.SetMQDescriptor` | include/IComposerCommandBuffer.h:659-668 | The new queue is used if it can be mapped; otherwise there is none, and the old one is gone too. |
| `CommandReaders.CommandReader.ReadQueue` | include/IComposerCommandBuffer.h:670-698 | Succeeds exactly when there is a queue that holds the announced number of words; then the batch is those words and they have left the queue, else no batch is begun. |
| `CommandReaders.CommandReader.Reset` | include/IComposerCommandBuffer.h:700-707 | No batch is at hand and no handle is referred to. |
| `CommandReaders.CommandReader.BeginCommand` | include/IComposerCommandBuffer.h:715-743 | Succeeds exactly when a whole command is left, whose bounds it sets; otherwise the read of the header is undone. Between commands, the location recorded is the offset of the command; a command still open is only logged. |
| `CommandReaders.CommandReader.EndCommand` | include/IComposerCommandBuffer.h:745-759 | However much of a command was read, the cursor ends at the end its header announced. |
| `CommandReaders.CommandReader.Read` | include/IComposerCommandBuffer.h:766-769 | One word, never past the words at hand. |
| `CommandReaders.CommandReader.ReadSigned` | include/IComposerCommandBuffer.h:771-776 | The word as a signed number. |
| `CommandReaders.CommandReader.Read64` | include/IComposerCommandBuffer.h:785-790 | Two words, the low one first. |
| `CommandReaders.CommandReader.ReadColor` | include/IComposerCommandBuffer.h:792-801 | The channels of the word. |
| `CommandReaders.CommandReader.ReadHandle` | include/IComposerCommandBuffer.h:804-827 | EMPTY, CACHED, an index into the table, or an invalid index, each as the writer means it. |
| `CommandReaders.CommandReader.ReadFence` | include/IComposerCommandBuffer.h:836-856 | The word names a handle of exactly one descriptor and dup is called on that one, once, or it is not called; the result is its answer, or -1 when that is negative; exactly the result is added to the descriptors produced. |
| `CommandReaders.CommandReader.ParseSelectDisplay` | HWC/android_10/ComposerHal.cpp:1103-1111 | Accepts exactly a command of two words; when it accepts it has read exactly `length` words and done what the message asks, else nothing. |
| `CommandReaders.CommandReader.ParseSetError` | HWC/android_10/ComposerHal.cpp:1113-1124 | Accepts exactly a command of two words; when it accepts it has read exactly `length` words and done what the message asks, else nothing. |
| `CommandReaders.CommandReader.ParseSetChangedCompositionTypes` | HWC/android_10/ComposerHal.cpp:1126-1146 | Accepts exactly a command of a multiple of three words and a selected display; when it accepts it has read exactly `length` words and done what the message asks, else nothing. |
| `CommandReaders.CommandReader.ParseSetDisplayRequests` | HWC/android_10/ComposerHal.cpp:1148-1170 | Accepts exactly a command of one more than a multiple of three words and a selected display; when it accepts it has read exactly `length` words and done what the message asks, else nothing. |
| `CommandReaders.CommandReader.ParseSetPresentFence` | HWC/android_10/ComposerHal.cpp:1172-1184 | Accepts exactly a command of one word and a selected display; when it accepts it has read exactly `length` words and done what the message asks, else nothing. |
| `CommandReaders.CommandReader.ParseSetReleaseFences` | HWC/android_10/ComposerHal.cpp:1186-1206 | Accepts exactly a command of a multiple of three words and a selected display; when it accepts it has read exactly `length` words and done what the message asks, else nothing. |
| `CommandReaders.CommandReader.ParseSetPresentOrValidateDisplayResult` | HWC/android_10/ComposerHal.cpp:1208-1215 | Accepts exactly a command of one word and a selected display; when it accepts it has read exactly `length` words and done what the message asks, else nothing. |
| `CommandReaders.CommandReader.ParseCommand` | HWC/android_10/ComposerHal.cpp:1061-1090 | The right handler for each opcode, and none for any other. |
| `CommandReaders.CommandReader.ParseNext` | HWC/android_10/ComposerHal.cpp:1057-1098 | One round of the loop: the rest of the batch decides the outcome, and the cursor moved on. |
| `CommandReaders.CommandReader.Parse` | HWC/android_10/ComposerHal.cpp:1051-1101 | Terminates on arbitrary words, with the result and the state of the specification, and with every recorded location the offset of its command. |
| `CommandReaders.CommandReader.ResetData` | HWC/android_10/ComposerHal.cpp:1217-1233 | All results are gone and every descriptor they held has been closed once. |
| `CommandReaders.CommandReader.TakeErrors` | HWC/android_10/ComposerHal.cpp:1235-1237 | The errors, in order, which are then gone. |
| `CommandReaders.CommandReader.HasChanges` | HWC/android_10/ComposerHal.cpp:1239-1255 | The counts are the lengths of the lists a following take returns, and the result says whether either is positive. |
| `CommandReaders.CommandReader.TakeChangedCompositionTypes` | HWC/android_10/ComposerHal.cpp:1257-1271 | Both lists, which are then empty; nothing else changes. |
| `CommandReaders.CommandReader.TakeDisplayRequests` | HWC/android_10/ComposerHal.cpp:1273-1290 | The mask, which stays, and both lists, which are then empty. |
| `CommandReaders.CommandReader.TakeReleaseFences` | HWC/android_10/ComposerHal.cpp:1292-1304 | Both lists; ownership of the fences passes to the caller. |
| `CommandReaders.CommandReader.TakePresentFence` | HWC/android_10/ComposerHal.cpp:1306-1317 | The fence, replaced by -1; ownership passes to the caller. |
| `CommandReaders.CommandReader.TakePresentOrValidateStage` | HWC/android_10/ComposerHal.cpp:1319-1328 | The state reported, all ones for an unknown display, and an indeterminate word when none was reported. |
| `CommandReaders.LocationsAgree` | include/IComposerCommandBuffer.h:761-764 | While a reader consumes a stream the writer produced, the location recorded for the k-th command is one where the writer finds that command's opcode, for every k. |
| `CommandWriters.Grown` | include/IComposerCommandBuffer.h:623-626 | A growth reaches the needed size even when the doubling shift drops the top bit, never shrinks, and doubles otherwise. |
| `CommandWriters.GrowthIsAmortised` | include/IComposerCommandBuffer.h:614-635 | Over any run of growth requests, while no capacity grown was 2^31 or more, the words copied never exceed the capacity. |
| `CommandWriters.Fit` | include/IComposerCommandBuffer.h:493-508 | Whatever was written for a command, its arguments end up exactly as many as announced. |
| `CommandWriters.CommandWriter.constructor` | include/IComposerCommandBuffer.h:55-60 | A new writer is empty, with the capacity asked for. |
| `CommandWriters.CommandWriter.Reset` | include/IComposerCommandBuffer.h:67-81 | The writer is empty; every fence ever entrusted to it has now been closed exactly once, those in temporary handles here, and no handle of its callers has. |
| `CommandWriters.CommandWriter.GetCommand` | include/IComposerCommandBuffer.h:83-88 | The opcode half of the word at an offset of the batch, 0 past its end. |
| `CommandWriters.CommandWriter.WriteQueue` | include/IComposerCommandBuffer.h:90-135 | On success the queue holds exactly the batch and no stale word, whatever the peer left unread; it was changed exactly when there was none or it was smaller than the buffer; on failure it is the old one. |
| `CommandWriters.CommandWriter.GrowData` | include/IComposerCommandBuffer.h:614-635 | The words asked for fit, those written are preserved, and the growth is the one the amortisation result is about. |
| `CommandWriters.CommandWriter.BeginCommand` | include/IComposerCommandBuffer.h:480-491 | Inside or outside of a command, the header is written after the words there are and room for the announced arguments made. |
| `CommandWriters.CommandWriter.EndCommand` | include/IComposerCommandBuffer.h:493-508 | The words up to the announced end are kept, cut short or padded with zeros where the caller miscounted; an end without a begin keeps the words as they are. A command begun between commands becomes a frame. |
| `CommandWriters.CommandWriter.Write` | include/IComposerCommandBuffer.h:510-513 | One more argument, within the capacity. |
| `CommandWriters.CommandWriter.WriteSigned` | include/IComposerCommandBuffer.h:515-518 | A signed argument as its bit pattern. |
| `CommandWriters.CommandWriter.Write64` | include/IComposerCommandBuffer.h:525-531 | Low word, then high word. |
| `CommandWriters.CommandWriter.WriteRect` | include/IComposerCommandBuffer.h:533-539 | Four signed words. |
| `CommandWriters.CommandWriter.WriteRegion` | include/IComposerCommandBuffer.h:541-546 | The rectangles in order. |
| `CommandWriters.CommandWriter.WriteHandle` | include/IComposerCommandBuffer.h:565-576 | The index of the handle just added to the table, or the marker for none or cached; no ownership changes. |
| `CommandWriters.CommandWriter.WriteFence` | include/IComposerCommandBuffer.h:584-599 | The word refers to a temporary handle with the fence in it, which stays open, owned and in the table until the next reset; when no handle can be made the word says none and the fence is closed at once. |
| `CommandWriters.CommandWriter.GetFenceHandle` | include/IComposerCommandBuffer.h:601-608 | A fence gets exactly one temporary handle and stays open, or, when none can be made, is closed and gets none; every fence received is owned by one temporary handle or has been closed. |
| `CommandWriters.SentFencesStayOpen` | include/IComposerCommandBuffer.h:584-608 | A fence that is sent is open in a temporary handle of its own; one that is not sent is closed, once. |
| `CommandWriters.EntrustToReceives` | include/IComposerCommandBuffer.h:234-254 | Of a fence list, the writer takes over exactly the fences written so far. |
| `CommandWriters.CommandWriter.SelectDisplay` | include/IComposerCommandBuffer.h:143-149 | Appends the frame whose decoding is the command (Commands.DecodeEncode). |
| `CommandWriters.CommandWriter.SelectLayer` | include/IComposerCommandBuffer.h:152-158 | Appends the frame whose decoding is the command (Commands.DecodeEncode). |
| `CommandWriters.CommandWriter.SetColorTransform` | include/IComposerCommandBuffer.h:257-265 | Appends the frame whose decoding is the command (Commands.DecodeEncode). |
| `CommandWriters.CommandWriter.SetClientTarget` | include/IComposerCommandBuffer.h:268-287 | Appends the frame whose decoding is the command (Commands.DecodeEncode), and its handles; the fence stays open in its temporary handle until the next reset, or is closed at once without one. |
| `CommandWriters.CommandWriter.SetOutputBuffer` | include/IComposerCommandBuffer.h:290-299 | Appends the frame whose decoding is the command (Commands.DecodeEncode), and its handles; the fence stays open in its temporary handle until the next reset, or is closed at once without one. |
| `CommandWriters.CommandWriter.ValidateDisplay` | include/IComposerCommandBuffer.h:302-307 | Appends the frame whose decoding is the command (Commands.DecodeEncode). |
| `CommandWriters.CommandWriter.PresentOrValidateDisplay` | include/IComposerCommandBuffer.h:310-315 | Appends the frame whose decoding is the command (Commands.DecodeEncode). |
| `CommandWriters.CommandWriter.AcceptDisplayChanges` | include/IComposerCommandBuffer.h:318-323 | Appends the frame whose decoding is the command (Commands.DecodeEncode). |
| `CommandWriters.CommandWriter.PresentDisplay` | include/IComposerCommandBuffer.h:326-331 | Appends the frame whose decoding is the command (Commands.DecodeEncode). |
| `CommandWriters.CommandWriter.SetLayerCursorPosition` | include/IComposerCommandBuffer.h:334-341 | Appends the frame whose decoding is the command (Commands.DecodeEncode). |
| `CommandWriters.CommandWriter.SetLayerBuffer` | include/IComposerCommandBuffer.h:344-353 | Appends the frame whose decoding is the command (Commands.DecodeEncode), and its handles; the fence stays open in its temporary handle until the next reset, or is closed at once without one. |
| `CommandWriters.CommandWriter.SetLayerSurfaceDamage` | include/IComposerCommandBuffer.h:355-370 | Appends the frame whose decoding is the command (Commands.DecodeEncode). |
| `CommandWriters.CommandWriter.SetLayerBlendMode` | include/IComposerCommandBuffer.h:373-379 | Appends the frame whose decoding is the command (Commands.DecodeEncode). |
| `CommandWriters.CommandWriter.SetLayerColor` | include/IComposerCommandBuffer.h:382-388 | Appends the frame whose decoding is the command (Commands.DecodeEncode). |
| `CommandWriters.CommandWriter.SetLayerCompositionType` | include/IComposerCommandBuffer.h:391-397 | Appends the frame whose decoding is the command (Commands.DecodeEncode). |
| `CommandWriters.CommandWriter.SetLayerDataspace` | include/IComposerCommandBuffer.h:400-406 | Appends the frame whose decoding is the command (Commands.DecodeEncode). |
| `CommandWriters.CommandWriter.SetLayerDisplayFrame` | include/IComposerCommandBuffer.h:409-415 | Appends the frame whose decoding is the command (Commands.DecodeEncode). |
| `CommandWriters.CommandWriter.SetLayerPlaneAlpha` | include/IComposerCommandBuffer.h:418-424 | Appends the frame whose decoding is the command (Commands.DecodeEncode). |
| `CommandWriters.CommandWriter.SetLayerSidebandStream` | include/IComposerCommandBuffer.h:427-433 | Appends the frame whose decoding is the command (Commands.DecodeEncode), and its handle. |
| `CommandWriters.CommandWriter.SetLayerSourceCrop` | include/IComposerCommandBuffer.h:436-442 | Appends the frame whose decoding is the command (Commands.DecodeEncode). |
| `CommandWriters.CommandWriter.SetLayerTransform` | include/IComposerCommandBuffer.h:445-451 | Appends the frame whose decoding is the command (Commands.DecodeEncode). |
| `CommandWriters.CommandWriter.SetLayerVisibleRegion` | include/IComposerCommandBuffer.h:453-468 | Appends the frame whose decoding is the command (Commands.DecodeEncode). |
| `CommandWriters.CommandWriter.SetLayerZOrder` | include/IComposerCommandBuffer.h:471-477 | Appends the frame whose decoding is the command (Commands.DecodeEncode). |
| `CommandWriters.CommandWriter.SetError` | include/IComposerCommandBuffer.h:161-167 | Appends the encoding the reader folds back (RoundTrip.ResponseRoundTrip). |
| `CommandWriters.CommandWriter.SetPresentOrValidateResult` | include/IComposerCommandBuffer.h:170-175 | Appends the encoding the reader folds back (RoundTrip.ResponseRoundTrip). |
| `CommandWriters.CommandWriter.SetChangedCompositionTypes` | include/IComposerCommandBuffer.h:177-198 | Appends the encoding the reader folds back (RoundTrip.ResponseRoundTrip), cut into full commands and a last one. |
| `CommandWriters.CommandWriter.SetDisplayRequests` | include/IComposerCommandBuffer.h:200-224 | Appends the encoding the reader folds back (RoundTrip.ResponseRoundTrip), cut into full commands and a last one; none at all for an empty list. |
| `CommandWriters.CommandWriter.SetPresentFence` | include/IComposerCommandBuffer.h:226-232 | Appends the encoding the reader folds back (RoundTrip.ResponseRoundTrip); the fence stays open in its temporary handle until the next reset, or is closed at once without one. |
| `CommandWriters.CommandWriter.SetReleaseFences` | include/IComposerCommandBuffer.h:234-254 | Appends the encoding the reader folds back (RoundTrip.ResponseRoundTrip), cut into full commands and a last one; each fence written stays open in its temporary handle until the next reset, or is closed at once without one. |
| `Composers.Composer.constructor` | HWC/android_10/ComposerHal.h:287-290 | A new proxy has an empty batch and a reader between batches. |
| `Composers.Composer.SetClientTarget` | HWC/android_10/ComposerHal.cpp:476-490 | The batch grows by this very call, and the writer holds exactly the encoding of the batch; the writer takes over the fence. |
| `Composers.Composer.SetColorTransform` | HWC/android_10/ComposerHal.cpp:507-512 | The batch grows by this very call, and the writer holds exactly the encoding of the batch. |
| `Composers.Composer.SetOutputBuffer` | HWC/android_10/ComposerHal.cpp:514-519 | The batch grows by this very call, and the writer holds exactly the encoding of the batch; the writer takes over what duplicating the fence returns and nothing else, so the fence stays with its caller. |
| `Composers.Composer.AcceptDisplayChanges` | HWC/android_10/ComposerHal.cpp:227-231 | The batch grows by this very call, and the writer holds exactly the encoding of the batch. |
| `Composers.Composer.SetLayerCursorPosition` | HWC/android_10/ComposerHal.cpp:585-591 | The batch grows by this very call, and the writer holds exactly the encoding of the batch. |
| `Composers.Composer.SetLayerBuffer` | HWC/android_10/ComposerHal.cpp:593-606 | The batch grows by this very call, and the writer holds exactly the encoding of the batch; the writer takes over the fence. |
| `Composers.Composer.SetLayerSurfaceDamage` | HWC/android_10/ComposerHal.cpp:608-615 | The batch grows by this very call, and the writer holds exactly the encoding of the batch. |
| `Composers.Composer.SetLayerBlendMode` | HWC/android_10/ComposerHal.cpp:617-623 | The batch grows by this very call, and the writer holds exactly the encoding of the batch. |
| `Composers.Composer.SetLayerColor` | HWC/android_10/ComposerHal.cpp:625-631 | The batch grows by this very call, and the writer holds exactly the encoding of the batch. |
| `Composers.Composer.SetLayerCompositionType` | HWC/android_10/ComposerHal.cpp:633-639 | The batch grows by this very call, and the writer holds exactly the encoding of the batch. |
| `Composers.Composer.SetLayerDataspace` | HWC/android_10/ComposerHal.cpp:641-647 | The batch grows by this very call, and the writer holds exactly the encoding of the batch. |
| `Composers.Composer.SetLayerDisplayFrame` | HWC/android_10/ComposerHal.cpp:649-655 | The batch grows by this very call, and the writer holds exactly the encoding of the batch. |
| `Composers.Composer.SetLayerPlaneAlpha` | HWC/android_10/ComposerHal.cpp:657-662 | The batch grows by this very call, and the writer holds exactly the encoding of the batch. |
| `Composers.Composer.SetLayerSidebandStream` | HWC/android_10/ComposerHal.cpp:664-670 | The batch grows by this very call, and the writer holds exactly the encoding of the batch; no fence changes hands. |
| `Composers.Composer.SetLayerSourceCrop` | HWC/android_10/ComposerHal.cpp:672-678 | The batch grows by this very call, and the writer holds exactly the encoding of the batch. |
| `Composers.Composer.SetLayerTransform` | HWC/android_10/ComposerHal.cpp:680-686 | The batch grows by this very call, and the writer holds exactly the encoding of the batch. |
| `Composers.Composer.SetLayerVisibleRegion` | HWC/android_10/ComposerHal.cpp:688-695 | The batch grows by this very call, and the writer holds exactly the encoding of the batch. |
| `Composers.Composer.SetLayerZOrder` | HWC/android_10/ComposerHal.cpp:697-702 | The batch grows by this very call, and the writer holds exactly the encoding of the batch. |
| `InputQueues.QueueInUse` | include/IComposerCommandBuffer.h:113-128 | Over every run of batches: the queue in use is the one set up for the largest buffer so far, and the service holds it if it accepted it then. |
| `InputQueues.SentToSharedQueueIff` | HWC/android_10/ComposerHal.cpp:720-731 | Over every run: a batch that is sent reaches a queue the service holds exactly when the service accepted the queue in use. |
| `InputQueues.StrandedIff` | HWC/android_10/ComposerHal.cpp:720-731 | Over every run: a batch is sent through a queue the service does not hold exactly when it fits the queue in use and the service refused that one earlier. |
| `InputQueues.RefusedQueueIsUsed` | HWC/android_10/ComposerHal.cpp:720-731 | Two batches of equal capacity, the first refused: the second is sent through the refused queue. |
| `Composers.HeardWithoutErrorIff` | HWC/android_10/ComposerHal.cpp:738-769 | A reply is taken without error exactly when the service reports none, the queue it names can be read, holds the announced words, and they parse. |
| `Composers.HeardSound` | HWC/android_10/ComposerHal.cpp:738-782 | However a reply is taken, well or badly, the results the reader is left with keep the invariant of every reachable state. |
| `Composers.RanWithoutErrorIff` | HWC/android_10/ComposerHal.cpp:713-804 | An execution ends without an error exactly when the batch is sent and, unless it is empty, the answer has no error of its own and none traced to a decisive command; the results left are those of the answer, or on a failure before it the earlier ones. |
| `ProxyReplies.ReplyHeard` | HWC/android_10/ComposerHal.cpp:738-769 | A reply the service wrote, words and handles, is heard as the fold of its responses over a reader that forgot all earlier results. |
| `ProxyReplies.AnsweredRun` | HWC/android_10/ComposerHal.cpp:713-804 | When a batch is sent and so answered, the error returned is traced from exactly the errors reported, and the results of each display are what the reply says of it. |
| `ProxyReplies.FailedRun` | HWC/android_10/ComposerHal.cpp:713-769 | When it is not, the error says which step failed first and the results are the earlier ones. |
| `ProxyReplies.Present` | HWC/android_10/ComposerHal.cpp:457-469 | Presenting against a service that answers so: the fence returned is what dup answers for the last present fence sent for that display. |
| `ProxyReplies.Validate` | HWC/android_10/ComposerHal.cpp:545-558 | Validating against a service that answers so: the counts are those of the lists it wrote for that display. |
| `ProxyReplies.ReportedErrorReturned` | HWC/android_10/ComposerHal.cpp:784-800 | An error the service reports last at a validate, present or present-or-validate command of the batch is the one returned. |
| `ErrorTracing.TracedAsMeantIff` | HWC/android_10/ComposerHal.cpp:784-800 | For every list of reported errors: the entry whose error is returned is the last one for a validate, present or present-or-validate command of the batch, or none, exactly when the last entry at whose location such a header is read, if any, is one for such a command. |
| `ErrorTracing.ErrorAsMeantIff` | HWC/android_10/ComposerHal.cpp:784-800 | The same for the error returned: it is the one meant exactly when that last entry, if any, is one for such a command or happens to report the error the entries before it would give. |
| `ErrorTracing.ReportedAtCommands` | HWC/android_10/ComposerHal.cpp:784-800 | For an entry at the location of a command the two agree, so a service that reports only those is traced as meant. |
| `ErrorTracing.ReportedLast` | HWC/android_10/ComposerHal.cpp:784-800 | The last error reported is returned if it is at a command of one of the three opcodes, and makes no difference at any other command. |
| `ErrorTracing.TracedToAnArgument` | HWC/android_10/ComposerHal.cpp:784-800 | A batch of one setLayerZOrder, as the proxy writes it, and an error reported at its argument: the error is returned although the batch has no such command. |
| `Composers.Composer.Prepare` | HWC/android_10/ComposerHal.cpp:713-731 | Transport failures: no queue, or one the service refuses; otherwise the queue holds exactly the batch and the handles are those of the batch. The queue in use, and whether the service holds it, are as in the run of all batches so far. |
| `Composers.Composer.ExecuteCommands` | HWC/android_10/ComposerHal.cpp:771-782 | The service is handed just the words in the queue and the handles, whatever it then reads of them; without a reply the error is NO_RESOURCES. |
| `Composers.Composer.Receive` | HWC/android_10/ComposerHal.cpp:740-769 | What the reader holds and the error, for every way the callback can go. |
| `Composers.Composer.Trace` | HWC/android_10/ComposerHal.cpp:784-800 | The error of the last decisive entry, found by asking the writer at each location. |
| `Composers.Composer.Execute` | HWC/android_10/ComposerHal.cpp:713-804 | The service is handed something exactly when a non-empty batch is sent, and recovers from it exactly the calls batched; on every path the writer ends empty, with its fences closed, and both sides ready for the next batch; the error and the results are those of the path taken. |
| `Composers.Composer.PresentDisplay` | HWC/android_10/ComposerHal.cpp:457-469 | On every path the service is handed the batch with this call or nothing, the writer ends empty with its fences closed, and the error and the results left are exactly those of that execution; on success alone the display's present fence is handed out. |
| `Composers.Composer.ValidateDisplay` | HWC/android_10/ComposerHal.cpp:545-558 | On every path the service is handed the batch with this call or nothing, the writer ends empty with its fences closed, and the error and the results left are exactly those of that execution; on success the counts are those of the lists left for the display. |
| `Composers.Composer.PresentOrValidateDisplay` | HWC/android_10/ComposerHal.cpp:560-583 | On every path the service is handed the batch with this call or nothing, the writer ends empty with its fences closed, and the error and the results left are exactly those of that execution; on success the state is the one reported for the display, the fence is handed out only in state 1, the counts only in state 0. |
| `DisplayResults.FirstWinsMeaning` | HWC/android_10/HWC2.cpp:382-397 | The map has exactly the known layers listed, each with the value next to its first mention. |
| `DisplayResults.GetChangedCompositionTypes` | HWC/android_10/HWC2.cpp:370-400 | The index loop stays in range, and fills that map from the lists taken. |
| `DisplayResults.GetRequests` | HWC/android_10/HWC2.cpp:474-503 | The same for layer requests, with the display's mask. |
| `DisplayResults.GetReleaseFences` | HWC/android_10/HWC2.cpp:557-588 | In the reader's own ledger: every descriptor taken is kept in the map or closed, exactly once, duplicates of a layer and the exit on an unknown layer included; it fails exactly when a layer is unknown. |
| `Displays.Device.DestroyObject` | HWC/android_10/HWC2.cpp:266-284 | A display object destroys its layers first, then itself if virtual. |
| `Displays.Device.DestroyDisplay` | HWC/android_10/HWC2.cpp:158-161 | The display and its layers are gone. |
| `Displays.Device.CreateVirtualDisplay` | HWC/android_10/HWC2.cpp:134-156 | A new display, or, under an id already in use, one destroyed again at once. |
| `Displays.Device.OnHotplug` | HWC/android_10/HWC2.cpp:163-200 | A connected display is recreated, a disconnected one only marked. |
| `Displays.Device.AddLayer` | HWC/android_10/HWC2.cpp:292-308 | The layer the service created is owned, or destroyed again at once under an id already in use. |
| `Displays.Device.RemoveLayer` | HWC/android_10/HWC2.cpp:310-316 | The layer is no longer owned and has been destroyed. |
| `Displays.LayersConserved` | HWC/android_10/HWC2.cpp:134-316 | Over any run, whatever ids the service hands out: each layer was created as often as destroyed, plus once if the device holds it. |
| `Displays.CreatedOnceDestroyedOnce` | HWC/android_10/HWC2.cpp:812-820 | A layer created once is destroyed exactly once, when the device stops holding it. |
| `Displays.DisplaysConserved` | HWC/android_10/HWC2.cpp:134-190 | Over any run: every virtual display created, or plugged in as one, has been destroyed in the service or is held, and every physical one plugged in has had its vsync disabled or is held. |
| `Displays.DisplaysAfter` | HWC/android_10/HWC2.cpp:134-316 | After any run, which displays and layers one more operation leaves: what is destroyed is gone, what is created is there, a disconnected display is no longer connected, and nothing else changes. |
| `Displays.VirtualDisplaysGoLast` | HWC/android_10/HWC2.cpp:266-284 | Over any run: a virtual display's layers are all destroyed before destroyVirtualDisplay, exactly when the service never reuses the id of a display that still has layers. |
| `Displays.ReusedIdDestroysFirst` | HWC/android_10/HWC2.cpp:134-156 | Three steps that break it: a virtual display gets a layer, its id is handed out again, and destroyVirtualDisplay is called under that id while the layer has not been destroyed. |
| `Displays.HotplugRecreates` | HWC/android_10/HWC2.cpp:163-190 | Connecting a display again leaves it without layers, each of which was destroyed as often as created. |
| `LayerCaches.Layer.SetVisibleRegion` | HWC/android_10/HWC2.cpp:992-1010 | Sends and remembers the region unless it is the rectangle remembered. |
| `LayerCaches.Layer.SetSurfaceDamage` | HWC/android_10/HWC2.cpp:840-867 | The same for damage; the default damage is sent as no rectangle. |
| `LayerCaches.Layer.SetDataspace` | HWC/android_10/HWC2.cpp:887-894 | The same for the dataspace. |
| `LayerCaches.Layer.SetColorTransform` | HWC/android_10/HWC2.cpp:1023-1035 | The same for the colour transform, remembered only when the service takes it. |
| `LayerCaches.ElisionIsInvisibleIff` | HWC/android_10/HWC2.cpp:840-1035 | For all sequences of cached setters the service ends up as with every early return removed, exactly when it has what the cache remembers to begin with. |
| `LayerCaches.NewLayerIsExact` | HWC/android_10/HWC2.h:446-452 | A service assumed to start with what a new layer remembers never misses an update. |
| `LayerCaches.LastSetArrives` | HWC/android_10/HWC2.cpp:840-1035 | Whatever was set before, a new layer's service has what was set last: every rectangle of a region that fits a command, no rectangle for one that does not or for the default damage. |
| `LayerCaches.DroppedBatchIsNotRepaired` | HWC/android_10/HWC2.cpp:887-894 | When a batch is dropped, setting the same value again does not reach the service. |
| `FramebufferSurfaces.FramebufferSurface.NextBufferLocked` | FramebufferSurface.cpp:123-161 | Latches the item, presents that very slot, buffer and acquire fence, commits the pending release and makes the old current buffer the next to release; without a new item nothing is asked of the composer. |
| `FramebufferSurfaces.FramebufferSurface.PresentLocked` | FramebufferSurface.cpp:186-238 | The external post, or validate, accept, client target and present, each only after the one before was answered well; every exit commits the frame, and the present fence changes only when present succeeded. |
| `FramebufferSurfaces.PresentedIff` | FramebufferSurface.cpp:186-238 | A frame is presented exactly when there is no external device, validate answers without an error or changes, and accept and present succeed; present is asked for only the buffer just handed over in an accepted frame. |
| `FramebufferSurfaces.ExternalHasNoFences` | FramebufferSurface.cpp:200-206 | Over every run of a surface with an external device, whatever the composer would answer, every buffer is released without a fence. |
| `FramebufferSurfaces.EveryFrameIsItsOwn` | FramebufferSurface.cpp:123-238 | Over every run: all calls made for frame k name the slot, buffer and fence acquired as frame k; an external device gets the buffer right after the wait for its fence; the composer is asked to accept exactly when it validated without a type or request to change, and to present, right after being handed the buffer, exactly when it accepted; frame k counts as presented when it then did; a slot held for frame k is the one it was acquired in with its buffer still there, and what is released as frame k is in that slot. |
| `FramebufferSurfaces.FramebufferSurface.OnFrameCommitted` | FramebufferSurface.cpp:271-278 | The pending release is carried out, ignored or found stale, and is no longer pending. |
| `FramebufferSurfaces.FramebufferSurface.FreeBufferLocked` | FramebufferSurface.cpp:240-246 | The slot is forgotten, and is no longer current if it was. |
| `FramebufferSurfaces.RunSound` | FramebufferSurface.cpp:123-278 | Over every run of acquires, frees and reallocations: the slots held are the current one and the previous one while its release is pending; releases happen in acquire order, each after the presentation of its own frame. |
| `FramebufferSurfaces.RunFenced` | FramebufferSurface.cpp:271-278 | Over every run: a release carries the fence of the presentation it happens in or, when that failed, of the last one before that succeeded. |
| `FramebufferSurfaces.NeverTooMany` | FramebufferSurface.cpp:83 | At most two buffers are held between calls and at most three right after an acquire, the maximum announced to the queue. |
| `FramebufferSurfaces.EveryFrameAccounted` | FramebufferSurface.cpp:141-160 | Each acquired frame is held, was released once, or went when the queue freed its slot: exactly one of the three. |
| `FramebufferSurfaces.ShownBuffersStay` | FramebufferSurface.cpp:141-160 | Presenting a frame takes back neither its buffer nor the one shown before, which becomes the one pending. |
| `FramebufferSurfaces.ReleasedOneFrameLate` | FramebufferSurface.cpp:141-278 | With no frees the buffer of frame k is released during the presentation of frame k + 2, with that presentation's fence or, when it failed, the last successful one's. |
| `WorkThreads.ScheduleSafe` | WorkThread.cpp:27-68 | Under every interleaving: nothing posted is lost, repeated or reordered; nothing runs after an exit signal; a worker parked on a non-empty queue has a poster that pushed but has not yet notified. |
| `WorkThreads.ExecutedIsAPrefix` | WorkThread.cpp:36-40 | What has run is a prefix of what was posted, cut after its first exit signal once the worker is gone. |
| `WorkThreads.PostedIsPushed` | WorkThread.cpp:27-34 | What was posted is the work of the pushes, in order. |
| `WorkThreads.ExitIsReached` | WorkThread.cpp:36-68 | Once an exit signal runs or has run, at most two steps of the worker stop it, with everything behind the signal still queued. |
| `WorkThreads.QueuedWorkIsReached` | WorkThread.cpp:50-68 | No deadlock: from every reachable state with work queued and no exit under way, at most three steps already due bring the front of the queue to the worker. |

## Left out

- The headers of the composer service (opcode values, masks, handle markers) are not in the repository. Opcode numbers
  are chosen here; the proofs use only that they are distinct and leave the lower half of a header free, and that the
  markers for an empty and a cached handle are negative and distinct.
- The proxy is compiled against the platform's writer and reader bases; the model follows the repository's own copy of
  their design in include/IComposerCommandBuffer.h.
- Where the source logs a fatal error and goes on, the model takes the path that goes on (padding, cutting, skipping).
  Where it always aborts, on a buffer size that does not fit 32 bits, a precondition rules the case out.
- Reader base and reader are one class, and so are the shapes several commands share (one method each for words,
  regions, buffers and lists); the order of the words and of the effects is the source's.
- The current-entry pointer of the reader is a key, and the order in which a hash map is walked is an explicit list.
- CommandWriters.CommandWriter.WriteQueue: setting up a new queue is one yes-or-no parameter; the queue itself is a
  bounded sequence, without its shared memory.
- CommandReaders.CommandReader.ReadFence: does not model the wait on a fence that could not be duplicated, which has no
  effect on ownership.
- Floats are opaque words. LayerCaches.Layer compares colour matrices as words, so two zeros of different sign differ.
- The encoding of layer colour transforms and HDR metadata belongs to writer code that is not in the repository; the
  cache result has an abstract command instead.
- LayerCaches.NewLayerIsExact: what the service starts a layer with is not in the repository; that it is what a new
  cache remembers is an assumption, and without it `LayerCaches.ElisionIsInvisibleIff` says what is lost.
- The caches of setPerFrameMetadata and setBuffer: the first ignores a changed support mask, the second starts from an
  uninitialised slot, so neither has the property proved of the others.
- Displays.Device: display objects are values in the device's map, so raw pointers to displays and layers that outlive
  their owner are not modelled; neither are display configurations and attributes.
- FramebufferSurfaces.FramebufferSurface: the buffer queue and the consumer base are small models of what they
  guarantee; the device path disabled in the source, the previous acquire fence and setReleaseFenceFd are not modelled.
- WorkThreads: a step is what one thread does while it holds the mutex; start-up, Join and Detach are left out.
- Remote calls without logic of their own, service lookup, version casts, GonkDisplay start-up and power handling, the
  framebuffer device, gralloc loading, usage conversion and pixel packing.
