/** What the composer proxy promises about batching: the setters only write words, yet a
    receiver that keeps track of the selected display and layer recovers the very calls. */
module Batching {
  import opened Words
  import opened Wire
  import opened Commands

  /** A call on the composer proxy that is batched rather than sent at once. */
  datatype Call =
    | OnDisplay(display: uint64, command: Command)
    | OnLayer(display: uint64, layer: uint64, command: Command)

  predicate Selects(c: Command) {
    c.SelectDisplay? || c.SelectLayer?
  }

  predicate ForLayer(c: Command) {
    || c.SetLayerCursorPosition? || c.SetLayerBuffer? || c.SetLayerSurfaceDamage?
    || c.SetLayerBlendMode? || c.SetLayerColor? || c.SetLayerCompositionType?
    || c.SetLayerDataspace? || c.SetLayerDisplayFrame? || c.SetLayerPlaneAlpha?
    || c.SetLayerSidebandStream? || c.SetLayerSourceCrop? || c.SetLayerTransform?
    || c.SetLayerVisibleRegion? || c.SetLayerZOrder?
  }

  predicate ValidCall(call: Call) {
    WellFormed(call.command) && !Selects(call.command) && (ForLayer(call.command) <==> call.OnLayer?)
  }

  /** The commands the proxy writes for a call. */
  function Expand(call: Call): seq<Command> {
    match call
    case OnDisplay(display, c) => [SelectDisplay(display), c]
    case OnLayer(display, layer, c) => [SelectDisplay(display), SelectLayer(layer), c]
  }

  function ExpandAll(calls: seq<Call>): seq<Command> {
    if calls == [] then [] else ExpandAll(calls[..|calls| - 1]) + Expand(calls[|calls| - 1])
  }

  function CallMeaning(call: Call): Call {
    call.(command := Meaning(call.command))
  }

  function CallMeanings(calls: seq<Call>): seq<Call> {
    seq(|calls|, i requires 0 <= i < |calls| => CallMeaning(calls[i]))
  }

  // ---------------------------------------------------------------- the receiver

  /** A receiver's state: the calls it has understood, and its current selection. */
  datatype Receiver = Lost | Receiver(calls: seq<Call>, display: Option<uint64>, layer: Option<uint64>)

  function Receive(r: Receiver, c: Command): Receiver {
    match r
    case Lost => Lost
    case Receiver(calls, display, layer) =>
      if c.SelectDisplay? then r.(display := Some(c.display))
      else if c.SelectLayer? then r.(layer := Some(c.layer))
      else if display.None? then Lost
      else if !ForLayer(c) then r.(calls := calls + [OnDisplay(display.value, c)])
      else if layer.None? then Lost
      else r.(calls := calls + [OnLayer(display.value, layer.value, c)])
  }

  function ReceiveAll(cs: seq<Command>): Receiver {
    if cs == [] then Receiver([], None, None) else Receive(ReceiveAll(cs[..|cs| - 1]), cs[|cs| - 1])
  }

  /** The calls a receiver finds in a stream of words and its handle table. */
  function Received(words: seq<uint32>, table: HandleTable): Option<seq<Call>> {
    match Split(words)
    case None => None
    case Some(fs) =>
      match DecodeAll(fs, table)
      case None => None
      case Some(cs) => if ReceiveAll(cs).Lost? then None else Some(ReceiveAll(cs).calls)
  }

  // ---------------------------------------------------------------- proof

  lemma ReceiveSnoc(cs: seq<Command>, c: Command)
    ensures ReceiveAll(cs + [c]) == Receive(ReceiveAll(cs), c)
  {
    assert (cs + [c])[..|cs + [c]| - 1] == cs;
  }

  lemma ReceiveTwo(cs: seq<Command>, c: Command, d: Command)
    ensures ReceiveAll(cs + [c, d]) == Receive(Receive(ReceiveAll(cs), c), d)
  {
    ReceiveSnoc(cs, c);
    ReceiveSnoc(cs + [c], d);
    assert cs + [c, d] == cs + [c] + [d];
  }

  lemma ReceiveCall(cs: seq<Command>, call: Call)
    requires ReceiveAll(cs).Receiver? && ValidCall(call)
    ensures ReceiveAll(cs + Expand(call)).Receiver?
    ensures ReceiveAll(cs + Expand(call)).calls == ReceiveAll(cs).calls + [call]
  {
    match call
    case OnDisplay(display, c) => ReceiveTwo(cs, SelectDisplay(display), c);
    case OnLayer(display, layer, c) =>
      ReceiveTwo(cs, SelectDisplay(display), SelectLayer(layer));
      ReceiveSnoc(cs + [SelectDisplay(display), SelectLayer(layer)], c);
      assert cs + Expand(call) == cs + [SelectDisplay(display), SelectLayer(layer)] + [c];
  }

  lemma {:induction false} MeaningsAppend(a: seq<Command>, b: seq<Command>)
    ensures Meanings(a + b) == Meanings(a) + Meanings(b)
  {
    if b == [] {
      assert a + b == a;
    } else {
      var n := |b| - 1;
      assert (a + b)[..|a + b| - 1] == a + b[..n];
      MeaningsAppend(a, b[..n]);
    }
  }

  lemma MeaningsExpand(call: Call)
    ensures Meanings(Expand(call)) == Expand(CallMeaning(call))
  {
    match call
    case OnDisplay(display, c) =>
      MeaningsAppend([SelectDisplay(display)], [c]);
      assert Expand(call) == [SelectDisplay(display)] + [c];
    case OnLayer(display, layer, c) =>
      MeaningsAppend([SelectDisplay(display)], [SelectLayer(layer)]);
      MeaningsAppend([SelectDisplay(display)] + [SelectLayer(layer)], [c]);
      assert Expand(call) == [SelectDisplay(display)] + [SelectLayer(layer)] + [c];
  }

  lemma ValidMeaning(call: Call)
    requires ValidCall(call)
    ensures ValidCall(CallMeaning(call))
  {
  }

  lemma ReceiveNothing()
    ensures ReceiveAll(Meanings(ExpandAll([]))).Receiver? && ReceiveAll(Meanings(ExpandAll([]))).calls == []
  {
  }

  lemma {:induction false} ReceiveExpanded(calls: seq<Call>)
    requires forall call | call in calls :: ValidCall(call)
    ensures ReceiveAll(Meanings(ExpandAll(calls))).Receiver?
    ensures ReceiveAll(Meanings(ExpandAll(calls))).calls
            == CallMeanings(calls)
  {
    hide ValidCall, Meanings, Expand, ExpandAll, ReceiveAll, CallMeaning;
    if calls == [] {
      ReceiveNothing();
    } else {
      var init, last := calls[..|calls| - 1], calls[|calls| - 1];
      ReceiveExpanded(init);
      ExpandSnoc(init, last);
      MeaningsAppend(ExpandAll(init), Expand(last));
      MeaningsExpand(last);
      ValidMeaning(last);
      assert calls == init + [last] && CallMeanings(calls) == CallMeanings(init) + [CallMeaning(last)];
      ReceiveCall(Meanings(ExpandAll(init)), CallMeaning(last));
    }
  }

  /** Batching preserves meaning: from the words and handles written for any sequence of calls,
      the receiver recovers exactly those calls, in order, each with its display, layer and
      arguments. */
  lemma BatchingPreservesMeaning(calls: seq<Call>)
    requires forall call | call in calls :: ValidCall(call)
    requires Encodable(ExpandAll(calls))
    ensures Received(Flatten(EncodeAll(ExpandAll(calls))), PushedAll(ExpandAll(calls)))
            == Some(CallMeanings(calls))
  {
    var cs := ExpandAll(calls);
    SplitFlatten(Flatten(EncodeAll(cs)), EncodeAll(cs));
    DecodeEncodeAll(cs, PushedAll(cs));
    ReceiveExpanded(calls);
  }

  // ---------------------------------------------------------------- adding to a batch

  lemma EncodeSnoc(cs: seq<Command>, c: Command)
    requires Encodable(cs) && WellFormed(c) && HandleRoom(c, |PushedAll(cs)|)
    ensures Encodable(cs + [c]) && PushedAll(cs + [c]) == PushedAll(cs) + Pushed(c)
    ensures EncodeAll(cs + [c]) == EncodeAll(cs) + [Encode(c, |PushedAll(cs)|)]
  {
    assert (cs + [c])[..|cs|] == cs;
  }

  lemma EncodeSelection(cs: seq<Command>, select: Command)
    requires Encodable(cs) && Selects(select)
    ensures Encodable(cs + [select]) && PushedAll(cs + [select]) == PushedAll(cs)
    ensures EncodeAll(cs + [select]) == EncodeAll(cs) + [Encode(select, |PushedAll(cs)|)]
  {
    EncodeSnoc(cs, select);
    assert PushedAll(cs) + [] == PushedAll(cs);
  }

  lemma ExpandSnoc(batch: seq<Call>, call: Call)
    ensures ExpandAll(batch + [call]) == ExpandAll(batch) + Expand(call)
  {
    assert (batch + [call])[..|batch|] == batch;
  }
}
