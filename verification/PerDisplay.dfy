/** The results of a reply seen display by display: what the reader holds for one display is made
    of the responses addressed to it, in order, whatever else the reply says. */
module PerDisplay {
  import opened Words
  import opened Wire
  import opened Responses
  import opened ReaderState
  import opened ReaderLists
  import opened RoundTrip

  /** The display selected by the end of a reply. */
  function Selected(rs: seq<Response>): Option<uint64> {
    if rs == [] then None
    else if rs[|rs| - 1].Select? then Some(rs[|rs| - 1].display)
    else Selected(rs[..|rs| - 1])
  }

  // ---------------------------------------------------------------- what a reply says of a display

  /** What the client gets of a fence sent to it, when it has called `dup` k times before: what `dup`
      answers for that very fence, or none. */
  function Copy(fence: int, dup: Dup, k: nat): int {
    if fence >= 0 && dup(k, fence) >= 0 then dup(k, fence) else -1
  }

  /** How many of the fences of a list are duplicated. */
  function Asked(fences: seq<int>): nat {
    if fences == [] then 0
    else Asked(fences[..|fences| - 1]) + if fences[|fences| - 1] >= 0 then 1 else 0
  }

  function Copies(fences: seq<int>, dup: Dup, k: nat): seq<int> {
    if fences == [] then []
    else
      var init := fences[..|fences| - 1];
      Copies(init, dup, k) + [Copy(fences[|fences| - 1], dup, k + Asked(init))]
  }

  /** How often a response makes the client call `dup`. */
  function Calls(r: Response): nat {
    match r
    case PresentFence(fence) => if fence >= 0 then 1 else 0
    case ReleaseFences(layers, fences) => Asked(fences[..Min(|layers|, |fences|)])
    case _ => 0
  }

  /** The calls of `dup` before and during a reply; a response about no display is not performed. */
  function CallsAfter(rs: seq<Response>, k: nat): nat {
    if rs == [] then k
    else
      var init := rs[..|rs| - 1];
      CallsAfter(init, k) + if Selected(init).Some? then Calls(rs[|rs| - 1]) else 0
  }

  /** A response, and the number of calls of `dup` made before it. */
  datatype Turn = Turn(response: Response, calls: nat)

  predicate Addressed(r: Response, selected: Option<uint64>, display: uint64) {
    !r.Select? && !r.ReportError? && selected == Some(display)
  }

  /** The responses addressed to a display. */
  function Own(rs: seq<Response>, k: nat, display: uint64): seq<Turn> {
    if rs == [] then []
    else
      var init := rs[..|rs| - 1];
      Own(init, k, display)
      + if Addressed(rs[|rs| - 1], Selected(init), display) then [Turn(rs[|rs| - 1], CallsAfter(init, k))] else []
  }

  /** What one response makes of the results of its display; a list is as long as the shorter of the
      two given. */
  function Told(rd: ReturnData, turn: Turn, dup: Dup): ReturnData {
    match turn.response
    case ChangedTypes(layers, types) =>
      var n := Min(|layers|, |types|);
      rd.(changedLayers := rd.changedLayers + layers[..n], compositionTypes := rd.compositionTypes + types[..n])
    case Requests(mask, layers, masks) =>
      var n := Min(|layers|, |masks|);
      if n == 0 then rd
      else rd.(displayRequests := mask, requestedLayers := rd.requestedLayers + layers[..n],
               requestMasks := rd.requestMasks + masks[..n])
    case PresentFence(fence) => rd.(presentFence := Copy(fence, dup, turn.calls))
    case ReleaseFences(layers, fences) =>
      var n := Min(|layers|, |fences|);
      rd.(releasedLayers := rd.releasedLayers + layers[..n],
          releaseFences := rd.releaseFences + Copies(fences[..n], dup, turn.calls))
    case PresentOrValidateResult(state) => rd.(presentOrValidateState := Some(state))
    case _ => rd
  }

  /** Lists are concatenated, each release fence a duplicate of the one sent; the last mask, state and
      present fence win. */
  function Summary(turns: seq<Turn>, dup: Dup): ReturnData {
    if turns == [] then NO_DATA else Told(Summary(turns[..|turns| - 1], dup), turns[|turns| - 1], dup)
  }

  /** The errors a reply reports, in order. */
  function ErrorsOf(rs: seq<Response>): seq<CommandError> {
    if rs == [] then []
    else
      var r := rs[|rs| - 1];
      ErrorsOf(rs[..|rs| - 1]) + if r.ReportError? then [CommandError(r.location, r.error)] else []
  }

  // ---------------------------------------------------------------- what the reader makes of it

  lemma {:induction false} CopiesAre(fences: seq<int>, dup: Dup, k: nat)
    ensures Duplicates(SourcesOf(fences), dup, k, |fences|) == Copies(fences, dup, k)
    ensures DupCalls(SourcesOf(fences), |fences|) == Asked(fences)
  {
    if fences != [] {
      var init, last := fences[..|fences| - 1], fences[|fences| - 1];
      CopiesAre(init, dup, k);
      assert SourcesOf(fences) == SourcesOf(init) + [SourceOf(last)];
      DuplicatesPrefix(SourcesOf(init), [SourceOf(last)], dup, k, |init|);
    }
  }

  lemma SummarySnoc(turns: seq<Turn>, turn: Turn, dup: Dup)
    ensures Summary(turns + [turn], dup) == Told(Summary(turns, dup), turn, dup)
  {
    assert (turns + [turn])[..|turns|] == turns;
  }

  lemma OwnSummary(rs: seq<Response>, k: nat, r: Response, display: uint64, dup: Dup)
    ensures Summary(Own(rs + [r], k, display), dup)
            == if Addressed(r, Selected(rs), display)
               then Told(Summary(Own(rs, k, display), dup), Turn(r, CallsAfter(rs, k)), dup)
               else Summary(Own(rs, k, display), dup)
  {
    hide Told, Calls, Summary, Selected, CallsAfter;
    var turns := Own(rs, k, display);
    assert (rs + [r])[..|rs|] == rs && turns + [] == turns;
    if Addressed(r, Selected(rs), display) { SummarySnoc(turns, Turn(r, CallsAfter(rs, k)), dup); }
  }

  lemma OwnNone(rs: seq<Response>, k: nat, r: Response, display: uint64)
    ensures Own(rs + [r], k, display) == [] <==> Own(rs, k, display) == [] && !Addressed(r, Selected(rs), display)
  {
    hide Selected, CallsAfter, Addressed;
    assert (rs + [r])[..|rs|] == rs;
  }

  /** One response changes the results of the selected display only. */
  lemma FoldOwn(r: Response, dup: Dup, s: State)
    requires s.current.Some? && s.current.value in s.data && !Free(r)
    ensures var t := Fold(r, dup, s);
            && t.data == s.data[s.current.value := Told(s.data[s.current.value], Turn(r, s.dups), dup)]
            && t.current == s.current && t.dups == s.dups + Calls(r) && t.errors == s.errors
  {
    hide Duplicates, DupCalls, Bag, Copies, Asked;
    var rd := s.data[s.current.value];
    assert s.data[s.current.value := rd] == s.data;
    match r
    case ChangedTypes(layers, types) =>
      assert rd.changedLayers + [] == rd.changedLayers && rd.compositionTypes + [] == rd.compositionTypes;
    case ReleaseFences(layers, fences) =>
      var n := Min(|layers|, |fences|);
      CopiesAre(fences[..n], dup, s.dups);
      NothingToCopy(dup, s.dups);
      assert rd.releasedLayers + [] == rd.releasedLayers && rd.releaseFences + [] == rd.releaseFences;
    case _ =>
  }

  lemma NothingToCopy(dup: Dup, k: nat)
    ensures Copies([], dup, k) == [] && Asked([]) == 0
  {
  }

  lemma FoldTold(r: Response, dup: Dup, s: State)
    requires s.current.Some? ==> s.current.value in s.data
    ensures var t := Fold(r, dup, s);
            && t.current == (if r.Select? then Some(r.display) else s.current)
            && t.dups == s.dups + (if s.current.Some? then Calls(r) else 0)
            && t.errors == s.errors + (if r.ReportError? then [CommandError(r.location, r.error)] else [])
            && t.data == (if r.Select? && r.display !in s.data then s.data[r.display := NO_DATA]
                          else if s.current.None? || Free(r) then s.data
                          else s.data[s.current.value := Told(s.data[s.current.value], Turn(r, s.dups), dup)])
  {
    if s.current.Some? && !Free(r) {
      hide Fold, Told, Calls;
      FoldOwn(r, dup, s);
    }
  }

  /** The reader's results for a display are the summary of the responses addressed to that display,
      descriptors and all; the current display is the last one selected. */
  lemma {:induction false} ResultsPerDisplay(rs: seq<Response>, dup: Dup, s: State, display: uint64)
    requires s.data == map[] && s.current == None
    ensures var t := FoldAll(rs, dup, s);
            && t.current == Selected(rs) && (t.current.Some? ==> t.current.value in t.data)
            && t.dups == CallsAfter(rs, s.dups)
            && (display in t.data <==> Select(display) in rs)
            && (display in t.data ==> t.data[display] == Summary(Own(rs, s.dups, display), dup))
            && (display !in t.data ==> Own(rs, s.dups, display) == [])
  {
    if rs != [] {
      var init, r := rs[..|rs| - 1], rs[|rs| - 1];
      var t := FoldAll(init, dup, s);
      ResultsPerDisplay(init, dup, s, display);
      assert rs == init + [r] && FoldAll(rs, dup, s) == Fold(r, dup, t);
      assert Summary([], dup) == NO_DATA;
      hide Fold, Told, Calls, Intended, FoldAll, Own, Summary;
      FoldTold(r, dup, t);
      OwnSummary(init, s.dups, r, display, dup);
      OwnNone(init, s.dups, r, display);
    }
  }

  /** Every error a reply reports is there, in order, after those there were. */
  lemma {:induction false} FoldErrors(rs: seq<Response>, dup: Dup, s: State)
    requires s.current.Some? ==> s.current.value in s.data
    ensures var t := FoldAll(rs, dup, s);
            && t.errors == s.errors + ErrorsOf(rs) && (t.current.Some? ==> t.current.value in t.data)
  {
    hide Fold, Told;
    if rs != [] {
      var init, r := rs[..|rs| - 1], rs[|rs| - 1];
      FoldErrors(init, dup, s);
      FoldTold(r, dup, FoldAll(init, dup, s));
    }
  }

  /** A whole reply, encoded and parsed: the errors are those it reports, and for each display the
      results are the summary of what it says of that display. */
  lemma ReplyResults(rs: seq<Response>, table: HandleTable, dup: Dup, s: State, display: uint64)
    requires Keyed(s) && |AddedAll(rs)| <= MAX_HANDLES && AddedAll(rs) <= table && Guarded(rs, false)
    ensures var parsed := Parse(s, Flatten(EncodeResponses(rs)), table, dup);
            && parsed.error == NO_ERROR && parsed.state.errors == ErrorsOf(rs)
            && (display in parsed.state.data <==> Select(display) in rs)
            && Entry(parsed.state, display) == Summary(Own(rs, s.dups, display), dup)
  {
    hide Flatten, EncodeResponses, Keyed, AddedAll, Guarded, Parse, FoldAll, Own, Summary, ErrorsOf, Held;
    ReplyArrives(rs, table, dup, s);
    ResultsPerDisplay(rs, dup, ResetData(s), display);
    FoldErrors(rs, dup, ResetData(s));
    NoTurns(dup);
  }

  /** Of a display about which nothing was said there is nothing. */
  lemma NoTurns(dup: Dup)
    ensures Summary([], dup) == NO_DATA == ReturnData(0, [], [], [], [], -1, [], [], None)
  {
  }

  /** True when a reply reports a present-or-validate state for a display. */
  predicate ReportsState(rs: seq<Response>, display: uint64) {
    exists i | 0 <= i < |rs| :: rs[i].PresentOrValidateResult? && Selected(rs[..i]) == Some(display)
  }

  lemma ReportsStateSnoc(rs: seq<Response>, r: Response, display: uint64)
    ensures ReportsState(rs + [r], display)
            <==> ReportsState(rs, display) || (r.PresentOrValidateResult? && Selected(rs) == Some(display))
  {
    var all := rs + [r];
    forall i | 0 <= i <= |rs|
      ensures all[..i] == rs[..i]
    {
    }
    assert rs[..|rs|] == rs && all[|rs|] == r;
    if i :| 0 <= i < |rs| && rs[i].PresentOrValidateResult? && Selected(rs[..i]) == Some(display) {
      assert all[i] == rs[i];
    }
  }

  lemma AddressedState(r: Response, selected: Option<uint64>, display: uint64, rd: ReturnData, calls: nat, dup: Dup)
    ensures r.PresentOrValidateResult? && selected == Some(display) ==> Addressed(r, selected, display)
    ensures Addressed(r, selected, display) ==>
              (Told(rd, Turn(r, calls), dup).presentOrValidateState.Some?
               <==> rd.presentOrValidateState.Some? || (r.PresentOrValidateResult? && selected == Some(display)))
  {
    hide Copies;
  }

  lemma {:induction false} OwnState(rs: seq<Response>, k: nat, dup: Dup, display: uint64)
    ensures Summary(Own(rs, k, display), dup).presentOrValidateState.Some? <==> ReportsState(rs, display)
  {
    if rs != [] {
      var init, r := rs[..|rs| - 1], rs[|rs| - 1];
      OwnState(init, k, dup, display);
      assert rs == init + [r];
      hide Own, Summary, Selected, CallsAfter, ReportsState, Addressed, Told;
      ReportsStateSnoc(init, r, display);
      OwnSummary(init, k, r, display, dup);
      AddressedState(r, Selected(init), display, Summary(Own(init, k, display), dup), CallsAfter(init, k), dup);
    } else {
      assert !ReportsState(rs, display) && Summary([], dup) == NO_DATA;
    }
  }

  /** After a reply has been parsed, the present-or-validate state of a display has a value exactly when
      the reply reports one for that display; otherwise what a caller reads is indeterminate. */
  lemma StateDefinedIff(rs: seq<Response>, table: HandleTable, dup: Dup, s: State, display: uint64)
    requires Keyed(s) && |AddedAll(rs)| <= MAX_HANDLES && AddedAll(rs) <= table && Guarded(rs, false)
    ensures var t := Parse(s, Flatten(EncodeResponses(rs)), table, dup).state;
            && (display in t.data <==> Select(display) in rs)
            && (display in t.data ==> (t.data[display].presentOrValidateState.Some? <==> ReportsState(rs, display)))
  {
    ReplyArrives(rs, table, dup, s);
    ResultsPerDisplay(rs, dup, ResetData(s), display);
    OwnState(rs, s.dups, dup, display);
  }

  /** A reply that selects a display and reports nothing. */
  function SelectAlone(display: uint64): (rs: seq<Response>)
    ensures AddedAll(rs) == [] && Guarded(rs, false) && Select(display) in rs && !ReportsState(rs, display)
  {
    assert [Select(display)][..0] == [];
    [Select(display)]
  }

  /** Such a reply leaves the state of the display unset. */
  lemma StateLeftUnset(table: HandleTable, dup: Dup, s: State, display: uint64)
    requires Keyed(s)
    ensures var t := Parse(s, Flatten(EncodeResponses(SelectAlone(display))), table, dup).state;
            display in t.data && t.data[display].presentOrValidateState == None
  {
    hide AddedAll, Guarded, ReportsState, Keyed, Parse, Flatten, EncodeResponses, SelectAlone;
    StateDefinedIff(SelectAlone(display), table, dup, s, display);
  }

  /** The request mask a server writes for the selected display, which has another, is there after the
      client has parsed it exactly when it comes with at least one layer: a list without layers is not
      written at all, mask and all. */
  lemma MaskArrivesIff(mask: uint32, layers: seq<uint64>, masks: seq<uint32>, table: HandleTable, dup: Dup, s: State)
    requires s.current.Some? && Current(s).displayRequests != mask
    ensures var words := Flatten(EncodeResponses([Response.Requests(mask, layers, masks)]));
            Current(ParseWords(words, table, dup, s).state).displayRequests == mask <==> layers != [] && masks != []
  {
    var r := Response.Requests(mask, layers, masks);
    OneResponse(r, dup, s);
    hide Flatten, EncodeResponses, ParseWords, FoldAll, AddedAll, Guarded;
    ResponseRoundTrip([r], table, dup, s);
  }

  lemma OneResponse(r: Response, dup: Dup, s: State)
    ensures FoldAll([r], dup, s) == Fold(r, dup, s)
    ensures AddedAll([r]) == Added(r)
    ensures Guarded([r], true)
  {
    assert [r][..0] == [];
    assert [] + Added(r) == Added(r);
  }

  /** A reply that selects a display and has a request mask for it, but no layer. */
  function MaskAlone(display: uint64, mask: uint32, masks: seq<uint32>): (rs: seq<Response>)
    ensures AddedAll(rs) == [] && Guarded(rs, false)
  {
    var rs := [Select(display), Response.Requests(mask, [], masks)];
    assert rs[..1] == [Select(display)] && [Select(display)][..0] == [] && rs[..1][0].Select?;
    assert AddedAll([Select(display)]) == [];
    rs
  }

  /** The client parses such a reply without an error, and there is no request for the display. */
  lemma MaskLost(display: uint64, mask: uint32, masks: seq<uint32>, table: HandleTable, dup: Dup, s: State)
    requires Keyed(s) && mask != 0
    ensures var parsed := Parse(s, Flatten(EncodeResponses(MaskAlone(display, mask, masks))), table, dup);
            && parsed.error == NO_ERROR
            && display in parsed.state.data && parsed.state.data[display].displayRequests == 0 != mask
  {
    hide Flatten, EncodeResponses, Keyed, Parse, AddedAll, Guarded;
    var rs := MaskAlone(display, mask, masks);
    ReplyArrives(rs, table, dup, s);
    var t := Fold(Select(display), dup, ResetData(s));
    assert rs[..1] == [Select(display)] && [Select(display)][..0] == [];
    assert FoldAll([Select(display)], dup, ResetData(s)) == t;
    assert FoldAll(rs, dup, ResetData(s)) == Fold(rs[1], dup, t);
  }

  /** A rejected last command goes unnoticed: a reply that ends in a header no one knows parses. */
  lemma RejectedLastGoesUnnoticed(dup: Dup, s: State)
    ensures ParseWords([Header(0x7FFF, 0)], [], dup, s) == Parsed(s, NO_ERROR)
  {
    HeaderRoundTrip(0x7FFF, 0);
    var words := [Header(0x7FFF, 0)];
    assert WholeCommand(words) && AfterFirst(words) == [];
  }
}
