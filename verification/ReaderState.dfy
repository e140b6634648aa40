/** What the client's reader does to its state: the per-display results, the errors, and a
    ledger of the descriptors it has produced, closed and handed out. */
module ReaderState {
  import opened Words
  import opened Wire

  const NO_ERROR: int32 := 0
  const NO_RESOURCES: int32 := 6

  datatype CommandError = CommandError(location: uint32, error: int32)

  /** Results for one display.  The present-or-validate state has no initial value; `None`
      stands for that indeterminate word. */
  datatype ReturnData = ReturnData(
    displayRequests: uint32,
    changedLayers: seq<uint64>, compositionTypes: seq<int32>,
    requestedLayers: seq<uint64>, requestMasks: seq<uint32>,
    presentFence: int,
    releasedLayers: seq<uint64>, releaseFences: seq<int>,
    presentOrValidateState: Option<uint32>)

  const NO_DATA := ReturnData(0, [], [], [], [], -1, [], [], None)

  /** Every descriptor the reader ever produced, closed, or handed to a caller. */
  datatype Ledger = Ledger(produced: multiset<int>, closed: multiset<int>, handedOut: multiset<int>)

  /** `displays` lists the keys of `data` in the map's iteration order; `current` is the entry
      the current-display pointer denotes; `dups` counts the calls to `dup` so far. */
  datatype State = State(
    errors: seq<CommandError>,
    displays: seq<uint64>, data: map<uint64, ReturnData>, current: Option<uint64>,
    dups: nat, ledger: Ledger)

  /** The environment's answers: what the k-th call of `dup`, on a given descriptor, returns. */
  type Dup = (nat, int) -> int

  // ---------------------------------------------------------------- duplicated fences

  /** A fence read from the stream: -1 without a one-descriptor handle or when `dup` fails. */
  function Duplicate(source: Option<int>, dup: Dup, k: nat): int {
    if source.Some? && dup(k, source.value) >= 0 then dup(k, source.value) else -1
  }

  /** How often `dup` is called for the first n fences of a list. */
  function DupCalls(sources: seq<Option<int>>, n: nat): nat
    requires n <= |sources|
  {
    if n == 0 then 0 else DupCalls(sources, n - 1) + (if sources[n - 1].Some? then 1 else 0)
  }

  function Duplicates(sources: seq<Option<int>>, dup: Dup, k: nat, n: nat): (fds: seq<int>)
    requires n <= |sources|
    ensures |fds| == n
  {
    if n == 0 then []
    else Duplicates(sources, dup, k, n - 1) + [Duplicate(sources[n - 1], dup, k + DupCalls(sources, n - 1))]
  }

  function Sources(words: seq<uint32>, table: HandleTable): (sources: seq<Option<int>>)
    ensures |sources| == |words|
  {
    seq(|words|, i requires 0 <= i < |words| => FenceSource(words[i], table))
  }

  // ---------------------------------------------------------------- pair lists

  /** The layers of the first n (layer, word) pairs of an argument list. */
  function Layers(args: seq<uint32>, n: nat): (layers: seq<uint64>)
    requires 3 * n <= |args|
    ensures |layers| == n
  {
    if n == 0 then [] else Layers(args, n - 1) + [Join(args[3 * n - 3], args[3 * n - 2])]
  }

  /** The words of the first n pairs. */
  function Thirds(args: seq<uint32>, n: nat): (words: seq<uint32>)
    requires 3 * n <= |args|
    ensures |words| == n
  {
    if n == 0 then [] else Thirds(args, n - 1) + [args[3 * n - 1]]
  }

  function Signed(words: seq<uint32>): (types: seq<int32>)
    ensures |types| == |words|
  {
    seq(|words|, i requires 0 <= i < |words| => ToSigned(words[i]))
  }

  // ---------------------------------------------------------------- one command

  /** What a command asks of the reader, once its words have been read.  A fence is still the
      descriptor to duplicate. */
  datatype Message =
    | SelectDisplay(display: uint64)
    | Error(location: uint32, error: int32)
    | Types(layers: seq<uint64>, types: seq<int32>)
    | Requests(mask: uint32, layers: seq<uint64>, masks: seq<uint32>)
    | PresentFence(source: Option<int>)
    | ReleaseFences(layers: seq<uint64>, sources: seq<Option<int>>)
    | Result(state: uint32)
    | Malformed

  /** The seven commands the reader knows, each with its length check. */
  function ReadMessage(f: Frame, table: HandleTable): Message {
    var args, n := f.args, |f.args|;
    if f.op == Code(OpSelectDisplay) then
      if n == 2 then SelectDisplay(Join(args[0], args[1])) else Malformed
    else if f.op == Code(OpSetError) then
      if n == 2 then Error(args[0], ToSigned(args[1])) else Malformed
    else if f.op == Code(OpSetChangedCompositionTypes) then
      if n % 3 == 0 then Types(Layers(args, n / 3), Signed(Thirds(args, n / 3))) else Malformed
    else if f.op == Code(OpSetDisplayRequests) then
      if n % 3 == 1 then Requests(args[0], Layers(args[1..], n / 3), Thirds(args[1..], n / 3)) else Malformed
    else if f.op == Code(OpSetPresentFence) then
      if n == 1 then PresentFence(FenceSource(args[0], table)) else Malformed
    else if f.op == Code(OpSetReleaseFences) then
      if n % 3 == 0 then ReleaseFences(Layers(args, n / 3), Sources(Thirds(args, n / 3), table)) else Malformed
    else if f.op == Code(OpSetPresentOrValidateDisplayResult) then
      if n == 1 then Result(args[0]) else Malformed
    else Malformed
  }

  /** All but the selection itself and errors need a display to have been selected. */
  predicate Accepts(m: Message, selected: bool) {
    !m.Malformed? && (m.SelectDisplay? || m.Error? || selected)
  }

  /** The results being filled in. */
  function Current(s: State): ReturnData {
    if s.current.Some? && s.current.value in s.data then s.data[s.current.value] else NO_DATA
  }

  function WithCurrent(s: State, rd: ReturnData): State
    requires s.current.Some?
  {
    s.(data := s.data[s.current.value := rd])
  }

  function SelectEntry(s: State, display: uint64): State {
    if display in s.data then s.(current := Some(display))
    else s.(displays := s.displays + [display], data := s.data[display := NO_DATA], current := Some(display))
  }

  function ReplaceFence(s: State, fence: int, calls: nat): State
    requires s.current.Some?
  {
    WithCurrent(s, Current(s).(presentFence := fence)).(
      dups := s.dups + calls,
      ledger := s.ledger.(produced := s.ledger.produced + Bag([fence]),
                          closed := s.ledger.closed + Bag([Current(s).presentFence])))
  }

  function AddFences(s: State, layers: seq<uint64>, fences: seq<int>, calls: nat): State
    requires s.current.Some?
  {
    var rd := Current(s);
    WithCurrent(s, rd.(releasedLayers := rd.releasedLayers + layers,
                       releaseFences := rd.releaseFences + fences)).(
      dups := s.dups + calls,
      ledger := s.ledger.(produced := s.ledger.produced + Bag(fences)))
  }

  /** The effect of an accepted command. */
  function Perform(m: Message, dup: Dup, s: State): State
    requires Accepts(m, s.current.Some?)
  {
    var rd := Current(s);
    match m
    case SelectDisplay(display) => SelectEntry(s, display)
    case Error(location, error) => s.(errors := s.errors + [CommandError(location, error)])
    case Types(layers, types) =>
      WithCurrent(s, rd.(changedLayers := rd.changedLayers + layers,
                         compositionTypes := rd.compositionTypes + types))
    case Requests(mask, layers, masks) =>
      WithCurrent(s, rd.(displayRequests := mask, requestedLayers := rd.requestedLayers + layers,
                         requestMasks := rd.requestMasks + masks))
    case PresentFence(source) =>
      ReplaceFence(s, Duplicate(source, dup, s.dups), if source.Some? then 1 else 0)
    case ReleaseFences(layers, sources) =>
      AddFences(s, layers, Duplicates(sources, dup, s.dups, |sources|), DupCalls(sources, |sources|))
    case Result(state) => WithCurrent(s, rd.(presentOrValidateState := Some(state)))
  }

  // ---------------------------------------------------------------- a whole batch

  datatype Parsed = Parsed(state: State, error: int32)

  /** Reads commands until the words run out, a command is cut short, or one is rejected.
      A rejected command has already been skipped when the loop looks for leftover words. */
  function ParseWords(words: seq<uint32>, table: HandleTable, dup: Dup, s: State): Parsed
    decreases |words|
  {
    if words == [] then Parsed(s, NO_ERROR)
    else if !WholeCommand(words) then Parsed(s, NO_RESOURCES)
    else
      var m := ReadMessage(FirstFrame(words), table);
      if Accepts(m, s.current.Some?) then ParseWords(AfterFirst(words), table, dup, Perform(m, dup, s))
      else Parsed(s, if AfterFirst(words) == [] then NO_ERROR else NO_RESOURCES)
  }

  /** The descriptors one display's results hold. */
  function HeldBy(rd: ReturnData): multiset<int> { Bag([rd.presentFence]) + Bag(rd.releaseFences) }

  ghost function Held(displays: seq<uint64>, data: map<uint64, ReturnData>): multiset<int>
    requires forall d | d in displays :: d in data
  {
    if displays == [] then multiset{}
    else
      var n := |displays| - 1;
      assert displays[n] in displays;
      Held(displays[..n], data) + HeldBy(data[displays[n]])
  }

  ghost predicate Keyed(s: State) {
    && (forall d :: d in s.data <==> d in s.displays)
    && (forall i, j | 0 <= i < j < |s.displays| :: s.displays[i] != s.displays[j])
    && (s.current.Some? ==> s.current.value in s.data)
  }

  ghost function ResetData(s: State): State
    requires Keyed(s)
  {
    State([], [], map[], None, s.dups,
          s.ledger.(closed := s.ledger.closed + Held(s.displays, s.data)))
  }

  ghost function Parse(s: State, words: seq<uint32>, table: HandleTable, dup: Dup): Parsed
    requires Keyed(s)
  {
    ParseWords(words, table, dup, ResetData(s))
  }

  // ---------------------------------------------------------------- taking results out

  /** The results of a display, none for one the reply did not select. */
  function Entry(s: State, display: uint64): ReturnData {
    if display in s.data then s.data[display] else NO_DATA
  }

  function Update(s: State, display: uint64, rd: ReturnData): State {
    s.(data := s.data[display := rd])
  }

  function TakeErrors(s: State): State { s.(errors := []) }

  function TakeChangedTypes(s: State, display: uint64): State {
    if display !in s.data then s
    else Update(s, display, s.data[display].(changedLayers := [], compositionTypes := []))
  }

  function TakeRequests(s: State, display: uint64): State {
    if display !in s.data then s
    else Update(s, display, s.data[display].(requestedLayers := [], requestMasks := []))
  }

  ghost function TakeReleaseFences(s: State, display: uint64): State {
    if display !in s.data then s
    else Update(s, display, s.data[display].(releasedLayers := [], releaseFences := [])).(
           ledger := s.ledger.(handedOut := s.ledger.handedOut + Bag(s.data[display].releaseFences)))
  }

  /** Descriptors that were handed out are closed by those they were handed to. */
  function Settle(l: Ledger, fds: multiset<int>): Ledger {
    l.(closed := l.closed + fds, handedOut := l.handedOut - fds)
  }

  ghost function CloseTaken(s: State, fds: multiset<int>): State { s.(ledger := Settle(s.ledger, fds)) }

  /** The fences of repeated layers among the first n: a map keyed by layer has no place for them. */
  function ClosedTo(layers: seq<uint64>, fences: seq<int>, n: nat): multiset<int>
    requires n <= |layers| && n <= |fences|
  {
    if n == 0 then multiset{}
    else if layers[n - 1] in layers[..n - 1] then With(ClosedTo(layers, fences, n - 1), fences[n - 1])
    else ClosedTo(layers, fences, n - 1)
  }

  /** What a display closes of the fences it takes: all of them if it does not know a layer. */
  function ClosedHere(layers: seq<uint64>, fences: seq<int>, known: set<uint64>): multiset<int>
    requires |layers| == |fences|
  {
    if forall l | l in layers :: l in known then ClosedTo(layers, fences, |layers|) else Bag(fences)
  }

  /** A display takes its release fences and closes those it cannot pass on. */
  ghost function PassReleaseFences(s: State, display: uint64, known: set<uint64>): State {
    if display !in s.data || |s.data[display].releasedLayers| != |s.data[display].releaseFences| then s
    else CloseTaken(TakeReleaseFences(s, display),
                    ClosedHere(s.data[display].releasedLayers, s.data[display].releaseFences, known))
  }

  ghost function TakePresentFence(s: State, display: uint64): State {
    if display !in s.data then s
    else Update(s, display, s.data[display].(presentFence := -1)).(
           ledger := s.ledger.(handedOut := s.ledger.handedOut + Bag([s.data[display].presentFence])))
  }
}
