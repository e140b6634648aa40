/** The server's half of the stream: the results a composer service writes back, and how
    the writer encodes them, cutting long lists into commands that fit a 16-bit length. */
module Responses {
  import opened Words
  import opened Wire

  datatype Response =
    | Select(display: uint64)
    | ReportError(location: uint32, error: int32)
    | PresentOrValidateResult(state: uint32)
    | ChangedTypes(layers: seq<uint64>, types: seq<int32>)
    | Requests(mask: uint32, layers: seq<uint64>, masks: seq<uint32>)
    | PresentFence(fence: int)
    | ReleaseFences(layers: seq<uint64>, fences: seq<int>)

  // ---------------------------------------------------------------- argument lists

  /** The words of a stretch of a list of (layer, word) pairs. */
  function Triples(layers: seq<uint64>, words: seq<uint32>, from: nat, end: nat): (args: seq<uint32>)
    requires from <= end <= |layers| && end <= |words|
    ensures |args| == 3 * (end - from)
    decreases end
  {
    if from == end then []
    else Triples(layers, words, from, end - 1) + [Low(layers[end - 1]), High(layers[end - 1]), words[end - 1]]
  }

  function SignedWords(types: seq<int32>): (words: seq<uint32>)
    ensures |words| == |types|
  {
    seq(|types|, i requires 0 <= i < |types| => ToWord(types[i]))
  }

  /** The temporary handles the first n fences of a list add to the table. */
  function FenceTable(fences: seq<int>, n: nat): HandleTable
    requires n <= |fences|
  {
    if n == 0 then [] else FenceTable(fences, n - 1) + FenceEntry(fences[n - 1])
  }

  function FenceWords(fences: seq<int>, base: nat, n: nat): (words: seq<uint32>)
    requires n <= |fences| && Room(base, |FenceTable(fences, n)|)
    ensures |words| == n
  {
    if n == 0 then []
    else FenceWords(fences, base, n - 1) + [FenceWord(fences[n - 1], base + |FenceTable(fences, n - 1)|)]
  }

  lemma {:induction false} FenceTableGrows(fences: seq<int>, m: nat, n: nat)
    requires m <= n <= |fences|
    ensures FenceTable(fences, m) <= FenceTable(fences, n)
  {
    if m < n { FenceTableGrows(fences, m, n - 1); }
  }

  lemma OneMoreFence(fences: seq<int>, base: nat, n: nat)
    requires 0 < n <= |fences| && Room(base, |FenceTable(fences, n)|)
    ensures FenceTable(fences, n) == FenceTable(fences, n - 1) + FenceEntry(fences[n - 1])
    ensures fences[n - 1] >= 0 ==> base + |FenceTable(fences, n - 1)| < MAX_HANDLES
    ensures FenceWords(fences, base, n)
            == FenceWords(fences, base, n - 1) + [FenceWord(fences[n - 1], base + |FenceTable(fences, n - 1)|)]
  {
  }

  /** A fence word indexes the handles of the fences before it. */
  lemma {:induction false} FenceWordAt(fences: seq<int>, base: nat, n: nat, i: nat)
    requires i < n <= |fences| && Room(base, |FenceTable(fences, n)|)
    ensures fences[i] >= 0 ==> base + |FenceTable(fences, i)| < MAX_HANDLES
    ensures FenceWords(fences, base, n)[i] == FenceWord(fences[i], base + |FenceTable(fences, i)|)
  {
    hide FenceTable, FenceWords, FenceWord;
    OneMoreFence(fences, base, n);
    if i < n - 1 { FenceWordAt(fences, base, n - 1, i); }
  }

  // ---------------------------------------------------------------- chunking

  const PAIR_LIMIT := MAX_LENGTH / 3
  const REQUEST_LIMIT := (MAX_LENGTH - 1) / 3

  /** The commands that carry a pair list from a position on: every one full except perhaps the
      last, and none when nothing is left. */
  function Chunks(op: uint16, prefix: seq<uint32>, layers: seq<uint64>, words: seq<uint32>, limit: nat,
                  from: nat, total: nat): seq<Frame>
    requires from <= total <= |layers| && total <= |words| && 0 < limit && |prefix| + 3 * limit <= MAX_LENGTH
    decreases total - from
  {
    if from == total then []
    else
      var next := from + Min(total - from, limit);
      [Frame(op, prefix + Triples(layers, words, from, next))]
      + Chunks(op, prefix, layers, words, limit, next, total)
  }

  /** A list is cut into as few commands as there can be: every one is full but the last. */
  lemma {:induction false} ChunkSizes(op: uint16, prefix: seq<uint32>, layers: seq<uint64>, words: seq<uint32>,
                                      limit: nat, from: nat, total: nat)
    requires from <= total <= |layers| && total <= |words| && 0 < limit && |prefix| + 3 * limit <= MAX_LENGTH
    ensures var fs := Chunks(op, prefix, layers, words, limit, from, total);
            && (fs == [] <==> from == total)
            && (forall i | 0 <= i < |fs| - 1 :: |fs[i].args| == |prefix| + 3 * limit)
            && (fs != [] ==> |prefix| < |fs[|fs| - 1].args| <= |prefix| + 3 * limit)
    decreases total - from
  {
    hide Triples;
    if from < total {
      var next := from + Min(total - from, limit);
      ChunkSizes(op, prefix, layers, words, limit, next, total);
    }
  }

  /** A full command has as many pairs as its 16-bit length allows: 21845, or 21844 after a mask. */
  lemma FullCommands(r: Response, base: nat, i: nat)
    requires RoomFor(r, base) && i < |EncodeResponse(r, base)| - 1
    ensures |EncodeResponse(r, base)[i].args| == if r.Requests? then 1 + 3 * 21844 else 3 * 21845
  {
    hide Chunks, FenceWords, FenceTable;
    match r
    case ChangedTypes(layers, types) =>
      ChunkSizes(Code(OpSetChangedCompositionTypes), [], layers, SignedWords(types), PAIR_LIMIT,
                 0, Min(|layers|, |types|));
    case Requests(mask, layers, masks) =>
      ChunkSizes(Code(OpSetDisplayRequests), [mask], layers, masks, REQUEST_LIMIT, 0, Min(|layers|, |masks|));
    case ReleaseFences(layers, fences) =>
      var n := Min(|layers|, |fences|);
      ChunkSizes(Code(OpSetReleaseFences), [], layers, FenceWords(fences, base, n), PAIR_LIMIT, 0, n);
    case _ =>
  }

  // ---------------------------------------------------------------- encoding

  function Added(r: Response): HandleTable {
    match r
    case PresentFence(fence) => FenceEntry(fence)
    case ReleaseFences(layers, fences) => FenceTable(fences, Min(|layers|, |fences|))
    case _ => []
  }

  predicate RoomFor(r: Response, base: nat) {
    Room(base, |Added(r)|)
  }

  function EncodeResponse(r: Response, base: nat): seq<Frame>
    requires RoomFor(r, base)
  {
    match r
    case Select(display) => [Frame(Code(OpSelectDisplay), [Low(display), High(display)])]
    case ReportError(location, error) => [Frame(Code(OpSetError), [location, ToWord(error)])]
    case PresentOrValidateResult(state) => [Frame(Code(OpSetPresentOrValidateDisplayResult), [state])]
    case ChangedTypes(layers, types) =>
      Chunks(Code(OpSetChangedCompositionTypes), [], layers, SignedWords(types), PAIR_LIMIT,
             0, Min(|layers|, |types|))
    case Requests(mask, layers, masks) =>
      Chunks(Code(OpSetDisplayRequests), [mask], layers, masks, REQUEST_LIMIT, 0, Min(|layers|, |masks|))
    case PresentFence(fence) => [Frame(Code(OpSetPresentFence), [FenceWord(fence, base)])]
    case ReleaseFences(layers, fences) =>
      var n := Min(|layers|, |fences|);
      Chunks(Code(OpSetReleaseFences), [], layers, FenceWords(fences, base, n), PAIR_LIMIT, 0, n)
  }

  function AddedAll(rs: seq<Response>): HandleTable {
    if rs == [] then [] else AddedAll(rs[..|rs| - 1]) + Added(rs[|rs| - 1])
  }

  function EncodeResponses(rs: seq<Response>): seq<Frame>
    requires |AddedAll(rs)| <= MAX_HANDLES
  {
    if rs == [] then []
    else
      var init, last := rs[..|rs| - 1], rs[|rs| - 1];
      EncodeResponses(init) + EncodeResponse(last, |AddedAll(init)|)
  }

  /** Writing one more response after a batch of them. */
  lemma EncodeResponsesSnoc(rs: seq<Response>, r: Response)
    requires |AddedAll(rs)| + |Added(r)| <= MAX_HANDLES
    ensures AddedAll(rs + [r]) == AddedAll(rs) + Added(r)
    ensures EncodeResponses(rs + [r]) == EncodeResponses(rs) + EncodeResponse(r, |AddedAll(rs)|)
  {
    assert (rs + [r])[..|rs|] == rs;
  }
}
