/** How a display consumes the results its reader holds: the lists become maps keyed by layer, and
    every release fence taken is either kept in the map or closed. */
module DisplayResults {
  import opened Words
  import opened Wire
  import opened ReaderState
  import opened ReaderInvariants
  import opened CommandReaders

  // ---------------------------------------------------------------- lists to maps

  /** The map filled in from the first n entries of a list: unknown layers are skipped, and the first
      entry of a layer wins. */
  function FirstWins<T>(layers: seq<uint64>, values: seq<T>, known: set<uint64>, n: nat): map<uint64, T>
    requires n <= |layers| && n <= |values|
  {
    if n == 0 then map[]
    else
      var m := FirstWins(layers, values, known, n - 1);
      if layers[n - 1] in known && layers[n - 1] !in m then m[layers[n - 1] := values[n - 1]] else m
  }

  /** Its keys are the known layers listed, and each maps to the value next to its first mention. */
  lemma {:induction false} FirstWinsMeaning<T>(layers: seq<uint64>, values: seq<T>, known: set<uint64>, n: nat,
                                               layer: uint64, k: nat)
    requires n <= |layers| && n <= |values|
    ensures layer in FirstWins(layers, values, known, n) <==> layer in known && layer in layers[..n]
    ensures k < n && layer in known && layers[k] == layer && layer !in layers[..k] ==>
              FirstWins(layers, values, known, n)[layer] == values[k]
  {
    if n > 0 {
      FirstWinsMeaning(layers, values, known, n - 1, layer, k);
      assert layers[..n] == layers[..n - 1] + [layers[n - 1]];
      if k == n - 1 && layer in known && layers[k] == layer && layer !in layers[..k] {
        assert layer !in FirstWins(layers, values, known, n - 1);
      } else if k < n - 1 && layers[k] == layer {
        assert layers[..n - 1][k] == layer;
      }
    }
  }

  /** The loop both kinds of list share. */
  method Emplace<T>(layerIds: seq<uint64>, values: seq<T>, known: set<uint64>) returns (out: map<uint64, T>)
    requires |layerIds| == |values|
    ensures out == FirstWins(layerIds, values, known, |layerIds|)
  {
    out := map[];
    for element := 0 to |layerIds|
      invariant out == FirstWins(layerIds, values, known, element)
    {
      if layerIds[element] in known && layerIds[element] !in out {
        out := out[layerIds[element] := values[element]];
      }
    }
  }

  /** `known` are the ids in the display's layer map. */
  method GetChangedCompositionTypes(reader: CommandReader, display: uint64, known: set<uint64>)
    returns (outTypes: map<uint64, int32>)
    requires Sound(reader.Abs())
    modifies reader`returnData
    ensures Sound(reader.Abs()) && reader.Abs() == ReaderState.TakeChangedTypes(old(reader.Abs()), display)
    ensures if display in old(reader.returnData)
            then var rd := old(reader.returnData)[display];
                 |rd.changedLayers| == |rd.compositionTypes| &&
                 outTypes == FirstWins(rd.changedLayers, rd.compositionTypes, known, |rd.changedLayers|)
            else outTypes == map[]
  {
    assert display in reader.returnData ==> Parallel(reader.returnData[display]);
    hide Sound;
    TakeSound(reader.Abs(), display);
    var layerIds, types := reader.TakeChangedCompositionTypes(display);
    outTypes := Emplace(layerIds, types, known);
  }

  method GetRequests(reader: CommandReader, display: uint64, known: set<uint64>)
    returns (outDisplayRequests: uint32, outLayerRequests: map<uint64, uint32>)
    requires Sound(reader.Abs())
    modifies reader`returnData
    ensures Sound(reader.Abs()) && reader.Abs() == ReaderState.TakeRequests(old(reader.Abs()), display)
    ensures if display in old(reader.returnData)
            then var rd := old(reader.returnData)[display];
                 |rd.requestedLayers| == |rd.requestMasks| && outDisplayRequests == rd.displayRequests &&
                 outLayerRequests == FirstWins(rd.requestedLayers, rd.requestMasks, known, |rd.requestedLayers|)
            else outDisplayRequests == 0 && outLayerRequests == map[]
  {
    assert display in reader.returnData ==> Parallel(reader.returnData[display]);
    hide Sound;
    TakeSound(reader.Abs(), display);
    var layerIds, layerRequests;
    outDisplayRequests, layerIds, layerRequests := reader.TakeDisplayRequests(display);
    outLayerRequests := Emplace(layerIds, layerRequests, known);
  }

  // ---------------------------------------------------------------- release fences

  /** The keys of a map, each listed once. */
  ghost predicate Lists(keys: seq<uint64>, m: map<uint64, int>) {
    && (forall i, j | 0 <= i < j < |keys| :: keys[i] != keys[j])
    && (forall l :: l in m <==> l in keys)
  }

  /** The descriptors a map holds, given a list of its keys. */
  function Kept(keys: seq<uint64>, m: map<uint64, int>): multiset<int> {
    if keys == [] then multiset{}
    else
      var last := keys[|keys| - 1];
      With(Kept(keys[..|keys| - 1], m), if last in m then m[last] else -1)
  }

  lemma {:induction false} KeptUpdate(keys: seq<uint64>, m: map<uint64, int>, layer: uint64, fd: int)
    requires layer !in keys
    ensures Kept(keys, m[layer := fd]) == Kept(keys, m)
  {
    if keys != [] { KeptUpdate(keys[..|keys| - 1], m, layer, fd); }
  }

  lemma KeptSnoc(keys: seq<uint64>, m: map<uint64, int>, layer: uint64, fd: int)
    requires Lists(keys, m) && layer !in m
    ensures Lists(keys + [layer], m[layer := fd])
    ensures Kept(keys + [layer], m[layer := fd]) == With(Kept(keys, m), fd)
  {
    var m', keys' := m[layer := fd], keys + [layer];
    KeptUpdate(keys, m, layer, fd);
    assert keys'[..|keys'| - 1] == keys && keys'[|keys| ] == layer;
  }

  lemma WithSum(a: multiset<int>, b: multiset<int>, fd: int)
    ensures With(a, fd) + b == With(a + b, fd) && a + With(b, fd) == With(a + b, fd)
  {
  }

  /** One more descriptor is kept or closed. */
  lemma OneMore(keys: seq<uint64>, m: map<uint64, int>, closed: multiset<int>, fds: seq<int>, i: nat, layer: uint64)
    requires i < |fds| && Lists(keys, m) && closed + Kept(keys, m) == BagTo(fds, i)
    ensures layer !in m ==> Lists(keys + [layer], m[layer := fds[i]])
    ensures layer !in m ==> closed + Kept(keys + [layer], m[layer := fds[i]]) == BagTo(fds, i + 1)
    ensures With(closed, fds[i]) + Kept(keys, m) == BagTo(fds, i + 1)
  {
    WithSum(closed, Kept(keys, m), fds[i]);
    if layer !in m { KeptSnoc(keys, m, layer, fds[i]); }
  }

  lemma NothingYet(layerIds: seq<uint64>, fds: seq<int>, known: set<uint64>, l: Ledger)
    requires |layerIds| == |fds|
    ensures Lists([], map[]) && Kept([], map[]) == multiset{} && BagTo(fds, 0) == multiset{}
    ensures FirstWins(layerIds, fds, known, 0) == map[] && ClosedTo(layerIds, fds, 0) == multiset{}
    ensures Settle(l, multiset{}) == l
  {
    assert l.closed + multiset{} == l.closed && l.handedOut - multiset{} == l.handedOut;
  }

  /** What the next entry of a known layer does to the map and to the fences closed. */
  lemma NextEntry(layerIds: seq<uint64>, fds: seq<int>, known: set<uint64>, i: nat)
    requires i < |layerIds| && i < |fds| && layerIds[i] in known
    ensures var m := FirstWins(layerIds, fds, known, i);
            && FirstWins(layerIds, fds, known, i + 1) == (if layerIds[i] !in m then m[layerIds[i] := fds[i]] else m)
            && ClosedTo(layerIds, fds, i + 1)
               == if layerIds[i] in m then With(ClosedTo(layerIds, fds, i), fds[i]) else ClosedTo(layerIds, fds, i)
  {
    FirstWinsMeaning(layerIds, fds, known, i, layerIds[i], 0);
  }

  /** One more descriptor of a list is closed: it was handed out and not closed before. */
  lemma OneClosed(l: Ledger, closed: multiset<int>, held: multiset<int>, fds: seq<int>, i: nat)
    requires i < |fds| && closed + held == BagTo(fds, i) && Bag(fds) <= l.handedOut
    ensures With(closed, fds[i]) + held == BagTo(fds, i + 1)
    ensures With(multiset{}, fds[i]) <= Settle(l, closed).handedOut
    ensures Settle(Settle(l, closed), With(multiset{}, fds[i])) == Settle(l, With(closed, fds[i]))
  {
    WithSum(closed, held, fds[i]);
    BagGrows(fds, i + 1);
    SettleMore(l, closed, With(multiset{}, fds[i]));
    WithSum(multiset{}, closed, fds[i]);
    assert closed + With(multiset{}, fds[i]) == With(closed, fds[i]);
  }

  lemma {:induction false} BagGrows(fds: seq<int>, n: nat)
    requires n <= |fds|
    ensures BagTo(fds, n) <= Bag(fds)
    decreases |fds| - n
  {
    if n < |fds| { BagGrows(fds, n + 1); }
  }

  lemma SettleMore(l: Ledger, closed: multiset<int>, more: multiset<int>)
    requires closed + more <= l.handedOut
    ensures more <= Settle(l, closed).handedOut
    ensures Settle(Settle(l, closed), more) == Settle(l, closed + more)
  {
    assert l.closed + closed + more == l.closed + (closed + more);
    assert l.handedOut - closed - more == l.handedOut - (closed + more);
  }

  /** Takes the release fences.  Wrapping a descriptor in a fence object that no map takes in closes
      it; one unknown layer makes the display close all of them.  `keys` lists the layers whose
      fences the caller now holds; the reader's ledger has the rest as closed. */
  method GetReleaseFences(reader: CommandReader, display: uint64, known: set<uint64>)
    returns (ok: bool, outFences: map<uint64, int>, ghost keys: seq<uint64>)
    requires Sound(reader.Abs())
    modifies reader`returnData, reader`ledger
    ensures Sound(reader.Abs()) && reader.Abs() == PassReleaseFences(old(reader.Abs()), display, known)
    ensures var rd := Entry(old(reader.Abs()), display);
            && |rd.releasedLayers| == |rd.releaseFences|
            && (ok <==> forall l | l in rd.releasedLayers :: l in known)
            && outFences == (if ok then FirstWins(rd.releasedLayers, rd.releaseFences, known, |rd.releasedLayers|)
                             else map[])
            && Lists(keys, outFences)
            && ClosedHere(rd.releasedLayers, rd.releaseFences, known) + Kept(keys, outFences) == Bag(rd.releaseFences)
  {
    hide Sound, Bag, Lists, Kept, FirstWins, ClosedHere, Settle, PassReleaseFences, ReaderState.TakeReleaseFences;
    PassSound(reader.Abs(), display, known);
    PassInSteps(reader.Abs(), display, known);
    var layerIds, fenceFds := reader.TakeReleaseFences(display);
    ok, outFences, keys := Collect(reader, layerIds, fenceFds, known);
  }

  /** Passing fences on is taking them and then closing what is not kept. */
  lemma PassInSteps(s: State, display: uint64, known: set<uint64>)
    requires Sound(s)
    ensures var rd, t := Entry(s, display), ReaderState.TakeReleaseFences(s, display);
            && |rd.releasedLayers| == |rd.releaseFences| && Bag(rd.releaseFences) <= t.ledger.handedOut
            && PassReleaseFences(s, display, known)
               == t.(ledger := Settle(t.ledger, ClosedHere(rd.releasedLayers, rd.releaseFences, known)))
  {
    if display in s.data {
      assert Parallel(s.data[display]);
    } else {
      assert ClosedHere([], [], known) == multiset{};
      assert s.ledger.closed + multiset{} == s.ledger.closed && s.ledger.handedOut - multiset{} == s.ledger.handedOut;
    }
  }

  /** Closes the rest of the list; those the map held go with it. */
  method CloseRest(reader: CommandReader, fenceFds: seq<int>, element: nat, ghost l: Ledger,
                   ghost before: multiset<int>, ghost held: multiset<int>)
    requires element <= |fenceFds| && before + held == BagTo(fenceFds, element) && Bag(fenceFds) <= l.handedOut
    requires reader.ledger == Settle(l, before)
    modifies reader`ledger
    ensures reader.ledger == Settle(l, Bag(fenceFds))
  {
    hide BagTo, With, Settle;
    ghost var closed := before;
    for rest := element to |fenceFds|
      invariant closed + held == BagTo(fenceFds, rest) && reader.ledger == Settle(l, closed)
    {
      OneClosed(l, closed, held, fenceFds, rest);
      reader.CloseTaken(With(multiset{}, fenceFds[rest]));
      closed := With(closed, fenceFds[rest]);
    }
    SettleMore(l, closed, held);
    reader.CloseTaken(held);
  }

  method Collect(reader: CommandReader, layerIds: seq<uint64>, fenceFds: seq<int>, known: set<uint64>)
    returns (ok: bool, outFences: map<uint64, int>, ghost keys: seq<uint64>)
    requires |layerIds| == |fenceFds| && Bag(fenceFds) <= reader.ledger.handedOut
    modifies reader`ledger
    ensures ok <==> forall l | l in layerIds :: l in known
    ensures outFences == if ok then FirstWins(layerIds, fenceFds, known, |layerIds|) else map[]
    ensures reader.ledger == Settle(old(reader.ledger), ClosedHere(layerIds, fenceFds, known))
    ensures Lists(keys, outFences)
    ensures ClosedHere(layerIds, fenceFds, known) + Kept(keys, outFences) == Bag(fenceFds)
  {
    hide Lists, Kept, BagTo, With, FirstWins, ClosedTo, Settle;
    outFences, keys := map[], [];
    ghost var l, closed := reader.ledger, multiset{};
    NothingYet(layerIds, fenceFds, known, l);
    for element := 0 to |layerIds|
      invariant outFences == FirstWins(layerIds, fenceFds, known, element)
      invariant forall i | 0 <= i < element :: layerIds[i] in known
      invariant closed == ClosedTo(layerIds, fenceFds, element) && reader.ledger == Settle(l, closed)
      invariant Lists(keys, outFences) && closed + Kept(keys, outFences) == BagTo(fenceFds, element)
    {
      var layer, fd := layerIds[element], fenceFds[element];
      if layer !in known {
        CloseRest(reader, fenceFds, element, l, closed, Kept(keys, outFences));
        NothingYet(layerIds, fenceFds, known, l);
        assert !forall x | x in layerIds :: x in known;
        return false, map[], [];
      }
      OneMore(keys, outFences, closed, fenceFds, element, layer);
      NextEntry(layerIds, fenceFds, known, element);
      if layer !in outFences {
        outFences, keys := outFences[layer := fd], keys + [layer];
      } else {
        OneClosed(l, closed, Kept(keys, outFences), fenceFds, element);
        reader.CloseTaken(With(multiset{}, fd));
        closed := With(closed, fd);
      }
    }
    ok := true;
  }
}
