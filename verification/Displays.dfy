/** The device wrapper: which displays and layers it owns, and what it tells the composer service
    about their lives. */
module Displays {
  import opened Words

  datatype DisplayType = Invalid | Physical | Virtual

  datatype Connection = Unknown | Connected | Disconnected

  /** A display the device owns; `layers` lists the ids of its layers, in the map's order. */
  datatype Display = Display(kind: DisplayType, connected: bool, layers: seq<uint64>)

  /** What the service is told, or does, about layers and displays. */
  datatype Event =
    | LayerCreated(display: uint64, layer: uint64)
    | LayerDestroyed(display: uint64, layer: uint64)
    | VirtualCreated(display: uint64)
    | VirtualDestroyed(display: uint64)
    | VsyncDisabled(display: uint64)

  datatype State = State(displays: map<uint64, Display>, log: seq<Event>)

  /** What the device is asked to do, with the service's answers. */
  datatype Op =
    | CreateVirtual(id: Option<uint64>)
    | Destroy(display: uint64)
    | Hotplug(display: uint64, connection: Connection, kind: Option<DisplayType>)
    | CreateLayer(display: uint64, id: Option<uint64>)
    | DestroyLayer(display: uint64, layer: uint64)

  // ---------------------------------------------------------------- what each operation does

  /** The events of clearing a display's layer map. */
  function Cleared(display: uint64, layers: seq<uint64>): (events: seq<Event>)
    ensures |events| == |layers|
  {
    if layers == [] then []
    else Cleared(display, layers[..|layers| - 1]) + [LayerDestroyed(display, layers[|layers| - 1])]
  }

  /** The events of destroying a display object: its layers go first. */
  function Destroyed(display: uint64, d: Display): seq<Event> {
    Cleared(display, d.layers) + Farewell(display, d.kind)
  }

  function Farewell(display: uint64, kind: DisplayType): seq<Event> {
    match kind
    case Virtual => [VirtualDestroyed(display)]
    case Physical => [VsyncDisabled(display)]
    case Invalid => []
  }

  function Erase(s: State, display: uint64): State {
    if display in s.displays then State(s.displays - {display}, s.log + Destroyed(display, s.displays[display])) else s
  }

  /** The map takes no second entry under a key: a display that clashes is destroyed again at once. */
  function Emplace(s: State, display: uint64, d: Display): State {
    if display in s.displays then s.(log := s.log + Destroyed(display, d))
    else s.(displays := s.displays[display := d])
  }

  function EmplaceLayer(s: State, display: uint64, layer: uint64): State {
    if display !in s.displays then s
    else
      var d, log := s.displays[display], s.log + [LayerCreated(display, layer)];
      if layer in d.layers then s.(log := log + [LayerDestroyed(display, layer)])
      else State(s.displays[display := d.(layers := d.layers + [layer])], log)
  }

  function EraseLayer(s: State, display: uint64, layer: uint64): State {
    if display !in s.displays || layer !in s.displays[display].layers then s
    else
      var d := s.displays[display];
      State(s.displays[display := d.(layers := Without(d.layers, layer))], s.log + [LayerDestroyed(display, layer)])
  }

  function Disconnect(s: State, display: uint64): State {
    if display in s.displays then s.(displays := s.displays[display := s.displays[display].(connected := false)]) else s
  }

  function Without(layers: seq<uint64>, layer: uint64): seq<uint64> {
    if layers == [] then []
    else Without(layers[..|layers| - 1], layer)
         + (if layers[|layers| - 1] == layer then [] else [layers[|layers| - 1]])
  }

  function Step(s: State, op: Op): State {
    match op
    case CreateVirtual(None) => s
    case CreateVirtual(Some(id)) =>
      Emplace(s.(log := s.log + [VirtualCreated(id)]), id, Display(Virtual, true, []))
    case Destroy(display) => Erase(s, display)
    case Hotplug(display, Connected, kind) =>
      if kind.None? then Erase(s, display)
      else Emplace(Erase(s, display), display, Display(kind.value, true, []))
    case Hotplug(display, Disconnected, _) =>
      Disconnect(s, display)
    case Hotplug(_, Unknown, _) => s
    case CreateLayer(display, id) =>
      if id.None? then s else EmplaceLayer(s, display, id.value)
    case DestroyLayer(display, layer) => EraseLayer(s, display, layer)
  }

  function Run(ops: seq<Op>): State {
    if ops == [] then State(map[], []) else Step(Run(ops[..|ops| - 1]), ops[|ops| - 1])
  }

  // ---------------------------------------------------------------- the device

  class Device {
    var displays: map<uint64, Display>
    ghost var log: seq<Event>

    ghost function Abs(): State
      reads this
    {
      State(displays, log)
    }

    constructor ()
      ensures Abs() == Run([])
    {
      displays, log := map[], [];
    }

    ghost method Tell(event: Event)
      modifies this`log
      ensures log == old(log) + [event]
    {
      log := log + [event];
    }

    /** The destructor of a display object. */
    method DestroyObject(display: uint64, d: Display)
      modifies this`log
      ensures log == old(log) + Destroyed(display, d)
    {
      for i := 0 to |d.layers|
        invariant log == old(log) + Cleared(display, d.layers[..i])
      {
        assert d.layers[..i + 1][..i] == d.layers[..i];
        Tell(LayerDestroyed(display, d.layers[i]));
      }
      assert d.layers[..|d.layers|] == d.layers;
      if d.kind.Virtual? {
        Tell(VirtualDestroyed(display));
      } else if d.kind.Physical? {
        Tell(VsyncDisabled(display));
      }
    }

    method DestroyDisplay(display: uint64)
      modifies this
      ensures Abs() == Step(old(Abs()), Destroy(display))
    {
      if display in displays {
        DestroyObject(display, displays[display]);
      }
      displays := displays - {display};
      assert display !in old(displays) ==> displays == old(displays);
    }

    method EmplaceDisplay(display: uint64, d: Display)
      modifies this
      ensures Abs() == Emplace(old(Abs()), display, d)
    {
      if display in displays {
        DestroyObject(display, d);
      } else {
        displays := displays[display := d];
      }
    }

    method CreateVirtualDisplay(id: Option<uint64>) returns (created: bool)
      modifies this
      ensures Abs() == Step(old(Abs()), CreateVirtual(id)) && created == id.Some?
    {
      if id.None? {
        return false;
      }
      Tell(VirtualCreated(id.value));
      EmplaceDisplay(id.value, Display(Virtual, true, []));
      created := true;
    }

    method OnHotplug(display: uint64, connection: Connection, kind: Option<DisplayType>)
      modifies this
      ensures Abs() == Step(old(Abs()), Hotplug(display, connection, kind))
    {
      if connection.Connected? {
        DestroyDisplay(display);
        if kind.None? {
          return;
        }
        EmplaceDisplay(display, Display(kind.value, true, []));
      } else if connection.Disconnected? {
        if display in displays {
          displays := displays[display := displays[display].(connected := false)];
        }
      }
    }

    method AddLayer(display: uint64, id: Option<uint64>) returns (created: bool)
      requires display in displays
      modifies this
      ensures Abs() == Step(old(Abs()), CreateLayer(display, id)) && created == id.Some?
    {
      if id.None? {
        return false;
      }
      Tell(LayerCreated(display, id.value));
      var d := displays[display];
      if id.value in d.layers {
        Tell(LayerDestroyed(display, id.value));
      } else {
        displays := displays[display := d.(layers := d.layers + [id.value])];
      }
      created := true;
    }

    method RemoveLayer(display: uint64, layer: uint64)
      requires display in displays
      modifies this
      ensures Abs() == Step(old(Abs()), DestroyLayer(display, layer))
    {
      var d := displays[display];
      if layer in d.layers {
        displays := displays[display := d.(layers := Without(d.layers, layer))];
        Tell(LayerDestroyed(display, layer));
      }
    }
  }

  // ---------------------------------------------------------------- conservation of layers

  /** How often the device holds a layer of a display. */
  ghost function Holds(s: State, display: uint64, layer: uint64): nat {
    if display in s.displays then multiset(s.displays[display].layers)[layer] else 0
  }

  /** Each layer the service created has been destroyed once, or is held once and still alive. */
  ghost predicate Conserved(s: State) {
    forall d: uint64, l: uint64 :: Balanced(s, d, l)
  }

  /** Layer maps have no duplicate keys. */
  predicate Keyed(s: State) {
    forall d | d in s.displays :: Distinct(s.displays[d].layers)
  }

  predicate Distinct(layers: seq<uint64>) {
    forall i, j | 0 <= i < j < |layers| :: layers[i] != layers[j]
  }

  lemma CountSnoc<T>(s: seq<T>, last: T, x: T)
    ensures multiset(s + [last])[x] == multiset(s)[x] + if x == last then 1 else 0
  {
  }

  lemma {:induction false} ClearedCounts(display: uint64, layers: seq<uint64>, d: uint64, l: uint64)
    ensures multiset(Cleared(display, layers))[LayerCreated(d, l)] == 0
    ensures multiset(Cleared(display, layers))[LayerDestroyed(d, l)] == if d == display then multiset(layers)[l] else 0
    ensures multiset(Cleared(display, layers))[VirtualDestroyed(d)] == 0
  {
    if layers != [] {
      var init, last := layers[..|layers| - 1], layers[|layers| - 1];
      ClearedCounts(display, init, d, l);
      CountSnoc(init, last, l);
      CountSnoc(Cleared(display, init), LayerDestroyed(display, last), LayerCreated(d, l));
      CountSnoc(Cleared(display, init), LayerDestroyed(display, last), LayerDestroyed(d, l));
      CountSnoc(Cleared(display, init), LayerDestroyed(display, last), VirtualDestroyed(d));
      assert layers == init + [last];
    }
  }

  lemma DestroyedCounts(display: uint64, x: Display, d: uint64, l: uint64)
    ensures multiset(Destroyed(display, x))[LayerCreated(d, l)] == 0
    ensures multiset(Destroyed(display, x))[LayerDestroyed(d, l)] == if d == display then multiset(x.layers)[l] else 0
  {
    ClearedCounts(display, x.layers, d, l);
    hide Cleared;
    assert multiset(Farewell(display, x.kind))[LayerCreated(d, l)] == 0;
    assert multiset(Farewell(display, x.kind))[LayerDestroyed(d, l)] == 0;
  }

  lemma {:induction false} WithoutCounts(layers: seq<uint64>, layer: uint64, l: uint64)
    ensures multiset(Without(layers, layer))[l] == if l == layer then 0 else multiset(layers)[l]
  {
    if layers != [] {
      var init, last := layers[..|layers| - 1], layers[|layers| - 1];
      WithoutCounts(init, layer, l);
      CountSnoc(init, last, l);
      CountSnoc(Without(init, layer), last, l);
      assert layers == init + [last];
    }
  }

  lemma {:induction false} WithoutDistinct(layers: seq<uint64>, layer: uint64)
    requires Distinct(layers)
    ensures Distinct(Without(layers, layer))
    ensures forall l :: l in Without(layers, layer) <==> l in layers && l != layer
  {
    if layers != [] {
      var init, last := layers[..|layers| - 1], layers[|layers| - 1];
      WithoutDistinct(init, layer);
      assert last !in init && layers == init + [last];
    }
  }

  lemma {:induction false} DistinctOnce(layers: seq<uint64>, layer: uint64)
    requires Distinct(layers)
    ensures multiset(layers)[layer] == if layer in layers then 1 else 0
  {
    if layers != [] {
      DistinctOnce(layers[..|layers| - 1], layer);
      assert layers == layers[..|layers| - 1] + [layers[|layers| - 1]];
    }
  }

  /** Conservation seen from one layer. */
  ghost predicate Balanced(s: State, d: uint64, l: uint64) {
    multiset(s.log)[LayerCreated(d, l)] == multiset(s.log)[LayerDestroyed(d, l)] + Holds(s, d, l)
  }

  lemma EraseConserves(s: State, display: uint64)
    requires Conserved(s) && Keyed(s)
    ensures Conserved(Erase(s, display)) && Keyed(Erase(s, display))
  {
    hide Destroyed;
    if display in s.displays {
      forall d: uint64, l: uint64
        ensures Balanced(Erase(s, display), d, l)
      {
        assert Balanced(s, d, l);
        DestroyedCounts(display, s.displays[display], d, l);
      }
    }
  }

  /** A display without layers changes no balance, nor do announcements of displays. */
  lemma EmplaceConserves(s: State, news: seq<Event>, display: uint64, x: Display)
    requires Conserved(s) && Keyed(s) && x.layers == []
    requires forall e | e in news :: e.VirtualCreated?
    ensures var t := Emplace(s.(log := s.log + news), display, x); Conserved(t) && Keyed(t)
  {
    hide Destroyed;
    forall d: uint64, l: uint64
      ensures Balanced(Emplace(s.(log := s.log + news), display, x), d, l)
    {
      assert Balanced(s, d, l);
      DestroyedCounts(display, x, d, l);
      assert LayerCreated(d, l) !in news && LayerDestroyed(d, l) !in news;
    }
  }

  lemma EmplaceLayerConserves(s: State, display: uint64, layer: uint64)
    requires Conserved(s) && Keyed(s)
    ensures Conserved(EmplaceLayer(s, display, layer)) && Keyed(EmplaceLayer(s, display, layer))
  {
    forall d: uint64, l: uint64
      ensures Balanced(EmplaceLayer(s, display, layer), d, l)
    {
      assert Balanced(s, d, l);
    }
  }

  lemma EraseLayerConserves(s: State, display: uint64, layer: uint64)
    requires Conserved(s) && Keyed(s)
    ensures Conserved(EraseLayer(s, display, layer)) && Keyed(EraseLayer(s, display, layer))
  {
    if display in s.displays {
      var layers := s.displays[display].layers;
      WithoutDistinct(layers, layer);
      DistinctOnce(layers, layer);
      forall d: uint64, l: uint64
        ensures Balanced(EraseLayer(s, display, layer), d, l)
      {
        assert Balanced(s, d, l);
        WithoutCounts(layers, layer, l);
      }
    }
  }

  lemma DisconnectConserves(s: State, display: uint64)
    requires Conserved(s) && Keyed(s)
    ensures Conserved(Disconnect(s, display)) && Keyed(Disconnect(s, display))
  {
    forall d: uint64, l: uint64
      ensures Balanced(Disconnect(s, display), d, l)
    {
      assert Balanced(s, d, l);
    }
  }

  lemma StepConserves(s: State, op: Op)
    requires Conserved(s) && Keyed(s)
    ensures Conserved(Step(s, op)) && Keyed(Step(s, op))
  {
    hide Conserved, Keyed, Erase, EmplaceLayer, EraseLayer, Disconnect;
    match op
    case CreateVirtual(id) =>
      if id.Some? { EmplaceConserves(s, [VirtualCreated(id.value)], id.value, Display(Virtual, true, [])); }
    case Destroy(display) => EraseConserves(s, display);
    case Hotplug(display, connection, kind) =>
      EraseConserves(s, display);
      if kind.Some? { EmplaceConserves(Erase(s, display), [], display, Display(kind.value, true, [])); }
      assert Erase(s, display).(log := Erase(s, display).log + []) == Erase(s, display);
      DisconnectConserves(s, display);
    case CreateLayer(display, id) =>
      if id.Some? { EmplaceLayerConserves(s, display, id.value); }
    case DestroyLayer(display, layer) => EraseLayerConserves(s, display, layer);
  }

  /** Over every run, whatever ids the service hands out: a layer was created exactly as often as it
      was destroyed, plus once if the device still holds it. */
  lemma {:induction false} LayersConserved(ops: seq<Op>)
    ensures Conserved(Run(ops)) && Keyed(Run(ops))
  {
    if ops != [] {
      LayersConserved(ops[..|ops| - 1]);
      StepConserves(Run(ops[..|ops| - 1]), ops[|ops| - 1]);
    }
  }

  /** Seen from one layer: with fresh ids it is destroyed at most once, and exactly once when the
      device no longer holds it. */
  lemma CreatedOnceDestroyedOnce(ops: seq<Op>, display: uint64, layer: uint64)
    requires multiset(Run(ops).log)[LayerCreated(display, layer)] == 1
    ensures var s := Run(ops);
            var held := display in s.displays && layer in s.displays[display].layers;
            multiset(s.log)[LayerDestroyed(display, layer)] == if held then 0 else 1
  {
    LayersConserved(ops);
    var s := Run(ops);
    assert Balanced(s, display, layer);
    hide Run, Conserved;
    if display in s.displays { DistinctOnce(s.displays[display].layers, layer); }
  }

  // ---------------------------------------------------------------- virtual displays go last

  /** Every layer of the display created so far has been destroyed. */
  ghost predicate AllGone(log: seq<Event>, display: uint64) {
    forall l: uint64 :: multiset(log)[LayerCreated(display, l)] == multiset(log)[LayerDestroyed(display, l)]
  }

  /** No virtual display is destroyed while a layer of it is alive. */
  ghost predicate Orderly(log: seq<Event>) {
    log == [] ||
    (Orderly(log[..|log| - 1]) &&
     (log[|log| - 1].VirtualDestroyed? ==> AllGone(log[..|log| - 1], log[|log| - 1].display)))
  }

  /** The service hands out, for a new virtual display, the id of one that still has layers. */
  predicate Clashes(s: State, op: Op) {
    op.CreateVirtual? && op.id.Some? && op.id.value in s.displays && s.displays[op.id.value].layers != []
  }

  lemma OrderlySnoc(log: seq<Event>, e: Event)
    ensures Orderly(log + [e]) <==> Orderly(log) && (e.VirtualDestroyed? ==> AllGone(log, e.display))
  {
    assert (log + [e])[..|log|] == log;
  }

  predicate Harmless(events: seq<Event>) {
    forall e | e in events :: !e.VirtualDestroyed?
  }

  lemma {:induction false} OrderlyHarmless(log: seq<Event>, events: seq<Event>)
    requires Harmless(events)
    ensures Orderly(log + events) <==> Orderly(log)
  {
    if events == [] {
      assert log + events == log;
    } else {
      var init, last := events[..|events| - 1], events[|events| - 1];
      OrderlyHarmless(log, init);
      OrderlySnoc(log + init, last);
      assert log + events == log + init + [last];
    }
  }

  lemma {:induction false} ClearedHarmless(display: uint64, layers: seq<uint64>)
    ensures Harmless(Cleared(display, layers))
  {
    if layers != [] { ClearedHarmless(display, layers[..|layers| - 1]); }
  }

  /** A display object's own destructor is orderly exactly when no layer survives its clearing. */
  lemma DestroyedOrderly(log: seq<Event>, display: uint64, d: Display)
    ensures Orderly(log + Destroyed(display, d))
            <==> Orderly(log) && (d.kind.Virtual? ==> AllGone(log + Cleared(display, d.layers), display))
  {
    hide Orderly, AllGone, Cleared;
    var cleared := Cleared(display, d.layers);
    ClearedHarmless(display, d.layers);
    OrderlyHarmless(log, cleared);
    if d.kind.Invalid? {
      assert log + Destroyed(display, d) == log + cleared;
    } else {
      var last := if d.kind.Virtual? then VirtualDestroyed(display) else VsyncDisabled(display);
      OrderlySnoc(log + cleared, last);
      assert log + Destroyed(display, d) == log + cleared + [last];
    }
  }

  lemma EraseOrderly(s: State, display: uint64)
    requires Conserved(s)
    ensures Orderly(Erase(s, display).log) <==> Orderly(s.log)
  {
    if display in s.displays {
      var layers := s.displays[display].layers;
      DestroyedOrderly(s.log, display, s.displays[display]);
      hide Orderly, Cleared;
      forall l: uint64
        ensures multiset(s.log + Cleared(display, layers))[LayerCreated(display, l)]
                == multiset(s.log + Cleared(display, layers))[LayerDestroyed(display, l)]
      {
        assert Balanced(s, display, l);
        ClearedCounts(display, layers, display, l);
      }
    }
  }

  /** Destroying an empty display object under the id of a display with layers is not orderly. */
  lemma EmplaceVirtualOrderly(s: State, id: uint64)
    requires Conserved(s)
    ensures Orderly(Step(s, CreateVirtual(Some(id))).log) <==> Orderly(s.log) && !Clashes(s, CreateVirtual(Some(id)))
  {
    var log := s.log + [VirtualCreated(id)];
    OrderlySnoc(s.log, VirtualCreated(id));
    DestroyedOrderly(log, id, Display(Virtual, true, []));
    assert log + Cleared(id, []) == log;
    hide Orderly, Cleared;
    if id in s.displays {
      var layers := s.displays[id].layers;
      forall l: uint64
        ensures multiset(log)[LayerCreated(id, l)] == multiset(log)[LayerDestroyed(id, l)] + multiset(layers)[l]
      {
        assert Balanced(s, id, l);
      }
      if layers != [] { assert multiset(layers)[layers[0]] > 0; }
    }
  }

  lemma StepOrderly(s: State, op: Op)
    requires Conserved(s)
    ensures Orderly(Step(s, op).log) <==> Orderly(s.log) && !Clashes(s, op)
  {
    hide Conserved, Orderly, Erase, Destroyed;
    match op
    case CreateVirtual(id) => if id.Some? { EmplaceVirtualOrderly(s, id.value); }
    case Destroy(display) => EraseOrderly(s, display);
    case Hotplug(display, connection, kind) =>
      EraseOrderly(s, display);
      ErasedIsGone(s, display);
    case CreateLayer(display, id) =>
      if id.Some? {
        OrderlyHarmless(s.log, [LayerCreated(display, id.value)]);
        OrderlyHarmless(s.log + [LayerCreated(display, id.value)], [LayerDestroyed(display, id.value)]);
      }
    case DestroyLayer(display, layer) => OrderlyHarmless(s.log, [LayerDestroyed(display, layer)]);
  }

  lemma ErasedIsGone(s: State, display: uint64)
    ensures display !in Erase(s, display).displays
  {
  }

  /** At no step of the run does the service reuse the id of a display that still has layers. */
  predicate NeverClashes(ops: seq<Op>) {
    ops == [] || (NeverClashes(ops[..|ops| - 1]) && !Clashes(Run(ops[..|ops| - 1]), ops[|ops| - 1]))
  }

  /** Over every run: a virtual display's layers are all destroyed before the display itself, exactly
      when the service never reuses the id of a display that still has layers. */
  lemma {:induction false} VirtualDisplaysGoLast(ops: seq<Op>)
    ensures Orderly(Run(ops).log) <==> NeverClashes(ops)
  {
    if ops != [] {
      VirtualDisplaysGoLast(ops[..|ops| - 1]);
      LayersConserved(ops[..|ops| - 1]);
      hide Clashes, Orderly, Conserved, Keyed, Step;
      StepOrderly(Run(ops[..|ops| - 1]), ops[|ops| - 1]);
    }
  }

  lemma OneMore(ops: seq<Op>, op: Op)
    ensures Run(ops + [op]) == Step(Run(ops), op)
    ensures NeverClashes(ops + [op]) <==> NeverClashes(ops) && !Clashes(Run(ops), op)
  {
    assert (ops + [op])[..|ops|] == ops;
  }

  lemma NothingRun()
    ensures Run([]) == State(map[], []) && NeverClashes([])
  {
  }

  lemma GoneAtOnce(id: uint64)
    ensures Destroyed(id, Display(Virtual, true, [])) == [VirtualDestroyed(id)]
  {
  }

  /** The shortest run that is not orderly: the service hands out the id of a virtual display that still
      has a layer, and the new object is destroyed under that id while the layer lives on. */
  lemma ReusedIdDestroysFirst()
    ensures var ops := [CreateVirtual(Some(1)), CreateLayer(1, Some(2)), CreateVirtual(Some(1))];
            && !NeverClashes(ops) && !Orderly(Run(ops).log)
            && VirtualDestroyed(1) in Run(ops).log && LayerDestroyed(1, 2) !in Run(ops).log
            && LayerCreated(1, 2) in Run(ops).log
  {
    hide Run, NeverClashes, Orderly, Destroyed;
    var a, b := CreateVirtual(Some(1)), CreateLayer(1, Some(2));
    NothingRun();
    OneMore([], a);
    OneMore([a], b);
    OneMore([a, b], a);
    assert [] + [a] == [a] && [a] + [b] == [a, b] && [a, b] + [a] == [a, b, a];
    assert Run([a]).displays == map[1 := Display(Virtual, true, [])] && Run([a]).log == [VirtualCreated(1)];
    assert Run([a, b]).displays[1].layers == [2];
    assert Run([a, b]).log == [VirtualCreated(1), LayerCreated(1, 2)];
    GoneAtOnce(1);
    assert Run([a, b, a]).log == [VirtualCreated(1), LayerCreated(1, 2), VirtualCreated(1), VirtualDestroyed(1)];
    VirtualDisplaysGoLast([a, b, a]);
  }

  // ---------------------------------------------------------------- conservation of displays

  /** How many virtual displays the service was asked for and created under an id. */
  function Creations(ops: seq<Op>, d: uint64): nat {
    if ops == [] then 0
    else Creations(ops[..|ops| - 1], d) + if ops[|ops| - 1] == CreateVirtual(Some(d)) then 1 else 0
  }

  /** How often a display of a kind was plugged in under an id. */
  function Plugs(ops: seq<Op>, d: uint64, kind: DisplayType): nat {
    if ops == [] then 0
    else Plugs(ops[..|ops| - 1], d, kind) + if ops[|ops| - 1] == Hotplug(d, Connected, Some(kind)) then 1 else 0
  }

  function Held(s: State, d: uint64, kind: DisplayType): nat {
    if d in s.displays && s.displays[d].kind == kind then 1 else 0
  }

  /** So many virtual and physical display objects have existed under an id: each is held, or the
      service was told that it is gone. */
  ghost predicate ObjectsBalance(s: State, d: uint64, created: nat, plugged: nat, physical: nat) {
    && multiset(s.log)[VirtualCreated(d)] == created
    && created + plugged == multiset(s.log)[VirtualDestroyed(d)] + Held(s, d, Virtual)
    && physical == multiset(s.log)[VsyncDisabled(d)] + Held(s, d, Physical)
  }

  lemma {:induction false} ClearedTellsNothing(display: uint64, layers: seq<uint64>, d: uint64)
    ensures multiset(Cleared(display, layers))[VirtualCreated(d)] == 0
    ensures multiset(Cleared(display, layers))[VirtualDestroyed(d)] == 0
    ensures multiset(Cleared(display, layers))[VsyncDisabled(d)] == 0
  {
    if layers != [] {
      var init, e := layers[..|layers| - 1], LayerDestroyed(display, layers[|layers| - 1]);
      ClearedTellsNothing(display, init, d);
      CountSnoc(Cleared(display, init), e, VirtualCreated(d));
      CountSnoc(Cleared(display, init), e, VirtualDestroyed(d));
      CountSnoc(Cleared(display, init), e, VsyncDisabled(d));
    }
  }

  /** The service is told once that an object is gone, in the way its kind asks for. */
  lemma DestroyedTellsOnce(display: uint64, x: Display, d: uint64)
    ensures var gone := multiset(Destroyed(display, x));
            && gone[VirtualCreated(d)] == 0
            && gone[VirtualDestroyed(d)] == (if d == display && x.kind.Virtual? then 1 else 0)
            && gone[VsyncDisabled(d)] == if d == display && x.kind.Physical? then 1 else 0
  {
    ClearedTellsNothing(display, x.layers, d);
    hide Cleared;
  }

  lemma EraseBalance(s: State, display: uint64, d: uint64, created: nat, plugged: nat, physical: nat)
    requires ObjectsBalance(s, d, created, plugged, physical)
    ensures ObjectsBalance(Erase(s, display), d, created, plugged, physical)
    ensures display !in Erase(s, display).displays
  {
    if display in s.displays { DestroyedTellsOnce(display, s.displays[display], d); }
    hide Destroyed;
  }

  /** A new object is held or gone at once. */
  lemma EmplaceBalance(s: State, display: uint64, x: Display, d: uint64, created: nat, plugged: nat, physical: nat)
    requires multiset(s.log)[VirtualCreated(d)] == created
    requires created + plugged == multiset(s.log)[VirtualDestroyed(d)] + Held(s, d, Virtual)
                                  + (if d == display && x.kind.Virtual? then 1 else 0)
    requires physical == multiset(s.log)[VsyncDisabled(d)] + Held(s, d, Physical)
                         + (if d == display && x.kind.Physical? then 1 else 0)
    ensures ObjectsBalance(Emplace(s, display, x), d, created, plugged, physical)
  {
    DestroyedTellsOnce(display, x, d);
    hide Destroyed;
  }

  lemma CreateBalance(s: State, id: uint64, d: uint64, created: nat, plugged: nat, physical: nat)
    requires ObjectsBalance(s, d, created, plugged, physical)
    ensures var t := Emplace(s.(log := s.log + [VirtualCreated(id)]), id, Display(Virtual, true, []));
            ObjectsBalance(t, d, created + (if id == d then 1 else 0), plugged, physical)
  {
    hide Emplace;
    EmplaceBalance(s.(log := s.log + [VirtualCreated(id)]), id, Display(Virtual, true, []), d,
                   created + (if id == d then 1 else 0), plugged, physical);
  }

  lemma PlugBalance(s: State, display: uint64, kind: DisplayType, d: uint64,
                    created: nat, plugged: nat, physical: nat)
    requires ObjectsBalance(s, d, created, plugged, physical)
    ensures ObjectsBalance(Emplace(s, display, Display(kind, true, [])), d, created,
                           plugged + (if display == d && kind.Virtual? then 1 else 0),
                           physical + (if display == d && kind.Physical? then 1 else 0))
  {
    hide Emplace;
    EmplaceBalance(s, display, Display(kind, true, []), d, created,
                   plugged + (if display == d && kind.Virtual? then 1 else 0),
                   physical + (if display == d && kind.Physical? then 1 else 0));
  }

  lemma DisconnectBalance(s: State, display: uint64, d: uint64, created: nat, plugged: nat, physical: nat)
    requires ObjectsBalance(s, d, created, plugged, physical)
    ensures ObjectsBalance(Disconnect(s, display), d, created, plugged, physical)
  {
  }

  /** News of layers say nothing of displays. */
  lemma LayerNews(log: seq<Event>, e: Event, d: uint64)
    requires e.LayerCreated? || e.LayerDestroyed?
    ensures multiset(log + [e])[VirtualCreated(d)] == multiset(log)[VirtualCreated(d)]
    ensures multiset(log + [e])[VirtualDestroyed(d)] == multiset(log)[VirtualDestroyed(d)]
    ensures multiset(log + [e])[VsyncDisabled(d)] == multiset(log)[VsyncDisabled(d)]
  {
  }

  lemma EmplaceLayerBalance(s: State, display: uint64, layer: uint64, d: uint64,
                            created: nat, plugged: nat, physical: nat)
    requires ObjectsBalance(s, d, created, plugged, physical)
    ensures ObjectsBalance(EmplaceLayer(s, display, layer), d, created, plugged, physical)
  {
    LayerNews(s.log, LayerCreated(display, layer), d);
    LayerNews(s.log + [LayerCreated(display, layer)], LayerDestroyed(display, layer), d);
  }

  lemma EraseLayerBalance(s: State, display: uint64, layer: uint64, d: uint64,
                          created: nat, plugged: nat, physical: nat)
    requires ObjectsBalance(s, d, created, plugged, physical)
    ensures ObjectsBalance(EraseLayer(s, display, layer), d, created, plugged, physical)
  {
    hide Without;
    LayerNews(s.log, LayerDestroyed(display, layer), d);
  }

  lemma StepBalance(s: State, op: Op, d: uint64, created: nat, plugged: nat, physical: nat)
    requires ObjectsBalance(s, d, created, plugged, physical)
    ensures ObjectsBalance(Step(s, op), d, created + (if op == CreateVirtual(Some(d)) then 1 else 0),
                           plugged + (if op == Hotplug(d, Connected, Some(Virtual)) then 1 else 0),
                           physical + (if op == Hotplug(d, Connected, Some(Physical)) then 1 else 0))
  {
    hide Erase, Emplace, EmplaceLayer, EraseLayer, Disconnect, ObjectsBalance;
    match op
    case CreateVirtual(None) =>
    case CreateVirtual(Some(id)) =>
      CreateBalance(s, id, d, created, plugged, physical);
    case Destroy(display) => EraseBalance(s, display, d, created, plugged, physical);
    case Hotplug(display, Connected, kind) =>
      EraseBalance(s, display, d, created, plugged, physical);
      if kind.Some? { PlugBalance(Erase(s, display), display, kind.value, d, created, plugged, physical); }
    case Hotplug(display, _, _) => DisconnectBalance(s, display, d, created, plugged, physical);
    case CreateLayer(display, id) =>
      if id.Some? { EmplaceLayerBalance(s, display, id.value, d, created, plugged, physical); }
    case DestroyLayer(display, layer) => EraseLayerBalance(s, display, layer, d, created, plugged, physical);
  }

  /** Over every run: each virtual display the service created, and each that was plugged in, has been
      destroyed in the service or is held; each physical one has had its vsync disabled or is held. */
  lemma {:induction false} DisplaysConserved(ops: seq<Op>, d: uint64)
    ensures var s := Run(ops);
            && multiset(s.log)[VirtualCreated(d)] == Creations(ops, d)
            && Creations(ops, d) + Plugs(ops, d, Virtual)
               == multiset(s.log)[VirtualDestroyed(d)]
                  + (if d in s.displays && s.displays[d].kind.Virtual? then 1 else 0)
            && Plugs(ops, d, Physical)
               == multiset(s.log)[VsyncDisabled(d)] + if d in s.displays && s.displays[d].kind.Physical? then 1 else 0
  {
    if ops != [] {
      var init, op := ops[..|ops| - 1], ops[|ops| - 1];
      DisplaysConserved(init, d);
      hide Step;
      StepBalance(Run(init), op, d, Creations(init, d), Plugs(init, d, Virtual), Plugs(init, d, Physical));
    }
  }

  predicate SameObject(d: Display, e: Display) { d.kind == e.kind && d.connected == e.connected }

  /** Which displays and layers there are after an operation, given those before. */
  ghost predicate LeftBy(op: Op, before: map<uint64, Display>, after: map<uint64, Display>) {
    match op
    case CreateVirtual(None) => after == before
    case CreateVirtual(Some(id)) =>
      after == if id in before then before else before[id := Display(Virtual, true, [])]
    case Destroy(d) => after == before - {d}
    case Hotplug(d, Connected, Some(kind)) => after == before[d := Display(kind, true, [])]
    case Hotplug(d, Connected, None) => after == before - {d}
    case Hotplug(d, Disconnected, _) =>
      && after.Keys == before.Keys && after - {d} == before - {d}
      && (d in before ==> !after[d].connected && after[d].layers == before[d].layers
                          && after[d].kind == before[d].kind)
    case Hotplug(_, Unknown, _) => after == before
    case CreateLayer(d, None) => after == before
    case CreateLayer(d, Some(l)) =>
      && after.Keys == before.Keys && after - {d} == before - {d}
      && (d in before ==> SameObject(before[d], after[d])
                          && forall x :: x in after[d].layers <==> x in before[d].layers || x == l)
    case DestroyLayer(d, l) =>
      && after.Keys == before.Keys && after - {d} == before - {d}
      && (d in before ==> SameObject(before[d], after[d])
                          && forall x :: x in after[d].layers <==> x in before[d].layers && x != l)
  }

  lemma DisplaysAfter(ops: seq<Op>, op: Op)
    ensures LeftBy(op, Run(ops).displays, Run(ops + [op]).displays)
  {
    var s := Run(ops);
    assert (ops + [op])[..|ops|] == ops;
    LayersConserved(ops);
    hide Run, Conserved, Destroyed;
    match op
    case DestroyLayer(d, l) => if d in s.displays { WithoutDistinct(s.displays[d].layers, l); }
    case Hotplug(d, Connected, Some(kind)) =>
      var x := Display(kind, true, []);
      assert (s.displays - {d})[d := x] == s.displays[d := x];
    case _ =>
  }

  /** Connecting a display again, whatever it had, leaves one that is connected and has no layer, and
      every layer of the old one has been destroyed as often as created. */
  lemma HotplugRecreates(ops: seq<Op>, display: uint64, kind: DisplayType, layer: uint64)
    ensures var t := Run(ops + [Hotplug(display, Connected, Some(kind))]);
            && t.displays == Run(ops).displays[display := Display(kind, true, [])]
            && multiset(t.log)[LayerCreated(display, layer)] == multiset(t.log)[LayerDestroyed(display, layer)]
  {
    var op := Hotplug(display, Connected, Some(kind));
    assert (ops + [op])[..|ops|] == ops;
    LayersConserved(ops + [op]);
    assert Balanced(Run(ops + [op]), display, layer);
    hide Conserved, Destroyed;
    var s := Run(ops);
    var d := Display(kind, true, []);
    assert (s.displays - {display})[display := d] == s.displays[display := d];
  }
}
