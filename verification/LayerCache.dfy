/** The layer wrapper's caches: a setter that would repeat what the service already has is not
    sent, and the service must not be able to tell. */
module LayerCaches {
  import opened Words
  import opened Commands

  /** A region is a non-empty list of rectangles; it is a rectangle when the list has one. */
  type Region = r: seq<Rect> | r != [] witness [Rect(0, 0, 0, 0)]

  predicate IsRect(r: Region) { |r| == 1 }

  const INVALID_RECT := Rect(0, 0, -1, -1)
  const INVALID_REGION: Region := [INVALID_RECT]
  const UNKNOWN: int32 := 0

  /** Colour matrices are compared, never computed with. */
  type Matrix = seq<uint32>

  datatype Cache = Cache(visible: Region, damage: Region, dataspace: int32, colorMatrix: Matrix)

  /** The setters whose arguments are cached; the service may refuse colour transforms. */
  datatype Setter =
    | Visible(region: Region)
    | Damage(region: Region)
    | Dataspace(dataspace: int32)
    | Transform(matrix: Matrix, supported: bool)

  /** A command sent to the service for this layer. */
  datatype LayerCommand =
    | SendVisible(rects: seq<Rect>)
    | SendDamage(rects: seq<Rect>)
    | SendDataspace(dataspace: int32)
    | SendTransform(matrix: Matrix)

  // ---------------------------------------------------------------- the service

  /** What the service knows of the layer; regions are what arrived of them. */
  datatype Server = Server(visible: seq<Rect>, damage: seq<Rect>, dataspace: int32, colorMatrix: Matrix)

  function Apply(s: Server, c: LayerCommand): Server {
    match c
    case SendVisible(rects) => s.(visible := Sent(rects, LAYER_RECT_LIMIT))
    case SendDamage(rects) => s.(damage := Sent(rects, LAYER_RECT_LIMIT))
    case SendDataspace(dataspace) => s.(dataspace := dataspace)
    case SendTransform(matrix) => s.(colorMatrix := matrix)
  }

  function ApplyAll(s: Server, cs: seq<LayerCommand>): Server {
    if cs == [] then s else Apply(ApplyAll(s, cs[..|cs| - 1]), cs[|cs| - 1])
  }

  /** The service's copy of a layer when it is created: assumed to be what the cache starts with. */
  function NewServer(identity: Matrix): Server { Server([INVALID_RECT], [], UNKNOWN, identity) }

  function NewCache(identity: Matrix): Cache { Cache(INVALID_REGION, INVALID_REGION, UNKNOWN, identity) }

  // ---------------------------------------------------------------- the setters

  /** The default damage, the whole layer, is sent as no rectangle at all. */
  function DamageRects(damage: Region): seq<Rect> {
    if IsRect(damage) && damage[0] == INVALID_RECT then [] else damage
  }

  /** What the setter would send without any cache. */
  function Plain(op: Setter): seq<LayerCommand> {
    match op
    case Visible(region) => [SendVisible(region)]
    case Damage(region) => [SendDamage(DamageRects(region))]
    case Dataspace(dataspace) => [SendDataspace(dataspace)]
    case Transform(matrix, supported) => if supported then [SendTransform(matrix)] else []
  }

  predicate Elided(c: Cache, op: Setter) {
    match op
    case Visible(region) => IsRect(region) && IsRect(c.visible) && region[0] == c.visible[0]
    case Damage(region) => IsRect(region) && IsRect(c.damage) && region[0] == c.damage[0]
    case Dataspace(dataspace) => dataspace == c.dataspace
    case Transform(matrix, _) => matrix == c.colorMatrix
  }

  function Remember(c: Cache, op: Setter): Cache {
    match op
    case Visible(region) => c.(visible := region)
    case Damage(region) => c.(damage := region)
    case Dataspace(dataspace) => c.(dataspace := dataspace)
    case Transform(matrix, supported) => if supported then c.(colorMatrix := matrix) else c
  }

  class Layer {
    var visibleRegion: Region
    var damageRegion: Region
    var dataSpace: int32
    var colorMatrix: Matrix

    /** The commands sent for this layer so far. */
    ghost var sent: seq<LayerCommand>

    ghost function Cached(): Cache
      reads this
    {
      Cache(visibleRegion, damageRegion, dataSpace, colorMatrix)
    }

    constructor (identity: Matrix)
      ensures Cached() == NewCache(identity) && sent == []
    {
      visibleRegion, damageRegion, dataSpace, colorMatrix := INVALID_REGION, INVALID_REGION, UNKNOWN, identity;
      sent := [];
    }

    ghost method Send(c: LayerCommand)
      modifies this`sent
      ensures sent == old(sent) + [c]
    {
      sent := sent + [c];
    }

    method SetVisibleRegion(region: Region)
      modifies this
      ensures var op := Visible(region);
              if old(Elided(Cached(), op)) then Cached() == old(Cached()) && sent == old(sent)
              else Cached() == Remember(old(Cached()), op) && sent == old(sent) + Plain(op)
    {
      if IsRect(region) && IsRect(visibleRegion) && region[0] == visibleRegion[0] {
        return;
      }
      visibleRegion := region;
      var hwcRects := [];
      for i := 0 to |region|
        invariant hwcRects == region[..i]
      {
        hwcRects := hwcRects + [region[i]];
      }
      assert region[..|region|] == region;
      Send(SendVisible(hwcRects));
    }

    method SetSurfaceDamage(damage: Region)
      modifies this
      ensures var op := Damage(damage);
              if old(Elided(Cached(), op)) then Cached() == old(Cached()) && sent == old(sent)
              else Cached() == Remember(old(Cached()), op) && sent == old(sent) + Plain(op)
    {
      if IsRect(damage) && IsRect(damageRegion) && damage[0] == damageRegion[0] {
        return;
      }
      damageRegion := damage;
      if IsRect(damage) && damage[0] == INVALID_RECT {
        Send(SendDamage([]));
      } else {
        var hwcRects := [];
        for i := 0 to |damage|
          invariant hwcRects == damage[..i]
        {
          hwcRects := hwcRects + [damage[i]];
        }
        assert damage[..|damage|] == damage;
        Send(SendDamage(hwcRects));
      }
    }

    method SetDataspace(dataspace: int32)
      modifies this
      ensures var op := Dataspace(dataspace);
              if old(Elided(Cached(), op)) then Cached() == old(Cached()) && sent == old(sent)
              else Cached() == Remember(old(Cached()), op) && sent == old(sent) + Plain(op)
    {
      if dataspace == dataSpace {
        return;
      }
      dataSpace := dataspace;
      Send(SendDataspace(dataSpace));
    }

    /** The only setter that looks at the outcome before it remembers anything. */
    method SetColorTransform(matrix: Matrix, supported: bool) returns (accepted: bool)
      modifies this
      ensures var op := Transform(matrix, supported);
              if old(Elided(Cached(), op)) then Cached() == old(Cached()) && sent == old(sent)
              else Cached() == Remember(old(Cached()), op) && sent == old(sent) + Plain(op)
      ensures accepted == (supported || matrix == old(colorMatrix))
    {
      if matrix == colorMatrix {
        return true;
      }
      if !supported {
        return false;
      }
      Send(SendTransform(matrix));
      colorMatrix := matrix;
      accepted := true;
    }
  }

  // ---------------------------------------------------------------- runs

  /** A layer wrapper and the service's copy of the layer. */
  datatype Pair = Pair(cache: Cache, server: Server)

  function CachedStep(p: Pair, op: Setter): Pair {
    if Elided(p.cache, op) then p else Pair(Remember(p.cache, op), ApplyAll(p.server, Plain(op)))
  }

  function CachedRun(p: Pair, ops: seq<Setter>): Pair {
    if ops == [] then p else CachedStep(CachedRun(p, ops[..|ops| - 1]), ops[|ops| - 1])
  }

  /** The same run with every early return removed. */
  function PlainRun(s: Server, ops: seq<Setter>): Server {
    if ops == [] then s else ApplyAll(PlainRun(s, ops[..|ops| - 1]), Plain(ops[|ops| - 1]))
  }

  /** The service has what the cache remembers, as far as the cache would ever act on it: a region of
      several rectangles is always sent again. */
  predicate Agrees(p: Pair) {
    && p.server.dataspace == p.cache.dataspace && p.server.colorMatrix == p.cache.colorMatrix
    && (IsRect(p.cache.visible) ==> p.server.visible == p.cache.visible)
    && (IsRect(p.cache.damage) ==> p.server.damage == DamageRects(p.cache.damage))
  }

  lemma ApplyOne(s: Server, c: LayerCommand)
    ensures ApplyAll(s, [c]) == Apply(s, c)
  {
    assert ApplyAll(s, []) == s;
  }

  lemma StepAgrees(p: Pair, op: Setter)
    requires Agrees(p)
    ensures Agrees(CachedStep(p, op))
    ensures CachedStep(p, op).server == ApplyAll(p.server, Plain(op))
  {
    if Plain(op) != [] { ApplyOne(p.server, Plain(op)[0]); }
  }

  lemma {:induction false} RunAgrees(p: Pair, ops: seq<Setter>)
    requires Agrees(p)
    ensures Agrees(CachedRun(p, ops)) && CachedRun(p, ops).server == PlainRun(p.server, ops)
  {
    if ops != [] {
      RunAgrees(p, ops[..|ops| - 1]);
      StepAgrees(CachedRun(p, ops[..|ops| - 1]), ops[|ops| - 1]);
    }
  }

  lemma OneStep(p: Pair, op: Setter)
    ensures CachedRun(p, [op]) == CachedStep(p, op)
    ensures PlainRun(p.server, [op]) == ApplyAll(p.server, Plain(op))
  {
    assert [op][..0] == [];
  }

  /** The service cannot tell a wrapper that elides from one that does not, whatever is set. */
  ghost predicate Invisible(p: Pair) {
    forall ops :: CachedRun(p, ops).server == PlainRun(p.server, ops)
  }

  /** Repeating what is cached tells whether the service still has it. */
  lemma InvisibleAgrees(p: Pair, op: Setter)
    requires Invisible(p) && Plain(op) != []
    ensures Elided(p.cache, op) ==> p.server == Apply(p.server, Plain(op)[0])
  {
    OneStep(p, op);
    assert CachedRun(p, [op]).server == PlainRun(p.server, [op]);
    ApplyOne(p.server, Plain(op)[0]);
  }

  /** Elision is invisible to the service, for every sequence of setter calls, exactly when the
      service has what the cache remembers to begin with. */
  lemma ElisionIsInvisibleIff(p: Pair)
    ensures Invisible(p) <==> Agrees(p)
  {
    if Agrees(p) {
      forall ops
        ensures CachedRun(p, ops).server == PlainRun(p.server, ops)
      {
        RunAgrees(p, ops);
      }
    }
    if Invisible(p) {
      InvisibleAgrees(p, Dataspace(p.cache.dataspace));
      InvisibleAgrees(p, Transform(p.cache.colorMatrix, true));
      InvisibleAgrees(p, Visible(p.cache.visible));
      InvisibleAgrees(p, Damage(p.cache.damage));
    }
  }

  /** A service that starts with what a new cache starts with never misses an update. */
  lemma NewLayerIsExact(identity: Matrix, ops: seq<Setter>)
    ensures CachedRun(Pair(NewCache(identity), NewServer(identity)), ops).server
            == PlainRun(NewServer(identity), ops)
  {
    RunAgrees(Pair(NewCache(identity), NewServer(identity)), ops);
  }

  /** Whatever was set before, the service of a new layer has what was set last: all rectangles of a
      region of up to 16383, no rectangle for a longer one, and none for the default damage. */
  lemma LastSetArrives(identity: Matrix, ops: seq<Setter>, op: Setter)
    ensures var server := CachedRun(Pair(NewCache(identity), NewServer(identity)), ops + [op]).server;
            && (op.Visible? ==> server.visible == if |op.region| <= 16383 then op.region else [])
            && (op.Damage? ==> server.damage == if op.region == [Rect(0, 0, -1, -1)] || |op.region| > 16383 then []
                                                else op.region)
            && (op.Dataspace? ==> server.dataspace == op.dataspace)
            && (op.Transform? && op.supported ==> server.colorMatrix == op.matrix)
  {
    NewLayerIsExact(identity, ops + [op]);
    assert (ops + [op])[..|ops|] == ops;
    if Plain(op) != [] { ApplyOne(PlainRun(NewServer(identity), ops), Plain(op)[0]); }
  }

  /** When a batch is dropped the cache keeps what the service never received, and setting the same
      value again does not help. */
  lemma DroppedBatchIsNotRepaired(identity: Matrix, dataspace: int32)
    requires dataspace != UNKNOWN
    ensures var remembered := CachedRun(Pair(NewCache(identity), NewServer(identity)), [Dataspace(dataspace)]).cache;
            var later := CachedRun(Pair(remembered, NewServer(identity)), [Dataspace(dataspace)]).server;
            later.dataspace == UNKNOWN
            && PlainRun(NewServer(identity), [Dataspace(dataspace)]).dataspace == dataspace
  {
    var op := Dataspace(dataspace);
    OneStep(Pair(NewCache(identity), NewServer(identity)), op);
    OneStep(Pair(NewCache(identity).(dataspace := dataspace), NewServer(identity)), op);
    ApplyOne(NewServer(identity), SendDataspace(dataspace));
  }
}
