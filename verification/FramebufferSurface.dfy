/** The framebuffer surface: which buffer slots it holds while frames are latched, presented and
    released one frame late, and while the producer frees and reallocates slots behind its back. */
module FramebufferSurfaces {
  import opened Words

  /** What became of the presentation of a frame. */
  datatype Outcome = Presented(fence: nat) | NotPresented

  /** An answer of the composer: success, the note that the frame needs changes, or an error. */
  datatype Answer = Fine | HasChanges | Refused

  /** The answers the composer would give about a frame, and the fence of its presentation. */
  datatype Answers = Answers(validate: Answer, types: nat, requests: nat, accept: Answer, present: Answer, fence: nat)

  /** What is asked of the composer, or of the external device that shows frames in its place. */
  datatype Call =
    | Wait(fence: nat)
    | Post(buffer: nat)
    | ValidateDisplay
    | AcceptChanges
    | SetClientTarget(slot: int, buffer: nat, acquireFence: Option<nat>)
    | PresentDisplay

  /** A buffer handed back: the frame it was acquired for, its slot, the frame being presented, the
      fence. */
  datatype Release = Release(frame: nat, slot: int, during: nat, fence: Option<nat>)

  /** The buffer queue, as far as the consumer can tell: the slots it has handed out and for which
      frame, the slots whose buffer the consumer has been told of, and the history so far. */
  datatype Queue = Queue(
    held: map<int, nat>, known: set<int>, used: set<nat>,
    outcomes: seq<Outcome>, releases: seq<Release>, freed: set<nat>)

  /** `tracked` is the consumer base's own table of buffers by slot. */
  datatype State = State(
    tracked: map<int, nat>,
    currentSlot: Option<int>, currentBuffer: Option<nat>,
    hasPendingRelease: bool, previousBufferSlot: Option<int>, previousBuffer: Option<nat>,
    lastPresentFence: Option<nat>,
    queue: Queue)

  datatype Item = NoBufferAvailable | Failed | Item(slot: int, buffer: nat)

  datatype Op =
    | Next(item: Item, outcome: Outcome)
    | QueueFree(slot: int)
    | FreeCallback(slot: int)

  // ---------------------------------------------------------------- presenting one frame

  /** The composer can show the frame as it is. */
  predicate Unchanged(a: Answers) {
    !a.validate.Refused? && a.types == 0 && a.requests == 0
  }

  /** The calls made for a frame, in order. */
  function Calls(external: bool, slot: int, buffer: nat, acquireFence: Option<nat>, a: Answers): seq<Call> {
    if external then (if acquireFence.Some? then [Wait(acquireFence.value)] else []) + [Post(buffer)]
    else if !Unchanged(a) then [ValidateDisplay]
    else if !a.accept.Fine? then [ValidateDisplay, AcceptChanges]
    else [ValidateDisplay, AcceptChanges, SetClientTarget(slot, buffer, acquireFence), PresentDisplay]
  }

  /** A frame is presented when the composer is asked to present it and does. */
  function OutcomeOf(external: bool, slot: int, buffer: nat, acquireFence: Option<nat>, a: Answers): Outcome {
    if PresentDisplay in Calls(external, slot, buffer, acquireFence, a) && a.present.Fine? then Presented(a.fence)
    else NotPresented
  }

  /** A frame is presented exactly when there is no external device and all four answers agree; the
      composer is asked to present only the buffer just handed to it, in a frame it has accepted. */
  lemma PresentedIff(external: bool, slot: int, buffer: nat, acquireFence: Option<nat>, a: Answers)
    ensures OutcomeOf(external, slot, buffer, acquireFence, a)
            == if !external && Unchanged(a) && a.accept.Fine? && a.present.Fine? then Presented(a.fence)
               else NotPresented
    ensures var calls := Calls(external, slot, buffer, acquireFence, a);
            forall i | 0 <= i < |calls| && calls[i].PresentDisplay? ::
              && i == 3 && calls[0].ValidateDisplay? && calls[1].AcceptChanges? && Unchanged(a) && a.accept.Fine?
              && calls[2] == SetClientTarget(slot, buffer, acquireFence)
  {
    assert !external && Unchanged(a) && a.accept.Fine? ==>
        Calls(external, slot, buffer, acquireFence, a)[3] == PresentDisplay;
  }

  // ---------------------------------------------------------------- the steps

  function FreeBuffer(s: State, slot: int): State {
    s.(tracked := s.tracked - {slot}, currentSlot := if s.currentSlot == Some(slot) then None else s.currentSlot)
  }

  /** The frame number is the number of frames acquired before. */
  function AcquireBuffer(s: State, slot: int, buffer: nat, outcome: Outcome): State {
    var q := s.queue;
    var q' := q.(held := q.held[slot := |q.outcomes|], known := q.known + {slot}, used := q.used + {buffer},
                 outcomes := q.outcomes + [outcome]);
    if slot in q.known then s.(queue := q')
    else
      var t := if slot in s.tracked then FreeBuffer(s, slot) else s;
      t.(tracked := t.tracked[slot := buffer], queue := q')
  }

  predicate StillTracking(s: State, slot: Option<int>, buffer: Option<nat>) {
    slot.Some? && slot.value in s.tracked && buffer == Some(s.tracked[slot.value])
  }

  /** A release the consumer base ignores, one the queue finds stale, or a real one. */
  function ReleaseBuffer(s: State, slot: Option<int>, buffer: Option<nat>, fence: Option<nat>): State {
    var q := s.queue;
    if !StillTracking(s, slot, buffer) || q.outcomes == [] then s
    else if slot.value !in q.held then FreeBuffer(s, slot.value)
    else s.(queue := q.(held := q.held - {slot.value},
                        releases := q.releases + [Release(q.held[slot.value], slot.value, |q.outcomes| - 1, fence)]))
  }

  function FrameCommitted(s: State): State {
    if s.hasPendingRelease
    then ReleaseBuffer(s, s.previousBufferSlot, s.previousBuffer, s.lastPresentFence).(hasPendingRelease := false)
    else s
  }

  function Present(s: State, outcome: Outcome): State {
    FrameCommitted(if outcome.Presented? then s.(lastPresentFence := Some(outcome.fence)) else s)
  }

  function Latch(s: State, slot: int, buffer: nat): State {
    var t := if s.currentSlot.Some? && s.currentSlot.value != slot
             then s.(hasPendingRelease := true, previousBufferSlot := s.currentSlot, previousBuffer := s.currentBuffer)
             else s;
    t.(currentSlot := Some(slot), currentBuffer := Some(buffer))
  }

  function NextBuffer(s: State, slot: int, buffer: nat, outcome: Outcome): State {
    Latch(Present(AcquireBuffer(s, slot, buffer, outcome), outcome), slot, buffer)
  }

  function Step(s: State, op: Op): State {
    match op
    case Next(Item(slot, buffer), outcome) => NextBuffer(s, slot, buffer, outcome)
    case Next(_, _) => s
    case QueueFree(slot) =>
      s.(queue := s.queue.(held := s.queue.held - {slot}, known := s.queue.known - {slot},
                           freed := s.queue.freed + if slot in s.queue.held then {s.queue.held[slot]} else {}))
    case FreeCallback(slot) => FreeBuffer(s, slot)
  }

  /** What the buffer queue guarantees: it hands out no slot twice, a slot it has told the consumer of
      keeps its buffer, any other comes with a buffer never seen before, and the consumer is asked to
      free only slots whose present buffer it has not been told of. */
  predicate Enabled(s: State, op: Op) {
    match op
    case Next(Item(slot, buffer), _) =>
      slot !in s.queue.held &&
      if slot in s.queue.known then slot in s.tracked && s.tracked[slot] == buffer else buffer !in s.queue.used
    case FreeCallback(slot) => slot !in s.queue.known
    case _ => true
  }

  const INITIAL := State(map[], None, None, false, None, None, None, Queue(map[], {}, {}, [], [], {}))

  function Run(ops: seq<Op>): State {
    if ops == [] then INITIAL else Step(Run(ops[..|ops| - 1]), ops[|ops| - 1])
  }

  predicate Legal(ops: seq<Op>) {
    ops == [] || (Legal(ops[..|ops| - 1]) && Enabled(Run(ops[..|ops| - 1]), ops[|ops| - 1]))
  }

  // ---------------------------------------------------------------- the surface

  /** Latching a frame about which the composer gives these answers. */
  function NextOp(external: bool, item: Item, acquireFence: Option<nat>, answers: Answers): Op {
    Next(item, if item.Item? then OutcomeOf(external, item.slot, item.buffer, acquireFence, answers) else NotPresented)
  }

  /** What is asked while it is latched: nothing unless there is a new buffer. */
  function AskedFor(external: bool, item: Item, acquireFence: Option<nat>, answers: Answers): seq<seq<Call>> {
    if item.Item? then [Calls(external, item.slot, item.buffer, acquireFence, answers)] else []
  }

  class FramebufferSurface {
    /** Frames go to an external device. */
    const external: bool

    /** The calls made for each frame so far. */
    var asked: seq<seq<Call>>

    var slots: map<int, nat>
    var currentSlot: Option<int>
    var currentBuffer: Option<nat>
    var hasPendingRelease: bool
    var previousBufferSlot: Option<int>
    var previousBuffer: Option<nat>
    var lastPresentFence: Option<nat>
    var queue: Queue

    ghost function Abs(): State
      reads this
    {
      State(slots, currentSlot, currentBuffer, hasPendingRelease, previousBufferSlot, previousBuffer,
            lastPresentFence, queue)
    }

    constructor (external: bool)
      ensures Abs() == INITIAL && this.external == external && asked == []
    {
      this.external, asked := external, [];
      slots, currentSlot, currentBuffer := map[], None, None;
      hasPendingRelease, previousBufferSlot, previousBuffer := false, None, None;
      lastPresentFence, queue := None, Queue(map[], {}, {}, [], [], {});
    }

    /** The consumer base forgets the slot, and so does the surface if it is the current one. */
    method FreeBufferLocked(slot: int)
      modifies this`slots, this`currentSlot
      ensures Abs() == FreeBuffer(old(Abs()), slot)
    {
      slots := slots - {slot};
      if currentSlot == Some(slot) {
        currentSlot := None;
      }
    }

    /** The queue's history also notes what is going to become of the frame. */
    method AcquireBufferLocked(slot: int, buffer: nat, outcome: Outcome)
      modifies this`slots, this`currentSlot, this`queue
      ensures Abs() == AcquireBuffer(old(Abs()), slot, buffer, outcome)
    {
      if slot !in queue.known {
        if slot in slots {
          FreeBufferLocked(slot);
        }
        slots := slots[slot := buffer];
      }
      queue := queue.(held := queue.held[slot := |queue.outcomes|], known := queue.known + {slot},
                      used := queue.used + {buffer}, outcomes := queue.outcomes + [outcome]);
    }

    method ReleaseBufferLocked(slot: Option<int>, buffer: Option<nat>, fence: Option<nat>)
      requires queue.outcomes != []
      modifies this`slots, this`currentSlot, this`queue
      ensures Abs() == ReleaseBuffer(old(Abs()), slot, buffer, fence)
    {
      if slot.None? || slot.value !in slots || buffer != Some(slots[slot.value]) {
        return;
      }
      if slot.value !in queue.held {
        FreeBufferLocked(slot.value);
      } else {
        queue := queue.(held := queue.held - {slot.value},
                        releases := queue.releases
                          + [Release(queue.held[slot.value], slot.value, |queue.outcomes| - 1, fence)]);
      }
    }

    method OnFrameCommitted()
      requires queue.outcomes != []
      modifies this`slots, this`currentSlot, this`queue, this`hasPendingRelease
      ensures Abs() == FrameCommitted(old(Abs()))
    {
      if hasPendingRelease {
        ReleaseBufferLocked(previousBufferSlot, previousBuffer, lastPresentFence);
        hasPendingRelease := false;
      }
    }

    /** Whatever the composer answers, the frame counts as committed. */
    method PresentLocked(slot: int, buffer: nat, acquireFence: Option<nat>, answers: Answers)
      requires queue.outcomes != []
      modifies this`slots, this`currentSlot, this`queue, this`hasPendingRelease, this`lastPresentFence, this`asked
      ensures asked == old(asked) + [Calls(external, slot, buffer, acquireFence, answers)]
      ensures Abs() == Present(old(Abs()), OutcomeOf(external, slot, buffer, acquireFence, answers))
    {
      var calls := [];
      if external {
        if acquireFence.Some? {
          calls := calls + [Wait(acquireFence.value)];
        }
        calls := calls + [Post(buffer)];
      } else {
        calls := calls + [ValidateDisplay];
        if answers.validate.Fine? || answers.validate.HasChanges? {
          if answers.types == 0 && answers.requests == 0 {
            calls := calls + [AcceptChanges];
            if answers.accept.Fine? {
              calls := calls + [SetClientTarget(slot, buffer, acquireFence)];
              calls := calls + [PresentDisplay];
              if answers.present.Fine? {
                lastPresentFence := Some(answers.fence);
              }
            }
          }
        }
      }
      assert calls == Calls(external, slot, buffer, acquireFence, answers);
      asked := asked + [calls];
      PresentedIff(external, slot, buffer, acquireFence, answers);
      OnFrameCommitted();
    }

    /** The latched buffer is the one to show next, which is the present one when none is new. */
    method NextBufferLocked(item: Item, acquireFence: Option<nat>, answers: Answers)
      returns (ok: bool, outBuffer: Option<nat>, outFence: Option<nat>)
      modifies this
      ensures Abs() == Step(old(Abs()), NextOp(external, item, acquireFence, answers))
      ensures asked == old(asked) + AskedFor(external, item, acquireFence, answers)
      ensures ok <==> !item.Failed?
      ensures ok ==> outBuffer == currentBuffer
      ensures outFence == if item.Item? then acquireFence else None
    {
      if item.NoBufferAvailable? {
        return true, currentBuffer, None;
      }
      if item.Failed? {
        return false, None, None;
      }
      var op := NextOp(external, item, acquireFence, answers);
      AcquireBufferLocked(item.slot, item.buffer, op.outcome);
      PresentLocked(item.slot, item.buffer, acquireFence, answers);
      if currentSlot.Some? && item.slot != currentSlot.value {
        hasPendingRelease := true;
        previousBufferSlot := currentSlot;
        previousBuffer := currentBuffer;
      }
      currentSlot, currentBuffer := Some(item.slot), Some(item.buffer);
      ok, outBuffer, outFence := true, currentBuffer, acquireFence;
    }
  }

  // ---------------------------------------------------------------- the invariant

  /** Every slot held is the current one, or the previous one awaiting its release. */
  predicate HeldInPlace(s: State) {
    forall slot | slot in s.queue.held ::
      || (s.currentSlot == Some(slot) && s.queue.held[slot] == |s.queue.outcomes| - 1)
      || (s.hasPendingRelease && s.previousBufferSlot == Some(slot) && s.queue.held[slot] < |s.queue.outcomes| - 1)
  }

  /** The queue takes a buffer back behind the surface's back only by forgetting it altogether. */
  predicate HeldIfKnown(s: State, slot: int) {
    slot in s.queue.known ==> slot in s.queue.held
  }

  /** The tables of the surface, the consumer base and the queue agree. */
  predicate Coherent(s: State) {
    && (forall slot | slot in s.queue.held :: slot in s.queue.known)
    && (forall slot | slot in s.queue.known :: slot in s.tracked)
    && (forall slot | slot in s.tracked :: s.tracked[slot] in s.queue.used)
    && (s.currentSlot.Some? ==> StillTracking(s, s.currentSlot, s.currentBuffer) && HeldIfKnown(s, s.currentSlot.value))
    && (s.hasPendingRelease ==>
          && s.previousBufferSlot.Some? && s.previousBuffer.Some? && s.previousBuffer.value in s.queue.used
          && HeldIfKnown(s, s.previousBufferSlot.value)
          && s.previousBufferSlot != s.currentSlot && s.queue.outcomes != []
          && (s.previousBufferSlot.value in s.tracked ==> StillTracking(s, s.previousBufferSlot, s.previousBuffer)))
  }

  /** Releases happen in the order the frames were acquired, before any frame still held. */
  predicate InOrder(q: Queue) {
    && (forall i, j | 0 <= i < j < |q.releases| :: q.releases[i].frame < q.releases[j].frame)
    && (forall i, slot | 0 <= i < |q.releases| && slot in q.held :: q.releases[i].frame < q.held[slot])
    && (forall i | 0 <= i < |q.releases| :: q.releases[i].frame < q.releases[i].during < |q.outcomes|)
  }

  predicate Sound(s: State) {
    HeldInPlace(s) && Coherent(s) && InOrder(s.queue)
  }

  /** What holds right after an acquire, while the previous frame still awaits its release: only
      the new slot, the current one and the previous one are held. */
  predicate AcquiredInPlace(s: State, slot: int) {
    forall x | x in s.queue.held && x != slot ::
      || (s.currentSlot == Some(x) && s.queue.held[x] == |s.queue.outcomes| - 2)
      || (s.hasPendingRelease && s.previousBufferSlot == Some(x) && s.queue.held[x] < |s.queue.outcomes| - 2)
  }

  predicate AcquiredCoherent(s: State, slot: int, buffer: nat) {
    && StillTracking(s, Some(slot), Some(buffer)) && s.currentSlot != Some(slot)
    && (forall x | x in s.queue.held :: x in s.queue.known)
    && (forall x | x in s.queue.known :: x in s.tracked)
    && (forall x | x in s.tracked :: s.tracked[x] in s.queue.used)
    && (s.currentSlot.Some? ==>
          && StillTracking(s, s.currentSlot, s.currentBuffer) && s.currentBuffer.value in s.queue.used
          && HeldIfKnown(s, s.currentSlot.value))
    && (s.hasPendingRelease ==>
          && s.previousBufferSlot.Some? && s.previousBuffer.Some? && s.previousBufferSlot != s.currentSlot
          && HeldIfKnown(s, s.previousBufferSlot.value)
          && (s.previousBufferSlot.value == slot ==> s.previousBuffer != Some(buffer))
          && (s.previousBufferSlot.value in s.tracked && s.previousBufferSlot.value != slot ==>
                StillTracking(s, s.previousBufferSlot, s.previousBuffer)))
  }

  predicate AcquiredLast(s: State, slot: int, outcome: Outcome) {
    && s.queue.outcomes != [] && s.queue.outcomes[|s.queue.outcomes| - 1] == outcome
    && slot in s.queue.held && s.queue.held[slot] == |s.queue.outcomes| - 1
    && (s.hasPendingRelease ==> |s.queue.outcomes| >= 2)
  }

  predicate Acquired(s: State, slot: int, buffer: nat, outcome: Outcome) {
    AcquiredInPlace(s, slot) && AcquiredCoherent(s, slot, buffer) && AcquiredLast(s, slot, outcome) && InOrder(s.queue)
  }

  lemma AcquireInPlace(s: State, slot: int, buffer: nat, outcome: Outcome)
    requires Sound(s) && Enabled(s, Next(Item(slot, buffer), outcome))
    ensures AcquiredInPlace(AcquireBuffer(s, slot, buffer, outcome), slot)
    ensures AcquiredLast(AcquireBuffer(s, slot, buffer, outcome), slot, outcome)
  {
    hide InOrder;
  }

  lemma AcquireCoherent(s: State, slot: int, buffer: nat, outcome: Outcome)
    requires Sound(s) && Enabled(s, Next(Item(slot, buffer), outcome))
    ensures AcquiredCoherent(AcquireBuffer(s, slot, buffer, outcome), slot, buffer)
  {
    hide InOrder, HeldInPlace;
  }

  lemma AcquireInOrder(s: State, slot: int, buffer: nat, outcome: Outcome)
    requires InOrder(s.queue)
    ensures InOrder(AcquireBuffer(s, slot, buffer, outcome).queue)
  {
  }

  lemma AcquireSound(s: State, slot: int, buffer: nat, outcome: Outcome)
    requires Sound(s) && Enabled(s, Next(Item(slot, buffer), outcome))
    ensures Acquired(AcquireBuffer(s, slot, buffer, outcome), slot, buffer, outcome)
  {
    hide InOrder, HeldInPlace, Coherent, AcquiredInPlace, AcquiredCoherent, AcquiredLast, AcquireBuffer, Enabled;
    AcquireInPlace(s, slot, buffer, outcome);
    AcquireCoherent(s, slot, buffer, outcome);
    AcquireInOrder(s, slot, buffer, outcome);
  }

  lemma ReleaseInPlace(s: State, slot: int, buffer: nat, outcome: Outcome)
    requires Acquired(s, slot, buffer, outcome) && s.hasPendingRelease
    ensures AcquiredInPlace(FrameCommitted(s), slot) && AcquiredLast(FrameCommitted(s), slot, outcome)
  {
  }

  lemma ReleaseCoherent(s: State, slot: int, buffer: nat, outcome: Outcome)
    requires Acquired(s, slot, buffer, outcome) && s.hasPendingRelease
    ensures AcquiredCoherent(FrameCommitted(s), slot, buffer)
  {
    hide InOrder, AcquiredInPlace;
  }

  lemma ReleaseInOrder(s: State, slot: int, buffer: nat, outcome: Outcome)
    requires Acquired(s, slot, buffer, outcome) && s.hasPendingRelease
    ensures InOrder(FrameCommitted(s).queue)
  {
  }

  lemma PresentSound(s: State, slot: int, buffer: nat, outcome: Outcome)
    requires Acquired(s, slot, buffer, outcome)
    ensures Acquired(Present(s, outcome), slot, buffer, outcome) && !Present(s, outcome).hasPendingRelease
  {
    var t := if outcome.Presented? then s.(lastPresentFence := Some(outcome.fence)) else s;
    if t.hasPendingRelease {
      assert Acquired(t, slot, buffer, outcome);
      hide Acquired, ReleaseBuffer;
      ReleaseInPlace(t, slot, buffer, outcome);
      ReleaseCoherent(t, slot, buffer, outcome);
      ReleaseInOrder(t, slot, buffer, outcome);
      CommittedAcquired(FrameCommitted(t), slot, buffer, outcome);
    }
  }

  lemma CommittedAcquired(s: State, slot: int, buffer: nat, outcome: Outcome)
    requires AcquiredInPlace(s, slot) && AcquiredCoherent(s, slot, buffer) && AcquiredLast(s, slot, outcome)
    requires InOrder(s.queue)
    ensures Acquired(s, slot, buffer, outcome)
  {
  }

  lemma LatchSound(s: State, slot: int, buffer: nat, outcome: Outcome)
    requires Acquired(s, slot, buffer, outcome) && !s.hasPendingRelease
    ensures Sound(Latch(s, slot, buffer))
  {
  }

  lemma StepSound(s: State, op: Op)
    requires Sound(s) && Enabled(s, op)
    ensures Sound(Step(s, op))
  {
    match op
    case Next(Item(slot, buffer), outcome) =>
      var t := AcquireBuffer(s, slot, buffer, outcome);
      AcquireSound(s, slot, buffer, outcome);
      PresentSound(t, slot, buffer, outcome);
      LatchSound(Present(t, outcome), slot, buffer, outcome);
    case Next(_, _) =>
    case QueueFree(slot) =>
    case FreeCallback(slot) =>
  }

  /** Over every run of acquires, frees and reallocations. */
  lemma {:induction false} RunSound(ops: seq<Op>)
    requires Legal(ops)
    ensures Sound(Run(ops))
  {
    if ops != [] {
      RunSound(ops[..|ops| - 1]);
      StepSound(Run(ops[..|ops| - 1]), ops[|ops| - 1]);
    }
  }

  // ---------------------------------------------------------------- how many buffers are held

  const MAX_ACQUIRED := 3

  /** The slots the surface can account for. */
  function Accountable(s: State): set<int> {
    (if s.currentSlot.Some? then {s.currentSlot.value} else {})
    + (if s.hasPendingRelease && s.previousBufferSlot.Some? then {s.previousBufferSlot.value} else {})
  }

  lemma SubsetSize(a: set<int>, b: set<int>)
    requires a <= b
    ensures |a| <= |b|
  {
    assert b == a + (b - a);
  }

  lemma AccountableSize(s: State)
    ensures |Accountable(s)| <= 2
  {
    var a := if s.currentSlot.Some? then {s.currentSlot.value} else {};
    assert |Accountable(s)| <= |a| + 1;
  }

  /** Between calls at most two buffers are held, and at most three right after an acquire: the
      maximum the surface announces to the queue is never exceeded. */
  lemma NeverTooMany(ops: seq<Op>, slot: int, buffer: nat, outcome: Outcome)
    requires Legal(ops)
    ensures Run(ops).queue.held.Keys <= Accountable(Run(ops)) && |Run(ops).queue.held.Keys| <= MAX_ACQUIRED - 1
    ensures |AcquireBuffer(Run(ops), slot, buffer, outcome).queue.held.Keys| <= MAX_ACQUIRED
  {
    RunSound(ops);
    var s := Run(ops);
    assert HeldInPlace(s);
    hide Run, Sound;
    forall x | x in s.queue.held.Keys
      ensures x in Accountable(s)
    {
    }
    SubsetSize(s.queue.held.Keys, Accountable(s));
    AccountableSize(s);
    assert AcquireBuffer(s, slot, buffer, outcome).queue.held.Keys == s.queue.held.Keys + {slot};
  }

  // ---------------------------------------------------------------- where every frame goes

  predicate HeldFrame(q: Queue, f: nat) { exists slot | slot in q.held :: q.held[slot] == f }

  predicate ReleasedFrame(q: Queue, f: nat) { exists i | 0 <= i < |q.releases| :: q.releases[i].frame == f }

  predicate ExactlyOne(a: bool, b: bool, c: bool) {
    (a || b || c) && !(a && b) && !(a && c) && !(b && c)
  }

  /** Each frame acquired is held, was released, or went when the queue freed its slot; one of the
      three, and no frame that was never acquired. */
  ghost predicate Accounted(q: Queue) {
    && (forall f: nat | f < |q.outcomes| :: ExactlyOne(HeldFrame(q, f), ReleasedFrame(q, f), f in q.freed))
    && (forall f: nat | f >= |q.outcomes| :: !HeldFrame(q, f) && !ReleasedFrame(q, f) && f !in q.freed)
  }

  predicate OneSlotEach(q: Queue) {
    forall x, y | x in q.held && y in q.held && x != y :: q.held[x] != q.held[y]
  }

  lemma SoundOneSlotEach(s: State)
    requires HeldInPlace(s)
    ensures OneSlotEach(s.queue)
  {
  }

  /** Taking a slot out of the held ones moves its frame, and no other. */
  lemma FrameLeaves(q: Queue, slot: int, f: nat)
    requires OneSlotEach(q) && slot in q.held
    ensures HeldFrame(q.(held := q.held - {slot}), f) <==> HeldFrame(q, f) && f != q.held[slot]
  {
    var q' := q.(held := q.held - {slot});
    if x :| x in q.held && q.held[x] == f {
      if x != slot { assert x in q'.held && q'.held[x] == f; }
    }
  }

  lemma FrameFreed(q: Queue, slot: int, known: set<int>)
    requires Accounted(q) && OneSlotEach(q) && slot in q.held
    ensures Accounted(q.(held := q.held - {slot}, known := known, freed := q.freed + {q.held[slot]}))
  {
    var q' := q.(held := q.held - {slot}, known := known, freed := q.freed + {q.held[slot]});
    assert HeldFrame(q, q.held[slot]);
    forall f: nat
      ensures HeldFrame(q', f) <==> HeldFrame(q, f) && f != q.held[slot]
      ensures ReleasedFrame(q', f) <==> ReleasedFrame(q, f)
    {
      FrameLeaves(q, slot, f);
      assert HeldFrame(q', f) <==> HeldFrame(q.(held := q.held - {slot}), f);
    }
  }

  lemma NothingFreed(q: Queue, slot: int, known: set<int>)
    requires Accounted(q) && slot !in q.held
    ensures Accounted(q.(held := q.held - {slot}, known := known, freed := q.freed + {}))
  {
    var q' := q.(held := q.held - {slot}, known := known, freed := q.freed + {});
    assert q'.held == q.held && q'.freed == q.freed;
    forall f: nat
      ensures HeldFrame(q', f) <==> HeldFrame(q, f)
      ensures ReleasedFrame(q', f) <==> ReleasedFrame(q, f)
    {
    }
  }

  lemma FrameReleased(q: Queue, slot: int, r: Release)
    requires Accounted(q) && OneSlotEach(q) && slot in q.held && r.frame == q.held[slot]
    ensures Accounted(q.(held := q.held - {slot}, releases := q.releases + [r]))
  {
    var q' := q.(held := q.held - {slot}, releases := q.releases + [r]);
    assert HeldFrame(q, q.held[slot]);
    forall f: nat
      ensures HeldFrame(q', f) <==> HeldFrame(q, f) && f != q.held[slot]
      ensures ReleasedFrame(q', f) <==> ReleasedFrame(q, f) || f == q.held[slot]
    {
      FrameLeaves(q, slot, f);
      assert HeldFrame(q', f) <==> HeldFrame(q.(held := q.held - {slot}), f);
      if i :| 0 <= i < |q.releases| && q.releases[i].frame == f { assert q'.releases[i].frame == f; }
      assert q'.releases[|q.releases|] == r;
    }
  }

  lemma FrameAcquired(s: State, slot: int, buffer: nat, outcome: Outcome)
    requires Accounted(s.queue) && slot !in s.queue.held
    ensures Accounted(AcquireBuffer(s, slot, buffer, outcome).queue)
  {
    var q, q' := s.queue, AcquireBuffer(s, slot, buffer, outcome).queue;
    forall f: nat
      ensures HeldFrame(q', f) <==> HeldFrame(q, f) || f == |q.outcomes|
      ensures ReleasedFrame(q', f) <==> ReleasedFrame(q, f)
    {
      if x :| x in q.held && q.held[x] == f { assert x in q'.held && q'.held[x] == f; }
      assert q'.held[slot] == |q.outcomes|;
    }
  }

  lemma CommitAccounted(s: State)
    requires Accounted(s.queue) && OneSlotEach(s.queue)
    ensures Accounted(FrameCommitted(s).queue)
  {
    if s.hasPendingRelease && StillTracking(s, s.previousBufferSlot, s.previousBuffer) && s.queue.outcomes != [] {
      var slot := s.previousBufferSlot.value;
      if slot in s.queue.held {
        FrameReleased(s.queue, slot, Release(s.queue.held[slot], slot, |s.queue.outcomes| - 1, s.lastPresentFence));
      }
    }
  }

  lemma NextAccounted(s: State, slot: int, buffer: nat, outcome: Outcome)
    requires Sound(s) && Accounted(s.queue) && Enabled(s, Next(Item(slot, buffer), outcome))
    ensures Accounted(NextBuffer(s, slot, buffer, outcome).queue)
  {
    var t := AcquireBuffer(s, slot, buffer, outcome);
    FrameAcquired(s, slot, buffer, outcome);
    AcquireSound(s, slot, buffer, outcome);
    assert OneSlotEach(t.queue) by {
      assert AcquiredInPlace(t, slot) && AcquiredLast(t, slot, outcome);
    }
    hide Accounted, OneSlotEach, Sound, Acquired, ReleaseBuffer, AcquireBuffer;
    CommitAccounted(if outcome.Presented? then t.(lastPresentFence := Some(outcome.fence)) else t);
  }

  /** Over every run: no frame is lost, released twice, or released and freed. */
  lemma {:induction false} EveryFrameAccounted(ops: seq<Op>)
    requires Legal(ops)
    ensures Accounted(Run(ops).queue)
  {
    if ops != [] {
      var init, op := ops[..|ops| - 1], ops[|ops| - 1];
      EveryFrameAccounted(init);
      RunSound(init);
      var s := Run(init);
      SoundOneSlotEach(s);
      hide Accounted, Sound, OneSlotEach, Run, NextBuffer;
      match op
      case Next(Item(slot, buffer), outcome) => NextAccounted(s, slot, buffer, outcome);
      case Next(_, _) =>
      case QueueFree(slot) =>
        if slot in s.queue.held {
          FrameFreed(s.queue, slot, s.queue.known - {slot});
        } else {
          NothingFreed(s.queue, slot, s.queue.known - {slot});
        }
      case FreeCallback(slot) =>
    }
  }

  // ---------------------------------------------------------------- which fence a release carries

  /** The fence of the last presentation that succeeded among the first n. */
  function LastFence(outcomes: seq<Outcome>, n: nat): Option<nat>
    requires n <= |outcomes|
  {
    if n == 0 then None
    else if outcomes[n - 1].Presented? then Some(outcomes[n - 1].fence)
    else LastFence(outcomes, n - 1)
  }

  lemma {:induction false} LastFencePrefix(a: seq<Outcome>, b: seq<Outcome>, n: nat)
    requires n <= |a|
    ensures LastFence(a + b, n) == LastFence(a, n)
  {
    if n > 0 && !a[n - 1].Presented? { LastFencePrefix(a, b, n - 1); }
  }

  predicate FencesOf(q: Queue) {
    forall i | 0 <= i < |q.releases| ::
      q.releases[i].during < |q.outcomes| && q.releases[i].fence == LastFence(q.outcomes, q.releases[i].during + 1)
  }

  /** Every release carries the fence of the presentation it happens in, or of the last one before
      that succeeded. */
  predicate Fenced(s: State) {
    s.lastPresentFence == LastFence(s.queue.outcomes, |s.queue.outcomes|) && FencesOf(s.queue)
  }

  lemma AcquireFenced(s: State, slot: int, buffer: nat, outcome: Outcome)
    requires Fenced(s)
    ensures var t := AcquireBuffer(s, slot, buffer, outcome);
            && FencesOf(t.queue) && t.lastPresentFence == s.lastPresentFence
            && LastFence(t.queue.outcomes, |t.queue.outcomes|)
               == if outcome.Presented? then Some(outcome.fence) else s.lastPresentFence
  {
    var q, q' := s.queue, AcquireBuffer(s, slot, buffer, outcome).queue;
    LastFencePrefix(q.outcomes, [outcome], |q.outcomes|);
    forall i | 0 <= i < |q'.releases|
      ensures q'.releases[i].during < |q'.outcomes|
      ensures q'.releases[i].fence == LastFence(q'.outcomes, q'.releases[i].during + 1)
    {
      LastFencePrefix(q.outcomes, [outcome], q.releases[i].during + 1);
    }
  }

  lemma CommitFenced(s: State)
    requires Fenced(s)
    ensures Fenced(FrameCommitted(s))
  {
  }

  lemma {:induction false} RunFenced(ops: seq<Op>)
    requires Legal(ops)
    ensures Fenced(Run(ops))
  {
    if ops != [] {
      var s, op := Run(ops[..|ops| - 1]), ops[|ops| - 1];
      RunFenced(ops[..|ops| - 1]);
      hide Fenced, AcquireBuffer, FrameCommitted;
      if op.Next? && op.item.Item? {
        var t := AcquireBuffer(s, op.item.slot, op.item.buffer, op.outcome);
        AcquireFenced(s, op.item.slot, op.item.buffer, op.outcome);
        PresentFenced(t, op.outcome);
        LatchFenced(Present(t, op.outcome), op.item.slot, op.item.buffer);
      } else {
        OtherFenced(s, op);
      }
    }
  }

  /** A step of a surface whose frames go to an external device. */
  ghost predicate External(op: Op) {
    op.Next? ==> exists acquireFence, answers :: op == NextOp(true, op.item, acquireFence, answers)
  }

  lemma ExternalNotPresented(op: Op)
    requires External(op) && op.Next?
    ensures op.outcome.NotPresented?
  {
    var acquireFence, answers :| op == NextOp(true, op.item, acquireFence, answers);
    if op.item.Item? { PresentedIff(true, op.item.slot, op.item.buffer, acquireFence, answers); }
  }

  /** A surface whose frames go to an external device releases every buffer without a fence. */
  lemma {:induction false} ExternalHasNoFences(ops: seq<Op>, i: nat)
    requires Legal(ops) && (forall op | op in ops :: External(op)) && i < |Run(ops).queue.releases|
    ensures Run(ops).queue.releases[i].fence == None
  {
    RunFenced(ops);
    OutcomesOf(ops);
    hide Run, Legal, External;
    var q := Run(ops).queue;
    forall o | o in q.outcomes
      ensures o.NotPresented?
    {
      var op :| op in ops && op.Next? && op.outcome == o;
      ExternalNotPresented(op);
    }
    NeverPresented(q.outcomes, q.releases[i].during + 1);
  }

  lemma {:induction false} NeverPresented(outcomes: seq<Outcome>, n: nat)
    requires n <= |outcomes| && forall o | o in outcomes :: o.NotPresented?
    ensures LastFence(outcomes, n) == None
  {
    if n > 0 {
      assert outcomes[n - 1] in outcomes;
      NeverPresented(outcomes, n - 1);
    }
  }

  lemma PresentOutcomes(s: State, outcome: Outcome)
    ensures Present(s, outcome).queue.outcomes == s.queue.outcomes
  {
  }

  lemma StepOutcomes(s: State, op: Op)
    ensures Step(s, op).queue.outcomes
            == s.queue.outcomes + if op.Next? && op.item.Item? then [op.outcome] else []
  {
    hide Present;
    if op.Next? && op.item.Item? {
      PresentOutcomes(AcquireBuffer(s, op.item.slot, op.item.buffer, op.outcome), op.outcome);
    }
  }

  /** The queue's history holds the outcomes of the frames latched. */
  lemma {:induction false} OutcomesOf(ops: seq<Op>)
    ensures forall o | o in Run(ops).queue.outcomes :: exists op :: op in ops && op.Next? && op.outcome == o
  {
    if ops != [] {
      var init, op := ops[..|ops| - 1], ops[|ops| - 1];
      OutcomesOf(init);
      StepOutcomes(Run(init), op);
      hide Step;
      assert op in ops;
      forall o | o in Run(ops).queue.outcomes
        ensures exists op :: op in ops && op.Next? && op.outcome == o
      {
        if o in Run(init).queue.outcomes {
          var op' :| op' in init && op'.Next? && op'.outcome == o;
          assert op' in ops;
        } else {
          assert op.Next? && op.outcome == o;
        }
      }
    }
  }

  lemma PresentFenced(s: State, outcome: Outcome)
    requires FencesOf(s.queue)
    requires LastFence(s.queue.outcomes, |s.queue.outcomes|)
             == if outcome.Presented? then Some(outcome.fence) else s.lastPresentFence
    ensures Fenced(Present(s, outcome))
  {
    hide FrameCommitted, FencesOf;
    var t := if outcome.Presented? then s.(lastPresentFence := Some(outcome.fence)) else s;
    assert Fenced(t);
    CommitFenced(t);
  }

  lemma LatchFenced(s: State, slot: int, buffer: nat)
    requires Fenced(s)
    ensures Fenced(Latch(s, slot, buffer))
  {
  }

  lemma OtherFenced(s: State, op: Op)
    requires Fenced(s) && !(op.Next? && op.item.Item?)
    ensures Fenced(Step(s, op))
  {
  }

  // ---------------------------------------------------------------- which buffer is shown and handed back

  /** What happens to a surface, with everything it is given. */
  datatype Input =
    | Latching(item: Item, acquireFence: Option<nat>, answers: Answers)
    | SlotFreed(slot: int)
    | FreeSlot(slot: int)

  /** A frame acquired, and what the composer would answer about it. */
  datatype Frame = Frame(slot: int, buffer: nat, acquireFence: Option<nat>, answers: Answers)

  function OpOf(external: bool, input: Input): Op {
    match input
    case Latching(item, acquireFence, answers) => NextOp(external, item, acquireFence, answers)
    case SlotFreed(slot) => QueueFree(slot)
    case FreeSlot(slot) => FreeCallback(slot)
  }

  function OpsOf(external: bool, inputs: seq<Input>): (ops: seq<Op>)
    ensures |ops| == |inputs|
  {
    if inputs == [] then [] else OpsOf(external, inputs[..|inputs| - 1]) + [OpOf(external, inputs[|inputs| - 1])]
  }

  /** The frame an input brings, if any. */
  function Brings(input: Input): seq<Frame> {
    if input.Latching? && input.item.Item?
    then [Frame(input.item.slot, input.item.buffer, input.acquireFence, input.answers)] else []
  }

  /** The frames acquired in a run, in order. */
  function FramesOf(inputs: seq<Input>): seq<Frame> {
    if inputs == [] then [] else FramesOf(inputs[..|inputs| - 1]) + Brings(inputs[|inputs| - 1])
  }

  /** The calls made in a run, frame by frame. */
  function AskedIn(external: bool, inputs: seq<Input>): seq<seq<Call>> {
    if inputs == [] then []
    else
      var input := inputs[|inputs| - 1];
      AskedIn(external, inputs[..|inputs| - 1])
      + if input.Latching? then AskedFor(external, input.item, input.acquireFence, input.answers) else []
  }

  /** Calls about one frame and no other, none twice: every buffer and fence named is that frame's, a
      buffer is posted only after the wait for its fence, and presenting comes right after handing the
      buffer over. */
  predicate AboutFrame(calls: seq<Call>, f: Frame) {
    && (forall i, j | 0 <= i < j < |calls| :: calls[i] != calls[j])
    && forall i | 0 <= i < |calls| ::
         && (calls[i].Wait? ==> Some(calls[i].fence) == f.acquireFence)
         && (calls[i].Post? ==> calls[i].buffer == f.buffer)
         && (calls[i].Post? && f.acquireFence.Some? ==> i > 0 && calls[i - 1] == Wait(f.acquireFence.value))
         && (calls[i].SetClientTarget? ==> calls[i] == SetClientTarget(f.slot, f.buffer, f.acquireFence))
         && (calls[i].PresentDisplay? ==> i > 0 && calls[i - 1] == SetClientTarget(f.slot, f.buffer, f.acquireFence))
  }

  /** An external device is handed every frame, and the composer is left alone; otherwise the composer is
      asked to validate first, to accept exactly when it validated without a type or request to change,
      and to present exactly when it accepted. */
  ghost predicate AsAnswered(external: bool, calls: seq<Call>, a: Answers) {
    if external
    then (exists buffer :: Post(buffer) in calls) && forall call | call in calls :: call.Wait? || call.Post?
    else
      && calls != [] && calls[0] == ValidateDisplay && (forall call | call in calls :: !call.Wait? && !call.Post?)
      && (AcceptChanges in calls <==> a.validate != Refused && a.types == 0 && a.requests == 0)
      && (PresentDisplay in calls <==> AcceptChanges in calls && a.accept == Fine)
  }

  /** What was asked for each frame was about that frame and as the answers have it, and it counts as
      presented when the composer was asked to present it and did. */
  ghost predicate OwnCalls(external: bool, asked: seq<seq<Call>>, frames: seq<Frame>, outcomes: seq<Outcome>) {
    && |asked| == |frames| == |outcomes|
    && forall k | 0 <= k < |frames| ::
         && AboutFrame(asked[k], frames[k]) && AsAnswered(external, asked[k], frames[k].answers)
         && outcomes[k] == if PresentDisplay in asked[k] && frames[k].answers.present == Fine
                           then Presented(frames[k].answers.fence) else NotPresented
  }

  /** A slot held for a frame is the one that frame was acquired in and still has its buffer, and a
      buffer handed back as a frame is in the slot of that frame. */
  predicate OwnSlots(s: State, frames: seq<Frame>) {
    && |frames| == |s.queue.outcomes|
    && (forall slot | slot in s.queue.held ::
          && s.queue.held[slot] < |frames| && frames[s.queue.held[slot]].slot == slot
          && slot in s.tracked && s.tracked[slot] == frames[s.queue.held[slot]].buffer)
    && (forall i | 0 <= i < |s.queue.releases| ::
          && s.queue.releases[i].frame < |frames|
          && frames[s.queue.releases[i].frame].slot == s.queue.releases[i].slot)
  }

  /** Beyond that, the current buffer is the last frame's. */
  predicate OwnBuffers(s: State, frames: seq<Frame>) {
    OwnSlots(s, frames) && s.currentBuffer == if frames == [] then None else Some(frames[|frames| - 1].buffer)
  }

  lemma CallsAboutFrame(external: bool, f: Frame)
    ensures var calls := Calls(external, f.slot, f.buffer, f.acquireFence, f.answers);
            AboutFrame(calls, f) && AsAnswered(external, calls, f.answers)
  {
    var calls := Calls(external, f.slot, f.buffer, f.acquireFence, f.answers);
    if external {
      assert calls[|calls| - 1] == Post(f.buffer);
    } else if |calls| > 1 {
      assert calls[1] == AcceptChanges && (|calls| > 2 ==> calls[3] == PresentDisplay);
    }
  }

  lemma OwnCallsSnoc(external: bool, asked: seq<seq<Call>>, frames: seq<Frame>, outcomes: seq<Outcome>, f: Frame)
    requires OwnCalls(external, asked, frames, outcomes)
    ensures OwnCalls(external, asked + [Calls(external, f.slot, f.buffer, f.acquireFence, f.answers)], frames + [f],
                     outcomes + [OutcomeOf(external, f.slot, f.buffer, f.acquireFence, f.answers)])
  {
    CallsAboutFrame(external, f);
    hide AboutFrame, AsAnswered, Calls;
  }

  lemma AcquireOwn(s: State, frames: seq<Frame>, f: Frame, outcome: Outcome)
    requires OwnBuffers(s, frames) && Enabled(s, Next(Item(f.slot, f.buffer), outcome))
    ensures OwnSlots(AcquireBuffer(s, f.slot, f.buffer, outcome), frames + [f])
  {
  }

  lemma CommitOwn(s: State, frames: seq<Frame>)
    requires OwnSlots(s, frames)
    ensures OwnSlots(FrameCommitted(s), frames)
  {
  }

  lemma LatchOwn(s: State, frames: seq<Frame>, f: Frame)
    requires OwnSlots(s, frames) && frames != [] && frames[|frames| - 1] == f
    ensures OwnBuffers(Latch(s, f.slot, f.buffer), frames)
  {
  }

  lemma NextOwn(s: State, frames: seq<Frame>, f: Frame, outcome: Outcome)
    requires OwnBuffers(s, frames) && Enabled(s, Next(Item(f.slot, f.buffer), outcome))
    ensures OwnBuffers(NextBuffer(s, f.slot, f.buffer, outcome), frames + [f])
  {
    hide OwnBuffers, OwnSlots, Enabled, AcquireBuffer, FrameCommitted, Latch;
    var t := AcquireBuffer(s, f.slot, f.buffer, outcome);
    var u := if outcome.Presented? then t.(lastPresentFence := Some(outcome.fence)) else t;
    AcquireOwn(s, frames, f, outcome);
    assert OwnSlots(u, frames + [f]) by { SameBuffers(t, frames + [f], u.lastPresentFence); }
    CommitOwn(u, frames + [f]);
    LatchOwn(FrameCommitted(u), frames + [f], f);
  }

  lemma SameBuffers(s: State, frames: seq<Frame>, fence: Option<nat>)
    requires OwnSlots(s, frames)
    ensures OwnSlots(s.(lastPresentFence := fence), frames)
  {
  }

  lemma FreesOwn(s: State, frames: seq<Frame>, op: Op)
    requires Sound(s) && OwnBuffers(s, frames) && Enabled(s, op) && (op.Next? ==> !op.item.Item?)
    ensures OwnBuffers(Step(s, op), frames)
  {
    hide InOrder, HeldInPlace;
  }

  lemma RunSnoc(ops: seq<Op>, op: Op)
    ensures Run(ops + [op]) == Step(Run(ops), op)
    ensures Legal(ops + [op]) <==> Legal(ops) && Enabled(Run(ops), op)
  {
    assert (ops + [op])[..|ops|] == ops;
  }

  lemma InputSnoc(external: bool, inputs: seq<Input>, input: Input)
    ensures OpsOf(external, inputs + [input]) == OpsOf(external, inputs) + [OpOf(external, input)]
    ensures FramesOf(inputs + [input]) == FramesOf(inputs) + Brings(input)
    ensures AskedIn(external, inputs + [input])
            == AskedIn(external, inputs)
               + if input.Latching? then AskedFor(external, input.item, input.acquireFence, input.answers) else []
  {
    assert (inputs + [input])[..|inputs|] == inputs;
  }

  lemma InputOwn(external: bool, s: State, asked: seq<seq<Call>>, frames: seq<Frame>, input: Input)
    requires Sound(s) && OwnBuffers(s, frames) && OwnCalls(external, asked, frames, s.queue.outcomes)
    requires Enabled(s, OpOf(external, input))
    ensures var t := Step(s, OpOf(external, input));
            && OwnBuffers(t, frames + Brings(input))
            && OwnCalls(external,
                        asked + (if input.Latching?
                                 then AskedFor(external, input.item, input.acquireFence, input.answers) else []),
                        frames + Brings(input), t.queue.outcomes)
  {
    hide Sound, OwnBuffers, OwnCalls, Calls, OutcomeOf, Enabled, NextBuffer;
    var op := OpOf(external, input);
    StepOutcomes(s, op);
    if input.Latching? && input.item.Item? {
      var f := Frame(input.item.slot, input.item.buffer, input.acquireFence, input.answers);
      OwnCallsSnoc(external, asked, frames, s.queue.outcomes, f);
      NextOwn(s, frames, f, op.outcome);
    } else {
      assert asked + [] == asked && frames + [] == frames && s.queue.outcomes + [] == s.queue.outcomes;
      FreesOwn(s, frames, op);
    }
  }

  /** Over every run: what is shown during frame k is the buffer acquired as frame k, with its fence,
      and what is held or handed back as frame k is the slot it was acquired in. */
  lemma {:induction false} EveryFrameIsItsOwn(external: bool, inputs: seq<Input>)
    requires Legal(OpsOf(external, inputs))
    ensures var s, frames := Run(OpsOf(external, inputs)), FramesOf(inputs);
            && OwnCalls(external, AskedIn(external, inputs), frames, s.queue.outcomes)
            && OwnBuffers(s, frames)
  {
    if inputs != [] {
      hide Run, Legal, Sound, OwnCalls, OwnBuffers, OpsOf, FramesOf, AskedIn, OpOf, Step, Enabled;
      var init, input := inputs[..|inputs| - 1], inputs[|inputs| - 1];
      var ops := OpsOf(external, init);
      assert inputs == init + [input];
      InputSnoc(external, init, input);
      RunSnoc(ops, OpOf(external, input));
      EveryFrameIsItsOwn(external, init);
      RunSound(ops);
      InputOwn(external, Run(ops), AskedIn(external, init), FramesOf(init), input);
    }
  }

  // ---------------------------------------------------------------- one frame late

  lemma PresentKeepsCurrent(s: State, slot: int, buffer: nat, outcome: Outcome)
    requires Acquired(s, slot, buffer, outcome)
    ensures var t := Present(s, outcome);
            && t.currentSlot == s.currentSlot && t.currentBuffer == s.currentBuffer
            && (s.currentSlot.Some? && s.currentSlot.value in s.queue.held ==> s.currentSlot.value in t.queue.held)
  {
    hide InOrder, AcquiredInPlace;
  }

  /** What an acquire changes: the queue, and the current slot only when that is the one reused. */
  lemma AcquireKeepsCurrent(s: State, slot: int, buffer: nat, outcome: Outcome)
    requires Sound(s) && Enabled(s, Next(Item(slot, buffer), outcome))
    requires s.currentSlot.Some? && s.currentSlot.value in s.queue.held
    ensures var t := AcquireBuffer(s, slot, buffer, outcome);
            && t.currentSlot == s.currentSlot && t.currentBuffer == s.currentBuffer
            && s.currentSlot.value != slot && s.currentSlot.value in t.queue.held
  {
    hide InOrder, HeldInPlace;
  }

  lemma LatchesOver(s: State, slot: int, buffer: nat)
    ensures var t := Latch(s, slot, buffer);
            && t.queue == s.queue && t.currentSlot == Some(slot)
            && (s.currentSlot.Some? && s.currentSlot.value != slot ==>
                  t.hasPendingRelease && t.previousBufferSlot == s.currentSlot && t.previousBuffer == s.currentBuffer)
  {
  }

  /** Neither the frame being presented nor the one shown before it is taken back by presenting it. */
  lemma ShownBuffersStay(ops: seq<Op>, slot: int, buffer: nat, outcome: Outcome)
    requires Legal(ops) && Enabled(Run(ops), Next(Item(slot, buffer), outcome))
    ensures var s, t := Run(ops), NextBuffer(Run(ops), slot, buffer, outcome);
            && slot in t.queue.held && t.currentSlot == Some(slot)
            && (s.currentSlot.Some? && s.currentSlot.value in s.queue.held ==>
                  && s.currentSlot.value in t.queue.held && t.hasPendingRelease
                  && t.previousBufferSlot == s.currentSlot && t.previousBuffer == s.currentBuffer)
  {
    hide Run, Legal, Sound, Enabled, AcquireBuffer, AcquiredInPlace, AcquiredCoherent, InOrder, Present, Latch;
    RunSound(ops);
    var s := Run(ops);
    var t := AcquireBuffer(s, slot, buffer, outcome);
    AcquireSound(s, slot, buffer, outcome);
    PresentSound(t, slot, buffer, outcome);
    LatchesOver(Present(t, outcome), slot, buffer);
    if s.currentSlot.Some? && s.currentSlot.value in s.queue.held {
      AcquireKeepsCurrent(s, slot, buffer, outcome);
      PresentKeepsCurrent(t, slot, buffer, outcome);
    }
  }

  /** The shape of a run in which the producer frees nothing: after n frames the last two are held
      and every other has been released, each during the presentation of the second frame after it. */
  predicate Steady(s: State) {
    var q, n := s.queue, |s.queue.outcomes|;
    && q.freed == {}
    && (n >= 1 <==> s.currentSlot.Some?) && (n >= 2 <==> s.hasPendingRelease)
    && (n >= 1 ==> s.currentSlot.value in q.held && q.held[s.currentSlot.value] == n - 1)
    && (n >= 2 ==> s.previousBufferSlot.Some? && s.previousBufferSlot.value in q.held
                   && q.held[s.previousBufferSlot.value] == n - 2)
    && |q.releases| == (if n >= 2 then n - 2 else 0)
    && (forall k | 0 <= k < |q.releases| :: q.releases[k].frame == k && q.releases[k].during == k + 2)
  }

  /** The same between the acquire and the release that comes with presenting. */
  predicate SteadyAcquired(s: State, slot: int) {
    var q, n := s.queue, |s.queue.outcomes|;
    && q.freed == {} && n >= 1 && slot in q.held && q.held[slot] == n - 1
    && (n >= 2 <==> s.currentSlot.Some?) && (n >= 3 <==> s.hasPendingRelease)
    && (n >= 2 ==> s.currentSlot.value != slot && s.currentSlot.value in q.held && q.held[s.currentSlot.value] == n - 2)
    && (n >= 3 ==> s.previousBufferSlot.Some? && s.previousBufferSlot.value in q.held
                   && q.held[s.previousBufferSlot.value] == n - 3
                   && StillTracking(s, s.previousBufferSlot, s.previousBuffer))
    && |q.releases| == (if n >= 3 then n - 3 else 0)
    && (forall k | 0 <= k < |q.releases| :: q.releases[k].frame == k && q.releases[k].during == k + 2)
  }

  lemma SteadyAcquire(s: State, slot: int, buffer: nat, outcome: Outcome)
    requires Sound(s) && Steady(s) && Enabled(s, Next(Item(slot, buffer), outcome))
    ensures SteadyAcquired(AcquireBuffer(s, slot, buffer, outcome), slot)
  {
    hide InOrder, HeldInPlace;
  }

  lemma SteadyCommit(s: State, slot: int, buffer: nat, outcome: Outcome)
    requires SteadyAcquired(s, slot)
    ensures Steady(Latch(FrameCommitted(s), slot, buffer))
  {
    if s.hasPendingRelease {
      var t := FrameCommitted(s);
      assert t.currentSlot == s.currentSlot && |t.queue.releases| == |s.queue.releases| + 1;
    }
  }

  lemma SteadyStep(s: State, slot: int, buffer: nat, outcome: Outcome)
    requires Sound(s) && Steady(s) && Enabled(s, Next(Item(slot, buffer), outcome))
    ensures Steady(NextBuffer(s, slot, buffer, outcome))
  {
    hide Sound, Steady, Enabled, AcquireBuffer, FrameCommitted, Latch;
    var t := AcquireBuffer(s, slot, buffer, outcome);
    var u := if outcome.Presented? then t.(lastPresentFence := Some(outcome.fence)) else t;
    SteadyAcquire(s, slot, buffer, outcome);
    assert SteadyAcquired(u, slot);
    SteadyCommit(u, slot, buffer, outcome);
  }

  predicate Undisturbed(ops: seq<Op>) {
    forall op | op in ops :: op.Next?
  }

  lemma {:induction false} RunSteady(ops: seq<Op>)
    requires Legal(ops) && Undisturbed(ops)
    ensures Steady(Run(ops))
  {
    if ops != [] {
      var init, op := ops[..|ops| - 1], ops[|ops| - 1];
      RunSteady(init);
      RunSound(init);
      assert op in ops;
      if op.item.Item? { SteadyStep(Run(init), op.item.slot, op.item.buffer, op.outcome); }
    }
  }

  /** With no frees, the buffer of frame k is released during the presentation of frame k + 2, with
      the fence of that presentation or, if it failed, of the last one that succeeded. */
  lemma ReleasedOneFrameLate(ops: seq<Op>, k: nat)
    requires Legal(ops) && Undisturbed(ops) && k + 2 < |Run(ops).queue.outcomes|
    ensures var q := Run(ops).queue;
            && k < |q.releases| && q.releases[k].frame == k && q.releases[k].during == k + 2
            && q.releases[k].fence == LastFence(q.outcomes, k + 3)
  {
    RunSteady(ops);
    RunFenced(ops);
    hide Run, Legal;
  }
}
