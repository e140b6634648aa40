/** Which queue the batches go through, and whether the service has it: the writer replaces a queue
    that is too small, the proxy offers the new one to the service, and the service may refuse. */
module InputQueues {
  import opened Words
  import opened ReaderState

  /** One batch, as far as the queue is concerned: the capacity of the buffer, whether a queue of that
      capacity could be set up, and what the service would say to it. */
  datatype Attempt = Attempt(maxSize: uint32, queueOk: bool, inputQueueError: int32)

  /** The capacity of the writer's queue, if there is one, and whether the service holds it. */
  datatype Queues = Queues(capacity: Option<uint32>, shared: bool)

  const NO_QUEUE := Queues(None, false)

  predicate Fits(q: Queues, a: Attempt) {
    q.capacity.Some? && a.maxSize <= q.capacity.value
  }

  /** The batch is sent: its queue is large enough, or a new one was set up and accepted. */
  predicate Ships(q: Queues, a: Attempt) {
    Fits(q, a) || (a.queueOk && a.inputQueueError == NO_ERROR)
  }

  /** A refused queue stays the writer's queue; it is not offered again while it is large enough. */
  function Prepared(q: Queues, a: Attempt): Queues {
    if Fits(q, a) || !a.queueOk then q else Queues(Some(a.maxSize), a.inputQueueError == NO_ERROR)
  }

  function After(run: seq<Attempt>, n: nat): Queues
    requires n <= |run|
  {
    if n == 0 then NO_QUEUE else Prepared(After(run, n - 1), run[n - 1])
  }

  lemma {:induction false} AfterPrefix(run: seq<Attempt>, more: seq<Attempt>, n: nat)
    requires n <= |run|
    ensures After(run + more, n) == After(run, n)
  {
    if n > 0 { AfterPrefix(run, more, n - 1); }
  }

  lemma AfterSnoc(run: seq<Attempt>, a: Attempt)
    ensures After(run + [a], |run| + 1) == Prepared(After(run, |run|), a)
  {
    AfterPrefix(run, [a], |run|);
  }

  // ---------------------------------------------------------------- the queue in use

  /** Batch i set up the queue in use after the first n: its buffer was larger than that of every
      earlier batch a queue could be set up for, and as large as that of every later one. */
  predicate InUse(run: seq<Attempt>, i: nat, n: nat) {
    && i < n <= |run| && run[i].queueOk
    && (forall j | 0 <= j < i && run[j].queueOk :: run[j].maxSize < run[i].maxSize)
    && (forall j | i < j < n && run[j].queueOk :: run[j].maxSize <= run[i].maxSize)
  }

  lemma InUseUnique(run: seq<Attempt>, i: nat, j: nat, n: nat)
    requires InUse(run, i, n) && InUse(run, j, n)
    ensures i == j
  {
  }

  lemma {:induction false} QueueInUse(run: seq<Attempt>, n: nat) returns (i: Option<nat>)
    requires n <= |run|
    ensures i.None? ==> After(run, n) == NO_QUEUE && forall j | 0 <= j < n :: !run[j].queueOk
    ensures i.Some? ==> InUse(run, i.value, n) && After(run, n) == Queues(Some(run[i.value].maxSize),
                                                                          run[i.value].inputQueueError == NO_ERROR)
  {
    if n == 0 {
      i := None;
    } else {
      i := QueueInUse(run, n - 1);
      if !Fits(After(run, n - 1), run[n - 1]) && run[n - 1].queueOk {
        if i.Some? {
          forall j | 0 <= j < n - 1 && run[j].queueOk
            ensures run[j].maxSize < run[n - 1].maxSize
          {
            assert run[j].maxSize <= run[i.value].maxSize;
          }
        }
        i := Some(n - 1);
      }
    }
  }

  /** Over every run of batches: a batch that is sent reaches a queue the service holds exactly when
      the service accepted the queue in use, a matter of the capacities and answers so far. */
  lemma SentToSharedQueueIff(run: seq<Attempt>, n: nat)
    requires n < |run| && Ships(After(run, n), run[n])
    ensures After(run, n + 1).shared
            <==> exists i: nat :: InUse(run, i, n + 1) && run[i].inputQueueError == NO_ERROR
  {
    var i := QueueInUse(run, n + 1);
    if j: nat :| InUse(run, j, n + 1) && run[j].inputQueueError == NO_ERROR {
      if i.Some? { InUseUnique(run, i.value, j, n + 1); }
    }
  }

  /** Over every run of batches: a batch is sent through a queue the service does not have exactly
      when it fits the queue in use and the service refused that one earlier. */
  lemma StrandedIff(run: seq<Attempt>, n: nat)
    requires n < |run|
    ensures Ships(After(run, n), run[n]) && !After(run, n + 1).shared
            <==> exists i: nat :: InUse(run, i, n) && run[i].inputQueueError != NO_ERROR
                                  && run[n].maxSize <= run[i].maxSize
  {
    var i := QueueInUse(run, n);
    if j: nat :| InUse(run, j, n) && run[j].inputQueueError != NO_ERROR && run[n].maxSize <= run[j].maxSize {
      if i.Some? { InUseUnique(run, i.value, j, n); }
    }
  }

  /** The shortest such run: the service refuses the first queue, and the second batch is sent through
      it, although the service would now accept one. */
  lemma RefusedQueueIsUsed()
    ensures var run := [Attempt(8, true, 6), Attempt(8, true, NO_ERROR)];
            !Ships(After(run, 0), run[0]) && Ships(After(run, 1), run[1]) && !After(run, 2).shared
  {
    var run := [Attempt(8, true, 6), Attempt(8, true, NO_ERROR)];
    assert After(run, 0) == NO_QUEUE;
    assert After(run, 1) == Queues(Some(8), false);
  }
}
