/** `Queue::Family` and the `Queue` constructor and destructor
    (src/re_core/queue.cpp, src/core/device.cpp:20-49). A family owns a
    fixed number of hardware queues; constructing a `Queue` takes one and
    destroying it gives it back.

    The source numbers a new queue `queueCount - remainingQueues`, which is
    right only while queues come back in the reverse order they were taken
    (see `AsWrittenIndex` and `OutOfOrderReleaseSharesIndex`). The family
    here hands out the lowest index no live queue holds: the same numbers
    0, 1, 2, ... in last-in-first-out use, and never one index twice. */
module Queue {
  import opened Wrappers
  import opened Vk

  const NO_MORE_QUEUES := "Queue::Queue : No more queues available in this family"
  const REQUEST_PREFIX := "QueueFamily::RequestQueue : \n"
  const CANNOT_PRESENT := "QueueFamily::RequestPresentQueue : Queue family cannot present"

  /** A queue as handed out: its family's index and its index in the family. */
  datatype QueueRef = QueueRef(family: nat, index: nat)

  /** The indices `0 .. n-1`. */
  function Below(n: nat): (r: set<nat>)
    ensures forall i: nat :: i in r <==> i < n
    ensures |r| == n
  {
    if n == 0 then {} else Below(n - 1) + {n - 1}
  }

  /** The index the source gives a new queue. */
  function AsWrittenIndex(queueCount: nat, remainingQueues: nat): int
  {
    queueCount - remainingQueues
  }

  /** With two queues, take A and B, give A back and take C: C gets B's
      index while B is still live. */
  lemma OutOfOrderReleaseSharesIndex()
    ensures var a := AsWrittenIndex(2, 2);
            var b := AsWrittenIndex(2, 1);
            var c := AsWrittenIndex(2, 2 - 1);
            a == 0 && b == 1 && c == b
  {
  }

  /** The lowest index not held by a live queue. When every index below
      `queueCount` is held there is none, which only happens when the
      family is exhausted. */
  method LowestFree(inUse: set<nat>, queueCount: nat) returns (i: nat)
    requires forall q :: q in inUse ==> q < queueCount
    requires |inUse| < queueCount
    ensures i < queueCount && i !in inUse
    ensures forall j: nat :: j < i ==> j in inUse
  {
    i := 0;
    while i in inUse
      invariant i < queueCount
      invariant forall j: nat :: j < i ==> j in inUse
      decreases queueCount - i
    {
      if i + 1 == queueCount {
        AllHeld(inUse, queueCount);
        assert false;
      }
      i := i + 1;
    }
  }

  /** A family whose every index is held has no queue left. */
  lemma AllHeld(inUse: set<nat>, queueCount: nat)
    requires forall q :: q in inUse ==> q < queueCount
    requires forall j: nat :: j < queueCount ==> j in inUse
    ensures |inUse| == queueCount
  {
    assert inUse == Below(queueCount);
  }

  /** When queues have come back last-in-first-out, the live indices are
      exactly `0 .. live-1` and the lowest free index is the one the source
      computes. */
  lemma StackOrderAgrees(inUse: set<nat>, queueCount: nat, remainingQueues: nat, i: nat)
    requires remainingQueues <= queueCount
    requires inUse == Below(queueCount - remainingQueues)
    requires i !in inUse && forall j: nat :: j < i ==> j in inUse
    ensures i == AsWrittenIndex(queueCount, remainingQueues)
  {
    var live := queueCount - remainingQueues;
    var held := live in inUse;
  }

  class Family {
    const index: nat
    const queueCount: nat
    const queueFlags: Flags
    const canPresent: bool
    var remainingQueues: nat
    /** The indices of this family's live queues. */
    var inUse: set<nat>

    /** Every live queue holds a distinct index below the count, and the
        counter counts the queues not yet taken. */
    ghost predicate Valid()
      reads this
    {
      (forall q :: q in inUse ==> q < queueCount) &&
      remainingQueues + |inUse| == queueCount
    }

    constructor (index: nat, queueCount: nat, queueFlags: Flags, canPresent: bool)
      ensures Valid()
      ensures this.index == index && this.queueCount == queueCount
      ensures this.queueFlags == queueFlags && this.canPresent == canPresent
      ensures remainingQueues == queueCount && inUse == {}
    {
      this.index, this.queueCount := index, queueCount;
      this.queueFlags, this.canPresent := queueFlags, canPresent;
      remainingQueues, inUse := queueCount, {};
    }

    /** `RequestQueue`: the `Queue` constructor, failing with the prefixed
        message when the family is exhausted. */
    method RequestQueue() returns (r: Result<QueueRef>)
      requires Valid()
      modifies this`remainingQueues, this`inUse
      ensures Valid()
      ensures old(remainingQueues) == 0 ==>
        r == Err(REQUEST_PREFIX + NO_MORE_QUEUES) && unchanged(this)
      ensures old(remainingQueues) > 0 ==>
        r.Ok? && r.value.family == index && r.value.index !in old(inUse) &&
        r.value.index < queueCount &&
        inUse == old(inUse) + {r.value.index} && remainingQueues == old(remainingQueues) - 1
      ensures old(remainingQueues) > 0 && old(inUse) == Below(queueCount - old(remainingQueues)) ==>
        r == Ok(QueueRef(index, AsWrittenIndex(queueCount, old(remainingQueues))))
    {
      if remainingQueues == 0 {
        return Err(REQUEST_PREFIX + NO_MORE_QUEUES);
      }
      r := Take();
    }

    /** `RequestPresentQueue`: refuses a family that cannot present, and is
        otherwise the `Queue` constructor. */
    method RequestPresentQueue() returns (r: Result<QueueRef>)
      requires Valid()
      modifies this`remainingQueues, this`inUse
      ensures Valid()
      ensures !canPresent ==> r == Err(CANNOT_PRESENT) && unchanged(this)
      ensures canPresent && old(remainingQueues) == 0 ==> r == Err(NO_MORE_QUEUES) && unchanged(this)
      ensures canPresent && old(remainingQueues) > 0 ==>
        r.Ok? && r.value.family == index && r.value.index !in old(inUse) &&
        r.value.index < queueCount &&
        inUse == old(inUse) + {r.value.index} && remainingQueues == old(remainingQueues) - 1
    {
      if !canPresent {
        return Err(CANNOT_PRESENT);
      }
      if remainingQueues == 0 {
        return Err(NO_MORE_QUEUES);
      }
      r := Take();
    }

    method Take() returns (r: Result<QueueRef>)
      requires Valid() && remainingQueues > 0
      modifies this`remainingQueues, this`inUse
      ensures Valid()
      ensures r.Ok? && r.value.family == index && r.value.index !in old(inUse)
      ensures r.value.index < queueCount
      ensures inUse == old(inUse) + {r.value.index} && remainingQueues == old(remainingQueues) - 1
      ensures old(inUse) == Below(queueCount - old(remainingQueues)) ==>
        r.value.index == AsWrittenIndex(queueCount, old(remainingQueues))
    {
      var i := LowestFree(inUse, queueCount);
      if inUse == Below(queueCount - remainingQueues) {
        StackOrderAgrees(inUse, queueCount, remainingQueues, i);
      }
      remainingQueues := remainingQueues - 1;
      inUse := inUse + {i};
      r := Ok(QueueRef(index, i));
    }

    /** The `Queue` destructor: the queue's index becomes free again. */
    method ReleaseQueue(q: nat)
      requires Valid() && q in inUse
      modifies this`remainingQueues, this`inUse
      ensures Valid()
      ensures inUse == old(inUse) - {q} && remainingQueues == old(remainingQueues) + 1
    {
      remainingQueues := remainingQueues + 1;
      inUse := inUse - {q};
    }
  }

  /** Requesting a queue and destroying it again leaves the family as it was. */
  method RequestThenRelease(f: Family)
    requires f.Valid()
    modifies f
    ensures f.Valid()
    ensures f.remainingQueues == old(f.remainingQueues) && f.inUse == old(f.inUse)
  {
    var r := f.RequestQueue();
    if r.Ok? {
      f.ReleaseQueue(r.value.index);
    }
  }
}
