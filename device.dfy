/** `Core::Device` (src/core/device.cpp, src/re_core/device.cpp): the
    logical device's queue families, the first-match queue requests, the
    per-family, per-thread command-pool map and the memory-type search.
    The driver's answers (queue-family properties, surface support, memory
    types) are inputs; a new command pool is named by the number of pools
    created before it. */
module Device {
  import opened Wrappers
  import opened Vk
  import opened FlagSets
  import Queue

  const NO_QUEUE := "Queue::RequestQueue : Failed to find queue with requested flags"
  const NO_PRESENT_QUEUE := "Device::RequestPresentQueue: Failed to find suitable present queue!"
  const NOT_INITIALIZED := "Device not initialized"

  /** `VK_MAX_MEMORY_TYPES`, the length of the memory-type array the search
      walks. */
  const MEMORY_TYPE_COUNT: nat := 32

  /** What the physical device reports for one queue family. */
  datatype FamilyProperties = FamilyProperties(queueFlags: Flags, queueCount: nat, canPresent: bool)

  /** `std::unordered_map<u32, std::unordered_map<u32, vk::CommandPool>>`:
      family index to thread id to pool. */
  type Pools = map<nat, map<nat, nat>>

  /** `emplace`: stores the pool only when the thread has none yet. */
  function Emplace(pools: map<nat, nat>, thread: nat, pool: nat): map<nat, nat>
  {
    if thread in pools then pools else pools[thread := pool]
  }

  /** The constructor's `m_commandPools[index] = {}` for families `0 .. n-1`. */
  function EmptyPools(n: nat): (m: Pools)
    ensures forall i: nat :: i in m <==> i < n
    ensures forall i :: i in m ==> m[i] == map[]
  {
    if n == 0 then map[] else EmptyPools(n - 1)[n - 1 := map[]]
  }

  /** `RunSingleTimeCommand`'s thread key: 0 on the main thread, the
      thread's own id elsewhere. */
  function ThreadKey(onMainThread: bool, threadId: nat): (k: nat)
    ensures onMainThread ==> k == 0
    ensures !onMainThread ==> k == threadId
  {
    if onMainThread then 0 else threadId
  }

  /** Whether memory type `i` may back an allocation: bit `i` of the filter
      is set and the type has every requested property. */
  predicate MemoryTypeFits(typeFilter: bv32, properties: Flags, memoryTypes: seq<Flags>, i: nat)
    requires i < |memoryTypes| && i < 32
  {
    typeFilter & ((1 as bv32) << i) != 0 && Covers(memoryTypes[i], properties)
  }

  /** `FindMemoryType` (identical in both device files): the lowest fitting
      memory type, or none. */
  method FindMemoryType(typeFilter: bv32, properties: Flags, memoryTypes: seq<Flags>) returns (r: Option<nat>)
    requires |memoryTypes| == MEMORY_TYPE_COUNT
    ensures r.Some? ==> r.value < MEMORY_TYPE_COUNT && MemoryTypeFits(typeFilter, properties, memoryTypes, r.value)
    ensures r.Some? ==> forall j :: 0 <= j < r.value ==> !MemoryTypeFits(typeFilter, properties, memoryTypes, j)
    ensures r.None? <==> forall j :: 0 <= j < MEMORY_TYPE_COUNT ==> !MemoryTypeFits(typeFilter, properties, memoryTypes, j)
  {
    var i := 0;
    while i < MEMORY_TYPE_COUNT
      invariant i <= MEMORY_TYPE_COUNT
      invariant forall j :: 0 <= j < i ==> !MemoryTypeFits(typeFilter, properties, memoryTypes, j)
    {
      if typeFilter & ((1 as bv32) << i) != 0 && memoryTypes[i] & properties == properties {
        assert MemoryTypeFits(typeFilter, properties, memoryTypes, i);
        return Some(i);
      }
      i := i + 1;
    }
    return None;
  }

  /** A family that would hand out a queue of the requested kind. */
  predicate Offers(f: Queue.Family, queueType: Flags)
    reads f
  {
    f.queueFlags & queueType != 0 && f.remainingQueues > 0
  }

  /** A family that would hand out a present queue. */
  predicate OffersPresent(f: Queue.Family)
    reads f
  {
    f.canPresent && f.remainingQueues > 0
  }

  /** Builds one family per reported property, numbered by position. */
  method MakeFamilies(props: seq<FamilyProperties>) returns (families: seq<Queue.Family>)
    ensures |families| == |props|
    ensures forall i :: 0 <= i < |families| ==> fresh(families[i]) && families[i].Valid()
    ensures forall i :: 0 <= i < |families| ==>
      families[i].index == i && families[i].queueFlags == props[i].queueFlags &&
      families[i].queueCount == props[i].queueCount && families[i].canPresent == props[i].canPresent &&
      families[i].remainingQueues == props[i].queueCount && families[i].inUse == {}
    ensures forall i, j :: 0 <= i < j < |families| ==> families[i] != families[j]
  {
    families := [];
    while |families| < |props|
      invariant |families| <= |props|
      invariant forall i :: 0 <= i < |families| ==> fresh(families[i]) && families[i].Valid()
      invariant forall i :: 0 <= i < |families| ==>
        families[i].index == i && families[i].queueFlags == props[i].queueFlags &&
        families[i].queueCount == props[i].queueCount && families[i].canPresent == props[i].canPresent &&
        families[i].remainingQueues == props[i].queueCount && families[i].inUse == {}
      invariant forall i, j :: 0 <= i < j < |families| ==> families[i] != families[j]
    {
      var i := |families|;
      var f := new Queue.Family(i, props[i].queueCount, props[i].queueFlags, props[i].canPresent);
      families := families + [f];
    }
  }

  /** `g_device` and `GlobalDevice` (src/re_core/device.cpp:21-27). */
  class Registry {
    var device: Option<Device>

    constructor ()
      ensures device == None
    {
      device := None;
    }

    function GlobalDevice(): (r: Result<Device>)
      reads this
      ensures r.Ok? <==> device.Some?
      ensures r.Err? ==> r.msg == NOT_INITIALIZED
      ensures r.Ok? ==> r.value == device.value
    {
      if device.None? then Err(NOT_INITIALIZED) else Ok(device.value)
    }
  }

  class Device {
    const families: seq<Queue.Family>
    var commandPools: Pools
    /** How many command pools have been created; the next one is named by it. */
    var poolsCreated: nat

    /** Families are distinct, valid and numbered by position, and every
        family, and only a family, has an entry in the pool map. */
    ghost predicate Valid()
      reads this, families
    {
      (forall i :: 0 <= i < |families| ==> families[i].Valid() && families[i].index == i) &&
      (forall i, j :: 0 <= i < j < |families| ==> families[i] != families[j]) &&
      forall i: nat :: i in commandPools <==> i < |families|
    }

    /** The device constructor: one family per reported family, an empty
        pool map per family, the main thread's pools, and finally the
        global pointer. */
    constructor (props: seq<FamilyProperties>, registry: Registry)
      modifies registry
      ensures Valid()
      ensures |families| == |props| && fresh(families)
      ensures forall i :: 0 <= i < |families| ==>
        families[i].queueFlags == props[i].queueFlags && families[i].queueCount == props[i].queueCount &&
        families[i].canPresent == props[i].canPresent &&
        families[i].remainingQueues == props[i].queueCount && families[i].inUse == {}
      ensures forall i :: 0 <= i < |families| ==> commandPools[i] == map[0 := i]
      ensures poolsCreated == |props|
      ensures registry.GlobalDevice() == Ok(this)
    {
      var fs := MakeFamilies(props);
      families := fs;
      commandPools := EmptyPools(|fs|);
      poolsCreated := 0;
      new;
      CreateCommandPools(0);
      registry.device := Some(this);
    }

    /** The destructor: the global pointer is cleared first, then the main
        thread's pools are freed. */
    method Destroy(registry: Registry)
      requires Valid()
      modifies this`commandPools, registry
      ensures Valid()
      ensures registry.GlobalDevice() == Err(NOT_INITIALIZED)
      ensures forall i :: 0 <= i < |families| ==> commandPools[i] == old(commandPools)[i] - {0}
    {
      registry.device := None;
      FreeCommandPools(0);
    }

    /** `CreateCommandPools`: every family gets a pool for the thread; a
        thread that already has one keeps it. */
    method CreateCommandPools(thread: nat)
      requires Valid()
      modifies this`commandPools, this`poolsCreated
      ensures Valid()
      ensures poolsCreated == old(poolsCreated) + |families|
      ensures forall i :: 0 <= i < |families| ==>
        commandPools[i] == Emplace(old(commandPools)[i], thread, old(poolsCreated) + i)
      ensures forall i :: 0 <= i < |families| ==> CommandPool(i, thread).Some?
    {
      var i := 0;
      while i < |families|
        invariant i <= |families|
        invariant commandPools.Keys == old(commandPools).Keys
        invariant poolsCreated == old(poolsCreated) + i
        invariant forall j :: 0 <= j < i ==>
          commandPools[j] == Emplace(old(commandPools)[j], thread, old(poolsCreated) + j)
        invariant forall j :: i <= j < |families| ==> commandPools[j] == old(commandPools)[j]
      {
        commandPools := commandPools[i := Emplace(commandPools[i], thread, poolsCreated)];
        poolsCreated := poolsCreated + 1;
        i := i + 1;
      }
    }

    /** `FreeCommandPools`: every family drops the thread's pool. */
    method FreeCommandPools(thread: nat)
      requires Valid()
      modifies this`commandPools
      ensures Valid()
      ensures forall i :: 0 <= i < |families| ==> commandPools[i] == old(commandPools)[i] - {thread}
      ensures forall i :: 0 <= i < |families| ==> CommandPool(i, thread).None?
    {
      var i := 0;
      while i < |families|
        invariant i <= |families|
        invariant commandPools.Keys == old(commandPools).Keys
        invariant forall j :: 0 <= j < i ==> commandPools[j] == old(commandPools)[j] - {thread}
        invariant forall j :: i <= j < |families| ==> commandPools[j] == old(commandPools)[j]
      {
        commandPools := commandPools[i := commandPools[i] - {thread}];
        i := i + 1;
      }
    }

    /** The pool `RequestCommandBuffer` allocates from: the double `at`
        lookup, which fails for a family or thread without a pool. */
    function CommandPool(familyIndex: nat, thread: nat): (r: Option<nat>)
      reads this
      ensures r.Some? <==> familyIndex in commandPools && thread in commandPools[familyIndex]
      ensures r.Some? ==> r.value == commandPools[familyIndex][thread]
    {
      if familyIndex in commandPools && thread in commandPools[familyIndex]
      then Some(commandPools[familyIndex][thread])
      else None
    }

    /** Family `j` is the first one that would hand out a queue of the type. */
    ghost predicate FirstOffering(j: nat, queueType: Flags)
      reads this, families
      requires j < |families|
    {
      Offers(families[j], queueType) && forall k :: 0 <= k < j ==> !Offers(families[k], queueType)
    }

    /** `RequestQueue`: the first family whose flags meet the request and
        that still has a queue hands one out; the others are untouched. */
    method RequestQueue(queueType: Flags) returns (r: Result<Queue.QueueRef>)
      requires Valid()
      modifies families
      ensures Valid()
      ensures r.Ok? ==> r.value.family < |families| && old(Offers(families[r.value.family], queueType))
      ensures r.Ok? ==> forall j :: 0 <= j < r.value.family ==> !old(Offers(families[j], queueType))
      ensures r.Ok? ==>
        var f := families[r.value.family];
        r.value.index !in old(f.inUse) && r.value.index < f.queueCount &&
        f.inUse == old(f.inUse) + {r.value.index} && f.remainingQueues == old(f.remainingQueues) - 1
      ensures r.Ok? ==> forall j :: 0 <= j < |families| && j != r.value.family ==> unchanged(families[j])
      ensures r.Err? <==> forall j :: 0 <= j < |families| ==> !old(Offers(families[j], queueType))
      ensures r.Err? ==> r.msg == NO_QUEUE && forall j :: 0 <= j < |families| ==> unchanged(families[j])
    {
      var i := 0;
      while i < |families|
        invariant i <= |families|
        invariant forall j :: 0 <= j < i ==> !old(Offers(families[j], queueType))
        invariant forall j :: 0 <= j < |families| ==> unchanged(families[j])
      {
        if families[i].queueFlags & queueType != 0 {
          var q := families[i].RequestQueue();
          if q.Ok? {
            return q;
          }
        }
        i := i + 1;
      }
      return Err(NO_QUEUE);
    }

    /** `RequestPresentQueue`: the first family that can present and still
        has a queue hands one out. */
    method RequestPresentQueue() returns (r: Result<Queue.QueueRef>)
      requires Valid()
      modifies families
      ensures Valid()
      ensures r.Ok? ==> r.value.family < |families| && old(OffersPresent(families[r.value.family]))
      ensures r.Ok? ==> forall j :: 0 <= j < r.value.family ==> !old(OffersPresent(families[j]))
      ensures r.Ok? ==>
        var f := families[r.value.family];
        r.value.index !in old(f.inUse) && r.value.index < f.queueCount &&
        f.inUse == old(f.inUse) + {r.value.index} && f.remainingQueues == old(f.remainingQueues) - 1
      ensures r.Ok? ==> forall j :: 0 <= j < |families| && j != r.value.family ==> unchanged(families[j])
      ensures r.Err? <==> forall j :: 0 <= j < |families| ==> !old(OffersPresent(families[j]))
      ensures r.Err? ==> r.msg == NO_PRESENT_QUEUE && forall j :: 0 <= j < |families| ==> unchanged(families[j])
    {
      var i := 0;
      while i < |families|
        invariant i <= |families|
        invariant forall j :: 0 <= j < i ==> !old(OffersPresent(families[j]))
        invariant forall j :: 0 <= j < |families| ==> unchanged(families[j])
      {
        var q := families[i].RequestPresentQueue();
        if q.Ok? {
          return q;
        }
        i := i + 1;
      }
      return Err(NO_PRESENT_QUEUE);
    }

    /** `RunSingleTimeCommand` without the recording and submission: the
        queue it requests is destroyed again when it returns, so every
        family ends as it started; it fails when no queue fits or the
        thread has no pool in the chosen family. */
    method RunSingleTimeCommand(queueType: Flags, onMainThread: bool, threadId: nat) returns (r: Result<nat>)
      requires Valid()
      modifies families
      ensures Valid()
      ensures forall j :: 0 <= j < |families| ==>
        families[j].inUse == old(families[j].inUse) && families[j].remainingQueues == old(families[j].remainingQueues)
      ensures (forall j :: 0 <= j < |families| ==> !old(Offers(families[j], queueType))) ==> r == Err(NO_QUEUE)
      ensures forall j :: 0 <= j < |families| && old(FirstOffering(j, queueType)) ==>
        r == (if CommandPool(j, ThreadKey(onMainThread, threadId)).Some?
              then Ok(CommandPool(j, ThreadKey(onMainThread, threadId)).value)
              else Err(POOL_MISSING))
    {
      var q := RequestQueue(queueType);
      if q.Err? {
        return Err(q.msg);
      }
      var family := q.value.family;
      var pool := CommandPool(family, ThreadKey(onMainThread, threadId));
      families[family].ReleaseQueue(q.value.index);
      if pool.None? {
        return Err(POOL_MISSING);
      }
      r := Ok(pool.value);
    }
  }

  const POOL_MISSING := "unordered_map::at: key not found"

  /** Creating a thread's pools and freeing them again leaves every other
      thread's pools as they were. */
  lemma CreateThenFree(pools: map<nat, nat>, thread: nat, pool: nat)
    ensures Emplace(pools, thread, pool) - {thread} == pools - {thread}
    ensures thread in Emplace(pools, thread, pool)
  {
  }
}
