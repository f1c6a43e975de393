/**
 * The bookkeeping of the Metal buffer back-end (Metal/Buffer.swift): immutable buffers, which
 * are numbered 1, 2, 3, ... in allocation order, and pools of mutable buffers, which hand out
 * their buffers in a ring and number them from 1.
 *
 * A Metal buffer is an identity (`GpuBuffer`); its bytes, the device and the semaphore that
 * throttles the ring are not modelled. Swift traps on arithmetic overflow and on an index out
 * of range, so those conditions are preconditions here.
 */
module MetalBuffer {
  import opened Wrappers
  import BufferDescriptor

  /** The pool size `allocateBuffer` gives every new pool. */
  const DefaultPoolSize := 25

  /** An `MTLBuffer` of `length` bytes. */
  class GpuBuffer {
    const length: nat

    constructor (length: nat)
      ensures this.length == length
    {
      this.length := length;
    }
  }

  /** Whether `size * count` fits in a `CUnsignedInt`, as the products of this file must. */
  predicate FitsU32(size: u32, count: u32)
  {
    size * count <= UINT_MAX
  }

  /** `Mobius_BufferPool.hash`: the product of the object size and count. */
  function Hash(size: u32, count: u32): (h: int)
    requires FitsU32(size, count)
    ensures 0 <= h <= UINT_MAX
    ensures size == 0 || count == 0 <==> h == 0
  {
    size * count
  }

  /** The ring position after the buffer at `next` is handed out from a pool of `size`. */
  function NextIndex(next: int, size: int): (n: int)
    requires size > 0 && next >= 0
    ensures 0 <= n < size && n <= next + 1
    ensures next < size ==> n == (if next + 1 == size then 0 else next + 1)
  {
    (next + 1) % size
  }

  /** A product of `size` lying strictly between `-size` and `size` is the zero product. */
  lemma MulBounds(size: int, d: int)
    requires size > 0 && -size < size * d < size
    ensures d == 0
  {
  }

  /** Any quotient-remainder split of `x` with the remainder in [0, size) is the one `%` gives. */
  lemma ModUnique(x: int, size: int, q: int, r: int)
    requires size > 0 && x == size * q + r && 0 <= r < size
    ensures x % size == r
  {
    var q', r' := x / size, x % size;
    assert size * (q - q') == r' - r;
    MulBounds(size, q - q');
  }

  /**
   * Outside the ring the advance is periodic: a position one whole ring further on advances to
   * the same position, so every non-negative position is reduced into the ring.
   */
  lemma NextIndexPeriodic(next: int, size: int)
    requires size > 0 && next >= size
    ensures NextIndex(next, size) == NextIndex(next - size, size)
  {
    var a := next + 1 - size;
    assert next + 1 == size * (a / size + 1) + a % size;
    ModUnique(next + 1, size, a / size + 1, a % size);
  }

  /** The identifier handed out after `id` by a ring of `size`: the next one, wrapping to 1. */
  function Successor(id: int, size: int): int
  {
    if id == size then 1 else id + 1
  }

  /** `ids` runs 1, 2, ..., size, 1, 2, ... from its start, within [1, size]. */
  ghost predicate Cyclic(ids: seq<int>, size: int)
  {
    && (forall k :: 0 <= k < |ids| ==> 1 <= ids[k] <= size)
    && (|ids| > 0 ==> ids[0] == 1)
    && (forall k :: 0 <= k < |ids| - 1 ==> ids[k + 1] == Successor(ids[k], size))
  }

  /** `Mobius_BufferPool`. */
  class BufferPool {
    var objectSize: u32
    var objectCount: u32
    /** `poolSize`: the ring length. */
    var poolSize: int
    /** `pool`: every buffer allocated, possibly more than the ring uses. */
    var pool: seq<GpuBuffer>
    /** `nextBuffer`: the index of the next buffer to hand out. */
    var nextBuffer: int
    /** The identifiers `getNextBuffer` returned so far, oldest first. */
    ghost var issued: seq<int>

    /** The indexing the source relies on: the next buffer and the whole ring lie inside `pool`. */
    predicate Valid()
      reads this
    {
      0 <= poolSize < |pool| && 0 <= nextBuffer < |pool|
    }

    /**
     * The state every pool `allocateBuffer` builds keeps: a ring of positive size whose
     * identifiers so far run 1, 2, ..., poolSize, 1, ..., and whose next position follows the last.
     */
    ghost predicate Ring()
      reads this
    {
      && Valid() && poolSize > 0 && nextBuffer < poolSize
      && Cyclic(issued, poolSize)
      && (|issued| == 0 ==> nextBuffer == 0)
      && (|issued| > 0 ==> nextBuffer + 1 == Successor(issued[|issued| - 1], poolSize))
    }

    /** `init`: an empty pool, then `allocatePools(poolSize)`. */
    constructor (objectSize: u32, objectCount: u32, poolSize: int)
      requires poolSize >= 0
      requires FitsU32(objectSize, objectCount)
      ensures this.objectSize == objectSize && this.objectCount == objectCount && this.poolSize == poolSize
      ensures |pool| == poolSize + 1 && nextBuffer == 0 && issued == []
      ensures forall k :: 0 <= k < |pool| ==> fresh(pool[k]) && pool[k].length == objectSize * objectCount
      ensures Valid() && (poolSize > 0 ==> Ring())
    {
      this.objectSize := objectSize;
      this.objectCount := objectCount;
      this.poolSize := 0;
      nextBuffer := 0;
      pool := [];
      issued := [];
      new;
      AllocatePools(poolSize);
    }

    /** `allocatePools`: appends `newPoolSize + 1` buffers (the range is inclusive) and sets the ring size. */
    method AllocatePools(newPoolSize: int)
      requires newPoolSize >= 0
      requires FitsU32(objectSize, objectCount)
      requires 0 <= nextBuffer <= |pool|
      modifies this
      ensures |pool| == |old(pool)| + newPoolSize + 1 && pool[..|old(pool)|] == old(pool)
      ensures forall k :: |old(pool)| <= k < |pool| ==> fresh(pool[k]) && pool[k].length == objectSize * objectCount
      ensures poolSize == newPoolSize
      ensures objectSize == old(objectSize) && objectCount == old(objectCount)
      ensures nextBuffer == old(nextBuffer) && issued == old(issued)
      ensures Valid()
    {
      var i := 0;
      while i <= newPoolSize
        invariant 0 <= i <= newPoolSize + 1
        invariant |pool| == |old(pool)| + i && pool[..|old(pool)|] == old(pool)
        invariant forall k :: |old(pool)| <= k < |pool| ==> fresh(pool[k]) && pool[k].length == objectSize * objectCount
        invariant objectSize == old(objectSize) && objectCount == old(objectCount)
        invariant nextBuffer == old(nextBuffer) && issued == old(issued) && poolSize == old(poolSize)
      {
        var buffer := new GpuBuffer(objectSize * objectCount);
        pool := pool + [buffer];
        i := i + 1;
      }
      poolSize := newPoolSize;
    }

    /**
     * `getNextBuffer`: hands out the buffer at `nextBuffer`, advances the ring and returns the
     * 1-based identifier of the buffer handed out. The modulo traps on an empty ring.
     */
    method GetNextBuffer() returns (id: int)
      requires Valid() && poolSize > 0
      modifies this
      ensures pool == old(pool) && poolSize == old(poolSize)
      ensures id == old(nextBuffer) + 1 && 1 <= id <= |pool|
      ensures nextBuffer == NextIndex(old(nextBuffer), poolSize)
      ensures issued == old(issued) + [id]
      ensures objectSize == old(objectSize) && objectCount == old(objectCount)
      ensures Valid()
      ensures old(Ring()) ==> Ring() && 1 <= id <= poolSize
      ensures old(Ring()) && |old(issued)| == 0 ==> id == 1
      ensures old(Ring()) && |old(issued)| > 0 ==> id == Successor(old(issued)[|old(issued)| - 1], poolSize)
    {
      var index := nextBuffer;
      nextBuffer := NextIndex(nextBuffer, poolSize);
      id := index + 1;
      issued := issued + [id];
    }

    /** `getBuffer`: the buffer with 1-based identifier `index`, when it lies in the ring. */
    function GetBuffer(index: int): (b: Option<GpuBuffer>)
      requires Valid()
      reads this
      ensures b.Some? <==> 1 <= index <= poolSize
      ensures b.Some? ==> b.value == pool[index - 1]
    {
      if index > 0 && index <= poolSize then Some(pool[index - 1]) else None
    }
  }

  /** `Mobius_BufferManager`: the buffers of one window's pipeline, or of the shared manager. */
  class BufferManager {
    const identifier: u32
    /** `immutableBuffers`: identifier k names `immutableBuffers[k - 1]`. */
    var immutableBuffers: seq<GpuBuffer>
    /** `bufferPools`, keyed by `Hash(objectSize, objectCount)`. */
    var bufferPools: map<int, BufferPool>

    /** Every pool is a ring of `DefaultPoolSize` buffers, as `allocateBuffer` builds them. */
    ghost predicate Valid()
      reads this, bufferPools.Values
    {
      forall h :: h in bufferPools ==> bufferPools[h].Ring() && bufferPools[h].poolSize == DefaultPoolSize
    }

    /** `init(device:identifier:)`: no buffers, then registration under `identifier`. */
    constructor (registry: Registry, identifier: u32)
      modifies registry
      ensures this.identifier == identifier && immutableBuffers == [] && bufferPools == map[]
      ensures registry.managers == old(registry.managers)[identifier := this]
      ensures registry.sharedManager == old(registry.sharedManager)
      ensures Valid()
    {
      this.identifier := identifier;
      immutableBuffers := [];
      bufferPools := map[];
      new;
      registry.managers := registry.managers[identifier := this];
    }

    /**
     * `allocateBuffer`: an Immutable buffer is appended and named by the new buffer count;
     * any other type gets a pool of `DefaultPoolSize` for its hash unless one exists already.
     */
    method AllocateBuffer(descriptor: BufferDescriptor.Descriptor) returns (out: BufferDescriptor.Descriptor)
      requires Valid()
      requires FitsU32(descriptor.objectCount, descriptor.objectSize)
      requires |immutableBuffers| < UINT_MAX
      modifies this
      ensures descriptor.bufferType == BufferDescriptor.Immutable ==>
                |immutableBuffers| == |old(immutableBuffers)| + 1
                && immutableBuffers[..|old(immutableBuffers)|] == old(immutableBuffers)
                && fresh(immutableBuffers[|old(immutableBuffers)|])
                && immutableBuffers[|old(immutableBuffers)|].length == descriptor.objectCount * descriptor.objectSize
                && out == descriptor.(identifier := |immutableBuffers|)
                && bufferPools == old(bufferPools)
      ensures descriptor.bufferType != BufferDescriptor.Immutable ==>
                out == descriptor && immutableBuffers == old(immutableBuffers)
                && Hash(descriptor.objectSize, descriptor.objectCount) in bufferPools
      ensures (descriptor.bufferType != BufferDescriptor.Immutable
               && Hash(descriptor.objectSize, descriptor.objectCount) in old(bufferPools)) ==> bufferPools == old(bufferPools)
      ensures (descriptor.bufferType != BufferDescriptor.Immutable
               && Hash(descriptor.objectSize, descriptor.objectCount) !in old(bufferPools)) ==>
                var fresh_pool := bufferPools[Hash(descriptor.objectSize, descriptor.objectCount)];
                bufferPools == old(bufferPools)[Hash(descriptor.objectSize, descriptor.objectCount) := fresh_pool]
                && fresh(fresh_pool) && fresh_pool.issued == []
                && fresh_pool.objectSize == descriptor.objectSize && fresh_pool.objectCount == descriptor.objectCount
                && |fresh_pool.pool| == DefaultPoolSize + 1
                && (forall k :: 0 <= k < |fresh_pool.pool| ==>
                      fresh(fresh_pool.pool[k])
                      && fresh_pool.pool[k].length == descriptor.objectSize * descriptor.objectCount)
      ensures Valid()
    {
      out := descriptor;
      if descriptor.bufferType == BufferDescriptor.Immutable {
        var buffer := new GpuBuffer(descriptor.objectCount * descriptor.objectSize);
        immutableBuffers := immutableBuffers + [buffer];
        out := out.(identifier := |immutableBuffers|);
      } else {
        var hash := Hash(descriptor.objectSize, descriptor.objectCount);
        if hash !in bufferPools {
          var pool := new BufferPool(descriptor.objectSize, descriptor.objectCount, DefaultPoolSize);
          bufferPools := bufferPools[hash := pool];
        }
      }
    }
  }

  /** The static state of `Mobius_BufferManager`: the managers by identifier and the shared one. */
  class Registry {
    /** `bufferManagers`. */
    var managers: map<u32, BufferManager>
    /** `sharedManager`. */
    var sharedManager: Option<BufferManager>

    constructor ()
      ensures managers == map[] && sharedManager == None
    {
      managers := map[];
      sharedManager := None;
    }

    /** `makeShared`: the shared manager, created and registered under `SharedManager` on first use. */
    method MakeShared() returns (m: BufferManager)
      modifies this
      ensures old(sharedManager).Some? ==> m == old(sharedManager).value && managers == old(managers)
      ensures old(sharedManager).None? ==>
                fresh(m) && m.identifier == BufferDescriptor.SharedManager && m.immutableBuffers == [] && m.bufferPools == map[]
                && managers == old(managers)[BufferDescriptor.SharedManager := m]
      ensures sharedManager == Some(m)
    {
      if sharedManager.None? {
        var created := new BufferManager(this, BufferDescriptor.SharedManager);
        sharedManager := Some(created);
      }
      m := sharedManager.value;
    }

    /** `getImmutableBuffer`: the buffer a descriptor names, if its manager and its identifier exist. */
    function GetImmutableBuffer(descriptor: BufferDescriptor.Descriptor): (b: Option<GpuBuffer>)
      reads this, managers.Values
      ensures b.Some? <==> (descriptor.manager in managers
                            && 1 <= descriptor.identifier <= |managers[descriptor.manager].immutableBuffers|)
      ensures b.Some? ==> b.value == managers[descriptor.manager].immutableBuffers[descriptor.identifier - 1]
    {
      if descriptor.manager !in managers then None
      else
        var manager := managers[descriptor.manager];
        if descriptor.identifier > 0 && descriptor.identifier <= |manager.immutableBuffers| then
          Some(manager.immutableBuffers[descriptor.identifier - 1])
        else None
    }

    /**
     * The lookups of a descriptor's pool compute its hash only once its manager is found, so
     * only then must the product of its size and count fit in 32 bits.
     */
    predicate CanHash(descriptor: BufferDescriptor.Descriptor)
      reads this
    {
      descriptor.manager in managers ==> FitsU32(descriptor.objectSize, descriptor.objectCount)
    }

    /** The pool a descriptor selects: its manager's pool for the hash of its size and count. */
    function PoolOf(descriptor: BufferDescriptor.Descriptor): (p: Option<BufferPool>)
      requires CanHash(descriptor)
      reads this, managers.Values
      ensures p.Some? <==> (descriptor.manager in managers
                            && Hash(descriptor.objectSize, descriptor.objectCount) in managers[descriptor.manager].bufferPools)
      ensures p.Some? ==> p.value == managers[descriptor.manager].bufferPools[Hash(descriptor.objectSize, descriptor.objectCount)]
    {
      if descriptor.manager !in managers then None
      else
        var pools := managers[descriptor.manager].bufferPools;
        var hash := Hash(descriptor.objectSize, descriptor.objectCount);
        if hash in pools then Some(pools[hash]) else None
    }

    /** `getMutableBuffer`: the pool buffer a descriptor's identifier names, if its pool exists. */
    function GetMutableBuffer(descriptor: BufferDescriptor.Descriptor): (b: Option<GpuBuffer>)
      requires CanHash(descriptor)
      requires PoolOf(descriptor).Some? ==> PoolOf(descriptor).value.Valid()
      reads this, managers.Values, if PoolOf(descriptor).Some? then {PoolOf(descriptor).value} else {}
      ensures b.Some? <==> PoolOf(descriptor).Some? && 1 <= descriptor.identifier <= PoolOf(descriptor).value.poolSize
      ensures b.Some? ==> b.value == PoolOf(descriptor).value.pool[descriptor.identifier - 1]
    {
      match PoolOf(descriptor)
      case None => None
      case Some(pool) => pool.GetBuffer(descriptor.identifier)
    }

    /**
     * `assignMutableBuffer`: 0 when the manager or the pool is missing; otherwise the identifier
     * the pool hands out next, which names the buffer at the pool's old ring position.
     */
    method AssignMutableBuffer(descriptor: BufferDescriptor.Descriptor) returns (id: int)
      requires CanHash(descriptor)
      requires descriptor.manager in managers ==> managers[descriptor.manager].Valid()
      modifies if PoolOf(descriptor).Some? then {PoolOf(descriptor).value} else {}
      ensures old(PoolOf(descriptor)).None? ==> id == 0
      ensures old(PoolOf(descriptor)).Some? ==>
                var pool := old(PoolOf(descriptor)).value;
                && id == old(pool.nextBuffer) + 1
                && pool.issued == old(pool.issued) + [id] && pool.Ring() && pool.poolSize == DefaultPoolSize
                && pool.pool == old(pool.pool)
                && pool.objectSize == old(pool.objectSize) && pool.objectCount == old(pool.objectCount)
      ensures 0 <= id <= DefaultPoolSize
      ensures descriptor.manager in managers ==> managers[descriptor.manager].Valid()
    {
      var found := PoolOf(descriptor);
      if found.None? {
        return 0;
      }
      var pool := found.value;
      var manager := managers[descriptor.manager];
      assert pool in manager.bufferPools.Values;
      id := pool.GetNextBuffer();
      forall h | h in manager.bufferPools
        ensures manager.bufferPools[h].Ring() && manager.bufferPools[h].poolSize == DefaultPoolSize
      {
        assert manager.bufferPools[h] in old(manager.bufferPools.Values);
      }
    }

    /**
     * `sMB_RNDR_BUF_assign`: only a Mutable descriptor is given the identifier of a pool buffer,
     * the one its pool hands out next; the descriptor then names that buffer.
     */
    method Assign(buffer: BufferDescriptor.Descriptor) returns (out: BufferDescriptor.Descriptor)
      requires buffer.bufferType == BufferDescriptor.Mutable ==> CanHash(buffer)
      requires buffer.bufferType == BufferDescriptor.Mutable && buffer.manager in managers ==> managers[buffer.manager].Valid()
      modifies if buffer.bufferType == BufferDescriptor.Mutable && PoolOf(buffer).Some? then {PoolOf(buffer).value} else {}
      ensures buffer.bufferType != BufferDescriptor.Mutable ==> out == buffer
      ensures buffer.bufferType != BufferDescriptor.Mutable && CanHash(buffer) && old(PoolOf(buffer)).Some? ==>
                unchanged(old(PoolOf(buffer)).value)
      ensures buffer.bufferType == BufferDescriptor.Mutable ==>
                out == buffer.(identifier := out.identifier) && 0 <= out.identifier <= DefaultPoolSize
                && (old(PoolOf(buffer)).None? <==> out.identifier == 0)
      ensures buffer.bufferType == BufferDescriptor.Mutable && old(PoolOf(buffer)).Some? ==>
                var pool := old(PoolOf(buffer)).value;
                && out.identifier == old(pool.nextBuffer) + 1
                && pool.issued == old(pool.issued) + [out.identifier] && pool.Ring() && pool.poolSize == DefaultPoolSize
                && pool.pool == old(pool.pool)
                && pool.objectSize == old(pool.objectSize) && pool.objectCount == old(pool.objectCount)
                && PoolOf(out) == Some(pool)
                && GetMutableBuffer(out) == Some(old(pool.pool[pool.nextBuffer]))
      ensures buffer.manager in managers && old(managers[buffer.manager].Valid()) ==> managers[buffer.manager].Valid()
    {
      if buffer.bufferType != BufferDescriptor.Mutable {
        return buffer;
      }
      var id := AssignMutableBuffer(buffer);
      out := buffer.(identifier := id);
    }
  }

  /**
   * Two assignments for the same Mutable descriptor receive consecutive identifiers of the
   * ring: the second follows the first, wrapping from `DefaultPoolSize` to 1.
   */
  method AssignTwice(registry: Registry, buffer: BufferDescriptor.Descriptor)
    returns (first: BufferDescriptor.Descriptor, second: BufferDescriptor.Descriptor)
    requires FitsU32(buffer.objectSize, buffer.objectCount)
    requires buffer.manager in registry.managers && registry.managers[buffer.manager].Valid()
    requires registry.PoolOf(buffer).Some? && buffer.bufferType == BufferDescriptor.Mutable
    modifies registry.PoolOf(buffer).value
    ensures 1 <= first.identifier <= DefaultPoolSize && 1 <= second.identifier <= DefaultPoolSize
    ensures second.identifier == Successor(first.identifier, DefaultPoolSize)
  {
    first := registry.Assign(buffer);
    second := registry.Assign(buffer);
  }
}
