/**
 * Strong and weak handles over the reference ledger (StrongPointer.hpp, WeakPointer.hpp).
 *
 * `Heap` gathers the process-wide state the handles act on: the live objects (address ->
 * dynamic class name), an allocation cursor, the ledger, and, as ghost state, every live
 * `StrongPointer` together with the address it holds. Its invariant is the ownership
 * invariant of the handles: the ledger count of every non-null address equals the number of
 * live strong handles holding that address.
 */
module Pointers {
  import opened ReferenceCounting

  /** The set of live strong handles that hold `a`. */
  ghost function Holding(holders: map<StrongPointer, Addr>, a: Addr): set<StrongPointer>
  {
    set h | h in holders && holders[h] == a
  }

  /** The number of live strong handles that hold `a`. */
  ghost function OwnerCount(holders: map<StrongPointer, Addr>, a: Addr): nat
  {
    |Holding(holders, a)|
  }

  /** Moving one handle from its old target to `p` moves one unit of ownership from the one to the other. */
  lemma RetargetHolders(holders: map<StrongPointer, Addr>, h: StrongPointer, p: Addr, a: Addr)
    requires h in holders
    ensures OwnerCount(holders[h := p], a) ==
              OwnerCount(holders, a)
              - (if holders[h] == a && p != a then 1 else 0)
              + (if p == a && holders[h] != a then 1 else 0)
  {
    var before := Holding(holders, a);
    var after := Holding(holders[h := p], a);
    if holders[h] == a && p != a {
      assert after == before - {h};
    } else if p == a && holders[h] != a {
      assert after == before + {h};
    } else {
      assert after == before;
    }
  }

  /**
   * Retargeting a handle in the ledger and in the table of handles together keeps every
   * ledger count equal to the number of handles holding the address.
   */
  lemma RetargetOwnership(m: PointerMap, holders: map<StrongPointer, Addr>, h: StrongPointer, p: Addr)
    requires WellFormed(m) && h in holders
    requires forall a :: a != Null ==> Count(m, a) == OwnerCount(holders, a)
    ensures forall a :: a != Null ==> Count(Retarget(m, holders[h], p), a) == OwnerCount(holders[h := p], a)
  {
    HolderCounted(holders, h);
    forall a | a != Null
      ensures Count(Retarget(m, holders[h], p), a) == OwnerCount(holders[h := p], a)
    {
      RetargetHolders(holders, h, p, a);
    }
  }

  /** Adding a handle that holds null changes no owner count of a non-null address. */
  lemma AddNullHolder(holders: map<StrongPointer, Addr>, h: StrongPointer, a: Addr)
    requires h !in holders && a != Null
    ensures OwnerCount(holders[h := Null], a) == OwnerCount(holders, a)
  {
    assert Holding(holders[h := Null], a) == Holding(holders, a);
  }

  /** Dropping a handle that holds null changes no owner count of a non-null address. */
  lemma RemoveNullHolder(holders: map<StrongPointer, Addr>, h: StrongPointer, a: Addr)
    requires h in holders && holders[h] == Null && a != Null
    ensures OwnerCount(holders - {h}, a) == OwnerCount(holders, a)
  {
    assert Holding(holders - {h}, a) == Holding(holders, a);
  }

  /** A handle in the table counts among the owners of its target. */
  lemma HolderCounted(holders: map<StrongPointer, Addr>, h: StrongPointer)
    requires h in holders
    ensures OwnerCount(holders, holders[h]) >= 1
  {
    assert h in Holding(holders, holders[h]);
  }

  /** Two distinct handles holding the same target make at least two owners. */
  lemma TwoHoldersCounted(holders: map<StrongPointer, Addr>, h: StrongPointer, g: StrongPointer)
    requires h in holders && g in holders && h != g && holders[h] == holders[g]
    ensures OwnerCount(holders, holders[h]) >= 2
  {
    var owners := Holding(holders, holders[h]);
    assert h in owners;
    var rest := owners - {h};
    assert g in rest;
    assert |rest - {g}| == |rest| - 1;
  }

  /** A temporary handle that is added and then removed again leaves the table of handles as it was. */
  lemma TemporaryHolder(holders: map<StrongPointer, Addr>, tmp: StrongPointer, h: StrongPointer, p: Addr)
    requires tmp !in holders && tmp != h
    ensures holders[tmp := p][h := p] - {tmp} == holders[h := p]
  {
  }

  /**
   * When every owned address is live, retargeting one owner from `q` to an owned (or null) `p`
   * keeps every owned address live, provided `q` is deleted only when it is released and
   * differs from `p`.
   */
  lemma RetargetKeepsLive(m: PointerMap, q: Addr, p: Addr, objects: map<Addr, string>)
    requires WellFormed(m) && (forall a :: a in m ==> a in objects) && (p == Null || p in m)
    ensures forall a :: a in Retarget(m, q, p) ==>
              a in (if q != p && Releases(m, q) then objects - {q} else objects)
  {
    forall a | a in Retarget(m, q, p)
      ensures a in (if q != p && Releases(m, q) then objects - {q} else objects)
    {
      assert Count(Retarget(m, q, p), a) > 0;
    }
  }

  /** The process heap: live objects, the allocation cursor, the ledger and the live strong handles. */
  class Heap {
    /** The singleton `ReferenceCounter`. */
    const counter: ReferenceCounter
    /** Live objects: address -> dynamic class name. `delete` removes the entry. */
    var objects: map<Addr, string>
    /** Next address `new` hands out; addresses are never reused. */
    var nextAddr: nat
    /** Every live strong handle and the address it holds. */
    ghost var holders: map<StrongPointer, Addr>

    ghost predicate Valid()
      reads this, counter, holders.Keys
    {
      && counter.Valid()
      && nextAddr >= 1
      && Null !in objects
      && (forall a :: a in objects ==> a < nextAddr)
      && (forall a :: a in counter.pointerMap ==> a < nextAddr)
      && (forall h :: h in holders ==> h.heap == this && h.data == holders[h] && holders[h] < nextAddr)
      && (forall a :: a != Null ==> Count(counter.pointerMap, a) == OwnerCount(holders, a))
    }

    /** Every address some strong handle owns is a live object. */
    ghost predicate NoDangling()
      reads this, counter
    {
      forall a :: a in counter.pointerMap ==> a in objects
    }

    /** An empty heap with an empty ledger. */
    constructor ()
      ensures Valid() && NoDangling() && fresh(counter)
      ensures objects == map[] && holders == map[] && counter.pointerMap == map[]
    {
      counter := new ReferenceCounter();
      objects := map[];
      nextAddr := 1;
      holders := map[];
      new;
      forall a | a != Null ensures Count(counter.pointerMap, a) == OwnerCount(holders, a) {
        assert Holding(holders, a) == {};
      }
    }

    /** `new T(...)`: a fresh object of class `className`, not yet tracked by the ledger. */
    method Allocate(className: string) returns (p: Addr)
      requires Valid()
      modifies this
      ensures p != Null && p !in old(objects) && p !in counter.pointerMap
      ensures objects == old(objects)[p := className]
      ensures holders == old(holders) && nextAddr > p
      ensures Valid()
      ensures old(NoDangling()) ==> NoDangling()
    {
      p := nextAddr;
      objects := objects[p := className];
      nextAddr := nextAddr + 1;
    }

    /** The ledger reports `a` valid exactly when some live strong handle holds it. */
    lemma ValidIffOwned(a: Addr)
      requires Valid()
      ensures counter.IsValid(a) <==> a != Null && exists h :: h in holders && holders[h] == a
    {
      if a != Null {
        if counter.IsValid(a) {
          assert OwnerCount(holders, a) > 0;
          var h :| h in Holding(holders, a);
        }
        if exists h :: h in holders && holders[h] == a {
          var h :| h in holders && holders[h] == a;
          HolderCounted(holders, h);
        }
      }
    }
  }

  /** A counting handle (`StrongPointer<T>`); the template argument is erased. */
  class StrongPointer {
    /** The heap the handle lives in, standing for the process-wide singletons. */
    const heap: Heap
    /** `_pData`. */
    var data: Addr

    /**
     * `_update(pointer)`: decrement the old target and delete it when the decrement returns 0,
     * store the new pointer, increment it.
     */
    method Update(p: Addr)
      requires heap.Valid() && this in heap.holders && p < heap.nextAddr
      modifies this, heap, heap.counter
      ensures data == p
      ensures heap.holders == old(heap.holders)[this := p]
      ensures heap.counter.pointerMap == Retarget(old(heap.counter.pointerMap), old(data), p)
      ensures heap.objects ==
                if Releases(old(heap.counter.pointerMap), old(data))
                then old(heap.objects) - {old(data)} else old(heap.objects)
      ensures heap.nextAddr == old(heap.nextAddr)
      ensures heap.Valid()
    {
      var q := data;
      HolderCounted(heap.holders, this);
      var o := heap.counter.Decrement(q);
      if o == Returned(0) {
        heap.objects := heap.objects - {q};
      } else if o == InvalidPointerDecrement {
        assert false;
      }
      data := p;
      heap.counter.Increment(p);
      heap.holders := heap.holders[this := p];
      RetargetOwnership(old(heap.counter.pointerMap), old(heap.holders), this, p);
    }

    /** `StrongPointer(T * data)`: a new owner of `p` (nothing for null). */
    constructor FromRaw(heap: Heap, p: Addr)
      requires heap.Valid() && p < heap.nextAddr
      modifies heap, heap.counter
      ensures this.heap == heap && data == p
      ensures heap.holders == old(heap.holders)[this := p]
      ensures heap.counter.pointerMap == Incremented(old(heap.counter.pointerMap), p)
      ensures heap.objects == old(heap.objects) && heap.nextAddr == old(heap.nextAddr)
      ensures heap.Valid()
    {
      this.heap := heap;
      data := Null;
      new;
      forall a | a != Null
        ensures OwnerCount(heap.holders[this := Null], a) == OwnerCount(heap.holders, a)
      {
        AddNullHolder(heap.holders, this, a);
      }
      heap.holders := heap.holders[this := Null];
      Update(p);
    }

    /** The copy constructor: a new owner of the copied handle's target. */
    constructor Copy(other: StrongPointer)
      requires other.heap.Valid() && other in other.heap.holders
      modifies other.heap, other.heap.counter
      ensures heap == other.heap && data == other.data
      ensures heap.holders == old(other.heap.holders)[this := other.data]
      ensures heap.counter.pointerMap == Incremented(old(other.heap.counter.pointerMap), other.data)
      ensures heap.objects == old(other.heap.objects) && heap.nextAddr == old(other.heap.nextAddr)
      ensures heap.Valid()
    {
      this.heap := other.heap;
      data := Null;
      new;
      forall a | a != Null
        ensures OwnerCount(heap.holders[this := Null], a) == OwnerCount(heap.holders, a)
      {
        AddNullHolder(heap.holders, this, a);
      }
      heap.holders := heap.holders[this := Null];
      Update(other.data);
    }

    /** `static create(args...)`: allocate a fresh object and return its first owner. */
    static method Create(heap: Heap, className: string) returns (s: StrongPointer)
      requires heap.Valid()
      modifies heap, heap.counter
      ensures fresh(s) && s.heap == heap && s.data != Null && s.data !in old(heap.objects)
      ensures heap.objects == old(heap.objects)[s.data := className]
      ensures heap.counter.pointerMap == old(heap.counter.pointerMap)[s.data := 1]
      ensures heap.holders == old(heap.holders)[s := s.data]
      ensures heap.Valid()
      ensures old(heap.NoDangling()) ==> heap.NoDangling()
    {
      var p := heap.Allocate(className);
      s := new StrongPointer.FromRaw(heap, p);
    }

    /** The destructor, `_update(nullptr)`; the handle then leaves the set of live handles. */
    method Destroy()
      requires heap.Valid() && this in heap.holders
      modifies this, heap, heap.counter
      ensures data == Null
      ensures heap.holders == old(heap.holders) - {this}
      ensures heap.counter.pointerMap == Decremented(old(heap.counter.pointerMap), old(data))
      ensures heap.objects ==
                if Releases(old(heap.counter.pointerMap), old(data))
                then old(heap.objects) - {old(data)} else old(heap.objects)
      ensures heap.nextAddr == old(heap.nextAddr)
      ensures heap.Valid()
      ensures old(heap.NoDangling()) ==> heap.NoDangling()
    {
      Update(Null);
      forall a | a != Null
        ensures OwnerCount(heap.holders - {this}, a) == OwnerCount(heap.holders, a)
      {
        RemoveNullHolder(heap.holders, this, a);
      }
      heap.holders := heap.holders - {this};
    }

    /** `operator=(T * data)`: retarget to a raw pointer. */
    method AssignRaw(p: Addr)
      requires heap.Valid() && this in heap.holders && p < heap.nextAddr
      modifies this, heap, heap.counter
      ensures data == p
      ensures heap.holders == old(heap.holders)[this := p]
      ensures heap.counter.pointerMap == Retarget(old(heap.counter.pointerMap), old(data), p)
      ensures heap.objects ==
                if Releases(old(heap.counter.pointerMap), old(data))
                then old(heap.objects) - {old(data)} else old(heap.objects)
      ensures heap.nextAddr == old(heap.nextAddr)
      ensures heap.Valid()
      ensures old(heap.NoDangling()) && (p == Null || p in old(heap.objects)) && p != old(data) ==> heap.NoDangling()
    {
      Update(p);
    }

    /**
     * `operator=(const StrongPointer<T> pointer)`: the argument is passed by value, so a copy
     * is constructed, `_update` runs, and the copy is destroyed.
     */
    method AssignHandle(other: StrongPointer)
      requires heap.Valid() && this in heap.holders && other in heap.holders
      modifies this, heap, heap.counter
      ensures data == old(other.data)
      ensures heap.holders == old(heap.holders)[this := old(other.data)]
      ensures heap.counter.pointerMap == Retarget(old(heap.counter.pointerMap), old(data), old(other.data))
      ensures heap.objects ==
                if old(data) != old(other.data) && Releases(old(heap.counter.pointerMap), old(data))
                then old(heap.objects) - {old(data)} else old(heap.objects)
      ensures heap.nextAddr == old(heap.nextAddr)
      ensures heap.Valid()
      ensures old(heap.NoDangling()) ==> heap.NoDangling()
    {
      ghost var m := heap.counter.pointerMap;
      ghost var h0 := heap.holders;
      ghost var objects0 := heap.objects;
      ghost var live0 := heap.NoDangling();
      var q := data;
      var p := other.data;
      HolderCounted(h0, this);
      HolderCounted(h0, other);
      AssignByValue(m, q, p);
      var tmp := new StrongPointer.Copy(other);
      Update(p);
      tmp.Destroy();
      assert tmp !in h0 && tmp != this;
      TemporaryHolder(h0, tmp, this, p);
      if live0 {
        RetargetKeepsLive(m, q, p, objects0);
      }
    }

    /** `operator WeakPointer<T>()` and `operator&`: a weak handle to the same address, no count changes. */
    method AsWeak() returns (w: WeakPointer)
      ensures fresh(w) && w.counter == heap.counter && w.data == data
    {
      w := new WeakPointer.FromRaw(heap.counter, data);
    }

    /** `operator StrongPointer<B>()`: the upcast is a new owner of the same address. */
    method Upcast() returns (s: StrongPointer)
      requires heap.Valid() && this in heap.holders
      modifies heap, heap.counter
      ensures fresh(s) && s.heap == heap && s.data == data
      ensures heap.holders == old(heap.holders)[s := data]
      ensures heap.counter.pointerMap == Incremented(old(heap.counter.pointerMap), data)
      ensures heap.objects == old(heap.objects) && heap.nextAddr == old(heap.nextAddr)
      ensures heap.Valid()
    {
      s := new StrongPointer.FromRaw(heap, data);
    }
  }

  /** A non-owning handle (`WeakPointer<T>`): it stores an address and asks the ledger about it. */
  class WeakPointer {
    /** The ledger that `isValid` consults. */
    const counter: ReferenceCounter
    /** `_pData`. */
    var data: Addr

    /** `WeakPointer()`: the null handle. */
    constructor Empty(counter: ReferenceCounter)
      ensures this.counter == counter && data == Null
    {
      this.counter := counter;
      data := Null;
    }

    /** `WeakPointer(T * data)`. */
    constructor FromRaw(counter: ReferenceCounter, p: Addr)
      ensures this.counter == counter && data == p
    {
      this.counter := counter;
      data := Null;
      new;
      Update(p);
    }

    /** The copy constructor. */
    constructor Copy(other: WeakPointer)
      ensures counter == other.counter && data == other.data
    {
      counter := other.counter;
      data := Null;
      new;
      Update(other.data);
    }

    /** `_update`: store the pointer; the ledger is not touched. */
    method Update(p: Addr)
      modifies this
      ensures data == p
    {
      data := p;
    }

    /** `operator=(const T * data)`. */
    method AssignRaw(p: Addr)
      modifies this
      ensures data == p
    {
      Update(p);
    }

    /** `operator=(const WeakPointer<T> pointer)`. */
    method Assign(other: WeakPointer)
      modifies this
      ensures data == old(other.data)
    {
      Update(other.data);
    }

    /** `operator WeakPointer<B>()`: the same address, seen through a base-class handle. */
    method Upcast() returns (w: WeakPointer)
      ensures fresh(w) && w.counter == counter && w.data == data
    {
      w := new WeakPointer.FromRaw(counter, data);
    }

    /** `isNull`. */
    function IsNull(): (r: bool)
      reads this
      ensures r <==> data == Null
    {
      data == Null
    }

    /** `isValid`: false for null, otherwise whether the ledger still tracks the address. */
    function IsValid(): (r: bool)
      reads this, counter
      ensures IsNull() ==> !r
      ensures counter.Valid() ==> (r <==> data != Null && data in counter.pointerMap)
    {
      if IsNull() then false else counter.IsValid(data)
    }
  }

  /** A weak handle taken from a strong one is valid as long as that strong handle lives on a non-null address. */
  lemma WeakValidWhileOwned(heap: Heap, s: StrongPointer, w: WeakPointer)
    requires heap.Valid() && s in heap.holders && w.counter == heap.counter && w.data == s.data
    ensures w.IsValid() <==> s.data != Null
  {
    if s.data != Null {
      HolderCounted(heap.holders, s);
    }
  }

  /**
   * The life cycle of a weak reference: create an object, take a weak handle to it, destroy
   * the only strong handle. Before the destruction the weak handle is valid, after it the
   * object is deleted and the weak handle reports invalid, while still not null.
   */
  method WeakOutlivesObject(heap: Heap) returns (w: WeakPointer)
    requires heap.Valid()
    modifies heap, heap.counter
    ensures w.counter == heap.counter && !w.IsNull() && !w.IsValid()
    ensures w.data !in heap.objects && w.data !in old(heap.objects)
    ensures heap.holders == old(heap.holders) && heap.Valid()
  {
    ghost var handles := heap.holders;
    var s := StrongPointer.Create(heap, "Mobius::Object");
    ghost var p, ledger := s.data, heap.counter.pointerMap;
    assert s !in handles && Count(ledger, p) == 1;
    w := s.AsWeak();
    assert w.IsValid();
    s.Destroy();
    assert Releases(ledger, p);
    assert p !in heap.counter.pointerMap;
    assert handles[s := p] - {s} == handles;
  }

  /**
   * Raw self-assignment by the sole owner (`sp = sp.operator->()`): `_update` decrements first,
   * so the object is deleted, and the address then re-enters the ledger with count 1 while
   * no live object is behind it.
   */
  method SoleOwnerRawSelfAssignment(heap: Heap) returns (s: StrongPointer)
    requires heap.Valid()
    modifies heap, heap.counter
    ensures s in heap.holders && heap.Valid()
    ensures s.data != Null && s.data !in heap.objects
    ensures heap.counter.GetCount(s.data) == 1 && !heap.NoDangling()
  {
    s := StrongPointer.Create(heap, "Mobius::Object");
    var p := s.data;
    s.AssignRaw(p);
  }

  /** Handle self-assignment (`sp = sp`) goes through the by-value copy, so it deletes nothing. */
  method SoleOwnerHandleSelfAssignment(heap: Heap) returns (s: StrongPointer)
    requires heap.Valid()
    modifies heap, heap.counter
    ensures s in heap.holders && heap.Valid()
    ensures s.data != Null && s.data in heap.objects
    ensures heap.counter.GetCount(s.data) == 1
  {
    s := StrongPointer.Create(heap, "Mobius::Object");
    s.AssignHandle(s);
  }
}
