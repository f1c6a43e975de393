/**
 * Run-time reflection (Macros.hpp, Factory.cpp): the `Prototype` class that the macros
 * generate for every reflected class, its lazily created and self-registering singleton,
 * and the `Factory` registry that maps class names to prototype references.
 */
module Reflection {
  import opened Wrappers
  import opened ReferenceCounting
  import opened Pointers
  import opened MapInsert

  /** The class name the root prototype reports. */
  const ObjectClassName: string := "Mobius::Object"

  /** The message of the string literal `makeObject` throws for an invalid prototype. */
  const InvalidPrototypeMessage: string := "INVALID PROTOTYPE OBJECT !!!"

  /**
   * What a generated prototype class describes: the class name as written in the macro, the
   * prototype of the parent class (none for the root), and whether the class is abstract.
   */
  datatype Prototype = Prototype(className: string, parent: Option<Prototype>, isAbstract: bool)

  /** A prototype built by the three macros: parent links end at the root `Mobius::Object`. */
  ghost predicate Generated(p: Prototype)
    decreases p
  {
    match p.parent
    case None => p == BasePrototype()
    case Some(q) => Generated(q)
  }

  /** `MOBJECT_BASE_HEADER_PROTOTYPE`: the root, named "Mobius::Object", with an empty parent. */
  function BasePrototype(): (p: Prototype)
    ensures p.className == ObjectClassName && p.parent == None && !p.isAbstract
  {
    Prototype(ObjectClassName, None, false)
  }

  /** `MOBJECT_HEADER_PROTOTYPE(CLASS, PARENT)`: a concrete class under `parent`. */
  function ConcretePrototype(className: string, parent: Prototype): (p: Prototype)
    ensures p.className == className && p.parent == Some(parent) && !p.isAbstract
    ensures Generated(p) <==> Generated(parent)
  {
    Prototype(className, Some(parent), false)
  }

  /** `MOBJECT_HEADER_ABSTRACT_PROTOTYPE(CLASS, PARENT)`: an abstract class under `parent`. */
  function AbstractPrototype(className: string, parent: Prototype): (p: Prototype)
    ensures p.className == className && p.parent == Some(parent) && p.isAbstract
    ensures Generated(p) <==> Generated(parent)
  {
    Prototype(className, Some(parent), true)
  }

  /** The end of the `getParent()` chain. */
  function Root(p: Prototype): Prototype
    decreases p
  {
    match p.parent
    case None => p
    case Some(q) => Root(q)
  }

  /** The class names met along `getParent()`, starting with `p`'s own. */
  function Lineage(p: Prototype): (names: seq<string>)
    ensures |names| >= 1 && names[0] == p.className
    decreases p
  {
    match p.parent
    case None => [p.className]
    case Some(q) => [p.className] + Lineage(q)
  }

  /** Every parent chain of a generated prototype ends at the root, whose name is last in the lineage. */
  lemma {:induction false} ChainEndsAtObject(p: Prototype)
    requires Generated(p)
    ensures Root(p) == BasePrototype()
    ensures Lineage(p)[|Lineage(p)| - 1] == ObjectClassName
    decreases p
  {
    match p.parent
    case None =>
    case Some(q) =>
      ChainEndsAtObject(q);
  }

  /**
   * A class declared with either header macro under a generated parent: its lineage is its
   * own name followed by the parent's, and its chain still ends at the root.
   */
  lemma {:induction false} DeclaredChainEndsAtObject(className: string, parent: Prototype, isAbstract: bool)
    requires Generated(parent)
    ensures var p := if isAbstract then AbstractPrototype(className, parent) else ConcretePrototype(className, parent);
            && Generated(p)
            && Root(p) == BasePrototype()
            && Lineage(p) == [className] + Lineage(parent)
            && Lineage(p)[|Lineage(p)| - 1] == ObjectClassName
  {
    ChainEndsAtObject(parent);
  }

  /** What `makeEmptyObject` or `makeObject` throws. */
  datatype Thrown =
    | InvalidPrototype(message: string)  // the string literal thrown by `makeObject`
    | AssertionFailure                   // `assert(false)` in an abstract prototype

  /** A `PrototypeReference`: a weak reference to a prototype object, with the prototype it points at. */
  datatype ProtoRef = NullRef | ProtoRef(addr: Addr, proto: Prototype)

  /** `PrototypeReference::isValid()`: non-null and still tracked by the ledger. */
  function RefIsValid(counter: ReferenceCounter, r: ProtoRef): (b: bool)
    reads counter
    ensures b ==> r.ProtoRef? && r.addr != Null
    ensures counter.Valid() && r.ProtoRef? ==> (b <==> r.addr in counter.pointerMap)
  {
    r.ProtoRef? && counter.IsValid(r.addr)
  }

  /**
   * `makeEmptyObject()`: a concrete or root prototype makes a fresh object of its class and
   * returns its first strong handle; the abstract variant fails its assertion.
   */
  method MakeEmptyObject(heap: Heap, proto: Prototype) returns (r: Result<StrongPointer, Thrown>)
    requires heap.Valid()
    modifies heap, heap.counter
    ensures proto.isAbstract ==> r == Err(AssertionFailure) && unchanged(heap, heap.counter)
    ensures !proto.isAbstract ==> r.Ok? && fresh(r.value) && r.value.heap == heap
    ensures !proto.isAbstract ==>
              && r.value.data != Null && r.value.data !in old(heap.objects)
              && heap.objects == old(heap.objects)[r.value.data := proto.className]
              && heap.counter.pointerMap == old(heap.counter.pointerMap)[r.value.data := 1]
              && heap.holders == old(heap.holders)[r.value := r.value.data]
    ensures heap.Valid()
    ensures old(heap.NoDangling()) ==> heap.NoDangling()
  {
    if proto.isAbstract {
      return Err(AssertionFailure);
    }
    var s := StrongPointer.Create(heap, proto.className);
    return Ok(s);
  }

  /** `getPrototype(name)` on a prototype map: the stored reference, or an invalid empty one. */
  function Lookup(m: map<string, ProtoRef>, name: string): (r: ProtoRef)
    ensures name !in m ==> r == NullRef
    ensures name in m ==> r == m[name]
  {
    if name in m then m[name] else NullRef
  }

  /**
   * First registration wins: after a run of registrations from an empty registry, a name
   * answers with the reference of its first registration, and a name never registered with
   * an invalid empty reference.
   */
  lemma RegistrationsLookup(regs: seq<(string, ProtoRef)>, name: string)
    ensures Lookup(InsertAll(map[], regs), name) ==
              if FirstIndex(regs, name) < |regs| then regs[FirstIndex(regs, name)].1 else NullRef
  {
    FirstInsertionWins(map[], regs, name);
  }

  /** The singleton `Factory` with its `_pPrototypeMap`. */
  class Factory {
    var prototypeMap: map<string, ProtoRef>

    /** The private constructor: the registry starts empty. */
    constructor ()
      ensures prototypeMap == map[]
    {
      prototypeMap := map[];
    }

    /** `registerPrototype`: insert when the name is absent; a second registration is ignored. */
    method RegisterPrototype(prototype: ProtoRef, referedClassName: string)
      modifies this
      ensures prototypeMap == Inserted(old(prototypeMap), referedClassName, prototype)
    {
      if referedClassName !in prototypeMap {
        prototypeMap := prototypeMap[referedClassName := prototype];
      }
    }

    /** `classExists`. */
    function ClassExists(className: string): (b: bool)
      reads this
      ensures b <==> className in prototypeMap
      ensures !b ==> Lookup(prototypeMap, className) == NullRef
    {
      className in prototypeMap
    }

    /** `getPrototype`: the stored reference, or an invalid empty reference. */
    function GetPrototype(className: string): (r: ProtoRef)
      reads this
      ensures !ClassExists(className) ==> r == NullRef
      ensures ClassExists(className) ==> r == prototypeMap[className]
    {
      Lookup(prototypeMap, className)
    }

    /**
     * `makeObject(prototype)`: a valid reference yields its prototype's `makeEmptyObject()`;
     * an invalid one throws the string literal and creates nothing.
     */
    method MakeObject(heap: Heap, prototype: ProtoRef) returns (r: Result<StrongPointer, Thrown>)
      requires heap.Valid()
      modifies heap, heap.counter
      ensures !old(RefIsValid(heap.counter, prototype)) ==>
                r == Err(InvalidPrototype(InvalidPrototypeMessage)) && unchanged(heap, heap.counter)
      ensures old(RefIsValid(heap.counter, prototype)) && prototype.proto.isAbstract ==>
                r == Err(AssertionFailure) && unchanged(heap, heap.counter)
      ensures old(RefIsValid(heap.counter, prototype)) && !prototype.proto.isAbstract ==>
                r.Ok? && fresh(r.value) && r.value.heap == heap
                && r.value.data != Null && r.value.data !in old(heap.objects)
                && heap.objects == old(heap.objects)[r.value.data := prototype.proto.className]
                && heap.counter.pointerMap == old(heap.counter.pointerMap)[r.value.data := 1]
                && heap.holders == old(heap.holders)[r.value := r.value.data]
      ensures heap.Valid()
      ensures old(heap.NoDangling()) ==> heap.NoDangling()
    {
      if RefIsValid(heap.counter, prototype) {
        r := MakeEmptyObject(heap, prototype.proto);
      } else {
        r := Err(InvalidPrototype(InvalidPrototypeMessage));
      }
    }

    /** `makeObject(className)`: `makeObject(getPrototype(className))`, so an unknown name throws. */
    method MakeObjectByName(heap: Heap, className: string) returns (r: Result<StrongPointer, Thrown>)
      requires heap.Valid()
      modifies heap, heap.counter
      ensures !ClassExists(className) ==>
                r == Err(InvalidPrototype(InvalidPrototypeMessage)) && unchanged(heap, heap.counter)
      ensures var p := GetPrototype(className);
              !old(RefIsValid(heap.counter, p)) ==>
                r == Err(InvalidPrototype(InvalidPrototypeMessage)) && unchanged(heap, heap.counter)
      ensures var p := GetPrototype(className);
              old(RefIsValid(heap.counter, p)) && p.proto.isAbstract ==>
                r == Err(AssertionFailure) && unchanged(heap, heap.counter)
      ensures var p := GetPrototype(className);
              old(RefIsValid(heap.counter, p)) && !p.proto.isAbstract ==>
                r.Ok? && fresh(r.value) && r.value.heap == heap
                && r.value.data != Null && r.value.data !in old(heap.objects)
                && heap.objects == old(heap.objects)[r.value.data := p.proto.className]
                && heap.counter.pointerMap == old(heap.counter.pointerMap)[r.value.data := 1]
                && heap.holders == old(heap.holders)[r.value := r.value.data]
      ensures heap.Valid()
      ensures old(heap.NoDangling()) ==> heap.NoDangling()
    {
      r := MakeObject(heap, GetPrototype(className));
    }

    /** The typed `makeObject<T>()`: constructs `T` directly, without consulting the registry. */
    method MakeObjectOf(heap: Heap, className: string) returns (s: StrongPointer)
      requires heap.Valid()
      modifies heap, heap.counter
      ensures fresh(s) && s.heap == heap && s.data !in old(heap.objects)
      ensures heap.objects == old(heap.objects)[s.data := className]
      ensures s.data != Null && heap.counter.pointerMap == old(heap.counter.pointerMap)[s.data := 1]
      ensures heap.holders == old(heap.holders)[s := s.data]
      ensures heap.Valid()
      ensures old(heap.NoDangling()) ==> heap.NoDangling()
    {
      s := StrongPointer.Create(heap, className);
    }
  }

  /**
   * The function statics of one class's `Prototype::instance()`: the strong holder `instance`
   * (absent until the first call) and the weak reference `instRef`.
   */
  class PrototypeSlot {
    /** The prototype this class's macros generate. */
    const proto: Prototype
    /** The heap the prototype object is allocated in. */
    const heap: Heap
    /** `static StrongPointer<const Prototype> instance`; `None` before the first call. */
    var holder: Option<StrongPointer>
    /** `static WeakPointer<const Prototype> instRef`. */
    var instRef: ProtoRef

    /** The statics agree: once created, the holder owns the prototype object `instRef` names. */
    ghost predicate Linked()
      reads this, heap
    {
      match holder
      case None => instRef == NullRef
      case Some(h) =>
        h in heap.holders && heap.holders[h] != Null && instRef == ProtoRef(heap.holders[h], proto)
    }

    /** Before the first call nothing is created. */
    constructor (proto: Prototype, heap: Heap)
      ensures this.proto == proto && this.heap == heap && holder == None && instRef == NullRef
    {
      this.proto := proto;
      this.heap := heap;
      holder := None;
      instRef := NullRef;
    }

    /**
     * `Prototype::instance()`. The first call creates the prototype object under a strong holder
     * and registers it in the factory; afterwards the reference stays valid, so later calls
     * only return it and register nothing.
     */
    method Instance(factory: Factory) returns (r: ProtoRef)
      requires heap.Valid() && Linked()
      modifies this, factory, heap, heap.counter
      ensures Linked() && holder.Some? && r == instRef && r.ProtoRef? && r.proto == proto
      ensures RefIsValid(heap.counter, r)
      ensures old(holder).None? ==>
                factory.prototypeMap == Inserted(old(factory.prototypeMap), proto.className, r)
                && fresh(holder.value) && r.addr != Null && r.addr !in old(heap.objects)
                && heap.holders == old(heap.holders)[holder.value := r.addr]
                && heap.counter.pointerMap == old(heap.counter.pointerMap)[r.addr := 1]
                && heap.objects == old(heap.objects)[r.addr := proto.className + "::Prototype"]
      ensures old(holder).Some? ==>
                r == old(instRef) && factory.prototypeMap == old(factory.prototypeMap)
                && unchanged(heap, heap.counter)
      ensures heap.Valid()
      ensures old(heap.NoDangling()) ==> heap.NoDangling()
    {
      if holder.None? {
        var s := StrongPointer.Create(heap, proto.className + "::Prototype");
        holder := Some(s);
        instRef := NullRef;
      }
      var h := holder.value;
      HolderCounted(heap.holders, h);
      if !RefIsValid(heap.counter, instRef) {
        factory.RegisterPrototype(ProtoRef(h.data, proto), proto.className);
        instRef := ProtoRef(h.data, proto);
      }
      r := instRef;
    }
  }

  /** Two calls of `instance()` return the same reference and register the prototype once. */
  method InstanceTwice(slot: PrototypeSlot, factory: Factory) returns (first: ProtoRef, second: ProtoRef)
    requires slot.heap.Valid() && slot.holder == None && slot.instRef == NullRef
    modifies slot, factory, slot.heap, slot.heap.counter
    ensures first == second && RefIsValid(slot.heap.counter, second)
    ensures factory.prototypeMap == Inserted(old(factory.prototypeMap), slot.proto.className, first)
  {
    first := slot.Instance(factory);
    second := slot.Instance(factory);
  }

  /**
   * A registered concrete class, instantiated by name and then released: the new object reports
   * the registered class name, and destroying its only handle deletes it and returns the ledger,
   * the live objects and the live handles to what they were before.
   */
  method MakeByNameThenDestroy(factory: Factory, heap: Heap, className: string) returns (made: string)
    requires heap.Valid() && heap.NoDangling() && factory.ClassExists(className)
    requires RefIsValid(heap.counter, factory.GetPrototype(className))
    requires !factory.GetPrototype(className).proto.isAbstract
    modifies heap, heap.counter
    ensures made == factory.GetPrototype(className).proto.className
    ensures heap.counter.pointerMap == old(heap.counter.pointerMap)
    ensures heap.objects == old(heap.objects)
    ensures heap.holders == old(heap.holders)
    ensures heap.Valid() && heap.NoDangling()
  {
    var r := factory.MakeObjectByName(heap, className);
    var s := r.value;
    made := heap.objects[s.data];
    s.Destroy();
  }
}
