# Mobius object model and render bookkeeping, in Dafny

This project models the core of the Mobius engine and proves properties of that model:

- **The object model.** This is the process-wide reference ledger (`ReferenceCounter`), which maps every address to the number of strong owners it has. On top of it sit the counting `StrongPointer` and the non-owning `WeakPointer`.
- **Run-time reflection.** The reflection macros generate one `Prototype` per class. Each prototype registers itself in the `Factory` when it is first used, and the `Factory` builds objects by prototype or by class name.
- **The configuration tree.** A `ConfigNode` holds a name, a text, an attribute map where the first value wins, and an ordered list of children. The `FlagList` node turns the names of its children into flags.
- **The render server's plain records.** These are the window and buffer descriptors, including the parsing of window flag names.
- **The window manager and the pipeline manager.** The window manager maps string window names to back-end identifiers. Both managers decode `<Window>` and `<Pipeline>` configuration elements.
- **The Metal buffer back-end's bookkeeping.** This covers immutable buffers numbered from 1, and pools of mutable buffers that hand out their buffers in a ring.
- **The macOS window back-end's bookkeeping.** A counter issues window identifiers and a dictionary holds the windows. The back-end also translates between window flags and AppKit style masks.

## Modelling choices

- **Heap.** Addresses are opaque identities (`Addr = nat`, where `Null` is 0). The class `Heap` holds:
  - the live objects;
  - an allocation cursor (addresses are never reused);
  - the ledger;
  - as ghost state, every live strong handle and the address it holds.

  The invariant `Heap.Valid` says that the ledger count of each non-null address equals the number of live strong handles holding it.
- **Ownership steps.** `StrongPointer._update` is the only step that changes ownership. It keeps the source's order: decrement, and delete at 0, then store, then increment. Construction, copy, assignment and destruction all go through it. `operator=(StrongPointer)` takes its argument by value, so it is modelled as three steps: copy-construct a temporary, run `_update`, destroy the temporary.
- **Value records.** The descriptors (`cMB_RNDR_WIN_Descriptor`, `cMB_RNDR_BUF_Descriptor`, `cMB_RNDR_PIP_Descriptor`) are C structs copied by value, so they are datatypes. A null `const char *` is `None`. Geometry and colours are `real` fields that are only carried, never computed on.
- **Code not modelled.** Calls into the platform are function parameters that give the value the call returns. This covers:
  - the Swift bridge (`sMB_RNDR_WIN_*`, `sMB_RNDR_PIP_*`);
  - AppKit (the screen a window reports, its frame);
  - the TinyXML number parsers (the `parsed*` and `screenConverted` parameters).
- **Style masks.** The AppKit `NSWindow.StyleMask` raw values are not assumed. They are the fields of a `StyleBits` parameter, and each translation lemma states the hypotheses it needs. A raw value is the set of positions of its one bits. So `|` is set union and `(a & b) > 0` means the two sets intersect. The per-bit lemmas allow a zero borderless value, which is what AppKit uses; only the lemmas about the borderless bit itself need it non-zero.
- **Swift traps.** Swift traps on arithmetic overflow, on an out-of-range index and on unwrapping nil. The model states those conditions as preconditions.

Window geometry is not computed on, so the frame stored in a descriptor is compared only by equality. The model does not compose the C++ window manager with the Swift registry.

## Model

| member | source | states |
|---|---|---|
| ReferenceCounting.Count | Sources/Mobius/Core/Memory/ReferenceCounter.cpp:65-81 | `getCount` is 0 for null. On a well-formed ledger it is non-negative, and positive exactly for a tracked address. |
| ReferenceCounting.Incremented | Sources/Mobius/Core/Memory/ReferenceCounter.cpp:13-29 | `increment(nullptr)` changes nothing. An untracked address is inserted with count 1, and a tracked one gains exactly 1. Every other count is unchanged, the key set grows by just that address, and every stored count stays at least 1. |
| ReferenceCounting.DecrementResult | Sources/Mobius/Core/Memory/ReferenceCounter.cpp:31-55 | `decrement` returns -1 for null. It throws `InvalidPointerDecrementException` exactly for an untracked non-null address, and otherwise returns the old count minus one, which is never negative. |
| ReferenceCounting.Decremented | Sources/Mobius/Core/Memory/ReferenceCounter.cpp:39-54 | The ledger is unchanged for null and on the throw. A tracked address loses exactly 1 and is erased exactly when its count was 1. Other counts are unchanged, no key is added, and well-formedness is kept. |
| ReferenceCounting.IncrementsCount | Sources/Mobius/Core/Memory/ReferenceCounter.cpp:13-29 | n increments of a non-null address add n to its count, leave every other count alone and keep the ledger well formed. |
| ReferenceCounting.DecrementsCount | Sources/Mobius/Core/Memory/ReferenceCounter.cpp:31-55 | k ≤ count decrements lower the count by k. The j-th of them returns count − j − 1, and other addresses are untouched. |
| ReferenceCounting.IncrementsThenDecrements | Sources/Mobius/Core/Memory/ReferenceCounter.cpp:13-55 | N increments of a fresh address followed by M ≤ N decrements leave count N − M. None of the decrements throws, and other counts are unchanged. |
| ReferenceCounting.DecrementPastZeroThrows | Sources/Mobius/Core/Memory/ReferenceCounter.cpp:44-54 | After as many decrements as the count, the entry has been erased and one more decrement throws. |
| ReferenceCounting.IncrementDecrementRoundTrip | Sources/Mobius/Core/Memory/ReferenceCounter.cpp:13-55 | An increment followed by a decrement returns the original count and restores the table exactly. |
| ReferenceCounting.Releases | Headers/Mobius/Core/Memory/StrongPointer.hpp:134 | `!decrement(p)` holds exactly for a non-null address whose count is 1, so a null handle never deletes. |
| ReferenceCounting.Retarget | Headers/Mobius/Core/Memory/StrongPointer.hpp:132-141 | The ledger step of `_update` from q to p raises p by 1 and lowers q by 1. No other address changes, and well-formedness is kept. |
| ReferenceCounting.RetargetToSelf | Headers/Mobius/Core/Memory/StrongPointer.hpp:132-141 | Retargeting a handle to the tracked address it already holds leaves the ledger as it was. |
| ReferenceCounting.IncrementFirstCommutes | Headers/Mobius/Core/Memory/StrongPointer.hpp:78-84 | Incrementing the new target first and decrementing the old one afterwards yields the same table as `_update`'s order. |
| ReferenceCounting.AssignByValue | Headers/Mobius/Core/Memory/StrongPointer.hpp:78-84 | With the by-value copy in place, the old target is released exactly when it differs from the new one and was solely owned. The copy's own destruction never releases, and the whole assignment nets to one `_update`. |
| ReferenceCounting.ReferenceCounter.constructor | Sources/Mobius/Core/Memory/ReferenceCounter.cpp:83-86 | The ledger starts with an empty table. |
| ReferenceCounting.ReferenceCounter.Increment | Sources/Mobius/Core/Memory/ReferenceCounter.cpp:13-29 | The new table is `Incremented` of the old one. |
| ReferenceCounting.ReferenceCounter.Decrement | Sources/Mobius/Core/Memory/ReferenceCounter.cpp:31-55 | Returns `DecrementResult` of the old table and leaves `Decremented` of it. |
| ReferenceCounting.ReferenceCounter.GetCount | Sources/Mobius/Core/Memory/ReferenceCounter.cpp:65-81 | It is 0 for null or an untracked address, and the stored count otherwise. |
| ReferenceCounting.ReferenceCounter.IsValid | Sources/Mobius/Core/Memory/ReferenceCounter.cpp:57-63 | `isValid(p)` holds iff p is non-null and `getCount(p) > 0`, that is, iff the ledger tracks p. |
| Pointers.Heap.Allocate | Headers/Mobius/Core/Memory/StrongPointer.hpp:123 | `new T` yields a fresh non-null address that is not yet in the ledger. It registers the object's class, and the ownership invariant is kept. |
| Pointers.Heap.ValidIffOwned | Headers/Mobius/Core/Memory/StrongPointer.hpp:132-141 | Under the ownership invariant, the ledger calls an address valid exactly when some live strong handle holds it. |
| Pointers.StrongPointer.Update | Headers/Mobius/Core/Memory/StrongPointer.hpp:132-141 | `_update(p)` moves this handle to p. The ledger becomes `Retarget(old, q, p)`. The old target q is deleted exactly when its decrement returns 0, even when q is p itself. The ownership invariant is kept. |
| Pointers.StrongPointer.FromRaw | Headers/Mobius/Core/Memory/StrongPointer.hpp:100 | Constructing from p adds exactly 1 to count(p), and nothing for nullptr. No object is deleted. |
| Pointers.StrongPointer.Copy | Headers/Mobius/Core/Memory/StrongPointer.hpp:108 | The copy holds the same address, and that address gains exactly 1. |
| Pointers.StrongPointer.Create | Headers/Mobius/Core/Memory/StrongPointer.hpp:122-123 | `create` yields a handle to a fresh object of the class, whose count is 1. |
| Pointers.StrongPointer.Destroy | Headers/Mobius/Core/Memory/StrongPointer.hpp:114 | The destructor decrements the target and deletes it exactly when the decrement returns 0. The handle stops being an owner. |
| Pointers.StrongPointer.AssignRaw | Headers/Mobius/Core/Memory/StrongPointer.hpp:63-69 | `operator=(T*)` lowers the old target by 1 and raises the new one by 1. No other address changes, and the old target is deleted when it drops to 0. |
| Pointers.StrongPointer.AssignHandle | Headers/Mobius/Core/Memory/StrongPointer.hpp:78-84 | `operator=(StrongPointer)` has the same net ledger change as `_update` to the other handle's target, and it keeps every owned address alive. |
| Pointers.StrongPointer.AsWeak | Headers/Mobius/Core/Memory/StrongPointer.hpp:47-54 | The `WeakPointer` conversion and `operator&` give a weak handle to the same address and change no count. |
| Pointers.StrongPointer.Upcast | Headers/Mobius/Core/Memory/StrongPointer.hpp:91-92 | The upcast is a new owner of the same address, which gains exactly 1. |
| Pointers.WeakPointer.Empty | Headers/Mobius/Core/Memory/WeakPointer.hpp:81 | A default weak handle is null. |
| Pointers.WeakPointer.FromRaw | Headers/Mobius/Core/Memory/WeakPointer.hpp:88 | It stores the address and touches nothing else. |
| Pointers.WeakPointer.Copy | Headers/Mobius/Core/Memory/WeakPointer.hpp:96 | It stores the copied address and touches nothing else. |
| Pointers.WeakPointer.Update | Headers/Mobius/Core/Memory/WeakPointer.hpp:126-129 | `_update` stores the address and never touches the ledger. |
| Pointers.WeakPointer.AssignRaw | Headers/Mobius/Core/Memory/WeakPointer.hpp:46-52 | `operator=(const T*)` stores the address and nothing else. |
| Pointers.WeakPointer.Assign | Headers/Mobius/Core/Memory/WeakPointer.hpp:61-67 | `operator=(WeakPointer)` stores the other handle's address and nothing else. |
| Pointers.WeakPointer.Upcast | Headers/Mobius/Core/Memory/WeakPointer.hpp:74-75 | The upcast keeps the target and its nullness, with no ledger change. |
| Pointers.WeakPointer.IsNull | Headers/Mobius/Core/Memory/WeakPointer.hpp:118 | `isNull()` holds iff the stored address is null. |
| Pointers.WeakPointer.IsValid | Headers/Mobius/Core/Memory/WeakPointer.hpp:111 | `isValid()` is false for a null handle. Otherwise it holds iff the ledger tracks the address. |
| Pointers.WeakValidWhileOwned | Headers/Mobius/Core/Memory/WeakPointer.hpp:111 | A weak handle taken from a live strong handle stays valid exactly as long as that handle holds a non-null address. |
| Pointers.WeakOutlivesObject | Headers/Mobius/Core/Memory/WeakPointer.hpp:111 | After the last strong owner is destroyed, the object is gone and the weak handle reports invalid, although it is still not null. |
| Pointers.SoleOwnerRawSelfAssignment | Headers/Mobius/Core/Memory/StrongPointer.hpp:132-141 | Because `_update` decrements first, a sole owner's raw self-assignment deletes the object. Its address then re-enters the ledger with count 1 and no live object behind it. |
| Pointers.SoleOwnerHandleSelfAssignment | Headers/Mobius/Core/Memory/StrongPointer.hpp:78-84 | Self-assignment of a handle goes through the by-value copy, so it deletes nothing and the count stays 1. |
| MapInsert.Inserted | Sources/Mobius/Core/Reflection/Factory.cpp:21-23 | `map::insert` adds the key with its value when the key is absent. It leaves the map unchanged when the key is present, and never alters another entry. |
| MapInsert.FirstInsertionWins | Sources/Mobius/Core/Serializer/ConfigNode.cpp:111-114 | After a run of insertions, a key keeps its prior value, or else takes the value of its first insertion. A key never inserted stays absent. |
| Reflection.BasePrototype | Headers/Mobius/Core/Reflection/Macros.hpp:35-44 | The root prototype is named "Mobius::Object", has an empty parent and is concrete. |
| Reflection.ConcretePrototype | Headers/Mobius/Core/Reflection/Macros.hpp:11-21 | `getClassName()` is the macro's class argument as written and `getParent()` is the parent's prototype. The class is concrete. |
| Reflection.AbstractPrototype | Headers/Mobius/Core/Reflection/Macros.hpp:23-33 | The same as a concrete prototype, but abstract. |
| Reflection.ChainEndsAtObject | Headers/Mobius/Core/Reflection/Macros.hpp:11-44 | Every parent chain of a generated prototype ends at the root, whose name "Mobius::Object" is last in the lineage. |
| Reflection.DeclaredChainEndsAtObject | Headers/Mobius/Core/Reflection/Macros.hpp:11-44 | A class declared with either header macro under a generated parent is generated too. Its lineage is its own name followed by the parent's, and its chain ends at the root "Mobius::Object". |
| Reflection.RefIsValid | Headers/Mobius/Core/Memory/WeakPointer.hpp:111 | A prototype reference is valid iff it is non-null and the ledger tracks its address. |
| Reflection.MakeEmptyObject | Headers/Mobius/Core/Reflection/Macros.hpp:19-42 | A concrete or root prototype yields a fresh object of its class with count 1. The abstract variant fails its assertion and creates nothing. |
| Reflection.Lookup | Sources/Mobius/Core/Reflection/Factory.cpp:35-48 | A lookup returns the stored reference, or an invalid empty one when the name is absent. |
| Reflection.RegistrationsLookup | Sources/Mobius/Core/Reflection/Factory.cpp:16-27 | After any run of registrations into an empty registry, a name answers with its first registration's reference, or with an invalid one if it was never registered. |
| Reflection.Factory.constructor | Sources/Mobius/Core/Reflection/Factory.cpp:73-76 | The registry starts empty. |
| Reflection.Factory.RegisterPrototype | Sources/Mobius/Core/Reflection/Factory.cpp:16-27 | A new name is added with its prototype. An existing name is ignored and keeps its first prototype. |
| Reflection.Factory.ClassExists | Sources/Mobius/Core/Reflection/Factory.cpp:29-33 | `classExists(n)` holds iff n is a key of the map. |
| Reflection.Factory.GetPrototype | Sources/Mobius/Core/Reflection/Factory.cpp:35-48 | It returns the stored prototype, or an invalid empty reference for an absent name. |
| Reflection.Factory.MakeObject | Sources/Mobius/Core/Reflection/Factory.cpp:50-63 | A valid prototype gives its `makeEmptyObject()`: an abstract one fails its assertion and changes nothing, and a concrete one yields a fresh handle with count 1, recorded as a new live handle of the same heap. An invalid reference throws the string literal "INVALID PROTOTYPE OBJECT !!!" and allocates nothing. |
| Reflection.Factory.MakeObjectByName | Sources/Mobius/Core/Reflection/Factory.cpp:65-71 | It behaves as `makeObject(getPrototype(name))` in all three cases. An unknown name or an invalid registered reference throws. A registered abstract class fails its assertion and changes nothing. A registered concrete class yields a fresh handle to an object of that class, with count 1, recorded as a new live handle. |
| Reflection.Factory.MakeObjectOf | Headers/Mobius/Core/Reflection/Factory.hpp:79-80 | The typed `makeObject<T>` constructs a fresh object directly, with count 1, and records the new handle among the live ones. It does not consult the registry. |
| Reflection.PrototypeSlot.constructor | Headers/Mobius/Core/Reflection/Macros.hpp:70-71 | Before the first `instance()` call there is no holder, and the weak reference is null. |
| Reflection.PrototypeSlot.Instance | Headers/Mobius/Core/Reflection/Macros.hpp:68-77 | The first call allocates the prototype object under a fresh strong holder, with count 1, and records that holder among the live handles. Every other handle, count and object is unchanged. It then registers the prototype in the factory, and the reference it returns is valid and names that prototype. Later calls return the same reference, register nothing and change no count. |
| Reflection.InstanceTwice | Headers/Mobius/Core/Reflection/Macros.hpp:68-77 | Two calls of `instance()` return the same valid reference, and the factory sees exactly one registration. |
| Reflection.MakeByNameThenDestroy | Sources/Mobius/Core/Reflection/Factory.cpp:65-71 | A registered concrete class made by name reports the registered class name. Destroying its only handle deletes the object and restores the ledger, the live objects and the live handles. |
| Config.NamedChildren | Sources/Mobius/Core/Serializer/ConfigNode.cpp:73-88 | A child is selected iff its name matches, and the selection keeps the children's order. |
| Config.FirstNamedChild | Sources/Mobius/Core/Serializer/ConfigNode.cpp:90-101 | The first selected child is a child of the node, and no earlier child has that name. |
| Config.FirstNamed | Sources/Mobius/Core/Serializer/ConfigNode.cpp:90-101 | The result is `None` iff no child has the name, and otherwise a child with that name. |
| Config.ConfigNode.constructor | Sources/Mobius/Core/Serializer/ConfigNode.cpp:16-18 | A new node has no attributes, no children and an empty text. |
| Config.ConfigNode.FlagList | Sources/Mobius/Core/Serializer/ConfigNode.cpp:128-130 | A new flag list has no flags and no children. |
| Config.ConfigNode.HasAttribute | Sources/Mobius/Core/Serializer/ConfigNode.cpp:52-55 | `hasAttribute(n)` holds iff n is a key of the attribute map. |
| Config.ConfigNode.GetAttribute | Sources/Mobius/Core/Serializer/ConfigNode.cpp:24-27 | For a present name, it returns the stored value. |
| Config.ConfigNode.GetAttributeInto | Sources/Mobius/Core/Serializer/ConfigNode.cpp:42-44 | `getAttribute<std::string>(n, out)` leaves `out` as it was for an absent name and gives the stored value otherwise. |
| Config.ConfigNode.GetFloatInto | Sources/Mobius/Core/Serializer/ConfigNode.cpp:36-39 | `getAttribute<float>(n, out)` leaves `out` as it was for an absent name, and gives the parser's number otherwise. |
| Config.ConfigNode.GetUnsignedInto | Sources/Mobius/Core/Serializer/ConfigNode.cpp:46-49 | `getAttribute<unsigned int>(n, out)` leaves `out` as it was for an absent name. Otherwise the parser's boolean result is assigned over `*out`, so the value is 1 or 0. |
| Config.ConfigNode.AddAttribute | Sources/Mobius/Core/Serializer/ConfigNode.cpp:111-114 | `map::insert` keeps the first value of a name already present. Name, text, children and flags are unchanged. |
| Config.ConfigNode.SetText | Sources/Mobius/Core/Serializer/ConfigNode.cpp:116-118 | It sets the text and changes nothing else. |
| Config.ConfigNode.SetName | Sources/Mobius/Core/Serializer/ConfigNode.cpp:120-122 | It sets the name and changes nothing else. |
| Config.ConfigNode.AddChild | Sources/Mobius/Core/Serializer/ConfigNode.cpp:124-146 | A plain node appends the child at the end and keeps the earlier children. A `FlagList` appends the child's name to its flags and adds no child. |
| Config.ConfigNode.GetChildElementsByName | Sources/Mobius/Core/Serializer/ConfigNode.cpp:73-88 | The loop returns exactly the children with that name, in insertion order. |
| Config.ConfigNode.GetChildElementByName | Sources/Mobius/Core/Serializer/ConfigNode.cpp:90-101 | It returns the first child with that name, or a null reference when there is none. |
| Config.AttributesAfterAdds | Sources/Mobius/Core/Serializer/ConfigNode.cpp:111-114 | After a run of `addAttribute` calls on a new node, `hasAttribute(n)` holds iff n was added, and its value is that of its first addition. |
| Config.AddAttributes | Sources/Mobius/Core/Serializer/ConfigManager.cpp:35-38 | The attribute loop of the XML reader builds exactly the map of the insertions in order, and leaves the children alone. |
| WindowDescriptor.DefaultDescriptor | Sources/Mobius/Server/Render/Window/Descriptor.cpp:21-23 | The default descriptor has identifier 0, an empty frame, Invalid flags, screen 0 and a null title. |
| WindowDescriptor.DefaultFlags | Headers/Mobius/Server/Render/Window/Descriptor.hpp:21-27 | Default is Resizable \| Closable \| Miniaturizable, without Fullscreen or Borderless. |
| WindowDescriptor.FlagBit | Sources/Mobius/Server/Render/Window/Descriptor.cpp:32-36 | Each of the five names maps to one single bit within the five flag bits. Any other string, including one cased differently, maps to nothing. |
| WindowDescriptor.FlagBitsDistinct | Headers/Mobius/Server/Render/Window/Descriptor.hpp:21-25 | Different recognised names have disjoint bits. |
| WindowDescriptor.ParseFlag | Sources/Mobius/Server/Render/Window/Descriptor.cpp:30-37 | `parseFlag` ORs in exactly the name's bit and keeps the others. An unrecognised string leaves the flags unchanged. |
| WindowDescriptor.ParseFlagsMask | Sources/Mobius/Server/Render/Window/Descriptor.cpp:30-37 | Parsing a list of names ORs in exactly the bits of the recognised names in it. |
| WindowDescriptor.ParseFlagsOrderFree | Sources/Mobius/Server/Render/Window/Descriptor.cpp:30-37 | Two lists naming the same flags, in any order and with any repetition, parse to the same flags. |
| WindowDescriptor.ParseFlagsIdempotent | Sources/Mobius/Server/Render/Window/Descriptor.cpp:30-37 | Parsing the same names again changes nothing. |
| BufferDescriptor.DefaultDescriptor | Sources/Mobius/Server/Render/Buffer/Descriptor.cpp:27-29 | The default descriptor is all zero, with the Invalid type and the invalid manager. |
| BufferDescriptor.ConstantsDistinct | Sources/Mobius/Server/Render/Buffer/Descriptor.cpp:12-17 | The types Invalid, Immutable and Mutable are pairwise distinct. InvalidManager differs from SharedManager, which is UINT_MAX. |
| WindowManager.Lookup | Sources/Mobius/Server/Render/Window/Manager.cpp:155-165 | `getWindowIdentifier` gives the mapped id, or throws `InvalidIDException` exactly for an unknown name. |
| WindowManager.Create | Sources/Mobius/Server/Render/Window/Manager.cpp:72-94 | A name already mapped to a non-zero id is rejected before the back-end. A back-end answer with Invalid flags throws `CreationException`. Both errors leave the map unchanged. On success, a new name is mapped to the back-end's identifier and no existing entry changes. |
| WindowManager.Checked | Sources/Mobius/Server/Render/Window/Manager.cpp:96-138 | Query and update throw `InvalidIDException` for an unknown name or one mapped to 0. They throw `QueryException` exactly when the back-end answers Invalid, and otherwise return the back-end's answer. |
| WindowManager.Close | Sources/Mobius/Server/Render/Window/Manager.cpp:140-153 | A known non-zero name is erased, after which its lookup throws. An unknown name throws and changes nothing. Other names keep their ids. |
| WindowManager.RequestedFlags | Sources/Mobius/Server/Render/Window/Manager.cpp:39-50 | The requested flags are never Invalid. They are the parsed names' mask, or Default when no name was recognised. |
| WindowManager.FlagNamesOf | Sources/Mobius/Server/Render/Window/Manager.cpp:37-44 | The flag names parsed are those of the first `<Flags>` child, and there are none without one. |
| WindowManager.Requested | Sources/Mobius/Server/Render/Window/Manager.cpp:30-58 | The requested descriptor has identifier 0 and the requested flags. Its title is the "name" attribute or "". Its screen is 0 without a "screen" attribute. With one, it is the unsigned parser's success flag, 1 or 0, so it is never above 1. Each of x, y, w and h of its frame is the parsed value when the `<Rect>` has that attribute, and 0 otherwise. |
| WindowManager.ParseFlagList | Sources/Mobius/Server/Render/Window/Manager.cpp:39-50 | The flag loop followed by the Default fallback computes `RequestedFlags` of the flag list. |
| WindowManager.Decode | Sources/Mobius/Server/Render/Window/Manager.cpp:16-69 | A missing "identifier" is reported first, then a missing `<Rect>`. With both present, the result is the identifier and the requested descriptor. |
| WindowManager.ParseDescriptor | Sources/Mobius/Server/Render/Window/Manager.cpp:30-58 | The field-by-field filling of the local descriptor builds `Requested`. |
| WindowManager.Manager.constructor | Sources/Mobius/Server/Render/Window/Manager.cpp:167-169 | The manager starts with no windows. |
| WindowManager.Manager.GetWindowIdentifier | Sources/Mobius/Server/Render/Window/Manager.cpp:155-165 | It is the lookup in the singleton's map, and it succeeds iff the name is mapped. |
| WindowManager.Manager.CreateWindow | Sources/Mobius/Server/Render/Window/Manager.cpp:72-94 | The outcome and the new map are those of `Create` applied to the back-end's answer. |
| WindowManager.Manager.QueryWindow | Sources/Mobius/Server/Render/Window/Manager.cpp:96-116 | `Checked` with the query messages, applied to the back-end's answer for the mapped id. |
| WindowManager.Manager.UpdateWindow | Sources/Mobius/Server/Render/Window/Manager.cpp:118-138 | `Checked` with the update messages, applied to the back-end's answer for the mapped id. |
| WindowManager.Manager.CloseWindow | Sources/Mobius/Server/Render/Window/Manager.cpp:140-153 | The outcome and the new map are those of `Close`. |
| WindowManager.Manager.ParseConfig | Sources/Mobius/Server/Render/Window/Manager.cpp:16-70 | A decoding error is thrown with the map unchanged, so no window is created. Otherwise the decoded request goes to `createWindow`. |
| WindowManager.CreateThenLookup | Sources/Mobius/Server/Render/Window/Manager.cpp:84-89 | After a successful creation of a new name, looking it up gives the back-end's identifier. |
| WindowManager.CreateTwiceRejected | Sources/Mobius/Server/Render/Window/Manager.cpp:74-78 | A second creation under a name mapped to a non-zero id throws `InvalidIDException` and leaves the map unchanged. |
| WindowManager.CreateThenClose | Sources/Mobius/Server/Render/Window/Manager.cpp:140-153 | Closing a created window succeeds and restores the map from before the creation. |
| PipelineManager.DefaultDescriptor | Sources/Mobius/Server/Render/Pipeline/Descriptor.cpp:23-25 | The default pipeline descriptor has no window and no shaders, and clear colour (0, 0, 0, 1). Its manager is the invalid constant and its culling is front-face. |
| PipelineManager.CreatePipeline | Sources/Mobius/Server/Render/Pipeline/Manager.cpp:22-36 | An unknown window becomes a pipeline `InvalidIDException`. Otherwise the back-end receives the descriptor with the window's numeric id written into it. |
| PipelineManager.QueryPipeline | Sources/Mobius/Server/Render/Pipeline/Manager.cpp:38-52 | An unknown window becomes a pipeline `InvalidIDException`. Otherwise the result is the back-end's answer for the window's id. |
| PipelineManager.UpdatePipeline | Sources/Mobius/Server/Render/Pipeline/Manager.cpp:54-68 | The same translation, for the update call. |
| PipelineManager.ClosePipeline | Sources/Mobius/Server/Render/Pipeline/Manager.cpp:70-81 | The same translation. On success the back-end's close receives the window's id. |
| PipelineManager.ClearColorOf | Sources/Mobius/Server/Render/Pipeline/Manager.cpp:105-112 | Without a `<ClearColor>` child the colour keeps its default. With one, each of r, g and b is the parsed value when the child has that attribute and 0 otherwise, and a is the parsed value or 1. |
| PipelineManager.CullingOf | Sources/Mobius/Server/Render/Pipeline/Manager.cpp:121-130 | Culling is back-face iff the "culling" attribute is exactly "back". Otherwise, including when it is absent, culling is front-face. |
| PipelineManager.BufferManagerOf | Sources/Mobius/Server/Render/Pipeline/Manager.cpp:114-119 | A non-empty "shared" attribute selects SharedManager. Otherwise the descriptor's default stays. |
| PipelineManager.Decode | Sources/Mobius/Server/Render/Pipeline/Manager.cpp:83-146 | The checks run in order: a missing or empty "window" throws `InvalidIDException`, then a missing `<Vertex>`, then a missing `<Fragment>`. Each error is stated as an if-and-only-if. On success the shaders are the two texts, and the culling, the buffer manager and the clear colour are decoded from the element. |
| PipelineManager.ParseConfig | Sources/Mobius/Server/Render/Pipeline/Manager.cpp:83-146 | The field-by-field filling throws the decoding error. Otherwise it creates the decoded pipeline for the named window. |
| PipelineManager.VertexCheckedFirst | Sources/Mobius/Server/Render/Pipeline/Manager.cpp:91-141 | A missing `<Vertex>` is reported as such whether or not `<Fragment>` is present. |
| PipelineManager.DecodedReachesBackend | Sources/Mobius/Server/Render/Pipeline/Manager.cpp:22-36 | A decoded pipeline for a known window reaches the back-end with that window's id. |
| MetalBuffer.Hash | Sources/Mobius/Platforms/Apple/Metal/Buffer.swift:98-101 | The pool hash is size × count. It fits in 32 bits and is 0 exactly when one factor is. |
| MetalBuffer.NextIndex | Sources/Mobius/Platforms/Apple/Metal/Buffer.swift:63-64 | For a non-negative position, the next position lies in [0, poolSize), is at most one more than the old position, and inside the ring is the following position, wrapping from the last to 0. |
| MetalBuffer.NextIndexPeriodic | Sources/Mobius/Platforms/Apple/Metal/Buffer.swift:63-64 | A position one whole ring further on advances to the same next position. |
| MetalBuffer.BufferPool.constructor | Sources/Mobius/Platforms/Apple/Metal/Buffer.swift:20-31 | A new pool holds poolSize + 1 fresh buffers, each of length size × count, keeps the object size and count, and starts at position 0 with nothing issued. With a positive size, it is a ring. |
| MetalBuffer.BufferPool.AllocatePools | Sources/Mobius/Platforms/Apple/Metal/Buffer.swift:38-49 | It appends n + 1 fresh buffers of the object size (the range is inclusive), keeps the earlier ones and sets poolSize to n. |
| MetalBuffer.BufferPool.GetNextBuffer | Sources/Mobius/Platforms/Apple/Metal/Buffer.swift:55-74 | It returns the 1-based id of the buffer at the current position and advances the ring. In a ring the ids run 1, 2, …, poolSize, 1, … and always lie in [1, poolSize]. |
| MetalBuffer.BufferPool.GetBuffer | Sources/Mobius/Platforms/Apple/Metal/Buffer.swift:79-85 | `getBuffer(i)` returns a buffer iff 1 ≤ i ≤ poolSize, and that buffer is `pool[i-1]`. |
| MetalBuffer.BufferManager.constructor | Sources/Mobius/Platforms/Apple/Metal/Buffer.swift:260-270 | A new manager has no buffers and is registered under its identifier. |
| MetalBuffer.BufferManager.AllocateBuffer | Sources/Mobius/Platforms/Apple/Metal/Buffer.swift:138-165 | The k-th immutable allocation gets identifier k and a new buffer of length count × size, and earlier buffers are unchanged. Another type creates a pool only when no pool has the hash size × count yet. The new pool has the descriptor's size and count and 26 fresh buffers of length size × count. An existing pool is left untouched. |
| MetalBuffer.Registry.constructor | Sources/Mobius/Platforms/Apple/Metal/Buffer.swift:326-329 | There are no managers and no shared manager. |
| MetalBuffer.Registry.MakeShared | Sources/Mobius/Platforms/Apple/Metal/Buffer.swift:303-311 | The shared manager is created once and registered under SharedManager. Later calls return it unchanged. |
| MetalBuffer.Registry.GetImmutableBuffer | Sources/Mobius/Platforms/Apple/Metal/Buffer.swift:173-185 | It returns nil for an unknown manager, identifier 0 or an identifier above the count. Otherwise it returns buffer `identifier - 1`. |
| MetalBuffer.Registry.PoolOf | Sources/Mobius/Platforms/Apple/Metal/Buffer.swift:195-203 | The pool exists iff the manager exists and has a pool for the hash. |
| MetalBuffer.Registry.GetMutableBuffer | Sources/Mobius/Platforms/Apple/Metal/Buffer.swift:193-207 | Given a pool, it returns that pool's `getBuffer` of the identifier, and nil without one. |
| MetalBuffer.Registry.AssignMutableBuffer | Sources/Mobius/Platforms/Apple/Metal/Buffer.swift:216-230 | It returns 0 when the manager or the pool is missing. The 32-bit hash is required to fit only when the manager exists, because the source returns before computing it otherwise. Otherwise it returns the id the ring hands out next: one more than the old position, within [1, 25]. The pool stays a ring, and its buffers, object size and object count are unchanged. |
| MetalBuffer.Registry.Assign | Sources/Mobius/Platforms/Apple/Metal/Buffer.swift:348-358 | Only a Mutable descriptor needs a hash that fits in 32 bits, because the source returns first for other types. A non-Mutable descriptor is left unchanged, and so is its pool. A Mutable one changes only its identifier, which is 0 exactly when no pool serves it. With a pool, the identifier is the next one of the ring and the descriptor then names the pool buffer at the old ring position. |
| MetalBuffer.AssignTwice | Sources/Mobius/Platforms/Apple/Metal/Buffer.swift:60-73 | Two assignments for the same Mutable descriptor receive consecutive ring identifiers in [1, 25], the second wrapping from 25 to 1. |
| WindowBase.ParseWindowFlags | Sources/Mobius/Platforms/Apple/macOS/Swift/WindowBase.swift:257-271 | The style built by the `if` chain is `StyleOf(flags)`. |
| WindowBase.ParseWindowStyle | Sources/Mobius/Platforms/Apple/macOS/Swift/WindowBase.swift:279-295 | It is 0 without a window, and otherwise the flags read back by testing each style bit (`FlagsOf`). |
| WindowBase.ClosableBit | Sources/Mobius/Platforms/Apple/macOS/Swift/WindowBase.swift:260 | For disjoint raw values, of which borderless may be 0 as in AppKit, the style has the closable bit iff Closable is requested. |
| WindowBase.ResizableBit | Sources/Mobius/Platforms/Apple/macOS/Swift/WindowBase.swift:261 | The style has the resizable bit iff Resizable is requested. |
| WindowBase.MiniaturizableBit | Sources/Mobius/Platforms/Apple/macOS/Swift/WindowBase.swift:262 | The style has the miniaturizable bit iff Miniaturizable is requested. |
| WindowBase.FullscreenBit | Sources/Mobius/Platforms/Apple/macOS/Swift/WindowBase.swift:263 | The style has the fullScreen bit iff Fullscreen is requested. |
| WindowBase.BorderlessBit | Sources/Mobius/Platforms/Apple/macOS/Swift/WindowBase.swift:263-267 | The style has the borderless bit iff Borderless is requested without Fullscreen. |
| WindowBase.TitledBit | Sources/Mobius/Platforms/Apple/macOS/Swift/WindowBase.swift:263-267 | The style has the titled bit iff neither Fullscreen nor Borderless is requested. |
| WindowBase.IndependentBits | Sources/Mobius/Platforms/Apple/macOS/Swift/WindowBase.swift:260-262 | Closable, Resizable and Miniaturizable each select their own style bit, independently of the other flags. |
| WindowBase.FrameStyle | Sources/Mobius/Platforms/Apple/macOS/Swift/WindowBase.swift:263-267 | Fullscreen suppresses both borderless and titled. Without Fullscreen, exactly one of the two is set, and borderless is set exactly when the Borderless flag is. |
| WindowBase.StyleRoundTrip | Sources/Mobius/Platforms/Apple/macOS/Swift/WindowBase.swift:257-295 | For disjoint non-zero raw values, reading back the style built from flags gives the five known flags of the input, except that Borderless is lost under Fullscreen. |
| WindowBase.ZeroBorderlessRoundTrip | Sources/Mobius/Platforms/Apple/macOS/Swift/WindowBase.swift:257-295 | With a zero borderless raw value, reading back the style built from flags gives the known flags of the input without Borderless, with or without Fullscreen. |
| WindowBase.ZeroBorderlessNeverRead | Sources/Mobius/Platforms/Apple/macOS/Swift/WindowBase.swift:289 | If the borderless raw value is 0, the back-end never reports Borderless for any style. |
| WindowBase.ScreenByIndex | Sources/Mobius/Platforms/Apple/macOS/Swift/WindowBase.swift:323-334 | There is a screen iff the index is below the screen count, and then it is the screen at that index. |
| WindowBase.IndexFromScreen | Sources/Mobius/Platforms/Apple/macOS/Swift/WindowBase.swift:342-348 | The index is 0 without a screen, and the screen's position otherwise. |
| WindowBase.Registry.constructor | Sources/Mobius/Platforms/Apple/macOS/Swift/WindowBase.swift:249 | There are no windows and the counter is 0. |
| WindowBase.Registry.QueryWindow | Sources/Mobius/Platforms/Apple/macOS/Swift/WindowBase.swift:146-165 | It returns nil exactly for an absent id. Otherwise the descriptor has identifier equal to the id, the flags read back from the style, and the reported frame and screen. |
| WindowBase.Registry.CreateWindow | Sources/Mobius/Platforms/Apple/macOS/Swift/WindowBase.swift:111-138 | The counter grows by one, and the new id was not in use. The window with the requested style and title is stored under it, and the result is the query of that id. |
| WindowBase.Registry.UpdateWindow | Sources/Mobius/Platforms/Apple/macOS/Swift/WindowBase.swift:175-208 | An absent id gives nil and changes nothing. Otherwise the window takes the new style and title, and the answer is the query of the most recently issued id, not of the updated one. |
| WindowBase.Registry.CloseWindow | Sources/Mobius/Platforms/Apple/macOS/Swift/WindowBase.swift:216-225 | It removes exactly that id. An absent id is a no-op, and the counter is unchanged. |
| WindowBase.CloseThenCreate | Sources/Mobius/Platforms/Apple/macOS/Swift/WindowBase.swift:128-134 | A window created after another was closed gets a larger, different id, so ids are never reused. |
| WindowBase.UpdateAnswersNewest | Sources/Mobius/Platforms/Apple/macOS/Swift/WindowBase.swift:207 | Updating an older window answers with the newest window's identifier. |

## Left out

- **Memory and address reuse.**
  - Object destruction is a removal from the live set. Destructors of the objects themselves, including the cascade of handle destructions a `delete` triggers, are not modelled.
  - Addresses are never reused, and the pointer shift of a `static_cast` upcast under multiple inheritance is not modelled.
- **Dereference and the `WeakPointer` destructor.**
  - The dereference operators of both handles are only reads of the stored address.
  - The `WeakPointer` destructor is empty, so it is not a member: a weak handle going away changes nothing.
- **Exceptions in the engine.** The exceptions thrown by the ledger and the factory are modelled as results. How `Engine.cpp` catches them is not part of this model.
- **Reflection.**
  - `Object::getPrototype()` (the `MOBJECT_SOURCE_INSTANCEGETTER` macro) only returns `Prototype::instance()`, which `PrototypeSlot.Instance` models.
  - The load-time registration through a static initialiser is modelled as an explicit first call of `instance()`.
- **Configuration tree.**
  - The TinyXML number parsers behind `getAttribute<float>` and `getAttribute<unsigned int>` are left out. What they produce enters as a parameter: the parsed float, and the unsigned parser's success flag. A float text that fails to parse is not distinguished from one that parses.
  - The XML reading and the path handling of the configuration manager are left out. Only its attribute loop is modelled, as `Config.AddAttributes`.
  - Config nodes are held by plain object references rather than through the strong handles of the source.
  - `GetText` and `GetName` are plain reads of the fields they name.
- **Window manager and window records.**
  - A `<Flags>` child is read through its flag list. A `<Flags>` element that is not a `FlagList` is a static-cast mismatch in the source and is not modelled.
  - The back-end is a function parameter, so the window manager is not composed with the Swift registry that implements it.
  - The frame and the screen are carried, never computed on. The `Rect2f`/`NSRect` converters are left out.
- **Metal buffer back-end.**
  - The buffer bytes, `makeBuffer`, `copyMemory` and `didModifyRange` are left out. A Metal buffer is an identity with a length.
  - The semaphore `wait`/`signal` and `freeBufferInPool` are left out, because they only throttle concurrent use of the ring.
  - `makeShared(device: nil)` force-unwraps a nil device the first time it runs. The model creates the manager without a device.
  - `getBufferManager` and `sMB_RNDR_BUF_allocate` are left out, because they depend on the Swift pipeline manager, which is not part of this model.
- **macOS window back-end.**
  - AppKit window creation, placement (`setContentSize`, `setFrameOrigin`) and the window delegate's close events are left out.
- Reflection.MakeEmptyObject: the abstract prototype's `assert(false)` is an `AssertionFailure` result. In a release build the source would instead return a null handle.
- Config.ConfigNode.GetAttribute: it requires the attribute to be present. The source dereferences `end()` for an absent name, which is undefined behaviour.
- MetalBuffer.NextIndex: it requires a non-negative position. Swift's `%` truncates toward zero while Dafny's is Euclidean, and the two agree there; the ring position is never negative.
- WindowBase.Registry.QueryWindow: the title is not read back because the source does not read it, so the descriptor's title is always null.
- WindowBase.Registry.CreateWindow: it requires the counter to be below UINT_MAX, because the Swift increment traps there.
- WindowBase.Registry.UpdateWindow: it requires a title for a registered window, because `String(cString:)` of a null title traps there.
- WindowBase.ZeroBorderlessNeverRead: AppKit defines `borderless` with raw value 0. Under that value the test at `parseWindowStyle` line 289 never fires, so a queried window is never reported Borderless. The model keeps the raw values abstract and states this as a lemma rather than assuming AppKit's constants.
- **Diagnostics and counter width.**
  - `Factory::makeObject` prints a diagnostic before it throws for an invalid prototype. The print is left out; the thrown result is modelled.
  - The ledger stores each count in a C++ `int`. The model counts with an unbounded `int`, so an overflow past `INT_MAX` owners is not modelled.
- **Factory documentation.** `Factory.hpp` says that `makeObject(className)` returns an invalidated pointer for an unknown name. The code throws instead, and the model follows the code.
