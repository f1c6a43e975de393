/**
 * The buffer descriptor (Buffer/Descriptor.cpp): the record describing one render buffer,
 * the reserved manager identifiers and the buffer types. It is a C struct copied by value,
 * so it is a datatype; the field constructor is the datatype constructor and the copy
 * constructor is value copy.
 */
module BufferDescriptor {
  import opened Wrappers

  /** `cMB_RNDR_BUF_InvalidManager`. */
  const InvalidManager: u32 := 0
  /** `cMB_RNDR_BUF_SharedManager`: `UINT_MAX`. */
  const SharedManager: u32 := UINT_MAX

  /** `cMB_RNDR_BUF_Invalid`. */
  const InvalidType: u32 := 0
  /** `cMB_RNDR_BUF_Immutable`. */
  const Immutable: u32 := 1
  /** `cMB_RNDR_BUF_Mutable`. */
  const Mutable: u32 := 2

  /** `cMB_RNDR_BUF_Descriptor`; `bufferType` is the source's `type` field. */
  datatype Descriptor = Descriptor(manager: u32, identifier: u32, objectCount: u32, objectSize: u32, bufferType: u32)

  /** `Descriptor()`: every field 0, so the type is Invalid and the manager is the invalid one. */
  function DefaultDescriptor(): (d: Descriptor)
    ensures d.manager == InvalidManager && d.identifier == 0
    ensures d.objectCount == 0 && d.objectSize == 0 && d.bufferType == InvalidType
  {
    Descriptor(0, 0, 0, 0, InvalidType)
  }

  /** The three buffer types are distinct, and the two reserved managers are distinct. */
  lemma ConstantsDistinct()
    ensures InvalidType != Immutable && Immutable != Mutable && InvalidType != Mutable
    ensures InvalidManager != SharedManager && SharedManager == 0xFFFF_FFFF
  {
  }
}
