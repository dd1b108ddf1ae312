/**
 * The `IInitDoneBase` view (`init_done.rs`), at word `INIT_DONE` of the
 * component: lifecycle entries forwarded to the add-in, and the slot that
 * stores the host's memory manager.
 */
module InitDone {
  import opened Prim
  import opened Wrappers
  import opened HostMemory
  import opened Interface
  import opened Ffi

  datatype Slot = DtorSlot | Dtor2Slot | InitSlot | SetMemManagerSlot | GetInfoSlot | DoneSlot

  /** `InitDoneBaseVTable`: the unix C++ ABI has two destructor entries, windows one. */
  function VTable(p: Platform): (t: seq<Slot>)
    ensures |t| == (if p == Unix then 6 else 5) && t[0] == DtorSlot
    ensures forall k :: 1 <= k < |t| ==> t[k] != DtorSlot
  {
    (if p == Unix then [DtorSlot, Dtor2Slot] else [DtorSlot]) + [InitSlot, SetMemManagerSlot, GetInfoSlot, DoneSlot]
  }

  /** Every entry after the destructors sits one slot later on unix than on windows. */
  lemma VTableShift(k: nat)
    requires 1 <= k < |VTable(Windows)|
    ensures VTable(Unix)[k + 1] == VTable(Windows)[k]
  {
  }

  /** `init`: the add-in's own answer; nothing else in the component changes. */
  method Init<S>(c: Component<S>, connection: ConnectionRef) returns (ok: bool)
    modifies c
    ensures (ok, c.addin) == c.impl.init(old(c.addin), connection)
    ensures c.memoryManager == old(c.memoryManager) && c.connection == old(c.connection)
    ensures c.locale == old(c.locale) && c.userInterfaceLanguageCode == old(c.userInterfaceLanguageCode)
  {
    var answer := c.impl.init(c.addin, connection);
    ok := answer.0;
    c.addin := answer.1;
  }

  /** `set_mem_manager`: stores the manager and always answers true. */
  method SetMemManager<S>(c: Component<S>, mem: MemoryManager) returns (ok: bool)
    modifies c
    ensures ok && c.memoryManager == Some(mem) && c.addin == old(c.addin)
    ensures c.connection == old(c.connection) && c.locale == old(c.locale)
    ensures c.userInterfaceLanguageCode == old(c.userInterfaceLanguageCode)
  {
    c.memoryManager := Some(mem);
    ok := true;
  }

  /** `get_info`: the add-in's version number, as `c_long`. */
  method GetInfo<S>(c: Component<S>) returns (v: int)
    ensures v == c.impl.getInfo(c.addin)
  {
    v := AsCLong(c.platform, c.impl.getInfo(c.addin));
  }

  /** `done`: forwarded. */
  method Done<S>(c: Component<S>)
    modifies c
    ensures c.addin == c.impl.done(old(c.addin)) && c.memoryManager == old(c.memoryManager)
    ensures c.connection == old(c.connection) && c.locale == old(c.locale)
    ensures c.userInterfaceLanguageCode == old(c.userInterfaceLanguageCode)
  {
    c.addin := c.impl.done(c.addin);
  }
}
