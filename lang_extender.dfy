/**
 * The `ILanguageExtenderBase` view (`lang_extender.rs`), at word
 * `LANG_EXTENDER` of the component: the shims that turn host calls into
 * add-in calls, convert indices between `c_long` and `usize`, and move
 * values between host variants and `ParamValue`s.
 */
module LangExtender {
  import opened Prim
  import opened Wrappers
  import opened HostMemory
  import opened StringUtils
  import opened ProvidedTypes
  import opened Interface
  import opened Ffi

  datatype Slot =
    | DtorSlot | Dtor2Slot | RegisterExtensionAsSlot | GetNPropsSlot | FindPropSlot | GetPropNameSlot
    | GetPropValSlot | SetPropValSlot | IsPropReadableSlot | IsPropWritableSlot | GetNMethodsSlot
    | FindMethodSlot | GetMethodNameSlot | GetNParamsSlot | GetParamDefValueSlot | HasRetValSlot
    | CallAsProcSlot | CallAsFuncSlot

  /** `LanguageExtenderBaseVTable` in declaration order. */
  function VTable(p: Platform): (t: seq<Slot>)
    ensures |t| == (if p == Unix then 18 else 17)
    ensures t[|t| - 1] == CallAsFuncSlot && t[|t| - 2] == CallAsProcSlot
  {
    (if p == Unix then [DtorSlot, Dtor2Slot] else [DtorSlot]) +
    [RegisterExtensionAsSlot, GetNPropsSlot, FindPropSlot, GetPropNameSlot, GetPropValSlot,
     SetPropValSlot, IsPropReadableSlot, IsPropWritableSlot, GetNMethodsSlot, FindMethodSlot,
     GetMethodNameSlot, GetNParamsSlot, GetParamDefValueSlot, HasRetValSlot, CallAsProcSlot,
     CallAsFuncSlot]
  }

  /** The allocator the shims use, as a frame. */
  function MemoryOf<S>(c: Component<S>): set<MemoryManager>
    reads c
  {
    if c.memoryManager.Some? then {c.memoryManager.value} else {}
  }

  /** `register_extension_as`: the add-in's name copied into a host block whose address goes to `*name`. */
  method RegisterExtensionAs<S>(c: Component<S>) returns (ok: bool, name: Option<Ptr>)
    modifies c, MemoryOf(c)
    ensures c.memoryManager == old(c.memoryManager)
    ensures old(c.memoryManager).None? ==> !ok && name.None? && c.addin == old(c.addin)
    ensures old(c.memoryManager).Some? ==>
      var mem := old(c.memoryManager).value;
      var (ext, s) := c.impl.registerExtensionAs(old(c.addin));
      c.addin == s && mem.requests == old(mem.RequestsAfter(|ext|)) && mem.freed == old(mem.freed) &&
      (old(mem.NextAlloc(|ext|)).None? ==> !ok && name.None? && mem.heap == old(mem.heap)) &&
      (old(mem.NextAlloc(|ext|)).Some? ==>
         ok && name == old(mem.NextAlloc(|ext|)) &&
         mem.heap == old(mem.heap)[name.value := UnitsToBytes(ext)])
  {
    if c.memoryManager.None? {
      return false, None;
    }
    var mem := c.memoryManager.value;
    var answer := c.impl.registerExtensionAs(c.addin);
    var ext := answer.0;
    c.addin := answer.1;
    var block := mem.AllocStr(|ext|);
    if block.Err? {
      return false, None;
    }
    mem.Copy(block.value, UnitsToBytes(ext));
    assert mem.heap[block.value] == UnitsToBytes(ext);
    return true, Some(block.value);
  }

  /** `get_n_props`. */
  method GetNProps<S>(c: Component<S>) returns (n: int)
    ensures n == AsCLong(c.platform, c.impl.getNProps(c.addin))
  {
    n := AsCLong(c.platform, c.impl.getNProps(c.addin));
  }

  /** The answer of `find_prop`/`find_method`: the index as `c_long`, or -1. */
  function FoundIndex(p: Platform, found: Option<nat>): (r: int)
    ensures found.None? ==> r == -1
    ensures found.Some? && found.value < LongRange(p) / 2 ==> r == found.value
  {
    match found
    case None => -1
    case Some(i) => AsCLong(p, i)
  }

  /**
   * `find_prop`: the name is read up to and including its terminator, then
   * looked up. `name` is the host memory at the name pointer.
   */
  method FindProp<S>(c: Component<S>, name: seq<u16>) returns (r: int)
    requires exists k :: 0 <= k < |name| && name[k] == 0
    ensures r == FoundIndex(c.platform, c.impl.findProp(c.addin, name[..FirstZero(name) + 1]))
  {
    var s := GetStr(name);
    r := FoundIndex(c.platform, c.impl.findProp(c.addin, s));
  }

  /** `find_method`: as `find_prop`, for methods. */
  method FindMethod<S>(c: Component<S>, name: seq<u16>) returns (r: int)
    requires exists k :: 0 <= k < |name| && name[k] == 0
    ensures r == FoundIndex(c.platform, c.impl.findMethod(c.addin, name[..FirstZero(name) + 1]))
  {
    var s := GetStr(name);
    r := FoundIndex(c.platform, c.impl.findMethod(c.addin, s));
  }

  /**
   * A name the add-in returns, copied into a fresh host block: null when no
   * manager is set, when there is no name, or when the allocation fails.
   * Exactly the returned units are copied; no terminator is added.
   */
  method CopyName(mem: MemoryManager, found: Option<seq<u16>>) returns (r: Ptr)
    modifies mem
    ensures mem.freed == old(mem.freed)
    ensures found.None? ==> r == NULL && mem.heap == old(mem.heap) && mem.requests == old(mem.requests)
    ensures found.Some? ==> mem.requests == old(mem.RequestsAfter(|found.value|))
    ensures found.Some? && old(mem.NextAlloc(|found.value|)).None? ==> r == NULL && mem.heap == old(mem.heap)
    ensures found.Some? && old(mem.NextAlloc(|found.value|)).Some? ==>
      r == old(mem.NextAlloc(|found.value|)).value && r != NULL &&
      mem.heap == old(mem.heap)[r := UnitsToBytes(found.value)]
  {
    if found.None? {
      return NULL;
    }
    var block := mem.AllocStr(|found.value|);
    if block.Err? {
      return NULL;
    }
    mem.Copy(block.value, UnitsToBytes(found.value));
    assert mem.heap[block.value] == UnitsToBytes(found.value);
    return block.value;
  }

  /** `get_prop_name`: indices arrive as `c_long` and go to the add-in as `usize`. */
  method GetPropName<S>(c: Component<S>, num: int, alias: int) returns (r: Ptr)
    modifies MemoryOf(c)
    ensures old(c.memoryManager).None? ==> r == NULL
    ensures old(c.memoryManager).Some? ==>
      var mem := old(c.memoryManager).value;
      var found := c.impl.getPropName(c.addin, AsUsize(num), AsUsize(alias));
      mem.freed == old(mem.freed) &&
      (found.None? ==> r == NULL && mem.heap == old(mem.heap) && mem.requests == old(mem.requests)) &&
      (found.Some? ==> mem.requests == old(mem.RequestsAfter(|found.value|))) &&
      (found.Some? && old(mem.NextAlloc(|found.value|)).Some? ==>
         r == old(mem.NextAlloc(|found.value|)).value && r != NULL &&
         mem.heap == old(mem.heap)[r := UnitsToBytes(found.value)]) &&
      (found.Some? && old(mem.NextAlloc(|found.value|)).None? ==> r == NULL && mem.heap == old(mem.heap))
  {
    if c.memoryManager.None? {
      return NULL;
    }
    r := CopyName(c.memoryManager.value, c.impl.getPropName(c.addin, AsUsize(num), AsUsize(alias)));
  }

  /** `get_method_name`: as `get_prop_name`, for methods. */
  method GetMethodName<S>(c: Component<S>, num: int, alias: int) returns (r: Ptr)
    modifies MemoryOf(c)
    ensures old(c.memoryManager).None? ==> r == NULL
    ensures old(c.memoryManager).Some? ==>
      var mem := old(c.memoryManager).value;
      var found := c.impl.getMethodName(c.addin, AsUsize(num), AsUsize(alias));
      mem.freed == old(mem.freed) &&
      (found.None? ==> r == NULL && mem.heap == old(mem.heap) && mem.requests == old(mem.requests)) &&
      (found.Some? ==> mem.requests == old(mem.RequestsAfter(|found.value|))) &&
      (found.Some? && old(mem.NextAlloc(|found.value|)).Some? ==>
         r == old(mem.NextAlloc(|found.value|)).value && r != NULL &&
         mem.heap == old(mem.heap)[r := UnitsToBytes(found.value)]) &&
      (found.Some? && old(mem.NextAlloc(|found.value|)).None? ==> r == NULL && mem.heap == old(mem.heap))
  {
    if c.memoryManager.None? {
      return NULL;
    }
    r := CopyName(c.memoryManager.value, c.impl.getMethodName(c.addin, AsUsize(num), AsUsize(alias)));
  }

  /**
   * What the add-in's setter call does to a `ReturnValue`: the matching
   * `set_*`, Empty being `set_empty`. Only a failed allocation clears `result`.
   */
  method ApplyReturn(rv: ReturnValue, v: ParamValue)
    modifies rv, rv.variant, rv.mem
    ensures rv.mem.freed == old(rv.mem.freed)
    ensures !NeedsBlock(v) ==>
      rv.result == old(rv.result) && rv.variant.Fields() == Returned(old(rv.variant.Fields()), v, NULL) &&
      rv.mem.heap == old(rv.mem.heap) && rv.mem.requests == old(rv.mem.requests)
    ensures NeedsBlock(v) ==> rv.mem.requests == old(rv.mem.RequestsAfter(PayloadLength(v)))
    ensures NeedsBlock(v) && old(rv.mem.NextAlloc(PayloadLength(v))).None? ==>
      !rv.result && rv.variant.Fields() == old(rv.variant.Fields()) && rv.mem.heap == old(rv.mem.heap)
    ensures NeedsBlock(v) && old(rv.mem.NextAlloc(PayloadLength(v))).Some? ==>
      var p := old(rv.mem.NextAlloc(PayloadLength(v))).value;
      rv.result == old(rv.result) && rv.variant.Fields() == Returned(old(rv.variant.Fields()), v, p) &&
      rv.mem.heap == old(rv.mem.heap)[p := StoredBlock(v)]
  {
    match v
    case Empty => rv.SetEmpty();
    case Bool(b) => rv.SetBool(b);
    case I32(i) => rv.SetI32(i);
    case F64(d) => rv.SetF64(d);
    case Date(t) => rv.SetDate(t);
    case Str(u) => rv.SetStr(u);
    case Blob(b) => rv.SetBlob(b);
  }

  /** Whether storing `v` through a fresh `ReturnValue` leaves `result` set. */
  predicate ReturnSucceeds(mem: MemoryManager, v: ParamValue)
    reads mem
  {
    !NeedsBlock(v) || mem.NextAlloc(PayloadLength(v)).Some?
  }

  /**
   * The allocator's state after a `ReturnValue` setter stores `v`: a string
   * or blob asks for one block, whose contents are the value's bytes when it
   * is granted; no block is freed.
   */
  function StoreReturn(m: MemoryManager, st: MemState, v: ParamValue): MemState {
    if !NeedsBlock(v) then st
    else
      var log := m.LogAfter(st.requests, PayloadLength(v));
      match m.AllocAt(|st.requests|, PayloadLength(v))
      case None => st.(requests := log)
      case Some(q) => st.(heap := st.heap[q := StoredBlock(v)], requests := log)
  }

  /**
   * A value stored through a `ReturnValue` whose allocation succeeded reads
   * back from the new heap as itself (Empty aside, which carries no data).
   */
  lemma {:induction false} StoredReturnReadsBack(m: MemoryManager, st: MemState, f: VariantFields, v: ParamValue)
    requires !v.Empty?
    requires v.Str? ==> |v.units| < U32_RANGE
    requires v.Blob? ==> |v.bytes| < U32_RANGE
    requires NeedsBlock(v) ==> m.AllocAt(|st.requests|, PayloadLength(v)).Some?
    ensures var q := if NeedsBlock(v) then m.AllocAt(|st.requests|, PayloadLength(v)).value else NULL;
      FieldsReadable(Returned(f, v, q), StoreReturn(m, st, v).heap) &&
      ReadFields(Returned(f, v, q), StoreReturn(m, st, v).heap) == v
  {
    var q := if NeedsBlock(v) then m.AllocAt(|st.requests|, PayloadLength(v)).value else NULL;
    var heap := StoreReturn(m, st, v).heap;
    assert NeedsBlock(v) ==> q in heap && heap[q] == StoredBlock(v);
    UpdatedReadsBack(f, v, q, heap);
  }

  /**
   * The common tail of `get_prop_val` and `get_param_def_value`: true only
   * if the add-in produced a value AND storing it did not clear `result`.
   */
  method ReturnInto(mem: MemoryManager, val: TVariant, answer: Option<ParamValue>) returns (ok: bool)
    modifies val, mem
    ensures mem.freed == old(mem.freed)
    ensures answer.None? ==> !ok && val.Fields() == old(val.Fields()) && mem.heap == old(mem.heap)
    ensures answer.Some? ==> ok == old(ReturnSucceeds(mem, answer.value))
    ensures answer.Some? && !ok ==> val.Fields() == old(val.Fields()) && mem.heap == old(mem.heap)
    ensures answer.Some? && ok ==>
      var p := if NeedsBlock(answer.value) then old(mem.NextAlloc(PayloadLength(answer.value))).value else NULL;
      val.Fields() == Returned(old(val.Fields()), answer.value, p)
    ensures answer.None? ==> mem.State() == old(mem.State())
    ensures answer.Some? ==> mem.State() == StoreReturn(mem, old(mem.State()), answer.value)
  {
    var rv := new ReturnValue(mem, val);
    if answer.None? {
      return false;
    }
    ApplyReturn(rv, answer.value);
    ok := rv.result;
  }

  /** `get_prop_val`. */
  method GetPropVal<S>(c: Component<S>, num: int, val: TVariant) returns (ok: bool)
    modifies val, MemoryOf(c)
    ensures old(c.memoryManager).None? ==> !ok && val.Fields() == old(val.Fields())
    ensures old(c.memoryManager).Some? ==>
      var mem := old(c.memoryManager).value;
      var answer := c.impl.getPropVal(c.addin, AsUsize(num));
      (answer.None? ==> !ok && val.Fields() == old(val.Fields()) && mem.State() == old(mem.State())) &&
      (answer.Some? ==> mem.State() == StoreReturn(mem, old(mem.State()), answer.value)) &&
      (answer.Some? ==> ok == old(ReturnSucceeds(mem, answer.value))) &&
      (answer.Some? && ok ==>
         val.Fields() == Returned(old(val.Fields()), answer.value,
                                  if NeedsBlock(answer.value) then old(mem.NextAlloc(PayloadLength(answer.value))).value else NULL))
  {
    if c.memoryManager.None? {
      return false;
    }
    ok := ReturnInto(c.memoryManager.value, val, c.impl.getPropVal(c.addin, AsUsize(num)));
  }

  /** `get_param_def_value`. */
  method GetParamDefValue<S>(c: Component<S>, methodNum: int, paramNum: int, val: TVariant) returns (ok: bool)
    modifies val, MemoryOf(c)
    ensures old(c.memoryManager).None? ==> !ok && val.Fields() == old(val.Fields())
    ensures old(c.memoryManager).Some? ==>
      var mem := old(c.memoryManager).value;
      var answer := c.impl.getParamDefValue(c.addin, AsUsize(methodNum), AsUsize(paramNum));
      (answer.None? ==> !ok && val.Fields() == old(val.Fields()) && mem.State() == old(mem.State())) &&
      (answer.Some? ==> mem.State() == StoreReturn(mem, old(mem.State()), answer.value)) &&
      (answer.Some? ==> ok == old(ReturnSucceeds(mem, answer.value))) &&
      (answer.Some? && ok ==>
         val.Fields() == Returned(old(val.Fields()), answer.value,
                                  if NeedsBlock(answer.value) then old(mem.NextAlloc(PayloadLength(answer.value))).value else NULL))
  {
    if c.memoryManager.None? {
      return false;
    }
    ok := ReturnInto(c.memoryManager.value, val, c.impl.getParamDefValue(c.addin, AsUsize(methodNum), AsUsize(paramNum)));
  }

  /** `set_prop_val`: the variant is read (no manager needed) and handed to the add-in. */
  method SetPropVal<S>(c: Component<S>, num: int, val: TVariant, heap: map<Ptr, seq<u8>>) returns (ok: bool)
    requires FieldsReadable(val.Fields(), heap)
    modifies c
    ensures (ok, c.addin) == c.impl.setPropVal(old(c.addin), AsUsize(num), ReadFields(val.Fields(), heap))
    ensures c.memoryManager == old(c.memoryManager)
  {
    var answer := c.impl.setPropVal(c.addin, AsUsize(num), ReadFields(val.Fields(), heap));
    ok := answer.0;
    c.addin := answer.1;
  }

  method IsPropReadable<S>(c: Component<S>, num: int) returns (r: bool)
    ensures r == c.impl.isPropReadable(c.addin, AsUsize(num))
  {
    r := c.impl.isPropReadable(c.addin, AsUsize(num));
  }

  method IsPropWritable<S>(c: Component<S>, num: int) returns (r: bool)
    ensures r == c.impl.isPropWritable(c.addin, AsUsize(num))
  {
    r := c.impl.isPropWritable(c.addin, AsUsize(num));
  }

  method GetNMethods<S>(c: Component<S>) returns (n: int)
    ensures n == AsCLong(c.platform, c.impl.getNMethods(c.addin))
  {
    n := AsCLong(c.platform, c.impl.getNMethods(c.addin));
  }

  method GetNParams<S>(c: Component<S>, num: int) returns (n: int)
    ensures n == AsCLong(c.platform, c.impl.getNParams(c.addin, AsUsize(num)))
  {
    n := AsCLong(c.platform, c.impl.getNParams(c.addin, AsUsize(num)));
  }

  method HasRetVal<S>(c: Component<S>, methodNum: int) returns (r: bool)
    ensures r == c.impl.hasRetVal(c.addin, AsUsize(methodNum))
  {
    r := c.impl.hasRetVal(c.addin, AsUsize(methodNum));
  }

  // ---- Parameter write-back -------------------------------------------------

  function FieldsOf(ps: seq<TVariant>): (r: seq<VariantFields>)
    reads set i | 0 <= i < |ps| :: ps[i]
    ensures |r| == |ps| && forall i :: 0 <= i < |ps| ==> r[i] == ps[i].Fields()
  {
    if ps == [] then [] else [ps[0].Fields()] + FieldsOf(ps[1..])
  }

  predicate AllReadable(fs: seq<VariantFields>, heap: map<Ptr, seq<u8>>) {
    forall i :: 0 <= i < |fs| ==> FieldsReadable(fs[i], heap)
  }

  /** The values the host's parameter slots hold. */
  predicate ReadsAs(fs: seq<VariantFields>, heap: map<Ptr, seq<u8>>, vals: seq<ParamValue>)
    requires AllReadable(fs, heap)
  {
    |vals| == |fs| && forall i :: 0 <= i < |fs| ==> vals[i] == ReadFields(fs[i], heap)
  }

  predicate Distinct(ps: seq<TVariant>) {
    forall i, j :: 0 <= i < j < |ps| ==> ps[i] != ps[j]
  }

  /** `parameters_raw.iter().map(ParamValue::from).collect()`. */
  method ReadParams(params: seq<TVariant>, heap: map<Ptr, seq<u8>>) returns (vals: seq<ParamValue>)
    requires AllReadable(FieldsOf(params), heap)
    ensures ReadsAs(FieldsOf(params), heap, vals)
  {
    vals := [];
    var i := 0;
    while i < |params|
      invariant 0 <= i <= |params| && |vals| == i
      invariant forall j :: 0 <= j < i ==> vals[j] == ReadFields(params[j].Fields(), heap)
    {
      vals := vals + [ReadFields(params[i].Fields(), heap)];
      i := i + 1;
    }
  }

  /**
   * The state of one host slot after write-back: untouched when the value
   * compares equal to its snapshot, otherwise updated to the new value
   * (Empty changes nothing; a string or blob gets a new block).
   */
  predicate SlotAfter(p: Platform, before: VariantFields, snap: ParamValue, v: ParamValue, after: VariantFields) {
    if ParamEq(p, snap, v) then after == before else after == Updated(before, v, after.ptr)
  }

  /**
   * The outcome of the write-back loop: it stops at slot `stop`, the first
   * changed string or blob whose allocation failed, or handles every slot.
   * Slots before `stop` hold their new values, the rest are untouched.
   */
  predicate WrittenBack(p: Platform, before: seq<VariantFields>, snap: seq<ParamValue>, vals: seq<ParamValue>,
                        after: seq<VariantFields>, ok: bool, stop: nat)
    requires |snap| == |before| && |vals| == |before| && |after| == |before|
  {
    && stop <= |before| && (ok <==> stop == |before|)
    && (!ok ==> NeedsBlock(vals[stop]) && !ParamEq(p, snap[stop], vals[stop]))
    && (forall i :: 0 <= i < stop ==> SlotAfter(p, before[i], snap[i], vals[i], after[i]))
    && (forall i :: stop <= i < |before| ==> after[i] == before[i])
  }

  /** What one write-back step leaves: its success, the slot's fields and the allocator's state. */
  datatype SlotResult = SlotResult(ok: bool, fields: VariantFields, mem: MemState)

  /**
   * One write-back step from allocator state `st`. A value equal to its
   * snapshot changes nothing. A changed string or blob asks for one block:
   * refused, only the request is logged; granted, the block holds the new
   * contents, the slot points at it and the slot's old pointer is freed. A
   * changed scalar is written into the slot without touching memory.
   */
  function SlotStep(m: MemoryManager, p: Platform, st: MemState, before: VariantFields, snap: ParamValue,
                    v: ParamValue): SlotResult
  {
    if ParamEq(p, snap, v) then SlotResult(true, before, st)
    else if NeedsBlock(v) then
      var log := m.LogAfter(st.requests, PayloadLength(v));
      match m.AllocAt(|st.requests|, PayloadLength(v))
      case None => SlotResult(false, before, st.(requests := log))
      case Some(q) =>
        SlotResult(true, Updated(before, v, q),
                   MemState(st.heap[q := StoredBlock(v)] - {before.ptr}, log, st.freed + [before.ptr]))
    else SlotResult(true, Updated(before, v, NULL), st)
  }

  /**
   * A slot the write-back changed reads back from the new heap as the
   * add-in's value, when the host's block is not the slot's old one.
   */
  lemma {:induction false} SlotStepReadsBack(m: MemoryManager, p: Platform, st: MemState, before: VariantFields,
                                             snap: ParamValue, v: ParamValue)
    requires !v.Empty? && !ParamEq(p, snap, v)
    requires v.Str? ==> |v.units| < U32_RANGE
    requires v.Blob? ==> |v.bytes| < U32_RANGE
    requires NeedsBlock(v) ==> m.AllocAt(|st.requests|, PayloadLength(v)).Some? &&
                               m.AllocAt(|st.requests|, PayloadLength(v)).value != before.ptr
    ensures var r := SlotStep(m, p, st, before, snap, v);
      r.ok && FieldsReadable(r.fields, r.mem.heap) && ReadFields(r.fields, r.mem.heap) == v
  {
    var r := SlotStep(m, p, st, before, snap, v);
    var q := if NeedsBlock(v) then m.AllocAt(|st.requests|, PayloadLength(v)).value else NULL;
    assert r.fields == Updated(before, v, q);
    assert NeedsBlock(v) ==> q in r.mem.heap && r.mem.heap[q] == StoredBlock(v);
    UpdatedReadsBack(before, v, q, r.mem.heap);
  }

  /** A step's outcome has the shape `SlotAfter` describes, and fails only on a refused block. */
  lemma SlotStepShape(m: MemoryManager, p: Platform, st: MemState, before: VariantFields, snap: ParamValue,
                      v: ParamValue)
    ensures var r := SlotStep(m, p, st, before, snap, v);
      (r.ok ==> SlotAfter(p, before, snap, v, r.fields)) &&
      (!r.ok ==> NeedsBlock(v) && !ParamEq(p, snap, v) && r.fields == before)
  {
  }

  /** What the write-back loop leaves: its success, every slot's fields and the allocator's state. */
  datatype WriteResult = WriteResult(ok: bool, after: seq<VariantFields>, mem: MemState)

  /**
   * The write-back loop from slot `i` on, the slots holding `cur`: each
   * slot is stepped in turn, and the first refused block ends it with false.
   */
  function WriteFrom(m: MemoryManager, p: Platform, st: MemState, snap: seq<ParamValue>, vals: seq<ParamValue>,
                     cur: seq<VariantFields>, i: nat): WriteResult
    requires |snap| == |cur| && |vals| == |cur| && i <= |cur|
    decreases |cur| - i
  {
    if i == |cur| then WriteResult(true, cur, st)
    else
      var r := SlotStep(m, p, st, cur[i], snap[i], vals[i]);
      if r.ok then WriteFrom(m, p, r.mem, snap, vals, cur[i := r.fields], i + 1)
      else WriteResult(false, cur, r.mem)
  }

  /** `WriteFrom` unrolled by one slot. */
  lemma WriteFromStep(m: MemoryManager, p: Platform, st: MemState, snap: seq<ParamValue>, vals: seq<ParamValue>,
                      cur: seq<VariantFields>, i: nat)
    requires |snap| == |cur| && |vals| == |cur| && i < |cur|
    ensures var r := SlotStep(m, p, st, cur[i], snap[i], vals[i]);
      WriteFrom(m, p, st, snap, vals, cur, i) ==
      if r.ok then WriteFrom(m, p, r.mem, snap, vals, cur[i := r.fields], i + 1) else WriteResult(false, cur, r.mem)
  {
  }

  /**
   * Whatever the host's allocator does, the loop's outcome is one that
   * `WrittenBack` describes: it stops at the first refused block or covers
   * every slot. `done` is the part already written, `before` the original.
   */
  lemma {:induction false} WriteFromShape(m: MemoryManager, p: Platform, st: MemState, before: seq<VariantFields>,
                                          snap: seq<ParamValue>, vals: seq<ParamValue>, done: seq<VariantFields>, i: nat)
      returns (stop: nat)
    requires |snap| == |before| && |vals| == |before| && |done| == |before| && i <= |before|
    requires forall j :: 0 <= j < i ==> SlotAfter(p, before[j], snap[j], vals[j], done[j])
    requires forall j :: i <= j < |before| ==> done[j] == before[j]
    ensures var r := WriteFrom(m, p, st, snap, vals, done, i);
      |r.after| == |before| && WrittenBack(p, before, snap, vals, r.after, r.ok, stop)
    decreases |before| - i
  {
    if i == |before| {
      stop := i;
    } else {
      var r := SlotStep(m, p, st, done[i], snap[i], vals[i]);
      SlotStepShape(m, p, st, done[i], snap[i], vals[i]);
      if r.ok {
        stop := WriteFromShape(m, p, r.mem, before, snap, vals, done[i := r.fields], i + 1);
      } else {
        stop := i;
      }
    }
  }

  /**
   * One step of the write-back loop: a slot whose value compares unequal to
   * its snapshot is updated in place; false when a string or blob could
   * not be allocated, the slot then keeping its old contents.
   */
  method WriteSlot(p: Platform, mem: MemoryManager, raw: TVariant, snap: ParamValue, v: ParamValue)
      returns (ok: bool)
    modifies raw, mem
    ensures ok ==> SlotAfter(p, old(raw.Fields()), snap, v, raw.Fields())
    ensures !ok ==> NeedsBlock(v) && !ParamEq(p, snap, v) && raw.Fields() == old(raw.Fields())
    ensures ok <==> !NeedsBlock(v) || ParamEq(p, snap, v) || old(mem.NextAlloc(PayloadLength(v))).Some?
    ensures SlotResult(ok, raw.Fields(), mem.State()) ==
            SlotStep(mem, p, old(mem.State()), old(raw.Fields()), snap, v)
  {
    if ParamEq(p, snap, v) {
      return true;
    }
    match v
    case Str(u) =>
      var r := raw.UpdateToStr(mem, u);
      ok := r.Ok?;
    case Blob(b) =>
      var r := raw.UpdateToBlob(mem, b);
      ok := r.Ok?;
    case Bool(b) =>
      raw.UpdateToBool(b);
      ok := true;
    case I32(x) =>
      raw.UpdateToI32(x);
      ok := true;
    case F64(d) =>
      raw.UpdateToF64(d);
      ok := true;
    case Date(t) =>
      raw.UpdateToDate(t);
      ok := true;
    case Empty =>
      ok := true;
  }

  /** `WriteSlot` on slot `i` of distinct slots: the other slots keep their contents. */
  method WriteAt(p: Platform, mem: MemoryManager, params: seq<TVariant>, i: nat, snap: ParamValue, v: ParamValue)
      returns (ok: bool)
    requires i < |params| && Distinct(params)
    modifies params[i], mem
    ensures FieldsOf(params) == old(FieldsOf(params))[i := params[i].Fields()]
    ensures ok ==> SlotAfter(p, old(params[i].Fields()), snap, v, params[i].Fields())
    ensures !ok ==> NeedsBlock(v) && !ParamEq(p, snap, v) && params[i].Fields() == old(params[i].Fields())
    ensures SlotResult(ok, params[i].Fields(), mem.State()) ==
            SlotStep(mem, p, old(mem.State()), old(params[i].Fields()), snap, v)
  {
    ghost var before := FieldsOf(params);
    ok := WriteSlot(p, mem, params[i], snap, v);
    forall j | 0 <= j < |params| && j != i
      ensures params[j].Fields() == before[j]
    {
      assert params[j] != params[i];
    }
  }

  /** The write-back loop of `call_as_proc`/`call_as_func`. */
  method WriteBack(p: Platform, mem: MemoryManager, params: seq<TVariant>, snap: seq<ParamValue>,
                   vals: seq<ParamValue>) returns (ok: bool, ghost stop: nat)
    requires |snap| == |params| && |vals| == |params| && Distinct(params)
    modifies params, mem
    ensures WrittenBack(p, old(FieldsOf(params)), snap, vals, FieldsOf(params), ok, stop)
    ensures WriteFrom(mem, p, old(mem.State()), snap, vals, old(FieldsOf(params)), 0) ==
            WriteResult(ok, FieldsOf(params), mem.State())
  {
    ghost var before := FieldsOf(params);
    ghost var start := mem.State();
    ghost var after := before;
    var i := 0;
    while i < |vals|
      invariant 0 <= i <= |vals| && |after| == |params| && FieldsOf(params) == after
      invariant WriteFrom(mem, p, start, snap, vals, before, 0) == WriteFrom(mem, p, mem.State(), snap, vals, after, i)
    {
      ghost var r := SlotStep(mem, p, mem.State(), after[i], snap[i], vals[i]);
      WriteFromStep(mem, p, mem.State(), snap, vals, after, i);
      ghost var cur := after;
      var written := WriteAt(p, mem, params, i, snap[i], vals[i]);
      after := FieldsOf(params);
      assert written == r.ok && after == cur[i := r.fields] && mem.State() == r.mem;
      if !written {
        stop := WriteFromShape(mem, p, start, before, snap, vals, before, 0);
        return false, stop;
      }
      i := i + 1;
    }
    stop := WriteFromShape(mem, p, start, before, snap, vals, before, 0);
    return true, stop;
  }

  /**
   * The end shared by both call shims: parameters are written back only
   * when the add-in returned exactly as many as it was given.
   */
  method FinishCall(p: Platform, mem: MemoryManager, params: seq<TVariant>, snap: seq<ParamValue>,
                    vals: seq<ParamValue>) returns (ok: bool, ghost stop: nat)
    requires |snap| == |params| && Distinct(params)
    modifies params, mem
    ensures |vals| != |params| ==>
      !ok && FieldsOf(params) == old(FieldsOf(params)) && mem.heap == old(mem.heap)
    ensures |vals| == |params| ==> WrittenBack(p, old(FieldsOf(params)), snap, vals, FieldsOf(params), ok, stop)
    ensures |vals| != |params| ==> mem.State() == old(mem.State())
    ensures |vals| == |params| ==>
      WriteFrom(mem, p, old(mem.State()), snap, vals, old(FieldsOf(params)), 0) ==
      WriteResult(ok, FieldsOf(params), mem.State())
  {
    if |vals| != |snap| {
      return false, 0;
    }
    ok, stop := WriteBack(p, mem, params, snap, vals);
  }

  /**
   * `call_as_proc`: snapshot the host's parameters, call the add-in, and if
   * it succeeded with as many parameters as it was given, write back the
   * slots that changed.
   */
  method CallAsProc<S>(c: Component<S>, methodNum: int, params: seq<TVariant>)
      returns (ok: bool, snap: seq<ParamValue>, outcome: ProcOutcome<S>, ghost stop: nat)
    requires Distinct(params)
    requires c.memoryManager.Some? ==> AllReadable(FieldsOf(params), c.memoryManager.value.heap)
    modifies c, params, MemoryOf(c)
    ensures c.memoryManager == old(c.memoryManager)
    ensures old(c.memoryManager).None? ==> !ok && c.addin == old(c.addin) && FieldsOf(params) == old(FieldsOf(params))
    ensures old(c.memoryManager).Some? ==>
      var mem := old(c.memoryManager).value;
      ReadsAs(old(FieldsOf(params)), old(mem.heap), snap) &&
      outcome == c.impl.callAsProc(old(c.addin), AsUsize(methodNum), snap) &&
      c.addin == outcome.state &&
      (!outcome.ok || |outcome.params| != |params| ==>
         !ok && FieldsOf(params) == old(FieldsOf(params)) && mem.heap == old(mem.heap) &&
         mem.State() == old(mem.State())) &&
      (outcome.ok && |outcome.params| == |params| ==>
         WrittenBack(c.platform, old(FieldsOf(params)), snap, outcome.params, FieldsOf(params), ok, stop) &&
         WriteFrom(mem, c.platform, old(mem.State()), snap, outcome.params, old(FieldsOf(params)), 0) ==
         WriteResult(ok, FieldsOf(params), mem.State()))
  {
    snap, outcome, stop := [], c.impl.callAsProc(c.addin, 0, []), 0;
    if c.memoryManager.None? {
      return false, snap, outcome, stop;
    }
    var mem := c.memoryManager.value;
    snap := ReadParams(params, mem.heap);
    outcome := c.impl.callAsProc(c.addin, AsUsize(methodNum), snap);
    c.addin := outcome.state;
    assert FieldsOf(params) == old(FieldsOf(params)) && mem.State() == old(mem.State());
    if !outcome.ok {
      return false, snap, outcome, stop;
    }
    ok, stop := FinishCall(c.platform, mem, params, snap, outcome.params);
  }

  /** The block a stored return value ends up in (null when it needs no block). */
  function ReturnBlock(mem: MemoryManager, v: ParamValue): Ptr
    requires ReturnSucceeds(mem, v)
    reads mem
  {
    if NeedsBlock(v) then mem.NextAlloc(PayloadLength(v)).value else NULL
  }

  /**
   * What `call_as_func` does once the add-in has answered: store its value
   * into `retValue`, then write back the parameters.
   */
  method FinishFunc(p: Platform, mem: MemoryManager, retValue: TVariant, params: seq<TVariant>,
                    snap: seq<ParamValue>, ret: Option<ParamValue>, vals: seq<ParamValue>)
      returns (ok: bool, ghost stop: nat)
    requires |snap| == |params| && Distinct(params) && retValue !in params
    modifies params, retValue, mem
    ensures ret.None? || !old(ReturnSucceeds(mem, ret.value)) ==>
      !ok && retValue.Fields() == old(retValue.Fields()) && FieldsOf(params) == old(FieldsOf(params)) &&
      mem.heap == old(mem.heap)
    ensures ret.None? ==> mem.State() == old(mem.State())
    ensures ret.Some? && !old(ReturnSucceeds(mem, ret.value)) ==>
      mem.State() == StoreReturn(mem, old(mem.State()), ret.value)
    ensures ret.Some? && old(ReturnSucceeds(mem, ret.value)) ==>
      retValue.Fields() == Returned(old(retValue.Fields()), ret.value, old(ReturnBlock(mem, ret.value))) &&
      (|vals| != |params| ==>
         !ok && FieldsOf(params) == old(FieldsOf(params)) &&
         mem.State() == StoreReturn(mem, old(mem.State()), ret.value)) &&
      (|vals| == |params| ==>
         WrittenBack(p, old(FieldsOf(params)), snap, vals, FieldsOf(params), ok, stop) &&
         WriteFrom(mem, p, StoreReturn(mem, old(mem.State()), ret.value), snap, vals, old(FieldsOf(params)), 0) ==
         WriteResult(ok, FieldsOf(params), mem.State()))
  {
    ghost var before := FieldsOf(params);
    stop := 0;
    ok := ReturnInto(mem, retValue, ret);
    assert FieldsOf(params) == before by {
      forall k | 0 <= k < |params|
        ensures params[k].Fields() == before[k]
      {
        assert params[k] != retValue;
      }
    }
    if !ok {
      return;
    }
    ok, stop := FinishCall(p, mem, params, snap, vals);
  }

  /**
   * `call_as_func`: as `call_as_proc`, but the add-in's value is first
   * stored into `retValue`; an add-in failure or a cleared `result` ends
   * the call with false before any parameter is written back.
   */
  method CallAsFunc<S>(c: Component<S>, methodNum: int, retValue: TVariant, params: seq<TVariant>)
      returns (ok: bool, snap: seq<ParamValue>, outcome: FuncOutcome<S>, ghost stop: nat)
    requires Distinct(params) && retValue !in params
    requires c.memoryManager.Some? ==> AllReadable(FieldsOf(params), c.memoryManager.value.heap)
    modifies c, params, retValue, MemoryOf(c)
    ensures c.memoryManager == old(c.memoryManager)
    ensures old(c.memoryManager).None? ==>
      !ok && c.addin == old(c.addin) && FieldsOf(params) == old(FieldsOf(params)) &&
      retValue.Fields() == old(retValue.Fields())
    ensures old(c.memoryManager).Some? ==>
      var mem := old(c.memoryManager).value;
      var ret := outcome.ret;
      ReadsAs(old(FieldsOf(params)), old(mem.heap), snap) &&
      outcome == c.impl.callAsFunc(old(c.addin), AsUsize(methodNum), snap) &&
      c.addin == outcome.state &&
      (ret.None? || !old(ReturnSucceeds(mem, ret.value)) ==>
         !ok && retValue.Fields() == old(retValue.Fields()) && FieldsOf(params) == old(FieldsOf(params)) &&
         mem.heap == old(mem.heap)) &&
      (ret.None? ==> mem.State() == old(mem.State())) &&
      (ret.Some? ==> var st := StoreReturn(mem, old(mem.State()), ret.value);
         (!old(ReturnSucceeds(mem, ret.value)) ==> mem.State() == st) &&
         (old(ReturnSucceeds(mem, ret.value)) ==>
            retValue.Fields() == Returned(old(retValue.Fields()), ret.value, old(ReturnBlock(mem, ret.value))) &&
            (|outcome.params| != |params| ==> !ok && FieldsOf(params) == old(FieldsOf(params)) && mem.State() == st) &&
            (|outcome.params| == |params| ==>
               WrittenBack(c.platform, old(FieldsOf(params)), snap, outcome.params, FieldsOf(params), ok, stop) &&
               WriteFrom(mem, c.platform, st, snap, outcome.params, old(FieldsOf(params)), 0) ==
               WriteResult(ok, FieldsOf(params), mem.State()))))
  {
    snap, outcome, stop := [], c.impl.callAsFunc(c.addin, 0, []), 0;
    if c.memoryManager.None? {
      return false, snap, outcome, stop;
    }
    var mem := c.memoryManager.value;
    snap := ReadParams(params, mem.heap);
    outcome := c.impl.callAsFunc(c.addin, AsUsize(methodNum), snap);
    c.addin := outcome.state;
    assert FieldsOf(params) == old(FieldsOf(params)) && retValue.Fields() == old(retValue.Fields());
    var ret := outcome.ret;
    assert ret.Some? ==> ReturnSucceeds(mem, ret.value) == old(ReturnSucceeds(mem, ret.value));
    ok, stop := FinishFunc(c.platform, mem, retValue, params, snap, ret, outcome.params);
  }
}
