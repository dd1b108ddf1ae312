/**
 * The Native API's value types (`provided_types.rs`): the tag numbering of
 * `TVariant`, the variant itself as an object the host owns, its owned
 * counterpart `ParamValue`, and `ReturnValue`, through which a result is
 * stored into a host variant together with a success flag.
 */
module ProvidedTypes {
  import opened Prim
  import opened Wrappers
  import opened HostMemory

  // `VariantType`, `#[repr(u16)]`.
  const VT_EMPTY: u16 := 0
  const VT_NULL: u16 := 1
  const VT_INT16: u16 := 2
  const VT_INT32: u16 := 3
  const VT_FLOAT: u16 := 4
  const VT_DOUBLE: u16 := 5
  const VT_DATE: u16 := 6
  const VT_TIME: u16 := 7
  const VT_PSTR: u16 := 8
  const VT_INTERFACE: u16 := 9
  const VT_ERROR: u16 := 10
  const VT_BOOL: u16 := 11
  const VT_VARIANT: u16 := 12
  const VT_INT8: u16 := 13
  const VT_UINT8: u16 := 14
  const VT_UINT16: u16 := 15
  const VT_UINT32: u16 := 16
  const VT_INT64: u16 := 17
  const VT_UINT64: u16 := 18
  const VT_INT: u16 := 19
  const VT_UINT: u16 := 20
  const VT_HRESULT: u16 := 21
  const VT_WSTR: u16 := 22
  const VT_BLOB: u16 := 23
  const VT_CLSID: u16 := 24
  const VT_UNDEFINED: u16 := 0xFFFF

  /**
   * An `f64` payload, kept as the value it denotes. Integers convert
   * exactly; the sign of zero is not kept, which equality ignores anyway.
   */
  datatype Double = Finite(value: real) | PosInf | NegInf | NaN

  /** IEEE 754 equality: NaN equals nothing, not even itself. */
  predicate DoubleEq(a: Double, b: Double) {
    match (a, b)
    case (Finite(x), Finite(y)) => x == y
    case (PosInf, PosInf) => true
    case (NegInf, NegInf) => true
    case _ => false
  }

  /** `i32 as f64`, which is exact. */
  function I32ToDouble(x: i32): Double {
    Finite(x as real)
  }

  /**
   * C's `struct tm` (section 7.27.1 of ISO/IEC 9899:2011) with the two BSD
   * fields that exist on unix only; on windows `gmtoff` and `zone` are unused.
   */
  datatype Tm = Tm(sec: i32, min: i32, hour: i32, mday: i32, mon: i32, year: i32,
                   wday: i32, yday: i32, isdst: i32, gmtoff: i64, zone: i8)

  /** The derived comparison: all eleven fields on unix, the nine standard ones on windows. */
  predicate TmEq(p: Platform, a: Tm, b: Tm) {
    a.sec == b.sec && a.min == b.min && a.hour == b.hour && a.mday == b.mday &&
    a.mon == b.mon && a.year == b.year && a.wday == b.wday && a.yday == b.yday &&
    a.isdst == b.isdst && (p == Unix ==> a.gmtoff == b.gmtoff && a.zone == b.zone)
  }

  datatype ParamValue =
    | Empty
    | Bool(b: bool)
    | I32(i: i32)
    | F64(f: Double)
    | Date(tm: Tm)
    | Str(units: seq<u16>)
    | Blob(bytes: seq<u8>)

  /** `PartialEq for ParamValue`: payloads compared within one variant, different variants never equal. */
  predicate ParamEq(p: Platform, a: ParamValue, b: ParamValue) {
    match a
    case Empty => b.Empty?
    case Bool(x) => b.Bool? && x == b.b
    case I32(x) => b.I32? && x == b.i
    case F64(x) => b.F64? && DoubleEq(x, b.f)
    case Date(x) => b.Date? && TmEq(p, x, b.tm)
    case Str(x) => b.Str? && x == b.units
    case Blob(x) => b.Blob? && x == b.bytes
  }

  predicate SameVariant(a: ParamValue, b: ParamValue) {
    (a.Empty? && b.Empty?) || (a.Bool? && b.Bool?) || (a.I32? && b.I32?) ||
    (a.F64? && b.F64?) || (a.Date? && b.Date?) || (a.Str? && b.Str?) || (a.Blob? && b.Blob?)
  }

  /**
   * `ParamEq` is the structural equality of values, except that a NaN payload
   * is unequal to itself and, on windows, a date ignores the unix-only fields.
   */
  lemma ParamEqVersusEquality(p: Platform, a: ParamValue, b: ParamValue)
    ensures ParamEq(p, a, b) ==> SameVariant(a, b)
    ensures ParamEq(p, a, a) <==> !(a.F64? && a.f.NaN?)
    ensures !(a.F64? && b.F64?) && (p == Unix || !(a.Date? && b.Date?)) ==> (ParamEq(p, a, b) <==> a == b)
    ensures a.F64? && b.F64? && a.f.Finite? && b.f.Finite? ==> (ParamEq(p, a, b) <==> a == b)
  {
  }

  /** The value of a `TVariant` as plain data: its tag, each union member, and `elements`. */
  datatype VariantFields = VariantFields(vt: u16, boolVal: bool, i32Val: i32, f64Val: Double, tm: Tm,
                                         ptr: Ptr, len: u32, elements: u32)

  /** The host's promise that a string or blob variant points at `len` units or bytes it owns. */
  predicate FieldsReadable(f: VariantFields, heap: map<Ptr, seq<u8>>) {
    (f.vt == VT_WSTR && f.len > 0 ==> f.ptr in heap && 2 * f.len <= |heap[f.ptr]|) &&
    (f.vt == VT_BLOB && f.len > 0 ==> f.ptr in heap && f.len <= |heap[f.ptr]|)
  }

  /** `From<&TVariant> for ParamValue`: seven tags are read, every other tag reads as Empty. */
  function ReadFields(f: VariantFields, heap: map<Ptr, seq<u8>>): ParamValue
    requires FieldsReadable(f, heap)
  {
    if f.vt == VT_EMPTY then Empty
    else if f.vt == VT_BOOL then Bool(f.boolVal)
    else if f.vt == VT_INT32 then I32(f.i32Val)
    else if f.vt == VT_DOUBLE then F64(f.f64Val)
    else if f.vt == VT_TIME then Date(f.tm)
    else if f.vt == VT_WSTR then Str(if f.len == 0 then [] else BytesToUnits(heap[f.ptr][..2 * f.len]))
    else if f.vt == VT_BLOB then Blob(if f.len == 0 then [] else heap[f.ptr][..f.len])
    else Empty
  }

  /** A string or blob read copies exactly `len` elements, and never drops below a full read. */
  lemma ReadFieldsLength(f: VariantFields, heap: map<Ptr, seq<u8>>)
    requires FieldsReadable(f, heap)
    ensures f.vt == VT_WSTR ==> ReadFields(f, heap).Str? && |ReadFields(f, heap).units| == f.len
    ensures f.vt == VT_BLOB ==> ReadFields(f, heap).Blob? && |ReadFields(f, heap).bytes| == f.len
    ensures f.vt !in {VT_EMPTY, VT_BOOL, VT_INT32, VT_DOUBLE, VT_TIME, VT_WSTR, VT_BLOB} ==> ReadFields(f, heap) == Empty
  {
  }

  /**
   * The fields of a slot after `update_to_*` with `v`, where `p` is the block
   * a string or blob update was given. Empty stands for no update at all.
   */
  function Updated(f: VariantFields, v: ParamValue, p: Ptr): VariantFields {
    match v
    case Empty => f
    case Bool(b) => f.(vt := VT_BOOL, boolVal := b)
    case I32(i) => f.(vt := VT_INT32, i32Val := i)
    case F64(d) => f.(vt := VT_DOUBLE, f64Val := d)
    case Date(t) => f.(vt := VT_TIME, tm := t)
    case Str(u) => f.(vt := VT_WSTR, ptr := p, len := AsU32(|u|))
    case Blob(b) => f.(vt := VT_BLOB, ptr := p, len := AsU32(|b|))
  }

  /** What an update leaves in block `p`: the units little-endian, or the blob bytes then the unused half. */
  function StoredBlock(v: ParamValue): seq<u8> {
    match v
    case Str(u) => UnitsToBytes(u)
    case Blob(b) => b + Zeros(|b|)
    case _ => []
  }

  /**
   * Reading back an updated variant gives the value written, for every
   * variant but Empty, provided the block survived and the length fits `u32`.
   */
  lemma {:induction false} UpdatedReadsBack(f: VariantFields, v: ParamValue, p: Ptr, heap: map<Ptr, seq<u8>>)
    requires v.Str? ==> |v.units| < U32_RANGE
    requires v.Blob? ==> |v.bytes| < U32_RANGE
    requires (v.Str? || v.Blob?) ==> p in heap && heap[p] == StoredBlock(v)
    requires v.Empty? ==> FieldsReadable(f, heap)
    ensures FieldsReadable(Updated(f, v, p), heap)
    ensures !v.Empty? ==> ReadFields(Updated(f, v, p), heap) == v
    ensures v.Empty? ==> ReadFields(Updated(f, v, p), heap) == ReadFields(f, heap)
  {
    match v
    case Str(u) =>
      BytesToUnitsOfUnitsToBytes(u);
      assert heap[p][..2 * |u|] == UnitsToBytes(u);
    case Blob(b) =>
      assert heap[p][..|b|] == b;
    case _ =>
  }

  /** A truncated length is the only way a string update can read back differently. */
  lemma StrUpdateTruncatesLength(f: VariantFields, u: seq<u16>, p: Ptr)
    requires |u| >= U32_RANGE
    ensures Updated(f, Str(u), p).len == |u| - U32_RANGE * (|u| / U32_RANGE) < |u|
  {
  }

  /** Values whose update or return needs a block from the host allocator. */
  predicate NeedsBlock(v: ParamValue) {
    v.Str? || v.Blob?
  }

  /** Units or bytes in a string or blob value; what the allocator is asked room for. */
  function PayloadLength(v: ParamValue): nat {
    match v
    case Str(u) => |u|
    case Blob(b) => |b|
    case _ => 0
  }

  /** The fields of a return variant after `ReturnValue::set_*` with `v` (Empty is `set_empty`). */
  function Returned(f: VariantFields, v: ParamValue, p: Ptr): VariantFields {
    if v.Empty? then f.(vt := VT_EMPTY) else Updated(f, v, p)
  }

  /** The `TVariant` the host hands over; `value` is a union in the source, separate fields here. */
  class TVariant {
    var vt: u16
    var boolVal: bool
    var i32Val: i32
    var f64Val: Double
    var tm: Tm
    var ptr: Ptr
    var len: u32
    var elements: u32

    constructor (f: VariantFields)
      ensures Fields() == f
    {
      vt := f.vt;
      boolVal := f.boolVal;
      i32Val := f.i32Val;
      f64Val := f.f64Val;
      tm := f.tm;
      ptr := f.ptr;
      len := f.len;
      elements := f.elements;
    }

    function Fields(): VariantFields
      reads this
    {
      VariantFields(vt, boolVal, i32Val, f64Val, tm, ptr, len, elements)
    }

    predicate Readable(mem: MemoryManager)
      reads this, mem
    {
      FieldsReadable(Fields(), mem.heap)
    }

    /** `ParamValue::from(&variant)`. */
    function ToParam(mem: MemoryManager): ParamValue
      requires Readable(mem)
      reads this, mem
    {
      ReadFields(Fields(), mem.heap)
    }

    /**
     * `update_to_str`: the allocation comes first, so a failure changes
     * nothing here; on success the new block holds `v`, the address and
     * length are installed, THEN the old pointer is freed, whatever the old tag.
     */
    method UpdateToStr(mem: MemoryManager, v: seq<u16>) returns (r: Result<u32, AllocationError>)
      modifies this, mem
      ensures mem.requests == old(mem.RequestsAfter(|v|))
      ensures old(mem.NextAlloc(|v|)).None? ==>
        r.Err? && Fields() == old(Fields()) && mem.heap == old(mem.heap) && mem.freed == old(mem.freed)
      ensures old(mem.NextAlloc(|v|)).Some? ==>
        var p := old(mem.NextAlloc(|v|)).value;
        r == Ok(AsU32(|v|)) && Fields() == Updated(old(Fields()), Str(v), p) &&
        mem.heap == old(mem.heap)[p := StoredBlock(Str(v))] - {old(ptr)} &&
        mem.freed == old(mem.freed) + [old(ptr)]
    {
      var oldPointer := ptr;
      var block := mem.AllocStr(|v|);
      if block.Err? {
        return Err(AllocationError);
      }
      var p := block.value;
      mem.Copy(p, UnitsToBytes(v));
      assert mem.heap[p] == UnitsToBytes(v);
      ptr := p;
      len := AsU32(|v|);
      mem.Free(oldPointer);
      vt := VT_WSTR;
      return Ok(len);
    }

    /** `update_to_blob`: as `update_to_str`, with a block of twice the blob's size. */
    method UpdateToBlob(mem: MemoryManager, v: seq<u8>) returns (r: Result<u32, AllocationError>)
      modifies this, mem
      ensures mem.requests == old(mem.RequestsAfter(|v|))
      ensures old(mem.NextAlloc(|v|)).None? ==>
        r.Err? && Fields() == old(Fields()) && mem.heap == old(mem.heap) && mem.freed == old(mem.freed)
      ensures old(mem.NextAlloc(|v|)).Some? ==>
        var p := old(mem.NextAlloc(|v|)).value;
        r == Ok(AsU32(|v|)) && Fields() == Updated(old(Fields()), Blob(v), p) &&
        mem.heap == old(mem.heap)[p := StoredBlock(Blob(v))] - {old(ptr)} &&
        mem.freed == old(mem.freed) + [old(ptr)]
    {
      var oldPointer := ptr;
      var block := mem.AllocBlob(|v|);
      if block.Err? {
        return Err(AllocationError);
      }
      var p := block.value;
      mem.Copy(p, v);
      assert mem.heap[p] == v + Zeros(|v|);
      ptr := p;
      len := AsU32(|v|);
      mem.Free(oldPointer);
      vt := VT_BLOB;
      return Ok(len);
    }

    method UpdateToBool(v: bool)
      modifies this
      ensures Fields() == Updated(old(Fields()), Bool(v), 0)
    {
      boolVal := v;
      vt := VT_BOOL;
    }

    method UpdateToI32(v: i32)
      modifies this
      ensures Fields() == Updated(old(Fields()), I32(v), 0)
    {
      i32Val := v;
      vt := VT_INT32;
    }

    method UpdateToF64(v: Double)
      modifies this
      ensures Fields() == Updated(old(Fields()), F64(v), 0)
    {
      f64Val := v;
      vt := VT_DOUBLE;
    }

    method UpdateToDate(v: Tm)
      modifies this
      ensures Fields() == Updated(old(Fields()), Date(v), 0)
    {
      tm := v;
      vt := VT_TIME;
    }
  }

  /**
   * `ReturnValue`: the allocator, the variant to fill and the caller's
   * success flag, which only a failed allocation clears.
   */
  class ReturnValue {
    const mem: MemoryManager
    const variant: TVariant
    var result: bool

    constructor (mem: MemoryManager, variant: TVariant)
      ensures this.mem == mem && this.variant == variant && result
    {
      this.mem := mem;
      this.variant := variant;
      result := true;
    }

    method SetEmpty()
      modifies variant
      ensures variant.Fields() == old(variant.Fields()).(vt := VT_EMPTY)
    {
      variant.vt := VT_EMPTY;
    }

    method SetI32(v: i32)
      modifies variant
      ensures variant.Fields() == Updated(old(variant.Fields()), I32(v), 0)
    {
      variant.vt := VT_INT32;
      variant.i32Val := v;
    }

    method SetBool(v: bool)
      modifies variant
      ensures variant.Fields() == Updated(old(variant.Fields()), Bool(v), 0)
    {
      variant.vt := VT_BOOL;
      variant.boolVal := v;
    }

    method SetF64(v: Double)
      modifies variant
      ensures variant.Fields() == Updated(old(variant.Fields()), F64(v), 0)
    {
      variant.vt := VT_DOUBLE;
      variant.f64Val := v;
    }

    method SetDate(v: Tm)
      modifies variant
      ensures variant.Fields() == Updated(old(variant.Fields()), Date(v), 0)
    {
      variant.vt := VT_TIME;
      variant.tm := v;
    }

    /** `set_str`: a failed allocation clears `result` and touches nothing else; success frees nothing. */
    method SetStr(v: seq<u16>)
      modifies this, variant, mem
      ensures mem.requests == old(mem.RequestsAfter(|v|)) && mem.freed == old(mem.freed)
      ensures old(mem.NextAlloc(|v|)).None? ==>
        !result && variant.Fields() == old(variant.Fields()) && mem.heap == old(mem.heap)
      ensures old(mem.NextAlloc(|v|)).Some? ==>
        var p := old(mem.NextAlloc(|v|)).value;
        result == old(result) && variant.Fields() == Updated(old(variant.Fields()), Str(v), p) &&
        mem.heap == old(mem.heap)[p := StoredBlock(Str(v))]
    {
      var block := mem.AllocStr(|v|);
      if block.Err? {
        result := false;
        return;
      }
      var p := block.value;
      mem.Copy(p, UnitsToBytes(v));
      assert mem.heap[p] == UnitsToBytes(v);
      variant.vt := VT_WSTR;
      variant.ptr := p;
      variant.len := AsU32(|v|);
    }

    /** `set_blob`: as `set_str`, for bytes. */
    method SetBlob(v: seq<u8>)
      modifies this, variant, mem
      ensures mem.requests == old(mem.RequestsAfter(|v|)) && mem.freed == old(mem.freed)
      ensures old(mem.NextAlloc(|v|)).None? ==>
        !result && variant.Fields() == old(variant.Fields()) && mem.heap == old(mem.heap)
      ensures old(mem.NextAlloc(|v|)).Some? ==>
        var p := old(mem.NextAlloc(|v|)).value;
        result == old(result) && variant.Fields() == Updated(old(variant.Fields()), Blob(v), p) &&
        mem.heap == old(mem.heap)[p := StoredBlock(Blob(v))]
    {
      var block := mem.AllocBlob(|v|);
      if block.Err? {
        result := false;
        return;
      }
      var p := block.value;
      mem.Copy(p, v);
      assert mem.heap[p] == v + Zeros(|v|);
      variant.vt := VT_BLOB;
      variant.ptr := p;
      variant.len := AsU32(|v|);
    }
  }
}
