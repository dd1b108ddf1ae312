/**
 * The property-side entries of the generated `AddInWrapper` impl. The
 * properties' current values are the struct's `#[add_in_prop]` fields, in
 * declaration order; `consts` gives the value of a constant used as a
 * name, and `enc` the encoding the generated code applies to names.
 */
module PropsCollectors {
  import opened Prim
  import opened Wrappers
  import opened ProvidedTypes
  import opened StringUtils
  import opened Descriptors

  /** A property field's Rust value: `bool`, `i32`, `f64`, `String`, `Tm` or `Vec<u8>`. */
  datatype Value = VBool(b: bool) | VI32(i: i32) | VF64(f: Double) | VStr(s: string) | VDate(tm: Tm) | VBlob(bytes: seq<u8>)

  predicate ValueHasType(v: Value, t: ParamType) {
    match t
    case BoolType => v.VBool?
    case I32Type => v.VI32?
    case F64Type => v.VF64?
    case StringType => v.VStr?
    case DateType => v.VDate?
    case BlobType => v.VBlob?
  }

  /** Each field holds a value of its declared type. */
  predicate WellTyped(ps: seq<PropDesc>, values: seq<Value>) {
    |values| == |ps| && forall i :: 0 <= i < |ps| ==> ValueHasType(values[i], ps[i].ty)
  }

  /** `get_n_props`: a constant, the number of `add_in_prop` fields. */
  function GetNProps(ps: seq<PropDesc>): (n: nat)
    ensures n == |ps|
  {
    |ps|
  }

  function EnName(ps: seq<PropDesc>, consts: (string, seq<string>) -> string, enc: string -> seq<u16>, i: nat): seq<u16>
    requires i < |ps|
  {
    enc(NameText(ps[i].name, consts))
  }

  function RuName(ps: seq<PropDesc>, consts: (string, seq<string>) -> string, enc: string -> seq<u16>, i: nat): seq<u16>
    requires i < |ps|
  {
    enc(NameText(ps[i].nameRu, consts))
  }

  /** `find_prop`: the first index whose English or Russian encoded name equals `name`. */
  function FindProp(ps: seq<PropDesc>, consts: (string, seq<string>) -> string, enc: string -> seq<u16>,
                    name: seq<u16>): (r: Option<nat>)
    ensures r.Some? ==> r.value < |ps| && (EnName(ps, consts, enc, r.value) == name || RuName(ps, consts, enc, r.value) == name)
    ensures r.Some? ==> forall j :: 0 <= j < r.value ==> EnName(ps, consts, enc, j) != name && RuName(ps, consts, enc, j) != name
    ensures r.None? <==> forall j :: 0 <= j < |ps| ==> EnName(ps, consts, enc, j) != name && RuName(ps, consts, enc, j) != name
  {
    FindFrom(ps, consts, enc, name, 0)
  }

  /** The generated chain from entry `from` on. */
  function FindFrom(ps: seq<PropDesc>, consts: (string, seq<string>) -> string, enc: string -> seq<u16>,
                    name: seq<u16>, from: nat): (r: Option<nat>)
    requires from <= |ps|
    ensures r.Some? ==> from <= r.value < |ps| && (EnName(ps, consts, enc, r.value) == name || RuName(ps, consts, enc, r.value) == name)
    ensures r.Some? ==> forall j :: from <= j < r.value ==> EnName(ps, consts, enc, j) != name && RuName(ps, consts, enc, j) != name
    ensures r.None? <==> forall j :: from <= j < |ps| ==> EnName(ps, consts, enc, j) != name && RuName(ps, consts, enc, j) != name
    decreases |ps| - from
  {
    if from == |ps| then None
    else if EnName(ps, consts, enc, from) == name || RuName(ps, consts, enc, from) == name then Some(from)
    else FindFrom(ps, consts, enc, name, from + 1)
  }

  /** `get_prop_name`: alias 0 is the English name, every other alias the Russian one. */
  function GetPropName(ps: seq<PropDesc>, consts: (string, seq<string>) -> string, enc: string -> seq<u16>,
                       num: nat, alias: nat): (r: Option<seq<u16>>)
    ensures r.Some? <==> num < |ps|
    ensures num < |ps| && alias == 0 ==> r == Some(EnName(ps, consts, enc, num))
    ensures num < |ps| && alias != 0 ==> r == Some(RuName(ps, consts, enc, num))
  {
    if num < |ps| then Some(if alias == 0 then EnName(ps, consts, enc, num) else RuName(ps, consts, enc, num))
    else None
  }

  /** No two properties share an encoded name (a property's own two names may coincide). */
  predicate DistinctPropNames(ps: seq<PropDesc>, consts: (string, seq<string>) -> string, enc: string -> seq<u16>) {
    forall i, j :: 0 <= i < |ps| && 0 <= j < |ps| && i != j ==>
      EnName(ps, consts, enc, i) != EnName(ps, consts, enc, j) && EnName(ps, consts, enc, i) != RuName(ps, consts, enc, j) &&
      RuName(ps, consts, enc, i) != EnName(ps, consts, enc, j) && RuName(ps, consts, enc, i) != RuName(ps, consts, enc, j)
  }

  /** Looking up the name the add-in reports for property `i` finds `i` again. */
  lemma FindPropOfName(ps: seq<PropDesc>, consts: (string, seq<string>) -> string, enc: string -> seq<u16>, i: nat, alias: nat)
    requires i < |ps| && DistinctPropNames(ps, consts, enc)
    ensures FindProp(ps, consts, enc, GetPropName(ps, consts, enc, i, alias).value) == Some(i)
  {
  }

  /** Distinct name texts stay distinct under an injective encoding. */
  lemma DistinctPropNamesUnderInjective(ps: seq<PropDesc>, consts: (string, seq<string>) -> string, enc: string -> seq<u16>)
    requires forall s, t :: enc(s) == enc(t) ==> s == t
    requires forall i, j :: 0 <= i < |ps| && 0 <= j < |ps| && i != j ==>
      NameText(ps[i].name, consts) !in {NameText(ps[j].name, consts), NameText(ps[j].nameRu, consts)} &&
      NameText(ps[i].nameRu, consts) !in {NameText(ps[j].name, consts), NameText(ps[j].nameRu, consts)}
    ensures DistinctPropNames(ps, consts, enc)
  {
  }

  /** `is_prop_readable`: the descriptor's flag, false for an unknown index. */
  function IsPropReadable(ps: seq<PropDesc>, num: nat): (r: bool)
    ensures r <==> num < |ps| && ps[num].readable
  {
    num < |ps| && ps[num].readable
  }

  /** `is_prop_writable`: the descriptor's flag, false for an unknown index. */
  function IsPropWritable(ps: seq<PropDesc>, num: nat): (r: bool)
    ensures r <==> num < |ps| && ps[num].writable
  {
    num < |ps| && ps[num].writable
  }

  /** A field's value as the host sees it; strings go out through `os_string`. */
  function ParamOfValue(v: Value, p: Platform): ParamValue {
    match v
    case VBool(b) => Bool(b)
    case VI32(i) => I32(i)
    case VF64(f) => F64(f)
    case VStr(s) => Str(OsString(p, s))
    case VDate(tm) => Date(tm)
    case VBlob(b) => Blob(b)
  }

  /** `get_prop_val`: readable properties only; reading never changes the add-in. */
  function GetPropVal(ps: seq<PropDesc>, values: seq<Value>, p: Platform, num: nat): (r: Option<ParamValue>)
    requires |values| == |ps|
    ensures r.Some? <==> IsPropReadable(ps, num)
    ensures r.Some? ==> r.value == ParamOfValue(values[num], p)
    ensures r.Some? && WellTyped(ps, values) ==> HasType(r.value, ps[num].ty)
  {
    if num < |ps| && ps[num].readable then Some(ParamOfValue(values[num], p)) else None
  }

  /** The arm `param_ty_to_ffi_set` generates: the declared variant only; strings through `from_os_string`. */
  function ValueOfParam(t: ParamType, v: ParamValue): (r: Option<Value>)
    ensures r.Some? <==> HasType(v, t)
    ensures r.Some? ==> ValueHasType(r.value, t)
  {
    match (t, v)
    case (BoolType, Bool(b)) => Some(VBool(b))
    case (I32Type, I32(i)) => Some(VI32(i))
    case (F64Type, F64(f)) => Some(VF64(f))
    case (StringType, Str(u)) => Some(VStr(FromOsString(u)))
    case (DateType, Date(tm)) => Some(VDate(tm))
    case (BlobType, Blob(b)) => Some(VBlob(b))
    case _ => None
  }

  /**
   * `set_prop_val`: a writable property given its own variant is assigned
   * and the result is true; otherwise false and nothing changes. Only the
   * addressed field is written.
   */
  function SetPropVal(ps: seq<PropDesc>, values: seq<Value>, num: nat, v: ParamValue): (r: (bool, seq<Value>))
    requires |values| == |ps|
    ensures r.0 <==> IsPropWritable(ps, num) && HasType(v, ps[num].ty)
    ensures !r.0 ==> r.1 == values
    ensures r.0 ==> r.1 == values[num := ValueOfParam(ps[num].ty, v).value]
    ensures |r.1| == |ps| && (WellTyped(ps, values) ==> WellTyped(ps, r.1))
  {
    if num < |ps| && ps[num].writable then
      match ValueOfParam(ps[num].ty, v)
      case Some(x) => (true, values[num := x])
      case None => (false, values)
    else (false, values)
  }

  /** Setting then reading a read-write property returns what was set; a string comes back through `os_string`. */
  lemma SetThenGet(ps: seq<PropDesc>, values: seq<Value>, p: Platform, num: nat, v: ParamValue)
    requires WellTyped(ps, values) && IsPropReadable(ps, num) && IsPropWritable(ps, num) && HasType(v, ps[num].ty)
    ensures var after := SetPropVal(ps, values, num, v).1;
            GetPropVal(ps, after, p, num) == Some(if v.Str? then Str(OsString(p, FromOsString(v.units))) else v)
  {
  }

  /** A string that went out through `get_prop_val` and back through `set_prop_val` is unchanged. */
  lemma {:induction false} GetThenSetString(ps: seq<PropDesc>, values: seq<Value>, p: Platform, num: nat)
    requires WellTyped(ps, values) && IsPropReadable(ps, num) && IsPropWritable(ps, num) && ps[num].ty == StringType
    requires values[num].s == [] || values[num].s[|values[num].s| - 1] != 0 as char
    ensures SetPropVal(ps, values, num, GetPropVal(ps, values, p, num).value) == (true, values)
  {
    FromOsStringOfOsString(p, values[num].s);
    assert values[num] == VStr(values[num].s);
    assert values[num := VStr(FromOsString(OsString(p, values[num].s)))] == values;
  }

  /** The struct's property fields, which the generated `set_prop_val` assigns in place. */
  class PropFields {
    var values: seq<Value>

    constructor (initial: seq<Value>)
      ensures values == initial
    {
      values := initial;
    }

    /** `set_prop_val(&mut self, num, val)`. */
    method SetPropValue(ps: seq<PropDesc>, num: nat, v: ParamValue) returns (ok: bool)
      requires |values| == |ps|
      modifies this
      ensures (ok, values) == SetPropVal(ps, old(values), num, v)
    {
      if num < |ps| && ps[num].writable {
        match ValueOfParam(ps[num].ty, v) {
          case Some(x) =>
            values := values[num := x];
            return true;
          case None =>
            return false;
        }
      }
      return false;
    }
  }

  /** Every per-index collector sees the same enumeration of properties. */
  lemma PropIndexingAgrees(ps: seq<PropDesc>, values: seq<Value>, consts: (string, seq<string>) -> string,
                           enc: string -> seq<u16>, p: Platform, num: nat, alias: nat, v: ParamValue)
    requires WellTyped(ps, values)
    ensures GetPropName(ps, consts, enc, num, alias).Some? <==> num < GetNProps(ps)
    ensures num >= GetNProps(ps) ==>
      !IsPropReadable(ps, num) && !IsPropWritable(ps, num) && GetPropVal(ps, values, p, num).None? &&
      SetPropVal(ps, values, num, v) == (false, values)
  {
  }
}
