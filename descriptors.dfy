/**
 * What the `AddIn` derive reads from a struct: the type names allowed in
 * attributes, the parameter and property descriptors it builds, and the
 * errors it reports instead of an implementation.
 */
module Descriptors {
  import opened Wrappers
  import opened ProvidedTypes

  /** The type names accepted in `ty = ...` (`constants.rs`). */
  const BOOL_TYPE: string := "Bool"
  const I32_TYPE: string := "Int"
  const F64_TYPE: string := "Float"
  const STRING_TYPE: string := "Str"
  const DATE_TYPE: string := "Date"
  const BLOB_TYPE: string := "Blob"

  datatype ParamType = BoolType | I32Type | F64Type | StringType | DateType | BlobType

  /** The name each type is written with. */
  function TypeName(t: ParamType): string {
    match t
    case BoolType => BOOL_TYPE
    case I32Type => I32_TYPE
    case F64Type => F64_TYPE
    case StringType => STRING_TYPE
    case DateType => DATE_TYPE
    case BlobType => BLOB_TYPE
  }

  /** An attribute value as `syn` hands it over: only what the parsers look at. */
  datatype Expr =
    | LitStr(value: string)
    | LitOther
    | PathExpr(first: string, rest: seq<string>)
    | OtherExpr

  datatype Error =
    | ExpectedLitOrPath
    | ExpectedStringLiteral
    | UnknownType(name: string)
    | MissingIdent
    | MissingAttribute(attr: string)
    | DuplicateAttribute(attr: string)
    | MalformedMeta(attr: string)
    | ConflictingParams
    | TypeCannotBeDefault(ty: FuncParamType)
    | UnexpectedMetaType
    | NotBareFn
    | NotStruct
    | TooManyComponents

  /** `ParamType::try_from(&str)`: the six names, nothing else. */
  function ParamTypeFromString(s: string): (r: Result<ParamType, Error>)
    ensures r.Ok? <==> s in {BOOL_TYPE, I32_TYPE, F64_TYPE, STRING_TYPE, DATE_TYPE, BLOB_TYPE}
    ensures r.Ok? ==> TypeName(r.value) == s
    ensures r.Err? ==> r.error == UnknownType(s)
  {
    if s == BOOL_TYPE then Ok(BoolType)
    else if s == I32_TYPE then Ok(I32Type)
    else if s == F64_TYPE then Ok(F64Type)
    else if s == STRING_TYPE then Ok(StringType)
    else if s == DATE_TYPE then Ok(DateType)
    else if s == BLOB_TYPE then Ok(BlobType)
    else Err(UnknownType(s))
  }

  /** The string `from_expr` looks up: a string literal's value or a path's first segment. */
  function TypeExprString(e: Expr): (r: Result<string, Error>)
    ensures r.Ok? <==> e.LitStr? || e.PathExpr?
    ensures e.LitStr? ==> r == Ok(e.value)
    ensures e.PathExpr? ==> r == Ok(e.first)
  {
    match e
    case LitStr(v) => Ok(v)
    case PathExpr(first, _) => Ok(first)
    case _ => Err(ExpectedLitOrPath)
  }

  /** `ParamType::from_expr`. */
  function ParseParamType(e: Expr): (r: Result<ParamType, Error>)
    ensures !(e.LitStr? || e.PathExpr?) ==> r == Err(ExpectedLitOrPath)
    ensures e.LitStr? || e.PathExpr? ==> r == ParamTypeFromString(TypeExprString(e).value)
  {
    match TypeExprString(e)
    case Err(err) => Err(err)
    case Ok(s) => ParamTypeFromString(s)
  }

  lemma TypeNameRoundTrip(t: ParamType)
    ensures ParamTypeFromString(TypeName(t)) == Ok(t)
    ensures ParseParamType(LitStr(TypeName(t))) == Ok(t) && ParseParamType(PathExpr(TypeName(t), [])) == Ok(t)
  {
  }

  /** The `ParamValue` constructor a type stands for (`to_tokens`). */
  predicate HasType(v: ParamValue, t: ParamType) {
    match t
    case BoolType => v.Bool?
    case I32Type => v.I32?
    case F64Type => v.F64?
    case StringType => v.Str?
    case DateType => v.Date?
    case BlobType => v.Blob?
  }

  /** `SettableTypes`: the setters a property's value goes through. */
  datatype SettableType = SetBool | SetI32 | SetF64 | SetString | SetDate | SetBlob

  /** `SettableTypes::try_from(&PropType)`: total, one setter per type. */
  function ToSettable(t: ParamType): (r: Result<SettableType, ()>)
    ensures r.Ok?
  {
    match t
    case BoolType => Ok(SetBool)
    case I32Type => Ok(SetI32)
    case F64Type => Ok(SetF64)
    case StringType => Ok(SetString)
    case DateType => Ok(SetDate)
    case BlobType => Ok(SetBlob)
  }

  lemma ToSettableInjective(a: ParamType, b: ParamType)
    ensures ToSettable(a) == ToSettable(b) ==> a == b
  {
  }

  /** `PropName`: a string literal or a path, kept as written. */
  datatype PropName = StringLiteral(s: string) | Ident(first: string, rest: seq<string>)

  /** `PropName::from_expr`. */
  function ParsePropName(e: Expr): (r: Result<PropName, Error>)
    ensures e.LitStr? ==> r == Ok(StringLiteral(e.value))
    ensures e.PathExpr? ==> r == Ok(Ident(e.first, e.rest))
    ensures e.LitOther? ==> r == Err(ExpectedStringLiteral)
    ensures e.OtherExpr? ==> r == Err(ExpectedLitOrPath)
  {
    match e
    case LitStr(v) => Ok(StringLiteral(v))
    case PathExpr(first, rest) => Ok(Ident(first, rest))
    case LitOther => Err(ExpectedStringLiteral)
    case OtherExpr => Err(ExpectedLitOrPath)
  }

  /** The string a name stands for; `consts` gives the value of the `&str` constant a path names. */
  function NameText(n: PropName, consts: (string, seq<string>) -> string): string {
    match n
    case StringLiteral(s) => s
    case Ident(first, rest) => consts(first, rest)
  }

  datatype FuncParamType = SelfType | PlatformType(ty: ParamType)

  /** `FuncParamType::try_from(&str)`: the six names as platform types; never `Self`. */
  function FuncParamTypeFromString(s: string): (r: Result<FuncParamType, Error>)
    ensures r.Ok? ==> r.value.PlatformType? && TypeName(r.value.ty) == s
    ensures r.Ok? <==> ParamTypeFromString(s).Ok?
    ensures r.Err? ==> r.error == UnknownType(s)
  {
    match ParamTypeFromString(s)
    case Ok(t) => Ok(PlatformType(t))
    case Err(err) => Err(err)
  }

  /** `FuncParamType::from_expr`. */
  function ParseFuncParamType(e: Expr): (r: Result<FuncParamType, Error>)
    ensures r.Ok? ==> r.value.PlatformType? && ParseParamType(e) == Ok(r.value.ty)
    ensures r.Err? ==> ParseParamType(e).Err? && r.error == ParseParamType(e).error
  {
    match TypeExprString(e)
    case Err(err) => Err(err)
    case Ok(s) => FuncParamTypeFromString(s)
  }

  datatype FuncArgumentDesc = FuncArgumentDesc(ty: FuncParamType, default: Option<ParamValue>, outParam: bool)

  datatype ReturnTypeDesc = ReturnTypeDesc(ty: Option<ParamType>, result: bool)

  /** One `#[add_in_func]` field: its identifier, both names, parameters and return. */
  datatype FuncDesc = FuncDesc(ident: string, name: string, nameRu: string,
                               params: seq<FuncArgumentDesc>, returnValue: ReturnTypeDesc)

  /** `get_1c_params`: the parameters the host sees, `Self` dropped, order kept. */
  function Params1c(ps: seq<FuncArgumentDesc>): (r: seq<FuncArgumentDesc>)
    ensures |r| <= |ps|
    ensures forall i :: 0 <= i < |r| ==> r[i].ty.PlatformType?
    ensures forall i :: 0 <= i < |r| ==> r[i] in ps
    ensures (forall i :: 0 <= i < |ps| ==> ps[i].ty.PlatformType?) ==> r == ps
  {
    if ps == [] then []
    else if ps[0].ty.SelfType? then Params1c(ps[1..])
    else [ps[0]] + Params1c(ps[1..])
  }

  /** `get_1c_params` on one entry: kept exactly when it is not `Self`. */
  lemma Params1cSingle(x: FuncArgumentDesc)
    ensures Params1c([x]) == if x.ty.SelfType? then [] else [x]
  {
    assert [x][1..] == [];
  }

  /**
   * `get_1c_params` of a concatenation is that of each part in turn; with
   * `Params1cSingle` this fixes the order and multiplicities of the result.
   */
  lemma {:induction false} Params1cAppend(a: seq<FuncArgumentDesc>, b: seq<FuncArgumentDesc>)
    ensures Params1c(a + b) == Params1c(a) + Params1c(b)
  {
    if a == [] {
      assert a + b == b;
    } else {
      assert (a + b)[0] == a[0];
      assert (a + b)[1..] == a[1..] + b;
      Params1cAppend(a[1..], b);
    }
  }

  /** `has_self_param`. */
  predicate HasSelfParam(d: FuncDesc) {
    exists i :: 0 <= i < |d.params| && d.params[i].ty.SelfType?
  }

  /** How many parameters are `Self`. */
  function SelfCount(ps: seq<FuncArgumentDesc>): nat {
    if ps == [] then 0 else (if ps[0].ty.SelfType? then 1 else 0) + SelfCount(ps[1..])
  }

  /** Removing `Self` drops exactly the `Self` entries; a list without any is unchanged. */
  lemma {:induction false} Params1cCount(ps: seq<FuncArgumentDesc>)
    ensures |Params1c(ps)| == |ps| - SelfCount(ps)
    ensures SelfCount(ps) == 0 <==> forall i :: 0 <= i < |ps| ==> ps[i].ty.PlatformType?
  {
    if ps != [] {
      Params1cCount(ps[1..]);
      assert forall i :: 1 <= i < |ps| ==> ps[i] == ps[1..][i - 1];
    }
  }

  /** `has_self_param` holds exactly when some entry is dropped by `get_1c_params`. */
  lemma HasSelfParamIffShorter(d: FuncDesc)
    ensures HasSelfParam(d) <==> |Params1c(d.params)| < |d.params|
  {
    Params1cCount(d.params);
  }

  /** A property: its field, both names, access flags and type. */
  datatype PropDesc = PropDesc(ident: string, name: PropName, nameRu: PropName,
                               readable: bool, writable: bool, ty: ParamType)
}
