/** `FuncDesc::from_field` and `parse_functions`: from a struct field to a function descriptor. */
module FunctionsParse {
  import opened Wrappers
  import opened ProvidedTypes
  import opened Descriptors
  import opened Syntax

  /** `FuncArgumentMeta` once `darling` has read it. */
  datatype ArgMeta = ArgMeta(ident: Option<string>, ty: FuncParamType, default: Option<DefaultMeta>,
                             asIn: bool, asOut: bool)

  /** A `String` meta key: required, and only a string literal is accepted. */
  function StringKey(e: Option<Expr>, attr: string): (r: Result<string, Error>)
    ensures r.Ok? <==> e.Some? && e.value.LitStr?
    ensures r.Ok? ==> r.value == e.value.value
  {
    match e
    case None => Err(MalformedMeta(attr))
    case Some(LitStr(v)) => Ok(v)
    case Some(_) => Err(ExpectedStringLiteral)
  }

  /** `FuncHeadMeta::from_meta`: both names present, as string literals. */
  function HeadFromMeta(h: FuncHeadAttr): (r: Result<(string, string), Error>)
    ensures r.Ok? <==> h.wellFormed && StringKey(h.name, "add_in_func").Ok? && StringKey(h.nameRu, "add_in_func").Ok?
    ensures r.Ok? ==> r.value == (h.name.value.value, h.nameRu.value.value)
  {
    if !h.wellFormed then Err(MalformedMeta("add_in_func"))
    else match StringKey(h.name, "add_in_func")
      case Err(e) => Err(e)
      case Ok(name) =>
        match StringKey(h.nameRu, "add_in_func")
        case Err(e) => Err(e)
        case Ok(nameRu) => Ok((name, nameRu))
  }

  /** `FuncArgumentMeta::from_meta`: `ty` is required and parsed as a function parameter type. */
  function ArgFromMeta(a: ArgAttr): (r: Result<ArgMeta, Error>)
    ensures r.Ok? <==> a.wellFormed && a.ty.Some? && ParseFuncParamType(a.ty.value).Ok?
    ensures r.Ok? ==> r.value == ArgMeta(a.ident, ParseFuncParamType(a.ty.value).value, a.default, a.asIn, a.asOut)
  {
    if !a.wellFormed || a.ty.None? then Err(MalformedMeta("arg"))
    else match ParseFuncParamType(a.ty.value)
      case Err(e) => Err(e)
      case Ok(t) => Ok(ArgMeta(a.ident, t, a.default, a.asIn, a.asOut))
  }

  /** The types `try_from` lets carry a default value. */
  predicate AllowsDefault(t: FuncParamType) {
    t.PlatformType? && t.ty in {BoolType, I32Type, F64Type, StringType}
  }

  /** `FuncArgumentDesc::try_from(FuncArgumentMeta)`. */
  function ArgumentFromMeta(m: ArgMeta): (r: Result<FuncArgumentDesc, Error>)
    ensures m.asIn && m.asOut ==> r == Err(ConflictingParams)
    ensures !(m.asIn && m.asOut) && m.default.Some? && !AllowsDefault(m.ty) ==> r == Err(TypeCannotBeDefault(m.ty))
    ensures r.Ok? <==> !(m.asIn && m.asOut) && (m.default.Some? ==> AllowsDefault(m.ty) && m.default.value.NameValue?)
    ensures r.Ok? ==> r.value.ty == m.ty && r.value.outParam == m.asOut
    ensures r.Ok? ==> (r.value.default.Some? <==> m.default.Some?)
    ensures r.Ok? && m.default.Some? ==> r.value.default.value == m.default.value.value
  {
    if m.asIn && m.asOut then Err(ConflictingParams)
    else if m.default.Some? && !AllowsDefault(m.ty) then Err(TypeCannotBeDefault(m.ty))
    else match m.default
      case Some(OtherMeta) => Err(UnexpectedMetaType)
      case Some(NameValue(v)) => Ok(FuncArgumentDesc(m.ty, Some(v), m.asOut))
      case None => Ok(FuncArgumentDesc(m.ty, None, m.asOut))
  }

  /** `FuncReturnMeta::from_meta` and `FuncReturnDesc::try_from`: no `ty` means no return value. */
  function ReturnFromMeta(a: ReturnsAttr): (r: Result<ReturnTypeDesc, Error>)
    ensures r.Ok? <==> a.wellFormed && (a.ty.Some? ==> ParseParamType(a.ty.value).Ok?)
    ensures r.Ok? ==> r.value.result == a.result
    ensures r.Ok? ==> (r.value.ty.None? <==> a.ty.None?)
    ensures r.Ok? && a.ty.Some? ==> r.value.ty == Some(ParseParamType(a.ty.value).value)
  {
    if !a.wellFormed then Err(MalformedMeta("returns"))
    else match a.ty
      case None => Ok(ReturnTypeDesc(None, a.result))
      case Some(e) =>
        match ParseParamType(e)
        case Err(err) => Err(err)
        case Ok(t) => Ok(ReturnTypeDesc(Some(t), a.result))
  }

  /** `.map(from_meta).collect::<Result<Vec<_>>>()`: every element converted, or the first failure. */
  function ArgMetas(attrs: seq<ArgAttr>): (r: Result<seq<ArgMeta>, Error>)
    ensures r.Ok? <==> forall k :: 0 <= k < |attrs| ==> ArgFromMeta(attrs[k]).Ok?
    ensures r.Ok? ==> |r.value| == |attrs| && forall k :: 0 <= k < |attrs| ==> ArgFromMeta(attrs[k]) == Ok(r.value[k])
  {
    if attrs == [] then Ok([])
    else match ArgFromMeta(attrs[0])
      case Err(e) => Err(e)
      case Ok(m) =>
        match ArgMetas(attrs[1..])
        case Err(e) =>
          assert !ArgFromMeta(attrs[1..][FirstArgMetaFailure(attrs[1..])]).Ok?;
          Err(e)
        case Ok(ms) => Ok([m] + ms)
  }

  /** The index of some element `ArgFromMeta` refuses. */
  function FirstArgMetaFailure(attrs: seq<ArgAttr>): (k: nat)
    requires exists k :: 0 <= k < |attrs| && !ArgFromMeta(attrs[k]).Ok?
    ensures k < |attrs| && !ArgFromMeta(attrs[k]).Ok?
  {
    if !ArgFromMeta(attrs[0]).Ok? then 0
    else
      assert exists k :: 0 <= k < |attrs[1..]| && !ArgFromMeta(attrs[1..][k]).Ok? by {
        var k :| 0 <= k < |attrs| && !ArgFromMeta(attrs[k]).Ok?;
        assert attrs[1..][k - 1] == attrs[k];
      }
      1 + FirstArgMetaFailure(attrs[1..])
  }

  /** `.map(FuncArgumentDesc::try_from).collect::<Result<Vec<_>>>()`. */
  function ArgumentsFromMetas(ms: seq<ArgMeta>): (r: Result<seq<FuncArgumentDesc>, Error>)
    ensures r.Ok? <==> forall k :: 0 <= k < |ms| ==> ArgumentFromMeta(ms[k]).Ok?
    ensures r.Ok? ==> |r.value| == |ms| && forall k :: 0 <= k < |ms| ==> ArgumentFromMeta(ms[k]) == Ok(r.value[k])
  {
    if ms == [] then Ok([])
    else match ArgumentFromMeta(ms[0])
      case Err(e) => Err(e)
      case Ok(d) =>
        match ArgumentsFromMetas(ms[1..])
        case Err(e) =>
          assert exists k :: 0 <= k < |ms[1..]| && !ArgumentFromMeta(ms[1..][k]).Ok?;
          Err(e)
        case Ok(ds) =>
          assert forall k :: 1 <= k < |ms| ==> ms[k] == ms[1..][k - 1];
          Ok([d] + ds)
  }

  /** The `self` parameter the first input declares: `&Self` or `&mut Self`, one `Self` token. */
  function SelfParam(inputs: seq<FnInput>): (r: Option<FuncArgumentDesc>)
    ensures r.Some? <==> |inputs| > 0 && inputs[0].isReference && inputs[0].selfTokens == 1
    ensures r.Some? ==> r.value == FuncArgumentDesc(SelfType, None, inputs[0].mutable)
  {
    if |inputs| > 0 && inputs[0].isReference && inputs[0].selfTokens == 1
    then Some(FuncArgumentDesc(SelfType, None, inputs[0].mutable))
    else None
  }

  /** An `Option` as a zero- or one-element list. */
  function OptionSeq<T>(o: Option<T>): seq<T> {
    if o.Some? then [o.value] else []
  }

  /** `FuncDesc::from_field`, checks in the order the source makes them. */
  function FuncDescFromField(f: Field): Result<FuncDesc, Error> {
    if f.ident.None? then Err(MissingIdent)
    else
      var heads := FuncHeads(f.attrs);
      var rets := ReturnsAttrs(f.attrs);
      if |heads| == 0 then Err(MissingAttribute("add_in_func"))
      else if |heads| > 1 then Err(DuplicateAttribute("add_in_func"))
      else if |rets| > 1 then Err(DuplicateAttribute("returns"))
      else match HeadFromMeta(heads[0])
        case Err(e) => Err(e)
        case Ok(names) =>
          match ArgMetas(ArgAttrs(f.attrs))
          case Err(e) => Err(e)
          case Ok(metas) =>
            match (if |rets| == 0 then Ok(ReturnTypeDesc(None, false)) else ReturnFromMeta(rets[0]))
            case Err(e) => Err(e)
            case Ok(ret) =>
              match ArgumentsFromMetas(metas)
              case Err(e) => Err(e)
              case Ok(args) =>
                if !f.ty.BareFn? then Err(NotBareFn)
                else Ok(FuncDesc(f.ident.value, names.0, names.1, OptionSeq(SelfParam(f.ty.inputs)) + args, ret))
  }

  /** The source's error order: arguments are converted only after the return meta has been read. */
  lemma ReturnMetaBeforeArguments(f: Field)
    requires f.ident.Some? && |FuncHeads(f.attrs)| == 1 && |ReturnsAttrs(f.attrs)| == 1
    requires HeadFromMeta(FuncHeads(f.attrs)[0]).Ok? && ArgMetas(ArgAttrs(f.attrs)).Ok?
    requires ReturnFromMeta(ReturnsAttrs(f.attrs)[0]).Err?
    ensures FuncDescFromField(f) == Err(ReturnFromMeta(ReturnsAttrs(f.attrs)[0]).error)
  {
  }

  /** A field is a function only with exactly one `add_in_func` and at most one `returns`, on a bare `fn`. */
  lemma FromFieldAttributeCounts(f: Field)
    ensures f.ident.None? ==> FuncDescFromField(f) == Err(MissingIdent)
    ensures f.ident.Some? && |FuncHeads(f.attrs)| == 0 ==> FuncDescFromField(f) == Err(MissingAttribute("add_in_func"))
    ensures f.ident.Some? && |FuncHeads(f.attrs)| > 1 ==> FuncDescFromField(f) == Err(DuplicateAttribute("add_in_func"))
    ensures FuncDescFromField(f).Ok? ==>
      |FuncHeads(f.attrs)| == 1 && |ReturnsAttrs(f.attrs)| <= 1 && f.ty.BareFn?
  {
  }

  /**
   * A parsed function: its names are the head's literals, and its parameter
   * list is the optional `self` followed by one descriptor per `arg`
   * attribute, in order, so the host-visible parameters are exactly the
   * `arg` attributes.
   */
  lemma {:induction false} FromFieldShape(f: Field)
    requires FuncDescFromField(f).Ok?
    ensures var d := FuncDescFromField(f).value;
      var heads := FuncHeads(f.attrs);
      var args := ArgAttrs(f.attrs);
      d.ident == f.ident.value &&
      d.name == heads[0].name.value.value && d.nameRu == heads[0].nameRu.value.value &&
      |Params1c(d.params)| == |args| &&
      (forall k :: 0 <= k < |args| ==>
         Some(Params1c(d.params)[k].ty) == (match ParseFuncParamType(args[k].ty.value)
                                            case Ok(t) => Some(t) case Err(_) => None) &&
         Params1c(d.params)[k].outParam == args[k].asOut) &&
      (HasSelfParam(d) <==> SelfParam(f.ty.inputs).Some?)
  {
    var d := FuncDescFromField(f).value;
    var metas := ArgMetas(ArgAttrs(f.attrs)).value;
    var args := ArgumentsFromMetas(metas).value;
    assert d.params == OptionSeq(SelfParam(f.ty.inputs)) + args;
    PlatformOnly(args, metas);
    Params1cAfterSelf(SelfParam(f.ty.inputs), args);
    Params1cCount(d.params);
    if SelfParam(f.ty.inputs).Some? {
      assert d.params[0].ty.SelfType?;
    } else {
      assert d.params == args;
    }
  }

  /** Converted arguments never have type `Self`. */
  lemma PlatformOnly(args: seq<FuncArgumentDesc>, metas: seq<ArgMeta>)
    requires |args| == |metas|
    requires forall k :: 0 <= k < |metas| ==> metas[k].ty.PlatformType? && ArgumentFromMeta(metas[k]) == Ok(args[k])
    ensures forall k :: 0 <= k < |args| ==> args[k].ty.PlatformType?
  {
  }

  /** `get_1c_params` skips a leading `self` and keeps the rest. */
  lemma Params1cAfterSelf(s: Option<FuncArgumentDesc>, args: seq<FuncArgumentDesc>)
    requires s.Some? ==> s.value.ty.SelfType?
    requires forall k :: 0 <= k < |args| ==> args[k].ty.PlatformType?
    ensures Params1c(OptionSeq(s) + args) == args
  {
    if s.Some? {
      assert (OptionSeq(s) + args)[1..] == args;
    } else {
      assert OptionSeq(s) + args == args;
    }
  }

  predicate HasFuncAttr(f: Field) {
    |FuncHeads(f.attrs)| > 0
  }

  /** `parse_functions`: fields without `add_in_func` are skipped; the first failure aborts. */
  method ParseFunctions(fields: seq<Field>) returns (r: Result<seq<FuncDesc>, Error>)
    ensures r == Scan(fields, HasFuncAttr, FuncDescFromField)
  {
    r := ScanFields(fields, HasFuncAttr, FuncDescFromField);
  }

  /** One descriptor per `add_in_func` field, in declaration order. */
  lemma ParseFunctionsSelects(fields: seq<Field>)
    ensures var ts := Tagged(fields, HasFuncAttr);
      var r := Scan(fields, HasFuncAttr, FuncDescFromField);
      (r.Ok? <==> forall k :: 0 <= k < |ts| ==> FuncDescFromField(ts[k]).Ok?) &&
      (r.Ok? ==> |r.value| == |ts| && forall k :: 0 <= k < |ts| ==> FuncDescFromField(ts[k]) == Ok(r.value[k]))
  {
    ScanSelects(fields, HasFuncAttr, FuncDescFromField);
  }
}
