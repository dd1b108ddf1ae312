/** `PropDesc::from_field` and `parse_props`. */
module PropsParse {
  import opened Wrappers
  import opened Descriptors
  import opened Syntax

  /** `PropMeta::from_meta`: `ty`, `name` and `name_ru` are required; the flags default to off. */
  function PropFromMeta(ident: string, a: PropAttr): (r: Result<PropDesc, Error>)
    ensures r.Ok? <==> a.wellFormed && a.ty.Some? && a.name.Some? && a.nameRu.Some? &&
                       ParseParamType(a.ty.value).Ok? && ParsePropName(a.name.value).Ok? &&
                       ParsePropName(a.nameRu.value).Ok?
    ensures r.Ok? ==> r.value == PropDesc(ident, ParsePropName(a.name.value).value,
                                          ParsePropName(a.nameRu.value).value,
                                          a.readable, a.writable, ParseParamType(a.ty.value).value)
  {
    if !a.wellFormed || a.ty.None? || a.name.None? || a.nameRu.None? then Err(MalformedMeta("add_in_prop"))
    else match ParseParamType(a.ty.value)
      case Err(e) => Err(e)
      case Ok(ty) =>
        match ParsePropName(a.name.value)
        case Err(e) => Err(e)
        case Ok(name) =>
          match ParsePropName(a.nameRu.value)
          case Err(e) => Err(e)
          case Ok(nameRu) => Ok(PropDesc(ident, name, nameRu, a.readable, a.writable, ty))
  }

  /** `PropDesc::from_field`. */
  function PropDescFromField(f: Field): (r: Result<PropDesc, Error>)
    ensures f.ident.None? ==> r == Err(MissingIdent)
    ensures f.ident.Some? && |PropAttrs(f.attrs)| == 0 ==> r == Err(MissingAttribute("add_in_prop"))
    ensures f.ident.Some? && |PropAttrs(f.attrs)| > 1 ==> r == Err(DuplicateAttribute("add_in_prop"))
    ensures f.ident.Some? && |PropAttrs(f.attrs)| == 1 ==> r == PropFromMeta(f.ident.value, PropAttrs(f.attrs)[0])
  {
    if f.ident.None? then Err(MissingIdent)
    else
      var props := PropAttrs(f.attrs);
      if |props| == 0 then Err(MissingAttribute("add_in_prop"))
      else if |props| > 1 then Err(DuplicateAttribute("add_in_prop"))
      else PropFromMeta(f.ident.value, props[0])
  }

  predicate HasPropAttr(f: Field) {
    |PropAttrs(f.attrs)| > 0
  }

  /** `parse_props`: fields without `add_in_prop` are skipped; the first failure aborts. */
  method ParseProps(fields: seq<Field>) returns (r: Result<seq<PropDesc>, Error>)
    ensures r == Scan(fields, HasPropAttr, PropDescFromField)
  {
    r := ScanFields(fields, HasPropAttr, PropDescFromField);
  }

  /**
   * One descriptor per `add_in_prop` field, in declaration order, each
   * carrying its field's identifier and the attribute's flags and type.
   */
  lemma {:induction false} ParsePropsSelects(fields: seq<Field>)
    ensures var ts := Tagged(fields, HasPropAttr);
      var r := Scan(fields, HasPropAttr, PropDescFromField);
      (r.Ok? <==> forall k :: 0 <= k < |ts| ==> PropDescFromField(ts[k]).Ok?) &&
      (r.Ok? ==> |r.value| == |ts| &&
                 forall k :: 0 <= k < |ts| ==>
                   var a := PropAttrs(ts[k].attrs)[0];
                   r.value[k].ident == ts[k].ident.value &&
                   r.value[k].readable == a.readable && r.value[k].writable == a.writable &&
                   Ok(r.value[k].ty) == ParseParamType(a.ty.value))
  {
    ScanSelects(fields, HasPropAttr, PropDescFromField);
  }
}
