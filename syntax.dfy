/**
 * The parts of a `syn` struct definition the derive inspects: each field's
 * identifier, its attributes (with the `darling` meta already split into
 * the keys the parsers read) and, for functions, the shape of its type.
 */
module Syntax {
  import opened Wrappers
  import opened ProvidedTypes
  import opened Descriptors

  /** `#[add_in_func(name = .., name_ru = ..)]`; `wellFormed` is false for any other `darling` failure. */
  datatype FuncHeadAttr = FuncHeadAttr(name: Option<Expr>, nameRu: Option<Expr>, wellFormed: bool)

  /** A `default = ..` meta: a name-value pair, represented by the value its expression stands for, or another meta shape. */
  datatype DefaultMeta = NameValue(value: ParamValue) | OtherMeta

  /** `#[arg(ident = .., ty = .., default = .., as_in, as_out)]`. */
  datatype ArgAttr = ArgAttr(ident: Option<string>, ty: Option<Expr>, default: Option<DefaultMeta>,
                             asIn: bool, asOut: bool, wellFormed: bool)

  /** `#[returns(ty = .., result)]`. */
  datatype ReturnsAttr = ReturnsAttr(ty: Option<Expr>, result: bool, wellFormed: bool)

  /** `#[add_in_prop(ty = .., name = .., name_ru = .., readable, writable)]`. */
  datatype PropAttr = PropAttr(ty: Option<Expr>, name: Option<Expr>, nameRu: Option<Expr>,
                               readable: bool, writable: bool, wellFormed: bool)

  datatype Attr =
    | FuncAttr(head: FuncHeadAttr)
    | ArgAttribute(arg: ArgAttr)
    | ReturnsAttribute(ret: ReturnsAttr)
    | PropAttribute(prop: PropAttr)
    | OtherAttr(path: string)

  /** The first input of a bare `fn` type: whether it parses as a reference, `&mut`, and how many `Self` tokens it has. */
  datatype FnInput = FnInput(isReference: bool, mutable: bool, selfTokens: nat)

  datatype FieldType = BareFn(inputs: seq<FnInput>) | OtherType

  datatype Field = Field(ident: Option<string>, attrs: seq<Attr>, ty: FieldType)

  /** `DeriveInput`: the type's identifier and whether it is a struct. */
  datatype Data = StructData(fields: seq<Field>) | OtherData
  datatype DeriveInput = DeriveInput(ident: string, data: Data)

  function FuncHeads(attrs: seq<Attr>): (r: seq<FuncHeadAttr>)
    ensures |r| <= |attrs|
  {
    if attrs == [] then []
    else (if attrs[0].FuncAttr? then [attrs[0].head] else []) + FuncHeads(attrs[1..])
  }

  function ArgAttrs(attrs: seq<Attr>): (r: seq<ArgAttr>)
    ensures |r| <= |attrs|
  {
    if attrs == [] then []
    else (if attrs[0].ArgAttribute? then [attrs[0].arg] else []) + ArgAttrs(attrs[1..])
  }

  function ReturnsAttrs(attrs: seq<Attr>): (r: seq<ReturnsAttr>)
    ensures |r| <= |attrs|
  {
    if attrs == [] then []
    else (if attrs[0].ReturnsAttribute? then [attrs[0].ret] else []) + ReturnsAttrs(attrs[1..])
  }

  function PropAttrs(attrs: seq<Attr>): (r: seq<PropAttr>)
    ensures |r| <= |attrs|
  {
    if attrs == [] then []
    else (if attrs[0].PropAttribute? then [attrs[0].prop] else []) + PropAttrs(attrs[1..])
  }

  /**
   * Each attribute filter keeps exactly the payloads of its kind of
   * attribute, and filters a concatenation part by part, so the order of
   * the attributes is kept.
   */
  lemma {:induction false} FuncHeadsExactly(attrs: seq<Attr>, more: seq<Attr>)
    ensures forall h :: h in FuncHeads(attrs) <==> FuncAttr(h) in attrs
    ensures FuncHeads(attrs + more) == FuncHeads(attrs) + FuncHeads(more)
  {
    if attrs == [] {
      assert attrs + more == more;
    } else {
      assert (attrs + more)[0] == attrs[0];
      assert (attrs + more)[1..] == attrs[1..] + more;
      FuncHeadsExactly(attrs[1..], more);
      var kept := if attrs[0].FuncAttr? then [attrs[0].head] else [];
      assert FuncHeads(attrs) == kept + FuncHeads(attrs[1..]);
      assert attrs == [attrs[0]] + attrs[1..];
      forall h ensures h in FuncHeads(attrs) <==> FuncAttr(h) in attrs {
        assert h in kept <==> FuncAttr(h) == attrs[0];
      }
    }
  }

  /** As `FuncHeadsExactly`, for `#[arg]`. */
  lemma {:induction false} ArgAttrsExactly(attrs: seq<Attr>, more: seq<Attr>)
    ensures forall g :: g in ArgAttrs(attrs) <==> ArgAttribute(g) in attrs
    ensures ArgAttrs(attrs + more) == ArgAttrs(attrs) + ArgAttrs(more)
  {
    if attrs == [] {
      assert attrs + more == more;
    } else {
      assert (attrs + more)[0] == attrs[0];
      assert (attrs + more)[1..] == attrs[1..] + more;
      ArgAttrsExactly(attrs[1..], more);
      var kept := if attrs[0].ArgAttribute? then [attrs[0].arg] else [];
      assert ArgAttrs(attrs) == kept + ArgAttrs(attrs[1..]);
      assert attrs == [attrs[0]] + attrs[1..];
      forall g ensures g in ArgAttrs(attrs) <==> ArgAttribute(g) in attrs {
        assert g in kept <==> ArgAttribute(g) == attrs[0];
      }
    }
  }

  /** As `FuncHeadsExactly`, for `#[returns]`. */
  lemma {:induction false} ReturnsAttrsExactly(attrs: seq<Attr>, more: seq<Attr>)
    ensures forall t :: t in ReturnsAttrs(attrs) <==> ReturnsAttribute(t) in attrs
    ensures ReturnsAttrs(attrs + more) == ReturnsAttrs(attrs) + ReturnsAttrs(more)
  {
    if attrs == [] {
      assert attrs + more == more;
    } else {
      assert (attrs + more)[0] == attrs[0];
      assert (attrs + more)[1..] == attrs[1..] + more;
      ReturnsAttrsExactly(attrs[1..], more);
      var kept := if attrs[0].ReturnsAttribute? then [attrs[0].ret] else [];
      assert ReturnsAttrs(attrs) == kept + ReturnsAttrs(attrs[1..]);
      assert attrs == [attrs[0]] + attrs[1..];
      forall t ensures t in ReturnsAttrs(attrs) <==> ReturnsAttribute(t) in attrs {
        assert t in kept <==> ReturnsAttribute(t) == attrs[0];
      }
    }
  }

  /** As `FuncHeadsExactly`, for `#[add_in_prop]`. */
  lemma {:induction false} PropAttrsExactly(attrs: seq<Attr>, more: seq<Attr>)
    ensures forall q :: q in PropAttrs(attrs) <==> PropAttribute(q) in attrs
    ensures PropAttrs(attrs + more) == PropAttrs(attrs) + PropAttrs(more)
  {
    if attrs == [] {
      assert attrs + more == more;
    } else {
      assert (attrs + more)[0] == attrs[0];
      assert (attrs + more)[1..] == attrs[1..] + more;
      PropAttrsExactly(attrs[1..], more);
      var kept := if attrs[0].PropAttribute? then [attrs[0].prop] else [];
      assert PropAttrs(attrs) == kept + PropAttrs(attrs[1..]);
      assert attrs == [attrs[0]] + attrs[1..];
      forall q ensures q in PropAttrs(attrs) <==> PropAttribute(q) in attrs {
        assert q in kept <==> PropAttribute(q) == attrs[0];
      }
    }
  }

  /** The scan `parse_functions` and `parse_props` share, as a specification. */
  function Scan<T>(fields: seq<Field>, tagged: Field -> bool, parse: Field -> Result<T, Error>): Result<seq<T>, Error> {
    if fields == [] then Ok([])
    else if !tagged(fields[0]) then Scan(fields[1..], tagged, parse)
    else match parse(fields[0])
      case Err(e) => Err(e)
      case Ok(d) =>
        match Scan(fields[1..], tagged, parse)
        case Err(e) => Err(e)
        case Ok(ds) => Ok([d] + ds)
  }

  /** The fields that carry the attribute, in declaration order. */
  function Tagged(fields: seq<Field>, tagged: Field -> bool): (r: seq<Field>)
    ensures |r| <= |fields| && forall k :: 0 <= k < |r| ==> tagged(r[k]) && r[k] in fields
  {
    if fields == [] then []
    else (if tagged(fields[0]) then [fields[0]] else []) + Tagged(fields[1..], tagged)
  }

  /**
   * The scan keeps exactly the tagged fields, in order, and succeeds iff
   * each parses; on failure it reports the first tagged field's error.
   */
  lemma ScanSelects<T>(fields: seq<Field>, tagged: Field -> bool, parse: Field -> Result<T, Error>)
    ensures var ts := Tagged(fields, tagged);
      var r := Scan(fields, tagged, parse);
      (r.Ok? <==> forall k :: 0 <= k < |ts| ==> parse(ts[k]).Ok?) &&
      (r.Ok? ==> |r.value| == |ts| && forall k :: 0 <= k < |ts| ==> parse(ts[k]) == Ok(r.value[k])) &&
      (r.Err? ==> exists k :: 0 <= k < |ts| && parse(ts[k]) == Err(r.error) &&
                                forall j :: 0 <= j < k ==> parse(ts[j]).Ok?)
  {
    ScanIsParseAll(fields, tagged, parse);
    ParseAllOk(Tagged(fields, tagged), parse);
    ParseAllErr(Tagged(fields, tagged), parse);
  }

  /** The scan of a list whose every element is to be parsed. */
  function ParseAll<T>(ts: seq<Field>, parse: Field -> Result<T, Error>): Result<seq<T>, Error> {
    if ts == [] then Ok([])
    else match parse(ts[0])
      case Err(e) => Err(e)
      case Ok(d) =>
        match ParseAll(ts[1..], parse)
        case Err(e) => Err(e)
        case Ok(ds) => Ok([d] + ds)
  }

  /** Skipping the untagged fields first changes nothing. */
  lemma {:induction false} ScanIsParseAll<T>(fields: seq<Field>, tagged: Field -> bool, parse: Field -> Result<T, Error>)
    ensures Scan(fields, tagged, parse) == ParseAll(Tagged(fields, tagged), parse)
  {
    if fields != [] {
      ScanIsParseAll(fields[1..], tagged, parse);
      var ts := Tagged(fields, tagged);
      if tagged(fields[0]) {
        assert ts == [fields[0]] + Tagged(fields[1..], tagged);
        assert ts[1..] == Tagged(fields[1..], tagged);
      } else {
        assert ts == Tagged(fields[1..], tagged);
      }
    }
  }

  /** The success half: every element parses, and the results line up with them. */
  lemma {:induction false} ParseAllOk<T>(ts: seq<Field>, parse: Field -> Result<T, Error>)
    ensures ParseAll(ts, parse).Ok? <==> forall k :: 0 <= k < |ts| ==> parse(ts[k]).Ok?
    ensures ParseAll(ts, parse).Ok? ==>
      |ParseAll(ts, parse).value| == |ts| && forall k :: 0 <= k < |ts| ==> parse(ts[k]) == Ok(ParseAll(ts, parse).value[k])
  {
    if ts != [] {
      ParseAllOk(ts[1..], parse);
      forall k | 1 <= k < |ts|
        ensures ts[k] == ts[1..][k - 1]
      {
      }
    }
  }

  /** The failure half: the error is that of the first element that does not parse. */
  lemma {:induction false} ParseAllErr<T>(ts: seq<Field>, parse: Field -> Result<T, Error>)
    ensures ParseAll(ts, parse).Err? ==>
      exists k :: 0 <= k < |ts| && parse(ts[k]) == Err(ParseAll(ts, parse).error) &&
                  forall j :: 0 <= j < k ==> parse(ts[j]).Ok?
  {
    if ts != [] {
      ParseAllErr(ts[1..], parse);
      var r := ParseAll(ts, parse);
      if parse(ts[0]).Err? {
        assert parse(ts[0]) == Err(r.error);
      } else if r.Err? {
        var k' :| 0 <= k' < |ts[1..]| && parse(ts[1..][k']) == Err(ParseAll(ts[1..], parse).error) &&
          forall j :: 0 <= j < k' ==> parse(ts[1..][j]).Ok?;
        assert parse(ts[k' + 1]) == Err(r.error);
        forall j | 0 <= j < k' + 1
          ensures parse(ts[j]).Ok?
        {
          if j > 0 { assert ts[j] == ts[1..][j - 1]; }
        }
      }
    }
  }

  /** `for field in fields { if !tagged { continue } ..push(parse(field)?) }`. */
  method ScanFields<T>(fields: seq<Field>, tagged: Field -> bool, parse: Field -> Result<T, Error>)
      returns (r: Result<seq<T>, Error>)
    ensures r == Scan(fields, tagged, parse)
  {
    var found: seq<T> := [];
    var i := 0;
    assert fields[0..] == fields;
    match Scan(fields, tagged, parse) {
      case Ok(ds) => assert found + ds == ds;
      case Err(_) =>
    }
    while i < |fields|
      invariant 0 <= i <= |fields|
      invariant Scan(fields, tagged, parse) == Prepend(found, Scan(fields[i..], tagged, parse))
    {
      assert fields[i..][1..] == fields[i + 1..];
      if !tagged(fields[i]) {
        i := i + 1;
        continue;
      }
      var d := parse(fields[i]);
      if d.Err? {
        return Err(d.error);
      }
      PrependStep(found, d.value, Scan(fields[i + 1..], tagged, parse));
      found := found + [d.value];
      i := i + 1;
    }
    assert fields[i..] == [];
    assert found + [] == found;
    return Ok(found);
  }

  /** `found` parsed before the rest of the scan. */
  function Prepend<T>(found: seq<T>, rest: Result<seq<T>, Error>): Result<seq<T>, Error> {
    match rest
    case Err(e) => Err(e)
    case Ok(ds) => Ok(found + ds)
  }

  lemma PrependStep<T>(found: seq<T>, d: T, rest: Result<seq<T>, Error>)
    ensures Prepend(found, Prepend([d], rest)) == Prepend(found + [d], rest)
  {
    if rest.Ok? {
      assert found + ([d] + rest.value) == (found + [d]) + rest.value;
    }
  }
}
