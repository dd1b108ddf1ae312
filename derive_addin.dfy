/**
 * `#[derive(AddIn)]` (`derive_addin/mod.rs`): parse the struct's
 * properties and functions and assemble the `AddInWrapper` impl from the
 * collectors. The impl is an `AddIn` record over the struct's state.
 */
module DeriveAddIn {
  import opened Prim
  import opened Wrappers
  import opened Utf16
  import opened StringUtils
  import opened ProvidedTypes
  import opened Interface
  import opened Descriptors
  import opened Syntax
  import opened PropsParse
  import opened FunctionsParse
  import opened GeneratedCall
  import opened PropsCollectors
  import opened FunctionsCollectors

  /**
   * The deriving struct: its `connection` field, its `#[add_in_prop]`
   * fields in declaration order, and everything else as `U`.
   */
  datatype Instance<U> = Instance(connection: Option<ConnectionRef>, props: seq<Value>, rest: U)

  /** The user's function behind the `i`-th `#[add_in_func]` field. */
  type UserFns<!U, !D> = nat -> ((Instance<U>, seq<Arg<D>>) -> UserOutcome<Instance<U>, D>)

  /**
   * `utf16_null!`, the literal the extension name is registered with: its
   * UTF-16 units and one terminating 0, on every platform.
   */
  function Utf16Null(s: string): (r: seq<u16>)
    ensures |r| == |Encode(s)| + 1 && r[|r| - 1] == 0 && r[..|r| - 1] == Encode(s)
    ensures r == OsStringNil(Windows, s) && r == OsStringNilFixed(s)
  {
    Encode(s) + [0]
  }

  /** Terminated names stay apart, so distinct names give distinct lookups. */
  lemma TerminatedNamesInjective(s: string, t: string)
    requires OsStringNilFixed(s) == OsStringNilFixed(t)
    ensures s == t
  {
    assert Encode(s) == OsStringNilFixed(s)[..|OsStringNilFixed(s)| - 1];
    EncodeInjective(s, t);
  }

  /**
   * The impl the collectors generate for the parsed properties and
   * functions, the four name collectors encoding with `names`.
   */
  function AssembleWith<U, D>(ident: string, props: seq<PropDesc>, funcs: seq<FuncDesc>,
                              consts: (string, seq<string>) -> string, impls: UserFns<U, D>, c: Chrono<D>,
                              p: Platform, names: string -> seq<u16>): AddIn<Instance<U>> {
    AddIn(
      (s: Instance<U>, conn: ConnectionRef) => (true, s.(connection := Some(conn))),
      (s: Instance<U>) => 2000,
      (s: Instance<U>) => s,
      (s: Instance<U>) => (Utf16Null(ident), s),
      (s: Instance<U>) => GetNProps(props),
      (s: Instance<U>, name: seq<u16>) => FindProp(props, consts, names, name),
      (s: Instance<U>, num: nat, alias: nat) => GetPropName(props, consts, names, num, alias),
      (s: Instance<U>, num: nat) => if |s.props| == |props| then GetPropVal(props, s.props, p, num) else None,
      (s: Instance<U>, num: nat, v: ParamValue) =>
        if |s.props| == |props| then
          var r := SetPropVal(props, s.props, num, v);
          (r.0, s.(props := r.1))
        else (false, s),
      (s: Instance<U>, num: nat) => IsPropReadable(props, num),
      (s: Instance<U>, num: nat) => IsPropWritable(props, num),
      (s: Instance<U>) => GetNMethods(funcs),
      (s: Instance<U>, name: seq<u16>) => FindMethod(funcs, names, name),
      (s: Instance<U>, num: nat, alias: nat) => GetMethodName(funcs, names, num, alias),
      (s: Instance<U>, num: nat) => GetNParams(funcs, num),
      (s: Instance<U>, num: nat, param: nat) => GetParamDefValue(funcs, num, param),
      (s: Instance<U>, num: nat) => HasRetVal(funcs, num),
      (s: Instance<U>, num: nat, slots: seq<ParamValue>) => CallAsProc(funcs, impls, c, p, s, num, slots),
      (s: Instance<U>, num: nat, slots: seq<ParamValue>) => CallAsFunc(funcs, impls, c, p, s, num, slots),
      (s: Instance<U>, loc: seq<u16>) => s,
      (s: Instance<U>, lang: seq<u16>) => s)
  }

  /**
   * The impl as generated: the name collectors compare and report names
   * encoded by `os_string_nil` of the target platform.
   */
  function Assemble<U(!new), D>(ident: string, props: seq<PropDesc>, funcs: seq<FuncDesc>,
                                consts: (string, seq<string>) -> string, impls: UserFns<U, D>, c: Chrono<D>,
                                p: Platform): (a: AddIn<Instance<U>>)
    ensures forall s: Instance<U>, name: seq<u16> ::
      a.findMethod(s, name) == FindMethod(funcs, (t: string) => OsStringNil(p, t), name) &&
      a.findProp(s, name) == FindProp(props, consts, (t: string) => OsStringNil(p, t), name)
    ensures forall s: Instance<U>, num: nat, alias: nat ::
      a.getMethodName(s, num, alias) == GetMethodName(funcs, (t: string) => OsStringNil(p, t), num, alias) &&
      a.getPropName(s, num, alias) == GetPropName(props, consts, (t: string) => OsStringNil(p, t), num, alias)
    ensures forall s: Instance<U> :: a.registerExtensionAs(s) == (Utf16Null(ident), s)
  {
    AssembleWith(ident, props, funcs, consts, impls, c, p, (t: string) => OsStringNil(p, t))
  }

  /** The impl with the name collectors encoding as `os_string_nil` is meant to: always terminated. */
  function AssembleFixed<U(!new), D>(ident: string, props: seq<PropDesc>, funcs: seq<FuncDesc>,
                                     consts: (string, seq<string>) -> string, impls: UserFns<U, D>, c: Chrono<D>,
                                     p: Platform): (a: AddIn<Instance<U>>)
    ensures forall s: Instance<U>, name: seq<u16> ::
      a.findMethod(s, name) == FindMethod(funcs, OsStringNilFixed, name) &&
      a.findProp(s, name) == FindProp(props, consts, OsStringNilFixed, name)
    ensures forall s: Instance<U>, num: nat, alias: nat ::
      a.getMethodName(s, num, alias) == GetMethodName(funcs, OsStringNilFixed, num, alias) &&
      a.getPropName(s, num, alias) == GetPropName(props, consts, OsStringNilFixed, num, alias)
  {
    AssembleWith(ident, props, funcs, consts, impls, c, p, OsStringNilFixed)
  }

  /** `build_impl_block`: structs only; properties are parsed before functions and the first error wins. */
  function BuildImplBlock<U(!new), D>(input: DeriveInput, consts: (string, seq<string>) -> string, impls: UserFns<U, D>,
                                      c: Chrono<D>, p: Platform): (r: Result<AddIn<Instance<U>>, Error>)
    ensures !input.data.StructData? ==> r == Err(NotStruct)
    ensures input.data.StructData? ==>
      var props := Scan(input.data.fields, HasPropAttr, PropDescFromField);
      var funcs := Scan(input.data.fields, HasFuncAttr, FuncDescFromField);
      (r.Ok? <==> props.Ok? && funcs.Ok?) &&
      (props.Err? ==> r == Err(props.error)) &&
      (props.Ok? && funcs.Err? ==> r == Err(funcs.error)) &&
      (r.Ok? ==> r.value == Assemble(input.ident, props.value, funcs.value, consts, impls, c, p))
  {
    if !input.data.StructData? then Err(NotStruct)
    else
      var fields := input.data.fields;
      match Scan(fields, HasPropAttr, PropDescFromField)
      case Err(e) => Err(e)
      case Ok(props) =>
        match Scan(fields, HasFuncAttr, FuncDescFromField)
        case Err(e) => Err(e)
        case Ok(funcs) => Ok(Assemble(input.ident, props, funcs, consts, impls, c, p))
  }

  /** What the derive expands to: the impl, or a `compile_error!` carrying the parse error. */
  datatype Expansion<!U> = ImplBlock(addin: AddIn<Instance<U>>) | CompileError(error: Error)

  /** `derive_result`. */
  function Derive<U(!new), D>(input: DeriveInput, consts: (string, seq<string>) -> string, impls: UserFns<U, D>,
                              c: Chrono<D>, p: Platform): (r: Expansion<U>)
    ensures !input.data.StructData? ==> r == CompileError(NotStruct)
    ensures r.CompileError? <==> BuildImplBlock(input, consts, impls, c, p).Err?
    ensures r.CompileError? ==> r.error == BuildImplBlock(input, consts, impls, c, p).error
  {
    match BuildImplBlock(input, consts, impls, c, p)
    case Ok(a) => ImplBlock(a)
    case Err(e) => CompileError(e)
  }

  /** A property error is reported even when the functions are broken too. */
  lemma PropsParsedFirst<U(!new), D>(input: DeriveInput, consts: (string, seq<string>) -> string, impls: UserFns<U, D>,
                                     c: Chrono<D>, p: Platform)
    requires input.data.StructData? && Scan(input.data.fields, HasPropAttr, PropDescFromField).Err?
    ensures BuildImplBlock(input, consts, impls, c, p) == Err(Scan(input.data.fields, HasPropAttr, PropDescFromField).error)
  {
  }

  /**
   * The fixed entries of a derived impl: `init` stores the connection and
   * succeeds, `get_info` is 2000, `register_extension_as` is the struct's
   * name NUL-terminated, `done` and the locale setters change nothing, and
   * the counts are those of the tagged fields.
   */
  lemma {:induction false} DerivedFixedEntries<U(!new), D>(input: DeriveInput, consts: (string, seq<string>) -> string,
                                                           impls: UserFns<U, D>, c: Chrono<D>, p: Platform,
                                                           s: Instance<U>, conn: ConnectionRef, loc: seq<u16>)
    requires BuildImplBlock(input, consts, impls, c, p).Ok?
    ensures var a := BuildImplBlock(input, consts, impls, c, p).value;
      a.init(s, conn) == (true, s.(connection := Some(conn))) &&
      a.getInfo(s) == 2000 &&
      a.registerExtensionAs(s) == (Encode(input.ident) + [0], s) &&
      a.done(s) == s && a.setLocale(s, loc) == s && a.setUserInterfaceLanguageCode(s, loc) == s &&
      a.getNProps(s) == |Tagged(input.data.fields, HasPropAttr)| &&
      a.getNMethods(s) == |Tagged(input.data.fields, HasFuncAttr)|
  {
    ScanSelects(input.data.fields, HasPropAttr, PropDescFromField);
    ScanSelects(input.data.fields, HasFuncAttr, FuncDescFromField);
  }

  /** The extension name reads back as the struct's identifier. */
  lemma ExtensionNameReadsBack(ident: string)
    requires ident == [] || ident[|ident| - 1] != 0 as char
    ensures FromOsString(Utf16Null(ident)) == ident
  {
    FromOsStringOfOsStringNil(Windows, ident);
  }

  /** No two methods share a name, in either language. */
  predicate DistinctFuncNames(funcs: seq<FuncDesc>) {
    forall a, b :: 0 <= a < |funcs| && 0 <= b < |funcs| && a != b ==>
      funcs[a].name != funcs[b].name && funcs[a].name != funcs[b].nameRu &&
      funcs[a].nameRu != funcs[b].name && funcs[a].nameRu != funcs[b].nameRu
  }

  /** No two properties share a name text, in either language. */
  predicate DistinctPropTexts(props: seq<PropDesc>, consts: (string, seq<string>) -> string) {
    forall a, b :: 0 <= a < |props| && 0 <= b < |props| && a != b ==>
      NameText(props[a].name, consts) != NameText(props[b].name, consts) &&
      NameText(props[a].name, consts) != NameText(props[b].nameRu, consts) &&
      NameText(props[a].nameRu, consts) != NameText(props[b].name, consts) &&
      NameText(props[a].nameRu, consts) != NameText(props[b].nameRu, consts)
  }

  /**
   * With terminated names, the host's lookup of a name the impl reports
   * succeeds: the name arrives terminated, as `get_str` reads it, and the
   * impl finds the method again.
   */
  lemma HostFindsReportedMethod<U(!new), D>(ident: string, props: seq<PropDesc>, funcs: seq<FuncDesc>,
                                            consts: (string, seq<string>) -> string, impls: UserFns<U, D>, c: Chrono<D>,
                                            p: Platform, s: Instance<U>, i: nat, alias: nat)
    requires i < |funcs| && DistinctFuncNames(funcs)
    ensures var a := AssembleFixed(ident, props, funcs, consts, impls, c, p);
      var name := if alias == 0 then funcs[i].name else funcs[i].nameRu;
      a.getMethodName(s, i, alias) == Some(Encode(name) + [0]) &&
      a.findMethod(s, Encode(name) + [0]) == Some(i)
  {
    var enc := OsStringNilFixed;
    forall a, b | 0 <= a < |funcs| && 0 <= b < |funcs| && a != b
      ensures enc(funcs[a].name) != enc(funcs[b].name) && enc(funcs[a].name) != enc(funcs[b].nameRu) &&
              enc(funcs[a].nameRu) != enc(funcs[b].name) && enc(funcs[a].nameRu) != enc(funcs[b].nameRu)
    {
      if enc(funcs[a].name) == enc(funcs[b].name) { TerminatedNamesInjective(funcs[a].name, funcs[b].name); }
      if enc(funcs[a].name) == enc(funcs[b].nameRu) { TerminatedNamesInjective(funcs[a].name, funcs[b].nameRu); }
      if enc(funcs[a].nameRu) == enc(funcs[b].name) { TerminatedNamesInjective(funcs[a].nameRu, funcs[b].name); }
      if enc(funcs[a].nameRu) == enc(funcs[b].nameRu) { TerminatedNamesInjective(funcs[a].nameRu, funcs[b].nameRu); }
    }
    FindMethodOfName(funcs, enc, i, alias);
  }

  /** The same for properties, whose names may be constants. */
  lemma HostFindsReportedProp<U(!new), D>(ident: string, props: seq<PropDesc>, funcs: seq<FuncDesc>,
                                          consts: (string, seq<string>) -> string, impls: UserFns<U, D>, c: Chrono<D>,
                                          p: Platform, s: Instance<U>, i: nat, alias: nat)
    requires i < |props| && DistinctPropTexts(props, consts)
    ensures var a := AssembleFixed(ident, props, funcs, consts, impls, c, p);
      var name := NameText(if alias == 0 then props[i].name else props[i].nameRu, consts);
      a.getPropName(s, i, alias) == Some(Encode(name) + [0]) &&
      a.findProp(s, Encode(name) + [0]) == Some(i)
  {
    var enc := OsStringNilFixed;
    forall a, b | 0 <= a < |props| && 0 <= b < |props| && a != b
      ensures EnName(props, consts, enc, a) != EnName(props, consts, enc, b) &&
              EnName(props, consts, enc, a) != RuName(props, consts, enc, b) &&
              RuName(props, consts, enc, a) != EnName(props, consts, enc, b) &&
              RuName(props, consts, enc, a) != RuName(props, consts, enc, b)
    {
      var ea, ra := NameText(props[a].name, consts), NameText(props[a].nameRu, consts);
      var eb, rb := NameText(props[b].name, consts), NameText(props[b].nameRu, consts);
      if enc(ea) == enc(eb) { TerminatedNamesInjective(ea, eb); }
      if enc(ea) == enc(rb) { TerminatedNamesInjective(ea, rb); }
      if enc(ra) == enc(eb) { TerminatedNamesInjective(ra, eb); }
      if enc(ra) == enc(rb) { TerminatedNamesInjective(ra, rb); }
    }
    FindPropOfName(props, consts, enc, i, alias);
  }

  /**
   * As generated, the name collectors encode with `os_string_nil`, which on
   * unix has no terminator, while the host's names arrive through `get_str`
   * with theirs: the impl finds no NUL-free method name.
   */
  lemma UnixLookupNeverMatches<U(!new), D>(ident: string, props: seq<PropDesc>, funcs: seq<FuncDesc>,
                                           consts: (string, seq<string>) -> string, impls: UserFns<U, D>, c: Chrono<D>,
                                           s: Instance<U>, query: seq<u16>)
    requires |query| > 0 && query[|query| - 1] == 0
    requires forall i :: 0 <= i < |funcs| ==> NulFree(funcs[i].name) && NulFree(funcs[i].nameRu)
    ensures Assemble(ident, props, funcs, consts, impls, c, Unix).findMethod(s, query) == None
  {
    forall i | 0 <= i < |funcs|
      ensures OsStringNil(Unix, funcs[i].name) != query && OsStringNil(Unix, funcs[i].nameRu) != query
    {
      EncodeHasNoZeroUnlessNul(funcs[i].name);
      EncodeHasNoZeroUnlessNul(funcs[i].nameRu);
    }
  }

  /** The same for properties. */
  lemma UnixPropLookupNeverMatches<U(!new), D>(ident: string, props: seq<PropDesc>, funcs: seq<FuncDesc>,
                                               consts: (string, seq<string>) -> string, impls: UserFns<U, D>, c: Chrono<D>,
                                               s: Instance<U>, query: seq<u16>)
    requires |query| > 0 && query[|query| - 1] == 0
    requires forall i :: 0 <= i < |props| ==> NulFree(NameText(props[i].name, consts)) && NulFree(NameText(props[i].nameRu, consts))
    ensures Assemble(ident, props, funcs, consts, impls, c, Unix).findProp(s, query) == None
  {
    var unix := (t: string) => OsStringNil(Unix, t);
    forall i | 0 <= i < |props|
      ensures EnName(props, consts, unix, i) != query && RuName(props, consts, unix, i) != query
    {
      EncodeHasNoZeroUnlessNul(NameText(props[i].name, consts));
      EncodeHasNoZeroUnlessNul(NameText(props[i].nameRu, consts));
    }
  }

  /** No NUL character in a name. */
  predicate NulFree(s: string) {
    forall i :: 0 <= i < |s| ==> s[i] != 0 as char
  }
}
