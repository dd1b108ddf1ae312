/**
 * The method-side entries of the generated `AddInWrapper` impl, one per
 * collector, each a function of the parsed descriptors in declaration
 * order. `enc` is the encoding the generated code applies to names.
 */
module FunctionsCollectors {
  import opened Prim
  import opened Wrappers
  import opened ProvidedTypes
  import opened Descriptors
  import opened GeneratedCall
  import opened Interface

  /** `get_n_methods`: a constant, the number of `add_in_func` fields. */
  function GetNMethods(fs: seq<FuncDesc>): (n: nat)
    ensures n == |fs|
  {
    |fs|
  }

  /** One `if num == i && alias == 0 { .. }; if num == i { .. }` pair of the generated chain. */
  datatype NameEntry = NameEntry(index: nat, en: seq<u16>, ru: seq<u16>)

  /** Running an if/return chain: the first entry for `num` answers. */
  function RunNameChain(body: seq<NameEntry>, num: nat, alias: nat): Option<seq<u16>> {
    if body == [] then None
    else if body[0].index == num then Some(if alias == 0 then body[0].en else body[0].ru)
    else RunNameChain(body[1..], num, alias)
  }

  function Entry(fs: seq<FuncDesc>, enc: string -> seq<u16>, i: nat): NameEntry
    requires i < |fs|
  {
    NameEntry(i, enc(fs[i].name), enc(fs[i].nameRu))
  }

  /**
   * The body `get_method_name.rs` builds: each step appends the body so far
   * AND the new pair to the body so far, so the chain doubles every time.
   */
  function DoubledBody(fs: seq<FuncDesc>, enc: string -> seq<u16>, n: nat): seq<NameEntry>
    requires n <= |fs|
  {
    if n == 0 then []
    else
      var b := DoubledBody(fs, enc, n - 1);
      b + b + [Entry(fs, enc, n - 1)]
  }

  /** `get_method_name` as generated. */
  function GetMethodName(fs: seq<FuncDesc>, enc: string -> seq<u16>, num: nat, alias: nat): Option<seq<u16>> {
    RunNameChain(DoubledBody(fs, enc, |fs|), num, alias)
  }

  /** The lookup the chain is meant to be. */
  function MethodName(fs: seq<FuncDesc>, enc: string -> seq<u16>, num: nat, alias: nat): (r: Option<seq<u16>>)
    ensures r.Some? <==> num < |fs|
  {
    if num < |fs| then Some(if alias == 0 then enc(fs[num].name) else enc(fs[num].nameRu)) else None
  }

  lemma {:induction false} RunNameChainAppend(a: seq<NameEntry>, b: seq<NameEntry>, num: nat, alias: nat)
    ensures RunNameChain(a + b, num, alias) ==
            if RunNameChain(a, num, alias).Some? then RunNameChain(a, num, alias) else RunNameChain(b, num, alias)
  {
    if a != [] {
      assert (a + b)[1..] == a[1..] + b;
      RunNameChainAppend(a[1..], b, num, alias);
    } else {
      assert a + b == b;
    }
  }

  /** The first `n` pairs of the doubled chain answer exactly the indices below `n`. */
  lemma {:induction false} DoubledBodyRuns(fs: seq<FuncDesc>, enc: string -> seq<u16>, n: nat, num: nat, alias: nat)
    requires n <= |fs|
    ensures RunNameChain(DoubledBody(fs, enc, n), num, alias) ==
            if num < n then MethodName(fs, enc, num, alias) else None
  {
    if n > 0 {
      var b := DoubledBody(fs, enc, n - 1);
      DoubledBodyRuns(fs, enc, n - 1, num, alias);
      RunNameChainAppend(b + b, [Entry(fs, enc, n - 1)], num, alias);
      RunNameChainAppend(b, b, num, alias);
      assert [Entry(fs, enc, n - 1)][1..] == [];
    }
  }

  /**
   * Re-emitting the body into itself does not change any answer: index `i`
   * with alias 0 gives the English name, any other alias the Russian one,
   * and an index at or past the method count gives `None`.
   */
  lemma GetMethodNameIsLookup(fs: seq<FuncDesc>, enc: string -> seq<u16>, num: nat, alias: nat)
    ensures GetMethodName(fs, enc, num, alias) == MethodName(fs, enc, num, alias)
  {
    DoubledBodyRuns(fs, enc, |fs|, num, alias);
  }

  /** `find_method`: the first index whose English or Russian encoded name equals `name`. */
  function FindMethod(fs: seq<FuncDesc>, enc: string -> seq<u16>, name: seq<u16>): (r: Option<nat>)
    ensures r.Some? ==> r.value < |fs| && (enc(fs[r.value].name) == name || enc(fs[r.value].nameRu) == name)
    ensures r.Some? ==> forall j :: 0 <= j < r.value ==> enc(fs[j].name) != name && enc(fs[j].nameRu) != name
    ensures r.None? <==> forall j :: 0 <= j < |fs| ==> enc(fs[j].name) != name && enc(fs[j].nameRu) != name
  {
    if fs == [] then None
    else if enc(fs[0].name) == name || enc(fs[0].nameRu) == name then Some(0)
    else match FindMethod(fs[1..], enc, name)
      case None => None
      case Some(i) => Some(i + 1)
  }

  /** No two methods share an encoded name (a method's own two names may coincide). */
  predicate DistinctMethodNames(fs: seq<FuncDesc>, enc: string -> seq<u16>) {
    forall i, j :: 0 <= i < |fs| && 0 <= j < |fs| && i != j ==>
      enc(fs[i].name) != enc(fs[j].name) && enc(fs[i].name) != enc(fs[j].nameRu) &&
      enc(fs[i].nameRu) != enc(fs[j].name) && enc(fs[i].nameRu) != enc(fs[j].nameRu)
  }

  /** Looking up the name the add-in reports for method `i` finds `i` again. */
  lemma FindMethodOfName(fs: seq<FuncDesc>, enc: string -> seq<u16>, i: nat, alias: nat)
    requires i < |fs| && DistinctMethodNames(fs, enc)
    ensures var name := MethodName(fs, enc, i, alias).value;
            GetMethodName(fs, enc, i, alias) == Some(name) && FindMethod(fs, enc, name) == Some(i)
  {
    GetMethodNameIsLookup(fs, enc, i, alias);
  }

  /** `get_n_params`: the host-visible parameters, 0 for an unknown method. */
  function GetNParams(fs: seq<FuncDesc>, num: nat): (n: nat)
    ensures num < |fs| ==> n == |fs[num].params| - SelfCount(fs[num].params)
    ensures num >= |fs| ==> n == 0
  {
    Params1cCount(if num < |fs| then fs[num].params else []);
    if num < |fs| then |Params1c(fs[num].params)| else 0
  }

  /** `has_ret_val`: whether the method declares a return type. */
  function HasRetVal(fs: seq<FuncDesc>, num: nat): (r: bool)
    ensures r <==> num < |fs| && fs[num].returnValue.ty.Some?
  {
    num < |fs| && fs[num].returnValue.ty.Some?
  }

  /** `get_param_def_value`: parameter `param` counted without `Self`; `None` for no default or an unknown index. */
  function GetParamDefValue(fs: seq<FuncDesc>, methodNum: nat, param: nat): (r: Option<ParamValue>)
    ensures r.Some? ==> methodNum < |fs| && param < GetNParams(fs, methodNum)
    ensures r.Some? ==> Some(r.value) == Params1c(fs[methodNum].params)[param].default
    ensures methodNum < |fs| && param < GetNParams(fs, methodNum) ==> r == Params1c(fs[methodNum].params)[param].default
  {
    if methodNum < |fs| then DefaultChain(Params1c(fs[methodNum].params), 0, param) else None
  }

  /** The generated `if param_num == j { return Some(..) }` chain over the parameters that have defaults. */
  function DefaultChain(ps: seq<FuncArgumentDesc>, from: nat, param: nat): (r: Option<ParamValue>)
    requires from <= |ps|
    ensures from <= param < |ps| ==> r == ps[param].default
    ensures !(from <= param < |ps|) ==> r.None?
    decreases |ps| - from
  {
    if from == |ps| then None
    else if ps[from].default.None? then DefaultChain(ps, from + 1, param)
    else if param == from then ps[from].default
    else DefaultChain(ps, from + 1, param)
  }

  /** `call_as_proc`: every method can be called as a procedure; an unknown index fails and changes nothing. */
  function CallAsProc<S, D>(fs: seq<FuncDesc>, impls: nat -> ((S, seq<Arg<D>>) -> UserOutcome<S, D>), c: Chrono<D>,
                            p: Platform, state: S, num: nat, slots: seq<ParamValue>): (r: ProcOutcome<S>)
    ensures num >= |fs| ==> r == ProcOutcome(false, state, slots)
    ensures num < |fs| ==> var call := Call(fs[num], impls(num), c, p, state, slots);
                           r == ProcOutcome(call.ok, call.state, call.slots)
  {
    if num < |fs| then
      var call := Call(fs[num], impls(num), c, p, state, slots);
      ProcOutcome(call.ok, call.state, call.slots)
    else ProcOutcome(false, state, slots)
  }

  /** `call_as_func`: methods without a return type are skipped, so they fail like an unknown index. */
  function CallAsFunc<S, D>(fs: seq<FuncDesc>, impls: nat -> ((S, seq<Arg<D>>) -> UserOutcome<S, D>), c: Chrono<D>,
                            p: Platform, state: S, num: nat, slots: seq<ParamValue>): (r: FuncOutcome<S>)
    ensures !HasRetVal(fs, num) ==> r == FuncOutcome(None, state, slots)
    ensures HasRetVal(fs, num) ==> var call := Call(fs[num], impls(num), c, p, state, slots);
                                   r == FuncOutcome(if call.ok then call.ret else None, call.state, call.slots)
  {
    if num < |fs| && fs[num].returnValue.ty.Some? then
      var call := Call(fs[num], impls(num), c, p, state, slots);
      FuncOutcome(if call.ok then call.ret else None, call.state, call.slots)
    else FuncOutcome(None, state, slots)
  }

  /** A successful `call_as_func` implies `has_ret_val`, and its value has the declared return type. */
  lemma CallAsFuncNeedsRetVal<S, D>(fs: seq<FuncDesc>, impls: nat -> ((S, seq<Arg<D>>) -> UserOutcome<S, D>),
                                    c: Chrono<D>, p: Platform, state: S, num: nat, slots: seq<ParamValue>)
    requires CallAsFunc(fs, impls, c, p, state, num, slots).ret.Some?
    ensures HasRetVal(fs, num)
    ensures HasType(CallAsFunc(fs, impls, c, p, state, num, slots).ret.value, fs[num].returnValue.ty.value)
  {
    CallSelfAndReturn(fs[num], impls(num), c, p, state, slots);
  }

  /**
   * Every per-index collector sees the same enumeration: an index below
   * `get_n_methods` has a name, and one at or past it has no name, no
   * parameters, no return value and cannot be called.
   */
  lemma MethodIndexingAgrees<S, D>(fs: seq<FuncDesc>, enc: string -> seq<u16>,
                                   impls: nat -> ((S, seq<Arg<D>>) -> UserOutcome<S, D>), c: Chrono<D>,
                                   p: Platform, state: S, num: nat, alias: nat, param: nat, slots: seq<ParamValue>)
    ensures GetMethodName(fs, enc, num, alias).Some? <==> num < GetNMethods(fs)
    ensures num >= GetNMethods(fs) ==>
      GetNParams(fs, num) == 0 && !HasRetVal(fs, num) && GetParamDefValue(fs, num, param).None? &&
      !CallAsProc(fs, impls, c, p, state, num, slots).ok &&
      CallAsFunc(fs, impls, c, p, state, num, slots).ret.None?
  {
    GetMethodNameIsLookup(fs, enc, num, alias);
  }
}
