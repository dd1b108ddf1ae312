/**
 * The body `func_call_tkn` generates for one `#[add_in_func]` method: bind
 * each host slot to an argument of the declared type, call the user's
 * function, copy out-parameters back and build the return value.
 */
module GeneratedCall {
  import opened Prim
  import opened Wrappers
  import opened ProvidedTypes
  import opened StringUtils
  import opened Descriptors

  /** A Rust argument as the user's function sees it; `D` is the `chrono` date-time type. */
  datatype Arg<D> = ABool(b: bool) | AI32(i: i32) | AF64(f: Double) | AStr(s: string) | ADate(d: D) | ABlob(bytes: seq<u8>)

  /** The two `Tm` conversions of `provided_types.rs`; the `chrono` logic behind them is not modelled. */
  datatype Chrono<!D> = Chrono(toDateTime: Tm -> D, fromDateTime: D -> Tm)

  /**
   * What the user's function does: its new `self`, the values it leaves in
   * its argument places, whether it returned `Err` (only read under
   * `#[returns(result)]`) and the value it returned.
   */
  datatype UserOutcome<S, D> = UserOutcome(state: S, args: seq<Arg<D>>, failed: bool, value: Option<Arg<D>>)

  /** The result of one generated call: success, the new `self`, the slots, the value for `set_to`. */
  datatype CallResult<S> = CallResult(ok: bool, state: S, slots: seq<ParamValue>, ret: Option<ParamValue>)

  /** The binding `gen_param_prep` makes for a slot: the declared variant only, except that F64 also takes I32. */
  function ArgOf<D>(t: ParamType, v: ParamValue, c: Chrono<D>): (r: Option<Arg<D>>)
    ensures r.Some? <==> HasType(v, t) || (t == F64Type && v.I32?)
    ensures t == F64Type && v.I32? ==> r == Some(AF64(I32ToDouble(v.i)))
  {
    match (t, v)
    case (BoolType, Bool(b)) => Some(ABool(b))
    case (I32Type, I32(i)) => Some(AI32(i))
    case (F64Type, F64(f)) => Some(AF64(f))
    case (F64Type, I32(i)) => Some(AF64(I32ToDouble(i)))
    case (StringType, Str(u)) => Some(AStr(FromOsString(u)))
    case (DateType, Date(tm)) => Some(ADate(c.toDateTime(tm)))
    case (BlobType, Blob(b)) => Some(ABlob(b))
    case _ => None
  }

  predicate ArgHasType<D>(a: Arg<D>, t: ParamType) {
    match t
    case BoolType => a.ABool?
    case I32Type => a.AI32?
    case F64Type => a.AF64?
    case StringType => a.AStr?
    case DateType => a.ADate?
    case BlobType => a.ABlob?
  }

  /** A Rust value stored back as a host value: strings through `os_string`, dates through `From<DateTime>`. */
  function ParamOf<D>(a: Arg<D>, p: Platform, c: Chrono<D>): ParamValue {
    match a
    case ABool(b) => Bool(b)
    case AI32(i) => I32(i)
    case AF64(f) => F64(f)
    case AStr(s) => Str(OsString(p, s))
    case ADate(d) => Date(c.fromDateTime(d))
    case ABlob(b) => Blob(b)
  }

  /** The parameter types, all of them platform types once `Self` is dropped. */
  function Types(ps: seq<FuncArgumentDesc>): (r: seq<ParamType>)
    requires forall k :: 0 <= k < |ps| ==> ps[k].ty.PlatformType?
    ensures |r| == |ps| && forall k :: 0 <= k < |ps| ==> r[k] == ps[k].ty.ty
  {
    seq(|ps|, k requires 0 <= k < |ps| => ps[k].ty.ty)
  }

  /** `let [..] = params else { return false }` and the per-slot `let .. else { return false }`. */
  predicate Binds<D>(ts: seq<ParamType>, slots: seq<ParamValue>, c: Chrono<D>) {
    |slots| == |ts| && forall k :: 0 <= k < |ts| ==> ArgOf(ts[k], slots[k], c).Some?
  }

  function Bound<D>(ts: seq<ParamType>, slots: seq<ParamValue>, c: Chrono<D>): (r: seq<Arg<D>>)
    requires Binds(ts, slots, c)
    ensures |r| == |ts|
  {
    seq(|ts|, k requires 0 <= k < |ts| => ArgOf(ts[k], slots[k], c).value)
  }

  /** Bool, I32 and Blob slots are bound by `ref mut`: the user's writes land in the slot during the call. */
  predicate ByReference(t: ParamType) {
    t == BoolType || t == I32Type || t == BlobType
  }

  /**
   * A `Date` out-parameter is bound to a local `DateTime` that the user's
   * function receives by value, so its writes stay in its own copy: the
   * copy-back stores the incoming date converted to `DateTime` and back.
   */
  function DateCopyBack<D>(before: ParamValue, c: Chrono<D>): ParamValue {
    if before.Date? then Date(c.fromDateTime(c.toDateTime(before.tm))) else before
  }

  /**
   * A slot after the call. In-parameters are untouched. A by-reference
   * out-parameter holds what the user left there, even if the call is then
   * aborted; F64 and String out-parameters are `&mut` locals copied back
   * only when the call is not aborted, and a `Date` out-parameter is copied
   * back from its by-value local, whatever the user did. `left` is the
   * user's value for the place, if it has the declared type.
   */
  function SlotAfter<D>(t: ParamType, outParam: bool, before: ParamValue, left: Option<Arg<D>>, aborted: bool,
                        p: Platform, c: Chrono<D>): ParamValue {
    if !outParam then before
    else if t == DateType then (if aborted then before else DateCopyBack(before, c))
    else if left.None? || !ArgHasType(left.value, t) then before
    else if ByReference(t) || !aborted then ParamOf(left.value, p, c)
    else before
  }

  function LeftAt<S, D>(out: UserOutcome<S, D>, k: nat): Option<Arg<D>> {
    if k < |out.args| then Some(out.args[k]) else None
  }

  /** Whether the function takes `&mut Self`, so that its changes to `self` are kept. */
  predicate MutableSelf(ps: seq<FuncArgumentDesc>) {
    exists k :: 0 <= k < |ps| && ps[k].ty.SelfType? && ps[k].outParam
  }

  /** The value `set_to` receives: chosen by the return type, nothing for `ReturnType::None`. */
  function ReturnOf<D>(ty: Option<ParamType>, value: Option<Arg<D>>, p: Platform, c: Chrono<D>): (r: Option<ParamValue>)
    ensures ty.None? ==> r.None?
    ensures r.Some? ==> value.Some? && HasType(r.value, ty.value)
  {
    if ty.None? || value.None? || !ArgHasType(value.value, ty.value) then None
    else Some(ParamOf(value.value, p, c))
  }

  /** The generated call, as a function of `self` and the slots. */
  function Call<S, D>(f: FuncDesc, user: (S, seq<Arg<D>>) -> UserOutcome<S, D>, c: Chrono<D>, p: Platform,
                      self: S, slots: seq<ParamValue>): (r: CallResult<S>)
    ensures |r.slots| == |slots|
  {
    var ps := Params1c(f.params);
    var ts := Types(ps);
    if !Binds(ts, slots, c) then CallResult(false, self, slots, None)
    else
      var out := user(self, Bound(ts, slots, c));
      var aborted := f.returnValue.result && out.failed;
      CallResult(!aborted,
                 if MutableSelf(f.params) then out.state else self,
                 seq(|slots|, k requires 0 <= k < |slots| =>
                   SlotAfter(ts[k], ps[k].outParam, slots[k], LeftAt(out, k), aborted, p, c)),
                 if aborted then None else ReturnOf(f.returnValue.ty, out.value, p, c))
  }

  /**
   * The value a place writes into its slot in the pass that handles
   * `byReference` places, if any: the user's value, or for a `Date` the
   * incoming date converted back.
   */
  function PassValue<D>(t: ParamType, outParam: bool, before: ParamValue, left: Option<Arg<D>>, byReference: bool,
                        p: Platform, c: Chrono<D>): Option<ParamValue> {
    if !outParam || ByReference(t) != byReference then None
    else if t == DateType then Some(DateCopyBack(before, c))
    else if left.Some? && ArgHasType(left.value, t) then Some(ParamOf(left.value, p, c))
    else None
  }

  /** The per-slot bindings, in order; nothing is bound unless every slot is. */
  method BindSlots<D>(ts: seq<ParamType>, params: array<ParamValue>, c: Chrono<D>) returns (args: Option<seq<Arg<D>>>)
    ensures args.Some? <==> Binds(ts, params[..], c)
    ensures args.Some? ==> args.value == Bound(ts, params[..], c)
  {
    if params.Length != |ts| {
      return None;
    }
    ghost var slots := params[..];
    var bound: seq<Arg<D>> := [];
    var k := 0;
    while k < params.Length
      invariant 0 <= k <= params.Length
      invariant forall j :: 0 <= j < k ==> ArgOf(ts[j], slots[j], c).Some?
      invariant |bound| == k && forall j :: 0 <= j < k ==> bound[j] == ArgOf(ts[j], slots[j], c).value
    {
      var a := ArgOf(ts[k], params[k], c);
      if a.None? {
        return None;
      }
      bound := bound + [a.value];
      k := k + 1;
    }
    assert bound == Bound(ts, slots, c);
    return Some(bound);
  }

  /** One pass of out-parameter writes: the by-reference places, or the copied-back ones. */
  method CopyOut<D>(ts: seq<ParamType>, outs: seq<bool>, before: seq<ParamValue>, params: array<ParamValue>,
                    left: seq<Option<Arg<D>>>, byReference: bool, p: Platform, c: Chrono<D>)
    requires |ts| == |outs| == |before| == |left| == params.Length
    modifies params
    ensures forall j :: 0 <= j < params.Length ==>
      var w := PassValue(ts[j], outs[j], before[j], left[j], byReference, p, c);
      params[j] == if w.Some? then w.value else old(params[j])
  {
    var k := 0;
    while k < params.Length
      invariant 0 <= k <= params.Length
      invariant forall j :: 0 <= j < k ==>
        var w := PassValue(ts[j], outs[j], before[j], left[j], byReference, p, c);
        params[j] == if w.Some? then w.value else old(params[j])
      invariant forall j :: k <= j < params.Length ==> params[j] == old(params[j])
    {
      var w := PassValue(ts[k], outs[k], before[k], left[k], byReference, p, c);
      if w.Some? {
        params[k] := w.value;
      }
      k := k + 1;
    }
  }

  /**
   * The generated call over the host's parameter slice: bind every slot,
   * call, then the by-reference writes (made during the call) and, unless
   * the `result` check aborts, the copy-back of the other out-parameters.
   */
  method CallFunction<S, D>(f: FuncDesc, user: (S, seq<Arg<D>>) -> UserOutcome<S, D>, c: Chrono<D>, p: Platform,
                            self: S, params: array<ParamValue>)
      returns (ok: bool, state: S, ret: Option<ParamValue>)
    modifies params
    ensures var r := Call(f, user, c, p, self, old(params[..]));
            ok == r.ok && state == r.state && ret == r.ret && params[..] == r.slots
  {
    var ps := Params1c(f.params);
    var ts := Types(ps);
    var slots := params[..];
    var args := BindSlots(ts, params, c);
    if args.None? {
      return false, self, None;
    }
    var out := user(self, args.value);
    var aborted := f.returnValue.result && out.failed;
    state := if MutableSelf(f.params) then out.state else self;
    var outs := seq(|ps|, k requires 0 <= k < |ps| => ps[k].outParam);
    var left := seq(params.Length, k requires 0 <= k < params.Length => LeftAt(out, k));
    ghost var r := Call(f, user, c, p, self, slots);
    CopyOut(ts, outs, slots, params, left, true, p, c);
    if aborted {
      assert params[..] == r.slots by {
        forall j | 0 <= j < params.Length ensures params[j] == r.slots[j] {}
      }
      return false, state, None;
    }
    CopyOut(ts, outs, slots, params, left, false, p, c);
    assert params[..] == r.slots by {
      forall j | 0 <= j < params.Length ensures params[j] == r.slots[j] {}
    }
    return true, state, ReturnOf(f.returnValue.ty, out.value, p, c);
  }

  /** The call needs exactly one slot per non-`Self` parameter; otherwise nothing runs and nothing changes. */
  lemma CallNeedsArity<S, D>(f: FuncDesc, user: (S, seq<Arg<D>>) -> UserOutcome<S, D>, c: Chrono<D>, p: Platform,
                             self: S, slots: seq<ParamValue>)
    requires |slots| != |Params1c(f.params)|
    ensures Call(f, user, c, p, self, slots) == CallResult(false, self, slots, None)
  {
  }

  /** A slot of the wrong variant stops the call before the user's function runs. */
  lemma CallNeedsTypes<S, D>(f: FuncDesc, user: (S, seq<Arg<D>>) -> UserOutcome<S, D>, c: Chrono<D>, p: Platform,
                             self: S, slots: seq<ParamValue>, k: nat)
    requires |slots| == |Params1c(f.params)| && k < |slots|
    requires !HasType(slots[k], Params1c(f.params)[k].ty.ty)
    requires !(Params1c(f.params)[k].ty.ty == F64Type && slots[k].I32?)
    ensures Call(f, user, c, p, self, slots) == CallResult(false, self, slots, None)
  {
    assert ArgOf(Types(Params1c(f.params))[k], slots[k], c).None?;
  }

  /** In-parameters are never written, whatever the user's function does. */
  lemma InParamsUntouched<S, D>(f: FuncDesc, user: (S, seq<Arg<D>>) -> UserOutcome<S, D>, c: Chrono<D>, p: Platform,
                                self: S, slots: seq<ParamValue>, k: nat)
    requires k < |slots| && k < |Params1c(f.params)| && !Params1c(f.params)[k].outParam
    ensures Call(f, user, c, p, self, slots).slots[k] == slots[k]
  {
  }

  /**
   * With `#[returns(result)]`, an `Err` fails the call before the copy-back:
   * F64, String and Date out-slots keep their values, while by-reference
   * out-slots already hold what the user wrote.
   */
  lemma ResultErrSkipsCopyBack<S, D>(f: FuncDesc, user: (S, seq<Arg<D>>) -> UserOutcome<S, D>, c: Chrono<D>, p: Platform,
                                     self: S, slots: seq<ParamValue>)
    requires f.returnValue.result
    requires Binds(Types(Params1c(f.params)), slots, c)
    requires user(self, Bound(Types(Params1c(f.params)), slots, c)).failed
    ensures var r := Call(f, user, c, p, self, slots);
            var ps := Params1c(f.params);
            var out := user(self, Bound(Types(ps), slots, c));
            !r.ok && r.ret.None? &&
            (forall k :: 0 <= k < |slots| && !ByReference(ps[k].ty.ty) ==> r.slots[k] == slots[k]) &&
            (forall k :: 0 <= k < |slots| && ps[k].outParam && ByReference(ps[k].ty.ty) &&
                         k < |out.args| && ArgHasType(out.args[k], ps[k].ty.ty) ==>
                           r.slots[k] == ParamOf(out.args[k], p, c))
  {
  }

  /** `ParamOf` gives a value of the declared variant. */
  lemma ParamOfHasType<D>(a: Arg<D>, t: ParamType, p: Platform, c: Chrono<D>)
    requires ArgHasType(a, t)
    ensures HasType(ParamOf(a, p, c), t)
  {
  }

  /**
   * The call keeps every slot bindable to its declared type, so the slots
   * it leaves behind are again valid arguments; an F64 out-slot that the
   * call writes ends as F64 even if it came in as I32.
   */
  lemma {:induction false} CallKeepsSlotTypes<S, D>(f: FuncDesc, user: (S, seq<Arg<D>>) -> UserOutcome<S, D>,
                                                    c: Chrono<D>, p: Platform, self: S, slots: seq<ParamValue>)
    requires Binds(Types(Params1c(f.params)), slots, c)
    ensures var r := Call(f, user, c, p, self, slots);
            var ts := Types(Params1c(f.params));
            Binds(ts, r.slots, c) &&
            forall k :: 0 <= k < |slots| && ts[k] == F64Type && r.slots[k] != slots[k] ==> r.slots[k].F64?
  {
    var r := Call(f, user, c, p, self, slots);
    var ps := Params1c(f.params);
    var ts := Types(ps);
    var out := user(self, Bound(ts, slots, c));
    forall k | 0 <= k < |slots| ensures ArgOf(ts[k], r.slots[k], c).Some? {
      var left := LeftAt(out, k);
      if r.slots[k] != slots[k] && ts[k] != DateType {
        ParamOfHasType(left.value, ts[k], p, c);
      }
    }
  }

  /** A String out-parameter is stored with `os_string`, which `from_os_string` reads back unchanged. */
  lemma {:induction false} StringOutRoundTrip<S, D>(f: FuncDesc, user: (S, seq<Arg<D>>) -> UserOutcome<S, D>,
                                                    c: Chrono<D>, p: Platform, self: S, slots: seq<ParamValue>,
                                                    k: nat, s: string)
    requires Binds(Types(Params1c(f.params)), slots, c) && k < |slots|
    requires Params1c(f.params)[k].outParam && Params1c(f.params)[k].ty.ty == StringType
    requires Call(f, user, c, p, self, slots).ok
    requires LeftAt(user(self, Bound(Types(Params1c(f.params)), slots, c)), k) == Some(AStr(s))
    requires s == [] || s[|s| - 1] != 0 as char
    ensures Call(f, user, c, p, self, slots).slots[k] == Str(OsString(p, s))
    ensures FromOsString(OsString(p, s)) == s
  {
    var ps := Params1c(f.params);
    var ts := Types(ps);
    var out := user(self, Bound(ts, slots, c));
    var r := Call(f, user, c, p, self, slots);
    assert r.slots[k] == SlotAfter(ts[k], ps[k].outParam, slots[k], LeftAt(out, k), false, p, c);
    FromOsStringOfOsString(p, s);
  }

  /**
   * A `Date` out-parameter cannot carry the user's writes back: after a
   * call that is not aborted the slot holds the incoming date converted to
   * `DateTime` and back, for every user function.
   */
  lemma {:induction false} DateOutIgnoresUser<S, D>(f: FuncDesc, user: (S, seq<Arg<D>>) -> UserOutcome<S, D>,
                                                    c: Chrono<D>, p: Platform, self: S, slots: seq<ParamValue>, k: nat)
    requires Binds(Types(Params1c(f.params)), slots, c) && k < |slots|
    requires Params1c(f.params)[k].outParam && Params1c(f.params)[k].ty.ty == DateType
    requires Call(f, user, c, p, self, slots).ok
    ensures slots[k].Date?
    ensures Call(f, user, c, p, self, slots).slots[k] == Date(c.fromDateTime(c.toDateTime(slots[k].tm)))
  {
    var ps := Params1c(f.params);
    var ts := Types(ps);
    assert ts[k] == DateType;
    assert ArgOf(ts[k], slots[k], c).Some?;
    var r := Call(f, user, c, p, self, slots);
    var out := user(self, Bound(ts, slots, c));
    assert r.slots[k] == SlotAfter(ts[k], ps[k].outParam, slots[k], LeftAt(out, k), !r.ok, p, c);
  }

  /** Changes to `self` survive only through a `&mut Self` parameter; there is no return value without a return type. */
  lemma CallSelfAndReturn<S, D>(f: FuncDesc, user: (S, seq<Arg<D>>) -> UserOutcome<S, D>, c: Chrono<D>, p: Platform,
                                self: S, slots: seq<ParamValue>)
    ensures var r := Call(f, user, c, p, self, slots);
            (!MutableSelf(f.params) ==> r.state == self) &&
            (f.returnValue.ty.None? ==> r.ret.None?) &&
            (r.ret.Some? ==> HasType(r.ret.value, f.returnValue.ty.value))
  {
  }
}
