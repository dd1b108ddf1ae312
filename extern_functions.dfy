/**
 * `extern_functions!` (`extern_functions/mod.rs`, `extern_functions/parse.rs`):
 * a registry of up to 50 components, each selected by one character, and
 * the four C entry points the host calls to list, create and destroy them.
 */
module ExternFunctions {
  import opened Prim
  import opened Wrappers
  import opened Utf16
  import opened Descriptors
  import opened Interface
  import opened HostMemory
  import opened Ffi

  /** The code point of selector `i`: the runs '0'-'9', 'A'-'T' and 'a'-'t', in that order. */
  function SelectorCode(i: nat): nat
    requires i < 50
  {
    if i < 10 then 48 + i else if i < 30 then 65 + (i - 10) else 97 + (i - 30)
  }

  /** `ASCII_LOWER`: the 50 selector characters. */
  function AsciiLower(): string {
    seq(50, i requires 0 <= i < 50 => SelectorCode(i) as char)
  }

  /** The table runs '0'..'9', 'A'..'T', 'a'..'t' and no character repeats, so selection is unambiguous. */
  lemma SelectorTable()
    ensures |AsciiLower()| == 50
    ensures AsciiLower()[0] == '0' && AsciiLower()[9] == '9' && AsciiLower()[10] == 'A' &&
            AsciiLower()[29] == 'T' && AsciiLower()[30] == 'a' && AsciiLower()[49] == 't'
    ensures forall i :: 0 <= i < 50 ==> AsciiLower()[i] as int == SelectorCode(i) && 48 <= SelectorCode(i) < 0x80
    ensures forall i, j :: 0 <= i < 50 && 0 <= j < 50 && i != j ==> AsciiLower()[i] != AsciiLower()[j]
  {
  }

  // ---------------------------------------------------------------- parsing

  /** What `ExternAddInComponentMeta::from_meta` makes of an attribute's meta. */
  datatype ComponentMeta = ComponentMeta(name: Option<string>)

  /** An outer attribute on a component expression. */
  datatype ComponentAttr =
    | AddInComponentAttr(meta: Result<ComponentMeta, Error>)
    | OtherComponentAttr

  /** One comma-separated component: its attributes and the initialiser expression `T`. */
  datatype ComponentExpr<T> = ComponentExpr(attrs: seq<ComponentAttr>, init: T)

  /** `ExternAddInComponentDesc`. */
  datatype ComponentDesc<T> = ComponentDesc(nameOverride: Option<string>, init: T)

  /** A parse that can also panic. */
  datatype Outcome<R> = Done(result: R) | Panic

  /** The `add_in_component` attributes, in their order: an attribute is kept exactly when it is one. */
  function ComponentAttrs(attrs: seq<ComponentAttr>): (r: seq<ComponentAttr>)
    ensures forall k :: 0 <= k < |r| ==> r[k].AddInComponentAttr?
    ensures |r| <= |attrs|
  {
    if attrs == [] then []
    else (if attrs[0].AddInComponentAttr? then [attrs[0]] else []) + ComponentAttrs(attrs[1..])
  }

  /**
   * The filter keeps exactly the `add_in_component` attributes, in order:
   * an attribute is there exactly when it is one, the kept ones of a
   * concatenation are those of each part in turn, and an all-tagged list
   * is kept whole.
   */
  lemma {:induction false} ComponentAttrsExactly(attrs: seq<ComponentAttr>, more: seq<ComponentAttr>)
    ensures forall a :: a in ComponentAttrs(attrs) <==> a in attrs && a.AddInComponentAttr?
    ensures ComponentAttrs(attrs + more) == ComponentAttrs(attrs) + ComponentAttrs(more)
    ensures (forall k :: 0 <= k < |attrs| ==> attrs[k].AddInComponentAttr?) ==> ComponentAttrs(attrs) == attrs
  {
    if attrs != [] {
      ComponentAttrsExactly(attrs[1..], more);
      assert (attrs + more)[1..] == attrs[1..] + more;
    } else {
      assert attrs + more == more;
    }
  }

  /**
   * `ExternAddInComponentDesc::parse` as written: a single attribute whose
   * meta does not parse takes the error span from element 1 of a list of
   * length 1, which panics.
   */
  function ParseComponentAsWritten<T>(e: ComponentExpr<T>): Outcome<Result<ComponentDesc<T>, Error>> {
    var tagged := ComponentAttrs(e.attrs);
    if |tagged| > 1 then Done(Err(DuplicateAttribute("add_in_component")))
    else if |tagged| == 0 then Done(Ok(ComponentDesc(None, e.init)))
    else match tagged[0].meta
      case Ok(m) => Done(Ok(ComponentDesc(m.name, e.init)))
      case Err(_) => Panic
  }

  /** The intended parse: the meta's own error is reported. */
  function ParseComponent<T>(e: ComponentExpr<T>): (r: Result<ComponentDesc<T>, Error>)
    ensures |ComponentAttrs(e.attrs)| > 1 ==> r == Err(DuplicateAttribute("add_in_component"))
    ensures ComponentAttrs(e.attrs) == [] ==> r == Ok(ComponentDesc(None, e.init))
    ensures r.Ok? ==> r.value.init == e.init
    ensures |ComponentAttrs(e.attrs)| == 1 ==>
      r == (match ComponentAttrs(e.attrs)[0].meta
            case Ok(m) => Ok(ComponentDesc(m.name, e.init))
            case Err(err) => Err(err))
  {
    var tagged := ComponentAttrs(e.attrs);
    if |tagged| > 1 then Err(DuplicateAttribute("add_in_component"))
    else if |tagged| == 0 then Ok(ComponentDesc(None, e.init))
    else match tagged[0].meta
      case Ok(m) => Ok(ComponentDesc(m.name, e.init))
      case Err(err) => Err(err)
  }

  /** The as-written parse panics on exactly the single malformed attribute, and otherwise agrees with the intended one. */
  lemma ComponentParsePanics<T>(e: ComponentExpr<T>)
    ensures ParseComponentAsWritten(e).Panic? <==>
      |ComponentAttrs(e.attrs)| == 1 && ComponentAttrs(e.attrs)[0].meta.Err?
    ensures ParseComponentAsWritten(e).Done? && ParseComponentAsWritten(e).result.Ok? ==>
      ParseComponent(e) == ParseComponentAsWritten(e).result
  {
  }

  /** A concrete input: `#[add_in_component(name)] my_init` with a malformed meta. */
  lemma MalformedAttributePanics()
    ensures ParseComponentAsWritten(ComponentExpr([AddInComponentAttr(Err(MalformedMeta("add_in_component")))], 7)).Panic?
    ensures ParseComponent(ComponentExpr([AddInComponentAttr(Err(MalformedMeta("add_in_component")))], 7))
            == Err(MalformedMeta("add_in_component"))
  {
    var attrs := [AddInComponentAttr(Err(MalformedMeta("add_in_component")))];
    assert ComponentAttrs(attrs) == attrs by {
      assert attrs[1..] == [];
    }
  }

  /** `ExternAddInsDesc::parse`: every component in order; the first error wins. */
  function ParseComponents<T>(es: seq<ComponentExpr<T>>): Result<seq<ComponentDesc<T>>, Error> {
    if es == [] then Ok([])
    else match ParseComponent(es[0])
      case Err(e) => Err(e)
      case Ok(d) =>
        match ParseComponents(es[1..])
        case Err(e) => Err(e)
        case Ok(ds) => Ok([d] + ds)
  }

  lemma {:induction false} ParseComponentsInOrder<T>(es: seq<ComponentExpr<T>>)
    ensures ParseComponents(es).Ok? <==> forall k :: 0 <= k < |es| ==> ParseComponent(es[k]).Ok?
    ensures ParseComponents(es).Ok? ==>
      |ParseComponents(es).value| == |es| &&
      forall k :: 0 <= k < |es| ==> ParseComponents(es).value[k] == ParseComponent(es[k]).value
    ensures ParseComponents(es).Err? ==>
      exists k :: 0 <= k < |es| && ParseComponent(es[k]).Err? && ParseComponents(es).error == ParseComponent(es[k]).error &&
                  forall j :: 0 <= j < k ==> ParseComponent(es[j]).Ok?
  {
    if es != [] {
      ParseComponentsInOrder(es[1..]);
      if ParseComponent(es[0]).Ok? && ParseComponents(es[1..]).Err? {
        var k :| 0 <= k < |es[1..]| && ParseComponent(es[1..][k]).Err? && ParseComponents(es[1..]).error == ParseComponent(es[1..][k]).error &&
          forall j :: 0 <= j < k ==> ParseComponent(es[1..][j]).Ok?;
        assert es[k + 1] == es[1..][k];
        forall j | 0 <= j < k + 1
          ensures ParseComponent(es[j]).Ok?
        {
          if j > 0 { assert es[j] == es[1..][j - 1]; }
        }
      }
      if ParseComponents(es).Ok? {
        forall k | 0 <= k < |es|
          ensures ParseComponents(es).value[k] == ParseComponent(es[k]).value
        {
          if k > 0 { assert es[k] == es[1..][k - 1]; }
        }
      }
      if forall k :: 0 <= k < |es| ==> ParseComponent(es[k]).Ok? {
        forall k | 0 <= k < |es[1..]|
          ensures ParseComponent(es[1..][k]).Ok?
        {
          assert es[1..][k] == es[k + 1];
        }
      }
    }
  }

  /** `extern_functions`: more components than selectors is a compile error. */
  function ExternAddIns<T>(es: seq<ComponentExpr<T>>): (r: Result<seq<ComponentDesc<T>>, Error>)
    ensures r.Ok? ==> |r.value| <= |AsciiLower()| && r == ParseComponents(es)
    ensures r.Err? <==> ParseComponents(es).Err? || |es| > 50
  {
    ParseComponentsInOrder(es);
    match ParseComponents(es)
    case Err(e) => Err(e)
    case Ok(ds) => if |ds| > |AsciiLower()| then Err(TooManyComponents) else Ok(ds)
  }

  // ---------------------------------------------------------------- entry points

  /** `GetAttachType`. */
  function GetAttachType(): (a: AttachType)
    ensures AttachTypeCode(a) == 3
  {
    Any
  }

  /** The first `n` selectors joined by '|'. */
  function Joined(cs: string): string {
    if |cs| <= 1 then cs else [cs[0], '|'] + Joined(cs[1..])
  }

  lemma {:induction false} JoinedShape(cs: string)
    requires cs != []
    ensures |Joined(cs)| == 2 * |cs| - 1
    ensures forall k :: 0 <= k < |cs| ==> Joined(cs)[2 * k] == cs[k]
    ensures forall k :: 0 <= k < |cs| - 1 ==> Joined(cs)[2 * k + 1] == '|'
    decreases |cs|
  {
    if |cs| > 1 {
      JoinedShape(cs[1..]);
      var j := Joined(cs);
      assert j == [cs[0], '|'] + Joined(cs[1..]);
      forall k | 0 < k < |cs|
        ensures j[2 * k] == cs[k]
      {
        assert j[2 * k] == Joined(cs[1..])[2 * (k - 1)];
      }
      forall k | 0 < k < |cs| - 1
        ensures j[2 * k + 1] == '|'
      {
        assert j[2 * k + 1] == Joined(cs[1..])[2 * (k - 1) + 1];
      }
    }
  }

  /** Below U+10000 the encoding is one unit per character. */
  lemma {:induction false} EncodeBmp(s: string)
    requires forall i :: 0 <= i < |s| ==> (s[i] as int) < 0x1_0000
    ensures |Encode(s)| == |s|
    ensures forall i :: 0 <= i < |s| ==> Encode(s)[i] == s[i] as int
    decreases |s|
  {
    if s != [] {
      EncodeBmp(s[1..]);
      forall i | 0 < i < |s|
        ensures Encode(s)[i] == s[i] as int
      {
        assert Encode(s)[i] == Encode(s[1..])[i - 1];
      }
    }
  }

  /** `GetClassNames`: `utf16_null!` of the joined selectors. */
  function GetClassNames(n: nat): (r: seq<u16>)
    requires n <= 50
    ensures |r| > 0 && r[|r| - 1] == 0
  {
    SelectorTable();
    Encode(Joined(AsciiLower()[..n])) + [0]
  }

  /**
   * The host reads `GetClassNames` as `n` one-character names separated by
   * '|': unit `2k` is selector `k`, the units between are '|'.
   */
  lemma ClassNamesLayout(n: nat)
    requires 0 < n <= 50
    ensures |GetClassNames(n)| == 2 * n
    ensures forall k :: 0 <= k < n ==> GetClassNames(n)[2 * k] == SelectorCode(k)
    ensures forall k :: 0 <= k < n - 1 ==> GetClassNames(n)[2 * k + 1] == '|' as int
  {
    SelectorTable();
    var cs := AsciiLower()[..n];
    JoinedShape(cs);
    var j := Joined(cs);
    forall i | 0 <= i < |j|
      ensures (j[i] as int) < 0x1_0000
    {
      if i % 2 == 0 { assert j[2 * (i / 2)] == cs[i / 2]; } else { assert j[2 * (i / 2) + 1] == '|'; }
    }
    EncodeBmp(j);
  }

  /**
   * The arm `GetClassObject` takes for `name`: the first selector equal to
   * the low byte (`*name as u8`) of the name's first unit.
   */
  function Select(n: nat, name: seq<u16>): (r: Option<nat>)
    requires n <= 50 && |name| > 0
    ensures r.Some? ==> r.value < n && SelectorCode(r.value) == name[0] % 256
    ensures r.None? <==> forall i :: 0 <= i < n ==> SelectorCode(i) != name[0] % 256
  {
    SelectFrom(n, name[0] % 256, 0)
  }

  function SelectFrom(n: nat, b: u8, from: nat): (r: Option<nat>)
    requires n <= 50 && from <= n
    ensures r.Some? ==> from <= r.value < n && SelectorCode(r.value) == b
    ensures r.None? <==> forall i :: from <= i < n ==> SelectorCode(i) != b
    decreases n - from
  {
    if from == n then None
    else if SelectorCode(from) == b then Some(from)
    else SelectFrom(n, b, from + 1)
  }

  /** Selection is unambiguous: the name of component `k` selects `k`, whatever follows it and whatever the high byte. */
  lemma SelectsByLowByte(n: nat, k: nat, name: seq<u16>)
    requires k < n <= 50 && |name| > 0 && name[0] % 256 == SelectorCode(k)
    ensures Select(n, name) == Some(k)
  {
    SelectorTable();
  }

  /** A name taken from `GetClassNames` selects the component it names. */
  lemma ClassNameSelects(n: nat, k: nat)
    requires k < n <= 50
    ensures 2 * k < |GetClassNames(n)| && Select(n, GetClassNames(n)[2 * k..]) == Some(k)
  {
    ClassNamesLayout(n);
    SelectsByLowByte(n, k, GetClassNames(n)[2 * k..]);
  }

  /** The component expression `#init_tkn` evaluates to: its impl and initial state. */
  datatype Factory<!S> = Factory(impl: AddIn<S>, initial: S)

  /**
   * `GetClassObject`: a known selector boxes the matching component through
   * `create_component` and returns 1; an unknown one returns 0 and touches nothing.
   */
  method GetClassObject<S>(proc: Process, name: seq<u16>, cell: Ptr, comps: seq<Factory<S>>,
                           base: Ptr, platform: Platform, views: seq<Ptr>, destroyFn: Ptr)
      returns (r: int, c: Option<Component<S>>)
    requires |comps| <= 50 && |name| > 0 && |views| == 4 && base != NULL && base !in proc.live
    modifies proc
    ensures Select(|comps|, name).None? ==>
      r == 0 && c.None? && proc.cells == old(proc.cells) && proc.live == old(proc.live)
    ensures Select(|comps|, name).Some? ==>
      var k := Select(|comps|, name).value;
      r == 1 && c.Some? && fresh(c.value) &&
      c.value.impl == comps[k].impl && c.value.addin == comps[k].initial && c.value.base == base &&
      c.value.connection.None? && c.value.memoryManager.None? &&
      proc.cells == old(proc.cells)[cell := base] && proc.live == old(proc.live) + {base}
    ensures proc.called == old(proc.called)
  {
    match Select(|comps|, name)
    case None =>
      r, c := 0, None;
    case Some(k) =>
      var comp;
      r, comp := CreateComponent(proc, cell, base, platform, views, destroyFn, comps[k].impl, comps[k].initial);
      c := Some(comp);
  }

  /**
   * `DestroyObject`: hands the cell to `destroy_component` as written, so
   * the call goes through word 4, the memory-manager reference, and the
   * component is reclaimed only if that word happens to be its destructor.
   */
  method DestroyObject<S>(proc: Process, cell: Ptr, c: Component<S>) returns (r: int)
    requires cell in proc.cells && proc.cells[cell] == c.base && |c.views| == 4
    modifies proc
    ensures r == 0 && proc.cells == old(proc.cells)[cell := NULL]
    ensures proc.called == old(proc.called) + [if c.memoryManager.Some? then c.memoryManager.value.addr else NULL]
    ensures proc.live == (if c.Word(WRAPPER_DESTROY_WORD) == c.destroyFn then old(proc.live) - {c.base} else old(proc.live))
  {
    r := DestroyComponent(proc, cell, c);
  }

  /** `DestroyObject` over the corrected `destroy_component`: the destructor runs once and `*component` is nulled. */
  method DestroyObjectFixed<S>(proc: Process, cell: Ptr, c: Component<S>) returns (r: int)
    requires cell in proc.cells && proc.cells[cell] == c.base && |c.views| == 4
    modifies proc
    ensures r == 0 && proc.cells == old(proc.cells)[cell := NULL]
    ensures proc.called == old(proc.called) + [c.destroyFn]
    ensures proc.live == old(proc.live) - {c.base}
  {
    r := DestroyComponentFixed(proc, cell, c);
  }
}
