/**
 * The component object the host sees (`ffi/mod.rs`): four interface views
 * at its head, storage for the host's interfaces, the destructor and the
 * add-in. Each view's functions get the object back by subtracting the
 * view's word offset from their `this` pointer.
 */
module Ffi {
  import opened Prim
  import opened Wrappers
  import opened HostMemory
  import opened Interface

  /** `size_of::<usize>()` on the 64-bit targets the crate is built for. */
  const WORD: nat := 8

  // `mod offset`: the word index of each view inside the object.
  const INIT_DONE: nat := 0
  const LANG_EXTENDER: nat := 1
  const LOCALE: nat := 2
  const USER_LANG: nat := 3

  /** `AttachType`, `#[repr(C)]`. */
  datatype AttachType = NotIsolated | Isolated | Any

  function AttachTypeCode(a: AttachType): (code: int)
    ensures 1 <= code <= 3
  {
    match a
    case NotIsolated => 1
    case Isolated => 2
    case Any => 3
  }

  lemma AttachTypeCodeInjective(a: AttachType, b: AttachType)
    requires AttachTypeCode(a) == AttachTypeCode(b)
    ensures a == b
  {
  }

  /** `This<OFFSET>::get_component`: the address `offset` words below the view. */
  function GetComponent(view: nat, offset: nat): int {
    view - offset * WORD
  }

  /** The fields of `Component<T>` in declaration order (`#[repr(C)]` keeps it). */
  datatype Field =
    | InitDonePtr | LangExtenderPtr | LocalePtr | UsrLangPtr
    | MemoryManagerPtr | ConnectionPtr | LocaleString | UserInterfaceLanguageCode
    | DestroyFn | AddInData

  const FIELDS: seq<Field> := [InitDonePtr, LangExtenderPtr, LocalePtr, UsrLangPtr,
                               MemoryManagerPtr, ConnectionPtr, LocaleString, UserInterfaceLanguageCode,
                               DestroyFn, AddInData]

  /**
   * Words a field occupies: a `Box` or an `Option<&T>` is one pointer (the
   * option's None is the null pointer), an `Option<String>` three words, a
   * function pointer one.
   */
  function FieldWords(f: Field): nat {
    match f
    case LocaleString => 3
    case UserInterfaceLanguageCode => 3
    case _ => 1
  }

  /** Position of a field in the declaration. */
  function Rank(f: Field): (i: nat)
    ensures i < |FIELDS| && FIELDS[i] == f
  {
    match f
    case InitDonePtr => 0
    case LangExtenderPtr => 1
    case LocalePtr => 2
    case UsrLangPtr => 3
    case MemoryManagerPtr => 4
    case ConnectionPtr => 5
    case LocaleString => 6
    case UserInterfaceLanguageCode => 7
    case DestroyFn => 8
    case AddInData => 9
  }

  /** Words taken by the first `k` fields. */
  function WordsBefore(k: nat): nat
    requires k <= |FIELDS|
  {
    if k == 0 then 0 else WordsBefore(k - 1) + FieldWords(FIELDS[k - 1])
  }

  /** Word index of a field: the words of every field declared before it. */
  function WordOffset(f: Field): nat {
    WordsBefore(Rank(f))
  }

  /** The four views come first, in the order of the `offset` constants. */
  lemma ViewOffsets()
    ensures WordOffset(InitDonePtr) == INIT_DONE && WordOffset(LangExtenderPtr) == LANG_EXTENDER
    ensures WordOffset(LocalePtr) == LOCALE && WordOffset(UsrLangPtr) == USER_LANG
  {
    assert WordsBefore(1) == 1;
    assert WordsBefore(2) == 2;
    assert WordsBefore(3) == 3;
  }

  /** The `offset` constant a view's `This` alias is instantiated with, in its own source file. */
  function ViewConst(f: Field): nat
    requires f in {InitDonePtr, LangExtenderPtr, LocalePtr, UsrLangPtr}
  {
    match f
    case InitDonePtr => INIT_DONE
    case LangExtenderPtr => LANG_EXTENDER
    case LocalePtr => LOCALE
    case UsrLangPtr => USER_LANG
  }

  /**
   * The host calls a view through the address of its field in the object;
   * `get_component` with that view's `offset` constant gets back the
   * object's own address, because the constants match the field layout.
   */
  lemma GetComponentRecoversBase(base: nat, f: Field)
    requires f in {InitDonePtr, LangExtenderPtr, LocalePtr, UsrLangPtr}
    ensures GetComponent(base + WordOffset(f) * WORD, ViewConst(f)) == base
  {
    ViewOffsets();
  }

  /** Where the storage fields and the destructor sit. */
  lemma StorageOffsets()
    ensures WordOffset(MemoryManagerPtr) == 4 && WordOffset(ConnectionPtr) == 5
    ensures WordOffset(DestroyFn) == 12
  {
    ViewOffsets();
    assert WordsBefore(4) == 4;
    assert WordsBefore(5) == 5;
    assert WordsBefore(6) == 6;
    assert WordsBefore(7) == 9;
    assert WordsBefore(8) == 12;
  }

  /** `ComponentWrapper` in `destroy_component`: four view words, then the destructor. */
  const WRAPPER_DESTROY_WORD: nat := 4

  /** The word `destroy_component` calls through is the memory-manager slot, not the destructor. */
  lemma DestroyWordMismatch()
    ensures WordOffset(MemoryManagerPtr) == WRAPPER_DESTROY_WORD
    ensures WordOffset(DestroyFn) != WRAPPER_DESTROY_WORD
  {
    StorageOffsets();
  }

  /**
   * `Component<T>`: `base` is the address of its box, `views` the four
   * vtable pointers, `destroyFn` the address of `destroy::<T>`.
   */
  class Component<S> {
    const base: Ptr
    const platform: Platform
    const views: seq<Ptr>
    const destroyFn: Ptr
    const impl: AddIn<S>
    var memoryManager: Option<MemoryManager>
    var connection: Option<ConnectionRef>
    var locale: Option<string>
    var userInterfaceLanguageCode: Option<string>
    var addin: S

    constructor (base: Ptr, platform: Platform, views: seq<Ptr>, destroyFn: Ptr, impl: AddIn<S>, addin: S)
      requires |views| == 4
      ensures this.base == base && this.platform == platform && this.views == views
      ensures this.destroyFn == destroyFn && this.impl == impl && this.addin == addin
      ensures memoryManager.None? && connection.None? && locale.None? && userInterfaceLanguageCode.None?
    {
      this.base := base;
      this.platform := platform;
      this.views := views;
      this.destroyFn := destroyFn;
      this.impl := impl;
      this.addin := addin;
      memoryManager := None;
      connection := None;
      locale := None;
      userInterfaceLanguageCode := None;
    }

    /** Pointer-sized words of the object whose contents are known: views, the two references, the destructor. */
    function Word(k: nat): Ptr
      requires |views| == 4 && (k < 6 || k == WordOffset(DestroyFn))
      reads this
    {
      if k < 4 then views[k]
      else if k == WordOffset(MemoryManagerPtr) then (if memoryManager.Some? then memoryManager.value.addr else NULL)
      else if k == WordOffset(ConnectionPtr) then (if connection.Some? then connection.value else NULL)
      else destroyFn
    }
  }

  /**
   * The few words of host memory these entry points touch: the out-cells
   * the host passes (`*mut *mut c_void`), the boxes that are live, and the
   * code addresses called through stored function pointers.
   */
  class Process {
    var cells: map<Ptr, Ptr>
    var live: set<Ptr>
    var called: seq<Ptr>

    constructor ()
      ensures cells == map[] && live == {} && called == []
    {
      cells := map[];
      live := {};
      called := [];
    }
  }

  /**
   * `create_component`: box a component whose storage is all None, write
   * its address into `*component` and return 1. `base` is where the box
   * lands: an address the allocator hands out, so non-null and not live.
   */
  method CreateComponent<S>(proc: Process, cell: Ptr, base: Ptr, platform: Platform, views: seq<Ptr>,
                            destroyFn: Ptr, impl: AddIn<S>, addin: S)
      returns (r: int, c: Component<S>)
    requires |views| == 4 && base != NULL && base !in proc.live
    modifies proc
    ensures r == 1 && fresh(c)
    ensures c.base == base && c.destroyFn == destroyFn && c.impl == impl && c.addin == addin && c.views == views
    ensures c.platform == platform
    ensures c.memoryManager.None? && c.connection.None? && c.locale.None? && c.userInterfaceLanguageCode.None?
    ensures proc.cells == old(proc.cells)[cell := base] && proc.live == old(proc.live) + {base}
    ensures proc.called == old(proc.called)
  {
    c := new Component(base, platform, views, destroyFn, impl, addin);
    proc.live := proc.live + {base};
    proc.cells := proc.cells[cell := base];
    r := 1;
  }

  /** `destroy::<T>`: `Box::from_raw` and drop, which reclaims the box; a box can be reclaimed only once. */
  method Destroy<S>(proc: Process, c: Component<S>)
    requires c.base in proc.live
    modifies proc
    ensures proc.live == old(proc.live) - {c.base}
    ensures proc.cells == old(proc.cells) && proc.called == old(proc.called)
  {
    proc.live := proc.live - {c.base};
  }

  /** Calling through a stored function pointer: only `destroy::<T>`'s address has a known effect. */
  method CallDestroyPointer<S>(proc: Process, c: Component<S>, target: Ptr)
    modifies proc
    ensures proc.called == old(proc.called) + [target] && proc.cells == old(proc.cells)
    ensures proc.live == (if target == c.destroyFn then old(proc.live) - {c.base} else old(proc.live))
  {
    proc.called := proc.called + [target];
    if target == c.destroyFn && c.base in proc.live {
      Destroy(proc, c);
    }
  }

  /**
   * `destroy_component` as written: it calls whatever sits in word 4 of the
   * object, which is the memory-manager reference (null before
   * `set_mem_manager`), then nulls `*component` and returns 0.
   */
  method DestroyComponent<S>(proc: Process, cell: Ptr, c: Component<S>) returns (r: int)
    requires cell in proc.cells && proc.cells[cell] == c.base && |c.views| == 4
    modifies proc
    ensures r == 0 && proc.cells == old(proc.cells)[cell := NULL]
    ensures proc.called == old(proc.called) + [if c.memoryManager.Some? then c.memoryManager.value.addr else NULL]
    ensures proc.live == (if c.Word(WRAPPER_DESTROY_WORD) == c.destroyFn then old(proc.live) - {c.base} else old(proc.live))
  {
    StorageOffsets();
    var target := c.Word(WRAPPER_DESTROY_WORD);
    CallDestroyPointer(proc, c, target);
    proc.cells := proc.cells[cell := NULL];
    r := 0;
  }

  /**
   * `destroy_component` as intended: the destructor word of `Component<T>`,
   * so the box is reclaimed exactly when it is live, once.
   */
  method DestroyComponentFixed<S>(proc: Process, cell: Ptr, c: Component<S>) returns (r: int)
    requires cell in proc.cells && proc.cells[cell] == c.base && |c.views| == 4
    modifies proc
    ensures r == 0 && proc.cells == old(proc.cells)[cell := NULL]
    ensures proc.called == old(proc.called) + [c.destroyFn]
    ensures proc.live == old(proc.live) - {c.base}
  {
    StorageOffsets();
    var target := c.Word(WordOffset(DestroyFn));
    CallDestroyPointer(proc, c, target);
    proc.cells := proc.cells[cell := NULL];
    r := 0;
  }
}
