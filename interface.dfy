/**
 * `AddInWrapper` (`interface.rs`): what the host-boundary shims need from an
 * add-in. An add-in is a record of functions over its own state `S`; a
 * `&mut self` method returns the new state. Every fallible entry reports
 * failure the same way, as `None` or `false`, and an entry that fills a
 * `ReturnValue` in the source returns the value to store instead.
 */
module Interface {
  import opened Prim
  import opened Wrappers
  import opened ProvidedTypes

  /** Address of the host's `Connection` object; only ever stored and passed on. */
  type ConnectionRef = nat

  /** `call_as_proc`'s answer: success, the add-in's new state, the parameters as it left them. */
  datatype ProcOutcome<S> = ProcOutcome(ok: bool, state: S, params: seq<ParamValue>)

  /** `call_as_func`'s answer: the value to return (None for failure), new state, parameters. */
  datatype FuncOutcome<S> = FuncOutcome(ret: Option<ParamValue>, state: S, params: seq<ParamValue>)

  datatype AddIn<!S> = AddIn(
    init: (S, ConnectionRef) -> (bool, S),
    getInfo: S -> u16,
    done: S -> S,
    registerExtensionAs: S -> (seq<u16>, S),
    getNProps: S -> nat,
    findProp: (S, seq<u16>) -> Option<nat>,
    getPropName: (S, nat, nat) -> Option<seq<u16>>,
    getPropVal: (S, nat) -> Option<ParamValue>,
    setPropVal: (S, nat, ParamValue) -> (bool, S),
    isPropReadable: (S, nat) -> bool,
    isPropWritable: (S, nat) -> bool,
    getNMethods: S -> nat,
    findMethod: (S, seq<u16>) -> Option<nat>,
    getMethodName: (S, nat, nat) -> Option<seq<u16>>,
    getNParams: (S, nat) -> nat,
    getParamDefValue: (S, nat, nat) -> Option<ParamValue>,
    hasRetVal: (S, nat) -> bool,
    callAsProc: (S, nat, seq<ParamValue>) -> ProcOutcome<S>,
    callAsFunc: (S, nat, seq<ParamValue>) -> FuncOutcome<S>,
    setLocale: (S, seq<u16>) -> S,
    setUserInterfaceLanguageCode: (S, seq<u16>) -> S)

  /** The trait's default `get_info`: Native API version 2.0. */
  const DEFAULT_INFO: u16 := 2000
}
