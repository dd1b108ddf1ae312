# native_api_1c in Dafny

A model of the core of `native_api_1c`, a Rust library for writing 1C:Enterprise
external components ("add-ins") against the Native API. The model covers:

- the host boundary in `native_api_1c_core::ffi`: the C v-tables the 1C platform calls
  (`init_done`, `lang_extender`), the component layout and its destructor (`ffi/mod.rs`),
  the host's memory manager, the `TVariant` value slots and `ReturnValue`, and the UTF-16
  helpers in `string_utils.rs`;
- the `#[derive(AddIn)]` macro (`native_api_1c_macro::derive_addin`), as a function from the
  parts of a struct definition it reads to either a `compile_error!` or an add-in
  implementation. That covers the attribute parsers, the property and function descriptors,
  the code `func_call_tkn` generates for each method, and the `AddInWrapper` methods the
  collectors emit;
- the `extern_functions!` macro: the component registry, `GetClassNames`, `GetClassObject`,
  `DestroyObject` and `GetAttachType`.

The `AddInWrapper` trait is modelled as the datatype `Interface.AddIn<S>`: a record of
functions over the add-in's state `S`. A `&mut self` method returns its new state. Every
host-boundary shim is proved for every such record, and it is also proved what the record
produced by the derive answers.

Mutable host objects are classes whose methods carry `modifies` clauses:
- `HostMemory.MemoryManager`: a heap `map<Ptr, seq<u8>>`, plus the host allocator's answers
  as a function parameter;
- `ProvidedTypes.TVariant` and `ProvidedTypes.ReturnValue`;
- `Ffi.Component` and `Ffi.Process` (the `*mut *mut c_void` cells and the live components).

The generated parameter loops are methods over an `array<ParamValue>` or a `seq<TVariant>`,
each proved against a specification function.

Files and modules:

| file | module | models |
|---|---|---|
| wrappers.dfy | Wrappers | Option / Result |
| prim.dfy | Prim | fixed-width integers, the target family, Rust `as` casts |
| string_utils.dfy | Utf16, StringUtils | UTF-16 encode / lossy decode, `ffi/string_utils.rs` |
| memory_manager.dfy | HostMemory | `ffi/memory_manager.rs` |
| provided_types.dfy | ProvidedTypes | `ffi/provided_types.rs` |
| interface.dfy | Interface | `interface.rs` (`AddInWrapper`) |
| ffi.dfy | Ffi | `ffi/mod.rs` |
| init_done.dfy | InitDone | `ffi/init_done.rs` |
| lang_extender.dfy | LangExtender | `ffi/lang_extender.rs` |
| descriptors.dfy | Descriptors | `derive_addin/parsers.rs`, `props/mod.rs`, `functions/mod.rs` |
| syntax.dfy | Syntax | the field scan of `props/parse.rs` and `functions/parse.rs` |
| props_parse.dfy | PropsParse | `derive_addin/props/parse.rs` |
| functions_parse.dfy | FunctionsParse | `derive_addin/functions/parse.rs` |
| generated_call.dfy | GeneratedCall | `derive_addin/functions/generate.rs` |
| functions_collectors.dfy | FunctionsCollectors | `derive_addin/functions/collectors/*`, `function_processing/collectors/find_method.rs` |
| props_collectors.dfy | PropsCollectors | `derive_addin/props/collectors/*`, `props_processing/collectors/{get_prop_name,is_prop_readable,is_prop_writable}.rs` |
| derive_addin.dfy | DeriveAddIn | `derive_addin/mod.rs` |
| extern_functions.dfy | ExternFunctions | `extern_functions/mod.rs`, `extern_functions/parse.rs` |

## Model

| member | source | states |
|---|---|---|
| Prim.LongRange | native_api_1c_core/src/ffi/lang_extender.rs:99 | `c_long`/`c_ulong` are 32 bits wide on Windows and 64 bits on Unix |
| Prim.AsU32 | native_api_1c_core/src/ffi/provided_types.rs:390 | `len as u32` keeps every length below 2^32 unchanged and otherwise wraps |
| Prim.AsUsize | native_api_1c_core/src/ffi/lang_extender.rs:123 | `num as usize` keeps non-negative values and maps a negative `c_long` `x` to `x + 2^64` |
| Prim.AsCULong | native_api_1c_core/src/ffi/memory_manager.rs:43 | `as c_ulong` lands in the platform's unsigned range and is the identity inside it |
| Prim.AsCLong | native_api_1c_core/src/ffi/lang_extender.rs:109 | `as c_long` lands in the platform's signed range and is the identity inside it |
| Utf16.EncodeChar | native_api_1c_core/src/ffi/string_utils.rs:52-53 | a character becomes one unit exactly when it is in the BMP (that unit is not a surrogate), otherwise a high/low surrogate pair; only NUL encodes to [0] |
| Utf16.EncodeAppend | native_api_1c_core/src/ffi/string_utils.rs:52-53 | `encode_utf16` distributes over concatenation |
| Utf16.DecodeEncode | native_api_1c_core/src/ffi/string_utils.rs:72-73 | `from_utf16_lossy` of `encode_utf16(s)` gives back `s` |
| Utf16.EncodeInjective | native_api_1c_core/src/ffi/string_utils.rs:52-53 | distinct strings have distinct UTF-16 encodings |
| Utf16.EncodeHasNoZeroUnlessNul | native_api_1c_core/src/ffi/string_utils.rs:52-53 | a NUL-free string encodes to units that are all non-zero |
| StringUtils.FirstZero | native_api_1c_core/src/ffi/string_utils.rs:11-17 | the index `strlen` stops at: a zero unit, with no zero before it |
| StringUtils.GetStr | native_api_1c_core/src/ffi/string_utils.rs:10-21 | the slice read is the prefix of the host memory up to and including the first zero, which is its only zero |
| StringUtils.OsString | native_api_1c_core/src/ffi/string_utils.rs:51-65 | on both target families `os_string` is the UTF-16 encoding without a terminator |
| StringUtils.OsStringNil | native_api_1c_core/src/ffi/string_utils.rs:28-44 | as written: on Windows the encoding plus a 0 terminator, on Unix the bare encoding with no terminator |
| StringUtils.OsStringNilFixed | native_api_1c_core/src/ffi/string_utils.rs:38-44 | the documented contract: the encoding followed by exactly one terminating 0 |
| StringUtils.TrimEndNul | native_api_1c_core/src/ffi/string_utils.rs:74 | `trim_end_matches` removes exactly the trailing run of NULs and keeps the rest as a prefix |
| StringUtils.FromOsStringStripsTrailingNuls | native_api_1c_core/src/ffi/string_utils.rs:72-76 | `from_os_string` is the lossy decoding with its trailing NULs removed, ending in a non-NUL |
| StringUtils.FromOsStringOfOsString | native_api_1c_core/src/ffi/string_utils.rs:51-76 | `from_os_string(os_string(s)) == s` for every `s` not ending in NUL |
| StringUtils.FromOsStringOfOsStringNil | native_api_1c_core/src/ffi/string_utils.rs:28-76 | `from_os_string(os_string_nil(s)) == s` on both families for every `s` not ending in NUL |
| HostMemory.Zeros | native_api_1c_core/src/ffi/memory_manager.rs:37-52 | a fresh block of `n` bytes, all zero |
| HostMemory.UnitsToBytes | native_api_1c_core/src/ffi/provided_types.rs:390-391 | a u16 buffer occupies two bytes per unit |
| HostMemory.BytesToUnits | native_api_1c_core/src/ffi/provided_types.rs:278-283 | reading an even-sized block gives one unit per two bytes |
| HostMemory.BytesToUnitsOfUnitsToBytes | native_api_1c_core/src/ffi/provided_types.rs:278-283 | units written to host memory read back unchanged |
| HostMemory.RequestBytes | native_api_1c_core/src/ffi/memory_manager.rs:43 | as written, in a release build: the byte count `size as c_ulong * 2` is reduced modulo the width of `c_ulong`, and is exactly twice `size` only when that fits |
| HostMemory.RequestBytesWrapsOnWindows | native_api_1c_core/src/ffi/memory_manager.rs:66 | on Windows a request for 2^31 units asks the host for 0 bytes |
| HostMemory.CheckedRequestBytes | native_api_1c_core/src/ffi/memory_manager.rs:37-75 | corrected: a byte count exists exactly when `2 * size` fits in `c_ulong`, and it then agrees with the as-written count |
| HostMemory.MemoryManager.constructor | native_api_1c_core/src/ffi/memory_manager.rs:22-26 | the host's manager over the given heap, with nothing requested or freed yet |
| HostMemory.MemoryManager.Alloc | native_api_1c_core/src/ffi/memory_manager.rs:37-75 | Ok exactly when the host returns a non-null block, which is then zero-filled and `2*size` bytes long; on Err the heap is unchanged; the request is logged |
| HostMemory.MemoryManager.AllocBlob | native_api_1c_core/src/ffi/memory_manager.rs:37-52 | `alloc_blob`: as `Alloc`, for `size` bytes of payload |
| HostMemory.MemoryManager.AllocStr | native_api_1c_core/src/ffi/memory_manager.rs:60-75 | `alloc_str`: as `Alloc`, for `size` UTF-16 units |
| HostMemory.MemoryManager.Copy | native_api_1c_core/src/ffi/provided_types.rs:391 | `copy_nonoverlapping` overwrites the block's prefix with the data and keeps the rest |
| HostMemory.MemoryManager.Free | native_api_1c_core/src/ffi/memory_manager.rs:77-81 | `free_memory` removes the block and records the address handed to the host |
| ProvidedTypes.ParamEqVersusEquality | native_api_1c_core/src/ffi/provided_types.rs:254-267 | `ParamValue`'s `PartialEq` relates only same-variant values; it is reflexive except on NaN; it is plain equality except on floats and on Windows dates (whose `Tm` equality skips fields) |
| ProvidedTypes.ReadFieldsLength | native_api_1c_core/src/ffi/provided_types.rs:269-296 | reading a slot gives a string or blob of exactly `len` elements, and `Empty` for an unknown type tag |
| ProvidedTypes.UpdatedReadsBack | native_api_1c_core/src/ffi/provided_types.rs:382-440 | after `update_to_*` with a value (and its stored block), reading the slot gives that value back; `Empty` leaves the reading unchanged |
| ProvidedTypes.StrUpdateTruncatesLength | native_api_1c_core/src/ffi/provided_types.rs:392 | a string of 2^32 or more units is stored with a wrapped, shorter length |
| ProvidedTypes.TVariant.constructor | native_api_1c_core/src/ffi/provided_types.rs:372-376 | a slot holding the given fields |
| ProvidedTypes.TVariant.UpdateToStr | native_api_1c_core/src/ffi/provided_types.rs:382-400 | on allocation failure nothing changes; otherwise the slot points at a new block holding the units, the old block is freed, and the u32 length is returned |
| ProvidedTypes.TVariant.UpdateToBlob | native_api_1c_core/src/ffi/provided_types.rs:402-420 | as `UpdateToStr`, for bytes |
| ProvidedTypes.TVariant.UpdateToBool | native_api_1c_core/src/ffi/provided_types.rs:422-425 | the slot now holds the boolean with tag `VariantType::Bool` |
| ProvidedTypes.TVariant.UpdateToI32 | native_api_1c_core/src/ffi/provided_types.rs:427-430 | the slot now holds the integer with tag `VariantType::Int32` |
| ProvidedTypes.TVariant.UpdateToF64 | native_api_1c_core/src/ffi/provided_types.rs:432-435 | the slot now holds the double with tag `VariantType::Double` |
| ProvidedTypes.TVariant.UpdateToDate | native_api_1c_core/src/ffi/provided_types.rs:437-440 | the slot now holds the `Tm` with tag `VariantType::Time` |
| ProvidedTypes.ReturnValue.constructor | native_api_1c_core/src/ffi/provided_types.rs:165-169 | a return value over a manager and a slot, with `result` starting true |
| ProvidedTypes.ReturnValue.SetEmpty | native_api_1c_core/src/ffi/provided_types.rs:174-176 | only the type tag changes, to `VariantType::Empty` |
| ProvidedTypes.ReturnValue.SetI32 | native_api_1c_core/src/ffi/provided_types.rs:179-182 | the slot holds the integer |
| ProvidedTypes.ReturnValue.SetBool | native_api_1c_core/src/ffi/provided_types.rs:185-188 | the slot holds the boolean |
| ProvidedTypes.ReturnValue.SetF64 | native_api_1c_core/src/ffi/provided_types.rs:191-194 | the slot holds the double |
| ProvidedTypes.ReturnValue.SetDate | native_api_1c_core/src/ffi/provided_types.rs:197-200 | the slot holds the date |
| ProvidedTypes.ReturnValue.SetStr | native_api_1c_core/src/ffi/provided_types.rs:203-216 | allocation failure clears `result` and leaves slot and heap alone; success stores the units in a new block and points the slot at it; the previous block is not freed |
| ProvidedTypes.ReturnValue.SetBlob | native_api_1c_core/src/ffi/provided_types.rs:219-232 | as `SetStr`, for bytes |
| Descriptors.ParamTypeFromString | native_api_1c_macro/src/derive_addin/parsers.rs:43-57 | exactly the six names `Bool`, `Int`, `Float`, `Str`, `Date`, `Blob` are accepted, each naming its type; anything else is reported as unknown |
| Descriptors.TypeExprString | native_api_1c_macro/src/derive_addin/parsers.rs:19-41 | a type is given by a string literal or a path (its first segment), nothing else |
| Descriptors.ParseParamType | native_api_1c_macro/src/derive_addin/parsers.rs:19-41 | other expressions are rejected; literals and paths go through the name table |
| Descriptors.TypeNameRoundTrip | native_api_1c_macro/src/derive_addin/parsers.rs:19-57 | every type's name parses back to that type, both as a literal and as a path |
| Descriptors.ToSettable | native_api_1c_macro/src/derive_addin/props/mod.rs:79-92 | every property type has a settable counterpart |
| Descriptors.ToSettableInjective | native_api_1c_macro/src/derive_addin/props/mod.rs:79-92 | distinct types map to distinct settable types |
| Descriptors.ParsePropName | native_api_1c_macro/src/derive_addin/parsers.rs:90-101 | a property name is a string literal or a path to a constant; other literals and other expressions give their own errors |
| Descriptors.FuncParamTypeFromString | native_api_1c_macro/src/derive_addin/functions/mod.rs:96-110 | an argument type name is accepted exactly when the parameter-type table accepts it, giving that platform type |
| Descriptors.ParseFuncParamType | native_api_1c_macro/src/derive_addin/functions/mod.rs:72-94 | argument types parse like parameter types, with the same errors |
| Descriptors.Params1c | native_api_1c_macro/src/derive_addin/functions/mod.rs:28-33 | the parameters the platform sees are platform entries of the declared list, and a list without `self` comes back unchanged; order is stated by `Params1cSingle` and `Params1cAppend` |
| Descriptors.Params1cSingle | native_api_1c_macro/src/derive_addin/functions/mod.rs:28-33 | one parameter is kept exactly when it is not `self` |
| Descriptors.Params1cAppend | native_api_1c_macro/src/derive_addin/functions/mod.rs:28-33 | the platform list of a concatenation is the platform list of each part in turn, so `self` is removed with the order and multiplicity of the rest kept |
| Descriptors.Params1cCount | native_api_1c_macro/src/derive_addin/functions/mod.rs:28-33 | `get_1c_params` is shorter by exactly the number of `self` parameters |
| Descriptors.HasSelfParamIffShorter | native_api_1c_macro/src/derive_addin/functions/mod.rs:35-39 | `has_self_param` holds exactly when the platform list is shorter than the declared one |
| Syntax.ScanSelects | native_api_1c_macro/src/derive_addin/props/parse.rs:55-72 | the field scan succeeds exactly when every tagged field parses, keeping their order; on error it reports the first failing tagged field's error |
| Syntax.ScanIsParseAll | native_api_1c_macro/src/derive_addin/functions/parse.rs:251-269 | scanning the fields equals parsing the tagged fields in order |
| Syntax.ParseAllOk | native_api_1c_macro/src/derive_addin/functions/parse.rs:251-269 | parsing a list succeeds iff every element does, and gives one result per element |
| Syntax.ParseAllErr | native_api_1c_macro/src/derive_addin/functions/parse.rs:251-269 | a failed parse carries the error of the first failing element |
| Syntax.ScanFields | native_api_1c_macro/src/derive_addin/props/parse.rs:55-72 | the `for field in fields` loop computes the scan |
| Syntax.FuncHeadsExactly | native_api_1c_macro/src/derive_addin/functions/parse.rs:14-17 | the `add_in_func` filter keeps exactly the `add_in_func` attributes, in their order |
| Syntax.ArgAttrsExactly | native_api_1c_macro/src/derive_addin/functions/parse.rs:32-35 | the `arg` filter keeps exactly the `arg` attributes, in their order |
| Syntax.ReturnsAttrsExactly | native_api_1c_macro/src/derive_addin/functions/parse.rs:38-41 | the `returns` filter keeps exactly the `returns` attributes, in their order |
| Syntax.PropAttrsExactly | native_api_1c_macro/src/derive_addin/props/parse.rs:13-16 | the `add_in_prop` filter keeps exactly the `add_in_prop` attributes, in their order |
| PropsParse.PropFromMeta | native_api_1c_macro/src/derive_addin/props/parse.rs:31-53 | the attribute gives a descriptor exactly when `ty`, `name` and `name_ru` are present and parse, carrying those values and the `readable`/`writable` flags |
| PropsParse.PropDescFromField | native_api_1c_macro/src/derive_addin/props/parse.rs:9-44 | a field without an identifier, with no `add_in_prop` attribute or with two is rejected with that error; otherwise its attribute decides |
| PropsParse.ParseProps | native_api_1c_macro/src/derive_addin/props/parse.rs:55-72 | `parse_props` is the scan over fields tagged `add_in_prop` |
| PropsParse.ParsePropsSelects | native_api_1c_macro/src/derive_addin/props/parse.rs:55-72 | one property per tagged field, in order, with its identifier, flags and parsed type |
| FunctionsParse.StringKey | native_api_1c_macro/src/derive_addin/functions/parse.rs:125-129 | `name`/`name_ru` must be string literals, whose text is taken |
| FunctionsParse.HeadFromMeta | native_api_1c_macro/src/derive_addin/functions/parse.rs:51 | `add_in_func` gives both names exactly when both are string literals |
| FunctionsParse.ArgFromMeta | native_api_1c_macro/src/derive_addin/functions/parse.rs:131-139 | `arg` needs a parseable `ty`; its keys are carried over |
| FunctionsParse.ArgumentFromMeta | native_api_1c_macro/src/derive_addin/functions/parse.rs:141-183 | `as_in` together with `as_out` is rejected; a default is allowed only on types that support one and must be `name = value`; an accepted argument keeps its type, out flag and default |
| FunctionsParse.ReturnFromMeta | native_api_1c_macro/src/derive_addin/functions/parse.rs:190-207 | `returns` gives its parsed type (or none) and the `result` flag |
| FunctionsParse.ArgMetas | native_api_1c_macro/src/derive_addin/functions/parse.rs:52-55 | every `arg` attribute is parsed, in order, failing iff one fails |
| FunctionsParse.ArgumentsFromMetas | native_api_1c_macro/src/derive_addin/functions/parse.rs:60-64 | argument descriptors in order, failing iff one fails |
| FunctionsParse.SelfParam | native_api_1c_macro/src/derive_addin/functions/parse.rs:82-102 | a leading `&self`/`&mut self` input adds a `SelfType` parameter, mutable iff `&mut` |
| FunctionsParse.ReturnMetaBeforeArguments | native_api_1c_macro/src/derive_addin/functions/parse.rs:52-64 | a malformed `returns` is reported even when the argument list would parse |
| FunctionsParse.FromFieldAttributeCounts | native_api_1c_macro/src/derive_addin/functions/parse.rs:11-80 | missing identifier, missing or duplicated `add_in_func` are errors; success needs one head, at most one `returns` and a bare-fn type |
| FunctionsParse.FromFieldShape | native_api_1c_macro/src/derive_addin/functions/parse.rs:10-122 | a parsed function has the field's identifier and names, one platform parameter per `arg` in order with its type and out flag, and a `self` parameter iff the fn takes `&self` |
| FunctionsParse.PlatformOnly | native_api_1c_macro/src/derive_addin/functions/parse.rs:60-64 | arguments built from `arg` attributes are never `self` |
| FunctionsParse.Params1cAfterSelf | native_api_1c_macro/src/derive_addin/functions/parse.rs:60-102 | prefixing the `self` parameter leaves the platform list equal to the `arg` list |
| FunctionsParse.ParseFunctions | native_api_1c_macro/src/derive_addin/functions/parse.rs:251-269 | `parse_functions` is the scan over fields tagged `add_in_func` |
| FunctionsParse.ParseFunctionsSelects | native_api_1c_macro/src/derive_addin/functions/parse.rs:251-269 | one descriptor per tagged field, in order; fails iff one of them fails |
| GeneratedCall.ArgOf | native_api_1c_macro/src/derive_addin/functions/generate.rs:102-209 | a slot binds to an argument exactly when it holds the declared type, plus an `Int` slot for a `Float` argument (converted) |
| GeneratedCall.Types | native_api_1c_macro/src/derive_addin/functions/generate.rs:14-25 | the platform type of every parameter, in order |
| GeneratedCall.Bound | native_api_1c_macro/src/derive_addin/functions/generate.rs:53-58 | one argument per slot |
| GeneratedCall.ReturnOf | native_api_1c_macro/src/derive_addin/functions/generate.rs:75-97 | no value for `ReturnType::None`; any value produced has the declared return type |
| GeneratedCall.Call | native_api_1c_macro/src/derive_addin/functions/generate.rs:7-100 | the generated body keeps the number of slots; per slot it follows `SlotAfter`, where by-reference out-slots take the user's value, F64 and String out-slots are copied back from their `&mut` locals, and a Date out-slot gets back its own date |
| GeneratedCall.BindSlots | native_api_1c_macro/src/derive_addin/functions/generate.rs:53-58 | the `pre_call` loop over the parameter array succeeds exactly when every slot binds, and gives the bound arguments |
| GeneratedCall.CopyOut | native_api_1c_macro/src/derive_addin/functions/generate.rs:60-66 | the `post_call` loop writes each out-slot's pass value (the user's value, or for a Date the incoming date converted back) and leaves every other slot alone |
| GeneratedCall.CallFunction | native_api_1c_macro/src/derive_addin/functions/generate.rs:7-100 | running the generated body on the parameter array computes the call specification: success, new state, return value and slots |
| GeneratedCall.CallNeedsArity | native_api_1c_macro/src/derive_addin/functions/generate.rs:54-56 | the wrong number of slots fails with state and slots unchanged |
| GeneratedCall.CallNeedsTypes | native_api_1c_macro/src/derive_addin/functions/generate.rs:102-209 | a mistyped slot fails the call with nothing changed |
| GeneratedCall.InParamsUntouched | native_api_1c_macro/src/derive_addin/functions/generate.rs:44-47 | a non-out parameter's slot is never written |
| GeneratedCall.ResultErrSkipsCopyBack | native_api_1c_macro/src/derive_addin/functions/generate.rs:60-66 | when a `Result` function returns Err the call fails with no value; by-value slots are kept, by-reference out-slots are still updated |
| GeneratedCall.ParamOfHasType | native_api_1c_macro/src/derive_addin/functions/generate.rs:152-209 | converting an argument back gives a slot of the same type |
| GeneratedCall.CallKeepsSlotTypes | native_api_1c_macro/src/derive_addin/functions/generate.rs:44-66 | after a call every slot still binds to its declared type, and a changed `Float` slot holds a double |
| GeneratedCall.StringOutRoundTrip | native_api_1c_macro/src/derive_addin/functions/generate.rs:152-166 | a string left in an out-parameter comes back to the host as `os_string` of it, and decodes to the same string |
| GeneratedCall.DateOutIgnoresUser | native_api_1c_macro/src/derive_addin/functions/generate.rs:176-189 | the user receives a Date out-parameter by value (line 42), so after a call that is not aborted its slot holds `From<DateTime>` of `Into<DateTime>` of its incoming `Tm`, whatever the user's function did |
| GeneratedCall.CallSelfAndReturn | native_api_1c_macro/src/derive_addin/functions/generate.rs:7-100 | without `&mut self` the state is unchanged; without a return type no value is produced; a produced value has the declared type |
| FunctionsCollectors.GetNMethods | native_api_1c_macro/src/derive_addin/functions/collectors/get_n_methods.rs:20-34 | the number of methods is the number of `add_in_func` fields |
| FunctionsCollectors.MethodName | native_api_1c_macro/src/derive_addin/functions/collectors/get_method_name.rs:20-54 | a name exists exactly for a valid method index |
| FunctionsCollectors.RunNameChainAppend | native_api_1c_macro/src/derive_addin/functions/collectors/get_method_name.rs:28-40 | running a concatenated chain of `if` arms is the first chain, falling through to the second |
| FunctionsCollectors.DoubledBodyRuns | native_api_1c_macro/src/derive_addin/functions/collectors/get_method_name.rs:28-40 | the body, which emits the arms for the first `n` methods again at each step, still answers the name of method `num` for `num < n` |
| FunctionsCollectors.GetMethodNameIsLookup | native_api_1c_macro/src/derive_addin/functions/collectors/get_method_name.rs:20-54 | the generated `get_method_name` equals the plain lookup: English name for alias 0, Russian otherwise, none out of range |
| FunctionsCollectors.FindMethod | native_api_1c_macro/src/function_processing/collectors/find_method.rs:20-49 | the first method whose encoded English or Russian name equals the query; none exactly when no name matches |
| FunctionsCollectors.FindMethodOfName | native_api_1c_macro/src/function_processing/collectors/find_method.rs:20-49 | with distinct names, looking up the name reported for method `i` finds `i` |
| FunctionsCollectors.GetNParams | native_api_1c_macro/src/derive_addin/functions/collectors/get_n_params.rs:20-42 | a method's parameter count excludes `self`; 0 out of range |
| FunctionsCollectors.HasRetVal | native_api_1c_macro/src/derive_addin/functions/collectors/has_ret_val.rs:20-42 | true exactly for a valid method with a return type |
| FunctionsCollectors.GetParamDefValue | native_api_1c_macro/src/derive_addin/functions/collectors/get_param_def_value.rs:21-68 | the default of the platform parameter asked for, and none for an index out of range |
| FunctionsCollectors.DefaultChain | native_api_1c_macro/src/derive_addin/functions/collectors/get_param_def_value.rs:25-50 | the per-parameter arms answer exactly the asked parameter's default |
| FunctionsCollectors.CallAsProc | native_api_1c_macro/src/derive_addin/functions/collectors/call_as_proc.rs:20-48 | an unknown method fails with nothing changed; otherwise the method's generated body decides success, new state and slots |
| FunctionsCollectors.CallAsFunc | native_api_1c_macro/src/derive_addin/functions/collectors/call_as_func.rs:21-57 | a method without a return value is skipped; otherwise the generated body runs and its value is returned only on success |
| FunctionsCollectors.CallAsFuncNeedsRetVal | native_api_1c_macro/src/derive_addin/functions/collectors/call_as_func.rs:25-28 | a value is returned only by a method with a return type, and it has that type |
| FunctionsCollectors.MethodIndexingAgrees | native_api_1c_macro/src/derive_addin/functions/collectors/get_n_methods.rs:20-34 | the method collectors agree on the index range: beyond `get_n_methods` there is no name, no parameters, no return value, no default, and the calls fail |
| PropsCollectors.GetNProps | native_api_1c_macro/src/derive_addin/props/collectors/get_n_props.rs:20-36 | the number of properties is the number of `add_in_prop` fields |
| PropsCollectors.FindProp | native_api_1c_macro/src/derive_addin/props/collectors/find_prop.rs:20-49 | the first property whose encoded English or Russian name equals the query; none exactly when no name matches |
| PropsCollectors.FindFrom | native_api_1c_macro/src/derive_addin/props/collectors/find_prop.rs:24-42 | the search from index `from` on: first match after `from`, or no match there |
| PropsCollectors.GetPropName | native_api_1c_macro/src/props_processing/collectors/get_prop_name.rs:20-45 | a name exactly for a valid index: the English one for alias 0, the Russian one otherwise |
| PropsCollectors.FindPropOfName | native_api_1c_macro/src/derive_addin/props/collectors/find_prop.rs:20-49 | with distinct names, looking up a reported name finds its property |
| PropsCollectors.DistinctPropNamesUnderInjective | native_api_1c_macro/src/derive_addin/props/collectors/find_prop.rs:20-49 | distinct name texts stay distinct under an injective encoding |
| PropsCollectors.IsPropReadable | native_api_1c_macro/src/props_processing/collectors/is_prop_readable.rs:20-43 | true exactly for a valid, readable property |
| PropsCollectors.IsPropWritable | native_api_1c_macro/src/props_processing/collectors/is_prop_writable.rs:20-42 | true exactly for a valid, writable property |
| PropsCollectors.GetPropVal | native_api_1c_macro/src/derive_addin/props/collectors/get_prop_val.rs:20-52 | a value exactly for a readable property: the field's value as a host value, of the declared type |
| PropsCollectors.ValueOfParam | native_api_1c_macro/src/derive_addin/props/collectors/set_prop_val.rs:20-53 | a host value converts to a field value exactly when it has the property's type |
| PropsCollectors.SetPropVal | native_api_1c_macro/src/derive_addin/props/collectors/set_prop_val.rs:20-53 | succeeds exactly for a writable property and a value of its type, then changes only that field; otherwise changes nothing; field types are preserved |
| PropsCollectors.SetThenGet | native_api_1c_macro/src/derive_addin/props/collectors/set_prop_val.rs:20-53 | reading back a written property gives the value written (a string after one UTF-16 round trip) |
| PropsCollectors.GetThenSetString | native_api_1c_macro/src/derive_addin/props/collectors/get_prop_val.rs:20-52 | writing back a string property's own value succeeds and changes nothing |
| PropsCollectors.PropFields.constructor | native_api_1c_macro/src/derive_addin/props/collectors/set_prop_val.rs:20-53 | the struct's property fields, as given |
| PropsCollectors.PropFields.SetPropValue | native_api_1c_macro/src/derive_addin/props/collectors/set_prop_val.rs:20-53 | the in-place field assignment computes `SetPropVal` |
| PropsCollectors.PropIndexingAgrees | native_api_1c_macro/src/derive_addin/props/collectors/get_n_props.rs:20-36 | the property collectors agree on the index range: beyond `get_n_props` there is no name, no read or write, and a set changes nothing |
| Ffi.AttachTypeCode | native_api_1c_core/src/ffi/mod.rs:40-47 | the attach type's C code is 1, 2 or 3 |
| Ffi.AttachTypeCodeInjective | native_api_1c_core/src/ffi/mod.rs:40-47 | distinct attach types have distinct codes |
| Ffi.Rank | native_api_1c_core/src/ffi/mod.rs:72-89 | the position of each field in the `repr(C)` component layout |
| Ffi.ViewOffsets | native_api_1c_core/src/ffi/mod.rs:57-62 | the four interface pointers sit at words 0 to 3, matching the `offset` constants |
| Ffi.GetComponentRecoversBase | native_api_1c_core/src/ffi/mod.rs:57-70 | `get_component` instantiated with a view's `offset` constant (`INIT_DONE`, `LANG_EXTENDER`, `LOCALE`, `USER_LANG`), applied to that view's field address, gives the component's address |
| Ffi.StorageOffsets | native_api_1c_core/src/ffi/mod.rs:72-89 | the memory manager is at word 4, the connection at word 5 and `destroy` at word 12 |
| Ffi.DestroyWordMismatch | native_api_1c_core/src/ffi/mod.rs:125-141 | the word `destroy_component` calls through is the memory manager's, not `destroy` |
| Ffi.Component.constructor | native_api_1c_core/src/ffi/mod.rs:101-121 | a component with the given interfaces, destructor and add-in, no memory manager, connection, locale or language |
| Ffi.Process.constructor | native_api_1c_core/src/ffi/mod.rs:125-141 | a process with no cells, no live components and no indirect calls |
| Ffi.CreateComponent | native_api_1c_core/src/ffi/mod.rs:101-121 | for a fresh box address: returns 1, stores the new component's address in the cell, makes it live; the component carries the add-in and nothing else set |
| Ffi.Destroy | native_api_1c_core/src/ffi/mod.rs:91-96 | the component's own `destroy` drops exactly that component |
| Ffi.CallDestroyPointer | native_api_1c_core/src/ffi/mod.rs:137 | an indirect call through a word drops the component only when the word is its `destroy` |
| Ffi.DestroyComponent | native_api_1c_core/src/ffi/mod.rs:125-141 | as written: returns 0 and nulls the cell, but calls the word at the memory manager's offset, which frees the component only if that word happens to be `destroy` |
| Ffi.DestroyComponentFixed | native_api_1c_core/src/ffi/mod.rs:125-141 | corrected: calls `destroy`, so the component is dropped, the cell nulled and 0 returned |
| InitDone.VTable | native_api_1c_core/src/ffi/init_done.rs:9-18 | the `InitDoneBase` table: destructor slot first (with a second one on Unix), then the four methods |
| InitDone.VTableShift | native_api_1c_core/src/ffi/init_done.rs:9-18 | past the destructor the Unix table is the Windows one shifted by one slot |
| InitDone.Init | native_api_1c_core/src/ffi/init_done.rs:20-26 | the add-in's `init` decides the result and new state; the shim's own fields are untouched |
| InitDone.SetMemManager | native_api_1c_core/src/ffi/init_done.rs:28-35 | stores the host's manager and returns true, leaving the add-in alone |
| InitDone.GetInfo | native_api_1c_core/src/ffi/init_done.rs:37-42 | forwards the add-in's `get_info` |
| InitDone.Done | native_api_1c_core/src/ffi/init_done.rs:44-47 | forwards `done`, leaving the rest of the component alone |
| LangExtender.VTable | native_api_1c_core/src/ffi/lang_extender.rs:15-69 | the `LanguageExtenderBase` table has 17 slots on Windows and 18 on Unix, ending in `call_as_proc`, `call_as_func` |
| LangExtender.RegisterExtensionAs | native_api_1c_core/src/ffi/lang_extender.rs:71-93 | without a memory manager it fails; otherwise the add-in's name is copied into a fresh host block whose address is returned, and allocation failure returns false with the heap unchanged |
| LangExtender.GetNProps | native_api_1c_core/src/ffi/lang_extender.rs:95-100 | forwards `get_n_props` cast to `c_long` |
| LangExtender.FoundIndex | native_api_1c_core/src/ffi/lang_extender.rs:108-111 | a missing name is -1; a found index is returned as is |
| LangExtender.FindProp | native_api_1c_core/src/ffi/lang_extender.rs:102-112 | the add-in is asked with the host's name up to and including its terminator |
| LangExtender.FindMethod | native_api_1c_core/src/ffi/lang_extender.rs:186-196 | as `FindProp`, for methods |
| LangExtender.CopyName | native_api_1c_core/src/ffi/lang_extender.rs:123-131 | no name gives null; a name is copied into a fresh host block whose address is returned, or null if allocation fails |
| LangExtender.GetPropName | native_api_1c_core/src/ffi/lang_extender.rs:114-132 | the add-in's property name copied into the block the allocator grants next (the returned pointer), the request logged and nothing freed; null with the heap unchanged when there is no manager, no name or no block |
| LangExtender.GetMethodName | native_api_1c_core/src/ffi/lang_extender.rs:198-221 | as `GetPropName`, for methods |
| LangExtender.ApplyReturn | native_api_1c_core/src/ffi/provided_types.rs:172-232 | storing a value in a `ReturnValue`: scalars in place; strings and blobs in a fresh block, or `result` cleared if none |
| LangExtender.StoredReturnReadsBack | native_api_1c_core/src/ffi/provided_types.rs:172-232 | a value stored through a `ReturnValue` whose block was granted reads back from the new heap as that value |
| LangExtender.ReturnInto | native_api_1c_core/src/ffi/lang_extender.rs:144-150 | no answer is false with slot and memory unchanged; an answer is stored, the result tells whether its block could be allocated, and the allocator ends as `StoreReturn` says: one request, the granted block holding the value, nothing freed |
| LangExtender.GetPropVal | native_api_1c_core/src/ffi/lang_extender.rs:134-151 | without a manager false; otherwise the add-in's value is stored in the host slot and host memory changes exactly as `StoreReturn` says |
| LangExtender.GetParamDefValue | native_api_1c_core/src/ffi/lang_extender.rs:231-254 | as `GetPropVal`, for a parameter's default |
| LangExtender.SetPropVal | native_api_1c_core/src/ffi/lang_extender.rs:153-161 | the add-in receives the value read from the host slot and decides the result and the new state |
| LangExtender.IsPropReadable | native_api_1c_core/src/ffi/lang_extender.rs:163-169 | forwards `is_prop_readable` |
| LangExtender.IsPropWritable | native_api_1c_core/src/ffi/lang_extender.rs:171-177 | forwards `is_prop_writable` |
| LangExtender.GetNMethods | native_api_1c_core/src/ffi/lang_extender.rs:179-184 | forwards `get_n_methods` cast to `c_long` |
| LangExtender.GetNParams | native_api_1c_core/src/ffi/lang_extender.rs:223-229 | forwards `get_n_params` cast to `c_long` |
| LangExtender.HasRetVal | native_api_1c_core/src/ffi/lang_extender.rs:256-262 | forwards `has_ret_val` |
| LangExtender.FieldsOf | native_api_1c_core/src/ffi/lang_extender.rs:273 | the host's parameter array as the fields of its slots, in order |
| LangExtender.ReadParams | native_api_1c_core/src/ffi/lang_extender.rs:273-277 | each parameter is read from its slot, in order |
| LangExtender.SlotStepShape | native_api_1c_core/src/ffi/lang_extender.rs:291-307 | a write-back step either leaves the slot as `SlotAfter` describes or fails on a changed string or blob with the slot unchanged |
| LangExtender.SlotStepReadsBack | native_api_1c_core/src/ffi/lang_extender.rs:291-307 | a slot the step changed reads back from the new heap as the add-in's value, when the host's block is not the slot's old one |
| LangExtender.WriteSlot | native_api_1c_core/src/ffi/lang_extender.rs:291-307 | false exactly for a changed string or blob whose block the host refuses; slot and allocator end as `SlotStep` says: an equal value changes nothing, a changed scalar only the slot, a changed string or blob gets the granted block holding its bytes while the slot's old block is freed |
| LangExtender.WriteAt | native_api_1c_core/src/ffi/lang_extender.rs:291-307 | slot `i` and the allocator change as `WriteSlot` says; no other slot changes |
| LangExtender.WriteFromShape | native_api_1c_core/src/ffi/lang_extender.rs:290-308 | whatever the host's allocator answers, the loop's outcome stops at the first refused block or covers every slot; slots before the stop hold their new values, the rest are untouched |
| LangExtender.WriteBack | native_api_1c_core/src/ffi/lang_extender.rs:290-308 | the slots and host memory end exactly as `WriteFrom` says, slot by slot in order from the initial allocator state; in particular changed slots before the first refused block are updated and the rest untouched |
| LangExtender.FinishCall | native_api_1c_core/src/ffi/lang_extender.rs:286-308 | a parameter list of the wrong length fails with slots and memory unchanged; otherwise slots and memory end as `WriteFrom` says |
| LangExtender.CallAsProc | native_api_1c_core/src/ffi/lang_extender.rs:264-311 | without a manager false; otherwise the add-in runs on the parameters read from the host, its new state is kept, and only if it succeeded with as many parameters are they written back, slots and memory ending as `WriteFrom` says; else memory is unchanged |
| LangExtender.FinishFunc | native_api_1c_core/src/ffi/lang_extender.rs:342-370 | no or unstorable return value fails with nothing written back and memory as `StoreReturn` leaves it; otherwise the value is stored, then the parameters are written back from the memory `StoreReturn` leaves |
| LangExtender.CallAsFunc | native_api_1c_core/src/ffi/lang_extender.rs:313-373 | as `CallAsProc`, with the return value stored in the host's slot before the write-back, and memory threaded through `StoreReturn` then `WriteFrom` |
| DeriveAddIn.Utf16Null | native_api_1c_macro/src/derive_addin/mod.rs:86-88 | the registered extension name: the UTF-16 units of the struct's name and one terminating 0, on both platforms; the same as Windows `os_string_nil` |
| DeriveAddIn.TerminatedNamesInjective | native_api_1c_core/src/ffi/string_utils.rs:38-44 | distinct names have distinct terminated encodings |
| DeriveAddIn.Assemble | native_api_1c_macro/src/derive_addin/mod.rs:50-98 | the generated impl: `find_method`, `find_prop`, `get_method_name` and `get_prop_name` encode names with `os_string_nil` of the target platform; the extension name is `utf16_null!` of the struct's name |
| DeriveAddIn.AssembleFixed | native_api_1c_core/src/ffi/string_utils.rs:38-44 | corrected: the same impl with the four name collectors encoding with a terminator on both platforms |
| DeriveAddIn.BuildImplBlock | native_api_1c_macro/src/derive_addin/mod.rs:37-100 | a non-struct is an error; otherwise the property parse error, else the function parse error, else the impl assembled from the parsed descriptors |
| DeriveAddIn.Derive | native_api_1c_macro/src/derive_addin/mod.rs:23-100 | a non-struct is rejected; the expansion is a `compile_error!` exactly when building the impl fails, with its error |
| DeriveAddIn.PropsParsedFirst | native_api_1c_macro/src/derive_addin/mod.rs:47-48 | a property error is reported before any function error |
| DeriveAddIn.DerivedFixedEntries | native_api_1c_macro/src/derive_addin/mod.rs:77-96 | the derived `init` stores the connection and succeeds, `get_info` is 2000, the extension name is the struct's name, `done` and the locale setters change nothing, and the counts are the numbers of tagged fields |
| DeriveAddIn.ExtensionNameReadsBack | native_api_1c_macro/src/derive_addin/mod.rs:86-88 | the host decodes the registered extension name to the struct's name |
| DeriveAddIn.HostFindsReportedMethod | native_api_1c_macro/src/function_processing/collectors/find_method.rs:20-49 | corrected impl, distinct names: the name reported for method `i` is its terminated encoding, and the impl's `find_method` on it gives `i` |
| DeriveAddIn.HostFindsReportedProp | native_api_1c_macro/src/derive_addin/props/collectors/find_prop.rs:20-49 | corrected impl, distinct names: the name reported for property `i` is its terminated encoding, and the impl's `find_prop` on it gives `i` |
| DeriveAddIn.UnixLookupNeverMatches | native_api_1c_core/src/ffi/string_utils.rs:28-31 | as generated for Unix: the impl's `find_method` finds nothing for any host query (which ends in 0) when the names are NUL-free |
| DeriveAddIn.UnixPropLookupNeverMatches | native_api_1c_macro/src/derive_addin/props/collectors/find_prop.rs:29-34 | the same for the impl's `find_prop` |
| ExternFunctions.SelectorTable | native_api_1c_macro/src/extern_functions/mod.rs:10-16 | `ASCII_LOWER` is the 50 characters `0`-`9`, `A`-`T`, `a`-`t`, all ASCII and all distinct |
| ExternFunctions.ComponentAttrs | native_api_1c_macro/src/extern_functions/parse.rs:48-51 | the `add_in_component` attributes, a sub-list of the attributes |
| ExternFunctions.ComponentAttrsExactly | native_api_1c_macro/src/extern_functions/parse.rs:48-51 | an attribute is kept exactly when it is `add_in_component`; the filter distributes over concatenation, so order is kept; an all-tagged list is kept whole |
| ExternFunctions.ParseComponent | native_api_1c_macro/src/extern_functions/parse.rs:45-78 | corrected: two attributes are an error; none gives no name override; one gives its name, or its own parse error |
| ExternFunctions.ComponentParsePanics | native_api_1c_macro/src/extern_functions/parse.rs:62-66 | as written the parse panics exactly on a single malformed `add_in_component`, and otherwise agrees with the corrected parse |
| ExternFunctions.MalformedAttributePanics | native_api_1c_macro/src/extern_functions/parse.rs:62-66 | a concrete input on which the as-written parse panics and the corrected one reports the error |
| ExternFunctions.ParseComponentsInOrder | native_api_1c_macro/src/extern_functions/parse.rs:17-31 | every component is parsed, in order; the first error wins |
| ExternFunctions.ExternAddIns | native_api_1c_macro/src/extern_functions/mod.rs:18-26 | more than 50 components is an error |
| ExternFunctions.GetAttachType | native_api_1c_macro/src/extern_functions/mod.rs:62-66 | `GetAttachType` answers `Any` (code 3) |
| ExternFunctions.JoinedShape | native_api_1c_macro/src/extern_functions/mod.rs:49-53 | `join` with a bar puts selector `k` at position `2k`, with a bar between each pair |
| ExternFunctions.EncodeBmp | native_api_1c_macro/src/extern_functions/mod.rs:56 | below U+10000 `utf16_null!` is one unit per character |
| ExternFunctions.GetClassNames | native_api_1c_macro/src/extern_functions/mod.rs:83-87 | the class-name list is NUL-terminated |
| ExternFunctions.ClassNamesLayout | native_api_1c_macro/src/extern_functions/mod.rs:49-56 | the list has `2n` units: selector `k` at `2k`, a bar between each pair, 0 last |
| ExternFunctions.Select | native_api_1c_macro/src/extern_functions/mod.rs:42-47 | `match *name as u8` picks the component whose selector is the low byte of the name's first unit, none otherwise |
| ExternFunctions.SelectFrom | native_api_1c_macro/src/extern_functions/mod.rs:42-47 | the first matching arm from position `from` on |
| ExternFunctions.SelectsByLowByte | native_api_1c_macro/src/extern_functions/mod.rs:29-47 | a name starting with component `k`'s selector selects `k` |
| ExternFunctions.ClassNameSelects | native_api_1c_macro/src/extern_functions/mod.rs:29-56 | each name taken from `GetClassNames` selects the component it names |
| ExternFunctions.GetClassObject | native_api_1c_macro/src/extern_functions/mod.rs:74-81 | an unknown selector returns 0 and changes nothing; a known one creates that component in the cell and returns 1 |
| ExternFunctions.DestroyObject | native_api_1c_macro/src/extern_functions/mod.rs:68-72 | forwards to `destroy_component` as written: 0, the cell nulled, the memory-manager word called, and the component dropped only if that word is its `destroy` |
| ExternFunctions.DestroyObjectFixed | native_api_1c_macro/src/extern_functions/mod.rs:68-72 | over the corrected `destroy_component`: `destroy` is called once, the component dropped, the cell nulled and 0 returned |

## Left out

- I/O with the 1C host is not modelled. Every pointer the host passes is taken as valid; the host's allocator is a function parameter; the v-table calls are direct calls.
- `connection.rs`, `locale_base.rs` and `user_lang_base.rs` forward to the add-in and are not modelled. `PLATFORM_CAPABILITIES` (extern_functions/mod.rs:59-60) is an atomic with no reader in the core.
- chrono is not modelled: dates are an abstract type `D` with two conversion functions, so the `Tm` year/month offsets (provided_types.rs:49-50, 67-68) are not checked.
- f64 is abstracted to finite values, infinities and NaN. Equality on them follows IEEE 754; arithmetic is not modelled.
- The `TVariant` union overlap is not modelled. Each member is a separate field, so reading a member other than the one last written is not modelled.
- `AddInWrapper` is a record of functions, not a trait. All components of one `extern_functions!` share one state type.
- The `syn`/`darling` plumbing is not modelled. A malformed meta is a `wellFormed` flag, a `default` that is not `name = value` is `OtherMeta`, and `expr_to_os_value` is replaced by giving defaults as values.
- `str_literal_token` and the token streams are not modelled: names are taken verbatim as strings.
- `param_ty_to_ffi_set` and `props_processing/generate.rs` are not modelled as code generators. The conversion their set arms generate is `PropsCollectors.ValueOfParam`.
- `ReturnType` is parsed by the same table as `ParamType`.
- A `Date` out-parameter is bound to a by-value local `DateTime` (generate.rs:184), which the user's function receives as a copy (generate.rs:42). So the user's writes never reach the slot, and `post_call` (generate.rs:186-188) stores the incoming date converted to `DateTime` and back. The model does the same (`GeneratedCall.SlotAfter`, `GeneratedCall.DateOutIgnoresUser`). F64 and String out-parameters are `&mut` locals, and their copy-back does carry the user's value.
- A user function that leaves a mistyped value in an out-parameter keeps the old slot.
- The sources mix revisions: `component.memory` beside `memory_manager_ptr`, and `SelfType` inside `ParamType`. The model uses one consistent reading.
- LangExtender.ReturnInto: the add-in answers `get_prop_val`, `get_param_def_value` and `call_as_func` with an `Option<ParamValue>`, and the shim stores it. The trait at interface.rs:72, 138-143 and 174-179 instead hands the add-in a `ReturnValue` and takes a `bool`, with lang_extender.rs:144-150 and 248-253 returning `answer && result`. Two behaviours of that hand-off are lost. An add-in that sets the value and then returns false leaves the slot written, where the model leaves it unchanged. An add-in that returns true without setting anything yields true with the slot untouched, where the model has no such answer. The same holds for LangExtender.GetPropVal, LangExtender.GetParamDefValue and LangExtender.CallAsFunc.
- The `ToTokens` panic on `SelfType` is not modelled.
- The `parse_terminated(...).unwrap()` panic (extern_functions/parse.rs:19) on input that is not a comma-separated expression list is not modelled.
- The `from_raw_parts` size of the host's parameter array is taken as the length of the given sequence.
- Newly allocated host blocks are modelled as zero-filled, though the host gives no such guarantee.
- ExternFunctions.SelectorTable: `ASCII_LOWER` is generated from its three code-point runs rather than written as a literal.
- ExternFunctions.GetClassObject: requires a non-empty name, because the source dereferences `*name` unconditionally.
- LangExtender.FindProp, LangExtender.FindMethod: require a terminated name, as `get_str`'s `strlen` does; an unterminated host string is not modelled.
- LangExtender.SetPropVal: requires the slot to be readable from the heap, because the source trusts the host's pointer.
- PropsCollectors.ParamOfValue: a String property is read out with `os_string`, with no terminator. The body of `expr_to_os_value` (get_prop_val.rs:31), derive_addin/utils.rs, is not part of this model. The encoding is assumed to be the one the generated method return uses (generate.rs:81), not the `os_string_nil` of the older `param_ty_to_ffi_return` (common_generators.rs:22). Under `os_string_nil` the units would carry one more 0 on Windows. `from_os_string` drops trailing NULs, so the string decoded from them is the same under either encoding (`StringUtils.FromOsStringOfOsString`, `StringUtils.FromOsStringOfOsStringNil`).
- PropsCollectors.GetPropVal: requires one value per property. The derived record answers `None` when the state's field list has the wrong length; a struct always has one.
- HostMemory.RequestBytes: models the release-build wrap of the multiply; a debug build's overflow panic is not modelled.
- HostMemory.MemoryManager.Alloc, HostMemory.MemoryManager.AllocStr, HostMemory.MemoryManager.AllocBlob: `AllocStr` and `AllocBlob` delegate to `Alloc`, so all three allocate with `CheckedRequestBytes`, the corrected byte count; `RequestBytes` keeps the as-written wrap.
- ProvidedTypes.StrUpdateTruncatesLength: states only that the stored length wraps, through `AsU32`, not which prefix of the block the host will read.

## Findings

| source | as written | input that shows it | evidently intended | confidence | as-written member | corrected member |
|---|---|---|---|---|---|---|
| native_api_1c_core/src/ffi/mod.rs:125-141 | `destroy_component` reads the destructor from word 4 of the component, which by the `repr(C)` layout at lines 72-89 is `memory_manager_ptr`; `destroy` is at word 12 | any component: `destroy_component` calls through the memory manager pointer | call the component's `destroy` function | not executed | Ffi.DestroyComponent | Ffi.DestroyComponentFixed |
| native_api_1c_core/src/ffi/string_utils.rs:28-31 | on Unix `os_string_nil` omits the terminator its name promises, while `get_str` keeps the host's 0, so `find_method`/`find_prop` compare `…,0` against a name without 0 | a method named `Test`, the host asking for `Test`: `[84,101,115,116,0]` vs `[84,101,115,116]`, no match | a trailing 0 as on Windows | not executed | DeriveAddIn.UnixLookupNeverMatches | DeriveAddIn.HostFindsReportedMethod |
| native_api_1c_macro/src/extern_functions/parse.rs:62-66 | the error span is taken from `add_in_component_attrs[1]` when the list has exactly one element | `#[add_in_component(name = 1)] MyAddIn::new()` | report the meta's error at `attrs[0]` | not executed | ExternFunctions.MalformedAttributePanics | ExternFunctions.ParseComponent |
| native_api_1c_core/src/ffi/memory_manager.rs:43 | `size as c_ulong * 2` wraps on Windows, where `c_ulong` is 32 bits, in a release build (with overflow checks on, the multiply panics instead) | a 2^31-unit string: the host is asked for 0 bytes | a checked byte count | not executed | HostMemory.RequestBytesWrapsOnWindows | HostMemory.CheckedRequestBytes |
