/**
 * The host's memory as the add-in sees it (`memory_manager.rs`): a map from
 * block address to the bytes of the block, and the `MemoryManager` object
 * whose `alloc_memory` entry the host implements.
 */
module HostMemory {
  import opened Prim
  import opened Wrappers

  type Ptr = nat
  const NULL: Ptr := 0

  datatype AllocationError = AllocationError

  /**
   * What the host's `alloc_memory` does with one request: its `bool` answer
   * and the address it stores through the out-argument.
   */
  datatype HostReply = HostReply(granted: bool, ptr: Ptr)

  /** The blocks, the byte counts requested so far and the addresses freed so far. */
  datatype MemState = MemState(heap: map<Ptr, seq<u8>>, requests: seq<nat>, freed: seq<Ptr>)

  function Zeros(n: nat): (r: seq<u8>)
    ensures |r| == n && forall i :: 0 <= i < n ==> r[i] == 0
  {
    seq(n, _ => 0)
  }

  /** UTF-16 code units as the little-endian bytes they occupy in a block. */
  function UnitsToBytes(u: seq<u16>): (r: seq<u8>)
    ensures |r| == 2 * |u|
  {
    if u == [] then [] else [u[0] % 0x100, u[0] / 0x100] + UnitsToBytes(u[1..])
  }

  function BytesToUnits(b: seq<u8>): (r: seq<u16>)
    requires |b| % 2 == 0
    ensures |r| == |b| / 2
  {
    if b == [] then [] else [b[0] as int + 0x100 * (b[1] as int)] + BytesToUnits(b[2..])
  }

  /** Reading back the units that were stored gives them again. */
  lemma {:induction false} BytesToUnitsOfUnitsToBytes(u: seq<u16>)
    ensures BytesToUnits(UnitsToBytes(u)) == u
  {
    if u != [] {
      var b := UnitsToBytes(u);
      assert b[2..] == UnitsToBytes(u[1..]);
      BytesToUnitsOfUnitsToBytes(u[1..]);
    }
  }

  /** `size as c_ulong * 2` as written: `size` is cut to `c_ulong`, then doubled with wrap-around. */
  function RequestBytes(p: Platform, size: nat): (n: nat)
    ensures n < LongRange(p)
    ensures 2 * size < LongRange(p) ==> n == 2 * size
  {
    AsCULong(p, 2 * AsCULong(p, size))
  }

  /**
   * On windows `c_ulong` is 32 bits, so a request for 2^31 units asks the
   * host for no bytes at all, and the copy that follows overruns the block.
   */
  lemma RequestBytesWrapsOnWindows()
    ensures RequestBytes(Windows, 0x8000_0000) == 0 < 2 * 0x8000_0000
  {
  }

  /** The byte count the request is meant to be: `size * 2`, or nothing when it does not fit `c_ulong`. */
  function CheckedRequestBytes(p: Platform, size: nat): (r: Option<nat>)
    ensures r.Some? <==> 2 * size < LongRange(p)
    ensures r.Some? ==> r.value == 2 * size && r.value == RequestBytes(p, size)
  {
    if 2 * size < LongRange(p) then Some(2 * size) else None
  }

  /**
   * The host's `IMemoryManager` object at address `addr`. `host` answers the n-th request (counted
   * from zero) for a given number of bytes; `requests` records the byte
   * counts asked for and `freed` the addresses handed to `free_memory`.
   * A newly granted block is taken to be zero-filled.
   */
  class MemoryManager {
    const addr: Ptr
    const platform: Platform
    const host: (nat, nat) -> HostReply
    var heap: map<Ptr, seq<u8>>
    var requests: seq<nat>
    var freed: seq<Ptr>

    constructor (addr: Ptr, platform: Platform, host: (nat, nat) -> HostReply, heap: map<Ptr, seq<u8>>)
      ensures this.addr == addr && this.platform == platform && this.host == host && this.heap == heap
      ensures requests == [] && freed == []
    {
      this.addr := addr;
      this.platform := platform;
      this.host := host;
      this.heap := heap;
      requests := [];
      freed := [];
    }

    /** The manager's mutable state as one value. */
    function State(): MemState
      reads this
    {
      MemState(heap, requests, freed)
    }

    /** The outcome of an allocation of `size` units once `count` requests have reached the host. */
    function AllocAt(count: nat, size: nat): Option<Ptr> {
      match CheckedRequestBytes(platform, size)
      case None => None
      case Some(n) =>
        var reply := host(count, n);
        if reply.granted && reply.ptr != NULL then Some(reply.ptr) else None
    }

    /** A request log after one more allocation of `size` units. */
    function LogAfter(log: seq<nat>, size: nat): seq<nat> {
      match CheckedRequestBytes(platform, size)
      case None => log
      case Some(n) => log + [n]
    }

    /** The outcome the next `alloc_str(size)` or `alloc_blob(size)` produces. */
    function NextAlloc(size: nat): Option<Ptr>
      reads this
    {
      AllocAt(|requests|, size)
    }

    /** `requests` after one more `alloc_str(size)` or `alloc_blob(size)`. */
    function RequestsAfter(size: nat): seq<nat>
      reads this
    {
      LogAfter(requests, size)
    }

    /** The request both allocation entries share: ask the host, then inspect the address it wrote. */
    method Alloc(size: nat) returns (r: Result<Ptr, AllocationError>)
      modifies this
      ensures r == (if old(NextAlloc(size)).Some? then Ok(old(NextAlloc(size)).value) else Err(AllocationError))
      ensures r.Ok? ==> r.value != NULL && heap == old(heap)[r.value := Zeros(2 * size)]
      ensures r.Err? ==> heap == old(heap)
      ensures requests == old(RequestsAfter(size)) && freed == old(freed)
    {
      var bytes := CheckedRequestBytes(platform, size);
      if bytes.None? {
        return Err(AllocationError);
      }
      var reply := host(|requests|, bytes.value);
      requests := requests + [bytes.value];
      var ptr := NULL;
      if reply.granted {
        ptr := reply.ptr;
        if ptr != NULL {
          heap := heap[ptr := Zeros(bytes.value)];
          return Ok(ptr);
        }
        return Err(AllocationError);
      }
      return Err(AllocationError);
    }

    /** `alloc_blob(size)`: `size * 2` bytes, exactly as many as for a string of `size` units. */
    method AllocBlob(size: nat) returns (r: Result<Ptr, AllocationError>)
      modifies this
      ensures r == (if old(NextAlloc(size)).Some? then Ok(old(NextAlloc(size)).value) else Err(AllocationError))
      ensures r.Ok? ==> r.value != NULL && heap == old(heap)[r.value := Zeros(2 * size)]
      ensures r.Err? ==> heap == old(heap)
      ensures requests == old(RequestsAfter(size)) && freed == old(freed)
    {
      r := Alloc(size);
    }

    /** `alloc_str(size)`: room for `size` UTF-16 units. */
    method AllocStr(size: nat) returns (r: Result<Ptr, AllocationError>)
      modifies this
      ensures r == (if old(NextAlloc(size)).Some? then Ok(old(NextAlloc(size)).value) else Err(AllocationError))
      ensures r.Ok? ==> r.value != NULL && heap == old(heap)[r.value := Zeros(2 * size)]
      ensures r.Err? ==> heap == old(heap)
      ensures requests == old(RequestsAfter(size)) && freed == old(freed)
    {
      r := Alloc(size);
    }

    /** `copy_nonoverlapping` into a block: the first `|data|` bytes are replaced. */
    method Copy(dst: Ptr, data: seq<u8>)
      requires dst in heap && |data| <= |heap[dst]|
      modifies this
      ensures heap == old(heap)[dst := data + old(heap)[dst][|data|..]]
      ensures requests == old(requests) && freed == old(freed)
    {
      heap := heap[dst := data + heap[dst][|data|..]];
    }

    /** `free_memory`: the address goes to the host unchanged, whatever it is. */
    method Free(p: Ptr)
      modifies this
      ensures heap == old(heap) - {p}
      ensures freed == old(freed) + [p] && requests == old(requests)
    {
      heap := heap - {p};
      freed := freed + [p];
    }
  }
}
