/**
 * UTF-16 at the code-unit level (RFC 2781, section 2): the encoding Rust's
 * `encode_utf16`/`encode_wide` perform and the decoding `from_utf16_lossy`
 * performs, followed by the add-in's string helpers.
 */
module Utf16 {
  import opened Prim

  predicate IsHigh(u: u16) { 0xD800 <= u < 0xDC00 }
  predicate IsLow(u: u16) { 0xDC00 <= u < 0xE000 }
  predicate IsSurrogate(u: u16) { 0xD800 <= u < 0xE000 }

  const REPLACEMENT: char := '\U{FFFD}'

  /** One scalar value as one unit (BMP) or a surrogate pair. */
  function EncodeChar(c: char): (r: seq<u16>)
    ensures 1 <= |r| <= 2
    ensures |r| == 1 <==> (c as int) < 0x1_0000
    ensures |r| == 1 ==> !IsSurrogate(r[0]) && r[0] == c as int
    ensures |r| == 2 ==> IsHigh(r[0]) && IsLow(r[1])
    ensures c == 0 as char <==> r == [0]
  {
    var v := c as int;
    if v < 0x1_0000 then [v]
    else
      var w := v - 0x1_0000;
      [0xD800 + w / 0x400, 0xDC00 + w % 0x400]
  }

  function Encode(s: string): (r: seq<u16>)
  {
    if s == [] then [] else EncodeChar(s[0]) + Encode(s[1..])
  }

  /** `String::from_utf16_lossy`: an unpaired surrogate unit becomes U+FFFD. */
  function DecodeLossy(u: seq<u16>): string
    decreases |u|
  {
    if u == [] then ""
    else if |u| >= 2 && IsHigh(u[0]) && IsLow(u[1]) then
      [(0x1_0000 + (u[0] as int - 0xD800) * 0x400 + (u[1] as int - 0xDC00)) as char] + DecodeLossy(u[2..])
    else if IsSurrogate(u[0]) then [REPLACEMENT] + DecodeLossy(u[1..])
    else [u[0] as char] + DecodeLossy(u[1..])
  }

  lemma EncodeAppend(s: string, t: string)
    ensures Encode(s + t) == Encode(s) + Encode(t)
  {
    if s == [] {
      assert s + t == t;
    } else {
      assert (s + t)[0] == s[0];
      assert (s + t)[1..] == s[1..] + t;
      EncodeAppend(s[1..], t);
    }
  }

  lemma DecodeCharThen(c: char, rest: seq<u16>)
    ensures DecodeLossy(EncodeChar(c) + rest) == [c] + DecodeLossy(rest)
  {
    var e := EncodeChar(c);
    if |e| == 2 {
      assert (e + rest)[2..] == rest;
    } else {
      assert (e + rest)[1..] == rest;
    }
  }

  /** Decoding undoes encoding, so `Encode` is injective. */
  lemma {:induction false} DecodeEncode(s: string)
    ensures DecodeLossy(Encode(s)) == s
    decreases |s|
  {
    if s != [] {
      DecodeCharThen(s[0], Encode(s[1..]));
      DecodeEncode(s[1..]);
    }
  }

  lemma EncodeInjective(s: string, t: string)
    requires Encode(s) == Encode(t)
    ensures s == t
  {
    DecodeEncode(s);
    DecodeEncode(t);
  }

  lemma {:induction false} EncodeHasNoZeroUnlessNul(s: string)
    requires forall i :: 0 <= i < |s| ==> s[i] != 0 as char
    ensures forall j :: 0 <= j < |Encode(s)| ==> Encode(s)[j] != 0
    decreases |s|
  {
    if s != [] {
      EncodeHasNoZeroUnlessNul(s[1..]);
    }
  }
}

/**
 * The helpers of `string_utils.rs`: reading a NUL-terminated name the host
 * passes in, and encoding the add-in's own names.
 */
module StringUtils {
  import opened Prim
  import opened Utf16

  /** Index of the first zero unit; the host's names always contain one. */
  function FirstZero(mem: seq<u16>): (k: nat)
    requires exists k :: 0 <= k < |mem| && mem[k] == 0
    ensures k < |mem| && mem[k] == 0
    ensures forall j :: 0 <= j < k ==> mem[j] != 0
  {
    if mem[0] == 0 then 0
    else
      assert exists k :: 0 <= k < |mem[1..]| && mem[1..][k] == 0 by {
        var k :| 0 <= k < |mem| && mem[k] == 0;
        assert k > 0 && mem[1..][k - 1] == 0;
      }
      1 + FirstZero(mem[1..])
  }

  /**
   * `get_str`: the slice from the host address up to AND INCLUDING the first zero
   * unit. `mem` is the host memory starting at that address.
   */
  method GetStr(mem: seq<u16>) returns (r: seq<u16>)
    requires exists k :: 0 <= k < |mem| && mem[k] == 0
    ensures |r| == FirstZero(mem) + 1 && r == mem[..|r|]
    ensures r[|r| - 1] == 0
    ensures forall j :: 0 <= j < |r| - 1 ==> r[j] != 0
  {
    ghost var k := FirstZero(mem);
    var i := 0;
    while mem[i] != 0
      invariant 0 <= i <= k
      invariant forall j :: 0 <= j < i ==> mem[j] != 0
      decreases k - i
    {
      i := i + 1;
    }
    r := mem[..i + 1];
  }

  /** `os_string`: the UTF-16 units of `s`, no terminator, on both families. */
  function OsString(p: Platform, s: string): (r: seq<u16>)
    ensures r == Encode(s)
  {
    Encode(s)
  }

  /** `os_string_nil` as written: a terminator on windows only. */
  function OsStringNil(p: Platform, s: string): (r: seq<u16>)
    ensures p == Unix ==> r == OsString(p, s)
    ensures p == Windows ==> r == OsString(p, s) + [0]
  {
    match p
    case Unix => Encode(s)
    case Windows => Encode(s) + [0]
  }

  /** `os_string_nil` as its name and its windows version intend: always terminated. */
  function OsStringNilFixed(s: string): (r: seq<u16>)
    ensures |r| > 0 && r[|r| - 1] == 0 && r[..|r| - 1] == Encode(s)
  {
    Encode(s) + [0]
  }

  function TrimEndNul(s: string): (r: string)
    ensures |r| <= |s| && r == s[..|r|]
    ensures r == [] || r[|r| - 1] != 0 as char
    ensures forall j :: |r| <= j < |s| ==> s[j] == 0 as char
  {
    if s == [] then s
    else if s[|s| - 1] == 0 as char then TrimEndNul(s[..|s| - 1])
    else s
  }

  /** `from_os_string`: decode lossily, then drop every trailing NUL. */
  function FromOsString(u: seq<u16>): (r: string)
  {
    TrimEndNul(DecodeLossy(u))
  }

  /** Only trailing NULs go: the result never ends in NUL and is a prefix followed by NULs only. */
  lemma FromOsStringStripsTrailingNuls(u: seq<u16>)
    ensures var d := DecodeLossy(u); var r := FromOsString(u);
            r == d[..|r|] && (r == [] || r[|r| - 1] != 0 as char) &&
            forall j :: |r| <= j < |d| ==> d[j] == 0 as char
  {
  }

  /** Encoding a string with no trailing NUL and reading it back loses nothing. */
  lemma {:induction false} FromOsStringOfOsString(p: Platform, s: string)
    requires s == [] || s[|s| - 1] != 0 as char
    ensures FromOsString(OsString(p, s)) == s
  {
    DecodeEncode(s);
  }

  /** The windows `os_string_nil` terminator is also stripped again. */
  lemma {:induction false} FromOsStringOfOsStringNil(p: Platform, s: string)
    requires s == [] || s[|s| - 1] != 0 as char
    ensures FromOsString(OsStringNil(p, s)) == s
  {
    if p == Windows {
      var z := [0 as char];
      EncodeAppend(s, z);
      assert Encode(z) == [0] by {
        assert z[1..] == [];
      }
      DecodeEncode(s + z);
      assert (s + z)[..|s|] == s;
      assert TrimEndNul(s + z) == TrimEndNul(s);
    } else {
      DecodeEncode(s);
    }
  }
}
