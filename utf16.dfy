// UTF-16 encoding of a string into code units (with surrogate pairs above the
// basic multilingual plane) and the little-endian byte layout of those units,
// as USB string descriptors carry them; the decoders are what a host applies.
module Utf16 {
  import opened UsbTypes

  predicate IsHighSurrogate(u: u16) { 0xD800 <= u < 0xDC00 }
  predicate IsLowSurrogate(u: u16) { 0xDC00 <= u < 0xE000 }

  /** The scalar value a surrogate pair stands for. */
  function Combine(hi: u16, lo: u16): (n: int)
    requires IsHighSurrogate(hi) && IsLowSurrogate(lo)
    ensures 0x1_0000 <= n < 0x11_0000
  {
    0x1_0000 + (hi as int - 0xD800) * 0x400 + (lo as int - 0xDC00)
  }

  /** The code units of one Unicode scalar value. */
  function EncodeChar(c: char): (r: seq<u16>)
    ensures 1 <= |r| <= 2
    ensures |r| == 1 <==> (c as int) < 0x1_0000
    ensures |r| == 1 ==> !IsHighSurrogate(r[0]) && !IsLowSurrogate(r[0])
    ensures |r| == 2 ==> IsHighSurrogate(r[0]) && IsLowSurrogate(r[1])
  {
    var n := c as int;
    if n < 0x1_0000 then [n]
    else
      var v := n - 0x1_0000;
      [0xD800 + v / 0x400, 0xDC00 + v % 0x400]
  }

  /** The UTF-16 code units of a string, in order. */
  function Utf16Units(s: string): (r: seq<u16>)
    ensures |s| <= |r| <= 2 * |s|
  {
    if s == [] then [] else EncodeChar(s[0]) + Utf16Units(s[1..])
  }

  /** Decodes code units back to a string; None on an unpaired surrogate. */
  function DecodeUtf16(units: seq<u16>): Option<string>
    decreases |units|
  {
    if units == [] then Some([])
    else if IsHighSurrogate(units[0]) then
      if |units| >= 2 && IsLowSurrogate(units[1]) then
        var n := Combine(units[0], units[1]);
        match DecodeUtf16(units[2..])
        case Some(rest) => Some([n as char] + rest)
        case None => None
      else None
    else if IsLowSurrogate(units[0]) then None
    else
      match DecodeUtf16(units[1..])
      case Some(rest) => Some([units[0] as char] + rest)
      case None => None
  }

  /** Two bytes per code unit, low byte first. */
  function LeBytes(units: seq<u16>): (r: seq<u8>)
    ensures |r| == 2 * |units|
  {
    if units == [] then []
    else
      var last := units[|units| - 1];
      LeBytes(units[..|units| - 1]) + [last % 256, last / 256]
  }

  /** Reads little-endian code units; None on an odd byte count. */
  function FromLeBytes(bytes: seq<u8>): Option<seq<u16>>
  {
    if bytes == [] then Some([])
    else if |bytes| == 1 then None
    else
      match FromLeBytes(bytes[..|bytes| - 2])
      case Some(init) => Some(init + [Le16(bytes[|bytes| - 2], bytes[|bytes| - 1])])
      case None => None
  }

  lemma {:induction false} EncodeDecodeChar(c: char, rest: seq<u16>)
    ensures DecodeUtf16(EncodeChar(c) + rest) ==
      match DecodeUtf16(rest)
      case Some(s) => Some([c] + s)
      case None => None
  {
    var e := EncodeChar(c);
    var units := e + rest;
    var n := c as int;
    if n < 0x1_0000 {
      assert units[0] == n && units[1..] == rest;
    } else {
      var v := n - 0x1_0000;
      assert units[0] == 0xD800 + v / 0x400 && units[1] == 0xDC00 + v % 0x400;
      assert units[2..] == rest;
      assert Combine(units[0], units[1]) == n;
    }
  }

  /** Decoding the encoding of any string gives the string back. */
  lemma {:induction false} Utf16RoundTrip(s: string)
    ensures DecodeUtf16(Utf16Units(s)) == Some(s)
  {
    if s != [] {
      Utf16RoundTrip(s[1..]);
      EncodeDecodeChar(s[0], Utf16Units(s[1..]));
      assert [s[0]] + s[1..] == s;
    }
  }

  /** Reading back the little-endian bytes of any code units gives the units back. */
  lemma {:induction false} LeBytesRoundTrip(units: seq<u16>)
    ensures FromLeBytes(LeBytes(units)) == Some(units)
  {
    if units != [] {
      var init := units[..|units| - 1];
      var last := units[|units| - 1];
      var b := LeBytes(units);
      assert b == LeBytes(init) + [last % 256, last / 256];
      assert b[..|b| - 2] == LeBytes(init);
      LeBytesRoundTrip(init);
      assert init + [last] == units;
    }
  }

  /** A string of the basic multilingual plane encodes to one code unit per character. */
  lemma {:induction false} Utf16UnitsBmp(s: string)
    requires forall i :: 0 <= i < |s| ==> (s[i] as int) < 0x1_0000
    ensures |Utf16Units(s)| == |s|
    ensures forall i :: 0 <= i < |s| ==> Utf16Units(s)[i] == s[i] as int
  {
    if s != [] {
      Utf16UnitsBmp(s[1..]);
    }
  }

  /** Code unit `i` sits at bytes 2i (low) and 2i + 1 (high). */
  lemma {:induction false} LeBytesAt(units: seq<u16>, i: nat)
    requires i < |units|
    ensures LeBytes(units)[2 * i] == units[i] % 256
    ensures LeBytes(units)[2 * i + 1] == units[i] / 256
  {
    var init := units[..|units| - 1];
    if i < |units| - 1 {
      LeBytesAt(init, i);
    }
  }
}
