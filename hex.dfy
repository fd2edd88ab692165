/** Lower-case hexadecimal text of byte strings, as the CLI prints call
    payloads (`to_hex_prefixed`) and as EVM addresses are serialized, and
    its parsing back. */
module Hex {
  import opened Common

  newtype byte = x: int | 0 <= x < 256

  /** `n` zero bytes. */
  function Zeros(n: nat): (z: seq<byte>)
    ensures |z| == n && forall i :: 0 <= i < n ==> z[i] == 0
  {
    seq(n, i => 0)
  }

  /** The lower-case digit of a nibble. */
  function HexDigit(d: nat): (c: char)
    requires d < 16
    ensures IsAsciiDigit(c) || 'a' <= c <= 'f'
  {
    if d < 10 then (48 + d) as char else (87 + d) as char
  }

  /** The value of a hexadecimal digit of either case. */
  function DigitValue(c: char): (r: Option<nat>)
    ensures r.Some? ==> r.value < 16
  {
    if '0' <= c <= '9' then Some(c as int - 48)
    else if 'a' <= c <= 'f' then Some(c as int - 87)
    else if 'A' <= c <= 'F' then Some(c as int - 55)
    else None
  }

  lemma DigitValueOfDigit(d: nat)
    requires d < 16
    ensures DigitValue(HexDigit(d)) == Some(d)
  {
  }

  /** `{:02x}`: two zero-padded lower-case digits. */
  function HexByte(b: byte): string {
    [HexDigit(b as int / 16), HexDigit(b as int % 16)]
  }

  /** The digits of every byte, in order. */
  function HexOf(bs: seq<byte>): (r: string)
    ensures |r| == 2 * |bs|
    ensures forall k :: 0 <= k < |r| ==> IsAsciiDigit(r[k]) || 'a' <= r[k] <= 'f'
    decreases |bs|
  {
    if bs == [] then [] else HexOf(bs[..|bs| - 1]) + HexByte(bs[|bs| - 1])
  }

  /** Byte `i` is written at positions `2i` (high nibble) and `2i + 1`. */
  lemma {:induction false} HexOfAt(bs: seq<byte>)
    ensures forall i :: 0 <= i < |bs| ==>
              HexOf(bs)[2 * i] == HexDigit(bs[i] as int / 16) && HexOf(bs)[2 * i + 1] == HexDigit(bs[i] as int % 16)
    decreases |bs|
  {
    if bs != [] {
      var init := bs[..|bs| - 1];
      HexOfAt(init);
      forall i | 0 <= i < |bs|
        ensures HexOf(bs)[2 * i] == HexDigit(bs[i] as int / 16) && HexOf(bs)[2 * i + 1] == HexDigit(bs[i] as int % 16)
      {
        if i < |init| {
          assert bs[i] == init[i];
        }
      }
    }
  }

  /** A pair of hexadecimal digits as a byte. */
  function ParseHexByte(hi: char, lo: char): Option<byte> {
    var h := DigitValue(hi);
    var l := DigitValue(lo);
    if h.Some? && l.Some? then Some((16 * h.value + l.value) as byte) else None
  }

  /** Hexadecimal text of even length as bytes, two digits per byte. */
  function ParseHex(s: string): (r: Option<seq<byte>>)
    ensures r.Some? ==> 2 * |r.value| == |s|
    decreases |s|
  {
    if s == [] then Some([])
    else if |s| == 1 then None
    else
      var init := ParseHex(s[..|s| - 2]);
      var last := ParseHexByte(s[|s| - 2], s[|s| - 1]);
      if init.Some? && last.Some? then Some(init.value + [last.value]) else None
  }

  lemma ParseHexByteOf(b: byte)
    ensures ParseHexByte(HexByte(b)[0], HexByte(b)[1]) == Some(b)
  {
    DigitValueOfDigit(b as int / 16);
    DigitValueOfDigit(b as int % 16);
  }

  /** Parsing the digits gives the bytes back. */
  lemma {:induction false} ParseHexOf(bs: seq<byte>)
    ensures ParseHex(HexOf(bs)) == Some(bs)
    decreases |bs|
  {
    if bs != [] {
      var init := bs[..|bs| - 1];
      var b := bs[|bs| - 1];
      ParseHexOf(init);
      var s := HexOf(bs);
      var digits := HexByte(b);
      assert s == HexOf(init) + digits;
      assert s[..|s| - 2] == HexOf(init);
      assert s[|s| - 2] == digits[0] && s[|s| - 1] == digits[1];
      ParseHexByteOf(b);
      assert init + [b] == bs;
    }
  }

  /** `to_hex_prefixed`: `0x`, then two digits per byte, appended in a
      loop. */
  method ToHexPrefixed(bytes: seq<byte>) returns (out: string)
    ensures out == "0x" + HexOf(bytes)
  {
    out := "0x";
    var k := 0;
    while k < |bytes|
      invariant 0 <= k <= |bytes|
      invariant out == "0x" + HexOf(bytes[..k])
    {
      assert bytes[..k + 1][..k] == bytes[..k];
      out := out + HexByte(bytes[k]);
      k := k + 1;
    }
    assert bytes[..k] == bytes;
  }

  /** The printed payload starts with `0x`, has two characters per byte,
      writes byte `i` at positions `2 + 2i` and `3 + 2i`, and its digits
      read back as the payload; an empty payload prints as exactly `0x`. */
  lemma HexPrefixedFacts(bytes: seq<byte>)
    ensures |"0x" + HexOf(bytes)| == 2 + 2 * |bytes|
    ensures ("0x" + HexOf(bytes))[..2] == "0x"
    ensures forall i :: 0 <= i < |bytes| ==>
              ("0x" + HexOf(bytes))[2 + 2 * i] == HexDigit(bytes[i] as int / 16) &&
              ("0x" + HexOf(bytes))[3 + 2 * i] == HexDigit(bytes[i] as int % 16)
    ensures ParseHex(("0x" + HexOf(bytes))[2..]) == Some(bytes)
    ensures bytes == [] ==> "0x" + HexOf(bytes) == "0x"
  {
    HexOfAt(bytes);
    ParseHexOf(bytes);
    assert ("0x" + HexOf(bytes))[2..] == HexOf(bytes);
  }
}
