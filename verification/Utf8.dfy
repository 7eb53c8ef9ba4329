/** UTF-8 as `std::str` uses it: the encoder, and the strict decoder behind `str::from_utf8`. */
module Utf8 {
  import opened Prelude

  type byte = n: int | 0 <= n < 256

  function Width(c: char): nat {
    if c as int < 0x80 then 1 else if c as int < 0x800 then 2 else if c as int < 0x10000 then 3 else 4
  }

  /** `str::len`: bytes, not characters. */
  function ByteLen(s: string): nat {
    if s == "" then 0 else ByteLen(s[..|s| - 1]) + Width(s[|s| - 1])
  }

  function EncodeChar(c: char): (r: seq<byte>)
    ensures |r| == Width(c)
    ensures c as int != 0 ==> forall i :: 0 <= i < |r| ==> r[i] != 0
  {
    var n := c as int;
    if n < 0x80 then [n]
    else if n < 0x800 then [0xC0 + n / 64, 0x80 + n % 64]
    else if n < 0x10000 then [0xE0 + n / 64 / 64, 0x80 + n / 64 % 64, 0x80 + n % 64]
    else [0xF0 + n / 64 / 64 / 64, 0x80 + n / 64 / 64 % 64, 0x80 + n / 64 % 64, 0x80 + n % 64]
  }

  function Encode(s: string): seq<byte> {
    if s == "" then [] else EncodeChar(s[0]) + Encode(s[1..])
  }

  predicate Continues(bs: seq<byte>, n: nat) {
    n <= |bs| && forall i :: 1 <= i < n ==> 0x80 <= bs[i] < 0xC0
  }

  predicate IsScalar(n: int) {
    0 <= n < 0xD800 || 0xE000 <= n < 0x110000
  }

  /** Six more bits from a continuation byte. */
  function Join(high: int, low: byte): int {
    high * 64 + (low as int - 0x80)
  }

  /** The first character of `bs` and its width, refusing overlong forms, surrogates and stray bytes. */
  function DecodeChar(bs: seq<byte>): (r: Option<(char, nat)>)
    ensures r.Some? ==> 1 <= r.value.1 <= |bs|
  {
    if bs == [] then None
    else if bs[0] < 0x80 then Some((bs[0] as char, 1))
    else if 0xC0 <= bs[0] < 0xE0 && Continues(bs, 2) then
      var n := Join(bs[0] as int - 0xC0, bs[1]);
      if 0x80 <= n < 0x800 then Some((n as char, 2)) else None
    else if 0xE0 <= bs[0] < 0xF0 && Continues(bs, 3) then
      var n := Join(Join(bs[0] as int - 0xE0, bs[1]), bs[2]);
      if 0x800 <= n < 0x10000 && IsScalar(n) then Some((n as char, 3)) else None
    else if 0xF0 <= bs[0] < 0xF8 && Continues(bs, 4) then
      var n := Join(Join(Join(bs[0] as int - 0xF0, bs[1]), bs[2]), bs[3]);
      if 0x10000 <= n && IsScalar(n) then Some((n as char, 4)) else None
    else None
  }

  function Decode(bs: seq<byte>): Option<string> {
    if bs == [] then Some("") else
      var first := DecodeChar(bs);
      if first.None? then None else
        var rest := Decode(bs[first.value.1..]);
        if rest.None? then None else Some([first.value.0] + rest.value)
  }

  lemma EncodedCharDecodes(c: char, rest: seq<byte>)
    ensures DecodeChar(EncodeChar(c) + rest) == Some((c, Width(c)))
  {
    var n := c as int;
    var bs := EncodeChar(c) + rest;
    assert Continues(bs, Width(c));
    Split(n);
    Split(n / 64);
    Split(n / 64 / 64);
  }

  lemma Split(n: nat)
    ensures n == Join(n / 64, 0x80 + n % 64)
  {
  }

  lemma JoinSplits(high: int, low: byte)
    requires 0x80 <= low < 0xC0
    ensures Join(high, low) / 64 == high && Join(high, low) % 64 == low - 0x80
  {
  }

  lemma DecodedCharEncodes(bs: seq<byte>)
    requires DecodeChar(bs).Some?
    ensures var (c, n) := DecodeChar(bs).value; n == Width(c) && bs[..n] == EncodeChar(c)
  {
    var (c, w) := DecodeChar(bs).value;
    if w == 2 {
      JoinSplits(bs[0] as int - 0xC0, bs[1]);
    } else if w == 3 {
      JoinSplits(bs[0] as int - 0xE0, bs[1]);
      JoinSplits(Join(bs[0] as int - 0xE0, bs[1]), bs[2]);
    } else if w == 4 {
      var top := Join(bs[0] as int - 0xF0, bs[1]);
      JoinSplits(bs[0] as int - 0xF0, bs[1]);
      JoinSplits(top, bs[2]);
      JoinSplits(Join(top, bs[2]), bs[3]);
    }
  }

  /** The decoder accepts exactly the encodings, and returns what was encoded. */
  lemma {:induction false} DecodeInvertsEncode(bs: seq<byte>, s: string)
    ensures Decode(bs) == Some(s) <==> bs == Encode(s)
    decreases |bs|
  {
    if bs == [] || s == "" {
    } else {
      EncodedCharDecodes(s[0], Encode(s[1..]));
      if DecodeChar(bs).Some? {
        var (c, n) := DecodeChar(bs).value;
        DecodedCharEncodes(bs);
        assert bs == EncodeChar(c) + bs[n..];
        DecodeInvertsEncode(bs[n..], s[1..]);
        assert s == [s[0]] + s[1..];
        if c == s[0] {
          assert Encode(s)[..n] == EncodeChar(c) && Encode(s)[n..] == Encode(s[1..]);
        }
      }
    }
  }

  lemma {:induction false} EncodeIsNulFree(s: string)
    requires forall i :: 0 <= i < |s| ==> s[i] as int != 0
    ensures forall i :: 0 <= i < |Encode(s)| ==> Encode(s)[i] != 0
    ensures s != "" ==> Encode(s) != []
  {
    if s == "" {
    } else {
      EncodeIsNulFree(s[1..]);
    }
  }

  lemma {:induction false} EncodeAppend(s: string, c: char)
    ensures Encode(s + [c]) == Encode(s) + EncodeChar(c)
  {
    if s == "" {
      assert s + [c] == [c] && [c][1..] == "";
    } else {
      EncodeAppend(s[1..], c);
      assert (s + [c])[1..] == s[1..] + [c];
    }
  }

  /** `str::len` is the length of the encoding. */
  lemma {:induction false} ByteLenIsEncoded(s: string)
    ensures ByteLen(s) == |Encode(s)|
  {
    if s == "" {
    } else {
      ByteLenIsEncoded(s[..|s| - 1]);
      EncodeAppend(s[..|s| - 1], s[|s| - 1]);
      assert s == s[..|s| - 1] + [s[|s| - 1]];
    }
  }

  /** The bit layout of RFC 3629, section 3: the prefixes of each width, and one character of each. */
  lemma EncodedLayout(c: char)
    ensures var r, n := EncodeChar(c), c as int;
            && (|r| == 1 ==> n < 0x80 && r[0] == n)
            && (|r| == 2 ==> 0x80 <= n < 0x800 && 0xC2 <= r[0] < 0xE0)
            && (|r| == 3 ==> 0x800 <= n < 0x10000 && 0xE0 <= r[0] < 0xF0)
            && (|r| == 4 ==> 0x10000 <= n && 0xF0 <= r[0] < 0xF5)
            && 1 <= |r| <= 4 && (forall i :: 1 <= i < |r| ==> 0x80 <= r[i] < 0xC0)
            && (|r| > 1 ==> n % 64 == r[|r| - 1] - 0x80)
  {
  }

  lemma EuroSign(c: char)
    requires c as int == 0x20AC
    ensures EncodeChar(c) == [0xE2, 0x82, 0xAC]
  {
  }
}
