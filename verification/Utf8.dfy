/** UTF-8 as the YAML reader checks it and the scanner writes it (section 3 of RFC 3629). */
module Utf8 {
  import opened Bytes

  /** How many bytes a leading byte announces; 0 if it cannot lead. */
  function Width(b: byte): (w: nat)
    ensures w <= 4
  {
    if b < 0x80 then 1 else if b < 0xC0 then 0 else if b < 0xE0 then 2 else if b < 0xF0 then 3
    else if b < 0xF8 then 4 else 0
  }

  /** The bits of a leading byte that belong to the value. */
  function LeadBits(b: byte): nat {
    if b < 0x80 then b else if b < 0xC0 then 0 else if b < 0xE0 then b % 32 else if b < 0xF0 then b % 16
    else if b < 0xF8 then b % 8 else 0
  }

  function TailBits(b: byte): nat {
    b % 64
  }

  /** Whether `s` begins with all the bytes of a character. */
  predicate Whole(s: seq<byte>) {
    s != [] && 1 <= Width(s[0]) <= |s|
  }

  /** The first `k` bytes of a character taken together. */
  function Bits(s: seq<byte>, k: nat): nat
    requires 1 <= k <= |s|
  {
    if k == 1 then LeadBits(s[0]) else Bits(s, k - 1) * 64 + TailBits(s[k - 1])
  }

  function Value(s: seq<byte>): nat
    requires Whole(s)
  {
    Bits(s, Width(s[0]))
  }

  predicate CodePoint(v: int) {
    0 <= v <= 0x10FFFF && !(0xD800 <= v <= 0xDFFF)
  }

  /** `s` begins with a well-formed character: whole, its trailing bytes of the right form, no
      longer than its value needs, no surrogate, and in range. */
  predicate CharOk(s: seq<byte>) {
    && Whole(s)
    && (forall k :: 1 <= k < Width(s[0]) ==> 0x80 <= s[k] < 0xC0)
    && (Width(s[0]) == 2 ==> Value(s) >= 0x80)
    && (Width(s[0]) == 3 ==> Value(s) >= 0x800)
    && (Width(s[0]) == 4 ==> Value(s) >= 0x10000)
    && CodePoint(Value(s))
  }

  predicate Valid(s: seq<byte>) {
    s == [] || (CharOk(s) && Valid(s[Width(s[0])..]))
  }

  /** The encoding of a code point. */
  function Encode(v: nat): (s: seq<byte>)
    requires CodePoint(v)
  {
    if v <= 0x7F then [v]
    else if v <= 0x7FF then [0xC0 + v / 64, 0x80 + v % 64]
    else if v <= 0xFFFF then [0xE0 + v / 4096, 0x80 + v / 64 % 64, 0x80 + v % 64]
    else [0xF0 + v / 262144, 0x80 + v / 4096 % 64, 0x80 + v / 64 % 64, 0x80 + v % 64]
  }

  function EncodeAll(vs: seq<nat>): seq<byte>
    requires forall i :: 0 <= i < |vs| ==> CodePoint(vs[i])
  {
    if vs == [] then [] else Encode(vs[0]) + EncodeAll(vs[1..])
  }

  lemma BitsOf(s: seq<byte>)
    requires Whole(s)
    ensures Width(s[0]) == 1 ==> Value(s) == LeadBits(s[0])
    ensures Width(s[0]) == 2 ==> Value(s) == LeadBits(s[0]) * 64 + TailBits(s[1])
    ensures Width(s[0]) == 3 ==> Value(s) == (LeadBits(s[0]) * 64 + TailBits(s[1])) * 64 + TailBits(s[2])
    ensures Width(s[0]) == 4 ==>
      Value(s) == ((LeadBits(s[0]) * 64 + TailBits(s[1])) * 64 + TailBits(s[2])) * 64 + TailBits(s[3])
  {
    assert Bits(s, 1) == LeadBits(s[0]);
    if Width(s[0]) >= 2 {
      assert Bits(s, 2) == Bits(s, 1) * 64 + TailBits(s[1]);
    }
    if Width(s[0]) >= 3 {
      assert Bits(s, 3) == Bits(s, 2) * 64 + TailBits(s[2]);
    }
  }

  lemma DivMod64(a: nat, b: nat)
    requires b < 64
    ensures (a * 64 + b) / 64 == a && (a * 64 + b) % 64 == b
  {
  }

  /** The six-bit groups of a value, from the lowest. */
  function Group(v: nat, k: nat): nat {
    if k == 0 then v else Group(v, k - 1) / 64
  }

  lemma Groups(v: nat)
    ensures Group(v, 1) == v / 64 && Group(v, 2) == v / 4096 && Group(v, 3) == v / 262144
  {
    assert Group(v, 0) == v && Group(v, 1) == v / 64 && Group(v, 2) == v / 64 / 64;
  }

  lemma GroupsOf(a: nat, b: nat, c: nat, d: nat)
    requires b < 64 && c < 64 && d < 64
    ensures var v := ((a * 64 + b) * 64 + c) * 64 + d;
      v % 64 == d && v / 64 % 64 == c && v / 4096 % 64 == b && v / 262144 == a
  {
    var v := ((a * 64 + b) * 64 + c) * 64 + d;
    DivMod64((a * 64 + b) * 64 + c, d);
    DivMod64(a * 64 + b, c);
    DivMod64(a, b);
    Groups(v);
    assert Group(v, 0) == v && Group(v, 1) == v / 64 && Group(v, 2) == v / 64 / 64;
  }

  lemma Encode2(a: nat, b: nat)
    requires a < 32 && b < 64 && a * 64 + b >= 0x80
    ensures Encode(a * 64 + b) == [0xC0 + a, 0x80 + b]
  {
    GroupsOf(0, 0, a, b);
  }

  lemma Encode3(a: nat, b: nat, c: nat)
    requires a < 16 && b < 64 && c < 64 && CodePoint((a * 64 + b) * 64 + c) && (a * 64 + b) * 64 + c >= 0x800
    ensures Encode((a * 64 + b) * 64 + c) == [0xE0 + a, 0x80 + b, 0x80 + c]
  {
    GroupsOf(0, a, b, c);
  }

  lemma Encode4(a: nat, b: nat, c: nat, d: nat)
    requires a < 8 && b < 64 && c < 64 && d < 64
    requires CodePoint(((a * 64 + b) * 64 + c) * 64 + d) && ((a * 64 + b) * 64 + c) * 64 + d >= 0x10000
    ensures Encode(((a * 64 + b) * 64 + c) * 64 + d) == [0xF0 + a, 0x80 + b, 0x80 + c, 0x80 + d]
  {
    GroupsOf(a, b, c, d);
  }

  lemma TrailingByte(b: byte)
    requires 0x80 <= b < 0xC0
    ensures 0x80 + TailBits(b) == b && TailBits(b) < 64
  {
  }

  lemma LeadingByte(b: byte)
    requires Width(b) != 0
    ensures b == LeadBits(b) + if b < 0x80 then 0 else if b < 0xE0 then 0xC0 else if b < 0xF0 then 0xE0 else 0xF0
    ensures Width(b) == 2 ==> LeadBits(b) < 32
    ensures Width(b) == 3 ==> LeadBits(b) < 16
    ensures Width(b) == 4 ==> LeadBits(b) < 8
  {
  }

  /** A well-formed character is the encoding of its value. */
  lemma DecodeEncode(s: seq<byte>)
    requires CharOk(s)
    ensures Encode(Value(s)) == s[..Width(s[0])]
  {
    BitsOf(s);
    LeadingByte(s[0]);
    hide Bits, LeadBits, TailBits, Encode;
    var w := Width(s[0]);
    if w >= 2 {
      TrailingByte(s[1]);
    }
    if w >= 3 {
      TrailingByte(s[2]);
    }
    if w >= 4 {
      TrailingByte(s[3]);
    }
    if w == 1 {
      EncodeAscii(s[0]);
    } else if w == 2 {
      Encode2(LeadBits(s[0]), TailBits(s[1]));
    } else if w == 3 {
      Encode3(LeadBits(s[0]), TailBits(s[1]), TailBits(s[2]));
    } else {
      Encode4(LeadBits(s[0]), TailBits(s[1]), TailBits(s[2]), TailBits(s[3]));
    }
  }

  lemma EncodeAscii(v: nat)
    requires v < 0x80
    ensures Encode(v) == [v]
  {
  }

  lemma GroupsJoin(v: nat)
    ensures v == ((v / 262144 * 64 + v / 4096 % 64) * 64 + v / 64 % 64) * 64 + v % 64
  {
    Groups(v);
    assert Group(v, 0) == v && Group(v, 1) == v / 64 && Group(v, 2) == v / 64 / 64;
  }

  lemma Decode2(a: nat, b: nat, tail: seq<byte>)
    requires 2 <= a < 32 && b < 64
    ensures var s := [0xC0 + a, 0x80 + b] + tail; CharOk(s) && Width(s[0]) == 2 && Value(s) == a * 64 + b
  {
    var s: seq<byte> := [0xC0 + a, 0x80 + b] + tail;
    BitsOf(s);
    assert LeadBits(s[0]) == a && TailBits(s[1]) == b;
    hide Bits, LeadBits, TailBits;
  }

  lemma Decode3(a: nat, b: nat, c: nat, tail: seq<byte>)
    requires a < 16 && b < 64 && c < 64 && CodePoint((a * 64 + b) * 64 + c) && (a * 64 + b) * 64 + c >= 0x800
    ensures var s := [0xE0 + a, 0x80 + b, 0x80 + c] + tail;
      CharOk(s) && Width(s[0]) == 3 && Value(s) == (a * 64 + b) * 64 + c
  {
    var s: seq<byte> := [0xE0 + a, 0x80 + b, 0x80 + c] + tail;
    BitsOf(s);
    assert LeadBits(s[0]) == a && TailBits(s[1]) == b && TailBits(s[2]) == c;
    hide Bits, LeadBits, TailBits;
  }

  lemma Decode4(a: nat, b: nat, c: nat, d: nat, tail: seq<byte>)
    requires a < 8 && b < 64 && c < 64 && d < 64
    requires CodePoint(((a * 64 + b) * 64 + c) * 64 + d) && ((a * 64 + b) * 64 + c) * 64 + d >= 0x10000
    ensures var s := [0xF0 + a, 0x80 + b, 0x80 + c, 0x80 + d] + tail;
      CharOk(s) && Width(s[0]) == 4 && Value(s) == ((a * 64 + b) * 64 + c) * 64 + d
  {
    var s: seq<byte> := [0xF0 + a, 0x80 + b, 0x80 + c, 0x80 + d] + tail;
    BitsOf(s);
    assert LeadBits(s[0]) == a && TailBits(s[1]) == b && TailBits(s[2]) == c && TailBits(s[3]) == d;
    hide Bits, LeadBits, TailBits;
  }

  /** And the encoding of a code point is a well-formed character with that value. */
  lemma EncodeDecode(v: nat, tail: seq<byte>)
    requires CodePoint(v)
    ensures var s := Encode(v) + tail;
      CharOk(s) && Width(s[0]) == |Encode(v)| && Value(s) == v && s[|Encode(v)|..] == tail
  {
    GroupsJoin(v);
    hide CharOk, Value;
    if v <= 0x7F {
      DecodeAscii(v, tail);
    } else if v <= 0x7FF {
      assert v / 4096 == 0 && v / 262144 == 0 && v / 64 < 32;
      Decode2(v / 64, v % 64, tail);
    } else if v <= 0xFFFF {
      assert v / 262144 == 0 && v / 4096 < 16;
      Decode3(v / 4096, v / 64 % 64, v % 64, tail);
    } else {
      Decode4(v / 262144, v / 4096 % 64, v / 64 % 64, v % 64, tail);
    }
  }

  lemma DecodeAscii(v: nat, tail: seq<byte>)
    requires v < 0x80
    ensures var s := [v] + tail; CharOk(s) && Width(s[0]) == 1 && Value(s) == v
  {
  }

  /** The valid strings are exactly the encodings of code points. */
  lemma {:induction false} ValidDecodes(s: seq<byte>) returns (vs: seq<nat>)
    requires Valid(s)
    ensures (forall i :: 0 <= i < |vs| ==> CodePoint(vs[i])) && EncodeAll(vs) == s
  {
    hide CharOk, Value, Width, Encode, CodePoint;
    vs := [];
    if s != [] {
      WidthOk(s);
      ValueOk(s);
      DecodeEncode(s);
      var w := Width(s[0]);
      var rest := ValidDecodes(s[w..]);
      vs := [Value(s)] + rest;
      assert vs[1..] == rest && s == s[..w] + s[w..];
    }
  }

  lemma {:induction false} EncodedValid(vs: seq<nat>)
    requires forall i :: 0 <= i < |vs| ==> CodePoint(vs[i])
    ensures Valid(EncodeAll(vs))
  {
    if vs != [] {
      EncodedValid(vs[1..]);
      EncodeDecode(vs[0], EncodeAll(vs[1..]));
    }
  }

  /** What follows a character does not matter to it. */
  lemma CharAlone(s: seq<byte>, tail: seq<byte>)
    requires CharOk(s)
    ensures var c := s[..Width(s[0])]; CharOk(c + tail) && Value(c + tail) == Value(s) && c[0] == s[0]
  {
    var c := s[..Width(s[0])];
    BitsOf(s);
    BitsOf(c + tail);
    hide Bits;
  }

  lemma WidthOk(s: seq<byte>)
    requires CharOk(s)
    ensures 1 <= Width(s[0]) <= |s|
  {
  }

  lemma ValueOk(s: seq<byte>)
    requires CharOk(s)
    ensures CodePoint(Value(s))
  {
  }
}
