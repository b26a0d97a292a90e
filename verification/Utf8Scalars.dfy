/**
 Well-formed octets are exactly the encodings of Unicode scalar values, by the arithmetic of section 3 of RFC 3629.
 */
module Utf8Scalars {
  import opened Common
  import opened Utf8

  predicate Scalar(c: nat) {
    c <= 0xD7FF || 0xE000 <= c <= 0x10FFFF
  }

  function Encode(c: nat): seq<Byte>
    requires Scalar(c)
  {
    if c <= 0x7F then [c]
    else if c <= 0x7FF then [(0xC0 + c / 0x40), (0x80 + c % 0x40)]
    else if c <= 0xFFFF then [(0xE0 + c / 0x1000), (0x80 + c / 0x40 % 0x40), (0x80 + c % 0x40)]
    else [(0xF0 + c / 0x40000), (0x80 + c / 0x1000 % 0x40), (0x80 + c / 0x40 % 0x40),
          (0x80 + c % 0x40)]
  }

  predicate AllScalar(cs: seq<nat>) {
    forall i :: 0 <= i < |cs| ==> Scalar(cs[i])
  }

  function EncodeAll(cs: seq<nat>): seq<Byte>
    requires AllScalar(cs)
  {
    if cs == [] then [] else Encode(cs[0]) + EncodeAll(cs[1..])
  }

  lemma {:induction false} EncodedWellFormed(c: nat)
    requires Scalar(c)
    ensures WellFormed(Encode(c))
  {
    var s := Encode(c);
    assert Octets(s, |s|);
    assert One(s, 0) || Two(s, 0) || Three(s, 0) || Four(s, 0);
    assert Char(s, 0);
  }

  lemma {:induction false} EncodedAllWellFormed(cs: seq<nat>)
    requires AllScalar(cs)
    ensures WellFormed(EncodeAll(cs))
    decreases |cs|
  {
    if cs != [] {
      EncodedWellFormed(cs[0]);
      EncodedAllWellFormed(cs[1..]);
      PrefixCancels(Encode(cs[0]), EncodeAll(cs[1..]));
    }
  }

  lemma {:induction false} DecodeThree(a: nat, b: nat, d: nat)
    requires a < 0x10 && b < 0x40 && d < 0x40
    ensures var c := a * 0x1000 + b * 0x40 + d; c / 0x1000 == a && c / 0x40 % 0x40 == b && c % 0x40 == d
  {
    var c := a * 0x1000 + b * 0x40 + d;
    assert c / 0x40 == a * 0x40 + b;
  }

  lemma {:induction false} DecodeFour(a: nat, b: nat, d: nat, e: nat)
    requires a < 0x8 && b < 0x40 && d < 0x40 && e < 0x40
    ensures var c := a * 0x40000 + b * 0x1000 + d * 0x40 + e;
            c / 0x40000 == a && c / 0x1000 % 0x40 == b && c / 0x40 % 0x40 == d && c % 0x40 == e
  {
    var c := a * 0x40000 + b * 0x1000 + d * 0x40 + e;
    assert c / 0x40 == a * 0x1000 + b * 0x40 + d;
    assert c / 0x1000 == a * 0x40 + b;
  }

  lemma {:induction false} CharTwo(s: seq<Byte>, i: nat) returns (c: nat)
    requires i < |s| && Two(s, i)
    ensures Scalar(c) && Encode(c) == s[i..i + 2]
  {
    var a: int, b: int := s[i], s[i + 1];
    c := (a - 0xC0) * 0x40 + (b - 0x80);
    assert c / 0x40 == a - 0xC0 && c % 0x40 == b - 0x80;
  }

  lemma {:induction false} CharThree(s: seq<Byte>, i: nat) returns (c: nat)
    requires i < |s| && Three(s, i)
    ensures Scalar(c) && Encode(c) == s[i..i + 3]
  {
    var a: int, b: int, d: int := s[i], s[i + 1], s[i + 2];
    DecodeThree(a - 0xE0, b - 0x80, d - 0x80);
    c := (a - 0xE0) * 0x1000 + (b - 0x80) * 0x40 + (d - 0x80);
  }

  lemma {:induction false} CharFour(s: seq<Byte>, i: nat) returns (c: nat)
    requires i < |s| && Four(s, i)
    ensures Scalar(c) && Encode(c) == s[i..i + 4]
  {
    var a: int, b: int, d: int, e: int := s[i], s[i + 1], s[i + 2], s[i + 3];
    DecodeFour(a - 0xF0, b - 0x80, d - 0x80, e - 0x80);
    c := (a - 0xF0) * 0x40000 + (b - 0x80) * 0x1000 + (d - 0x80) * 0x40 + (e - 0x80);
  }

  // The scalar value of one character.
  lemma {:induction false} DecodeChar(s: seq<Byte>, i: nat) returns (c: nat, n: nat)
    requires i < |s| && Char(s, i)
    ensures Scalar(c) && 0 < n && i + n <= |s| && Encode(c) == s[i..i + n] && Octets(s, i + n)
  {
    assert One(s, i) || Two(s, i) || Three(s, i) || Four(s, i);
    if One(s, i) {
      c, n := s[i], 1;
    } else if Two(s, i) {
      c := CharTwo(s, i);
      n := 2;
    } else if Three(s, i) {
      c := CharThree(s, i);
      n := 3;
    } else {
      c := CharFour(s, i);
      n := 4;
    }
  }

  lemma {:induction false} DecodeFrom(s: seq<Byte>, i: nat) returns (cs: seq<nat>)
    requires i <= |s| && Octets(s, i)
    ensures AllScalar(cs) && EncodeAll(cs) == s[i..]
    decreases |s| - i
  {
    cs := [];
    if i < |s| {
      var c, n := DecodeChar(s, i);
      var rest := DecodeFrom(s, i + n);
      cs := [c] + rest;
      assert cs[1..] == rest && s[i..] == s[i..i + n] + s[i + n..];
    }
  }

  /** The grammar accepts exactly the encodings of sequences of scalar values. */
  lemma {:induction false} WellFormedMeaning(s: seq<Byte>)
    ensures WellFormed(s) <==> exists cs :: AllScalar(cs) && EncodeAll(cs) == s
  {
    if WellFormed(s) {
      var cs := DecodeFrom(s, 0);
      assert s[0..] == s;
    }
    if cs :| AllScalar(cs) && EncodeAll(cs) == s {
      EncodedAllWellFormed(cs);
    }
  }
}
