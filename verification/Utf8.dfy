/** Well-formed UTF-8 octet sequences, production by production as section 4 of RFC 3629 gives them. */
module Utf8 {
  import opened Common

  predicate WellFormed(s: seq<Byte>) {
    Octets(s, 0)
  }

  // UTF8-octets = *( UTF8-char ), read from `i`.
  predicate Octets(s: seq<Byte>, i: nat)
    requires i <= |s|
    decreases |s| - i, 2
  {
    i == |s| || Char(s, i)
  }

  // UTF8-char = UTF8-1 / UTF8-2 / UTF8-3 / UTF8-4, and then the rest of the octets.
  predicate Char(s: seq<Byte>, i: nat)
    requires i < |s|
    decreases |s| - i, 1
  {
    One(s, i) || Two(s, i) || Three(s, i) || Four(s, i)
  }

  predicate One(s: seq<Byte>, i: nat)
    requires i < |s|
    decreases |s| - i, 0
  {
    s[i] <= 0x7F && Octets(s, i + 1)
  }

  predicate Two(s: seq<Byte>, i: nat)
    requires i < |s|
    decreases |s| - i, 0
  {
    i + 2 <= |s| && 0xC2 <= s[i] <= 0xDF && Tail(s[i + 1]) && Octets(s, i + 2)
  }

  predicate Three(s: seq<Byte>, i: nat)
    requires i < |s|
    decreases |s| - i, 0
  {
    i + 3 <= |s| && Lead3(s[i], s[i + 1]) && Tail(s[i + 2]) && Octets(s, i + 3)
  }

  predicate Four(s: seq<Byte>, i: nat)
    requires i < |s|
    decreases |s| - i, 0
  {
    i + 4 <= |s| && Lead4(s[i], s[i + 1]) && Tail(s[i + 2]) && Tail(s[i + 3]) && Octets(s, i + 4)
  }

  predicate Tail(b: Byte) {
    0x80 <= b <= 0xBF
  }

  // The second octet excludes overlong forms and surrogates.
  predicate Lead3(a: Byte, b: Byte) {
    || (a == 0xE0 && 0xA0 <= b <= 0xBF)
    || (0xE1 <= a <= 0xEC && Tail(b))
    || (a == 0xED && 0x80 <= b <= 0x9F)
    || (0xEE <= a <= 0xEF && Tail(b))
  }

  // The second octet excludes overlong forms and code points above 10FFFF.
  predicate Lead4(a: Byte, b: Byte) {
    || (a == 0xF0 && 0x90 <= b <= 0xBF)
    || (0xF1 <= a <= 0xF3 && Tail(b))
    || (a == 0xF4 && 0x80 <= b <= 0x8F)
  }

  // Only the octets from `i` on matter.
  lemma {:induction false} Shift(a: seq<Byte>, b: seq<Byte>, i: nat)
    requires i <= |b|
    ensures Octets(a + b, |a| + i) <==> Octets(b, i)
    decreases |b| - i
  {
    if i < |b| {
      var s, k := a + b, |a| + i;
      forall j | i < j <= |b| ensures Octets(s, |a| + j) <==> Octets(b, j) {
        Shift(a, b, j);
      }
      assert One(s, k) <==> One(b, i);
      assert Two(s, k) <==> Two(b, i);
      assert Three(s, k) <==> Three(b, i);
      assert Four(s, k) <==> Four(b, i);
      assert Char(s, k) <==> Char(b, i);
    }
  }

  lemma {:induction false} Extend(a: seq<Byte>, b: seq<Byte>, i: nat)
    requires i <= |a| && Octets(a, i)
    ensures Octets(a + b, i) <==> Octets(a + b, |a|)
    decreases |a| - i
  {
    if i < |a| {
      var s := a + b;
      assert Char(a, i);
      assert One(a, i) || Two(a, i) || Three(a, i) || Four(a, i);
      var n := if One(a, i) then 1 else if Two(a, i) then 2 else if Three(a, i) then 3 else 4;
      Extend(a, b, i + n);
      assert One(s, i) <==> n == 1 && Octets(s, i + n);
      assert Two(s, i) <==> n == 2 && Octets(s, i + n);
      assert Three(s, i) <==> n == 3 && Octets(s, i + n);
      assert Four(s, i) <==> n == 4 && Octets(s, i + n);
      assert Octets(s, i) <==> Char(s, i);
    }
  }

  /** A well-formed prefix can be cut off or put back without changing the verdict. */
  lemma {:induction false} PrefixCancels(a: seq<Byte>, b: seq<Byte>)
    requires WellFormed(a)
    ensures WellFormed(a + b) <==> WellFormed(b)
  {
    Extend(a, b, 0);
    Shift(a, b, 0);
  }

  lemma {:induction false} DropAsciiFrom(a: seq<Byte>, b: Byte, i: nat)
    requires b <= 0x7F && i <= |a| && Octets(a + [b], i)
    ensures Octets(a, i)
    decreases |a| - i
  {
    if i < |a| {
      var s := a + [b];
      assert Char(s, i);
      assert One(s, i) || Two(s, i) || Three(s, i) || Four(s, i);
      var n := if One(s, i) then 1 else if Two(s, i) then 2 else if Three(s, i) then 3 else 4;
      assert s[|a|] == b;
      DropAsciiFrom(a, b, i + n);
      assert One(a, i) || Two(a, i) || Three(a, i) || Four(a, i);
      assert Char(a, i);
    }
  }

  /** A trailing ASCII octet is a character of its own, so it can be dropped. */
  lemma {:induction false} DropAscii(a: seq<Byte>, b: Byte)
    requires b <= 0x7F && WellFormed(a + [b])
    ensures WellFormed(a)
  {
    DropAsciiFrom(a, b, 0);
  }

  lemma {:induction false} AsciiFrom(s: seq<Byte>, i: nat)
    requires i <= |s| && forall j :: 0 <= j < |s| ==> s[j] <= 0x7F
    ensures Octets(s, i)
    decreases |s| - i
  {
    if i < |s| {
      AsciiFrom(s, i + 1);
      assert One(s, i);
      assert Char(s, i);
    }
  }

  lemma {:induction false} Ascii(s: seq<Byte>)
    requires forall j :: 0 <= j < |s| ==> s[j] <= 0x7F
    ensures WellFormed(s)
  {
    AsciiFrom(s, 0);
  }

  lemma {:induction false} CutAtAsciiFrom(a: seq<Byte>, b: Byte, c: seq<Byte>, i: nat)
    requires b <= 0x7F && i <= |a| && Octets(a + [b] + c, i)
    ensures Octets(a + [b] + c, |a|) && Octets(a, i)
    decreases |a| - i
  {
    if i < |a| {
      var s := a + [b] + c;
      assert Char(s, i);
      assert One(s, i) || Two(s, i) || Three(s, i) || Four(s, i);
      var n := if One(s, i) then 1 else if Two(s, i) then 2 else if Three(s, i) then 3 else 4;
      assert s[|a|] == b;
      CutAtAsciiFrom(a, b, c, i + n);
      assert One(a, i) || Two(a, i) || Three(a, i) || Four(a, i);
      assert Char(a, i);
    }
  }

  /** Text can be cut at any ASCII octet. */
  lemma {:induction false} CutAtAscii(a: seq<Byte>, b: Byte, c: seq<Byte>)
    requires b <= 0x7F && WellFormed(a + [b] + c)
    ensures WellFormed(a) && WellFormed(c)
  {
    CutAtAsciiFrom(a, b, c, 0);
    assert a + [b] + c == a + ([b] + c);
    PrefixCancels(a, [b] + c);
    Ascii([b]);
    PrefixCancels([b], c);
  }
}
