/** UTF-8 as an encoding of code points (RFC 3629, section 3), and that it makes exactly the valid byte strings. */
module Utf8Encoding {
  import opened Utf8

  /** The code points that have an encoding: no surrogates, and none above 10FFFF. */
  predicate IsScalar(n: nat) {
    n < 0xD800 || 0xE000 <= n <= 0x10FFFF
  }

  function Byte(n: nat): char
    requires n < 0x100
  {
    n as char
  }

  function Tail(n: nat): char {
    Byte(0x80 + n % 0x40)
  }

  /** One code point in as few bytes as it needs, six bits in each byte behind the first. */
  function Encode(n: nat): (s: string)
    requires IsScalar(n)
    ensures s != ""
  {
    if n < 0x80 then [Byte(n)]
    else if n < 0x800 then [Byte(0xC0 + n / 0x40), Tail(n)]
    else if n < 0x1_0000 then [Byte(0xE0 + n / 0x1000), Tail(n / 0x40), Tail(n)]
    else [Byte(0xF0 + n / 0x4_0000), Tail(n / 0x1000), Tail(n / 0x40), Tail(n)]
  }

  function EncodeAll(points: seq<nat>): string
    requires forall i | 0 <= i < |points| :: IsScalar(points[i])
  {
    if points == [] then "" else Encode(points[0]) + EncodeAll(points[1..])
  }

  lemma {:induction false} TailIsTail(n: nat)
    ensures IsTail(Tail(n)) && Tail(n) as int == 0x80 + n % 0x40
  {
  }

  lemma {:induction false} SecondOfThree(n: nat)
    requires 0x800 <= n < 0x1_0000 && IsScalar(n)
    ensures n / 0x1000 < 0x10 && IsSecondOfThree(0xE0 + n / 0x1000, Tail(n / 0x40))
  {
    TailIsTail(n / 0x40);
    var high := n / 0x1000;
    assert n / 0x40 % 0x40 == n / 0x40 - high * 0x40;
  }

  lemma {:induction false} SecondOfFour(n: nat)
    requires 0x1_0000 <= n <= 0x10FFFF
    ensures n / 0x4_0000 < 5 && IsSecondOfFour(0xF0 + n / 0x4_0000, Tail(n / 0x1000))
  {
    TailIsTail(n / 0x1000);
    var high := n / 0x4_0000;
    assert n / 0x1000 % 0x40 == n / 0x1000 - high * 0x40;
  }

  lemma {:induction false} EncodingIsSequence(n: nat, rest: string)
    requires IsScalar(n)
    ensures SequenceLength(Encode(n) + rest) == |Encode(n)|
  {
    var s := Encode(n) + rest;
    TailIsTail(n);
    TailIsTail(n / 0x40);
    if n < 0x80 {
      assert s[0] == Byte(n);
    } else if n < 0x800 {
      assert s[0] == Byte(0xC0 + n / 0x40) && s[1] == Tail(n);
    } else if n < 0x1_0000 {
      SecondOfThree(n);
      assert s[0] == Byte(0xE0 + n / 0x1000) && s[1] == Tail(n / 0x40) && s[2] == Tail(n);
    } else {
      SecondOfFour(n);
      assert s[0] == Byte(0xF0 + n / 0x4_0000) && s[1] == Tail(n / 0x1000) && s[2] == Tail(n / 0x40);
      assert s[3] == Tail(n);
    }
  }

  lemma {:induction false} EncodingsAreValid(points: seq<nat>)
    requires forall i | 0 <= i < |points| :: IsScalar(points[i])
    ensures Valid(EncodeAll(points))
  {
    if points != [] {
      var rest := EncodeAll(points[1..]);
      EncodingsAreValid(points[1..]);
      EncodingIsSequence(points[0], rest);
      assert (Encode(points[0]) + rest)[|Encode(points[0])|..] == rest;
    }
  }

  /** The six bits of a byte behind the first. */
  function Bits(c: char): nat {
    c as nat % 0x40
  }

  lemma {:induction false} TailOfBits(c: char)
    requires IsTail(c)
    ensures Tail(Bits(c)) == c
  {
  }

  lemma {:induction false} SixBits(high: nat, low: nat)
    requires low < 0x40
    ensures (high * 0x40 + low) / 0x40 == high && (high * 0x40 + low) % 0x40 == low
  {
  }

  lemma {:induction false} TailOfSum(high: nat, c: char)
    requires IsTail(c)
    ensures (high * 0x40 + Bits(c)) / 0x40 == high && Tail(high * 0x40 + Bits(c)) == c
  {
    SixBits(high, Bits(c));
    TailOfBits(c);
  }

  lemma {:induction false} QuotientInSteps(n: nat)
    ensures n / 0x1000 == n / 0x40 / 0x40 && n / 0x4_0000 == n / 0x1000 / 0x40
  {
  }

  lemma {:induction false} TwoBytes(first: nat, c: char)
    requires 0xC2 <= first < 0xE0 && IsTail(c)
    ensures
      var n := (first - 0xC0) * 0x40 + Bits(c);
      IsScalar(n) && Encode(n) == [Byte(first), c]
  {
    TailOfSum(first - 0xC0, c);
  }

  lemma {:induction false} ThreeBytes(first: nat, c: char, d: char)
    requires 0xE0 <= first < 0xF0 && IsSecondOfThree(first, c) && IsTail(d)
    ensures
      var n := ((first - 0xE0) * 0x40 + Bits(c)) * 0x40 + Bits(d);
      IsScalar(n) && Encode(n) == [Byte(first), c, d]
  {
    var high := (first - 0xE0) * 0x40 + Bits(c);
    TailOfSum(first - 0xE0, c);
    TailOfSum(high, d);
    QuotientInSteps(high * 0x40 + Bits(d));
  }

  lemma {:induction false} FourBytes(first: nat, c: char, d: char, e: char)
    requires 0xF0 <= first < 0xF5 && IsSecondOfFour(first, c) && IsTail(d) && IsTail(e)
    ensures
      var n := (((first - 0xF0) * 0x40 + Bits(c)) * 0x40 + Bits(d)) * 0x40 + Bits(e);
      IsScalar(n) && Encode(n) == [Byte(first), c, d, e]
  {
    var high := (first - 0xF0) * 0x40 + Bits(c);
    TailOfSum(first - 0xF0, c);
    TailOfSum(high, d);
    TailOfSum(high * 0x40 + Bits(d), e);
    QuotientInSteps((high * 0x40 + Bits(d)) * 0x40 + Bits(e));
  }

  lemma {:induction false} SequenceIsEncoding(s: string) returns (n: nat)
    requires s != "" && SequenceLength(s) > 0
    ensures IsScalar(n) && Encode(n) == s[..SequenceLength(s)]
  {
    var first := s[0] as nat;
    assert Byte(first) == s[0];
    match SequenceLength(s)
    case 1 =>
      n := first;
    case 2 =>
      n := (first - 0xC0) * 0x40 + Bits(s[1]);
      TwoBytes(first, s[1]);
    case 3 =>
      n := ((first - 0xE0) * 0x40 + Bits(s[1])) * 0x40 + Bits(s[2]);
      ThreeBytes(first, s[1], s[2]);
    case _ =>
      n := (((first - 0xF0) * 0x40 + Bits(s[1])) * 0x40 + Bits(s[2])) * 0x40 + Bits(s[3]);
      FourBytes(first, s[1], s[2], s[3]);
  }

  lemma {:induction false} ValidIsEncoding(s: string) returns (points: seq<nat>)
    requires Valid(s)
    ensures forall i | 0 <= i < |points| :: IsScalar(points[i])
    ensures EncodeAll(points) == s
    decreases |s|
  {
    if s == "" {
      points := [];
    } else {
      var n := SequenceIsEncoding(s);
      var rest := ValidIsEncoding(s[SequenceLength(s)..]);
      points := [n] + rest;
      assert points[1..] == rest;
      assert s == s[..SequenceLength(s)] + s[SequenceLength(s)..];
    }
  }

  ghost predicate IsEncoding(points: seq<nat>, s: string) {
    (forall i | 0 <= i < |points| :: IsScalar(points[i])) && EncodeAll(points) == s
  }

  /** A byte string is valid if and only if it encodes some code points. */
  lemma {:induction false} ValidExactlyWhenEncoding(s: string)
    ensures Valid(s) <==> exists points :: IsEncoding(points, s)
  {
    if Valid(s) {
      var points := ValidIsEncoding(s);
      assert IsEncoding(points, s);
    }
    if points :| IsEncoding(points, s) {
      EncodingsAreValid(points);
    }
  }
}
