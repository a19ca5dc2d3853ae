/** Which byte strings are UTF-8 (RFC 3629, section 4); a character of a string stands for a byte. */
module Utf8 {

  predicate IsTail(c: char) {
    0x80 <= c as int < 0xC0
  }

  predicate IsSecondOfThree(first: int, c: char) {
    IsTail(c) && (first == 0xE0 ==> c as int >= 0xA0) && (first == 0xED ==> (c as int) < 0xA0)
  }

  predicate IsSecondOfFour(first: int, c: char) {
    IsTail(c) && (first == 0xF0 ==> c as int >= 0x90) && (first == 0xF4 ==> (c as int) < 0x90)
  }

  /** The length of the sequence for one code point that the bytes start with; 0 if they start with none. */
  function SequenceLength(s: string): (n: nat)
    requires s != ""
    ensures n <= |s|
  {
    var first := s[0] as int;
    if first < 0x80 then 1
    else if 0xC2 <= first < 0xE0 && |s| >= 2 && IsTail(s[1]) then 2
    else if 0xE0 <= first < 0xF0 && |s| >= 3 && IsSecondOfThree(first, s[1]) && IsTail(s[2]) then 3
    else if 0xF0 <= first < 0xF5 && |s| >= 4 && IsSecondOfFour(first, s[1]) && IsTail(s[2]) && IsTail(s[3]) then 4
    else 0
  }

  predicate Valid(s: string)
    decreases |s|
  {
    s == "" || (SequenceLength(s) > 0 && Valid(s[SequenceLength(s)..]))
  }

  predicate IsAscii(s: string) {
    forall i | 0 <= i < |s| :: (s[i] as int) < 0x80
  }

  /** No sequence reaches across an ASCII character. */
  lemma {:induction false} ValidAround(a: string, c: char, b: string)
    requires (c as int) < 0x80
    ensures Valid(a + [c] + b) <==> Valid(a) && Valid(b)
    decreases |a|
  {
    var whole := a + [c] + b;
    if a == "" {
      assert whole[1..] == b;
    } else {
      assert SequenceLength(whole) == SequenceLength(a) by {
        SequenceStops(a, c, b);
      }
      var n := SequenceLength(a);
      if n > 0 {
        assert whole[n..] == a[n..] + [c] + b;
        ValidAround(a[n..], c, b);
      }
    }
  }

  lemma {:induction false} SequenceStops(a: string, c: char, b: string)
    requires a != "" && (c as int) < 0x80
    ensures SequenceLength(a + [c] + b) == SequenceLength(a)
  {
    var whole := a + [c] + b;
    assert whole[|a|] == c && !IsTail(c);
    assert forall k | 0 <= k < |a| :: whole[k] == a[k];
  }

  lemma {:induction false} AsciiBefore(p: string, s: string)
    requires IsAscii(p)
    ensures Valid(p + s) <==> Valid(s)
    decreases |p|
  {
    if p == "" {
      assert p + s == s;
    } else {
      assert (p + s)[1..] == p[1..] + s;
      AsciiBefore(p[1..], s);
    }
  }

  lemma {:induction false} AsciiBehind(s: string, p: string)
    requires IsAscii(p)
    ensures Valid(s + p) <==> Valid(s)
  {
    if p == "" {
      assert s + p == s;
    } else {
      assert s + p == s + [p[0]] + p[1..];
      ValidAround(s, p[0], p[1..]);
      AsciiBefore(p[1..], "");
      assert p[1..] + "" == p[1..];
    }
  }
}
