/**
  The text of a session id: two 64-bit words printed as sixteen lower-case
  hexadecimal digits each.
 */
module SessionIds {
  import opened MachineInts

  /** The two words one attempt takes from the generator, in the order they are printed. */
  datatype Draw = Draw(high: Word, low: Word)

  function Digit(d: nat): char
    requires d < 16
  {
    "0123456789abcdef"[d]
  }

  function DigitValue(c: char): nat {
    if '0' <= c <= '9' then c as nat - '0' as nat
    else if 'a' <= c <= 'f' then c as nat - 'a' as nat + 10
    else 0
  }

  function Pow16(width: nat): nat {
    if width == 0 then 1 else 16 * Pow16(width - 1)
  }

  /** The last `width` hexadecimal digits of `w`, with leading zeros. */
  function Hex(w: nat, width: nat): string {
    if width == 0 then "" else Hex(w / 16, width - 1) + [Digit(w % 16)]
  }

  function Unhex(text: string): nat {
    if text == "" then 0
    else Unhex(text[..|text| - 1]) * 16 + DigitValue(text[|text| - 1])
  }

  lemma {:induction false} DigitRoundTrip(d: nat)
    requires d < 16
    ensures DigitValue(Digit(d)) == d
  {
  }

  /** Nothing is lost: the digits of a number that fits give the number back. */
  lemma {:induction false} HexRoundTrip(w: nat, width: nat)
    requires w < Pow16(width)
    ensures |Hex(w, width)| == width
    ensures Unhex(Hex(w, width)) == w
  {
    if width == 0 {
    } else {
      HexRoundTrip(w / 16, width - 1);
      DigitRoundTrip(w % 16);
      var text := Hex(w, width);
      assert text[..|text| - 1] == Hex(w / 16, width - 1);
    }
  }

  lemma {:induction false} WordFitsSixteenDigits()
    ensures Pow16(16) == WORD
  {
    assert Pow16(4) == 0x1_0000;
    assert Pow16(8) == 0x1_0000_0000;
    assert Pow16(12) == 0x1_0000_0000_0000;
  }

  function IdText(draw: Draw): string {
    Hex(draw.high, 16) + Hex(draw.low, 16)
  }

  lemma {:induction false} IdTextLength(draw: Draw)
    ensures |IdText(draw)| == 32
  {
    WordFitsSixteenDigits();
    HexRoundTrip(draw.high, 16);
    HexRoundTrip(draw.low, 16);
  }

  /** The two words can be read back, the first word first; all characters are lower-case hexadecimal digits. */
  lemma {:induction false} IdTextReadsBack(draw: Draw)
    ensures |IdText(draw)| == 32
    ensures Unhex(IdText(draw)[..16]) == draw.high && Unhex(IdText(draw)[16..]) == draw.low
    ensures forall i | 0 <= i < 32 :: '0' <= IdText(draw)[i] <= '9' || 'a' <= IdText(draw)[i] <= 'f'
  {
    WordFitsSixteenDigits();
    HexRoundTrip(draw.high, 16);
    HexRoundTrip(draw.low, 16);
    HexIsLowerCase(draw.high, 16);
    HexIsLowerCase(draw.low, 16);
    assert IdText(draw)[..16] == Hex(draw.high, 16) && IdText(draw)[16..] == Hex(draw.low, 16);
  }

  lemma {:induction false} HexIsLowerCase(w: nat, width: nat)
    ensures forall i | 0 <= i < |Hex(w, width)| :: '0' <= Hex(w, width)[i] <= '9' || 'a' <= Hex(w, width)[i] <= 'f'
  {
    if width > 0 {
      HexIsLowerCase(w / 16, width - 1);
      DigitIsLowerCase(w % 16);
    }
  }

  lemma {:induction false} DigitIsLowerCase(d: nat)
    requires d < 16
    ensures '0' <= Digit(d) <= '9' || 'a' <= Digit(d) <= 'f'
  {
  }

  /** Different pairs of words never print as the same id. */
  lemma {:induction false} IdTextInjective(a: Draw, b: Draw)
    requires IdText(a) == IdText(b)
    ensures a == b
  {
    WordFitsSixteenDigits();
    HexRoundTrip(a.high, 16);
    HexRoundTrip(a.low, 16);
    HexRoundTrip(b.high, 16);
    HexRoundTrip(b.low, 16);
    assert IdText(a)[..16] == Hex(a.high, 16) && IdText(a)[16..] == Hex(a.low, 16);
    assert IdText(b)[..16] == Hex(b.high, 16) && IdText(b)[16..] == Hex(b.low, 16);
  }

  /** The id text of each attempt, when attempt `k` draws the pair `draws(k)`. */
  ghost predicate PrintsDraws(texts: nat -> string, draws: nat -> Draw) {
    forall k: nat {:trigger draws(k)} :: texts(k) == IdText(draws(k))
  }

  // ---------------------------------------------------------------------
  // The fresh-id loop, over the texts its attempts produce
  // ---------------------------------------------------------------------

  ghost predicate SomeFresh(texts: nat -> string, from: nat, held: set<string>) {
    exists k: nat :: from <= k && texts(k) !in held
  }

  /** Whatever fewer than `bound` ids are held, and wherever the generator stands, some later text is fresh. */
  ghost predicate Productive(texts: nat -> string, bound: nat) {
    forall from: nat, held: set<string> :: |held| < bound ==> SomeFresh(texts, from, held)
  }

  ghost predicate FirstFreshIs(texts: nat -> string, from: nat, held: set<string>, k: nat) {
    && from <= k
    && texts(k) !in held
    && forall j: nat | from <= j < k :: texts(j) in held
  }

  function FirstFreshUpTo(texts: nat -> string, from: nat, held: set<string>, limit: nat): (k: nat)
    requires from <= limit && texts(limit) !in held
    ensures FirstFreshIs(texts, from, held, k) && k <= limit
    decreases limit - from
  {
    if texts(from) !in held then from
    else FirstFreshUpTo(texts, from + 1, held, limit)
  }

  /** The attempt at which the loop stops. */
  ghost function FirstFresh(texts: nat -> string, from: nat, held: set<string>): (k: nat)
    requires SomeFresh(texts, from, held)
    ensures FirstFreshIs(texts, from, held, k)
  {
    var limit: nat :| from <= limit && texts(limit) !in held;
    FirstFreshUpTo(texts, from, held, limit)
  }

  ghost predicate DistinctBetween(texts: nat -> string, from: nat, to: nat) {
    forall i: nat, j: nat | from <= i < j < to :: texts(i) != texts(j)
  }

  /** Pairs that differ print as texts that differ. */
  lemma {:induction false} DistinctDrawsPrintDistinctTexts(texts: nat -> string, draws: nat -> Draw, from: nat, to: nat)
    requires PrintsDraws(texts, draws)
    requires forall i: nat, j: nat | from <= i < j < to :: draws(i) != draws(j)
    ensures DistinctBetween(texts, from, to)
  {
    forall i: nat, j: nat | from <= i < j < to ensures texts(i) != texts(j) {
      assert texts(i) == IdText(draws(i)) && texts(j) == IdText(draws(j)) && draws(i) != draws(j);
      if texts(i) == texts(j) {
        IdTextInjective(draws(i), draws(j));
      }
    }
  }

  function Window(texts: nat -> string, from: nat, count: nat): set<string> {
    if count == 0 then {} else Window(texts, from, count - 1) + {texts(from + count - 1)}
  }

  lemma {:induction false} WindowTextIsDrawn(texts: nat -> string, from: nat, count: nat, text: string) returns (k: nat)
    requires text in Window(texts, from, count)
    ensures from <= k < from + count && text == texts(k)
  {
    if text == texts(from + count - 1) {
      k := from + count - 1;
    } else {
      k := WindowTextIsDrawn(texts, from, count - 1, text);
    }
  }

  lemma {:induction false} WindowIsAsLargeAsItsCount(texts: nat -> string, from: nat, count: nat)
    requires DistinctBetween(texts, from, from + count)
    ensures |Window(texts, from, count)| == count
  {
    if count == 0 {
    } else {
      WindowIsAsLargeAsItsCount(texts, from, count - 1);
      if texts(from + count - 1) in Window(texts, from, count - 1) {
        var k := WindowTextIsDrawn(texts, from, count - 1, texts(from + count - 1));
      }
    }
  }

  lemma {:induction false} SubsetIsNoLarger<T>(a: set<T>, b: set<T>)
    requires a <= b
    ensures |a| <= |b|
  {
    assert b == a + (b - a);
  }

  /**
    Pigeonhole: the loop makes at most |held| + 1 attempts when the next |held| + 1
    texts are pairwise distinct.
   */
  lemma {:induction false} FreshLoopBound(texts: nat -> string, from: nat, held: set<string>)
    requires DistinctBetween(texts, from, from + |held| + 1)
    ensures SomeFresh(texts, from, held)
    ensures FirstFresh(texts, from, held) <= from + |held|
  {
    var window := Window(texts, from, |held| + 1);
    WindowIsAsLargeAsItsCount(texts, from, |held| + 1);
    if window <= held {
      SubsetIsNoLarger(window, held);
    } else {
      var text :| text in window && text !in held;
      var k := WindowTextIsDrawn(texts, from, |held| + 1, text);
      assert texts(k) !in held;
      assert SomeFresh(texts, from, held);
    }
  }

  /** A generator that never repeats within any `bound` consecutive attempts keeps the loop terminating. */
  lemma {:induction false} DistinctWindowsAreProductive(texts: nat -> string, bound: nat)
    requires forall i: nat, j: nat :: i < j < i + bound ==> texts(i) != texts(j)
    ensures Productive(texts, bound)
  {
    forall from: nat, held: set<string> | |held| < bound
      ensures SomeFresh(texts, from, held)
    {
      FreshLoopBound(texts, from, held);
    }
  }

  /** The server holds one session at most, so its loop always stops at the first attempt. */
  lemma {:induction false} OneSessionNeedsOneAttempt(texts: nat -> string, from: nat, held: set<string>)
    requires |held| < 1
    ensures Productive(texts, 1)
    ensures SomeFresh(texts, from, held) && FirstFresh(texts, from, held) == from
  {
    DistinctWindowsAreProductive(texts, 1);
    assert held == {};
    assert texts(from) !in held;
  }

  lemma {:induction false} HexHasNoNul(w: nat, width: nat)
    ensures forall i | 0 <= i < |Hex(w, width)| :: Hex(w, width)[i] != '\0'
  {
    if width > 0 {
      HexHasNoNul(w / 16, width - 1);
    }
  }
}
