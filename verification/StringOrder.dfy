/** Strings in the order of their code points, and sorting of distinct strings. */
module StringOrder {

  predicate Before(a: string, b: string)
    decreases |a|
  {
    if b == "" then false
    else if a == "" then true
    else a[0] < b[0] || (a[0] == b[0] && Before(a[1..], b[1..]))
  }

  /** The strings agree up to a place where the first has the smaller character. */
  predicate SmallerAt(a: string, b: string, i: nat) {
    i < |a| && i < |b| && a[..i] == b[..i] && a[i] < b[i]
  }

  lemma {:induction false} SmallerAtNext(a: string, b: string, i: nat)
    requires a != "" && b != "" && a[0] == b[0]
    ensures SmallerAt(a, b, i + 1) <==> SmallerAt(a[1..], b[1..], i)
  {
    if i < |a| - 1 && i < |b| - 1 {
      assert a[..i + 1] == [a[0]] + a[1..][..i] && b[..i + 1] == [b[0]] + b[1..][..i];
    }
  }

  /** What the order means: a proper prefix comes first, and else the smaller character at the first difference. */
  lemma {:induction false} BeforeMeans(a: string, b: string)
    ensures Before(a, b) <==> a < b || exists i :: SmallerAt(a, b, i)
    decreases |a|
  {
    if a == "" || b == "" {
    } else if a[0] == b[0] {
      BeforeMeans(a[1..], b[1..]);
      assert a < b <==> a[1..] < b[1..] by {
        assert a == [a[0]] + a[1..] && b == [b[0]] + b[1..];
      }
      assert !SmallerAt(a, b, 0);
      forall i: nat ensures SmallerAt(a, b, i + 1) <==> SmallerAt(a[1..], b[1..], i) {
        SmallerAtNext(a, b, i);
      }
      if i: nat :| SmallerAt(a, b, i) {
        assert SmallerAt(a[1..], b[1..], i - 1);
      }
    } else {
      assert a[0] < b[0] <==> SmallerAt(a, b, 0);
      OnlyEmptyPrefix(a, b);
    }
  }

  lemma {:induction false} OnlyEmptyPrefix(a: string, b: string)
    requires a != "" && b != "" && a[0] != b[0]
    ensures forall i: nat | 0 < i <= |a| && i <= |b| :: a[..i] != b[..i]
  {
    forall i: nat | 0 < i <= |a| && i <= |b| ensures a[..i] != b[..i] {
      assert a[..i][0] != b[..i][0];
    }
  }

  lemma {:induction false} BeforeIsTransitive(a: string, b: string, c: string)
    requires Before(a, b) && Before(b, c)
    ensures Before(a, c)
    decreases |a|
  {
    if a != "" && a[0] == b[0] == c[0] {
      BeforeIsTransitive(a[1..], b[1..], c[1..]);
    }
  }

  lemma {:induction false} BeforeIsIrreflexive(a: string)
    ensures !Before(a, a)
    decreases |a|
  {
    if a != "" {
      BeforeIsIrreflexive(a[1..]);
    }
  }

  lemma {:induction false} BeforeIsTotal(a: string, b: string)
    ensures a == b || Before(a, b) || Before(b, a)
    decreases |a|
  {
    if a != "" && b != "" && a[0] == b[0] {
      BeforeIsTotal(a[1..], b[1..]);
      assert a == [a[0]] + a[1..] && b == [b[0]] + b[1..];
    }
  }

  /** Strictly ascending: sorted, and nothing twice. */
  ghost predicate Ascending(keys: seq<string>) {
    forall i, j | 0 <= i < j < |keys| :: Before(keys[i], keys[j])
  }

  /** A key put into ascending keys, after all that come before it. */
  method Insert(key: string, keys: seq<string>) returns (longer: seq<string>)
    requires Ascending(keys) && key !in keys
    ensures Ascending(longer)
    ensures forall k :: k in longer <==> k == key || k in keys
  {
    var i := 0;
    while i < |keys| && Before(keys[i], key)
      invariant 0 <= i <= |keys|
      invariant forall j | 0 <= j < i :: Before(keys[j], key)
    {
      i := i + 1;
    }
    InsertKeepsOrder(key, keys, i);
    longer := keys[..i] + [key] + keys[i..];
    assert keys == keys[..i] + keys[i..];
  }

  lemma {:induction false} InsertKeepsOrder(key: string, keys: seq<string>, i: nat)
    requires Ascending(keys) && key !in keys && i <= |keys|
    requires forall j | 0 <= j < i :: Before(keys[j], key)
    requires i < |keys| ==> !Before(keys[i], key)
    ensures Ascending(keys[..i] + [key] + keys[i..])
  {
    forall j | i <= j < |keys| ensures Before(key, keys[j]) {
      BeforeIsTotal(key, keys[i]);
      assert keys[i] in keys;
      if i < j {
        BeforeIsTransitive(key, keys[i], keys[j]);
      }
    }
  }

  method Sort(keys: set<string>) returns (sorted: seq<string>)
    ensures Ascending(sorted)
    ensures forall k :: k in sorted <==> k in keys
  {
    sorted := [];
    var rest := keys;
    while rest != {}
      invariant rest <= keys && Ascending(sorted)
      invariant forall k :: k in sorted <==> k in keys - rest
      decreases |rest|
    {
      var key :| key in rest;
      sorted := Insert(key, sorted);
      rest := rest - {key};
    }
  }

  /** There is only one way to sort a set. */
  lemma {:induction false} SortedIsUnique(a: seq<string>, b: seq<string>)
    requires Ascending(a) && Ascending(b)
    requires forall k :: k in a <==> k in b
    ensures a == b
    decreases |a|
  {
    assert b == [] || b[0] in b;
    if a == [] {
    } else {
      assert a[0] in b;
      FirstIsSame(a, b);
      TailHasSame(a, b);
      TailHasSame(b, a);
      SortedIsUnique(a[1..], b[1..]);
      assert a == [a[0]] + a[1..] && b == [b[0]] + b[1..];
    }
  }

  lemma {:induction false} FirstIsSame(a: seq<string>, b: seq<string>)
    requires Ascending(a) && Ascending(b) && a != [] && b != []
    requires forall k :: k in a <==> k in b
    ensures a[0] == b[0]
  {
    assert a[0] in b && b[0] in a;
    var i :| 0 <= i < |b| && b[i] == a[0];
    var j :| 0 <= j < |a| && a[j] == b[0];
    if i > 0 && j > 0 {
      assert Before(b[0], a[0]) && Before(a[0], b[0]);
      BeforeIsTransitive(a[0], b[0], a[0]);
      BeforeIsIrreflexive(a[0]);
      assert false;
    }
  }

  lemma {:induction false} TailHasSame(a: seq<string>, b: seq<string>)
    requires Ascending(a) && Ascending(b) && a != [] && b != [] && a[0] == b[0]
    requires forall k :: k in a <==> k in b
    ensures forall k | k in a[1..] :: k in b[1..]
  {
    forall k | k in a[1..] ensures k in b[1..] {
      var i :| 0 < i < |a| && a[i] == k;
      assert Before(a[0], k);
      BeforeIsIrreflexive(k);
      assert k in a;
      var j :| 0 <= j < |b| && b[j] == k;
      assert b[1..][j - 1] == k;
    }
  }
}
