/** Helpers over lists of strings (keys, ids) behind the key-list rules: lodash's `uniq`/`union`
    (first-occurrence de-duplication), `filter` against a list of names,
    and `findIndex`. */
module Seqs {

  /** No value occurs twice. */
  predicate NoDup(s: seq<string>)
  {
    forall i, j :: 0 <= i < j < |s| ==> s[i] != s[j]
  }

  /** The set of values of a sequence. */
  function Elems(s: seq<string>): (r: set<string>)
    ensures forall x :: x in r <==> x in s
  {
    set x | x in s
  }

  /** lodash `findIndex` for equality: the first position of `x`, or -1. */
  function FirstIndex(s: seq<string>, x: string): (i: int)
    ensures -1 <= i < |s|
    ensures i == -1 <==> x !in s
    ensures 0 <= i ==> s[i] == x && x !in s[..i]
  {
    if |s| == 0 then -1
    else if s[0] == x then 0
    else
      var j := FirstIndex(s[1..], x);
      assert s[1..][..j + 1] == s[1..j + 2] by { assert j + 1 <= |s[1..]| || j == -1; }
      if j == -1 then -1 else j + 1
  }

  /** First-occurrence de-duplication, processed left to right as lodash's
      `uniq` and `union` do: a value is kept where it first appears. */
  function Dedup(s: seq<string>): (r: seq<string>)
    ensures NoDup(r)
    ensures forall x :: x in r <==> x in s
    ensures |r| <= |s|
  {
    if |s| == 0 then []
    else
      var d := Dedup(s[..|s| - 1]);
      assert forall x :: x in s <==> x in s[..|s| - 1] || x == s[|s| - 1] by {
        assert s == s[..|s| - 1] + [s[|s| - 1]];
      }
      if s[|s| - 1] in d then d else d + [s[|s| - 1]]
  }

  /** De-duplicating one more value keeps the old result and appends the
      value when it is new. */
  lemma DedupSnoc(s: seq<string>, x: string)
    ensures Dedup(s + [x]) == if x in Dedup(s) then Dedup(s) else Dedup(s) + [x]
  {
    var sx := s + [x];
    assert sx[..|sx| - 1] == s && sx[|sx| - 1] == x;
  }

  /** lodash `filter(s, x => indexOf(xs, x) === -1)`: drop the listed values,
      keep the others in their order. */
  function Without(s: seq<string>, xs: set<string>): (r: seq<string>)
    ensures forall x :: x in r <==> x in s && x !in xs
    ensures |r| <= |s|
  {
    if |s| == 0 then []
    else (if s[0] in xs then [] else [s[0]]) + Without(s[1..], xs)
  }

  /** Filtering distributes over concatenation, so the survivors keep the
      relative order they had. */
  lemma {:induction false} WithoutAppend(a: seq<string>, b: seq<string>, xs: set<string>)
    ensures Without(a + b, xs) == Without(a, xs) + Without(b, xs)
  {
    if |a| == 0 {
      assert a + b == b;
    } else {
      assert (a + b)[0] == a[0];
      assert (a + b)[1..] == a[1..] + b;
      WithoutAppend(a[1..], b, xs);
    }
  }

  /** Filtering out values that do not occur changes nothing. */
  lemma {:induction false} WithoutNone(s: seq<string>, xs: set<string>)
    requires forall x :: x in s ==> x !in xs
    ensures Without(s, xs) == s
  {
    if |s| > 0 {
      assert s[0] in s;
      assert forall x :: x in s[1..] ==> x in s;
      WithoutNone(s[1..], xs);
    }
  }

  /** Filtering keeps values distinct. */
  lemma {:induction false} WithoutNoDup(s: seq<string>, xs: set<string>)
    requires NoDup(s)
    ensures NoDup(Without(s, xs))
  {
    if |s| > 0 {
      assert NoDup(s[1..]);
      WithoutNoDup(s[1..], xs);
      assert s[0] !in s[1..];
    }
  }

  /** Filtering out every value that occurs leaves nothing. */
  lemma {:induction false} WithoutAll(s: seq<string>, xs: set<string>)
    requires forall x :: x in s ==> x in xs
    ensures Without(s, xs) == []
  {
    if |s| > 0 {
      assert s[0] in s;
      assert forall x :: x in s[1..] ==> x in s;
      WithoutAll(s[1..], xs);
    }
  }

  /** Removing a value once it is gone changes nothing more. */
  lemma WithoutTwice(s: seq<string>, xs: set<string>)
    ensures Without(Without(s, xs), xs) == Without(s, xs)
  {
    WithoutNone(Without(s, xs), xs);
  }

  /** A sequence without repeated values is its own de-duplication. */
  lemma {:induction false} DedupOfNoDup(s: seq<string>)
    requires NoDup(s)
    ensures Dedup(s) == s
  {
    if |s| > 0 {
      var p := s[..|s| - 1];
      assert NoDup(p);
      DedupOfNoDup(p);
      assert s[|s| - 1] !in p;
      assert s == p + [s[|s| - 1]];
    }
  }

  /** De-duplicating a concatenation keeps the de-duplicated left part as a
      prefix and appends, in order, the distinct right-part values that the
      left part does not hold. */
  lemma {:induction false} DedupAppend(a: seq<string>, b: seq<string>)
    ensures Dedup(a + b) == Dedup(a) + Dedup(Without(b, Elems(a)))
  {
    if |b| == 0 {
      assert a + b == a;
    } else {
      var b' := b[..|b| - 1];
      var x := b[|b| - 1];
      assert b == b' + [x];
      DedupAppend(a, b');
      if x in a {
        DedupAppendIn(a, b', x);
      } else {
        DedupAppendOut(a, b', x);
      }
    }
  }

  /** One more right-part value that the left part already holds. */
  lemma DedupAppendIn(a: seq<string>, b': seq<string>, x: string)
    requires x in a
    requires Dedup(a + b') == Dedup(a) + Dedup(Without(b', Elems(a)))
    ensures Dedup(a + (b' + [x])) == Dedup(a) + Dedup(Without(b' + [x], Elems(a)))
  {
    assert a + (b' + [x]) == (a + b') + [x];
    DedupSnoc(a + b', x);
    assert x in a + b';
    WithoutAppend(b', [x], Elems(a));
    assert Without([x], Elems(a)) == [];
    assert Without(b', Elems(a)) + [] == Without(b', Elems(a));
  }

  /** One more right-part value that is new to the left part. */
  lemma DedupAppendOut(a: seq<string>, b': seq<string>, x: string)
    requires x !in a
    requires Dedup(a + b') == Dedup(a) + Dedup(Without(b', Elems(a)))
    ensures Dedup(a + (b' + [x])) == Dedup(a) + Dedup(Without(b' + [x], Elems(a)))
  {
    var w := Without(b', Elems(a));
    DedupSnocAfter(a, b', x);
    WithoutSnocKept(b', Elems(a), x);
    DedupSnoc(w, x);
    DedupJoinSnoc(Dedup(a), Dedup(w), x);
  }

  /** `Dedup` of a concatenation extended by one value. */
  lemma DedupSnocAfter(a: seq<string>, b: seq<string>, x: string)
    ensures Dedup(a + (b + [x])) == if x in Dedup(a + b) then Dedup(a + b) else Dedup(a + b) + [x]
  {
    assert a + (b + [x]) == (a + b) + [x];
    DedupSnoc(a + b, x);
  }

  /** A kept value appended to the input is appended to the filtered result. */
  lemma WithoutSnocKept(b: seq<string>, xs: set<string>, x: string)
    requires x !in xs
    ensures Without(b + [x], xs) == Without(b, xs) + [x]
  {
    WithoutAppend(b, [x], xs);
    assert Without([x], xs) == [x];
  }

  /** Appending a value absent from the left part to a two-part list. */
  lemma DedupJoinSnoc(da: seq<string>, dw: seq<string>, x: string)
    requires x !in da
    ensures (if x in da + dw then da + dw else (da + dw) + [x]) ==
      da + (if x in dw then dw else dw + [x])
  {
    if x !in dw {
      AppendAssoc(da, dw, [x]);
    }
  }

  lemma AppendAssoc(a: seq<string>, b: seq<string>, c: seq<string>)
    ensures (a + b) + c == a + (b + c)
  {
  }

  /** De-duplicating twice is the same as once: `uniq(union(uniq(a), b))`
      equals `uniq(a ++ b)`. */
  lemma DedupLeft(a: seq<string>, b: seq<string>)
    ensures Dedup(Dedup(a) + b) == Dedup(a + b)
  {
    DedupAppend(Dedup(a), b);
    DedupAppend(a, b);
    DedupOfNoDup(Dedup(a));
    assert Elems(Dedup(a)) == Elems(a);
  }

  /** Position of a value in a sequence that extends a prefix holding it. */
  lemma {:induction false} FirstIndexPrefix(s: seq<string>, n: nat, x: string)
    requires n <= |s| && x in s[..n]
    ensures FirstIndex(s, x) == FirstIndex(s[..n], x)
  {
    if s[0] != x {
      assert s[1..][..n - 1] == s[..n][1..];
      FirstIndexPrefix(s[1..], n - 1, x);
    }
  }

  /** The de-duplicated values appear in the order of their first
      occurrences. */
  lemma {:induction false} DedupOrder(s: seq<string>, i: int, j: int)
    requires 0 <= i < j < |Dedup(s)|
    ensures FirstIndex(s, Dedup(s)[i]) < FirstIndex(s, Dedup(s)[j])
  {
    var p := s[..|s| - 1];
    var d := Dedup(p);
    var x := s[|s| - 1];
    assert Dedup(s) == if x in d then d else d + [x];
    assert Dedup(s)[i] == d[i];
    if j < |d| {
      assert Dedup(s)[j] == d[j];
      DedupOrder(p, i, j);
      FirstIndexInFront(s, d[i]);
      FirstIndexInFront(s, d[j]);
    } else {
      DedupOrderLast(s, i);
    }
  }

  /** A value held by the de-duplicated front is first found in the front. */
  lemma FirstIndexInFront(s: seq<string>, k: string)
    requires |s| > 0 && k in Dedup(s[..|s| - 1])
    ensures FirstIndex(s, k) == FirstIndex(s[..|s| - 1], k)
  {
    FirstIndexPrefix(s, |s| - 1, k);
  }

  /** A value that is new at the last position comes after every earlier
      one. */
  lemma DedupOrderLast(s: seq<string>, i: int)
    requires |s| > 0 && 0 <= i < |Dedup(s[..|s| - 1])| && s[|s| - 1] !in Dedup(s[..|s| - 1])
    ensures FirstIndex(s, Dedup(s[..|s| - 1])[i]) < FirstIndex(s, s[|s| - 1])
  {
    var p := s[..|s| - 1];
    var d := Dedup(p);
    assert d[i] in d;
    FirstIndexPrefix(s, |s| - 1, d[i]);
    assert s[|s| - 1] !in p;
    assert FirstIndex(s, s[|s| - 1]) == |s| - 1;
  }
}
