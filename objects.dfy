/** A plain JavaScript object with string property names, as an
    insertion-ordered list of properties: assigning an existing property
    keeps its position, assigning a new one appends it. This is the order
    in which JavaScript enumerates names that are not array indices; index
    names such as "1" are enumerated first, in ascending numeric order,
    which this list does not model. */
module Objects {
  import opened Outcomes
  import opened Seqs

  type Fields<V> = seq<(string, V)>

  /** The property names in insertion order. */
  function Names<V>(o: Fields<V>): (r: seq<string>)
    ensures |r| == |o|
    ensures forall i :: 0 <= i < |o| ==> r[i] == o[i].0
  {
    if |o| == 0 then [] else [o[0].0] + Names(o[1..])
  }

  /** The property values in enumeration order (`values`). */
  function Values<V>(o: Fields<V>): (r: seq<V>)
    ensures |r| == |o|
    ensures forall i :: 0 <= i < |o| ==> r[i] == o[i].1
  {
    if |o| == 0 then [] else [o[0].1] + Values(o[1..])
  }

  /** Property read: the value of the first property with that name. */
  function Get<V>(o: Fields<V>, k: string): (r: Option<V>)
    ensures r.Some? <==> k in Names(o)
    ensures r.Some? ==> (k, r.value) in o
  {
    if |o| == 0 then None
    else if o[0].0 == k then Some(o[0].1)
    else Get(o[1..], k)
  }

  /** Property write `o[k] = v`. */
  function Assign<V>(o: Fields<V>, k: string, v: V): (r: Fields<V>)
    ensures Names(r) == if k in Names(o) then Names(o) else Names(o) + [k]
    ensures forall k' :: Get(r, k') == if k' == k then Some(v) else Get(o, k')
    ensures forall i :: 0 <= i < |r| ==> r[i] == (k, v) || r[i] in o
    ensures NoDup(Names(o)) ==> NoDup(Names(r))
    ensures k !in Names(o) ==> r == o + [(k, v)]
  {
    if |o| == 0 then [(k, v)]
    else if o[0].0 == k then [(k, v)] + o[1..]
    else [o[0]] + Assign(o[1..], k, v)
  }

  /** With distinct names, a property is in the list exactly when reading
      its name gives its value. */
  lemma {:induction false} GetMember<V>(o: Fields<V>, k: string, v: V)
    requires NoDup(Names(o))
    ensures (k, v) in o <==> Get(o, k) == Some(v)
  {
    if |o| > 0 {
      assert NoDup(Names(o[1..])) by {
        assert forall i :: 0 <= i < |o[1..]| ==> Names(o[1..])[i] == Names(o)[i + 1];
      }
      GetMember(o[1..], k, v);
      if o[0].0 == k {
        assert forall i :: 1 <= i < |o| ==> o[i].0 != k by {
          assert forall i :: 1 <= i < |o| ==> Names(o)[i] != Names(o)[0];
        }
        assert (k, v) in o[1..] ==> false;
      }
      assert o == [o[0]] + o[1..];
    }
  }

  /** The names of a list extended by one property. */
  lemma {:induction false} NamesAppend<V>(o: Fields<V>, p: (string, V))
    ensures Names(o + [p]) == Names(o) + [p.0]
  {
  }

  /** A prefix of a list without repeated names has none either. */
  lemma NoDupFront(s: seq<string>, n: nat)
    requires NoDup(s) && n <= |s|
    ensures NoDup(s[..n])
    ensures forall i :: n <= i < |s| ==> s[i] !in s[..n]
  {
  }

  /** One property write per source property, in the source's order: lodash
      `merge` of a flat object, or a `forEach` of `set`s. */
  function AssignAll<V>(o: Fields<V>, src: Fields<V>): (r: Fields<V>)
    ensures forall k :: k !in Names(src) ==> Get(r, k) == Get(o, k)
    ensures NoDup(Names(o)) ==> NoDup(Names(r))
  {
    if |src| == 0 then o
    else
      var p := src[|src| - 1];
      NamesAppend(src[..|src| - 1], p);
      assert src == src[..|src| - 1] + [p];
      Assign(AssignAll(o, src[..|src| - 1]), p.0, p.1)
  }

  /** Writing properties with distinct names makes each of them read back as
      written; every other property reads as before. */
  lemma {:induction false} AssignAllGet<V>(o: Fields<V>, src: Fields<V>, k: string)
    requires NoDup(Names(src))
    ensures Get(AssignAll(o, src), k) == if k in Names(src) then Get(src, k) else Get(o, k)
  {
    if |src| > 0 {
      var front := src[..|src| - 1];
      var p := src[|src| - 1];
      NamesAppend(front, p);
      assert src == front + [p];
      NoDupFront(Names(src), |front|);
      assert Names(front) == Names(src)[..|front|];
      AssignAllGet(o, front, k);
      if k == p.0 {
        assert k !in Names(front);
        GetAppendLast(front, p);
      } else if k in Names(front) {
        GetAppendFront(front, p, k);
      }
    }
  }

  /** Reading the name of a property appended after distinct others. */
  lemma {:induction false} GetAppendLast<V>(o: Fields<V>, p: (string, V))
    requires p.0 !in Names(o)
    ensures Get(o + [p], p.0) == Some(p.1)
  {
    if |o| > 0 {
      assert (o + [p])[1..] == o[1..] + [p];
      assert p.0 != o[0].0 by { assert Names(o)[0] == o[0].0; }
      assert p.0 !in Names(o[1..]) by {
        assert forall i :: 0 <= i < |o[1..]| ==> Names(o[1..])[i] == Names(o)[i + 1];
      }
      GetAppendLast(o[1..], p);
    }
  }

  /** Appending a property does not change reading a name already present. */
  lemma {:induction false} GetAppendFront<V>(o: Fields<V>, p: (string, V), k: string)
    requires k in Names(o)
    ensures Get(o + [p], k) == Get(o, k)
  {
    if o[0].0 != k {
      assert (o + [p])[1..] == o[1..] + [p];
      assert k in Names(o[1..]) by {
        assert Names(o) == [o[0].0] + Names(o[1..]);
      }
      GetAppendFront(o[1..], p, k);
    }
  }

  /** With distinct existing names, the names after the writes are the old
      ones followed by the new ones in order of first write: lodash `merge`
      keeps a property's position and appends new ones. */
  lemma {:induction false} AssignAllNames<V>(o: Fields<V>, src: Fields<V>)
    requires NoDup(Names(o))
    ensures Names(AssignAll(o, src)) == Dedup(Names(o) + Names(src))
  {
    if |src| == 0 {
      assert Names(o) + Names(src) == Names(o);
      DedupOfNoDup(Names(o));
    } else {
      var front := src[..|src| - 1];
      var p := src[|src| - 1];
      NamesAppend(front, p);
      assert src == front + [p];
      AssignAllNames(o, front);
      var all := Names(o) + Names(src);
      var x := AssignAll(o, front);
      assert all == (Names(o) + Names(front)) + [p.0];
      DedupSnoc(Names(o) + Names(front), p.0);
      assert AssignAll(o, src) == Assign(x, p.0, p.1);
    }
  }

  /** lodash `omit(o, names)`: the properties whose name is not listed, in
      their order. */
  function Omit<V>(o: Fields<V>, ks: set<string>): (r: Fields<V>)
    ensures Names(r) == Without(Names(o), ks)
    ensures forall i :: 0 <= i < |r| ==> r[i] in o && r[i].0 !in ks
  {
    if |o| == 0 then []
    else (if o[0].0 in ks then [] else [o[0]]) + Omit(o[1..], ks)
  }

  /** Reading after `omit`: listed names are gone, others read as before. */
  lemma {:induction false} OmitGet<V>(o: Fields<V>, ks: set<string>, k: string)
    ensures Get(Omit(o, ks), k) == if k in ks then None else Get(o, k)
  {
    if |o| > 0 {
      var rest := Omit(o[1..], ks);
      OmitGet(o[1..], ks, k);
      if o[0].0 in ks {
        assert Omit(o, ks) == rest;
      } else {
        assert Omit(o, ks) == [o[0]] + rest;
        assert ([o[0]] + rest)[1..] == rest;
      }
    }
  }
}
