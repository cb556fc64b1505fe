/** The `json` exporter: each project key is a dotted path that lodash `set`
    expands into nested objects, ending in the locale's translation or
    `""`. */
module JsonExport {
  import opened Outcomes
  import opened Seqs
  import opened Strings
  import opened Objects
  import FlatJson

  /** A JSON value as built by the exporter: a string at a leaf, or an object
      with insertion-ordered properties. */
  datatype Json = Leaf(value: string) | Node(fields: Fields<Json>)

  /** The property names lodash `set` walks for a dotted path. */
  function Segments(path: string): seq<string>
  {
    Split(path, '.')
  }

  /** `set(obj, path, v)`: walk the segments, reusing a child that is an
      object and putting a fresh `{}` where the child is missing or a string,
      and write `v` at the last segment. */
  function SetPath(j: Json, p: seq<string>, v: string): (r: Json)
    requires |p| > 0
    ensures r.Node?
    decreases |p|
  {
    var fs := if j.Node? then j.fields else [];
    var child :=
      if |p| == 1 then Leaf(v)
      else SetPath(match Get(fs, p[0]) case Some(c) => c case None => Node([]), p[1..], v);
    Node(Assign(fs, p[0], child))
  }

  /** The `reduce` over the project keys, starting from `{}`. */
  function Export(keys: Fields<string>, pKeys: seq<string>): (r: Json)
    ensures r.Node?
    ensures pKeys == [] ==> r == Node([])
  {
    if |pKeys| == 0 then Node([])
    else
      var k := pKeys[|pKeys| - 1];
      SetPath(Export(keys, pKeys[..|pKeys| - 1]), Segments(k), FlatJson.Lookup(keys, k))
  }

  /** Following property names from a value: what `get(obj, path)` reaches. */
  function Walk(j: Json, p: seq<string>): Option<Json>
    decreases |p|
  {
    if |p| == 0 then Some(j)
    else if j.Leaf? then None
    else
      match Get(j.fields, p[0])
      case None => None
      case Some(c) => Walk(c, p[1..])
  }

  predicate IsPrefix(a: seq<string>, b: seq<string>)
  {
    |a| <= |b| && b[..|a|] == a
  }

  /** Walking the path just set reaches the value written. */
  lemma {:induction false} WalkSet(j: Json, p: seq<string>, v: string)
    requires |p| > 0
    ensures Walk(SetPath(j, p, v), p) == Some(Leaf(v))
    decreases |p|
  {
    if |p| > 1 {
      var fs := if j.Node? then j.fields else [];
      WalkSet(match Get(fs, p[0]) case Some(c) => c case None => Node([]), p[1..], v);
    }
  }

  /** Setting a path leaves every path that branches off it as it was. */
  lemma {:induction false} WalkSetApart(j: Json, p: seq<string>, q: seq<string>, v: string)
    requires |p| > 0 && !IsPrefix(p, q) && !IsPrefix(q, p)
    ensures Walk(SetPath(j, p, v), q) == Walk(j, q)
    decreases |p|
  {
    assert |q| > 0;
    if p[0] == q[0] {
      ApartTails(p, q);
      WalkSetApart(Child(j, p[0]), p[1..], q[1..], v);
      WalkSetDescend(j, p, q, v);
    } else {
      WalkSetOther(j, p, q, v);
    }
  }

  /** The child `set` descends into: the existing object child, or a fresh
      `{}`. */
  function Child(j: Json, name: string): Json
  {
    var fs := if j.Node? then j.fields else [];
    match Get(fs, name) case Some(c) => c case None => Node([])
  }

  /** Two paths that branch apart after a shared first segment still branch
      apart below it. */
  lemma ApartTails(p: seq<string>, q: seq<string>)
    requires |p| > 0 && |q| > 0 && p[0] == q[0] && !IsPrefix(p, q) && !IsPrefix(q, p)
    ensures |p| > 1 && |q| > 1 && !IsPrefix(p[1..], q[1..]) && !IsPrefix(q[1..], p[1..])
  {
    assert p == [p[0]] + p[1..] && q == [q[0]] + q[1..];
  }

  /** Below a shared first segment, walking after a set is walking the
      rewritten child, and walking before it is walking the old child (an
      absent or string child reaches nothing). */
  lemma WalkSetDescend(j: Json, p: seq<string>, q: seq<string>, v: string)
    requires |p| > 1 && |q| > 1 && p[0] == q[0]
    requires Walk(SetPath(Child(j, p[0]), p[1..], v), q[1..]) == Walk(Child(j, p[0]), q[1..])
    ensures Walk(SetPath(j, p, v), q) == Walk(j, q)
  {
    var fs := if j.Node? then j.fields else [];
    WalkSetHead(j, p, q, v);
    if !(j.Node? && Get(fs, p[0]).Some?) {
      assert Walk(Child(j, p[0]), q[1..]) == None;
    }
  }

  /** A path whose first segment differs from the one set reads as before. */
  lemma WalkSetOther(j: Json, p: seq<string>, q: seq<string>, v: string)
    requires |p| > 0 && |q| > 0 && p[0] != q[0]
    ensures Walk(SetPath(j, p, v), q) == Walk(j, q)
  {
  }

  /** Every string reached after setting a path is the value just written,
      at that path, or was reached before. */
  lemma {:induction false} WalkSetLeaf(j: Json, p: seq<string>, q: seq<string>, v: string, w: string)
    requires |p| > 0
    requires Walk(SetPath(j, p, v), q) == Some(Leaf(w))
    ensures (q == p && w == v) || Walk(j, q) == Some(Leaf(w))
    decreases |p|
  {
    assert |q| > 0;
    if q[0] != p[0] {
      WalkSetOther(j, p, q, v);
    } else if |p| == 1 {
      WalkSetLast(j, p, q, v, w);
    } else {
      WalkSetHead(j, p, q, v);
      WalkSetLeaf(Child(j, p[0]), p[1..], q[1..], v, w);
      if q[1..] == p[1..] {
        SameTails(p, q);
      } else {
        WalkChild(j, q, w);
      }
    }
  }

  lemma SameTails(p: seq<string>, q: seq<string>)
    requires |p| > 0 && |q| > 0 && p[0] == q[0] && p[1..] == q[1..]
    ensures p == q
  {
    assert p == [p[0]] + p[1..] && q == [q[0]] + q[1..];
  }

  /** Below a shared first segment, walking after a set is walking the
      rewritten child. */
  lemma WalkSetHead(j: Json, p: seq<string>, q: seq<string>, v: string)
    requires |p| > 1 && |q| > 0 && p[0] == q[0]
    ensures Walk(SetPath(j, p, v), q) == Walk(SetPath(Child(j, p[0]), p[1..], v), q[1..])
  {
  }

  /** A string reached through the child `set` descends into was reached
      from the parent as well (a fresh `{}` holds no string). */
  lemma WalkChild(j: Json, q: seq<string>, w: string)
    requires |q| > 0 && Walk(Child(j, q[0]), q[1..]) == Some(Leaf(w))
    ensures Walk(j, q) == Some(Leaf(w))
  {
    WalkEmpty(q[1..], w);
  }

  /** An empty object holds no string. */
  lemma WalkEmpty(q: seq<string>, w: string)
    ensures Walk(Node([]), q) != Some(Leaf(w))
  {
  }

  /** Setting a one-segment path: the only string reached through that
      segment is the value written there. */
  lemma WalkSetLast(j: Json, p: seq<string>, q: seq<string>, v: string, w: string)
    requires |p| == 1 && |q| > 0 && q[0] == p[0]
    requires Walk(SetPath(j, p, v), q) == Some(Leaf(w))
    ensures q == p && w == v
  {
    assert Walk(SetPath(j, p, v), q) == Walk(Leaf(v), q[1..]);
    assert q == [q[0]] + q[1..];
  }

  /** No key's segment path is a proper prefix of another key's: no key
      names an object that another key descends into. */
  predicate PrefixFree(pKeys: seq<string>)
  {
    forall i, j :: 0 <= i < |pKeys| && 0 <= j < |pKeys| ==>
      Segments(pKeys[i]) == Segments(pKeys[j]) || !IsPrefix(Segments(pKeys[i]), Segments(pKeys[j]))
  }

  /** Distinct keys have distinct segment paths, since re-joining the
      segments with dots gives the key back. */
  lemma SegmentsInjective(k: string, k': string)
    requires Segments(k) == Segments(k')
    ensures k == k'
  {
    JoinSplit(k, '.');
    JoinSplit(k', '.');
  }

  /** A prefix of a prefix-free key list is prefix-free. */
  lemma PrefixFreePrefix(pKeys: seq<string>, n: nat)
    requires PrefixFree(pKeys) && n <= |pKeys|
    ensures PrefixFree(pKeys[..n])
  {
    forall i, j | 0 <= i < n && 0 <= j < n
      ensures Segments(pKeys[..n][i]) == Segments(pKeys[..n][j]) || !IsPrefix(Segments(pKeys[..n][i]), Segments(pKeys[..n][j]))
    {
      assert pKeys[..n][i] == pKeys[i] && pKeys[..n][j] == pKeys[j];
    }
  }

  /** With prefix-free keys, walking any project key's segments through the
      export reaches the key's translation, or `""`. */
  lemma {:induction false} ExportWalk(keys: Fields<string>, pKeys: seq<string>, k: string)
    requires PrefixFree(pKeys) && k in pKeys
    ensures Walk(Export(keys, pKeys), Segments(k)) == Some(Leaf(FlatJson.Lookup(keys, k)))
  {
    var n := |pKeys| - 1;
    var prefix := pKeys[..n];
    var last := pKeys[n];
    var before := Export(keys, prefix);
    var v := FlatJson.Lookup(keys, last);
    assert Export(keys, pKeys) == SetPath(before, Segments(last), v);
    if k == last {
      WalkSet(before, Segments(last), v);
    } else {
      InPrefix(pKeys, k);
      PrefixFreePrefix(pKeys, n);
      ExportWalk(keys, prefix, k);
      PrefixFreeApart(pKeys, k, last);
      WalkSetApart(before, Segments(last), Segments(k), v);
    }
  }

  /** A value of a list other than its last one is in the list's front. */
  lemma InPrefix(s: seq<string>, k: string)
    requires k in s && k != s[|s| - 1]
    ensures k in s[..|s| - 1]
  {
    var a :| 0 <= a < |s| && s[a] == k;
    assert s[..|s| - 1][a] == k;
  }

  /** A value of a list's front is in the list. */
  lemma InFront(s: seq<string>, n: nat, k: string)
    requires n <= |s| && k in s[..n]
    ensures k in s
  {
    var a :| 0 <= a < n && s[..n][a] == k;
    assert s[a] == k;
  }

  /** Two distinct keys of a prefix-free list have paths that branch apart. */
  lemma PrefixFreeApart(pKeys: seq<string>, k: string, k': string)
    requires PrefixFree(pKeys) && k in pKeys && k' in pKeys && k != k'
    ensures !IsPrefix(Segments(k), Segments(k')) && !IsPrefix(Segments(k'), Segments(k))
  {
    if Segments(k) == Segments(k') {
      SegmentsInjective(k, k');
    }
    var a :| 0 <= a < |pKeys| && pKeys[a] == k;
    var b :| 0 <= b < |pKeys| && pKeys[b] == k';
    assert Segments(pKeys[a]) == Segments(pKeys[b]) || !IsPrefix(Segments(pKeys[a]), Segments(pKeys[b]));
    assert Segments(pKeys[b]) == Segments(pKeys[a]) || !IsPrefix(Segments(pKeys[b]), Segments(pKeys[a]));
  }

  /** Every string in the export sits at the segment path of a project key
      and is that key's translation, or `""`. */
  lemma {:induction false} ExportLeaf(keys: Fields<string>, pKeys: seq<string>, q: seq<string>, w: string)
    requires Walk(Export(keys, pKeys), q) == Some(Leaf(w))
    ensures exists k :: k in pKeys && q == Segments(k) && w == FlatJson.Lookup(keys, k)
  {
    if |pKeys| > 0 {
      var n := |pKeys| - 1;
      var last := pKeys[n];
      WalkSetLeaf(Export(keys, pKeys[..n]), Segments(last), q, FlatJson.Lookup(keys, last), w);
      if !(q == Segments(last) && w == FlatJson.Lookup(keys, last)) {
        ExportLeaf(keys, pKeys[..n], q, w);
        var k :| k in pKeys[..n] && q == Segments(k) && w == FlatJson.Lookup(keys, k);
        InFront(pKeys, n, k);
      }
    }
  }

  /** When no key's path is a proper prefix of another's, the nested export
      holds exactly what the flat export holds: a translation sits at a key's
      segment path precisely when the flat export maps that key to it. */
  lemma ExportAgreesWithFlat(keys: Fields<string>, pKeys: seq<string>, k: string, v: string)
    requires PrefixFree(pKeys)
    ensures Walk(Export(keys, pKeys), Segments(k)) == Some(Leaf(v)) <==> (k, v) in FlatJson.Export(keys, pKeys)
  {
    FlatJson.ExportMember(keys, pKeys, k, v);
    if (k, v) in FlatJson.Export(keys, pKeys) {
      ExportWalk(keys, pKeys, k);
    }
    if Walk(Export(keys, pKeys), Segments(k)) == Some(Leaf(v)) {
      ExportLeaf(keys, pKeys, Segments(k), v);
      var k' :| k' in pKeys && Segments(k) == Segments(k') && v == FlatJson.Lookup(keys, k');
      SegmentsInjective(k, k');
    }
  }

  /** The first segment of each project key. */
  function Heads(pKeys: seq<string>): (r: seq<string>)
    ensures |r| == |pKeys|
  {
    seq(|pKeys|, i requires 0 <= i < |pKeys| => Segments(pKeys[i])[0])
  }

  /** The export's top-level properties are exactly the keys' first
      segments, each once, in order of first appearance. */
  lemma {:induction false} ExportTopLevel(keys: Fields<string>, pKeys: seq<string>)
    ensures Names(Export(keys, pKeys).fields) == Dedup(Heads(pKeys))
  {
    if |pKeys| > 0 {
      var n := |pKeys| - 1;
      ExportTopLevel(keys, pKeys[..n]);
      HeadsSnoc(pKeys);
      SetPathNames(Export(keys, pKeys[..n]), Segments(pKeys[n]), FlatJson.Lookup(keys, pKeys[n]));
      DedupSnoc(Heads(pKeys[..n]), Segments(pKeys[n])[0]);
    }
  }

  /** The heads of one more key. */
  lemma HeadsSnoc(pKeys: seq<string>)
    requires |pKeys| > 0
    ensures Heads(pKeys) == Heads(pKeys[..|pKeys| - 1]) + [Segments(pKeys[|pKeys| - 1])[0]]
  {
    var n := |pKeys| - 1;
    assert Heads(pKeys)[..n] == Heads(pKeys[..n]);
  }

  /** Setting a path in an object adds its first segment as a property,
      at the end, unless the object already has it. */
  lemma SetPathNames(j: Json, p: seq<string>, v: string)
    requires |p| > 0 && j.Node?
    ensures Names(SetPath(j, p, v).fields) == if p[0] in Names(j.fields) then Names(j.fields) else Names(j.fields) + [p[0]]
  {
  }

  /** Keys `a` then `a.b`: the string written for `a` is replaced by an
      object holding `b`, so walking `a` no longer reaches a translation. */
  lemma NestedKeyReplacesString()
    ensures Export([("a", "1"), ("a.b", "2")], ["a", "a.b"]) == Node([("a", Node([("b", Leaf("2"))]))])
  {
    var keys := [("a", "1"), ("a.b", "2")];
    var pKeys := ["a", "a.b"];
    assert pKeys[..1] == ["a"] && pKeys[1] == "a.b";
    SegmentsOfSample();
    LookupsOfSample();
    ExportFirstSample();
    SetNestedSample();
    assert Export(keys, pKeys) == SetPath(Export(keys, ["a"]), Segments("a.b"), FlatJson.Lookup(keys, "a.b"));
  }

  lemma SegmentsOfSample()
    ensures Segments("a") == ["a"] && Segments("a.b") == ["a", "b"]
  {
    SplitOne('a');
    SplitOne('b');
    assert Split(".b", '.') == ["", "b"] by { assert ".b"[1..] == "b"; }
    assert "a.b"[1..] == ".b";
  }

  lemma LookupsOfSample()
    ensures FlatJson.Lookup([("a", "1"), ("a.b", "2")], "a") == "1"
    ensures FlatJson.Lookup([("a", "1"), ("a.b", "2")], "a.b") == "2"
  {
  }

  lemma ExportFirstSample()
    ensures Export([("a", "1"), ("a.b", "2")], ["a"]) == Node([("a", Leaf("1"))])
  {
    SegmentsOfSample();
    LookupsOfSample();
    assert ["a"][..0] == [];
  }

  lemma SetNestedSample()
    ensures SetPath(Node([("a", Leaf("1"))]), ["a", "b"], "2") == Node([("a", Node([("b", Leaf("2"))]))])
  {
    assert ["a", "b"][1..] == ["b"];
  }

  /** A one-character name other than a dot is a single segment. */
  lemma SplitOne(c: char)
    requires c != '.'
    ensures Split([c], '.') == [[c]]
  {
    assert [c][1..] == [];
    assert [c] + "" == [c];
  }
}
