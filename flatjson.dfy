/** The `flatjson` exporter: one property per project key, named by the
    literal dotted key, valued by the locale's translation or `""`. */
module FlatJson {
  import opened Outcomes
  import opened Seqs
  import opened Objects

  /** The exported object; a pure function of its inputs, so neither the
      locale's map nor the key list is changed by exporting. */
  type Entries = Fields<string>

  /** `get(keys, path, '')` on a locale's translations, an object whose
      property names are the literal dotted keys: the translation, or `""`
      when the locale has none for that key. */
  function Lookup(keys: Fields<string>, path: string): (r: string)
    ensures path in Names(keys) ==> (path, r) in keys
    ensures path !in Names(keys) ==> r == ""
  {
    match Get(keys, path)
    case Some(v) => v
    case None => ""
  }

  /** The `reduce` over the project keys: each step writes the key's
      translation into (a clone of) the accumulated object. */
  function Export(keys: Fields<string>, pKeys: seq<string>): (r: Entries)
    ensures Names(r) == Dedup(pKeys)
    ensures forall i :: 0 <= i < |r| ==> r[i].1 == Lookup(keys, r[i].0)
    ensures pKeys == [] ==> r == []
  {
    if |pKeys| == 0 then []
    else
      var k := pKeys[|pKeys| - 1];
      Assign(Export(keys, pKeys[..|pKeys| - 1]), k, Lookup(keys, k))
  }

  /** Reading a path from the export: present exactly for the project keys,
      holding the translation or `""`; locale entries outside the key list
      are dropped. */
  lemma {:induction false} ExportGet(keys: Fields<string>, pKeys: seq<string>, path: string)
    ensures Get(Export(keys, pKeys), path) ==
            if path in pKeys then Some(Lookup(keys, path)) else None
  {
    var r := Export(keys, pKeys);
    if path in pKeys {
      assert path in Names(r);
      var v := Get(r, path).value;
      assert (path, v) in r;
    }
  }

  /** With distinct names, an entry is in the export exactly when its path
      is a project key and its value is that key's translation. */
  lemma ExportMember(keys: Fields<string>, pKeys: seq<string>, path: string, v: string)
    ensures (path, v) in Export(keys, pKeys) <==> path in pKeys && v == Lookup(keys, path)
  {
    GetMember(Export(keys, pKeys), path, v);
    ExportGet(keys, pKeys, path);
  }

  /** Entries come in the order of the keys' first occurrences in the
      project key list; a repeated key keeps its first position. */
  lemma ExportOrder(keys: Fields<string>, pKeys: seq<string>, i: int, j: int)
    requires 0 <= i < j < |Export(keys, pKeys)|
    ensures FirstIndex(pKeys, Export(keys, pKeys)[i].0) < FirstIndex(pKeys, Export(keys, pKeys)[j].0)
  {
    var r := Export(keys, pKeys);
    assert r[i].0 == Dedup(pKeys)[i] && r[j].0 == Dedup(pKeys)[j];
    DedupOrder(pKeys, i, j);
  }

  /** No project key and no translation holds a line break, so a rendering
      that puts one entry per line can be split back into its lines. */
  predicate SingleLine(keys: Fields<string>, pKeys: seq<string>)
  {
    (forall k :: k in pKeys ==> '\n' !in k) && (forall p :: p in keys ==> '\n' !in p.1)
  }

  /** On single-line inputs every name and value of the export is single-line,
      and so is every key's translation. */
  lemma ExportSingleLine(keys: Fields<string>, pKeys: seq<string>)
    requires SingleLine(keys, pKeys)
    ensures forall i :: 0 <= i < |Export(keys, pKeys)| ==>
      '\n' !in Export(keys, pKeys)[i].0 && '\n' !in Export(keys, pKeys)[i].1
    ensures forall k :: '\n' !in Lookup(keys, k)
  {
    var r := Export(keys, pKeys);
    forall i | 0 <= i < |r|
      ensures '\n' !in r[i].0 && '\n' !in r[i].1
    {
      assert r[i].0 == Names(r)[i];
      assert r[i].0 in pKeys;
    }
  }
}
