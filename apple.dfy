/** The `apple` exporter: one `"key" = "translation"` line per project key,
    taken straight from the key list rather than from the flat export. */
module AppleExport {
  import opened Strings
  import opened Objects
  import FlatJson

  /** `join(['"key"', '"value"'], ' = ')`: no trailing `;`, nothing escaped. */
  function Line(key: string, value: string): string
  {
    "\"" + key + "\" = \"" + value + "\""
  }

  /** One line per element of the key list, in its order. */
  function Lines(keys: Fields<string>, pKeys: seq<string>): (r: seq<string>)
    ensures |r| == |pKeys|
    ensures forall i :: 0 <= i < |pKeys| ==> r[i] == Line(pKeys[i], FlatJson.Lookup(keys, pKeys[i]))
  {
    seq(|pKeys|, i requires 0 <= i < |pKeys| => Line(pKeys[i], FlatJson.Lookup(keys, pKeys[i])))
  }

  function Export(keys: Fields<string>, pKeys: seq<string>): string
  {
    Join(Lines(keys, pKeys), "\n")
  }

  /** No project keys: the empty string. */
  lemma ExportEmpty(keys: Fields<string>)
    ensures Export(keys, []) == ""
  {
  }

  /** On single-line inputs, the output's lines are exactly one line per
      element of the key list: a repeated key gives a repeated line. */
  lemma ExportLines(keys: Fields<string>, pKeys: seq<string>)
    requires FlatJson.SingleLine(keys, pKeys) && |pKeys| > 0
    ensures Split(Export(keys, pKeys), '\n') == Lines(keys, pKeys)
  {
    FlatJson.ExportSingleLine(keys, pKeys);
    var lines := Lines(keys, pKeys);
    forall i | 0 <= i < |lines|
      ensures '\n' !in lines[i]
    {
      assert pKeys[i] in pKeys;
    }
    SplitJoin(lines, '\n');
  }

  /** The output depends on the locale only through its translations of the
      project keys, never on the order of its entries. */
  lemma ExportIgnoresLocaleOrder(keys: Fields<string>, keys': Fields<string>, pKeys: seq<string>)
    requires forall k :: k in pKeys ==> FlatJson.Lookup(keys, k) == FlatJson.Lookup(keys', k)
    ensures Export(keys, pKeys) == Export(keys', pKeys)
  {
    assert Lines(keys, pKeys) == Lines(keys', pKeys) by {
      forall i | 0 <= i < |pKeys|
        ensures Lines(keys, pKeys)[i] == Lines(keys', pKeys)[i]
      {
        assert pKeys[i] in pKeys;
      }
    }
  }

  /** A key listed twice: two identical lines, where the flat export (and so
      the csv and android outputs) holds the key once. */
  lemma RepeatedKey()
    ensures Lines([], ["a", "a"]) == [Line("a", ""), Line("a", "")]
    ensures |FlatJson.Export([], ["a", "a"])| == 1
  {
    assert Seqs.Dedup(["a", "a"]) == ["a"] by {
      assert ["a", "a"][..1] == ["a"];
      assert Seqs.Dedup(["a"]) == ["a"] by { assert ["a"][..0] == []; }
    }
  }
}
