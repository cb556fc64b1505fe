/** The `csv` exporter: a header line, then one `"key","translation"` line
    per entry of the flat export, joined with line feeds. */
module CsvExport {
  import opened Strings
  import opened Objects
  import FlatJson

  /** The header pushed before the first row. */
  const Header: string := "\"Key\",\"Translation\""

  /** One row: key and value each wrapped in double quotes, nothing escaped. */
  function Row(key: string, value: string): string
  {
    "\"" + key + "\",\"" + value + "\""
  }

  /** The rows of the entries, in the entries' order. */
  function Rows(entries: Fields<string>): (r: seq<string>)
    ensures |r| == |entries|
    ensures forall i :: 0 <= i < |entries| ==> r[i] == Row(entries[i].0, entries[i].1)
  {
    seq(|entries|, i requires 0 <= i < |entries| => Row(entries[i].0, entries[i].1))
  }

  /** The lines the `reduce` accumulates: nothing at all for no entries
      (not even the header), otherwise the header once and then the rows. */
  function Lines(entries: Fields<string>): (r: seq<string>)
    ensures |entries| == 0 ==> r == []
    ensures |entries| > 0 ==> |r| == |entries| + 1 && r[0] == Header && r[1..] == Rows(entries)
  {
    if |entries| == 0 then [] else [Header] + Rows(entries)
  }

  /** The exported text, as a value. */
  function Text(keys: Fields<string>, pKeys: seq<string>): string
  {
    Join(Lines(FlatJson.Export(keys, pKeys)), "\n")
  }

  /** The exporter as it runs: a loop over the flat export that
      pushes the header when the buffer is still empty, then the entry's
      row; the buffer is joined at the end. */
  method Render(keys: Fields<string>, pKeys: seq<string>) returns (out: string)
    ensures out == Text(keys, pKeys)
  {
    var entries := FlatJson.Export(keys, pKeys);
    var total := PushLines(entries);
    out := Join(total, "\n");
  }

  /** The loop of the `reduce`: the header before the first row, then each
      entry's row. */
  method PushLines(entries: Fields<string>) returns (total: seq<string>)
    ensures total == Lines(entries)
  {
    total := [];
    var i := 0;
    while i < |entries|
      invariant 0 <= i <= |entries|
      invariant total == Lines(entries[..i])
      invariant |total| == if i == 0 then 0 else i + 1
    {
      if |total| == 0 {
        total := total + [Header];
      }
      total := total + [Row(entries[i].0, entries[i].1)];
      LinesStep(entries, i);
      i := i + 1;
    }
    assert entries[..i] == entries;
  }

  /** One more entry adds its row, after the header when it is the first. */
  lemma LinesStep(entries: Fields<string>, i: nat)
    requires i < |entries|
    ensures Lines(entries[..i + 1]) ==
      (if i == 0 then [Header] else Lines(entries[..i])) + [Row(entries[i].0, entries[i].1)]
  {
    assert Rows(entries[..i + 1]) == Rows(entries[..i]) + [Row(entries[i].0, entries[i].1)];
  }

  /** No project keys: the output is the empty string. */
  lemma TextEmpty(keys: Fields<string>)
    ensures Text(keys, []) == ""
  {
  }

  /** On single-line inputs, the lines of the output are exactly the header
      followed by one row per flat entry, in the flat export's order: one
      line more than there are distinct project keys, no trailing line. */
  lemma TextLines(keys: Fields<string>, pKeys: seq<string>)
    requires FlatJson.SingleLine(keys, pKeys) && |pKeys| > 0
    ensures Split(Text(keys, pKeys), '\n') == [Header] + Rows(FlatJson.Export(keys, pKeys))
    ensures |Split(Text(keys, pKeys), '\n')| == |Seqs.Dedup(pKeys)| + 1
  {
    var entries := FlatJson.Export(keys, pKeys);
    assert pKeys[0] in Seqs.Dedup(pKeys);
    FlatJson.ExportSingleLine(keys, pKeys);
    var lines := Lines(entries);
    forall i | 0 <= i < |lines|
      ensures '\n' !in lines[i]
    {
      if i > 0 {
        assert lines[i] == Row(entries[i - 1].0, entries[i - 1].1);
      }
    }
    SplitJoin(lines, '\n');
  }

  /** Quotes inside keys and values are not doubled as section 2, rule 7 of
      RFC 4180 requires, so two different entries can give the same row and
      the file cannot be read back unambiguously. */
  lemma RowsCollide()
    ensures Row("a\",\"b", "c") == Row("a", "b\",\"c")
    ensures ("a\",\"b", "c") != ("a", "b\",\"c")
  {
    assert "a\",\"b"[1..] != "";
  }
}
