/** The `android` exporter: an XML resource file with one `<string>`
    element per entry of the flat export. */
module AndroidExport {
  import opened Strings
  import opened Objects
  import FlatJson

  const Declaration: string := "<?xml version=\"1.0\" encoding=\"UTF-8\"?>"
  const Open: string := "<resources>"
  const Close: string := "</resources>"

  /** One resource; neither the name nor the value is XML-escaped. */
  function Element(key: string, value: string): string
  {
    "<string name=\"" + key + "\">" + value + "</string>"
  }

  /** The elements of the entries, in the entries' order. */
  function Elements(entries: Fields<string>): (r: seq<string>)
    ensures |r| == |entries|
    ensures forall i :: 0 <= i < |entries| ==> r[i] == Element(entries[i].0, entries[i].1)
  {
    seq(|entries|, i requires 0 <= i < |entries| => Element(entries[i].0, entries[i].1))
  }

  /** The declaration, the opening tag, the elements joined by line feeds,
      and the closing tag, joined by line feeds. */
  function Export(keys: Fields<string>, pKeys: seq<string>): string
  {
    Join([Declaration, Open, Join(Elements(FlatJson.Export(keys, pKeys)), "\n"), Close], "\n")
  }

  /** On single-line inputs, the lines of the output are the declaration,
      `<resources>`, one element per flat entry in order (or one empty line
      when there are none) and `</resources>`, with no trailing line. */
  lemma ExportLines(keys: Fields<string>, pKeys: seq<string>)
    requires FlatJson.SingleLine(keys, pKeys)
    ensures Split(Export(keys, pKeys), '\n') ==
      [Declaration, Open] + (if pKeys == [] then [""] else Elements(FlatJson.Export(keys, pKeys))) + [Close]
  {
    var entries := FlatJson.Export(keys, pKeys);
    var elems := Elements(entries);
    FlatJson.ExportSingleLine(keys, pKeys);
    ElementsSingleLine(entries);
    if pKeys == [] {
      FramedLines([""]);
    } else {
      assert pKeys[0] in Seqs.Dedup(pKeys);
      FramedLines(elems);
    }
  }

  /** Elements of single-line entries are single lines. */
  lemma ElementsSingleLine(entries: Fields<string>)
    requires forall i :: 0 <= i < |entries| ==> '\n' !in entries[i].0 && '\n' !in entries[i].1
    ensures forall i :: 0 <= i < |entries| ==> '\n' !in Elements(entries)[i]
  {
  }

  /** The lines of a framed, non-empty list of single lines. */
  lemma FramedLines(middle: seq<string>)
    requires |middle| > 0 && forall i :: 0 <= i < |middle| ==> '\n' !in middle[i]
    ensures Split(Join([Declaration, Open, Join(middle, "\n"), Close], "\n"), '\n') ==
      [Declaration, Open] + middle + [Close]
  {
    FrameSingleLine();
    SplitFrame(Declaration, Open, middle, Close);
  }

  /** The frame lines hold no line feed. */
  lemma FrameSingleLine()
    ensures '\n' !in Declaration && '\n' !in Open && '\n' !in Close
  {
  }

  lemma SplitFrame(a: string, b: string, middle: seq<string>, c: string)
    requires '\n' !in a && '\n' !in b && '\n' !in c
    requires |middle| > 0 && forall i :: 0 <= i < |middle| ==> '\n' !in middle[i]
    ensures Split(Join([a, b, Join(middle, "\n"), c], "\n"), '\n') == [a, b] + middle + [c]
  {
    var parts := [a, b] + middle + [c];
    FramePartsSingleLine(a, b, middle, c);
    SplitJoin(parts, '\n');
    JoinFrame(a, b, middle, c, "\n");
  }

  lemma FramePartsSingleLine(a: string, b: string, middle: seq<string>, c: string)
    requires '\n' !in a && '\n' !in b && '\n' !in c
    requires forall i :: 0 <= i < |middle| ==> '\n' !in middle[i]
    ensures forall i :: 0 <= i < |[a, b] + middle + [c]| ==> '\n' !in ([a, b] + middle + [c])[i]
  {
    var front := [a, b] + middle;
    var parts := front + [c];
    forall i | 0 <= i < |parts|
      ensures '\n' !in parts[i]
    {
      if i == |parts| - 1 {
        assert parts[i] == c;
      } else {
        assert parts[i] == front[i];
        if i >= 2 {
          assert front[i] == middle[i - 2];
        }
      }
    }
  }

  /** Joining a fixed frame around an already joined middle is joining the
      whole list of lines. */
  lemma JoinFrame(a: string, b: string, middle: seq<string>, c: string, sep: string)
    requires |middle| > 0
    ensures Join([a, b, Join(middle, sep), c], sep) == Join([a, b] + middle + [c], sep)
  {
    var m := Join(middle, sep);
    var q := [a, b, m, c];
    calc {
      Join(q, sep);
      { assert q[1..] == [b, m, c]; }
      a + sep + Join([b, m, c], sep);
      { assert [b, m, c][1..] == [m, c]; }
      a + sep + (b + sep + Join([m, c], sep));
      { assert [m, c][1..] == [c]; }
      a + sep + (b + sep + (m + sep + c));
      ((a + sep + b) + sep + m) + sep + c;
      { assert [a, b][1..] == [b]; JoinAppend([a, b], middle, sep); }
      Join([a, b] + middle, sep) + sep + Join([c], sep);
      { JoinAppend([a, b] + middle, [c], sep); }
      Join([a, b] + middle + [c], sep);
    }
  }
}
