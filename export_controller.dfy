/** The export handlers: pick an exporter by name, find the requested
    locale, and for several projects merge their translations and key lists
    before exporting. */
module ExportController {
  import opened Outcomes
  import opened Seqs
  import opened Objects
  import opened Documents
  import opened Access
  import opened Exporters
  import FlatJson
  import JsonExport
  import CsvExport
  import AndroidExport
  import AppleExport

  /** What an export replies with: a text document, a flat object, or a
      nested object. */
  datatype Output = Text(text: string) | Flat(entries: Fields<string>) | Tree(tree: JsonExport.Json)

  /** `_exportLocale`: run the exporter the name selects on the locale's
      translations and the key list; an unknown name selects the identity,
      which hands back the translations themselves. The locale code is
      passed along but no exporter uses it. */
  function ExportLocale(locale: Locale, format: string, pKeys: seq<string>): (r: Output)
    ensures Resolve(format) == None ==> r == Flat(locale.keys)
    ensures Resolve(format) == Some(FlatJsonFormat) ==> r == Flat(FlatJson.Export(locale.keys, pKeys))
    ensures Resolve(format) == Some(JsonFormat) ==> r == Tree(JsonExport.Export(locale.keys, pKeys))
    ensures Resolve(format) == Some(Csv) ==> r == Text(CsvExport.Text(locale.keys, pKeys))
    ensures Resolve(format) == Some(Android) ==> r == Text(AndroidExport.Export(locale.keys, pKeys))
    ensures Resolve(format) == Some(Apple) ==> r == Text(AppleExport.Export(locale.keys, pKeys))
  {
    match Resolve(format)
    case None => Flat(locale.keys)
    case Some(Apple) => Text(AppleExport.Export(locale.keys, pKeys))
    case Some(Android) => Text(AndroidExport.Export(locale.keys, pKeys))
    case Some(FlatJsonFormat) => Flat(FlatJson.Export(locale.keys, pKeys))
    case Some(Csv) => Text(CsvExport.Text(locale.keys, pKeys))
    case Some(JsonFormat) => Tree(JsonExport.Export(locale.keys, pKeys))
  }

  /** The locale code never changes an export. */
  lemma ExportIgnoresCode(code: string, code': string, keys: Fields<string>, format: string, pKeys: seq<string>)
    ensures ExportLocale(Locale(code, keys), format, pKeys) == ExportLocale(Locale(code', keys), format, pKeys)
  {
  }

  /** `exporterProject`: the project must be visible to the caller as an
      editor and hold the locale; the export uses that locale's translations
      and the project's own key list. */
  function ExportProject(doc: Project?, caller: Credentials, code: string, format: string): (r: Result<Output>)
    reads doc
    ensures r.Success? <==> Finds(caller, true, doc) && code in Codes(doc.locales)
    ensures r.Failure? ==> r.error == NotFound
    ensures r.Success? ==>
      r.value == ExportLocale(doc.locales[LocaleIndex(doc.locales, code)], format, doc.keys)
  {
    if !Finds(caller, true, doc) then Failure(NotFound)
    else
      var idx := LocaleIndex(doc.locales, code);
      if idx == -1 then Failure(NotFound)
      else Success(ExportLocale(doc.locales[idx], format, doc.keys))
  }

  /** All key lists one after the other. */
  function Concat(lists: seq<seq<string>>): seq<string>
  {
    if |lists| == 0 then [] else Concat(lists[..|lists| - 1]) + lists[|lists| - 1]
  }

  /** The `reduce` of `uniq(union(total, keys))` over the projects' key
      lists: every key once, in order of first appearance across the lists. */
  function UnionAll(lists: seq<seq<string>>): (r: seq<string>)
    ensures r == Dedup(Concat(lists))
  {
    if |lists| == 0 then []
    else
      var front := lists[..|lists| - 1];
      var u := UnionAll(front);
      DedupLeft(Concat(front), lists[|lists| - 1]);
      Dedup(u + lists[|lists| - 1])
  }

  /** The `reduce` of `merge` over the projects' translations: each
      project's translations written in turn over the accumulated ones. */
  function Merged(maps: seq<Fields<string>>): (r: Fields<string>)
    ensures NoDup(Names(r))
  {
    if |maps| == 0 then [] else AssignAll(Merged(maps[..|maps| - 1]), maps[|maps| - 1])
  }

  /** A later project's translation overrides an earlier one on the same
      key; a key it does not translate keeps the earlier translation. */
  lemma MergedLaterWins(maps: seq<Fields<string>>, m: Fields<string>, k: string)
    requires NoDup(Names(m))
    ensures Get(Merged(maps + [m]), k) == if k in Names(m) then Get(m, k) else Get(Merged(maps), k)
  {
    assert (maps + [m])[..|maps|] == maps;
    AssignAllGet(Merged(maps), m, k);
  }

  /** A key no project translates is not in the merged translations. */
  lemma {:induction false} MergedAbsent(maps: seq<Fields<string>>, k: string)
    requires forall i :: 0 <= i < |maps| ==> k !in Names(maps[i])
    ensures Get(Merged(maps), k) == None
  {
    if |maps| > 0 {
      MergedAbsent(maps[..|maps| - 1], k);
    }
  }

  /** The translations of one locale code, project by project. */
  function LocaleKeys(docs: seq<Project?>, code: string): (r: seq<Fields<string>>)
    reads docs
    requires forall i :: 0 <= i < |docs| ==> docs[i] != null && LocaleIndex(docs[i].locales, code) >= 0
    ensures |r| == |docs|
    ensures forall i :: 0 <= i < |docs| ==> r[i] == docs[i].locales[LocaleIndex(docs[i].locales, code)].keys
  {
    seq(|docs|, i requires 0 <= i < |docs| && docs[i] != null && LocaleIndex(docs[i].locales, code) >= 0 reads docs =>
      docs[i].locales[LocaleIndex(docs[i].locales, code)].keys)
  }

  /** The key lists, project by project. */
  function KeyLists(docs: seq<Project?>): (r: seq<seq<string>>)
    reads docs
    requires forall i :: 0 <= i < |docs| ==> docs[i] != null
    ensures |r| == |docs|
    ensures forall i :: 0 <= i < |docs| ==> r[i] == docs[i].keys
  {
    seq(|docs|, i requires 0 <= i < |docs| && docs[i] != null reads docs => docs[i].keys)
  }

  /** Every project was found and holds the locale. */
  predicate AllHold(docs: seq<Project?>, code: string)
    reads docs
  {
    forall i :: 0 <= i < |docs| ==> docs[i] != null && LocaleIndex(docs[i].locales, code) >= 0
  }

  /** The outcome of exporting a batch of looked-up projects: NotFound when
      the batch is empty, when any lookup failed, or when any project lacks
      the locale; otherwise one export of the merged translations over the
      merged key list. */
  function Batch(docs: seq<Project?>, code: string, format: string): (r: Result<Output>)
    reads docs
    ensures r.Success? <==> |docs| > 0 && AllHold(docs, code)
    ensures r.Failure? ==> r.error == NotFound
  {
    if |docs| == 0 || !AllHold(docs, code) then Failure(NotFound)
    else Success(ExportLocale(Locale(code, Merged(LocaleKeys(docs, code))), format, UnionAll(KeyLists(docs))))
  }

  /** The merge as the handler runs it: a loop writing each project's
      translations into one accumulator. */
  method MergeTranslations(maps: seq<Fields<string>>) returns (total: Fields<string>)
    ensures total == Merged(maps)
  {
    total := [];
    var i := 0;
    while i < |maps|
      invariant 0 <= i <= |maps|
      invariant total == Merged(maps[..i])
    {
      assert maps[..i + 1][..i] == maps[..i];
      total := AssignAll(total, maps[i]);
      i := i + 1;
    }
    assert maps[..i] == maps;
  }

  /** `findIndex(projects, isNull)`: the first failed lookup, or -1. */
  method FirstMissing(docs: seq<Project?>) returns (ind: int)
    ensures -1 <= ind < |docs|
    ensures ind == -1 <==> forall j :: 0 <= j < |docs| ==> docs[j] != null
    ensures ind >= 0 ==> docs[ind] == null && forall j :: 0 <= j < ind ==> docs[j] != null
  {
    var n := 0;
    while n < |docs|
      invariant 0 <= n <= |docs|
      invariant forall j :: 0 <= j < n ==> docs[j] != null
    {
      if docs[n] == null {
        return n;
      }
      n := n + 1;
    }
    return -1;
  }

  /** The first project without the locale, or -1. */
  method FirstLacking(docs: seq<Project?>, code: string) returns (ind: int)
    requires forall j :: 0 <= j < |docs| ==> docs[j] != null
    ensures -1 <= ind < |docs|
    ensures ind == -1 <==> AllHold(docs, code)
    ensures ind >= 0 ==> LocaleIndex(docs[ind].locales, code) == -1
  {
    var m := 0;
    while m < |docs|
      invariant 0 <= m <= |docs|
      invariant forall j :: 0 <= j < m ==> LocaleIndex(docs[j].locales, code) >= 0
    {
      if LocaleIndex(docs[m].locales, code) == -1 {
        return m;
      }
      m := m + 1;
    }
    return -1;
  }

  /** `exporterProjects`: `docs` holds, for each requested id, the project
      the lookup returned (`null` when none). */
  method ExportProjects(docs: seq<Project?>, code: string, format: string) returns (r: Result<Output>)
    ensures r == Batch(docs, code, format)
  {
    if |docs| == 0 {
      return Failure(NotFound);
    }
    var ind := FirstMissing(docs);
    if ind != -1 {
      return Failure(NotFound);
    }
    var lacking := FirstLacking(docs, code);
    if lacking != -1 {
      return Failure(NotFound);
    }
    var merged := MergeTranslations(LocaleKeys(docs, code));
    r := Success(ExportLocale(Locale(code, merged), format, UnionAll(KeyLists(docs))));
  }

  /** `exporterClientProjects`: the calling client must exist and follow at
      least one project; `docs` holds the lookup of each followed id. */
  method ExportClientProjects(client: Client?, docs: seq<Project?>, code: string, format: string)
    returns (r: Result<Output>)
    requires client != null ==> |docs| == |client.projects|
    requires client != null ==> forall i :: 0 <= i < |docs| && docs[i] != null ==> docs[i].id == client.projects[i]
    ensures client == null ==> r == Failure(NotFound)
    ensures client != null && |client.projects| == 0 ==> r == Failure(NotFound)
    ensures client != null && |client.projects| > 0 ==> r == Batch(docs, code, format)
  {
    if client == null || |client.projects| == 0 {
      return Failure(NotFound);
    }
    r := ExportProjects(docs, code, format);
  }

  /** A batch export succeeds only as a whole: if any one project is
      missing, or lacks the locale, nothing is exported. */
  lemma BatchAllOrNothing(docs: seq<Project?>, code: string, format: string, i: int)
    requires 0 <= i < |docs|
    requires docs[i] == null || code !in Codes(docs[i].locales)
    ensures Batch(docs, code, format) == Failure(NotFound)
  {
  }

  /** The batch export's key list is the projects' keys, each once, in
      order of first appearance; its translation of each key is the last
      project's in the batch that translates it. */
  lemma BatchInputs(docs: seq<Project?>, code: string, format: string, j: int, k: string)
    requires |docs| > 0 && AllHold(docs, code)
    requires forall i :: 0 <= i < |docs| ==> NoDup(Names(LocaleKeys(docs, code)[i]))
    requires 0 <= j < |docs| && k in Names(LocaleKeys(docs, code)[j])
    requires forall i :: j < i < |docs| ==> k !in Names(LocaleKeys(docs, code)[i])
    ensures UnionAll(KeyLists(docs)) == Dedup(Concat(KeyLists(docs)))
    ensures Get(Merged(LocaleKeys(docs, code)), k) == Get(LocaleKeys(docs, code)[j], k)
  {
    var maps := LocaleKeys(docs, code);
    MergedLast(maps, j, k);
  }

  /** In merged translations, a key reads as in the last map that holds it. */
  lemma {:induction false} MergedLast(maps: seq<Fields<string>>, j: int, k: string)
    requires forall i :: 0 <= i < |maps| ==> NoDup(Names(maps[i]))
    requires 0 <= j < |maps| && k in Names(maps[j])
    requires forall i :: j < i < |maps| ==> k !in Names(maps[i])
    ensures Get(Merged(maps), k) == Get(maps[j], k)
  {
    var n := |maps| - 1;
    var front := maps[..n];
    assert maps == front + [maps[n]];
    MergedLaterWins(front, maps[n], k);
    if j < n {
      MergedLast(front, j, k);
    }
  }
}
