/** The exporter table: the format names a request may ask for, each bound
    to the exporter of the same name. */
module Exporters {
  import opened Outcomes
  import opened Seqs
  import opened Objects

  datatype Format = Apple | Android | FlatJsonFormat | Csv | JsonFormat

  /** The table in its literal order, which is also the order in which the
      names are listed. */
  const Table: Fields<Format> :=
    [("apple", Apple), ("android", Android), ("flatjson", FlatJsonFormat), ("csv", Csv), ("json", JsonFormat)]

  /** The names the table answers to, as `keys(EXPORTERS)` lists them. */
  function ListExporters(): (r: seq<string>)
    ensures r == ["apple", "android", "flatjson", "csv", "json"]
  {
    Names(Table)
  }

  /** The exporter a format name selects, if any. */
  function Resolve(name: string): (r: Option<Format>)
    ensures r.Some? <==> name in ListExporters()
  {
    Get(Table, name)
  }

  /** The name each exporter is registered under. */
  function NameOf(f: Format): string
  {
    match f
    case Apple => "apple"
    case Android => "android"
    case FlatJsonFormat => "flatjson"
    case Csv => "csv"
    case JsonFormat => "json"
  }

  /** Every exporter is selected by its own name and by no other. */
  lemma ResolveNameOf(f: Format, name: string)
    ensures Resolve(NameOf(f)) == Some(f)
    ensures Resolve(name) == Some(f) ==> name == NameOf(f)
  {
    ResolveEntries();
    if Resolve(name) == Some(f) {
      ListedNames(name);
    }
  }

  /** The names the table answers to, one by one. */
  lemma ListedNames(name: string)
    requires name in ListExporters()
    ensures name == "apple" || name == "android" || name == "flatjson" || name == "csv" || name == "json"
  {
  }

  /** What each listed name selects. */
  lemma ResolveEntries()
    ensures Resolve("apple") == Some(Apple) && Resolve("android") == Some(Android)
    ensures Resolve("flatjson") == Some(FlatJsonFormat) && Resolve("csv") == Some(Csv)
    ensures Resolve("json") == Some(JsonFormat)
  {
  }

  /** `yaml` has an exporter module but is not in the table. */
  lemma YamlNotRegistered()
    ensures Resolve("yaml") == None
  {
  }

  /** The listed names are distinct, so listing and selecting agree. */
  lemma ListedOnce()
    ensures NoDup(ListExporters())
  {
  }
}
