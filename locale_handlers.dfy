/** The locale handlers: add a locale to a project, write translations
    into one locale, and remove a locale. Each looks the project up with
    the editor filter and replies with the project's locales. */
module LocaleHandlers {
  import opened Outcomes
  import opened Seqs
  import opened Objects
  import opened Documents
  import opened Access

  /** A new locale with the requested code, or the reason there is none:
      `Conflict` when a locale already has the code (a missing code is
      looked up as ""), `Internal` when saving rejects the locale because
      its required code is missing or empty. */
  function AddedLocale(locales: seq<Locale>, payload: Option<string>): (r: Result<seq<Locale>>)
    ensures r == Failure(Conflict) <==> LocaleIndex(locales, payload.GetOr("")) >= 0
    ensures r.Success? <==> payload.Some? && payload.value != "" && LocaleIndex(locales, payload.value) == -1
    ensures r.Failure? ==> r.error == Conflict || r.error == Internal
    ensures r.Success? ==> |r.value| == |locales| + 1 && r.value[..|locales|] == locales
  {
    if LocaleIndex(locales, payload.GetOr("")) >= 0 then Failure(Conflict)
    else if payload.None? || payload.value == "" then Failure(Internal)
    else Success(locales + [Locale(payload.value, [])])
  }

  /** The new locale is the last one; it is the one that answers to its
      code and it holds no translation yet. */
  lemma AddedLocaleFound(locales: seq<Locale>, code: string)
    requires AddedLocale(locales, Some(code)).Success?
    ensures var added := AddedLocale(locales, Some(code)).value;
      LocaleIndex(added, code) == |locales| && added[|locales|] == Locale(code, [])
  {
    var added := locales + [Locale(code, [])];
    assert forall j :: 0 <= j < |locales| ==> added[j] == locales[j];
    assert added[|locales|].code == code;
  }

  /** Adding a locale a second time is refused. */
  lemma AddedLocaleTwice(locales: seq<Locale>, code: string)
    requires AddedLocale(locales, Some(code)).Success?
    ensures AddedLocale(AddedLocale(locales, Some(code)).value, Some(code)) == Failure(Conflict)
  {
    AddedLocaleFound(locales, code);
  }

  /** The locales without the first one with the code, or `NotFound`. */
  function RemovedLocale(locales: seq<Locale>, code: string): (r: Result<seq<Locale>>)
    ensures r.Failure? <==> forall j :: 0 <= j < |locales| ==> locales[j].code != code
    ensures r.Failure? ==> r.error == NotFound
    ensures r.Success? ==> exists i ::
      (0 <= i < |locales| && locales[i].code == code &&
       (forall j :: 0 <= j < i ==> locales[j].code != code) && r.value == locales[..i] + locales[i + 1..])
  {
    var i := LocaleIndex(locales, code);
    if i == -1 then Failure(NotFound) else Success(RemoveAt(locales, i))
  }

  /** Removing a locale just added gives back the locales as they were. */
  lemma RemoveAfterAdd(locales: seq<Locale>, code: string)
    requires AddedLocale(locales, Some(code)).Success?
    ensures RemovedLocale(AddedLocale(locales, Some(code)).value, code) == Success(locales)
  {
    var added := AddedLocale(locales, Some(code)).value;
    AddedLocaleFound(locales, code);
    assert RemovedLocale(added, code) == Success(RemoveAt(added, |locales|));
    assert RemoveAt(added, |locales|) == locales;
  }

  /** The locales after writing translations into the first locale with the
      code: `NotFound` when there is no such locale, `Forbidden` when a
      written key is not one of the project's keys. */
  function UpdatedLocale(locales: seq<Locale>, keys: seq<string>, code: string, payload: Fields<string>)
    : (r: Result<seq<Locale>>)
    ensures r == Failure(NotFound) <==> LocaleIndex(locales, code) == -1
    ensures r == Failure(Forbidden) <==>
      LocaleIndex(locales, code) >= 0 && exists k :: k in Names(payload) && k !in keys
    ensures r.Success? <==>
      LocaleIndex(locales, code) >= 0 && forall k :: k in Names(payload) ==> k in keys
    ensures r.Success? ==> (|r.value| == |locales| &&
      forall j :: 0 <= j < |locales| && j != LocaleIndex(locales, code) ==> r.value[j] == locales[j])
    ensures r.Success? ==> r.value[LocaleIndex(locales, code)].code == code
    ensures r.Success? ==>
      r.value[LocaleIndex(locales, code)].keys == AssignAll(locales[LocaleIndex(locales, code)].keys, payload)
  {
    var i := LocaleIndex(locales, code);
    if i == -1 then Failure(NotFound)
    else if exists k :: k in Names(payload) && k !in keys then Failure(Forbidden)
    else Success(locales[i := Locale(code, AssignAll(locales[i].keys, payload))])
  }

  /** After a successful write each written key reads as written in that
      locale and every other key reads as before. */
  lemma UpdatedLocaleGet(locales: seq<Locale>, keys: seq<string>, code: string, payload: Fields<string>, k: string)
    requires NoDup(Names(payload))
    requires UpdatedLocale(locales, keys, code, payload).Success?
    ensures var i := LocaleIndex(locales, code);
      Get(UpdatedLocale(locales, keys, code, payload).value[i].keys, k) ==
        if k in Names(payload) then Get(payload, k) else Get(locales[i].keys, k)
  {
    AssignAllGet(locales[LocaleIndex(locales, code)].keys, payload, k);
  }

  /** A successful write only translates project keys: every key the locale
      did not hold before and holds now is a project key. */
  lemma UpdatedLocaleKeysKnown(locales: seq<Locale>, keys: seq<string>, code: string, payload: Fields<string>, k: string)
    requires UpdatedLocale(locales, keys, code, payload).Success?
    requires var i := LocaleIndex(locales, code);
      Get(UpdatedLocale(locales, keys, code, payload).value[i].keys, k) != Get(locales[i].keys, k)
    ensures k in keys
  {
  }

  /** The `forEach` of property writes into one locale's translations. */
  method WriteTranslations(entries: Fields<string>, payload: Fields<string>) returns (total: Fields<string>)
    ensures total == AssignAll(entries, payload)
  {
    total := entries;
    var i := 0;
    while i < |payload|
      invariant 0 <= i <= |payload|
      invariant total == AssignAll(entries, payload[..i])
    {
      assert payload[..i + 1][..i] == payload[..i];
      total := Assign(total, payload[i].0, payload[i].1);
      i := i + 1;
    }
    assert payload[..i] == payload;
  }

  /** `addLocale`. */
  method AddLocale(doc: Project?, caller: Credentials, payload: Option<string>) returns (r: Result<seq<Locale>>)
    modifies doc
    ensures !old(Finds(caller, true, doc)) ==> r == Failure(NotFound) && (doc != null ==> unchanged(doc))
    ensures old(Finds(caller, true, doc)) ==> (r == AddedLocale(old(doc.locales), payload) &&
      doc.locales == (if r.Success? then r.value else old(doc.locales)) &&
      doc.name == old(doc.name) && doc.keys == old(doc.keys) && doc.users == old(doc.users))
  {
    if !Finds(caller, true, doc) {
      return Failure(NotFound);
    }
    if LocaleIndex(doc.locales, payload.GetOr("")) > -1 {
      return Failure(Conflict);
    }
    if payload.None? || payload.value == "" {
      return Failure(Internal);
    }
    doc.locales := doc.locales + [Locale(payload.value, [])];
    r := Success(doc.locales);
  }

  /** `updateLocale`. */
  method UpdateLocale(doc: Project?, caller: Credentials, code: string, payload: Fields<string>)
    returns (r: Result<seq<Locale>>)
    modifies doc
    ensures !old(Finds(caller, true, doc)) ==> r == Failure(NotFound) && (doc != null ==> unchanged(doc))
    ensures old(Finds(caller, true, doc)) ==> (r == UpdatedLocale(old(doc.locales), old(doc.keys), code, payload) &&
      doc.locales == (if r.Success? then r.value else old(doc.locales)) &&
      doc.name == old(doc.name) && doc.keys == old(doc.keys) && doc.users == old(doc.users))
  {
    if !Finds(caller, true, doc) {
      return Failure(NotFound);
    }
    var i := LocaleIndex(doc.locales, code);
    if i == -1 {
      return Failure(NotFound);
    }
    if exists k :: k in Names(payload) && k !in doc.keys {
      return Failure(Forbidden);
    }
    var written := WriteTranslations(doc.locales[i].keys, payload);
    doc.locales := doc.locales[i := Locale(code, written)];
    r := Success(doc.locales);
  }

  /** `deleteLocale`. */
  method DeleteLocale(doc: Project?, caller: Credentials, code: string) returns (r: Result<seq<Locale>>)
    modifies doc
    ensures !old(Finds(caller, true, doc)) ==> r == Failure(NotFound) && (doc != null ==> unchanged(doc))
    ensures old(Finds(caller, true, doc)) ==> (r == RemovedLocale(old(doc.locales), code) &&
      doc.locales == (if r.Success? then r.value else old(doc.locales)) &&
      doc.name == old(doc.name) && doc.keys == old(doc.keys) && doc.users == old(doc.users))
  {
    if !Finds(caller, true, doc) {
      return Failure(NotFound);
    }
    var i := LocaleIndex(doc.locales, code);
    if i == -1 {
      return Failure(NotFound);
    }
    doc.locales := RemoveAt(doc.locales, i);
    r := Success(doc.locales);
  }
}
