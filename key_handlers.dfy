/** The key handlers: add keys to a project, rename keys (re-keying every
    locale's translations in step), and delete keys (from the key list and
    from every locale). Each looks the project up with the editor filter. */
module KeyHandlers {
  import opened Outcomes
  import opened Seqs
  import opened Objects
  import opened Documents
  import opened Access

  /** `uniq(union(keys, added))`: every key once, the existing keys first in
      their order, then the added keys that are new, in their order. */
  function AddedKeys(keys: seq<string>, added: seq<string>): (r: seq<string>)
    ensures NoDup(r)
    ensures forall k :: k in r <==> k in keys || k in added
    ensures NoDup(keys) ==> r == keys + Dedup(Without(added, Elems(keys)))
  {
    DedupOfNoDup(Dedup(keys + added));
    DedupAppend(keys, added);
    DedupWhenNoDup(keys);
    Dedup(Dedup(keys + added))
  }

  lemma DedupWhenNoDup(s: seq<string>)
    ensures NoDup(s) ==> Dedup(s) == s
  {
    if NoDup(s) {
      DedupOfNoDup(s);
    }
  }

  lemma KeptNoDup(s: seq<string>, xs: set<string>)
    ensures NoDup(s) ==> NoDup(Without(s, xs))
  {
    if NoDup(s) {
      WithoutNoDup(s, xs);
    }
  }

  /** Adding the same keys again changes nothing. */
  lemma AddedKeysIdempotent(keys: seq<string>, added: seq<string>)
    ensures AddedKeys(AddedKeys(keys, added), added) == AddedKeys(keys, added)
  {
    var once := AddedKeys(keys, added);
    var w := Without(added, Elems(once));
    WithoutAll(added, Elems(once));
    assert once + Dedup(w) == once;
  }

  /** The key list after a rename: the keys that are not rename sources, in
      their order, then the targets (`values` of the mapping) that are new.
      A target is added even when its source was not a key. */
  function RenamedKeys(keys: seq<string>, mapping: Fields<string>): (r: seq<string>)
    ensures NoDup(r)
    ensures forall k :: k in r <==> (k in keys && k !in Names(mapping)) || k in Values(mapping)
    ensures NoDup(keys) ==> (r == Without(keys, Elems(Names(mapping))) +
      Dedup(Without(Values(mapping), Elems(Without(keys, Elems(Names(mapping)))))))
  {
    var kept := Without(keys, Elems(Names(mapping)));
    KeptNoDup(keys, Elems(Names(mapping)));
    AddedKeys(kept, Values(mapping))
  }

  /** Where a rename sends a translation's key: to its target when the key
      is a rename source, otherwise to itself. */
  function Dest(mapping: Fields<string>, name: string): (d: string)
    ensures name in Names(mapping) ==> (name, d) in mapping
    ensures name !in Names(mapping) ==> d == name
  {
    match Get(mapping, name)
    case Some(t) => t
    case None => name
  }

  /** The `reduce` over a locale's translations in their order, writing each
      one at its destination into a fresh object. */
  function Rekeyed(entries: Fields<string>, mapping: Fields<string>): (r: Fields<string>)
    ensures NoDup(Names(r))
  {
    if |entries| == 0 then []
    else
      var p := entries[|entries| - 1];
      Assign(Rekeyed(entries[..|entries| - 1], mapping), Dest(mapping, p.0), p.1)
  }

  /** Each translation moved to its destination, in order. */
  function Moved(entries: Fields<string>, mapping: Fields<string>): (r: Fields<string>)
    ensures |r| == |entries|
    ensures forall i :: 0 <= i < |entries| ==> r[i] == (Dest(mapping, entries[i].0), entries[i].1)
  {
    seq(|entries|, i requires 0 <= i < |entries| => (Dest(mapping, entries[i].0), entries[i].1))
  }

  /** No two translations are sent to the same key. */
  predicate NoCollision(entries: Fields<string>, mapping: Fields<string>)
  {
    forall i, j :: 0 <= i < j < |entries| ==> Dest(mapping, entries[i].0) != Dest(mapping, entries[j].0)
  }

  /** Without collisions, re-keying moves the translation at a source key to
      its target with the same value and copies every other translation
      unchanged, keeping their order. */
  lemma {:induction false} RekeyedMoves(entries: Fields<string>, mapping: Fields<string>)
    requires NoCollision(entries, mapping)
    ensures Rekeyed(entries, mapping) == Moved(entries, mapping)
  {
    if |entries| > 0 {
      var n := |entries| - 1;
      NoCollisionFront(entries, mapping);
      RekeyedMoves(entries[..n], mapping);
      MovedFresh(entries, mapping);
      MovedSnoc(entries, mapping);
    }
  }

  /** The translations before the last one do not collide either. */
  lemma NoCollisionFront(entries: Fields<string>, mapping: Fields<string>)
    requires NoCollision(entries, mapping) && |entries| > 0
    ensures NoCollision(entries[..|entries| - 1], mapping)
  {
    var front := entries[..|entries| - 1];
    forall i, j | 0 <= i < j < |front|
      ensures Dest(mapping, front[i].0) != Dest(mapping, front[j].0)
    {
      assert front[i] == entries[i] && front[j] == entries[j];
    }
  }

  /** The last translation's destination is not among the earlier ones'. */
  lemma MovedFresh(entries: Fields<string>, mapping: Fields<string>)
    requires NoCollision(entries, mapping) && |entries| > 0
    ensures Dest(mapping, entries[|entries| - 1].0) !in Names(Moved(entries[..|entries| - 1], mapping))
  {
    var n := |entries| - 1;
    var m := Moved(entries[..n], mapping);
    forall i | 0 <= i < |m|
      ensures Names(m)[i] != Dest(mapping, entries[n].0)
    {
      assert m[i].0 == Dest(mapping, entries[i].0);
    }
  }

  lemma MovedSnoc(entries: Fields<string>, mapping: Fields<string>)
    requires |entries| > 0
    ensures Moved(entries, mapping) ==
      Moved(entries[..|entries| - 1], mapping) + [(Dest(mapping, entries[|entries| - 1].0), entries[|entries| - 1].1)]
  {
  }

  /** With a collision the enumeration order decides: the translation
      written last wins, so the same two translations give different
      results in the other order. */
  lemma RekeyOrderMatters()
    ensures Rekeyed([("a", "1"), ("b", "2")], [("a", "b")]) == [("b", "2")]
    ensures Rekeyed([("b", "2"), ("a", "1")], [("a", "b")]) == [("b", "1")]
  {
    var e1: Fields<string> := [("a", "1"), ("b", "2")];
    var e2: Fields<string> := [("b", "2"), ("a", "1")];
    assert e1[..1] == [("a", "1")] && e1[..1][..0] == [];
    assert e2[..1] == [("b", "2")] && e2[..1][..0] == [];
    assert Dest([("a", "b")], "a") == "b";
    assert Dest([("a", "b")], "b") == "b";
  }

  /** The re-keying as the handler runs it: a loop over the translations
      filling a fresh accumulator. */
  method RekeyLocale(entries: Fields<string>, mapping: Fields<string>) returns (total: Fields<string>)
    ensures total == Rekeyed(entries, mapping)
  {
    total := [];
    var i := 0;
    while i < |entries|
      invariant 0 <= i <= |entries|
      invariant total == Rekeyed(entries[..i], mapping)
    {
      assert entries[..i + 1][..i] == entries[..i];
      total := Assign(total, Dest(mapping, entries[i].0), entries[i].1);
      i := i + 1;
    }
    assert entries[..i] == entries;
  }

  /** Every locale re-keyed, codes and order kept. */
  function RekeyedLocales(locales: seq<Locale>, mapping: Fields<string>): (r: seq<Locale>)
    ensures |r| == |locales|
    ensures forall i :: 0 <= i < |locales| ==>
      r[i] == Locale(locales[i].code, Rekeyed(locales[i].keys, mapping))
  {
    seq(|locales|, i requires 0 <= i < |locales| => Locale(locales[i].code, Rekeyed(locales[i].keys, mapping)))
  }

  /** One more locale re-keyed extends the re-keyed list by one. */
  lemma RekeyedLocalesSnoc(locales: seq<Locale>, i: int, mapping: Fields<string>)
    requires 0 <= i < |locales|
    ensures RekeyedLocales(locales[..i + 1], mapping) ==
      RekeyedLocales(locales[..i], mapping) + [Locale(locales[i].code, Rekeyed(locales[i].keys, mapping))]
  {
    var l := RekeyedLocales(locales[..i + 1], mapping);
    var r := RekeyedLocales(locales[..i], mapping) + [Locale(locales[i].code, Rekeyed(locales[i].keys, mapping))];
    assert |l| == |r|;
    forall j | 0 <= j < |l|
      ensures l[j] == r[j]
    {
      assert locales[..i + 1][j] == locales[j];
      if j < i {
        assert locales[..i][j] == locales[j];
      }
    }
  }

  /** Every locale with the listed keys' translations removed. */
  function PrunedLocales(locales: seq<Locale>, removed: set<string>): (r: seq<Locale>)
    ensures |r| == |locales|
    ensures forall i :: 0 <= i < |locales| ==> r[i] == Locale(locales[i].code, Omit(locales[i].keys, removed))
  {
    seq(|locales|, i requires 0 <= i < |locales| => Locale(locales[i].code, Omit(locales[i].keys, removed)))
  }

  /** One more locale pruned extends the pruned list by one. */
  lemma PrunedLocalesSnoc(locales: seq<Locale>, i: int, removed: set<string>)
    requires 0 <= i < |locales|
    ensures PrunedLocales(locales[..i + 1], removed) ==
      PrunedLocales(locales[..i], removed) + [Locale(locales[i].code, Omit(locales[i].keys, removed))]
  {
    var l := PrunedLocales(locales[..i + 1], removed);
    var r := PrunedLocales(locales[..i], removed) + [Locale(locales[i].code, Omit(locales[i].keys, removed))];
    assert |l| == |r|;
    forall j | 0 <= j < |l|
      ensures l[j] == r[j]
    {
      assert locales[..i + 1][j] == locales[j];
      if j < i {
        assert locales[..i][j] == locales[j];
      }
    }
  }

  /** After a delete, no locale translates a deleted key, and every other
      key reads as before. */
  lemma PrunedLocalesGet(locales: seq<Locale>, removed: set<string>, i: int, k: string)
    requires 0 <= i < |locales|
    ensures Get(PrunedLocales(locales, removed)[i].keys, k) == if k in removed then None else Get(locales[i].keys, k)
  {
    OmitGet(locales[i].keys, removed, k);
  }

  /** `addKeys`. */
  method AddKeys(doc: Project?, caller: Credentials, added: seq<string>) returns (r: Result<seq<string>>)
    modifies doc
    ensures !old(Finds(caller, true, doc)) ==> r == Failure(NotFound) && (doc != null ==> unchanged(doc))
    ensures old(Finds(caller, true, doc)) ==>
      doc.keys == AddedKeys(old(doc.keys), added) && r == Success(doc.keys) &&
      doc.name == old(doc.name) && doc.locales == old(doc.locales) && doc.users == old(doc.users)
  {
    if !Finds(caller, true, doc) {
      return Failure(NotFound);
    }
    doc.keys := AddedKeys(doc.keys, added);
    r := Success(doc.keys);
  }

  /** The loop over a project's locales re-keying each one. */
  method RekeyAll(locales: seq<Locale>, mapping: Fields<string>) returns (updated: seq<Locale>)
    ensures updated == RekeyedLocales(locales, mapping)
  {
    updated := [];
    var i := 0;
    while i < |locales|
      invariant 0 <= i <= |locales|
      invariant updated == RekeyedLocales(locales[..i], mapping)
    {
      var keys := RekeyLocale(locales[i].keys, mapping);
      RekeyedLocalesSnoc(locales, i, mapping);
      updated := updated + [Locale(locales[i].code, keys)];
      i := i + 1;
    }
    assert locales[..i] == locales;
  }

  /** `updateKeys`: the mapping's names are the keys to rename, its values
      the new names. */
  method UpdateKeys(doc: Project?, caller: Credentials, mapping: Fields<string>) returns (r: Result<seq<string>>)
    requires NoDup(Names(mapping))
    modifies doc
    ensures !old(Finds(caller, true, doc)) ==> r == Failure(NotFound) && (doc != null ==> unchanged(doc))
    ensures old(Finds(caller, true, doc)) ==>
      doc.keys == RenamedKeys(old(doc.keys), mapping) &&
      doc.locales == RekeyedLocales(old(doc.locales), mapping) && r == Success(doc.keys) &&
      doc.name == old(doc.name) && doc.users == old(doc.users)
  {
    if !Finds(caller, true, doc) {
      return Failure(NotFound);
    }
    doc.keys := RenamedKeys(doc.keys, mapping);
    var updated := RekeyAll(doc.locales, mapping);
    doc.locales := updated;
    r := Success(doc.keys);
  }

  /** The loop over a project's locales dropping the deleted keys'
      translations from each one. */
  method PruneAll(locales: seq<Locale>, removed: set<string>) returns (pruned: seq<Locale>)
    ensures pruned == PrunedLocales(locales, removed)
  {
    pruned := [];
    var i := 0;
    while i < |locales|
      invariant 0 <= i <= |locales|
      invariant pruned == PrunedLocales(locales[..i], removed)
    {
      PrunedLocalesSnoc(locales, i, removed);
      pruned := pruned + [Locale(locales[i].code, Omit(locales[i].keys, removed))];
      i := i + 1;
    }
    assert locales[..i] == locales;
  }

  /** `deleteKeys`. */
  method DeleteKeys(doc: Project?, caller: Credentials, removed: seq<string>) returns (r: Result<seq<string>>)
    modifies doc
    ensures !old(Finds(caller, true, doc)) ==> r == Failure(NotFound) && (doc != null ==> unchanged(doc))
    ensures old(Finds(caller, true, doc)) ==>
      doc.keys == Without(old(doc.keys), Elems(removed)) &&
      doc.locales == PrunedLocales(old(doc.locales), Elems(removed)) && r == Success(doc.keys) &&
      doc.name == old(doc.name) && doc.users == old(doc.users)
  {
    if !Finds(caller, true, doc) {
      return Failure(NotFound);
    }
    doc.keys := Without(doc.keys, Elems(removed));
    var pruned := PruneAll(doc.locales, Elems(removed));
    doc.locales := pruned;
    r := Success(doc.keys);
  }
}
