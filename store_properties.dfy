/**
 * How the store's operations relate to each other, and example
 * behaviours of create, delete and merge.
 */
module StoreProperties {
  import opened Documents
  import opened SchemaStore
  import opened MergeProperties

  /** Deleting a schema just created gives back the mapping it was created in. */
  lemma DeleteUndoesCreate(m: Schemas, name: Name, doc: Json)
    requires name !in m
    ensures CreateIn(m, name, Some(doc)).outcome == Ok
    ensures DeleteFrom(CreateIn(m, name, Some(doc)).after, name) == Change(Ok, m)
  {
  }

  /** Re-creating a deleted schema with its old document gives back the original mapping. */
  lemma CreateUndoesDelete(m: Schemas, name: Name)
    requires name in m
    ensures DeleteFrom(m, name).outcome == Ok
    ensures CreateIn(DeleteFrom(m, name).after, name, Some(m[name])) == Change(Ok, m)
  {
  }

  /** A second create under the same name is refused and the first document stays. */
  lemma CreateTwiceKeepsFirst(m: Schemas, name: Name, first: Json, second: Option<Json>)
    requires name !in m
    ensures var once := CreateIn(m, name, Some(first));
      var twice := CreateIn(once.after, name, second);
      twice.outcome == Duplicate && twice.after == once.after && twice.after[name] == first
  {
  }

  /** Merging one readable source that holds one entry is folding that entry. */
  lemma MergeOneEntry(acc: Schemas, item: Item, rename: Name -> Name)
    ensures MergeSources(acc, [Some([item])], rename) == MergeEntry(acc, item, rename)
  {
    assert [item][1..] == [];
    assert [Some([item])][1..] == [];
    calc {
      MergeSources(acc, [Some([item])], rename);
      MergeSources(MergeSource(acc, Some([item]), rename), [], rename);
      MergeItems(acc, [item], rename);
      MergeItems(MergeEntry(acc, item, rename), [], rename);
    }
  }

  /** Merging `{"Y": 2}` into `{"X": 1}` gives `{"X": 1, "Y": 2}`. */
  lemma MergeWithoutConflictExample(one: Json, two: Json, rename: Name -> Name)
    ensures MergeSources(map["X" := one], [Some([("Y", two)])], rename) == map["X" := one, "Y" := two]
  {
    MergeOneEntry(map["X" := one], ("Y", two), rename);
  }

  /** Merging `{"X": 2}` into `{"X": 1}` with the default suggestion keeps `X` and adds `X_merged`. */
  lemma MergeConflictExample(one: Json, two: Json)
    ensures MergeSources(map["X" := one], [Some([("X", two)])], DefaultRename)
         == map["X" := one, "X_merged" := two]
  {
    MergeOneEntry(map["X" := one], ("X", two), DefaultRename);
    assert DefaultRename("X") == "X_merged";
  }

  /** An unreadable first source does not stop the second from being merged. */
  lemma MergePartialFailureExample(one: Json, two: Json, rename: Name -> Name)
    ensures MergeSources(map["X" := one], [None, Some([("Y", two)])], rename) == map["X" := one, "Y" := two]
  {
    UnreadableSourceAddsNothing(map["X" := one], [], [Some([("Y", two)])], rename);
    assert [] + [None] + [Some([("Y", two)])] == [None, Some([("Y", two)])];
    MergeWithoutConflictExample(one, two, rename);
  }

  /**
   * A name inserted by an earlier source counts as taken for a later one:
   * the second `Z` goes to the replacement name.
   */
  lemma MergeConflictAcrossSourcesExample(first: Json, second: Json)
    ensures MergeSources(map[], [Some([("Z", first)]), Some([("Z", second)])], DefaultRename)
         == map["Z" := first, "Z_merged" := second]
  {
    var sources := [Some([("Z", first)]), Some([("Z", second)])];
    assert sources[1..] == [Some([("Z", second)])];
    assert MergeSources(map[], sources, DefaultRename)
        == MergeSources(MergeItems(map[], [("Z", first)], DefaultRename), sources[1..], DefaultRename);
    assert [("Z", first)][1..] == [];
    var once := map["Z" := first];
    assert MergeItems(map[], [("Z", first)], DefaultRename) == once;
    MergeOneEntry(once, ("Z", second), DefaultRename);
    assert DefaultRename("Z") == "Z_merged";
  }

  /**
   * The default suggestion is not re-checked: with `X` and `X_merged` both
   * stored, an incoming `X` replaces the document under `X_merged`.
   */
  lemma DefaultSuggestionMayOverwriteExample(one: Json, kept: Json, incoming: Json)
    ensures MergeSources(map["X" := one, "X_merged" := kept], [Some([("X", incoming)])], DefaultRename)
         == map["X" := one, "X_merged" := incoming]
  {
    var acc := map["X" := one, "X_merged" := kept];
    assert DefaultRename("X") == "X_merged";
    MergeOneEntry(acc, ("X", incoming), DefaultRename);
  }

  /** The operations driven through the store object, one after another. */
  method CreateDeleteMergeScenario(doc: Json, other: Json)
  {
    var store := new Store(Missing);
    var outcome := store.Delete("Z");
    assert outcome == NotFound && store.file == Missing;

    outcome := store.Create("A", Some(doc));
    assert outcome == Ok && store.file == Saved(map["A" := doc]);
    outcome := store.Create("A", Some(other));
    assert outcome == Duplicate && store.file == Saved(map["A" := doc]);
    outcome := store.Create("C", None);
    assert outcome == InvalidJson && store.file == Saved(map["A" := doc]);

    outcome := store.Create("B", Some(other));
    outcome := store.Delete("B");
    assert outcome == Ok;
    assert map["A" := doc, "B" := other] - {"B"} == map["A" := doc];
    var loaded := store.LoadSchemas();
    assert loaded == Some(map["A" := doc]);

    var failed;
    outcome, failed := store.Merge([None, Some([("A", other)])], DefaultRename);
    assert forall p :: 0 <= p < |failed| ==> failed[p] == 0;
    assert 0 in failed;
    assert outcome == Ok;
    MergeDelayedConflict(doc, other);
    assert store.file == Saved(map["A" := doc, "A_merged" := other]);
  }

  /** The merge step of the scenario: a failed source, then a conflicting `A`. */
  lemma MergeDelayedConflict(doc: Json, other: Json)
    ensures MergeSources(map["A" := doc], [None, Some([("A", other)])], DefaultRename)
         == map["A" := doc, "A_merged" := other]
  {
    UnreadableSourceAddsNothing(map["A" := doc], [], [Some([("A", other)])], DefaultRename);
    assert [] + [None] + [Some([("A", other)])] == [None, Some([("A", other)])];
    MergeOneEntry(map["A" := doc], ("A", other), DefaultRename);
    assert DefaultRename("A") == "A_merged";
  }
}
