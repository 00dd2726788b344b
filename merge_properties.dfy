/**
 * What a merge does to the stored mapping, stated over the specification
 * functions of `SchemaStore` that `Store.Merge` is proved to follow.
 */
module MergeProperties {
  import opened Documents
  import opened SchemaStore

  /** The items of every source that could be read, in the order the merge meets them. */
  function ReadableItems(sources: seq<Source>): seq<Item>
    decreases |sources|
  {
    if sources == [] then []
    else (match sources[0] case None => [] case Some(items) => items) + ReadableItems(sources[1..])
  }

  /** Every name an incoming entry carries. */
  function IncomingNames(items: seq<Item>): set<Name>
  {
    set it | it in items :: it.0
  }

  /** Every replacement name the resolver would give an incoming entry. */
  function ReplacementNames(items: seq<Item>, rename: Name -> Name): set<Name>
  {
    set it | it in items :: rename(it.0)
  }

  ghost predicate DistinctNames(items: seq<Item>)
  {
    forall i, j :: 0 <= i < j < |items| ==> items[i].0 != items[j].0
  }

  /** Folding two runs of items one after the other is folding their concatenation. */
  lemma {:induction false} MergeItemsAppend(acc: Schemas, a: seq<Item>, b: seq<Item>, rename: Name -> Name)
    ensures MergeItems(acc, a + b, rename) == MergeItems(MergeItems(acc, a, rename), b, rename)
    decreases |a|
  {
    if a != [] {
      assert (a + b)[1..] == a[1..] + b;
      MergeItemsAppend(MergeEntry(acc, a[0], rename), a[1..], b, rename);
    } else {
      assert a + b == b;
    }
  }

  /**
   * Merging sources is merging the items of the readable ones as a single run:
   * an unreadable source contributes nothing, and each entry meets an
   * accumulator that already holds everything earlier sources inserted.
   */
  lemma {:induction false} MergeSourcesIsMergeOfReadableItems(acc: Schemas, sources: seq<Source>, rename: Name -> Name)
    ensures MergeSources(acc, sources, rename) == MergeItems(acc, ReadableItems(sources), rename)
    decreases |sources|
  {
    if sources != [] {
      var first := match sources[0] case None => [] case Some(items) => items;
      MergeSourcesIsMergeOfReadableItems(MergeSource(acc, sources[0], rename), sources[1..], rename);
      MergeItemsAppend(acc, first, ReadableItems(sources[1..]), rename);
    }
  }

  /** A source that could not be read changes nothing, wherever it sits among the others. */
  lemma {:induction false} UnreadableSourceAddsNothing(acc: Schemas, before: seq<Source>, after: seq<Source>, rename: Name -> Name)
    ensures MergeSources(acc, before + [None] + after, rename) == MergeSources(acc, before + after, rename)
    decreases |before|
  {
    if before == [] {
      assert (before + [None] + after)[1..] == after;
      assert before + after == after;
    } else {
      assert (before + [None] + after)[1..] == before[1..] + [None] + after;
      assert (before + after)[1..] == before[1..] + after;
      UnreadableSourceAddsNothing(MergeSource(acc, before[0], rename), before[1..], after, rename);
    }
  }

  /**
   * Merging never deletes, and every name it adds is an incoming name or a
   * replacement name the resolver produced.
   */
  lemma {:induction false} MergeItemsKeys(acc: Schemas, items: seq<Item>, rename: Name -> Name)
    ensures acc.Keys <= MergeItems(acc, items, rename).Keys
    ensures MergeItems(acc, items, rename).Keys <= acc.Keys + IncomingNames(items) + ReplacementNames(items, rename)
    decreases |items|
  {
    if items != [] {
      var next := MergeEntry(acc, items[0], rename);
      MergeItemsKeys(next, items[1..], rename);
      assert items[0] in items;
      forall it | it in items[1..] ensures it in items {
      }
    }
  }

  /** The same two facts for a whole merge: every name stored before is still stored after. */
  lemma MergeKeys(acc: Schemas, sources: seq<Source>, rename: Name -> Name)
    ensures acc.Keys <= MergeSources(acc, sources, rename).Keys
    ensures MergeSources(acc, sources, rename).Keys
         <= acc.Keys + IncomingNames(ReadableItems(sources)) + ReplacementNames(ReadableItems(sources), rename)
  {
    MergeSourcesIsMergeOfReadableItems(acc, sources, rename);
    MergeItemsKeys(acc, ReadableItems(sources), rename);
  }

  /**
   * An entry already stored keeps its document unless the resolver hands out
   * its name as a replacement: an incoming entry never lands on a taken name
   * under its own name.
   */
  lemma {:induction false} MergeItemsKeepsEntry(acc: Schemas, items: seq<Item>, rename: Name -> Name, k: Name)
    requires k in acc
    requires k !in ReplacementNames(items, rename)
    ensures k in MergeItems(acc, items, rename) && MergeItems(acc, items, rename)[k] == acc[k]
    decreases |items|
  {
    if items != [] {
      assert items[0] in items;
      assert k != Target(acc, items[0].0, rename);
      forall it | it in items[1..] ensures it in items {
      }
      MergeItemsKeepsEntry(MergeEntry(acc, items[0], rename), items[1..], rename, k);
    }
  }

  /** The same for a whole merge. */
  lemma MergeKeepsEntry(acc: Schemas, sources: seq<Source>, rename: Name -> Name, k: Name)
    requires k in acc
    requires k !in ReplacementNames(ReadableItems(sources), rename)
    ensures k in MergeSources(acc, sources, rename)
    ensures MergeSources(acc, sources, rename)[k] == acc[k]
  {
    MergeSourcesIsMergeOfReadableItems(acc, sources, rename);
    MergeItemsKeepsEntry(acc, ReadableItems(sources), rename, k);
  }

  /**
   * Without conflicts the resolver is never consulted: entries with distinct
   * names that are all new land under their own names, and nothing stored
   * before changes.
   */
  lemma {:induction false} MergeWithoutConflicts(acc: Schemas, items: seq<Item>, rename: Name -> Name)
    requires DistinctNames(items)
    requires forall i :: 0 <= i < |items| ==> items[i].0 !in acc
    ensures MergeItems(acc, items, rename).Keys == acc.Keys + IncomingNames(items)
    ensures forall k :: k in acc ==> MergeItems(acc, items, rename)[k] == acc[k]
    ensures forall i :: 0 <= i < |items| ==> MergeItems(acc, items, rename)[items[i].0] == items[i].1
    decreases |items|
  {
    if items != [] {
      var next := MergeEntry(acc, items[0], rename);
      var rest := items[1..];
      assert forall i :: 0 <= i < |rest| ==> rest[i] == items[i + 1];
      MergeWithoutConflicts(next, rest, rename);
      var r := MergeItems(acc, items, rename);
      assert IncomingNames(items) == {items[0].0} + IncomingNames(rest) by {
        forall n | n in IncomingNames(items) ensures n in {items[0].0} + IncomingNames(rest) {
          var it :| it in items && it.0 == n;
          var i :| 0 <= i < |items| && items[i] == it;
          if i > 0 {
            assert rest[i - 1] == it;
          }
        }
      }
      forall i | 0 <= i < |items| ensures r[items[i].0] == items[i].1 {
        if i > 0 {
          assert rest[i - 1] == items[i];
        } else {
          forall it | it in rest ensures it.0 != items[0].0 {
            var j :| 0 <= j < |rest| && rest[j] == it;
            assert items[j + 1] == it;
          }
        }
      }
    }
  }

  /**
   * A conflicting entry goes to the replacement name with no further check:
   * when that name is taken too, the document stored there is overwritten.
   */
  lemma ReplacementOverwrites(acc: Schemas, name: Name, doc: Json, rename: Name -> Name)
    requires name in acc && rename(name) in acc
    ensures MergeItems(acc, [(name, doc)], rename) == acc[rename(name) := doc]
    ensures |MergeItems(acc, [(name, doc)], rename)| == |acc|
  {
  }
}
