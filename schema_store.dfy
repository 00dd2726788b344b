/**
 * The schema store: one backing file holding a mapping from schema name to
 * schema document. Every operation reads the whole mapping, changes it in a
 * local copy and, when it succeeds, writes the whole mapping back.
 *
 * The functions below say what each operation does to the loaded mapping;
 * the `Store` class runs the operations step by step against the file and is
 * proved to agree with them.
 */
module SchemaStore {
  import opened Documents

  type Name = string
  type Schemas = map<Name, Json>

  /** One `(name, schema)` pair of a merge source, in the order its dictionary yields them. */
  type Item = (Name, Json)

  /** A merge source: its decoded items, or `None` when the file could not be unpickled. */
  type Source = Option<seq<Item>>

  /** What an operation reports to the user interface. */
  datatype Outcome = Ok | NotFound | Duplicate | InvalidJson | CorruptStore

  /** The backing file: absent, present but unreadable, or holding a mapping. */
  datatype StoreFile = Missing | Corrupt | Saved(contents: Schemas)

  /** The mapping an operation starts from: an absent file reads as the empty mapping. */
  function Loaded(f: StoreFile): (r: Option<Schemas>)
    ensures r.None? <==> f.Corrupt?
    ensures f.Missing? ==> r == Some(map[])
    ensures f.Saved? ==> r == Some(f.contents)
  {
    match f
    case Missing => Some(map[])
    case Corrupt => None
    case Saved(m) => Some(m)
  }

  /** The outcome of an operation together with the mapping it leaves. */
  datatype Change = Change(outcome: Outcome, after: Schemas)

  /** Deleting `name` from the loaded mapping `m`. */
  function DeleteFrom(m: Schemas, name: Name): (r: Change)
    ensures r.outcome == Ok || r.outcome == NotFound
    ensures r.outcome == NotFound <==> name !in m
    ensures r.outcome == NotFound ==> r.after == m
    ensures r.after.Keys == m.Keys - {name}
    ensures forall k :: k in r.after ==> r.after[k] == m[k]
  {
    if name !in m then Change(NotFound, m) else Change(Ok, m - {name})
  }

  /** Creating `name` in the loaded mapping `m`; `parsed` is the JSON parser's verdict on the content. */
  function CreateIn(m: Schemas, name: Name, parsed: Option<Json>): (r: Change)
    ensures r.outcome == Duplicate <==> name in m
    ensures r.outcome == InvalidJson <==> name !in m && parsed.None?
    ensures r.outcome == Ok <==> name !in m && parsed.Some?
    ensures r.outcome != Ok ==> r.after == m
    ensures r.outcome == Ok ==> r.after.Keys == m.Keys + {name} && r.after[name] == parsed.value
    ensures forall k :: k in m ==> k in r.after && r.after[k] == m[k]
  {
    if name in m then Change(Duplicate, m)
    else match parsed
      case None => Change(InvalidJson, m)
      case Some(doc) => Change(Ok, m[name := doc])
  }

  /** The replacement name the merge prompt suggests for a conflicting name. */
  function DefaultRename(name: Name): (r: Name)
    ensures |r| > |name| && r[..|name|] == name
    ensures r != name
  {
    name + "_merged"
  }

  /** Where an incoming entry lands: its own name, or the resolver's name when that one is taken. */
  function Target(acc: Schemas, name: Name, rename: Name -> Name): (r: Name)
    ensures r == name <==> name !in acc || rename(name) == name
    ensures r != name ==> name in acc && r == rename(name)
  {
    if name in acc then rename(name) else name
  }

  /** Folding one incoming entry into the accumulator. */
  function MergeEntry(acc: Schemas, item: Item, rename: Name -> Name): (r: Schemas)
    ensures r.Keys == acc.Keys + {Target(acc, item.0, rename)}
    ensures item.0 !in acc ==> item.0 in r && r[item.0] == item.1
    ensures item.0 in acc ==> rename(item.0) in r && r[rename(item.0)] == item.1
    ensures item.0 in acc && rename(item.0) != item.0 ==> r[item.0] == acc[item.0]
    ensures forall k :: k in acc && k != Target(acc, item.0, rename) ==> r[k] == acc[k]
  {
    acc[Target(acc, item.0, rename) := item.1]
  }

  /** Folding the items of one source into the accumulator, first item first. */
  function MergeItems(acc: Schemas, items: seq<Item>, rename: Name -> Name): (r: Schemas)
    ensures acc.Keys <= r.Keys
    decreases |items|
  {
    if items == [] then acc
    else MergeItems(MergeEntry(acc, items[0], rename), items[1..], rename)
  }

  /** Folding one source; a source that could not be read leaves the accumulator alone. */
  function MergeSource(acc: Schemas, source: Source, rename: Name -> Name): (r: Schemas)
    ensures acc.Keys <= r.Keys
    ensures source.None? ==> r == acc
  {
    match source
    case None => acc
    case Some(items) => MergeItems(acc, items, rename)
  }

  /** Folding all sources into the accumulator, first source first. */
  function MergeSources(acc: Schemas, sources: seq<Source>, rename: Name -> Name): (r: Schemas)
    ensures acc.Keys <= r.Keys
    ensures (forall i :: 0 <= i < |sources| ==> sources[i].None?) ==> r == acc
    decreases |sources|
  {
    if sources == [] then acc
    else MergeSources(MergeSource(acc, sources[0], rename), sources[1..], rename)
  }

  /** The store as the user interface sees it: the backing file. */
  class Store {
    var file: StoreFile

    constructor (file: StoreFile)
      ensures this.file == file
    {
      this.file := file;
    }

    /** Reads the whole mapping; a file that is not there reads as empty. */
    method LoadSchemas() returns (r: Option<Schemas>)
      ensures r.None? <==> file.Corrupt?
      ensures file.Missing? ==> r == Some(map[])
      ensures file.Saved? ==> r == Some(file.contents)
    {
      r := Loaded(file);
    }

    /** Overwrites the file with the whole mapping. */
    method SaveSchemas(m: Schemas)
      modifies this
      ensures file == Saved(m)
      ensures Loaded(file) == Some(m)
    {
      file := Saved(m);
    }

    /** Removes `name`; an absent name is reported and the file is not written. */
    method Delete(name: Name) returns (outcome: Outcome)
      modifies this
      ensures old(file).Corrupt? ==> outcome == CorruptStore && file == old(file)
      ensures !old(file).Corrupt? ==>
        var c := DeleteFrom(Loaded(old(file)).value, name);
        outcome == c.outcome && file == (if c.outcome == Ok then Saved(c.after) else old(file))
    {
      var loaded := LoadSchemas();
      if loaded.None? {
        return CorruptStore;
      }
      var schemas := loaded.value;
      if name !in schemas {
        return NotFound;
      }
      schemas := schemas - {name};
      SaveSchemas(schemas);
      outcome := Ok;
    }

    /**
     * Adds `name` with the parsed content. A taken name is refused before the
     * content is looked at; the file is written only after a successful parse.
     */
    method Create(name: Name, parsed: Option<Json>) returns (outcome: Outcome)
      modifies this
      ensures old(file).Corrupt? ==> outcome == CorruptStore && file == old(file)
      ensures !old(file).Corrupt? ==>
        var c := CreateIn(Loaded(old(file)).value, name, parsed);
        outcome == c.outcome && file == (if c.outcome == Ok then Saved(c.after) else old(file))
    {
      var loaded := LoadSchemas();
      if loaded.None? {
        return CorruptStore;
      }
      var schemas := loaded.value;
      if name in schemas {
        return Duplicate;
      }
      match parsed
      case None =>
        outcome := InvalidJson;
      case Some(doc) =>
        schemas := schemas[name := doc];
        SaveSchemas(schemas);
        outcome := Ok;
    }

    /**
     * Folds every readable source into the stored mapping and saves the result
     * once. `failed` lists, in order, the positions of the sources that could
     * not be read; they are skipped and the merge still succeeds.
     */
    method Merge(sources: seq<Source>, rename: Name -> Name) returns (outcome: Outcome, failed: seq<nat>)
      modifies this
      ensures old(file).Corrupt? ==> outcome == CorruptStore && failed == [] && file == old(file)
      ensures !old(file).Corrupt? ==>
        outcome == Ok && file == Saved(MergeSources(Loaded(old(file)).value, sources, rename))
      ensures forall p :: 0 <= p < |failed| ==> failed[p] < |sources| && sources[failed[p]].None?
      ensures !old(file).Corrupt? ==> forall i :: 0 <= i < |sources| && sources[i].None? ==> i in failed
      ensures forall p, q :: 0 <= p < q < |failed| ==> failed[p] < failed[q]
    {
      var loaded := LoadSchemas();
      if loaded.None? {
        return CorruptStore, [];
      }
      var merged := loaded.value;
      failed := [];
      var i := 0;
      while i < |sources|
        invariant 0 <= i <= |sources|
        invariant MergeSources(merged, sources[i..], rename) == MergeSources(loaded.value, sources, rename)
        invariant forall p :: 0 <= p < |failed| ==> failed[p] < i && sources[failed[p]].None?
        invariant forall j :: 0 <= j < i && sources[j].None? ==> j in failed
        invariant forall p, q :: 0 <= p < q < |failed| ==> failed[p] < failed[q]
      {
        assert sources[i..][1..] == sources[i + 1..];
        match sources[i] {
          case None =>
            failed := failed + [i];
          case Some(items) =>
            ghost var before := merged;
            var j := 0;
            while j < |items|
              invariant 0 <= j <= |items|
              invariant MergeItems(merged, items[j..], rename) == MergeItems(before, items, rename)
            {
              assert items[j..][1..] == items[j + 1..];
              var (name, doc) := items[j];
              if name in merged {
                var newName := rename(name);
                merged := merged[newName := doc];
              } else {
                merged := merged[name := doc];
              }
              j := j + 1;
            }
        }
        i := i + 1;
      }
      SaveSchemas(merged);
      outcome := Ok;
    }
  }
}
