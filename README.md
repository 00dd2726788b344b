# Schema store with conflict-renaming merge

A model of the schema store behind barfi's schema-management page
(`index.py`). The store is one pickled file that holds a dictionary from
schema name to schema document, an arbitrary JSON-like tree. There are three
operations on it. Each one loads the whole dictionary, changes a local copy
and writes the whole dictionary back:

- **delete** removes a named schema. An absent name is reported and nothing is written.
- **create** adds a schema under a new name. A taken name is refused. Content that is not JSON is refused too.
  The file is written only after a successful parse.
- **merge** folds the dictionaries of several uploaded files into the store.
  - An incoming name that is not yet taken goes in under itself.
  - A taken name goes in under a replacement name: whatever the conflict prompt returns at that moment. In the run that performs the merge this is normally the prompt's default, `name + "_merged"`, because the result is saved before the user can type anything. The replacement name is not checked again.
  - An upload that cannot be unpickled is reported and skipped.
  - The result is saved once, at the end.

Layout:

- `documents.dfy` (module `Documents`): `Option` and the `Json` document type.
- `schema_store.dfy` (module `SchemaStore`): the backing file (`StoreFile`, which is missing, corrupt or saved), and the specification functions `DeleteFrom`, `CreateIn` and `MergeEntry`/`MergeItems`/`MergeSources`. It also holds the `Store` class, whose methods load, change and save step by step. Each method is proved to agree with the specification functions.
- `merge_properties.dfy` (module `MergeProperties`): what a merge does to the mapping. It never deletes, it only adds incoming or replacement names, and stored entries are kept unless a replacement name hits them. It also shows that an unreadable source changes nothing and that conflicts are judged against everything merged so far.
- `store_properties.dfy` (module `StoreProperties`): delete and create undo each other, plus example behaviours of create, delete and merge, including a scenario driven through a `Store` object.

Inputs that the code takes from elsewhere become parameters:

- The result of `json.loads` is `parsed: Option<Json>`, where `None` means the content did not parse.
- The conflict prompt is `rename: Name -> Name`, which gives whatever value the prompt returns during the merge. `DefaultRename` is the prompt's default value, and it is what the prompt returns when it is first shown.
- Each uploaded file is a `Source`: `Some(items)` lists the decoded dictionary's items in order, and `None` stands for a file that could not be unpickled.

## Model

| member | source | states |
|---|---|---|
| `SchemaStore.Store.LoadSchemas` | index.py:10-14 | A missing file reads as the empty mapping, a saved file as its contents, and only an unreadable file gives no mapping |
| `SchemaStore.Store.SaveSchemas` | index.py:17-19 | The file afterwards holds exactly the given mapping, and loading it gives that mapping back |
| `SchemaStore.DeleteFrom` | index.py:22-29 | NotFound exactly when the name is absent, and then the mapping is unchanged. Otherwise the keys are the old keys minus that name, and every remaining entry keeps its document |
| `SchemaStore.Store.Delete` | index.py:22-29 | An unreadable file is left alone (CorruptStore). Otherwise the outcome is DeleteFrom's, and the file is rewritten only on Ok |
| `SchemaStore.CreateIn` | index.py:56-67 | Duplicate exactly when the name is taken. InvalidJson exactly when the name is free and the content did not parse. Ok exactly when the name is free and the content parsed. On any refusal the mapping is unchanged. On Ok exactly the new name is added with the parsed document. No existing entry ever changes |
| `SchemaStore.Store.Create` | index.py:56-67 | An unreadable file is left alone. Otherwise the outcome is CreateIn's, and the file is written only on Ok, that is, after a successful parse |
| `SchemaStore.DefaultRename` | index.py:41-45 | The suggested replacement extends the conflicting name and differs from it |
| `SchemaStore.MergeEntry` | index.py:39-48 | A free name is stored under itself. A taken name is stored under the resolver's name, and the original entry under the taken name keeps its document unless the resolver returns that same name. Exactly one key (the target) may be new, and every other entry is unchanged |
| `SchemaStore.Loaded` | index.py:10-14 | The mapping an operation starts from. It is absent exactly for an unreadable file, empty for a missing file, and the saved contents otherwise |
| `SchemaStore.Target` | index.py:40-48 | An incoming entry keeps its own name exactly when that name is free or the resolver returns it unchanged. Otherwise the entry goes to the resolver's name, and only for a taken name |
| `SchemaStore.MergeItems` | index.py:39-48 | The inner merge loop: folds one source's entries in order into the accumulator, and never removes a key. `Store.Merge` is proved to compute it, and the MergeProperties lemmas characterise it |
| `SchemaStore.MergeSource` | index.py:34-50 | One pass of the outer loop: never removes a key, and an unreadable source leaves the accumulator unchanged |
| `SchemaStore.MergeSources` | index.py:33-50 | The reference definition of a whole merge, starting from the loaded mapping. It never removes a key, and when no source is readable the result is the loaded mapping. `Store.Merge` is proved equal to it, and every MergeProperties lemma is about it |
| `SchemaStore.Store.Merge` | index.py:32-53 | An unreadable store file is left alone. Otherwise the file is saved once with the fold of all sources over the loaded mapping, and the outcome is Ok even if sources failed. `failed` lists, in increasing order, exactly the positions of the unreadable sources |
| `MergeProperties.MergeItemsAppend` | index.py:34-48 | Merging two runs of entries one after the other equals merging their concatenation |
| `MergeProperties.MergeSourcesIsMergeOfReadableItems` | index.py:33-50 | A merge over sources equals merging the readable sources' items as one run, so each entry is judged against everything earlier sources inserted |
| `MergeProperties.UnreadableSourceAddsNothing` | index.py:34-50 | An unreadable source anywhere in the list gives the same result as leaving it out, so later sources are still merged |
| `MergeProperties.MergeItemsKeys` | index.py:39-48 | Folding one source's entries keeps every existing key, and adds only incoming names or replacement names |
| `MergeProperties.MergeKeys` | index.py:33-48 | A whole merge never deletes a stored name, and every name it adds is an incoming name or a replacement name |
| `MergeProperties.MergeItemsKeepsEntry` | index.py:39-48 | A stored entry whose name the resolver never hands out keeps its document through one source's entries |
| `MergeProperties.MergeKeepsEntry` | index.py:33-48 | The same for a whole merge: no incoming entry overwrites a stored name under its own name |
| `MergeProperties.MergeWithoutConflicts` | index.py:39-48 | Incoming entries that have distinct new names land under their own names, the keys become the old keys plus the incoming names, and stored entries are unchanged |
| `MergeProperties.ReplacementOverwrites` | index.py:40-46 | When the replacement name is taken as well, its document is overwritten and the store does not grow. This includes a resolver that returns the conflicting name itself |
| `StoreProperties.DeleteUndoesCreate` | index.py:22-67 | Creating a fresh name and then deleting it returns the original mapping |
| `StoreProperties.CreateUndoesDelete` | index.py:22-67 | Deleting a name and re-creating it with its old document returns the original mapping |
| `StoreProperties.CreateTwiceKeepsFirst` | index.py:56-64 | A second create under the same name is Duplicate, and the first document stays |
| `StoreProperties.MergeOneEntry` | index.py:34-48 | A source with one entry merges exactly as that entry is folded in |
| `StoreProperties.MergeWithoutConflictExample` | index.py:39-48 | `{"X": 1}` merged with `{"Y": 2}` gives `{"X": 1, "Y": 2}` |
| `StoreProperties.MergeConflictExample` | index.py:40-46 | `{"X": 1}` merged with `{"X": 2}` under the default suggestion gives `{"X": 1, "X_merged": 2}` |
| `StoreProperties.MergePartialFailureExample` | index.py:34-50 | An unreadable first source followed by `{"Y": 2}` still adds `Y` |
| `StoreProperties.MergeConflictAcrossSourcesExample` | index.py:34-48 | A name that an earlier source inserted makes the same name in a later source a conflict |
| `StoreProperties.DefaultSuggestionMayOverwriteExample` | index.py:40-46 | When `X` and `X_merged` are both stored, an incoming `X` replaces the document under `X_merged` |
| `StoreProperties.MergeDelayedConflict` | index.py:32-53 | Merging an unreadable source and then `{"A": …}` into `{"A": …}` keeps the old `A` and stores the new one under `A_merged` |

## Left out

- The Streamlit page (`main`, `display_schemas`, the schema list, the style block, the buttons and the sample schema text at index.py:70-235). It is presentation only, including the list and view of schemas, which only read the mapping.
- The `st.error`/`st.success` messages. Their content is modelled only as the `Outcome` value and, for merge, as the positions of the failed sources. The exception text shown for a failed source is not modelled.
- The empty-field checks before create (index.py:163, index.py:232) live in the page, not in `create_new_schema`. Names are not required to be non-empty or trimmed: `create_new_schema` neither trims nor checks, and the model follows the code.
- Pickle encoding and file I/O. The backing file is the `StoreFile` value held by `Store`. A write that fails, or a crash mid-write, is not modelled. An unreadable store file raises in the code; here it is the `CorruptStore` outcome, with nothing written.
- JSON parsing (`json.loads`, RFC 8259). Only its verdict enters, as `parsed`. JSON numbers are kept as their literal text, because the store never computes with them. Floating point is therefore not modelled.
- Merge sources are already decoded. A file that unpickles to something without `.items()` fails before any entry is inserted, which is the same as `None`.
- `Store.Merge`: the prompt is modelled as a function of the conflicting name alone, namely the value the prompt returns in the run that merges. `st.text_input` (index.py:41-45) does not wait for the user. In the run triggered by the merge button (index.py:143) it returns the widget's current value, which on first display is the default `name + "_merged"`. The merged result is saved (index.py:52) before the user can type. A typed name takes effect only if the user presses merge again, and that second run merges every upload again. These re-runs across user interactions are not modelled. An exception raised by the prompt part-way through a source is not modelled either. For example, a repeated widget key when the same name conflicts twice would keep that source's earlier entries and drop the rest.
- A replacement name that is itself taken is not re-checked: `merge_schemas` silently overwrites it, and `ReplacementOverwrites` states the overwrite.
- Creating and removing the temporary files for uploads (index.py:145-155) is filesystem plumbing.
- Dictionary keys are modelled as strings. A pickled source with keys of other types is not modelled.
