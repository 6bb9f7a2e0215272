# motorengine: connection registry, coroutine query set, dict field

A Dafny model of three parts of motorengine, the asynchronous MongoDB
object-document mapper built on Motor:

- **The connection registry** (`motorengine/connection.py`). It is modelled as class
  `Connection.Registry`, whose three maps are keyed by alias:
  - the registered settings;
  - the live Motor client;
  - the default database name.

  `register_connection`, `cleanup`, `get_connection`, `connect` and
  `disconnect` are methods that update those maps in place. Building the client
  and `open_sync` are outcomes of the environment, so they come in as the boolean
  parameters `constructs` and `opens`.
- **The asyncio `QuerySet`** (`motorengine/aiomotorengine/queryset.py`).
  `AsyncQuerySet.QuerySet` models it as a class whose `filters` are updated in
  place. It works on `Document` objects (their `_id` and field values)
  and on a shared `Collection` object.

  The collection holds an in-memory store (module `Storage`). Each driver call
  (`insert`, `update`, `remove`, `find(...).to_list`, `ensure_index`) is one pure
  step on that store:
  - identities come from a supply that only grows, so natural order is identity order;
  - whether a write breaks a unique index is an uninterpreted predicate.

  What the document class and the base query set supply is gathered in the
  uninterpreted functions of `Schema`: validation, the on-save hook, SON
  conversion, filter translation and `transform_definition`.
- **`DictField`** (`motorengine/fields/dict_field.py`). Both SON conversions are
  the identity and every value validates.

Every method is proved against pure specification functions:
- `Persist` for `save_document`;
- `Screen` for the validation pass of `bulk_insert`;
- `InsertAll`, `RemoveWhere`, `UpdateWhere` and `Find` for the driver calls;
- `Indexed` and `IndexedFields` for `ensure_index`;
- `ClientOptions`, `DatabaseName` and `Opened` for `get_connection`.

Lemmas connect those functions to each other. For example:
- a saved document is found again by its identity (`SaveThenGet`);
- a scan lists each selected document once, in ascending identity order;
- the validation pass stops at the first failing document and ignores the rest.

In the asyncio query set, `update` and `remove` leave the accumulated filters in
place (`motorengine/aiomotorengine/queryset.py` lines 128-192 never reset `_filters`);
only `find_all` and `count` clear them (lines 259 and 288). The model does the same.

## Model

| member | source | states |
|---|---|---|
| Connection.ClientClasses | motorengine/connection.py:35-50 | the framework is accepted iff it is 'tornado' or 'asyncio'; anything else is the ValueError |
| Connection.DatabaseClassOf | motorengine/connection.py:53-61 | a database wrapper exists iff the framework is 'tornado' or 'asyncio', each with its own class; otherwise the ValueError |
| Connection.ClientOptions | motorengine/connection.py:101-113 | client options never contain 'name'; 'port' survives iff present and no 'replicaSet'; 'replicaSet' survives iff it is a string; every other setting passes through unchanged |
| Connection.DatabaseName | motorengine/connection.py:130-134 | an explicit string name wins; None falls back to the alias's default, which must be a string; any other name is a failed attribute lookup |
| Connection.Opened | motorengine/connection.py:130-138 | the result succeeds iff both the database name and the framework's wrapper class resolve, and then wraps that client's named database; otherwise it carries the first failure |
| Connection.Registry.constructor | motorengine/connection.py:30-32 | the registry starts with three empty maps |
| Connection.Registry.RegisterConnection | motorengine/connection.py:64-69 | the alias's settings and default database are replaced; live clients are untouched |
| Connection.Registry.Cleanup | motorengine/connection.py:72-79 | all three maps are emptied |
| Connection.Registry.GetConnection | motorengine/connection.py:94-138 | a client is built only for an alias without one, and only when settings are registered, the framework is known and construction succeeds. It is built from ClientOptions of the stored settings. A live client is reused and opened if closed. Other aliases and all settings are unchanged. Each raise (KeyError, ValueError, ConnectionError) is its own error. On the creating call the registered 'name' replaces the db argument. |
| Connection.Registry.Connect | motorengine/connection.py:141-160 | settings with 'name' set to db are registered only when the alias has no live client; the result is then that of get_connection with the same db |
| Connection.Registry.Disconnect | motorengine/connection.py:82-91 | an alias without a client is left alone; otherwise the alias leaves all three maps iff fetching its default database succeeds; when that fails the error propagates and only the client's open state may change |
| DictField.ToSon | motorengine/fields/dict_field.py:8-9 | the stored form is the value itself |
| DictField.FromSon | motorengine/fields/dict_field.py:11-12 | the value read back is the stored form itself |
| DictField.Validate | motorengine/fields/dict_field.py:14-15 | every value, None included, is valid |
| DictField.RoundTrip | motorengine/fields/dict_field.py:8-12 | from_son(to_son(v)) == v |
| DictField.ReverseRoundTrip | motorengine/fields/dict_field.py:8-12 | to_son(from_son(s)) == s |
| Storage.InsertOne | motorengine/aiomotorengine/queryset.py:80-86 | the insert fails iff a unique index clashes; otherwise the document is stored under a fresh identity that becomes the next one, and nothing else changes |
| Storage.ReplaceOne | motorengine/aiomotorengine/queryset.py:72-78 | the replacement fails iff the identity is stored and the new document clashes with the others; a missing identity writes nothing; otherwise only that document changes |
| Storage.InsertAll | motorengine/aiomotorengine/queryset.py:122 | the batch is inserted in order under consecutive fresh identities; a failure is a duplicate key with the earlier documents kept; nothing already stored changes; on success there is one identity per document, in input order |
| Storage.InsertedMeans | motorengine/aiomotorengine/queryset.py:122 | the store after the first i documents of a batch holds everything stored before, unchanged, plus document j under identity nextId + j |
| Storage.InsertedShift | motorengine/aiomotorengine/queryset.py:122 | inserting the first document and then i more of the rest is inserting i + 1 documents of the batch |
| Storage.InsertAllWrites | motorengine/aiomotorengine/queryset.py:122 | what a batch insert leaves is exactly the store after the documents before the one it stopped at |
| Storage.FitsShift | motorengine/aiomotorengine/queryset.py:122 | a document fits in the rest of a batch, after the first went in, exactly when it fits in the whole batch |
| Storage.InsertAllFits | motorengine/aiomotorengine/queryset.py:122 | every document a batch insert wrote did not clash with the store as the documents before it left it |
| Storage.FitsAfterFirst | motorengine/aiomotorengine/queryset.py:122 | the documents of the rest of a batch that fit after the first went in fit one place later in the whole batch |
| Storage.InsertAllStops | motorengine/aiomotorengine/queryset.py:122 | a failed batch insert stopped inside the batch, at a document that does not fit |
| Storage.StopClashes | motorengine/aiomotorengine/queryset.py:122 | a document that does not fit clashes with the store the documents before it leave |
| Storage.InsertAllFails | motorengine/aiomotorengine/queryset.py:122 | a failed batch insert stopped at a document that clashes with what was written before it |
| Storage.InsertAllSucceeds | motorengine/aiomotorengine/queryset.py:122 | a batch insert succeeds iff no document of the batch clashes with the store the documents before it left |
| Storage.RemoveWhere | motorengine/aiomotorengine/queryset.py:185-192 | exactly the selected documents are deleted; the survivors are unchanged; the count equals both the number selected and the drop in size |
| Storage.RemoveById | motorengine/aiomotorengine/queryset.py:185 | removing by identity deletes just that document and counts 1 or 0 as it was stored or not |
| Storage.RemoveEverything | motorengine/aiomotorengine/queryset.py:191 | removing with no query empties the collection and counts what it held |
| Storage.UpdateWhere | motorengine/aiomotorengine/queryset.py:137-142 | every selected document is rewritten, the others are kept, no identity appears or disappears, and the count is the number selected |
| Storage.EnsureIndexOn | motorengine/aiomotorengine/queryset.py:305-310 | the index exists afterwards; the existing indexes are kept; no other index appears; no document changes |
| Storage.EnsureIndexIdempotent | motorengine/aiomotorengine/queryset.py:305-310 | ensuring the same index twice leaves the collection as ensuring it once |
| Storage.Find | motorengine/aiomotorengine/queryset.py:218-220 | at most `length` documents come back, as many as are selected up to that bound; each is stored and selected; they come in strictly ascending identity order; a selected document left out comes after every one returned, so the result is the first `length` in natural order |
| Storage.ScanCount | motorengine/aiomotorengine/queryset.py:261 | a natural-order scan lists each selected document below the bound exactly once |
| Storage.ScanSorted | motorengine/aiomotorengine/queryset.py:261 | a natural-order scan yields stored, selected documents in strictly ascending identity order |
| Storage.ScanComplete | motorengine/aiomotorengine/queryset.py:261 | a natural-order scan lists every selected document below the bound |
| Storage.ScanSingle | motorengine/aiomotorengine/queryset.py:211-220 | a query that can only select one identity finds that document or nothing |
| AsyncQuerySet.FilterSelector | motorengine/aiomotorengine/queryset.py:133-135 | with no filters every document is selected; otherwise the translated filters decide |
| AsyncQuerySet.GetSelector | motorengine/aiomotorengine/queryset.py:204-216 | the RuntimeError is raised iff neither an id nor filters is given; an id selects exactly that identity and wins over filters; otherwise the filters decide |
| AsyncQuerySet.Persist | motorengine/aiomotorengine/queryset.py:72-86 | a document with `_id` is replaced and keeps it; one without gets a fresh identity; the write fails iff a unique index clashes; the document is stored as given and nothing else changes |
| AsyncQuerySet.SaveThenGet | motorengine/aiomotorengine/queryset.py:80-86 | after saving a new document, getting its new identity finds exactly that document |
| AsyncQuerySet.GetMissing | motorengine/aiomotorengine/queryset.py:218-222 | getting an identity that is not stored finds nothing |
| AsyncQuerySet.IndexedFields | motorengine/aiomotorengine/queryset.py:297-300 | never collects more fields than are declared |
| AsyncQuerySet.IndexedFieldsCount | motorengine/aiomotorengine/queryset.py:297-300 | the collected fields are exactly the unique or sparse ones, each as often as it is declared |
| AsyncQuerySet.IndexedFieldsInOrder | motorengine/aiomotorengine/queryset.py:297-300 | the collected fields keep declaration order: collecting from a field and the rest is that field, if unique or sparse, followed by what is collected from the rest |
| AsyncQuerySet.IndexesOfStep | motorengine/aiomotorengine/queryset.py:304-310 | ensuring one more field adds exactly that field's index |
| AsyncQuerySet.Indexed | motorengine/aiomotorengine/queryset.py:295-312 | ensuring the class's indexes keeps every document and every existing index, and adds exactly one index per unique or sparse field |
| AsyncQuerySet.Screen | motorengine/aiomotorengine/queryset.py:98-120 | the validation pass either accepts the whole batch with one SON per document, or stops at a position inside the batch |
| AsyncQuerySet.ScreenMeans | motorengine/aiomotorengine/queryset.py:98-120 | all accepted means every hooked document validated, and its SON is collected in order; a rejection or raise points at a document that failed that way, with every earlier one accepted |
| AsyncQuerySet.ScreenStep | motorengine/aiomotorengine/queryset.py:98-117 | one more document either extends the collected SON or stops the pass at its position, as its validation decides |
| AsyncQuerySet.ScreenStops | motorengine/aiomotorengine/queryset.py:114-115 | once the pass has stopped, the documents after the failing one do not change its outcome |
| AsyncQuerySet.Document.constructor | motorengine/aiomotorengine/queryset.py:224-231 | a document is built with its `_id`, fields and partly-loaded flag, references not yet loaded |
| AsyncQuerySet.QuerySet.constructor | motorengine/aiomotorengine/queryset.py:17-20 | a query set over a shared collection, with its filters, limit, projection flag and default limit; the `__init__` it stands for lives in the base query set, which is not part of this model |
| AsyncQuerySet.QuerySet.SaveDocument | motorengine/aiomotorengine/queryset.py:67-87 | the store becomes Persist of the document's SON; the new or kept identity is written to `_id`; a clash is UniqueKeyViolationError with store and `_id` unchanged; field values and the references-loaded flag are kept |
| AsyncQuerySet.QuerySet.Save | motorengine/aiomotorengine/queryset.py:50-65 | a partly loaded document is refused before anything changes. The on-save hook then runs, told whether `_id` is set. A rejected document gives None and a raising one the error, writing nothing. An accepted one ensures the indexes and then is persisted. The references-loaded flag is never touched. |
| AsyncQuerySet.QuerySet.RunHook | motorengine/aiomotorengine/queryset.py:62 | the on-save hook rewrites the document's field values, told whether `_id` is set; `_id` and the references-loaded flag stay (also the per-document step of `bulk_insert` at lines 99-101) |
| AsyncQuerySet.QuerySet.Create | motorengine/aiomotorengine/queryset.py:22-48 | the outcome is that of saving a new document built from the fields. A rejection gives None and a raise the error, both writing nothing. An accepted document either clashes (UniqueKeyViolationError after the indexes are ensured) or is a new, fully loaded document with no references loaded, under a fresh identity, the only document added. |
| AsyncQuerySet.QuerySet.BulkInsert | motorengine/aiomotorengine/queryset.py:89-126 | the hook runs on the documents up to the first failure. A failure writes nothing and assigns no `_id`: None for a rejection, ValueError with the position for a raise. Otherwise the store becomes InsertAll of the collected SON. Each document then gets its identity in order, or the driver's DuplicateKeyError leaks out. No document's references-loaded flag changes. |
| AsyncQuerySet.QuerySet.ValidateBatch | motorengine/aiomotorengine/queryset.py:98-117 | the pass returns Screen of the batch; the hook has run exactly on the documents it reached; `_id`s and references-loaded flags are untouched |
| AsyncQuerySet.QuerySet.AssignIds | motorengine/aiomotorengine/queryset.py:124-125 | the k-th document gets the k-th identity; field values and references-loaded flags are untouched |
| AsyncQuerySet.QuerySet.Update | motorengine/aiomotorengine/queryset.py:128-147 | `$set` of the transformed definition is applied to exactly the documents the filters select; the count is how many were selected and `updated_existing` says whether any were; the identities, the identity supply and the indexes stay as they were |
| AsyncQuerySet.QuerySet.Remove | motorengine/aiomotorengine/queryset.py:180-192 | with an instance only its `_id` is deleted (count 1 iff it was stored). Otherwise the filters' selection is deleted, or everything when there are no filters. The count is always the drop in size; the identity supply and the indexes stay as they were. |
| AsyncQuerySet.QuerySet.Delete | motorengine/aiomotorengine/queryset.py:149-178 | delete is remove without an instance: exactly the documents the filters select are deleted and the others kept unchanged, or everything when there are no filters; the count is the drop in size; the identity supply and the indexes stay as they were |
| AsyncQuerySet.QuerySet.Get | motorengine/aiomotorengine/queryset.py:194-236 | without id and filters it is the RuntimeError; otherwise None iff nothing is selected. Else a new document built from the first selected one: partly loaded iff a projection is in force, references loaded iff the document class is not lazy. |
| AsyncQuerySet.QuerySet.FindAll | motorengine/aiomotorengine/queryset.py:238-280 | one new document per document Find returns for the filters up to the limit (or the default), in order; partly loaded iff a projection is in force; references loaded iff lazy is False or the class is not lazy; the filters are cleared |
| AsyncQuerySet.QuerySet.Count | motorengine/aiomotorengine/queryset.py:282-289 | the count is the number of documents the filters select, never fewer than find_all would return; the filters are cleared |
| AsyncQuerySet.QuerySet.FieldsToIndex | motorengine/aiomotorengine/queryset.py:297-300 | the loop collects exactly IndexedFields of the declared fields, in order |
| AsyncQuerySet.QuerySet.EnsureIndex | motorengine/aiomotorengine/queryset.py:295-312 | the store's indexes become Indexed; the reply is the number of unique or sparse fields |

## Left out

- Motor and the asyncio event loop are not modelled; each coroutine is one atomic step, and driver replies are values of the in-memory store.
- Connection.Registry.GetConnection: whether the client can be constructed and whether `open_sync` succeeds are parameters, not a model of the driver; the error message text is dropped.
- Connection.Registry.GetConnection: the replica-set client class is fetched but the plain client class is always used, as in the code; the database attribute lookup only distinguishes string and non-string names, and names that Motor would refuse (such as ones starting with '_') are not modelled.
- Connection.Registry.Disconnect: the effect of the database wrapper's own `disconnect()` on the client is not modelled; the `database` modules are not part of this model.
- AsyncQuerySet.QuerySet.Get: string ids converted with `ObjectId(...)` are not modelled; identities are natural numbers.
- AsyncQuerySet.QuerySet.SaveDocument: the message of UniqueKeyViolationError, parsed from the driver's error text, is not modelled.
- AsyncQuerySet.QuerySet.Get: the projection `_loaded_fields.to_query(...)` passed to `find_one` is not modelled; a partly loaded document holds the SON conversion of the whole stored document. The same holds for AsyncQuerySet.QuerySet.FindAll.
- AsyncQuerySet.QuerySet.EnsureIndex: the server refusing an index (for example a unique index over documents that already share the key) is not modelled; ensuring an index always succeeds, so AsyncQuerySet.QuerySet.Save never fails before `save_document`.
- Storage.EnsureIndexOn: the reply is the index's key, not the name the server generates for it (such as `key_1`); only how many replies there are is used.
- AsyncQuerySet.QuerySet.Get: `load_references` is modelled only as a flag on the document; loading referenced documents and reference projections are not modelled.
- AsyncQuerySet.QuerySet.Save: the on-save hook (`update_field_on_save_values`, such as auto-now timestamps), validation, SON conversion and filter translation are uninterpreted functions; the document class and the base query set are not part of this model.
- AsyncQuerySet.QuerySet.BulkInsert: requires distinct document objects; a batch that lists one object twice (aliasing) is not modelled.
- AsyncQuerySet.QuerySet.BulkInsert: an empty batch is modelled as an empty insert returning the empty list; the driver's refusal of an empty insert is not modelled.
- AsyncQuerySet.QuerySet.Remove: requires an instance to have an `_id`; with an instance whose `_id` is unset the code reaches `res['n']` without a reply and fails, which is not modelled.
- AsyncQuerySet.QuerySet.Update: unique-index clashes during a multi-document update are not modelled.
- AsyncQuerySet.QuerySet.FindAll: `DEFAULT_LIMIT` and `_get_find_cursor` come from the base query set in `motorengine/queryset.py`, which is not part of this model; the default limit is a field of the query set and the cursor is taken to select what the filters select (everything when there are none), in natural order (ascending identity); any sort or skip the base query set's cursor may apply is not modelled.
- The `aggregate` property, `_get_connection_function` and the `alias` argument that picks a database per call are not modelled; every query set talks to one collection.
