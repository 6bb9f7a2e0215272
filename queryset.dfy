/**
 * The persistence operations of the coroutine-based QuerySet: save with its
 * partly-loaded guard and insert-or-replace dispatch, the all-or-nothing
 * validation pass of bulk insert, update, the three branches of remove, get,
 * find_all, count and ensure_index.
 *
 * What the document class and the base query set supply (validation, the
 * on-save hook, SON conversion, filter translation) is taken as
 * uninterpreted functions gathered in `Schema`. The collection is the
 * in-memory store of module Storage, reached through a `Collection` object
 * that every query set of a document class shares.
 */
module AsyncQuerySet {
  import opened Values
  import opened Storage

  /** One declared field of the document class, as far as indexing is concerned. */
  datatype FieldSpec = FieldSpec(name: string, dbField: string, unique: bool, sparse: bool)

  /** What `validate_document` does with a document: accept it, reject it, or raise. */
  datatype Validation = Accepted | Rejected | Raised(message: string)

  /** Filters accumulated on a query set, field name to operand. */
  type Filters = map<string, Value>

  /** The document class and the base query set, as far as the operations below use them. */
  datatype Schema = Schema(
    fields: seq<FieldSpec>,             // `__klass__._fields`, in declaration order
    validate: Value -> Validation,      // `validate_document`
    onSave: (Value, bool) -> Value,     // `update_field_on_save_values(document, is_update)`
    toSon: Value -> Value,              // `document.to_son()`
    fromSon: Value -> Value,            // `__klass__.from_son(...)`
    transform: Value -> Value,          // `transform_definition`
    matches: (Filters, Value) -> bool,  // `get_query_from_filters`, as the store evaluates it
    lazy: bool)                         // `is_lazy` of the class and its documents

  datatype QueryError =
    | PartlyLoaded                                  // PartlyLoadedDocumentError
    | InvalidDocument(message: string)              // raised by validate_document during save
    | InvalidInBatch(index: nat, message: string)   // ValueError naming the failing batch position
    | UniqueKeyViolation                            // UniqueKeyViolationError, translated by save
    | DuplicateKeyError                             // the driver's error, leaking out of bulk_insert
    | MissingArgument                               // RuntimeError: get without id and filters

  /** The reply of `update`: `res['n']` and `res['updatedExisting']`. */
  datatype UpdateReply = UpdateReply(count: nat, updatedExisting: bool)

  /** The query for a set of filters. */
  function MatchSelector(schema: Schema, filters: Filters): Selector
  {
    (i: Id, d: Value) => schema.matches(filters, d)
  }

  /** The query of accumulated filters: with none, everything is selected. */
  function FilterSelector(schema: Schema, filters: Filters): (sel: Selector)
    ensures filters == map[] ==> forall i, d :: sel(i, d)
    ensures filters != map[] ==> forall i, d :: sel(i, d) == schema.matches(filters, d)
  {
    if filters == map[] then AllSelector() else MatchSelector(schema, filters)
  }

  /** The argument check of `get`: an id wins; otherwise the keyword filters; with neither, an error. */
  function GetSelector(schema: Schema, id: Option<Id>, kwargs: Filters): (r: Result<Selector, QueryError>)
    ensures r.Err? <==> id.None? && kwargs == map[]
    ensures r.Err? ==> r.error == MissingArgument
    ensures id.Some? ==> r.Ok? && forall i, d :: r.value(i, d) == (i == id.value)
    ensures id.None? && kwargs != map[] ==> r.Ok? && forall i, d :: r.value(i, d) == schema.matches(kwargs, d)
  {
    if id.None? && kwargs == map[] then Err(MissingArgument)
    else if id.Some? then Ok(IdSelector(id.value))
    else Ok(MatchSelector(schema, kwargs))
  }

  /**
   * The storage step of `save_document`: replace by `_id` when the document
   * has one, insert under a fresh identity otherwise. The identity returned
   * is the document's `_id` afterwards.
   */
  function Persist(st: Store, id: Option<Id>, son: Value, clash: Clash): (r: Result<(Store, Id), StoreError>)
    requires Storage.Valid(st)
    ensures r.Err? <==>
      if id.Some? then id.value in st.docs && clash(st.(docs := st.docs - {id.value}), id.value, son)
      else clash(st, st.nextId, son)
    ensures r.Ok? ==> Storage.Valid(r.value.0) && r.value.0.indexes == st.indexes
    // an existing `_id` is kept; a missing one is filled with a fresh identity
    ensures r.Ok? && id.Some? ==> r.value.1 == id.value && r.value.0.docs.Keys == st.docs.Keys
    ensures r.Ok? && id.None? ==> r.value.1 !in st.docs && r.value.0.docs.Keys == st.docs.Keys + {r.value.1}
    // what is written is the document, under its identity, and nothing else changes
    ensures r.Ok? && (id.None? || id.value in st.docs) ==> r.value.0.docs[r.value.1] == son
    ensures r.Ok? ==> forall other :: other in st.docs && other != r.value.1 ==> r.value.0.docs[other] == st.docs[other]
  {
    match id
    case Some(existing) =>
      (match ReplaceOne(st, existing, son, clash)
       case Err(e) => Err(e)
       case Ok(next) => Ok((next, existing)))
    case None => InsertOne(st, son, clash)
  }

  /** Saving a new document and then getting it by the identity it received finds exactly what was saved. */
  lemma SaveThenGet(st: Store, son: Value, clash: Clash)
    requires Storage.Valid(st)
    requires Persist(st, None, son, clash).Ok?
    ensures var (saved, id) := Persist(st, None, son, clash).value;
      Find(saved, IdSelector(id), 1) == [(id, son)]
  {
    var (saved, id) := Persist(st, None, son, clash).value;
    ScanSingle(saved.docs, IdSelector(id), id, saved.nextId);
  }

  /** Getting an identity that is not stored finds nothing. */
  lemma GetMissing(st: Store, id: Id)
    requires Storage.Valid(st)
    requires id !in st.docs
    ensures Find(st, IdSelector(id), 1) == []
  {
  }

  /** The fields `ensure_index` creates an index for: unique or sparse ones, in declaration order. */
  function IndexedFields(fields: seq<FieldSpec>): (r: seq<FieldSpec>)
    ensures |r| <= |fields|
  {
    if fields == [] then []
    else
      var init := IndexedFields(fields[..|fields| - 1]);
      var last := fields[|fields| - 1];
      assert fields == fields[..|fields| - 1] + [last];
      if last.unique || last.sparse then init + [last] else init
  }

  /** The collected fields are the unique or sparse ones, each as often as it is declared. */
  lemma {:induction false} IndexedFieldsCount(fields: seq<FieldSpec>)
    ensures forall f :: multiset(IndexedFields(fields))[f] == if f.unique || f.sparse then multiset(fields)[f] else 0
    ensures forall f :: f in IndexedFields(fields) <==> f in fields && (f.unique || f.sparse)
  {
    if fields != [] {
      var init := fields[..|fields| - 1];
      var last := fields[|fields| - 1];
      IndexedFieldsCount(init);
      assert fields == init + [last];
      assert multiset(fields) == multiset(init) + multiset{last};
    }
  }

  /**
   * The collected fields keep declaration order: filtering a sequence is
   * filtering its first field and then the rest.
   */
  lemma {:induction false} IndexedFieldsInOrder(first: FieldSpec, rest: seq<FieldSpec>)
    ensures IndexedFields([first] + rest) == (if first.unique || first.sparse then [first] else []) + IndexedFields(rest)
    decreases |rest|
  {
    var fields := [first] + rest;
    var head: seq<FieldSpec> := if first.unique || first.sparse then [first] else [];
    if rest != [] {
      var last := rest[|rest| - 1];
      var init := rest[..|rest| - 1];
      var tail: seq<FieldSpec> := if last.unique || last.sparse then [last] else [];
      assert fields[..|fields| - 1] == [first] + init && fields[|fields| - 1] == last;
      IndexedFieldsInOrder(first, init);
      assert IndexedFields(fields) == IndexedFields([first] + init) + tail;
      assert IndexedFields(rest) == IndexedFields(init) + tail;
      assert IndexedFields(fields) == head + IndexedFields(init) + tail;
      assert head + IndexedFields(init) + tail == head + (IndexedFields(init) + tail);
    } else {
      assert fields[..|fields| - 1] == [];
      assert IndexedFields(fields) == IndexedFields([]) + head;
    }
  }

  /** The index `ensure_index` asks for on one field. */
  function IndexFor(field: FieldSpec): Index
  {
    Index(field.dbField, field.unique, field.sparse)
  }

  /** The indexes of a set of fields. */
  function IndexesOf(fields: seq<FieldSpec>): set<Index>
  {
    set f | f in fields :: IndexFor(f)
  }

  /** Taking one more field of a sequence adds that field's index. */
  lemma IndexesOfStep(fields: seq<FieldSpec>, i: nat)
    requires i < |fields|
    ensures IndexesOf(fields[..i + 1]) == IndexesOf(fields[..i]) + {IndexFor(fields[i])}
  {
    assert fields[..i + 1] == fields[..i] + [fields[i]];
  }

  /** The store once every index the document class declares is ensured. */
  function Indexed(st: Store, schema: Schema): (r: Store)
    ensures r.docs == st.docs && r.nextId == st.nextId && st.indexes <= r.indexes
    ensures forall f :: f in schema.fields && (f.unique || f.sparse) ==> IndexFor(f) in r.indexes
    ensures forall x :: x in r.indexes ==> x in st.indexes || exists f :: f in schema.fields && (f.unique || f.sparse) && x == IndexFor(f)
  {
    IndexedFieldsCount(schema.fields);
    st.(indexes := st.indexes + IndexesOf(IndexedFields(schema.fields)))
  }

  /** Where `bulk_insert`'s validation pass ends. */
  datatype Screening = AllValid(sons: seq<Value>) | RejectedAt(index: nat) | RaisedAt(index: nat, message: string)

  /** A batch entry after the on-save hook: its fields and whether it already had an `_id`. */
  function Hooked(schema: Schema, entry: (Value, bool)): Value
  {
    schema.onSave(entry.0, entry.1)
  }

  /**
   * The validation pass of `bulk_insert` over the batch, in order: the first
   * entry that is rejected or raises ends it; if none does, the SON of every
   * hooked entry is collected.
   */
  function Screen(schema: Schema, batch: seq<(Value, bool)>): (r: Screening)
    ensures r.AllValid? ==> |r.sons| == |batch|
    ensures !r.AllValid? ==> r.index < |batch|
  {
    if batch == [] then AllValid([])
    else
      var init := Screen(schema, batch[..|batch| - 1]);
      var entry := Hooked(schema, batch[|batch| - 1]);
      if !init.AllValid? then init
      else
        match schema.validate(entry)
        case Accepted => AllValid(init.sons + [schema.toSon(entry)])
        case Rejected => RejectedAt(|batch| - 1)
        case Raised(message) => RaisedAt(|batch| - 1, message)
  }

  /**
   * What the pass decides: all entries accepted, with the SON of each hooked
   * entry collected in order; or the first entry that is rejected or raises.
   */
  lemma {:induction false} ScreenMeans(schema: Schema, batch: seq<(Value, bool)>)
    ensures var r := Screen(schema, batch);
      (r.AllValid? ==> forall i :: 0 <= i < |batch| ==>
        schema.validate(Hooked(schema, batch[i])).Accepted? && r.sons[i] == schema.toSon(Hooked(schema, batch[i]))) &&
      (r.RejectedAt? ==> schema.validate(Hooked(schema, batch[r.index])).Rejected?) &&
      (r.RaisedAt? ==> schema.validate(Hooked(schema, batch[r.index])) == Raised(r.message)) &&
      (!r.AllValid? ==> forall i :: 0 <= i < r.index ==> schema.validate(Hooked(schema, batch[i])).Accepted?)
  {
    if batch != [] {
      var init := batch[..|batch| - 1];
      ScreenMeans(schema, init);
      assert forall i :: 0 <= i < |init| ==> init[i] == batch[i];
    }
  }

  /** One step of the pass: the next entry extends the collected SON, or stops the pass. */
  lemma ScreenStep(schema: Schema, batch: seq<(Value, bool)>, i: nat, sons: seq<Value>)
    requires i < |batch|
    requires Screen(schema, batch[..i]) == AllValid(sons)
    ensures Screen(schema, batch[..i + 1]) ==
      match schema.validate(Hooked(schema, batch[i]))
      case Accepted => AllValid(sons + [schema.toSon(Hooked(schema, batch[i]))])
      case Rejected => RejectedAt(i)
      case Raised(message) => RaisedAt(i, message)
  {
    assert batch[..i + 1][..i] == batch[..i];
  }

  /** How many entries of a batch of `n` the pass ran the hook on. */
  function Reached(screened: Screening, n: nat): nat
  {
    if screened.AllValid? then n else screened.index + 1
  }

  /** Once the pass has stopped on a prefix of the batch, the rest of the batch does not matter. */
  lemma {:induction false} ScreenStops(schema: Schema, batch: seq<(Value, bool)>, n: nat)
    requires n <= |batch|
    requires !Screen(schema, batch[..n]).AllValid?
    ensures Screen(schema, batch) == Screen(schema, batch[..n])
  {
    if n < |batch| {
      var init := batch[..|batch| - 1];
      assert init[..n] == batch[..n];
      ScreenStops(schema, init, n);
    } else {
      assert batch[..n] == batch;
    }
  }

  /** A stored document, as the document class holds it. */
  class Document {
    var id: Option<Id>            // `_id`
    var fields: Value             // the field values
    const partlyLoaded: bool      // `is_partly_loaded`: fetched with a projection
    var referencesLoaded: bool    // `load_references` has been run on it

    constructor (id: Option<Id>, fields: Value, partlyLoaded: bool)
      ensures this.id == id && this.fields == fields && this.partlyLoaded == partlyLoaded
      ensures !referencesLoaded
    {
      this.id := id;
      this.fields := fields;
      this.partlyLoaded := partlyLoaded;
      referencesLoaded := false;
    }
  }

  /** The collection of a document class on the server. */
  class Collection {
    var store: Store
    const clash: Clash                       // the unique indexes' verdict on a write
    const applySet: (Value, Value) -> Value  // how the server applies `{'$set': definition}`

    ghost predicate Valid()
      reads this
    {
      Storage.Valid(store)
    }
  }

  /** A batch as the validation pass sees it: each document's fields and whether it has an `_id`. */
  ghost function Batch(documents: seq<Document>): (batch: seq<(Value, bool)>)
    reads documents
    ensures |batch| == |documents|
    ensures forall i :: 0 <= i < |documents| ==> batch[i] == (documents[i].fields, documents[i].id.Some?)
  {
    seq(|documents|, i requires 0 <= i < |documents| reads documents => (documents[i].fields, documents[i].id.Some?))
  }

  class QuerySet {
    const schema: Schema
    const coll: Collection        // `self.coll(alias)`
    var filters: Filters          // `_filters`
    var limit: Option<nat>        // `_limit`
    const loadedFields: bool      // `bool(_loaded_fields)`: a projection is in force
    const defaultLimit: nat       // `DEFAULT_LIMIT` of the base query set

    ghost predicate Valid()
      reads this, coll
    {
      coll.Valid()
    }

    constructor (schema: Schema, coll: Collection, filters: Filters, limit: Option<nat>,
                 loadedFields: bool, defaultLimit: nat)
      requires coll.Valid()
      ensures Valid()
      ensures this.schema == schema && this.coll == coll && this.filters == filters && this.limit == limit
      ensures this.loadedFields == loadedFields && this.defaultLimit == defaultLimit
    {
      this.schema := schema;
      this.coll := coll;
      this.filters := filters;
      this.limit := limit;
      this.loadedFields := loadedFields;
      this.defaultLimit := defaultLimit;
    }

    /** `save_document`: insert or replace, translating a duplicate key; the same document comes back. */
    method SaveDocument(document: Document) returns (r: Result<Document, QueryError>)
      requires Valid()
      modifies document, coll
      ensures Valid()
      ensures document.fields == old(document.fields) && document.referencesLoaded == old(document.referencesLoaded)
      ensures var p := Persist(old(coll.store), old(document.id), schema.toSon(document.fields), coll.clash);
        (p.Err? ==> r == Err(UniqueKeyViolation) && coll.store == old(coll.store) && document.id == old(document.id)) &&
        (p.Ok? ==> r == Ok(document) && coll.store == p.value.0 && document.id == Some(p.value.1))
    {
      var son := schema.toSon(document.fields);
      if document.id.Some? {
        var replaced := ReplaceOne(coll.store, document.id.value, son, coll.clash);
        if replaced.Err? {
          return Err(UniqueKeyViolation);
        }
        coll.store := replaced.value;
      } else {
        var inserted := InsertOne(coll.store, son, coll.clash);
        if inserted.Err? {
          return Err(UniqueKeyViolation);
        }
        coll.store := inserted.value.0;
        document.id := Some(inserted.value.1);
      }
      r := Ok(document);
    }

    /**
     * `save`: refuse a partly loaded document before anything else; run the
     * on-save hook; write only a document that validates, after ensuring the
     * indexes. A rejected document gives None and writes nothing.
     */
    method Save(document: Document) returns (r: Result<Option<Document>, QueryError>)
      requires Valid()
      modifies document, coll
      ensures Valid()
      ensures document.referencesLoaded == old(document.referencesLoaded)
      ensures document.partlyLoaded ==>
        r == Err(PartlyLoaded) && coll.store == old(coll.store) &&
        document.fields == old(document.fields) && document.id == old(document.id)
      ensures !document.partlyLoaded ==> document.fields == schema.onSave(old(document.fields), old(document.id).Some?)
      ensures !document.partlyLoaded && !schema.validate(document.fields).Accepted? ==>
        coll.store == old(coll.store) && document.id == old(document.id) &&
        r == if schema.validate(document.fields).Rejected? then Ok(None)
             else Err(InvalidDocument(schema.validate(document.fields).message))
      ensures !document.partlyLoaded && schema.validate(document.fields).Accepted? ==>
        var p := Persist(Indexed(old(coll.store), schema), old(document.id), schema.toSon(document.fields), coll.clash);
        (p.Err? ==> r == Err(UniqueKeyViolation) && coll.store == Indexed(old(coll.store), schema) && document.id == old(document.id)) &&
        (p.Ok? ==> r == Ok(Some(document)) && coll.store == p.value.0 && document.id == Some(p.value.1))
    {
      if document.partlyLoaded {
        return Err(PartlyLoaded);
      }
      RunHook(document);
      match schema.validate(document.fields)
      case Raised(message) =>
        return Err(InvalidDocument(message));
      case Rejected =>
        return Ok(None);
      case Accepted =>
        var _ := EnsureIndex();
        var saved := SaveDocument(document);
        if saved.Err? {
          return Err(saved.error);
        }
        r := Ok(Some(saved.value));
    }

    /** `update_field_on_save_values(document, is_update)`: the hook rewrites the field values, told whether `_id` is set. */
    method RunHook(document: Document)
      modifies document
      ensures document.fields == schema.onSave(old(document.fields), old(document.id).Some?)
      ensures document.id == old(document.id) && document.referencesLoaded == old(document.referencesLoaded)
    {
      document.fields := schema.onSave(document.fields, document.id.Some?);
    }

    /** `create`: build a new document from field values and save it. */
    method Create(fields: Value) returns (r: Result<Option<Document>, QueryError>)
      requires Valid()
      modifies coll
      ensures Valid()
      ensures r.Ok? && r.value.Some? ==>
        var document := r.value.value;
        fresh(document) && document.id.Some? && !document.partlyLoaded &&
        document.id.value !in old(coll.store.docs) &&
        coll.store.docs == old(coll.store.docs)[document.id.value := schema.toSon(document.fields)]
      // the outcome is that of saving a new document: hook, validate, ensure indexes, insert
      ensures var hooked := schema.onSave(fields, false);
        var verdict := schema.validate(hooked);
        (verdict.Rejected? ==> r == Ok(None) && coll.store == old(coll.store)) &&
        (verdict.Raised? ==> r == Err(InvalidDocument(verdict.message)) && coll.store == old(coll.store)) &&
        (verdict.Accepted? ==>
          var p := Persist(Indexed(old(coll.store), schema), None, schema.toSon(hooked), coll.clash);
          (p.Err? ==> r == Err(UniqueKeyViolation) && coll.store == Indexed(old(coll.store), schema)) &&
          (p.Ok? ==> r.Ok? && r.value.Some? && coll.store == p.value.0 &&
                     r.value.value.id == Some(p.value.1) && r.value.value.fields == hooked &&
                     !r.value.value.referencesLoaded))
    {
      var document := new Document(None, fields, false);
      r := Save(document);
    }

    /**
     * `bulk_insert`: run the hook and validation over the batch in order; the
     * first document that is rejected (None) or raises (ValueError with its
     * position) stops it before anything is written. Otherwise insert the
     * batch in one call and give each document its identity, in order.
     */
    method BulkInsert(documents: seq<Document>) returns (r: Result<Option<seq<Document>>, QueryError>)
      requires Valid()
      requires forall i, j :: 0 <= i < j < |documents| ==> documents[i] != documents[j]
      modifies documents, coll
      ensures Valid()
      ensures forall k :: 0 <= k < |documents| ==> documents[k].referencesLoaded == old(documents[k].referencesLoaded)
      ensures var reached := Reached(Screen(schema, old(Batch(documents))), |documents|);
        forall k :: 0 <= k < |documents| ==>
          documents[k].fields == if k < reached then schema.onSave(old(documents[k].fields), old(documents[k].id).Some?)
                                 else old(documents[k].fields)
      // validation failure: nothing is written and no identity changes
      ensures var screened := Screen(schema, old(Batch(documents)));
        !screened.AllValid? ==>
          coll.store == old(coll.store) &&
          (forall k :: 0 <= k < |documents| ==> documents[k].id == old(documents[k].id)) &&
          r == if screened.RejectedAt? then Ok(None) else Err(InvalidInBatch(screened.index, screened.message))
      // all valid: one batch insert, then identities back-filled in input order
      ensures var screened := Screen(schema, old(Batch(documents)));
        screened.AllValid? ==>
          var (st, ids) := InsertAll(old(coll.store), screened.sons, coll.clash);
          coll.store == st &&
          (ids.Err? ==> r == Err(DuplicateKeyError) && forall k :: 0 <= k < |documents| ==> documents[k].id == old(documents[k].id)) &&
          (ids.Ok? ==> r == Ok(Some(documents)) && forall k :: 0 <= k < |documents| ==> documents[k].id == Some(ids.value[k]))
    {
      var screened := ValidateBatch(documents);
      if screened.RaisedAt? {
        return Err(InvalidInBatch(screened.index, screened.message));
      }
      if screened.RejectedAt? {
        return Ok(None);
      }
      var (next, ids) := InsertAll(coll.store, screened.sons, coll.clash);
      coll.store := next;
      if ids.Err? {
        return Err(DuplicateKeyError);
      }
      AssignIds(documents, ids.value);
      r := Ok(Some(documents));
    }

    /** The back-fill of `bulk_insert`: the k-th document gets the k-th inserted identity. */
    method AssignIds(documents: seq<Document>, ids: seq<Id>)
      requires |ids| == |documents|
      requires forall i, j :: 0 <= i < j < |documents| ==> documents[i] != documents[j]
      modifies documents
      ensures forall k :: 0 <= k < |documents| ==> documents[k].id == Some(ids[k])
      ensures forall k :: 0 <= k < |documents| ==> documents[k].fields == old(documents[k].fields)
      ensures forall k :: 0 <= k < |documents| ==> documents[k].referencesLoaded == old(documents[k].referencesLoaded)
    {
      var j := 0;
      while j < |ids|
        invariant 0 <= j <= |ids|
        invariant forall k :: 0 <= k < j ==> documents[k].id == Some(ids[k])
        invariant forall k :: 0 <= k < |documents| ==> documents[k].fields == old(documents[k].fields)
        invariant forall k :: 0 <= k < |documents| ==> documents[k].referencesLoaded == old(documents[k].referencesLoaded)
      {
        assert forall k :: 0 <= k < |documents| && k != j ==> documents[k] != documents[j];
        documents[j].id := Some(ids[j]);
        j := j + 1;
      }
    }

    /**
     * The validation pass of `bulk_insert`: run the on-save hook on each
     * document in order and validate it, stopping at the first document that
     * is rejected or raises.
     */
    method ValidateBatch(documents: seq<Document>) returns (screened: Screening)
      requires forall i, j :: 0 <= i < j < |documents| ==> documents[i] != documents[j]
      modifies documents
      ensures screened == Screen(schema, old(Batch(documents)))
      ensures forall k :: 0 <= k < |documents| ==> documents[k].id == old(documents[k].id)
      ensures forall k :: 0 <= k < |documents| ==> documents[k].referencesLoaded == old(documents[k].referencesLoaded)
      ensures forall k :: 0 <= k < Reached(screened, |documents|) ==> documents[k].fields == Hooked(schema, old(Batch(documents))[k])
      ensures forall k :: Reached(screened, |documents|) <= k < |documents| ==> documents[k].fields == old(Batch(documents))[k].0
    {
      ghost var batch := Batch(documents);
      screened := AllValid([]);
      var i := 0;
      while i < |documents| && screened.AllValid?
        invariant 0 <= i <= |documents|
        invariant screened == Screen(schema, batch[..i])
        invariant !screened.AllValid? ==> screened.index + 1 == i
        invariant forall k :: 0 <= k < |documents| ==>
          documents[k].id == old(documents[k].id) && documents[k].referencesLoaded == old(documents[k].referencesLoaded)
        invariant forall k :: 0 <= k < i ==> documents[k].fields == Hooked(schema, batch[k])
        invariant forall k :: i <= k < |documents| ==> documents[k].fields == batch[k].0
        decreases |documents| - i
      {
        var document := documents[i];
        assert forall k :: 0 <= k < |documents| && k != i ==> documents[k] != document;
        RunHook(document);
        assert document.fields == Hooked(schema, batch[i]);
        ScreenStep(schema, batch, i, screened.sons);
        match schema.validate(document.fields) {
          case Raised(message) =>
            screened := RaisedAt(i, message);
          case Rejected =>
            screened := RejectedAt(i);
          case Accepted =>
            screened := AllValid(screened.sons + [schema.toSon(document.fields)]);
        }
        i := i + 1;
      }
      if screened.AllValid? {
        assert batch[..|documents|] == batch;
      } else {
        ScreenStops(schema, batch, i);
      }
    }

    /** `update`: `$set` the transformed definition on every document the filters select. */
    method Update(definition: Value) returns (r: UpdateReply)
      requires Valid()
      modifies coll
      ensures Valid()
      ensures var matched := Matching(old(coll.store.docs), FilterSelector(schema, filters));
        r.count == |matched| && r.updatedExisting == (|matched| > 0)
      ensures coll.store.docs.Keys == old(coll.store.docs).Keys && coll.store.nextId == old(coll.store.nextId)
      ensures coll.store.indexes == old(coll.store.indexes)
      ensures forall id :: id in old(coll.store.docs) ==>
        coll.store.docs[id] ==
          if FilterSelector(schema, filters)(id, old(coll.store.docs)[id])
          then coll.applySet(old(coll.store.docs)[id], schema.transform(definition))
          else old(coll.store.docs)[id]
    {
      var transformed := schema.transform(definition);
      var sel := FilterSelector(schema, filters);
      var applySet := coll.applySet;
      var (next, n) := UpdateWhere(coll.store, sel, (d: Value) => applySet(d, transformed));
      coll.store := next;
      r := UpdateReply(n, n > 0);
    }

    /**
     * `remove`: with an instance, delete by its `_id`; without one, delete
     * what the filters select, or everything when there are none. The result
     * is the number of documents deleted.
     */
    method Remove(instance: Option<Document>) returns (n: nat)
      requires Valid()
      requires instance.Some? ==> instance.value.id.Some?
      modifies coll
      ensures Valid()
      ensures coll.store.nextId == old(coll.store.nextId) && coll.store.indexes == old(coll.store.indexes)
      ensures n == |old(coll.store.docs)| - |coll.store.docs|
      ensures instance.Some? ==>
        var id := instance.value.id.value;
        coll.store.docs == old(coll.store.docs) - {id} && (n == 1 <==> id in old(coll.store.docs)) && n <= 1
      ensures instance.None? && filters == map[] ==> coll.store.docs == map[] && n == |old(coll.store.docs)|
      ensures instance.None? && filters != map[] ==>
        (forall id :: id in coll.store.docs <==> id in old(coll.store.docs) && !schema.matches(filters, old(coll.store.docs)[id])) &&
        (forall id :: id in coll.store.docs ==> coll.store.docs[id] == old(coll.store.docs)[id])
    {
      var removed: (Store, nat);
      if instance.Some? {
        var id := instance.value.id.value;
        removed := RemoveWhere(coll.store, IdSelector(id));
        RemoveById(coll.store, id);
      } else if filters != map[] {
        removed := RemoveWhere(coll.store, MatchSelector(schema, filters));
      } else {
        removed := RemoveWhere(coll.store, AllSelector());
        RemoveEverything(coll.store);
      }
      coll.store := removed.0;
      n := removed.1;
    }

    /** `delete`: `remove` without an instance. */
    method Delete() returns (n: nat)
      requires Valid()
      modifies coll
      ensures Valid()
      ensures coll.store.nextId == old(coll.store.nextId) && coll.store.indexes == old(coll.store.indexes)
      ensures n == |old(coll.store.docs)| - |coll.store.docs|
      ensures filters == map[] ==> coll.store.docs == map[] && n == |old(coll.store.docs)|
      ensures filters != map[] ==>
        (forall id :: id in coll.store.docs <==> id in old(coll.store.docs) && !schema.matches(filters, old(coll.store.docs)[id])) &&
        (forall id :: id in coll.store.docs ==> coll.store.docs[id] == old(coll.store.docs)[id])
    {
      n := Remove(None);
    }

    /**
     * `get`: refuse a call with neither id nor filters; otherwise the first
     * document the query selects, or None when there is none. References are
     * loaded unless the document class is lazy.
     */
    method Get(id: Option<Id>, kwargs: Filters) returns (r: Result<Option<Document>, QueryError>)
      requires Valid()
      ensures r.Err? <==> id.None? && kwargs == map[]
      ensures r.Err? ==> r.error == MissingArgument
      ensures r.Ok? ==>
        var found := Find(coll.store, GetSelector(schema, id, kwargs).value, 1);
        (found == [] <==> r.value.None?) &&
        (r.value.Some? ==>
          var document := r.value.value;
          fresh(document) && document.id == Some(found[0].0) && document.fields == schema.fromSon(found[0].1) &&
          document.partlyLoaded == loadedFields && document.referencesLoaded == !schema.lazy)
    {
      var sel := GetSelector(schema, id, kwargs);
      if sel.Err? {
        return Err(sel.error);
      }
      var found := Find(coll.store, sel.value, 1);
      if found == [] {
        return Ok(None);
      }
      var document := new Document(Some(found[0].0), schema.fromSon(found[0].1), loadedFields);
      if !schema.lazy {
        document.referencesLoaded := true;
      }
      r := Ok(Some(document));
    }

    /** The length `find_all` asks the cursor for. */
    function Length(): nat
      reads this
    {
      if limit.Some? then limit.value else defaultLimit
    }

    /**
     * `find_all`: the documents the filters select, up to the limit, in
     * natural order; the filters are cleared. References are loaded when
     * `lazy` is False or the documents are not lazy.
     */
    method FindAll(lazy: Option<bool>) returns (result: seq<Document>)
      requires Valid()
      modifies this
      ensures Valid()
      ensures filters == map[] && limit == old(limit)
      ensures var found := Find(coll.store, FilterSelector(schema, old(filters)), Length());
        |result| == |found| &&
        forall k :: 0 <= k < |result| ==>
          fresh(result[k]) && result[k].id == Some(found[k].0) && result[k].fields == schema.fromSon(found[k].1) &&
          result[k].partlyLoaded == loadedFields &&
          result[k].referencesLoaded == ((lazy.Some? && !lazy.value) || !schema.lazy)
    {
      var found := Find(coll.store, FilterSelector(schema, filters), Length());
      filters := map[];
      var isPartlyLoaded := loadedFields;
      result := [];
      for k := 0 to |found|
        invariant filters == map[] && limit == old(limit)
        invariant |result| == k
        invariant forall j :: 0 <= j < k ==>
          fresh(result[j]) && result[j].id == Some(found[j].0) && result[j].fields == schema.fromSon(found[j].1) &&
          result[j].partlyLoaded == isPartlyLoaded &&
          result[j].referencesLoaded == ((lazy.Some? && !lazy.value) || !schema.lazy)
      {
        var obj := new Document(Some(found[k].0), schema.fromSon(found[k].1), isPartlyLoaded);
        if (lazy.Some? && !lazy.value) || !schema.lazy {
          obj.referencesLoaded := true;
        }
        result := result + [obj];
      }
    }

    /** `count`: how many documents the filters select; the filters are cleared. */
    method Count() returns (n: nat)
      requires Valid()
      modifies this
      ensures Valid()
      ensures filters == map[] && limit == old(limit)
      ensures n == |Matching(coll.store.docs, FilterSelector(schema, old(filters)))|
      ensures n >= |Find(coll.store, FilterSelector(schema, old(filters)), Length())|
    {
      var sel := FilterSelector(schema, filters);
      filters := map[];
      n := |Matching(coll.store.docs, sel)|;
    }

    /** The fields of the document class that `ensure_index` creates an index for, collected in declaration order. */
    method FieldsToIndex() returns (withIndex: seq<FieldSpec>)
      ensures withIndex == IndexedFields(schema.fields)
    {
      withIndex := [];
      for i := 0 to |schema.fields|
        invariant withIndex == IndexedFields(schema.fields[..i])
      {
        var field := schema.fields[i];
        assert schema.fields[..i + 1][..i] == schema.fields[..i];
        if field.unique || field.sparse {
          withIndex := withIndex + [field];
        }
      }
      assert schema.fields[..|schema.fields|] == schema.fields;
    }

    /** `ensure_index`: one index per unique or sparse field; the reply is how many were ensured. */
    method EnsureIndex() returns (count: nat)
      requires Valid()
      modifies coll
      ensures Valid()
      ensures coll.store == Indexed(old(coll.store), schema)
      ensures count == |IndexedFields(schema.fields)|
    {
      var withIndex := FieldsToIndex();
      var created: seq<string> := [];
      for i := 0 to |withIndex|
        invariant |created| == i
        invariant coll.store == old(coll.store).(indexes := old(coll.store.indexes) + IndexesOf(withIndex[..i]))
      {
        IndexesOfStep(withIndex, i);
        var (next, name) := EnsureIndexOn(coll.store, IndexFor(withIndex[i]));
        coll.store := next;
        created := created + [name];
      }
      assert withIndex[..|withIndex|] == withIndex;
      count := |created|;
    }
  }
}
