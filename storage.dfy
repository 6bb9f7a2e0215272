/**
 * An in-memory stand-in for one MongoDB collection, the storage collaborator
 * the query set talks to. Documents are kept by identity; identities come
 * from a supply that only grows, so ascending identity order is insertion
 * order. Whether a write would break a unique index is an uninterpreted
 * predicate (`Clash`). Each function below is one driver call, taken as one
 * atomic step.
 */
module Storage {
  import opened Values

  /** An ObjectId. The store hands them out in increasing order. */
  type Id = nat

  /** An index on one stored key. */
  datatype Index = Index(key: string, unique: bool, sparse: bool)

  datatype Store = Store(docs: map<Id, Value>, nextId: Id, indexes: set<Index>)

  /** Every stored identity was handed out by the supply. */
  ghost predicate Valid(st: Store)
  {
    forall id :: id in st.docs ==> id < st.nextId
  }

  /** True when writing `son` under `id` into the store would violate one of its unique indexes. */
  type Clash = (Store, Id, Value) -> bool

  /** A query: which stored documents it selects. */
  type Selector = (Id, Value) -> bool

  datatype StoreError = DuplicateKey

  /** The query `{}` that selects every document. */
  function AllSelector(): Selector
  {
    (i: Id, d: Value) => true
  }

  /** The query `{'_id': id}`. */
  function IdSelector(id: Id): Selector
  {
    (i: Id, d: Value) => i == id
  }

  /** `insert(doc)`: store the document under a fresh identity, unless a unique index forbids it. */
  function InsertOne(st: Store, son: Value, clash: Clash): (r: Result<(Store, Id), StoreError>)
    requires Valid(st)
    ensures r.Err? <==> clash(st, st.nextId, son)
    ensures r.Ok? ==> r.value.1 !in st.docs
    ensures r.Ok? ==> Valid(r.value.0) && r.value.0.indexes == st.indexes
    ensures r.Ok? ==> r.value.0.docs == st.docs[r.value.1 := son] && r.value.0.nextId == r.value.1 + 1
    ensures r.Ok? ==> r.value.1 == st.nextId
  {
    if clash(st, st.nextId, son) then Err(DuplicateKey)
    else Ok((st.(docs := st.docs[st.nextId := son], nextId := st.nextId + 1), st.nextId))
  }

  /**
   * `update({'_id': id}, doc)`: replace the document stored under `id`. With
   * no document under `id` nothing matches and nothing is written (no upsert).
   */
  function ReplaceOne(st: Store, id: Id, son: Value, clash: Clash): (r: Result<Store, StoreError>)
    requires Valid(st)
    ensures r.Err? <==> id in st.docs && clash(st.(docs := st.docs - {id}), id, son)
    ensures r.Ok? ==> Valid(r.value) && r.value.nextId == st.nextId && r.value.indexes == st.indexes
    ensures r.Ok? ==> r.value.docs.Keys == st.docs.Keys
    ensures r.Ok? && id in st.docs ==> r.value.docs[id] == son
    ensures r.Ok? ==> forall other :: other in st.docs && other != id ==> r.value.docs[other] == st.docs[other]
  {
    if id !in st.docs then Ok(st)
    else if clash(st.(docs := st.docs - {id}), id, son) then Err(DuplicateKey)
    else Ok(st.(docs := st.docs[id := son]))
  }

  /**
   * The store once the first `i` documents of a batch are in: document `j`
   * under identity `st.nextId + j`, and the supply moved past them.
   */
  function Inserted(st: Store, sons: seq<Value>, i: nat): Store
    requires i <= |sons|
  {
    if i == 0 then st
    else
      var before := Inserted(st, sons, i - 1);
      before.(docs := before.docs[st.nextId + i - 1 := sons[i - 1]], nextId := st.nextId + i)
  }

  /** What the first `i` documents of a batch add to the store, and that they change nothing already stored. */
  lemma {:induction false} InsertedMeans(st: Store, sons: seq<Value>, i: nat)
    requires Valid(st) && i <= |sons|
    ensures Valid(Inserted(st, sons, i)) && Inserted(st, sons, i).indexes == st.indexes
    ensures Inserted(st, sons, i).nextId == st.nextId + i
    ensures forall id :: id in Inserted(st, sons, i).docs <==> id in st.docs || st.nextId <= id < st.nextId + i
    ensures forall id :: id in st.docs ==> Inserted(st, sons, i).docs[id] == st.docs[id]
    ensures forall j :: 0 <= j < i ==> Inserted(st, sons, i).docs[st.nextId + j] == sons[j]
  {
    if i > 0 {
      InsertedMeans(st, sons, i - 1);
    }
  }

  /** Inserting one document, then `i` more of the rest, is inserting `i + 1` of the batch. */
  lemma {:induction false} InsertedShift(st: Store, sons: seq<Value>, i: nat)
    requires i < |sons|
    ensures Inserted(Inserted(st, sons, 1), sons[1..], i) == Inserted(st, sons, i + 1)
  {
    if i > 0 {
      InsertedShift(st, sons, i - 1);
      assert sons[1..][i - 1] == sons[i];
    }
  }

  /**
   * `insert([doc, ...])`: insert the batch in order, each under a fresh
   * identity. The first duplicate key stops the batch; the documents before
   * it stay written.
   */
  function InsertAll(st: Store, sons: seq<Value>, clash: Clash): (r: (Store, Result<seq<Id>, StoreError>))
    requires Valid(st)
    ensures Valid(r.0) && r.0.indexes == st.indexes
    ensures st.nextId <= r.0.nextId <= st.nextId + |sons|
    // nothing already stored is touched; what is new is a prefix of the batch
    ensures forall id :: id in r.0.docs <==> id in st.docs || st.nextId <= id < r.0.nextId
    ensures forall id :: id in st.docs ==> r.0.docs[id] == st.docs[id]
    ensures forall i :: 0 <= i < r.0.nextId - st.nextId ==> r.0.docs[st.nextId + i] == sons[i]
    // on success the whole batch is in, in order, under consecutive identities
    ensures r.1.Ok? ==> r.0.nextId == st.nextId + |sons| && |r.1.value| == |sons|
    ensures r.1.Ok? ==> forall i :: 0 <= i < |sons| ==> r.1.value[i] == st.nextId + i
    ensures r.1.Err? ==> r.0.nextId < st.nextId + |sons| && r.1.error == DuplicateKey
    decreases |sons|
  {
    if sons == [] then (st, Ok([]))
    else
      match InsertOne(st, sons[0], clash)
      case Err(e) => (st, Err(e))
      case Ok((next, id)) =>
        var (last, rest) := InsertAll(next, sons[1..], clash);
        (last, if rest.Ok? then Ok([id] + rest.value) else rest)
  }

  /** Document `i` of a batch goes in: it does not clash with the store as the documents before it left it. */
  predicate FitsAt(st: Store, sons: seq<Value>, clash: Clash, i: nat)
    requires i < |sons|
  {
    !clash(Inserted(st, sons, i), st.nextId + i, sons[i])
  }

  /** A document fits in the rest of a batch, after the first went in, where it fits in the whole batch. */
  lemma FitsShift(st: Store, sons: seq<Value>, clash: Clash, i: nat)
    requires i + 1 < |sons|
    ensures FitsAt(Inserted(st, sons, 1), sons[1..], clash, i) == FitsAt(st, sons, clash, i + 1)
  {
    InsertedShift(st, sons, i);
    assert sons[1..][i] == sons[i + 1];
  }

  /** What a batch insert writes is the documents before the one it stopped at, in order. */
  lemma {:induction false} InsertAllWrites(st: Store, sons: seq<Value>, clash: Clash)
    requires Valid(st)
    ensures var r := InsertAll(st, sons, clash);
      r.0 == Inserted(st, sons, r.0.nextId - st.nextId)
    decreases |sons|
  {
    assert Inserted(st, sons, 0) == st;
    if sons != [] {
      var first := InsertOne(st, sons[0], clash);
      if first.Ok? {
        var next := first.value.0;
        assert next == Inserted(st, sons, 1);
        InsertAllWrites(next, sons[1..], clash);
        var last := InsertAll(next, sons[1..], clash).0;
        assert InsertAll(st, sons, clash).0 == last;
        InsertedShift(st, sons, last.nextId - next.nextId);
      }
    }
  }

  /** The documents of the rest of a batch that fit, after the first went in, fit one place later in the whole batch. */
  lemma FitsAfterFirst(st: Store, sons: seq<Value>, clash: Clash, m: nat)
    requires m < |sons|
    requires forall j :: 0 <= j < m ==> FitsAt(Inserted(st, sons, 1), sons[1..], clash, j)
    ensures forall i :: 0 < i <= m ==> FitsAt(st, sons, clash, i)
  {
    forall i | 0 < i <= m
      ensures FitsAt(st, sons, clash, i)
    {
      FitsShift(st, sons, clash, i - 1);
    }
  }

  /** Every document a batch insert wrote fit. */
  lemma {:induction false} InsertAllFits(st: Store, sons: seq<Value>, clash: Clash)
    requires Valid(st)
    ensures var r := InsertAll(st, sons, clash);
      forall i :: 0 <= i < r.0.nextId - st.nextId ==> FitsAt(st, sons, clash, i)
    decreases |sons|
  {
    if sons != [] {
      var first := InsertOne(st, sons[0], clash);
      if first.Ok? {
        var next := first.value.0;
        assert next == Inserted(st, sons, 1);
        InsertAllFits(next, sons[1..], clash);
        var m := InsertAll(next, sons[1..], clash).0.nextId - next.nextId;
        assert InsertAll(st, sons, clash).0 == InsertAll(next, sons[1..], clash).0;
        assert Inserted(st, sons, 0) == st;
        assert FitsAt(st, sons, clash, 0);
        FitsAfterFirst(st, sons, clash, m);
      }
    }
  }

  /** A failed batch insert stopped at a document that does not fit. */
  lemma {:induction false} InsertAllStops(st: Store, sons: seq<Value>, clash: Clash)
    requires Valid(st)
    requires InsertAll(st, sons, clash).1.Err?
    ensures var r := InsertAll(st, sons, clash);
      r.0.nextId - st.nextId < |sons| && !FitsAt(st, sons, clash, r.0.nextId - st.nextId)
    decreases |sons|
  {
    var first := InsertOne(st, sons[0], clash);
    if first.Ok? {
      var next := first.value.0;
      assert next == Inserted(st, sons, 1);
      InsertAllStops(next, sons[1..], clash);
      var last := InsertAll(next, sons[1..], clash).0;
      assert InsertAll(st, sons, clash).0 == last;
      FitsShift(st, sons, clash, last.nextId - next.nextId);
    } else {
      assert Inserted(st, sons, 0) == st;
    }
  }

  /** A document that does not fit clashes with the store the documents before it leave. */
  lemma StopClashes(st: Store, sons: seq<Value>, clash: Clash, written: Store, n: nat)
    requires n < |sons| && written == Inserted(st, sons, n)
    requires !FitsAt(st, sons, clash, n)
    ensures clash(written, st.nextId + n, sons[n])
  {
  }

  /** A failed batch insert stopped at a document that clashes with what was written before it. */
  lemma InsertAllFails(st: Store, sons: seq<Value>, clash: Clash)
    requires Valid(st)
    requires InsertAll(st, sons, clash).1.Err?
    ensures var r := InsertAll(st, sons, clash);
      !FitsAt(st, sons, clash, r.0.nextId - st.nextId) && clash(r.0, r.0.nextId, sons[r.0.nextId - st.nextId])
  {
    InsertAllStops(st, sons, clash);
    InsertAllWrites(st, sons, clash);
    var written := InsertAll(st, sons, clash).0;
    StopClashes(st, sons, clash, written, written.nextId - st.nextId);
  }

  /** A batch insert succeeds exactly when every document of the batch fits. */
  lemma InsertAllSucceeds(st: Store, sons: seq<Value>, clash: Clash)
    requires Valid(st)
    ensures InsertAll(st, sons, clash).1.Ok? <==> forall i :: 0 <= i < |sons| ==> FitsAt(st, sons, clash, i)
  {
    InsertAllFits(st, sons, clash);
    if InsertAll(st, sons, clash).1.Err? {
      InsertAllFails(st, sons, clash);
    }
  }

  /** The identities of the stored documents a query selects. */
  function Matching(docs: map<Id, Value>, sel: Selector): set<Id>
  {
    set id | id in docs && sel(id, docs[id])
  }

  /** `remove(query)`: delete every selected document; the count is the reply's 'n'. */
  function RemoveWhere(st: Store, sel: Selector): (r: (Store, nat))
    requires Valid(st)
    ensures Valid(r.0) && r.0.nextId == st.nextId && r.0.indexes == st.indexes
    ensures forall id :: id in r.0.docs <==> id in st.docs && !sel(id, st.docs[id])
    ensures forall id :: id in r.0.docs ==> r.0.docs[id] == st.docs[id]
    ensures r.1 == |Matching(st.docs, sel)| == |st.docs| - |r.0.docs|
  {
    var gone := Matching(st.docs, sel);
    var kept := st.docs - gone;
    assert kept.Keys == st.docs.Keys - gone;
    (st.(docs := kept), |gone|)
  }

  /** `remove(id)`: deletes the document stored under `id`, if any, and reports 1 or 0. */
  lemma RemoveById(st: Store, id: Id)
    requires Valid(st)
    ensures RemoveWhere(st, IdSelector(id)).0.docs == st.docs - {id}
    ensures RemoveWhere(st, IdSelector(id)).1 == if id in st.docs then 1 else 0
  {
    assert Matching(st.docs, IdSelector(id)) == if id in st.docs then {id} else {};
  }

  /** `remove()`: empties the collection and reports how many documents it held. */
  lemma RemoveEverything(st: Store)
    requires Valid(st)
    ensures RemoveWhere(st, AllSelector()).0.docs == map[]
    ensures RemoveWhere(st, AllSelector()).1 == |st.docs|
  {
    assert Matching(st.docs, AllSelector()) == st.docs.Keys;
  }

  /** `update(query, {'$set': ...}, multi=True)`: rewrite every selected document. */
  function UpdateWhere(st: Store, sel: Selector, rewrite: Value -> Value): (r: (Store, nat))
    requires Valid(st)
    ensures Valid(r.0) && r.0.nextId == st.nextId && r.0.indexes == st.indexes
    ensures r.0.docs.Keys == st.docs.Keys
    ensures forall id :: id in st.docs && sel(id, st.docs[id]) ==> r.0.docs[id] == rewrite(st.docs[id])
    ensures forall id :: id in st.docs && !sel(id, st.docs[id]) ==> r.0.docs[id] == st.docs[id]
    ensures r.1 == |Matching(st.docs, sel)|
  {
    var updated := map id | id in st.docs :: if sel(id, st.docs[id]) then rewrite(st.docs[id]) else st.docs[id];
    (st.(docs := updated), |Matching(st.docs, sel)|)
  }

  /**
   * `ensure_index(key, unique=..., sparse=...)`: the index exists afterwards,
   * the existing ones are kept, no other index appears and no document
   * changes. The reply names the index by its key.
   */
  function EnsureIndexOn(st: Store, index: Index): (r: (Store, string))
    ensures r.0.docs == st.docs && r.0.nextId == st.nextId
    ensures index in r.0.indexes && st.indexes <= r.0.indexes
    ensures forall x :: x in r.0.indexes && x != index ==> x in st.indexes
    ensures r.1 == index.key
  {
    (st.(indexes := st.indexes + {index}), index.key)
  }

  /** Ensuring an index twice is ensuring it once. */
  lemma EnsureIndexIdempotent(st: Store, index: Index)
    ensures EnsureIndexOn(EnsureIndexOn(st, index).0, index) == EnsureIndexOn(st, index)
  {
  }

  /** The selected documents with identity below `n`, in ascending identity (natural) order. */
  function Scan(docs: map<Id, Value>, sel: Selector, n: nat): seq<(Id, Value)>
  {
    if n == 0 then []
    else Scan(docs, sel, n - 1) + (if n - 1 in docs && sel(n - 1, docs[n - 1]) then [(n - 1, docs[n - 1])] else [])
  }

  /** `find(query).to_list(length)`: the first `length` selected documents in natural order. */
  function Find(st: Store, sel: Selector, length: nat): (r: seq<(Id, Value)>)
    requires Valid(st)
    ensures |r| <= length && |r| <= |Matching(st.docs, sel)|
    ensures |r| == length || |r| == |Matching(st.docs, sel)|
    ensures forall k :: 0 <= k < |r| ==> r[k].0 in st.docs && r[k].1 == st.docs[r[k].0] && sel(r[k].0, r[k].1)
    ensures forall j, k :: 0 <= j < k < |r| ==> r[j].0 < r[k].0
    // no selected document is skipped: one left out comes after all that are returned
    ensures forall id :: id in Matching(st.docs, sel) && (forall k :: 0 <= k < |r| ==> r[k].0 != id) ==>
      forall k :: 0 <= k < |r| ==> r[k].0 < id
  {
    var all := Scan(st.docs, sel, st.nextId);
    ScanCount(st.docs, sel, st.nextId);
    ScanSorted(st.docs, sel, st.nextId);
    ScanComplete(st.docs, sel, st.nextId);
    assert MatchingBelow(st.docs, sel, st.nextId) == Matching(st.docs, sel);
    var r := if |all| <= length then all else all[..length];
    forall id | id in Matching(st.docs, sel) && (forall k :: 0 <= k < |r| ==> r[k].0 != id)
      ensures forall k :: 0 <= k < |r| ==> r[k].0 < id
    {
      assert Listed(all, id);
      var p :| 0 <= p < |all| && all[p].0 == id;
      forall k | 0 <= k < |r| ensures r[k].0 < id {
        assert r[k] == all[k];
      }
    }
    r
  }

  /** The selected documents with identity below `n`. */
  function MatchingBelow(docs: map<Id, Value>, sel: Selector, n: nat): set<Id>
  {
    set id | id in docs && id < n && sel(id, docs[id])
  }

  /** A scan lists each selected document below `n` once. */
  lemma {:induction false} ScanCount(docs: map<Id, Value>, sel: Selector, n: nat)
    ensures |Scan(docs, sel, n)| == |MatchingBelow(docs, sel, n)|
  {
    if n == 0 {
      assert MatchingBelow(docs, sel, 0) == {};
    } else {
      ScanCount(docs, sel, n - 1);
      var below := MatchingBelow(docs, sel, n - 1);
      if n - 1 in docs && sel(n - 1, docs[n - 1]) {
        assert MatchingBelow(docs, sel, n) == below + {n - 1};
        assert n - 1 !in below;
      } else {
        assert MatchingBelow(docs, sel, n) == below;
      }
    }
  }

  /** A scan lists stored, selected documents below `n`, in strictly ascending identity order. */
  lemma {:induction false} ScanSorted(docs: map<Id, Value>, sel: Selector, n: nat)
    ensures forall k :: 0 <= k < |Scan(docs, sel, n)| ==>
      var e := Scan(docs, sel, n)[k]; e.0 < n && e.0 in docs && e.1 == docs[e.0] && sel(e.0, e.1)
    ensures forall j, k :: 0 <= j < k < |Scan(docs, sel, n)| ==> Scan(docs, sel, n)[j].0 < Scan(docs, sel, n)[k].0
  {
    if n > 0 {
      ScanSorted(docs, sel, n - 1);
    }
  }

  /** `id` is the identity of some entry of `entries`. */
  predicate Listed(entries: seq<(Id, Value)>, id: Id)
  {
    exists k :: 0 <= k < |entries| && entries[k].0 == id
  }

  /** A scan lists every selected document below `n`. */
  lemma {:induction false} ScanComplete(docs: map<Id, Value>, sel: Selector, n: nat)
    ensures forall id :: id in MatchingBelow(docs, sel, n) ==> Listed(Scan(docs, sel, n), id)
  {
    if n > 0 {
      ScanComplete(docs, sel, n - 1);
      var init := Scan(docs, sel, n - 1);
      var extra: seq<(Id, Value)> := if n - 1 in docs && sel(n - 1, docs[n - 1]) then [(n - 1, docs[n - 1])] else [];
      assert Scan(docs, sel, n) == init + extra;
      forall id | id in MatchingBelow(docs, sel, n)
        ensures Listed(Scan(docs, sel, n), id)
      {
        if id < n - 1 {
          assert id in MatchingBelow(docs, sel, n - 1);
          var k :| 0 <= k < |init| && init[k].0 == id;
          assert Scan(docs, sel, n)[k] == init[k];
        } else {
          assert Scan(docs, sel, n)[|init|].0 == id;
        }
      }
    } else {
      assert MatchingBelow(docs, sel, 0) == {};
    }
  }

  /** A query that can only select `id` finds the document under `id`, or nothing. */
  lemma {:induction false} ScanSingle(docs: map<Id, Value>, sel: Selector, id: Id, n: nat)
    requires forall i, d :: sel(i, d) ==> i == id
    ensures Scan(docs, sel, n) == if id < n && id in docs && sel(id, docs[id]) then [(id, docs[id])] else []
  {
    if n > 0 {
      ScanSingle(docs, sel, id, n - 1);
    }
  }
}
