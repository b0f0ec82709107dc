/**
 * The database service (server/db.py): `DatabaseHandler`, an in-memory
 * document store mapping a collection name to a dictionary from id to
 * document; the request dispatcher `handle_request`; and the response
 * framing `encode_response`.
 *
 * Each operation is specified by a function from the old store to the
 * response and the new store (`CreateResult`, `UpdateResult`, ...); the
 * handler's methods change `db` in place and are proved to agree with them.
 * An exception that escapes `handle_request` is the response `Aborted`: the
 * connection handler then answers with its generic failure frame and closes.
 * Saving to and loading from the database file are not modelled; the
 * generated uuid and the clock are parameters.
 */
module Store {
  import opened Wrappers
  import opened Values
  import opened Framing
  import opened Seqs

  /**
   * One collection: a dictionary from id to document. `ids` is the
   * dictionary's insertion order, which is the order `query` returns.
   */
  datatype Table = Table(ids: seq<Value>, rows: map<Value, Record>)

  /** A dictionary: each key once in the order, exactly the stored keys, all hashable. */
  predicate TableOk(t: Table) {
    && NoDup(t.ids)
    && (forall k :: k in t.ids ==> k in t.rows)
    && (forall k :: k in t.rows ==> k in t.ids && Hashable(k))
  }

  const EmptyTable: Table := Table([], map[])

  type Db = map<string, Table>

  predicate DbOk(db: Db) {
    forall c :: c in db ==> TableOk(db[c])
  }

  /** Every stored document's "id" field is the key it is stored under. */
  predicate IdsMatchKeys(db: Db) {
    forall c, k :: c in db && k in db[c].rows ==> Get(db[c].rows[k], "id") == k
  }

  /** The four collections of a fresh database. */
  const InitialDb: Db := map["Player" := EmptyTable, "Developer" := EmptyTable, "Game" := EmptyTable, "Room" := EmptyTable]

  /**
   * `coll[k] = v`: a new key goes to the end of the order, an existing key
   * keeps its place and gets the new value.
   */
  function Insert(t: Table, k: Value, v: Record): (r: Table)
    requires TableOk(t) && Hashable(k)
    ensures TableOk(r) && r.rows == t.rows[k := v]
    ensures t.ids <= r.ids && (k in t.rows ==> r.ids == t.ids)
  {
    if k in t.rows then t.(rows := t.rows[k := v])
    else
      var r := Table(t.ids + [k], t.rows[k := v]);
      assert forall x :: x in r.ids <==> x in t.ids || x == k;
      r
  }

  /**
   * `db[c][k] = v` on an existing collection: the collection gets the new
   * document, every other collection is untouched, and a document whose
   * "id" is its key keeps the ids matching.
   */
  function Put(db: Db, c: string, k: Value, v: Record): (r: Db)
    requires DbOk(db) && c in db && Hashable(k)
    ensures DbOk(r) && r.Keys == db.Keys
    ensures r[c].rows == db[c].rows[k := v] && (k in db[c].rows ==> r[c].ids == db[c].ids)
    ensures forall d :: d in db && d != c ==> r[d] == db[d]
    ensures IdsMatchKeys(db) && Get(v, "id") == k ==> IdsMatchKeys(r)
  {
    db[c := Insert(db[c], k, v)]
  }

  /** `del coll[k]`: the key leaves the dictionary; the order closes the gap (`Seqs.WithoutNoDup`). */
  function Remove(t: Table, k: Value): (r: Table)
    requires TableOk(t)
    ensures TableOk(r) && r.rows == t.rows - {k}
    ensures k !in t.rows ==> r.ids == t.ids
  {
    Table(Without(t.ids, k), t.rows - {k})
  }

  /** The outcome of `_get_collection` on a request's collection field. */
  datatype Lookup = Found(name: string) | Missing | Unhashable

  /**
   * `_get_collection`: the collection when the name is one of the store's
   * keys; `ValueError` (Missing) otherwise, or `TypeError` (Unhashable)
   * for a list or dictionary, which cannot be a key.
   */
  function Collection(db: Db, name: Value): (l: Lookup)
    ensures l.Found? <==> name.Str? && name.s in db
    ensures l.Found? ==> l.name == name.s
    ensures l == Unhashable <==> !Hashable(name)
  {
    if !Hashable(name) then Unhashable
    else if name.Str? && name.s in db then Found(name.s)
    else Missing
  }

  /** The error replies; each carries what its message quotes. */
  datatype Error =
    | MissingCollectionOrAction
    | MissingId(forAction: string)
    | CollectionNotFound(name: Value)
    | ItemNotFound(collection: Value, id: Value)
    | InvalidAction(action: Value)
    | CreateFailed
    | UpdateFailed
    | QueryFailed

  /** `{"status": "success", "data": ...}`, `{"status": "error", "errorMsg": ...}`, or an escaped exception. */
  datatype Response = Success(data: Value) | Failure(error: Error) | Aborted

  /** The fields `create` stamps with the clock, per collection. */
  function Stamped(collection: string): set<string> {
    if collection == "Player" || collection == "Developer" then {"createdAt", "lastLoginAt", "online"}
    else if collection == "Game" || collection == "Room" then {"createdAt"}
    else {}
  }

  /**
   * The document `create` builds: a generated id that the supplied data may
   * override, the supplied fields, then the creation stamps, which override
   * the data; players and developers always start offline.
   */
  function NewItem(collection: string, data: Record, freshId: string, now: int): (item: Record)
    ensures item.Keys == data.Keys + {"id"} + Stamped(collection)
    ensures item["id"] == if "id" in data then data["id"] else Str(freshId)
    ensures forall k :: k in data && k !in Stamped(collection) ==> item[k] == data[k]
    ensures "createdAt" in Stamped(collection) ==> item["createdAt"] == Int(now)
    ensures "online" in Stamped(collection) ==> item["online"] == Bool(false) && item["lastLoginAt"] == Int(now)
  {
    var item := map["id" := Str(freshId)] + data;
    if collection == "Player" || collection == "Developer" then
      item["createdAt" := Int(now)]["lastLoginAt" := Int(now)]["online" := Bool(false)]
    else if collection == "Game" || collection == "Room" then
      item["createdAt" := Int(now)]
    else item
  }

  /** `create`: see `NewItem`; the document is stored under its own "id". */
  function CreateResult(db: Db, collection: Value, data: Value, freshId: string, now: int): (out: (Response, Db))
    requires DbOk(db)
    ensures DbOk(out.1) && (IdsMatchKeys(db) ==> IdsMatchKeys(out.1))
    ensures out.0.Success? <==> Collection(db, collection).Found? && data.Object? && Hashable(Get(data.fields, "id"))
    ensures !out.0.Success? ==> out.1 == db && out.0 != Aborted
    ensures Collection(db, collection) == Missing ==> out.0 == Failure(CollectionNotFound(collection))
    ensures out.0.Success? ==>
      var item := NewItem(collection.s, data.fields, freshId, now);
      && out.0.data == Object(item)
      && out.1.Keys == db.Keys
      && out.1[collection.s].rows == db[collection.s].rows[item["id"] := item]
      && (forall c :: c in db && c != collection.s ==> out.1[c] == db[c])
  {
    match Collection(db, collection)
    case Unhashable => (Failure(CreateFailed), db)
    case Missing => (Failure(CollectionNotFound(collection)), db)
    case Found(c) =>
      if !data.Object? then (Failure(CreateFailed), db)
      else
        var item := NewItem(c, data.fields, freshId, now);
        if !Hashable(item["id"]) then (Failure(CreateFailed), db)
        else (Success(Object(item)), Put(db, c, item["id"], item))
  }

  /** `read`: the stored document when the id is present; never changes the store. */
  function ReadResult(db: Db, collection: Value, id: Value): (r: Response)
    requires DbOk(db)
    ensures r.Success? <==> collection.Str? && collection.s in db && id in db[collection.s].rows
    ensures r.Success? ==> r.data == Object(db[collection.s].rows[id])
    ensures r == Aborted <==> !Hashable(collection) || (Collection(db, collection).Found? && !Hashable(id))
  {
    match Collection(db, collection)
    case Unhashable => Aborted
    case Missing => Failure(CollectionNotFound(collection))
    case Found(c) =>
      if !Hashable(id) then Aborted
      else if id in db[c].rows then Success(Object(db[c].rows[id]))
      else Failure(ItemNotFound(collection, id))
  }

  /**
   * `coll[id].update(update_data)` after `del update_data['id']`: the given
   * fields win, the others stay, and the stored "id" never changes.
   */
  function Merge(before: Record, updateData: Record): (after: Record)
    ensures after.Keys == before.Keys + (updateData.Keys - {"id"})
    ensures Get(after, "id") == Get(before, "id")
    ensures forall k :: k in updateData && k != "id" ==> after[k] == updateData[k]
    ensures forall k :: k in before && k !in updateData ==> after[k] == before[k]
  {
    before + (updateData - {"id"})
  }

  /** `update`: see `Merge`; the document keeps its place in the order, everything else is untouched. */
  function UpdateResult(db: Db, collection: Value, id: Value, updateData: Record): (out: (Response, Db))
    requires DbOk(db)
    ensures DbOk(out.1) && (IdsMatchKeys(db) ==> IdsMatchKeys(out.1))
    ensures out.0.Success? <==> collection.Str? && collection.s in db && id in db[collection.s].rows
    ensures !out.0.Success? ==> out.1 == db && out.0 != Aborted
    ensures out.0.Success? ==>
      var c := collection.s;
      var after := Merge(db[c].rows[id], updateData);
      && out.0.data == Object(after)
      && out.1 == db[c := Table(db[c].ids, db[c].rows[id := after])]
  {
    match Collection(db, collection)
    case Unhashable => (Failure(UpdateFailed), db)
    case Missing => (Failure(CollectionNotFound(collection)), db)
    case Found(c) =>
      if !Hashable(id) then (Failure(UpdateFailed), db)
      else if id !in db[c].rows then (Failure(ItemNotFound(collection, id)), db)
      else
        var after := Merge(db[c].rows[id], updateData);
        (Success(Object(after)), Put(db, c, id, after))
  }

  /** `delete`: removes exactly the given id; every other document and collection is untouched. */
  function DeleteResult(db: Db, collection: Value, id: Value): (out: (Response, Db))
    requires DbOk(db)
    ensures DbOk(out.1) && (IdsMatchKeys(db) ==> IdsMatchKeys(out.1))
    ensures out.0.Success? <==> collection.Str? && collection.s in db && id in db[collection.s].rows
    ensures !out.0.Success? ==> out.1 == db
    ensures out.0.Success? ==>
      && out.0.data == Object(map["id" := id, "deleted" := Bool(true)])
      && out.1.Keys == db.Keys
      && out.1[collection.s].rows == db[collection.s].rows - {id}
      && (forall c :: c in db && c != collection.s ==> out.1[c] == db[c])
  {
    match Collection(db, collection)
    case Unhashable => (Aborted, db)
    case Missing => (Failure(CollectionNotFound(collection)), db)
    case Found(c) =>
      if !Hashable(id) then (Aborted, db)
      else if id !in db[c].rows then (Failure(ItemNotFound(collection, id)), db)
      else (Success(Object(map["id" := id, "deleted" := Bool(true)])), db[c := Remove(db[c], id)])
  }

  /** A document matches a filter when each filtered field equals the filter's value; a missing field reads as None. */
  predicate Matches(item: Record, filter: Record) {
    forall k :: k in filter ==> Get(item, k) == filter[k]
  }

  /** The documents of a collection, in insertion order (`coll.values()`). */
  function Documents(t: Table): (r: seq<Record>)
    requires TableOk(t)
    ensures |r| == |t.ids|
    ensures forall x :: x in r <==> exists k :: k in t.rows && x == t.rows[k]
  {
    var r := seq(|t.ids|, i requires 0 <= i < |t.ids| => t.rows[t.ids[i]]);
    forall k | k in t.rows
      ensures t.rows[k] in r
    {
      var i :| 0 <= i < |t.ids| && t.ids[i] == k;
      assert r[i] == t.rows[k];
    }
    r
  }

  /** The documents that match, in their order. */
  function Select(docs: seq<Record>, filter: Record): (r: seq<Record>)
    ensures |r| <= |docs|
    ensures forall d :: d in r <==> d in docs && Matches(d, filter)
  {
    if docs == [] then []
    else (if Matches(docs[0], filter) then [docs[0]] else []) + Select(docs[1..], filter)
  }

  /** Selecting from a concatenation selects from each part, in order. */
  lemma {:induction false} SelectAppend(a: seq<Record>, b: seq<Record>, filter: Record)
    ensures Select(a + b, filter) == Select(a, filter) + Select(b, filter)
  {
    if a != [] {
      var head := if Matches(a[0], filter) then [a[0]] else [];
      assert (a + b)[0] == a[0] && (a + b)[1..] == a[1..] + b;
      SelectAppend(a[1..], b, filter);
      assert Select(a + b, filter) == head + (Select(a[1..], filter) + Select(b, filter));
    } else {
      assert a + b == b;
    }
  }

  /** The documents as JSON values. */
  function Objects(docs: seq<Record>): (r: seq<Value>)
    ensures |r| == |docs| && forall i :: 0 <= i < |docs| ==> r[i] == Object(docs[i])
  {
    seq(|docs|, i requires 0 <= i < |docs| => Object(docs[i]))
  }

  lemma ObjectsAppend(a: seq<Record>, b: seq<Record>)
    ensures Objects(a + b) == Objects(a) + Objects(b)
  {
    assert forall i :: 0 <= i < |a + b| ==> Objects(a + b)[i] == (Objects(a) + Objects(b))[i];
  }

  /** With an empty filter every document matches: `query` returns the whole collection in order. */
  lemma {:induction false} SelectEmptyFilter(docs: seq<Record>)
    ensures Select(docs, map[]) == docs
  {
    if docs != [] {
      SelectEmptyFilter(docs[1..]);
      assert docs == [docs[0]] + docs[1..];
    }
  }

  /**
   * `query`: the matching documents in insertion order. A filter that is
   * not a dictionary fails on the first document, so it only succeeds on an
   * empty collection.
   */
  function QueryResult(db: Db, collection: Value, filter: Value): (r: Response)
    requires DbOk(db)
    ensures r.Success? <==> collection.Str? && collection.s in db && (filter.Object? || db[collection.s].rows == map[])
    ensures r != Aborted
    ensures r.Success? && filter.Object? ==> r.data.List?
    ensures r.Success? && filter.Object? ==>
      (forall d :: d in r.data.items <==> (exists k :: k in db[collection.s].rows && d == Object(db[collection.s].rows[k]) && Matches(db[collection.s].rows[k], filter.fields)))
  {
    match Collection(db, collection)
    case Unhashable => Failure(QueryFailed)
    case Missing => Failure(CollectionNotFound(collection))
    case Found(c) =>
      var t := db[c];
      if !filter.Object? then
        if t.ids == [] then Success(List([]))
        else
          assert t.ids[0] in t.rows;
          Failure(QueryFailed)
      else
        var docs := Select(Documents(t), filter.fields);
        var items := Objects(docs);
        forall d | d in items
          ensures exists x :: x in docs && d == Object(x)
        {
          var i :| 0 <= i < |items| && items[i] == d;
          assert docs[i] in docs;
        }
        forall x | x in docs
          ensures Object(x) in items
        {
          var i :| 0 <= i < |docs| && docs[i] == x;
          assert items[i] == Object(x);
        }
        Success(List(items))
  }

  /** `request_data.get("data", {})`. */
  function RequestData(req: Record): Value {
    if "data" in req then req["data"] else Object(map[])
  }

  /** The actions `handle_request` knows. */
  const Actions: set<Value> := {Str("create"), Str("read"), Str("update"), Str("delete"), Str("query")}

  /**
   * `handle_request`: reject a request without a truthy collection and
   * action, or a read, update or delete without a truthy "id", or an
   * unknown action; otherwise pass the request on. Only create, update and
   * delete can change the store.
   */
  function Dispatch(db: Db, req: Record, freshId: string, now: int): (out: (Response, Db))
    requires DbOk(db)
    ensures DbOk(out.1) && (IdsMatchKeys(db) ==> IdsMatchKeys(out.1))
    ensures !Truthy(Get(req, "collection")) || !Truthy(Get(req, "action")) ==>
      out == (Failure(MissingCollectionOrAction), db)
    ensures Truthy(Get(req, "collection")) && Truthy(Get(req, "action")) && Get(req, "action") !in Actions ==>
      out == (Failure(InvalidAction(Get(req, "action"))), db)
    ensures (&& Truthy(Get(req, "collection"))
             && Get(req, "action") in Actions - {Str("create"), Str("query")}
             && RequestData(req).Object? && !Truthy(Get(RequestData(req).fields, "id"))) ==>
      out == (Failure(MissingId(Get(req, "action").s)), db)
    ensures out.1 != db ==> Get(req, "action") in {Str("create"), Str("update"), Str("delete")}
  {
    var collection := Get(req, "collection");
    var action := Get(req, "action");
    var data := RequestData(req);
    if !Truthy(collection) || !Truthy(action) then (Failure(MissingCollectionOrAction), db)
    else if action == Str("create") then CreateResult(db, collection, data, freshId, now)
    else if action == Str("read") then
      if !data.Object? then (Aborted, db)
      else if !Truthy(Get(data.fields, "id")) then (Failure(MissingId("read")), db)
      else (ReadResult(db, collection, Get(data.fields, "id")), db)
    else if action == Str("update") then
      if !data.Object? then (Aborted, db)
      else if !Truthy(Get(data.fields, "id")) then (Failure(MissingId("update")), db)
      else UpdateResult(db, collection, Get(data.fields, "id"), data.fields)
    else if action == Str("delete") then
      if !data.Object? then (Aborted, db)
      else if !Truthy(Get(data.fields, "id")) then (Failure(MissingId("delete")), db)
      else DeleteResult(db, collection, Get(data.fields, "id"))
    else if action == Str("query") then (QueryResult(db, collection, data), db)
    else (Failure(InvalidAction(action)), db)
  }

  /**
   * A request naming a collection the store does not have gets an error
   * and changes nothing, whatever its action.
   */
  lemma UnknownCollectionChangesNothing(db: Db, req: Record, freshId: string, now: int)
    requires DbOk(db) && Collection(db, Get(req, "collection")) == Missing
    ensures !Dispatch(db, req, freshId, now).0.Success? && Dispatch(db, req, freshId, now).1 == db
  {
  }

  /** The reply `encode_response` falls back to, as `json.dumps` writes it. */
  const EncodingErrorJson: string := "{\"status\": \"error\", \"errorMsg\": \"Server encoding error.\"}"

  /** UTF-8 of a string: one byte per character, the character's code, for ASCII characters. */
  function Ascii(s: string): (b: seq<byte>)
    ensures |b| == |s| && forall i :: 0 <= i < |s| && s[i] as int < 128 ==> b[i] as int == s[i] as int
  {
    seq(|s|, i requires 0 <= i < |s| => (s[i] as int % 128) as byte)
  }

  function EncodingErrorBody(): (b: seq<byte>)
    ensures |b| < MaxLength
  {
    Ascii(EncodingErrorJson)
  }

  /**
   * `encode_response`: the length-prefixed JSON body, or, when serialising
   * or packing fails (`body` is None when `json.dumps` or the UTF-8
   * encoding raises), the length-prefixed encoding-error reply. Either way
   * the reader recovers exactly one whole body.
   */
  function EncodeResponse(body: Option<seq<byte>>): (r: seq<byte>)
    ensures body.Some? && |body.value| < MaxLength ==> ReadFrame(r) == Some((body.value, []))
    ensures body.None? || |body.value| >= MaxLength ==> ReadFrame(r) == Some((EncodingErrorBody(), []))
  {
    var b := if body.Some? && |body.value| < MaxLength then body.value else EncodingErrorBody();
    ReadFrameOfFrame(b, []);
    assert Frame(b) + [] == Frame(b);
    Frame(b)
  }

  class DatabaseHandler {
    /** `self.db`: collection name to collection. */
    var db: Db

    ghost predicate Valid()
      reads this
    {
      DbOk(db)
    }

    /**
     * `__init__`: `loaded` is what `_load_data` returned, None when the file
     * is missing or unreadable. An empty or missing database starts with
     * the four empty collections; a loaded one keeps its collections except
     * that rooms never survive a restart.
     */
    constructor (loaded: Option<Db>)
      requires loaded.Some? ==> DbOk(loaded.value)
      ensures Valid()
      ensures loaded.None? || loaded.value == map[] ==> db == InitialDb
      ensures loaded.Some? && loaded.value != map[] ==> db == loaded.value["Room" := EmptyTable]
    {
      if loaded.None? || loaded.value == map[] {
        db := InitialDb;
      } else {
        db := loaded.value["Room" := EmptyTable];
      }
    }

    /** `create`. */
    method Create(collection: Value, data: Value, freshId: string, now: int) returns (r: Response)
      requires Valid()
      modifies this
      ensures Valid() && (r, db) == CreateResult(old(db), collection, data, freshId, now)
    {
      var lookup := Collection(db, collection);
      if lookup.Unhashable? {
        return Failure(CreateFailed);
      } else if lookup.Missing? {
        return Failure(CollectionNotFound(collection));
      }
      if !data.Object? {
        return Failure(CreateFailed);
      }
      var item := NewItem(lookup.name, data.fields, freshId, now);
      var key := item["id"];
      if !Hashable(key) {
        return Failure(CreateFailed);
      }
      db := Put(db, lookup.name, key, item);
      return Success(Object(item));
    }

    /** `read`: changes nothing. */
    method Read(collection: Value, id: Value) returns (r: Response)
      requires Valid()
      ensures r == ReadResult(db, collection, id)
    {
      var lookup := Collection(db, collection);
      if lookup.Unhashable? {
        return Aborted;
      } else if lookup.Missing? {
        return Failure(CollectionNotFound(collection));
      }
      if !Hashable(id) {
        return Aborted;
      }
      var coll := db[lookup.name];
      if id in coll.rows {
        return Success(Object(coll.rows[id]));
      }
      return Failure(ItemNotFound(collection, id));
    }

    /** `update`. */
    method Update(collection: Value, id: Value, updateData: Record) returns (r: Response)
      requires Valid()
      modifies this
      ensures Valid() && (r, db) == UpdateResult(old(db), collection, id, updateData)
    {
      var lookup := Collection(db, collection);
      if lookup.Unhashable? {
        return Failure(UpdateFailed);
      } else if lookup.Missing? {
        return Failure(CollectionNotFound(collection));
      }
      if !Hashable(id) {
        return Failure(UpdateFailed);
      }
      var coll := db[lookup.name];
      if id !in coll.rows {
        return Failure(ItemNotFound(collection, id));
      }
      var after := Merge(coll.rows[id], updateData);
      db := Put(db, lookup.name, id, after);
      return Success(Object(after));
    }

    /** `delete`. */
    method Delete(collection: Value, id: Value) returns (r: Response)
      requires Valid()
      modifies this
      ensures Valid() && (r, db) == DeleteResult(old(db), collection, id)
    {
      var lookup := Collection(db, collection);
      if lookup.Unhashable? {
        return Aborted;
      } else if lookup.Missing? {
        return Failure(CollectionNotFound(collection));
      }
      if !Hashable(id) {
        return Aborted;
      }
      var coll := db[lookup.name];
      if id !in coll.rows {
        return Failure(ItemNotFound(collection, id));
      }
      db := db[lookup.name := Remove(coll, id)];
      return Success(Object(map["id" := id, "deleted" := Bool(true)]));
    }

    /**
     * `query`: walks the collection in insertion order, keeping each
     * matching document; changes nothing.
     */
    method Query(collection: Value, filter: Value) returns (r: Response)
      requires Valid()
      ensures r == QueryResult(db, collection, filter)
    {
      var lookup := Collection(db, collection);
      if lookup.Unhashable? {
        return Failure(QueryFailed);
      } else if lookup.Missing? {
        return Failure(CollectionNotFound(collection));
      }
      var coll := db[lookup.name];
      var docs := Documents(coll);
      if !filter.Object? {
        // `filter_data.items()` raises on the first document, if there is one.
        if docs == [] {
          return Success(List([]));
        }
        assert coll.ids[0] in coll.rows;
        return Failure(QueryFailed);
      }
      var results := Filter(docs, filter.fields);
      return Success(List(results));
    }
  }

  /** One more document: the selection grows by that document exactly when it matches. */
  lemma SelectStep(docs: seq<Record>, i: nat, filter: Record)
    requires i < |docs|
    ensures Objects(Select(docs[..i + 1], filter)) ==
      Objects(Select(docs[..i], filter)) + (if Matches(docs[i], filter) then [Object(docs[i])] else [])
  {
    var item := docs[i];
    var kept := Select([item], filter);
    assert [item][1..] == [];
    assert docs[..i + 1] == docs[..i] + [item];
    SelectAppend(docs[..i], [item], filter);
    ObjectsAppend(Select(docs[..i], filter), kept);
    if Matches(item, filter) {
      assert Objects(kept) == [Object(item)];
    } else {
      assert kept == [];
    }
  }

  /** The loop of `query`: the documents that match, in order, appended one by one. */
  method Filter(docs: seq<Record>, filter: Record) returns (results: seq<Value>)
    ensures results == Objects(Select(docs, filter))
  {
    results := [];
    for i := 0 to |docs|
      invariant results == Objects(Select(docs[..i], filter))
    {
      SelectStep(docs, i, filter);
      if Matches(docs[i], filter) {
        results := results + [Object(docs[i])];
      }
    }
    assert docs[..|docs|] == docs;
  }

  /** `handle_request` against the module's one handler. */
  method HandleRequest(h: DatabaseHandler, req: Record, freshId: string, now: int) returns (r: Response)
    requires h.Valid()
    modifies h
    ensures h.Valid() && (r, h.db) == Dispatch(old(h.db), req, freshId, now)
  {
    var collection := Get(req, "collection");
    var action := Get(req, "action");
    var data := RequestData(req);
    if !Truthy(collection) || !Truthy(action) {
      return Failure(MissingCollectionOrAction);
    }
    if action == Str("create") {
      r := h.Create(collection, data, freshId, now);
    } else if action == Str("read") {
      if !data.Object? {
        return Aborted;
      }
      var id := Get(data.fields, "id");
      if !Truthy(id) {
        return Failure(MissingId("read"));
      }
      r := h.Read(collection, id);
    } else if action == Str("update") {
      if !data.Object? {
        return Aborted;
      }
      var id := Get(data.fields, "id");
      if !Truthy(id) {
        return Failure(MissingId("update"));
      }
      r := h.Update(collection, id, data.fields);
    } else if action == Str("delete") {
      if !data.Object? {
        return Aborted;
      }
      var id := Get(data.fields, "id");
      if !Truthy(id) {
        return Failure(MissingId("delete"));
      }
      r := h.Delete(collection, id);
    } else if action == Str("query") {
      r := h.Query(collection, data);
    } else {
      r := Failure(InvalidAction(action));
    }
  }
}
