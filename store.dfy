/**
 * The document collection the repository works on, modelled as an in-memory
 * table: every stored document is a map from field name to value, filed
 * under its `_id`. Only the five collection calls the repository makes are
 * modelled: `insert_one`, `find`, `find_one`, `update_one` with `$set`, and
 * `delete_one`, each matching on `_id`.
 */
module Store {
  import opened Wrappers
  import opened Bson

  /** The fields of a document other than `_id`; values are opaque. */
  type Fields<V> = map<string, V>

  /** A document as the driver hands it back: `{"_id": id, **fields}`. */
  datatype Document<V> = Document(id: ObjectId, fields: Fields<V>)

  /** The collection's contents: `_id` to the rest of the document. */
  type Table<V> = map<ObjectId, Fields<V>>

  /** The failures the repository lets escape. */
  datatype Failure =
    | InvalidId(text: string)        // bson.errors.InvalidId raised by ObjectId(text)
    | DuplicateKey(id: ObjectId)     // pymongo.errors.DuplicateKeyError raised by insert_one

  /** `$set`: every field of `update` overwrites or adds; the rest of `doc` stays. */
  function SetFields<V>(doc: Fields<V>, update: Fields<V>): (r: Fields<V>)
    ensures r.Keys == doc.Keys + update.Keys
    ensures forall k :: k in update ==> r[k] == update[k]
    ensures forall k :: k in doc && k !in update ==> r[k] == doc[k]
  {
    doc + update
  }

  /** `cursor` lists every document of `table` exactly once, in some order. */
  ghost predicate Enumerates<V>(cursor: seq<Document<V>>, table: Table<V>) {
    && |cursor| == |table|
    && (forall i :: 0 <= i < |cursor| ==> cursor[i].id in table && table[cursor[i].id] == cursor[i].fields)
    && (forall i, j :: 0 <= i < j < |cursor| ==> cursor[i].id != cursor[j].id)
    && (forall id :: id in table ==> exists i :: 0 <= i < |cursor| && cursor[i].id == id)
  }

  class Collection<V> {
    var docs: Table<V>

    constructor ()
      ensures docs == map[]
    {
      docs := map[];
    }

    /**
     * `insert_one(fields)` with the `_id` the driver generated for it. MongoDB
     * refuses an `_id` already in the collection.
     */
    method InsertOne(fields: Fields<V>, generated: ObjectId) returns (r: Result<ObjectId, Failure>)
      modifies this
      ensures generated in old(docs) ==> r == Err(DuplicateKey(generated)) && docs == old(docs)
      ensures generated !in old(docs) ==> r == Ok(generated) && docs == old(docs)[generated := fields]
    {
      if generated in docs {
        return Err(DuplicateKey(generated));
      }
      docs := docs[generated := fields];
      return Ok(generated);
    }

    /** `find_one({"_id": id})`. */
    function FindOne(id: ObjectId): (r: Option<Document<V>>)
      reads this
      ensures r.Some? <==> id in docs
      ensures r.Some? ==> r.value.id == id && r.value.fields == docs[id]
    {
      if id in docs then Some(Document(id, docs[id])) else None
    }

    /** `find()`: all documents, in an order the store chooses. */
    method Find() returns (cursor: seq<Document<V>>)
      ensures Enumerates(cursor, docs)
    {
      cursor := [];
      var remaining := docs.Keys;
      while remaining != {}
        invariant remaining <= docs.Keys
        invariant |cursor| + |remaining| == |docs|
        invariant forall i :: 0 <= i < |cursor| ==>
          cursor[i].id in docs && cursor[i].id !in remaining && docs[cursor[i].id] == cursor[i].fields
        invariant forall i, j :: 0 <= i < j < |cursor| ==> cursor[i].id != cursor[j].id
        invariant forall id :: id in docs && id !in remaining ==> exists i :: 0 <= i < |cursor| && cursor[i].id == id
        decreases |remaining|
      {
        var id :| id in remaining;
        ghost var before := cursor;
        cursor := cursor + [Document(id, docs[id])];
        remaining := remaining - {id};
        assert cursor[|before|].id == id;
        assert forall i :: 0 <= i < |before| ==> cursor[i] == before[i];
      }
    }

    /** `update_one({"_id": id}, {"$set": update})`; returns `matched_count`. */
    method UpdateOne(id: ObjectId, update: Fields<V>) returns (matched: nat)
      modifies this
      ensures matched == if id in old(docs) then 1 else 0
      ensures docs == if id in old(docs) then old(docs)[id := SetFields(old(docs)[id], update)] else old(docs)
    {
      if id in docs {
        docs := docs[id := SetFields(docs[id], update)];
        return 1;
      }
      return 0;
    }

    /** `delete_one({"_id": id})`; returns `deleted_count`. */
    method DeleteOne(id: ObjectId) returns (deleted: nat)
      modifies this
      ensures deleted == if id in old(docs) then 1 else 0
      ensures docs == old(docs) - {id}
    {
      if id in docs {
        docs := docs - {id};
        return 1;
      }
      return 0;
    }
  }
}
