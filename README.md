# Ticket-booking repository: a verified model

This project models the booking repository of a small ticket-booking backend.
The repository is the module `backend/app/crud.py`, which has five operations
over a MongoDB collection: create, list, get-by-id, update and delete. It also
has the serializer that turns a stored document into the record returned to
callers.

The collection is modelled as an in-memory table, which is a map from a BSON
ObjectId to a document. A document is a map from field name to value. Field
values are opaque, so the model is generic in their type `V`.

The model has five files:

- `wrappers.dfy`: the `Option` and `Result` datatypes.
- `bson.dfy`: BSON ObjectIds.
  - An ObjectId is 12 bytes.
  - `str(oid)` gives 24 lower-case hex digits.
  - `ObjectId(text)` accepts exactly 24 hex digits, upper or lower case, and fails on anything else.
  - Proved: parsing undoes `str`, so `str` is injective.
  - Proved: `str` of a parsed id gives back the text in lower case.
- `store.dfy`: the collection as the class `Collection`, whose field `docs` the driver calls change in place.
  - Modelled calls: `insert_one`, `find`, `find_one`, `update_one` with `$set`, and `delete_one`, all matched on `_id`.
  - `$set` is `SetFields`.
  - `find` returns every document exactly once, in an order the store chooses.
- `crud.dfy`: the six functions of `crud.py`.
  - The request record `TicketBooking` has five `Option` fields. None means "not set".
  - `ExcludeUnset` is pydantic's `.dict(exclude_unset=True)`.
  - Create, update and delete are methods that modify the collection.
  - The serializer and get-by-id are functions.
  - List is a method: it reads the store's cursor and serializes each document.
- `scenario.dfy`: two client methods. They walk through one booking's life:
  - create it;
  - confirm it with an update;
  - read it back;
  - get not-found replies for an unknown id;
  - list it;
  - delete it.

  These methods use only the operations' contracts.

Error handling follows the source:

- A malformed id makes `ObjectId(ticket_id)` raise in get, update and delete. The model gives `Err(InvalidId(text))`, and the collection is unchanged.
- Get-by-id reports a missing document as `Ok(None)`.
- Update and delete report a missing document as the reply `Error("Ticket not found")`. They do not raise.
- Successful updates and deletes return `Message("Ticket updated successfully")` and `Message("Ticket deleted successfully")`.
- Create takes the ObjectId that the driver generates as a parameter. If that id is already stored, the insert fails with `Err(DuplicateKey(id))`, as MongoDB's unique `_id` index does.

## Model

| member | source | states |
|---|---|---|
| Bson.ParseIdToString | backend/app/crud.py:45 | `ObjectId(str(oid)) == oid`: the id a record carries parses back to the stored `_id` |
| Bson.IdToStringInjective | backend/app/crud.py:45 | distinct stored ids give distinct `id` strings |
| Bson.IdToStringOfParse | backend/app/crud.py:19 | `str(ObjectId(text))` is the text with its hex letters in lower case |
| Bson.ParseAccepts | backend/app/crud.py:19 | `ObjectId(text)` succeeds iff the text is 24 hex digits of either case; otherwise the operation fails |
| Store.SetFields | backend/app/crud.py:27-30 | `$set`: every provided field overwrites or is added, every other field of the document keeps its value, and the key set is the union |
| Store.Collection.InsertOne | backend/app/crud.py:9 | the document is filed under the generated `_id` and nothing else changes; an `_id` already present is refused and leaves the table unchanged |
| Store.Collection.FindOne | backend/app/crud.py:19 | a document is found iff its `_id` is stored, and it is that stored document |
| Store.Collection.Find | backend/app/crud.py:14 | the cursor lists every stored document exactly once (same length as the table, no repeated `_id`, each entry equal to the stored document), in no promised order |
| Store.Collection.UpdateOne | backend/app/crud.py:27-31 | matched count is 1 iff the `_id` is stored; only that document changes, to its `$set` merge with the update |
| Store.Collection.DeleteOne | backend/app/crud.py:37-38 | deleted count is 1 iff the `_id` was stored; exactly that document is removed |
| Crud.ExcludeUnset | backend/app/crud.py:8 | the dict holds exactly the booking fields the caller set, with their values; unset fields are absent, not null |
| Crud.TicketSerializer | backend/app/crud.py:43-51 | total on any document: `id` is exactly `str(_id)`, the lower-case rendering, and parses back to the stored `_id`; each of the five fields is the stored value when present and None when absent |
| Crud.SerializeCreated | backend/app/crud.py:43-51 | serializing a created document gives the request record back: set fields equal the input, unset fields are None |
| Crud.CreateTicketBooking | backend/app/crud.py:7-10 | under a fresh id it inserts exactly the set fields, grows the table by one and leaves every other document unchanged; it returns `str(id)` with those fields, and get-by-id on that id reads the record back; a clashing id fails with the table unchanged |
| Crud.GetAllTicketBookings | backend/app/crud.py:13-15 | one serialized record per stored document: its length is the table size, every stored document appears, every record comes from a stored document, the ids are pairwise distinct, and the table is not changed |
| Crud.GetTicketBookingById | backend/app/crud.py:18-22 | a malformed id fails; a well-formed id gives the serialized document iff it is stored and None otherwise; it only reads the collection |
| Crud.GetAfterCreate | backend/app/crud.py:18-22 | round trip: after create, get-by-id on `str(id)` gives the request record with unset fields None |
| Crud.GetByIdReturnsRequestedId | backend/app/crud.py:18-22 | a record found by get-by-id carries the requested id, in lower case |
| Crud.GetAbsent | backend/app/crud.py:20-22 | get-by-id on the string of an id that is not stored gives None, not a failure |
| Crud.GetAfterUpdate | backend/app/crud.py:26-33 | after an update each field reads back as the update's value where it was set and as the previous stored value (or None) where it was not |
| Crud.EmptyUpdateIsIdentity | backend/app/crud.py:26-29 | an update that sets no field leaves the document identical |
| Crud.UpdateTicketBooking | backend/app/crud.py:25-33 | a malformed id fails with the table unchanged; no match gives `{"error": "Ticket not found"}` with the table unchanged; a match `$set`-merges exactly the set fields into that document only and gives the success message, also when nothing was set |
| Crud.DeleteTicketBooking | backend/app/crud.py:36-40 | a malformed id fails with the table unchanged; otherwise exactly that document is removed (the table shrinks by one on a match), the reply is the success message on a match and `{"error": "Ticket not found"}` otherwise, and get-by-id on that id gives None afterwards |

## Left out

- `backend/app/main.py` is not part of this model:
  - the upload endpoint is asynchronous HTTP multipart handling and filesystem writes, with a catch-all that maps exceptions to status 500;
  - the root route returns a constant.
- How the driver generates ObjectIds (from a timestamp, random bytes and a counter) is not modelled. The generated id is a parameter of `Crud.CreateTicketBooking`.
- `Crud.CreateTicketBooking`: pymongo's `insert_one` adds `_id` to the very dict it is given. So the dict that `create_ticket_booking` returns also carries `"_id": ObjectId(...)` next to `"id"`. This driver side effect is not modelled: the model returns only `id` and the set fields.
- `Bson.ParseAccepts`: bson parses through `bytes.fromhex`, which also skips ASCII whitespace between digit pairs. A 24-character string with spaces is therefore accepted there, but the model rejects it.
- `Store.Collection.UpdateOne`: it follows MongoDB 5.0 and later, where an empty `$set` is accepted and changes nothing. Older servers reject an empty `$set` with an error, and that error is not modelled.
- The serializer's None cannot be told apart from a stored null in Python. In the model, values are opaque, so a stored null is just some value `v` and comes back as `Some(v)`.
- The field types of `TicketBooking` are not modelled, because `models.py` is not part of this model. The model assumes the five fields that the serializer reads, and no `id` field that could clash with the `"id"` key in create's reply.
- Concurrency between requests, the iteration order of `find()`, and the server and driver internals are not modelled.

A note on get-by-id:

- `if ticket:` in get-by-id tests a dict for truthiness. A found document always holds `_id`, so it is never empty. The model therefore treats "found" as "present".
