/**
 * The ticket-booking repository: create, list, get-by-id, update and delete
 * over a document collection, plus the serializer that turns a stored
 * document into the record handed back to callers.
 *
 * A `TicketBooking` is the validated request record; a field holding None
 * was not set by the caller, so `ExcludeUnset` (pydantic's
 * `.dict(exclude_unset=True)`) leaves it out.
 */
module Crud {
  import opened Wrappers
  import opened Bson
  import opened Store

  const UserNameKey: string := "user_name"
  const EventKey: string := "event"
  const DateKey: string := "date"
  const SeatsKey: string := "seats"
  const StatusKey: string := "status"

  /** The field names of a booking, as stored and as serialized. */
  const TicketKeys: set<string> := {UserNameKey, EventKey, DateKey, SeatsKey, StatusKey}

  const TicketNotFound: string := "Ticket not found"
  const TicketUpdated: string := "Ticket updated successfully"
  const TicketDeleted: string := "Ticket deleted successfully"

  /** The request record; None marks a field the caller did not set. */
  datatype TicketBooking<V> = TicketBooking(
    userName: Option<V>, event: Option<V>, date: Option<V>, seats: Option<V>, status: Option<V>)

  /** The record returned to callers: the stringified `_id` and the five fields, None where absent. */
  datatype TicketView<V> = TicketView(
    id: string, userName: Option<V>, event: Option<V>, date: Option<V>, seats: Option<V>, status: Option<V>)

  /** What create returns: `{"id": str(_id), **ticket_dict}`. */
  datatype Created<V> = Created(id: string, fields: Fields<V>)

  /** The dictionaries update and delete return: `{"message": ...}` or `{"error": ...}`. */
  datatype Reply = Message(message: string) | Error(error: string)

  /** The booking field a key names. */
  function BookingField<V>(t: TicketBooking<V>, key: string): Option<V> {
    if key == UserNameKey then t.userName
    else if key == EventKey then t.event
    else if key == DateKey then t.date
    else if key == SeatsKey then t.seats
    else if key == StatusKey then t.status
    else None
  }

  /** The view field a key names. */
  function ViewField<V>(v: TicketView<V>, key: string): Option<V> {
    if key == UserNameKey then v.userName
    else if key == EventKey then v.event
    else if key == DateKey then v.date
    else if key == SeatsKey then v.seats
    else if key == StatusKey then v.status
    else None
  }

  /** `dict.get(key)`: None when the key is absent. */
  function Lookup<V>(fields: Fields<V>, key: string): Option<V> {
    if key in fields then Some(fields[key]) else None
  }

  function Entry<V>(key: string, value: Option<V>): Fields<V> {
    if value.Some? then map[key := value.value] else map[]
  }

  /** `.dict(exclude_unset=True)`: exactly the fields the caller set, with their values. */
  function ExcludeUnset<V>(t: TicketBooking<V>): (d: Fields<V>)
    ensures forall k :: k in d <==> k in TicketKeys && BookingField(t, k).Some?
    ensures forall k :: k in d ==> Some(d[k]) == BookingField(t, k)
  {
    Entry(UserNameKey, t.userName) + Entry(EventKey, t.event) + Entry(DateKey, t.date)
      + Entry(SeatsKey, t.seats) + Entry(StatusKey, t.status)
  }

  /** A view whose five fields are read from `fields` agrees with `fields` on every booking key. */
  lemma ViewFieldsFrom<V>(r: TicketView<V>, fields: Fields<V>)
    requires r.userName == Lookup(fields, UserNameKey) && r.event == Lookup(fields, EventKey)
    requires r.date == Lookup(fields, DateKey) && r.seats == Lookup(fields, SeatsKey)
    requires r.status == Lookup(fields, StatusKey)
    ensures forall k :: k in TicketKeys ==> ViewField(r, k) == Lookup(fields, k)
  {
  }

  /**
   * `ticket_serializer`: total on any document. The id is `str(_id)`, which parses
   * back to the stored `_id`; each of the five fields is the stored value or None.
   */
  function TicketSerializer<V>(ticket: Document<V>): (r: TicketView<V>)
    ensures r.id == IdToString(ticket.id)
    ensures ParseObjectId(r.id) == Some(ticket.id)
    ensures forall k :: k in TicketKeys ==> ViewField(r, k) == Lookup(ticket.fields, k)
  {
    var r := TicketView(
      IdToString(ticket.id),
      Lookup(ticket.fields, UserNameKey),
      Lookup(ticket.fields, EventKey),
      Lookup(ticket.fields, DateKey),
      Lookup(ticket.fields, SeatsKey),
      Lookup(ticket.fields, StatusKey));
    ParseIdToString(ticket.id);
    ViewFieldsFrom(r, ticket.fields);
    r
  }

  /** The list comprehension of `get_all_ticket_bookings`. */
  function SerializeAll<V>(tickets: seq<Document<V>>): seq<TicketView<V>> {
    seq(|tickets|, i requires 0 <= i < |tickets| => TicketSerializer(tickets[i]))
  }

  /** The view a booking should read back as: set fields as given, unset ones None. */
  function BookingView<V>(id: string, t: TicketBooking<V>): TicketView<V> {
    TicketView(id, t.userName, t.event, t.date, t.seats, t.status)
  }

  /** Serializing a freshly created document reads the request record back. */
  lemma SerializeCreated<V>(id: ObjectId, t: TicketBooking<V>)
    ensures TicketSerializer(Document(id, ExcludeUnset(t))) == BookingView(IdToString(id), t)
  {
    var d := ExcludeUnset(t);
    assert Lookup(d, UserNameKey) == t.userName;
    assert Lookup(d, EventKey) == t.event;
    assert Lookup(d, DateKey) == t.date;
    assert Lookup(d, SeatsKey) == t.seats;
    assert Lookup(d, StatusKey) == t.status;
  }

  /** `create_ticket_booking`; `generated` is the `_id` the driver picks for the new document. */
  method CreateTicketBooking<V>(ticketData: TicketBooking<V>, c: Collection<V>, generated: ObjectId)
    returns (r: Result<Created<V>, Failure>)
    modifies c
    ensures generated in old(c.docs) ==> r == Err(DuplicateKey(generated)) && c.docs == old(c.docs)
    ensures generated !in old(c.docs) ==>
      && r == Ok(Created(IdToString(generated), ExcludeUnset(ticketData)))
      && c.docs == old(c.docs)[generated := ExcludeUnset(ticketData)]
      && |c.docs| == |old(c.docs)| + 1
      && GetTicketBookingById(r.value.id, c) == Ok(Some(BookingView(r.value.id, ticketData)))
  {
    var ticketDict := ExcludeUnset(ticketData);
    var result := c.InsertOne(ticketDict, generated);
    match result
    case Err(e) => return Err(e);
    case Ok(insertedId) =>
      r := Ok(Created(IdToString(insertedId), ticketDict));
      GetAfterCreate(c, insertedId, ticketData);
  }

  /** `get_all_ticket_bookings`: one serialized record per stored document, in no promised order. */
  method GetAllTicketBookings<V>(c: Collection<V>) returns (r: seq<TicketView<V>>)
    ensures |r| == |c.docs|
    ensures forall i :: 0 <= i < |r| ==>
      exists id :: id in c.docs && r[i] == TicketSerializer(Document(id, c.docs[id]))
    ensures forall id :: id in c.docs ==>
      exists i :: 0 <= i < |r| && r[i] == TicketSerializer(Document(id, c.docs[id]))
    ensures forall i, j :: 0 <= i < j < |r| ==> r[i].id != r[j].id
  {
    var tickets := c.Find();
    r := SerializeAll(tickets);
    forall i | 0 <= i < |r|
      ensures exists id :: id in c.docs && r[i] == TicketSerializer(Document(id, c.docs[id]))
    {
      assert tickets[i] == Document(tickets[i].id, c.docs[tickets[i].id]);
    }
    forall id | id in c.docs
      ensures exists i :: 0 <= i < |r| && r[i] == TicketSerializer(Document(id, c.docs[id]))
    {
      var i :| 0 <= i < |tickets| && tickets[i].id == id;
      assert r[i] == TicketSerializer(Document(id, c.docs[id]));
    }
    forall i, j | 0 <= i < j < |r|
      ensures r[i].id != r[j].id
    {
      assert ParseObjectId(r[i].id) == Some(tickets[i].id);
      assert ParseObjectId(r[j].id) == Some(tickets[j].id);
    }
  }

  /**
   * `get_ticket_booking_by_id`: a malformed id fails, a well-formed id that matches
   * nothing gives None, and a match gives the serialized document.
   */
  function GetTicketBookingById<V>(ticketId: string, c: Collection<V>): (r: Result<Option<TicketView<V>>, Failure>)
    reads c
    ensures ParseObjectId(ticketId).None? ==> r == Err(InvalidId(ticketId))
    ensures ParseObjectId(ticketId).Some? ==>
      var id := ParseObjectId(ticketId).value;
      && r.Ok?
      && (r.value.Some? <==> id in c.docs)
      && (r.value.Some? ==> r.value.value == TicketSerializer(Document(id, c.docs[id])))
  {
    match ParseObjectId(ticketId)
    case None => Err(InvalidId(ticketId))
    case Some(id) =>
      var ticket := c.FindOne(id);
      if ticket.Some? then Ok(Some(TicketSerializer(ticket.value))) else Ok(None)
  }

  /** After a create, get-by-id on the returned id reads the request record back. */
  lemma GetAfterCreate<V>(c: Collection<V>, id: ObjectId, t: TicketBooking<V>)
    requires id in c.docs && c.docs[id] == ExcludeUnset(t)
    ensures GetTicketBookingById(IdToString(id), c) == Ok(Some(BookingView(IdToString(id), t)))
  {
    ParseIdToString(id);
    SerializeCreated(id, t);
  }

  /**
   * The record get-by-id returns carries the id that was asked for, with any
   * upper-case hex letters in lower case.
   */
  lemma GetByIdReturnsRequestedId<V>(ticketId: string, c: Collection<V>)
    requires GetTicketBookingById(ticketId, c).Ok? && GetTicketBookingById(ticketId, c).value.Some?
    ensures GetTicketBookingById(ticketId, c).value.value.id == ToLowerHex(ticketId)
  {
    IdToStringOfParse(ticketId);
  }

  /** Get-by-id on the string of an id that is not stored gives None, not a failure. */
  lemma GetAbsent<V>(c: Collection<V>, id: ObjectId)
    requires id !in c.docs
    ensures GetTicketBookingById(IdToString(id), c) == Ok(None)
  {
    ParseIdToString(id);
  }

  /** The new value of a field after `$set`: the update's value if it set one, else the old one. */
  function Override<V>(update: Option<V>, old_: Option<V>): Option<V> {
    if update.Some? then update else old_
  }

  /**
   * After an update, each field reads back as the update's value where the update set it
   * and as the document's previous value (or None) where it did not.
   */
  lemma GetAfterUpdate<V>(c: Collection<V>, id: ObjectId, before: Fields<V>, update: TicketBooking<V>)
    requires id in c.docs && c.docs[id] == SetFields(before, ExcludeUnset(update))
    ensures GetTicketBookingById(IdToString(id), c) == Ok(Some(TicketView(
      IdToString(id),
      Override(update.userName, Lookup(before, UserNameKey)),
      Override(update.event, Lookup(before, EventKey)),
      Override(update.date, Lookup(before, DateKey)),
      Override(update.seats, Lookup(before, SeatsKey)),
      Override(update.status, Lookup(before, StatusKey)))))
  {
    ParseIdToString(id);
    var u := ExcludeUnset(update);
    var after := SetFields(before, u);
    assert Lookup(after, UserNameKey) == Override(update.userName, Lookup(before, UserNameKey));
    assert Lookup(after, EventKey) == Override(update.event, Lookup(before, EventKey));
    assert Lookup(after, DateKey) == Override(update.date, Lookup(before, DateKey));
    assert Lookup(after, SeatsKey) == Override(update.seats, Lookup(before, SeatsKey));
    assert Lookup(after, StatusKey) == Override(update.status, Lookup(before, StatusKey));
  }

  /** An update that sets no field leaves the document exactly as it was. */
  lemma EmptyUpdateIsIdentity<V>(doc: Fields<V>)
    ensures SetFields(doc, ExcludeUnset(TicketBooking(None, None, None, None, None))) == doc
  {
    var empty: TicketBooking<V> := TicketBooking(None, None, None, None, None);
    var u := ExcludeUnset(empty);
    assert u == map[] by {
      forall k ensures k !in u {
        assert BookingField(empty, k) == None;
      }
    }
  }

  /**
   * `update_ticket_booking`: merges the set fields into the matching document. A
   * malformed id fails before the store is touched; no match gives the error reply.
   */
  method UpdateTicketBooking<V>(ticketId: string, updatedData: TicketBooking<V>, c: Collection<V>)
    returns (r: Result<Reply, Failure>)
    modifies c
    ensures ParseObjectId(ticketId).None? ==> r == Err(InvalidId(ticketId)) && c.docs == old(c.docs)
    ensures ParseObjectId(ticketId).Some? ==>
      var id := ParseObjectId(ticketId).value;
      if id in old(c.docs) then
        && r == Ok(Message(TicketUpdated))
        && c.docs == old(c.docs)[id := SetFields(old(c.docs)[id], ExcludeUnset(updatedData))]
      else
        r == Ok(Error(TicketNotFound)) && c.docs == old(c.docs)
  {
    var updateDict := ExcludeUnset(updatedData);
    var parsed := ParseObjectId(ticketId);
    if parsed.None? {
      return Err(InvalidId(ticketId));
    }
    var matched := c.UpdateOne(parsed.value, updateDict);
    if matched == 0 {
      return Ok(Error(TicketNotFound));
    }
    return Ok(Message(TicketUpdated));
  }

  /**
   * `delete_ticket_booking`: removes the matching document, after which get-by-id
   * gives None. No match gives the error reply and changes nothing.
   */
  method DeleteTicketBooking<V>(ticketId: string, c: Collection<V>) returns (r: Result<Reply, Failure>)
    modifies c
    ensures ParseObjectId(ticketId).None? ==> r == Err(InvalidId(ticketId)) && c.docs == old(c.docs)
    ensures ParseObjectId(ticketId).Some? ==>
      var id := ParseObjectId(ticketId).value;
      && c.docs == old(c.docs) - {id}
      && r == (if id in old(c.docs) then Ok(Message(TicketDeleted)) else Ok(Error(TicketNotFound)))
      && (id in old(c.docs) ==> |c.docs| == |old(c.docs)| - 1)
      && GetTicketBookingById(ticketId, c) == Ok(None)
  {
    var parsed := ParseObjectId(ticketId);
    if parsed.None? {
      return Err(InvalidId(ticketId));
    }
    var deleted := c.DeleteOne(parsed.value);
    if deleted == 0 {
      return Ok(Error(TicketNotFound));
    }
    return Ok(Message(TicketDeleted));
  }
}
