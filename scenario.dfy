/**
 * Clients of the repository: one booking created, confirmed, listed and
 * deleted, checked from the operations' contracts alone.
 */
module Scenario {
  import opened Wrappers
  import opened Bson
  import opened Store
  import opened Crud

  /** Example field values: text or a count. */
  datatype Value = Text(s: string) | Count(n: int)

  /** Create Alice's booking, confirm it, and read it back. */
  method CreateThenConfirm(generated: ObjectId) {
    var c := new Collection<Value>();
    var alice := TicketBooking(Some(Text("Alice")), Some(Text("Concert")), None, Some(Count(2)), None);
    var created := CreateTicketBooking(alice, c, generated);
    assert created.Ok?;
    var id := created.value.id;
    assert created.value.fields == ExcludeUnset(alice);
    assert StatusKey !in created.value.fields;

    var confirm := TicketBooking(None, None, None, None, Some(Text("confirmed")));
    var reply := UpdateTicketBooking(id, confirm, c);
    ParseIdToString(generated);
    assert reply == Ok(Message(TicketUpdated));
    GetAfterUpdate(c, generated, ExcludeUnset(alice), confirm);
    var view := GetTicketBookingById(id, c);
    assert view.value.value.status == Some(Text("confirmed"));
    assert view.value.value.userName == Some(Text("Alice"));
  }

  /** Not-found replies for an unknown id; list, then delete, the one stored booking. */
  method ListThenDelete(generated: ObjectId, other: ObjectId)
    requires generated != other
  {
    var c := new Collection<Value>();
    var bob := TicketBooking(Some(Text("Bob")), None, None, None, None);
    var created := CreateTicketBooking(bob, c, generated);
    assert created.Ok?;
    var id := created.value.id;
    ParseIdToString(generated);
    ParseIdToString(other);

    var missing := UpdateTicketBooking(IdToString(other), bob, c);
    assert missing == Ok(Error(TicketNotFound));
    var notDeleted := DeleteTicketBooking(IdToString(other), c);
    assert notDeleted == Ok(Error(TicketNotFound));

    var all := GetAllTicketBookings(c);
    assert |all| == 1;

    var gone := DeleteTicketBooking(id, c);
    assert gone == Ok(Message(TicketDeleted));
    assert GetTicketBookingById(id, c) == Ok(None);
    var again := DeleteTicketBooking(id, c);
    assert again == Ok(Error(TicketNotFound));
  }
}
