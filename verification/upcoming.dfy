/** The dashboard's upcoming-bookings card: a local list of mock bookings, a pending id set
    by a row's delete button, and the confirmation dialog that removes that booking. */
module Upcoming {
  import opened Seqs

  /** A row of the card (only the fields the delete flow reads). */
  datatype UpcomingBooking = UpcomingBooking(id: int, name: string)

  /** The card's state: the shown bookings and the id waiting for confirmation (`null`
      when no dialog is pending). */
  datatype Card = Card(bookings: seq<UpcomingBooking>, deleteId: DeleteId)

  /** The pending id: `null` or a number. */
  datatype DeleteId = Null | Id(value: int)

  /** The three mock bookings the card starts with, ids 1, 2 and 3, and nothing pending. */
  function InitialCard(): (c: Card)
    ensures |c.bookings| == 3 && c.deleteId == Null
    ensures forall i :: 0 <= i < 3 ==> c.bookings[i].id == i + 1
  {
    Card([UpcomingBooking(1, "John S."), UpcomingBooking(2, "John S."), UpcomingBooking(3, "John S.")], Null)
  }

  /** The confirmation's test `b.id !== deleteId`; with `null` pending it holds for every
      booking, whose id is a number. */
  predicate Remains(b: UpcomingBooking, pending: DeleteId) {
    pending.Null? || b.id != pending.value
  }

  /** The bookings whose id differs from the pending one. */
  function Without(bookings: seq<UpcomingBooking>, pending: DeleteId): (r: seq<UpcomingBooking>)
    ensures forall b :: b in r <==> b in bookings && (pending.Null? || b.id != pending.value)
    ensures |r| <= |bookings|
    ensures forall b :: multiset(r)[b] == if pending.Null? || b.id != pending.value then multiset(bookings)[b] else 0
    ensures Subseq(r, bookings)
    ensures pending.Null? ==> r == bookings
  {
    Filter(bookings, b => Remains(b, pending))
  }

  /** Removing the same id twice removes nothing more. */
  lemma WithoutIdempotent(bookings: seq<UpcomingBooking>, pending: DeleteId)
    ensures Without(Without(bookings, pending), pending) == Without(bookings, pending)
  {
    FilterIdempotent(bookings, b => Remains(b, pending));
  }

  /** `handleDelete(id)`: remember the id; the list is not touched. */
  function HandleDelete(c: Card, id: int): (r: Card)
    ensures r.bookings == c.bookings && r.deleteId == Id(id)
  {
    c.(deleteId := Id(id))
  }

  /** `confirmDelete()`: drop every booking with the pending id and clear it. */
  function ConfirmDelete(c: Card): (r: Card)
    ensures r.deleteId == Null
    ensures forall b :: b in r.bookings <==> b in c.bookings && (c.deleteId.Null? || b.id != c.deleteId.value)
    ensures r.bookings == Without(c.bookings, c.deleteId) && Subseq(r.bookings, c.bookings)
  {
    Card(Without(c.bookings, c.deleteId), Null)
  }

  /** The dialog's cancel: clear the pending id and keep every booking. */
  function CancelDelete(c: Card): (r: Card)
    ensures r.bookings == c.bookings && r.deleteId == Null
  {
    c.(deleteId := Null)
  }

  /** `isOpen={!!deleteId}`: the dialog shows when the pending id is truthy, so not for
      `null` and not for the number 0. */
  predicate DialogOpen(c: Card) {
    c.deleteId.Id? && c.deleteId.value != 0
  }

  /** Delete then confirm removes exactly the bookings with that id and closes the dialog. */
  lemma DeleteThenConfirm(c: Card, id: int, b: UpcomingBooking)
    ensures b in ConfirmDelete(HandleDelete(c, id)).bookings <==> b in c.bookings && b.id != id
    ensures !DialogOpen(ConfirmDelete(HandleDelete(c, id)))
  {
  }

  /** Delete then cancel leaves the list as it was. */
  lemma DeleteThenCancel(c: Card, id: int)
    ensures CancelDelete(HandleDelete(c, id)).bookings == c.bookings
    ensures !DialogOpen(CancelDelete(HandleDelete(c, id)))
  {
  }

  /** The delete button opens the dialog for every nonzero id, and for id 0 it does not:
      such a booking could never be removed through the dialog. */
  lemma DialogOpensIff(c: Card, id: int)
    ensures DialogOpen(HandleDelete(c, id)) <==> id != 0
  {
  }

  /** On the initial card every row's delete button opens the dialog, and confirming removes
      that row alone. */
  lemma InitialRowsDeletable(k: nat)
    requires k < 3
    ensures DialogOpen(HandleDelete(InitialCard(), InitialCard().bookings[k].id))
    ensures |ConfirmDelete(HandleDelete(InitialCard(), InitialCard().bookings[k].id)).bookings| == 2
  {
    var bs := InitialCard().bookings;
    assert bs == [bs[0]] + ([bs[1]] + [bs[2]]);
    WithoutThree(bs[0], bs[1], bs[2], Id(k + 1));
  }

  /** A three-row list loses exactly the rows that do not remain. */
  lemma WithoutThree(b0: UpcomingBooking, b1: UpcomingBooking, b2: UpcomingBooking, pending: DeleteId)
    ensures |Without([b0] + ([b1] + [b2]), pending)| ==
      (if Remains(b0, pending) then 1 else 0) + (if Remains(b1, pending) then 1 else 0) + (if Remains(b2, pending) then 1 else 0)
  {
    WithoutConsLength(b2, [], pending);
    assert [b2] + [] == [b2];
    WithoutConsLength(b1, [b2], pending);
    WithoutConsLength(b0, [b1] + [b2], pending);
  }

  /** Each row adds one to the filtered length exactly when it remains. */
  lemma WithoutConsLength(b: UpcomingBooking, t: seq<UpcomingBooking>, pending: DeleteId)
    ensures |Without([b] + t, pending)| == (if Remains(b, pending) then 1 else 0) + |Without(t, pending)|
  {
    WithoutCons(b, t, pending);
  }

  /** Filtering a list with a first element decides that element, then filters the rest. */
  lemma WithoutCons(b: UpcomingBooking, t: seq<UpcomingBooking>, pending: DeleteId)
    ensures Without([b] + t, pending) == (if Remains(b, pending) then [b] else []) + Without(t, pending)
  {
    assert ([b] + t)[1..] == t;
  }
}
