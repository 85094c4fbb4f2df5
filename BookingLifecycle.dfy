/** The hall booking lifecycle of routes/booking.js over two in-memory tables,
    bookings and halls: create (the availability guard, then a `shortlisted`
    record), the owner's decision (reject, or confirm and commit the day to the
    hall calendar), the receipt gate, and the owner's booking listing.

    Each handler is specified by a pure function of the old tables and the
    request (Book, Decide, ReceiptGate, OwnerBookings); the class
    BookingService performs Book and Decide step by step on its fields and is
    proved to end in the state those functions describe. E-mail delivery is a
    boolean parameter: it only decides whether the answer is 500. */
module BookingLifecycle {
  import opened Common
  import opened BookingRecord

  type BookingId = nat

  /** A hall as the booking handlers use it. `bookedDates` is None when the
      stored hall carries no calendar: models/Hall.js declares no such path, so
      `hall.bookedDates` is then `undefined`. */
  datatype Hall = Hall(owner: UserId, name: string, bookedDates: Option<seq<Date>>)

  /** The statuses that hold a date: `status: { $in: ["shortlisted", "confirmed"] }`. */
  predicate Active(b: Booking)
  {
    b.status == Shortlisted || b.status == Confirmed
  }

  // ---------------------------------------------------------------- dates

  /** `d.setHours(h, m, s, ms)`: the same local day at a new time of day. */
  function SetHours(d: Date, h: int, m: int, s: int, ms: int): (r: Date)
    requires 0 <= h < 24 && 0 <= m < 60 && 0 <= s < 60 && 0 <= ms < 1000
    ensures r.day == d.day
    ensures r.ms == ((h * 60 + m) * 60 + s) * 1000 + ms
  {
    assert h * 60 + m <= 23 * 60 + 59;
    assert (h * 60 + m) * 60 + s <= (23 * 60 + 59) * 60 + 59;
    Date(d.day, ((h * 60 + m) * 60 + s) * 1000 + ms)
  }

  function DayStart(day: int): int
  {
    day * MsPerDay
  }

  function DayEnd(day: int): int
  {
    day * MsPerDay + (MsPerDay - 1)
  }

  /** The instant window `[00:00:00.000, 23:59:59.999]` of a day contains
      exactly the dates of that calendar day. */
  lemma DayWindowIsCalendarDay(d: Date, day: int)
    ensures DayStart(day) <= Millis(d) <= DayEnd(day) <==> d.day == day
  {
    if d.day < day {
      assert d.day * MsPerDay <= (day - 1) * MsPerDay;
    } else if d.day > day {
      assert d.day * MsPerDay >= (day + 1) * MsPerDay;
    }
  }

  /** `toDateString()` equality: the same local calendar day. */
  predicate SameDay(d: Date, e: Date)
  {
    d.day == e.day
  }

  // ----------------------------------------------------- availability

  /** The availability query as written: same hall, date inside [lo, hi],
      status shortlisted or confirmed. */
  predicate InWindow(b: Booking, hallId: HallId, lo: int, hi: int)
  {
    b.hallId == hallId && lo <= Millis(b.date) <= hi && Active(b)
  }

  /** A booking that holds `day` for `hallId`. */
  predicate Blocks(b: Booking, hallId: HallId, day: int)
  {
    b.hallId == hallId && b.date.day == day && Active(b)
  }

  /** The hall is not available on `day`. */
  predicate Conflicts(bookings: map<BookingId, Booking>, hallId: HallId, day: int)
  {
    exists id :: id in bookings && Blocks(bookings[id], hallId, day)
  }

  /** At most one shortlisted-or-confirmed booking per hall and calendar day. */
  ghost predicate NoDoubleBooking(bookings: map<BookingId, Booking>)
  {
    forall i, j ::
      i in bookings && j in bookings && i != j
      && Active(bookings[i]) && Active(bookings[j])
      && bookings[i].hallId == bookings[j].hallId
      ==> bookings[i].date.day != bookings[j].date.day
  }

  /** A rejected booking never makes a day unavailable. */
  lemma RejectedNeverBlocks(bookings: map<BookingId, Booking>, id: BookingId, hallId: HallId, day: int)
    requires id in bookings && bookings[id].status == Rejected
    ensures Conflicts(bookings, hallId, day) <==> Conflicts(bookings - {id}, hallId, day)
  {
    if Conflicts(bookings, hallId, day) {
      var k :| k in bookings && Blocks(bookings[k], hallId, day);
      assert k in bookings - {id};
    }
  }

  // ------------------------------------------------------------ create

  datatype CreateResponse = Created(id: BookingId) | HallNotFound | DateTaken | ServerError

  function CreateStatusCode(r: CreateResponse): int
  {
    match r
    case Created(_) => 200
    case HallNotFound => 404
    case DateTaken => 400
    case ServerError => 500
  }

  /** The date the create handler stores: both `setHours` calls mutate the
      request's date, so it ends at the last millisecond of its day. */
  function StoredDate(d: Date): (r: Date)
    ensures SameDay(r, d) && Millis(r) == DayEnd(d.day)
  {
    SetHours(SetHours(d, 0, 0, 0, 0), 23, 59, 59, 999)
  }

  /** POST /book-hall. `date` is None when `new Date(date)` is invalid, which
      the store refuses to cast; `notified` says whether the owner e-mail went
      out. `freshId` is the identifier the store assigns. */
  function Book(bookings: map<BookingId, Booking>, halls: map<HallId, Hall>, freshId: BookingId,
                caller: UserId, hallId: HallId, date: Option<Date>, now: int, notified: bool)
    : (res: (map<BookingId, Booking>, CreateResponse))
    requires freshId !in bookings
    ensures hallId !in halls ==> res == (bookings, HallNotFound)
    ensures hallId in halls && date.None? ==> res == (bookings, ServerError)
    ensures hallId in halls && date.Some? && Conflicts(bookings, hallId, date.value.day)
            ==> res == (bookings, DateTaken)
    ensures hallId in halls && date.Some? && !Conflicts(bookings, hallId, date.value.day)
            ==> res.0 == bookings[freshId := Booking(caller, hallId, StoredDate(date.value), Shortlisted, false, now)]
                && res.1 == (if notified then Created(freshId) else ServerError)
    ensures res.1.Created? ==> res.1.id == freshId && freshId in res.0
    ensures NoDoubleBooking(bookings) ==> NoDoubleBooking(res.0)
  {
    if hallId !in halls then (bookings, HallNotFound)
    else if date.None? then (bookings, ServerError)
    else if Conflicts(bookings, hallId, date.value.day) then (bookings, DateTaken)
    else
      var b := NewBooking(BookingDraft(Some(caller), Some(hallId), Some(StoredDate(date.value)), None, None), now).value;
      (bookings[freshId := b], if notified then Created(freshId) else ServerError)
  }

  // ------------------------------------------------------------ decide

  /** `paymentReceived` from the request body: a boolean, or anything else. */
  datatype PaymentField = PaymentFlag(received: bool) | NotABoolean

  datatype DecideResponse =
    | BookingNotFound
    | HallUnresolved
    | NotHallOwner
    | InvalidPayment
    | RejectionSent
    | ConfirmationSent
    | ServerFault

  function DecideStatusCode(r: DecideResponse): int
  {
    match r
    case BookingNotFound => 404
    case HallUnresolved => 500
    case NotHallOwner => 403
    case InvalidPayment => 400
    case RejectionSent => 200
    case ConfirmationSent => 200
    case ServerFault => 500
  }

  datatype Decision = Decision(bookings: map<BookingId, Booking>, halls: map<HallId, Hall>, response: DecideResponse)

  /** The booking exists, its hall resolves, and `requester` owns that hall. */
  predicate Authorized(bookings: map<BookingId, Booking>, halls: map<HallId, Hall>, id: BookingId, requester: UserId)
  {
    id in bookings && bookings[id].hallId in halls && halls[bookings[id].hallId].owner == requester
  }

  /** The `some` scan over the hall calendar. */
  predicate HasDayIn(dates: seq<Date>, day: int)
  {
    exists i :: 0 <= i < |dates| && dates[i].day == day
  }

  /** How many calendar entries fall on `day`. */
  function CountDay(dates: seq<Date>, day: int): nat
  {
    if dates == [] then 0
    else CountDay(dates[..|dates| - 1], day) + (if dates[|dates| - 1].day == day then 1 else 0)
  }

  lemma CountDayAppend(dates: seq<Date>, d: Date, day: int)
    ensures CountDay(dates + [d], day) == CountDay(dates, day) + (if d.day == day then 1 else 0)
  {
    assert (dates + [d])[..|dates|] == dates;
  }

  /** The calendar has an entry on `day` exactly when it counts one. */
  lemma {:induction false} CountDayPositive(dates: seq<Date>, day: int)
    ensures CountDay(dates, day) > 0 <==> HasDayIn(dates, day)
  {
    if dates != [] {
      var init := dates[..|dates| - 1];
      CountDayPositive(init, day);
      if HasDayIn(init, day) {
        var i :| 0 <= i < |init| && init[i].day == day;
        assert dates[i].day == day;
      }
      if HasDayIn(dates, day) && dates[|dates| - 1].day != day {
        var i :| 0 <= i < |dates| && dates[i].day == day;
        assert init[i].day == day;
      }
    }
  }

  /** The calendar step of a new confirmation: None when the hall has no
      calendar (the scan throws); otherwise the date is appended unless its day
      is already there, so the day ends up listed at least once and never
      gains a second entry. */
  function RecordDay(hall: Hall, date: Date): (r: Option<Hall>)
    ensures r.None? <==> hall.bookedDates.None?
    ensures r.Some? ==> r.value.owner == hall.owner && r.value.name == hall.name && r.value.bookedDates.Some?
    ensures r.Some? ==> HasDayIn(r.value.bookedDates.value, date.day)
    ensures r.Some? ==> var before := CountDay(hall.bookedDates.value, date.day);
                        CountDay(r.value.bookedDates.value, date.day) == (if before == 0 then 1 else before)
    ensures r.Some? ==> forall day :: day != date.day ==>
                          CountDay(r.value.bookedDates.value, day) == CountDay(hall.bookedDates.value, day)
  {
    match hall.bookedDates
    case None => None
    case Some(dates) =>
      CountDayPositive(dates, date.day);
      if HasDayIn(dates, date.day) then Some(hall)
      else
        var after := dates + [date];
        assert after[|dates|] == date;
        CountDayAppend(dates, date, date.day);
        assert forall day :: CountDay(after, day) == CountDay(dates, day) + (if date.day == day then 1 else 0) by {
          forall day ensures CountDay(after, day) == CountDay(dates, day) + (if date.day == day then 1 else 0) {
            CountDayAppend(dates, date, day);
          }
        }
        Some(hall.(bookedDates := Some(after)))
  }

  /** POST /confirm-booking/:bookingId (confirmBookingHandler). The checks run
      in order — booking, hall, owner, payment flag — and a failing check
      changes nothing. `notified` says whether the e-mail to the consumer went
      out; its failure answers 500 after the state change has persisted. */
  function Decide(bookings: map<BookingId, Booking>, halls: map<HallId, Hall>, id: BookingId,
                  requester: UserId, payment: PaymentField, notified: bool): (d: Decision)
    ensures id !in bookings ==> d == Decision(bookings, halls, BookingNotFound)
    ensures id in bookings && bookings[id].hallId !in halls ==> d == Decision(bookings, halls, HallUnresolved)
    ensures id in bookings && bookings[id].hallId in halls && !Authorized(bookings, halls, id, requester)
            ==> d == Decision(bookings, halls, NotHallOwner)
    ensures Authorized(bookings, halls, id, requester) && payment.NotABoolean?
            ==> d == Decision(bookings, halls, InvalidPayment)
    ensures Authorized(bookings, halls, id, requester) && payment == PaymentFlag(false)
            ==> d == Decision(bookings[id := bookings[id].(status := Rejected)], halls,
                              if notified then RejectionSent else ServerFault)
    ensures Authorized(bookings, halls, id, requester) && payment == PaymentFlag(true)
            ==> d.bookings == bookings[id := bookings[id].(status := Confirmed,
                                                          paymentDone := bookings[id].paymentDone || bookings[id].status != Confirmed)]
    ensures Authorized(bookings, halls, id, requester) && payment == PaymentFlag(true) && bookings[id].status == Confirmed
            ==> d.halls == halls && d.response == (if notified then ConfirmationSent else ServerFault)
    ensures Authorized(bookings, halls, id, requester) && payment == PaymentFlag(true) && bookings[id].status != Confirmed
            && RecordDay(halls[bookings[id].hallId], bookings[id].date).None?
            ==> d.halls == halls && d.response == ServerFault
    ensures Authorized(bookings, halls, id, requester) && payment == PaymentFlag(true) && bookings[id].status != Confirmed
            && RecordDay(halls[bookings[id].hallId], bookings[id].date).Some?
            ==> d.halls == halls[bookings[id].hallId := RecordDay(halls[bookings[id].hallId], bookings[id].date).value]
                && d.response == (if notified then ConfirmationSent else ServerFault)
    ensures payment != PaymentFlag(true) ==> d.halls == halls
    ensures d.bookings.Keys == bookings.Keys && d.halls.Keys == halls.Keys
    ensures forall k :: k in bookings && k != id ==> d.bookings[k] == bookings[k]
    ensures forall h :: h in halls && (id !in bookings || h != bookings[id].hallId) ==> d.halls[h] == halls[h]
  {
    if id !in bookings then Decision(bookings, halls, BookingNotFound)
    else
      var b := bookings[id];
      if b.hallId !in halls then Decision(bookings, halls, HallUnresolved)
      else
        var hall := halls[b.hallId];
        if hall.owner != requester then Decision(bookings, halls, NotHallOwner)
        else if payment.NotABoolean? then Decision(bookings, halls, InvalidPayment)
        else if !payment.received then
          Decision(bookings[id := b.(status := Rejected)], halls, if notified then RejectionSent else ServerFault)
        else if b.status == Confirmed then
          Decision(bookings, halls, if notified then ConfirmationSent else ServerFault)
        else
          var confirmed := bookings[id := b.(status := Confirmed, paymentDone := true)];
          match RecordDay(hall, b.date)
          case None => Decision(confirmed, halls, ServerFault)
          case Some(h) => Decision(confirmed, halls[b.hallId := h], if notified then ConfirmationSent else ServerFault)
  }

  /** Confirming twice in a row leaves the tables as the first confirmation
      left them. */
  lemma ConfirmIsIdempotent(bookings: map<BookingId, Booking>, halls: map<HallId, Hall>, id: BookingId,
                            requester: UserId, notified: bool, notifiedAgain: bool)
    ensures var d1 := Decide(bookings, halls, id, requester, PaymentFlag(true), notified);
            var d2 := Decide(d1.bookings, d1.halls, id, requester, PaymentFlag(true), notifiedAgain);
            d2.bookings == d1.bookings && d2.halls == d1.halls
  {
    var d1 := Decide(bookings, halls, id, requester, PaymentFlag(true), notified);
    if Authorized(bookings, halls, id, requester) {
      assert d1.bookings[id].hallId == bookings[id].hallId;
      assert d1.halls[bookings[id].hallId].owner == requester by {
        var h := bookings[id].hallId;
        if bookings[id].status != Confirmed && halls[h].bookedDates.Some? {
          assert d1.halls[h] == RecordDay(halls[h], bookings[id].date).value;
        }
      }
    }
  }

  /** A confirmation by the owner leaves the booking's day on the hall
      calendar exactly once when it was not there, and never adds a second
      entry when it was. */
  lemma ConfirmRecordsDayOnce(bookings: map<BookingId, Booking>, halls: map<HallId, Hall>, id: BookingId,
                              requester: UserId, notified: bool)
    requires Authorized(bookings, halls, id, requester)
    requires halls[bookings[id].hallId].bookedDates.Some?
    ensures var d := Decide(bookings, halls, id, requester, PaymentFlag(true), notified);
            var h := bookings[id].hallId;
            var day := bookings[id].date.day;
            var before := CountDay(halls[h].bookedDates.value, day);
            d.halls[h].bookedDates.Some?
            && (bookings[id].status != Confirmed ==> CountDay(d.halls[h].bookedDates.value, day) == if before == 0 then 1 else before)
            && (bookings[id].status == Confirmed ==> d.halls == halls)
  {
  }

  /** Deciding keeps the one-active-booking-per-day invariant, unless a
      rejected booking is confirmed again (see ReconfirmingRejectedDoubleBooks). */
  lemma DecidePreservesNoDoubleBooking(bookings: map<BookingId, Booking>, halls: map<HallId, Hall>, id: BookingId,
                                       requester: UserId, payment: PaymentField, notified: bool)
    requires NoDoubleBooking(bookings)
    requires id in bookings && bookings[id].status == Rejected ==> payment != PaymentFlag(true)
    ensures NoDoubleBooking(Decide(bookings, halls, id, requester, payment, notified).bookings)
  {
    var after := Decide(bookings, halls, id, requester, payment, notified).bookings;
    forall i, j | i in after && j in after && i != j && Active(after[i]) && Active(after[j])
                  && after[i].hallId == after[j].hallId
      ensures after[i].date.day != after[j].date.day
    {
      assert Active(bookings[i]) && Active(bookings[j]);
    }
  }

  /** The confirm branch does not look at the prior status beyond `confirmed`:
      re-confirming a rejected booking whose day was booked again leaves two
      active bookings for one hall and day. */
  lemma ReconfirmingRejectedDoubleBooks()
    ensures var day := Date(7, MsPerDay - 1);
            var before := map[0 := Booking("alice", "h1", day, Rejected, false, 0),
                              1 := Booking("bob", "h1", day, Shortlisted, false, 1)];
            var halls := map["h1" := Hall("olga", "Hall One", Some([]))];
            NoDoubleBooking(before)
            && !NoDoubleBooking(Decide(before, halls, 0, "olga", PaymentFlag(true), true).bookings)
  {
    var day := Date(7, MsPerDay - 1);
    var before := map[0 := Booking("alice", "h1", day, Rejected, false, 0),
                      1 := Booking("bob", "h1", day, Shortlisted, false, 1)];
    var halls := map["h1" := Hall("olga", "Hall One", Some([]))];
    var after := Decide(before, halls, 0, "olga", PaymentFlag(true), true).bookings;
    assert after[0].status == Confirmed && after[1] == before[1];
  }

  /** Once the owner confirms a booking, a new request for the same hall and
      day is refused with 400. */
  lemma ConfirmedDayRefusesNewBooking(bookings: map<BookingId, Booking>, halls: map<HallId, Hall>, id: BookingId,
                                      owner: UserId, notified: bool, freshId: BookingId,
                                      caller: UserId, date: Date, now: int, notifiedOwner: bool)
    requires Authorized(bookings, halls, id, owner) && freshId !in bookings
    requires date.day == bookings[id].date.day
    ensures var d := Decide(bookings, halls, id, owner, PaymentFlag(true), notified);
            Book(d.bookings, d.halls, freshId, caller, bookings[id].hallId, Some(date), now, notifiedOwner).1 == DateTaken
  {
    var d := Decide(bookings, halls, id, owner, PaymentFlag(true), notified);
    assert Blocks(d.bookings[id], bookings[id].hallId, date.day);
  }

  /** Once the owner rejects the booking that held a day, that day can be
      booked again. */
  lemma RejectionReopensDay(bookings: map<BookingId, Booking>, halls: map<HallId, Hall>, id: BookingId,
                            owner: UserId, notified: bool, freshId: BookingId,
                            caller: UserId, date: Date, now: int)
    requires NoDoubleBooking(bookings)
    requires Authorized(bookings, halls, id, owner) && Active(bookings[id]) && freshId !in bookings
    requires date.day == bookings[id].date.day
    ensures var d := Decide(bookings, halls, id, owner, PaymentFlag(false), notified);
            Book(d.bookings, d.halls, freshId, caller, bookings[id].hallId, Some(date), now, true).1 == Created(freshId)
  {
    var d := Decide(bookings, halls, id, owner, PaymentFlag(false), notified);
    var h := bookings[id].hallId;
    forall k | k in d.bookings
      ensures !Blocks(d.bookings[k], h, date.day)
    {
      if k != id {
        assert d.bookings[k] == bookings[k];
      }
    }
  }

  // ----------------------------------------------------------- receipt

  datatype ReceiptResponse = ReceiptNotFound | NotConfirmed | Receipt(booking: Booking)

  function ReceiptStatusCode(r: ReceiptResponse): int
  {
    match r
    case ReceiptNotFound => 404
    case NotConfirmed => 400
    case Receipt(_) => 200
  }

  /** GET /confirm-booking/:bookingId (generateReceiptHandler), before any
      document is drawn. It takes no caller: the route has no authentication,
      and it only reads the bookings table. */
  function ReceiptGate(bookings: map<BookingId, Booking>, id: BookingId): (r: ReceiptResponse)
    ensures r == ReceiptNotFound <==> id !in bookings
    ensures r == NotConfirmed <==> id in bookings && bookings[id].status != Confirmed
    ensures r.Receipt? ==> id in bookings && r.booking == bookings[id] && r.booking.status == Confirmed
  {
    if id !in bookings then ReceiptNotFound
    else if bookings[id].status != Confirmed then NotConfirmed
    else Receipt(bookings[id])
  }

  // ----------------------------------------------------- owner listing

  datatype ListingResponse = ListingForbidden | Listing(bookings: map<BookingId, Booking>)

  /** The caller owns the hall a booking points at. */
  predicate OwnsHall(halls: map<HallId, Hall>, owner: UserId, hallId: HallId)
  {
    hallId in halls && halls[hallId].owner == owner
  }

  /** GET /owner-bookings: 403 unless the caller's role is `owner`; otherwise
      every booking, of any status, on a hall the caller owns. */
  function OwnerBookings(bookings: map<BookingId, Booking>, halls: map<HallId, Hall>,
                         callerId: UserId, callerRole: string): (r: ListingResponse)
    ensures r == ListingForbidden <==> callerRole != "owner"
    ensures r.Listing? ==> forall id :: id in r.bookings <==> id in bookings && OwnsHall(halls, callerId, bookings[id].hallId)
    ensures r.Listing? ==> forall id :: id in r.bookings ==> r.bookings[id] == bookings[id]
  {
    if callerRole != "owner" then ListingForbidden
    else
      var owned := set h | h in halls && halls[h].owner == callerId;
      Listing(map id | id in bookings && bookings[id].hallId in owned :: bookings[id])
  }

  // ----------------------------------------------------- the handlers

  /** `hall.bookedDates.some(d => sameDay(d, booking.date))`. */
  method HasDay(dates: seq<Date>, day: int) returns (found: bool)
    ensures found <==> HasDayIn(dates, day)
  {
    found := false;
    var i := 0;
    while i < |dates|
      invariant 0 <= i <= |dates|
      invariant !found
      invariant forall k :: 0 <= k < i ==> dates[k].day != day
    {
      if dates[i].day == day {
        return true;
      }
      i := i + 1;
    }
  }

  /** The two tables the handlers read and write, and the store's identifier
      counter. */
  class BookingService {
    var bookings: map<BookingId, Booking>
    var halls: map<HallId, Hall>
    var nextId: BookingId

    /** Every stored identifier is below the counter, so the next one is fresh. */
    ghost predicate Valid()
      reads this
    {
      forall id :: id in bookings ==> id < nextId
    }

    constructor (initialHalls: map<HallId, Hall>)
      ensures Valid() && bookings == map[] && halls == initialHalls && nextId == 0
    {
      bookings := map[];
      halls := initialHalls;
      nextId := 0;
    }

    /** `Booking.findOne` with the hall, the date window and the active statuses. */
    method FindActiveInWindow(hallId: HallId, lo: int, hi: int) returns (found: Option<BookingId>)
      ensures found.Some? ==> found.value in bookings && InWindow(bookings[found.value], hallId, lo, hi)
      ensures found.None? ==> forall id :: id in bookings ==> !InWindow(bookings[id], hallId, lo, hi)
    {
      found := None;
      var pending := bookings.Keys;
      while pending != {}
        invariant pending <= bookings.Keys
        invariant forall id :: id in bookings && id !in pending ==> !InWindow(bookings[id], hallId, lo, hi)
        decreases pending
      {
        var id :| id in pending;
        if InWindow(bookings[id], hallId, lo, hi) {
          return Some(id);
        }
        pending := pending - {id};
      }
    }

    /** POST /book-hall. */
    method BookHall(caller: UserId, hallId: HallId, date: Option<Date>, now: int, notified: bool)
      returns (r: CreateResponse)
      requires Valid()
      modifies this
      ensures Valid() && halls == old(halls)
      ensures (bookings, r) == Book(old(bookings), old(halls), old(nextId), caller, hallId, date, now, notified)
    {
      if hallId !in halls {
        return HallNotFound;
      }
      if date.None? {
        return ServerError;
      }
      var bookingDate := date.value;
      bookingDate := SetHours(bookingDate, 0, 0, 0, 0);
      var lo := Millis(bookingDate);
      bookingDate := SetHours(bookingDate, 23, 59, 59, 999);
      var hi := Millis(bookingDate);
      var existing := FindActiveInWindow(hallId, lo, hi);
      if existing.Some? {
        DayWindowIsCalendarDay(bookings[existing.value].date, date.value.day);
        return DateTaken;
      }
      forall id | id in bookings
        ensures !Blocks(bookings[id], hallId, date.value.day)
      {
        DayWindowIsCalendarDay(bookings[id].date, date.value.day);
      }
      var booking := NewBooking(BookingDraft(Some(caller), Some(hallId), Some(bookingDate), None, None), now).value;
      var id := nextId;
      bookings := bookings[id := booking];
      nextId := nextId + 1;
      r := if notified then Created(id) else ServerError;
    }

    /** POST /confirm-booking/:bookingId. */
    method ConfirmBooking(id: BookingId, requester: UserId, payment: PaymentField, notified: bool)
      returns (r: DecideResponse)
      requires Valid()
      modifies this
      ensures Valid() && nextId == old(nextId)
      ensures Decision(bookings, halls, r) == Decide(old(bookings), old(halls), id, requester, payment, notified)
    {
      if id !in bookings {
        return BookingNotFound;
      }
      var booking := bookings[id];
      if booking.hallId !in halls {
        return HallUnresolved;
      }
      var hall := halls[booking.hallId];
      if hall.owner != requester {
        return NotHallOwner;
      }
      if payment.NotABoolean? {
        return InvalidPayment;
      }
      if !payment.received {
        booking := booking.(status := Rejected);
        bookings := bookings[id := booking];
        r := if notified then RejectionSent else ServerFault;
        return;
      }
      if booking.status != Confirmed {
        booking := booking.(status := Confirmed, paymentDone := true);
        bookings := bookings[id := booking];
        if hall.bookedDates.None? {
          return ServerFault;
        }
        var alreadyBooked := HasDay(hall.bookedDates.value, booking.date.day);
        CountDayPositive(hall.bookedDates.value, booking.date.day);
        if !alreadyBooked {
          hall := hall.(bookedDates := Some(hall.bookedDates.value + [booking.date]));
          halls := halls[booking.hallId := hall];
        }
      }
      r := if notified then ConfirmationSent else ServerFault;
    }
  }
}
