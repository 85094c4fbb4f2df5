/** The booking record of models/Booking.js: its fields, the `status` enum,
    the defaults, and the required-field validation Mongoose applies when a
    record is created. */
module BookingRecord {
  import opened Common

  type UserId = string
  type HallId = string

  /** Milliseconds in one local calendar day. */
  const MsPerDay: int := 86_400_000

  type MsOfDay = ms: int | 0 <= ms < MsPerDay

  /** A JavaScript `Date` seen in local time: the calendar day and the
      millisecond within it. Days are numbered consecutively. */
  datatype Date = Date(day: int, ms: MsOfDay)

  /** The instant as a millisecond count, which is what range queries compare. */
  function Millis(d: Date): int
  {
    d.day * MsPerDay + d.ms
  }

  datatype Status = Shortlisted | Confirmed | Rejected

  /** The string the store keeps for each status. */
  function StatusName(s: Status): (r: string)
    ensures ParseStatus(r) == Some(s)
  {
    match s
    case Shortlisted => "shortlisted"
    case Confirmed => "confirmed"
    case Rejected => "rejected"
  }

  /** The `enum` check of the `status` path. */
  function ParseStatus(s: string): (r: Option<Status>)
    ensures r.Some? <==> s in {"shortlisted", "confirmed", "rejected"}
  {
    if s == "shortlisted" then Some(Shortlisted)
    else if s == "confirmed" then Some(Confirmed)
    else if s == "rejected" then Some(Rejected)
    else None
  }

  /** A stored booking. `createdAt` is the creation timestamp the schema's
      `timestamps` option adds. */
  datatype Booking = Booking(
    userId: UserId,
    hallId: HallId,
    date: Date,
    status: Status,
    paymentDone: bool,
    createdAt: int)

  /** The fields handed to `Booking.create`; any of them may be absent. */
  datatype BookingDraft = BookingDraft(
    userId: Option<UserId>,
    hallId: Option<HallId>,
    date: Option<Date>,
    status: Option<string>,
    paymentDone: Option<bool>)

  datatype Field = UserIdField | HallIdField | DateField | StatusField

  /** Every path whose validator fails: the three required paths and the enum. */
  function InvalidFields(d: BookingDraft): (errs: set<Field>)
    ensures UserIdField in errs <==> d.userId.None?
    ensures HallIdField in errs <==> d.hallId.None?
    ensures DateField in errs <==> d.date.None?
    ensures StatusField in errs <==> d.status.Some? && d.status.value !in {"shortlisted", "confirmed", "rejected"}
  {
    (if d.userId.None? then {UserIdField} else {})
    + (if d.hallId.None? then {HallIdField} else {})
    + (if d.date.None? then {DateField} else {})
    + (if d.status.Some? && ParseStatus(d.status.value).None? then {StatusField} else {})
  }

  /** Creating a record: validation, then the defaults `status: "shortlisted"`
      and `paymentDone: false`, and the creation timestamp. */
  function NewBooking(d: BookingDraft, now: int): (r: Result<Booking, set<Field>>)
    ensures r.Ok? <==> d.userId.Some? && d.hallId.Some? && d.date.Some?
                        && (d.status.None? || d.status.value in {"shortlisted", "confirmed", "rejected"})
    ensures r.Err? ==> r.error != {} && r.error == InvalidFields(d)
    ensures r.Ok? ==> r.value.userId == d.userId.value && r.value.hallId == d.hallId.value
                      && r.value.date == d.date.value && r.value.createdAt == now
    ensures r.Ok? && d.status.None? ==> r.value.status == Shortlisted
    ensures r.Ok? && d.status.Some? ==> StatusName(r.value.status) == d.status.value
    ensures r.Ok? ==> r.value.paymentDone == (d.paymentDone == Some(true))
  {
    var errs := InvalidFields(d);
    if errs != {} then Err(errs)
    else
      var status := if d.status.None? then Shortlisted else ParseStatus(d.status.value).value;
      var paid := if d.paymentDone.None? then false else d.paymentDone.value;
      Ok(Booking(d.userId.value, d.hallId.value, d.date.value, status, paid, now))
  }
}
