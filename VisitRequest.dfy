/** The visit-request record of models/VisitRequest.js: required and optional
    paths, the month range, the lower bound on the year, and the `status` enum
    with its default. The lower bound on the year is the calendar year in
    which the schema was loaded, a parameter here. */
module VisitRequest {
  import opened Common

  datatype VisitStatus = Pending | Approved | Rejected

  /** The `enum` check of `status`. */
  function ParseVisitStatus(s: string): (r: Option<VisitStatus>)
    ensures r.Some? <==> s in {"pending", "approved", "rejected"}
    ensures r.Some? ==> VisitStatusName(r.value) == s
  {
    if s == "pending" then Some(Pending)
    else if s == "approved" then Some(Approved)
    else if s == "rejected" then Some(Rejected)
    else None
  }

  function VisitStatusName(s: VisitStatus): string
  {
    match s
    case Pending => "pending"
    case Approved => "approved"
    case Rejected => "rejected"
  }

  /** A stored visit request. */
  datatype Visit = Visit(
    user: string,
    hall: string,
    message: Option<string>,
    name: string,
    surname: string,
    eventDate: Option<int>,
    eventMonth: Option<int>,
    eventYear: Option<int>,
    guestCount: int,
    status: VisitStatus,
    createdAt: int,
    updatedAt: int)

  /** The fields handed to the model; any of them may be absent. */
  datatype VisitDraft = VisitDraft(
    user: Option<string>,
    hall: Option<string>,
    message: Option<string>,
    name: Option<string>,
    surname: Option<string>,
    eventDate: Option<int>,
    eventMonth: Option<int>,
    eventYear: Option<int>,
    guestCount: Option<int>,
    status: Option<string>)

  datatype Field =
    | UserField | HallField | NameField | SurnameField | GuestCountField
    | EventMonthField | EventYearField | StatusField

  const AllFields: set<Field> :=
    {UserField, HallField, NameField, SurnameField, GuestCountField, EventMonthField, EventYearField, StatusField}

  /** The validators of one path. A required string must be non-empty; the
      optional numbers are checked only when present. */
  predicate Fails(d: VisitDraft, loadYear: int, f: Field)
  {
    match f
    case UserField => d.user.None?
    case HallField => d.hall.None?
    case NameField => !Truthy(d.name)
    case SurnameField => !Truthy(d.surname)
    case GuestCountField => d.guestCount.None?
    case EventMonthField => d.eventMonth.Some? && (d.eventMonth.value < 1 || d.eventMonth.value > 12)
    case EventYearField => d.eventYear.Some? && d.eventYear.value < loadYear
    case StatusField => d.status.Some? && ParseVisitStatus(d.status.value).None?
  }

  /** Every path whose validators fail. */
  function InvalidFields(d: VisitDraft, loadYear: int): (errs: set<Field>)
    ensures UserField in errs <==> d.user.None?
    ensures HallField in errs <==> d.hall.None?
    ensures NameField in errs <==> d.name.None? || d.name.value == ""
    ensures SurnameField in errs <==> d.surname.None? || d.surname.value == ""
    ensures GuestCountField in errs <==> d.guestCount.None?
    ensures EventMonthField in errs <==> d.eventMonth.Some? && !(1 <= d.eventMonth.value <= 12)
    ensures EventYearField in errs <==> d.eventYear.Some? && d.eventYear.value < loadYear
    ensures StatusField in errs <==> d.status.Some? && d.status.value !in {"pending", "approved", "rejected"}
  {
    set f | f in AllFields && Fails(d, loadYear, f)
  }

  /** Creating a record at time `now`: validation, then the default status. */
  function NewVisit(d: VisitDraft, loadYear: int, now: int): (r: Result<Visit, set<Field>>)
    ensures r.Ok? <==> InvalidFields(d, loadYear) == {}
    ensures r.Err? ==> r.error != {} && r.error == InvalidFields(d, loadYear)
    ensures r.Ok? ==> r.value.user == d.user.value && r.value.hall == d.hall.value
                      && r.value.name == d.name.value && r.value.surname == d.surname.value
                      && r.value.guestCount == d.guestCount.value
                      && r.value.message == d.message && r.value.eventDate == d.eventDate
                      && r.value.eventMonth == d.eventMonth && r.value.eventYear == d.eventYear
                      && r.value.createdAt == now && r.value.updatedAt == now
    ensures r.Ok? && d.status.None? ==> r.value.status == Pending
    ensures r.Ok? && d.status.Some? ==> VisitStatusName(r.value.status) == d.status.value
  {
    var errs := InvalidFields(d, loadYear);
    if errs != {} then Err(errs)
    else
      var status := if d.status.None? then Pending else ParseVisitStatus(d.status.value).value;
      Ok(Visit(d.user.value, d.hall.value, d.message, d.name.value, d.surname.value,
               d.eventDate, d.eventMonth, d.eventYear, d.guestCount.value, status, now, now))
  }

  /** What every stored visit request satisfies. */
  predicate WellFormed(v: Visit, loadYear: int)
  {
    v.name != "" && v.surname != ""
    && (v.eventMonth.Some? ==> 1 <= v.eventMonth.value <= 12)
    && (v.eventYear.Some? ==> v.eventYear.value >= loadYear)
  }

  /** The draft a stored record comes from. */
  function DraftOf(v: Visit): VisitDraft
  {
    VisitDraft(Some(v.user), Some(v.hall), v.message, Some(v.name), Some(v.surname),
               v.eventDate, v.eventMonth, v.eventYear, Some(v.guestCount), Some(VisitStatusName(v.status)))
  }

  /** Whatever passes validation is well formed, and a well-formed record
      passes validation again and comes back unchanged. */
  lemma {:induction false} ValidationRoundTrip(d: VisitDraft, v: Visit, loadYear: int, now: int)
    ensures NewVisit(d, loadYear, now).Ok? ==> WellFormed(NewVisit(d, loadYear, now).value, loadYear)
    ensures WellFormed(v, loadYear) && v.createdAt == now && v.updatedAt == now
            ==> NewVisit(DraftOf(v), loadYear, now) == Ok(v)
  {
    if WellFormed(v, loadYear) {
      assert ParseVisitStatus(VisitStatusName(v.status)) == Some(v.status);
    }
  }
}
