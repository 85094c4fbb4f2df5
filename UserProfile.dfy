/** The profile routes of routes/userProfile.js. GET projects the caller's
    record with `''` defaults, decides whether the profile is complete, and
    lists the caller's bookings newest first with `'N/A'` defaults for the
    hall; PUT overwrites the five profile fields in place. */
module UserProfile {
  import opened Common
  import opened Users
  import opened BookingRecord

  /** The `profile` object of the GET answer. */
  datatype ProfileView = ProfileView(
    email: string, role: string,
    name: string, mobile: string, address: string, state: string, country: string)

  /** `user.name || ''` and its four siblings. */
  function Projection(u: User): (p: ProfileView)
    ensures p.email == u.email && p.role == u.role
    ensures p.name == (if Truthy(u.name) then u.name.value else "")
    ensures p.mobile == (if Truthy(u.mobile) then u.mobile.value else "")
    ensures p.address == (if Truthy(u.address) then u.address.value else "")
    ensures p.state == (if Truthy(u.state) then u.state.value else "")
    ensures p.country == (if Truthy(u.country) then u.country.value else "")
  {
    ProfileView(u.email, u.role, OrElse(u.name, ""), OrElse(u.mobile, ""), OrElse(u.address, ""),
                OrElse(u.state, ""), OrElse(u.country, ""))
  }

  /** `!!(name && mobile && address && state && country)`. */
  predicate ProfileComplete(u: User)
  {
    Truthy(u.name) && Truthy(u.mobile) && Truthy(u.address) && Truthy(u.state) && Truthy(u.country)
  }

  /** The profile is complete exactly when no projected field is blank. */
  lemma CompleteIffNoBlankField(u: User)
    ensures var p := Projection(u);
            ProfileComplete(u) <==> p.name != "" && p.mobile != "" && p.address != "" && p.state != "" && p.country != ""
  {
  }

  /** The order `sort({ createdAt: -1 })` produces. */
  predicate NewestFirst(s: seq<Booking>)
  {
    forall i, j :: 0 <= i < j < |s| ==> s[i].createdAt >= s[j].createdAt
  }

  /** `Booking.find({ userId })`: the bookings of one user, in store order. */
  function OwnBookings(all: seq<Booking>, userId: UserId): (r: seq<Booking>)
    ensures forall b :: multiset(r)[b] == (if b.userId == userId then multiset(all)[b] else 0)
    ensures forall k :: 0 <= k < |r| ==> r[k].userId == userId
  {
    if all == [] then []
    else
      var rest := OwnBookings(all[1..], userId);
      assert all == [all[0]] + all[1..];
      if all[0].userId == userId then [all[0]] + rest else rest
  }

  /** Places `b` before the first booking that is not newer than it. */
  function InsertNewest(b: Booking, s: seq<Booking>): (r: seq<Booking>)
    ensures multiset(r) == multiset(s) + multiset{b}
    ensures |r| == |s| + 1
  {
    if s == [] then [b]
    else if b.createdAt >= s[0].createdAt then [b] + s
    else
      assert s == [s[0]] + s[1..];
      [s[0]] + InsertNewest(b, s[1..])
  }

  /** Inserting into a newest-first sequence keeps it newest first. */
  lemma {:induction false} InsertKeepsNewestFirst(b: Booking, s: seq<Booking>)
    requires NewestFirst(s)
    ensures NewestFirst(InsertNewest(b, s))
    ensures s != [] ==> InsertNewest(b, s)[0] == b || InsertNewest(b, s)[0] == s[0]
  {
    if s != [] && b.createdAt < s[0].createdAt {
      InsertKeepsNewestFirst(b, s[1..]);
      var rest := InsertNewest(b, s[1..]);
      var r := [s[0]] + rest;
      assert rest[0].createdAt <= s[0].createdAt;
      forall i, j | 0 <= i < j < |r|
        ensures r[i].createdAt >= r[j].createdAt
      {
        if i == 0 && j > 1 {
          assert rest[j - 1].createdAt <= rest[0].createdAt;
        }
      }
    }
  }

  /** The newest-first order of a list of bookings. */
  function SortNewestFirst(s: seq<Booking>): (r: seq<Booking>)
    ensures NewestFirst(r)
    ensures multiset(r) == multiset(s)
  {
    if s == [] then []
    else
      assert s == [s[0]] + s[1..];
      InsertKeepsNewestFirst(s[0], SortNewestFirst(s[1..]));
      InsertNewest(s[0], SortNewestFirst(s[1..]))
  }

  /** What `populate('hallId', 'name location')` yields for a hall. */
  datatype HallInfo = HallInfo(name: Option<string>, address: Option<string>)

  /** One entry of the `bookings` list of the GET answer. `toLocaleDateString`
      keeps the local calendar day and drops the time of day; `date` is that
      day. */
  datatype BookingView = BookingView(hallName: string, hallAddress: string, date: int, status: Status)

  /** `b.hallId?.name || 'N/A'` and `b.hallId?.location?.address || 'N/A'`:
      a hall that no longer exists reads as null. */
  function View(b: Booking, halls: map<HallId, HallInfo>): (v: BookingView)
    ensures v.hallName == "N/A" <==> b.hallId !in halls || !Truthy(halls[b.hallId].name) || halls[b.hallId].name == Some("N/A")
    ensures v.hallAddress == "N/A" <==> b.hallId !in halls || !Truthy(halls[b.hallId].address) || halls[b.hallId].address == Some("N/A")
    ensures b.hallId in halls && Truthy(halls[b.hallId].name) ==> v.hallName == halls[b.hallId].name.value
    ensures b.hallId in halls && Truthy(halls[b.hallId].address) ==> v.hallAddress == halls[b.hallId].address.value
    ensures v.date == b.date.day && v.status == b.status
  {
    var info := if b.hallId in halls then halls[b.hallId] else HallInfo(None, None);
    BookingView(OrElse(info.name, "N/A"), OrElse(info.address, "N/A"), b.date.day, b.status)
  }

  /** The answer of GET `/profile`. */
  datatype ProfileAnswer = ProfileAnswer(profile: ProfileView, profileComplete: bool, bookings: seq<BookingView>)

  /** GET `/profile` for the authenticated `user`: exactly the caller's
      bookings, newest first, each projected through `View`. */
  function Profile(user: User, all: seq<Booking>, halls: map<HallId, HallInfo>): (a: ProfileAnswer)
    ensures a.profile == Projection(user)
    ensures a.profileComplete <==> ProfileComplete(user)
    ensures var mine := SortNewestFirst(OwnBookings(all, user.id));
            |a.bookings| == |mine| && NewestFirst(mine)
            && (forall b :: multiset(mine)[b] == (if b.userId == user.id then multiset(all)[b] else 0))
            && forall k :: 0 <= k < |mine| ==> a.bookings[k] == View(mine[k], halls)
  {
    var mine := SortNewestFirst(OwnBookings(all, user.id));
    ProfileAnswer(Projection(user), ProfileComplete(user), seq(|mine|, k requires 0 <= k < |mine| => View(mine[k], halls)))
  }

  /** The five fields of the PUT body; an absent one is left out of the update. */
  datatype ProfilePatch = ProfilePatch(
    name: Option<string>, mobile: Option<string>, address: Option<string>,
    state: Option<string>, country: Option<string>)

  function Pick(given: Option<string>, current: Option<string>): Option<string>
  {
    if given.Some? then given else current
  }

  /** The record `findByIdAndUpdate` leaves behind. */
  function ApplyPatch(u: User, p: ProfilePatch): User
  {
    u.(name := Pick(p.name, u.name), mobile := Pick(p.mobile, u.mobile), address := Pick(p.address, u.address),
       state := Pick(p.state, u.state), country := Pick(p.country, u.country))
  }

  /** PUT changes the five profile fields and nothing else: identity, e-mail,
      role, password and reset token stay as they were; a supplied field takes
      the supplied value and an absent one keeps its old value. */
  lemma PatchTouchesOnlyProfileFields(u: User, p: ProfilePatch)
    ensures var r := ApplyPatch(u, p);
            r.id == u.id && r.email == u.email && r.role == u.role && r.password == u.password
            && r.resetPasswordToken == u.resetPasswordToken && r.resetPasswordExpires == u.resetPasswordExpires
            && (p.name.Some? ==> r.name == p.name) && (p.name.None? ==> r.name == u.name)
            && (p.mobile.Some? ==> r.mobile == p.mobile) && (p.mobile.None? ==> r.mobile == u.mobile)
            && (p.address.Some? ==> r.address == p.address) && (p.address.None? ==> r.address == u.address)
            && (p.state.Some? ==> r.state == p.state) && (p.state.None? ==> r.state == u.state)
            && (p.country.Some? ==> r.country == p.country) && (p.country.None? ==> r.country == u.country)
  {
  }

  /** Applying the same PUT body twice is the same as applying it once. */
  lemma PatchIsIdempotent(u: User, p: ProfilePatch)
    ensures ApplyPatch(ApplyPatch(u, p), p) == ApplyPatch(u, p)
  {
  }

  /** A PUT that sends all five fields makes the profile complete exactly when
      all five are non-empty. */
  lemma FullPatchDecidesCompleteness(u: User, p: ProfilePatch)
    requires p.name.Some? && p.mobile.Some? && p.address.Some? && p.state.Some? && p.country.Some?
    ensures ProfileComplete(ApplyPatch(u, p))
            <==> p.name.value != "" && p.mobile.value != "" && p.address.value != ""
                 && p.state.value != "" && p.country.value != ""
  {
  }

  /** The `updatedProfile` object of the PUT answer, or the 500 that reading
      `email` off a null result ends in. */
  datatype UpdateAnswer = Updated(email: string, role: string, name: Option<string>, mobile: Option<string>,
                                  address: Option<string>, state: Option<string>, country: Option<string>)
                        | UpdateFailed

  function UpdateStatusCode(a: UpdateAnswer): int
  {
    if a.Updated? then 200 else 500
  }

  /** PUT `/profile` for the authenticated user `id`. */
  method UpdateProfile(store: UserStore, id: string, p: ProfilePatch) returns (a: UpdateAnswer)
    requires store.Valid()
    modifies store
    ensures store.Valid()
    ensures FindUserById(old(store.users), id).None? ==> a == UpdateFailed && store.users == old(store.users)
    ensures FindUserById(old(store.users), id).Some? ==>
              var i := FindUserById(old(store.users), id).value;
              var u := ApplyPatch(old(store.users)[i], p);
              store.users == old(store.users)[i := u]
              && a == Updated(u.email, u.role, u.name, u.mobile, u.address, u.state, u.country)
  {
    var found := FindUserById(store.users, id);
    if found.None? {
      return UpdateFailed;
    }
    var i := found.value;
    var u := ApplyPatch(store.users[i], p);
    UniqueUnderSameKeys(store.users, i, u);
    store.users := store.users[i := u];
    a := Updated(u.email, u.role, u.name, u.mobile, u.address, u.state, u.country);
  }
}
