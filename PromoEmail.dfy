/** Promotional e-mail of routes/promotionalEmail.js: `sendEmailsInBatches`
    cuts the users into consecutive batches, hands each batch to the mail
    transport, waits between batches, and raises the module-level
    `emailJobCompleted` flag once every batch went out; the Monday cron tick
    and the manual route both run it with batches of ten. A user is
    represented by the address the mail goes to. Which batch, if any, the
    transport rejects is a parameter; the waiting itself is counted, not
    timed. */
module PromoEmail {
  import opened Common

  const BatchSize: nat := 10

  /** `users.slice(i, i + batchSize)` for i = 0, b, 2b, ... while i < n. */
  function Batches(users: seq<string>, size: nat): seq<seq<string>>
    requires size > 0
    decreases |users|
  {
    if users == [] then []
    else if |users| <= size then [users]
    else [users[..size]] + Batches(users[size..], size)
  }

  /** The batches laid end to end. */
  function Flatten(batches: seq<seq<string>>): seq<string>
  {
    if batches == [] then [] else batches[0] + Flatten(batches[1..])
  }

  lemma {:induction false} FlattenAppend(a: seq<seq<string>>, b: seq<seq<string>>)
    ensures Flatten(a + b) == Flatten(a) + Flatten(b)
  {
    if a == [] {
      assert a + b == b;
    } else {
      assert (a + b)[0] == a[0] && (a + b)[1..] == a[1..] + b;
      FlattenAppend(a[1..], b);
      assert Flatten(a) == a[0] + Flatten(a[1..]);
    }
  }

  /** Every user is in exactly one batch, and the batches keep the order. */
  lemma {:induction false} BatchesPartitionUsers(users: seq<string>, size: nat)
    requires size > 0
    ensures Flatten(Batches(users, size)) == users
    decreases |users|
  {
    if users != [] && |users| > size {
      BatchesPartitionUsers(users[size..], size);
      assert users == users[..size] + users[size..];
    }
  }

  /** No batch is empty or larger than `size`, and only the last one may be
      smaller; there are ceil(n / size) of them. */
  lemma {:induction false} BatchShapes(users: seq<string>, size: nat)
    requires size > 0
    ensures var bs := Batches(users, size);
            |bs| == CeilDiv(|users|, size)
            && (forall k :: 0 <= k < |bs| ==> 0 < |bs[k]| <= size)
            && (forall k :: 0 <= k < |bs| - 1 ==> |bs[k]| == size)
    decreases |users|
  {
    if users != [] && |users| > size {
      BatchShapes(users[size..], size);
      var bs := Batches(users, size);
      assert bs[1..] == Batches(users[size..], size);
    }
  }

  /** The index of the batch the transport rejects, or the number of batches
      when every batch goes through. */
  function FailurePoint(count: nat, failingBatch: Option<nat>): (k: nat)
    ensures k <= count
    ensures k < count <==> failingBatch.Some? && failingBatch.value < count
  {
    if failingBatch.Some? && failingBatch.value < count then failingBatch.value else count
  }

  /** The run goes through every batch. */
  predicate Completes(users: seq<string>, size: nat, failingBatch: Option<nat>)
    requires size > 0
  {
    FailurePoint(|Batches(users, size)|, failingBatch) == |Batches(users, size)|
  }

  /** The batches handed to the transport: all of them, or those up to and
      including the rejected one. */
  function Attempted(users: seq<string>, size: nat, failingBatch: Option<nat>): seq<seq<string>>
    requires size > 0
  {
    var bs := Batches(users, size);
    var k := FailurePoint(|bs|, failingBatch);
    if k == |bs| then bs else bs[..k + 1]
  }

  /** The two-minute waits: one after every batch that has a successor. */
  function Waits(users: seq<string>, size: nat, failingBatch: Option<nat>): nat
    requires size > 0
  {
    var bs := Batches(users, size);
    var k := FailurePoint(|bs|, failingBatch);
    if k < |bs| then k else if bs == [] then 0 else |bs| - 1
  }

  /** A run that completes mails every user exactly once, in order, and waits
      ceil(n / size) - 1 times. */
  lemma CompletedRunMailsEveryoneOnce(users: seq<string>, size: nat, failingBatch: Option<nat>)
    requires size > 0 && Completes(users, size, failingBatch)
    ensures Flatten(Attempted(users, size, failingBatch)) == users
    ensures users != [] ==> Waits(users, size, failingBatch) == CeilDiv(|users|, size) - 1
  {
    BatchesPartitionUsers(users, size);
    BatchShapes(users, size);
  }

  /** A run that stops at a rejected batch has handed a prefix of the users
      to the transport, never anyone twice, and waited once per batch
      before the rejected one. */
  lemma {:induction false} FailedRunMailsPrefix(users: seq<string>, size: nat, failingBatch: Option<nat>)
    requires size > 0 && !Completes(users, size, failingBatch)
    ensures var sent := Flatten(Attempted(users, size, failingBatch));
            |sent| <= |users| && sent == users[..|sent|]
    ensures Waits(users, size, failingBatch) == failingBatch.value
  {
    var bs := Batches(users, size);
    var k := FailurePoint(|bs|, failingBatch);
    BatchesPartitionUsers(users, size);
    assert bs == bs[..k + 1] + bs[k + 1..];
    FlattenAppend(bs[..k + 1], bs[k + 1..]);
  }

  /** A local date and time as `Date` reads it: the year, the month (0 for
      January), the day of the month and the milliseconds since midnight. */
  datatype LocalTime = LocalTime(year: int, month: int, day: int, ms: int)

  predicate LeapYear(year: int)
  {
    (year % 4 == 0 && year % 100 != 0) || year % 400 == 0
  }

  function DaysInMonth(year: int, month: int): (n: int)
    requires 0 <= month < 12
    ensures 28 <= n <= 31
  {
    if month == 1 then (if LeapYear(year) then 29 else 28)
    else if month == 3 || month == 5 || month == 8 || month == 10 then 30
    else 31
  }

  predicate ValidTime(t: LocalTime)
  {
    0 <= t.month < 12 && 1 <= t.day <= DaysInMonth(t.year, t.month) && 0 <= t.ms < 86_400_000
  }

  /** `setMonth(getMonth() + k)`: a month past December carries into the
      year, the day of the month and the time of day are kept, and a day the
      target month does not have overflows into the month after it. December
      has 31 days, so the overflow never crosses into the next year. */
  function AddMonths(t: LocalTime, k: nat): (r: LocalTime)
    requires ValidTime(t)
    ensures ValidTime(r) && r.ms == t.ms
  {
    var target := t.month + k;
    var year := t.year + target / 12;
    var month := target % 12;
    var length := DaysInMonth(year, month);
    if t.day <= length then LocalTime(year, month, t.day, t.ms)
    else LocalTime(year, month + 1, t.day - length, t.ms)
  }

  /** The order of `<=` on two dates. */
  predicate NotAfter(a: LocalTime, b: LocalTime)
  {
    a.year < b.year
    || (a.year == b.year && (a.month < b.month
    || (a.month == b.month && (a.day < b.day
    || (a.day == b.day && a.ms <= b.ms)))))
  }

  /** The cron guard `currentDate <= endDate`, where `endDate` is the current
      date moved two months on. */
  predicate WindowOpen(now: LocalTime)
    requires ValidTime(now)
  {
    NotAfter(now, AddMonths(now, 2))
  }

  /** Moving a date one month or more on, overflow included, gives a later
      date. */
  lemma MonthShiftMovesForward(t: LocalTime, k: nat)
    requires ValidTime(t) && k >= 1
    ensures NotAfter(t, AddMonths(t, k)) && AddMonths(t, k) != t
  {
    var target := t.month + k;
    if target < 12 {
      assert target / 12 == 0 && target % 12 == target;
    } else {
      assert target / 12 >= 1;
    }
  }

  /** The overflow: two months after the 31st of December 2025 is the 3rd
      of March 2026, as February 2026 has 28 days. */
  lemma DecemberThirtyFirstPlusTwoMonths()
    ensures AddMonths(LocalTime(2025, 11, 31, 0), 2) == LocalTime(2026, 2, 3, 0)
  {
    assert !LeapYear(2026);
  }

  /** The guard compares the current date with a date computed from the
      current date, so it never closes: the "finished" branch is dead. */
  lemma CronWindowNeverCloses(now: LocalTime)
    requires ValidTime(now)
    ensures WindowOpen(now)
  {
    MonthShiftMovesForward(now, 2);
  }

  datatype TickOutcome = NoUsers | SentAll | SendFailed | AlreadyCompleted | WindowClosed

  /** The mailer's state: the module-level flag, and a record of the batches
      handed to the transport and of the waits between them. */
  class PromoMailer {
    var emailJobCompleted: bool
    var attempted: seq<seq<string>>
    var waits: nat

    constructor ()
      ensures !emailJobCompleted && attempted == [] && waits == 0
    {
      emailJobCompleted := false;
      attempted := [];
      waits := 0;
    }

    /** `sendEmailsInBatches(users, batchSize, transporter)`. */
    method SendEmailsInBatches(users: seq<string>, batchSize: nat, failingBatch: Option<nat>) returns (ok: bool)
      requires batchSize > 0
      modifies this
      ensures ok <==> Completes(users, batchSize, failingBatch)
      ensures attempted == old(attempted) + Attempted(users, batchSize, failingBatch)
      ensures waits == old(waits) + Waits(users, batchSize, failingBatch)
      ensures emailJobCompleted == (old(emailJobCompleted) || ok)
    {
      ghost var bs := Batches(users, batchSize);
      var i := 0;
      var j := 0;
      while i < |users|
        invariant 0 <= i && 0 <= j <= |bs|
        invariant i < |users| ==> j < |bs| && Batches(users[i..], batchSize) == bs[j..]
        invariant i >= |users| ==> j == |bs|
        invariant attempted == old(attempted) + bs[..j]
        invariant waits == old(waits) + (if i < |users| || j == 0 then j else j - 1)
        invariant failingBatch.None? || failingBatch.value >= j
        invariant emailJobCompleted == old(emailJobCompleted)
        decreases |users| - i
      {
        var stop := if i + batchSize <= |users| then i + batchSize else |users|;
        var batch := users[i..stop];
        NextBatch(users, batchSize, i);
        assert bs[..j + 1] == bs[..j] + [batch];
        attempted := attempted + [batch];
        if failingBatch == Some(j) {
          return false;
        }
        if i + batchSize < |users| {
          waits := waits + 1;
        }
        i := i + batchSize;
        j := j + 1;
      }
      emailJobCompleted := true;
      ok := true;
    }

    /** The Monday 10:00 cron tick at time `now`. Errors are caught and only
        logged. */
    method CronTick(now: LocalTime, users: seq<string>, failingBatch: Option<nat>)
      returns (t: TickOutcome)
      requires ValidTime(now)
      modifies this
      ensures t != WindowClosed
      ensures old(emailJobCompleted) ==> t == AlreadyCompleted
      ensures !old(emailJobCompleted) && users == [] ==> t == NoUsers
      ensures !old(emailJobCompleted) && users != [] ==>
                (t == SentAll <==> Completes(users, BatchSize, failingBatch))
                && (t == SendFailed <==> !Completes(users, BatchSize, failingBatch))
      ensures t in {NoUsers, AlreadyCompleted} ==>
                emailJobCompleted == old(emailJobCompleted) && attempted == old(attempted) && waits == old(waits)
      ensures t in {SentAll, SendFailed} ==>
                attempted == old(attempted) + Attempted(users, BatchSize, failingBatch)
                && waits == old(waits) + Waits(users, BatchSize, failingBatch)
                && emailJobCompleted == (t == SentAll)
    {
      CronWindowNeverCloses(now);
      if WindowOpen(now) && !emailJobCompleted {
        if |users| == 0 {
          return NoUsers;
        }
        var ok := SendEmailsInBatches(users, BatchSize, failingBatch);
        t := if ok then SentAll else SendFailed;
      } else if emailJobCompleted {
        t := AlreadyCompleted;
      } else {
        t := WindowClosed;
      }
    }

    /** POST `/send-promotional-email`: 404 without users, otherwise batches
        of ten whatever the flag says; 500 when a batch is rejected. */
    method SendPromotionalEmail(users: seq<string>, failingBatch: Option<nat>) returns (code: int)
      modifies this
      ensures users == [] ==> code == 404 && emailJobCompleted == old(emailJobCompleted)
                              && attempted == old(attempted) && waits == old(waits)
      ensures users != [] ==>
                (code == 200 <==> Completes(users, BatchSize, failingBatch))
                && (code == 500 <==> !Completes(users, BatchSize, failingBatch))
                && attempted == old(attempted) + Attempted(users, BatchSize, failingBatch)
                && waits == old(waits) + Waits(users, BatchSize, failingBatch)
                && emailJobCompleted == (old(emailJobCompleted) || code == 200)
    {
      if |users| == 0 {
        return 404;
      }
      var ok := SendEmailsInBatches(users, BatchSize, failingBatch);
      code := if ok then 200 else 500;
    }
  }

  /** One step of the loop: the slice at `i` is the first batch of what is
      left, and the rest of the batches start at `i + size`. */
  lemma NextBatch(users: seq<string>, size: nat, i: nat)
    requires size > 0 && i < |users|
    ensures var stop := if i + size <= |users| then i + size else |users|;
            Batches(users[i..], size)
              == [users[i..stop]] + (if i + size < |users| then Batches(users[i + size..], size) else [])
  {
    var rest := users[i..];
    assert rest != [];
    if |rest| > size {
      assert rest[..size] == users[i..i + size];
      assert rest[size..] == users[i + size..];
      assert Batches(rest, size) == [rest[..size]] + Batches(rest[size..], size);
    } else {
      assert rest == users[i..|users|];
      assert Batches(rest, size) == [rest];
    }
  }
}
