/** The attendance session routes (the five routes under src/app/api/attendance): check-in,
    check-out, status, stats and history, over an immutable sequence of
    attendance records. The caller is the verified claims `withAuth` hands
    to each handler. The clock is an input: `now` is the current instant in
    milliseconds, `today` the current day at local midnight and
    `firstOfMonth` the first day of the current month at local midnight, all
    on the scale of the records' `date` and time fields. */
module Sessions {
  import opened Common
  import opened Http
  import opened Store
  import opened Seqs
  import opened Validations

  const AlreadyCheckedIn: string := "Already checked in. Please check out first."
  const NoActiveCheckIn: string := "No active check-in found"
  const MillisPerMinute: int := 60000
  const HistorySize: nat := 10

  /** A record of `userId`, dated `day`, not yet checked out. */
  predicate OpenOn(a: Attendance, userId: string, day: int) {
    a.userId == userId && a.date == day && a.checkOutTime.None?
  }

  /** `findFirst` for an open record of the user dated `day`. */
  function FindOpen(store: seq<Attendance>, userId: string, day: int): (r: Option<nat>)
    ensures r.Some? ==> r.value < |store| && OpenOn(store[r.value], userId, day)
    ensures r.None? ==> forall i :: 0 <= i < |store| ==> !OpenOn(store[i], userId, day)
  {
    FirstIndex(store, (a: Attendance) => OpenOn(a, userId, day))
  }

  // ---------------------------------------------------------------------
  // Check-in

  /** `POST /attendance/check-in`. Only an open record dated today blocks;
      a closed one does not, so a second session on the same day is allowed.
      `newId` is the identifier the store assigns. */
  function CheckIn(store: seq<Attendance>, user: Claims, body: NotesInput, now: int, today: int, newId: string)
    : (r: (Response<Attendance>, seq<Attendance>))
    ensures !CheckInSchema(body) ==> r == (Fail(400, ValidationFailed), store)
    ensures CheckInSchema(body) && (exists i :: 0 <= i < |store| && OpenOn(store[i], user.userId, today)) ==>
      r == (Fail(400, AlreadyCheckedIn), store)
    ensures r.0.Json? <==>
      CheckInSchema(body) && forall i :: 0 <= i < |store| ==> !OpenOn(store[i], user.userId, today)
    ensures r.0.Json? ==>
      var created := Attendance(newId, user.userId, today, now, None, None, body.notes);
      r == (Json(200, created, None), store + [created])
  {
    if !CheckInSchema(body) then (Fail(400, ValidationFailed), store)
    else if FindOpen(store, user.userId, today).Some? then (Fail(400, AlreadyCheckedIn), store)
    else
      var created := Attendance(newId, user.userId, today, now, None, None, body.notes);
      (Json(200, created, None), store + [created])
  }

  // ---------------------------------------------------------------------
  // Check-out

  /** What check-out writes into the record it found: the check-out time,
      the elapsed whole minutes (Dafny's `/` floors for a positive divisor,
      as `Math.floor` does) and the notes, where supplied notes, even empty
      ones, replace the stored notes. */
  function Close(a: Attendance, now: int, notes: Option<string>): (after: Attendance)
    ensures ClosedAt(a, after, now, notes)
  {
    a.(checkOutTime := Some(now),
       durationMinutes := Some((now - a.checkInTime) / MillisPerMinute),
       notes := if notes.Some? then notes else a.notes)
  }

  /** `after` is `before` checked out at `now` with the supplied notes: the
      identity fields are kept and the duration is the number of whole
      minutes elapsed since check-in. */
  ghost predicate ClosedAt(before: Attendance, after: Attendance, now: int, notes: Option<string>) {
    && after.id == before.id
    && after.userId == before.userId
    && after.date == before.date
    && after.checkInTime == before.checkInTime
    && after.checkOutTime == Some(now)
    && after.durationMinutes.Some?
    && after.durationMinutes.value * 60000 <= now - before.checkInTime < (after.durationMinutes.value + 1) * 60000
    && after.notes == (if notes.Some? then notes else before.notes)
  }

  /** `POST /attendance/check-out`. The lookup is restricted to records dated
      today, so a record opened on an earlier day is never closed. */
  function CheckOut(store: seq<Attendance>, user: Claims, body: NotesInput, now: int, today: int)
    : (r: (Response<Attendance>, seq<Attendance>))
    ensures !CheckOutSchema(body) ==> r == (Fail(400, ValidationFailed), store)
    ensures CheckOutSchema(body) && (forall i :: 0 <= i < |store| ==> !OpenOn(store[i], user.userId, today)) ==>
      r == (Fail(400, NoActiveCheckIn), store)
    ensures r.0.Json? <==>
      CheckOutSchema(body) && exists i :: 0 <= i < |store| && OpenOn(store[i], user.userId, today)
    ensures r.0.Json? ==>
      && |r.1| == |store|
      && exists i :: 0 <= i < |store| && OpenOn(store[i], user.userId, today)
           && ClosedAt(store[i], r.1[i], now, body.notes)
           && r.0 == Json(200, r.1[i], None)
           && forall j :: 0 <= j < |store| && j != i ==> r.1[j] == store[j]
  {
    if !CheckOutSchema(body) then (Fail(400, ValidationFailed), store)
    else
      match FindOpen(store, user.userId, today)
      case None => (Fail(400, NoActiveCheckIn), store)
      case Some(i) =>
        var updated := Close(store[i], now, body.notes);
        (Json(200, updated, None), store[i := updated])
  }

  /** A check-out at or after the check-in instant records a non-negative
      duration. */
  lemma CheckOutDurationNonNegative(store: seq<Attendance>, user: Claims, body: NotesInput, now: int, today: int)
    requires forall a :: a in store && a.userId == user.userId ==> a.checkInTime <= now
    ensures var r := CheckOut(store, user, body, now, today);
      r.0.Json? ==> r.0.body.durationMinutes.Some? && r.0.body.durationMinutes.value >= 0
  {
    var r := CheckOut(store, user, body, now, today);
    if r.0.Json? {
      var i :| 0 <= i < |store| && OpenOn(store[i], user.userId, today)
        && ClosedAt(store[i], r.1[i], now, body.notes) && r.0 == Json(200, r.1[i], None);
      assert store[i] in store;
    }
  }

  /** A session from 09:00 to 17:30 lasts 510 minutes. */
  lemma WorkdayDuration(a: Attendance, notes: Option<string>)
    ensures Close(a, a.checkInTime + (8 * 60 + 30) * 60 * 1000, notes).durationMinutes == Some(510)
  {
  }

  // ---------------------------------------------------------------------
  // Status

  datatype StatusView = StatusView(isCheckedIn: bool, attendance: Option<Attendance>)

  /** `GET /attendance/status`: today's open record of the caller, if any. */
  function Status(store: seq<Attendance>, user: Claims, today: int): (r: StatusView)
    ensures r.isCheckedIn <==> exists i :: 0 <= i < |store| && OpenOn(store[i], user.userId, today)
    ensures r.attendance.None? <==> !r.isCheckedIn
    ensures r.attendance.Some? ==>
      r.attendance.value in store && OpenOn(r.attendance.value, user.userId, today)
  {
    match FindOpen(store, user.userId, today)
    case None => StatusView(false, None)
    case Some(i) => StatusView(true, Some(store[i]))
  }

  // ---------------------------------------------------------------------
  // Stats

  /** A record the aggregates add up: the caller's, checked out, and dated
      on or after `since` when a lower bound is given. */
  predicate Counted(a: Attendance, userId: string, since: Option<int>) {
    a.userId == userId && a.checkOutTime.Some? && (since.None? || a.date >= since.value)
  }

  /** The store's `_sum.durationMinutes` over the counted records; a missing
      sum or a missing duration counts as 0. */
  function ClosedMinutes(store: seq<Attendance>, userId: string, since: Option<int>): int {
    if |store| == 0 then 0
    else
      (if Counted(store[0], userId, since) then store[0].durationMinutes.GetOr(0) else 0)
      + ClosedMinutes(store[1..], userId, since)
  }

  /** The store's `count` of the caller's checked-out records. */
  function ClosedCount(store: seq<Attendance>, userId: string): nat {
    if |store| == 0 then 0
    else (if Counted(store[0], userId, None) then 1 else 0) + ClosedCount(store[1..], userId)
  }

  /** `Math.round(minutes / 60)`: the nearest whole hour, halves rounded up. */
  function RoundHours(minutes: int): (h: int)
    ensures 60 * h - 30 <= minutes < 60 * h + 30
  {
    (minutes + 30) / 60
  }

  datatype StatsView = StatsView(totalHours: int, monthHours: int, totalDays: nat)

  /** `GET /attendance/stats`. */
  function Stats(store: seq<Attendance>, user: Claims, firstOfMonth: int): (r: StatsView)
    ensures var total := ClosedMinutes(store, user.userId, None);
      60 * r.totalHours - 30 <= total < 60 * r.totalHours + 30
    ensures var month := ClosedMinutes(store, user.userId, Some(firstOfMonth));
      60 * r.monthHours - 30 <= month < 60 * r.monthHours + 30
    ensures r.totalDays == ClosedCount(store, user.userId)
  {
    StatsView(
      RoundHours(ClosedMinutes(store, user.userId, None)),
      RoundHours(ClosedMinutes(store, user.userId, Some(firstOfMonth))),
      ClosedCount(store, user.userId))
  }

  /** The caller's checked-out records: the only ones the aggregates see. */
  predicate OwnClosed(a: Attendance, userId: string) {
    a.userId == userId && a.checkOutTime.Some?
  }

  lemma {:induction false} MinutesSeeOnlyOwnClosed(store: seq<Attendance>, userId: string, since: Option<int>)
    ensures ClosedMinutes(Filter(store, (a: Attendance) => OwnClosed(a, userId)), userId, since)
         == ClosedMinutes(store, userId, since)
    ensures ClosedCount(Filter(store, (a: Attendance) => OwnClosed(a, userId)), userId)
         == ClosedCount(store, userId)
  {
    var p := (a: Attendance) => OwnClosed(a, userId);
    if |store| > 0 {
      MinutesSeeOnlyOwnClosed(store[1..], userId, since);
      if p(store[0]) {
        var f := Filter(store, p);
        assert f == [store[0]] + Filter(store[1..], p);
        assert f[0] == store[0] && f[1..] == Filter(store[1..], p);
      }
    }
  }

  /** The statistics depend only on the caller's checked-out records: open
      sessions and other users' records contribute nothing. */
  lemma StatsSeeOnlyOwnClosed(store: seq<Attendance>, user: Claims, firstOfMonth: int)
    ensures Stats(Filter(store, (a: Attendance) => OwnClosed(a, user.userId)), user, firstOfMonth)
         == Stats(store, user, firstOfMonth)
  {
    MinutesSeeOnlyOwnClosed(store, user.userId, None);
    MinutesSeeOnlyOwnClosed(store, user.userId, Some(firstOfMonth));
  }

  lemma {:induction false} MinutesAppend(store: seq<Attendance>, a: Attendance, userId: string, since: Option<int>)
    ensures ClosedMinutes(store + [a], userId, since)
         == ClosedMinutes(store, userId, since) + (if Counted(a, userId, since) then a.durationMinutes.GetOr(0) else 0)
    ensures ClosedCount(store + [a], userId) == ClosedCount(store, userId) + (if Counted(a, userId, None) then 1 else 0)
  {
    if |store| > 0 {
      MinutesAppend(store[1..], a, userId, since);
      assert (store + [a])[1..] == store[1..] + [a];
    } else {
      assert store + [a] == [a];
    }
  }

  /** Opening a session (what a successful check-in appends) leaves every
      statistic unchanged. */
  lemma OpenSessionDoesNotCount(store: seq<Attendance>, a: Attendance, user: Claims, firstOfMonth: int)
    requires a.checkOutTime.None?
    ensures Stats(store + [a], user, firstOfMonth) == Stats(store, user, firstOfMonth)
  {
    MinutesAppend(store, a, user.userId, None);
    MinutesAppend(store, a, user.userId, Some(firstOfMonth));
  }

  /** Two closed sessions on one day count as two days. */
  lemma SessionsNotDaysAreCounted(a: Attendance, b: Attendance, user: Claims, firstOfMonth: int)
    requires a.userId == user.userId && b.userId == user.userId
    requires a.checkOutTime.Some? && b.checkOutTime.Some? && a.date == b.date
    ensures Stats([a, b], user, firstOfMonth).totalDays == 2
  {
    assert [a, b][1..] == [b];
    assert [b][1..] == [];
    assert ClosedCount([b], user.userId) == 1;
  }

  lemma {:induction false} MonthMinutesWithinTotal(store: seq<Attendance>, userId: string, since: int)
    requires forall a :: a in store && a.userId == userId && a.durationMinutes.Some? ==> a.durationMinutes.value >= 0
    ensures ClosedMinutes(store, userId, Some(since)) <= ClosedMinutes(store, userId, None)
  {
    if |store| > 0 {
      assert store[0] in store;
      assert forall a :: a in store[1..] ==> a in store;
      MonthMinutesWithinTotal(store[1..], userId, since);
    }
  }

  /** With non-negative durations the month's hours never exceed the
      all-time hours. */
  lemma MonthHoursWithinTotal(store: seq<Attendance>, user: Claims, firstOfMonth: int)
    requires forall a :: a in store && a.userId == user.userId && a.durationMinutes.Some? ==> a.durationMinutes.value >= 0
    ensures Stats(store, user, firstOfMonth).monthHours <= Stats(store, user, firstOfMonth).totalHours
  {
    MonthMinutesWithinTotal(store, user.userId, firstOfMonth);
  }

  // ---------------------------------------------------------------------
  // History

  /** The fields the history route sends for one record. */
  datatype HistoryEntry = HistoryEntry(
    id: string,
    date: int,
    checkInTime: int,
    checkOutTime: Option<int>,
    durationMinutes: Option<int>,
    notes: Option<string>)

  function Entry(a: Attendance): HistoryEntry {
    HistoryEntry(a.id, a.date, a.checkInTime, a.checkOutTime, a.durationMinutes, a.notes)
  }

  function Entries(records: seq<Attendance>): (es: seq<HistoryEntry>)
    ensures |es| == |records|
    ensures forall i {:trigger es[i]} :: 0 <= i < |records| ==> es[i] == Entry(records[i])
  {
    if |records| == 0 then [] else [Entry(records[0])] + Entries(records[1..])
  }

  /** The history's sort key. */
  function DateOf(a: Attendance): int {
    a.date
  }

  /** The caller's records, as the `where` clause selects them. */
  function OwnRecords(store: seq<Attendance>, userId: string): seq<Attendance> {
    Filter(store, (a: Attendance) => a.userId == userId)
  }

  /** The caller's records ordered by date, newest first. */
  function NewestFirst(store: seq<Attendance>, userId: string): seq<Attendance> {
    SortDesc(OwnRecords(store, userId), DateOf)
  }

  /** The history's sort key, on the entries it sends. */
  function EntryDate(e: HistoryEntry): int {
    e.date
  }

  /** The entries of the ten newest own records. */
  function Newest(store: seq<Attendance>, userId: string): seq<HistoryEntry> {
    Entries(Take(NewestFirst(store, userId), HistorySize))
  }

  /** `GET /attendance/history`: the caller's records, newest date first,
      at most ten of them. */
  function History(store: seq<Attendance>, user: Claims): (r: seq<HistoryEntry>)
    ensures |r| == if |OwnRecords(store, user.userId)| <= 10 then |OwnRecords(store, user.userId)| else 10
    ensures multiset(r) <= multiset(Entries(OwnRecords(store, user.userId)))
    ensures SortedDesc(r, EntryDate)
    ensures forall e :: e in r ==> exists a :: a in store && a.userId == user.userId && e == Entry(a)
    ensures forall a :: a in store && a.userId == user.userId ==>
      Entry(a) in r || forall e :: e in r ==> e.date >= a.date
    ensures |OwnRecords(store, user.userId)| <= 10 ==>
      forall a :: a in store && a.userId == user.userId ==> Entry(a) in r
  {
    HistoryFacts(store, user.userId);
    Newest(store, user.userId)
  }

  /** The history's promises, gathered about `Newest`. */
  lemma HistoryFacts(store: seq<Attendance>, userId: string)
    ensures |Newest(store, userId)| ==
      if |OwnRecords(store, userId)| <= 10 then |OwnRecords(store, userId)| else 10
    ensures multiset(Newest(store, userId)) <= multiset(Entries(OwnRecords(store, userId)))
    ensures SortedDesc(Newest(store, userId), EntryDate)
    ensures forall e :: e in Newest(store, userId) ==>
      exists a :: a in store && a.userId == userId && e == Entry(a)
    ensures forall a :: a in store && a.userId == userId ==>
      Entry(a) in Newest(store, userId) || forall e :: e in Newest(store, userId) ==> e.date >= a.date
    ensures |OwnRecords(store, userId)| <= 10 ==>
      forall a :: a in store && a.userId == userId ==> Entry(a) in Newest(store, userId)
  {
    HistoryIsNewestFirst(store, userId);
    HistoryIsOwn(store, userId);
    HistoryKeepsAllNewest(store, userId);
    HistoryShowsEachOnce(store, userId);
    HistoryLength(store, userId);
  }

  /** Ten entries, or all of the caller's records when there are fewer. */
  lemma HistoryLength(store: seq<Attendance>, userId: string)
    ensures var n := |OwnRecords(store, userId)|;
      |Newest(store, userId)| == if n <= 10 then n else 10
  {
    assert |NewestFirst(store, userId)| == |OwnRecords(store, userId)|;
  }

  /** Each own record is shown at most once: the shown entries are a prefix
      of the entries of a permutation of the caller's records. */
  lemma HistoryShowsEachOnce(store: seq<Attendance>, userId: string)
    ensures multiset(Newest(store, userId)) <= multiset(Entries(OwnRecords(store, userId)))
  {
    var sorted := NewestFirst(store, userId);
    var top := Take(sorted, HistorySize);
    EntriesOfPrefix(sorted, |top|);
    EntriesPermutation(sorted, OwnRecords(store, userId));
  }

  /** The entries of a prefix are among the entries of the whole. */
  lemma EntriesOfPrefix(records: seq<Attendance>, n: nat)
    requires n <= |records|
    ensures multiset(Entries(records[..n])) <= multiset(Entries(records))
  {
    var all := Entries(records);
    var front := Entries(records[..n]);
    assert front == all[..n] by {
      forall i | 0 <= i < n
        ensures front[i] == all[i]
      {
        assert records[..n][i] == records[i];
      }
    }
    assert all == all[..n] + all[n..];
    assert multiset(all) == multiset(all[..n]) + multiset(all[n..]);
  }

  /** Reordering the records reorders their entries. */
  lemma EntriesPermutation(xs: seq<Attendance>, ys: seq<Attendance>)
    requires multiset(xs) == multiset(ys)
    ensures multiset(Entries(xs)) == multiset(Entries(ys))
  {
    MapPermutation(xs, ys, Entry, Entries(xs), Entries(ys));
  }

  lemma HistoryIsNewestFirst(store: seq<Attendance>, userId: string)
    ensures SortedDesc(Newest(store, userId), EntryDate)
  {
    var sorted := NewestFirst(store, userId);
    var top := Take(sorted, HistorySize);
    var r := Entries(top);
    forall i, j | 0 <= i < j < |r|
      ensures EntryDate(r[i]) >= EntryDate(r[j])
    {
      assert top[i] == sorted[i] && top[j] == sorted[j];
      assert DateOf(sorted[i]) >= DateOf(sorted[j]);
    }
  }

  lemma HistoryIsOwn(store: seq<Attendance>, userId: string)
    ensures var r := Newest(store, userId);
      forall e :: e in r ==> exists a :: a in store && a.userId == userId && e == Entry(a)
  {
    var sorted := NewestFirst(store, userId);
    var top := Take(sorted, HistorySize);
    var r := Entries(top);
    forall e | e in r
      ensures exists a :: a in store && a.userId == userId && e == Entry(a)
    {
      var k :| 0 <= k < |r| && r[k] == e;
      assert top[k] == sorted[k];
      assert sorted[k] in multiset(OwnRecords(store, userId));
      assert sorted[k] in OwnRecords(store, userId);
    }
  }

  lemma HistoryKeepsAllNewest(store: seq<Attendance>, userId: string)
    ensures var r := Newest(store, userId);
      && (forall a :: a in store && a.userId == userId ==>
            Entry(a) in r || forall e :: e in r ==> e.date >= a.date)
      && (|OwnRecords(store, userId)| <= 10 ==>
            forall a :: a in store && a.userId == userId ==> Entry(a) in r)
  {
    forall a | a in store && a.userId == userId {
      HistoryKeepsNewest(store, userId, a);
    }
  }

  lemma HistoryKeepsNewest(store: seq<Attendance>, userId: string, a: Attendance)
    requires a in store && a.userId == userId
    ensures var r := Newest(store, userId);
      && (Entry(a) in r || forall e :: e in r ==> e.date >= a.date)
      && (|OwnRecords(store, userId)| <= 10 ==> Entry(a) in r)
  {
    var own := OwnRecords(store, userId);
    var sorted := NewestFirst(store, userId);
    var top := Take(sorted, HistorySize);
    var r := Entries(top);
    assert a in own;
    assert a in multiset(sorted);
    TakeOfSortedIsTop(sorted, DateOf, HistorySize, a);
    if a in top {
      var k :| 0 <= k < |top| && top[k] == a;
      assert r[k] == Entry(a);
    } else {
      forall e | e in r
        ensures e.date >= a.date
      {
        var k :| 0 <= k < |r| && r[k] == e;
        assert top[k] in top;
      }
    }
  }

  // ---------------------------------------------------------------------
  // The open-session invariant over any run of check-ins and check-outs

  /** No user has two open records dated the same day. */
  ghost predicate AtMostOneOpenPerDay(store: seq<Attendance>) {
    forall i, j ::
      (0 <= i < j < |store| && store[i].checkOutTime.None? && store[j].checkOutTime.None?
       && store[i].userId == store[j].userId) ==> store[i].date != store[j].date
  }

  lemma CheckInKeepsOneOpen(store: seq<Attendance>, user: Claims, body: NotesInput, now: int, today: int, newId: string)
    requires AtMostOneOpenPerDay(store)
    ensures AtMostOneOpenPerDay(CheckIn(store, user, body, now, today, newId).1)
  {
    var r := CheckIn(store, user, body, now, today, newId);
    if r.0.Json? {
      var s := r.1;
      forall i, j | 0 <= i < j < |s| && s[i].checkOutTime.None? && s[j].checkOutTime.None? && s[i].userId == s[j].userId
        ensures s[i].date != s[j].date
      {
        if j == |store| {
          assert s[i] == store[i];
          assert !OpenOn(store[i], user.userId, today);
        } else {
          assert s[i] == store[i] && s[j] == store[j];
        }
      }
    }
  }

  lemma CheckOutKeepsOneOpen(store: seq<Attendance>, user: Claims, body: NotesInput, now: int, today: int)
    requires AtMostOneOpenPerDay(store)
    ensures AtMostOneOpenPerDay(CheckOut(store, user, body, now, today).1)
  {
    var r := CheckOut(store, user, body, now, today);
    if r.0.Json? {
      var k :| 0 <= k < |store| && OpenOn(store[k], user.userId, today)
        && ClosedAt(store[k], r.1[k], now, body.notes)
        && r.0 == Json(200, r.1[k], None)
        && forall j :: 0 <= j < |store| && j != k ==> r.1[j] == store[j];
      var s := r.1;
      forall i, j | 0 <= i < j < |s| && s[i].checkOutTime.None? && s[j].checkOutTime.None? && s[i].userId == s[j].userId
        ensures s[i].date != s[j].date
      {
        assert i != k && j != k;
        assert s[i] == store[i] && s[j] == store[j];
      }
    }
  }

  /** One request to the attendance routes, with its clock reading. */
  datatype Step =
    | CheckInStep(user: Claims, body: NotesInput, now: int, today: int, newId: string)
    | CheckOutStep(user: Claims, body: NotesInput, now: int, today: int)

  function Apply(store: seq<Attendance>, step: Step): seq<Attendance> {
    match step
    case CheckInStep(user, body, now, today, newId) => CheckIn(store, user, body, now, today, newId).1
    case CheckOutStep(user, body, now, today) => CheckOut(store, user, body, now, today).1
  }

  function Run(store: seq<Attendance>, steps: seq<Step>): seq<Attendance>
    decreases |steps|
  {
    if |steps| == 0 then store else Run(Apply(store, steps[0]), steps[1..])
  }

  /** Across any sequence of check-ins and check-outs, each user has at most
      one open record per day. */
  lemma {:induction false} RunKeepsOneOpen(store: seq<Attendance>, steps: seq<Step>)
    requires AtMostOneOpenPerDay(store)
    ensures AtMostOneOpenPerDay(Run(store, steps))
    decreases |steps|
  {
    if |steps| > 0 {
      match steps[0] {
        case CheckInStep(user, body, now, today, newId) =>
          CheckInKeepsOneOpen(store, user, body, now, today, newId);
        case CheckOutStep(user, body, now, today) =>
          CheckOutKeepsOneOpen(store, user, body, now, today);
      }
      RunKeepsOneOpen(Apply(store, steps[0]), steps[1..]);
    }
  }

  // ---------------------------------------------------------------------
  // Behaviours of the routes as written

  /** A second check-in without a check-out in between is refused and adds
      no record. */
  lemma SecondCheckInRefused(
    store: seq<Attendance>, user: Claims, b1: NotesInput, b2: NotesInput,
    t1: int, t2: int, today: int, id1: string, id2: string)
    requires CheckIn(store, user, b1, t1, today, id1).0.Json?
    requires CheckInSchema(b2)
    ensures var s1 := CheckIn(store, user, b1, t1, today, id1).1;
      CheckIn(s1, user, b2, t2, today, id2) == (Fail(400, AlreadyCheckedIn), s1)
  {
    var s1 := CheckIn(store, user, b1, t1, today, id1).1;
    assert OpenOn(s1[|store|], user.userId, today);
  }

  /** Checking in, out and in again on the same day succeeds and leaves two
      records for that day. */
  lemma CheckInAgainAfterCheckOut(
    store: seq<Attendance>, user: Claims, b1: NotesInput, b2: NotesInput, b3: NotesInput,
    t1: int, t2: int, t3: int, today: int, id1: string, id3: string)
    requires CheckInSchema(b1) && CheckOutSchema(b2) && CheckInSchema(b3)
    requires forall i :: 0 <= i < |store| ==> !OpenOn(store[i], user.userId, today)
    ensures var s1 := CheckIn(store, user, b1, t1, today, id1).1;
      var s2 := CheckOut(s1, user, b2, t2, today).1;
      var r3 := CheckIn(s2, user, b3, t3, today, id3);
      && r3.0.Json?
      && |r3.1| == |store| + 2
      && r3.1[|store|].date == today && r3.1[|store|].checkOutTime == Some(t2)
      && r3.1[|store| + 1].date == today && r3.1[|store| + 1].checkOutTime.None?
  {
    var s1 := CheckIn(store, user, b1, t1, today, id1).1;
    assert s1 == store + [Attendance(id1, user.userId, today, t1, None, None, b1.notes)];
    assert OpenOn(s1[|store|], user.userId, today);
    var s2 := CheckOut(s1, user, b2, t2, today).1;
    var k :| 0 <= k < |s1| && OpenOn(s1[k], user.userId, today)
      && ClosedAt(s1[k], s2[k], t2, b2.notes)
      && forall j :: 0 <= j < |s1| && j != k ==> s2[j] == s1[j];
    assert forall i :: 0 <= i < |store| ==> s1[i] == store[i] && !OpenOn(s1[i], user.userId, today);
    assert k == |store|;
    forall i | 0 <= i < |s2|
      ensures !OpenOn(s2[i], user.userId, today)
    {
      if i < |store| {
        assert s2[i] == store[i];
      }
    }
  }

  /** Check-out never touches a record dated another day than today. */
  lemma CheckOutOnlyTouchesToday(store: seq<Attendance>, user: Claims, body: NotesInput, now: int, today: int)
    ensures var s := CheckOut(store, user, body, now, today).1;
      |s| == |store| && forall j :: 0 <= j < |store| && store[j].date != today ==> s[j] == store[j]
  {
  }

  /** A session left open on an earlier day can never be checked out: when
      it is the caller's only open record, check-out is refused. */
  lemma OverdueSessionCannotClose(store: seq<Attendance>, user: Claims, body: NotesInput, now: int, today: int)
    requires CheckOutSchema(body)
    requires forall a :: a in store && a.userId == user.userId && a.checkOutTime.None? ==> a.date < today
    ensures CheckOut(store, user, body, now, today) == (Fail(400, NoActiveCheckIn), store)
  {
    forall i | 0 <= i < |store|
      ensures !OpenOn(store[i], user.userId, today)
    {
      assert store[i] in store;
    }
  }

  /** An open record from an earlier day does not block today's check-in,
      which then leaves the caller with two open records on different days. */
  lemma OverdueSessionDoesNotBlockCheckIn(
    store: seq<Attendance>, user: Claims, body: NotesInput, now: int, today: int, newId: string)
    requires CheckInSchema(body)
    requires forall a :: a in store && a.userId == user.userId && a.checkOutTime.None? ==> a.date < today
    ensures CheckIn(store, user, body, now, today, newId).0.Json?
  {
    forall i | 0 <= i < |store|
      ensures !OpenOn(store[i], user.userId, today)
    {
      assert store[i] in store;
    }
  }

  /** Right after a successful check-out, a second one the same day is
      refused, provided the store kept the open-session invariant. */
  lemma SecondCheckOutRefused(
    store: seq<Attendance>, user: Claims, b1: NotesInput, b2: NotesInput, t1: int, t2: int, today: int)
    requires AtMostOneOpenPerDay(store)
    requires CheckOut(store, user, b1, t1, today).0.Json?
    requires CheckOutSchema(b2)
    ensures var s1 := CheckOut(store, user, b1, t1, today).1;
      CheckOut(s1, user, b2, t2, today) == (Fail(400, NoActiveCheckIn), s1)
  {
    var s1 := CheckOut(store, user, b1, t1, today).1;
    var k :| 0 <= k < |store| && OpenOn(store[k], user.userId, today)
      && ClosedAt(store[k], s1[k], t1, b1.notes)
      && forall j :: 0 <= j < |store| && j != k ==> s1[j] == store[j];
    forall i | 0 <= i < |s1|
      ensures !OpenOn(s1[i], user.userId, today)
    {
      if i != k {
        assert s1[i] == store[i];
        if i < k {
          assert store[i].checkOutTime.Some? || store[i].userId != store[k].userId || store[i].date != store[k].date;
        } else {
          assert store[k].checkOutTime.Some? || store[i].checkOutTime.Some?
              || store[k].userId != store[i].userId || store[k].date != store[i].date;
        }
      }
    }
  }
}
