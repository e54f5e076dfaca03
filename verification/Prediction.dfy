/** Which quota window holds now, carried forward from the last reset a provider reported.
    Instants are nanoseconds since 1970. */
module Prediction {
  import opened Wrappers
  import Billing

  const SECOND: int := 1_000_000_000
  const HOUR: int := 3_600_000_000_000
  const FIRST: int := -377705023201 * 1_000_000_000
  const LAST: int := 253402207200 * 1_000_000_000 + 999_999_999
  const I32_MAX: int := 0x7FFF_FFFF
  const I64_MAX: int := 0x7FFF_FFFF_FFFF_FFFF

  /** Rounded down to the hour, towards 1970 for an earlier instant. */
  function HourOf(t: int): (hour: int)
    ensures t - HOUR < hour && (0 <= t ==> 0 <= hour <= t)
  {
    if t >= 0 then t - t % HOUR else t + (-t) % HOUR
  }

  /** A whole hour, less than one away, on the side of 1970. */
  lemma HourExactly(t: int)
    ensures HourOf(t) % HOUR == 0
    ensures t >= 0 ==> HourOf(t) <= t < HourOf(t) + 60 * 60 * 1_000_000_000
    ensures t < 0 ==> HourOf(t) - 60 * 60 * 1_000_000_000 < t <= HourOf(t)
  {
    if t < 0 {
      var hours := -t / HOUR;
      assert HourOf(t) == -hours * HOUR;
    }
  }

  predicate Representable(t: int) { FIRST <= t <= LAST }

  /** Instants run from the second of January of the year -9999, 01:59:59, to the last of the
      calendar. */
  lemma RangeOfInstants(epoch: Billing.Civil, first: Billing.Civil)
    requires epoch.month == 1970 * 12 && epoch.day == 1 && epoch.time == 0
    requires first.month == -9999 * 12 && first.day == 2 && first.time == (2 * 60 * 60 - 1) * 1_000_000_000
    ensures HOUR == 60 * 60 * 1_000_000_000 && SECOND == 1_000_000_000
    ensures LAST == Billing.LAST - Billing.InstantOf(epoch)
    ensures FIRST == Billing.InstantOf(first) - Billing.InstantOf(epoch)
  {
    Billing.JanuaryOf(epoch.month, 1970);
    Billing.JanuaryOf(first.month, -9999);
    YearStarts(1970);
    YearStarts(-9999);
    hide Billing.MonthStart, Billing.YearStart;
  }

  lemma YearStarts(year: int)
    ensures year == 1970 ==> Billing.YearStart(year) == 719_528
    ensures year == -9999 ==> Billing.YearStart(year) == -3_652_059
  {
  }

  // ---------------------------------------------------------------- windows opened by a request

  /** The earliest successful request of [lo, hi]. */
  function FirstIn(successes: seq<int>, lo: int, hi: int): (first: Option<int>)
    ensures first.Some? ==> first.value in successes && lo <= first.value <= hi
    ensures forall s :: s in successes && lo <= s <= hi ==> first.Some? && first.value <= s
  {
    if successes == [] then None
    else
      var s, rest := successes[0], FirstIn(successes[1..], lo, hi);
      assert forall x :: x in successes <==> x == s || x in successes[1..];
      if lo <= s <= hi && (rest.None? || s <= rest.value) then Some(s) else rest
  }

  function CountIn(successes: seq<int>, lo: int, hi: int): nat {
    if successes == [] then 0
    else CountIn(successes[1..], lo, hi) + (if lo <= successes[0] <= hi then 1 else 0)
  }

  /** One turn of the search: where it ends, or the reset it goes on from. */
  datatype Turn =
    | NoRequest
    | OutOfRange
    | Holds(first: int, ends: int)
    | Again(first: int, ends: int)

  function TurnOf(successes: seq<int>, reset: int, length: int, now: int): Turn {
    match FirstIn(successes, reset, now)
    case None => NoRequest
    case Some(first) =>
      var ends := HourOf(first) + length;
      if !Representable(ends) then OutOfRange
      else if ends > now then Holds(first, ends)
      else Again(first, ends)
  }

  /** The search ends within `n` further turns. */
  predicate Settles(successes: seq<int>, reset: int, length: int, now: int, n: nat)
    decreases n
  {
    var turn := TurnOf(successes, reset, length, now);
    turn.Again? ==> n > 0 && Settles(successes, turn.ends, length, now, n - 1)
  }

  function EndOf(successes: seq<int>, reset: int, length: int, now: int, n: nat): (turn: Turn)
    requires Settles(successes, reset, length, now, n)
    ensures !turn.Again?
    decreases n
  {
    var turn := TurnOf(successes, reset, length, now);
    if turn.Again? then EndOf(successes, turn.ends, length, now, n - 1) else turn
  }

  /** The windows that opened and closed on the way. */
  function ClosedOf(successes: seq<int>, reset: int, length: int, now: int, n: nat): seq<(int, int)>
    requires Settles(successes, reset, length, now, n)
    decreases n
  {
    var turn := TurnOf(successes, reset, length, now);
    if turn.Again? then [(turn.first, turn.ends)] + ClosedOf(successes, turn.ends, length, now, n - 1) else []
  }

  /** The search, stopped once it has gone on `turns` times: where it ended, if it did. */
  method OpenedOnUse(successes: seq<int>, reportedReset: int, length: int, now: int, turns: nat)
      returns (end: Option<Turn>)
    ensures end ==
              if Settles(successes, reportedReset, length, now, turns)
              then Some(EndOf(successes, reportedReset, length, now, turns))
              else None
  {
    var reset := reportedReset;
    var left: nat := turns;
    while true
      invariant Settles(successes, reset, length, now, left) <==> Settles(successes, reportedReset, length, now, turns)
      invariant Settles(successes, reset, length, now, left) ==>
                  EndOf(successes, reset, length, now, left) == EndOf(successes, reportedReset, length, now, turns)
      decreases left
    {
      var first := FirstIn(successes, reset, now);
      if first.None? { return Some(NoRequest); }
      var ends := HourOf(first.value) + length;
      if !Representable(ends) { return Some(OutOfRange); }
      if ends > now { return Some(Holds(first.value, ends)); }
      if left == 0 { return None; }
      reset := ends;
      left := left - 1;
    }
  }

  // ---------------------------------------------------------------- when the search ends

  lemma {:induction false} CountShrinks(successes: seq<int>, lo: int, mid: int, hi: int)
    requires lo <= mid
    ensures CountIn(successes, mid, hi) <= CountIn(successes, lo, hi)
    ensures (exists s :: s in successes && lo <= s < mid && s <= hi) ==>
              CountIn(successes, mid, hi) < CountIn(successes, lo, hi)
  {
    if successes != [] {
      CountShrinks(successes[1..], lo, mid, hi);
      if s :| s in successes && lo <= s < mid && s <= hi {
        assert s == successes[0] || s in successes[1..];
      }
    }
  }

  /** A turn whose window closes after the request that opened it leaves fewer requests. */
  lemma AgainLeavesFewer(successes: seq<int>, reset: int, length: int, now: int)
    requires TurnOf(successes, reset, length, now).Again?
    requires TurnOf(successes, reset, length, now).ends > TurnOf(successes, reset, length, now).first
    ensures CountIn(successes, TurnOf(successes, reset, length, now).ends, now) < CountIn(successes, reset, now)
  {
    var turn := TurnOf(successes, reset, length, now);
    CountShrinks(successes, reset, turn.ends, now);
  }

  /** A window of an hour or more is found in no more turns than there are requests. */
  lemma {:induction false} LongWindowsSettle(successes: seq<int>, reset: int, length: int, now: int)
    requires length >= HOUR
    ensures Settles(successes, reset, length, now, CountIn(successes, reset, now))
    decreases CountIn(successes, reset, now)
  {
    var turn := TurnOf(successes, reset, length, now);
    if turn.Again? {
      AgainLeavesFewer(successes, reset, length, now);
      LongWindowsSettle(successes, turn.ends, length, now);
      SettlesLater(successes, turn.ends, length, now, CountIn(successes, turn.ends, now),
          CountIn(successes, reset, now) - 1);
    }
  }

  lemma {:induction false} CountedRequests(successes: seq<int>, lo: int, hi: int)
    ensures CountIn(successes, lo, hi) <= |successes|
  {
    if successes != [] {
      CountedRequests(successes[1..], lo, hi);
    }
  }

  /** So with any number of requests the search goes on at most that many times. */
  lemma NoMoreTurnsThanRequests(successes: seq<int>, reset: int, length: int, now: int)
    requires length >= 60 * 60 * 1_000_000_000
    ensures Settles(successes, reset, length, now, |successes|)
  {
    LongWindowsSettle(successes, reset, length, now);
    CountedRequests(successes, reset, now);
    SettlesLater(successes, reset, length, now, CountIn(successes, reset, now), |successes|);
  }

  /** The only windows opened on use that a provider reports are five hours long. */
  lemma FiveHourWindowsSettle(successes: seq<int>, reset: int, now: int)
    ensures Ends(successes, reset, 5 * HOUR, now)
  {
    LongWindowsSettle(successes, reset, 5 * HOUR, now);
    var n := CountIn(successes, reset, now);
    assert Settles(successes, reset, 5 * HOUR, now, n);
  }

  lemma {:induction false} SettlesLater(successes: seq<int>, reset: int, length: int, now: int, n: nat, m: nat)
    requires Settles(successes, reset, length, now, n) && n <= m
    ensures Settles(successes, reset, length, now, m)
    ensures EndOf(successes, reset, length, now, n) == EndOf(successes, reset, length, now, m)
    decreases n
  {
    var turn := TurnOf(successes, reset, length, now);
    if turn.Again? {
      SettlesLater(successes, turn.ends, length, now, n - 1, m - 1);
    }
  }

  /** The request that opens the next window comes `length` or more past its hour, so the window
      is over when it opens. */
  predicate OpensOver(successes: seq<int>, reset: int, length: int, now: int) {
    var turn := TurnOf(successes, reset, length, now);
    turn.Again? && turn.ends <= turn.first
  }

  predicate MeetsOver(successes: seq<int>, reset: int, length: int, now: int, n: nat)
    decreases n
  {
    OpensOver(successes, reset, length, now) ||
    (n > 0 &&
     var turn := TurnOf(successes, reset, length, now);
     turn.Again? && MeetsOver(successes, turn.ends, length, now, n - 1))
  }

  /** Such a window opens again and again. */
  lemma OverOpensOver(successes: seq<int>, reset: int, length: int, now: int)
    requires 0 <= length && 0 <= reset && OpensOver(successes, reset, length, now)
    ensures 0 <= TurnOf(successes, reset, length, now).ends
    ensures OpensOver(successes, TurnOf(successes, reset, length, now).ends, length, now)
  {
    var turn := TurnOf(successes, reset, length, now);
    var again := FirstIn(successes, turn.ends, now);
    assert again.Some? && turn.ends <= again.value <= turn.first;
    SameHour(turn.first, again.value);
    hide HourOf;
  }

  lemma SameHour(a: int, b: int)
    requires 0 <= a && HourOf(a) <= b <= a
    ensures HourOf(b) == HourOf(a)
  {
    assert b / HOUR == a / HOUR;
  }

  lemma {:induction false} OverNeverSettles(successes: seq<int>, reset: int, length: int, now: int, n: nat)
    requires 0 <= length && 0 <= reset && OpensOver(successes, reset, length, now)
    ensures !Settles(successes, reset, length, now, n)
    decreases n
  {
    OverOpensOver(successes, reset, length, now);
    if n > 0 {
      OverNeverSettles(successes, TurnOf(successes, reset, length, now).ends, length, now, n - 1);
    }
  }

  lemma {:induction false} MeetingOverNeverSettles(successes: seq<int>, reset: int, length: int, now: int, m: nat,
      n: nat)
    requires 0 <= length && 0 <= reset && MeetsOver(successes, reset, length, now, m)
    ensures !Settles(successes, reset, length, now, n)
    decreases m
  {
    if OpensOver(successes, reset, length, now) {
      OverNeverSettles(successes, reset, length, now, n);
    } else if n > 0 {
      var turn := TurnOf(successes, reset, length, now);
      MeetingOverNeverSettles(successes, turn.ends, length, now, m - 1, n - 1);
    }
  }

  lemma {:induction false} OtherwiseSettles(successes: seq<int>, reset: int, length: int, now: int)
    requires forall n: nat :: !MeetsOver(successes, reset, length, now, n)
    ensures Settles(successes, reset, length, now, CountIn(successes, reset, now))
    decreases CountIn(successes, reset, now)
  {
    assert !MeetsOver(successes, reset, length, now, 0);
    var turn := TurnOf(successes, reset, length, now);
    if turn.Again? {
      AgainLeavesFewer(successes, reset, length, now);
      forall n: nat ensures !MeetsOver(successes, turn.ends, length, now, n) {
        assert !MeetsOver(successes, reset, length, now, n + 1);
      }
      OtherwiseSettles(successes, turn.ends, length, now);
      SettlesLater(successes, turn.ends, length, now, CountIn(successes, turn.ends, now),
          CountIn(successes, reset, now) - 1);
    }
  }

  ghost predicate Ends(successes: seq<int>, reset: int, length: int, now: int) {
    exists n: nat :: Settles(successes, reset, length, now, n)
  }

  ghost predicate NeverMeetsOver(successes: seq<int>, reset: int, length: int, now: int) {
    forall m: nat :: !MeetsOver(successes, reset, length, now, m)
  }

  /** The search ends exactly when no window on its way is over as it opens. */
  lemma EndsExactlyWhenNoWindowOpensOver(successes: seq<int>, reset: int, length: int, now: int)
    requires 0 <= length && 0 <= reset
    ensures Ends(successes, reset, length, now) <==> NeverMeetsOver(successes, reset, length, now)
  {
    if NeverMeetsOver(successes, reset, length, now) {
      OtherwiseSettles(successes, reset, length, now);
    } else {
      var m: nat :| MeetsOver(successes, reset, length, now, m);
      forall n: nat ensures !Settles(successes, reset, length, now, n) {
        MeetingOverNeverSettles(successes, reset, length, now, m, n);
      }
    }
  }

  /** Ten-minute windows and a request at half past: the search never ends. */
  lemma AShortWindowIsSearchedForever(n: nat)
    ensures !Settles([HOUR / 2], 0, HOUR / 6, HOUR, n)
  {
    assert FirstIn([HOUR / 2], 0, HOUR) == Some(HOUR / 2);
    assert HourOf(HOUR / 2) == 0;
    OverNeverSettles([HOUR / 2], 0, HOUR / 6, HOUR, n);
  }

  // ---------------------------------------------------------------- what the search finds

  /** A window opened by the first request since `from` and not over when it opens. */
  predicate Opened(successes: seq<int>, from: int, length: int, first: int, ends: int) {
    && first in successes && from <= first < ends && ends == HourOf(first) + length
    && forall s :: s in successes && from <= s < first ==> false
  }

  lemma TurnOpens(successes: seq<int>, reset: int, length: int, now: int)
    requires length >= HOUR
    ensures var turn := TurnOf(successes, reset, length, now);
            && (turn.Again? ==> Opened(successes, reset, length, turn.first, turn.ends) && turn.ends <= now)
            && (turn.Holds? ==>
                  Opened(successes, reset, length, turn.first, turn.ends) && turn.first <= now < turn.ends)
            && (turn.NoRequest? <==> forall s :: s in successes ==> !(reset <= s <= now))
  {
  }

  /** Each window opened by the first request since the one before it closed, the first since
      `from`; all closed by `now`. */
  ghost predicate Chain(successes: seq<int>, from: int, length: int, now: int, closed: seq<(int, int)>)
    decreases |closed|
  {
    closed != [] ==>
      && Opened(successes, from, length, closed[0].0, closed[0].1) && closed[0].1 <= now
      && Chain(successes, closed[0].1, length, now, closed[1..])
  }

  function Since(from: int, closed: seq<(int, int)>): int {
    if closed == [] then from else closed[|closed| - 1].1
  }

  /** The windows follow one another and the one answered, opened by the first request since the
      last of them closed, holds now. */
  lemma {:induction false} WindowsFollow(successes: seq<int>, reset: int, length: int, now: int, n: nat)
    requires length >= HOUR && Settles(successes, reset, length, now, n)
    ensures var closed, end := ClosedOf(successes, reset, length, now, n), EndOf(successes, reset, length, now, n);
            && Chain(successes, reset, length, now, closed)
            && (end.Holds? ==>
                  Opened(successes, Since(reset, closed), length, end.first, end.ends)
                  && end.first <= now < end.ends)
    decreases n
  {
    hide TurnOf, Opened;
    TurnOpens(successes, reset, length, now);
    var turn := TurnOf(successes, reset, length, now);
    if turn.Again? {
      WindowsFollow(successes, turn.ends, length, now, n - 1);
      var rest := ClosedOf(successes, turn.ends, length, now, n - 1);
      var closed := [(turn.first, turn.ends)] + rest;
      assert ClosedOf(successes, reset, length, now, n) == closed && closed[1..] == rest;
      assert Since(reset, closed) == Since(turn.ends, rest);
    }
  }

  ghost predicate InClosed(closed: seq<(int, int)>, s: int) {
    exists i :: 0 <= i < |closed| && closed[i].0 <= s < closed[i].1
  }

  lemma InClosedOrLater(first: (int, int), rest: seq<(int, int)>, s: int)
    ensures InClosed([first] + rest, s) <==> first.0 <= s < first.1 || InClosed(rest, s)
  {
    var closed := [first] + rest;
    if InClosed(rest, s) {
      var i :| 0 <= i < |rest| && rest[i].0 <= s < rest[i].1;
      assert closed[i + 1] == rest[i];
    }
    if first.0 <= s < first.1 { assert closed[0].0 <= s < closed[0].1; }
    if InClosed(closed, s) {
      var i :| 0 <= i < |closed| && closed[i].0 <= s < closed[i].1;
      assert i > 0 ==> closed[i] == rest[i - 1];
    }
  }

  /** Every successful request since the reset falls in a window that closed or in the one that
      holds now; nothing holds now exactly when every one of them falls in a closed window. */
  lemma {:induction false} EveryRequestIsInAWindow(successes: seq<int>, reset: int, length: int, now: int, n: nat)
    requires length >= HOUR && Settles(successes, reset, length, now, n)
    requires !EndOf(successes, reset, length, now, n).OutOfRange?
    ensures var closed, end := ClosedOf(successes, reset, length, now, n), EndOf(successes, reset, length, now, n);
            && (forall s :: s in successes && reset <= s <= now ==>
                  InClosed(closed, s) || (end.Holds? && end.first <= s < end.ends))
            && (end.NoRequest? <==> forall s :: s in successes && reset <= s <= now ==> InClosed(closed, s))
    decreases n
  {
    hide TurnOf, HourOf;
    TurnOpens(successes, reset, length, now);
    var turn := TurnOf(successes, reset, length, now);
    if turn.Again? {
      EveryRequestIsInAWindow(successes, turn.ends, length, now, n - 1);
      var rest := ClosedOf(successes, turn.ends, length, now, n - 1);
      var closed := [(turn.first, turn.ends)] + rest;
      assert ClosedOf(successes, reset, length, now, n) == closed;
      forall s | s in successes && reset <= s <= now
        ensures InClosed(closed, s) <==> s < turn.ends || InClosed(rest, s)
      {
        InClosedOrLater((turn.first, turn.ends), rest, s);
      }
      hide InClosed;
      if forall s :: s in successes && reset <= s <= now ==> InClosed(closed, s) {
        forall s | s in successes && turn.ends <= s <= now ensures InClosed(rest, s) {
          assert InClosed(closed, s);
        }
      }
    } else if turn.Holds? {
      assert turn.first in successes && !InClosed([], turn.first);
    }
  }

  // ---------------------------------------------------------------- windows on a schedule

  /** Back-to-back windows of `length` whole seconds, counted on from the reported reset. */
  function NextOnSchedule(reset: int, length: int, now: int): Option<(int, int)>
    requires reset <= now
  {
    var lengths := (now - reset) / SECOND / (if length > 1 then length else 1) + 1;
    var ahead := length * lengths;
    var resetsAt := reset + ahead * SECOND;
    var start := resetsAt - length * SECOND;
    if lengths > I32_MAX || ahead > I64_MAX || ahead < -I64_MAX - 1 then None
    else if !Representable(resetsAt) || !Representable(start) then None
    else Some((start, resetsAt))
  }

  /** Window `k` counted from the reset. */
  predicate HoldsNow(reset: int, length: int, now: int, k: int) {
    reset + k * (length * SECOND) <= now < reset + (k + 1) * (length * SECOND)
  }

  lemma ScheduledWindowIsUnique(reset: int, length: int, now: int, j: int, k: int)
    requires length > 0 && HoldsNow(reset, length, now, j) && HoldsNow(reset, length, now, k)
    ensures j == k
  {
  }

  lemma Apart(a: int, b: int, span: int)
    requires a <= b && span >= 0
    ensures a * span <= b * span
  {
  }

  lemma Elapsed(elapsed: int, length: int) returns (k: int)
    requires elapsed >= 0 && length > 0
    ensures k == elapsed / SECOND / length && k >= 0
    ensures k * (length * SECOND) <= elapsed < (k + 1) * (length * SECOND)
  {
    var seconds := elapsed / SECOND;
    k := seconds / length;
    var rest := seconds % length;
    assert seconds == k * length + rest;
    assert k * (length * SECOND) == (k * length) * SECOND;
    assert (k + 1) * (length * SECOND) == (k * length) * SECOND + length * SECOND;
    assert rest + 1 <= length;
  }

  /** The window answered is the one of the schedule that holds now, and there is an answer unless
      counting to it or its end leaves the range of the numbers. */
  lemma ScheduleHoldsNow(reset: int, length: int, now: int) returns (k: int)
    requires FIRST <= reset <= now && length > 0
    ensures k >= 0 && HoldsNow(reset, length, now, k)
    ensures NextOnSchedule(reset, length, now) ==
              if k + 1 <= I32_MAX && reset + (k + 1) * (length * SECOND) <= LAST
              then Some((reset + k * (length * SECOND), reset + (k + 1) * (length * SECOND)))
              else None
  {
    k := Elapsed(now - reset, length);
    var span := length * SECOND;
    assert (if length > 1 then length else 1) == length;
    assert length * (k + 1) * SECOND == (k + 1) * span;
    assert (k + 1) * span == k * span + span;
    Apart(0, k, span);
  }

  /** A length of no whole second never holds now. */
  lemma EmptyScheduleHoldsNothing(reset: int, length: int, now: int)
    requires reset <= now
    ensures var w := NextOnSchedule(reset, length, now);
            w.Some? ==> (w.value.0 <= now < w.value.1 <==> length > 0)
  {
  }
}
