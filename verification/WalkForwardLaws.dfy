/** When the walk-forward windows tile the timeline, when they do not, and what the data must hold. */
module WalkForwardLaws {
  import opened Sequences
  import opened Timestamps
  import opened Backtest
  import opened WalkForward

  // ---------- consecutive windows ----------

  /** The next out-of-sample window starts exactly where this one ends. */
  predicate Meets(cursor: Timestamp, years: int, months: int) {
    WindowAt(cursor, years, months).end == WindowAt(AddMonths(cursor, months), years, months).split
  }

  /** The length of the month with this index. */
  function MonthLength(index: int): (days: int)
    ensures 28 <= days <= 31
  {
    DaysInMonth(index / 12, index % 12 + 1)
  }

  /** Clamping by the months passed through gives one day, whichever of the two offsets is added first. */
  predicate ClampsAlike(day: int, month: int, years: int, months: int) {
    var last := MonthLength(month + 12 * years + months);
    MinInt(MinInt(day, MonthLength(month + 12 * years)), last) == MinInt(MinInt(day, MonthLength(month + months)), last)
  }

  lemma LengthOfMonth(t: Timestamp)
    ensures MonthLength(t.MonthIndex()) == DaysInMonth(t.year, t.month)
  {
  }

  lemma SameMonthSameTime(a: Timestamp, b: Timestamp)
    requires a.MonthIndex() == b.MonthIndex() && a.nanos == b.nanos
    ensures a == b <==> a.day == b.day
    ensures Before(a, b) <==> a.day < b.day
  {
  }

  /** The day on which a window ends, and the day on which the next one starts its out-of-sample part. */
  lemma BoundaryDays(cursor: Timestamp, years: int, months: int)
    ensures var k := cursor.MonthIndex();
            var last := MonthLength(k + 12 * years + months);
            var end, split := WindowAt(cursor, years, months).end, WindowAt(AddMonths(cursor, months), years, months).split;
            && end.MonthIndex() == split.MonthIndex() == k + 12 * years + months
            && end.nanos == split.nanos
            && end.day == MinInt(MinInt(cursor.day, MonthLength(k + 12 * years)), last)
            && split.day == MinInt(MinInt(cursor.day, MonthLength(k + months)), last)
  {
    hide MonthLength, AddMonths, AddYears, MinInt, CalendarTime.MonthIndex;
    LengthOfMonth(AddYears(cursor, years));
    LengthOfMonth(AddMonths(cursor, months));
    LengthOfMonth(WindowAt(cursor, years, months).end);
    LengthOfMonth(WindowAt(AddMonths(cursor, months), years, months).split);
  }

  /** For given sizes, two consecutive windows meet exactly when the months passed through clamp the day alike. */
  lemma MeetsIff(cursor: Timestamp, years: int, months: int)
    ensures Meets(cursor, years, months) <==> ClampsAlike(cursor.day, cursor.MonthIndex(), years, months)
  {
    hide MonthLength, AddMonths, AddYears, WindowAt;
    BoundaryDays(cursor, years, months);
    SameMonthSameTime(WindowAt(cursor, years, months).end, WindowAt(AddMonths(cursor, months), years, months).split);
  }

  lemma MeetsUpToDay28(cursor: Timestamp, years: int, months: int)
    requires cursor.day <= 28
    ensures Meets(cursor, years, months)
  {
    OffsetsCommuteUpToDay28(cursor, years, months);
  }

  /** Within eight years there is a common year three years before a leap year. */
  lemma CommonThenLeap(year: int) returns (y: int)
    ensures year < y <= year + 8
    ensures !LeapYear(y) && LeapYear(y + 3)
  {
    var k := (year + 3) / 4;
    y := 4 * k + 1;
    FirstOfFour(k);
    if (y + 3) % 100 == 0 {
      FourYearsOn(y + 3);
      y := y + 4;
    }
  }

  lemma FirstOfFour(k: int)
    ensures (4 * k + 1) % 4 == 1 && (4 * k + 4) % 4 == 0
  {
  }

  lemma FourYearsOn(year: int)
    requires year % 100 == 0 && year % 4 == 0
    ensures !LeapYear(year + 1) && LeapYear(year + 4)
  {
    assert (year + 4) % 100 == 4 by {
      assert year + 4 == 100 * (year / 100) + 4;
    }
  }

  /** From a 29th, 30th or 31st outside February, step into February of a common year. */
  lemma StepIntoFebruary(cursor: Timestamp, months: int)
    requires cursor.day > 28 && cursor.month != 2
    requires AddMonths(cursor, months).month == 2
    requires !LeapYear(AddMonths(cursor, months).year) && LeapYear(AddMonths(cursor, months).year + 3)
    ensures !Meets(cursor, 3, months)
  {
    var next := AddMonths(cursor, months);
    assert next.day == 28 && AddYears(next, 3).day == 28;
    var split := AddYears(cursor, 3);
    assert split.day == cursor.day;
    var end := AddMonths(split, months);
    assert end.MonthIndex() == AddYears(next, 3).MonthIndex();
    assert end.month == 2 && end.year == next.year + 3;
  }

  /** Three years after 29 February comes 28 February, and then 28 March; a month after it comes 29 March. */
  lemma LeapDayTears(cursor: Timestamp)
    requires cursor.day == 29 && cursor.month == 2
    ensures !Meets(cursor, 3, 1)
  {
    assert (cursor.year + 3) % 4 == 3;
    hide LeapYear;
    assert AddMonths(AddYears(cursor, 3), 1).day == 28;
    assert AddMonths(cursor, 1).day == 29;
  }

  /** After the 28th, with three years in sample, some step of at most 97 months tears the windows apart. */
  lemma LateDayBreaksSomeStep(cursor: Timestamp)
    requires cursor.day > 28
    ensures exists months :: 1 <= months <= 97 && !Meets(cursor, 3, months)
  {
    hide Meets, LeapYear;
    if cursor.month == 2 {
      LeapDayTears(cursor);
    } else {
      var y := CommonThenLeap(cursor.year);
      var months := y * 12 + 1 - cursor.MonthIndex();
      StepIntoFebruary(cursor, months);
    }
  }

  /** Windows meet for every choice of in-sample years and step exactly when the start day is at most 28. */
  lemma WindowsMeetIffDayAtMost28(cursor: Timestamp)
    ensures (forall years, months :: months >= 1 ==> Meets(cursor, years, months)) <==> cursor.day <= 28
  {
    if cursor.day <= 28 {
      forall years, months | months >= 1 ensures Meets(cursor, years, months) {
        MeetsUpToDay28(cursor, years, months);
      }
    } else {
      LateDayBreaksSomeStep(cursor);
    }
  }

  /** With the default three years and six months, a start on 31 August 2020 tests 28 February 2024 twice. */
  lemma DefaultStepCanOverlap()
    ensures var start: Timestamp := CalendarTime(2020, 8, 31, 0);
            var twice: Timestamp := CalendarTime(2024, 2, 28, 0);
            InOut(twice, Windows(start, 3, 6, 0)) && InOut(twice, Windows(start, 3, 6, 1))
  {
    var start: Timestamp := CalendarTime(2020, 8, 31, 0);
    assert AddYears(start, 3) == CalendarTime(2023, 8, 31, 0);
    assert AddMonths(AddYears(start, 3), 6) == CalendarTime(2024, 2, 29, 0);
    assert AddMonths(start, 6) == CalendarTime(2021, 2, 28, 0);
    assert Cursor(start, 6, 1) == AddMonths(Cursor(start, 6, 0), 6);
  }

  // ---------- the windows of a whole run ----------

  /** The day of the cursor after `j` steps, clamped by every month on the way. */
  function RunDay(day: int, month: int, months: int, j: nat): int {
    if j == 0 then day else MinInt(RunDay(day, month, months, j - 1), MonthLength(month + j * months))
  }

  lemma {:induction false} CursorClamps(start: Timestamp, months: int, j: nat)
    ensures var cursor, k := Cursor(start, months, j), start.MonthIndex();
            cursor.MonthIndex() == k + j * months && cursor.day == RunDay(start.day, k, months, j)
  {
    if j > 0 {
      CursorClamps(start, months, j - 1);
      LengthOfMonth(Cursor(start, months, j));
      hide MonthLength, AddMonths, CalendarTime.MonthIndex;
      assert (j - 1) * months + months == j * months;
    }
  }

  /** Each of the first `n` out-of-sample windows starts exactly where the one before it ends. */
  ghost predicate AllMeet(start: Timestamp, years: int, months: int, n: nat) {
    forall j :: 0 <= j < n - 1 ==> PairMeets(start, years, months, j)
  }

  predicate PairMeets(start: Timestamp, years: int, months: int, j: nat) {
    Windows(start, years, months, j).end == Windows(start, years, months, j + 1).split
  }

  /** What `ClampsAlike` asks of the cursor after `j` steps, from the start and the sizes alone. */
  predicate ClampsAt(start: Timestamp, years: int, months: int, j: nat) {
    var k := start.MonthIndex();
    ClampsAlike(RunDay(start.day, k, months, j), k + j * months, years, months)
  }

  /** Whether the windows of a run meet can be read off month lengths before the run. */
  lemma AllMeetIff(start: Timestamp, years: int, months: int, n: nat)
    ensures AllMeet(start, years, months, n) <==> (forall j :: 0 <= j < n - 1 ==> ClampsAt(start, years, months, j))
  {
    hide ClampsAt, PairMeets;
    forall j | 0 <= j < n - 1 ensures PairMeets(start, years, months, j) <==> ClampsAt(start, years, months, j) {
      PairMeetsIff(start, years, months, j);
    }
  }

  lemma PairMeetsIff(start: Timestamp, years: int, months: int, j: nat)
    ensures PairMeets(start, years, months, j) <==> ClampsAt(start, years, months, j)
  {
    hide ClampsAlike, RunDay, WindowAt, CalendarTime.MonthIndex;
    CursorClamps(start, months, j);
    MeetsIff(Cursor(start, months, j), years, months);
  }

  lemma {:induction false} CursorKeepsDay(start: Timestamp, months: int, j: nat)
    requires start.day <= 28
    ensures Cursor(start, months, j).day == start.day
  {
    if j > 0 {
      CursorKeepsDay(start, months, j - 1);
    }
  }

  lemma AllMeetUpToDay28(start: Timestamp, years: int, months: int, n: nat)
    requires start.day <= 28
    ensures AllMeet(start, years, months, n)
  {
    forall j | 0 <= j < n - 1 ensures PairMeets(start, years, months, j) {
      CursorKeepsDay(start, months, j);
      MeetsUpToDay28(Cursor(start, months, j), years, months);
    }
  }

  lemma WindowsAdvance(start: Timestamp, years: int, months: int, j: nat)
    requires months >= 1
    ensures Before(Windows(start, years, months, j).split, Windows(start, years, months, j).end)
  {
    var w := Windows(start, years, months, j);
    LaterMonthIsLater(w.split, w.end);
  }

  /** A later window's split is never in an earlier month than an earlier window's end. */
  lemma {:induction false} SplitsRise(start: Timestamp, years: int, months: int, i: nat, j: nat)
    requires months >= 1 && i < j
    ensures Windows(start, years, months, i).end.MonthIndex()
              == Windows(start, years, months, i).split.MonthIndex() + months
    ensures Windows(start, years, months, i).end.MonthIndex() + (if i + 1 < j then 1 else 0)
              <= Windows(start, years, months, j).split.MonthIndex()
  {
    if i + 1 < j {
      SplitsRise(start, years, months, i, j - 1);
    }
    assert Cursor(start, months, j) == AddMonths(Cursor(start, months, j - 1), months);
  }

  /** Where all windows meet, earlier windows end no later than later ones begin. */
  lemma LaterWindowsBeginLater(start: Timestamp, years: int, months: int, i: nat, j: nat)
    requires months >= 1 && i < j && AllMeet(start, years, months, j + 1)
    ensures !Before(Windows(start, years, months, j).split, Windows(start, years, months, i).end)
  {
    SplitsRise(start, years, months, i, j);
    hide Windows, CalendarTime.Key;
    assert PairMeets(start, years, months, j - 1);
    if i + 1 < j {
      LaterMonthNotBefore(Windows(start, years, months, i).end, Windows(start, years, months, j).split);
    }
  }

  lemma BeforeIsAsymmetric(a: Timestamp, b: Timestamp)
    ensures Before(a, b) ==> !Before(b, a)
  {
  }

  predicate InOut(t: Timestamp, w: Window) {
    !Before(t, w.split) && Before(t, w.end)
  }

  ghost predicate Covered(start: Timestamp, years: int, months: int, n: nat, t: Timestamp) {
    exists j :: 0 <= j < n && InOut(t, Windows(start, years, months, j))
  }

  ghost predicate CoveredTwice(start: Timestamp, years: int, months: int, n: nat, t: Timestamp) {
    exists i, j :: 0 <= i < j < n && InOut(t, Windows(start, years, months, i)) && InOut(t, Windows(start, years, months, j))
  }

  /** Every moment from the first split to the last end lies in exactly one of the `n` out-of-sample windows. */
  ghost predicate Tiles(start: Timestamp, years: int, months: int, n: nat)
    requires n > 0
  {
    forall t: Timestamp ::
      !Before(t, Windows(start, years, months, 0).split) && Before(t, Windows(start, years, months, n - 1).end) ==>
        Covered(start, years, months, n, t) && !CoveredTwice(start, years, months, n, t)
  }

  lemma {:induction false} MeetingCovers(start: Timestamp, years: int, months: int, n: nat, t: Timestamp)
    requires months >= 1 && n > 0 && AllMeet(start, years, months, n)
    requires !Before(t, Windows(start, years, months, 0).split)
    requires Before(t, Windows(start, years, months, n - 1).end)
    ensures Covered(start, years, months, n, t)
  {
    hide Windows;
    if !InOut(t, Windows(start, years, months, n - 1)) {
      assert n > 1;
      assert PairMeets(start, years, months, n - 2);
      MeetingCovers(start, years, months, n - 1, t);
    }
  }

  lemma MeetingNeverCoversTwice(start: Timestamp, years: int, months: int, n: nat, t: Timestamp)
    requires months >= 1 && AllMeet(start, years, months, n)
    ensures !CoveredTwice(start, years, months, n, t)
  {
    hide Windows;
    forall i, j | 0 <= i < j < n && InOut(t, Windows(start, years, months, i))
      ensures !InOut(t, Windows(start, years, months, j))
    {
      LaterWindowsBeginLater(start, years, months, i, j);
    }
  }

  /** A moment left out, or tested twice, wherever two windows do not meet. */
  lemma TornWindowsDoNotTile(start: Timestamp, years: int, months: int, n: nat, j: nat) returns (t: Timestamp)
    requires months >= 1 && j + 1 < n
    requires !PairMeets(start, years, months, j)
    ensures !Before(t, Windows(start, years, months, 0).split) && Before(t, Windows(start, years, months, n - 1).end)
    ensures !Covered(start, years, months, n, t) || CoveredTwice(start, years, months, n, t)
  {
    hide Windows, CalendarTime.MonthIndex, CalendarTime.Key;
    var end, split := Windows(start, years, months, j).end, Windows(start, years, months, j + 1).split;
    BoundaryIsInMonth(start, years, months, j);
    t := if Before(split, end) then split else end;
    forall i: nat | i < n && i != j && i != j + 1 ensures !InOut(t, Windows(start, years, months, i)) {
      OtherWindowsMiss(start, years, months, i, j, t);
    }
    WindowsAdvance(start, years, months, j + 1);
    SplitsInOrder(start, years, months, j);
    WindowSpan(start, years, months, j, n);
    hide Before;
    if Before(split, end) {
      BeforeIsAsymmetric(Windows(start, years, months, j).split, split);
      assert InOut(t, Windows(start, years, months, j)) && InOut(t, Windows(start, years, months, j + 1));
    } else {
      assert !InOut(t, Windows(start, years, months, j)) && !InOut(t, Windows(start, years, months, j + 1));
    }
  }

  lemma SplitsInOrder(start: Timestamp, years: int, months: int, j: nat)
    requires months >= 1
    ensures Before(Windows(start, years, months, j).split, Windows(start, years, months, j + 1).split)
  {
    SplitsRise(start, years, months, j, j + 1);
    LaterMonthIsLater(Windows(start, years, months, j).split, Windows(start, years, months, j + 1).split);
  }

  /** The month in which two windows should meet lies after every earlier window and before every later one. */
  lemma OtherWindowsMiss(start: Timestamp, years: int, months: int, i: nat, j: nat, t: Timestamp)
    requires months >= 1 && i != j && i != j + 1
    requires t.MonthIndex() == Windows(start, years, months, j).end.MonthIndex()
    ensures !InOut(t, Windows(start, years, months, i))
  {
    var w := Windows(start, years, months, i);
    if i < j {
      SplitsRise(start, years, months, i, j);
      SplitsRise(start, years, months, j, j + 1);
      LaterMonthIsLater(w.end, t);
    } else {
      SplitsRise(start, years, months, j, i);
      LaterMonthIsLater(t, w.split);
    }
  }

  lemma WindowSpan(start: Timestamp, years: int, months: int, j: nat, n: nat)
    requires months >= 1 && j + 1 < n
    ensures !Before(Windows(start, years, months, j).end, Windows(start, years, months, 0).split)
    ensures !Before(Windows(start, years, months, j + 1).split, Windows(start, years, months, 0).split)
    ensures Before(Windows(start, years, months, j).end, Windows(start, years, months, n - 1).end)
    ensures Before(Windows(start, years, months, j + 1).split, Windows(start, years, months, n - 1).end)
  {
    hide Windows, CalendarTime.MonthIndex, CalendarTime.Key, Before;
    SplitsRise(start, years, months, 0, j + 1);
    SplitsRise(start, years, months, j, j + 1);
    SplitsRise(start, years, months, j, n - 1);
    SplitsRise(start, years, months, n - 1, n);
    if j > 0 {
      SplitsRise(start, years, months, 0, j);
    }
    BoundaryIsInMonth(start, years, months, j);
    LaterMonthNotBefore(Windows(start, years, months, 0).split, Windows(start, years, months, j).end);
    LaterMonthNotBefore(Windows(start, years, months, 0).split, Windows(start, years, months, j + 1).split);
    LaterMonthIsLater(Windows(start, years, months, j).end, Windows(start, years, months, n - 1).end);
    LaterMonthIsLater(Windows(start, years, months, j + 1).split, Windows(start, years, months, n - 1).end);
  }

  lemma LaterMonthNotBefore(a: Timestamp, b: Timestamp)
    requires a.MonthIndex() < b.MonthIndex()
    ensures !Before(b, a)
  {
    LaterMonthIsLater(a, b);
  }

  lemma BoundaryIsInMonth(start: Timestamp, years: int, months: int, j: nat)
    ensures var end, split := Windows(start, years, months, j).end, Windows(start, years, months, j + 1).split;
            && split.MonthIndex() == end.MonthIndex()
            && (end == split || Before(end, split) || Before(split, end))
            && !Before(end, end)
            && (Before(split, end) ==> !Before(split, split))
  {
    var end, split := Windows(start, years, months, j).end, Windows(start, years, months, j + 1).split;
    BoundaryDays(Cursor(start, months, j), years, months);
    SameMonthSameTime(end, split);
    SameMonthSameTime(split, end);
  }

  /** The first `n` out-of-sample windows tile their span exactly when each starts where the one before it ends. */
  lemma TilesIffAllMeet(start: Timestamp, years: int, months: int, n: nat)
    requires months >= 1 && n > 0
    ensures Tiles(start, years, months, n) <==> AllMeet(start, years, months, n)
  {
    hide Windows, Covered, CoveredTwice;
    if AllMeet(start, years, months, n) {
      forall t: Timestamp |
        !Before(t, Windows(start, years, months, 0).split) && Before(t, Windows(start, years, months, n - 1).end)
        ensures Covered(start, years, months, n, t) && !CoveredTwice(start, years, months, n, t)
      {
        MeetingCovers(start, years, months, n, t);
        MeetingNeverCoversTwice(start, years, months, n, t);
      }
    } else {
      var j :| 0 <= j < n - 1 && !PairMeets(start, years, months, j);
      var t := TornWindowsDoNotTile(start, years, months, n, j);
    }
  }

  /** From a start day up to 28 every run tiles, whatever its sizes. */
  lemma OutSamplesTile(start: Timestamp, years: int, months: int, n: nat)
    requires start.day <= 28 && months >= 1 && n > 0
    ensures Tiles(start, years, months, n)
  {
    AllMeetUpToDay28(start, years, months, n);
    TilesIffAllMeet(start, years, months, n);
  }

  // ---------- what the data must hold ----------

  lemma {:induction false} SlicesAdd(bars: seq<Bar>, from: Timestamp, mid: Timestamp, to: Timestamp)
    requires !Before(mid, from) && !Before(to, mid)
    ensures |Slice(bars, from, mid)| + |Slice(bars, mid, to)| == |Slice(bars, from, to)|
  {
    if bars != [] {
      SlicesAdd(bars[..|bars| - 1], from, mid, to);
    }
  }

  /** Two windows overlap only when the step lands in a February that clamps the day to 28 for good. */
  lemma OverlapClampsTo28(start: Timestamp, years: int, months: int, j: nat)
    requires Before(Windows(start, years, months, j + 1).split, Windows(start, years, months, j).end)
    ensures Cursor(start, months, j).day > 28 && Cursor(start, months, j + 1).day == 28
  {
    var cursor := Cursor(start, months, j);
    BoundaryDays(cursor, years, months);
    SameMonthSameTime(Windows(start, years, months, j + 1).split, Windows(start, years, months, j).end);
    ShorterYearIsFebruary(cursor.MonthIndex() + months, years);
    LengthOfMonth(AddMonths(cursor, months));
    hide MonthLength;
  }

  lemma {:induction false} DaysNeverRise(start: Timestamp, months: int, i: nat, j: nat)
    requires i <= j
    ensures Cursor(start, months, j).day <= Cursor(start, months, i).day
    decreases j - i
  {
    if i < j {
      DaysNeverRise(start, months, i, j - 1);
      assert Cursor(start, months, j) == AddMonths(Cursor(start, months, j - 1), months);
      hide AddMonths;
    }
  }

  predicate PairOverlaps(start: Timestamp, years: int, months: int, j: nat) {
    Before(Windows(start, years, months, j + 1).split, Windows(start, years, months, j).end)
  }

  lemma NoOverlapAfter(start: Timestamp, years: int, months: int, i: nat, j: nat)
    requires PairOverlaps(start, years, months, i) && i < j
    ensures !PairOverlaps(start, years, months, j)
  {
    hide Cursor;
    OverlapClampsTo28(start, years, months, i);
    DaysNeverRise(start, months, i + 1, j);
    if PairOverlaps(start, years, months, j) {
      OverlapClampsTo28(start, years, months, j);
    }
  }

  /** At most one pair of consecutive windows of a run overlaps. */
  lemma OneOverlapAtMost(start: Timestamp, years: int, months: int, i: nat, j: nat)
    requires PairOverlaps(start, years, months, i) && PairOverlaps(start, years, months, j)
    ensures i == j
  {
    hide *;
    if i < j {
      NoOverlapAfter(start, years, months, i, j);
    } else if j < i {
      NoOverlapAfter(start, years, months, j, i);
    }
  }

  lemma ShorterYearIsFebruary(month: int, years: int)
    ensures MonthLength(month) < MonthLength(month + 12 * years) ==> MonthLength(month) == 28
  {
    assert (month + 12 * years) % 12 == month % 12;
  }

  /** The windows share no bar, but for at most one pair; after it the cursor stays on day 28 or before. */
  lemma {:induction false} OutSamplesFillTheirSpan(bars: seq<Bar>, start: Timestamp, years: int, months: int, n: nat)
    requires months >= 1 && n > 0
    requires forall j :: 0 <= j < n ==> |OutSample(bars, Windows(start, years, months, j))| >= 20
    ensures !Before(Windows(start, years, months, n - 1).end, Windows(start, years, months, 0).split)
    ensures var span := |Slice(bars, Windows(start, years, months, 0).split, Windows(start, years, months, n - 1).end)|;
            20 * n <= span || (20 * (n - 1) <= span && Cursor(start, months, n - 1).day <= 28)
  {
    hide Windows, Slice, AddMonths;
    WindowsAdvance(start, years, months, n - 1);
    if n > 1 {
      OutSamplesFillTheirSpan(bars, start, years, months, n - 1);
      var first, before, now :=
        Windows(start, years, months, 0), Windows(start, years, months, n - 2), Windows(start, years, months, n - 1);
      assert Cursor(start, months, n - 1) == AddMonths(Cursor(start, months, n - 2), months);
      WindowSpan(start, years, months, n - 2, n);
      SlicesAdd(bars, first.split, before.end, now.end);
      if Before(now.split, before.end) {
        OverlapClampsTo28(start, years, months, n - 2);
      } else {
        SlicesAdd(bars, before.end, now.split, now.end);
      }
    }
  }

  /** Each result needs twenty bars of its own: 20 * |results| never exceeds the number of bars. */
  lemma ResultsAreBoundedByData(study: Study, bars: seq<Bar>, n: nat)
    requires bars != [] && forall j :: 0 <= j < n ==> study.Continues(bars, j)
    ensures 20 * n <= |bars|
  {
    if n > 0 {
      var start := bars[0].time;
      var first := Windows(start, study.years, study.months, 0);
      assert study.Continues(bars, 0);
      if study.months <= 0 {
        NoMonthsNoOutSample(bars, start, study.years, study.months);
        assert false;
      }
      forall j | 0 <= j < n
        ensures |OutSample(bars, Windows(start, study.years, study.months, j))| >= 20
      {
        assert study.Continues(bars, j);
      }
      OutSamplesFillTheirSpan(bars, start, study.years, study.months, n);
      hide Windows, Slice;
      if !Before(first.start, first.split) {
        EmptySlice(bars, first.start, first.split);
      }
      SlicesAdd(bars, first.start, first.split, Windows(start, study.years, study.months, n - 1).end);
      SliceIsShorter(bars, first.start, Windows(start, study.years, study.months, n - 1).end);
    }
  }

  lemma SliceIsShorter(bars: seq<Bar>, from: Timestamp, to: Timestamp)
    ensures |Slice(bars, from, to)| <= |bars|
  {
  }

  /** Parameters are chosen on bars that all come before the bars they are then run on. */
  lemma SelectionNeverSeesTheFuture(bars: seq<Bar>, w: Window)
    ensures forall a, b :: a in InSample(bars, w) && b in OutSample(bars, w) ==> Before(a.time, b.time)
  {
    FilterMembers((b: Bar) => !Before(b.time, w.start) && Before(b.time, w.split), bars);
    FilterMembers((b: Bar) => !Before(b.time, w.split) && Before(b.time, w.end), bars);
  }
}
