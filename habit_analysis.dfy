/**
 * Streak analysis (`HabitAnalysis`): the longest run of check-offs in which
 * each date is exactly one cadence interval after the previous one, for one
 * habit and across all habits.
 */
module HabitAnalysis {
  import opened Wrappers
  import opened Records
  import CheckOff

  /** The step that continues a streak: one day for frequency code 1, one week (seven days)
      for code 2. Any other argument, another code or a frequency name such as "Weekly",
      has none, and then no step is ever compared. */
  function Interval(frequency: FrequencyArg): Option<int>
  {
    if frequency == Code(1) then Some(1)
    else if frequency == Code(2) then Some(7)
    else None
  }

  // ---------------------------------------------------------------------------
  // Reference definition of a streak

  /** The check-off at `j` comes exactly `k` days after the one before it. */
  predicate StepIs(dates: seq<Day>, j: int, k: int)
    requires 0 < j < |dates|
  {
    dates[j] - dates[j - 1] == k
  }

  /** `dates[lo..hi]` is a non-empty segment in which every adjacent step is exactly `k`. */
  ghost predicate IsRun(dates: seq<Day>, lo: int, hi: int, k: int)
  {
    0 <= lo < hi <= |dates| && forall j :: lo < j < hi ==> StepIs(dates, j, k)
  }

  /** `m` is the length of a longest run: some run has length `m` and none is longer. */
  ghost predicate IsLongestRun(dates: seq<Day>, k: int, m: int)
  {
    && (exists lo, hi :: IsRun(dates, lo, hi, k) && hi - lo == m)
    && (forall lo, hi :: IsRun(dates, lo, hi, k) ==> hi - lo <= m)
  }

  // ---------------------------------------------------------------------------
  // The streak as `get_habit_streak` computes it, one check-off at a time

  /** The running `streak` counter after check-off `i`: the length of the run that ends at `i`
      and cannot be extended to the left. */
  function RunEndingAt(dates: seq<Day>, i: nat, k: int): (n: nat)
    requires i < |dates|
    ensures 1 <= n <= i + 1
    ensures IsRun(dates, i + 1 - n, i + 1, k)
    ensures n <= i ==> !StepIs(dates, i + 1 - n, k)
  {
    if i > 0 && StepIs(dates, i, k) then RunEndingAt(dates, i - 1, k) + 1 else 1
  }

  /** The `max_streak` counter after check-off `i`. */
  function LongestRunUpTo(dates: seq<Day>, i: nat, k: int): (m: nat)
    requires i < |dates|
    ensures RunEndingAt(dates, i, k) <= m <= i + 1
  {
    if i == 0 then 1
    else
      var best := LongestRunUpTo(dates, i - 1, k);
      var current := RunEndingAt(dates, i, k);
      if current > best then current else best
  }

  /** The longest run with step `k`; 0 for no check-offs. */
  function LongestRun(dates: seq<Day>, k: int): nat
  {
    if |dates| == 0 then 0 else LongestRunUpTo(dates, |dates| - 1, k)
  }

  /** What `get_habit_streak` returns for the fetched dates and the frequency argument. */
  function Streak(dates: seq<Day>, frequency: FrequencyArg): nat
  {
    if |dates| == 0 then 0
    else
      match Interval(frequency)
      case None => 1
      case Some(k) => LongestRun(dates, k)
  }

  /** The check-off dates `get_habit_streak` fetches for a habit id. */
  function CheckDatesOf(db: Db, parse: CheckOff.Parser, habitId: int): seq<Day>
  {
    CheckOff.ParsedDates(FetchCheckDates(db, habitId), parse)
  }

  /** The streak `get_longest_streak` computes for one habit row. */
  function HabitStreakOf(db: Db, parse: CheckOff.Parser, habit: Habit): nat
  {
    Streak(CheckDatesOf(db, parse, habit.id), habit.frequency)
  }

  // ---------------------------------------------------------------------------
  // The operations

  /** The loop of `get_habit_streak` for a recognised interval `k`. */
  method LongestRunLength(dates: seq<Day>, k: int) returns (maxStreak: nat)
    requires |dates| > 0
    ensures maxStreak == LongestRun(dates, k)
  {
    var streak := 1;
    maxStreak := 1;
    for i := 1 to |dates|
      invariant 1 <= streak <= maxStreak <= i
      invariant streak == RunEndingAt(dates, i - 1, k)
      invariant maxStreak == LongestRunUpTo(dates, i - 1, k)
    {
      if dates[i] - dates[i - 1] == k {
        streak := streak + 1;
        maxStreak := if streak > maxStreak then streak else maxStreak;
      } else {
        streak := 1;
      }
    }
  }

  /** `get_habit_streak` once the dates are fetched: 0 for none, otherwise the longest run for
      code 1 (daily) or code 2 (weekly), and 1 for any other frequency argument. */
  method StreakOfDates(checkDates: seq<Day>, frequency: FrequencyArg) returns (maxStreak: nat)
    ensures maxStreak == Streak(checkDates, frequency)
    ensures |checkDates| == 0 ==> maxStreak == 0
    ensures |checkDates| > 0 ==> 1 <= maxStreak <= |checkDates|
  {
    if |checkDates| == 0 {
      return 0;
    }
    maxStreak := 1;
    if frequency == Code(1) {
      maxStreak := LongestRunLength(checkDates, 1);
    } else if frequency == Code(2) {
      maxStreak := LongestRunLength(checkDates, 7);
    }
  }

  /** `get_habit_streak(habit_id, frequency_id)`: fetch and parse the habit's check-off dates,
      then compute the streak. */
  method GetHabitStreak(db: Db, parse: CheckOff.Parser, habitId: int, frequency: FrequencyArg) returns (streak: nat)
    ensures streak == Streak(CheckDatesOf(db, parse, habitId), frequency)
  {
    var checkDates, _ := CheckOff.GetCheckDatesForHabit(db, parse, habitId);
    streak := StreakOfDates(checkDates, frequency);
  }

  /**
   * `get_longest_streak`: the habit with the longest streak and that streak. The streak is at
   * least every habit's; the habit is the first, in the store's order, to reach it; and there is
   * no habit exactly when the streak is 0 (no habits, or none with a check-off).
   */
  method GetLongestStreak(db: Db, parse: CheckOff.Parser) returns (winner: Option<Habit>, longest: nat)
    ensures forall i :: 0 <= i < |db.habits| ==> HabitStreakOf(db, parse, db.habits[i]) <= longest
    ensures winner.None? <==> longest == 0
    ensures winner.Some? ==>
      exists w :: 0 <= w < |db.habits| && db.habits[w] == winner.value &&
        HabitStreakOf(db, parse, db.habits[w]) == longest &&
        forall j :: 0 <= j < w ==> HabitStreakOf(db, parse, db.habits[j]) < longest
  {
    var habits := db.habits;
    longest := 0;
    winner := None;
    ghost var w := 0;
    for i := 0 to |habits|
      invariant forall j :: 0 <= j < i ==> HabitStreakOf(db, parse, habits[j]) <= longest
      invariant winner.None? <==> longest == 0
      invariant winner.Some? ==>
        && w < i && habits[w] == winner.value
        && HabitStreakOf(db, parse, habits[w]) == longest
        && forall j :: 0 <= j < w ==> HabitStreakOf(db, parse, habits[j]) < longest
    {
      var streak := GetHabitStreak(db, parse, habits[i].id, habits[i].frequency);
      if streak > longest {
        longest := streak;
        winner := Some(habits[i]);
        w := i;
      }
    }
  }

  // ---------------------------------------------------------------------------
  // Properties

  /** No run is longer than the maximal run that ends where it ends. */
  lemma RunWithinEndingRun(dates: seq<Day>, lo: int, hi: int, k: int)
    requires IsRun(dates, lo, hi, k)
    ensures hi - lo <= RunEndingAt(dates, hi - 1, k)
  {
  }

  /** `max_streak` after check-off `i` is the longest run among the first `i + 1` check-offs. */
  lemma {:induction false} LongestRunUpToIsLongest(dates: seq<Day>, i: nat, k: int)
    requires i < |dates|
    ensures exists lo, hi :: IsRun(dates, lo, hi, k) && hi <= i + 1 && hi - lo == LongestRunUpTo(dates, i, k)
    ensures forall lo, hi :: IsRun(dates, lo, hi, k) && hi <= i + 1 ==> hi - lo <= LongestRunUpTo(dates, i, k)
  {
    var n := RunEndingAt(dates, i, k);
    if i == 0 {
      assert IsRun(dates, 0, 1, k);
      forall lo, hi | IsRun(dates, lo, hi, k) && hi <= 1
        ensures hi - lo <= 1
      {
      }
    } else {
      LongestRunUpToIsLongest(dates, i - 1, k);
      forall lo, hi | IsRun(dates, lo, hi, k) && hi <= i + 1
        ensures hi - lo <= LongestRunUpTo(dates, i, k)
      {
        if hi == i + 1 {
          RunWithinEndingRun(dates, lo, hi, k);
        }
      }
      if n > LongestRunUpTo(dates, i - 1, k) {
        assert IsRun(dates, i + 1 - n, i + 1, k);
      }
    }
  }

  /** The computed run length meets the reference definition. */
  lemma LongestRunIsLongest(dates: seq<Day>, k: int)
    requires |dates| > 0
    ensures IsLongestRun(dates, k, LongestRun(dates, k))
  {
    LongestRunUpToIsLongest(dates, |dates| - 1, k);
  }

  /** At most one length is the longest. */
  lemma LongestRunUnique(dates: seq<Day>, k: int, m1: int, m2: int)
    requires IsLongestRun(dates, k, m1) && IsLongestRun(dates, k, m2)
    ensures m1 == m2
  {
    var lo1, hi1 :| IsRun(dates, lo1, hi1, k) && hi1 - lo1 == m1;
    var lo2, hi2 :| IsRun(dates, lo2, hi2, k) && hi2 - lo2 == m2;
  }

  /**
   * What `get_habit_streak` promises: no check-offs give 0 whatever the frequency argument;
   * an argument other than code 1 or 2 gives 1; code 1 and code 2 give the length of the longest
   * segment whose every step is exactly one day, respectively seven days.
   */
  lemma StreakMeetsSpec(dates: seq<Day>, frequency: FrequencyArg)
    ensures |dates| == 0 ==> Streak(dates, frequency) == 0
    ensures |dates| > 0 && frequency != Code(1) && frequency != Code(2) ==> Streak(dates, frequency) == 1
    ensures |dates| > 0 && frequency == Code(1) ==> IsLongestRun(dates, 1, Streak(dates, frequency))
    ensures |dates| > 0 && frequency == Code(2) ==> IsLongestRun(dates, 7, Streak(dates, frequency))
  {
    if |dates| > 0 {
      LongestRunIsLongest(dates, 1);
      LongestRunIsLongest(dates, 7);
    }
  }

  /** A non-empty history has a streak between 1 and its number of check-offs. */
  lemma StreakBounds(dates: seq<Day>, frequency: FrequencyArg)
    requires |dates| > 0
    ensures 1 <= Streak(dates, frequency) <= |dates|
  {
    if Interval(frequency).Some? {
      var k := Interval(frequency).value;
      LongestRunIsLongest(dates, k);
      var lo, hi :| IsRun(dates, lo, hi, k) && hi - lo == LongestRun(dates, k);
    }
  }

  /** A frequency passed by name, as the command-line front end does, never matches code 1 or 2,
      so any non-empty history has streak 1. */
  lemma FrequencyNameGivesOne(dates: seq<Day>, name: string)
    requires |dates| > 0
    ensures Streak(dates, Name(name)) == 1
  {
  }

  /** Appending a check-off never shortens the streak. */
  lemma StreakMonotoneUnderAppend(dates: seq<Day>, next: Day, frequency: FrequencyArg)
    ensures Streak(dates, frequency) <= Streak(dates + [next], frequency)
  {
    var longer := dates + [next];
    if |dates| > 0 && Interval(frequency).Some? {
      var k := Interval(frequency).value;
      LongestRunIsLongest(dates, k);
      LongestRunIsLongest(longer, k);
      var lo, hi :| IsRun(dates, lo, hi, k) && hi - lo == LongestRun(dates, k);
      assert longer[0..|dates|] == dates;
      RunInSlice(longer, 0, |dates|, lo, hi, k);
    }
  }

  /** Appending the check-off exactly one interval after the last extends the run that ends
      there by one. */
  lemma OnCadenceAppendExtends(dates: seq<Day>, frequency: FrequencyArg)
    requires |dates| > 0 && Interval(frequency).Some?
    ensures var k := Interval(frequency).value;
      RunEndingAt(dates + [dates[|dates| - 1] + k], |dates|, k) == RunEndingAt(dates, |dates| - 1, k) + 1
  {
    var k := Interval(frequency).value;
    RunEndingAtPrefix(dates, [dates[|dates| - 1] + k], |dates| - 1, k);
  }

  /** The run ending at a check-off does not depend on check-offs after it. */
  lemma {:induction false} RunEndingAtPrefix(dates: seq<Day>, more: seq<Day>, i: nat, k: int)
    requires i < |dates|
    ensures RunEndingAt(dates + more, i, k) == RunEndingAt(dates, i, k)
  {
    if i > 0 {
      RunEndingAtPrefix(dates, more, i - 1, k);
    }
  }

  /** Every step inside a run is the interval. */
  lemma RunHasStep(dates: seq<Day>, lo: int, hi: int, k: int, j: int)
    requires IsRun(dates, lo, hi, k) && lo < j < hi
    ensures StepIs(dates, j, k)
  {
  }

  /** No run crosses a step that is not the interval. */
  lemma RunOnOneSide(dates: seq<Day>, i: int, lo: int, hi: int, k: int)
    requires 0 < i < |dates| && !StepIs(dates, i, k)
    requires IsRun(dates, lo, hi, k)
    ensures hi <= i || i <= lo
  {
    if lo < i < hi {
      RunHasStep(dates, lo, hi, k, i);
      assert false;
    }
  }

  /** A run inside the slice `dates[from..to]` is the same run of `dates`, shifted by `from`. */
  lemma RunInSlice(dates: seq<Day>, from: nat, to: nat, lo: int, hi: int, k: int)
    requires from <= to <= |dates|
    ensures IsRun(dates[from..to], lo, hi, k) <==> 0 <= lo && hi + from <= to && IsRun(dates, lo + from, hi + from, k)
  {
    var slice := dates[from..to];
    if IsRun(slice, lo, hi, k) {
      forall j | lo + from < j < hi + from
        ensures StepIs(dates, j, k)
      {
        assert StepIs(slice, j - from, k);
      }
    }
    if IsRun(dates, lo + from, hi + from, k) && hi + from <= to && 0 <= lo {
      forall j | lo < j < hi
        ensures StepIs(slice, j, k)
      {
        assert StepIs(dates, j + from, k);
      }
    }
  }

  /**
   * A step that is not exactly the interval (a duplicate date, a shorter or longer gap, or
   * dates out of order) splits the history: no run crosses it, and the longest run is the
   * longer of the longest runs on either side.
   */
  lemma BrokenStepSplits(dates: seq<Day>, i: nat, k: int)
    requires 0 < i < |dates| && !StepIs(dates, i, k)
    ensures RunEndingAt(dates, i, k) == 1
    ensures var before, after := LongestRun(dates[..i], k), LongestRun(dates[i..], k);
      LongestRun(dates, k) == if before >= after then before else after
  {
    var before, after := dates[..i], dates[i..];
    assert before == dates[0..i] && after == dates[i..|dates|];
    var a, b := LongestRun(before, k), LongestRun(after, k);
    var m := if a >= b then a else b;
    LongestRunIsLongest(dates, k);
    LongestRunIsLongest(before, k);
    LongestRunIsLongest(after, k);
    if a >= b {
      var lo, hi :| IsRun(before, lo, hi, k) && hi - lo == a;
      RunInSlice(dates, 0, i, lo, hi, k);
    } else {
      var lo, hi :| IsRun(after, lo, hi, k) && hi - lo == b;
      RunInSlice(dates, i, |dates|, lo, hi, k);
    }
    forall lo, hi | IsRun(dates, lo, hi, k)
      ensures hi - lo <= m
    {
      RunOnOneSide(dates, i, lo, hi, k);
      if hi <= i {
        RunInSlice(dates, 0, i, lo, hi, k);
      } else {
        RunInSlice(dates, i, |dates|, lo - i, hi - i, k);
      }
    }
    assert IsLongestRun(dates, k, m);
    LongestRunUnique(dates, k, m, LongestRun(dates, k));
  }

  // ---------------------------------------------------------------------------
  // Worked cases (2024-01-01 is day 738886)

  /** Daily: 1, 2, 3 and 5 January give 3, since the two-day gap breaks the run. */
  lemma DailyRunBrokenByGap()
    ensures Streak([738886, 738887, 738888, 738890], Code(1)) == 3
  {
  }

  /** Weekly: 1, 8 and 15 January give 3. */
  lemma WeeklyRun()
    ensures Streak([738886, 738893, 738900], Code(2)) == 3
  {
  }

  /** A later run of three beats an earlier run of two; a duplicate date breaks a run. */
  lemma LaterRunWins()
    ensures Streak([738886, 738887, 738895, 738896, 738897], Code(1)) == 3
    ensures Streak([738886, 738887, 738887, 738888], Code(1)) == 2
  {
  }
}
