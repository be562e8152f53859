# Habit streak analysis, modelled in Dafny

This project models the analytic core of a small command-line habit tracker. Check-offs are stored
as date strings per habit. Three operations are modelled:

- `CheckOff.get_checkdates_for_habit` turns the stored check-off strings into calendar dates. It
  skips the strings that do not parse.
- `HabitAnalysis.get_habit_streak` computes a habit's longest streak. A streak is a run of
  check-offs, each exactly one cadence interval after the one before. The interval is one day for
  frequency code 1 and seven days for code 2.
- `HabitAnalysis.get_longest_streak` finds the habit with the longest streak among all habits.

Files:

- `wrappers.dfy`: the `Option` type.
- `records.dfy` (`Records`): what the record store hands the analysis.
  - Habit rows.
  - The frequency argument, either an integer code or a frequency name.
  - Per habit, the fetched `check_date` strings.
  - Dates are day ordinals, so subtracting two dates is integer subtraction.
- `checkoff.dfy` (`CheckOff`): the parse/filter loop.
  - It is specified by the filter-map functions `ParsedDates` and `MalformedRows`.
  - `ParsedIndices` states what `ParsedDates` means. The k-th date is the date part of the k-th row
    that parses. No row that parses is left out, and row order is kept.
- `habit_analysis.dfy` (`HabitAnalysis`):
  - The reference definition of a longest run: `IsRun` and `IsLongestRun`.
  - The counters of `get_habit_streak`'s loop as functions: `RunEndingAt` is `streak` and
    `LongestRunUpTo` is `max_streak`.
  - The loop methods, proved equal to `Streak`.
  - The lemmas proving that `Streak` meets the reference definition, plus its other properties.
  - The aggregator, specified by "at least every habit's streak, first habit to reach it".

The two loops of `get_habit_streak` (daily and weekly) differ only in the interval. `StreakOfDates` keeps the
branch on code 1 and code 2 and runs one loop method, `LongestRunLength`, with interval 1 or 7.

A frequency argument that is neither code 1 nor code 2 never enters a loop. Such an argument is
another integer or a frequency name such as `"Weekly"`, which the command-line front end passes.
A non-empty history then has streak 1, as `test_database.py:36-37` expects: `max_streak` keeps
its initial value. The fetched dates need not be in ascending order: a pair out of order is just a
step that is not the interval.

## Model

| member | source | states |
|---|---|---|
| `CheckOff.GetCheckDatesForHabit` | checkoff.py:65-73 | Returns the dates of the fetched rows that parse and, separately, the rows that do not, each list in fetch order. Together they account for every fetched row. An empty fetch gives two empty lists, and no unparsable text row aborts the pass. |
| `CheckOff.ParsedIndices` | checkoff.py:66-73 | The k-th output date is the date part of the k-th parsable row. Positions strictly increase, so relative order is kept. Every row that parses appears. |
| `CheckOff.RowsArePartitioned` | checkoff.py:67-72 | Every fetched row is either turned into a date or reported: the two counts add up to the number of rows. |
| `CheckOff.NoMalformedIffAllParse` | checkoff.py:68-72 | Nothing is reported as malformed exactly when every row parses. |
| `CheckOff.OutputLength` | checkoff.py:66-73 | The output is never longer than the fetch. It is exactly as long if and only if every row parses. |
| `CheckOff.ParsedDatesAppend` | checkoff.py:67-72 | Parsing is row by row: the output for two concatenated fetches is the concatenation of their outputs. A skipped row does not affect later rows. |
| `CheckOff.TimeOfDayDiscarded` | checkoff.py:69-70 | Two parsers that agree on success and on the calendar day give the same output, whatever times of day they read. Only the date part is kept. |
| `HabitAnalysis.RunEndingAt` | habitanalysis.py:88-93 | The running counter after check-off i is between 1 and i+1. The segment of that length ending at i has every step equal to the interval, and it cannot be extended one step further back. |
| `HabitAnalysis.LongestRunUpTo` | habitanalysis.py:88-91 | The maximum counter after check-off i is at least the running counter and at most i+1. |
| `HabitAnalysis.LongestRunLength` | habitanalysis.py:83-102 | The loop keeps 1 <= streak <= max_streak <= i and ends with max_streak equal to the longest run for the given interval. |
| `HabitAnalysis.StreakOfDates` | habitanalysis.py:80-104 | The result is the streak of the fetched dates under the frequency argument. No dates give 0. Otherwise the result is between 1 and the number of dates. |
| `HabitAnalysis.GetHabitStreak` | habitanalysis.py:67-104 | Fetches and parses the habit's check-off rows and returns the streak of those dates under the frequency argument. |
| `HabitAnalysis.GetLongestStreak` | habitanalysis.py:48-65 | The returned streak is at least every habit's streak. There is no habit exactly when it is 0, which covers no habits and no habit with a check-off. Otherwise the habit is the first in store order whose streak equals it, and every earlier habit's streak is strictly smaller. |
| `HabitAnalysis.RunWithinEndingRun` | habitanalysis.py:89-93 | No run is longer than the maximal run ending at its last check-off. |
| `HabitAnalysis.LongestRunUpToIsLongest` | habitanalysis.py:88-91 | After check-off i the maximum counter is the length of some run within the first i+1 check-offs, and no run there is longer. |
| `HabitAnalysis.LongestRunIsLongest` | habitanalysis.py:87-102 | For a non-empty history the computed value is the length of a longest contiguous segment whose every step is exactly the interval. |
| `HabitAnalysis.LongestRunUnique` | habitanalysis.py:87-102 | The longest-run length is determined uniquely by the reference definition. |
| `HabitAnalysis.StreakMeetsSpec` | habitanalysis.py:78-104 | No dates give 0 for any frequency argument. An argument other than code 1 or 2 gives 1. Code 1 gives the longest run of one-day steps and code 2 the longest run of seven-day steps. |
| `HabitAnalysis.StreakBounds` | habitanalysis.py:83-104 | A non-empty history has a streak between 1 and its number of check-offs, inclusive. |
| `HabitAnalysis.FrequencyNameGivesOne` | test_database.py:36-37 | A frequency passed by name, such as "Weekly", gives streak 1 for any non-empty history. |
| `HabitAnalysis.StreakMonotoneUnderAppend` | habitanalysis.py:83-104 | Appending a check-off never lowers the streak. |
| `HabitAnalysis.OnCadenceAppendExtends` | habitanalysis.py:89-91 | Appending a check-off exactly one interval after the last one raises the running counter there by one. |
| `HabitAnalysis.RunOnOneSide` | habitanalysis.py:89-93 | No run crosses a step that is not exactly the interval. |
| `HabitAnalysis.BrokenStepSplits` | habitanalysis.py:89-93 | A step that is not exactly the interval resets the running counter to 1. This covers a duplicate date, a shorter or longer gap, and dates out of order. The longest run is then the longer of the longest runs before and after that step. |
| `HabitAnalysis.DailyRunBrokenByGap` | habitanalysis.py:87-93 | Daily dates 1, 2, 3 and 5 January 2024 give streak 3. |
| `HabitAnalysis.WeeklyRun` | habitanalysis.py:96-102 | Weekly dates 1, 8 and 15 January 2024 give streak 3. |
| `HabitAnalysis.LaterRunWins` | habitanalysis.py:87-93 | A later daily run of three beats an earlier run of two. A duplicate date breaks a daily run. |

## Left out

- CheckOff.GetCheckDatesForHabit: every fetched `check_date` value is modelled as text. The column is declared `DATE`, so the database can hand back a number (for example `20240101`). The parser then raises `TypeError`, which the `except ValueError` clause does not catch, so the pass aborts and so do the streak computations that call it. That path is not modelled.
- `HabitAnalysis.get_all_habits` and `get_habits_by_frequency` are SQL pass-throughs. The habit list is the `habits` field of the store value. The frequency filter (a SQL join) is not modelled.
- The database connection and the SQL queries are not modelled (dbutil.py). Their results are inputs: the habit rows and, per habit id, the fetched `check_date` strings.
- `ORDER BY check_date` is not modelled. It is string collation done by the database. The rows are taken in the order given, and sortedness is never assumed.
- `datetime.strptime` with the format `%Y-%m-%d %H:%M:%S` is an abstract parser parameter. `None` stands for its `ValueError`. Calendar validation and day-ordinal arithmetic are the parser's concern.
- The console message for a malformed row is not printed. The row is returned in the `malformed` list instead.
- The `HabitAnalysis` object only holds the database handle and never changes it. The handle is therefore passed as a value parameter rather than kept in a class.
- The frequency argument is either an integer code or a string. Other SQLite column values are not modelled: NULL behaves like a name and gives 1. A REAL such as `1.0` compares equal to `1` in Python.
- Check-off insert, update, delete and listing (checkoff.py:26-48, 75-120) are not modelled. Neither are habit.py and frequency.py, which are parameterised CRUD statements with no logic. Habit creation reads the wall clock.
- manage.py is not modelled. It is a command-line dispatcher that only prints. Its call into the streak computation passes the frequency name, which `FrequencyNameGivesOne` covers.
