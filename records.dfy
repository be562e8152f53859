/**
 * The rows that the habit tracker's record store hands to the analysis:
 * habits as fetched by `SELECT * FROM habit`, and, per habit, the raw
 * `check_date` strings of its check-offs.
 */
module Records {

  /** A calendar date as its proleptic Gregorian day ordinal (Python's `date.toordinal()`),
      so that subtracting two dates is subtracting two integers. */
  type Day = int

  /** What `get_habit_streak` receives as its frequency argument. `get_longest_streak` passes
      the habit's integer `frequency_id` column (a `Code`); the command-line front end passes the
      frequency's name, such as "Weekly" (a `Name`). */
  datatype FrequencyArg = Code(id: int) | Name(name: string)

  /** One row of the `habit` table, in column order: id, name, description, frequency_id,
      startdate, enddate, dateadded. */
  datatype Habit = Habit(
    id: int,
    name: string,
    description: string,
    frequency: FrequencyArg,
    startDate: string,
    endDate: string,
    dateAdded: string)

  /** The store's contents as the analysis sees them: the habit rows in the order the store
      returns them, and for each habit id the `check_date` column of its check-offs in the order
      the `ORDER BY check_date` query returns them. The order is taken as given, and every
      `check_date` value is taken to be text. */
  datatype Db = Db(habits: seq<Habit>, checkDateRows: map<int, seq<string>>)

  /** `SELECT check_date FROM check_off WHERE habit_id = ? ORDER BY check_date`: a habit with no
      check-offs (or an unknown id) yields no rows. */
  function FetchCheckDates(db: Db, habitId: int): seq<string>
  {
    if habitId in db.checkDateRows then db.checkDateRows[habitId] else []
  }
}
