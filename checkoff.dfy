/**
 * Turning a habit's stored check-off date strings into calendar dates
 * (`CheckOff.get_checkdates_for_habit`): each row is parsed with the
 * format `%Y-%m-%d %H:%M:%S`, the time of day is dropped, and a row that
 * does not parse is reported and skipped without stopping the pass.
 */
module CheckOff {
  import opened Wrappers
  import opened Records

  /** A parsed timestamp: its calendar date and the time of day in seconds. */
  datatype DateTime = DateTime(date: Day, secondOfDay: nat)

  /** The library parser `datetime.strptime(s, '%Y-%m-%d %H:%M:%S')`, left abstract:
      `None` stands for the `ValueError` it raises on a string that does not match. */
  type Parser = string -> Option<DateTime>

  /** The dates of the rows that parse, in row order. */
  function ParsedDates(rows: seq<string>, parse: Parser): seq<Day>
  {
    if rows == [] then []
    else
      var n := |rows| - 1;
      ParsedDates(rows[..n], parse) + (if parse(rows[n]).Some? then [parse(rows[n]).value.date] else [])
  }

  /** The rows that do not parse, in row order: what `get_checkdates_for_habit` prints as "Invalid date format". */
  function MalformedRows(rows: seq<string>, parse: Parser): seq<string>
  {
    if rows == [] then []
    else
      var n := |rows| - 1;
      MalformedRows(rows[..n], parse) + (if parse(rows[n]).None? then [rows[n]] else [])
  }

  /**
   * The positions of the rows that parse. Its contract is the meaning of `ParsedDates`:
   * the k-th date is the date part of the k-th row that parses, the positions increase
   * (row order is kept), and no row that parses is left out.
   */
  function ParsedIndices(rows: seq<string>, parse: Parser): (idx: seq<nat>)
    ensures |idx| == |ParsedDates(rows, parse)|
    ensures forall k :: 0 <= k < |idx| ==>
      idx[k] < |rows| && parse(rows[idx[k]]).Some? &&
      ParsedDates(rows, parse)[k] == parse(rows[idx[k]]).value.date
    ensures forall k1, k2 :: 0 <= k1 < k2 < |idx| ==> idx[k1] < idx[k2]
    ensures forall i :: 0 <= i < |rows| && parse(rows[i]).Some? ==> i in idx
  {
    if rows == [] then []
    else
      var n := |rows| - 1;
      var front := rows[..n];
      assert forall i :: 0 <= i < n ==> front[i] == rows[i];
      ParsedIndices(front, parse) + (if parse(rows[n]).Some? then [n] else [])
  }

  /**
   * `get_checkdates_for_habit`: fetch the habit's rows, parse each one, keep the date part of
   * those that parse and report the others. The report, which the Python implementation prints, is returned here.
   */
  method GetCheckDatesForHabit(db: Db, parse: Parser, habitId: int) returns (dates: seq<Day>, malformed: seq<string>)
    ensures dates == ParsedDates(FetchCheckDates(db, habitId), parse)
    ensures malformed == MalformedRows(FetchCheckDates(db, habitId), parse)
    ensures |dates| + |malformed| == |FetchCheckDates(db, habitId)|
  {
    var rows := FetchCheckDates(db, habitId);
    dates, malformed := [], [];
    for i := 0 to |rows|
      invariant dates == ParsedDates(rows[..i], parse)
      invariant malformed == MalformedRows(rows[..i], parse)
      invariant |dates| + |malformed| == i
    {
      assert rows[..i + 1][..i] == rows[..i];
      match parse(rows[i])
      case Some(dateTime) =>
        dates := dates + [dateTime.date];
      case None =>
        malformed := malformed + [rows[i]];
    }
    assert rows[..|rows|] == rows;
  }

  /** Every row is either parsed or reported, never both and never neither. */
  lemma {:induction false} RowsArePartitioned(rows: seq<string>, parse: Parser)
    ensures |ParsedDates(rows, parse)| + |MalformedRows(rows, parse)| == |rows|
  {
    if rows != [] {
      RowsArePartitioned(rows[..|rows| - 1], parse);
    }
  }

  /** Nothing is reported exactly when every row parses. */
  lemma {:induction false} NoMalformedIffAllParse(rows: seq<string>, parse: Parser)
    ensures MalformedRows(rows, parse) == [] <==> forall i :: 0 <= i < |rows| ==> parse(rows[i]).Some?
  {
    if rows != [] {
      var n := |rows| - 1;
      NoMalformedIffAllParse(rows[..n], parse);
      assert forall i :: 0 <= i < n ==> rows[..n][i] == rows[i];
    }
  }

  /** The output is never longer than the fetch, and is exactly as long when every row parses. */
  lemma OutputLength(rows: seq<string>, parse: Parser)
    ensures |ParsedDates(rows, parse)| <= |rows|
    ensures |ParsedDates(rows, parse)| == |rows| <==> forall i :: 0 <= i < |rows| ==> parse(rows[i]).Some?
  {
    RowsArePartitioned(rows, parse);
    NoMalformedIffAllParse(rows, parse);
  }

  /** Parsing is row by row: a malformed row in one part of the fetch does not affect what is
      produced for the rows after it. */
  lemma {:induction false} ParsedDatesAppend(a: seq<string>, b: seq<string>, parse: Parser)
    ensures ParsedDates(a + b, parse) == ParsedDates(a, parse) + ParsedDates(b, parse)
  {
    if b == [] {
      assert a + b == a;
    } else {
      var n := |b| - 1;
      assert (a + b)[..|a + b| - 1] == a + b[..n];
      ParsedDatesAppend(a, b[..n], parse);
    }
  }

  /** Two timestamps that parse alike and fall on the same calendar day. */
  predicate SameDay(x: Option<DateTime>, y: Option<DateTime>)
  {
    x.Some? == y.Some? && (x.Some? ==> x.value.date == y.value.date)
  }

  /** Only the date part of a parsed timestamp reaches the output: parsers that differ only in
      the time of day they read give the same dates. */
  lemma {:induction false} TimeOfDayDiscarded(rows: seq<string>, parse1: Parser, parse2: Parser)
    requires forall i :: 0 <= i < |rows| ==> SameDay(parse1(rows[i]), parse2(rows[i]))
    ensures ParsedDates(rows, parse1) == ParsedDates(rows, parse2)
  {
    if rows != [] {
      var n := |rows| - 1;
      assert forall i :: 0 <= i < n ==> rows[..n][i] == rows[i];
      TimeOfDayDiscarded(rows[..n], parse1, parse2);
      assert SameDay(parse1(rows[n]), parse2(rows[n]));
    }
  }
}
