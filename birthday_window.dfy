/**
 * What `AddressBook.get_birthdays_per_week` (main.py:114-125) computes, as a
 * function of the records' keys and birthdays in the book's iteration order
 * and of today's date.
 */
module BirthdayWindow {
  import opened Wrappers
  import opened Calendar
  import opened Fields

  /** What the query looks at in one record: its key and its birthday. */
  datatype Entry = Entry(name: string, birthday: Option<CalendarDate>)

  /** One result line, "<name>: DD.MM.YYYY", with the birthday as stored (its own year). */
  function Line(name: string, b: CalendarDate): string {
    name + ": " + RenderDate(b)
  }

  /** The birthday moved into `year` lies in the inclusive window [today, week]. */
  predicate InWindow(moved: CalendarDate, today: CalendarDate, week: CalendarDate) {
    NotAfter(today, moved) && NotAfter(moved, week)
  }

  /** Sequencing two steps of the loop: the first exception wins, otherwise the lines are concatenated. */
  function Then(x: Result<seq<string>>, y: Result<seq<string>>): Result<seq<string>> {
    if x.Failure? then x
    else if y.Failure? then y
    else Success(x.value + y.value)
  }

  /**
   * One pass of the loop body: no line for a record without birthday;
   * ValueError when its day does not exist in today's year; its line when
   * the day falls in the window.
   */
  function Step(e: Entry, today: CalendarDate, week: CalendarDate): Result<seq<string>> {
    match e.birthday
    case None => Success([])
    case Some(b) =>
      match ReplaceYear(b, today.year)
      case None => Failure(ValueError)
      case Some(moved) => Success(if InWindow(moved, today, week) then [Line(e.name, b)] else [])
  }

  /** The loop over the records in order, with `week` already computed. */
  function Collect(es: seq<Entry>, today: CalendarDate, week: CalendarDate): Result<seq<string>> {
    if es == [] then Success([]) else Then(Step(es[0], today, week), Collect(es[1..], today, week))
  }

  /** `get_birthdays_per_week` with `today` given: OverflowError when today + 7 days passes 31.12.9999. */
  function Upcoming(es: seq<Entry>, today: CalendarDate): Result<seq<string>> {
    match AddDays(today, 7)
    case None => Failure(OverflowError)
    case Some(week) => Collect(es, today, week)
  }

  /** The record has a birthday, it exists in today's year, and it falls in [today, today + 7 days]. */
  predicate Qualifies(e: Entry, today: CalendarDate) {
    && e.birthday.Some?
    && AddDays(today, 7).Some?
    && ReplaceYear(e.birthday.value, today.year).Some?
    && InWindow(ReplaceYear(e.birthday.value, today.year).value, today, AddDays(today, 7).value)
  }

  /** A birthday on 29 February met in a year that has no such day. */
  predicate LeapDayLost(e: Entry, year: int) {
    e.birthday.Some? && e.birthday.value.day == 29 && e.birthday.value.month == 2 && !IsLeap(year)
  }

  lemma ThenAssociative(x: Result<seq<string>>, y: Result<seq<string>>, z: Result<seq<string>>)
    ensures Then(Then(x, y), z) == Then(x, Then(y, z))
  {
    if x.Success? && y.Success? && z.Success? {
      assert x.value + y.value + z.value == x.value + (y.value + z.value);
    }
  }

  /** The loop over a concatenation is the loop over the first part followed by the loop over the second: lines keep the book's order. */
  lemma {:induction false} CollectAppend(a: seq<Entry>, b: seq<Entry>, today: CalendarDate, week: CalendarDate)
    ensures Collect(a + b, today, week) == Then(Collect(a, today, week), Collect(b, today, week))
  {
    if a == [] {
      assert a + b == b;
      var c := Collect(b, today, week);
      if c.Success? { assert [] + c.value == c.value; }
    } else {
      assert (a + b)[0] == a[0];
      assert (a + b)[1..] == a[1..] + b;
      CollectAppend(a[1..], b, today, week);
      ThenAssociative(Step(a[0], today, week), Collect(a[1..], today, week), Collect(b, today, week));
    }
  }

  /** One more record processed: the loop over a prefix, extended by one step. */
  lemma CollectSnoc(es: seq<Entry>, i: nat, today: CalendarDate, week: CalendarDate)
    requires i < |es|
    ensures Collect(es[..i + 1], today, week) == Then(Collect(es[..i], today, week), Step(es[i], today, week))
  {
    assert es[..i + 1] == es[..i] + [es[i]];
    CollectAppend(es[..i], [es[i]], today, week);
    var st := Step(es[i], today, week);
    assert Collect([es[i]], today, week) == Then(st, Success([]));
    if st.Success? { assert st.value + [] == st.value; }
  }

  /** One pass of the loop body, seen from the loop: what happens to the lines collected so far. */
  lemma CollectNext(es: seq<Entry>, i: nat, today: CalendarDate, week: CalendarDate, lines: seq<string>)
    requires i < |es| && Collect(es[..i], today, week) == Success(lines)
    ensures es[i].birthday.None? ==> Collect(es[..i + 1], today, week) == Success(lines)
    ensures es[i].birthday.Some? && ReplaceYear(es[i].birthday.value, today.year).None? ==>
      Collect(es, today, week) == Failure(ValueError)
    ensures es[i].birthday.Some? && ReplaceYear(es[i].birthday.value, today.year).Some? ==>
      Collect(es[..i + 1], today, week) ==
        if InWindow(ReplaceYear(es[i].birthday.value, today.year).value, today, week)
        then Success(lines + [Line(es[i].name, es[i].birthday.value)])
        else Success(lines)
  {
    CollectSnoc(es, i, today, week);
    if Step(es[i], today, week).Failure? {
      CollectStops(es, i, today, week);
    } else if Step(es[i], today, week).value == [] {
      assert lines + [] == lines;
    }
  }

  /** An exception in the middle of the loop is the outcome of the whole loop. */
  lemma CollectStops(es: seq<Entry>, i: nat, today: CalendarDate, week: CalendarDate)
    requires i < |es|
    requires Collect(es[..i], today, week).Success? && Step(es[i], today, week).Failure?
    ensures Collect(es, today, week) == Step(es[i], today, week)
  {
    CollectSnoc(es, i, today, week);
    assert es == es[..i + 1] + es[i + 1..];
    CollectAppend(es[..i + 1], es[i + 1..], today, week);
  }

  /** The loop fails, always with ValueError, exactly when some record's birthday is a 29 February that today's year lacks. */
  lemma {:induction false} CollectFails(es: seq<Entry>, today: CalendarDate, week: CalendarDate)
    ensures Collect(es, today, week).Failure? <==> exists i :: 0 <= i < |es| && LeapDayLost(es[i], today.year)
    ensures Collect(es, today, week).Failure? ==> Collect(es, today, week).error == ValueError
  {
    if es != [] {
      CollectFails(es[1..], today, week);
      if exists i :: 0 <= i < |es| && LeapDayLost(es[i], today.year) {
        var i :| 0 <= i < |es| && LeapDayLost(es[i], today.year);
        if i > 0 { assert LeapDayLost(es[1..][i - 1], today.year); }
      }
      if exists i :: 0 <= i < |es[1..]| && LeapDayLost(es[1..][i], today.year) {
        var i :| 0 <= i < |es[1..]| && LeapDayLost(es[1..][i], today.year);
        assert LeapDayLost(es[i + 1], today.year);
      }
    }
  }

  /** The query fails with OverflowError when today + 7 days does not exist, and otherwise with ValueError exactly for a lost 29 February. */
  lemma UpcomingFails(es: seq<Entry>, today: CalendarDate)
    ensures AddDays(today, 7).None? ==> Upcoming(es, today) == Failure(OverflowError)
    ensures AddDays(today, 7).Some? ==>
      (Upcoming(es, today).Failure? <==> exists i :: 0 <= i < |es| && LeapDayLost(es[i], today.year))
    ensures AddDays(today, 7).Some? && Upcoming(es, today).Failure? ==> Upcoming(es, today).error == ValueError
  {
    if AddDays(today, 7).Some? {
      CollectFails(es, today, AddDays(today, 7).value);
    }
  }

  /** Every line of the result belongs to a record that qualifies. */
  lemma {:induction false} CollectSound(es: seq<Entry>, today: CalendarDate)
    requires AddDays(today, 7).Some?
    requires Collect(es, today, AddDays(today, 7).value).Success?
    ensures forall line :: line in Collect(es, today, AddDays(today, 7).value).value ==>
      exists i :: 0 <= i < |es| && Qualifies(es[i], today) && line == Line(es[i].name, es[i].birthday.value)
  {
    var week := AddDays(today, 7).value;
    if es != [] {
      CollectSound(es[1..], today);
      var head := Step(es[0], today, week).value;
      var tail := Collect(es[1..], today, week).value;
      forall line | line in Collect(es, today, week).value
        ensures exists i :: 0 <= i < |es| && Qualifies(es[i], today) && line == Line(es[i].name, es[i].birthday.value)
      {
        if line in head {
          assert Qualifies(es[0], today) && line == Line(es[0].name, es[0].birthday.value);
        } else {
          assert line in tail;
          var i :| 0 <= i < |es[1..]| && Qualifies(es[1..][i], today) && line == Line(es[1..][i].name, es[1..][i].birthday.value);
          assert es[1..][i] == es[i + 1];
        }
      }
    }
  }

  /** Every record that qualifies has its line in the result. */
  lemma {:induction false} CollectComplete(es: seq<Entry>, today: CalendarDate)
    requires AddDays(today, 7).Some?
    requires Collect(es, today, AddDays(today, 7).value).Success?
    ensures forall i :: 0 <= i < |es| && Qualifies(es[i], today) ==>
      Line(es[i].name, es[i].birthday.value) in Collect(es, today, AddDays(today, 7).value).value
  {
    var week := AddDays(today, 7).value;
    if es != [] {
      CollectComplete(es[1..], today);
      var head := Step(es[0], today, week).value;
      var tail := Collect(es[1..], today, week).value;
      assert Collect(es, today, week).value == head + tail;
      forall i | 0 <= i < |es| && Qualifies(es[i], today)
        ensures Line(es[i].name, es[i].birthday.value) in Collect(es, today, week).value
      {
        if i == 0 {
          assert Line(es[0].name, es[0].birthday.value) in head;
        } else {
          assert es[1..][i - 1] == es[i];
          assert Line(es[i].name, es[i].birthday.value) in tail;
        }
      }
    }
  }

  /** A record is in the result iff it qualifies (both directions), whenever the query succeeds. */
  lemma UpcomingMembers(es: seq<Entry>, today: CalendarDate)
    requires Upcoming(es, today).Success?
    ensures forall line :: line in Upcoming(es, today).value ==>
      exists i :: 0 <= i < |es| && Qualifies(es[i], today) && line == Line(es[i].name, es[i].birthday.value)
    ensures forall i :: 0 <= i < |es| && Qualifies(es[i], today) ==>
      Line(es[i].name, es[i].birthday.value) in Upcoming(es, today).value
  {
    CollectSound(es, today);
    CollectComplete(es, today);
  }

  /** The window test is "0 to 7 days after today" counted in days, not in calendar fields. */
  lemma WindowByOrdinal(moved: CalendarDate, today: CalendarDate)
    requires AddDays(today, 7).Some?
    ensures InWindow(moved, today, AddDays(today, 7).value) <==> 0 <= Ordinal(moved) - Ordinal(today) <= 7
  {
    var week := AddDays(today, 7).value;
    OrdinalOrder(today, moved);
    OrdinalOrder(moved, week);
  }

  /** The year-end gap: in December, a January birthday is moved into the current year, which is already past, so it never qualifies. */
  lemma YearEndGap(e: Entry, today: CalendarDate)
    requires today.month == 12 && e.birthday.Some? && e.birthday.value.month == 1
    ensures !Qualifies(e, today)
  {
  }

  /** For example, on 29.12.2024 a birthday on 2 January is four days away, yet it is left out. */
  lemma YearEndExample(b: CalendarDate)
    requires b.day == 2 && b.month == 1
    ensures Ordinal(Date(2, 1, 2025)) - Ordinal(Date(29, 12, 2024)) == 4
    ensures !Qualifies(Entry("Ann", Some(b)), Date(29, 12, 2024))
  {
    YearEnd(2024);
    assert DaysBeforeMonth(13, 2024) == DaysBeforeMonth(12, 2024) + 31;
    YearEndGap(Entry("Ann", Some(b)), Date(29, 12, 2024));
  }

  /** On 10.06.2024 the window closes on 17.06.2024: birthdays on 10 and 12 June qualify, one on 20 June does not. */
  lemma WindowExample()
    ensures AddDays(Date(10, 6, 2024), 7) == Some(Date(17, 6, 2024))
    ensures Qualifies(Entry("Ann", Some(Date(12, 6, 1990))), Date(10, 6, 2024))
    ensures Qualifies(Entry("Bob", Some(Date(10, 6, 1990))), Date(10, 6, 2024))
    ensures !Qualifies(Entry("Cid", Some(Date(20, 6, 1990))), Date(10, 6, 2024))
  {
    assert AddDays(Date(16, 6, 2024), 1) == Some(Date(17, 6, 2024));
    assert AddDays(Date(14, 6, 2024), 3) == Some(Date(17, 6, 2024));
    assert AddDays(Date(12, 6, 2024), 5) == Some(Date(17, 6, 2024));
  }
}
