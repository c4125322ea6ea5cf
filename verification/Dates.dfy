// What extraction stores: which sentences are recorded, whose promise each is, and
// which day its phrase means, told by day numbers.
module Dates {
  import opened Prelude
  import opened Text
  import opened Calendar
  import opened IsoTime
  import opened Commitments

  // -- days -------------------------------------------------------------------------------------

  predicate DaysAfter(d: Option<Date>, today: Date, n: int) {
    d.Some? && Valid(d.value) && Ordinal(d.value) == Ordinal(today) + n
  }

  /** The given weekday, Monday being 0, one to seven days ahead. */
  predicate ComingWeekday(d: Option<Date>, today: Date, weekday: int) {
    && d.Some? && Valid(d.value) && (Ordinal(d.value) + 6) % 7 == weekday
    && 1 <= Ordinal(d.value) - Ordinal(today) <= 7
  }

  /** The day before the first of the next month. */
  predicate EndsMonth(d: Option<Date>, today: Date) {
    && d.Some? && Valid(d.value) && d.value.year == today.year && d.value.month == today.month
    && !Valid(Date(today.year, today.month, d.value.day + 1))
  }

  /** The first such day and month on or after today. */
  ghost predicate NextOccurrence(d: Option<Date>, today: Date, month: int, day: int) {
    && d.Some? && Valid(d.value) && d.value.month == month && d.value.day == day && !Before(d.value, today)
    && forall e :: Valid(e) && e.month == month && e.day == day && !Before(e, today) ==> !Before(e, d.value)
  }

  /** What each relative phrase means. */
  predicate RelativeMeans(phrase: Relative, today: Date, d: Option<Date>) {
    match phrase
    case Today | Tonight | EndOfDay | ThisMorning => DaysAfter(d, today, 0)
    case Tomorrow => DaysAfter(d, today, 1)
    case NextWeek => DaysAfter(d, today, 7)
    case ThisWeek | EndOfWeek => ComingWeekday(d, today, 4)
    case EndOfMonth => EndsMonth(d, today)
    case ThisAfternoon | ThisEvening => d.None?
  }

  predicate CountMeans(amount: nat, unit: Unit, today: Date, d: Option<Date>) {
    match unit
    case Days => DaysAfter(d, today, amount)
    case Weeks => DaysAfter(d, today, 7 * amount)
    case Hours => DaysAfter(d, today, 0)
  }

  /** A day and month the search finds a year for. */
  predicate Reached(today: Date, m: Option<Match<(int, int)>>) {
    m.Some? && AnnualDate(today, m.value.value.1, m.value.value.0).Some?
  }

  /**
   * The patterns in the order they win: a real ISO date, day and month, month and
   * day, a relative phrase, a count of days, a weekday; and what each one means.
   */
  ghost predicate DueMeans(p: Phrases, today: Date, due: Due) {
    if p.iso.Some? && Valid(p.iso.value.value) then
      due == Due(Some(p.iso.value.value), Some(p.iso.value.phrase))
    else if Reached(today, p.dayMonth) then
      && NextOccurrence(due.date, today, p.dayMonth.value.value.1, p.dayMonth.value.value.0)
      && due.phrase == Some(p.dayMonth.value.phrase)
    else if Reached(today, p.monthDay) then
      && NextOccurrence(due.date, today, p.monthDay.value.value.1, p.monthDay.value.value.0)
      && due.phrase == Some(p.monthDay.value.phrase)
    else if p.relative.Some? then
      RelativeMeans(p.relative.value.value, today, due.date) && due.phrase == Some(p.relative.value.phrase)
    else if p.inN.Some? then
      && CountMeans(p.inN.value.value.0, p.inN.value.value.1, today, due.date)
      && due.phrase == Some(p.inN.value.phrase)
    else if p.weekday.Some? then
      ComingWeekday(due.date, today, p.weekday.value.value) && due.phrase == Some(p.weekday.value.phrase)
    else due == Due(None, None)
  }

  lemma AnnualMeans(today: Date, month: int, day: int)
    requires Valid(today) && AnnualDate(today, month, day).Some?
    ensures NextOccurrence(AnnualDate(today, month, day), today, month, day)
  {
  }

  lemma AddedDaysMean(today: Date, n: nat, phrase: string)
    requires Valid(today) && Resolved(AddDays(today, n), phrase).Ok?
    ensures DaysAfter(Resolved(AddDays(today, n), phrase).value.date, today, n)
  {
    AddDaysOrdinal(today, n);
  }

  lemma WeekdayMeans(today: Date, weekday: int, phrase: string)
    requires Valid(today) && 0 <= weekday <= 6 && Resolved(NextWeekday(today, weekday), phrase).Ok?
    ensures ComingWeekday(Resolved(NextWeekday(today, weekday), phrase).value.date, today, weekday)
  {
    NextWeekdayIsUnique(today, weekday, today);
    FallsAhead(NextWeekday(today, weekday).value, today, weekday);
  }

  lemma FallsAhead(d: Date, today: Date, weekday: int)
    requires Valid(d) && Weekday(d) == weekday && 1 <= Ordinal(d) - Ordinal(today) <= 7
    ensures ComingWeekday(Some(d), today, weekday)
  {
  }

  lemma RelativeIsMeant(today: Date, m: Match<Relative>)
    requires Valid(today) && RelativeDue(today, m).Ok?
    ensures
      var due := RelativeDue(today, m).value;
      RelativeMeans(m.value, today, due.date) && due.phrase == Some(m.phrase)
  {
    match m.value
    case Tomorrow => AddedDaysMean(today, 1, m.phrase);
    case NextWeek => AddedDaysMean(today, 7, m.phrase);
    case ThisWeek | EndOfWeek => WeekdayMeans(today, 4, m.phrase);
    case EndOfMonth => LastOfMonthIsLastDay(today);
    case _ =>
  }

  /** Every phrase resolves to the day it means, by the pattern that wins. */
  lemma DueIsMeant(p: Phrases, today: Date)
    requires Valid(today) && Captured(p) && ParseDue(p, today).Ok?
    ensures DueMeans(p, today, ParseDue(p, today).value)
  {
    if Reached(today, p.dayMonth) {
      AnnualMeans(today, p.dayMonth.value.value.1, p.dayMonth.value.value.0);
    } else if Reached(today, p.monthDay) {
      AnnualMeans(today, p.monthDay.value.value.1, p.monthDay.value.value.0);
    } else if p.relative.Some? {
      if RelativeDue(today, p.relative.value).Ok? {
        RelativeIsMeant(today, p.relative.value);
      }
    } else if p.inN.Some? {
      var (amount, unit) := p.inN.value.value;
      if Resolved(AddDays(today, DaysIn(amount, unit)), p.inN.value.phrase).Ok? {
        AddedDaysMean(today, DaysIn(amount, unit), p.inN.value.phrase);
      }
    } else if p.weekday.Some? {
      if Resolved(NextWeekday(today, p.weekday.value.value), p.weekday.value.phrase).Ok? {
        WeekdayMeans(today, p.weekday.value.value, p.weekday.value.phrase);
      }
    }
  }

  // -- what is recorded ---------------------------------------------------------------------------

  /** A sentence is owed when it is short, not denied, and either promises or, in incoming mail, asks. */
  predicate Owed(r: Reader, s: string, includeRequests: bool) {
    && |s| <= 240 && !r.negated(s)
    && ((!r.boilerplate(s) && (r.promise(s) || r.blocked(s))) || (includeRequests && r.request(s)))
  }

  /** A bare request in incoming mail is ours to meet; anything else is its author's. */
  predicate OwedBy(r: Reader, s: string, author: Direction, owner: Direction) {
    if !r.boilerplate(s) && (r.promise(s) || r.blocked(s)) then owner == author else owner == Ours
  }

  /** One recorded commitment says what its sentence says. */
  ghost predicate Says(r: Reader, s: string, author: Direction, today: Date, c: Commitment) {
    && c.text == s && OwedBy(r, s, author, c.direction)
    && exists due :: && DueMeans(r.phrases(s), today, due) && c.duePhrase == due.phrase
                     && c.dueAt == if due.date.None? then None else Some(IsoDate(due.date.value))
  }

  ghost predicate ReaderCaptures(r: Reader) { forall s :: Captured(r.phrases(s)) }

  lemma DueIsValid(p: Phrases, today: Date, due: Due)
    requires Valid(today) && DueMeans(p, today, due) && due.date.Some?
    ensures Valid(due.date.value)
  {
  }

  lemma CommitSays(r: Reader, s: string, author: Direction, includeRequests: bool, today: Date)
    requires Valid(today) && ReaderCaptures(r) && Kept(r, s, includeRequests) && ParseDue(r.phrases(s), today).Ok?
    ensures Says(r, s, author, today, Commit(r, s, author, includeRequests, ParseDue(r.phrases(s), today).value))
  {
    var due := ParseDue(r.phrases(s), today).value;
    assert Captured(r.phrases(s));
    DueIsMeant(r.phrases(s), today);
    if due.date.Some? {
      DueIsValid(r.phrases(s), today, due);
    }
  }

  lemma {:induction false} CommitAllSays(
      r: Reader, ss: seq<string>, author: Direction, includeRequests: bool, today: Date)
    requires Valid(today) && ReaderCaptures(r) && forall s :: s in ss ==> Kept(r, s, includeRequests)
    ensures var found := CommitAll(r, ss, author, includeRequests, today);
      found.Ok? ==> MadeFrom(r, ss, author, today, found.value)
  {
    if ss != [] && ParseDue(r.phrases(ss[0]), today).Ok? {
      assert ss[0] in ss && forall s :: s in ss[1..] ==> s in ss;
      CommitSays(r, ss[0], author, includeRequests, today);
      CommitAllSays(r, ss[1..], author, includeRequests, today);
      var rest := CommitAll(r, ss[1..], author, includeRequests, today);
      if rest.Ok? {
        var first := CommitAll(r, ss, author, includeRequests, today).value[0];
        MadeFromCons(r, ss, author, today, first, rest.value);
      }
    }
  }

  /** Commitments made one for one from these sentences. */
  ghost predicate MadeFrom(r: Reader, ss: seq<string>, author: Direction, today: Date, found: seq<Commitment>) {
    |found| == |ss| && forall i :: 0 <= i < |ss| ==> Says(r, ss[i], author, today, found[i])
  }

  lemma MadeFromCons(
      r: Reader, ss: seq<string>, author: Direction, today: Date, first: Commitment, rest: seq<Commitment>)
    requires ss != [] && Says(r, ss[0], author, today, first) && MadeFrom(r, ss[1..], author, today, rest)
    ensures MadeFrom(r, ss, author, today, [first] + rest)
  {
    var found := [first] + rest;
    forall i | 0 <= i < |ss| ensures Says(r, ss[i], author, today, found[i]) {
      if i > 0 {
        assert ss[i] == ss[1..][i - 1] && found[i] == rest[i - 1];
      }
    }
  }

  lemma ExtractionIsMadeFrom(r: Reader, text: string, author: Direction, includeRequests: bool, today: Date)
    requires Valid(today) && ReaderCaptures(r) && ExtractSpec(r, text, author, includeRequests, today).Ok?
    ensures MadeFrom(r, Pick(r, r.sentences(text), includeRequests, {}), author, today,
                     ExtractSpec(r, text, author, includeRequests, today).value)
  {
    PicksEachSentenceOnce(r, r.sentences(text), includeRequests, {});
    CommitAllSays(r, Pick(r, r.sentences(text), includeRequests, {}), author, includeRequests, today);
  }

  lemma OwedIsKept(r: Reader, s: string, includeRequests: bool)
    ensures Owed(r, s, includeRequests) <==> Kept(r, s, includeRequests)
  {
  }

  /**
   * Each commitment found says what an owed sentence of the text says: its words,
   * whose it is, and the day its phrase means; and no sentence counts twice.
   */
  lemma ExtractionMeans(r: Reader, text: string, author: Direction, includeRequests: bool, today: Date)
    requires Valid(today) && ReaderCaptures(r) && ExtractSpec(r, text, author, includeRequests, today).Ok?
    ensures
      var found := ExtractSpec(r, text, author, includeRequests, today).value;
      && (forall i :: 0 <= i < |found| ==>
            && found[i].text in r.sentences(text) && Owed(r, found[i].text, includeRequests)
            && Says(r, found[i].text, author, today, found[i]))
      && (forall i, j :: 0 <= i < j < |found| ==> Lower(found[i].text) != Lower(found[j].text))
  {
    var picked := Pick(r, r.sentences(text), includeRequests, {});
    var found := ExtractSpec(r, text, author, includeRequests, today).value;
    PicksEachSentenceOnce(r, r.sentences(text), includeRequests, {});
    ExtractionIsMadeFrom(r, text, author, includeRequests, today);
    forall i | 0 <= i < |found|
      ensures found[i].text == picked[i] && found[i].text in r.sentences(text)
      ensures Owed(r, found[i].text, includeRequests) && Says(r, found[i].text, author, today, found[i])
    {
      assert Says(r, picked[i], author, today, found[i]) && picked[i] in picked;
      OwedIsKept(r, picked[i], includeRequests);
    }
  }

  /** And every owed sentence of the text is found, up to letter case. */
  lemma ExtractionMissesNothing(
      r: Reader, text: string, author: Direction, includeRequests: bool, today: Date, s: string) returns (i: nat)
    requires Valid(today) && ReaderCaptures(r) && ExtractSpec(r, text, author, includeRequests, today).Ok?
    requires s in r.sentences(text) && Owed(r, s, includeRequests)
    ensures
      var found := ExtractSpec(r, text, author, includeRequests, today).value;
      i < |found| && Lower(found[i].text) == Lower(s)
  {
    var picked := Pick(r, r.sentences(text), includeRequests, {});
    OwedIsKept(r, s, includeRequests);
    PicksEverySentence(r, r.sentences(text), includeRequests, {}, s);
    ExtractionIsMadeFrom(r, text, author, includeRequests, today);
    var t :| t in picked && Lower(t) == Lower(s);
    i :| 0 <= i < |picked| && picked[i] == t;
    assert Says(r, picked[i], author, today, ExtractSpec(r, text, author, includeRequests, today).value[i]);
  }

  lemma DaysFit(today: Date, n: nat)
    requires Valid(today) && Ordinal(today) + n <= Ordinal(LAST_DATE)
    ensures AddDays(today, n).Some?
  {
    AddDaysOrdinal(today, n);
  }

  lemma WeekdayFits(today: Date, weekday: int)
    requires Valid(today) && 0 <= weekday <= 6
    ensures Ordinal(today) + 7 <= Ordinal(LAST_DATE) ==> NextWeekday(today, weekday).Some?
  {
    DaysAheadIsUnique(today, weekday, 1);
    if Ordinal(today) + 7 <= Ordinal(LAST_DATE) {
      DaysFit(today, DaysAhead(today, weekday));
    }
  }

  lemma LastMonthIsLong(today: Date)
    requires Valid(today) && !(today.year == MAX_YEAR && today.month == 12)
    ensures Ordinal(today) + 7 <= Ordinal(LAST_DATE)
  {
    OrdinalIsCalendarOrder(today, Date(MAX_YEAR, 12, 1));
    assert Ordinal(LAST_DATE) == Ordinal(Date(MAX_YEAR, 12, 1)) + 30;
  }

  lemma RelativeFits(today: Date, m: Match<Relative>)
    requires Valid(today) && !(today.year == MAX_YEAR && today.month == 12)
    ensures RelativeDue(today, m).Ok?
  {
    LastMonthIsLong(today);
    DaysFit(today, 1);
    DaysFit(today, 7);
    WeekdayFits(today, 4);
    LastOfMonthIsLastDay(today);
  }

  /** A phrase raises only when the day it means lies past the calendar's end. */
  lemma OverflowIsPastTheEnd(p: Phrases, today: Date)
    requires Valid(today) && Captured(p) && ParseDue(p, today).Err?
    ensures
      || (p.relative.Some? && today.year == MAX_YEAR && today.month == 12)
      || (p.inN.Some? && Ordinal(today) + DaysIn(p.inN.value.value.0, p.inN.value.value.1) > Ordinal(LAST_DATE))
      || (p.weekday.Some? && Ordinal(today) + 7 > Ordinal(LAST_DATE))
  {
    if p.relative.Some? {
      if !(today.year == MAX_YEAR && today.month == 12) {
        RelativeFits(today, p.relative.value);
      }
    } else if p.inN.Some? {
      AddDaysOrdinal(today, DaysIn(p.inN.value.value.0, p.inN.value.value.1));
    } else if p.weekday.Some? {
      WeekdayFits(today, p.weekday.value.value);
    }
  }
}
