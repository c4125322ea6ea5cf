// Follow-up extraction (app/copilot/commitments.py). Which patterns match a
// sentence is a parameter; what the code makes of the matches is modelled.
module Commitments {
  import opened Prelude
  import opened Text
  import opened Calendar
  import opened IsoTime

  datatype Direction = Ours | Theirs

  const MAX_COMMITMENT_CHARS := 240

  // -- resolving a date phrase ----------------------------------------------------------

  datatype Relative =
    | Today | Tonight | EndOfDay | ThisMorning | ThisAfternoon | ThisEvening
    | Tomorrow | ThisWeek | EndOfWeek | NextWeek | EndOfMonth

  datatype Unit = Days | Weeks | Hours

  datatype Match<+T> = Match(value: T, phrase: string)

  /** The first match of each date pattern in one text. */
  datatype Phrases = Phrases(
    iso: Option<Match<Date>>,
    dayMonth: Option<Match<(int, int)>>,
    monthDay: Option<Match<(int, int)>>,
    relative: Option<Match<Relative>>,
    inN: Option<Match<(nat, Unit)>>,
    weekday: Option<Match<int>>)

  /** What the regular expressions can capture: weekday and month names, day numbers. */
  predicate Captured(p: Phrases) {
    && (p.weekday.Some? ==> 0 <= p.weekday.value.value <= 6)
    && (p.dayMonth.Some? ==> 1 <= p.dayMonth.value.value.1 <= 12)
    && (p.monthDay.Some? ==> 1 <= p.monthDay.value.value.1 <= 12)
  }

  datatype Due = Due(date: Option<Date>, phrase: Option<string>)
  datatype DateOverflow = DateOverflow

  function Resolved(d: Option<Date>, phrase: string): Result<Due, DateOverflow> {
    if d.None? then Err(DateOverflow) else Ok(Due(d, Some(phrase)))
  }

  /** Days until the next `weekday`, never zero. */
  function DaysAhead(today: Date, weekday: int): int {
    var ahead := (weekday - Weekday(today)) % 7;
    if ahead == 0 then 7 else ahead
  }

  function NextWeekday(today: Date, weekday: int): Option<Date> {
    AddDays(today, DaysAhead(today, weekday))
  }

  /**
   * A day and month without a year: this year's, or next year's once it has
   * passed. The search gives up at the first year that has no such day.
   */
  function AnnualDate(today: Date, month: int, day: int): Option<Date> {
    match MakeDate(today.year, month, day)
    case None => None
    case Some(d) => if !Before(d, today) then Some(d) else MakeDate(today.year + 1, month, day)
  }

  /** `(today.replace(day=28) + 4 days).replace(day=1) - 1 day`. */
  function LastOfMonth(today: Date): Option<Date> {
    match AddDays(Date(today.year, today.month, 28), 4)
    case None => None
    case Some(d) => PrevDay(Date(d.year, d.month, 1))
  }

  function RelativeDue(today: Date, m: Match<Relative>): Result<Due, DateOverflow> {
    match m.value
    case Today | Tonight | EndOfDay | ThisMorning => Ok(Due(Some(today), Some(m.phrase)))
    case Tomorrow => Resolved(AddDays(today, 1), m.phrase)
    case ThisWeek | EndOfWeek => Resolved(NextWeekday(today, 4), m.phrase)
    case NextWeek => Resolved(AddDays(today, 7), m.phrase)
    case EndOfMonth => Resolved(LastOfMonth(today), m.phrase)
    case ThisAfternoon | ThisEvening => Ok(Due(None, Some(m.phrase)))
  }

  function DaysIn(amount: nat, unit: Unit): nat {
    match unit
    case Weeks => amount * 7
    case Hours => 0
    case Days => amount
  }

  /** Everything `parse_due` tries after a full ISO date. */
  function PhraseDue(p: Phrases, today: Date): Result<Due, DateOverflow> {
    var dm := if p.dayMonth.Some? then AnnualDate(today, p.dayMonth.value.value.1, p.dayMonth.value.value.0) else None;
    var md := if p.monthDay.Some? then AnnualDate(today, p.monthDay.value.value.1, p.monthDay.value.value.0) else None;
    if dm.Some? then Ok(Due(dm, Some(p.dayMonth.value.phrase)))
    else if md.Some? then Ok(Due(md, Some(p.monthDay.value.phrase)))
    else if p.relative.Some? then RelativeDue(today, p.relative.value)
    else if p.inN.Some? then
      Resolved(AddDays(today, DaysIn(p.inN.value.value.0, p.inN.value.value.1)), p.inN.value.phrase)
    else if p.weekday.Some? then Resolved(NextWeekday(today, p.weekday.value.value), p.weekday.value.phrase)
    else Ok(Due(None, None))
  }

  function ParseDue(p: Phrases, today: Date): Result<Due, DateOverflow> {
    if p.iso.Some? && Valid(p.iso.value.value) then Ok(Due(Some(p.iso.value.value), Some(p.iso.value.phrase)))
    else PhraseDue(p, today)
  }

  /** The stored form of a due date against the current day. */
  predicate IsOverdue(dueAt: Option<string>, today: Date) {
    && dueAt.Some? && dueAt.value != ""
    && ParseIsoDate(dueAt.value).Some?
    && Before(ParseIsoDate(dueAt.value).value, today)
  }

  // -- what the resolutions mean --------------------------------------------------------

  lemma DaysAheadIsUnique(today: Date, weekday: int, k: int)
    requires 0 <= weekday <= 6
    ensures 1 <= DaysAhead(today, weekday) <= 7
    ensures 1 <= k <= 7 ==> ((Ordinal(today) + k + 6) % 7 == weekday <==> k == DaysAhead(today, weekday))
  {
    if 1 <= k <= 7 {
      WeekdayAfter(Ordinal(today) + 6, k);
    }
  }

  /** Days later, the weekday has moved on by as many, wrapping after six. */
  lemma WeekdayAfter(n: int, k: int)
    requires 0 <= k <= 7
    ensures (n + k) % 7 == if n % 7 + k < 7 then n % 7 + k else n % 7 + k - 7
  {
    var q, d := n / 7, n % 7;
    assert n == 7 * q + d;
  }

  lemma NextWeekdayFalls(today: Date, weekday: int)
    requires Valid(today) && 0 <= weekday <= 6
    ensures NextWeekday(today, weekday).Some? ==>
      var d := NextWeekday(today, weekday).value;
      && Valid(d) && Weekday(d) == weekday && Ordinal(d) == Ordinal(today) + DaysAhead(today, weekday)
    ensures NextWeekday(today, weekday).None? ==> Ordinal(today) + DaysAhead(today, weekday) > Ordinal(LAST_DATE)
  {
    var ahead := DaysAhead(today, weekday);
    DaysAheadIsUnique(today, weekday, ahead);
    AddDaysOrdinal(today, ahead);
    assert (Ordinal(today) + ahead + 6) % 7 == weekday;
  }

  /** The one date one to seven days ahead that falls on `weekday`. */
  lemma NextWeekdayIsUnique(today: Date, weekday: int, other: Date)
    requires Valid(today) && 0 <= weekday <= 6
    ensures NextWeekday(today, weekday).Some? ==>
      var d := NextWeekday(today, weekday).value;
      && Valid(d) && Weekday(d) == weekday && 1 <= Ordinal(d) - Ordinal(today) <= 7
    ensures Valid(other) && Weekday(other) == weekday && 1 <= Ordinal(other) - Ordinal(today) <= 7 ==>
      NextWeekday(today, weekday) == Some(other)
  {
    DaysAheadIsUnique(today, weekday, 1);
    NextWeekdayFalls(today, weekday);
    if Valid(other) && Weekday(other) == weekday && 1 <= Ordinal(other) - Ordinal(today) <= 7 {
      OnlyThatWeekday(today, weekday, other);
    }
  }

  lemma OnlyThatWeekday(today: Date, weekday: int, other: Date)
    requires Valid(today) && 0 <= weekday <= 6
    requires Valid(other) && Weekday(other) == weekday && 1 <= Ordinal(other) - Ordinal(today) <= 7
    ensures NextWeekday(today, weekday) == Some(other)
  {
    DaysAheadIsUnique(today, weekday, Ordinal(other) - Ordinal(today));
    NextWeekdayFalls(today, weekday);
    OrdinalIsCalendarOrder(LAST_DATE, other);
    OrdinalIsCalendarOrder(NextWeekday(today, weekday).value, other);
  }

  /** The arithmetic finds the last day of any month, leap February included, until it overflows. */
  lemma LastOfMonthIsLastDay(today: Date)
    requires Valid(today)
    ensures LastOfMonth(today) ==
      if today.year == MAX_YEAR && today.month == 12 then None
      else Some(Date(today.year, today.month, DaysInMonth(today.year, today.month)))
  {
    var y, m := today.year, today.month;
    var d0 := Date(y, m, 28);
    var d := AddDays(d0, 4);
    assert d == match NextDay(d0) case None => None case Some(e) => AddDays(e, 3);
    if NextDay(d0).Some? {
      var d1 := NextDay(d0).value;
      assert AddDays(d1, 3) == match NextDay(d1) case None => None case Some(e) => AddDays(e, 2);
      if NextDay(d1).Some? {
        var d2 := NextDay(d1).value;
        assert AddDays(d2, 2) == match NextDay(d2) case None => None case Some(e) => AddDays(e, 1);
      }
    }
  }

  /** A 29 February is resolved exactly when it is still ahead in the current, leap, year. */
  lemma LeapDayResolves(today: Date)
    requires Valid(today)
    ensures AnnualDate(today, 2, 29).Some? <==> IsLeap(today.year) && !Before(Date(today.year, 2, 29), today)
  {
  }

  /** So in a common year next February's leap day is missed. */
  lemma LeapDayMissedNextYear()
    ensures AnnualDate(Date(2027, 6, 1), 2, 29) == None && Valid(Date(2028, 2, 29))
  {
  }

  /** Every other day of the calendar resolves to its next occurrence, up to the last year. */
  lemma AnnualDateIsNextOccurrence(today: Date, month: int, day: int)
    requires Valid(today) && 1 <= month <= 12 && 1 <= day <= DaysInMonth(2001, month)
    ensures match AnnualDate(today, month, day)
      case None => today.year == MAX_YEAR && Before(Date(today.year, month, day), today)
      case Some(d) =>
        && Valid(d) && d.month == month && d.day == day && !Before(d, today)
        && forall e :: Valid(e) && e.month == month && e.day == day && !Before(e, today) ==> !Before(e, d)
  {
  }

  predicate NotPast(due: Result<Due, DateOverflow>, today: Date) {
    due.Ok? && due.value.date.Some? ==> Valid(due.value.date.value) && !Before(due.value.date.value, today)
  }

  lemma AddedDaysAreNotPast(today: Date, n: nat, phrase: string)
    requires Valid(today)
    ensures NotPast(Resolved(AddDays(today, n), phrase), today)
  {
    AddDaysOrdinal(today, n);
    if AddDays(today, n).Some? {
      OrdinalIsCalendarOrder(AddDays(today, n).value, today);
    }
  }

  lemma RelativeIsNotPast(today: Date, m: Match<Relative>)
    requires Valid(today)
    ensures NotPast(RelativeDue(today, m), today)
  {
    match m.value
    case EndOfMonth => LastOfMonthIsLastDay(today);
    case ThisWeek | EndOfWeek =>
      DaysAheadIsUnique(today, 4, 1);
      AddedDaysAreNotPast(today, DaysAhead(today, 4), m.phrase);
    case Tomorrow => AddedDaysAreNotPast(today, 1, m.phrase);
    case NextWeek => AddedDaysAreNotPast(today, 7, m.phrase);
    case _ =>
  }

  /** Nothing but a written-out ISO date can resolve to the past. */
  lemma PhraseNeverResolvesToThePast(p: Phrases, today: Date)
    requires Valid(today) && Captured(p)
    ensures NotPast(PhraseDue(p, today), today)
    ensures PhraseDue(p, today).Ok? && PhraseDue(p, today).value.date.Some? ==>
      !IsOverdue(Some(IsoDate(PhraseDue(p, today).value.date.value)), today)
  {
    if p.relative.Some? {
      RelativeIsNotPast(today, p.relative.value);
    }
    if p.inN.Some? {
      AddedDaysAreNotPast(today, DaysIn(p.inN.value.value.0, p.inN.value.value.1), p.inN.value.phrase);
    }
    if p.weekday.Some? {
      DaysAheadIsUnique(today, p.weekday.value.value, 1);
      AddedDaysAreNotPast(today, DaysAhead(today, p.weekday.value.value), p.weekday.value.phrase);
    }
    assert NotPast(PhraseDue(p, today), today);
    if PhraseDue(p, today).Ok? && PhraseDue(p, today).value.date.Some? {
      IsoDateRoundTrip(PhraseDue(p, today).value.date.value);
    }
  }

  // -- extraction -----------------------------------------------------------------------

  /** The patterns of the module, as questions about a sentence. */
  datatype Reader = Reader(
    sentences: string -> seq<string>,
    promise: string -> bool, blocked: string -> bool, request: string -> bool,
    negated: string -> bool, boilerplate: string -> bool,
    phrases: string -> Phrases)

  datatype Commitment = Commitment(
    text: string, direction: Direction, dueAt: Option<string>, duePhrase: Option<string>)

  predicate LooksLikeACommitment(r: Reader, s: string) {
    && |s| <= MAX_COMMITMENT_CHARS && !r.boilerplate(s) && !r.negated(s)
    && (r.promise(s) || r.blocked(s))
  }

  predicate IsRequest(r: Reader, s: string, includeRequests: bool) {
    includeRequests && |s| <= MAX_COMMITMENT_CHARS && r.request(s) && !r.negated(s)
  }

  function Commit(r: Reader, s: string, direction: Direction, includeRequests: bool, due: Due): Commitment {
    var ours := IsRequest(r, s, includeRequests) && !LooksLikeACommitment(r, s);
    Commitment(s, if ours then Ours else direction,
               if due.date.Some? && Valid(due.date.value) then Some(IsoDate(due.date.value)) else None, due.phrase)
  }

  predicate Kept(r: Reader, s: string, includeRequests: bool) {
    LooksLikeACommitment(r, s) || IsRequest(r, s, includeRequests)
  }

  /** The sentences still to be recorded once the keys in `seen` have been. */
  function Pick(r: Reader, ss: seq<string>, includeRequests: bool, seen: set<string>): seq<string> {
    if ss == [] then []
    else if Kept(r, ss[0], includeRequests) && Lower(ss[0]) !in seen
    then [ss[0]] + Pick(r, ss[1..], includeRequests, seen + {Lower(ss[0])})
    else Pick(r, ss[1..], includeRequests, seen)
  }

  function CommitAll(r: Reader, ss: seq<string>, direction: Direction, includeRequests: bool, today: Date)
    : Result<seq<Commitment>, DateOverflow>
  {
    if ss == [] then Ok([])
    else
      match ParseDue(r.phrases(ss[0]), today)
      case Err(e) => Err(e)
      case Ok(due) =>
        match CommitAll(r, ss[1..], direction, includeRequests, today)
        case Err(e) => Err(e)
        case Ok(rest) => Ok([Commit(r, ss[0], direction, includeRequests, due)] + rest)
  }

  function ExtractSpec(r: Reader, text: string, direction: Direction, includeRequests: bool, today: Date)
    : Result<seq<Commitment>, DateOverflow>
  {
    CommitAll(r, Pick(r, r.sentences(text), includeRequests, {}), direction, includeRequests, today)
  }

  ghost function Prepend<T, E>(list: seq<T>, rest: Result<seq<T>, E>): Result<seq<T>, E> {
    if rest.Err? then rest else Ok(list + rest.value)
  }

  lemma PrependMoves<T, E>(list: seq<T>, x: T, rest: Result<seq<T>, E>)
    ensures Prepend(list, Prepend([x], rest)) == Prepend(list + [x], rest)
    ensures Prepend([], rest) == rest
  {
    if rest.Ok? {
      assert list + ([x] + rest.value) == list + [x] + rest.value;
      assert [] + rest.value == rest.value;
    }
  }

  method Extract(r: Reader, text: string, direction: Direction, includeRequests: bool, today: Date)
    returns (found: Result<seq<Commitment>, DateOverflow>)
    ensures found == ExtractSpec(r, text, direction, includeRequests, today)
  {
    var list: seq<Commitment> := [];
    var seen: set<string> := {};
    var sentences := r.sentences(text);
    ghost var whole := ExtractSpec(r, text, direction, includeRequests, today);
    assert sentences[0..] == sentences;
    PrependMoves([], Commitment("", direction, None, None), whole);
    for i := 0 to |sentences|
      invariant whole ==
        Prepend(list, CommitAll(r, Pick(r, sentences[i..], includeRequests, seen), direction, includeRequests, today))
    {
      var s := sentences[i];
      assert sentences[i..][1..] == sentences[i + 1..];
      if Kept(r, s, includeRequests) && Lower(s) !in seen {
        ghost var later := Pick(r, sentences[i + 1..], includeRequests, seen + {Lower(s)});
        assert ([s] + later)[1..] == later;
        seen := seen + {Lower(s)};
        var due := ParseDue(r.phrases(s), today);
        if due.Err? {
          return Err(due.error);
        }
        var commitment := Commit(r, s, direction, includeRequests, due.value);
        PrependMoves(list, commitment, CommitAll(r, later, direction, includeRequests, today));
        list := list + [commitment];
      }
    }
    assert list + [] == list;
    return Ok(list);
  }

  /** Who owes what, without the dates. */
  function Promises(cs: seq<Commitment>): seq<(string, Direction)> {
    if cs == [] then [] else [(cs[0].text, cs[0].direction)] + Promises(cs[1..])
  }

  lemma {:induction false} CommitAllIgnoresClock(
    r: Reader, ss: seq<string>, direction: Direction, includeRequests: bool, d1: Date, d2: Date)
    ensures
      var a := CommitAll(r, ss, direction, includeRequests, d1);
      var b := CommitAll(r, ss, direction, includeRequests, d2);
      a.Ok? && b.Ok? ==> Promises(a.value) == Promises(b.value)
  {
    if ss != [] {
      CommitAllIgnoresClock(r, ss[1..], direction, includeRequests, d1, d2);
      var a := CommitAll(r, ss[1..], direction, includeRequests, d1);
      var b := CommitAll(r, ss[1..], direction, includeRequests, d2);
      if a.Ok? && b.Ok? && ParseDue(r.phrases(ss[0]), d1).Ok? && ParseDue(r.phrases(ss[0]), d2).Ok? {
        var x := Commit(r, ss[0], direction, includeRequests, ParseDue(r.phrases(ss[0]), d1).value);
        var y := Commit(r, ss[0], direction, includeRequests, ParseDue(r.phrases(ss[0]), d2).value);
        assert ([x] + a.value)[1..] == a.value && ([y] + b.value)[1..] == b.value;
      }
    }
  }

  /** Reading the same text on another day finds the same promises. */
  lemma ExtractionIgnoresClock(
    r: Reader, text: string, direction: Direction, includeRequests: bool, d1: Date, d2: Date)
    ensures
      var a := ExtractSpec(r, text, direction, includeRequests, d1);
      var b := ExtractSpec(r, text, direction, includeRequests, d2);
      a.Ok? && b.Ok? ==> Promises(a.value) == Promises(b.value)
  {
    CommitAllIgnoresClock(r, Pick(r, r.sentences(text), includeRequests, {}), direction, includeRequests, d1, d2);
  }

  /** Every recorded sentence is a promise or request of the text, and recorded once. */
  lemma {:induction false} PicksEachSentenceOnce(r: Reader, ss: seq<string>, includeRequests: bool, seen: set<string>)
    ensures var picked := Pick(r, ss, includeRequests, seen);
      && (forall s :: s in picked ==> s in ss && Kept(r, s, includeRequests) && Lower(s) !in seen)
      && (forall i, j :: 0 <= i < j < |picked| ==> Lower(picked[i]) != Lower(picked[j]))
  {
    if ss != [] {
      PicksEachSentenceOnce(r, ss[1..], includeRequests, seen);
      PicksEachSentenceOnce(r, ss[1..], includeRequests, seen + {Lower(ss[0])});
      var later := Pick(r, ss[1..], includeRequests, seen + {Lower(ss[0])});
      assert forall i :: 0 <= i < |later| ==> later[i] in later;
    }
  }

  /** And no such sentence of the text is left out, up to letter case. */
  lemma {:induction false} PicksEverySentence(
      r: Reader, ss: seq<string>, includeRequests: bool, seen: set<string>, s: string)
    requires s in ss && Kept(r, s, includeRequests) && Lower(s) !in seen
    ensures exists t :: t in Pick(r, ss, includeRequests, seen) && Lower(t) == Lower(s)
  {
    if Lower(s) == Lower(ss[0]) && Kept(r, ss[0], includeRequests) {
      assert ss[0] in Pick(r, ss, includeRequests, seen);
    } else {
      assert s in ss[1..];
      if Kept(r, ss[0], includeRequests) && Lower(ss[0]) !in seen {
        PicksEverySentence(r, ss[1..], includeRequests, seen + {Lower(ss[0])}, s);
      } else {
        PicksEverySentence(r, ss[1..], includeRequests, seen, s);
      }
    }
  }
}
