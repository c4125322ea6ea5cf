// ISO-8601 text as `isoformat()` renders it, and why comparing it as text is
// comparing it as time.
module IsoTime {
  import opened Prelude
  import opened Text
  import opened Calendar

  /** Byte-wise string order. */
  predicate LexLess(a: string, b: string) {
    if b == "" then false
    else if a == "" then true
    else a[0] < b[0] || (a[0] == b[0] && LexLess(a[1..], b[1..]))
  }

  lemma {:induction false} LexLessIrreflexive(a: string)
    ensures !LexLess(a, a)
  {
    if a != "" {
      LexLessIrreflexive(a[1..]);
    }
  }

  /** Equal-length heads decide first, tails break the tie. */
  lemma {:induction false} LexLessSplit(a: string, b: string, u: string, v: string)
    requires |a| == |b|
    ensures LexLess(a + u, b + v) <==> LexLess(a, b) || (a == b && LexLess(u, v))
  {
    if a == "" {
      assert a + u == u && b + v == v;
    } else {
      assert (a + u)[1..] == a[1..] + u;
      assert (b + v)[1..] == b[1..] + v;
      LexLessSplit(a[1..], b[1..], u, v);
      assert a == [a[0]] + a[1..] && b == [b[0]] + b[1..];
    }
  }

  // -- decimals ---------------------------------------------------------------------

  function Pow10(w: nat): nat { if w == 0 then 1 else 10 * Pow10(w - 1) }

  function DigitChar(n: nat): (c: char)
    requires n < 10
    ensures IsDigit(c)
  {
    ('0' as int + n) as char
  }

  /** The last `w` decimal digits of `n`. */
  function Pad(n: nat, w: nat): (s: string)
    ensures |s| == w && forall i :: 0 <= i < w ==> IsDigit(s[i])
  {
    if w == 0 then "" else Pad(n / 10, w - 1) + [DigitChar(n % 10)]
  }

  function DigitValue(c: char): nat
    requires IsDigit(c)
  {
    c as int - '0' as int
  }

  function ReadDecimal(s: string): nat
    requires forall i :: 0 <= i < |s| ==> IsDigit(s[i])
  {
    if s == "" then 0 else ReadDecimal(s[..|s| - 1]) * 10 + DigitValue(s[|s| - 1])
  }

  lemma {:induction false} PadOrder(a: nat, b: nat, w: nat)
    requires a < Pow10(w) && b < Pow10(w)
    ensures LexLess(Pad(a, w), Pad(b, w)) <==> a < b
    ensures Pad(a, w) == Pad(b, w) <==> a == b
  {
    if w > 0 {
      PadOrder(a / 10, b / 10, w - 1);
      var x, y := [DigitChar(a % 10)], [DigitChar(b % 10)];
      LexLessSplit(Pad(a / 10, w - 1), Pad(b / 10, w - 1), x, y);
      assert LexLess(x, y) <==> a % 10 < b % 10;
      assert Pad(a, w) == Pad(b, w) ==>
        Pad(a, w)[..w - 1] == Pad(b, w)[..w - 1] && Pad(a, w)[w - 1] == Pad(b, w)[w - 1];
      assert Pad(a, w)[..w - 1] == Pad(a / 10, w - 1);
      assert Pad(b, w)[..w - 1] == Pad(b / 10, w - 1);
    }
  }

  lemma {:induction false} ReadPad(n: nat, w: nat)
    requires n < Pow10(w)
    ensures ReadDecimal(Pad(n, w)) == n
  {
    if w > 0 {
      ReadPad(n / 10, w - 1);
      assert Pad(n, w)[..w - 1] == Pad(n / 10, w - 1);
    }
  }

  // -- dates ------------------------------------------------------------------------

  function IsoDate(d: Date): (s: string)
    requires Valid(d)
    ensures |s| == 10
  {
    Pad(d.year, 4) + ("-" + (Pad(d.month, 2) + ("-" + Pad(d.day, 2))))
  }

  /** `date.fromisoformat` on the YYYY-MM-DD form. */
  function ParseIsoDate(s: string): (r: Option<Date>)
    ensures r.Some? ==> Valid(r.value)
  {
    if |s| == 10 && s[4] == '-' && s[7] == '-'
       && forall i :: 0 <= i < 10 && i != 4 && i != 7 ==> IsDigit(s[i])
    then MakeDate(ReadDecimal(s[0..4]), ReadDecimal(s[5..7]), ReadDecimal(s[8..10]))
    else None
  }

  /** ISO dates read back, and their text order is the calendar order. */
  lemma IsoDateRoundTrip(d: Date)
    requires Valid(d)
    ensures ParseIsoDate(IsoDate(d)) == Some(d)
  {
    var s := IsoDate(d);
    assert Pow10(2) == 100 && Pow10(4) == 10000;
    assert s[0..4] == Pad(d.year, 4) && s[5..7] == Pad(d.month, 2) && s[8..10] == Pad(d.day, 2);
    ReadPad(d.year, 4);
    ReadPad(d.month, 2);
    ReadPad(d.day, 2);
  }

  lemma IsoDateOrder(a: Date, b: Date)
    requires Valid(a) && Valid(b)
    ensures LexLess(IsoDate(a), IsoDate(b)) <==> Ordinal(a) < Ordinal(b)
    ensures IsoDate(a) == IsoDate(b) <==> a == b
  {
    assert Pow10(2) == 100 && Pow10(4) == 10000;
    PadOrder(a.year, b.year, 4);
    PadOrder(a.month, b.month, 2);
    PadOrder(a.day, b.day, 2);
    var ad, bd := "-" + Pad(a.day, 2), "-" + Pad(b.day, 2);
    var am, bm := "-" + (Pad(a.month, 2) + ad), "-" + (Pad(b.month, 2) + bd);
    LexLessSplit("-", "-", Pad(a.day, 2), Pad(b.day, 2));
    LexLessSplit(Pad(a.month, 2), Pad(b.month, 2), ad, bd);
    LexLessSplit("-", "-", Pad(a.month, 2) + ad, Pad(b.month, 2) + bd);
    LexLessSplit(Pad(a.year, 4), Pad(b.year, 4), am, bm);
    LexLessIrreflexive("-");
    OrdinalIsCalendarOrder(a, b);
    IsoDateRoundTrip(a);
    IsoDateRoundTrip(b);
  }

  // -- instants ---------------------------------------------------------------------

  datatype Instant = Instant(date: Date, hour: int, minute: int, second: int, micro: int)

  predicate ValidInstant(t: Instant) {
    Valid(t.date) && 0 <= t.hour < 24 && 0 <= t.minute < 60 && 0 <= t.second < 60 && 0 <= t.micro < 1_000_000
  }

  /** Microseconds since the calendar's origin. */
  function Micros(t: Instant): int {
    (((Ordinal(t.date) * 24 + t.hour) * 60 + t.minute) * 60 + t.second) * 1_000_000 + t.micro
  }

  /** Microseconds are omitted when zero; the offset is always that of UTC. */
  function Fraction(micro: nat): string {
    (if micro == 0 then "" else "." + Pad(micro, 6)) + "+00:00"
  }

  function Clock(t: Instant): string
    requires ValidInstant(t)
  {
    "T" + (Pad(t.hour, 2) + (":" + (Pad(t.minute, 2) + (":" + (Pad(t.second, 2) + Fraction(t.micro))))))
  }

  function IsoInstant(t: Instant): string
    requires ValidInstant(t)
  {
    IsoDate(t.date) + Clock(t)
  }

  lemma FractionOrder(a: nat, b: nat)
    requires a < 1_000_000 && b < 1_000_000
    ensures LexLess(Fraction(a), Fraction(b)) <==> a < b
  {
    assert Pow10(2) == 100 && Pow10(4) == 10000 && Pow10(6) == 1_000_000;
    var z := "+00:00";
    LexLessIrreflexive(z);
    assert "" + z == z;
    if a > 0 && b > 0 {
      PadOrder(a, b, 6);
      LexLessSplit("." + Pad(a, 6), "." + Pad(b, 6), z, z);
      LexLessSplit(".", ".", Pad(a, 6), Pad(b, 6));
      LexLessIrreflexive(".");
    } else if a > 0 {
      assert Fraction(a)[0] == '.' && Fraction(b)[0] == '+';
    } else if b > 0 {
      assert Fraction(a)[0] == '+' && Fraction(b)[0] == '.';
    }
  }

  lemma TwoDigitField(a: nat, b: nat, u: string, v: string, mark: string)
    requires a < 100 && b < 100 && |mark| == 1
    ensures LexLess(mark + (Pad(a, 2) + u), mark + (Pad(b, 2) + v)) <==> a < b || (a == b && LexLess(u, v))
  {
    assert Pow10(2) == 100;
    LexLessIrreflexive(mark);
    LexLessSplit(mark, mark, Pad(a, 2) + u, Pad(b, 2) + v);
    LexLessSplit(Pad(a, 2), Pad(b, 2), u, v);
    PadOrder(a, b, 2);
  }

  lemma ClockOrder(a: Instant, b: Instant)
    requires ValidInstant(a) && ValidInstant(b)
    ensures LexLess(Clock(a), Clock(b)) <==>
      a.hour < b.hour || (a.hour == b.hour && (a.minute < b.minute || (a.minute == b.minute &&
        (a.second < b.second || (a.second == b.second && a.micro < b.micro)))))
  {
    var s, s' := Fraction(a.micro), Fraction(b.micro);
    var m, m' := ":" + (Pad(a.second, 2) + s), ":" + (Pad(b.second, 2) + s');
    var h, h' := ":" + (Pad(a.minute, 2) + m), ":" + (Pad(b.minute, 2) + m');
    FractionOrder(a.micro, b.micro);
    TwoDigitField(a.second, b.second, s, s', ":");
    TwoDigitField(a.minute, b.minute, m, m', ":");
    TwoDigitField(a.hour, b.hour, h, h', "T");
  }

  /** Text order is time order, microseconds shown or not. */
  lemma StringOrderIsTimeOrder(a: Instant, b: Instant)
    requires ValidInstant(a) && ValidInstant(b)
    ensures LexLess(IsoInstant(a), IsoInstant(b)) <==> Micros(a) < Micros(b)
  {
    LexLessSplit(IsoDate(a.date), IsoDate(b.date), Clock(a), Clock(b));
    IsoDateOrder(a.date, b.date);
    ClockOrder(a, b);
    OrdinalIsCalendarOrder(a.date, b.date);
  }
}
