/** Compact relative time: a cascade of roundings from seconds up to years. */
module RelativeTime {
  datatype Unit = Moment | Minutes | Hours | Days | Weeks | Months | Years

  /** `Math.round(a / b)` for non-negative `a`: the nearest integer, halves up. */
  function Round(a: nat, b: nat): nat
    requires b > 0
  {
    (2 * a + b) / (2 * b)
  }

  /** The unit and count shown for an elapsed time in milliseconds, past or future alike. */
  function Relative(ms: nat): (Unit, nat) {
    var s := Round(ms, 1000);
    if s < 45 then (Moment, 0)
    else
      var m := Round(s, 60);
      if m < 60 then (Minutes, m)
      else
        var h := Round(m, 60);
        if h < 24 then (Hours, h)
        else
          var d := Round(h, 24);
          if d < 7 then (Days, d)
          else
            var w: int := Round(d, 7);
            if w < 5 then (Weeks, w)
            else
              var mo: int := Round(d, 30);
              if mo < 12 then (Months, mo) else (Years, Round(d, 365))
  }

  const SECOND := 1000
  const MINUTE := 60 * SECOND
  const HOUR := 60 * MINUTE
  const DAY := 24 * HOUR

  function Millis(u: Unit): nat {
    match u
    case Moment => 0
    case Minutes => MINUTE
    case Hours => HOUR
    case Days => DAY
    case Weeks => 7 * DAY
    case Months => 30 * DAY
    case Years => 365 * DAY
  }

  function Rank(u: Unit): nat {
    match u
    case Moment => 0
    case Minutes => 1
    case Hours => 2
    case Days => 3
    case Weeks => 4
    case Months => 5
    case Years => 6
  }

  /** The largest count each unit is shown with; years go on. */
  function Most(u: Unit): nat {
    match u
    case Moment => 0
    case Minutes => 59
    case Hours => 23
    case Days => 6
    case Weeks => 4
    case Months => 11
    case Years => 0
  }

  /** Twice the most the cascade up to this unit can be off: the units rounded on the way. */
  function TwiceError(u: Unit): nat {
    match u
    case Moment => 2 * 45 * SECOND
    case Minutes => SECOND + MINUTE
    case Hours => SECOND + MINUTE + HOUR
    case Days => SECOND + MINUTE + HOUR + DAY
    case Weeks => SECOND + MINUTE + HOUR + DAY + 7 * DAY
    case Months => SECOND + MINUTE + HOUR + DAY + 30 * DAY
    case Years => SECOND + MINUTE + HOUR + DAY + 365 * DAY
  }

  /** Rounding is off by at most half a unit, the half itself going up. */
  lemma RoundError(a: nat, b: nat)
    requires b > 0
    ensures 2 * b * Round(a, b) <= 2 * a + b < 2 * b * Round(a, b) + 2 * b
  {
    var x, y := 2 * a + b, 2 * b;
    assert x == y * (x / y) + x % y;
  }

  lemma MulMonotone(k: nat, x: int, y: int)
    requires x <= y
    ensures k * x <= k * y
  {
    assert k * y == k * x + k * (y - x);
  }

  lemma RoundMonotone(a: nat, a': nat, b: nat)
    requires b > 0 && a <= a'
    ensures Round(a, b) <= Round(a', b)
  {
    RoundError(a, b);
    RoundError(a', b);
    var r, r' := Round(a, b), Round(a', b);
    if r > r' { MulMonotone(2 * b, r' + 1, r); }
  }

  /** The roundings of the cascade, each within half of its unit. */
  lemma Cascade(ms: nat) returns (s: nat, m: nat, h: nat, d: nat)
    ensures s == Round(ms, 1000) && m == Round(s, 60) && h == Round(m, 60) && d == Round(h, 24)
    ensures 2000 * s <= 2 * ms + 1000 < 2000 * s + 2000
    ensures 120 * m <= 2 * s + 60 < 120 * m + 120
    ensures 120 * h <= 2 * m + 60 < 120 * h + 120
    ensures 48 * d <= 2 * h + 24 < 48 * d + 48
    ensures 14 * Round(d, 7) <= 2 * d + 7 < 14 * Round(d, 7) + 14
    ensures 60 * Round(d, 30) <= 2 * d + 30 < 60 * Round(d, 30) + 60
    ensures 730 * Round(d, 365) <= 2 * d + 365 < 730 * Round(d, 365) + 730
  {
    s := Round(ms, 1000);
    m := Round(s, 60);
    h := Round(m, 60);
    d := Round(h, 24);
    RoundError(ms, 1000);
    RoundError(s, 60);
    RoundError(m, 60);
    RoundError(h, 24);
    RoundError(d, 7);
    RoundError(d, 30);
    RoundError(d, 365);
  }

  /** No unit is ever shown with a count of zero, or with more than its range. */
  lemma CountsAreInRange(ms: nat)
    ensures var (u, n) := Relative(ms);
            if u.Moment? then n == 0 else n >= 1 && (u.Years? || n <= Most(u))
  {
    var s, m, h, d := Cascade(ms);
    hide Round;
  }

  /** A longer time never shows a smaller unit, nor a smaller count of the same unit. */
  lemma Monotone(a: nat, b: nat)
    requires a <= b
    ensures var (u, n) := Relative(a); var (v, k) := Relative(b);
            Rank(u) < Rank(v) || (u == v && n <= k)
  {
    hide Round;
    var s, s' := Round(a, 1000), Round(b, 1000);
    var m, m' := Round(s, 60), Round(s', 60);
    var h, h' := Round(m, 60), Round(m', 60);
    var d, d' := Round(h, 24), Round(h', 24);
    RoundMonotone(a, b, 1000);
    RoundMonotone(s, s', 60);
    RoundMonotone(m, m', 60);
    RoundMonotone(h, h', 24);
    RoundMonotone(d, d', 7);
    RoundMonotone(d, d', 30);
    RoundMonotone(d, d', 365);
  }

  /** The elapsed times at which the unit changes, in milliseconds, half a second before the round value. */
  lemma UnitsChangeExactlyAt(ms: nat)
    ensures var (u, _) := Relative(ms);
            && (u.Moment? <==> ms < 45 * SECOND - 500)
            && (Rank(u) <= Rank(Minutes) <==> ms < HOUR - MINUTE / 2 - 500)
            && (Rank(u) <= Rank(Hours) <==> ms < DAY - HOUR / 2 - MINUTE / 2 - 500)
            && (Rank(u) <= Rank(Days) <==> ms < 7 * DAY - DAY / 2 - HOUR / 2 - MINUTE / 2 - 500)
            && (Rank(u) <= Rank(Weeks) <==> ms < 32 * DAY - DAY / 2 - HOUR / 2 - MINUTE / 2 - 500)
            && (Rank(u) <= Rank(Months) <==> ms < 345 * DAY - DAY / 2 - HOUR / 2 - MINUTE / 2 - 500)
  {
    var s, m, h, d := Cascade(ms);
    hide Round;
  }

  /** The least time shown as `n` of a unit, were the unit always shown. */
  function Least(u: Unit, n: nat): int {
    match u
    case Moment => 0
    case Minutes => n * MINUTE - MINUTE / 2 - 500
    case Hours => n * HOUR - HOUR / 2 - MINUTE / 2 - 500
    case Days => n * DAY - DAY / 2 - HOUR / 2 - MINUTE / 2 - 500
    case Weeks => (7 * n - 3) * DAY - DAY / 2 - HOUR / 2 - MINUTE / 2 - 500
    case Months => (30 * n - 15) * DAY - DAY / 2 - HOUR / 2 - MINUTE / 2 - 500
    case Years => (365 * n - 182) * DAY - DAY / 2 - HOUR / 2 - MINUTE / 2 - 500
  }

  /** The exact elapsed times at which a count is shown: halves go up all along the cascade. */
  lemma CountsChangeExactlyAt(ms: nat)
    ensures var (u, n) := Relative(ms);
            !u.Moment? ==> Least(u, n) <= ms < Least(u, n + 1)
  {
    hide Round;
    var s, m, h, d := SmallUnits(ms);
    hide Least;
    LargeUnits(d);
    assert Least(Days, d) <= ms < Least(Days, d + 1);
  }

  lemma SmallUnits(ms: nat) returns (s: nat, m: nat, h: nat, d: nat)
    ensures s == Round(ms, 1000) && m == Round(s, 60) && h == Round(m, 60) && d == Round(h, 24)
    ensures Least(Minutes, m) <= ms < Least(Minutes, m + 1)
    ensures Least(Hours, h) <= ms < Least(Hours, h + 1)
    ensures Least(Days, d) <= ms < Least(Days, d + 1)
  {
    hide Round, Least;
    s, m := Round(ms, 1000), Round(Round(ms, 1000), 60);
    h, d := Round(m, 60), Round(Round(m, 60), 24);
    MinutesAt(ms);
    HoursAt(m);
    DaysAt(h);
  }

  lemma MinutesAt(ms: nat)
    ensures var m := Round(Round(ms, 1000), 60); Least(Minutes, m) <= ms < Least(Minutes, m + 1)
  {
    hide Round;
    RoundError(ms, 1000);
    RoundError(Round(ms, 1000), 60);
  }

  lemma HoursAt(m: nat)
    ensures var h := Round(m, 60); Least(Hours, h) <= Least(Minutes, m) && Least(Minutes, m + 1) <= Least(Hours, h + 1)
  {
    hide Round;
    RoundError(m, 60);
  }

  lemma DaysAt(h: nat)
    ensures var d := Round(h, 24); Least(Days, d) <= Least(Hours, h) && Least(Hours, h + 1) <= Least(Days, d + 1)
  {
    hide Round;
    RoundError(h, 24);
  }

  /** In whole days: the least number of days that weeks, months and years start from. */
  lemma LargeUnits(d: nat)
    ensures Least(Weeks, Round(d, 7)) <= Least(Days, d) && Least(Days, d + 1) <= Least(Weeks, Round(d, 7) + 1)
    ensures Least(Months, Round(d, 30)) <= Least(Days, d) && Least(Days, d + 1) <= Least(Months, Round(d, 30) + 1)
    ensures Least(Years, Round(d, 365)) <= Least(Days, d) && Least(Days, d + 1) <= Least(Years, Round(d, 365) + 1)
  {
    hide Round, Least;
    WeeksAt(d);
    MonthsAt(d);
    YearsAt(d);
  }

  lemma WeeksAt(d: nat)
    ensures var w := Round(d, 7); Least(Weeks, w) <= Least(Days, d) && Least(Days, d + 1) <= Least(Weeks, w + 1)
  {
    hide Round;
    RoundError(d, 7);
    var w: int := Round(d, 7);
    MulMonotone(DAY, 7 * w - 3, d);
    MulMonotone(DAY, d + 1, 7 * (w + 1) - 3);
  }

  lemma MonthsAt(d: nat)
    ensures var mo := Round(d, 30); Least(Months, mo) <= Least(Days, d) && Least(Days, d + 1) <= Least(Months, mo + 1)
  {
    hide Round;
    RoundError(d, 30);
    var mo: int := Round(d, 30);
    MulMonotone(DAY, 30 * mo - 15, d);
    MulMonotone(DAY, d + 1, 30 * (mo + 1) - 15);
  }

  lemma YearsAt(d: nat)
    ensures var y := Round(d, 365); Least(Years, y) <= Least(Days, d) && Least(Days, d + 1) <= Least(Years, y + 1)
  {
    hide Round;
    RoundError(d, 365);
    var y: int := Round(d, 365);
    MulMonotone(DAY, 365 * y - 182, d);
    MulMonotone(DAY, d + 1, 365 * (y + 1) - 182);
  }

  function Abs(x: int): nat {
    if x < 0 then -x else x
  }

  /** What is shown is off by at most half of each unit rounded on the way. */
  lemma ErrorIsBounded(ms: nat)
    ensures var (u, n) := Relative(ms);
            2 * Abs(n * Millis(u) - ms) <= TwiceError(u)
  {
    var s, m, h, d := Cascade(ms);
    hide Round;
  }
}
