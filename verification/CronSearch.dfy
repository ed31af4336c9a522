/**
 `_cron_next_run`: the day-skipping search for a schedule's next minute, against
 a plain minute-by-minute scan of the same window. Moments are wall-clock
 minutes counted from a fixed midnight; the five matched field sets are inputs,
 and so is the calendar, as three functions of the day number.
 */
module CronSearch {
  import opened Prelude

  const MINUTES_PER_DAY := 1440
  const HORIZON_DAYS := 366

  datatype Fields = Fields(minutes: set<int>, hours: set<int>, doms: set<int>, months: set<int>, dows: set<int>)

  /** Month, day of month and cron weekday (Sunday is 0) of each day. */
  datatype Calendar = Calendar(month: int -> int, dom: int -> int, dow: int -> int)

  function Day(t: nat): nat { t / MINUTES_PER_DAY }
  function Hour(t: nat): nat { t % MINUTES_PER_DAY / 60 }
  function Minute(t: nat): nat { t % MINUTES_PER_DAY % 60 }

  predicate DateMatches(f: Fields, c: Calendar, day: nat) {
    c.month(day) in f.months && c.dom(day) in f.doms && c.dow(day) in f.dows
  }

  predicate TimeMatches(f: Fields, t: nat) {
    Hour(t) in f.hours && Minute(t) in f.minutes
  }

  predicate Fires(f: Fields, c: Calendar, t: nat) {
    DateMatches(f, c, Day(t)) && TimeMatches(f, t)
  }

  /** The rule of `_cron_next_run`. */
  function Rule(f: Fields, c: Calendar): nat -> bool { (t: nat) => Fires(f, c, t) }

  predicate SomeFieldEmpty(f: Fields) {
    f.minutes == {} || f.hours == {} || f.doms == {} || f.months == {} || f.dows == {}
  }

  /** The first minute of a closed window that a rule fires, minute by minute. */
  function FirstMinute(fires: nat -> bool, t: nat, last: nat): (r: Option<nat>)
    ensures r.Some? ==> t <= r.value <= last && fires(r.value) && forall u | t <= u < r.value :: !fires(u)
    ensures r.None? ==> forall u | t <= u <= last :: !fires(u)
    decreases last - t
  {
    if t > last then None
    else if fires(t) then Some(t)
    else FirstMinute(fires, t + 1, last)
  }

  /** Midnight of the following day. */
  function NextMidnight(t: nat): (m: nat)
    ensures t < m <= t + MINUTES_PER_DAY
    ensures forall u: nat | t <= u < m :: Day(u) == Day(t)
    ensures Day(m) == Day(t) + 1 && Hour(m) == 0 && Minute(m) == 0
  {
    DayBounds(t);
    (Day(t) + 1) * MINUTES_PER_DAY
  }

  lemma DayBounds(t: nat)
    ensures forall u: nat | t <= u < (Day(t) + 1) * MINUTES_PER_DAY :: Day(u) == Day(t)
  {
  }

  /** Skipping minutes that do not fire does not change the scan. */
  lemma SkipQuietMinutes(fires: nat -> bool, t: nat, m: nat, last: nat)
    requires t <= m
    requires forall u | t <= u < m :: !fires(u)
    ensures FirstMinute(fires, t, last) == FirstMinute(fires, m, last)
  {
  }

  lemma FirstIs(fires: nat -> bool, t: nat, x: nat, last: nat)
    requires t <= x <= last && fires(x) && forall u | t <= u < x :: !fires(u)
    ensures FirstMinute(fires, t, last) == Some(x)
  {
  }

  lemma WindowOver(fires: nat -> bool, t: nat, last: nat)
    requires t > last
    ensures FirstMinute(fires, t, last) == None
  {
  }

  /** The end of the inclusive window a search from `now` covers. */
  function Horizon(now: nat): nat { now + 1 + HORIZON_DAYS * MINUTES_PER_DAY }

  /** The rule in terms of a day, an hour and a minute. */
  lemma FiresMeans(f: Fields, c: Calendar, day: nat, hour: nat, minute: nat)
    requires hour < 24 && minute < 60
    ensures Rule(f, c)(day * 1440 + hour * 60 + minute) <==>
            (minute in f.minutes && hour in f.hours &&
             c.dom(day) in f.doms && c.month(day) in f.months && c.dow(day) in f.dows)
  {
    ClockMeans(day, hour, minute);
    RuleMeans(f, c, day * 1440 + hour * 60 + minute);
    hide Rule, Day, Hour, Minute;
  }

  lemma ClockMeans(day: nat, hour: nat, minute: nat)
    requires hour < 24 && minute < 60
    ensures var t := day * 1440 + hour * 60 + minute; Day(t) == day && Hour(t) == hour && Minute(t) == minute
  {
    var t := day * 1440 + hour * 60 + minute;
    assert t / 1440 == day && t % 1440 == hour * 60 + minute;
  }

  /** The window is the 366 days after the next minute, its end included. */
  lemma HorizonMeans(now: nat)
    ensures Horizon(now) == now + 1 + 366 * 24 * 60
  {
  }

  lemma NoFieldNoFire(f: Fields, c: Calendar, t: nat)
    requires SomeFieldEmpty(f)
    ensures !Rule(f, c)(t)
  {
  }

  lemma RuleMeans(f: Fields, c: Calendar, t: nat)
    ensures Rule(f, c)(t) <==>
            (c.month(Day(t)) in f.months && c.dom(Day(t)) in f.doms && c.dow(Day(t)) in f.dows
             && Hour(t) in f.hours && Minute(t) in f.minutes)
  {
  }

  /** On a day whose date does not match, nothing fires before midnight. */
  lemma QuietDay(f: Fields, c: Calendar, t: nat)
    requires !DateMatches(f, c, Day(t))
    ensures forall u: nat | t <= u < NextMidnight(t) :: !Rule(f, c)(u)
  {
  }

  /** `_cron_next_run` from the current minute: the same answer as the scan of
      the inclusive 366-day window, and None exactly when no minute fires. */
  method CronNextRun(f: Fields, c: Calendar, now: nat) returns (next: Option<nat>)
    ensures next == FirstMinute(Rule(f, c), now + 1, Horizon(now))
  {
    var start := now + 1;
    var horizon := start + HORIZON_DAYS * MINUTES_PER_DAY;
    var fires := Rule(f, c);
    hide FirstMinute, Rule, Day, Hour, Minute;
    if SomeFieldEmpty(f) {
      forall t: nat { NoFieldNoFire(f, c, t); }
      SkipQuietMinutes(fires, start, horizon + 1, horizon);
      WindowOver(fires, horizon + 1, horizon);
      return None;
    }
    var candidate := start;
    while candidate <= horizon
      invariant start <= candidate
      invariant FirstMinute(fires, start, horizon) == FirstMinute(fires, candidate, horizon)
      decreases horizon - candidate
    {
      RuleMeans(f, c, candidate);
      if c.month(Day(candidate)) in f.months && c.dom(Day(candidate)) in f.doms && c.dow(Day(candidate)) in f.dows {
        if Hour(candidate) in f.hours && Minute(candidate) in f.minutes {
          FirstIs(fires, candidate, candidate, horizon);
          return Some(candidate);
        }
        SkipQuietMinutes(fires, candidate, candidate + 1, horizon);
        candidate := candidate + 1;
      } else {
        QuietDay(f, c, candidate);
        var midnight := NextMidnight(candidate);
        SkipQuietMinutes(fires, candidate, midnight, horizon);
        candidate := midnight;
      }
    }
    WindowOver(fires, candidate, horizon);
    return None;
  }

  // ---------------------------------------------------------------------
  // Against the rule of POSIX
  // ---------------------------------------------------------------------

  /** Which of the two day fields are restricted. */
  datatype DayRule = DayRule(domRestricted: bool, dowRestricted: bool)

  /** The INPUT FILES rule of the crontab utility in POSIX.1-2017: when both day
      fields are restricted, either one is enough. */
  predicate PosixDay(rule: DayRule, f: Fields, dom: int, dow: int) {
    if rule.domRestricted && rule.dowRestricted then dom in f.doms || dow in f.dows
    else (rule.domRestricted ==> dom in f.doms) && (rule.dowRestricted ==> dow in f.dows)
  }

  function PosixRule(rule: DayRule, f: Fields, c: Calendar): nat -> bool {
    (t: nat) => c.month(Day(t)) in f.months && PosixDay(rule, f, c.dom(Day(t)), c.dow(Day(t))) && TimeMatches(f, t)
  }

  /** An unrestricted day field matches every day. */
  ghost predicate StarsMatchAll(rule: DayRule, f: Fields, c: Calendar) {
    forall day: nat :: (rule.domRestricted || c.dom(day) in f.doms) && (rule.dowRestricted || c.dow(day) in f.dows)
  }

  lemma RulesNested(rule: DayRule, f: Fields, c: Calendar, t: nat)
    requires StarsMatchAll(rule, f, c)
    ensures Rule(f, c)(t) <==>
            PosixRule(rule, f, c)(t) && c.dom(Day(t)) in f.doms && c.dow(Day(t)) in f.dows
    ensures !(rule.domRestricted && rule.dowRestricted) ==> (Rule(f, c)(t) <==> PosixRule(rule, f, c)(t))
  {
  }

  /** The search answers as POSIX would if and only if the first POSIX minute, if there
      is one, falls on a day that matches both fields. */
  lemma AgreesWithPosixIff(rule: DayRule, f: Fields, c: Calendar, now: nat)
    requires StarsMatchAll(rule, f, c)
    ensures var posix := FirstMinute(PosixRule(rule, f, c), now + 1, Horizon(now));
            FirstMinute(Rule(f, c), now + 1, Horizon(now)) == posix <==>
            (posix.Some? ==> c.dom(Day(posix.value)) in f.doms && c.dow(Day(posix.value)) in f.dows)
  {
    forall t ensures Rule(f, c)(t) <==>
                     PosixRule(rule, f, c)(t) && c.dom(Day(t)) in f.doms && c.dow(Day(t)) in f.dows
    {
      RulesNested(rule, f, c, t);
    }
    hide Rule, PosixRule, FirstMinute;
  }

  /** Unless both day fields are restricted it always does. */
  lemma OneDayFieldAgrees(rule: DayRule, f: Fields, c: Calendar, now: nat)
    requires StarsMatchAll(rule, f, c) && !(rule.domRestricted && rule.dowRestricted)
    ensures FirstMinute(Rule(f, c), now + 1, Horizon(now)) == FirstMinute(PosixRule(rule, f, c), now + 1, Horizon(now))
  {
    AgreesWithPosixIff(rule, f, c, now);
    var posix := FirstMinute(PosixRule(rule, f, c), now + 1, Horizon(now));
    if posix.Some? { RulesNested(rule, f, c, posix.value); }
  }

  /** `0 0 13 * 5`. */
  const THIRTEENTH_OR_FRIDAY := Fields({0}, {0}, {13}, {1, 2, 3, 4, 5, 6, 7, 8, 9, 10, 11, 12}, {5})

  /** A January that begins on a Sunday, day 0; later days do not matter here. */
  const JANUARY := Calendar(day => 1, day => day + 1, day => day % 7)

  /** When the two rules fire in that January. */
  lemma FiringsInJanuary(t: nat)
    ensures Rule(THIRTEENTH_OR_FRIDAY, JANUARY)(t) <==>
            Day(t) == 12 && Day(t) % 7 == 5 && Hour(t) == 0 && Minute(t) == 0
    ensures PosixRule(DayRule(true, true), THIRTEENTH_OR_FRIDAY, JANUARY)(t) <==>
            (Day(t) == 12 || Day(t) % 7 == 5) && Hour(t) == 0 && Minute(t) == 0
  {
  }

  lemma Midnight(day: nat)
    ensures var t := day * MINUTES_PER_DAY;
            Day(t) == day && Hour(t) == 0 && Minute(t) == 0 && forall u: nat | u < t :: Day(u) < day
  {
  }

  /** From the first midnight of that January, POSIX fires on Friday the 6th and the
      search only on Friday the 13th. */
  lemma FridayTheThirteenth()
    ensures FirstMinute(PosixRule(DayRule(true, true), THIRTEENTH_OR_FRIDAY, JANUARY), 1, Horizon(0)) ==
            Some(5 * MINUTES_PER_DAY)
    ensures FirstMinute(Rule(THIRTEENTH_OR_FRIDAY, JANUARY), 1, Horizon(0)) == Some(12 * MINUTES_PER_DAY)
  {
    var posix := PosixRule(DayRule(true, true), THIRTEENTH_OR_FRIDAY, JANUARY);
    var rule := Rule(THIRTEENTH_OR_FRIDAY, JANUARY);
    forall t: nat {
      FiringsInJanuary(t);
    }
    Midnight(5);
    Midnight(12);
    hide Rule, PosixRule, FirstMinute, Day, Hour, Minute;
    FirstIs(posix, 1, 5 * MINUTES_PER_DAY, Horizon(0));
    FirstIs(rule, 1, 12 * MINUTES_PER_DAY, Horizon(0));
  }
}
