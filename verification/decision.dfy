/** The entry rule: two closing prices and the day of the month decide whether
    the week-one VIX/vStoxx spread trade is entered. */
module Decision {

  /** vStoxx − VIX spread above which entry is suppressed (the EU crisis filter). */
  const EuCrisisThreshold: real := 10.0

  /** Days 1 through WeekOneMaxDay of a month form "week one". */
  const WeekOneMaxDay: int := 7

  /** A calendar day of the month, as a date object carries it. */
  type DayOfMonth = d: int | 1 <= d <= 31 witness 1

  /** The result dictionary of the entry rule. */
  datatype Verdict = Verdict(spread: real, euCrisis: bool, weekOne: bool, enter: bool)

  /** The relations between the flags that every evaluated verdict keeps. */
  predicate Consistent(v: Verdict) {
    && (v.euCrisis <==> v.spread > EuCrisisThreshold)
    && (v.enter <==> v.weekOne && !v.euCrisis)
  }

  /** True when `day` lies in the first seven-day block of the month. */
  function IsWeekOne(day: DayOfMonth): (b: bool)
    ensures b <==> (day - 1) / 7 == 0
  {
    day <= WeekOneMaxDay
  }

  /** Evaluates the entry conditions for one run. */
  function Evaluate(vix: real, vstoxx: real, day: DayOfMonth): (v: Verdict)
    ensures Consistent(v)
    ensures vix + v.spread == vstoxx
    ensures v.weekOne <==> (day - 1) / 7 == 0
    ensures v.enter <==> day <= WeekOneMaxDay && vstoxx <= vix + EuCrisisThreshold
  {
    var spread := vstoxx - vix;
    var euCrisis := spread > EuCrisisThreshold;
    var weekOne := IsWeekOne(day);
    Verdict(spread, euCrisis, weekOne, weekOne && !euCrisis)
  }

  /** The crisis filter is a strict inequality: a spread of exactly the
      threshold is not a crisis, anything above it is. */
  lemma CrisisBoundary(vix: real, day: DayOfMonth)
    ensures !Evaluate(vix, vix + 10.0, day).euCrisis
    ensures Evaluate(vix, vix + 10.0001, day).euCrisis
  {
  }

  /** Day 7 is the last day of week one, day 8 the first day after it. */
  lemma WeekOneBoundary()
    ensures IsWeekOne(7)
    ensures !IsWeekOne(8)
    ensures forall d: DayOfMonth :: IsWeekOne(d) ==> d <= 7
  {
  }

  /** Lowering the vStoxx close never turns an entry into a non-entry. */
  lemma EnterMonotone(vix: real, vstoxx: real, lower: real, day: DayOfMonth)
    requires lower <= vstoxx
    requires Evaluate(vix, vstoxx, day).enter
    ensures Evaluate(vix, lower, day).enter
    ensures Evaluate(vix, lower, day).spread <= Evaluate(vix, vstoxx, day).spread
  {
  }

  /** Three worked cases: enter, skip for crisis, no signal. */
  lemma Scenarios()
    ensures Evaluate(15.0, 18.0, 3) == Verdict(3.0, false, true, true)
    ensures Evaluate(15.0, 27.0, 3) == Verdict(12.0, true, true, false)
    ensures Evaluate(15.0, 18.0, 15) == Verdict(3.0, false, false, false)
    ensures !Evaluate(15.0, 27.0, 15).enter
  {
  }
}
