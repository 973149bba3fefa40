/** The decision content of the alert text: which of the three verdict blocks
    appears, and what the week-one and crisis-filter status lines say. The
    wording, emoji, markup and number rendering are presentation and are not
    part of this model. */
module Message {
  import opened Decision

  /** The closing verdict block of the alert. */
  datatype Block = EnterTrade | NoSignal | SkipEntry

  /** What the alert tells its reader: the two prices and the spread it
      displays, the two status lines and the verdict block. */
  datatype Alert = Alert(
    vix: real,
    vstoxx: real,
    spread: real,
    weekOneOpen: bool,
    crisisTriggered: bool,
    block: Block)

  /** Builds the alert from the prices and an already evaluated verdict,
      branching on the verdict's flags in the order the text template does. */
  function BuildMessage(vix: real, vstoxx: real, v: Verdict): (m: Alert)
    ensures m.vix == vix && m.vstoxx == vstoxx && m.spread == v.spread
    ensures m.weekOneOpen == v.weekOne && m.crisisTriggered == v.euCrisis
    ensures m.block == EnterTrade <==> v.enter
    ensures Consistent(v) ==> (m.block == NoSignal <==> !v.weekOne)
    ensures Consistent(v) ==> (m.block == SkipEntry <==> v.weekOne && v.euCrisis)
  {
    var block :=
      if v.enter then EnterTrade
      else if !v.weekOne then NoSignal
      else SkipEntry;
    Alert(vix, vstoxx, v.spread, v.weekOne, v.euCrisis, block)
  }

  /** Reads the verdict back off an alert: the status lines give the two
      filters and the block says whether to enter. */
  function VerdictOf(m: Alert): Verdict {
    Verdict(m.spread, m.crisisTriggered, m.weekOneOpen, m.block == EnterTrade)
  }

  /** An alert whose block agrees with its two status lines. */
  predicate WellFormed(m: Alert) {
    match m.block
    case EnterTrade => m.weekOneOpen && !m.crisisTriggered
    case NoSignal => !m.weekOneOpen
    case SkipEntry => m.weekOneOpen && m.crisisTriggered
  }

  /** The alert mirrors the verdict: a consistent verdict can be read back
      from the alert unchanged, and its alert is well formed. */
  lemma MessageMirrorsVerdict(vix: real, vstoxx: real, v: Verdict)
    requires Consistent(v)
    ensures VerdictOf(BuildMessage(vix, vstoxx, v)) == v
    ensures WellFormed(BuildMessage(vix, vstoxx, v))
  {
  }

  /** The template never recomputes a decision: two verdicts with the same
      flags give the same status lines and block, whatever their spreads. */
  lemma BlockIgnoresSpread(vix: real, vstoxx: real, v: Verdict, w: Verdict)
    requires v.weekOne == w.weekOne && v.euCrisis == w.euCrisis && v.enter == w.enter
    ensures BuildMessage(vix, vstoxx, v).block == BuildMessage(vix, vstoxx, w).block
    ensures BuildMessage(vix, vstoxx, v).weekOneOpen == BuildMessage(vix, vstoxx, w).weekOneOpen
    ensures BuildMessage(vix, vstoxx, v).crisisTriggered == BuildMessage(vix, vstoxx, w).crisisTriggered
  {
  }

  /** For an evaluated verdict exactly one block appears: ENTER in week one
      within the threshold, NO SIGNAL outside week one whatever the spread,
      SKIP ENTRY in week one above the threshold. */
  lemma EvaluatedBlock(vix: real, vstoxx: real, day: DayOfMonth)
    ensures var m := BuildMessage(vix, vstoxx, Evaluate(vix, vstoxx, day));
      && (m.block == EnterTrade <==> day <= WeekOneMaxDay && vstoxx - vix <= EuCrisisThreshold)
      && (m.block == NoSignal <==> day > WeekOneMaxDay)
      && (m.block == SkipEntry <==> day <= WeekOneMaxDay && vstoxx - vix > EuCrisisThreshold)
  {
  }
}
