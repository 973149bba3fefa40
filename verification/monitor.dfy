/** The entry point's control flow: check the configuration, fetch both
    prices, evaluate the rule, build the alert and send it; on any failure send
    one best-effort error notice and exit 1. The network is replaced by the
    scripted answers of a World and the clock by its day of the month. */
module Monitor {
  import opened Outcomes
  import opened Decision
  import opened Message
  import Retry
  import Fetch

  /** The two delivery secrets as the environment gives them (None if unset). */
  datatype Config = Config(botToken: Option<string>, chatId: Option<string>)

  /** A secret counts as set only when present and non-empty. */
  predicate IsSet(secret: Option<string>) {
    secret.Some? && |secret.value| > 0
  }

  predicate Configured(cfg: Config) {
    IsSet(cfg.botToken) && IsSet(cfg.chatId)
  }

  /** Why one attempt to post a message failed (request error or HTTP status). */
  datatype SendError = SendError(reason: string)

  /** The error that ended a run. */
  datatype Failure =
    | VixUnavailable(vixError: Fetch.FetchError)
    | VstoxxUnavailable(vstoxxError: Fetch.FetchError)
    | DeliveryFailed(sendError: SendError)

  /** What a message send carries: the alert, or the error notice. */
  datatype Notice = AlertNotice(alert: Alert) | ErrorNotice(failure: Failure)

  /** One resilient call the run made, with the number of attempts it took. */
  datatype Call =
    | VixFetch(attempts: nat)
    | VstoxxFetch(attempts: nat)
    | Send(notice: Notice, attempts: nat, delivered: bool)
  {
    predicate IsErrorNotice() {
      Send? && notice.ErrorNotice?
    }
  }

  /** How the process ends: exit code 0, 1 or 2. */
  datatype ExitCode = Done | Failed | Misconfigured

  function Code(e: ExitCode): (c: int)
    ensures 0 <= c <= 2
    ensures e == Misconfigured <==> c == 2
    ensures e == Done <==> c == 0
  {
    match e
    case Done => 0
    case Failed => 1
    case Misconfigured => 2
  }

  /** Everything outside the program that one run observes: the day of the
      month, and for each resilient call the outcome each of its attempts
      would have. A fetch attempt's outcome is what Fetch.VixAttempt or
      Fetch.VstoxxAttempt makes of the table that attempt downloads. */
  datatype World = World(
    day: DayOfMonth,
    vixAttempts: seq<Attempt<real, Fetch.FetchError>>,
    vstoxxAttempts: seq<Attempt<real, Fetch.FetchError>>,
    alertSends: seq<Attempt<(), SendError>>,
    errorSends: seq<Attempt<(), SendError>>)

  /** Every resilient call has an answer for each attempt it may make. */
  predicate Scripted(w: World) {
    && Retry.Retries <= |w.vixAttempts|
    && Retry.Retries <= |w.vstoxxAttempts|
    && Retry.Retries <= |w.alertSends|
    && Retry.Retries <= |w.errorSends|
  }

  /** What a run did: how it exited and the resilient calls it made, in order. */
  datatype Trace = Trace(exit: ExitCode, calls: seq<Call>)

  predicate NoErrorNotice(calls: seq<Call>) {
    forall i :: 0 <= i < |calls| ==> !calls[i].IsErrorNotice()
  }

  /** The last call is an error notice and it is the only one. */
  predicate EndsWithOneErrorNotice(calls: seq<Call>) {
    && |calls| > 0
    && calls[|calls| - 1].IsErrorNotice()
    && NoErrorNotice(calls[..|calls| - 1])
  }

  /** Every call made between one and Retries attempts. */
  predicate AttemptsBounded(calls: seq<Call>) {
    forall i :: 0 <= i < |calls| ==> 1 <= calls[i].attempts <= Retry.Retries
  }

  /** The best-effort error notice: one resilient send whose failure is only
      recorded, never raised. */
  function Notify(w: World, failure: Failure): (c: Call)
    requires Retry.Retries <= |w.errorSends|
    ensures c.IsErrorNotice() && c.notice.failure == failure
    ensures 1 <= c.attempts <= Retry.Retries
    ensures c.delivered <==> exists i :: 0 <= i < Retry.Retries && w.errorSends[i].Ok?
  {
    var notify := Retry.WithRetry(w.errorSends);
    Send(ErrorNotice(failure), notify.attempts, notify.result.Ok?)
  }

  /** One run of the monitor: exit 2 before any call when a secret is unset;
      otherwise fetch VIX, fetch vStoxx, evaluate, build and send the alert,
      and on any failure send one error notice and exit 1. */
  function Run(cfg: Config, w: World): (t: Trace)
    requires Scripted(w)
    ensures t.exit == Misconfigured <==> !Configured(cfg)
    ensures t.exit == Misconfigured ==> t.calls == []
    ensures t.exit != Misconfigured ==> 2 <= |t.calls| <= 4 && t.calls[0].VixFetch?
    ensures AttemptsBounded(t.calls)
    ensures t.exit == Failed ==> EndsWithOneErrorNotice(t.calls)
    ensures t.exit == Done ==>
      && |t.calls| == 3 && NoErrorNotice(t.calls)
      && t.calls[2].Send? && t.calls[2].notice.AlertNotice? && t.calls[2].delivered
    ensures t.exit == Done <==>
      && Configured(cfg)
      && Retry.WithRetry(w.vixAttempts).result.Ok?
      && Retry.WithRetry(w.vstoxxAttempts).result.Ok?
      && Retry.WithRetry(w.alertSends).result.Ok?
    ensures forall i :: 0 <= i < |t.calls| && t.calls[i].VstoxxFetch? ==>
      i == 1 && Retry.WithRetry(w.vixAttempts).result.Ok?
    ensures forall i :: 0 < i < |t.calls| ==> !t.calls[i].VixFetch?
    ensures forall i :: 0 <= i < |t.calls| && t.calls[i].Send? && t.calls[i].notice.AlertNotice? ==>
      && i == 2 && t.calls[1].VstoxxFetch?
      && Retry.WithRetry(w.vixAttempts).result.Ok?
      && Retry.WithRetry(w.vstoxxAttempts).result.Ok?
  {
    if !Configured(cfg) then
      Trace(Misconfigured, [])
    else
      var vix := Retry.WithRetry(w.vixAttempts);
      var vixCall := VixFetch(vix.attempts);
      if vix.result.Err? then
        Trace(Failed, [vixCall, Notify(w, VixUnavailable(vix.result.error))])
      else
        var vstoxx := Retry.WithRetry(w.vstoxxAttempts);
        var vstoxxCall := VstoxxFetch(vstoxx.attempts);
        if vstoxx.result.Err? then
          Trace(Failed, [vixCall, vstoxxCall, Notify(w, VstoxxUnavailable(vstoxx.result.error))])
        else
          var verdict := Evaluate(vix.result.value, vstoxx.result.value, w.day);
          var alert := BuildMessage(vix.result.value, vstoxx.result.value, verdict);
          var send := Retry.WithRetry(w.alertSends);
          var sendCall := Send(AlertNotice(alert), send.attempts, send.result.Ok?);
          if send.result.Err? then
            Trace(Failed, [vixCall, vstoxxCall, sendCall, Notify(w, DeliveryFailed(send.result.error))])
          else
            Trace(Done, [vixCall, vstoxxCall, sendCall])
  }

  /** The seconds a call slept: 5, 10, ... after each failed attempt but the last. */
  function CallSleeps(c: Call): seq<nat>
    requires c.attempts >= 1
  {
    Retry.Backoffs(c.attempts - 1)
  }

  /** All sleeps of a sequence of calls, in order. */
  function Sleeps(calls: seq<Call>): seq<nat>
    requires AttemptsBounded(calls)
  {
    if |calls| == 0 then [] else Sleeps(calls[..|calls| - 1]) + CallSleeps(calls[|calls| - 1])
  }

  /** A sequence of resilient calls never sleeps more than 5 + 10 seconds per call. */
  lemma {:induction false} SleepBudget(calls: seq<Call>)
    requires AttemptsBounded(calls)
    ensures Retry.TotalSleep(Sleeps(calls)) <= 15 * |calls|
  {
    if |calls| > 0 {
      var init := calls[..|calls| - 1];
      var last := calls[|calls| - 1];
      SleepBudget(init);
      Retry.TotalSleepAppend(Sleeps(init), CallSleeps(last));
      Retry.BackoffTotal(last.attempts - 1);
      assert Retry.Triangle(2) == 3;
    }
  }

  /** A run sleeps at most 5 + 10 seconds per resilient call, so at most a
      minute in all. */
  lemma RunSleepBound(cfg: Config, w: World)
    requires Scripted(w)
    ensures Retry.TotalSleep(Sleeps(Run(cfg, w).calls)) <= 15 * |Run(cfg, w).calls| <= 60
  {
    SleepBudget(Run(cfg, w).calls);
  }

  /** The alert a successful run delivers carries the two fetched closes and
      the block of their evaluation on the run's day. */
  lemma DeliveredAlert(cfg: Config, w: World)
    requires Scripted(w)
    requires Run(cfg, w).exit == Done
    ensures var vix := Retry.WithRetry(w.vixAttempts).result.value;
      var vstoxx := Retry.WithRetry(w.vstoxxAttempts).result.value;
      var alert := Run(cfg, w).calls[2].notice.alert;
      && alert.vix == vix && alert.vstoxx == vstoxx
      && (alert.block == EnterTrade <==> w.day <= WeekOneMaxDay && vstoxx - vix <= EuCrisisThreshold)
      && (alert.block == NoSignal <==> w.day > WeekOneMaxDay)
      && (alert.block == SkipEntry <==> w.day <= WeekOneMaxDay && vstoxx - vix > EuCrisisThreshold)
  {
    var vix := Retry.WithRetry(w.vixAttempts);
    var vstoxx := Retry.WithRetry(w.vstoxxAttempts);
    EvaluatedBlock(vix.result.value, vstoxx.result.value, w.day);
  }

  /** Whether the error notice itself gets through never changes how the run
      ends. */
  lemma ErrorNoticeSwallowed(cfg: Config, w: World, errorSends: seq<Attempt<(), SendError>>)
    requires Scripted(w)
    requires Retry.Retries <= |errorSends|
    ensures Run(cfg, w).exit == Run(cfg, w.(errorSends := errorSends)).exit
  {
  }

  /** A VIX fetcher that fails all its attempts ends the run after one error
      notice carrying the third attempt's error; nothing else is fetched or
      sent. */
  lemma VixFailureNotifies(cfg: Config, w: World)
    requires Scripted(w) && Configured(cfg)
    requires forall i :: 0 <= i < Retry.Retries ==> w.vixAttempts[i].Err?
    ensures var t := Run(cfg, w);
      && t.exit == Failed && Code(t.exit) == 1
      && t.calls == [VixFetch(Retry.Retries), Notify(w, VixUnavailable(w.vixAttempts[Retry.Retries - 1].error))]
  {
    Retry.RetryPolicy(w.vixAttempts);
  }

  /** A vStoxx fetcher that fails all its attempts after VIX succeeded ends
      the run after one error notice carrying its third attempt's error; no
      alert is sent. */
  lemma VstoxxFailureNotifies(cfg: Config, w: World)
    requires Scripted(w) && Configured(cfg)
    requires Retry.WithRetry(w.vixAttempts).result.Ok?
    requires forall i :: 0 <= i < Retry.Retries ==> w.vstoxxAttempts[i].Err?
    ensures var t := Run(cfg, w);
      && t.exit == Failed && Code(t.exit) == 1
      && t.calls == [VixFetch(Retry.WithRetry(w.vixAttempts).attempts), VstoxxFetch(Retry.Retries),
                     Notify(w, VstoxxUnavailable(w.vstoxxAttempts[Retry.Retries - 1].error))]
  {
    Retry.RetryPolicy(w.vstoxxAttempts);
  }

  /** As the entry point is written, a primary send that fails all its
      attempts is inside the guarded block, so it is followed by one error
      notice reporting the delivery failure before exit 1. */
  lemma SendFailureNotifies(cfg: Config, w: World)
    requires Scripted(w) && Configured(cfg)
    requires Retry.WithRetry(w.vixAttempts).result.Ok?
    requires Retry.WithRetry(w.vstoxxAttempts).result.Ok?
    requires forall i :: 0 <= i < Retry.Retries ==> w.alertSends[i].Err?
    ensures var t := Run(cfg, w);
      && t.exit == Failed && Code(t.exit) == 1
      && |t.calls| == 4
      && t.calls[2].Send? && t.calls[2].notice.AlertNotice? && !t.calls[2].delivered
      && t.calls[3].IsErrorNotice()
      && t.calls[3].notice.failure == DeliveryFailed(w.alertSends[Retry.Retries - 1].error)
  {
    assert Retry.WithRetry(w.alertSends).result.Err?;
  }

  /** When the fetch attempts come from downloaded tables, a successful run's
      alert shows exactly the prices the two fetchers selected, and the
      vStoxx price in it is positive. */
  lemma AlertShowsFetchedPrices(cfg: Config, w: World, vixResponses: seq<Fetch.Response>, vstoxxResponses: seq<Fetch.Response>)
    requires Scripted(w)
    requires w.vixAttempts == Fetch.VixAttempts(vixResponses)
    requires w.vstoxxAttempts == Fetch.VstoxxAttempts(vstoxxResponses)
    requires Run(cfg, w).exit == Done
    ensures Run(cfg, w).calls[2].notice.alert.vix == Fetch.FetchVix(vixResponses).result.value
    ensures Run(cfg, w).calls[2].notice.alert.vstoxx == Fetch.FetchVstoxx(vstoxxResponses).result.value
    ensures Run(cfg, w).calls[2].notice.alert.vstoxx > 0.0
  {
    DeliveredAlert(cfg, w);
  }
}
