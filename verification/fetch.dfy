/** Close-price selection for the two volatility indices. Each attempt of a
    fetcher downloads a small table of recent daily rows; the table's Close
    column is filtered and the chronologically last surviving close is the
    price. Any failure of an attempt is retried by the shared retry loop. */
module Fetch {
  import opened Outcomes
  import Retry

  /** One downloaded table: whether it has a Close column, whether it has a
      Date column (only the vStoxx fetcher reads it), and the Close cell of
      each row in row order (None for a missing value). */
  datatype Frame = Frame(hasClose: bool, hasDate: bool, closes: seq<Option<real>>)

  /** What one attempt's request produced: the request, its HTTP status or the
      parsing of the body failed, or a table was received. */
  datatype Response = RequestFailed | Received(frame: Frame)

  /** Why an attempt failed. */
  datatype FetchError =
    | RequestError   // the download, the HTTP status or the parse raised
    | NoData         // VIX: the table has no rows
    | MissingClose   // VIX: the table has rows but no Close column
    | BadFormat      // vStoxx: the table is empty or has no Close column
    | NoValidClose   // no close survived the filter
    | MissingDate    // vStoxx: the selected row's Date cannot be read

  /** Which closes a fetcher accepts: VIX drops only missing values, vStoxx
      keeps only present, strictly positive values. */
  datatype Filter = DropMissing | PositiveOnly

  predicate Kept(c: Option<real>, f: Filter) {
    c.Some? && (f == PositiveOnly ==> c.value > 0.0)
  }

  /** Row i holds the chronologically last close that the filter keeps. */
  predicate IsLatestKept(closes: seq<Option<real>>, f: Filter, i: int) {
    && 0 <= i < |closes|
    && Kept(closes[i], f)
    && forall j :: i < j < |closes| ==> !Kept(closes[j], f)
  }

  /** The index of the last row whose close the filter keeps, if any. */
  function LatestKept(closes: seq<Option<real>>, f: Filter): (k: Option<nat>)
    ensures k.Some? ==> IsLatestKept(closes, f, k.value)
    ensures k.None? ==> forall i :: 0 <= i < |closes| ==> !Kept(closes[i], f)
  {
    if |closes| == 0 then None
    else if Kept(closes[|closes| - 1], f) then Some(|closes| - 1)
    else
      var k := LatestKept(closes[..|closes| - 1], f);
      assert forall i :: 0 <= i < |closes| - 1 ==> closes[..|closes| - 1][i] == closes[i];
      k
  }

  /** The closes that survive the filter, in row order. */
  function Survivors(closes: seq<Option<real>>, f: Filter): (s: seq<real>)
    ensures |s| <= |closes|
  {
    if |closes| == 0 then []
    else
      var last := closes[|closes| - 1];
      var init := Survivors(closes[..|closes| - 1], f);
      if Kept(last, f) then init + [last.value] else init
  }

  /** The number of rows whose close the filter keeps. */
  function CountKept(closes: seq<Option<real>>, f: Filter): (n: nat)
    ensures n <= |closes|
  {
    if |closes| == 0 then 0
    else CountKept(closes[..|closes| - 1], f) + (if Kept(closes[|closes| - 1], f) then 1 else 0)
  }

  /** Row i is kept, holds close v, and exactly k kept rows come before it. */
  predicate KeptWithRank(closes: seq<Option<real>>, f: Filter, i: int, k: nat, v: real) {
    0 <= i < |closes| && Kept(closes[i], f) && closes[i] == Some(v) && CountKept(closes[..i], f) == k
  }

  /** Some kept row holding close v is preceded by exactly k kept rows. */
  predicate HasRank(closes: seq<Option<real>>, f: Filter, k: nat, v: real) {
    exists i :: 0 <= i < |closes| && KeptWithRank(closes, f, i, k, v)
  }

  /** s lists the kept closes in row order: one entry per kept row, the k-th
      being the close of the kept row preceded by exactly k kept rows. */
  predicate InRowOrder(closes: seq<Option<real>>, f: Filter, s: seq<real>) {
    && |s| == CountKept(closes, f)
    && forall k: nat :: k < |s| ==> HasRank(closes, f, k, s[k])
  }

  /** There is one survivor per kept row. */
  lemma {:induction false} SurvivorsCount(closes: seq<Option<real>>, f: Filter)
    ensures |Survivors(closes, f)| == CountKept(closes, f)
  {
    if |closes| > 0 {
      SurvivorsCount(closes[..|closes| - 1], f);
    }
  }

  /** The k-th survivor is the close of the kept row preceded by exactly k
      kept rows. */
  lemma {:induction false} SurvivorRank(closes: seq<Option<real>>, f: Filter, k: nat)
    requires k < |Survivors(closes, f)|
    ensures HasRank(closes, f, k, Survivors(closes, f)[k])
  {
    var init := closes[..|closes| - 1];
    var s := Survivors(closes, f);
    var si := Survivors(init, f);
    if k < |si| {
      SurvivorRank(init, f, k);
      assert s[k] == si[k];
      var i :| 0 <= i < |init| && KeptWithRank(init, f, i, k, si[k]);
      assert closes[..i] == init[..i];
      assert KeptWithRank(closes, f, i, k, s[k]);
    } else {
      SurvivorsCount(init, f);
      assert closes[..|closes| - 1] == init;
      assert KeptWithRank(closes, f, |closes| - 1, k, s[k]);
    }
  }

  /** The survivors are exactly the kept closes in row order. */
  lemma SurvivorsInRowOrder(closes: seq<Option<real>>, f: Filter)
    ensures InRowOrder(closes, f, Survivors(closes, f))
  {
    var s := Survivors(closes, f);
    SurvivorsCount(closes, f);
    forall k: nat | k < |s|
      ensures HasRank(closes, f, k, s[k])
    {
      SurvivorRank(closes, f, k);
    }
  }

  /** Filtering and then taking the last survivor selects the close of the
      latest kept row; nothing survives exactly when no row is kept. */
  lemma {:induction false} LastSurvivorIsLatest(closes: seq<Option<real>>, f: Filter)
    ensures var s := Survivors(closes, f);
      && (|s| == 0 <==> LatestKept(closes, f).None?)
      && (|s| > 0 ==> closes[LatestKept(closes, f).value] == Some(s[|s| - 1]))
  {
    if |closes| > 0 {
      var init := closes[..|closes| - 1];
      LastSurvivorIsLatest(init, f);
    }
  }

  /** The latest kept row is unique, so the selected price is determined. */
  lemma LatestKeptUnique(closes: seq<Option<real>>, f: Filter, i: int, j: int)
    requires IsLatestKept(closes, f, i) && IsLatestKept(closes, f, j)
    ensures i == j
  {
  }

  /** One attempt of the VIX fetcher on what the download returned: an empty
      table, a table without a Close column and a column with no present
      value are failures; otherwise the last present close is the price. */
  function VixAttempt(resp: Response): (a: Attempt<real, FetchError>)
    ensures a == Err(RequestError) <==> resp.RequestFailed?
    ensures a == Err(NoData) <==> resp.Received? && |resp.frame.closes| == 0
    ensures a == Err(MissingClose) <==> resp.Received? && |resp.frame.closes| > 0 && !resp.frame.hasClose
  {
    match resp
    case RequestFailed => Err(RequestError)
    case Received(frame) =>
      if |frame.closes| == 0 then Err(NoData)
      else if !frame.hasClose then Err(MissingClose)
      else
        var s := Survivors(frame.closes, DropMissing);
        if |s| == 0 then Err(NoValidClose) else Ok(s[|s| - 1])
  }

  /** A VIX attempt succeeds exactly when a table with a Close column holding
      some present value arrived, and its price is the close of the latest
      row whose close is present. */
  lemma VixAttemptSelectsLatest(resp: Response)
    ensures VixAttempt(resp).Ok? <==>
      resp.Received? && resp.frame.hasClose && LatestKept(resp.frame.closes, DropMissing).Some?
    ensures VixAttempt(resp).Ok? ==>
      resp.frame.closes[LatestKept(resp.frame.closes, DropMissing).value] == Some(VixAttempt(resp).value)
  {
    if resp.Received? {
      LastSurvivorIsLatest(resp.frame.closes, DropMissing);
    }
  }

  /** One attempt of the vStoxx fetcher: an empty table or one without a Close
      column is a format failure; otherwise the rows with a positive close are
      kept and the last of them is the price, which is therefore positive.
      Reading that row's Date fails the attempt when the table has no Date
      column. */
  function VstoxxAttempt(resp: Response): (a: Attempt<real, FetchError>)
    ensures a.Ok? ==> a.value > 0.0
    ensures a == Err(RequestError) <==> resp.RequestFailed?
    ensures a == Err(BadFormat) <==> resp.Received? && (|resp.frame.closes| == 0 || !resp.frame.hasClose)
    ensures a == Err(MissingDate) ==> resp.Received? && !resp.frame.hasDate
  {
    match resp
    case RequestFailed => Err(RequestError)
    case Received(frame) =>
      if |frame.closes| == 0 || !frame.hasClose then Err(BadFormat)
      else
        var s := Survivors(frame.closes, PositiveOnly);
        if |s| == 0 then Err(NoValidClose)
        else if !frame.hasDate then Err(MissingDate)
        else
          LastSurvivorIsLatest(frame.closes, PositiveOnly);
          Ok(s[|s| - 1])
  }

  /** A vStoxx attempt succeeds exactly when a table with Close and Date
      columns and some positive close arrived, and its price is the close of
      the latest row whose close is positive. */
  lemma VstoxxAttemptSelectsLatest(resp: Response)
    ensures VstoxxAttempt(resp).Ok? <==>
      resp.Received? && resp.frame.hasClose && resp.frame.hasDate
      && LatestKept(resp.frame.closes, PositiveOnly).Some?
    ensures VstoxxAttempt(resp).Ok? ==>
      resp.frame.closes[LatestKept(resp.frame.closes, PositiveOnly).value] == Some(VstoxxAttempt(resp).value)
  {
    if resp.Received? {
      LastSurvivorIsLatest(resp.frame.closes, PositiveOnly);
    }
  }

  /** The per-attempt outcomes of the VIX fetcher on a script of responses. */
  function VixAttempts(responses: seq<Response>): (a: seq<Attempt<real, FetchError>>)
    ensures |a| == |responses|
    ensures forall i :: 0 <= i < |responses| ==> a[i] == VixAttempt(responses[i])
  {
    seq(|responses|, i requires 0 <= i < |responses| => VixAttempt(responses[i]))
  }

  /** The per-attempt outcomes of the vStoxx fetcher on a script of responses. */
  function VstoxxAttempts(responses: seq<Response>): (a: seq<Attempt<real, FetchError>>)
    ensures |a| == |responses|
    ensures forall i :: 0 <= i < |responses| ==> a[i] == VstoxxAttempt(responses[i])
  {
    seq(|responses|, i requires 0 <= i < |responses| => VstoxxAttempt(responses[i]))
  }

  /** The VIX fetcher: the retry loop around VixAttempt. */
  function FetchVix(responses: seq<Response>): (r: Retry.Run<real, FetchError>)
    requires Retry.Retries <= |responses|
    ensures 1 <= r.attempts <= Retry.Retries
    ensures forall i :: 0 <= i < r.attempts - 1 ==> VixAttempt(responses[i]).Err?
    ensures r.result == VixAttempt(responses[r.attempts - 1])
    ensures r.result.Err? <==> forall i :: 0 <= i < Retry.Retries ==> VixAttempt(responses[i]).Err?
    ensures r.sleeps == Retry.Backoffs(r.attempts - 1)
  {
    Retry.RetryPolicy(VixAttempts(responses));
    Retry.WithRetry(VixAttempts(responses))
  }

  /** The vStoxx fetcher: the retry loop around VstoxxAttempt; a price it
      returns is positive. */
  function FetchVstoxx(responses: seq<Response>): (r: Retry.Run<real, FetchError>)
    requires Retry.Retries <= |responses|
    ensures 1 <= r.attempts <= Retry.Retries
    ensures forall i :: 0 <= i < r.attempts - 1 ==> VstoxxAttempt(responses[i]).Err?
    ensures r.result == VstoxxAttempt(responses[r.attempts - 1])
    ensures r.result.Ok? ==> r.result.value > 0.0
    ensures r.result.Err? <==> forall i :: 0 <= i < Retry.Retries ==> VstoxxAttempt(responses[i]).Err?
    ensures r.sleeps == Retry.Backoffs(r.attempts - 1)
  {
    Retry.RetryPolicy(VstoxxAttempts(responses));
    Retry.WithRetry(VstoxxAttempts(responses))
  }

  /** An empty table, a table without a Close column and a table with no
      positive close are all plain attempt failures: three of them in a row
      exhaust the vStoxx fetcher after sleeping 5 and 10 seconds. A table
      whose positive close has no Date beside it fails the same way. */
  lemma VstoxxFailureKindsAlike(x: real)
    requires x <= 0.0
    ensures var r := FetchVstoxx([Received(Frame(true, true, [])), Received(Frame(false, true, [Some(20.0)])), Received(Frame(true, true, [None, Some(x)]))]);
      r.result == Err(NoValidClose) && r.attempts == 3 && r.sleeps == [5, 10]
    ensures VstoxxAttempt(Received(Frame(true, false, [Some(20.5)]))) == Err(MissingDate)
  {
    assert Retry.Backoffs(2) == [5, 10];
    LastSurvivorIsLatest([None, Some(x)], PositiveOnly);
    LastSurvivorIsLatest([Some(20.5)], PositiveOnly);
    Retry.RetryPolicy(VstoxxAttempts([Received(Frame(true, true, [])), Received(Frame(false, true, [Some(20.0)])), Received(Frame(true, true, [None, Some(x)]))]));
  }

  /** The VIX selection drops a missing trailing close and takes the last
      present one, and, unlike the vStoxx selection, it does not reject a
      close that is zero or negative. */
  lemma VixSelectionExamples()
    ensures VixAttempt(Received(Frame(true, true, [Some(14.0), Some(15.5), None]))) == Ok(15.5)
    ensures VixAttempt(Received(Frame(true, true, [Some(14.0), Some(0.0)]))) == Ok(0.0)
    ensures VstoxxAttempt(Received(Frame(true, true, [Some(14.0), Some(0.0)]))) == Ok(14.0)
    ensures VixAttempt(Received(Frame(true, true, [None, None]))) == Err(NoValidClose)
  {
    assert [Some(14.0), Some(15.5), None][..2] == [Some(14.0), Some(15.5)];
    assert [Some(14.0), Some(15.5)][..1] == [Some(14.0)];
    assert [Some(14.0), Some(0.0)][..1] == [Some(14.0)];
    var missing: seq<Option<real>> := [None, None];
    assert missing[..1] == [None];
  }
}
