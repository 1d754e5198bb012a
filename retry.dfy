/** The retry rule of `fetchWithRetry` and `downloadWithRetry` in the
    xeno-canto fetchers: up to `retries` attempts, a retry only after an HTTP
    503 that was not the last allowed attempt, every other failure rethrown,
    and for downloads the partly written file deleted after each failure. */
module Retry {

  /** What one request attempt yields: the body, an HTTP error status, or an
      error without a response (network failure, stream error). */
  datatype Answer<T> = Delivered(body: T) | HttpError(status: int) | NoResponse

  /** A server's behaviour for one URL: it answers 503 to the first `busy`
      attempts and `after` to every later one. Any sequence of answers agrees
      with one of these up to the first answer that ends the retry loop. */
  datatype Server<T> = Server(busy: nat, after: Answer<T>)

  /** The outcome of the retry loop: a returned body, a thrown error, or
      falling off the end of the loop (JavaScript's `undefined`). */
  datatype Fetched<T> = Returned(body: T) | Threw(error: Answer<T>) | FellThrough

  function AnswerAt<T>(srv: Server<T>, i: nat): Answer<T> {
    if i < srv.busy then HttpError(503) else srv.after
  }

  /** `error.response && error.response.status === 503` */
  predicate IsBusy<T>(a: Answer<T>) {
    a.HttpError? && a.status == 503
  }

  /** The loop from attempt `i` on. */
  function FetchFrom<T>(srv: Server<T>, retries: nat, i: nat): Fetched<T>
    decreases retries - i
  {
    if i >= retries then FellThrough
    else
      var a := AnswerAt(srv, i);
      if a.Delivered? then Returned(a.body)
      else if IsBusy(a) && i < retries - 1 then FetchFrom(srv, retries, i + 1)
      else Threw(a)
  }

  function AttemptsFrom<T>(srv: Server<T>, retries: nat, i: nat): nat
    decreases retries - i
  {
    if i >= retries then 0
    else if !AnswerAt(srv, i).Delivered? && IsBusy(AnswerAt(srv, i)) && i < retries - 1
    then 1 + AttemptsFrom(srv, retries, i + 1)
    else 1
  }

  /** The outcome of `fetchWithRetry` (and the decision of `downloadWithRetry`). */
  function Outcome<T>(srv: Server<T>, retries: nat): Fetched<T> {
    FetchFrom(srv, retries, 0)
  }

  /** The outcome stated without the loop: nothing is tried when `retries`
      is 0; a server still busy at the last allowed attempt makes the loop
      throw its 503; otherwise the first non-503 answer decides. */
  function ExpectedOutcome<T>(srv: Server<T>, retries: nat): Fetched<T> {
    if retries == 0 then FellThrough
    else if srv.busy >= retries then Threw(HttpError(503))
    else if srv.after.Delivered? then Returned(srv.after.body)
    else Threw(srv.after)
  }

  /** How many attempts are made, stated without the loop. */
  function ExpectedAttempts<T>(srv: Server<T>, retries: nat): nat {
    if retries == 0 then 0
    else if srv.busy >= retries || IsBusy(srv.after) then retries
    else srv.busy + 1
  }

  lemma {:induction false} FetchFromClosedForm<T>(srv: Server<T>, retries: nat, i: nat)
    requires i < retries && i <= srv.busy
    ensures FetchFrom(srv, retries, i) == ExpectedOutcome(srv, retries)
    ensures AttemptsFrom(srv, retries, i) == ExpectedAttempts(srv, retries) - i
    decreases retries - i
  {
    if i < retries - 1 && (i < srv.busy || IsBusy(srv.after)) {
      if i + 1 <= srv.busy {
        FetchFromClosedForm(srv, retries, i + 1);
      } else {
        ContinuesWhileBusy(srv, retries, i + 1);
      }
    }
  }

  /** Past the busy answers, a server that keeps answering 503 is retried
      until the last allowed attempt. */
  lemma {:induction false} ContinuesWhileBusy<T>(srv: Server<T>, retries: nat, i: nat)
    requires srv.busy <= i < retries && IsBusy(srv.after)
    ensures FetchFrom(srv, retries, i) == Threw(HttpError(503))
    ensures AttemptsFrom(srv, retries, i) == retries - i
    decreases retries - i
  {
    if i < retries - 1 {
      ContinuesWhileBusy(srv, retries, i + 1);
    }
  }

  /** The retry loop agrees with its closed form. */
  lemma OutcomeIsExpected<T>(srv: Server<T>, retries: nat)
    ensures Outcome(srv, retries) == ExpectedOutcome(srv, retries)
    ensures AttemptsFrom(srv, retries, 0) == ExpectedAttempts(srv, retries)
  {
    if retries > 0 {
      FetchFromClosedForm(srv, retries, 0);
    }
  }

  /** With at least one attempt allowed the loop never falls off its end,
      so the caller's "page skipped" branch cannot be taken. */
  lemma NeverFallsThrough<T>(srv: Server<T>, retries: nat)
    requires retries >= 1
    ensures !Outcome(srv, retries).FellThrough?
  {
    OutcomeIsExpected(srv, retries);
  }

  /** `fetchWithRetry(url, options, retries)`: returns the page, rethrows, or
      (only when `retries` is 0) falls through. */
  method FetchWithRetry<T>(srv: Server<T>, retries: nat) returns (r: Fetched<T>, attempts: nat)
    ensures r == Outcome(srv, retries)
    ensures attempts == ExpectedAttempts(srv, retries) && attempts <= retries
    ensures r.FellThrough? <==> retries == 0
    ensures r.Returned? ==> attempts == srv.busy + 1
    ensures r.Threw? && IsBusy(r.error) ==> attempts == retries
  {
    OutcomeIsExpected(srv, retries);
    attempts := 0;
    var i := 0;
    while i < retries
      invariant 0 <= i <= retries
      invariant attempts == i
      invariant i < retries ==> FetchFrom(srv, retries, i) == Outcome(srv, retries)
      invariant i < retries ==> i + AttemptsFrom(srv, retries, i) == AttemptsFrom(srv, retries, 0)
      invariant i == retries ==> retries == 0
    {
      attempts := attempts + 1;
      var a := AnswerAt(srv, i);
      if a.Delivered? {
        return Returned(a.body), attempts;
      }
      if !(IsBusy(a) && i < retries - 1) {
        return Threw(a), attempts;
      }
      // the 503 is followed by a delay before the next attempt
      i := i + 1;
    }
    r := FellThrough;
  }

  /** `downloadWithRetry(url, fileName, retries)` over the set of existing
      file paths: each attempt opens (creates) `fileName`; a failed attempt
      closes and deletes it before the retry or the rethrow. */
  method DownloadWithRetry(files: set<string>, fileName: string, srv: Server<()>, retries: nat)
    returns (files': set<string>, r: Fetched<()>)
    ensures r == Outcome(srv, retries)
    ensures r.Returned? ==> files' == files + {fileName}
    ensures r.Threw? ==> files' == files - {fileName}
    ensures r.FellThrough? ==> files' == files && retries == 0
  {
    OutcomeIsExpected(srv, retries);
    files' := files;
    var i := 0;
    while i < retries
      invariant 0 <= i <= retries
      invariant i < retries ==> FetchFrom(srv, retries, i) == Outcome(srv, retries)
      invariant i == 0 ==> files' == files
      invariant i > 0 ==> files' == files - {fileName}
      invariant i == retries ==> retries == 0
    {
      files' := files' + {fileName};
      var a := AnswerAt(srv, i);
      if a.Delivered? {
        return files', Returned(a.body);
      }
      files' := files' - {fileName};
      if !(IsBusy(a) && i < retries - 1) {
        return files', Threw(a);
      }
      i := i + 1;
    }
    r := FellThrough;
  }
}
