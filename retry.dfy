/** `upload_file` (main.py:99-122): up to `MAX_RETRIES` attempts to upload one
    file. Each attempt first builds a `MediaFileUpload` (outside the `try`), then
    sends the create request; an `HttpError` is caught and retried while attempts
    remain, anything else propagates. The Drive backend is a script telling what
    attempt number k does. */
module Retry {
  import opened Types

  /** main.py:20 */
  const MaxRetries: nat := 3

  /** What one pass of the loop body at main.py:107-122 meets. */
  datatype Attempt =
    | Accepted      // the create request returned (main.py:110-116)
    | HttpFailure   // the request raised HttpError, which is caught (main.py:117)
    | OtherFailure  // the request raised another exception, which is not caught
    | MediaFailure  // MediaFileUpload itself raised, before the try (main.py:107)

  /** How a call of upload_file ends: it returns a boolean or it raises. */
  datatype Outcome = Returned(uploaded: bool) | Raised(error: Failure)

  /** The call's outcome together with the number of attempts it started. */
  datatype UploadRun = UploadRun(outcome: Outcome, attempts: nat)

  /** What the script says for attempt k. */
  type Script = nat -> Attempt

  /** How upload_file ends if the attempt it stops at meets `a`; an HttpError
      ends it only on the last attempt, with False. */
  function Settle(a: Attempt): (o: Outcome)
    ensures o == Returned(true) <==> a == Accepted
    ensures o.Raised? <==> a == OtherFailure || a == MediaFailure
  {
    match a
    case Accepted => Returned(true)
    case HttpFailure => Returned(false)
    case OtherFailure => Raised(UploadCrashed)
    case MediaFailure => Raised(MediaCrashed)
  }

  /** The loop of main.py:106-122 entered at attempt number `attempt`. */
  function AttemptsFrom(script: Script, attempt: nat): (u: UploadRun)
    requires attempt < MaxRetries
    ensures attempt < u.attempts <= MaxRetries
    decreases MaxRetries - attempt
  {
    if script(attempt) == HttpFailure && attempt < MaxRetries - 1 then AttemptsFrom(script, attempt + 1)
    else UploadRun(Settle(script(attempt)), attempt + 1)
  }

  /** What upload_file does against the script. */
  function Upload(script: Script): (u: UploadRun)
    ensures 1 <= u.attempts <= MaxRetries
    ensures u.outcome == Settle(script(u.attempts - 1))
  {
    AttemptsFrom(script, 0)
  }

  /** Every attempt before number k met an HttpError. */
  predicate HttpFailuresBefore(script: Script, k: nat) {
    forall j :: 0 <= j < k ==> script(j) == HttpFailure
  }

  /** Once every attempt before number k failed over HTTP, the first attempt
      from k on that does not, or the last one, decides the call. */
  lemma SettlesAt(script: Script, from: nat, k: nat)
    requires from <= k < MaxRetries
    requires forall j :: from <= j < k ==> script(j) == HttpFailure
    requires script(k) != HttpFailure || k == MaxRetries - 1
    ensures AttemptsFrom(script, from) == UploadRun(Settle(script(k)), k + 1)
  {
  }

  /** The outcome in full: the call stops at the first attempt that is not an
      HttpError, or after the last one; that attempt decides what it returns
      or raises, and no further attempt is made. */
  lemma UploadCharacterized(script: Script)
    ensures 1 <= Upload(script).attempts <= MaxRetries
    ensures HttpFailuresBefore(script, Upload(script).attempts - 1)
    ensures Upload(script).attempts < MaxRetries ==> script(Upload(script).attempts - 1) != HttpFailure
    ensures Upload(script).outcome == Settle(script(Upload(script).attempts - 1))
  {
  }

  /** upload_file returns True exactly when, within the first MaxRetries
      attempts, one is accepted after nothing but HTTP errors; the attempts it
      made are then that attempt's index plus one. */
  lemma UploadTrueIff(script: Script)
    ensures Upload(script).outcome == Returned(true) <==>
      exists k :: 0 <= k < MaxRetries && script(k) == Accepted && HttpFailuresBefore(script, k)
    ensures Upload(script).outcome == Returned(true) ==> script(Upload(script).attempts - 1) == Accepted
  {
  }

  /** A success returns after exactly k + 1 attempts. */
  lemma UploadAcceptedAt(script: Script, k: nat)
    requires k < MaxRetries && script(k) == Accepted && HttpFailuresBefore(script, k)
    ensures Upload(script) == UploadRun(Returned(true), k + 1)
  {
  }

  /** upload_file returns False only after MaxRetries HTTP errors in a row,
      and always after them. */
  lemma UploadFalseIff(script: Script)
    ensures Upload(script).outcome == Returned(false) <==> HttpFailuresBefore(script, MaxRetries)
    ensures Upload(script).outcome == Returned(false) ==> Upload(script).attempts == MaxRetries
  {
  }

  /** A failure other than an HttpError is not retried: the call raises it
      from the attempt that met it, and only then. */
  lemma UploadRaisesIff(script: Script, k: nat)
    requires k < MaxRetries && HttpFailuresBefore(script, k)
    ensures script(k) in {OtherFailure, MediaFailure} <==>
      Upload(script).outcome.Raised? && Upload(script).attempts == k + 1
  {
  }

  /** Only the first MaxRetries entries of the script matter. */
  lemma UploadReadsFirstAttempts(s1: Script, s2: Script)
    requires forall k :: 0 <= k < MaxRetries ==> s1(k) == s2(k)
    ensures Upload(s1) == Upload(s2)
  {
  }

  /** The loop of main.py:106-122. */
  method UploadFile(script: Script) returns (run: UploadRun)
    ensures run == Upload(script)
  {
    for attempt := 0 to MaxRetries
      invariant HttpFailuresBefore(script, attempt)
    {
      var a := script(attempt);
      // MediaFileUpload is built before the try: whatever it raises propagates.
      if a == MediaFailure {
        return UploadRun(Raised(MediaCrashed), attempt + 1);
      }
      if a == Accepted {
        return UploadRun(Returned(true), attempt + 1);
      }
      if a == OtherFailure {
        return UploadRun(Raised(UploadCrashed), attempt + 1);
      }
      // An HttpError: logged, and the next pass retries while attempts remain.
    }
    // The last attempt also met an HttpError: `return False`.
    return UploadRun(Returned(false), MaxRetries);
  }
}
