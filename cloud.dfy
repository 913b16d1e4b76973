/** The cloud save of the dashboard (`saveDataToSupabase`): who may save,
    how one attempt ends, which failures are retried, the back-off between
    attempts, and the attempt loop itself. The backend calls are not made
    here: each attempt's select and upsert results are given as input, and
    the waits are returned as a list of delays instead of being slept. */
module Cloud {
  import opened Wrappers
  import opened Text

  const LocalUserPrefix := "local-user-"
  const RlsMarker := "violates row level security policy"
  /** The largest serialised payload, in characters, that is sent. */
  const MaxPayloadChars := 800000
  const BaseDelayMs := 1000
  const MaxDelayMs := 5000
  /** The attempt bound `saveData` uses: it calls `saveDataToSupabase()`
      with no argument (app.js:481), so `maxRetries` takes its default. */
  const DefaultMaxRetries := 3

  /** An error as the save code reads it: its `message` and `code` (empty
      when missing) and what its `toString()` gives. */
  datatype ErrorInfo = ErrorInfo(message: string, code: string, rendered: string)

  /** The text patterns that mark an error as a network failure. */
  const NetworkPatterns: seq<string> := [
    "Failed to fetch",
    "NetworkError",
    "ERR_CONNECTION_CLOSED",
    "ERR_CONNECTION_RESET",
    "ERR_NETWORK_CHANGED",
    "ERR_INTERNET_DISCONNECTED",
    "timeout",
    "ECONNRESET",
    "ENOTFOUND",
    "ETIMEDOUT"
  ]

  /** `error.message || error.toString()`. */
  function ErrorText(e: ErrorInfo): string {
    if e.message != "" then e.message else e.rendered
  }

  /** Some pattern of `patterns` occurs in `text`, or in `code` when there is one. */
  function AnyPatternIn(patterns: seq<string>, text: string, code: string): (r: bool)
    ensures r <==> exists i :: 0 <= i < |patterns| &&
                    (Contains(text, patterns[i]) || (code != "" && Contains(code, patterns[i])))
  {
    if patterns == [] then false
    else
      var rest := AnyPatternIn(patterns[1..], text, code);
      assert forall i :: 1 <= i < |patterns| ==> patterns[i] == patterns[1..][i - 1];
      (Contains(text, patterns[0]) || (code != "" && Contains(code, patterns[0]))) || rest
  }

  /** `isNetworkError`: no error is not a network error; an error is one
      exactly when one of the ten patterns occurs in `message` (or, when
      that is empty, in `toString()`), or in a non-empty `code`. */
  function IsNetworkError(e: Option<ErrorInfo>): (r: bool)
    ensures r <==> (e.Some? &&
      exists i :: 0 <= i < |NetworkPatterns| &&
        (Contains(ErrorText(e.value), NetworkPatterns[i]) ||
         (e.value.code != "" && Contains(e.value.code, NetworkPatterns[i]))))
  {
    e.Some? && AnyPatternIn(NetworkPatterns, ErrorText(e.value), e.value.code)
  }

  /** Any error whose text holds one of the ten patterns is a network error,
      whatever surrounds the pattern. */
  lemma NetworkErrorByPattern(e: ErrorInfo, i: nat, before: string, after: string)
    requires i < |NetworkPatterns|
    requires ErrorText(e) == before + NetworkPatterns[i] + after
    ensures IsNetworkError(Some(e))
  {
    ContainsMiddle(before, NetworkPatterns[i], after);
  }

  /** An error with neither text nor code matching a pattern is not retried. */
  lemma NotNetworkError(e: ErrorInfo)
    requires forall i :: 0 <= i < |NetworkPatterns| ==>
               !Contains(ErrorText(e), NetworkPatterns[i]) && !Contains(e.code, NetworkPatterns[i])
    ensures !IsNetworkError(Some(e))
    ensures !IsNetworkError(None)
  {
  }

  /** The row-level-security refusal that switches cloud saving off: the
      message names the policy violation (an empty message cannot). */
  function IsRlsViolation(e: ErrorInfo): (r: bool)
    ensures r <==> Contains(e.message, RlsMarker)
  {
    e.message != "" && Contains(e.message, RlsMarker)
  }

  /** `Math.pow(2, n)`. */
  function Pow2(n: nat): (r: nat)
    ensures r >= 1
  {
    if n == 0 then 1 else 2 * Pow2(n - 1)
  }

  /** The wait before the attempt after attempt `attempt`:
      `min(1000 * 2^(attempt - 1), 5000)` milliseconds. */
  function Backoff(attempt: nat): (r: nat)
    requires attempt >= 1
    ensures BaseDelayMs <= r <= MaxDelayMs
  {
    var d := BaseDelayMs * Pow2(attempt - 1);
    if d < MaxDelayMs then d else MaxDelayMs
  }

  /** `2^n` grows with `n`. */
  lemma {:induction false} Pow2Monotone(m: nat, n: nat)
    requires m <= n
    ensures Pow2(m) <= Pow2(n)
  {
    if m < n {
      Pow2Monotone(m, n - 1);
    }
  }

  /** The waits are 1, 2 and 4 seconds, then 5 seconds from the fourth on;
      they never shrink and never pass 5 seconds. */
  lemma BackoffValues(attempt: nat)
    requires attempt >= 1
    ensures BaseDelayMs <= Backoff(attempt) <= MaxDelayMs
    ensures attempt == 1 ==> Backoff(attempt) == 1000
    ensures attempt == 2 ==> Backoff(attempt) == 2000
    ensures attempt == 3 ==> Backoff(attempt) == 4000
    ensures attempt >= 4 ==> Backoff(attempt) == 5000
    ensures Backoff(attempt) <= Backoff(attempt + 1)
  {
    Pow2Monotone(attempt - 1, attempt);
    if attempt >= 4 {
      Pow2Monotone(3, attempt - 1);
      assert Pow2(3) == 8;
    }
  }

  /** Cloud saving is tried only when it is switched on and the user id is
      present and not a locally generated one. */
  function CloudEligible(cloudOn: bool, userId: Option<string>): (r: bool)
    ensures !cloudOn || userId.None? ==> !r
    ensures userId.Some? && LocalUserPrefix <= userId.value ==> !r
    ensures r ==> |userId.value| > 0
  {
    cloudOn && userId.Some? && userId.value != "" && !(LocalUserPrefix <= userId.value)
  }

  /** What the profile lookup of one attempt answered. */
  datatype SelectResult =
    | ProfileFound                      // a row, or an error other than 406
    | ProfileMissing                    // an error with code 406
    | SelectThrew(error: ErrorInfo)     // the lookup threw

  /** What the upsert of one attempt answered (an error it returned and one
      it threw are handled alike). */
  datatype UpsertResult = UpsertOk | UpsertFailed(error: ErrorInfo)

  /** The backend's answers during one attempt. */
  datatype Attempt = Attempt(select: SelectResult, upsert: UpsertResult)

  /** How one attempt ends. */
  datatype Verdict =
    | Saved       // the upsert succeeded
    | Disabled    // no profile, or a row-level-security refusal: cloud saving goes off
    | GaveUp      // payload too large, or an error that is not a network error
    | Transient   // a network error: retried if attempts remain

  /** An error after the profile lookup started: a refusal switches cloud
      saving off, a network error may be retried, any other error ends the save. */
  function ErrorVerdict(e: ErrorInfo): (v: Verdict)
    ensures v == Transient <==> !IsRlsViolation(e) && IsNetworkError(Some(e))
    ensures v == Disabled <==> IsRlsViolation(e)
    ensures v != Saved
  {
    if IsRlsViolation(e) then Disabled
    else if IsNetworkError(Some(e)) then Transient
    else GaveUp
  }

  /** One attempt: the lookup, then the size check, then the upsert. It
      succeeds only when all three pass; it is retried only when the error
      it ended with is a network error and not a refusal; it switches cloud
      saving off when the profile is missing or the error is a refusal. */
  function Classify(a: Attempt, payloadChars: nat): (v: Verdict)
    ensures v == Saved <==> a.select == ProfileFound && payloadChars <= MaxPayloadChars && a.upsert == UpsertOk
    ensures v == Transient <==>
      (a.select.SelectThrew? && !IsRlsViolation(a.select.error) && IsNetworkError(Some(a.select.error))) ||
      (a.select == ProfileFound && payloadChars <= MaxPayloadChars && a.upsert.UpsertFailed? &&
       !IsRlsViolation(a.upsert.error) && IsNetworkError(Some(a.upsert.error)))
    ensures v == Disabled <==>
      a.select == ProfileMissing ||
      (a.select.SelectThrew? && IsRlsViolation(a.select.error)) ||
      (a.select == ProfileFound && payloadChars <= MaxPayloadChars && a.upsert.UpsertFailed? &&
       IsRlsViolation(a.upsert.error))
    ensures a.select == ProfileFound && payloadChars > MaxPayloadChars ==> v == GaveUp
  {
    match a.select
    case SelectThrew(e) => ErrorVerdict(e)
    case ProfileMissing => Disabled
    case ProfileFound =>
      if payloadChars > MaxPayloadChars then GaveUp
      else match a.upsert
        case UpsertOk => Saved
        case UpsertFailed(e) => ErrorVerdict(e)
  }

  /** The attempts of `saveDataToSupabase`, given how each one ends:
      `verdicts[k]` is the verdict of attempt `k + 1`. Attempts are made one
      after another, at most `maxRetries` of them; every attempt but the
      last ended in a network failure and was followed by its back-off
      wait; the last one ended the save, by succeeding, by failing in a way
      that is not retried, or by being attempt number `maxRetries`. Returns
      how many attempts were made and the waits between them. */
  method RunAttempts(maxRetries: int, verdicts: seq<Verdict>) returns (made: nat, delays: seq<nat>)
    requires maxRetries <= |verdicts|
    ensures maxRetries >= 1 ==> 1 <= made <= maxRetries
    ensures maxRetries < 1 ==> made == 0
    ensures forall k :: 0 <= k < made - 1 ==> verdicts[k] == Transient
    ensures made > 0 ==> made == maxRetries || verdicts[made - 1] != Transient
    ensures |delays| == (if made > 0 then made - 1 else 0)
    ensures forall k :: 0 <= k < |delays| ==> delays[k] == Backoff(k + 1)
  {
    made, delays := 0, [];
    var attempt := 1;
    while attempt <= maxRetries
      invariant 1 <= attempt && made == attempt - 1
      invariant maxRetries >= 1 ==> attempt <= maxRetries
      invariant maxRetries < 1 ==> attempt == 1
      invariant forall k :: 0 <= k < made ==> verdicts[k] == Transient
      invariant |delays| == made
      invariant forall k :: 0 <= k < |delays| ==> delays[k] == Backoff(k + 1)
    {
      made := attempt;
      if verdicts[attempt - 1] != Transient || attempt == maxRetries {
        return;
      }
      delays := delays + [Backoff(attempt)];
      attempt := attempt + 1;
    }
  }

  /** `saveDataToSupabase`. `answers[k]` is what the backend answers on
      attempt `k + 1`. Nothing is tried unless cloud saving is eligible;
      otherwise the attempts are made as `RunAttempts` says, the document
      is saved exactly when the last attempt succeeded, and cloud saving
      stays on unless the last attempt switched it off. Returns whether the
      document was saved, how many attempts were made, the waits between
      them, and whether cloud saving is still switched on. */
  method SaveToCloud(cloudOn: bool, userId: Option<string>, maxRetries: int,
                     payloadChars: nat, answers: seq<Attempt>)
    returns (saved: bool, made: nat, delays: seq<nat>, stillOn: bool)
    requires maxRetries <= |answers|
    ensures !CloudEligible(cloudOn, userId) ==> !saved && made == 0 && delays == [] && stillOn == cloudOn
    ensures CloudEligible(cloudOn, userId) && maxRetries >= 1 ==> 1 <= made <= maxRetries
    ensures maxRetries < 1 ==> made == 0
    ensures forall k :: 0 <= k < made - 1 ==> Classify(answers[k], payloadChars) == Transient
    ensures made > 0 ==> made == maxRetries || Classify(answers[made - 1], payloadChars) != Transient
    ensures |delays| == (if made > 0 then made - 1 else 0)
    ensures forall k :: 0 <= k < |delays| ==> delays[k] == Backoff(k + 1)
    ensures saved <==> made > 0 && Classify(answers[made - 1], payloadChars) == Saved
    ensures stillOn <==> cloudOn && !(made > 0 && Classify(answers[made - 1], payloadChars) == Disabled)
  {
    saved, made, delays, stillOn := false, 0, [], cloudOn;
    if !CloudEligible(cloudOn, userId) {
      return;
    }
    var verdicts := seq(|answers|, k requires 0 <= k < |answers| => Classify(answers[k], payloadChars));
    assert forall k :: 0 <= k < |answers| ==> verdicts[k] == Classify(answers[k], payloadChars);
    made, delays := RunAttempts(maxRetries, verdicts);
    if made > 0 {
      // The attempt that ended the loop decides the result.
      saved := verdicts[made - 1] == Saved;
      stillOn := verdicts[made - 1] != Disabled;
    }
  }
}
