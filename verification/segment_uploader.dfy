/** `sendAudioSegment` of the streaming recording context
    (`frontend/parrot/context/BackgroundRecordingContext.tsx`): POST one audio
    segment, retrying up to `MaxRetries` times, with every attempt aborting
    the previous attempt's `AbortController` before installing its own.
    The network is an abstract `transport`: attempt number `k` (the
    `retryCount` it runs with) meets outcome `transport(k)`. */
module SegmentUploader {
  import opened Nullable

  const MaxRetries: nat := 3
  const RetryDelay: nat := 1000

  /** What one `fetch` to `/stream-audio` comes back with: a thrown network
      error, or a response with an HTTP status whose JSON body did or did not
      parse (`response.json()` throwing is caught like any other failure). */
  datatype Attempt = NetworkError | Response(status: int, jsonParsed: bool)

  /** `response.ok` holds for statuses 200 to 299, and the body must parse. */
  predicate Succeeded(a: Attempt) {
    a.Response? && 200 <= a.status <= 299 && a.jsonParsed
  }

  /** `abortControllerRef` together with every controller created so far:
      controllers are numbered `0 .. issued-1` in creation order. */
  datatype Controllers = Controllers(current: Option<nat>, issued: nat, aborted: set<nat>)

  /** Controllers created and never aborted: those whose requests may still be in flight. */
  function Live(c: Controllers): set<nat> {
    set id | 0 <= id < c.issued && id !in c.aborted
  }

  /** The ref holds the newest controller and every other one was aborted. */
  ghost predicate Valid(c: Controllers) {
    && (forall id :: id in c.aborted ==> id < c.issued)
    && (forall id :: id in Live(c) ==> c.current == Some(id))
    && (c.current.Some? ==> c.current.value < c.issued)
  }

  const NoControllers := Controllers(None, 0, {})

  /** The start of every attempt: abort the controller in the ref, if any, then install a new one. */
  function Install(c: Controllers): (r: Controllers)
    ensures r.current == Some(c.issued) && r.issued == c.issued + 1
    ensures c.current.Some? ==> c.current.value in r.aborted
    ensures Valid(c) ==> Valid(r) && Live(r) == {c.issued}
  {
    var r := Controllers(Some(c.issued), c.issued + 1,
                         if c.current.Some? then c.aborted + {c.current.value} else c.aborted);
    assert forall id :: id in Live(r) && id != c.issued ==> id in Live(c);
    r
  }

  /** The end of `stopBackgroundRecording`: abort the controller in the ref and clear it. */
  function Abort(c: Controllers): (r: Controllers)
    ensures r.current == None && r.issued == c.issued
    ensures Valid(c) ==> Valid(r) && Live(r) == {}
  {
    if c.current.Some? then Controllers(None, c.issued, c.aborted + {c.current.value}) else c
  }

  /** The outcome of one `sendAudioSegment(audioData)` call: how many POSTs it
      made, whether one was acknowledged (otherwise the last error is rethrown),
      the retry delay waited in total, and the controllers afterwards. */
  datatype SendResult = SendResult(attempts: nat, delivered: bool, waited: nat, controllers: Controllers)

  /** `sendAudioSegment(audioData, retryCount)`. The request body does not
      influence control flow, so it is not a parameter. */
  function Send(transport: nat -> Attempt, retryCount: nat, c: Controllers): (r: SendResult)
    // one attempt at least, and no more than the retry budget leaves
    ensures r.attempts >= 1
    ensures retryCount <= MaxRetries ==> r.attempts <= MaxRetries + 1 - retryCount
    ensures retryCount > MaxRetries ==> r.attempts == 1
    // every attempt before the last failed; the last decides delivery
    ensures forall k :: retryCount <= k < retryCount + r.attempts - 1 ==> !Succeeded(transport(k))
    ensures r.delivered <==> Succeeded(transport(retryCount + r.attempts - 1))
    // a failure is rethrown only once the retries are used up
    ensures !r.delivered ==> retryCount + r.attempts - 1 >= MaxRetries
    ensures r.waited == RetryDelay * (r.attempts - 1)
    // one controller per attempt, and only the last one is live
    ensures r.controllers.issued == c.issued + r.attempts
    ensures r.controllers.current == Some(r.controllers.issued - 1)
    ensures Valid(c) ==> Valid(r.controllers) && Live(r.controllers) == {r.controllers.issued - 1}
    decreases if retryCount <= MaxRetries then MaxRetries - retryCount else 0
  {
    var c' := Install(c);
    if Succeeded(transport(retryCount)) then
      SendResult(1, true, 0, c')
    else if retryCount < MaxRetries then
      var rest := Send(transport, retryCount + 1, c');
      SendResult(rest.attempts + 1, rest.delivered, rest.waited + RetryDelay, rest.controllers)
    else
      SendResult(1, false, 0, c')
  }

  /** A transport that always fails sees exactly four POSTs before the error
      is rethrown, three retry delays apart. */
  lemma AlwaysFailingMakesFourAttempts(transport: nat -> Attempt, c: Controllers)
    requires forall k :: !Succeeded(transport(k))
    ensures Send(transport, 0, c).attempts == MaxRetries + 1 == 4
    ensures !Send(transport, 0, c).delivered
    ensures Send(transport, 0, c).waited == 3 * RetryDelay
  {
  }

  /** The first acknowledged attempt within the budget ends the retries. */
  lemma FirstSuccessStops(transport: nat -> Attempt, c: Controllers, k: nat)
    requires k <= MaxRetries && Succeeded(transport(k))
    requires forall j :: 0 <= j < k ==> !Succeeded(transport(j))
    ensures Send(transport, 0, c).delivered
    ensures Send(transport, 0, c).attempts == k + 1
  {
  }
}
