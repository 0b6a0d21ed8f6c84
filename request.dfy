/** The retry policy of `ct_request`: each attempt issues one HTTP GET, a
    reply is accepted only with status 200, a Content-Type containing
    "application/json" and a body that parses, an Interrupt is re-raised at
    once, and any other failure is retried while fewer than `max_tries`
    attempts were made. The network is replaced by `outcome(n)`, the result
    of the n-th attempt (counting from 1, as the source's `tries` does). */
module CtRequest {
  import opened Util

  const JsonContentType := "application/json"

  /** What one attempt produced. `Response` carries the status code
      (`res.code.to_i`), the Content-Type header if present, and the parsed
      body if `JSON.parse` succeeds; `Raised` is any other exception inside
      the attempt (connection, TLS, timeout); `Interrupt` is `::Interrupt`. */
  datatype Attempt<J> =
    | Response(code: int, contentType: Option<string>, body: Option<J>)
    | Raised
    | Interrupt

  /** How the begin/rescue block treats an attempt. */
  datatype Verdict<J> = Accept(doc: J) | Retryable | Cancel

  /** The result of a whole `ct_request` call and the number of attempts made. */
  datatype Reply<J> =
    | Parsed(doc: J, tries: nat)
    | Interrupted(tries: nat)
    | Exhausted(tries: nat)

  /** A missing Content-Type makes `.index` raise, a wrong one makes the
      guard raise, an unparsable body makes `JSON.parse` raise: all three
      end in the generic rescue, like a transport failure. */
  function Classify<J>(a: Attempt<J>): (v: Verdict<J>)
    ensures v.Cancel? <==> a.Interrupt?
    ensures v.Accept? <==>
      a.Response? && a.code == 200 && a.contentType.Some?
      && Contains(a.contentType.value, JsonContentType) && a.body.Some?
    ensures v.Accept? ==> v.doc == a.body.value
  {
    match a
    case Interrupt => Cancel
    case Raised => Retryable
    case Response(code, ct, body) =>
      if code == 200 && ct.Some? && Contains(ct.value, JsonContentType) && body.Some?
      then Accept(body.value) else Retryable
  }

  /** Reference definition: the call's result once `tries - 1` attempts have
      failed in a retryable way. */
  function Retry<J>(outcome: nat -> Attempt<J>, maxTries: int, tries: nat): Reply<J>
    requires tries >= 1
    decreases if tries < maxTries then maxTries - tries else 0
  {
    match Classify(outcome(tries))
    case Accept(d) => Parsed(d, tries)
    case Cancel => Interrupted(tries)
    case Retryable => if tries < maxTries then Retry(outcome, maxTries, tries + 1) else Exhausted(tries)
  }

  /** What Retry promises: at most max(t, maxTries) attempts, every attempt
      before the last one retryable, and the last one decides. */
  lemma {:induction false} RetryFacts<J>(outcome: nat -> Attempt<J>, maxTries: int, t: nat)
    requires t >= 1
    ensures var r := Retry(outcome, maxTries, t);
      && t <= r.tries <= Max(t, maxTries)
      && (forall k :: t <= k < r.tries ==> Classify(outcome(k)).Retryable?)
      && (r.Parsed? ==> Classify(outcome(r.tries)) == Accept(r.doc))
      && (r.Interrupted? ==> outcome(r.tries).Interrupt?)
      && (r.Exhausted? ==> r.tries == Max(t, maxTries) && Classify(outcome(r.tries)).Retryable?)
    decreases if t < maxTries then maxTries - t else 0
  {
    if Classify(outcome(t)).Retryable? && t < maxTries {
      RetryFacts(outcome, maxTries, t + 1);
    }
  }

  /** The first accepted reply wins: if attempt `k` is accepted and every
      attempt before it was retryable, the call returns attempt k's document. */
  lemma {:induction false} FirstAcceptedWins<J>(outcome: nat -> Attempt<J>, maxTries: int, t: nat, k: nat)
    requires 1 <= t <= k <= Max(t, maxTries)
    requires forall j :: t <= j < k ==> Classify(outcome(j)).Retryable?
    requires Classify(outcome(k)).Accept?
    ensures Retry(outcome, maxTries, t) == Parsed(Classify(outcome(k)).doc, k)
    decreases k - t
  {
    if t < k {
      FirstAcceptedWins(outcome, maxTries, t + 1, k);
    }
  }

  /** `ct_request` as a loop over attempts. */
  method Request<J>(outcome: nat -> Attempt<J>, maxTries: int) returns (r: Reply<J>)
    ensures r == Retry(outcome, maxTries, 1)
    ensures 1 <= r.tries <= Max(1, maxTries)
    ensures forall k :: 1 <= k < r.tries ==> Classify(outcome(k)).Retryable?
    ensures r.Parsed? ==> Classify(outcome(r.tries)) == Accept(r.doc)
    ensures r.Interrupted? ==> outcome(r.tries).Interrupt?
    ensures r.Exhausted? ==> r.tries == Max(1, maxTries) && Classify(outcome(r.tries)).Retryable?
  {
    var tries: nat := 1;
    while true
      invariant 1 <= tries <= Max(1, maxTries)
      invariant forall k :: 1 <= k < tries ==> Classify(outcome(k)).Retryable?
      invariant Retry(outcome, maxTries, tries) == Retry(outcome, maxTries, 1)
      decreases Max(1, maxTries) - tries
    {
      var v := Classify(outcome(tries));
      match v
      case Accept(d) => return Parsed(d, tries);
      case Cancel => return Interrupted(tries);
      case Retryable =>
        if tries < maxTries {
          tries := tries + 1;
        } else {
          return Exhausted(tries);
        }
    }
  }

  // ---------------------------------------------------------------------
  // Scenarios
  // ---------------------------------------------------------------------

  /** Two transport failures, then an accepted reply. */
  function FailTwiceThenOk<J>(doc: J): nat -> Attempt<J>
  {
    (n: nat) => if n <= 2 then Raised else Response(200, Some("application/json; charset=utf-8"), Some(doc))
  }

  /** With three attempts allowed the third one succeeds; with two the call
      gives up after two attempts. */
  lemma RetryScenario<J>(doc: J)
    ensures Retry(FailTwiceThenOk(doc), 3, 1) == Parsed(doc, 3)
    ensures Retry(FailTwiceThenOk(doc), 2, 1) == Exhausted(2)
  {
    var ct := "application/json; charset=utf-8";
    assert OccursAt(ct, JsonContentType, 0);
    assert Classify(FailTwiceThenOk(doc)(3)) == Accept(doc);
  }

  /** An Interrupt on the first attempt ends the call there, whatever the limit. */
  lemma InterruptIsNotRetried<J>(outcome: nat -> Attempt<J>, maxTries: int)
    requires outcome(1).Interrupt?
    ensures Retry(outcome, maxTries, 1) == Interrupted(1)
  {
  }
}
