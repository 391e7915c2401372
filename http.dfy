/**
  * The request with retries (realtime_stock_price.py, `http_get`): up to
  * `MAX_RETRIES` attempts; the first answer with status 200 is returned;
  * every other attempt leaves one record in the error buffer (WARN for a bad
  * status, ERROR for an exception) and is followed by a pause taken from
  * `RETRY_BACKOFF`. After three failures the result is `None`.
  *
  * The network is a parameter: `replies[k]` is what attempt `k` (0-based)
  * brings back. The pauses are returned as durations instead of being slept.
  */
module Http {
  import opened Wrappers
  import opened Text
  import opened ErrorLog

  const MaxRetries: nat := 3
  const RetryBackoff: seq<real> := [0.5, 1.0, 2.0]

  /** What one attempt brings back: a response with its status and body, or an exception. */
  datatype Attempt<B> = Responded(status: int, body: B) | Raised(name: string, message: string)

  /** The network's answer to each of the three attempts, whether or not it is made. */
  type Replies<B> = r: seq<Attempt<B>> | |r| == MaxRetries witness [Raised("", ""), Raised("", ""), Raised("", "")]

  /** `resp.status_code == 200`. */
  predicate IsOk<B>(a: Attempt<B>) {
    a.Responded? && a.status == 200
  }

  /** `json.dumps({"attempt": k})`. */
  function AttemptContext(k: nat): string {
    "{\"attempt\": " + NatToString(k) + "}"
  }

  /** The record a failed attempt leaves; `k` is the 1-based attempt number. */
  function FailureEntry<B>(a: Attempt<B>, k: nat): LogEntry
    requires !IsOk(a)
  {
    match a
    case Responded(status, _) => LogEntry("warn", "HTTP", "get", "status_code=" + IntToString(status), Some(AttemptContext(k)))
    case Raised(name, message) => LogEntry("error", "HTTP", "get", name + ": " + message, Some(AttemptContext(k)))
  }

  /** The outcome of the attempts: the body of the accepted response, if any, the records left and the pauses taken. */
  datatype Retrieval<B> = Retrieval(body: Option<B>, failures: seq<LogEntry>, sleeps: seq<real>)

  /** The attempts from number `k` (0-based) on. */
  function Retry<B>(replies: Replies<B>, k: nat): (r: Retrieval<B>)
    requires k <= MaxRetries
    ensures |r.failures| == |r.sleeps| <= MaxRetries - k
    decreases MaxRetries - k
  {
    if k >= MaxRetries then Retrieval(None, [], [])
    else if IsOk(replies[k]) then Retrieval(Some(replies[k].body), [], [])
    else
      var rest := Retry(replies, k + 1);
      var pause := if k < |RetryBackoff| then [RetryBackoff[k]] else [];
      Retrieval(rest.body, [FailureEntry(replies[k], k + 1)] + rest.failures, pause + rest.sleeps)
  }

  /** `http_get`: try, log, back off; stop at the first status 200. */
  method HttpGet<B>(log: ErrorLogger, replies: Replies<B>, now: string) returns (body: Option<B>, sleeps: seq<real>)
    modifies log
    ensures body == Retry(replies, 0).body
    ensures sleeps == Retry(replies, 0).sleeps
    ensures log.records == old(log.records) + FormatRecords(now, Retry(replies, 0).failures)
  {
    sleeps := [];
    for attempt := 0 to MaxRetries
      invariant forall j :: 0 <= j < attempt ==> !IsOk(replies[j])
      invariant sleeps == RetryBackoff[..attempt]
      invariant log.records == old(log.records) + FormatRecords(now, FailuresBefore(replies, attempt))
    {
      var a := replies[attempt];
      if a.Responded? && a.status == 200 {
        assert Retry(replies, 0) == Retrieval(Some(a.body), FailuresBefore(replies, attempt), sleeps) by {
          RetrySplit(replies, attempt);
          RetryDone(replies, attempt);
        }
        return Some(a.body), sleeps;
      }
      log.Log(FailureEntry(a, attempt + 1), now);
      FormatRecordsAppend(old(log.records), now, FailuresBefore(replies, attempt), FailureEntry(a, attempt + 1));
      if attempt < |RetryBackoff| {
        sleeps := sleeps + [RetryBackoff[attempt]];
      }
      BackoffPrefix(attempt + 1);
    }
    assert Retry(replies, 0) == Retrieval(None, FailuresBefore(replies, MaxRetries), sleeps) by {
      RetrySplit(replies, MaxRetries);
    }
    body := None;
  }

  /** The records of attempts `0 .. k - 1`, all of which failed. */
  function FailuresBefore<B>(replies: Replies<B>, k: nat): (es: seq<LogEntry>)
    requires k <= MaxRetries && forall j :: 0 <= j < k ==> !IsOk(replies[j])
    ensures |es| == k
  {
    if k == 0 then [] else FailuresBefore(replies, k - 1) + [FailureEntry(replies[k - 1], k)]
  }

  /** After `k` failed attempts, the retries are those records and pauses followed by the ones from attempt `k` on. */
  lemma {:induction false} RetrySplit<B>(replies: Replies<B>, k: nat)
    requires k <= MaxRetries
    requires forall j :: 0 <= j < k ==> !IsOk(replies[j])
    ensures Retry(replies, 0).body == Retry(replies, k).body
    ensures Retry(replies, 0).failures == FailuresBefore(replies, k) + Retry(replies, k).failures
    ensures Retry(replies, 0).sleeps == RetryBackoff[..k] + Retry(replies, k).sleeps
  {
    if k > 0 {
      RetrySplit(replies, k - 1);
      RetryStep(replies, k - 1);
      var rest := Retry(replies, k);
      Regroup(FailuresBefore(replies, k - 1), [FailureEntry(replies[k - 1], k)], rest.failures);
      Regroup(RetryBackoff[..k - 1], [RetryBackoff[k - 1]], rest.sleeps);
      BackoffPrefix(k);
    }
  }

  lemma Regroup<T>(a: seq<T>, b: seq<T>, c: seq<T>)
    ensures a + (b + c) == (a + b) + c
  {
  }

  lemma BackoffPrefix(k: nat)
    requires 1 <= k <= |RetryBackoff|
    ensures RetryBackoff[..k] == RetryBackoff[..k - 1] + [RetryBackoff[k - 1]]
  {
  }

  /** A successful attempt ends the retries with its body. */
  lemma RetryDone<B>(replies: Replies<B>, k: nat)
    requires k < MaxRetries && IsOk(replies[k])
    ensures Retry(replies, k) == Retrieval(Some(replies[k].body), [], [])
  {
  }

  /** A failed attempt: its record and its pause come before those of the attempts after it. */
  lemma RetryStep<B>(replies: Replies<B>, k: nat)
    requires k < MaxRetries && !IsOk(replies[k])
    ensures Retry(replies, k).body == Retry(replies, k + 1).body
    ensures Retry(replies, k).failures == [FailureEntry(replies[k], k + 1)] + Retry(replies, k + 1).failures
    ensures Retry(replies, k).sleeps == [RetryBackoff[k]] + Retry(replies, k + 1).sleeps
  {
  }

  // ---------------------------------------------------------------------
  // What the attempts amount to
  // ---------------------------------------------------------------------

  /**
    * From attempt `k` on: a body is returned exactly when the attempts ran
    * out before the third failure, and it is the body of the attempt right
    * after the recorded failures, which got status 200.
    */
  lemma {:induction false} RetryShape<B>(replies: Replies<B>, k: nat)
    requires k <= MaxRetries
    ensures Retry(replies, k).body.Some? <==> k + |Retry(replies, k).failures| < MaxRetries
    ensures Retry(replies, k).body.Some? ==>
      (k + |Retry(replies, k).failures| < MaxRetries && IsOk(replies[k + |Retry(replies, k).failures|])
       && Retry(replies, k).body.value == replies[k + |Retry(replies, k).failures|].body)
    decreases MaxRetries - k
  {
    if k < MaxRetries && !IsOk(replies[k]) {
      RetryShape(replies, k + 1);
      RetryStep(replies, k);
      assert k + |Retry(replies, k).failures| == (k + 1) + |Retry(replies, k + 1).failures|;
    }
  }

  /**
    * From attempt `k` on, the `i`-th record is that of attempt `k + i`, which
    * failed, numbered `k + i + 1`.
    */
  lemma {:induction false} RetryEntries<B>(replies: Replies<B>, k: nat)
    requires k <= MaxRetries
    ensures forall i :: 0 <= i < |Retry(replies, k).failures| ==>
      !IsOk(replies[k + i]) && Retry(replies, k).failures[i] == FailureEntry(replies[k + i], k + i + 1)
    decreases MaxRetries - k
  {
    if k < MaxRetries && !IsOk(replies[k]) {
      RetryEntries(replies, k + 1);
      RetryStep(replies, k);
      var rest := Retry(replies, k + 1);
      var r := Retry(replies, k);
      assert r.failures[0] == FailureEntry(replies[k + 0], k + 0 + 1);
      forall i | 1 <= i < |r.failures|
        ensures !IsOk(replies[k + i]) && r.failures[i] == FailureEntry(replies[k + i], k + i + 1)
      {
        assert r.failures[i] == rest.failures[i - 1];
        assert k + i == (k + 1) + (i - 1);
      }
    } else if k < MaxRetries {
      RetryDone(replies, k);
    } else {
      assert Retry(replies, k) == Retrieval(None, [], []);
    }
  }

  /** From attempt `k` on, the `i`-th pause is `RETRY_BACKOFF[k + i]`. */
  lemma {:induction false} RetryPauses<B>(replies: Replies<B>, k: nat)
    requires k <= MaxRetries
    ensures forall i :: 0 <= i < |Retry(replies, k).sleeps| ==> Retry(replies, k).sleeps[i] == RetryBackoff[k + i]
    decreases MaxRetries - k
  {
    if k < MaxRetries && !IsOk(replies[k]) {
      RetryPauses(replies, k + 1);
      RetryStep(replies, k);
      var rest := Retry(replies, k + 1);
      var r := Retry(replies, k);
      assert r.sleeps[0] == RetryBackoff[k + 0];
      forall i | 1 <= i < |r.sleeps|
        ensures r.sleeps[i] == RetryBackoff[k + i]
      {
        assert r.sleeps[i] == rest.sleeps[i - 1];
      }
    } else if k < MaxRetries {
      RetryDone(replies, k);
    } else {
      assert Retry(replies, k) == Retrieval(None, [], []);
    }
  }

  /**
    * At most three attempts; one record per failed attempt, attempt `i`
    * numbered `i + 1`; after failure `i` a pause of `RETRY_BACKOFF[i]`
    * (0.5, 1.0, 2.0 seconds), including after the last one.
    */
  lemma RetryRecords<B>(replies: Replies<B>)
    ensures |Retry(replies, 0).failures| <= MaxRetries
    ensures |Retry(replies, 0).sleeps| == |Retry(replies, 0).failures|
    ensures forall i :: 0 <= i < |Retry(replies, 0).failures| ==>
      !IsOk(replies[i]) && Retry(replies, 0).failures[i] == FailureEntry(replies[i], i + 1)
    ensures forall i :: 0 <= i < |Retry(replies, 0).sleeps| ==> Retry(replies, 0).sleeps[i] == RetryBackoff[i]
  {
    RetryShape(replies, 0);
    var r := Retry(replies, 0);
    forall i | 0 <= i < |r.failures|
      ensures !IsOk(replies[i]) && r.failures[i] == FailureEntry(replies[i], i + 1)
    {
      RetryEntries(replies, 0);
      assert !IsOk(replies[0 + i]) && r.failures[i] == FailureEntry(replies[0 + i], 0 + i + 1);
    }
    forall i | 0 <= i < |r.sleeps|
      ensures r.sleeps[i] == RetryBackoff[i]
    {
      RetryPauses(replies, 0);
      assert r.sleeps[i] == RetryBackoff[0 + i];
    }
  }

  /**
    * A response comes back exactly when one of the three attempts got status
    * 200, and it is the first such attempt's.
    */
  lemma RetrySucceeds<B>(replies: Replies<B>)
    ensures Retry(replies, 0).body.Some? <==> exists i :: 0 <= i < MaxRetries && IsOk(replies[i])
    ensures Retry(replies, 0).body.Some? ==>
      var n := |Retry(replies, 0).failures|;
      n < MaxRetries && IsOk(replies[n]) && Retry(replies, 0).body.value == replies[n].body
      && forall j :: 0 <= j < n ==> !IsOk(replies[j])
  {
    RetryShape(replies, 0);
    RetryEntries(replies, 0);
    var r := Retry(replies, 0);
    if r.body.None? {
      forall i | 0 <= i < MaxRetries
        ensures !IsOk(replies[i])
      {
        assert !IsOk(replies[0 + i]) && r.failures[i] == FailureEntry(replies[0 + i], 0 + i + 1);
      }
    } else {
      forall j | 0 <= j < |r.failures|
        ensures !IsOk(replies[j])
      {
        assert !IsOk(replies[0 + j]) && r.failures[j] == FailureEntry(replies[0 + j], 0 + j + 1);
      }
    }
  }

  /** Two failures and then a 200: the third body, two records, and the first two pauses (0.5 s, then 1.0 s). */
  lemma RetryThirdTime<B>(replies: Replies<B>)
    requires !IsOk(replies[0]) && !IsOk(replies[1]) && IsOk(replies[2])
    ensures Retry(replies, 0).body == Some(replies[2].body)
    ensures Retry(replies, 0).failures == [FailureEntry(replies[0], 1), FailureEntry(replies[1], 2)]
    ensures Retry(replies, 0).sleeps == [0.5, 1.0]
  {
    RetryDone(replies, 2);
  }

  /** When all three attempts fail: `None`, three records and pauses of 0.5, 1.0 and 2.0 seconds. */
  lemma RetryGivesUp<B>(replies: Replies<B>)
    requires !IsOk(replies[0]) && !IsOk(replies[1]) && !IsOk(replies[2])
    ensures Retry(replies, 0).body == None
    ensures Retry(replies, 0).failures == [FailureEntry(replies[0], 1), FailureEntry(replies[1], 2), FailureEntry(replies[2], 3)]
    ensures Retry(replies, 0).sleeps == [0.5, 1.0, 2.0]
  {
    assert Retry(replies, 2).failures == [FailureEntry(replies[2], 3)];
  }

  /** A bad status is logged at WARN with the status code, and the attempt number as context. */
  lemma BadStatusRecord<B>(now: string, status: int, body: B, k: nat)
    requires status != 200
    ensures FormatRecord(now, FailureEntry(Responded(status, body), k))
      == now + " | " + "WARN" + " | " + "HTTP" + " | " + "get" + " | " + ("status_code=" + IntToString(status))
        + " | " + AttemptContext(k)
  {
    UpperWarn();
  }

  /** An exception is logged at ERROR as "Name: message", with the attempt number as context. */
  lemma ExceptionRecord<B>(now: string, name: string, message: string, k: nat)
    ensures FormatRecord(now, FailureEntry<B>(Raised(name, message), k))
      == now + " | " + "ERROR" + " | " + "HTTP" + " | " + "get" + " | " + (name + ": " + message)
        + " | " + AttemptContext(k)
  {
    UpperError();
  }

  lemma UpperWarn()
    ensures Upper("warn") == "WARN"
  {
  }

  lemma UpperError()
    ensures Upper("error") == "ERROR"
  {
  }
}
