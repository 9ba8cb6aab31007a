/**
 * `waitForVideoElement(timeoutMs)`: poll the document for a `<video>` element
 * until one is found or the timeout has elapsed. The clock and the document
 * query are the environment's: each turn of the loop is given as a sample
 * holding the clock reading taken by the loop test and what the query returned.
 */
module VideoWait {
  import opened Optional

  /** The sleep between two polls. */
  const PollIntervalMs: nat := 100

  /** The timeout `resetToZeroSafely` passes. */
  const VideoTimeoutMs: nat := 10000

  datatype Sample<V> = Sample(now: int, video: Option<V>)

  /**
   * `Found`: the element the poll at index `at` returned. `TimedOut`: the loop
   * test at index `at` saw the timeout elapsed (the caller gets `null`).
   * `StillWaiting`: the samples ran out while the loop is still polling.
   */
  datatype WaitOutcome<V> = Found(video: V, at: nat) | TimedOut(at: nat) | StillWaiting

  /** Every turn before index `i` was within the timeout and found nothing. */
  ghost predicate NothingBefore<V>(start: int, timeoutMs: int, samples: seq<Sample<V>>, i: nat)
    requires i <= |samples|
  {
    forall j :: 0 <= j < i ==> samples[j].now - start < timeoutMs && samples[j].video.None?
  }

  /** Each turn sleeps at least the poll interval, so turn `j` reads the clock at least `j` intervals after the start. */
  ghost predicate Paced<V>(start: int, samples: seq<Sample<V>>) {
    forall j :: 0 <= j < |samples| ==> samples[j].now - start >= j * PollIntervalMs
  }

  method WaitForVideoElement<V>(start: int, timeoutMs: int, samples: seq<Sample<V>>) returns (r: WaitOutcome<V>)
    ensures r.Found? ==>
      && r.at < |samples|
      && samples[r.at].now - start < timeoutMs
      && samples[r.at].video == Some(r.video)
      && NothingBefore(start, timeoutMs, samples, r.at)
    ensures r.TimedOut? ==>
      && r.at < |samples|
      && samples[r.at].now - start >= timeoutMs
      && NothingBefore(start, timeoutMs, samples, r.at)
    ensures r.StillWaiting? ==> NothingBefore(start, timeoutMs, samples, |samples|)
    ensures Paced(start, samples) && timeoutMs >= 0 && |samples| * PollIntervalMs >= timeoutMs + PollIntervalMs ==>
      && !r.StillWaiting?
      && r.at * PollIntervalMs < timeoutMs + PollIntervalMs
  {
    var i := 0;
    while i < |samples|
      invariant 0 <= i <= |samples|
      invariant NothingBefore(start, timeoutMs, samples, i)
    {
      if samples[i].now - start >= timeoutMs {
        if Paced(start, samples) && i > 0 {
          assert samples[i - 1].now - start < timeoutMs;
          assert samples[i - 1].now - start >= (i - 1) * PollIntervalMs;
        }
        return TimedOut(i);
      }
      if samples[i].video.Some? {
        if Paced(start, samples) {
          assert samples[i].now - start >= i * PollIntervalMs;
        }
        return Found(samples[i].video.value, i);
      }
      i := i + 1;
    }
    if Paced(start, samples) && |samples| > 0 {
      assert samples[|samples| - 1].now - start < timeoutMs;
      assert samples[|samples| - 1].now - start >= (|samples| - 1) * PollIntervalMs;
    }
    return StillWaiting;
  }

  /**
   * The wait inside `resetToZeroSafely`, with its 10 s timeout: when polls are
   * at least the interval apart, it is decided by the 101st poll at the latest.
   */
  method WaitForAttemptVideo<V>(start: int, samples: seq<Sample<V>>) returns (r: WaitOutcome<V>)
    ensures r.Found? ==> r.at < |samples| && samples[r.at].video == Some(r.video) && samples[r.at].now - start < VideoTimeoutMs
    ensures r.TimedOut? ==> r.at < |samples| && samples[r.at].now - start >= VideoTimeoutMs
    ensures Paced(start, samples) && |samples| > 100 ==> !r.StillWaiting? && r.at <= 100
  {
    r := WaitForVideoElement(start, VideoTimeoutMs, samples);
  }
}
