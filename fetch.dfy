/**
 * Bounded retry of streetview/download.py (fetch_panorama_tile and its async twin
 * fetch_panorama_tile_async). The HTTP client and the image decoder are replaced by a
 * transport: for a URL and an attempt number it gives the outcome of that attempt.
 */
module Fetch {
  import opened Images
  import opened Tiles

  /** DEFAULT_MAX_RETRIES, the default for max_retries; callers here pass max_retries explicitly. */
  const DefaultMaxRetries: int := 6

  /**
   * What one attempt of get-and-decode gives: a decoded tile, a connection error (the only
   * retried error: requests.ConnectionError, or httpx.RequestError in the async twin), or
   * any other exception, which propagates.
   */
  datatype Attempt = Received(image: TileImage) | ConnErr | OtherErr(cause: string)

  /** transport(url, k) is the outcome of the k-th attempt (from 0) on `url`. */
  type Transport = (string, nat) -> Attempt

  /** The exception a fetch ends with: "Max retries exceeded." or the propagated one. */
  datatype FetchError = MaxRetriesExceeded | Raised(cause: string)

  datatype FetchResult = Fetched(image: TileImage) | Failed(error: FetchError)

  /** How a fetch ended, how many attempts it made and how many times it slept. */
  datatype Outcome = Outcome(result: FetchResult, attempts: nat, sleeps: nat)

  /** Max(0, maxRetries): the length of range(max_retries). */
  function AttemptBudget(maxRetries: int): nat {
    if maxRetries < 0 then 0 else maxRetries
  }

  /**
   * The retry loop from attempt `done` on, every earlier attempt having been a connection
   * error followed by one sleep.
   */
  function RetryFrom(transport: Transport, url: string, maxRetries: int, done: nat): Outcome
    decreases maxRetries - done
  {
    if done >= maxRetries then Outcome(Failed(MaxRetriesExceeded), done, done)
    else match transport(url, done)
      case Received(image) => Outcome(Fetched(image), done + 1, done)
      case OtherErr(cause) => Outcome(Failed(Raised(cause)), done + 1, done)
      case ConnErr => RetryFrom(transport, url, maxRetries, done + 1)
  }

  /** The outcome of fetch_panorama_tile on `url`. */
  function FetchSpec(transport: Transport, url: string, maxRetries: int): Outcome {
    RetryFrom(transport, url, maxRetries, 0)
  }

  /** Every attempt in [from, to) was a connection error. */
  predicate ConnErrsBetween(transport: Transport, url: string, from: nat, to: int) {
    forall k: nat :: from <= k < to ==> transport(url, k).ConnErr?
  }

  /** What the retry loop from attempt `done` on can end with. */
  predicate Explains(transport: Transport, url: string, maxRetries: int, done: nat, o: Outcome) {
    done <= o.attempts <= (if maxRetries < done then done else maxRetries) &&
    match o.result
      case Fetched(image) =>
        o.attempts > done && ConnErrsBetween(transport, url, done, o.attempts - 1) &&
        transport(url, o.attempts - 1) == Received(image) && o.sleeps == o.attempts - 1
      case Failed(Raised(cause)) =>
        o.attempts > done && ConnErrsBetween(transport, url, done, o.attempts - 1) &&
        transport(url, o.attempts - 1) == OtherErr(cause) && o.sleeps == o.attempts - 1
      case Failed(MaxRetriesExceeded) =>
        o.attempts == (if maxRetries < done then done else maxRetries) &&
        ConnErrsBetween(transport, url, done, o.attempts) && o.sleeps == o.attempts
  }

  lemma {:induction false} RetryFromExplained(transport: Transport, url: string, maxRetries: int, done: nat)
    ensures Explains(transport, url, maxRetries, done, RetryFrom(transport, url, maxRetries, done))
    decreases maxRetries - done
  {
    if done < maxRetries && transport(url, done).ConnErr? {
      RetryFromExplained(transport, url, maxRetries, done + 1);
    }
  }

  /**
   * The three ways a fetch ends. All attempts but the last were connection errors, each
   * followed by one sleep, and there are at most max(0, max_retries) attempts; the fetch
   * returns the image of the first successful attempt, propagates the first other
   * exception at once, or raises "Max retries exceeded" after exactly max(0, max_retries)
   * attempts and as many sleeps.
   */
  lemma FetchOutcome(transport: Transport, url: string, maxRetries: int)
    ensures var o := FetchSpec(transport, url, maxRetries);
      o.attempts <= AttemptBudget(maxRetries) &&
      ConnErrsBetween(transport, url, 0, o.attempts - 1) &&
      (o.result.Fetched? ==>
        o.attempts >= 1 && transport(url, o.attempts - 1) == Received(o.result.image) && o.sleeps == o.attempts - 1) &&
      (o.result == Failed(MaxRetriesExceeded) ==>
        o.attempts == AttemptBudget(maxRetries) && o.sleeps == o.attempts &&
        ConnErrsBetween(transport, url, 0, o.attempts)) &&
      (o.result.Failed? && o.result.error.Raised? ==>
        o.attempts >= 1 && transport(url, o.attempts - 1) == OtherErr(o.result.error.cause) &&
        o.sleeps == o.attempts - 1)
  {
    RetryFromExplained(transport, url, maxRetries, 0);
  }

  lemma {:induction false} RetryFromReaches(transport: Transport, url: string, maxRetries: int, done: nat, k: nat)
    requires done <= k < maxRetries
    requires ConnErrsBetween(transport, url, done, k)
    ensures RetryFrom(transport, url, maxRetries, done) == RetryFrom(transport, url, maxRetries, k)
    decreases k - done
  {
    if done < k {
      assert transport(url, done).ConnErr?;
      RetryFromReaches(transport, url, maxRetries, done + 1, k);
    }
  }

  /**
   * A fetch whose first k attempts fail to connect and whose next attempt, still within
   * the budget, succeeds returns that image after k + 1 attempts and k sleeps (with
   * k = max_retries - 1: the last allowed attempt still counts).
   */
  lemma FetchSucceedsAt(transport: Transport, url: string, maxRetries: int, k: nat, image: TileImage)
    requires k < maxRetries
    requires ConnErrsBetween(transport, url, 0, k) && transport(url, k) == Received(image)
    ensures FetchSpec(transport, url, maxRetries) == Outcome(Fetched(image), k + 1, k)
  {
    RetryFromReaches(transport, url, maxRetries, 0, k);
  }

  /** Any other exception propagates from the attempt that raised it, without retry. */
  lemma FetchPropagatesAt(transport: Transport, url: string, maxRetries: int, k: nat, cause: string)
    requires k < maxRetries
    requires ConnErrsBetween(transport, url, 0, k) && transport(url, k) == OtherErr(cause)
    ensures FetchSpec(transport, url, maxRetries) == Outcome(Failed(Raised(cause)), k + 1, k)
  {
    RetryFromReaches(transport, url, maxRetries, 0, k);
  }

  lemma {:induction false} RetryFromExhausts(transport: Transport, url: string, maxRetries: int, done: nat)
    requires ConnErrsBetween(transport, url, done, maxRetries)
    ensures RetryFrom(transport, url, maxRetries, done) ==
      var n := if maxRetries < done then done else maxRetries;
      Outcome(Failed(MaxRetriesExceeded), n, n)
    decreases maxRetries - done
  {
    if done < maxRetries {
      assert transport(url, done).ConnErr?;
      RetryFromExhausts(transport, url, maxRetries, done + 1);
    }
  }

  /**
   * When every attempt in the budget fails to connect, the fetch raises "Max retries
   * exceeded" after exactly max(0, max_retries) attempts and sleeps; with max_retries <= 0
   * it makes no attempt at all.
   */
  lemma FetchExhausted(transport: Transport, url: string, maxRetries: int)
    requires ConnErrsBetween(transport, url, 0, maxRetries)
    ensures FetchSpec(transport, url, maxRetries) ==
      Outcome(Failed(MaxRetriesExceeded), AttemptBudget(maxRetries), AttemptBudget(maxRetries))
  {
    RetryFromExhausts(transport, url, maxRetries, 0);
  }

  /**
   * fetch_panorama_tile: the for loop over range(max_retries), as a while loop over the
   * attempt counter, returning on the first successful attempt, sleeping once after each
   * connection error, and raising "Max retries exceeded" when the range runs out.
   */
  method FetchPanoramaTile(transport: Transport, info: TileInfo, maxRetries: int)
    returns (result: FetchResult, attempts: nat, sleeps: nat)
    ensures Outcome(result, attempts, sleeps) == FetchSpec(transport, info.fileurl, maxRetries)
  {
    attempts, sleeps := 0, 0;
    while attempts < maxRetries
      invariant sleeps == attempts
      invariant RetryFrom(transport, info.fileurl, maxRetries, attempts) == FetchSpec(transport, info.fileurl, maxRetries)
      decreases maxRetries - attempts
    {
      var attempt := transport(info.fileurl, attempts);
      attempts := attempts + 1;
      match attempt {
        case Received(image) =>
          return Fetched(image), attempts, sleeps;
        case OtherErr(cause) =>
          return Failed(Raised(cause)), attempts, sleeps;
        case ConnErr =>
          sleeps := sleeps + 1;
      }
    }
    result := Failed(MaxRetriesExceeded);
  }

  /**
   * fetch_panorama_tile_async: the same loop with httpx.RequestError as the retried error
   * and asyncio.sleep as the pause; suspension is not modelled.
   */
  method FetchPanoramaTileAsync(transport: Transport, info: TileInfo, maxRetries: int)
    returns (result: FetchResult, attempts: nat, sleeps: nat)
    ensures Outcome(result, attempts, sleeps) == FetchSpec(transport, info.fileurl, maxRetries)
  {
    result, attempts, sleeps := FetchPanoramaTile(transport, info, maxRetries);
  }
}
