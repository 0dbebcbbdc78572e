/** What the two scrapers share: the constants, the scrape state, the stop
    condition, the per-item retry loop, the list of tasks in flight with its
    admission rule, and the command-line checks. */
module Crawl {
  import opened Wrappers
  import opened Text
  import Paths
  import TagGroups

  /** Most download tasks `main` lets run at once. */
  const MaxTasks: nat := 50
  /** Retries after the first attempt of an item: four attempts in all. */
  const MaxRetry: nat := 3
  /** Saved images between two resets of the timing samples. */
  const SampleInterval: nat := 1000

  /** The extensions accepted as images. */
  const ImageExt: set<string> := {
    ".png", ".jpg", ".jpeg", ".bmp", ".tiff", ".tif",
    ".webp", ".heic", ".heif", ".avif", ".jxl"
  }

  /** The extension of a download URL, lower-cased, as both scrapers compute it. */
  function UrlExtension(url: string): string
  {
    Lower(Paths.Splitext(url).1)
  }

  predicate IsImageUrl(url: string)
  {
    UrlExtension(url) in ImageExt
  }

  /** The extension filter judges a URL by its last extension alone, whatever its case. */
  lemma ImageUrlByExtension(x: string, e: string)
    requires |e| >= 1 && e[0] == '.' && '.' !in e[1..] && '/' !in e
    requires exists k :: Paths.RFind(x, '/') < k < |x| && x[k] != '.'
    ensures IsImageUrl(x + e) <==> Lower(e) in ImageExt
  {
    Paths.SplitextWithExt(x, e);
  }

  /** A URL with no extension is never an image. */
  lemma NoExtensionNoImage(url: string)
    requires Paths.Splitext(url).1 == []
    ensures !IsImageUrl(url)
  {
    assert UrlExtension(url) == [];
  }

  // ---------------------------------------------------------------------------
  // The scrape state

  /** The bookkeeping fields of the scrape state, as a value. The timing
      samples are kept as their counts only. */
  datatype Snapshot = Snapshot(
    existingImageIds: set<string>,
    scrapedImageCount: nat,
    lastReachedImageId: Option<string>,
    lastReachedImageScore: Option<int>,
    querySamples: nat,
    downloadSamples: nat)

  /** The state after one more image was saved. The download sample count (and,
      when `withQuery`, the query sample count) goes up with it and restarts at
      every multiple of `SampleInterval`. */
  function CountSaved(s: Snapshot, withQuery: bool): Snapshot
  {
    var n := s.scrapedImageCount + 1;
    var reset := n % SampleInterval == 0;
    s.(scrapedImageCount := n,
       querySamples := if !withQuery then s.querySamples else if reset then 0 else s.querySamples + 1,
       downloadSamples := if reset then 0 else s.downloadSamples + 1)
  }

  /** The sample counts hold the number of images saved since the last reset. */
  predicate SamplesInStep(s: Snapshot, withQuery: bool)
  {
    s.downloadSamples == s.scrapedImageCount % SampleInterval &&
    s.querySamples == (if withQuery then s.scrapedImageCount % SampleInterval else 0)
  }

  /** Saving an image keeps the sample counts in step with the saved count and
      changes nothing but the counters. */
  lemma CountSavedInStep(s: Snapshot, withQuery: bool)
    requires SamplesInStep(s, withQuery)
    ensures SamplesInStep(CountSaved(s, withQuery), withQuery)
    ensures CountSaved(s, withQuery).scrapedImageCount == s.scrapedImageCount + 1
    ensures CountSaved(s, withQuery).existingImageIds == s.existingImageIds
    ensures CountSaved(s, withQuery).lastReachedImageId == s.lastReachedImageId
    ensures CountSaved(s, withQuery).lastReachedImageScore == s.lastReachedImageScore
  {
    var n := s.scrapedImageCount;
    if (n + 1) % SampleInterval != 0 {
      assert (n + 1) % SampleInterval == n % SampleInterval + 1;
    }
  }

  /** The scrape state both scrapers share between their tasks. */
  class ScrapeState {
    var existingImageIds: set<string>
    var scrapedImageCount: nat
    var lastReachedImageId: Option<string>
    var lastReachedImageScore: Option<int>
    var querySamples: nat
    var downloadSamples: nat

    function Value(): Snapshot
      reads this
    {
      Snapshot(existingImageIds, scrapedImageCount, lastReachedImageId, lastReachedImageScore,
               querySamples, downloadSamples)
    }

    /** A fresh state over the IDs already on disk. */
    constructor (ids: set<string>)
      ensures Value() == Snapshot(ids, 0, None, None, 0, 0)
      ensures SamplesInStep(Value(), true) && SamplesInStep(Value(), false)
    {
      existingImageIds := ids;
      scrapedImageCount := 0;
      lastReachedImageId := None;
      lastReachedImageScore := None;
      querySamples := 0;
      downloadSamples := 0;
    }

    /** The counter updates after a successful save. */
    method RecordSaved(withQuery: bool)
      modifies this
      ensures Value() == CountSaved(old(Value()), withQuery)
    {
      scrapedImageCount := scrapedImageCount + 1;
      if withQuery {
        querySamples := querySamples + 1;
      }
      downloadSamples := downloadSamples + 1;
      if scrapedImageCount % SampleInterval == 0 {
        if withQuery {
          querySamples := 0;
        }
        downloadSamples := 0;
      }
    }
  }

  /** The stop condition checked before every attempt and every admission: an
      interrupt arrived, or a scrape limit is set and reached. */
  predicate Stop(sigints: nat, scraped: nat, maxScrapeCount: Option<int>)
  {
    sigints >= 1 || (maxScrapeCount.Some? && scraped >= maxScrapeCount.value)
  }

  // ---------------------------------------------------------------------------
  // The retry loop of one item

  /** The metadata saved next to an image. */
  datatype Metadata = Metadata(imageId: string, score: int, rating: string, tags: seq<TagGroups.Group>)

  /** How one attempt ends: an exception, an early `return` that skips the
      item, or a saved image. */
  datatype AttemptEnd = Raised | Skipped | Saved(metadata: Metadata)

  /** One attempt: the score it recorded on the way, if any, and how it ended. */
  datatype Attempt = Attempt(score: Option<int>, end: AttemptEnd)

  /** How a task ends: its ID was known, it returned from an attempt (with or
      without saving), or it left the retry loop, after an exception or not. */
  datatype Outcome = AlreadyKnown | Returned(saved: bool) | GaveUp(errored: bool)

  /** The inputs of one retry loop: the item's ID, whether leaving the loop
      releases it, whether the query sample counts too, the scrape limit, and
      for each attempt number the interrupt count seen by the stop check and
      how the attempt goes. */
  datatype Retry = Retry(
    imageId: string,
    release: bool,
    withQuery: bool,
    maxScrapeCount: Option<int>,
    sigints: nat -> nat,
    attempts: nat -> Attempt)

  /** Leaving the loop without returning: the ID is released if asked. */
  function GiveUp(s: Snapshot, rt: Retry, errored: bool): (Snapshot, Outcome)
  {
    (if rt.release then s.(existingImageIds := s.existingImageIds - {rt.imageId}) else s, GaveUp(errored))
  }

  /** The attempt `s` records its score into. */
  function WithScore(s: Snapshot, a: Attempt): Snapshot
  {
    if a.score.Some? then s.(lastReachedImageScore := a.score) else s
  }

  /** The retry loop from attempt `i` on (attempts are numbered from 1), with
      `errored` telling whether an attempt has raised already. */
  function RetryFrom(s: Snapshot, rt: Retry, i: nat, errored: bool): (Snapshot, Outcome)
    requires 1 <= i <= MaxRetry + 2
    decreases MaxRetry + 2 - i
  {
    if i > MaxRetry + 1 || Stop(rt.sigints(i), s.scrapedImageCount, rt.maxScrapeCount) then
      GiveUp(s, rt, errored)
    else
      var a := rt.attempts(i);
      var s1 := WithScore(s, a);
      match a.end
      case Raised => if i > MaxRetry then GiveUp(s1, rt, true) else RetryFrom(s1, rt, i + 1, true)
      case Skipped => (s1, Returned(false))
      case Saved(_) => (CountSaved(s1, rt.withQuery), Returned(true))
  }

  /** The `for i in range(1, MAX_RETRY + 2)` loop with its `try`/`except`. */
  method RetryAttempts(st: ScrapeState, rt: Retry) returns (outcome: Outcome)
    modifies st
    ensures (st.Value(), outcome) == RetryFrom(old(st.Value()), rt, 1, false)
  {
    var errored := false;
    var i := 1;
    ghost var goal := RetryFrom(st.Value(), rt, i, errored);
    while i <= MaxRetry + 1
      invariant 1 <= i <= MaxRetry + 2
      invariant goal == RetryFrom(st.Value(), rt, i, errored)
      decreases MaxRetry + 2 - i
    {
      if Stop(rt.sigints(i), st.scrapedImageCount, rt.maxScrapeCount) {
        break;
      }
      var a := rt.attempts(i);
      ghost var before := st.Value();
      if a.score.Some? {
        st.lastReachedImageScore := a.score;
      }
      assert st.Value() == WithScore(before, a);
      match a.end {
        case Raised =>
          errored := true;
          if i > MaxRetry {
            break;
          }
          assert goal == RetryFrom(st.Value(), rt, i + 1, true);
        case Skipped =>
          return Returned(false);
        case Saved(_) =>
          st.RecordSaved(rt.withQuery);
          return Returned(true);
      }
      i := i + 1;
    }
    if rt.release {
      st.existingImageIds := st.existingImageIds - {rt.imageId};
    }
    outcome := GaveUp(errored);
  }

  /** What the retry loop changes: the ID is released exactly when the loop is
      left and release was asked, the saved count grows by one exactly when an
      image is saved, the last reached ID never changes, and the sample counts
      stay in step. */
  lemma RetryEffects(s: Snapshot, rt: Retry, i: nat, errored: bool)
    requires 1 <= i <= MaxRetry + 2
    ensures var (s2, o) := RetryFrom(s, rt, i, errored);
      && !o.AlreadyKnown?
      && s2.existingImageIds == (if o.GaveUp? && rt.release then s.existingImageIds - {rt.imageId} else s.existingImageIds)
      && s2.scrapedImageCount == s.scrapedImageCount + (if o == Returned(true) then 1 else 0)
      && s2.lastReachedImageId == s.lastReachedImageId
      && (SamplesInStep(s, rt.withQuery) ==> SamplesInStep(s2, rt.withQuery))
  {
    RetryCounts(s, rt, i, errored);
    if SamplesInStep(s, rt.withQuery) {
      RetrySamples(s, rt, i, errored);
    }
  }

  /** The IDs and counters after the retry loop. */
  lemma {:induction false} RetryCounts(s: Snapshot, rt: Retry, i: nat, errored: bool)
    requires 1 <= i <= MaxRetry + 2
    ensures var (s2, o) := RetryFrom(s, rt, i, errored);
      && !o.AlreadyKnown?
      && s2.existingImageIds == (if o.GaveUp? && rt.release then s.existingImageIds - {rt.imageId} else s.existingImageIds)
      && s2.scrapedImageCount == s.scrapedImageCount + (if o == Returned(true) then 1 else 0)
      && s2.lastReachedImageId == s.lastReachedImageId
    decreases MaxRetry + 2 - i
  {
    if !(i > MaxRetry + 1 || Stop(rt.sigints(i), s.scrapedImageCount, rt.maxScrapeCount)) {
      var a := rt.attempts(i);
      if a.end.Raised? && i <= MaxRetry {
        RetryCounts(WithScore(s, a), rt, i + 1, true);
      }
    }
  }

  /** The sample counts stay in step through the retry loop. */
  lemma {:induction false} RetrySamples(s: Snapshot, rt: Retry, i: nat, errored: bool)
    requires 1 <= i <= MaxRetry + 2
    requires SamplesInStep(s, rt.withQuery)
    ensures SamplesInStep(RetryFrom(s, rt, i, errored).0, rt.withQuery)
    decreases MaxRetry + 2 - i
  {
    if !(i > MaxRetry + 1 || Stop(rt.sigints(i), s.scrapedImageCount, rt.maxScrapeCount)) {
      var a := rt.attempts(i);
      var s1 := WithScore(s, a);
      assert SamplesInStep(s1, rt.withQuery);
      match a.end {
        case Raised =>
          if i <= MaxRetry {
            RetrySamples(s1, rt, i + 1, true);
          }
        case Skipped =>
        case Saved(_) =>
          CountSavedInStep(s1, rt.withQuery);
      }
    }
  }

  /** Attempts that never save never make the loop report a save. */
  lemma {:induction false} RetryNeverSaves(s: Snapshot, rt: Retry, i: nat, errored: bool)
    requires 1 <= i <= MaxRetry + 2
    requires forall j :: i <= j <= MaxRetry + 1 ==> !rt.attempts(j).end.Saved?
    ensures RetryFrom(s, rt, i, errored).1 != Returned(true)
    decreases MaxRetry + 2 - i
  {
    if !(i > MaxRetry + 1 || Stop(rt.sigints(i), s.scrapedImageCount, rt.maxScrapeCount)) {
      var a := rt.attempts(i);
      if a.end.Raised? && i <= MaxRetry {
        RetryNeverSaves(WithScore(s, a), rt, i + 1, true);
      }
    }
  }

  /** No stop check fires in attempts `i` to `MaxRetry + 1`. */
  predicate NoStopFrom(s: Snapshot, rt: Retry, i: nat)
  {
    forall j :: i <= j <= MaxRetry + 1 ==> !Stop(rt.sigints(j), s.scrapedImageCount, rt.maxScrapeCount)
  }

  /** Every attempt from `i` to `MaxRetry + 1` raises. */
  predicate AllRaiseFrom(rt: Retry, i: nat)
  {
    forall j :: i <= j <= MaxRetry + 1 ==> rt.attempts(j).end.Raised?
  }

  /** Without a stop, the loop gives up exactly when every remaining attempt
      raises; it then reports the error. */
  lemma {:induction false} RetryGivesUp(s: Snapshot, rt: Retry, i: nat, errored: bool)
    requires 1 <= i <= MaxRetry + 2
    requires NoStopFrom(s, rt, i)
    ensures RetryFrom(s, rt, i, errored).1.GaveUp? <==> AllRaiseFrom(rt, i)
    ensures RetryFrom(s, rt, i, errored).1.GaveUp? ==>
      RetryFrom(s, rt, i, errored).1.errored == (errored || i <= MaxRetry + 1)
    decreases MaxRetry + 2 - i
  {
    if i <= MaxRetry + 1 {
      var a := rt.attempts(i);
      var s1 := WithScore(s, a);
      if a.end.Raised? && i <= MaxRetry {
        assert NoStopFrom(s1, rt, i + 1);
        RetryGivesUp(s1, rt, i + 1, true);
      }
    }
  }

  /** Four attempts that all raise, with no stop, make the loop give up with
      the error and release the ID when asked. */
  lemma FourFailures(s: Snapshot, rt: Retry)
    requires NoStopFrom(s, rt, 1) && AllRaiseFrom(rt, 1)
    ensures RetryFrom(s, rt, 1, false).1 == GaveUp(true)
    ensures rt.release ==> rt.imageId !in RetryFrom(s, rt, 1, false).0.existingImageIds
  {
    RetryGivesUp(s, rt, 1, false);
    RetryEffects(s, rt, 1, false);
  }

  /** A fresh ID whose every attempt raises, with no stop, is released after
      the fourth failure. */
  lemma FreshExhausted(s: Snapshot, rt: Retry)
    requires rt.release && rt.imageId !in s.existingImageIds
    requires NoStopFrom(s, rt, 1) && AllRaiseFrom(rt, 1)
    ensures var s1 := s.(existingImageIds := s.existingImageIds + {rt.imageId});
      && RetryFrom(s1, rt, 1, false).1 == GaveUp(true)
      && RetryFrom(s1, rt, 1, false).0.existingImageIds == s.existingImageIds
  {
    var s1 := s.(existingImageIds := s.existingImageIds + {rt.imageId});
    assert NoStopFrom(s1, rt, 1);
    FourFailures(s1, rt);
    RetryEffects(s1, rt, 1, false);
    assert s.existingImageIds + {rt.imageId} - {rt.imageId} == s.existingImageIds;
  }

  /** A stop seen before the first attempt ends the loop at once, with no error. */
  lemma StopBeforeFirst(s: Snapshot, rt: Retry)
    requires Stop(rt.sigints(1), s.scrapedImageCount, rt.maxScrapeCount)
    ensures RetryFrom(s, rt, 1, false) == GiveUp(s, rt, false)
  {
  }

  // ---------------------------------------------------------------------------
  // The tasks in flight

  /** The tasks at positions `lo` onwards that have not finished, in order. */
  function Unfinished(t: seq<string>, finished: set<nat>, lo: nat): (r: seq<string>)
    requires lo <= |t|
    ensures |r| <= |t| - lo
    decreases |t| - lo
  {
    if lo == |t| then []
    else (if lo in finished then [] else [t[lo]]) + Unfinished(t, finished, lo + 1)
  }

  /** Harvesting keeps every unfinished task, in order, and drops every finished one:
      it shrinks the list exactly when some task in it finished. */
  lemma {:induction false} UnfinishedShrinks(t: seq<string>, finished: set<nat>, lo: nat)
    requires lo <= |t|
    ensures (forall k :: lo <= k < |t| ==> k !in finished) ==> Unfinished(t, finished, lo) == t[lo..]
    ensures (exists k :: lo <= k < |t| && k in finished) ==> |Unfinished(t, finished, lo)| < |t| - lo
    decreases |t| - lo
  {
    if lo < |t| {
      UnfinishedShrinks(t, finished, lo + 1);
      assert t[lo..] == [t[lo]] + t[lo + 1..];
    }
  }

  /** One check of the stop condition while `main` waits: the interrupt count
      and the saved count it sees, and which tasks have finished by then. */
  datatype Poll = Poll(sigints: nat, scraped: nat, finished: set<nat>)

  /** How a wait ends: the awaited condition holds, the stop condition (or an
      interrupt) ended it, or the polls ran out first. */
  datatype WaitEnd = Ready | StopSeen | PollsRanOut

  /** The admission wait: while `MaxTasks` or more tasks are in flight, stop
      waiting if the stop condition holds, else harvest the finished tasks. */
  function Wait(t: seq<string>, maxScrapeCount: Option<int>, polls: seq<Poll>): (r: (seq<string>, WaitEnd))
    ensures r.1 == Ready ==> |r.0| < MaxTasks
    ensures |r.0| <= |t|
    decreases |polls|
  {
    if |t| < MaxTasks then (t, Ready)
    else if polls == [] then (t, PollsRanOut)
    else if Stop(polls[0].sigints, polls[0].scraped, maxScrapeCount) then (t, StopSeen)
    else Wait(Unfinished(t, polls[0].finished, 0), maxScrapeCount, polls[1..])
  }

  /** The admission as the scrapers write it: after the wait the new task is
      appended, even when the stop condition ended the wait; only a wait whose
      polls ran out appends nothing. */
  function AdmitAsWritten(t: seq<string>, target: string, maxScrapeCount: Option<int>, polls: seq<Poll>): (seq<string>, WaitEnd)
  {
    var (rest, end) := Wait(t, maxScrapeCount, polls);
    (if end == PollsRanOut then rest else rest + [target], end)
  }

  /** With a full list and a stop seen at the first poll, the written admission
      puts a task beyond the cap. */
  lemma AdmitAsWrittenOverflows(t: seq<string>, target: string)
    requires |t| == MaxTasks
    ensures AdmitAsWritten(t, target, None, [Poll(1, 0, {})]).0 == t + [target]
    ensures |t + [target]| == MaxTasks + 1
  {
  }

  /** Some poll of a wait sees the stop condition. */
  predicate SeesStop(maxScrapeCount: Option<int>, polls: seq<Poll>)
  {
    exists i :: 0 <= i < |polls| && Stop(polls[i].sigints, polls[i].scraped, maxScrapeCount)
  }

  /** A wait that the stop condition ended saw it at some poll. */
  lemma {:induction false} WaitStops(t: seq<string>, maxScrapeCount: Option<int>, polls: seq<Poll>)
    ensures Wait(t, maxScrapeCount, polls).1 == StopSeen ==> SeesStop(maxScrapeCount, polls)
    decreases |polls|
  {
    if |t| >= MaxTasks && polls != [] {
      if Stop(polls[0].sigints, polls[0].scraped, maxScrapeCount) {
        assert Stop(polls[0].sigints, polls[0].scraped, maxScrapeCount);
      } else {
        var rest := polls[1..];
        WaitStops(Unfinished(t, polls[0].finished, 0), maxScrapeCount, rest);
        if Wait(t, maxScrapeCount, polls).1 == StopSeen {
          var i :| 0 <= i < |rest| && Stop(rest[i].sigints, rest[i].scraped, maxScrapeCount);
          assert polls[i + 1] == rest[i];
        }
      }
    }
  }

  /** What the written admission does to a list within the cap: room found
      appends the target within the cap; a stop seen while waiting appends it
      to a full list, one beyond the cap; polls that ran out append nothing. */
  lemma AdmitAsWrittenBound(t: seq<string>, target: string, maxScrapeCount: Option<int>, polls: seq<Poll>)
    requires |t| <= MaxTasks
    ensures var (r, end) := AdmitAsWritten(t, target, maxScrapeCount, polls);
      && (end == Ready ==> |r| <= MaxTasks && r[|r| - 1] == target)
      && (end == StopSeen ==> |r| == MaxTasks + 1 && r[|r| - 1] == target && SeesStop(maxScrapeCount, polls))
      && (end == PollsRanOut ==> |r| <= MaxTasks && (target in r ==> target in t))
      && (forall x :: x in r ==> x in t || x == target)
  {
    var (rest, end) := Wait(t, maxScrapeCount, polls);
    WaitStops(t, maxScrapeCount, polls);
    WaitFull(t, maxScrapeCount, polls);
    WaitKeepsOld(t, maxScrapeCount, polls, target);
    forall x | x in AdmitAsWritten(t, target, maxScrapeCount, polls).0
      ensures x in t || x == target
    {
      WaitKeepsOld(t, maxScrapeCount, polls, x);
    }
  }

  /** A wait that did not find room leaves at least `MaxTasks` tasks. */
  lemma {:induction false} WaitFull(t: seq<string>, maxScrapeCount: Option<int>, polls: seq<Poll>)
    ensures Wait(t, maxScrapeCount, polls).1 != Ready ==> |Wait(t, maxScrapeCount, polls).0| >= MaxTasks
    decreases |polls|
  {
    if |t| >= MaxTasks && polls != [] && !Stop(polls[0].sigints, polls[0].scraped, maxScrapeCount) {
      WaitFull(Unfinished(t, polls[0].finished, 0), maxScrapeCount, polls[1..]);
    }
  }

  /** The admission with the stop check after the wait: a stop seen while
      waiting admits nothing. */
  function AdmitTask(t: seq<string>, target: string, maxScrapeCount: Option<int>, polls: seq<Poll>): (seq<string>, WaitEnd)
  {
    var (rest, end) := Wait(t, maxScrapeCount, polls);
    (if end == Ready then rest + [target] else rest, end)
  }

  /** The corrected admission never puts more than `MaxTasks` tasks in flight,
      and appends the target exactly when the wait found room. */
  lemma AdmitBounded(t: seq<string>, target: string, maxScrapeCount: Option<int>, polls: seq<Poll>)
    requires |t| <= MaxTasks
    ensures |AdmitTask(t, target, maxScrapeCount, polls).0| <= MaxTasks
    ensures AdmitTask(t, target, maxScrapeCount, polls).1 == Ready ==>
      var r := AdmitTask(t, target, maxScrapeCount, polls).0; |r| >= 1 && r[|r| - 1] == target
    ensures AdmitTask(t, target, maxScrapeCount, polls).1 != Ready ==>
      target !in AdmitTask(t, target, maxScrapeCount, polls).0 || target in t
  {
    var (rest, end) := Wait(t, maxScrapeCount, polls);
    if end != Ready {
      WaitKeepsOld(t, maxScrapeCount, polls, target);
    }
  }

  /** Waiting only removes tasks. */
  lemma {:induction false} WaitKeepsOld(t: seq<string>, maxScrapeCount: Option<int>, polls: seq<Poll>, x: string)
    ensures x in Wait(t, maxScrapeCount, polls).0 ==> x in t
    decreases |polls|
  {
    if |t| >= MaxTasks && polls != [] && !Stop(polls[0].sigints, polls[0].scraped, maxScrapeCount) {
      var u := Unfinished(t, polls[0].finished, 0);
      WaitKeepsOld(u, maxScrapeCount, polls[1..], x);
      UnfinishedFrom(t, polls[0].finished, 0, x);
    }
  }

  /** Harvesting keeps only tasks that were there. */
  lemma {:induction false} UnfinishedFrom(t: seq<string>, finished: set<nat>, lo: nat, x: string)
    requires lo <= |t|
    ensures x in Unfinished(t, finished, lo) ==> x in t[lo..]
    decreases |t| - lo
  {
    if lo < |t| {
      UnfinishedFrom(t, finished, lo + 1, x);
      assert t[lo..] == [t[lo]] + t[lo + 1..];
    }
  }

  /** Below the cap, admission appends at once without consulting any poll,
      as written and as corrected. */
  lemma AdmitBelowCap(t: seq<string>, target: string, maxScrapeCount: Option<int>, polls: seq<Poll>)
    requires |t| < MaxTasks
    ensures AdmitAsWritten(t, target, maxScrapeCount, polls) == (t + [target], Ready)
    ensures AdmitTask(t, target, maxScrapeCount, polls) == (t + [target], Ready)
  {
  }

  /** The draining wait: while tasks remain and the interrupt count is at most
      `limit` (0 before a session refresh, 1 before exiting), harvest the
      finished ones. */
  function DrainTasks(t: seq<string>, limit: nat, polls: seq<Poll>): (r: (seq<string>, WaitEnd))
    ensures r.1 == Ready <==> r.0 == []
    ensures |r.0| <= |t|
    decreases |polls|
  {
    if t == [] then (t, Ready)
    else if polls == [] then (t, PollsRanOut)
    else if polls[0].sigints > limit then (t, StopSeen)
    else DrainTasks(Unfinished(t, polls[0].finished, 0), limit, polls[1..])
  }

  /** A drain that ends on an interrupt saw a poll above the limit. */
  lemma {:induction false} DrainStops(t: seq<string>, limit: nat, polls: seq<Poll>)
    ensures DrainTasks(t, limit, polls).1 == StopSeen ==> exists k :: 0 <= k < |polls| && polls[k].sigints > limit
    decreases |polls|
  {
    if t != [] && polls != [] && polls[0].sigints <= limit {
      var rest := polls[1..];
      DrainStops(Unfinished(t, polls[0].finished, 0), limit, rest);
      if DrainTasks(t, limit, polls).1 == StopSeen {
        var k :| 0 <= k < |rest| && rest[k].sigints > limit;
        assert polls[k + 1] == rest[k];
      }
    }
  }

  /** Draining keeps only tasks that were there. */
  lemma {:induction false} DrainKeepsOld(t: seq<string>, limit: nat, polls: seq<Poll>, x: string)
    ensures x in DrainTasks(t, limit, polls).0 ==> x in t
    decreases |polls|
  {
    if t != [] && polls != [] && polls[0].sigints <= limit {
      DrainKeepsOld(Unfinished(t, polls[0].finished, 0), limit, polls[1..], x);
      UnfinishedFrom(t, polls[0].finished, 0, x);
    }
  }

  /** With every task finished at the first poll and no interrupt beyond the
      limit, the drain ends with the list empty. */
  lemma AllFinishedDrains(t: seq<string>, limit: nat, p: Poll)
    requires p.sigints <= limit
    requires forall k :: 0 <= k < |t| ==> k in p.finished
    ensures DrainTasks(t, limit, [p]) == ([], Ready)
  {
    UnfinishedAll(t, p.finished, 0);
  }

  /** Harvesting when every task finished leaves nothing. */
  lemma {:induction false} UnfinishedAll(t: seq<string>, finished: set<nat>, lo: nat)
    requires lo <= |t|
    requires forall k :: lo <= k < |t| ==> k in finished
    ensures Unfinished(t, finished, lo) == []
    decreases |t| - lo
  {
    if lo < |t| {
      UnfinishedAll(t, finished, lo + 1);
    }
  }

  /** One post of a listing as `main` meets it: the stop condition it checks
      before the post, and the polls of the admission wait. */
  datatype Turn = Turn(sigints: nat, scraped: nat, polls: seq<Poll>)

  /** How the admission of a listing's posts ends: every post became a task,
      the stop condition ended it, or a wait's polls ran out. */
  datatype AdmitEnd = AllAdmitted | Stopped | Stalled

  /** The loop over a listing's posts from the `k`-th on: stop when the stop
      condition holds before a post, otherwise admit the post as a task as
      written, and go on with the next post even when a stop ended the wait. */
  function AdmitFrom(t: seq<string>, targets: seq<string>, maxScrapeCount: Option<int>, turns: nat -> Turn, k: nat): (seq<string>, AdmitEnd)
    requires k <= |targets|
    decreases |targets| - k
  {
    if k == |targets| then (t, AllAdmitted)
    else if Stop(turns(k).sigints, turns(k).scraped, maxScrapeCount) then (t, Stopped)
    else
      var (t1, end) := AdmitAsWritten(t, targets[k], maxScrapeCount, turns(k).polls);
      if end == PollsRanOut then (t1, Stalled)
      else AdmitFrom(t1, targets, maxScrapeCount, turns, k + 1)
  }

  /** Interrupts and saved images are only ever counted up, so a stop condition
      a wait saw is still seen by the check before the next post. */
  predicate StopPersists(maxScrapeCount: Option<int>, turns: nat -> Turn, n: nat)
  {
    forall j :: 0 <= j && j + 1 < n && SeesStop(maxScrapeCount, turns(j).polls) ==>
      Stop(turns(j + 1).sigints, turns(j + 1).scraped, maxScrapeCount)
  }

  /** ... and by the check after the listing's posts. */
  predicate StopSeenAfter(maxScrapeCount: Option<int>, turns: nat -> Turn, n: nat, sigints: nat, scraped: nat)
  {
    forall j :: 0 <= j < n && SeesStop(maxScrapeCount, turns(j).polls) ==> Stop(sigints, scraped, maxScrapeCount)
  }

  /** The written listing loop puts at most one task beyond `MaxTasks` in
      flight, and only after some wait saw the stop condition. */
  lemma {:induction false} AdmitFromBounded(t: seq<string>, targets: seq<string>, maxScrapeCount: Option<int>, turns: nat -> Turn, k: nat)
    requires k <= |targets|
    requires |t| <= MaxTasks || (|t| == MaxTasks + 1 && 0 < k && SeesStop(maxScrapeCount, turns(k - 1).polls))
    requires StopPersists(maxScrapeCount, turns, |targets|)
    ensures var r := AdmitFrom(t, targets, maxScrapeCount, turns, k).0;
      && |r| <= MaxTasks + 1
      && (|r| > MaxTasks ==> exists j :: 0 <= j < |targets| && SeesStop(maxScrapeCount, turns(j).polls))
    decreases |targets| - k
  {
    if k < |targets| && !Stop(turns(k).sigints, turns(k).scraped, maxScrapeCount) {
      assert |t| <= MaxTasks;
      var (t1, end) := AdmitAsWritten(t, targets[k], maxScrapeCount, turns(k).polls);
      AdmitAsWrittenBound(t, targets[k], maxScrapeCount, turns(k).polls);
      if end != PollsRanOut {
        AdmitFromBounded(t1, targets, maxScrapeCount, turns, k + 1);
      }
    }
  }

  /** The listing loop adds no task but the listing's posts, and ends with the
      last post in flight when every post was admitted. */
  lemma {:induction false} AdmitFromKeeps(t: seq<string>, targets: seq<string>, maxScrapeCount: Option<int>, turns: nat -> Turn, k: nat, x: string)
    requires k <= |targets|
    ensures var (r, end) := AdmitFrom(t, targets, maxScrapeCount, turns, k);
      && (x in r ==> x in t || x in targets[k..])
      && (end == AllAdmitted && k < |targets| ==> r != [] && r[|r| - 1] == targets[|targets| - 1])
    decreases |targets| - k
  {
    if k < |targets| && !Stop(turns(k).sigints, turns(k).scraped, maxScrapeCount) {
      var (rest, e) := Wait(t, maxScrapeCount, turns(k).polls);
      WaitKeepsOld(t, maxScrapeCount, turns(k).polls, x);
      var (t1, end) := AdmitAsWritten(t, targets[k], maxScrapeCount, turns(k).polls);
      assert targets[k..] == [targets[k]] + targets[k + 1..];
      if end != PollsRanOut {
        AdmitFromKeeps(t1, targets, maxScrapeCount, turns, k + 1, x);
      }
    }
  }

  /** The whole listing admitted from its first post, starting within the cap:
      at most one task beyond `MaxTasks`, none beyond it when no wait saw the
      stop condition, and each task from before or from the listing. */
  lemma AdmitListingKeeps(t: seq<string>, targets: seq<string>, maxScrapeCount: Option<int>, turns: nat -> Turn)
    requires |t| <= MaxTasks && StopPersists(maxScrapeCount, turns, |targets|)
    ensures var r := AdmitFrom(t, targets, maxScrapeCount, turns, 0).0;
      && |r| <= MaxTasks + 1
      && (|r| > MaxTasks ==> exists j :: 0 <= j < |targets| && SeesStop(maxScrapeCount, turns(j).polls))
      && (forall x :: x in r ==> x in t || x in targets)
  {
    AdmitFromBounded(t, targets, maxScrapeCount, turns, 0);
    assert targets[0..] == targets;
    forall x | x in AdmitFrom(t, targets, maxScrapeCount, turns, 0).0
      ensures x in t || x in targets
    {
      AdmitFromKeeps(t, targets, maxScrapeCount, turns, 0, x);
    }
  }

  /** How one round of `main`'s listing loop ends: go on with the next
      listing, leave the loop, or a wait's polls ran out. */
  datatype RoundEnd = Continue | Finished | Halted

  /** The session refresh: drain the tasks unless an interrupt arrives, then
      open a new session if the interrupt count read afterwards is still 0. */
  function Refresh(t: seq<string>, sessions: nat, polls: seq<Poll>, sigintsAfter: nat): (r: (seq<string>, nat, RoundEnd))
    ensures r.2 != Finished
    ensures r.1 == (if r.2 == Continue && sigintsAfter < 1 then sessions + 1 else sessions)
    ensures |r.0| <= |t|
    ensures r.2 == Continue ==> r.0 == [] || exists k :: 0 <= k < |polls| && polls[k].sigints >= 1
  {
    var (t2, end) := DrainTasks(t, 0, polls);
    DrainStops(t, 0, polls);
    if end == PollsRanOut then (t2, sessions, Halted)
    else (t2, if sigintsAfter < 1 then sessions + 1 else sessions, Continue)
  }

  /** The refresh only removes tasks. */
  lemma RefreshKeeps(t: seq<string>, sessions: nat, polls: seq<Poll>, sigintsAfter: nat)
    ensures forall x :: x in Refresh(t, sessions, polls, sigintsAfter).0 ==> x in t
  {
    forall x | x in Refresh(t, sessions, polls, sigintsAfter).0
      ensures x in t
    {
      DrainKeepsOld(t, 0, polls, x);
    }
  }

  /** The wait before exiting: tasks are drained while the interrupt count is
      at most 1; the exit status is 1 after an interrupt, else 0. */
  function ExitWait(t: seq<string>, polls: seq<Poll>, sigintsAtExit: nat): (r: (seq<string>, WaitEnd, int))
    ensures r.2 == (if sigintsAtExit >= 1 then 1 else 0)
    ensures r.1 == Ready <==> r.0 == []
  {
    var (t2, end) := DrainTasks(t, 1, polls);
    (t2, end, if sigintsAtExit >= 1 then 1 else 0)
  }

  /** The list of tasks `main` keeps. */
  class TaskList {
    var tasks: seq<string>

    constructor ()
      ensures tasks == []
    {
      tasks := [];
    }

    /** The reverse-index loop that deletes every finished task. */
    method Harvest(finished: set<nat>)
      modifies this
      ensures tasks == Unfinished(old(tasks), finished, 0)
    {
      ghost var t := tasks;
      var i := |tasks|;
      while i > 0
        invariant 0 <= i <= |t|
        invariant tasks == t[..i] + Unfinished(t, finished, i)
      {
        i := i - 1;
        if i in finished {
          tasks := tasks[..i] + tasks[i + 1..];
          assert tasks == t[..i] + Unfinished(t, finished, i);
        } else {
          assert t[..i + 1] == t[..i] + [t[i]];
        }
      }
      assert t[..0] == [];
    }

    /** Waits for room under the cap, polling the stop condition and harvesting,
        then appends the target, also when the stop condition ended the wait. */
    method Admit(target: string, maxScrapeCount: Option<int>, polls: seq<Poll>) returns (r: WaitEnd)
      modifies this
      ensures (tasks, r) == AdmitAsWritten(old(tasks), target, maxScrapeCount, polls)
    {
      var k := 0;
      r := Ready;
      while |tasks| >= MaxTasks
        invariant 0 <= k <= |polls|
        invariant Wait(old(tasks), maxScrapeCount, polls) == Wait(tasks, maxScrapeCount, polls[k..])
        decreases |polls| - k
      {
        if k == |polls| {
          return PollsRanOut;
        }
        if Stop(polls[k].sigints, polls[k].scraped, maxScrapeCount) {
          r := StopSeen;
          break;
        }
        Harvest(polls[k].finished);
        assert polls[k..][1..] == polls[k + 1..];
        k := k + 1;
      }
      tasks := tasks + [target];
    }

    /** The loop over a listing's posts: checks the stop condition before each
        post and admits it as a task. */
    method AdmitListing(targets: seq<string>, maxScrapeCount: Option<int>, turns: nat -> Turn) returns (r: AdmitEnd)
      modifies this
      ensures (tasks, r) == AdmitFrom(old(tasks), targets, maxScrapeCount, turns, 0)
    {
      for k := 0 to |targets|
        invariant AdmitFrom(old(tasks), targets, maxScrapeCount, turns, 0) == AdmitFrom(tasks, targets, maxScrapeCount, turns, k)
      {
        if Stop(turns(k).sigints, turns(k).scraped, maxScrapeCount) {
          return Stopped;
        }
        var end := Admit(targets[k], maxScrapeCount, turns(k).polls);
        if end == PollsRanOut {
          return Stalled;
        }
      }
      r := AllAdmitted;
    }

    /** After the listing loop: waits for the tasks while at most one interrupt
        arrived, and gives the exit status. */
    method Shutdown(polls: seq<Poll>, sigintsAtExit: nat) returns (end: WaitEnd, status: int)
      modifies this
      ensures (tasks, end, status) == ExitWait(old(tasks), polls, sigintsAtExit)
    {
      end := Drain(1, polls);
      status := if sigintsAtExit >= 1 then 1 else 0;
    }

    /** Waits until every task finished, unless an interrupt arrives first. */
    method Drain(limit: nat, polls: seq<Poll>) returns (r: WaitEnd)
      modifies this
      ensures (tasks, r) == DrainTasks(old(tasks), limit, polls)
    {
      var k := 0;
      while tasks != []
        invariant 0 <= k <= |polls|
        invariant DrainTasks(old(tasks), limit, polls) == DrainTasks(tasks, limit, polls[k..])
        decreases |polls| - k
      {
        if k == |polls| {
          return PollsRanOut;
        }
        if polls[k].sigints > limit {
          return StopSeen;
        }
        Harvest(polls[k].finished);
        assert polls[k..][1..] == polls[k + 1..];
        k := k + 1;
      }
      r := Ready;
    }
  }

  // ---------------------------------------------------------------------------
  // Command-line checks shared by both scrapers

  /** The numeric options both scrapers accept. */
  datatype ScrapeOptions = ScrapeOptions(
    width: Option<int>,
    height: Option<int>,
    lowQuality: bool,
    minTags: int,
    maxScrapeCount: Option<int>)

  predicate ValidOptions(o: ScrapeOptions)
  {
    && (o.width.Some? <==> o.height.Some?)
    && (o.width.Some? ==> o.width.value >= 1 && o.height.value >= 1)
    && o.minTags >= 0
    && (o.maxScrapeCount.Some? ==> o.maxScrapeCount.value > 0)
  }

  /** The checks of `parse_args`, in order; a refusal is the `sys.exit(1)`. */
  function CheckOptions(o: ScrapeOptions): (r: Result<ScrapeOptions>)
    ensures r.Ok? <==> ValidOptions(o)
    ensures r.Ok? ==> r.value == o
    ensures r.Err? ==> r.error == ArgumentError
  {
    if (o.width.None? || o.height.None?) && (o.width.Some? || o.height.Some?) then Err(ArgumentError)
    else if o.width.Some? && o.width.value < 1 then Err(ArgumentError)
    else if o.height.Some? && o.height.value < 1 then Err(ArgumentError)
    else if o.minTags < 0 then Err(ArgumentError)
    else if o.maxScrapeCount.Some? && o.maxScrapeCount.value <= 0 then Err(ArgumentError)
    else Ok(o)
  }
}
