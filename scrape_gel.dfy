/** The Gelbooru scraper: the tag groups of a post page, the bookkeeping of one
    post link over its attempts, and the listing loop of `main`. Pages are
    given as what the HTML parser would find in them. */
module ScrapeGel {
  import opened Wrappers
  import opened Text
  import opened TagGroups
  import opened Crawl
  import SearchTags

  // ---------------------------------------------------------------------------
  // Tag groups of a post page

  /** An `<li>` of the tag list: its class list (absent or a list) and the text
      of its direct link (absent when there is no link or it is empty). */
  datatype Li = Li(classes: Option<seq<string>>, text: Option<string>)

  const TagTypePrefix: string := "tag-type-"

  /** The group an item belongs to: its only class, when that class starts with
      "tag-type-", without those nine characters. */
  function GroupOfItem(li: Li): (r: Option<string>)
    ensures r.Some? <==> li.classes.Some? && |li.classes.value| == 1 && StartsWith(li.classes.value[0], TagTypePrefix)
    ensures r.Some? ==> li.classes.value[0] == TagTypePrefix + r.value
  {
    if li.classes.Some? && |li.classes.value| == 1 && StartsWith(li.classes.value[0], TagTypePrefix) then
      var c := li.classes.value[0];
      assert c == c[..9] + c[9..];
      Some(c[9..])
    else None
  }

  /** A tag as the page shows it, normalised: commas removed, spaces turned
      into underscores, leading and trailing underscores stripped. */
  function NormalizeTag(text: string): (r: string)
    ensures ',' !in r && ' ' !in r
    ensures r == [] || (r[0] != '_' && r[|r| - 1] != '_')
  {
    var u := ReplaceChar(RemoveChar(text, ','), ' ', '_');
    StripCharShape(u, '_');
    StripChar(u, '_')
  }

  /** The (group, tag) pairs of the contributing items, in page order, or the
      error of the first contributing item without a link text. */
  function Items(lis: seq<Li>): Result<seq<(string, string)>>
  {
    if lis == [] then Ok([])
    else match GroupOfItem(lis[0])
      case None => Items(lis[1..])
      case Some(g) =>
        if lis[0].text.None? then Err(AttributeError)
        else
          var rest :- Items(lis[1..]);
          Ok([(g, NormalizeTag(lis[0].text.value))] + rest)
  }

  /** `get_type_tags_dict(soup)`: the tag groups and the number of distinct
      tags, from the tag list if the page has one. */
  function TypeTagsDict(tagList: Option<seq<Li>>): Result<(seq<Group>, nat)>
  {
    if tagList.None? then Err(RuntimeError)
    else
      var items :- Items(tagList.value);
      var (gs, seen) := Collect([], {}, items);
      Ok((gs, |seen|))
  }

  /** The grouping loop over the remaining items, from the dictionary `gs`
      and the set `seen`, as the loop of `get_type_tags_dict` runs it. */
  function CollectItems(gs: seq<Group>, seen: set<string>, lis: seq<Li>): Result<(seq<Group>, set<string>)>
    decreases |lis|
  {
    if lis == [] then Ok((gs, seen))
    else match GroupOfItem(lis[0])
      case None => CollectItems(gs, seen, lis[1..])
      case Some(g) =>
        if lis[0].text.None? then Err(AttributeError)
        else
          var tag := NormalizeTag(lis[0].text.value);
          if tag in seen then CollectItems(gs, seen, lis[1..])
          else CollectItems(AddTag(gs, g, tag), seen + {tag}, lis[1..])
  }

  /** Filtering the items first and then grouping them is the loop. */
  lemma {:induction false} CollectItemsIsCollect(gs: seq<Group>, seen: set<string>, lis: seq<Li>)
    ensures CollectItems(gs, seen, lis) ==
      match Items(lis)
      case Err(e) => Err(e)
      case Ok(items) => Ok(Collect(gs, seen, items))
    decreases |lis|
  {
    if lis != [] {
      match GroupOfItem(lis[0]) {
        case None =>
          CollectItemsIsCollect(gs, seen, lis[1..]);
        case Some(g) =>
          if lis[0].text.Some? {
            var tag := NormalizeTag(lis[0].text.value);
            if tag in seen {
              CollectItemsIsCollect(gs, seen, lis[1..]);
            } else {
              CollectItemsIsCollect(AddTag(gs, g, tag), seen + {tag}, lis[1..]);
            }
            match Items(lis[1..]) {
              case Err(_) =>
              case Ok(rest) =>
                assert ([(g, tag)] + rest)[1..] == rest;
            }
          }
      }
    }
  }

  /** The loop of `get_type_tags_dict` over the tag list's items. */
  method GetTypeTagsDict(tagList: Option<seq<Li>>) returns (r: Result<(seq<Group>, nat)>)
    ensures r == TypeTagsDict(tagList)
  {
    if tagList.None? {
      return Err(RuntimeError);
    }
    var lis := tagList.value;
    var gs: seq<Group> := [];
    var seen: set<string> := {};
    CollectItemsIsCollect([], {}, lis);
    for i := 0 to |lis|
      invariant CollectItems([], {}, lis) == CollectItems(gs, seen, lis[i..])
    {
      assert lis[i..][1..] == lis[i + 1..];
      var g := GroupOfItem(lis[i]);
      if g.None? {
        continue;
      }
      if lis[i].text.None? {
        return Err(AttributeError);
      }
      var tag := NormalizeTag(lis[i].text.value);
      if tag in seen {
        continue;
      }
      gs := AddTag(gs, g.value, tag);
      seen := seen + {tag};
    }
    assert lis[|lis|..] == [];
    r := Ok((gs, |seen|));
  }

  /** Which items contribute: exactly those whose only class starts with
      "tag-type-", each with its group and its normalised text. */
  lemma {:induction false} ItemsContributors(lis: seq<Li>, items: seq<(string, string)>, p: (string, string))
    requires Items(lis) == Ok(items)
    ensures p in items <==> Contributes(lis, p)
  {
    if lis != [] {
      match GroupOfItem(lis[0]) {
        case None =>
          ItemsContributors(lis[1..], items, p);
          ShiftExists(lis, p);
        case Some(g) =>
          var rest := Items(lis[1..]).value;
          var head := (g, NormalizeTag(lis[0].text.value));
          assert items == [head] + rest;
          ItemsContributors(lis[1..], rest, p);
          ShiftExists(lis, p);
          assert ItemGives(lis[0], p) <==> p == head;
      }
    }
  }

  /** A contributing item of `lis` is its head or a contributing item of its tail. */
  lemma ShiftExists(lis: seq<Li>, p: (string, string))
    requires lis != []
    ensures Contributes(lis, p) <==> ItemGives(lis[0], p) || Contributes(lis[1..], p)
  {
    if Contributes(lis, p) {
      var k :| 0 <= k < |lis| && ItemGives(lis[k], p);
      if k > 0 {
        assert lis[1..][k - 1] == lis[k];
      }
    }
    if Contributes(lis[1..], p) {
      var k :| 0 <= k < |lis[1..]| && ItemGives(lis[1..][k], p);
      assert lis[k + 1] == lis[1..][k];
    }
  }

  /** The item `li` yields the pair `p`. */
  predicate ItemGives(li: Li, p: (string, string))
  {
    GroupOfItem(li) == Some(p.0) && li.text.Some? && NormalizeTag(li.text.value) == p.1
  }

  /** Some item of `lis` yields the pair `p`. */
  predicate Contributes(lis: seq<Li>, p: (string, string))
  {
    exists k :: 0 <= k < |lis| && ItemGives(lis[k], p)
  }

  /** The dictionary of a page with a tag list: group names are distinct, each
      distinct tag is in exactly one group, the group of the item where it
      first appears, and the count is the number of distinct tags. */
  lemma TypeTagsDictProperties(lis: seq<Li>, t: string)
    requires TypeTagsDict(Some(lis)).Ok?
    ensures var items := Items(lis).value;
      var (gs, n) := TypeTagsDict(Some(lis)).value;
      && DistinctNames(gs)
      && n == |AllTags(gs)| == |ItemTags(items)|
      && multiset(AllTags(gs))[t] == (if t in ItemTags(items) then 1 else 0)
      && GroupOf(gs, t) == FirstGroupOf(items, t)
  {
    GroupedProperties(Items(lis).value, t);
  }

  /** A page without a tag list fails the attempt with a `RuntimeError`. */
  lemma NoTagList()
    ensures TypeTagsDict(None) == Err(RuntimeError)
  {
  }

  // ---------------------------------------------------------------------------
  // One post link

  /** The rating attribute of the image container: "safe" is renamed
      "general", any other non-empty value is kept, and a missing or empty one
      fails the attempt. */
  function Rating(rating: Option<string>): (r: Result<string>)
    ensures r.Ok? <==> rating.Some? && rating.value != ""
    ensures r.Ok? ==> r.value != "" && r.value != "safe"
    ensures r.Ok? && rating.value != "safe" ==> r.value == rating.value
    ensures r.Err? ==> r.error == RuntimeError
  {
    if rating.None? || rating.value == "" then Err(RuntimeError)
    else if rating.value == "safe" then Ok("general")
    else Ok(rating.value)
  }

  /** What the HTML parser finds on a post page. */
  datatype PostPage = PostPage(
    isVideo: bool,
    hasImageContainer: bool,
    scoreText: Option<string>,
    originalUrl: Option<string>,
    sampleUrl: Option<string>,
    tagList: Option<seq<Li>>,
    rating: Option<string>,
    download: Option<bool>)

  /** The outcome of fetching the post page: an exception on the way, or the page.
      `download` is the validation result of the downloaded image, or `None`
      when the download raises. */
  datatype PostFetch = FetchRaised | Fetched(page: PostPage)

  /** The options `process_link` reads. */
  datatype LinkOptions = LinkOptions(lowQuality: bool, minTags: int, maxScrapeCount: Option<int>)

  /** `int(text)` on the score: surrounding whitespace is allowed. */
  function ScoreOf(text: Option<string>): Option<int>
  {
    if text.None? then None else ParseInt(Strip(text.value))
  }

  /** One attempt of `process_link` on a fetched page. */
  function PageAttempt(p: PostPage, imageId: string, known: bool, o: LinkOptions): (r: Attempt)
    ensures p.isVideo ==> r == Attempt(None, Skipped)
    ensures r.score.Some? <==> !p.isVideo && p.hasImageContainer && ScoreOf(p.scoreText).Some?
    ensures r.score.Some? ==> r.score == ScoreOf(p.scoreText)
    ensures known && r.score.Some? ==> r.end == Skipped
    ensures r.end.Saved? ==>
      && !known && p.download == Some(true) && r.score.Some?
      && var url := if o.lowQuality then p.sampleUrl else p.originalUrl;
      && url.Some? && IsImageUrl(url.value)
      && TypeTagsDict(p.tagList).Ok? && TypeTagsDict(p.tagList).value.1 >= o.minTags
      && Rating(p.rating).Ok?
      && r.end.metadata == Metadata(imageId, r.score.value, Rating(p.rating).value, TypeTagsDict(p.tagList).value.0)
  {
    if p.isVideo then Attempt(None, Skipped)
    else if !p.hasImageContainer then Attempt(None, Raised)
    else match ScoreOf(p.scoreText)
      case None => Attempt(None, Raised)
      case Some(score) =>
        var s := Some(score);
        if known then Attempt(s, Skipped)
        else
          var url := if o.lowQuality then p.sampleUrl else p.originalUrl;
          if url.None? then Attempt(s, Raised)
          else if !IsImageUrl(url.value) then Attempt(s, Skipped)
          else match TypeTagsDict(p.tagList)
            case Err(_) => Attempt(s, Raised)
            case Ok((groups, count)) =>
              if count < o.minTags then Attempt(s, Skipped)
              else match Rating(p.rating)
                case Err(_) => Attempt(s, Raised)
                case Ok(rating) =>
                  match p.download
                  case None => Attempt(s, Raised)
                  case Some(false) => Attempt(s, Skipped)
                  case Some(true) => Attempt(s, Saved(Metadata(imageId, score, rating, groups)))
  }

  /** One attempt of `process_link`. */
  function LinkAttempt(f: PostFetch, imageId: string, known: bool, o: LinkOptions): Attempt
  {
    match f
    case FetchRaised => Attempt(None, Raised)
    case Fetched(p) => PageAttempt(p, imageId, known, o)
  }

  /** The retry loop `process_link` runs for `imageId`: it releases the ID
      only if it was not known before, and counts query samples. */
  function LinkRetry(imageId: string, known: bool, o: LinkOptions, sigints: nat -> nat, fetches: nat -> PostFetch): Retry
  {
    Retry(imageId, !known, true, o.maxScrapeCount, sigints, (i: nat) => LinkAttempt(fetches(i), imageId, known, o))
  }

  /** The image ID in a post link: the digits of the first "id=" followed by a
      digit, taken as far as the digits go. */
  function ImageIdOf(url: string): (r: Option<string>)
    ensures r.Some? ==> r.value != [] && AllDigits(r.value)
    decreases |url|
  {
    if |url| >= 4 && url[..3] == "id=" && IsDigit(url[3]) then
      var n := DigitRun(url[3..]);
      assert forall k :: 0 <= k < n ==> url[3..][..n][k] == url[3..][k];
      Some(url[3..][..n])
    else if url == [] then None
    else ImageIdOf(url[1..])
  }

  /** Number of leading decimal digits of `s`. */
  function DigitRun(s: string): (n: nat)
    ensures n <= |s|
    ensures forall k :: 0 <= k < n ==> IsDigit(s[k])
    ensures s != [] && IsDigit(s[0]) ==> n >= 1
  {
    if s != [] && IsDigit(s[0]) then 1 + DigitRun(s[1..]) else 0
  }

  /** `process_link`: the new scrape state, and how the call ends (`Err` when the
      link has no image ID, which raises before any bookkeeping). */
  function ProcessLinkSpec(s: Snapshot, url: string, o: LinkOptions, sigints: nat -> nat, fetches: nat -> PostFetch): (Snapshot, Result<Outcome>)
  {
    match ImageIdOf(url)
    case None => (s, Err(AttributeError))
    case Some(id) =>
      var s1 := s.(lastReachedImageId := Some(id));
      var known := id in s.existingImageIds;
      if known && !EndsWith(id, "99") then (s1, Ok(AlreadyKnown))
      else
        var (s2, outcome) := RetryFrom(s1.(existingImageIds := s1.existingImageIds + {id}),
                                       LinkRetry(id, known, o, sigints, fetches), 1, false);
        (s2, Ok(outcome))
  }

  /** `process_link` on the shared scrape state. */
  method ProcessLink(st: ScrapeState, url: string, o: LinkOptions, sigints: nat -> nat, fetches: nat -> PostFetch)
    returns (r: Result<Outcome>)
    modifies st
    ensures (st.Value(), r) == ProcessLinkSpec(old(st.Value()), url, o, sigints, fetches)
  {
    var id := ImageIdOf(url);
    if id.None? {
      return Err(AttributeError);
    }
    st.lastReachedImageId := id;
    var known := id.value in st.existingImageIds;
    if known && !EndsWith(id.value, "99") {
      return Ok(AlreadyKnown);
    }
    st.existingImageIds := st.existingImageIds + {id.value};
    var outcome := RetryAttempts(st, LinkRetry(id.value, known, o, sigints, fetches));
    r := Ok(outcome);
  }

  /** The bookkeeping of one link with an image ID: the last reached ID is that
      ID whatever happens; the ID stays in the known set exactly when it was
      known or an attempt returned; the saved count grows by one exactly when
      an image was saved, which never happens for a known ID. */
  lemma ProcessLinkBookkeeping(s: Snapshot, url: string, o: LinkOptions, sigints: nat -> nat, fetches: nat -> PostFetch)
    requires ImageIdOf(url).Some?
    ensures var id := ImageIdOf(url).value;
      var (s2, r) := ProcessLinkSpec(s, url, o, sigints, fetches);
      && r.Ok?
      && s2.lastReachedImageId == Some(id)
      && s2.existingImageIds == (if r.value.Returned? then s.existingImageIds + {id} else s.existingImageIds)
      && s2.scrapedImageCount == s.scrapedImageCount + (if r.value == Returned(true) then 1 else 0)
      && (id in s.existingImageIds ==> r.value != Returned(true))
      && (SamplesInStep(s, true) ==> SamplesInStep(s2, true))
  {
    var id := ImageIdOf(url).value;
    var known := id in s.existingImageIds;
    if !(known && !EndsWith(id, "99")) {
      var s1 := s.(lastReachedImageId := Some(id), existingImageIds := s.existingImageIds + {id});
      var rt := LinkRetry(id, known, o, sigints, fetches);
      RetryEffects(s1, rt, 1, false);
      if known {
        assert s.existingImageIds + {id} == s.existingImageIds;
        forall j | 1 <= j <= MaxRetry + 1 ensures !rt.attempts(j).end.Saved? {
          match fetches(j) {
            case FetchRaised =>
            case Fetched(p) =>
          }
        }
        RetryNeverSaves(s1, rt, 1, false);
      } else {
        assert s.existingImageIds + {id} - {id} == s.existingImageIds;
      }
    }
  }

  /** A known ID not ending in "99" returns before any reservation: only the
      last reached ID changes. */
  lemma KnownLinkSkipped(s: Snapshot, url: string, o: LinkOptions, sigints: nat -> nat, fetches: nat -> PostFetch)
    requires ImageIdOf(url).Some?
    requires ImageIdOf(url).value in s.existingImageIds && !EndsWith(ImageIdOf(url).value, "99")
    ensures ProcessLinkSpec(s, url, o, sigints, fetches) ==
      (s.(lastReachedImageId := ImageIdOf(url)), Ok(AlreadyKnown))
  {
  }

  /** A fresh ID whose four attempts all raise, with no stop, is released and
      the call ends with the error. */
  lemma FreshLinkExhausted(s: Snapshot, url: string, o: LinkOptions, sigints: nat -> nat, fetches: nat -> PostFetch)
    requires ImageIdOf(url).Some? && ImageIdOf(url).value !in s.existingImageIds
    requires forall j :: 1 <= j <= MaxRetry + 1 ==> !Stop(sigints(j), s.scrapedImageCount, o.maxScrapeCount)
    requires forall j :: 1 <= j <= MaxRetry + 1 ==> fetches(j) == FetchRaised
    ensures ProcessLinkSpec(s, url, o, sigints, fetches).1 == Ok(GaveUp(true))
    ensures ProcessLinkSpec(s, url, o, sigints, fetches).0.existingImageIds == s.existingImageIds
  {
    var id := ImageIdOf(url).value;
    var s1 := s.(lastReachedImageId := Some(id), existingImageIds := s.existingImageIds + {id});
    var rt := LinkRetry(id, false, o, sigints, fetches);
    assert NoStopFrom(s1, rt, 1);
    assert AllRaiseFrom(rt, 1);
    FourFailures(s1, rt);
    ProcessLinkBookkeeping(s, url, o, sigints, fetches);
  }

  /** A video page, or a page whose image fails the extension filter, the tag
      minimum or validation, ends the call at its first attempt and keeps the
      ID reserved. */
  lemma SkippedPageKeepsId(s: Snapshot, url: string, o: LinkOptions, sigints: nat -> nat, fetches: nat -> PostFetch)
    requires ImageIdOf(url).Some? && ImageIdOf(url).value !in s.existingImageIds
    requires !Stop(sigints(1), s.scrapedImageCount, o.maxScrapeCount)
    requires fetches(1).Fetched? && LinkAttempt(fetches(1), ImageIdOf(url).value, false, o).end == Skipped
    ensures ProcessLinkSpec(s, url, o, sigints, fetches).1 == Ok(Returned(false))
    ensures ImageIdOf(url).value in ProcessLinkSpec(s, url, o, sigints, fetches).0.existingImageIds
  {
    ProcessLinkBookkeeping(s, url, o, sigints, fetches);
  }

  // ---------------------------------------------------------------------------
  // The listing loop of `main`

  /** A session is refreshed after every 50th listing processed in full. */
  const SessionRefreshEvery: nat := 50

  /** What `main` reads from the command line. */
  datatype MainArgs = MainArgs(site: string, continuous: bool, maxScrapeCount: Option<int>)

  /** What `main` keeps between listings: the post offset, the refresh
      counter, the number of sessions opened, the search query and the tasks
      in flight. */
  datatype Cursor = Cursor(pageNumber: nat, refreshCounter: nat, sessions: nat, query: SearchTags.Query, tasks: seq<string>)

  /** What the listing request yields: an exception on the way, a page without
      the thumbnail container, or the container with its depth-cap notice
      flag and its post links. */
  datatype Listing = ListingRaised | NoThumbnails | Thumbnails(notice: bool, urls: seq<string>)

  /** Everything a round meets from outside: the stop condition at its top,
      the last reached ID and score `update_bound` would read, the listing,
      each post's turn, the stop condition after the posts, the polls of a
      session-refresh wait and the interrupt count read after it. */
  datatype Round = Round(
    sigints: nat, scraped: nat,
    lastId: Option<string>, lastScore: Option<int>,
    listing: Listing,
    turns: nat -> Turn,
    afterSigints: nat, afterScraped: nat,
    drainPolls: seq<Poll>, sigintsAfterDrain: nat)

  /** The listing URL for a query and an offset. */
  function ListingRequest(site: string, q: SearchTags.Query, pageNumber: nat): string
  {
    site + "/index.php?page=post&s=list&tags=" + SearchTags.SearchString(q) + "&pid=" + IntToString(pageNumber)
  }

  /** One pass of `main`'s `while True` body; an exception the body catches
      leaves the cursor as it was. */
  function MainRound(c: Cursor, a: MainArgs, r: Round): (Cursor, RoundEnd)
  {
    if Stop(r.sigints, r.scraped, a.maxScrapeCount) then (c, Finished)
    else match r.listing
      case ListingRaised => (c, Continue)
      case NoThumbnails => (c, Continue)
      case Thumbnails(notice, urls) =>
        if notice && a.continuous then
          match SearchTags.UpdatedQuery(c.query, r.lastId, r.lastScore)
          case Err(_) => (c, Continue)
          case Ok(q) => (c.(query := q, pageNumber := 0), Continue)
        else if urls == [] then (c, Finished)
        else TakeListing(c, a, r, urls)
  }

  /** The rest of a pass once a listing has posts: the offset moves past
      them, their tasks are admitted, and every 50th listing drains the
      tasks and opens a new session. */
  function TakeListing(c: Cursor, a: MainArgs, r: Round, urls: seq<string>): (Cursor, RoundEnd)
  {
    var (t, admitted) := AdmitFrom(c.tasks, urls, a.maxScrapeCount, r.turns, 0);
    var c1 := c.(pageNumber := c.pageNumber + |urls|, tasks := t);
    if admitted == Stalled then (c1, Halted)
    else if Stop(r.afterSigints, r.afterScraped, a.maxScrapeCount) then (c1, Finished)
    else
      var n := c.refreshCounter + 1;
      if n % SessionRefreshEvery == 0 then
        var (t2, sessions, end) := Refresh(t, c.sessions, r.drainPolls, r.sigintsAfterDrain);
        (c1.(refreshCounter := n, tasks := t2, sessions := sessions), end)
      else (c1.(refreshCounter := n), Continue)
  }

  /** The rounds of the listing loop until one leaves it. */
  function MainLoop(c: Cursor, a: MainArgs, rounds: seq<Round>): (Cursor, RoundEnd)
    decreases |rounds|
  {
    if rounds == [] then (c, Halted)
    else
      var (c1, end) := MainRound(c, a, rounds[0]);
      if end == Continue then MainLoop(c1, a, rounds[1..]) else (c1, end)
  }

  /** Interrupts and saved images are only ever counted up: a stop condition
      that a wait of the round saw is seen again by the check before the next
      post and by the check after the posts. */
  predicate StopKept(a: MainArgs, r: Round)
  {
    r.listing.Thumbnails? ==>
      && StopPersists(a.maxScrapeCount, r.turns, |r.listing.urls|)
      && StopSeenAfter(a.maxScrapeCount, r.turns, |r.listing.urls|, r.afterSigints, r.afterScraped)
  }

  /** Some wait for room during the round's posts saw the stop condition. */
  predicate WaitSawStop(a: MainArgs, r: Round)
  {
    r.listing.Thumbnails? && exists j :: 0 <= j < |r.listing.urls| && SeesStop(a.maxScrapeCount, r.turns(j).polls)
  }

  /** The cursor moves as the listing loop promises: the offset grows by the
      number of posts of a listing whose posts were taken, drops to 0 when a
      depth-cap notice rewrote the bound, and stays otherwise; the query
      changes only by `update_bound`; a new session is opened only on a
      multiple of 50 listings. At most `MaxTasks` tasks are in flight when the
      loop goes on; one more is possible only in a round that leaves the loop
      after a wait saw the stop condition. */
  lemma MainRoundEffects(c: Cursor, a: MainArgs, r: Round)
    requires |c.tasks| <= MaxTasks && StopKept(a, r)
    ensures var (c2, end) := MainRound(c, a, r);
      && |c2.tasks| <= MaxTasks + 1
      && (|c2.tasks| > MaxTasks ==> end != Continue && WaitSawStop(a, r))
      && (forall x :: x in c2.tasks ==> x in c.tasks || (r.listing.Thumbnails? && x in r.listing.urls))
      && (c2.query == c.query || c2.query == SearchTags.UpdatedQuery(c.query, r.lastId, r.lastScore).value)
      && (c2.pageNumber == c.pageNumber || c2.pageNumber == 0 ||
          (r.listing.Thumbnails? && r.listing.urls != [] && c2.pageNumber == c.pageNumber + |r.listing.urls|))
      && (c2.query != c.query ==> c2.pageNumber == 0 && c2.tasks == c.tasks)
      && (c2.sessions != c.sessions ==>
            c2.sessions == c.sessions + 1 && c2.refreshCounter == c.refreshCounter + 1 &&
            c2.refreshCounter % SessionRefreshEvery == 0)
  {
    if !Stop(r.sigints, r.scraped, a.maxScrapeCount) && r.listing.Thumbnails? {
      var urls := r.listing.urls;
      if !(r.listing.notice && a.continuous) && urls != [] {
        AdmitListingKeeps(c.tasks, urls, a.maxScrapeCount, r.turns);
        var (t, admitted) := AdmitFrom(c.tasks, urls, a.maxScrapeCount, r.turns, 0);
        if |t| > MaxTasks {
          var j :| 0 <= j < |urls| && SeesStop(a.maxScrapeCount, r.turns(j).polls);
          assert Stop(r.afterSigints, r.afterScraped, a.maxScrapeCount);
        }
        forall x | true
          ensures x in DrainTasks(t, 0, r.drainPolls).0 ==> x in t
        {
          DrainKeepsOld(t, 0, r.drainPolls, x);
        }
      }
    }
  }

  /** A depth-cap notice in continuous mode, with a bound `update_bound` can
      build, rewrites the bound and restarts the offset at 0; without a bound
      to build, the round changes nothing. */
  lemma NoticeResets(c: Cursor, a: MainArgs, r: Round)
    requires !Stop(r.sigints, r.scraped, a.maxScrapeCount)
    requires r.listing.Thumbnails? && r.listing.notice && a.continuous
    ensures var (c2, end) := MainRound(c, a, r);
      var u := SearchTags.UpdatedQuery(c.query, r.lastId, r.lastScore);
      && end == Continue
      && (u.Ok? ==> c2 == c.(query := u.value, pageNumber := 0))
      && (u.Err? ==> c2 == c)
  {
  }

  /** A listing without posts, outside a continuous-mode depth-cap notice,
      ends the loop with nothing changed. */
  lemma EmptyListingFinishes(c: Cursor, a: MainArgs, r: Round)
    requires !Stop(r.sigints, r.scraped, a.maxScrapeCount)
    requires r.listing.Thumbnails? && r.listing.urls == [] && !(r.listing.notice && a.continuous)
    ensures MainRound(c, a, r) == (c, Finished)
  {
  }

  /** The listing loop ends with at most `MaxTasks` tasks in flight, or with
      one more only when a wait of its last round saw the stop condition. */
  lemma {:induction false} MainLoopBounded(c: Cursor, a: MainArgs, rounds: seq<Round>)
    requires |c.tasks| <= MaxTasks
    requires forall i :: 0 <= i < |rounds| ==> StopKept(a, rounds[i])
    ensures |MainLoop(c, a, rounds).0.tasks| <= MaxTasks + 1
    ensures |MainLoop(c, a, rounds).0.tasks| > MaxTasks ==> exists i :: 0 <= i < |rounds| && WaitSawStop(a, rounds[i])
    ensures MainLoop(c, a, rounds).1 != Continue
    decreases |rounds|
  {
    if rounds != [] {
      MainRoundEffects(c, a, rounds[0]);
      var (c1, end) := MainRound(c, a, rounds[0]);
      if end == Continue {
        assert forall i :: 0 <= i < |rounds[1..]| ==> rounds[1..][i] == rounds[i + 1];
        MainLoopBounded(c1, a, rounds[1..]);
        if |MainLoop(c, a, rounds).0.tasks| > MaxTasks {
          var i :| 0 <= i < |rounds[1..]| && WaitSawStop(a, rounds[1..][i]);
          assert WaitSawStop(a, rounds[i + 1]);
        }
      }
    }
  }

  /** The state of `main`: the offset, the refresh counter, the sessions
      opened, the search tags object and the list of tasks. */
  class Main {
    var pageNumber: nat
    var refreshCounter: nat
    var sessions: nat
    const search: SearchTags.SearchTags
    const taskList: TaskList

    function Value(): Cursor
      reads this, search, taskList
    {
      Cursor(pageNumber, refreshCounter, sessions, search.Value(), taskList.tasks)
    }

    /** The start of `main`: offset 0, one session, no task. */
    constructor (search: SearchTags.SearchTags)
      ensures Value() == Cursor(0, 0, 1, old(search.Value()), [])
      ensures this.search == search && fresh(taskList)
    {
      pageNumber := 0;
      refreshCounter := 0;
      sessions := 1;
      this.search := search;
      taskList := new TaskList();
    }

    /** One pass of the `while True` body; `request` is the listing URL
        fetched, if the pass got that far. */
    method Step(a: MainArgs, r: Round) returns (end: RoundEnd, request: Option<string>)
      modifies this, search, taskList
      ensures (Value(), end) == MainRound(old(Value()), a, r)
      ensures request == if Stop(r.sigints, r.scraped, a.maxScrapeCount) then None
        else Some(ListingRequest(a.site, old(Value()).query, old(pageNumber)))
    {
      if Stop(r.sigints, r.scraped, a.maxScrapeCount) {
        return Finished, None;
      }
      var tags := search.ToSearchString();
      request := Some(a.site + "/index.php?page=post&s=list&tags=" + tags + "&pid=" + IntToString(pageNumber));
      match r.listing {
        case ListingRaised =>
          return Continue, request;
        case NoThumbnails =>
          return Continue, request;
        case Thumbnails(notice, urls) =>
          if notice && a.continuous {
            var err := search.UpdateBound(r.lastId, r.lastScore);
            if err.None? {
              pageNumber := 0;
            }
            return Continue, request;
          }
          if urls == [] {
            return Finished, request;
          }
          end := Take(a, r, urls);
      }
    }

    /** The part of the pass after a listing with posts. */
    method Take(a: MainArgs, r: Round, urls: seq<string>) returns (end: RoundEnd)
      modifies this, taskList
      ensures (Value(), end) == TakeListing(old(Value()), a, r, urls)
    {
      pageNumber := pageNumber + |urls|;
      var admitted := taskList.AdmitListing(urls, a.maxScrapeCount, r.turns);
      if admitted == Stalled {
        return Halted;
      }
      if Stop(r.afterSigints, r.afterScraped, a.maxScrapeCount) {
        return Finished;
      }
      refreshCounter := refreshCounter + 1;
      if refreshCounter % SessionRefreshEvery == 0 {
        var drained := taskList.Drain(0, r.drainPolls);
        if drained == PollsRanOut {
          return Halted;
        }
        if r.sigintsAfterDrain < 1 {
          sessions := sessions + 1;
        }
      }
      end := Continue;
    }

    /** The `while True` loop over the rounds the environment supplies. */
    method Loop(a: MainArgs, rounds: seq<Round>) returns (end: RoundEnd)
      modifies this, search, taskList
      ensures (Value(), end) == MainLoop(old(Value()), a, rounds)
    {
      var k := 0;
      end := Continue;
      while k < |rounds|
        invariant 0 <= k <= |rounds|
        invariant MainLoop(old(Value()), a, rounds) == MainLoop(Value(), a, rounds[k..])
      {
        assert rounds[k..][1..] == rounds[k + 1..];
        var request;
        end, request := Step(a, rounds[k]);
        if end != Continue {
          return;
        }
        k := k + 1;
      }
      end := Halted;
    }
  }
}
