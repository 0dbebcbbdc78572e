/** The yande.re scraper: the tag groups of a post object, the bookkeeping of
    one post over its attempts, and the page loop of `main`. The JSON the site
    returns is given as values. */
module ScrapeYan {
  import opened Wrappers
  import opened Text
  import opened TagGroups
  import opened Crawl
  import SearchTags
  import Percent

  // ---------------------------------------------------------------------------
  // Tag groups of a post

  /** A tag as the site's tag text or tag map spells it, normalised: commas
      removed, leading and trailing underscores stripped. */
  function NormalizeTag(text: string): (r: string)
    ensures ',' !in r
    ensures r == [] || (r[0] != '_' && r[|r| - 1] != '_')
  {
    var u := RemoveChar(text, ',');
    StripCharShape(u, '_');
    StripChar(u, '_')
  }

  /** The entries of the response's `tags` map with their keys normalised. */
  function Normalized(entries: seq<(string, string)>): (r: seq<(string, string)>)
    ensures |r| == |entries|
    ensures forall k :: 0 <= k < |entries| ==> r[k] == (NormalizeTag(entries[k].0), entries[k].1)
  {
    if entries == [] then [] else [(NormalizeTag(entries[0].0), entries[0].1)] + Normalized(entries[1..])
  }

  /** A dictionary built from pairs in order: a later pair overwrites an
      earlier one with the same key. */
  function DictOf(pairs: seq<(string, string)>): map<string, string>
  {
    if pairs == [] then map[]
    else
      var n := |pairs| - 1;
      DictOf(pairs[..n])[pairs[n].0 := pairs[n].1]
  }

  /** The comprehension building `tag_type_dict` from the response's map. */
  function TagTypeDict(entries: seq<(string, string)>): map<string, string>
  {
    DictOf(Normalized(entries))
  }

  /** Every key of the pairs is in the dictionary. */
  lemma {:induction false} DictOfHas(pairs: seq<(string, string)>, k: nat)
    requires k < |pairs|
    ensures pairs[k].0 in DictOf(pairs)
  {
    var n := |pairs| - 1;
    if k < n {
      assert pairs[..n][k] == pairs[k];
      DictOfHas(pairs[..n], k);
    }
  }

  /** A key maps to the value of the last pair carrying it. */
  lemma {:induction false} DictOfLast(pairs: seq<(string, string)>, k: nat)
    requires k < |pairs|
    requires forall j :: k < j < |pairs| ==> pairs[j].0 != pairs[k].0
    ensures pairs[k].0 in DictOf(pairs) && DictOf(pairs)[pairs[k].0] == pairs[k].1
  {
    DictOfHas(pairs, k);
    var n := |pairs| - 1;
    if k < n {
      assert pairs[..n][k] == pairs[k];
      forall j | k < j < n
        ensures pairs[..n][j].0 != pairs[..n][k].0
      {
        assert pairs[..n][j] == pairs[j];
      }
      DictOfLast(pairs[..n], k);
    }
  }

  /** The keys of the pairs, in order. */
  function Keys(pairs: seq<(string, string)>): (r: seq<string>)
    ensures |r| == |pairs|
    ensures forall k :: 0 <= k < |pairs| ==> r[k] == pairs[k].0
  {
    if pairs == [] then [] else [pairs[0].0] + Keys(pairs[1..])
  }

  /** Every key of the response's map resolves once normalised, to the type
      of the last entry that normalises the same. */
  lemma TagTypeDictResolves(entries: seq<(string, string)>, k: nat)
    requires k < |entries|
    ensures var key := Normalized(entries)[k].0;
      && key in TagTypeDict(entries)
      && ((forall j :: k < j < |entries| ==> Normalized(entries)[j].0 != key) ==> TagTypeDict(entries)[key] == entries[k].1)
  {
    var pairs := Normalized(entries);
    DictOfHas(pairs, k);
    if forall j :: k < j < |entries| ==> pairs[j].0 != pairs[k].0 {
      DictOfLast(pairs, k);
    }
  }

  /** The (type, tag) pairs of the words of a post's tag text, or `ValueError`
      for the first word whose tag has no type. */
  function Items(words: seq<string>, d: map<string, string>): (r: Result<seq<(string, string)>>)
    ensures r.Err? ==> r.error == ValueError
    ensures r.Ok? ==> |r.value| == |words|
  {
    if words == [] then Ok([])
    else
      var tag := NormalizeTag(words[0]);
      if tag !in d then Err(ValueError)
      else
        match Items(words[1..], d)
        case Err(e) => Err(e)
        case Ok(rest) => Ok([(d[tag], tag)] + rest)
  }

  /** `get_type_tags_dict(raw_tags_text, tag_type_dict)`: the groups and the
      number of distinct tags. */
  function TypeTagsDict(raw: string, d: map<string, string>): Result<(seq<Group>, nat)>
  {
    var items :- Items(SplitWhitespace(raw), d);
    var (gs, seen) := Collect([], {}, items);
    Ok((gs, |seen|))
  }

  /** The loop of `get_type_tags_dict` from the dictionary `gs` and the set
      `seen` over the remaining words: a seen tag is skipped before its type is
      looked up. */
  function CollectWords(gs: seq<Group>, seen: set<string>, words: seq<string>, d: map<string, string>): Result<(seq<Group>, set<string>)>
    decreases |words|
  {
    if words == [] then Ok((gs, seen))
    else
      var tag := NormalizeTag(words[0]);
      if tag in seen then CollectWords(gs, seen, words[1..], d)
      else if tag !in d then Err(ValueError)
      else CollectWords(AddTag(gs, d[tag], tag), seen + {tag}, words[1..], d)
  }

  /** Looking every type up first gives the loop's result: a tag is seen only
      after its type was found, so skipping the lookup for it changes nothing. */
  lemma {:induction false} CollectWordsIsCollect(gs: seq<Group>, seen: set<string>, words: seq<string>, d: map<string, string>)
    requires forall t :: t in seen ==> t in d
    ensures CollectWords(gs, seen, words, d) ==
      match Items(words, d)
      case Err(e) => Err(e)
      case Ok(items) => Ok(Collect(gs, seen, items))
    decreases |words|
  {
    if words != [] {
      var tag := NormalizeTag(words[0]);
      if tag in seen {
        CollectWordsIsCollect(gs, seen, words[1..], d);
      } else if tag in d {
        CollectWordsIsCollect(AddTag(gs, d[tag], tag), seen + {tag}, words[1..], d);
      }
      if tag in d {
        match Items(words[1..], d) {
          case Err(_) =>
          case Ok(rest) =>
            assert ([(d[tag], tag)] + rest)[1..] == rest;
        }
      }
    }
  }

  /** The loop of `get_type_tags_dict` over the whitespace-separated words. */
  method GetTypeTagsDict(raw: string, d: map<string, string>) returns (r: Result<(seq<Group>, nat)>)
    ensures r == TypeTagsDict(raw, d)
  {
    var words := SplitWhitespace(raw);
    var gs: seq<Group> := [];
    var seen: set<string> := {};
    CollectWordsIsCollect([], {}, words, d);
    for i := 0 to |words|
      invariant forall t :: t in seen ==> t in d
      invariant CollectWords([], {}, words, d) == CollectWords(gs, seen, words[i..], d)
    {
      assert words[i..][1..] == words[i + 1..];
      var tag := NormalizeTag(words[i]);
      if tag in seen {
        continue;
      }
      if tag !in d {
        return Err(ValueError);
      }
      gs := AddTag(gs, d[tag], tag);
      seen := seen + {tag};
    }
    assert words[|words|..] == [];
    r := Ok((gs, |seen|));
  }

  /** A word whose tag the map lacks fails the attempt with `ValueError`. */
  lemma {:induction false} MissingTypeFails(words: seq<string>, d: map<string, string>, k: nat)
    requires k < |words| && NormalizeTag(words[k]) !in d
    ensures Items(words, d) == Err(ValueError)
  {
    ItemsStep(words, d);
    if k > 0 {
      var tail := words[1..];
      assert tail[k - 1] == words[k];
      MissingTypeFails(tail, d, k - 1);
    }
  }

  lemma ItemsStep(words: seq<string>, d: map<string, string>)
    requires words != []
    ensures NormalizeTag(words[0]) !in d ==> Items(words, d) == Err(ValueError)
    ensures Items(words[1..], d).Err? ==> Items(words, d) == Err(ValueError)
  {
  }

  /** When every tag of the tag text is a normalised key of the response's
      map, the lookup of every word succeeds. */
  lemma {:induction false} ResolvedTagsGroup(words: seq<string>, entries: seq<(string, string)>)
    requires forall k :: 0 <= k < |words| ==> NormalizeTag(words[k]) in Keys(Normalized(entries))
    ensures Items(words, TagTypeDict(entries)).Ok?
  {
    if words != [] {
      var pairs := Normalized(entries);
      var keys := Keys(pairs);
      var j :| 0 <= j < |keys| && keys[j] == NormalizeTag(words[0]);
      DictOfHas(pairs, j);
      forall k | 0 <= k < |words[1..]|
        ensures NormalizeTag(words[1..][k]) in keys
      {
        assert words[1..][k] == words[k + 1];
      }
      ResolvedTagsGroup(words[1..], entries);
    }
  }

  /** The dictionary of a post: group names are distinct, each distinct tag is
      in exactly one group, the type of the word where it first appears, and
      the count is the number of distinct tags. */
  lemma TypeTagsDictProperties(raw: string, d: map<string, string>, t: string)
    requires TypeTagsDict(raw, d).Ok?
    ensures var items := Items(SplitWhitespace(raw), d).value;
      var (gs, n) := TypeTagsDict(raw, d).value;
      && DistinctNames(gs)
      && n == |AllTags(gs)| == |ItemTags(items)|
      && multiset(AllTags(gs))[t] == (if t in ItemTags(items) then 1 else 0)
      && GroupOf(gs, t) == FirstGroupOf(items, t)
  {
    GroupedProperties(Items(SplitWhitespace(raw), d).value, t);
  }

  // ---------------------------------------------------------------------------
  // One post

  /** The rating letter of a post: "s", "q" and "e" are general, questionable
      and explicit; anything else, a missing rating included, fails the attempt. */
  function Rating(rating: Option<string>): (r: Result<string>)
    ensures r.Ok? <==> rating == Some("s") || rating == Some("q") || rating == Some("e")
    ensures r.Ok? ==> r.value in {"general", "questionable", "explicit"}
    ensures r.Err? ==> r.error == RuntimeError
  {
    match rating
    case Some("s") => Ok("general")
    case Some("q") => Ok("questionable")
    case Some("e") => Ok("explicit")
    case _ => Err(RuntimeError)
  }

  /** Different letters give different ratings. */
  lemma RatingInjective(a: Option<string>, b: Option<string>)
    requires Rating(a).Ok? && Rating(b).Ok? && a != b
    ensures Rating(a).value != Rating(b).value
  {
  }

  /** A post object of the listing; a key the object lacks is `None`. */
  datatype Post = Post(
    id: int,
    fileUrl: Option<string>,
    sampleUrl: Option<string>,
    tags: Option<string>,
    rating: Option<string>,
    score: Option<int>)

  /** The options `process_image_object` reads. */
  datatype PostOptions = PostOptions(lowQuality: bool, minTags: int, maxScrapeCount: Option<int>)

  /** One attempt on a post; `download` is the validation result of the
      downloaded image, or `None` when the download or the validation raises. */
  function PostAttempt(p: Post, d: map<string, string>, o: PostOptions, download: Option<bool>): (r: Attempt)
    ensures r.score.None?
    ensures r.end.Saved? ==>
      && download == Some(true)
      && var url := if o.lowQuality then p.sampleUrl else p.fileUrl;
      && url.Some? && IsImageUrl(url.value)
      && p.tags.Some? && TypeTagsDict(p.tags.value, d).Ok?
      && TypeTagsDict(p.tags.value, d).value.1 >= o.minTags
      && Rating(p.rating).Ok? && p.score.Some?
      && r.end.metadata == Metadata(IntToString(p.id), p.score.value, Rating(p.rating).value, TypeTagsDict(p.tags.value, d).value.0)
  {
    var url := if o.lowQuality then p.sampleUrl else p.fileUrl;
    if url.None? then Attempt(None, Raised)
    else if !IsImageUrl(url.value) then Attempt(None, Skipped)
    else if p.tags.None? then Attempt(None, Raised)
    else match TypeTagsDict(p.tags.value, d)
      case Err(_) => Attempt(None, Raised)
      case Ok((groups, count)) =>
        if count < o.minTags then Attempt(None, Skipped)
        else match Rating(p.rating)
          case Err(_) => Attempt(None, Raised)
          case Ok(rating) =>
            if p.score.None? then Attempt(None, Raised)
            else match download
              case None => Attempt(None, Raised)
              case Some(false) => Attempt(None, Skipped)
              case Some(true) => Attempt(None, Saved(Metadata(IntToString(p.id), p.score.value, rating, groups)))
  }

  /** The retry loop of `process_image_object`: leaving it always releases
      the ID, and only the download sample counts. */
  function PostRetry(p: Post, d: map<string, string>, o: PostOptions, sigints: nat -> nat, downloads: nat -> Option<bool>): Retry
  {
    Retry(IntToString(p.id), true, false, o.maxScrapeCount, sigints, (i: nat) => PostAttempt(p, d, o, downloads(i)))
  }

  /** `process_image_object`: the new scrape state and how the call ends. */
  function ProcessPostSpec(s: Snapshot, p: Post, d: map<string, string>, o: PostOptions, sigints: nat -> nat, downloads: nat -> Option<bool>): (Snapshot, Outcome)
  {
    var id := IntToString(p.id);
    if id in s.existingImageIds then (s, AlreadyKnown)
    else RetryFrom(s.(existingImageIds := s.existingImageIds + {id}), PostRetry(p, d, o, sigints, downloads), 1, false)
  }

  /** `process_image_object` on the shared scrape state. */
  method ProcessPost(st: ScrapeState, p: Post, d: map<string, string>, o: PostOptions, sigints: nat -> nat, downloads: nat -> Option<bool>)
    returns (outcome: Outcome)
    modifies st
    ensures (st.Value(), outcome) == ProcessPostSpec(old(st.Value()), p, d, o, sigints, downloads)
  {
    var id := IntToString(p.id);
    if id in st.existingImageIds {
      return AlreadyKnown;
    }
    st.existingImageIds := st.existingImageIds + {id};
    outcome := RetryAttempts(st, PostRetry(p, d, o, sigints, downloads));
  }

  /** The bookkeeping of one post: a known ID changes nothing; otherwise the
      ID stays reserved exactly when an attempt returned, the saved count
      grows by one exactly when an image was saved, the last reached ID and
      score are never touched, and the sample counts stay in step. */
  lemma ProcessPostBookkeeping(s: Snapshot, p: Post, d: map<string, string>, o: PostOptions, sigints: nat -> nat, downloads: nat -> Option<bool>)
    ensures var id := IntToString(p.id);
      var (s2, r) := ProcessPostSpec(s, p, d, o, sigints, downloads);
      && (id in s.existingImageIds <==> r == AlreadyKnown)
      && (r == AlreadyKnown ==> s2 == s)
      && (r != AlreadyKnown ==> s2.existingImageIds == (if r.Returned? then s.existingImageIds + {id} else s.existingImageIds))
      && s2.scrapedImageCount == s.scrapedImageCount + (if r == Returned(true) then 1 else 0)
      && s2.lastReachedImageId == s.lastReachedImageId
      && s2.lastReachedImageScore == s.lastReachedImageScore
      && (SamplesInStep(s, false) ==> SamplesInStep(s2, false))
  {
    var id := IntToString(p.id);
    if id !in s.existingImageIds {
      var s1 := s.(existingImageIds := s.existingImageIds + {id});
      var rt := PostRetry(p, d, o, sigints, downloads);
      RetryEffects(s1, rt, 1, false);
      forall j | 1 <= j <= MaxRetry + 1
        ensures rt.attempts(j).score.None?
      {
        assert rt.attempts(j) == PostAttempt(p, d, o, downloads(j));
      }
      RetryKeepsScore(s1, rt, 1, false);
      assert s.existingImageIds + {id} - {id} == s.existingImageIds;
    }
  }

  /** Attempts that record no score leave the last reached score alone. */
  lemma {:induction false} RetryKeepsScore(s: Snapshot, rt: Retry, i: nat, errored: bool)
    requires 1 <= i <= MaxRetry + 2
    requires forall j :: i <= j <= MaxRetry + 1 ==> rt.attempts(j).score.None?
    ensures RetryFrom(s, rt, i, errored).0.lastReachedImageScore == s.lastReachedImageScore
    decreases MaxRetry + 2 - i
  {
    if !(i > MaxRetry + 1 || Stop(rt.sigints(i), s.scrapedImageCount, rt.maxScrapeCount)) {
      var a := rt.attempts(i);
      if a.end.Raised? && i <= MaxRetry {
        RetryKeepsScore(WithScore(s, a), rt, i + 1, true);
      }
    }
  }

  /** An unknown rating is retried like any exception: with no stop, a fresh
      post whose image and tags pass but whose rating is not s, q or e fails
      all four attempts and is released. */
  lemma UnknownRatingExhausts(s: Snapshot, p: Post, d: map<string, string>, o: PostOptions, sigints: nat -> nat, downloads: nat -> Option<bool>)
    requires IntToString(p.id) !in s.existingImageIds
    requires var url := if o.lowQuality then p.sampleUrl else p.fileUrl;
      url.Some? && IsImageUrl(url.value)
    requires p.tags.Some? && TypeTagsDict(p.tags.value, d).Ok? && TypeTagsDict(p.tags.value, d).value.1 >= o.minTags
    requires Rating(p.rating).Err?
    requires forall j :: 1 <= j <= MaxRetry + 1 ==> !Stop(sigints(j), s.scrapedImageCount, o.maxScrapeCount)
    ensures ProcessPostSpec(s, p, d, o, sigints, downloads).1 == GaveUp(true)
    ensures ProcessPostSpec(s, p, d, o, sigints, downloads).0.existingImageIds == s.existingImageIds
  {
    var id := IntToString(p.id);
    var s1 := s.(existingImageIds := s.existingImageIds + {id});
    var rt := PostRetry(p, d, o, sigints, downloads);
    assert NoStopFrom(s, rt, 1);
    forall j | 1 <= j <= MaxRetry + 1
      ensures rt.attempts(j).end.Raised?
    {
      UnknownRatingRaises(p, d, o, downloads(j));
    }
    FreshExhausted(s, rt);
    assert ProcessPostSpec(s, p, d, o, sigints, downloads) == RetryFrom(s1, rt, 1, false);
  }

  /** One attempt at a post whose image and tags pass but whose rating is
      unknown raises. */
  lemma UnknownRatingRaises(p: Post, d: map<string, string>, o: PostOptions, download: Option<bool>)
    requires var url := if o.lowQuality then p.sampleUrl else p.fileUrl;
      url.Some? && IsImageUrl(url.value)
    requires p.tags.Some? && TypeTagsDict(p.tags.value, d).Ok? && TypeTagsDict(p.tags.value, d).value.1 >= o.minTags
    requires Rating(p.rating).Err?
    ensures PostAttempt(p, d, o, download).end.Raised?
  {
  }

  /** A stop seen before the first attempt releases a fresh ID at once. */
  lemma StopReleases(s: Snapshot, p: Post, d: map<string, string>, o: PostOptions, sigints: nat -> nat, downloads: nat -> Option<bool>)
    requires IntToString(p.id) !in s.existingImageIds
    requires Stop(sigints(1), s.scrapedImageCount, o.maxScrapeCount)
    ensures ProcessPostSpec(s, p, d, o, sigints, downloads) == (s, GaveUp(false))
  {
    var id := IntToString(p.id);
    var s1 := s.(existingImageIds := s.existingImageIds + {id});
    StopBeforeFirst(s1, PostRetry(p, d, o, sigints, downloads));
    assert s.existingImageIds + {id} - {id} == s.existingImageIds;
  }

  // ---------------------------------------------------------------------------
  // The page loop of `main`

  /** The search string: every tag percent-encoded, joined by `+`. */
  function SearchString(tags: seq<string>): string
  {
    Join(SearchTags.QuoteAll(tags), "+")
  }

  /** Splitting the search string on `+` and decoding each piece gives back
      the tags, when there is at least one. */
  lemma SearchStringDecodes(tags: seq<string>)
    requires tags != []
    ensures SearchTags.DecodeSearchString(SearchString(tags)) == Some(tags)
  {
    var parts := SearchTags.QuoteAll(tags);
    forall k, i | 0 <= k < |parts| && 0 <= i < |parts[k]|
      ensures parts[k][i] != '+'
    {
      Percent.QuoteHasNoPlus(tags[k]);
    }
    SplitJoin(parts, '+');
    SearchTags.UnquoteQuoteAll(tags);
  }

  /** What `main` reads from the command line. */
  datatype MainArgs = MainArgs(site: string, tags: seq<string>, maxScrapeCount: Option<int>)

  /** What `main` keeps between pages: the page number, the number of
      sessions opened and the tasks in flight. */
  datatype Cursor = Cursor(pageNumber: nat, sessions: nat, tasks: seq<string>)

  /** What the listing request yields: an exception on the way (a missing
      `posts` key included), or the posts and the `tags` map, if present. */
  datatype Listing = ListingRaised | Posts(posts: seq<Post>, tagEntries: Option<seq<(string, string)>>)

  /** Everything a round meets from outside; see `ScrapeGel.Round`. */
  datatype Round = Round(
    sigints: nat, scraped: nat,
    listing: Listing,
    turns: nat -> Turn,
    afterSigints: nat, afterScraped: nat,
    drainPolls: seq<Poll>, sigintsAfterDrain: nat)

  /** The listing URL for the search string and a page number. */
  function ListingRequest(site: string, tags: seq<string>, pageNumber: nat): string
  {
    site + "/post.json?api_version=2&include_tags=1&limit=1000&tags=" + SearchString(tags) + "&page=" + IntToString(pageNumber)
  }

  /** A post's task is named by the post's ID. */
  function PostIds(posts: seq<Post>): (r: seq<string>)
    ensures |r| == |posts|
    ensures forall k :: 0 <= k < |posts| ==> r[k] == IntToString(posts[k].id)
  {
    if posts == [] then [] else [IntToString(posts[0].id)] + PostIds(posts[1..])
  }

  /** One pass of `main`'s `while True` body. */
  function MainRound(c: Cursor, a: MainArgs, r: Round): (Cursor, RoundEnd)
  {
    if Stop(r.sigints, r.scraped, a.maxScrapeCount) then (c, Finished)
    else match r.listing
      case ListingRaised => (c, Continue)
      case Posts(posts, entries) =>
        if posts == [] then (c, Finished)
        else if entries.None? then (c, Continue)
        else
          var n := c.pageNumber + 1;
          var (t, admitted) := AdmitFrom(c.tasks, PostIds(posts), a.maxScrapeCount, r.turns, 0);
          var c1 := c.(pageNumber := n, tasks := t);
          if admitted == Stalled then (c1, Halted)
          else if Stop(r.afterSigints, r.afterScraped, a.maxScrapeCount) then (c1, Finished)
          else if n % 2 == 1 then
            var (t2, sessions, end) := Refresh(t, c.sessions, r.drainPolls, r.sigintsAfterDrain);
            (c1.(tasks := t2, sessions := sessions), end)
          else (c1, Continue)
  }

  /** The rounds of the page loop until one leaves it. */
  function MainLoop(c: Cursor, a: MainArgs, rounds: seq<Round>): (Cursor, RoundEnd)
    decreases |rounds|
  {
    if rounds == [] then (c, Halted)
    else
      var (c1, end) := MainRound(c, a, rounds[0]);
      if end == Continue then MainLoop(c1, a, rounds[1..]) else (c1, end)
  }

  /** Interrupts and saved images are only ever counted up: a stop condition
      that a wait of the round saw is seen again by the check before the next
      post and by the check after the posts. */
  predicate StopKept(a: MainArgs, r: Round)
  {
    r.listing.Posts? ==>
      && StopPersists(a.maxScrapeCount, r.turns, |r.listing.posts|)
      && StopSeenAfter(a.maxScrapeCount, r.turns, |r.listing.posts|, r.afterSigints, r.afterScraped)
  }

  /** Some wait for room during the round's posts saw the stop condition. */
  predicate WaitSawStop(a: MainArgs, r: Round)
  {
    r.listing.Posts? && exists j :: 0 <= j < |r.listing.posts| && SeesStop(a.maxScrapeCount, r.turns(j).polls)
  }

  /** The cursor moves as the page loop promises: the page number grows by one
      exactly for a page whose posts were taken; a new session is opened only
      after a page that made the page number odd; only tasks of the page's
      posts are added. At most `MaxTasks` tasks are in flight when the loop
      goes on; one more is possible only in a round that leaves the loop after
      a wait saw the stop condition. */
  lemma MainRoundEffects(c: Cursor, a: MainArgs, r: Round)
    requires |c.tasks| <= MaxTasks && StopKept(a, r)
    ensures var (c2, end) := MainRound(c, a, r);
      && |c2.tasks| <= MaxTasks + 1
      && (|c2.tasks| > MaxTasks ==> end != Continue && WaitSawStop(a, r))
      && (forall x :: x in c2.tasks ==> x in c.tasks || (r.listing.Posts? && x in PostIds(r.listing.posts)))
      && (c2.pageNumber == c.pageNumber + 1 <==>
            !Stop(r.sigints, r.scraped, a.maxScrapeCount) && r.listing.Posts? &&
            r.listing.posts != [] && r.listing.tagEntries.Some?)
      && (c2.pageNumber == c.pageNumber || c2.pageNumber == c.pageNumber + 1)
      && (c2.sessions != c.sessions ==> c2.sessions == c.sessions + 1 && c2.pageNumber % 2 == 1)
  {
    var (c2, end) := MainRound(c, a, r);
    if !Stop(r.sigints, r.scraped, a.maxScrapeCount) && r.listing.Posts? &&
       r.listing.posts != [] && r.listing.tagEntries.Some? {
      var ids := PostIds(r.listing.posts);
      var n := c.pageNumber + 1;
      var (t, admitted) := AdmitFrom(c.tasks, ids, a.maxScrapeCount, r.turns, 0);
      AdmitListingKeeps(c.tasks, ids, a.maxScrapeCount, r.turns);
      if |t| > MaxTasks {
        var j :| 0 <= j < |ids| && SeesStop(a.maxScrapeCount, r.turns(j).polls);
        assert Stop(r.afterSigints, r.afterScraped, a.maxScrapeCount);
      }
      if admitted != Stalled && !Stop(r.afterSigints, r.afterScraped, a.maxScrapeCount) && n % 2 == 1 {
        var (t2, sessions, e) := Refresh(t, c.sessions, r.drainPolls, r.sigintsAfterDrain);
        RefreshKeeps(t, c.sessions, r.drainPolls, r.sigintsAfterDrain);
        assert c2 == c.(pageNumber := n, tasks := t2, sessions := sessions);
      } else {
        assert c2 == c.(pageNumber := n, tasks := t);
      }
    } else {
      assert c2 == c;
    }
  }

  /** The page loop ends with at most `MaxTasks` tasks in flight, or with one
      more only when a wait of its last round saw the stop condition; the page
      number counts the pages taken. */
  lemma {:induction false} MainLoopBounded(c: Cursor, a: MainArgs, rounds: seq<Round>)
    requires |c.tasks| <= MaxTasks
    requires forall i :: 0 <= i < |rounds| ==> StopKept(a, rounds[i])
    ensures |MainLoop(c, a, rounds).0.tasks| <= MaxTasks + 1
    ensures |MainLoop(c, a, rounds).0.tasks| > MaxTasks ==> exists i :: 0 <= i < |rounds| && WaitSawStop(a, rounds[i])
    ensures c.pageNumber <= MainLoop(c, a, rounds).0.pageNumber <= c.pageNumber + |rounds|
    decreases |rounds|
  {
    if rounds != [] {
      MainRoundEffects(c, a, rounds[0]);
      var (c1, end) := MainRound(c, a, rounds[0]);
      if end == Continue {
        assert forall i :: 0 <= i < |rounds[1..]| ==> rounds[1..][i] == rounds[i + 1];
        MainLoopBounded(c1, a, rounds[1..]);
        if |MainLoop(c, a, rounds).0.tasks| > MaxTasks {
          var i :| 0 <= i < |rounds[1..]| && WaitSawStop(a, rounds[1..][i]);
          assert WaitSawStop(a, rounds[i + 1]);
        }
      }
    }
  }

  /** The state of `main`: the page number, the sessions opened and the list of tasks. */
  class Main {
    var pageNumber: nat
    var sessions: nat
    const taskList: TaskList

    function Value(): Cursor
      reads this, taskList
    {
      Cursor(pageNumber, sessions, taskList.tasks)
    }

    /** The start of `main`: page 1, one session, no task. */
    constructor ()
      ensures Value() == Cursor(1, 1, []) && fresh(taskList)
    {
      pageNumber := 1;
      sessions := 1;
      taskList := new TaskList();
    }

    /** One pass of the `while True` body; `request` is the listing URL
        fetched, if the pass got that far. */
    method Step(a: MainArgs, r: Round) returns (end: RoundEnd, request: Option<string>)
      modifies this, taskList
      ensures (Value(), end) == MainRound(old(Value()), a, r)
      ensures request == if Stop(r.sigints, r.scraped, a.maxScrapeCount) then None
        else Some(ListingRequest(a.site, a.tags, old(pageNumber)))
    {
      if Stop(r.sigints, r.scraped, a.maxScrapeCount) {
        return Finished, None;
      }
      request := Some(ListingRequest(a.site, a.tags, pageNumber));
      match r.listing {
        case ListingRaised =>
          return Continue, request;
        case Posts(posts, entries) =>
          if posts == [] {
            return Finished, request;
          }
          if entries.None? {
            return Continue, request;
          }
          pageNumber := pageNumber + 1;
          var admitted := taskList.AdmitListing(PostIds(posts), a.maxScrapeCount, r.turns);
          if admitted == Stalled {
            return Halted, request;
          }
          if Stop(r.afterSigints, r.afterScraped, a.maxScrapeCount) {
            return Finished, request;
          }
          if pageNumber % 2 == 1 {
            var drained := taskList.Drain(0, r.drainPolls);
            if drained == PollsRanOut {
              return Halted, request;
            }
            if r.sigintsAfterDrain < 1 {
              sessions := sessions + 1;
            }
          }
          end := Continue;
      }
    }

    /** The `while True` loop over the rounds the environment supplies. */
    method Loop(a: MainArgs, rounds: seq<Round>) returns (end: RoundEnd)
      modifies this, taskList
      ensures (Value(), end) == MainLoop(old(Value()), a, rounds)
    {
      var k := 0;
      end := Continue;
      while k < |rounds|
        invariant 0 <= k <= |rounds|
        invariant MainLoop(old(Value()), a, rounds) == MainLoop(Value(), a, rounds[k..])
      {
        assert rounds[k..][1..] == rounds[k + 1..];
        var request;
        end, request := Step(a, rounds[k]);
        if end != Continue {
          return;
        }
        k := k + 1;
      }
      end := Halted;
    }
  }
}
