# aisp core, modelled in Dafny

This project models the core of `aisp`, a small image-scraping and dataset-preparation toolkit. The core has three parts:

- **The search-query grammar** (`utils/search_tags.py`, module `SearchTags`).
  - Sort tokens are `sort:<field>[:asc|desc]`.
  - Compare filters are `<field>:<|>[=]<value>`.
  - The query object splits the user's tokens into the sort, the filters, the one filter that acts as the paging "bound", and the plain tags.
  - `update_bound` moves the bound to the last-reached id or score.
  - `to_search_string` percent-encodes every token (no safe characters) and joins them with `+` (module `Percent`).
- **The bookkeeping of the two scrapers** (`scrape_gel.py` and `scrape_yan.py`, modules `ScrapeGel`, `ScrapeYan` and the shared `Crawl`).
  - The tag groups of a post are built first-seen-wins (`TagGroups`).
  - Ratings are normalised.
  - The image-extension filter decides what is downloaded.
  - The known-ID set is reserved and released around the retry loop (`MAX_RETRY` = 3, so four attempts).
  - The saved-image and sample counters are updated on a save.
  - The listing driver keeps the Gelbooru offset or the yande.re page number.
  - In continuous mode, the depth-cap notice resets the bound.
  - The session is refreshed on a schedule.
  - Admission waits for fewer than `MAX_TASKS` = 50 tasks in flight, and appends the new task even when a stop ended the wait, so one task beyond the cap is possible once a stop has been seen.
  - The scrape state, the list of tasks and each driver are classes whose methods update their fields in place.
- **The offline dataset tools** (modules `Utils`, `MakeModelTags`, `BalanceTags`, `Compress`, `Convert`, `TagText`, `NlLlmTag`; helpers `Paths`, `Sorting`, `Text`).
  - `get_tags` selects tags with include/exclude.
  - The model-tags file is written by `make_model_tags.py` and read back by `get_model_tags`.
  - Images are paired with their metadata from a directory listing.
  - The bucket-balancing selection loop picks images.
  - Sorted pairs are partitioned into tar chunks.
  - Captions are built for `convert.py`.
  - The language-model tagger builds its prompt, retries the request and checks the finish reason.

The network, the HTML parser, image validation, random shuffles, interrupts and task completion are all parameters of the model: the page contents, the outcome of each attempt, the listing of a directory, a draw function `rand: nat -> nat` standing for the random draws of a shuffle, interrupt counts and sets of finished tasks. Given these, every modelled operation is sequential and deterministic. Loops in the source are `while` or `for` loops here with their invariants. Each loop is proved against a function that specifies it, and the properties are proved about those functions.

## Model

| member | source | states |
|---|---|---|
| Percent.Utf8RoundTrip | utils/search_tags.py:129 | decoding the UTF-8 encoding of a string gives it back |
| Percent.Utf8CharDecodes | utils/search_tags.py:129 | one encoded character decodes to itself and its byte length |
| Percent.BytesRoundTrip | utils/search_tags.py:129 | decoding the `%XX` form of any bytes gives them back |
| Percent.QuoteRoundTrip | utils/search_tags.py:129 | unquoting a quoted token (no safe characters) gives it back |
| Percent.QuoteHasNoPlus | utils/search_tags.py:129 | a quoted token never contains `+`, so `+` separates tokens |
| Percent.EncodeBytesFree | utils/search_tags.py:129 | the encoding uses only unreserved characters, `%` and hex digits |
| Text.Lower | utils/search_tags.py:83 | ASCII lowercase, character by character, same length |
| Text.LowerIdempotent | utils/search_tags.py:83 | lowercasing twice is lowercasing once |
| Text.LowerKeepsSpaces | utils/search_tags.py:83-87 | lowercasing neither adds nor removes whitespace |
| Text.TrimLeft | utils/search_tags.py:83 | the stripped string is a suffix that does not start with a stripped character |
| Text.TrimRight | utils/search_tags.py:83 | the stripped string is a prefix that does not end with a stripped character |
| Text.StripNoSpace | utils/search_tags.py:83 | stripping a string without whitespace changes nothing |
| Text.StripCharShape | scrape_gel.py:28 | `strip("_")` leaves no underscore at either end and adds no character |
| Text.InnerMembers | scrape_gel.py:28 | stripping both ends keeps only characters of the original |
| Text.RemoveChar | scrape_gel.py:28 | removing a character leaves none of it |
| Text.ReplaceChar | convert.py:26 | `replace` of one character by another, position by position |
| Text.Split | utils/search_tags.py:33 | `str.split(sep)` gives at least one piece |
| Text.SplitFree | utils/search_tags.py:33 | a piece without the separator is split off whole |
| Text.SplitJoin | nl_llm_tag.py:36-43 | splitting a join whose pieces avoid the separator gives the pieces back |
| Text.JoinAppend | make_model_tags.py:42-44 | joining one more piece appends the separator and the piece |
| Text.WordLength | utils/utils.py:77 | the length of the leading run of non-whitespace |
| Text.SplitWhitespace | utils/utils.py:77 | `str.split()` gives non-empty pieces without whitespace |
| Text.SplitWhitespaceWord | utils/utils.py:77 | a word followed by whitespace is split off whole |
| Text.NatToString | make_model_tags.py:44 | decimal digits, never empty |
| Text.IntToString | utils/search_tags.py:118 | `str` of an int: never empty, without whitespace, lowercase |
| Text.DigitsOfNat | utils/utils.py:80 | the digits of a natural number read back as that number |
| Text.ParseIntToString | utils/utils.py:80 | `int(str(i)) == i` |
| SearchTags.ValidateSortType | utils/search_tags.py:17-25 | only "id" and "score" pass; any other field is NotImplementedError |
| SearchTags.SortFromTagNotSort | utils/search_tags.py:29-30 | a token not starting with "sort:" is no sort tag |
| SearchTags.SortFromTagNone | utils/search_tags.py:27-47 | `from_tag` gives None exactly for tokens without the "sort:" prefix |
| SearchTags.SortFromTagField | utils/search_tags.py:33-39 | "sort:<field>" is the descending sort on that field when it is supported, NotImplementedError otherwise (including "sort:") |
| SearchTags.SortFromTagDirection | utils/search_tags.py:40-42 | a third part other than "asc" means descending |
| SearchTags.SortFromTagTooManyParts | utils/search_tags.py:43-44 | more than three `:`-parts is ValueError |
| SearchTags.SortTagRoundTrip | utils/search_tags.py:14-15 | parsing the printed form of a supported sort tag gives it back |
| SearchTags.SortFromTagSupported | utils/search_tags.py:38-39 | every sort tag the parser returns has a supported field |
| SearchTags.FilterRoundTrip | utils/search_tags.py:56-73 | parsing the printed form of a well-formed compare filter gives it back |
| SearchTags.FilterFromTagCases | utils/search_tags.py:60-73 | no regex match or no operator at all gives None; an empty target, or `=` without `<`/`>`, is ValueError; otherwise a filter |
| SearchTags.FilterFromTagText | utils/search_tags.py:61-73 | a parsed filter prints back to the token it came from, and is well formed |
| SearchTags.FilterMatchShape | utils/search_tags.py:6 | the four regex groups: a lowercase ASCII name, an optional `<`/`>`, an optional `=`, a target without whitespace, together the whole token |
| SearchTags.OperatorPartsShape | utils/search_tags.py:6 | the operator groups take at most one of `<`/`>` and one `=` |
| SearchTags.IndexOf | utils/search_tags.py:6 | the first occurrence of a character, or none |
| SearchTags.ScanTags | utils/search_tags.py:82-98 | the token loop agrees with the token-by-token scan of the constructor |
| SearchTags.ExtractBound | utils/search_tags.py:101-107 | the backward loop moves the single associated filter out, or fails on a second one |
| SearchTags.ClassifyTags | utils/search_tags.py:77-107 | the constructor's field values, or its error, are those of the parse |
| SearchTags.FirstAssociatedNone | utils/search_tags.py:101-107 | there is no bound exactly when no filter matches the sort's field and direction |
| SearchTags.UnassociatedFrom | utils/search_tags.py:101-107 | filters left in the list come from the input and are not associated with the sort; the bound comes from the input |
| SearchTags.NoneAssociated | utils/search_tags.py:101-107 | unassociated filters keep their relative order ahead of the rest |
| SearchTags.AssociatedSplit | utils/search_tags.py:101-107 | counting and removing associated filters distribute over concatenation |
| SearchTags.ParseQueryWellFormed | utils/search_tags.py:82-107 | every constructed query has clean tokens, a supported sort, at most one bound, and no associated filter left in the list |
| SearchTags.DropsEmptyToken | utils/search_tags.py:83-85 | a token that is empty after strip and lowercase is dropped |
| SearchTags.RejectsInnerSpace | utils/search_tags.py:86-87 | a token with inner whitespace is ValueError |
| SearchTags.RejectsSecondSort | utils/search_tags.py:88-91 | a second sort tag is ValueError |
| SearchTags.PlainTagsDefaultSort | utils/search_tags.py:98-100 | plain tags alone give the default sort "id", descending, and are kept in order |
| SearchTags.ScanTokensAppend | utils/search_tags.py:82-98 | scanning a concatenation scans the first part, then the second |
| SearchTags.ScanPlainTags | utils/search_tags.py:98 | plain tags are appended to the general tags in order |
| SearchTags.ScanFilters | utils/search_tags.py:94-97 | filter tokens are appended to the filter list in order |
| SearchTags.ClassifySort | utils/search_tags.py:88-93 | a printed sort tag is read as that sort tag |
| SearchTags.ClassifyFilter | utils/search_tags.py:94-97 | a printed well-formed filter is read as that filter |
| SearchTags.ClassifyPlain | utils/search_tags.py:98 | a plain tag is read as a plain tag |
| SearchTags.FilterTexts | utils/search_tags.py:124-125 | one printed form per filter, in order |
| SearchTags.QuoteAll | utils/search_tags.py:129 | one percent-encoded form per token, in order |
| SearchTags.UnquoteQuoteAll | utils/search_tags.py:129 | decoding every encoded token gives the tokens back |
| SearchTags.SearchStringDecodes | utils/search_tags.py:122-129 | splitting the search string on `+` and decoding gives the sort, the filters, the bound and the general tags, in that order |
| SearchTags.TokenTextsShape | utils/search_tags.py:123-128 | the token order of `to_search_string` |
| SearchTags.RenderedQueryParses | utils/search_tags.py:77-129 | constructing from the rendered tokens of a well-formed query gives the same query |
| SearchTags.SplitRendered | utils/search_tags.py:101-107 | the rendered bound is moved back out of the filter list |
| SearchTags.BoundFor | utils/search_tags.py:109-120 | the bound is (sort field, less-than = descending, with equal, last id or printed last score); a missing value is ValueError, an unsupported field NotImplementedError |
| SearchTags.UpdatedQuery | utils/search_tags.py:109-120 | updating the bound replaces only the bound |
| SearchTags.UpdateBoundIdempotent | utils/search_tags.py:109-120 | a second update with the same state changes nothing |
| SearchTags.UpdateBoundWellFormed | utils/search_tags.py:109-120 | an updated well-formed query stays well formed |
| SearchTags.SearchTags.FromTags | utils/search_tags.py:77-107 | the constructor either fails with the parse's error or builds an object holding the parsed query |
| SearchTags.SearchTags.UpdateBound | utils/search_tags.py:109-120 | the object's query becomes the updated query, or is left unchanged with the error |
| SearchTags.SearchTags.ToSearchString | utils/search_tags.py:122-129 | the object's search string |
| Crawl.ImageUrlByExtension | scrape_gel.py:83-86 | a URL is accepted exactly when its lowercased extension is one of `IMAGE_EXT` (constants.py:9-12) |
| Crawl.NoExtensionNoImage | scrape_gel.py:83-86 | a URL without an extension is never accepted |
| Crawl.CountSavedInStep | scrape_gel.py:111-126 | a saved image adds exactly one to the scraped count and one to each sample counter, both reset to 0 at every multiple of 1000; the known IDs and last-reached values are untouched |
| Crawl.ScrapeState.constructor | utils/scrape_state.py:6-14 | a fresh state holds the known IDs and zero counters |
| Crawl.ScrapeState.RecordSaved | scrape_gel.py:111-126 | the counters of a saved image, in place |
| Crawl.RetryAttempts | scrape_gel.py:49-52 | the attempt loop, numbered 1 to `MAX_RETRY + 1` (constants.py:3), agrees with its step-by-step definition |
| Crawl.RetryEffects | scrape_gel.py:47-52 | leaving the loop releases the ID only when asked, only a save adds to the count, and the counters stay in step |
| Crawl.RetryCounts | scrape_gel.py:47-52 | leaving the loop releases the ID only when asked, only a save adds one to the saved count, and the last reached ID is untouched |
| Crawl.RetrySamples | scrape_gel.py:47-52 | the sample counters stay in step with the saved count through the loop |
| Crawl.RetryNeverSaves | scrape_gel.py:111 | without a saving attempt, nothing is saved |
| Crawl.RetryGivesUp | scrape_gel.py:128-131 | with no stop, the loop gives up exactly when every remaining attempt raises |
| Crawl.FourFailures | scrape_gel.py:128-135 | four raising attempts give up with an error and, when asked, release the ID |
| Crawl.FreshExhausted | scrape_gel.py:128-135 | a fresh ID whose four attempts all raise, with no stop, gives up with an error and is released |
| Crawl.StopBeforeFirst | scrape_gel.py:51-52 | a stop condition before the first attempt leaves the loop without error |
| Crawl.UnfinishedShrinks | scrape_gel.py:224-228 | harvesting removes exactly the finished tasks; with one finished, the list shrinks |
| Crawl.Wait | scrape_gel.py:220-228 | the wait ends ready only below `MAX_TASKS` (constants.py:2) and never adds tasks |
| Crawl.AdmitAsWrittenOverflows | scrape_gel.py:220-229 | as written, a stop seen while `MAX_TASKS` tasks run still appends one more |
| Crawl.AdmitBounded | scrape_gel.py:218-229 | the corrected admission never lets more than `MAX_TASKS` tasks run; a ready admission appends the target last |
| Crawl.WaitStops | scrape_gel.py:221-222 | a wait the stop condition ended saw it at one of its polls |
| Crawl.WaitFull | scrape_gel.py:220-228 | a wait that did not find room leaves at least `MAX_TASKS` tasks |
| Crawl.AdmitAsWrittenBound | scrape_gel.py:220-229 | from at most `MAX_TASKS` tasks, the written admission appends the target within the cap when room was found, appends it as task `MAX_TASKS` + 1 when a stop ended the wait (which some poll saw), appends nothing when the polls ran out, and adds no other task |
| Crawl.AdmitBelowCap | scrape_gel.py:220-229 | below the cap the new task is appended at once, as written and as corrected |
| Crawl.WaitKeepsOld | scrape_gel.py:220-228 | waiting only removes tasks |
| Crawl.DrainTasks | scrape_gel.py:235-241 | the refresh wait ends ready exactly when no task is left |
| Crawl.DrainStops | scrape_gel.py:235 | the wait stops early only after an interrupt |
| Crawl.DrainKeepsOld | scrape_gel.py:235-241 | draining only removes tasks |
| Crawl.AllFinishedDrains | scrape_gel.py:235-241 | when every task has finished one poll drains the list |
| Crawl.AdmitFromBounded | scrape_gel.py:217-229 | as written, and given that a stop seen in a wait is seen again before the next post, admitting a listing keeps at most `MAX_TASKS` + 1 tasks, more than `MAX_TASKS` only after some wait saw the stop condition |
| Crawl.AdmitFromKeeps | scrape_gel.py:217-229 | every task after the listing loop is from before or from the listing, and the last post is last when all were admitted |
| Crawl.AdmitListingKeeps | scrape_gel.py:217-229 | from at most `MAX_TASKS` tasks, a listing ends with at most `MAX_TASKS` + 1, more only after a wait saw the stop condition, each from before or from the listing |
| Crawl.Refresh | scrape_gel.py:232-244 | the session is replaced only after an uninterrupted drain |
| Crawl.ExitWait | scrape_gel.py:248-263 | the exit status is 1 exactly when an interrupt arrived |
| Crawl.TaskList.Harvest | scrape_gel.py:224-228 | removes the finished tasks in place |
| Crawl.TaskList.Admit | scrape_gel.py:220-229 | the admission of one task as written, in place: the new list and the way the wait ended are those of the written admission, so a stop ending the wait still appends |
| Crawl.TaskList.AdmitListing | scrape_gel.py:217-229 | the admission of a page of links as written, in place: it leaves on a stop before a post or on polls that ran out, and goes on after a stop that ended a wait |
| Crawl.TaskList.Drain | scrape_gel.py:235-241 | the refresh wait, in place |
| Crawl.TaskList.Shutdown | scrape_gel.py:252-263 | the exit wait, in place |
| Crawl.CheckOptions | scrape_gel.py:153-175 | width and height together and at least 1, `min_tags` not negative, `max_scrape_count` positive when set; anything else is refused (the same checks as scrape_yan.py:118-140) |
| ScrapeGel.GroupOfItem | scrape_gel.py:22-31 | an item contributes exactly when it has one class starting with "tag-type-"; the group is that class without the prefix |
| ScrapeGel.NormalizeTag | scrape_gel.py:28 | a normalised tag has no comma or space and no underscore at either end |
| ScrapeGel.GetTypeTagsDict | scrape_gel.py:15-38 | the loop over the items agrees with the grouping of the contributing (group, tag) pairs |
| ScrapeGel.CollectItemsIsCollect | scrape_gel.py:21-37 | the item loop is the first-seen-wins grouping of its contributing pairs |
| ScrapeGel.ItemsContributors | scrape_gel.py:21-28 | the grouped pairs are exactly those of the contributing items |
| ScrapeGel.TypeTagsDictProperties | scrape_gel.py:29-38 | distinct group names; every distinct tag once, in the group of its first occurrence; the count is the number of distinct tags |
| ScrapeGel.NoTagList | scrape_gel.py:16-18 | a page without a tag list is RuntimeError |
| ScrapeGel.Rating | scrape_gel.py:93-97 | "safe" becomes "general", other non-empty ratings pass, a missing or empty one is RuntimeError |
| ScrapeGel.PageAttempt | scrape_gel.py:60-110 | a video is skipped before the score; the score is recorded whenever it parses; a known ID is then skipped; a save needs a fresh ID, an image URL, enough tags, a rating and a passing validation, and saves that metadata |
| ScrapeGel.ImageIdOf | scrape_gel.py:41 | the ID is a non-empty run of digits after "id=" |
| ScrapeGel.DigitRun | scrape_gel.py:13 | the length of the leading digit run |
| ScrapeGel.ProcessLink | scrape_gel.py:40-139 | `process_link` on the scrape state agrees with its definition |
| ScrapeGel.ProcessLinkBookkeeping | scrape_gel.py:40-139 | the last-reached ID is always set; the ID stays reserved exactly when an attempt returned; at most one image is counted and never for a known ID |
| ScrapeGel.KnownLinkSkipped | scrape_gel.py:42-46 | a known ID not ending in "99" returns at once, only the last-reached ID changes |
| ScrapeGel.FreshLinkExhausted | scrape_gel.py:128-135 | four raising attempts on a fresh ID give up with an error and release it |
| ScrapeGel.SkippedPageKeepsId | scrape_gel.py:60-110 | an early return keeps a fresh ID reserved |
| ScrapeGel.MainRoundEffects | scrape_gel.py:192-247 | the offset grows by the page's post count, resets to 0 after a bound update, or stays; the query changes only by `update_bound`; a new session only every 50 listings; given that a stop seen stays seen, at most `MAX_TASKS` + 1 tasks, and more than `MAX_TASKS` only in a round that leaves the loop after a wait saw the stop condition |
| ScrapeGel.NoticeResets | scrape_gel.py:204-209 | a depth-cap notice in continuous mode updates the bound and resets the offset |
| ScrapeGel.EmptyListingFinishes | scrape_gel.py:210-214 | a page with no posts ends the loop |
| ScrapeGel.MainLoopBounded | scrape_gel.py:192-247 | given that a stop seen stays seen, the loop ends with at most `MAX_TASKS` + 1 tasks, more than `MAX_TASKS` only when a wait saw the stop condition, and ends only by leaving |
| ScrapeGel.Main.constructor | scrape_gel.py:181-191 | offset 0, no tasks, one session |
| ScrapeGel.Main.Step | scrape_gel.py:192-247 | one pass of the loop body as written, in place, with the listing URL it requests; its effects are those of `MainRoundEffects` |
| ScrapeGel.Main.Take | scrape_gel.py:215-244 | the rest of a pass after a listing with posts, in place: the offset moves past the posts, their tasks are admitted as written (a stop ending a wait still appends), and every 50th listing waits for the tasks and opens a new session |
| ScrapeGel.Main.Loop | scrape_gel.py:192-247 | the listing loop as written, in place; its bound on the tasks is that of `MainLoopBounded` |
| ScrapeYan.NormalizeTag | scrape_yan.py:18 | a normalised tag has no comma and no underscore at either end |
| ScrapeYan.Normalized | scrape_yan.py:169 | the page's tag map with each key normalised as tags are, in order |
| ScrapeYan.DictOfHas | scrape_yan.py:169 | every normalised key is in the type map |
| ScrapeYan.DictOfLast | scrape_yan.py:169 | of keys that normalise alike, the last one's type wins |
| ScrapeYan.TagTypeDictResolves | scrape_yan.py:169 | every tag of the page's tag map resolves after normalisation, to its own type when no later key collides |
| ScrapeYan.Items | scrape_yan.py:17-23 | one (type, tag) pair per word, or ValueError |
| ScrapeYan.GetTypeTagsDict | scrape_yan.py:14-30 | the loop over the words agrees with the grouping of their (type, tag) pairs |
| ScrapeYan.CollectWordsIsCollect | scrape_yan.py:17-29 | the word loop is the first-seen-wins grouping of its pairs |
| ScrapeYan.MissingTypeFails | scrape_yan.py:21-23 | a tag without a type is ValueError |
| ScrapeYan.ResolvedTagsGroup | scrape_yan.py:18-21 | tags that all occur in the page's tag map never fail |
| ScrapeYan.TypeTagsDictProperties | scrape_yan.py:19-30 | distinct group names; every distinct tag once, in the group of its first occurrence; the count is the number of distinct tags |
| ScrapeYan.Rating | scrape_yan.py:59-68 | "s", "q" and "e" become general, questionable and explicit; anything else is RuntimeError |
| ScrapeYan.RatingInjective | scrape_yan.py:59-68 | different accepted ratings stay different |
| ScrapeYan.PostAttempt | scrape_yan.py:44-94 | no score is recorded; a save needs an image URL, resolvable tags enough in number, a known rating and a passing validation, and saves that metadata |
| ScrapeYan.ProcessPost | scrape_yan.py:32-105 | `process_image_object` on the scrape state agrees with its definition |
| ScrapeYan.ProcessPostBookkeeping | scrape_yan.py:32-105 | a known ID returns with no change; otherwise the ID stays reserved exactly when an attempt returned; at most one image is counted; the last-reached values are untouched |
| ScrapeYan.RetryKeepsScore | scrape_yan.py:39-100 | attempts that record no score leave the last score alone |
| ScrapeYan.UnknownRatingRaises | scrape_yan.py:44-68 | one attempt at a post whose image and tags pass but whose rating is not s, q or e raises |
| ScrapeYan.UnknownRatingExhausts | scrape_yan.py:59-101 | an unknown rating raises on every attempt, so the post gives up with an error and its ID is released |
| ScrapeYan.StopReleases | scrape_yan.py:39-42 | a stop before the first attempt releases the ID with no other change |
| ScrapeYan.SearchStringDecodes | scrape_yan.py:147 | the search string splits and decodes back to the search tags |
| ScrapeYan.PostIds | scrape_yan.py:183-185 | each post's ID as a string, in order |
| ScrapeYan.MainRoundEffects | scrape_yan.py:155-202 | the page number grows by one exactly for a non-empty page, a new session is opened only when that page number is odd; given that a stop seen stays seen, at most `MAX_TASKS` + 1 tasks, and more than `MAX_TASKS` only in a round that leaves the loop after a wait saw the stop condition |
| ScrapeYan.MainLoopBounded | scrape_yan.py:155-202 | given that a stop seen stays seen, at most `MAX_TASKS` + 1 tasks at the end, more than `MAX_TASKS` only when a wait saw the stop condition; the page number grows by at most one per round |
| ScrapeYan.Main.constructor | scrape_yan.py:146-154 | page 1, one session, no tasks |
| ScrapeYan.Main.Step | scrape_yan.py:155-202 | one pass of the loop body as written (a stop ending a wait still appends), in place, with the listing URL it requests; its effects are those of `MainRoundEffects` |
| ScrapeYan.Main.Loop | scrape_yan.py:155-202 | the page loop as written, in place; its bound on the tasks is that of `MainLoopBounded` |
| TagGroups.AddTagNames | scrape_gel.py:32-36 | appending a tag creates its group at the end only when the group is new |
| TagGroups.AddTagDistinct | scrape_gel.py:32-36 | group names stay distinct |
| TagGroups.AddTagMultiset | scrape_gel.py:32-36 | appending adds exactly that tag |
| TagGroups.GroupOfNone | scrape_gel.py:29-30 | a tag has a group exactly when it was added |
| TagGroups.AddTagGroupOf | scrape_gel.py:32-37 | a new tag lands in the named group; other tags stay where they are |
| TagGroups.AddTagOk | scrape_gel.py:29-37 | adding an unseen tag keeps the seen set and the groups in step |
| TagGroups.CollectOk | scrape_gel.py:21-37 | the seen set grows by exactly the items' tags, in step with the groups |
| TagGroups.CollectGroupOf | scrape_gel.py:29-37 | after the loop each tag is in the group of its first occurrence |
| TagGroups.FirstGroupOf | scrape_gel.py:29-31 | the group of a tag's first occurrence exists exactly for the items' tags |
| TagGroups.GroupedProperties | scrape_gel.py:19-38 | distinct group names, every distinct tag exactly once in the group of its first occurrence, and the seen set's size is the tag count |
| Paths.RFind | compress.py:11-13 | the last occurrence of a character, or -1 |
| Paths.RFindLast | compress.py:11-13 | nothing after the found position matches, and -1 means no occurrence |
| Paths.Splitext | utils/utils.py:50 | `os.path.splitext`: root and extension concatenate to the path |
| Paths.Basename | compress.py:11-13 | `os.path.basename`: a suffix of the path without `/` |
| Paths.JoinPath | utils/utils.py:53 | `os.path.join` of a relative name is the directory, a separator if needed, and the name |
| Paths.SplitextPrefixed | utils/utils.py:50-56 | a directory prefix does not change the extension |
| Paths.SplitextJoin | utils/utils.py:50-56 | splitting a joined path splits the name |
| Paths.SplitextRoot | utils/utils.py:50 | the root of a non-empty path is non-empty |
| Paths.SplitextWithExt | convert.py:27 | a name with a non-dot character, followed by an extension, splits back into both |
| Sorting.BelowIrreflexive | compress.py:28 | the string order is irreflexive |
| Sorting.BelowTransitive | compress.py:28 | the string order is transitive |
| Sorting.BelowTotal | compress.py:28 | any two different strings are ordered |
| Sorting.BelowAsymmetric | compress.py:28 | the string order is asymmetric |
| Sorting.Insert | make_model_tags.py:37 | insertion adds exactly the element |
| Sorting.InsertAbove | make_model_tags.py:37 | insertion keeps a lower bound on every element |
| Sorting.InsertSorted | make_model_tags.py:37 | insertion keeps a list sorted |
| Sorting.SortSorted | make_model_tags.py:37 | `sorted` gives an ascending permutation |
| Sorting.SortMembers | make_model_tags.py:37 | sorting keeps exactly the members |
| Sorting.SortStrict | compress.py:28 | sorting distinct keys gives a strictly ascending list |
| Utils.Chars | utils/utils.py:100 | iterating a string yields its one-character strings |
| Utils.WithoutMembers | utils/utils.py:99-106 | a group survives removal exactly when its name is not removed |
| Utils.RejectedMembers | utils/utils.py:104-106 | the groups dropped by `include` are those whose names it does not contain |
| Utils.PopEach | utils/utils.py:100-101 | the pop loop removes every named group, ignoring absent names |
| Utils.KeepSelected | utils/utils.py:104-106 | the loop over a copy of the keys drops every group `include` does not contain |
| Utils.Gather | utils/utils.py:110-112 | the kept groups' tags concatenated in order |
| Utils.GetTags | utils/utils.py:94-115 | `get_tags` on a record agrees with its definition |
| Utils.GetTagsErrors | utils/utils.py:95-114 | both selectors is ValueError; a rating to append on a record without one is KeyError; nothing else fails |
| Utils.ExcludeKeeps | utils/utils.py:99-101 | with `exclude` a group is kept exactly when the selector does not yield its name |
| Utils.IncludeKeeps | utils/utils.py:103-106 | with `include` a group is kept exactly when `in include` holds for its name (substring for a string) |
| Utils.GetTagsShape | utils/utils.py:102-115 | the result is the kept tags in dictionary order, then the rating, prefixed "rating:" unless asked otherwise, when it is appended |
| Utils.NoSelectorKeepsAll | utils/utils.py:108-115 | without selectors every tag is kept and the rating is appended |
| Utils.ParseLine | utils/utils.py:77-80 | a line of other than two fields is skipped; a non-integer index is ValueError |
| Utils.LastLineWins | utils/utils.py:80 | a later line with the same index overwrites the earlier one |
| Utils.GapPassesAsWritten | utils/utils.py:84-85 | as written, the indices {-1, 1} pass the continuity check though 0 is missing |
| Utils.ContinuousCorrects | utils/utils.py:84-85 | the corrected check is the written one plus non-negative indices |
| Utils.ContinuousCovers | utils/utils.py:84-85 | continuous indices are exactly 0 to n - 1 |
| Utils.Range | utils/utils.py:84-86 | the indices 0 to n - 1 |
| Utils.MinExists | utils/utils.py:83 | a non-empty index set has a least element |
| Utils.Ascending | utils/utils.py:83 | the indices listed once each, as `sorted` orders the items |
| Utils.AscendingSorted | utils/utils.py:83 | the listed indices strictly ascend |
| Utils.AscendingMembers | utils/utils.py:83 | every index is listed |
| Utils.AscendingLast | utils/utils.py:83-84 | the last listed index is the largest |
| Utils.AscendingMin | utils/utils.py:83 | the listing starts with the least index |
| Utils.WrittenCheck | utils/utils.py:84 | the written continuity check is "count == last sorted index + 1" |
| Utils.AscendingContinuous | utils/utils.py:83-85 | for indices 0 to n - 1 the sorted index at position `i` is `i` |
| Utils.TagsAt | utils/utils.py:86 | the tags of the listed indices, in that order |
| Utils.ModelTagsOrder | utils/utils.py:81-86 | as written: no entry gives no tags; otherwise the tags are returned exactly when the written check passes, else ValueError; they are the tags in ascending index order, and with no negative index tag `i` is at position `i` |
| Utils.ContinuousSorted | utils/utils.py:81-86 | indices exactly 0 to n - 1 give the n tags, tag `i` at position `i` |
| Utils.SortIndices | utils/utils.py:83 | the sort loop lists the indices in ascending order |
| Utils.ListTags | utils/utils.py:81-86 | the tail of `get_model_tags` agrees with the sorted-tags definition |
| Utils.GetModelTags | utils/utils.py:71-86 | `get_model_tags` fills the dictionary line by line, sorts the indices, applies the written check and lists the tags in index order, as its definition says |
| Utils.Entries | utils/utils.py:49-59 | one entry per listed name |
| Utils.RecordKeys | utils/utils.py:59 | the map's keys are exactly the recorded IDs |
| Utils.RecordValues | utils/utils.py:59 | each value is the one recorded for its ID |
| Utils.MetaPath | utils/utils.py:56 | the metadata path of a joined name is the joined name's stem with ".json" |
| Utils.EntryPaired | utils/utils.py:50-59 | a name is recorded exactly when it is not ".json", is a file and has a ".json" sibling; it is recorded under its stem with (path, metadata path) |
| Utils.PairingSpec | utils/utils.py:46-47 | a non-directory is FileNotFoundError |
| Utils.PairingCharacterized | utils/utils.py:45-60 | the keys are exactly the stems of paired names, each with its (image path, metadata path) |
| Utils.Pairing | utils/utils.py:45-60 | the listing loop agrees with its definition |
| Utils.ExistingIds | utils/utils.py:62-63 | the ID set fails exactly for a non-directory |
| Utils.ExistingIdsPaired | utils/utils.py:62-63 | the ID set is the key set of the pairing map |
| MakeModelTags.CheckMinImages | make_model_tags.py:15-17 | a negative minimum is refused, any other is kept |
| MakeModelTags.TagLists | make_model_tags.py:26-27 | one `get_tags` result per metadata file, in order, or the first error |
| MakeModelTags.TagListsStep | make_model_tags.py:26-27 | one more file appends its tags or fails with its error |
| MakeModelTags.TagListsFails | make_model_tags.py:26-27 | a failure ends the loop for good |
| MakeModelTags.FirstSeen | make_model_tags.py:25-28 | the bucket keys are exactly the tags seen |
| MakeModelTags.FirstSeenDistinct | make_model_tags.py:25-28 | each key once |
| MakeModelTags.FirstSeenOrder | make_model_tags.py:25-28 | keys in the order of their first occurrence |
| MakeModelTags.CountedStep | make_model_tags.py:28 | one increment keeps every count equal to the tag's occurrences so far |
| MakeModelTags.CountTags | make_model_tags.py:27-28 | the inner loop keeps the counts equal to the occurrences |
| MakeModelTags.MakeBuckets | make_model_tags.py:25-28 | the bucket loop fails exactly as `get_tags` does, and otherwise counts every tag's occurrences over all files, keys in first-seen order |
| MakeModelTags.RatingKeys | make_model_tags.py:29-35 | the popped keys are exactly the "rating:" tags |
| MakeModelTags.OtherKeys | make_model_tags.py:29-35 | the keys left are exactly the other tags |
| MakeModelTags.SplitRatings | make_model_tags.py:29-35 | the loop splits the keys into the rating tags and the rest, each in first-seen order |
| MakeModelTags.OtherKeysDistinct | make_model_tags.py:29-35 | the keys left stay distinct |
| MakeModelTags.RatingKeysChain | make_model_tags.py:29-39 | the rating tags keep their first-seen order |
| MakeModelTags.Frequent | make_model_tags.py:40 | a tag survives exactly when its count reaches the minimum |
| MakeModelTags.FrequentAppend | make_model_tags.py:39-40 | filtering distributes over the sorted tags followed by the ratings |
| MakeModelTags.FrequentChain | make_model_tags.py:40 | filtering keeps the order |
| MakeModelTags.KeepFrequent | make_model_tags.py:40 | the filter loop agrees with its definition |
| MakeModelTags.ModelTagsMembers | make_model_tags.py:25-40 | a tag is written exactly when it occurs at least `min_images` times, rating tags included |
| MakeModelTags.RatingsLast | make_model_tags.py:29-39 | every rating tag comes after every other tag |
| MakeModelTags.HeadAscending | make_model_tags.py:37 | the other tags are in strictly ascending order |
| MakeModelTags.TailFirstSeen | make_model_tags.py:29-39 | the rating tags are in the order first seen |
| MakeModelTags.WriteLines | make_model_tags.py:42-44 | the write loop emits line `i` as "i tag" for the `i`-th tag, one line per tag |
| MakeModelTags.MakeModelTagsMain | make_model_tags.py:20-44 | `main` agrees with its definition |
| MakeModelTags.MakeModelTagsErrors | make_model_tags.py:11-44 | both selectors or a negative minimum are refused; otherwise it fails only as `get_tags` does, and the lines are those of the model tags |
| MakeModelTags.ParseLineOf | make_model_tags.py:44 | a written line parses back to its index and tag |
| MakeModelTags.Indexed | utils/utils.py:74-80 | the index map of the first n tags |
| MakeModelTags.IndexTagsLines | utils/utils.py:76-80 | reading the written lines builds the index map of all tags |
| MakeModelTags.LinesIndexed | utils/utils.py:76-80 | reading the written lines from an empty map gives the full index map |
| MakeModelTags.IndexedSize | utils/utils.py:81-85 | the written indices are continuous |
| MakeModelTags.IndexedSorted | utils/utils.py:81-86 | a dictionary of indices 0 to n - 1 lists back as the n tags |
| MakeModelTags.ReadBackIndexed | utils/utils.py:81-86 | a full index map reads back as the tag list |
| MakeModelTags.RoundTrip | make_model_tags.py:42-44 | `get_model_tags` reads back any list of non-empty tags without whitespace written this way |
| MakeModelTags.WrittenFileReadsBack | make_model_tags.py:40-44 | the model tags file reads back as the model tags when no tag has whitespace |
| BalanceTags.CheckArgs | balance_tags.py:16-28 | display mode forbids a count; otherwise reverse is refused and a count greater than 0 is required |
| BalanceTags.Hits | balance_tags.py:45-49 | the image, once for every occurrence of the tag among its tags |
| BalanceTags.BucketOf | balance_tags.py:42-50 | a bucket holds only images that carry its tag |
| BalanceTags.HitsHaveTag | balance_tags.py:45-49 | an image is appended only for a tag it carries |
| BalanceTags.HitsHave | balance_tags.py:45-49 | an image carrying the tag is appended |
| BalanceTags.InBucketOf | balance_tags.py:45-49 | every image carrying a model tag is in that tag's bucket |
| BalanceTags.AddStep | balance_tags.py:45-49 | one tag of the inner loop appends the image to that tag's bucket only, and leaves the other buckets as they were |
| BalanceTags.AddImage | balance_tags.py:44-50 | the inner loop appends the image to the bucket of each of its model tags, and reports whether it appended |
| BalanceTags.FillBuckets | balance_tags.py:41-52 | the bucket loop builds one bucket per model tag and counts the images with at least one model tag |
| BalanceTags.PoolFacts | balance_tags.py:51-52 | with distinct IDs, the in-bucket images are exactly the pool and their number is the in-bucket count |
| BalanceTags.PoolFrom | balance_tags.py:49-52 | every pooled ID belongs to an image with at least one model tag |
| BalanceTags.PoolSize | balance_tags.py:51-52 | with distinct IDs, the pool has exactly as many entries as the in-bucket count |
| BalanceTags.PoolHas | balance_tags.py:49-52 | with distinct IDs, every image with a model tag is pooled with its own paths |
| BalanceTags.Buckets | balance_tags.py:42 | one (tag, bucket) entry per distinct model tag, in file order |
| BalanceTags.KeySet | balance_tags.py:42 | the dictionary's keys are the model tags |
| BalanceTags.ItemsAreBuckets | balance_tags.py:42-54 | the dictionary's items are the buckets in model-tag order |
| BalanceTags.InsertByLen | balance_tags.py:54 | insertion adds exactly the entry |
| BalanceTags.SortByLen | balance_tags.py:54 | sorting keeps exactly the entries |
| BalanceTags.InsertByLenAbove | balance_tags.py:54 | insertion keeps a lower bound on the sizes |
| BalanceTags.InsertByLenAscending | balance_tags.py:54 | insertion keeps the sizes ascending |
| BalanceTags.SortByLenAscending | balance_tags.py:54 | the buckets end up ordered by ascending size, as a permutation |
| BalanceTags.Display | balance_tags.py:55-59 | one line per bucket with its tag and size, walked backwards when reversed |
| BalanceTags.DisplayOrdered | balance_tags.py:54-59 | displayed sizes ascend, or descend when reversed |
| BalanceTags.DisplayNames | balance_tags.py:42-59 | every line names a model tag with its bucket's size, and every model tag gets a line |
| BalanceTags.IdsMember | balance_tags.py:64-78 | an ID is in the buckets exactly when some bucket holds it |
| BalanceTags.SizeUpdate | balance_tags.py:72-77 | changing one bucket changes the total size by the difference |
| BalanceTags.EmptyBuckets | balance_tags.py:68-69 | empty buckets hold no ID |
| BalanceTags.LastSelected | balance_tags.py:70-73 | the scan from the end finds the last already-selected entry, if any |
| BalanceTags.VisitBucket | balance_tags.py:70-78 | one visit deletes the last already-selected entry, or else selects and deletes the last entry |
| BalanceTags.RemoveEntry | balance_tags.py:72 | deleting an entry with another ID keeps that ID in the buckets |
| BalanceTags.VisitKeeps | balance_tags.py:68-78 | a visit of a non-empty bucket keeps the selection invariant (selected IDs come from the pool with their paths, and every unselected pool ID is still in some bucket) and shrinks the buckets by exactly one entry |
| BalanceTags.ChosenAll | balance_tags.py:64-78 | when every bucket is empty, every pool image has been selected |
| BalanceTags.Pass | balance_tags.py:65-78 | one pass over the buckets keeps the invariant and shrinks them, so the `while` loop terminates |
| BalanceTags.Select | balance_tags.py:61-78 | the selection loop ends with exactly `total` images, each with its paths from the pool |
| BalanceTags.SortedEntry | balance_tags.py:54 | every sorted entry is a model tag with its bucket |
| BalanceTags.SortedHas | balance_tags.py:54 | every model tag keeps its entry after sorting |
| BalanceTags.EntriesInPool | balance_tags.py:54-62 | every bucket entry is a pool image with its paths |
| BalanceTags.PoolInBuckets | balance_tags.py:54 | every pool image is in some sorted bucket |
| BalanceTags.ImageInBuckets | balance_tags.py:45-54 | an image carrying a model tag is in some bucket of the sorted list |
| BalanceTags.StartConsistent | balance_tags.py:54-62 | the sorted buckets and the empty selection satisfy the selection invariant |
| BalanceTags.ChosenFromPool | balance_tags.py:61-78 | images chosen from the pool are images with a model tag, kept with their own paths |
| BalanceTags.SortedBuckets | balance_tags.py:41-54 | the sorted entries are the buckets of the model tags, in ascending size, a permutation of those buckets, and the count is the in-bucket count |
| BalanceTags.Show | balance_tags.py:55-59 | display mode names every model tag once with its bucket size, in ascending (descending when reversed) order |
| BalanceTags.Choose | balance_tags.py:61-78 | the selection chooses exactly `total` images, each with a model tag and its own paths |
| BalanceTags.Tagged | balance_tags.py:43-45 | the images with the tags `get_tags` reads for them, or KeyError exactly when some record has no rating |
| BalanceTags.Balance | balance_tags.py:31-78 | argument errors, model-tag errors and the KeyError of a record without a rating propagate; display mode shows every model tag with its bucket size in ascending (or descending) order; selection picks exactly `min(count, in_bucket_image_count)` distinct in-bucket images with their paths |
| Compress.CheckChunkSize | compress.py:21-23 | a chunk size below 1 is refused |
| Compress.SortedItems | compress.py:28 | one pair per image ID |
| Compress.SortedItemsOrder | compress.py:28 | the pairs are ordered by strictly ascending image ID, each with its own paths, and every image appears |
| Sorting.Seconds | compress.py:28 | the second components of the pairs, in order (also the bucket lists of balance_tags.py:65) |
| Compress.ChunksConcat | compress.py:32-33 | concatenating the chunks in index order gives the list back |
| Compress.ChunksSizes | compress.py:32-33 | every chunk but the last holds exactly n pairs, the last between 1 and n; there are no chunks only for an empty list |
| Compress.ChunkAt | compress.py:32-34 | chunk k is the slice starting at k * n |
| Compress.OffsetIndex | compress.py:34 | the k-th offset is k * n and its index `i // n` is k |
| Compress.ChunksFrom | compress.py:32-33 | the chunks from offset i are the slice at i followed by the chunks after it |
| Compress.Partition | compress.py:32-36 | the offset loop submits chunk k with index k, for every chunk in order |
| Compress.ArchiveName | compress.py:10 | a relative file name |
| Compress.ArchiveNamesDistinct | compress.py:10 | different chunk indices give different archive paths |
| Compress.PairMembers | compress.py:11-13 | each pair adds two members |
| Compress.MemberList | compress.py:11-13 | two members per pair |
| Compress.MemberListAt | compress.py:11-13 | member 2k is the k-th image under its basename, member 2k + 1 its metadata under its basename |
| Compress.CompressChunk | compress.py:9-13 | the members added to the archive, in order |
| Compress.Compress | compress.py:21-36 | a chunk size below 1 is refused; otherwise archive k, under the output directory, holds the members of chunk k of the pairs sorted by image ID |
| TagText.Spaced | convert.py:26 | every tag with underscores turned into spaces, in order |
| TagText.JoinNoUnderscore | convert.py:26 | joining underscore-free pieces with ", " adds no underscore |
| TagText.CaptionNoUnderscore | convert.py:26 | a caption holds no underscore |
| TagText.SpacedPermutation | convert.py:25-26 | the pieces of a shuffled list's caption are the spaced tags, each as often as before |
| TagText.RestPermutation | convert.py:25 | removing one element from both sides keeps a permutation |
| TagText.SpacedConcat | convert.py:26 | spacing distributes over concatenation |
| Convert.CheckArgs | convert.py:12-14 | `--exclude` and `--include` together are refused |
| Convert.AsSelector | convert.py:24 | a list argument becomes a name-list selector |
| Convert.Swap | convert.py:25 | an exchange keeps the elements |
| Convert.ShuffleDown | convert.py:25 | the shuffle's exchanges keep the elements |
| Convert.Shuffle | convert.py:25 | the shuffle is a permutation |
| Convert.TxtBesideJson | convert.py:27-28 | the caption file of `<dir>/<stem>.json` is `<dir>/<stem>.txt` |
| Convert.FileActionsShape | convert.py:24-30 | one file writes a caption to the ".txt" path, without underscores, made of the selected tags in some order, then removes the metadata file exactly when `--no-delete` is absent |
| Convert.Tagged | convert.py:24 | each metadata path with its `get_tags` result |
| Convert.RunErrors | convert.py:22-30 | the run ends without error exactly when `get_tags` succeeds on every file, and otherwise with the first failing file's error |
| Convert.RunStops | convert.py:22-30 | after an error later files change nothing |
| Convert.ConvertFile | convert.py:24-30 | one loop body: the `get_tags` error, or the file's actions |
| Convert.Convert | convert.py:12-30 | refused arguments do nothing; otherwise the loop does the files' actions in order until the first error |
| NlLlmTag.CheckArgs | nl_llm_tag.py:92-95 | the endpoint gets "/chat/completions"; a concurrency below 1 is refused |
| NlLlmTag.DefaultConcurrencyAccepted | nl_llm_tag.py:90 | the default concurrency `MAX_TASKS` is accepted |
| NlLlmTag.ProcessTags | nl_llm_tag.py:18-21 | "unknown" for no tags; a result without underscores |
| NlLlmTag.SubstringChars | nl_llm_tag.py:24-27 | a substring's characters occur in the string |
| NlLlmTag.GroupTagsOk | nl_llm_tag.py:24-27 | a group name lacking a letter of "rating" never appends the rating, so `get_tags` cannot fail |
| NlLlmTag.GroupTagsSucceed | nl_llm_tag.py:24-27 | the artist, character, copyright and general lookups always succeed with the kept groups' tags |
| NlLlmTag.RatingTextCases | nl_llm_tag.py:28 | the rating line fails (KeyError) exactly when the record has no rating, never with IndexError, and is the bare rating when no group name is a substring of "rating", else the first such group's first tag |
| NlLlmTag.ContextLines | nl_llm_tag.py:36-43 | the eight lines of the tag context |
| NlLlmTag.ContextSplit | nl_llm_tag.py:36-43 | context lines from pieces without line breaks split back into those lines |
| NlLlmTag.PromptLines | nl_llm_tag.py:24-43 | the prompt fails only for a record without a rating, and otherwise consists of the context lines |
| NlLlmTag.FirstReply | nl_llm_tag.py:48-76 | the first attempt that got a reply, all earlier ones having failed |
| NlLlmTag.Finish | nl_llm_tag.py:78-82 | a "length" finish reason is RuntimeError, otherwise the content becomes the description |
| NlLlmTag.Request | nl_llm_tag.py:48-82 | at most `MAX_RETRY + 1` attempts; all failing is RuntimeError after exactly that many; otherwise the first reply decides, after its attempt |
| NlLlmTag.MissingRatingExhausts | nl_llm_tag.py:48-76 | a record without a rating fails every attempt, since the prompt is built inside the retried block, so no attempt ever gets a reply |

## Left out

- HTTP and sessions. Every `session.get`/`post` is left out, and so is the listing and post-page download. What a fetch returned (a parsed page, a raised exception) is an input of the model.
- HTML parsing. The Gelbooru tag list is given as a list of `<li>` items (class list, text). The post page is given as its extracted fields.
- Concurrency. asyncio tasks, awaiting them and the validation thread pool are left out. Task completion is a set of finished tasks per poll. Only the sequential admission, harvest and drain rules are kept.
- Image validation. Decoding, resizing, AVIF encoding and writing the files are left out. Its outcome is a boolean input.
- Floating point and timing. The rolling averages and latencies are left out. Only the integer sample counters and their reset every 1000 saved images are modelled.
- Signals and exit. The interrupt handler is left out. The interrupt count is an input at each point where the code reads it. `sys.exit` and printing are left out, and a refused argument is `Err(ArgumentError)`.
- The `--avif` check that `pillow_avif` can be imported depends on the Python installation, so it is left out.
- decompress.py is not part of this model: it only extracts tar files on a thread pool.
- Filesystem effects are left out. These are writing the tar archives, the file moves and the directory removal in balance_tags.py:79-90, writing JSON and text files, and removing metadata files. Each operation returns the list of actions it would perform, or the selection it would keep.
- JSON and encoding libraries are left out. Metadata is a record value. A missing `tags` or `rating` key is an `Option`. JSON parse errors, `base64` and `mimetypes` (nl_llm_tag.py:30-32) are not modelled.
- `argparse` itself is left out. Only the checks after parsing are modelled.
- Randomness. `random.seed` and `random.shuffle` become an arbitrary draw function `rand: nat -> nat`; the shuffle draws from it, so it stands for every possible shuffle, and only "some permutation" is claimed. `BalanceTags.Balance` takes the image list after the shuffle.
- The rest of `nl_llm_tag.py` is left out: loading the few-shot examples (lines 101-109), the loop of `main` over the images (lines 115-136), and the HTTP request and its JSON. The outcome of each attempt is an input.
- Python `str.lower()` is modelled for ASCII letters only. A non-ASCII upper-case letter in a search token stays as it is in the model.
- ScrapeGel.ImageIdOf: the ID pattern `\d+` (scrape_gel.py:13) matches any Unicode decimal digit; the model accepts ASCII digits only, so a link whose ID has other decimal digits is refused here.
- `int()` is modelled for an optional sign followed by ASCII digits. The underscore separators, surrounding whitespace and non-ASCII digits that Python also accepts are left out. The model therefore reports `ValueError` for such model-tag lines.
- Sorting of strings compares code points. This matches Python's `str` ordering. Python's sort algorithm itself is not modelled: only the sorted result is specified.

## Findings

| source | as written | input that shows it | evidently intended | confidence | as-written member | corrected member |
|---|---|---|---|---|---|---|
| scrape_gel.py:220-229 (also scrape_yan.py:174-185) | the admission wait leaves its loop when the stop condition holds, and the new task is then appended anyway | `MAX_TASKS` tasks in flight, none finished, and an interrupt seen at the first poll: the list grows to `MAX_TASKS` + 1 | no task beyond `MAX_TASKS` is ever in flight; a stop seen while waiting admits nothing | not executed; medium (the extra task releases its ID and returns at once, so the effect is one task beyond the cap) | Crawl.AdmitAsWrittenOverflows | Crawl.AdmitBounded |

The drivers (`Crawl.TaskList`, `ScrapeGel.Main`, `ScrapeYan.Main`) follow the admission as written, and their bounds are the `MAX_TASKS` + 1 ones above; `Crawl.AdmitTask` and `Crawl.AdmitBounded` state the corrected admission on its own. Likewise `get_model_tags` is modelled with the written continuity check, and `Utils.Continuous` with `Utils.ContinuousCorrects` is the corrected check.
| utils/utils.py:84-85 | continuity is checked as "number of entries == largest index + 1" | a model-tags file with the lines `-1 a` and `1 b`: two entries, largest index 1, so the check passes although index 0 is missing | the indices are exactly 0 to n - 1 | not executed; high | Utils.GapPassesAsWritten | Utils.ContinuousCorrects |
