/** Natural-language tagging with a language model: for each image a prompt
    is assembled from its artist, character, copyright and general tags and
    its rating, the chat endpoint is asked for a description with a bounded
    number of attempts, and a description that stopped at the token limit is
    refused. */
module NlLlmTag {
  import opened Wrappers
  import opened Text
  import opened TagGroups
  import opened Utils
  import opened TagText
  import Crawl

  // ---------------------------------------------------------------------------
  // Arguments

  /** The checked command line: the chat endpoint, the model name and the
      number of requests in flight. */
  datatype NlArgs = NlArgs(url: string, model: string, concurrency: nat)

  /** `parse_args`: the endpoint is the API prefix with
      "/chat/completions" appended; at least one request must be allowed in
      flight (the default is `MAX_TASKS`). */
  function CheckArgs(api: string, model: string, concurrency: int): (r: Result<NlArgs>)
    ensures r.Ok? <==> concurrency >= 1
    ensures r.Ok? ==> r.value == NlArgs(api + "/chat/completions", model, concurrency)
    ensures r.Err? ==> r.error == ArgumentError
  {
    if concurrency < 1 then Err(ArgumentError) else Ok(NlArgs(api + "/chat/completions", model, concurrency))
  }

  lemma DefaultConcurrencyAccepted(api: string, model: string)
    ensures CheckArgs(api, model, Crawl.MaxTasks).Ok?
  {
  }

  // ---------------------------------------------------------------------------
  // The tag context

  /** `process_tags`: "unknown" for no tags, otherwise the caption. */
  function ProcessTags(tags: seq<string>): (r: string)
    ensures tags == [] ==> r == "unknown"
    ensures NoUnderscore(r)
  {
    if tags == [] then "unknown"
    else
      CaptionNoUnderscore(tags);
      Caption(tags)
  }

  /** A substring's characters all occur in the string. */
  lemma {:induction false} SubstringChars(x: string, s: string, c: char)
    requires IsSubstring(x, s) && c in x
    ensures c in s
    decreases |s|
  {
    if StartsWith(s, x) {
      var i :| 0 <= i < |x| && x[i] == c;
      assert s[i] == c;
    } else {
      SubstringChars(x, s[1..], c);
    }
  }

  /** `get_tags(metadata, include=name)`: the string `name` keeps the groups
      whose names are substrings of it; none of the four names the prompt
      uses contains "rating", so the rating is never appended and the call
      cannot fail. */
  function GroupTags(m: Record, name: string): Result<seq<string>>
  {
    GetTagsSpec(m, None, Some(Text(name)), false)
  }

  /** A group name missing a letter of "rating" does not contain it. */
  lemma GroupTagsOk(m: Record, name: string, c: char)
    requires c in "rating" && c !in name
    ensures GroupTags(m, name) == Ok(AllTags(Kept(m, None, Some(Text(name)))))
  {
    if IsSubstring("rating", name) {
      SubstringChars("rating", name, c);
    }
  }

  lemma GroupTagsSucceed(m: Record)
    ensures GroupTags(m, "artist") == Ok(AllTags(Kept(m, None, Some(Text("artist")))))
    ensures GroupTags(m, "character") == Ok(AllTags(Kept(m, None, Some(Text("character")))))
    ensures GroupTags(m, "copyright") == Ok(AllTags(Kept(m, None, Some(Text("copyright")))))
    ensures GroupTags(m, "general") == Ok(AllTags(Kept(m, None, Some(Text("general")))))
  {
    GroupTagsOk(m, "artist", 'g');
    GroupTagsOk(m, "character", 'g');
    GroupTagsOk(m, "copyright", 'n');
    GroupTagsOk(m, "general", 'i');
  }

  /** `get_tags(metadata, include="rating", no_rating_prefix=True)[0]`. */
  function RatingText(m: Record): Result<string>
  {
    var r := GetTagsSpec(m, None, Some(Text("rating")), true);
    if r.Err? then Err(r.error)
    else if r.value == [] then Err(IndexError)
    else Ok(r.value[0])
  }

  /** The rating line fails with KeyError exactly when the record has no
      rating, never with IndexError; it is the bare rating when the groups
      whose names are substrings of "rating" hold no tags, and otherwise the
      first of their tags. */
  lemma RatingTextCases(m: Record)
    ensures m.rating.None? <==> RatingText(m) == Err(KeyError)
    ensures RatingText(m) != Err(IndexError)
    ensures var kept := AllTags(Kept(m, None, Some(Text("rating"))));
      m.rating.Some? ==> RatingText(m) == Ok(if kept == [] then m.rating.value else kept[0])
  {
    assert StartsWith("rating", "rating");
    assert WithRating(None, Some(Text("rating")));
    if m.rating.Some? {
      assert "" + m.rating.value == m.rating.value;
    }
  }

  /** The lines of the tag context given to the model. */
  function ContextLines(artist: string, character: string, copyright: string, general: string, rating: string): (r: seq<string>)
    ensures |r| == 8
  {
    [ "Tag context for the above image:",
      "\"\"\"",
      "Artist(s): " + artist,
      "Character(s): " + character,
      "Copyright source(s): " + copyright,
      "Tags: " + general,
      "NSFW Rating: " + rating,
      "\"\"\"" ]
  }

  /** The text part of the user message of `get_user_prompt`. */
  function PromptText(m: Record): Result<string>
  {
    var artist := GroupTags(m, "artist");
    var character := GroupTags(m, "character");
    var copyright := GroupTags(m, "copyright");
    var general := GroupTags(m, "general");
    var rating := RatingText(m);
    if artist.Err? then Err(artist.error)
    else if character.Err? then Err(character.error)
    else if copyright.Err? then Err(copyright.error)
    else if general.Err? then Err(general.error)
    else if rating.Err? then Err(rating.error)
    else
      Ok(Join(ContextLines(ProcessTags(artist.value), ProcessTags(character.value),
                           ProcessTags(copyright.value), ProcessTags(general.value), rating.value), "\n"))
  }

  predicate NoNewline(s: string)
  {
    forall i :: 0 <= i < |s| ==> s[i] != '\n'
  }

  /** Context lines built from pieces without line breaks split back into
      those lines. */
  lemma ContextSplit(artist: string, character: string, copyright: string, general: string, rating: string)
    requires NoNewline(artist) && NoNewline(character) && NoNewline(copyright)
    requires NoNewline(general) && NoNewline(rating)
    ensures var lines := ContextLines(artist, character, copyright, general, rating);
      Split(Join(lines, "\n"), '\n') == lines
  {
    var lines := ContextLines(artist, character, copyright, general, rating);
    NoNewlineConcat("Artist(s): ", artist);
    NoNewlineConcat("Character(s): ", character);
    NoNewlineConcat("Copyright source(s): ", copyright);
    NoNewlineConcat("Tags: ", general);
    NoNewlineConcat("NSFW Rating: ", rating);
    assert NoNewline(lines[0]) && NoNewline(lines[1]) && NoNewline(lines[7]);
    forall k, i | 0 <= k < |lines| && 0 <= i < |lines[k]| ensures lines[k][i] != '\n' {
      assert NoNewline(lines[k]);
    }
    SplitJoin(lines, '\n');
  }

  lemma NoNewlineConcat(a: string, b: string)
    requires NoNewline(a) && NoNewline(b)
    ensures NoNewline(a + b)
  {
    forall i | 0 <= i < |a + b| ensures (a + b)[i] != '\n' {
      if i >= |a| {
        assert (a + b)[i] == b[i - |a|];
      }
    }
  }

  /** The prompt fails only for a record without a rating (KeyError); for
      tags and a rating free of line breaks its lines are the context lines,
      with "unknown" for an empty group. */
  lemma PromptLines(m: Record)
    ensures PromptText(m).Err? <==> m.rating.None?
    ensures PromptText(m).Err? ==> PromptText(m).error == KeyError
    ensures PromptText(m).Ok? ==>
      var artist := ProcessTags(GroupTags(m, "artist").value);
      var character := ProcessTags(GroupTags(m, "character").value);
      var copyright := ProcessTags(GroupTags(m, "copyright").value);
      var general := ProcessTags(GroupTags(m, "general").value);
      var rating := RatingText(m).value;
      NoNewline(artist) && NoNewline(character) && NoNewline(copyright) && NoNewline(general) && NoNewline(rating) ==>
        Split(PromptText(m).value, '\n') == ContextLines(artist, character, copyright, general, rating)
  {
    GroupTagsSucceed(m);
    RatingTextCases(m);
    if PromptText(m).Ok? {
      var artist := ProcessTags(GroupTags(m, "artist").value);
      var character := ProcessTags(GroupTags(m, "character").value);
      var copyright := ProcessTags(GroupTags(m, "copyright").value);
      var general := ProcessTags(GroupTags(m, "general").value);
      var rating := RatingText(m).value;
      if NoNewline(artist) && NoNewline(character) && NoNewline(copyright) && NoNewline(general) && NoNewline(rating) {
        ContextSplit(artist, character, copyright, general, rating);
      }
    }
  }

  // ---------------------------------------------------------------------------
  // The request

  /** What one attempt at the chat request gave: an exception, or a reply
      whose first choice has this finish reason and content. */
  datatype Attempt = Failed | Replied(finishReason: string, content: string)

  /** The first attempt that got a reply. */
  function FirstReply(attempts: seq<Attempt>): (r: Option<nat>)
    ensures r.None? ==> forall j :: 0 <= j < |attempts| ==> attempts[j].Failed?
    ensures r.Some? ==> r.value < |attempts| && attempts[r.value].Replied?
    ensures r.Some? ==> forall j :: 0 <= j < r.value ==> attempts[j].Failed?
  {
    if attempts == [] then None
    else if attempts[0].Replied? then Some(0)
    else match FirstReply(attempts[1..])
      case None => None
      case Some(k) => Some(k + 1)
  }

  /** The check on the reply: a description cut at the token limit is an
      error, otherwise it becomes the record's `nl_desc`. */
  function Finish(reply: Attempt): (r: Result<string>)
    requires reply.Replied?
    ensures r.Err? <==> reply.finishReason == "length"
    ensures r.Err? ==> r.error == RuntimeError
    ensures r.Ok? ==> r.value == reply.content
  {
    if reply.finishReason == "length" then Err(RuntimeError) else Ok(reply.content)
  }

  /** The retry loop of `nl_llm_tag`: attempt `i` (1-based) is made for `i`
      up to `MAX_RETRY + 1`; a failure on the last one raises RuntimeError.
      `attempts` gives the outcome each attempt would have. The result is
      the description to store and the number of attempts made. */
  method Request(attempts: seq<Attempt>) returns (r: Result<string>, tries: nat)
    requires |attempts| == Crawl.MaxRetry + 1
    ensures 1 <= tries <= Crawl.MaxRetry + 1
    ensures FirstReply(attempts).None? ==> r == Err(RuntimeError) && tries == Crawl.MaxRetry + 1
    ensures FirstReply(attempts).Some? ==>
      tries == FirstReply(attempts).value + 1 && r == Finish(attempts[FirstReply(attempts).value])
  {
    var i := 1;
    while true
      invariant 1 <= i <= Crawl.MaxRetry + 1
      invariant forall j :: 0 <= j < i - 1 ==> attempts[j].Failed?
      decreases Crawl.MaxRetry + 1 - i
    {
      if attempts[i - 1].Replied? {
        break;
      }
      if i > Crawl.MaxRetry {
        return Err(RuntimeError), i;
      }
      i := i + 1;
    }
    var reply := attempts[i - 1];
    if reply.finishReason == "length" {
      return Err(RuntimeError), i;
    }
    return Ok(reply.content), i;
  }

  /** The prompt is built inside the attempt, so a record whose prompt fails
      makes every attempt fail, whatever the endpoint would have replied. */
  function Attempts(m: Record, replies: seq<Attempt>): (r: seq<Attempt>)
    ensures |r| == |replies|
    ensures forall k :: 0 <= k < |replies| ==> r[k] == (if PromptText(m).Err? then Failed else replies[k])
  {
    seq(|replies|, k requires 0 <= k < |replies| => if PromptText(m).Err? then Failed else replies[k])
  }

  /** A record without a rating exhausts the attempts and ends in
      RuntimeError. */
  lemma MissingRatingExhausts(m: Record, replies: seq<Attempt>)
    requires m.rating.None?
    ensures FirstReply(Attempts(m, replies)).None?
  {
    PromptLines(m);
  }
}
