/** The model-tags list: every tag of the dataset counted over the images,
    the rating tags moved to the end, the rest in alphabetical order, rare
    tags dropped, and the survivors written one "index tag" line each. */
module MakeModelTags {
  import opened Wrappers
  import opened Text
  import opened Utils
  import Sorting

  /** The `--min-images` check: a negative count is refused. */
  function CheckMinImages(minImages: int): (r: Result<nat>)
    ensures r.Ok? <==> minImages >= 0
    ensures r.Ok? ==> r.value == minImages
    ensures r.Err? ==> r.error == ArgumentError
  {
    if minImages < 0 then Err(ArgumentError) else Ok(minImages)
  }

  /** The selector of `--exclude` or `--include` when given. */
  function AsSelector(names: Option<seq<string>>): Option<Selector>
  {
    if names.Some? then Some(NameList(names.value)) else None
  }

  /** `get_tags` of every metadata file in listing order; the first failure
      ends the run. */
  function TagLists(records: seq<Record>, excluded: Option<seq<string>>, included: Option<seq<string>>): (r: Result<seq<seq<string>>>)
    ensures r.Ok? ==> |r.value| == |records|
    ensures r.Ok? ==> forall k :: 0 <= k < |records| ==>
      GetTagsSpec(records[k], AsSelector(excluded), AsSelector(included), false) == Ok(r.value[k])
  {
    if records == [] then Ok([])
    else
      var n := |records| - 1;
      var init :- TagLists(records[..n], excluded, included);
      var tags :- GetTagsSpec(records[n], AsSelector(excluded), AsSelector(included), false);
      Ok(init + [tags])
  }

  /** All the tags in order. */
  function Flatten(ls: seq<seq<string>>): seq<string>
  {
    if ls == [] then [] else Flatten(ls[..|ls| - 1]) + ls[|ls| - 1]
  }

  /** How often `t` occurs in `s`. */
  function Occ(s: seq<string>, t: string): nat
  {
    multiset(s)[t]
  }

  /** The distinct elements of `s` in order of first occurrence: the key
      order of a dictionary filled from `s`. */
  function FirstSeen(s: seq<string>): (r: seq<string>)
    ensures forall x :: x in r <==> x in s
  {
    if s == [] then []
    else
      var init := s[..|s| - 1];
      assert s == init + [s[|s| - 1]];
      FirstSeen(init) + (if s[|s| - 1] in init then [] else [s[|s| - 1]])
  }

  predicate Distinct(s: seq<string>)
  {
    forall i, j :: 0 <= i < j < |s| ==> s[i] != s[j]
  }

  lemma {:induction false} FirstSeenDistinct(s: seq<string>)
    ensures Distinct(FirstSeen(s))
  {
    if s != [] {
      FirstSeenDistinct(s[..|s| - 1]);
    }
  }

  /** The tag counts after the nested counting loops: every tag seen, with its
      number of occurrences. */
  ghost predicate Counted(keys: seq<string>, counts: map<string, nat>, flat: seq<string>)
  {
    && keys == FirstSeen(flat)
    && (forall t :: t in counts <==> t in flat)
    && (forall t :: t in counts ==> counts[t] == Occ(flat, t))
  }

  /** Counting one more tag keeps the counts exact. */
  lemma CountedStep(keys: seq<string>, counts: map<string, nat>, flat: seq<string>, t: string)
    requires Counted(keys, counts, flat)
    ensures t in counts ==> Counted(keys, counts[t := counts[t] + 1], flat + [t])
    ensures t !in counts ==> Counted(keys + [t], counts[t := 1], flat + [t])
  {
    if t in counts {
      CountedAgain(keys, counts, flat, t);
    } else {
      CountedNew(keys, counts, flat, t);
    }
  }

  lemma CountedAgain(keys: seq<string>, counts: map<string, nat>, flat: seq<string>, t: string)
    requires Counted(keys, counts, flat) && t in counts
    ensures Counted(keys, counts[t := counts[t] + 1], flat + [t])
  {
    var c2 := counts[t := counts[t] + 1];
    var f2 := flat + [t];
    FirstSeenSnoc(flat, t);
    forall x ensures x in c2 <==> x in f2 {
      MemberSnoc(flat, t, x);
    }
    forall x | x in c2 ensures c2[x] == Occ(f2, x) {
      OccSnoc(flat, t, x);
    }
  }

  lemma CountedNew(keys: seq<string>, counts: map<string, nat>, flat: seq<string>, t: string)
    requires Counted(keys, counts, flat) && t !in counts
    ensures Counted(keys + [t], counts[t := 1], flat + [t])
  {
    var c2 := counts[t := 1];
    var f2 := flat + [t];
    FirstSeenSnoc(flat, t);
    assert t !in flat;
    forall x ensures x in c2 <==> x in f2 {
      MemberSnoc(flat, t, x);
    }
    forall x | x in c2 ensures c2[x] == Occ(f2, x) {
      OccSnoc(flat, t, x);
    }
  }

  lemma FirstSeenSnoc(s: seq<string>, t: string)
    ensures FirstSeen(s + [t]) == FirstSeen(s) + (if t in s then [] else [t])
  {
    assert (s + [t])[..|s|] == s;
  }

  lemma MemberSnoc(s: seq<string>, t: string, x: string)
    ensures x in s + [t] <==> x in s || x == t
  {
  }

  lemma OccSnoc(s: seq<string>, t: string, x: string)
    ensures Occ(s + [t], x) == Occ(s, x) + (if x == t then 1 else 0)
  {
    assert multiset(s + [t]) == multiset(s) + multiset{t};
  }

  /** The inner counting loop: one increment per tag of one file. */
  method CountTags(keys0: seq<string>, counts0: map<string, nat>, ghost before: seq<string>, tags: seq<string>)
    returns (keys: seq<string>, counts: map<string, nat>)
    requires Counted(keys0, counts0, before)
    ensures Counted(keys, counts, before + tags)
  {
    keys, counts := keys0, counts0;
    assert before + tags[..0] == before;
    for j := 0 to |tags|
      invariant Counted(keys, counts, before + tags[..j])
    {
      var t := tags[j];
      assert before + tags[..j + 1] == (before + tags[..j]) + [t];
      CountedStep(keys, counts, before + tags[..j], t);
      if t in counts {
        counts := counts[t := counts[t] + 1];
      } else {
        keys := keys + [t];
        counts := counts[t := 1];
      }
    }
    assert tags[..|tags|] == tags;
  }

  /** One more file read without error extends the tag lists. */
  lemma TagListsStep(records: seq<Record>, excluded: Option<seq<string>>, included: Option<seq<string>>, i: nat, ls: seq<seq<string>>)
    requires i < |records| && TagLists(records[..i], excluded, included) == Ok(ls)
    ensures var g := GetTagsSpec(records[i], AsSelector(excluded), AsSelector(included), false);
      && (g.Ok? ==> TagLists(records[..i + 1], excluded, included) == Ok(ls + [g.value]))
      && (g.Err? ==> TagLists(records[..i + 1], excluded, included) == Err(g.error))
  {
    assert records[..i + 1][..i] == records[..i];
  }

  /** The counting loops of `main`: `get_tags` of each metadata file, and one
      increment per tag into the bucket dictionary, whose keys are kept in
      insertion order in `keys`. */
  method MakeBuckets(records: seq<Record>, excluded: Option<seq<string>>, included: Option<seq<string>>)
    returns (r: Result<(seq<string>, map<string, nat>)>)
    ensures r.Ok? <==> TagLists(records, excluded, included).Ok?
    ensures r.Err? ==> r == Err(TagLists(records, excluded, included).error)
    ensures r.Ok? ==> Counted(r.value.0, r.value.1, Flatten(TagLists(records, excluded, included).value))
  {
    var keys: seq<string> := [];
    var counts: map<string, nat> := map[];
    ghost var ls: seq<seq<string>> := [];
    for i := 0 to |records|
      invariant TagLists(records[..i], excluded, included) == Ok(ls)
      invariant Counted(keys, counts, Flatten(ls))
    {
      TagListsStep(records, excluded, included, i, ls);
      var got := GetTags(records[i], AsSelector(excluded), AsSelector(included), false);
      if got.Err? {
        TagListsFails(records, excluded, included, i + 1);
        return Err(got.error);
      }
      keys, counts := CountTags(keys, counts, Flatten(ls), got.value);
      FlattenSnoc(ls, got.value);
      ls := ls + [got.value];
    }
    assert records[..|records|] == records;
    r := Ok((keys, counts));
  }

  lemma FlattenSnoc(ls: seq<seq<string>>, tags: seq<string>)
    ensures Flatten(ls + [tags]) == Flatten(ls) + tags
  {
    assert (ls + [tags])[..|ls|] == ls;
  }

  /** Once a prefix of the listing fails, the whole listing fails the same way. */
  lemma {:induction false} TagListsFails(records: seq<Record>, excluded: Option<seq<string>>, included: Option<seq<string>>, k: nat)
    requires k <= |records| && TagLists(records[..k], excluded, included).Err?
    ensures TagLists(records, excluded, included) == TagLists(records[..k], excluded, included)
    decreases |records| - k
  {
    if k < |records| {
      assert records[..k + 1][..k] == records[..k];
      TagListsFails(records, excluded, included, k + 1);
    } else {
      assert records[..k] == records;
    }
  }

  /** The keys starting with "rating:", in order. */
  function RatingKeys(keys: seq<string>): (r: seq<string>)
    ensures forall x :: x in r <==> x in keys && StartsWith(x, "rating:")
  {
    if keys == [] then []
    else
      var n := |keys| - 1;
      assert keys == keys[..n] + [keys[n]];
      RatingKeys(keys[..n]) + (if StartsWith(keys[n], "rating:") then [keys[n]] else [])
  }

  /** The other keys, in order. */
  function OtherKeys(keys: seq<string>): (r: seq<string>)
    ensures forall x :: x in r <==> x in keys && !StartsWith(x, "rating:")
  {
    if keys == [] then []
    else
      var n := |keys| - 1;
      assert keys == keys[..n] + [keys[n]];
      OtherKeys(keys[..n]) + (if StartsWith(keys[n], "rating:") then [] else [keys[n]])
  }

  /** The loop over the bucket items: rating entries are moved, in order, to
      `ratings` and popped from the buckets. */
  method SplitRatings(keys: seq<string>) returns (ratings: seq<string>, rest: seq<string>)
    ensures ratings == RatingKeys(keys) && rest == OtherKeys(keys)
  {
    ratings := [];
    rest := [];
    for i := 0 to |keys|
      invariant ratings == RatingKeys(keys[..i]) && rest == OtherKeys(keys[..i])
    {
      assert keys[..i + 1][..i] == keys[..i];
      if StartsWith(keys[i], "rating:") {
        ratings := ratings + [keys[i]];
      } else {
        rest := rest + [keys[i]];
      }
    }
    assert keys[..|keys|] == keys;
  }

  /** The keys of `keys` seen at least `minImages` times in `flat`, in order:
      the final list comprehension. */
  function Frequent(keys: seq<string>, flat: seq<string>, minImages: nat): (r: seq<string>)
    ensures forall x :: x in r <==> x in keys && Occ(flat, x) >= minImages
  {
    if keys == [] then []
    else
      var n := |keys| - 1;
      assert keys == keys[..n] + [keys[n]];
      Frequent(keys[..n], flat, minImages) + (if Occ(flat, keys[n]) >= minImages then [keys[n]] else [])
  }

  /** The model tags of the counted tags `flat`: the frequent non-rating tags
      in ascending order, then the frequent rating tags in first-seen order. */
  function ModelTags(flat: seq<string>, minImages: nat): seq<string>
  {
    var keys := FirstSeen(flat);
    Frequent(Sorting.Sort(OtherKeys(keys)), flat, minImages) + Frequent(RatingKeys(keys), flat, minImages)
  }

  /** The line written for tag `t` at index `i`. */
  function Line(i: nat, t: string): string
  {
    IntToString(i) + " " + t + "\n"
  }

  /** The lines of the model-tags file for `tags`. */
  function Lines(tags: seq<string>): seq<string>
  {
    seq(|tags|, i requires 0 <= i < |tags| => Line(i, tags[i]))
  }

  /** `make_model_tags.py` on the metadata records of the dataset: the file it
      writes, or the error that stops it. */
  function MakeModelTagsSpec(records: seq<Record>, excluded: Option<seq<string>>, included: Option<seq<string>>, minImages: int): Result<seq<string>>
  {
    if excluded.Some? && included.Some? then Err(ArgumentError)
    else
      var m :- CheckMinImages(minImages);
      var ls :- TagLists(records, excluded, included);
      Ok(Lines(ModelTags(Flatten(ls), m)))
  }

  /** The list comprehension keeping the tags counted at least `minImages` times. */
  method KeepFrequent(ordered: seq<string>, counts: map<string, nat>, ghost flat: seq<string>, minImages: nat)
    returns (tags: seq<string>)
    requires forall t :: t in ordered ==> t in counts && counts[t] == Occ(flat, t)
    ensures tags == Frequent(ordered, flat, minImages)
  {
    tags := [];
    for i := 0 to |ordered|
      invariant tags == Frequent(ordered[..i], flat, minImages)
    {
      assert ordered[..i + 1][..i] == ordered[..i];
      if counts[ordered[i]] >= minImages {
        tags := tags + [ordered[i]];
      }
    }
    assert ordered[..|ordered|] == ordered;
  }

  /** The writing loop: line `i` is the index and the tag. */
  method WriteLines(tags: seq<string>) returns (lines: seq<string>)
    ensures lines == Lines(tags)
  {
    lines := [];
    for i := 0 to |tags|
      invariant |lines| == i
      invariant forall k :: 0 <= k < i ==> lines[k] == Line(k, tags[k])
    {
      lines := lines + [Line(i, tags[i])];
    }
  }

  /** `main`: counts, splits off the ratings, sorts, filters and writes. */
  method MakeModelTagsMain(records: seq<Record>, excluded: Option<seq<string>>, included: Option<seq<string>>, minImages: int)
    returns (r: Result<seq<string>>)
    ensures r == MakeModelTagsSpec(records, excluded, included, minImages)
  {
    if excluded.Some? && included.Some? {
      return Err(ArgumentError);
    }
    if minImages < 0 {
      return Err(ArgumentError);
    }
    var b := MakeBuckets(records, excluded, included);
    if b.Err? {
      return Err(b.error);
    }
    var (keys, counts) := b.value;
    ghost var flat := Flatten(TagLists(records, excluded, included).value);
    var ratings, rest := SplitRatings(keys);
    var ordered := Sorting.Sort(rest) + ratings;
    forall t | t in ordered ensures t in counts && counts[t] == Occ(flat, t) {
      Sorting.SortMembers(rest, t);
    }
    var tags := KeepFrequent(ordered, counts, flat, minImages);
    FrequentAppend(Sorting.Sort(rest), ratings, flat, minImages);
    var lines := WriteLines(tags);
    r := Ok(lines);
  }

  lemma {:induction false} FrequentAppend(a: seq<string>, b: seq<string>, flat: seq<string>, minImages: nat)
    ensures Frequent(a + b, flat, minImages) == Frequent(a, flat, minImages) + Frequent(b, flat, minImages)
    decreases |b|
  {
    if b != [] {
      var n := |b| - 1;
      assert (a + b)[..|a + b| - 1] == a + b[..n];
      FrequentAppend(a, b[..n], flat, minImages);
    } else {
      assert a + b == a;
    }
  }

  // ---------------------------------------------------------------------------
  // What the written list is

  /** Every pair of positions in `s` is ordered by `lt`. */
  ghost predicate Chain(s: seq<string>, lt: (string, string) -> bool)
  {
    forall i, j :: 0 <= i < j < |s| ==> lt(s[i], s[j])
  }

  lemma {:induction false} FrequentChain(keys: seq<string>, flat: seq<string>, minImages: nat, lt: (string, string) -> bool)
    requires Chain(keys, lt)
    ensures Chain(Frequent(keys, flat, minImages), lt)
  {
    if keys != [] {
      var n := |keys| - 1;
      assert Chain(keys[..n], lt);
      FrequentChain(keys[..n], flat, minImages, lt);
      var f := Frequent(keys[..n], flat, minImages);
      forall i | 0 <= i < |f| ensures lt(f[i], keys[n]) {
        assert f[i] in keys[..n];
        var k :| 0 <= k < n && keys[..n][k] == f[i];
      }
    }
  }

  lemma {:induction false} RatingKeysChain(keys: seq<string>, lt: (string, string) -> bool)
    requires Chain(keys, lt)
    ensures Chain(RatingKeys(keys), lt)
  {
    if keys != [] {
      var n := |keys| - 1;
      assert Chain(keys[..n], lt);
      RatingKeysChain(keys[..n], lt);
      var f := RatingKeys(keys[..n]);
      forall i | 0 <= i < |f| ensures lt(f[i], keys[n]) {
        assert f[i] in keys[..n];
        var k :| 0 <= k < n && keys[..n][k] == f[i];
      }
    }
  }

  /** Position of the first occurrence of `x` in `s`. */
  function IndexOf(s: seq<string>, x: string): (k: nat)
    requires x in s
    ensures k < |s| && s[k] == x && x !in s[..k]
  {
    if s[0] == x then 0 else 1 + IndexOf(s[1..], x)
  }

  lemma IndexOfPrefix(s: seq<string>, n: nat, x: string)
    requires n <= |s| && x in s[..n]
    ensures IndexOf(s, x) == IndexOf(s[..n], x)
  {
    var m := IndexOf(s, x);
    var k := IndexOf(s[..n], x);
    assert s[..n][k] == s[k];
  }

  /** The first-seen order lists tags by their first occurrence. */
  lemma {:induction false} FirstSeenOrder(s: seq<string>)
    ensures forall x :: x in FirstSeen(s) ==> x in s
    ensures forall i, j :: 0 <= i < j < |FirstSeen(s)| ==> IndexOf(s, FirstSeen(s)[i]) < IndexOf(s, FirstSeen(s)[j])
  {
    if s != [] {
      var n := |s| - 1;
      var init := s[..n];
      FirstSeenOrder(init);
      var f := FirstSeen(init);
      var r := FirstSeen(s);
      forall i, j | 0 <= i < j < |r| ensures IndexOf(s, r[i]) < IndexOf(s, r[j]) {
        IndexOfPrefix(s, n, r[i]);
        if j < |f| {
          IndexOfPrefix(s, n, r[j]);
        } else {
          assert r[j] == s[n] && s[n] !in init;
          assert IndexOf(s, r[j]) == n;
        }
      }
    }
  }

  /** The non-rating part of the written list. */
  function Head(flat: seq<string>, minImages: nat): seq<string>
  {
    Frequent(Sorting.Sort(OtherKeys(FirstSeen(flat))), flat, minImages)
  }

  /** The rating part of the written list. */
  function Tail(flat: seq<string>, minImages: nat): seq<string>
  {
    Frequent(RatingKeys(FirstSeen(flat)), flat, minImages)
  }

  /** A tag is written exactly when it was counted at least `minImages`
      times, rating tags included. */
  lemma ModelTagsMembers(flat: seq<string>, minImages: nat, t: string)
    ensures t in ModelTags(flat, minImages) <==> t in flat && Occ(flat, t) >= minImages
  {
    Sorting.SortMembers(OtherKeys(FirstSeen(flat)), t);
    assert ModelTags(flat, minImages) == Head(flat, minImages) + Tail(flat, minImages);
  }

  /** The rating tags come after all the others. */
  lemma RatingsLast(flat: seq<string>, minImages: nat)
    ensures var tags := ModelTags(flat, minImages);
      var k := |Head(flat, minImages)|;
      && k <= |tags|
      && (forall i :: 0 <= i < k ==> !StartsWith(tags[i], "rating:"))
      && (forall i :: k <= i < |tags| ==> StartsWith(tags[i], "rating:"))
  {
    var head := Head(flat, minImages);
    var tail := Tail(flat, minImages);
    HeadNotRating(flat, minImages);
    TailRating(flat, minImages);
    ConcatSides(head, tail);
  }

  lemma HeadNotRating(flat: seq<string>, minImages: nat)
    ensures forall t :: t in Head(flat, minImages) ==> !StartsWith(t, "rating:")
  {
    forall t | t in Head(flat, minImages) ensures !StartsWith(t, "rating:") {
      Sorting.SortMembers(OtherKeys(FirstSeen(flat)), t);
    }
  }

  lemma TailRating(flat: seq<string>, minImages: nat)
    ensures forall t :: t in Tail(flat, minImages) ==> StartsWith(t, "rating:")
  {
  }

  lemma ConcatSides(head: seq<string>, tail: seq<string>)
    requires forall t :: t in head ==> !StartsWith(t, "rating:")
    requires forall t :: t in tail ==> StartsWith(t, "rating:")
    ensures forall i :: 0 <= i < |head| ==> !StartsWith((head + tail)[i], "rating:")
    ensures forall i :: |head| <= i < |head + tail| ==> StartsWith((head + tail)[i], "rating:")
  {
    var tags := head + tail;
    forall i | 0 <= i < |head| ensures !StartsWith(tags[i], "rating:") {
      assert tags[i] == head[i] && head[i] in head;
    }
    forall i | |head| <= i < |tags| ensures StartsWith(tags[i], "rating:") {
      assert tags[i] == tail[i - |head|] && tail[i - |head|] in tail;
    }
  }

  /** The other tags are in strictly ascending order. */
  lemma HeadAscending(flat: seq<string>, minImages: nat)
    ensures var head := Head(flat, minImages);
      forall i, j :: 0 <= i < j < |head| ==> Sorting.Below(head[i], head[j])
  {
    var keys := FirstSeen(flat);
    FirstSeenDistinct(flat);
    OtherKeysDistinct(keys);
    Sorting.SortStrict(OtherKeys(keys));
    FrequentChain(Sorting.Sort(OtherKeys(keys)), flat, minImages, Sorting.Below);
  }

  /** The rating tags are in the order of their first occurrence. */
  lemma TailFirstSeen(flat: seq<string>, minImages: nat)
    ensures var tail := Tail(flat, minImages);
      forall i, j :: 0 <= i < j < |tail| ==> tail[i] in flat && tail[j] in flat && IndexOf(flat, tail[i]) < IndexOf(flat, tail[j])
  {
    var keys := FirstSeen(flat);
    FirstSeenOrder(flat);
    var before := (a, b) => a in flat && b in flat && IndexOf(flat, a) < IndexOf(flat, b);
    assert Chain(keys, before);
    RatingKeysChain(keys, before);
    FrequentChain(RatingKeys(keys), flat, minImages, before);
  }

  lemma {:induction false} OtherKeysDistinct(keys: seq<string>)
    requires Distinct(keys)
    ensures Distinct(OtherKeys(keys))
  {
    if keys != [] {
      var n := |keys| - 1;
      assert Distinct(keys[..n]);
      OtherKeysDistinct(keys[..n]);
      assert keys[n] !in keys[..n];
    }
  }

  // ---------------------------------------------------------------------------
  // Reading the file back

  /** A written line parses back to its index and tag. */
  lemma ParseLineOf(i: nat, t: string)
    requires t != [] && !HasSpace(t)
    ensures ParseLine(Line(i, t)) == Ok(Some((i as int, t)))
  {
    var num := IntToString(i);
    assert Line(i, t) == num + [' '] + (t + ['\n'] + []);
    SplitWhitespaceWord(num, ' ', t + ['\n'] + []);
    SplitWhitespaceWord(t, '\n', []);
    assert SplitWhitespace(Line(i, t)) == [num, t];
    ParseIntToString(i);
  }

  /** The dictionary of the first `n` lines. */
  function Indexed(tags: seq<string>, n: nat): (d: map<int, string>)
    requires n <= |tags|
    ensures forall k :: k in d <==> 0 <= k < n
    ensures forall k :: 0 <= k < n ==> d[k] == tags[k]
  {
    map k | 0 <= k < n :: tags[k]
  }

  lemma {:induction false} IndexTagsLines(tags: seq<string>, n: nat)
    requires n <= |tags|
    requires forall k :: 0 <= k < |tags| ==> tags[k] != [] && !HasSpace(tags[k])
    ensures IndexTags(Indexed(tags, n), Lines(tags)[n..]) == Ok(Indexed(tags, |tags|))
    decreases |tags| - n
  {
    var lines := Lines(tags);
    if n == |tags| {
      assert lines[n..] == [];
      assert Indexed(tags, n) == Indexed(tags, |tags|);
    } else {
      var rest := lines[n..];
      assert rest[0] == Line(n, tags[n]);
      ParseLineOf(n, tags[n]);
      IndexTagsHead(Indexed(tags, n), rest, n, tags[n]);
      assert rest[1..] == lines[n + 1..];
      IndexedNext(tags, n);
      IndexTagsLines(tags, n + 1);
    }
  }

  lemma IndexedNext(tags: seq<string>, n: nat)
    requires n < |tags|
    ensures Indexed(tags, n)[n := tags[n]] == Indexed(tags, n + 1)
  {
  }

  lemma IndexTagsHead(d: map<int, string>, lines: seq<string>, i: int, t: string)
    requires lines != [] && ParseLine(lines[0]) == Ok(Some((i, t)))
    ensures IndexTags(d, lines) == IndexTags(d[i := t], lines[1..])
  {
  }

  lemma IndexedSize(tags: seq<string>)
    ensures |Indexed(tags, |tags|)| == |tags|
    ensures Continuous(Indexed(tags, |tags|).Keys)
  {
    var d := Indexed(tags, |tags|);
    assert d.Keys == Range(|tags|);
  }

  /** Reading the written lines fills index `i` with tag `i`, for every `i`. */
  lemma LinesIndexed(tags: seq<string>)
    requires forall k :: 0 <= k < |tags| ==> tags[k] != [] && !HasSpace(tags[k])
    ensures IndexTags(map[], Lines(tags)) == Ok(Indexed(tags, |tags|))
  {
    IndexTagsLines(tags, 0);
    assert Lines(tags)[0..] == Lines(tags);
    assert Indexed(tags, 0) == map[];
  }

  /** A file whose lines fill indices 0 to n - 1 reads back as the n tags. */
  lemma ReadBackIndexed(tags: seq<string>, lines: seq<string>)
    requires IndexTags(map[], lines) == Ok(Indexed(tags, |tags|))
    ensures ModelTagsSpec(Some(lines)) == Ok(tags)
  {
    var d := Indexed(tags, |tags|);
    assert ModelTagsSpec(Some(lines)) == SortedTags(d);
    IndexedSorted(d, tags);
  }

  /** A dictionary of indices 0 to n - 1 lists back as the n tags. */
  lemma IndexedSorted(d: map<int, string>, tags: seq<string>)
    requires forall k :: k in d <==> 0 <= k < |tags|
    requires forall k :: 0 <= k < |tags| ==> d[k] == tags[k]
    ensures SortedTags(d) == Ok(tags)
  {
    assert d.Keys == Range(|tags|);
    assert |d| == |d.Keys| == |tags|;
    assert Continuous(d.Keys);
    ContinuousSorted(d);
    var r := SortedTags(d).value;
    forall i | 0 <= i < |tags|
      ensures r[i] == tags[i]
    {
      assert r[i] == d[i];
    }
    assert r == tags;
  }

  /** `get_model_tags` reads back exactly the written list when no tag is
      empty or holds whitespace. */
  lemma RoundTrip(tags: seq<string>)
    requires forall k :: 0 <= k < |tags| ==> tags[k] != [] && !HasSpace(tags[k])
    ensures ModelTagsSpec(Some(Lines(tags))) == Ok(tags)
  {
    LinesIndexed(tags);
    ReadBackIndexed(tags, Lines(tags));
  }

  /** The run stops before counting when both selectors are given or the
      minimum is negative, and with the first `get_tags` error otherwise. */
  lemma MakeModelTagsErrors(records: seq<Record>, excluded: Option<seq<string>>, included: Option<seq<string>>, minImages: int)
    ensures var r := MakeModelTagsSpec(records, excluded, included, minImages);
      && (excluded.Some? && included.Some? ==> r == Err(ArgumentError))
      && (minImages < 0 ==> r == Err(ArgumentError))
      && (r.Ok? <==> !(excluded.Some? && included.Some?) && minImages >= 0 && TagLists(records, excluded, included).Ok?)
      && (r.Ok? ==> r.value == Lines(ModelTags(Flatten(TagLists(records, excluded, included).value), minImages)))
  {
  }

  /** The file the tool writes is read back by `get_model_tags` as the model
      tags, when the counted tags are non-empty and free of whitespace. */
  lemma WrittenFileReadsBack(flat: seq<string>, minImages: nat)
    requires forall t :: t in flat ==> t != [] && !HasSpace(t)
    ensures ModelTagsSpec(Some(Lines(ModelTags(flat, minImages)))) == Ok(ModelTags(flat, minImages))
  {
    var tags := ModelTags(flat, minImages);
    forall k | 0 <= k < |tags| ensures tags[k] != [] && !HasSpace(tags[k]) {
      ModelTagsMembers(flat, minImages, tags[k]);
    }
    RoundTrip(tags);
  }
}
