/** Dataset balancing: every image is put in the bucket of each of its model
    tags, the buckets are ordered by size, and images are picked round-robin
    over the buckets, smallest first, until the target count is reached. */
module BalanceTags {
  import opened Wrappers
  import MakeModelTags
  import Utils
  import Sorting

  /** The arguments that decide the run. */
  datatype BalanceArgs = BalanceArgs(count: Option<int>, display: bool, reverse: bool)

  /** The checks of `parse_args`: display mode forbids a count; otherwise a
      count above 0 is required and reverse is forbidden. */
  function CheckArgs(a: BalanceArgs): (r: Result<BalanceArgs>)
    ensures r.Ok? <==> (if a.display then a.count.None? else !a.reverse && a.count.Some? && a.count.value > 0)
    ensures r.Ok? ==> r.value == a
    ensures r.Err? ==> r.error == ArgumentError
  {
    if !a.display then
      if a.reverse then Err(ArgumentError)
      else if a.count.None? then Err(ArgumentError)
      else if a.count.value <= 0 then Err(ArgumentError)
      else Ok(a)
    else if a.count.Some? then Err(ArgumentError)
    else Ok(a)
  }

  /** One image of the dataset: its id, its image and metadata paths, and the
      tags `get_tags` gives for its metadata. */
  datatype Image = Image(id: string, paths: (string, string), tags: seq<string>)

  /** One image as listed, before its tags are read: its id, its paths and
      its metadata record. */
  datatype Entry = Entry(id: string, paths: (string, string), metadata: Utils.Record)

  /** The tags the bucket loop reads for each entry with `get_tags` and no
      selector: the images with their tags, or the `KeyError` of the first
      record without a rating, which ends the run. */
  function Tagged(entries: seq<Entry>): (r: Result<seq<Image>>)
    ensures r.Ok? <==> forall i :: 0 <= i < |entries| ==> entries[i].metadata.rating.Some?
    ensures r.Err? ==> r.error == KeyError
    ensures r.Ok? ==> |r.value| == |entries| && forall i :: 0 <= i < |entries| ==>
      r.value[i] == Image(entries[i].id, entries[i].paths, Utils.GetTagsSpec(entries[i].metadata, None, None, false).value)
  {
    if entries == [] then Ok([])
    else
      var e := entries[0];
      Utils.GetTagsErrors(e.metadata, None, None, false);
      match Utils.GetTagsSpec(e.metadata, None, None, false)
      case Err(err) => Err(err)
      case Ok(tags) =>
        match Tagged(entries[1..])
        case Err(err) => Err(err)
        case Ok(rest) => Ok([Image(e.id, e.paths, tags)] + rest)
  }

  // ---------------------------------------------------------------------------
  // Buckets

  /** The copies of `img` one bucket receives: one per occurrence of the
      bucket's tag among the image's tags. */
  function Hits(img: Image, tags: seq<string>, tag: string): (r: seq<Image>)
    ensures forall j :: 0 <= j < |r| ==> r[j] == img
  {
    if tags == [] then []
    else Hits(img, tags[..|tags| - 1], tag) + (if tags[|tags| - 1] == tag then [img] else [])
  }

  /** The bucket of `tag` after the images `images`. */
  function BucketOf(images: seq<Image>, tag: string): (r: seq<Image>)
    ensures forall j :: 0 <= j < |r| ==> r[j] in images && tag in r[j].tags
  {
    if images == [] then []
    else
      var img := images[|images| - 1];
      HitsHaveTag(img, img.tags, tag);
      BucketOf(images[..|images| - 1], tag) + Hits(img, img.tags, tag)
  }

  lemma {:induction false} HitsHaveTag(img: Image, tags: seq<string>, tag: string)
    ensures Hits(img, tags, tag) != [] ==> tag in tags
  {
    if tags != [] {
      HitsHaveTag(img, tags[..|tags| - 1], tag);
    }
  }

  /** The image has at least one model tag. */
  predicate InSomeBucket(img: Image, keys: set<string>)
  {
    exists t :: t in img.tags && t in keys
  }

  /** `in_bucket_image_count`. */
  function InBucketCount(images: seq<Image>, keys: set<string>): nat
  {
    if images == [] then 0
    else InBucketCount(images[..|images| - 1], keys) + (if InSomeBucket(images[|images| - 1], keys) then 1 else 0)
  }

  /** The images in some bucket, by id. */
  function Pool(images: seq<Image>, keys: set<string>): map<string, (string, string)>
  {
    if images == [] then map[]
    else
      var img := images[|images| - 1];
      var p := Pool(images[..|images| - 1], keys);
      if InSomeBucket(img, keys) then p[img.id := img.paths] else p
  }

  /** No two images share an id: they are the keys of the pairing map. */
  predicate DistinctIds(images: seq<Image>)
  {
    forall i, j :: 0 <= i < j < |images| ==> images[i].id != images[j].id
  }

  /** With distinct ids, the pool has one entry per image counted in a bucket,
      holding that image's paths. */
  lemma PoolFacts(images: seq<Image>, keys: set<string>)
    requires DistinctIds(images)
    ensures |Pool(images, keys).Keys| == InBucketCount(images, keys)
    ensures forall img :: img in images && InSomeBucket(img, keys) ==>
      img.id in Pool(images, keys) && Pool(images, keys)[img.id] == img.paths
    ensures forall id :: id in Pool(images, keys) ==> exists img :: img in images && InSomeBucket(img, keys) && img.id == id
  {
    PoolSize(images, keys);
    PoolHas(images, keys);
    PoolFrom(images, keys);
  }

  /** Every id in the pool belongs to an image counted in a bucket. */
  lemma {:induction false} PoolFrom(images: seq<Image>, keys: set<string>)
    ensures forall id :: id in Pool(images, keys) ==> exists img :: img in images && InSomeBucket(img, keys) && img.id == id
  {
    if images != [] {
      var n := |images| - 1;
      var init := images[..n];
      PoolFrom(init, keys);
      assert images == init + [images[n]];
    }
  }

  /** The last image's id is not among the earlier ones. */
  lemma LastIdFresh(images: seq<Image>)
    requires images != [] && DistinctIds(images)
    ensures forall x :: x in images[..|images| - 1] ==> x.id != images[|images| - 1].id
  {
    var n := |images| - 1;
    forall x | x in images[..n] ensures x.id != images[n].id {
      var k :| 0 <= k < n && images[..n][k] == x;
      assert images[k] == x;
    }
  }

  /** The pool has one entry per image counted in a bucket. */
  lemma {:induction false} PoolSize(images: seq<Image>, keys: set<string>)
    requires DistinctIds(images)
    ensures |Pool(images, keys).Keys| == InBucketCount(images, keys)
  {
    if images != [] {
      var n := |images| - 1;
      var init := images[..n];
      assert DistinctIds(init);
      PoolSize(init, keys);
      PoolFrom(init, keys);
      LastIdFresh(images);
      assert images[n].id !in Pool(init, keys);
    }
  }

  /** Each image counted in a bucket has its paths in the pool. */
  lemma {:induction false} PoolHas(images: seq<Image>, keys: set<string>)
    requires DistinctIds(images)
    ensures forall img :: img in images && InSomeBucket(img, keys) ==>
      img.id in Pool(images, keys) && Pool(images, keys)[img.id] == img.paths
  {
    if images != [] {
      var n := |images| - 1;
      var init := images[..n];
      assert DistinctIds(init);
      PoolHas(init, keys);
      LastIdFresh(images);
      assert images == init + [images[n]];
    }
  }

  /** The buckets `keys` (in order) hold after the counting loop. */
  function Buckets(images: seq<Image>, keys: seq<string>): (r: seq<(string, seq<Image>)>)
    ensures |r| == |keys|
    ensures forall k :: 0 <= k < |keys| ==> r[k] == (keys[k], BucketOf(images, keys[k]))
  {
    if keys == [] then [] else Buckets(images, keys[..|keys| - 1]) + [(keys[|keys| - 1], BucketOf(images, keys[|keys| - 1]))]
  }

  /** An image lands in the bucket of each of its tags. */
  lemma {:induction false} InBucketOf(images: seq<Image>, img: Image, tag: string)
    requires img in images && tag in img.tags
    ensures img in BucketOf(images, tag)
  {
    var n := |images| - 1;
    if img == images[n] {
      HitsHave(img, img.tags, tag);
      assert Hits(img, img.tags, tag)[0] == img;
    } else {
      assert images == images[..n] + [images[n]];
      InBucketOf(images[..n], img, tag);
    }
  }

  lemma {:induction false} HitsHave(img: Image, tags: seq<string>, tag: string)
    requires tag in tags
    ensures Hits(img, tags, tag) != []
  {
    var n := |tags| - 1;
    if tags[n] != tag {
      assert tags == tags[..n] + [tags[n]];
      HitsHave(img, tags[..n], tag);
    }
  }

  /** Whether some tag among the first `j` tags of `img` has a bucket. */
  predicate AppendedBy(img: Image, j: nat, keys: set<string>)
    requires j <= |img.tags|
  {
    exists jj :: 0 <= jj < j && img.tags[jj] in keys
  }

  /** The copies one more tag adds. */
  lemma HitsSnoc(img: Image, j: nat, t: string)
    requires j < |img.tags|
    ensures Hits(img, img.tags[..j + 1], t) == Hits(img, img.tags[..j], t) + (if img.tags[j] == t then [img] else [])
  {
    assert img.tags[..j + 1][..j] == img.tags[..j];
  }

  /** Whether some tag has a bucket, extended by one tag. */
  lemma AppendedSnoc(img: Image, j: nat, keys: set<string>)
    requires j < |img.tags|
    ensures AppendedBy(img, j + 1, keys) <==> AppendedBy(img, j, keys) || img.tags[j] in keys
  {
    if AppendedBy(img, j + 1, keys) && img.tags[j] !in keys {
      var jj :| 0 <= jj < j + 1 && img.tags[jj] in keys;
      assert jj < j;
    }
  }

  /** Over all the tags, some tag having a bucket is being in some bucket. */
  lemma AppendedAll(img: Image, keys: set<string>)
    ensures AppendedBy(img, |img.tags|, keys) <==> InSomeBucket(img, keys)
  {
    if InSomeBucket(img, keys) {
      var t :| t in img.tags && t in keys;
      var jj :| 0 <= jj < |img.tags| && img.tags[jj] == t;
    }
  }

  /** `bucket.append(img)` for the bucket of `tag`, when there is one. */
  function AppendTo(m: map<string, seq<Image>>, tag: string, img: Image): map<string, seq<Image>>
  {
    if tag in m then m[tag := m[tag] + [img]] else m
  }

  /** One tag of the inner loop: the bucket of that tag, if any, gets one
      more copy, and the other buckets are as they were. */
  lemma AddStep(m0: map<string, seq<Image>>, m: map<string, seq<Image>>, img: Image, j: nat)
    requires j < |img.tags| && m.Keys == m0.Keys
    requires forall t :: t in m ==> m[t] == m0[t] + Hits(img, img.tags[..j], t)
    ensures var m' := AppendTo(m, img.tags[j], img);
      && m'.Keys == m0.Keys
      && forall t :: t in m' ==> m'[t] == m0[t] + Hits(img, img.tags[..j + 1], t)
  {
    var m' := AppendTo(m, img.tags[j], img);
    forall t | t in m' ensures m'[t] == m0[t] + Hits(img, img.tags[..j + 1], t) {
      HitsSnoc(img, j, t);
    }
  }

  /** The inner loop of the bucket making: `img` is appended to the bucket of
      each of its tags that has one, and `did_append` records whether any did. */
  method AddImage(m0: map<string, seq<Image>>, img: Image) returns (m: map<string, seq<Image>>, didAppend: bool)
    ensures m.Keys == m0.Keys
    ensures forall t :: t in m ==> m[t] == m0[t] + Hits(img, img.tags, t)
    ensures didAppend <==> InSomeBucket(img, m0.Keys)
  {
    m, didAppend := m0, false;
    var j := 0;
    while j < |img.tags|
      invariant j <= |img.tags|
      invariant m.Keys == m0.Keys
      invariant forall t :: t in m ==> m[t] == m0[t] + Hits(img, img.tags[..j], t)
      invariant didAppend <==> AppendedBy(img, j, m0.Keys)
    {
      var tag := img.tags[j];
      AddStep(m0, m, img, j);
      m := AppendTo(m, tag, img);
      AppendedSnoc(img, j, m0.Keys);
      if tag in m0 {
        didAppend := true;
      }
      j := j + 1;
    }
    assert img.tags[..j] == img.tags;
    AppendedAll(img, m0.Keys);
  }

  /** `buckets = {tag: [] for tag in model_tags}` and the bucket-making loop:
      each bucket ends as the images carrying its tag, in image order, and
      the count is the number of images appended to some bucket. */
  method FillBuckets(images: seq<Image>, keys: set<string>) returns (m: map<string, seq<Image>>, inBucket: nat)
    ensures m.Keys == keys
    ensures forall t :: t in m ==> m[t] == BucketOf(images, t)
    ensures inBucket == InBucketCount(images, keys)
  {
    m := map t | t in keys :: [];
    inBucket := 0;
    var i := 0;
    while i < |images|
      invariant i <= |images|
      invariant m.Keys == keys
      invariant forall t :: t in m ==> m[t] == BucketOf(images[..i], t)
      invariant inBucket == InBucketCount(images[..i], keys)
    {
      assert images[..i + 1][..i] == images[..i];
      var didAppend;
      m, didAppend := AddImage(m, images[i]);
      if didAppend {
        inBucket := inBucket + 1;
      }
      i := i + 1;
    }
    assert images[..i] == images;
  }

  /** `buckets.items()`: the buckets in the order their tags were first met. */
  function Items(m: map<string, seq<Image>>, order: seq<string>): (r: seq<(string, seq<Image>)>)
    requires forall t :: t in order ==> t in m
    ensures |r| == |order| && forall k :: 0 <= k < |order| ==> r[k] == (order[k], m[order[k]])
  {
    seq(|order|, k requires 0 <= k < |order| => (order[k], m[order[k]]))
  }

  /** The set of model tags: the keys of the bucket dictionary. */
  function KeySet(modelTags: seq<string>): (r: set<string>)
    ensures forall t :: t in r <==> t in modelTags
  {
    set t | t in modelTags
  }

  /** The items of the filled dictionary are the buckets of the distinct
      model tags, in first-seen order. */
  lemma ItemsAreBuckets(images: seq<Image>, modelTags: seq<string>, m: map<string, seq<Image>>)
    requires m.Keys == KeySet(modelTags)
    requires forall t :: t in m ==> m[t] == BucketOf(images, t)
    ensures forall t :: t in MakeModelTags.FirstSeen(modelTags) ==> t in m
    ensures Items(m, MakeModelTags.FirstSeen(modelTags)) == Buckets(images, MakeModelTags.FirstSeen(modelTags))
  {
  }

  // ---------------------------------------------------------------------------
  // Ordering and display

  /** The size of a bucket. */
  function Len(x: (string, seq<Image>)): nat
  {
    |x.1|
  }

  /** Inserts `x` before the first bucket at least as large. */
  function InsertByLen(x: (string, seq<Image>), s: seq<(string, seq<Image>)>): (r: seq<(string, seq<Image>)>)
    ensures multiset(r) == multiset(s) + multiset{x}
  {
    if s == [] then [x]
    else if Len(x) <= Len(s[0]) then [x] + s
    else
      assert s == [s[0]] + s[1..];
      [s[0]] + InsertByLen(x, s[1..])
  }

  /** `sorted(buckets.items(), key=lambda x: len(x[1]))`, as a stable
      insertion sort: a bucket goes before every later bucket of equal size. */
  function SortByLen(s: seq<(string, seq<Image>)>): (r: seq<(string, seq<Image>)>)
    ensures multiset(r) == multiset(s)
  {
    if s == [] then []
    else
      assert s == [s[0]] + s[1..];
      InsertByLen(s[0], SortByLen(s[1..]))
  }

  /** Buckets in ascending size. */
  predicate Ascending(s: seq<(string, seq<Image>)>)
  {
    forall i, j :: 0 <= i < j < |s| ==> Len(s[i]) <= Len(s[j])
  }

  /** A lower bound on every size survives an insertion. */
  lemma {:induction false} InsertByLenAbove(x: (string, seq<Image>), s: seq<(string, seq<Image>)>, low: nat)
    requires low <= Len(x) && forall k :: 0 <= k < |s| ==> low <= Len(s[k])
    ensures forall k :: 0 <= k < |InsertByLen(x, s)| ==> low <= Len(InsertByLen(x, s)[k])
  {
    if s != [] && Len(x) > Len(s[0]) {
      InsertByLenAbove(x, s[1..], low);
    }
  }

  lemma {:induction false} InsertByLenAscending(x: (string, seq<Image>), s: seq<(string, seq<Image>)>)
    requires Ascending(s)
    ensures Ascending(InsertByLen(x, s))
  {
    if s != [] && Len(x) > Len(s[0]) {
      InsertByLenAscending(x, s[1..]);
      var t := InsertByLen(x, s[1..]);
      InsertByLenAbove(x, s[1..], Len(s[0]));
      var r := InsertByLen(x, s);
      assert r == [s[0]] + t;
      forall i, j | 0 <= i < j < |r| ensures Len(r[i]) <= Len(r[j]) {
        assert r[j] == t[j - 1];
        if i > 0 {
          assert r[i] == t[i - 1];
        }
      }
    }
  }

  /** The sort returns the buckets in ascending size, as a permutation. */
  lemma {:induction false} SortByLenAscending(s: seq<(string, seq<Image>)>)
    ensures Ascending(SortByLen(s)) && multiset(SortByLen(s)) == multiset(s)
  {
    if s != [] {
      SortByLenAscending(s[1..]);
      InsertByLenAscending(s[0], SortByLen(s[1..]));
    }
  }

  /** The display mode: one (tag, bucket size) line per bucket, in the sorted
      order, or from the largest bucket down when `reverse` is given. */
  method Display(buckets: seq<(string, seq<Image>)>, reverse: bool) returns (lines: seq<(string, nat)>)
    ensures |lines| == |buckets|
    ensures forall i :: 0 <= i < |lines| ==>
      var k := if reverse then |buckets| - 1 - i else i;
      lines[i] == (buckets[k].0, |buckets[k].1|)
  {
    lines := [];
    var i := 0;
    while i < |buckets|
      invariant i <= |buckets| && |lines| == i
      invariant forall i2 :: 0 <= i2 < i ==>
        var k := if reverse then |buckets| - 1 - i2 else i2;
        lines[i2] == (buckets[k].0, |buckets[k].1|)
    {
      var k := if reverse then |buckets| - 1 - i else i;
      lines := lines + [(buckets[k].0, |buckets[k].1|)];
      i := i + 1;
    }
  }

  /** Displayed sizes rise, or fall when reversed. */
  lemma DisplayOrdered(buckets: seq<(string, seq<Image>)>, reverse: bool, lines: seq<(string, nat)>)
    requires Ascending(buckets)
    requires |lines| == |buckets|
    requires forall i :: 0 <= i < |lines| ==>
      var k := if reverse then |buckets| - 1 - i else i;
      lines[i] == (buckets[k].0, |buckets[k].1|)
    ensures forall i, j :: 0 <= i < j < |lines| ==> if reverse then lines[i].1 >= lines[j].1 else lines[i].1 <= lines[j].1
  {
    forall i, j | 0 <= i < j < |lines|
      ensures if reverse then lines[i].1 >= lines[j].1 else lines[i].1 <= lines[j].1
    {
      if reverse {
        assert Len(buckets[|buckets| - 1 - j]) <= Len(buckets[|buckets| - 1 - i]);
      } else {
        assert Len(buckets[i]) <= Len(buckets[j]);
      }
    }
  }

  // ---------------------------------------------------------------------------
  // Selection

  /** The chosen images, by id. */
  type Selected = map<string, (string, string)>

  /** The ids in one bucket. */
  function IdsOf(b: seq<Image>): set<string>
  {
    set j | 0 <= j < |b| :: b[j].id
  }

  /** The ids in any bucket. */
  function Ids(bs: seq<seq<Image>>): set<string>
  {
    if bs == [] then {} else Ids(bs[..|bs| - 1]) + IdsOf(bs[|bs| - 1])
  }

  lemma {:induction false} IdsMember(bs: seq<seq<Image>>, id: string)
    ensures id in Ids(bs) <==> exists k :: 0 <= k < |bs| && id in IdsOf(bs[k])
  {
    if bs != [] {
      var n := |bs| - 1;
      IdsMember(bs[..n], id);
      if exists k :: 0 <= k < |bs| && id in IdsOf(bs[k]) {
        var k :| 0 <= k < |bs| && id in IdsOf(bs[k]);
        if k < n {
          assert bs[..n][k] == bs[k];
        }
      }
    }
  }

  /** The number of entries over all buckets. */
  function Size(bs: seq<seq<Image>>): nat
  {
    if bs == [] then 0 else Size(bs[..|bs| - 1]) + |bs[|bs| - 1]|
  }

  lemma {:induction false} SizeUpdate(bs: seq<seq<Image>>, k: nat, b: seq<Image>)
    requires k < |bs|
    ensures Size(bs[k := b]) == Size(bs) - |bs[k]| + |b|
  {
    var n := |bs| - 1;
    if k < n {
      assert bs[k := b][..n] == bs[..n][k := b];
      SizeUpdate(bs[..n], k, b);
    } else {
      assert bs[k := b][..n] == bs[..n];
    }
  }

  lemma {:induction false} EmptyBuckets(bs: seq<seq<Image>>)
    requires forall k :: 0 <= k < |bs| ==> bs[k] == []
    ensures Ids(bs) == {}
  {
    if bs != [] {
      EmptyBuckets(bs[..|bs| - 1]);
      assert IdsOf(bs[|bs| - 1]) == {};
    }
  }

  /** Index of the last entry of `b` that is already selected: where the
      backward scan stops. */
  function LastSelected(b: seq<Image>, sel: Selected): (r: Option<nat>)
    ensures r.Some? ==> r.value < |b| && b[r.value].id in sel && forall j :: r.value < j < |b| ==> b[j].id !in sel
    ensures r.None? ==> forall j :: 0 <= j < |b| ==> b[j].id !in sel
  {
    if b == [] then None
    else if b[|b| - 1].id in sel then Some(|b| - 1)
    else LastSelected(b[..|b| - 1], sel)
  }

  /** One visit to a non-empty bucket: it drops the last entry already
      selected, or, when none is, selects its last entry and drops it. */
  function Visit(b: seq<Image>, sel: Selected): (r: (seq<Image>, Selected))
    requires b != []
  {
    match LastSelected(b, sel)
    case Some(i) => (b[..i] + b[i + 1..], sel)
    case None => (b[..|b| - 1], sel[b[|b| - 1].id := b[|b| - 1].paths])
  }

  /** The visit: the backward scan and, when it finds nothing, the `else` of the loop. */
  method VisitBucket(b: seq<Image>, sel: Selected) returns (b': seq<Image>, sel': Selected)
    requires b != []
    ensures (b', sel') == Visit(b, sel)
  {
    var i := |b|;
    while i > 0
      invariant 0 <= i <= |b|
      invariant LastSelected(b, sel) == LastSelected(b[..i], sel)
    {
      assert b[..i][..i - 1] == b[..i - 1];
      if b[i - 1].id in sel {
        return b[..i - 1] + b[i..], sel;
      }
      i := i - 1;
    }
    var last := b[|b| - 1];
    return b[..|b| - 1], sel[last.id := last.paths];
  }

  /** The selection state: every choice is a pool image with its paths, every
      bucket entry is a pool image, and every pool image is chosen or still
      in some bucket; no more than `total` are chosen. */
  ghost predicate Consistent(bs: seq<seq<Image>>, sel: Selected, pool: map<string, (string, string)>, total: nat)
  {
    && (forall id :: id in sel ==> id in pool && sel[id] == pool[id])
    && (forall k, j :: 0 <= k < |bs| && 0 <= j < |bs[k]| ==> bs[k][j].id in pool && pool[bs[k][j].id] == bs[k][j].paths)
    && (forall id :: id in pool ==> id in sel || id in Ids(bs))
    && |sel.Keys| <= total
  }

  /** Removing entry `j` of bucket `k` loses at most that entry's id. */
  lemma RemoveEntry(bs: seq<seq<Image>>, k: nat, j: nat, id: string)
    requires k < |bs| && j < |bs[k]|
    requires id in Ids(bs) && id != bs[k][j].id
    ensures id in Ids(bs[k := bs[k][..j] + bs[k][j + 1..]])
  {
    var b := bs[k][..j] + bs[k][j + 1..];
    var bs' := bs[k := b];
    IdsMember(bs, id);
    IdsMember(bs', id);
    var k2 :| 0 <= k2 < |bs| && id in IdsOf(bs[k2]);
    if k2 == k {
      var j2 :| 0 <= j2 < |bs[k]| && bs[k][j2].id == id;
      if j2 < j {
        assert b[j2] == bs[k][j2];
      } else {
        assert b[j2 - 1] == bs[k][j2];
      }
      assert id in IdsOf(bs'[k]);
    } else {
      assert id in IdsOf(bs'[k2]);
    }
  }

  /** A visit keeps the selection state consistent, shrinks the buckets by
      one entry, and chooses at most one more image. */
  lemma VisitKeeps(bs: seq<seq<Image>>, k: nat, sel: Selected, pool: map<string, (string, string)>, total: nat)
    requires Consistent(bs, sel, pool, total) && k < |bs| && bs[k] != [] && |sel.Keys| < total
    ensures var (b', sel') := Visit(bs[k], sel);
      && Consistent(bs[k := b'], sel', pool, total)
      && Size(bs[k := b']) == Size(bs) - 1
  {
    var b := bs[k];
    var r := Visit(b, sel);
    var b', sel' := r.0, r.1;
    var j := if LastSelected(b, sel).Some? then LastSelected(b, sel).value else |b| - 1;
    assert b' == b[..j] + b[j + 1..];
    var bs': seq<seq<Image>> := bs[k := b'];
    SizeUpdate(bs, k, b');
    forall k2: nat, j2: nat | k2 < |bs'| && j2 < |bs'[k2]|
      ensures bs'[k2][j2].id in pool && pool[bs'[k2][j2].id] == bs'[k2][j2].paths
    {
      if k2 == k {
        if j2 < j {
          assert bs'[k2][j2] == bs[k][j2];
        } else {
          assert bs'[k2][j2] == bs[k][j2 + 1];
        }
      }
    }
    forall id | id in pool ensures id in sel' || id in Ids(bs') {
      if id !in sel' && id != b[j].id {
        RemoveEntry(bs, k, j, id);
      }
    }
    if LastSelected(b, sel).None? {
      assert sel'.Keys == sel.Keys + {b[j].id};
      assert b[j].id !in sel.Keys;
    } else {
      assert sel' == sel;
    }
  }

  /** Once nothing is left in the buckets, every pool image is chosen. */
  lemma ChosenAll(bs: seq<seq<Image>>, sel: Selected, pool: map<string, (string, string)>, total: nat)
    requires Consistent(bs, sel, pool, total)
    requires forall k :: 0 <= k < |bs| ==> bs[k] == []
    ensures |pool.Keys| <= |sel.Keys|
  {
    EmptyBuckets(bs);
    assert pool.Keys <= sel.Keys;
    SubsetCard(pool.Keys, sel.Keys);
  }

  lemma SubsetCard(a: set<string>, b: set<string>)
    requires a <= b
    ensures |a| <= |b|
  {
    assert b == a + (b - a);
  }

  /** One pass of the `for` loop over the buckets, stopping as soon as
      `total` images are chosen. While fewer than `total` are chosen and
      the pool holds at least `total` images, a pass always visits a
      non-empty bucket. */
  method Pass(bs0: seq<seq<Image>>, sel0: Selected, total: nat, ghost pool: map<string, (string, string)>)
    returns (bs: seq<seq<Image>>, selected: Selected)
    requires Consistent(bs0, sel0, pool, total) && |sel0.Keys| < total <= |pool.Keys|
    ensures |bs| == |bs0| && Consistent(bs, selected, pool, total)
    ensures Size(bs) < Size(bs0)
  {
    bs, selected := bs0, sel0;
    ghost var progressed := false;
    var k := 0;
    while k < |bs| && |selected.Keys| < total
      invariant 0 <= k <= |bs| == |bs0|
      invariant Consistent(bs, selected, pool, total)
      invariant progressed ==> Size(bs) < Size(bs0)
      invariant !progressed ==> bs == bs0 && selected == sel0
      invariant !progressed ==> forall k2 :: 0 <= k2 < k ==> bs[k2] == []
    {
      if |bs[k]| > 0 {
        VisitKeeps(bs, k, selected, pool, total);
        var b, s := VisitBucket(bs[k], selected);
        bs := bs[k := b];
        selected := s;
        progressed := true;
      }
      k := k + 1;
    }
    if !progressed {
      ChosenAll(bs, selected, pool, total);
      assert false;
    }
  }

  /** The selection loop of `main`: passes over the buckets until `total`
      images are chosen. It ends with exactly `total` images chosen, each a
      pool image with its paths. */
  method Select(buckets: seq<seq<Image>>, total: nat, ghost pool: map<string, (string, string)>)
    returns (selected: Selected)
    requires Consistent(buckets, map[], pool, total) && total <= |pool.Keys|
    ensures |selected.Keys| == total
    ensures forall id :: id in selected ==> id in pool && selected[id] == pool[id]
  {
    var bs := buckets;
    selected := map[];
    while |selected.Keys| < total
      invariant Consistent(bs, selected, pool, total)
      decreases Size(bs)
    {
      bs, selected := Pass(bs, selected, total, pool);
    }
  }

  // ---------------------------------------------------------------------------
  // main

  /** What a run ends with: the display lines, or the chosen images (the
      ones it keeps in the dataset directory). */
  datatype Outcome = Shown(lines: seq<(string, nat)>) | Chosen(selected: Selected)

  /** A bucket of the sorted list is the bucket of one of the model tags. */
  lemma SortedEntry(images: seq<Image>, modelTags: seq<string>, sorted: seq<(string, seq<Image>)>, k: nat)
    requires multiset(sorted) == multiset(Buckets(images, MakeModelTags.FirstSeen(modelTags)))
    requires k < |sorted|
    ensures sorted[k].0 in modelTags && sorted[k].1 == BucketOf(images, sorted[k].0)
  {
    var fs := MakeModelTags.FirstSeen(modelTags);
    assert sorted[k] in multiset(sorted);
    var kk :| 0 <= kk < |fs| && Buckets(images, fs)[kk] == sorted[k];
    assert fs[kk] in fs;
  }

  /** The bucket of every model tag is somewhere in the sorted list. */
  lemma SortedHas(images: seq<Image>, modelTags: seq<string>, sorted: seq<(string, seq<Image>)>, t: string)
    requires multiset(sorted) == multiset(Buckets(images, MakeModelTags.FirstSeen(modelTags)))
    requires t in modelTags
    ensures exists k :: 0 <= k < |sorted| && sorted[k] == (t, BucketOf(images, t))
  {
    var fs := MakeModelTags.FirstSeen(modelTags);
    var kk :| 0 <= kk < |fs| && fs[kk] == t;
    var b := Buckets(images, fs);
    assert b[kk] in multiset(b);
    assert (t, BucketOf(images, t)) in multiset(sorted);
  }

  /** Every bucket entry is a pool image with its own paths. */
  lemma EntriesInPool(images: seq<Image>, modelTags: seq<string>, sorted: seq<(string, seq<Image>)>,
                      keys: set<string>, pool: map<string, (string, string)>)
    requires multiset(sorted) == multiset(Buckets(images, MakeModelTags.FirstSeen(modelTags)))
    requires forall t :: t in modelTags ==> t in keys
    requires forall img :: img in images && InSomeBucket(img, keys) ==> img.id in pool && pool[img.id] == img.paths
    ensures forall k, j :: 0 <= k < |sorted| && 0 <= j < |sorted[k].1| ==>
      sorted[k].1[j].id in pool && pool[sorted[k].1[j].id] == sorted[k].1[j].paths
  {
    forall k: nat, j: nat | k < |sorted| && j < |sorted[k].1|
      ensures sorted[k].1[j].id in pool && pool[sorted[k].1[j].id] == sorted[k].1[j].paths
    {
      SortedEntry(images, modelTags, sorted, k);
      var img := sorted[k].1[j];
      assert img in images && sorted[k].0 in img.tags;
      assert InSomeBucket(img, keys);
    }
  }

  /** Every pool image sits in some bucket. */
  lemma PoolInBuckets(images: seq<Image>, modelTags: seq<string>, sorted: seq<(string, seq<Image>)>,
                      keys: set<string>, pool: map<string, (string, string)>)
    requires multiset(sorted) == multiset(Buckets(images, MakeModelTags.FirstSeen(modelTags)))
    requires forall t :: t in keys ==> t in modelTags
    requires forall id :: id in pool ==> exists img :: img in images && InSomeBucket(img, keys) && img.id == id
    ensures forall id :: id in pool ==> id in Ids(Sorting.Seconds(sorted))
  {
    forall id | id in pool ensures id in Ids(Sorting.Seconds(sorted)) {
      var img :| img in images && InSomeBucket(img, keys) && img.id == id;
      var t :| t in img.tags && t in keys;
      ImageInBuckets(images, modelTags, sorted, img, t);
    }
  }

  /** An image carrying a model tag is in that tag's bucket of the sorted list. */
  lemma ImageInBuckets(images: seq<Image>, modelTags: seq<string>, sorted: seq<(string, seq<Image>)>, img: Image, t: string)
    requires multiset(sorted) == multiset(Buckets(images, MakeModelTags.FirstSeen(modelTags)))
    requires img in images && t in img.tags && t in modelTags
    ensures img.id in Ids(Sorting.Seconds(sorted))
  {
    InBucketOf(images, img, t);
    SortedHas(images, modelTags, sorted, t);
    var k :| 0 <= k < |sorted| && sorted[k] == (t, BucketOf(images, t));
    InIds(Sorting.Seconds(sorted), k, img);
  }

  /** An entry of any bucket has its id among the ids of the buckets. */
  lemma InIds(bs: seq<seq<Image>>, k: nat, img: Image)
    requires k < |bs| && img in bs[k]
    ensures img.id in Ids(bs)
  {
    var j :| 0 <= j < |bs[k]| && bs[k][j] == img;
    assert img.id in IdsOf(bs[k]);
    IdsMember(bs, img.id);
  }

  /** Right after the buckets are made, the selection state is consistent
      with the pool of images in some bucket. */
  lemma StartConsistent(images: seq<Image>, modelTags: seq<string>, sorted: seq<(string, seq<Image>)>, total: nat)
    requires DistinctIds(images)
    requires multiset(sorted) == multiset(Buckets(images, MakeModelTags.FirstSeen(modelTags)))
    ensures Consistent(Sorting.Seconds(sorted), map[], Pool(images, KeySet(modelTags)), total)
  {
    var keys := KeySet(modelTags);
    var pool := Pool(images, keys);
    PoolFacts(images, keys);
    EntriesInPool(images, modelTags, sorted, keys, pool);
    PoolInBuckets(images, modelTags, sorted, keys, pool);
  }

  /** The display lines name each model tag once with its bucket size. */
  lemma DisplayNames(images: seq<Image>, modelTags: seq<string>, sorted: seq<(string, seq<Image>)>, reverse: bool, lines: seq<(string, nat)>)
    requires multiset(sorted) == multiset(Buckets(images, MakeModelTags.FirstSeen(modelTags)))
    requires |lines| == |sorted|
    requires forall i :: 0 <= i < |lines| ==>
      var k := if reverse then |sorted| - 1 - i else i;
      lines[i] == (sorted[k].0, |sorted[k].1|)
    ensures forall i :: 0 <= i < |lines| ==> lines[i].0 in modelTags && lines[i].1 == |BucketOf(images, lines[i].0)|
    ensures forall t :: t in modelTags ==> exists i :: 0 <= i < |lines| && lines[i].0 == t
  {
    forall i | 0 <= i < |lines|
      ensures lines[i].0 in modelTags && lines[i].1 == |BucketOf(images, lines[i].0)|
    {
      SortedEntry(images, modelTags, sorted, if reverse then |sorted| - 1 - i else i);
    }
    forall t | t in modelTags ensures exists i :: 0 <= i < |lines| && lines[i].0 == t {
      SortedHas(images, modelTags, sorted, t);
      var k :| 0 <= k < |sorted| && sorted[k] == (t, BucketOf(images, t));
      var i := if reverse then |sorted| - 1 - k else k;
      assert lines[i].0 == t;
    }
  }

  /** What display mode promises: each line names a model tag with its
      bucket size, every model tag has a line, and the sizes rise (fall when
      reversed). */
  predicate ShownFacts(images: seq<Image>, modelTags: seq<string>, reverse: bool, lines: seq<(string, nat)>)
  {
    && (forall i :: 0 <= i < |lines| ==> lines[i].0 in modelTags && lines[i].1 == |BucketOf(images, lines[i].0)|)
    && (forall t :: t in modelTags ==> exists i :: 0 <= i < |lines| && lines[i].0 == t)
    && (forall i, j :: 0 <= i < j < |lines| ==> if reverse then lines[i].1 >= lines[j].1 else lines[i].1 <= lines[j].1)
  }

  /** What the selection promises: `total` images chosen, each an image with
      a model tag, kept with its own paths. */
  predicate ChosenFacts(images: seq<Image>, keys: set<string>, total: nat, selected: Selected)
  {
    && |selected.Keys| == total
    && forall id :: id in selected ==>
      exists img :: img in images && InSomeBucket(img, keys) && img.id == id && selected[id] == img.paths
  }

  /** Images chosen from the pool are images with a model tag, with their paths. */
  lemma ChosenFromPool(images: seq<Image>, keys: set<string>, total: nat, selected: Selected)
    requires DistinctIds(images)
    requires |selected.Keys| == total
    requires forall id :: id in selected ==> id in Pool(images, keys) && selected[id] == Pool(images, keys)[id]
    ensures ChosenFacts(images, keys, total, selected)
  {
    var pool := Pool(images, keys);
    PoolHas(images, keys);
    PoolFrom(images, keys);
    forall id | id in selected
      ensures exists img :: img in images && InSomeBucket(img, keys) && img.id == id && selected[id] == img.paths
    {
      var img :| img in images && InSomeBucket(img, keys) && img.id == id;
      assert pool[img.id] == img.paths;
    }
  }

  /** The bucket making and the sort: the buckets of the distinct model tags,
      in ascending size, and the number of images in some bucket. */
  method SortedBuckets(images: seq<Image>, modelTags: seq<string>) returns (sorted: seq<(string, seq<Image>)>, inBucket: nat)
    ensures multiset(sorted) == multiset(Buckets(images, MakeModelTags.FirstSeen(modelTags)))
    ensures Ascending(sorted)
    ensures inBucket == InBucketCount(images, KeySet(modelTags))
  {
    var m;
    m, inBucket := FillBuckets(images, KeySet(modelTags));
    var order := MakeModelTags.FirstSeen(modelTags);
    ItemsAreBuckets(images, modelTags, m);
    sorted := SortByLen(Items(m, order));
    SortByLenAscending(Items(m, order));
  }

  /** Display mode on the sorted buckets. */
  method Show(images: seq<Image>, modelTags: seq<string>, sorted: seq<(string, seq<Image>)>, reverse: bool)
    returns (lines: seq<(string, nat)>)
    requires multiset(sorted) == multiset(Buckets(images, MakeModelTags.FirstSeen(modelTags)))
    requires Ascending(sorted)
    ensures ShownFacts(images, modelTags, reverse, lines)
  {
    lines := Display(sorted, reverse);
    DisplayNames(images, modelTags, sorted, reverse, lines);
    DisplayOrdered(sorted, reverse, lines);
  }

  /** Selection mode on the sorted buckets. */
  method Choose(images: seq<Image>, modelTags: seq<string>, sorted: seq<(string, seq<Image>)>, total: nat)
    returns (selected: Selected)
    requires DistinctIds(images)
    requires multiset(sorted) == multiset(Buckets(images, MakeModelTags.FirstSeen(modelTags)))
    requires total <= InBucketCount(images, KeySet(modelTags))
    ensures ChosenFacts(images, KeySet(modelTags), total, selected)
  {
    var keys := KeySet(modelTags);
    ghost var pool := Pool(images, keys);
    PoolSize(images, keys);
    StartConsistent(images, modelTags, sorted, total);
    selected := Select(Sorting.Seconds(sorted), total, pool);
    ChosenFromPool(images, keys, total, selected);
  }

  /** `main` after the shuffle: `entries` is the shuffled (id, paths) list
      with each image's metadata record, `modelTags` what `get_model_tags`
      gave. Argument errors come first, then a failed model tag read, then
      the `KeyError` of a record without a rating met in the bucket loop.
      Display mode lists every model tag's bucket size in order; otherwise
      exactly min(count, in_bucket_image_count) images are chosen, each an
      image with a model tag, kept with its own paths. */
  method Balance(args: BalanceArgs, modelTags: Result<seq<string>>, entries: seq<Entry>) returns (r: Result<Outcome>)
    requires forall i, j :: 0 <= i < j < |entries| ==> entries[i].id != entries[j].id
    ensures CheckArgs(args).Err? ==> r == Err(ArgumentError)
    ensures CheckArgs(args).Ok? && modelTags.Err? ==> r == Err(modelTags.error)
    ensures CheckArgs(args).Ok? && modelTags.Ok? && Tagged(entries).Err? ==> r == Err(KeyError)
    ensures CheckArgs(args).Ok? && modelTags.Ok? && Tagged(entries).Ok? ==> r.Ok? && (r.value.Shown? <==> args.display)
    ensures r.Ok? && r.value.Shown? ==> ShownFacts(Tagged(entries).value, modelTags.value, args.reverse, r.value.lines)
    ensures r.Ok? && r.value.Chosen? ==>
      var images := Tagged(entries).value;
      var inBucket := InBucketCount(images, KeySet(modelTags.value));
      ChosenFacts(images, KeySet(modelTags.value), if args.count.value < inBucket then args.count.value else inBucket, r.value.selected)
  {
    var checked := CheckArgs(args);
    if checked.Err? {
      return Err(checked.error);
    }
    if modelTags.Err? {
      return Err(modelTags.error);
    }
    var tagged := Tagged(entries);
    if tagged.Err? {
      return Err(tagged.error);
    }
    var images := tagged.value;
    assert DistinctIds(images);
    var sorted, inBucket := SortedBuckets(images, modelTags.value);
    if args.display {
      var lines := Show(images, modelTags.value, sorted, args.reverse);
      return Ok(Shown(lines));
    }
    var total := if args.count.value < inBucket then args.count.value else inBucket;
    var selected := Choose(images, modelTags.value, sorted, total);
    return Ok(Chosen(selected));
  }
}
