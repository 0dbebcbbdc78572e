/** Packing the dataset into uncompressed tar archives: the image/metadata
    pairs, in ascending image-id order, are cut into chunks of a fixed size,
    and chunk `k` becomes the archive `chunk_k.tar`, holding each pair's
    image then its metadata under their base names. */
module Compress {
  import opened Wrappers
  import opened Text
  import Paths
  import Sorting

  /** `sys.maxsize` on a 64-bit build: the default chunk size. */
  const MaxSize: nat := 0x7fff_ffff_ffff_ffff

  /** The check of `parse_args`: the chunk size must be at least 1. */
  function CheckChunkSize(n: int): (r: Result<nat>)
    ensures r.Ok? <==> n >= 1
    ensures r.Ok? ==> r.value == n
    ensures r.Err? ==> r.error == ArgumentError
  {
    if n < 1 then Err(ArgumentError) else Ok(n)
  }

  // ---------------------------------------------------------------------------
  // Ordering by id

  /** The (id, paths) items of the pairing dictionary, sorted by id; `ids` is
      the dictionary's key list. */
  function SortedItems(d: map<string, (string, string)>, ids: seq<string>): (r: seq<(string, (string, string))>)
    requires forall id :: id in ids ==> id in d
    ensures |r| == |ids|
  {
    var s := Sorting.Sort(ids);
    assert |s| == |multiset(s)| == |multiset(ids)| == |ids|;
    seq(|s|, k requires 0 <= k < |s| => (assert s[k] in multiset(ids); (s[k], d[s[k]])))
  }

  /** The sorted items are the dictionary's entries, each exactly once, in
      strictly ascending id order. */
  lemma SortedItemsOrder(d: map<string, (string, string)>, ids: seq<string>)
    requires forall i, j :: 0 <= i < j < |ids| ==> ids[i] != ids[j]
    requires forall id :: id in ids <==> id in d
    ensures var r := SortedItems(d, ids);
      && (forall i, j :: 0 <= i < j < |r| ==> Sorting.Below(r[i].0, r[j].0))
      && (forall k :: 0 <= k < |r| ==> r[k].0 in d && r[k].1 == d[r[k].0])
      && (forall id :: id in d ==> exists k :: 0 <= k < |r| && r[k].0 == id)
  {
    var s := Sorting.Sort(ids);
    var r := SortedItems(d, ids);
    Sorting.SortStrict(ids);
    forall k | 0 <= k < |r| ensures r[k].0 in d && r[k].1 == d[r[k].0] {
      assert r[k].0 == s[k] && s[k] in multiset(ids);
    }
    forall id | id in d ensures exists k :: 0 <= k < |r| && r[k].0 == id {
      Sorting.SortMembers(ids, id);
      var k :| 0 <= k < |s| && s[k] == id;
      assert r[k].0 == id;
    }
  }

  // ---------------------------------------------------------------------------
  // Chunks

  function Min(a: nat, b: nat): nat
  {
    if a <= b then a else b
  }

  /** The list cut into consecutive pieces of `n`, the last one possibly shorter. */
  function Chunks<T>(s: seq<T>, n: nat): (r: seq<seq<T>>)
    requires n >= 1
    decreases |s|
  {
    if s == [] then [] else [s[..Min(n, |s|)]] + Chunks(s[Min(n, |s|)..], n)
  }

  /** The pieces laid end to end. */
  function Concat<T>(cs: seq<seq<T>>): seq<T>
  {
    if cs == [] then [] else cs[0] + Concat(cs[1..])
  }

  /** Putting the chunks back together gives the list: every pair is in
      exactly one chunk, in its place. */
  lemma {:induction false} ChunksConcat<T>(s: seq<T>, n: nat)
    requires n >= 1
    ensures Concat(Chunks(s, n)) == s
    decreases |s|
  {
    if s != [] {
      var m := Min(n, |s|);
      ChunksConcat(s[m..], n);
      assert Chunks(s, n)[1..] == Chunks(s[m..], n);
      assert s[..m] + s[m..] == s;
    }
  }

  /** Every chunk but the last holds exactly `n` pairs; the last holds
      between 1 and `n`. */
  lemma {:induction false} ChunksSizes<T>(s: seq<T>, n: nat)
    requires n >= 1
    ensures var cs := Chunks(s, n);
      && (forall k :: 0 <= k < |cs| - 1 ==> |cs[k]| == n)
      && (cs != [] ==> 1 <= |cs[|cs| - 1]| <= n)
      && (cs == [] <==> s == [])
    decreases |s|
  {
    if s != [] {
      var m := Min(n, |s|);
      ChunksSizes(s[m..], n);
      var cs := Chunks(s, n);
      assert cs[1..] == Chunks(s[m..], n);
      if m < n {
        assert s[m..] == [];
      }
    }
  }

  /** Chunk `k` is the slice starting at offset `k * n`. */
  lemma {:induction false} ChunkAt<T>(s: seq<T>, n: nat, k: nat)
    requires n >= 1 && k < |Chunks(s, n)|
    ensures k * n < |s|
    ensures Chunks(s, n)[k] == s[k * n..Min(k * n + n, |s|)]
    decreases |s|
  {
    var m := Min(n, |s|);
    if k > 0 {
      var rest := s[m..];
      assert Chunks(s, n) == [s[..m]] + Chunks(rest, n);
      ChunkAt(rest, n, k - 1);
      assert m == n;
      var j := (k - 1) * n;
      MulSucc(k, n);
      SliceShift(s, n, j, Min(j + n, |s| - n));
    }
  }

  lemma MulSucc(k: nat, n: nat)
    requires k >= 1
    ensures (k - 1) * n + n == k * n
  {
  }

  lemma SliceShift<T>(s: seq<T>, m: nat, a: nat, b: nat)
    requires m <= |s| && a <= b <= |s| - m
    ensures s[m..][a..b] == s[m + a..m + b]
  {
  }

  lemma DivExact(k: nat, n: nat)
    requires n >= 1
    ensures (k * n) / n == k
  {
    var q := (k * n) / n;
    var r := (k * n) % n;
    assert k * n == q * n + r && 0 <= r < n;
    assert (k - q) * n == r;
    if k > q {
      MulAtLeast(k - q, n);
    } else if k < q {
      MulAtLeast(q - k, n);
    }
  }

  lemma MulAtLeast(a: int, n: nat)
    requires a >= 1
    ensures a * n >= n
  {
    assert a * n == (a - 1) * n + n;
  }

  /** The offset of chunk `k`: `k` steps of `n`. */
  function Offset(k: nat, n: nat): (r: nat)
  {
    if k == 0 then 0 else Offset(k - 1, n) + n
  }

  /** `i // n` at the offset of chunk `k` is `k`. */
  lemma {:induction false} OffsetIndex(k: nat, n: nat)
    requires n >= 1
    ensures Offset(k, n) == k * n && Offset(k, n) / n == k
  {
    if k > 0 {
      OffsetIndex(k - 1, n);
      assert (k - 1) * n + n == k * n;
    }
    DivExact(k, n);
  }

  /** `i // n` at the offset of chunk `k` is `k`, without the product. */
  lemma OffsetDiv(k: nat, n: nat)
    requires n >= 1
    ensures Offset(k, n) / n == k
  {
    OffsetIndex(k, n);
  }

  /** The chunks from offset `i` on: the slice `[i:i + n]`, then the chunks
      from the next offset. */
  lemma ChunksFrom<T>(list: seq<T>, n: nat, i: nat)
    requires n >= 1 && i < |list|
    ensures Chunks(list[i..], n) == [list[i..Min(i + n, |list|)]] + Chunks(list[Min(i + n, |list|)..], n)
  {
    var rest := list[i..];
    var m := Min(n, |rest|);
    assert rest[..m] == list[i..Min(i + n, |list|)];
    assert rest[m..] == list[Min(i + n, |list|)..];
  }

  lemma PartitionStep<T>(list: seq<T>, n: nat, i: nat, done: seq<seq<T>>)
    requires n >= 1 && i < |list|
    requires Chunks(list, n) == done + Chunks(list[Min(i, |list|)..], n)
    ensures Chunks(list, n) == (done + [list[i..Min(i + n, |list|)]]) + Chunks(list[Min(i + n, |list|)..], n)
  {
    ChunksFrom(list, n, i);
    assert Min(i, |list|) == i;
  }

  /** The offset loop of `main`: for `i` in `range(0, len, n)`, the slice
      `[i:i + n]` and the chunk index `i // n`. */
  method Partition<T>(list: seq<T>, n: nat) returns (chunks: seq<(nat, seq<T>)>)
    requires n >= 1
    ensures |chunks| == |Chunks(list, n)|
    ensures forall k :: 0 <= k < |chunks| ==> chunks[k] == (k, Chunks(list, n)[k])
  {
    chunks := [];
    ghost var done: seq<seq<T>> := [];
    var i := 0;
    while i < |list|
      invariant i == Offset(|done|, n)
      invariant Chunks(list, n) == done + Chunks(list[Min(i, |list|)..], n)
      invariant chunks == Numbered(done)
      decreases |list| - i
    {
      PartitionStep(list, n, i, done);
      var chunk := list[i..Min(i + n, |list|)];
      OffsetDiv(|done|, n);
      var index := i / n;
      NumberedSnoc(done, chunk);
      chunks := chunks + [(index, chunk)];
      done := done + [chunk];
      i := i + n;
    }
    assert list[Min(i, |list|)..] == [];
  }

  /** Each chunk paired with its index. */
  function Numbered<T>(cs: seq<seq<T>>): seq<(nat, seq<T>)>
  {
    seq(|cs|, k requires 0 <= k < |cs| => (k, cs[k]))
  }

  lemma NumberedSnoc<T>(cs: seq<seq<T>>, c: seq<T>)
    ensures Numbered(cs + [c]) == Numbered(cs) + [(|cs|, c)]
  {
  }

  // ---------------------------------------------------------------------------
  // Archives

  /** The archive's name for chunk `index`. */
  function ArchiveName(index: nat): (r: string)
    ensures r != [] && r[0] != '/'
  {
    "chunk_" + IntToString(index) + ".tar"
  }

  /** Different chunks go to different archives. */
  lemma ArchiveNamesDistinct(outputDir: string, i: nat, j: nat)
    requires i != j
    ensures Paths.JoinPath(outputDir, ArchiveName(i)) != Paths.JoinPath(outputDir, ArchiveName(j))
  {
    var a := IntToString(i);
    var b := IntToString(j);
    if Paths.JoinPath(outputDir, ArchiveName(i)) == Paths.JoinPath(outputDir, ArchiveName(j)) {
      var pre := Paths.JoinPrefix(outputDir);
      assert pre + ArchiveName(i) == pre + ArchiveName(j);
      assert ArchiveName(i) == (pre + ArchiveName(i))[|pre|..];
      assert ArchiveName(i) == ArchiveName(j);
      assert |a| == |b|;
      assert a == ArchiveName(i)[6..6 + |a|];
      assert b == ArchiveName(j)[6..6 + |b|];
      ParseIntToString(i);
      ParseIntToString(j);
    }
  }

  /** What `compress_chunk` adds for one pair: the image, then the
      metadata, each under its base name. */
  function PairMembers(pair: (string, string)): (r: seq<(string, string)>)
    ensures |r| == 2
  {
    [(pair.0, Paths.Basename(pair.0)), (pair.1, Paths.Basename(pair.1))]
  }

  /** What `compress_chunk` adds for the pairs of a chunk, pair by pair. */
  function MemberList(chunk: seq<(string, string)>): (r: seq<(string, string)>)
    ensures |r| == 2 * |chunk|
  {
    if chunk == [] then []
    else MemberList(chunk[..|chunk| - 1]) + PairMembers(chunk[|chunk| - 1])
  }

  /** Pair `k` of the chunk gives members `2k` (its image) and `2k + 1` (its
      metadata), each under its base name. */
  lemma MemberListAt(chunk: seq<(string, string)>, k: nat)
    requires k < |chunk|
    ensures var r := MemberList(chunk);
      r[2 * k] == (chunk[k].0, Paths.Basename(chunk[k].0)) && r[2 * k + 1] == (chunk[k].1, Paths.Basename(chunk[k].1))
  {
    MemberListPair(chunk, k);
  }

  /** Pair `k` of the chunk gives the members at `2k` and `2k + 1`. */
  lemma {:induction false} MemberListPair(chunk: seq<(string, string)>, k: nat)
    requires k < |chunk|
    ensures MemberList(chunk)[2 * k] == PairMembers(chunk[k])[0]
    ensures MemberList(chunk)[2 * k + 1] == PairMembers(chunk[k])[1]
  {
    var n := |chunk| - 1;
    var init := chunk[..n];
    var ml := MemberList(init);
    var last := PairMembers(chunk[n]);
    assert MemberList(chunk) == ml + last;
    assert |ml| == 2 * n;
    if k < n {
      MemberListPair(init, k);
      assert init[k] == chunk[k];
      assert (ml + last)[2 * k] == ml[2 * k] && (ml + last)[2 * k + 1] == ml[2 * k + 1];
    } else {
      assert (ml + last)[2 * k] == last[0] && (ml + last)[2 * k + 1] == last[1];
    }
  }

  /** One more pair adds its image and its metadata at the end. */
  lemma MemberListStep(chunk: seq<(string, string)>, i: nat)
    requires i < |chunk|
    ensures MemberList(chunk[..i + 1]) == MemberList(chunk[..i]) + PairMembers(chunk[i])
  {
    assert chunk[..i + 1][..i] == chunk[..i];
    assert chunk[..i + 1][i] == chunk[i];
  }

  /** `compress_chunk`: the loop adding the members to the archive. */
  method CompressChunk(chunk: seq<(string, string)>) returns (members: seq<(string, string)>)
    ensures members == MemberList(chunk)
  {
    members := [];
    for i := 0 to |chunk|
      invariant members == MemberList(chunk[..i])
    {
      MemberListStep(chunk, i);
      var (imagePath, metadataPath) := chunk[i];
      members := members + [(imagePath, Paths.Basename(imagePath))];
      members := members + [(metadataPath, Paths.Basename(metadataPath))];
    }
    assert chunk[..|chunk|] == chunk;
  }

  /** `main`: the pairs of `d` (its key list is `ids`) sorted by id, cut
      into chunks of `n` and written to `chunk_0.tar`, `chunk_1.tar`, ... under
      `outputDir`; a size below 1 is refused. The result lists each archive's
      path and members. */
  method Compress(n: int, d: map<string, (string, string)>, ids: seq<string>, outputDir: string)
    returns (r: Result<seq<(string, seq<(string, string)>)>>)
    requires forall id :: id in ids ==> id in d
    ensures n < 1 <==> r.Err?
    ensures r.Err? ==> r.error == ArgumentError
    ensures r.Ok? ==>
      var chunks := Chunks(Sorting.Seconds(SortedItems(d, ids)), n);
      && |r.value| == |chunks|
      && forall k :: 0 <= k < |chunks| ==>
        r.value[k] == (Paths.JoinPath(outputDir, ArchiveName(k)), MemberList(chunks[k]))
  {
    var size := CheckChunkSize(n);
    if size.Err? {
      return Err(size.error);
    }
    var list := Sorting.Seconds(SortedItems(d, ids));
    var chunks := Partition(list, size.value);
    ghost var cs := Chunks(list, size.value);
    var archives := [];
    for k := 0 to |chunks|
      invariant |archives| == k
      invariant forall j :: 0 <= j < k ==>
        archives[j] == (Paths.JoinPath(outputDir, ArchiveName(j)), MemberList(cs[j]))
    {
      var (index, chunk) := chunks[k];
      assert index == k && chunk == cs[k];
      var members := CompressChunk(chunk);
      archives := archives + [(Paths.JoinPath(outputDir, ArchiveName(index)), members)];
    }
    return Ok(archives);
  }
}
