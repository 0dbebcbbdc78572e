/** The caption form of a tag list shared by the converter and the language
    model tagger: each tag with its underscores turned into spaces, joined by
    ", ". */
module TagText {
  import opened Text

  /** `tag.replace("_", " ")` for every tag. */
  function Spaced(tags: seq<string>): (r: seq<string>)
    ensures |r| == |tags|
    ensures forall k :: 0 <= k < |tags| ==> r[k] == ReplaceChar(tags[k], '_', ' ')
  {
    seq(|tags|, k requires 0 <= k < |tags| => ReplaceChar(tags[k], '_', ' '))
  }

  /** `", ".join(tag.replace("_", " ") for tag in tags)`. */
  function Caption(tags: seq<string>): string
  {
    Join(Spaced(tags), ", ")
  }

  /** A string free of underscores. */
  predicate NoUnderscore(s: string)
  {
    forall i :: 0 <= i < |s| ==> s[i] != '_'
  }

  lemma {:induction false} JoinNoUnderscore(parts: seq<string>)
    requires forall k :: 0 <= k < |parts| ==> NoUnderscore(parts[k])
    ensures NoUnderscore(Join(parts, ", "))
  {
    if |parts| > 1 {
      JoinNoUnderscore(parts[1..]);
      var rest := Join(parts[1..], ", ");
      var s := parts[0] + ", " + rest;
      forall i | 0 <= i < |s| ensures s[i] != '_' {
        if i >= |parts[0]| + 2 {
          assert s[i] == rest[i - |parts[0]| - 2];
        }
      }
    }
  }

  /** A caption holds no underscore. */
  lemma CaptionNoUnderscore(tags: seq<string>)
    ensures NoUnderscore(Caption(tags))
  {
    JoinNoUnderscore(Spaced(tags));
  }

  /** Reordering the tags reorders the caption's pieces the same way: the
      pieces of a shuffled list's caption are the spaced tags, each as often
      as before. */
  lemma {:induction false} SpacedPermutation(tags: seq<string>, shuffled: seq<string>)
    requires multiset(shuffled) == multiset(tags)
    ensures multiset(Spaced(shuffled)) == multiset(Spaced(tags))
    decreases |tags|
  {
    if tags != [] {
      var x := tags[0];
      assert x in multiset(shuffled);
      var j :| 0 <= j < |shuffled| && shuffled[j] == x;
      var pre, post := shuffled[..j], shuffled[j + 1..];
      assert shuffled == pre + [x] + post;
      RestPermutation(tags, pre, post);
      SpacedPermutation(tags[1..], pre + post);
      SpacedConcat(pre, post);
      SpacedSplit(pre, x, post);
      assert tags == [x] + tags[1..];
      SpacedConcat([x], tags[1..]);
      MultisetMove(Spaced(pre), Spaced([x]), Spaced(post), Spaced(tags[1..]));
    }
  }

  lemma SpacedSplit(pre: seq<string>, x: string, post: seq<string>)
    ensures Spaced(pre + [x] + post) == Spaced(pre) + Spaced([x]) + Spaced(post)
  {
    SpacedConcat(pre + [x], post);
    SpacedConcat(pre, [x]);
  }

  /** Moving a piece to the front keeps the multiset. */
  lemma MultisetMove(a: seq<string>, s: seq<string>, b: seq<string>, c: seq<string>)
    requires multiset(a + b) == multiset(c)
    ensures multiset(a + s + b) == multiset(s + c)
  {
    calc {
      multiset(a + s + b);
      multiset(a) + multiset(s) + multiset(b);
      multiset(s) + multiset(a + b);
    }
  }

  /** Taking `x` out of both sides of a permutation. */
  lemma RestPermutation(tags: seq<string>, pre: seq<string>, post: seq<string>)
    requires tags != [] && multiset(pre + [tags[0]] + post) == multiset(tags)
    ensures multiset(pre + post) == multiset(tags[1..])
  {
    var x := tags[0];
    var a, b := multiset(pre + post), multiset(tags[1..]);
    assert tags == [x] + tags[1..];
    calc {
      a + multiset{x};
      multiset(pre) + multiset(post) + multiset{x};
      multiset(pre) + multiset{x} + multiset(post);
      multiset(pre + [x] + post);
      multiset(tags);
      multiset([x]) + b;
      b + multiset{x};
    }
    forall y ensures a[y] == b[y] {
      assert (a + multiset{x})[y] == (b + multiset{x})[y];
    }
  }

  lemma SpacedConcat(a: seq<string>, b: seq<string>)
    ensures Spaced(a + b) == Spaced(a) + Spaced(b)
  {
    var l := Spaced(a + b);
    var r := Spaced(a) + Spaced(b);
    forall k | 0 <= k < |l| ensures l[k] == r[k] {
      if k < |a| {
        assert (a + b)[k] == a[k];
      } else {
        assert (a + b)[k] == b[k - |a|];
      }
    }
  }
}
