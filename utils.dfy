/** The dataset helpers shared by the offline tools: tag selection from a
    metadata record, the model-tags file reader, and the pairing of images
    with their metadata files in a directory listing. */
module Utils {
  import opened Wrappers
  import opened Text
  import opened TagGroups
  import Paths

  // ---------------------------------------------------------------------------
  // get_tags

  /** A selector argument of `get_tags` (the groups to drop or to keep): a list of group names, or a string,
      for which `in` tests substrings and iteration yields characters. */
  datatype Selector = NameList(names: seq<string>) | Text(text: string)

  /** `x` occurs in `s` as a contiguous piece. */
  predicate IsSubstring(x: string, s: string)
    decreases |s|
  {
    StartsWith(s, x) || (s != [] && IsSubstring(x, s[1..]))
  }

  /** `x in sel`. */
  predicate Contains(sel: Selector, x: string)
  {
    match sel
    case NameList(ns) => x in ns
    case Text(s) => IsSubstring(x, s)
  }

  /** The one-character strings of `s`. */
  function Chars(s: string): (r: seq<string>)
    ensures |r| == |s|
    ensures forall i :: 0 <= i < |s| ==> r[i] == [s[i]]
  {
    if s == [] then [] else [[s[0]]] + Chars(s[1..])
  }

  /** What `for e in sel` visits. */
  function Elements(sel: Selector): seq<string>
  {
    match sel
    case NameList(ns) => ns
    case Text(s) => Chars(s)
  }

  /** The parts of a metadata record `get_tags` reads: the tag groups (absent
      when the record has no "tags") and the rating (absent when it has none). */
  datatype Record = Record(tags: Option<seq<Group>>, rating: Option<string>)

  /** The groups whose names are not among `names`, in order: what popping
      each of `names` from the dictionary leaves. */
  function Without(gs: seq<Group>, names: seq<string>): (r: seq<Group>)
    ensures |r| <= |gs|
  {
    if gs == [] then [] else (if gs[0].name in names then [] else [gs[0]]) + Without(gs[1..], names)
  }

  lemma {:induction false} WithoutMembers(gs: seq<Group>, names: seq<string>, g: Group)
    ensures g in Without(gs, names) <==> g in gs && g.name !in names
  {
    if gs != [] {
      WithoutMembers(gs[1..], names, g);
      assert gs == [gs[0]] + gs[1..];
    }
  }

  /** Popping one more name is removing the longer list. */
  lemma {:induction false} WithoutStep(gs: seq<Group>, names: seq<string>, e: string)
    ensures Without(Without(gs, names), [e]) == Without(gs, names + [e])
  {
    if gs != [] {
      WithoutStep(gs[1..], names, e);
      var w := Without(gs[1..], names);
      var g := gs[0];
      assert g.name in names + [e] <==> g.name in names || g.name == e;
      if g.name in names {
        assert Without(gs, names) == w;
        assert Without(gs, names + [e]) == Without(gs[1..], names + [e]);
      } else {
        var v := [g] + w;
        assert Without(gs, names) == v;
        assert v[0] == g && v[1..] == w;
        assert Without(v, [e]) == (if g.name in [e] then [] else [g]) + Without(w, [e]);
        assert Without(gs, names + [e]) == (if g.name == e then [] else [g]) + Without(gs[1..], names + [e]);
      }
    }
  }

  /** The names of the groups `sel` does not contain, in order. */
  function Rejected(gs: seq<Group>, sel: Selector): seq<string>
  {
    if gs == [] then []
    else
      var last := gs[|gs| - 1];
      Rejected(gs[..|gs| - 1], sel) + (if Contains(sel, last.name) then [] else [last.name])
  }

  /** Some group is called `x`. */
  predicate Named(gs: seq<Group>, x: string)
  {
    exists k :: 0 <= k < |gs| && gs[k].name == x
  }

  lemma {:induction false} RejectedMembers(gs: seq<Group>, sel: Selector, x: string)
    ensures x in Rejected(gs, sel) <==> !Contains(sel, x) && Named(gs, x)
  {
    if gs != [] {
      var n := |gs| - 1;
      var init := gs[..n];
      RejectedMembers(init, sel, x);
      var tail := if Contains(sel, gs[n].name) then [] else [gs[n].name];
      assert Rejected(gs, sel) == Rejected(init, sel) + tail;
      assert Named(gs, x) <==> Named(init, x) || gs[n].name == x by {
        if Named(init, x) {
          var k :| 0 <= k < |init| && init[k].name == x;
          assert gs[k] == init[k];
        }
        if Named(gs, x) && gs[n].name != x {
          var k :| 0 <= k < |gs| && gs[k].name == x;
          assert init[k] == gs[k];
        }
      }
    }
  }

  /** The groups `get_tags` keeps. */
  function Kept(m: Record, excluded: Option<Selector>, included: Option<Selector>): seq<Group>
  {
    var gs := if m.tags.Some? then m.tags.value else [];
    if excluded.Some? then Without(gs, Elements(excluded.value))
    else if included.Some? then Without(gs, Rejected(gs, included.value))
    else gs
  }

  /** Whether the rating is appended. */
  predicate WithRating(excluded: Option<Selector>, included: Option<Selector>)
  {
    if excluded.Some? then !Contains(excluded.value, "rating")
    else if included.Some? then Contains(included.value, "rating")
    else true
  }

  /** `get_tags(metadata, excluded, included, no_rating_prefix)` on a record. */
  function GetTagsSpec(m: Record, excluded: Option<Selector>, included: Option<Selector>, noRatingPrefix: bool): Result<seq<string>>
  {
    if excluded.Some? && included.Some? then Err(ValueError)
    else
      var tags := AllTags(Kept(m, excluded, included));
      if !WithRating(excluded, included) then Ok(tags)
      else if m.rating.None? then Err(KeyError)
      else Ok(tags + [(if noRatingPrefix then "" else "rating:") + m.rating.value])
  }

  /** The errors of `get_tags`: both selectors given, or a rating to append that
      the record lacks. */
  lemma GetTagsErrors(m: Record, excluded: Option<Selector>, included: Option<Selector>, noRatingPrefix: bool)
    ensures var r := GetTagsSpec(m, excluded, included, noRatingPrefix);
      && (r.Err? <==> (excluded.Some? && included.Some?) || (WithRating(excluded, included) && m.rating.None?))
      && (excluded.Some? && included.Some? ==> r == Err(ValueError))
      && (!(excluded.Some? && included.Some?) && r.Err? ==> r == Err(KeyError))
  {
  }

  /** With a drop-selector, a group is kept exactly when its name is not one
      of the elements the selector iterates over. */
  lemma ExcludeKeeps(m: Record, excluded: Selector, g: Group)
    requires m.tags.Some?
    ensures g in Kept(m, Some(excluded), None) <==> g in m.tags.value && g.name !in Elements(excluded)
  {
    WithoutMembers(m.tags.value, Elements(excluded), g);
  }

  /** With a keep-selector, a group is kept exactly when the selector contains
      its name. */
  lemma IncludeKeeps(m: Record, included: Selector, g: Group)
    requires m.tags.Some?
    ensures g in Kept(m, None, Some(included)) <==> g in m.tags.value && Contains(included, g.name)
  {
    var gs := m.tags.value;
    WithoutMembers(gs, Rejected(gs, included), g);
    RejectedMembers(gs, included, g.name);
    if g in gs {
      var k :| 0 <= k < |gs| && gs[k] == g;
      assert Named(gs, g.name);
    }
  }

  /** The result is the kept groups' tags in dictionary order, then the
      rating, prefixed unless asked otherwise, when it is appended. */
  lemma GetTagsShape(m: Record, excluded: Option<Selector>, included: Option<Selector>, noRatingPrefix: bool)
    requires GetTagsSpec(m, excluded, included, noRatingPrefix).Ok?
    ensures var r := GetTagsSpec(m, excluded, included, noRatingPrefix).value;
      var tags := AllTags(Kept(m, excluded, included));
      && (WithRating(excluded, included) ==>
            |r| == |tags| + 1 && r[..|tags|] == tags &&
            r[|tags|] == (if noRatingPrefix then m.rating.value else "rating:" + m.rating.value))
      && (!WithRating(excluded, included) ==> r == tags)
  {
    var r := GetTagsSpec(m, excluded, included, noRatingPrefix).value;
    var tags := AllTags(Kept(m, excluded, included));
    if WithRating(excluded, included) {
      assert r[..|tags|] == tags;
      assert "" + m.rating.value == m.rating.value;
    }
  }

  /** Without selectors every group is kept and the rating comes last. */
  lemma NoSelectorKeepsAll(m: Record, noRatingPrefix: bool)
    requires m.rating.Some?
    ensures GetTagsSpec(m, None, None, noRatingPrefix) ==
      Ok(AllTags(if m.tags.Some? then m.tags.value else []) + [(if noRatingPrefix then "" else "rating:") + m.rating.value])
  {
  }

  lemma {:induction false} AllTagsPrefix(gs: seq<Group>, i: nat)
    requires i < |gs|
    ensures AllTags(gs[..i + 1]) == AllTags(gs[..i]) + gs[i].tags
  {
    if i == 0 {
      assert gs[..1][1..] == [];
    } else {
      assert gs[..i + 1][1..] == gs[1..][..i];
      assert gs[..i][1..] == gs[1..][..i - 1];
      AllTagsPrefix(gs[1..], i - 1);
    }
  }

  /** The `excluded` branch: pops each element the selector yields. */
  method PopEach(gs: seq<Group>, es: seq<string>) returns (d: seq<Group>)
    ensures d == Without(gs, es)
  {
    d := gs;
    WithoutNone(gs);
    for i := 0 to |es|
      invariant d == Without(gs, es[..i])
    {
      WithoutStep(gs, es[..i], es[i]);
      assert es[..i + 1] == es[..i] + [es[i]];
      d := Without(d, [es[i]]);
    }
    assert es[..|es|] == es;
  }

  /** The `included` branch: pops every group the selector does not contain. */
  method KeepSelected(gs: seq<Group>, sel: Selector) returns (d: seq<Group>)
    ensures d == Without(gs, Rejected(gs, sel))
  {
    d := gs;
    WithoutNone(gs);
    for i := 0 to |gs|
      invariant d == Without(gs, Rejected(gs[..i], sel))
    {
      assert gs[..i + 1][..i] == gs[..i];
      if !Contains(sel, gs[i].name) {
        WithoutStep(gs, Rejected(gs[..i], sel), gs[i].name);
        assert Rejected(gs[..i + 1], sel) == Rejected(gs[..i], sel) + [gs[i].name];
        d := Without(d, [gs[i].name]);
      } else {
        assert Rejected(gs[..i + 1], sel) == Rejected(gs[..i], sel) + [];
        assert Rejected(gs[..i], sel) + [] == Rejected(gs[..i], sel);
      }
    }
    assert gs[..|gs|] == gs;
  }

  /** The tags of the remaining groups, concatenated in order. */
  method Gather(d: seq<Group>) returns (tags: seq<string>)
    ensures tags == AllTags(d)
  {
    tags := [];
    for i := 0 to |d|
      invariant tags == AllTags(d[..i])
    {
      AllTagsPrefix(d, i);
      tags := tags + d[i].tags;
    }
    assert d[..|d|] == d;
  }

  /** `get_tags`: pops the groups from a copy of the dictionary, then gathers
      the rest and the rating. */
  method GetTags(m: Record, excluded: Option<Selector>, included: Option<Selector>, noRatingPrefix: bool)
    returns (r: Result<seq<string>>)
    ensures r == GetTagsSpec(m, excluded, included, noRatingPrefix)
  {
    if excluded.Some? && included.Some? {
      return Err(ValueError);
    }
    var gs := if m.tags.Some? then m.tags.value else [];
    var d := gs;
    var withRating := true;
    if excluded.Some? {
      d := PopEach(gs, Elements(excluded.value));
      withRating := !Contains(excluded.value, "rating");
    } else if included.Some? {
      d := KeepSelected(gs, included.value);
      withRating := Contains(included.value, "rating");
    }
    var tags := Gather(d);
    if withRating {
      if m.rating.None? {
        return Err(KeyError);
      }
      tags := tags + [(if noRatingPrefix then "" else "rating:") + m.rating.value];
    }
    r := Ok(tags);
  }

  lemma {:induction false} WithoutNone(gs: seq<Group>)
    ensures Without(gs, []) == gs
  {
    if gs != [] {
      WithoutNone(gs[1..]);
      assert gs == [gs[0]] + gs[1..];
    }
  }

  // ---------------------------------------------------------------------------
  // get_model_tags

  /** One line of the model-tags file: skipped unless it splits into exactly
      two words; the first must then be an integer. */
  function ParseLine(line: string): (r: Result<Option<(int, string)>>)
    ensures r.Err? ==> r.error == ValueError
  {
    var parts := SplitWhitespace(line);
    if |parts| != 2 then Ok(None)
    else match ParseInt(parts[0])
      case None => Err(ValueError)
      case Some(i) => Ok(Some((i, parts[1])))
  }

  /** The index-to-tag dictionary filled from `d` by the remaining lines; a
      later line with the same index overwrites an earlier one. */
  function IndexTags(d: map<int, string>, lines: seq<string>): Result<map<int, string>>
    decreases |lines|
  {
    if lines == [] then Ok(d)
    else match ParseLine(lines[0])
      case Err(e) => Err(e)
      case Ok(None) => IndexTags(d, lines[1..])
      case Ok(Some((i, t))) => IndexTags(d[i := t], lines[1..])
  }

  /** The indices run from 0 without gaps. */
  predicate Continuous(keys: set<int>)
  {
    forall k :: k in keys ==> 0 <= k < |keys|
  }

  /** `m` is the largest element of `keys`. */
  predicate IsMax(keys: set<int>, m: int)
  {
    m in keys && forall k :: k in keys ==> k <= m
  }

  /** The check as the source states it on the sorted items: as many entries
      as the last (largest) index plus one. */
  predicate ContinuousAsWritten(keys: set<int>)
  {
    keys == {} || exists m :: IsMax(keys, m) && |keys| == m + 1
  }

  /** The written check lets a negative index make up for a gap: indices -1
      and 1 pass it though no tag has index 0. */
  lemma GapPassesAsWritten()
    ensures ContinuousAsWritten({-1, 1})
    ensures 0 !in {-1, 1} && !Continuous({-1, 1})
  {
    var s: set<int> := {-1, 1};
    assert |s| == 2;
    assert IsMax(s, 1);
  }

  /** The set {0, ..., n - 1}. */
  function Range(n: nat): (r: set<int>)
    ensures forall k :: k in r <==> 0 <= k < n
    ensures |r| == n
  {
    if n == 0 then {} else Range(n - 1) + {n - 1}
  }

  /** Continuous indices are exactly 0 to the count less one. */
  lemma ContinuousCovers(keys: set<int>)
    requires Continuous(keys)
    ensures keys == Range(|keys|)
  {
    var r := Range(|keys|);
    assert keys <= r;
    assert |r - keys| == |r| - |keys|;
  }

  /** The corrected check is the written one with negative indices refused. */
  lemma ContinuousCorrects(keys: set<int>)
    ensures Continuous(keys) <==> ContinuousAsWritten(keys) && forall k :: k in keys ==> k >= 0
  {
    if Continuous(keys) && keys != {} {
      ContinuousCovers(keys);
      assert IsMax(keys, |keys| - 1);
    }
    if keys != {} && ContinuousAsWritten(keys) && forall k :: k in keys ==> k >= 0 {
      var m :| IsMax(keys, m) && |keys| == m + 1;
      assert forall k :: k in keys ==> 0 <= k < |keys|;
    }
  }

  /** `m` is the smallest element of `keys`. */
  predicate IsMin(keys: set<int>, m: int)
  {
    m in keys && forall k :: k in keys ==> m <= k
  }

  /** Some element of a non-empty set of indices. */
  lemma Member(keys: set<int>) returns (x: int)
    requires keys != {}
    ensures x in keys
  {
    if forall y :: y !in keys {
      assert false;
    }
    x :| x in keys;
  }

  /** A non-empty set of indices has a smallest one. */
  lemma {:induction false} MinExists(keys: set<int>)
    requires keys != {}
    ensures exists m :: IsMin(keys, m)
    decreases |keys|
  {
    var x := Member(keys);
    var rest := keys - {x};
    if rest == {} {
      assert keys == {x};
      assert IsMin(keys, x);
    } else {
      MinExists(rest);
      var m :| IsMin(rest, m);
      var lo := if x < m then x else m;
      forall k | k in keys
        ensures lo <= k
      {
        if k != x {
          assert k in rest;
        }
      }
      assert IsMin(keys, lo);
    }
  }

  /** The indices in ascending order, the order `sorted` gives the items. */
  function Ascending(keys: set<int>): (r: seq<int>)
    ensures |r| == |keys|
    ensures forall i :: 0 <= i < |r| ==> r[i] in keys
    decreases |keys|
  {
    if keys == {} then []
    else
      MinExists(keys);
      var m :| IsMin(keys, m);
      [m] + Ascending(keys - {m})
  }

  /** The ascending order is strictly increasing. */
  lemma {:induction false} AscendingSorted(keys: set<int>)
    ensures forall i, j :: 0 <= i < j < |Ascending(keys)| ==> Ascending(keys)[i] < Ascending(keys)[j]
    decreases |keys|
  {
    if keys != {} {
      MinExists(keys);
      var m :| IsMin(keys, m);
      AscendingMin(keys, m);
      var rest := keys - {m};
      var t := Ascending(rest);
      var r := [m] + t;
      AscendingSorted(rest);
      forall i, j | 0 <= i < j < |r|
        ensures r[i] < r[j]
      {
        assert r[j] == t[j - 1] && t[j - 1] in rest;
        if i > 0 {
          assert r[i] == t[i - 1];
        }
      }
    }
  }

  /** Every index appears in the ascending order. */
  lemma {:induction false} AscendingMembers(keys: set<int>, k: int)
    ensures k in keys ==> k in Ascending(keys)
    decreases |keys|
  {
    if k in keys {
      MinExists(keys);
      var m :| IsMin(keys, m);
      AscendingMin(keys, m);
      if k != m {
        AscendingMembers(keys - {m}, k);
      }
    }
  }

  /** The last of the ascending indices is the largest index. */
  lemma {:induction false} AscendingLast(keys: set<int>)
    requires keys != {}
    ensures IsMax(keys, Ascending(keys)[|keys| - 1])
    decreases |keys|
  {
    MinExists(keys);
    var m :| IsMin(keys, m);
    AscendingMin(keys, m);
    var rest := keys - {m};
    if rest == {} {
      assert keys == {m};
    } else {
      AscendingLast(rest);
      var last := Ascending(rest)[|rest| - 1];
      assert Ascending(keys)[|keys| - 1] == last;
      forall k | k in keys
        ensures k <= last
      {
        if k != m {
          assert k in rest;
        }
      }
    }
  }

  /** The smallest index comes first, then the others in ascending order. */
  lemma AscendingMin(keys: set<int>, m: int)
    requires IsMin(keys, m)
    ensures Ascending(keys) == [m] + Ascending(keys - {m})
  {
  }

  /** The check on the sorted items, "as many items as the last index plus
      one", is the written check on the set of indices. */
  lemma WrittenCheck(keys: set<int>)
    requires keys != {}
    ensures ContinuousAsWritten(keys) <==> |keys| == Ascending(keys)[|keys| - 1] + 1
  {
    AscendingLast(keys);
    var last := Ascending(keys)[|keys| - 1];
    if ContinuousAsWritten(keys) {
      var m :| IsMax(keys, m) && |keys| == m + 1;
      assert m <= last && last <= m;
    }
  }

  /** Ascending indices that all lie in 0 to n - 1, n of them, are 0 to n - 1
      in turn. */
  lemma {:induction false} AscendingFrom(r: seq<int>, i: nat)
    requires forall a, b :: 0 <= a < b < |r| ==> r[a] < r[b]
    requires forall a :: 0 <= a < |r| ==> 0 <= r[a] < |r|
    requires i < |r|
    ensures i <= r[i]
    decreases i
  {
    if i > 0 {
      AscendingFrom(r, i - 1);
    }
  }

  lemma {:induction false} AscendingTo(r: seq<int>, i: nat)
    requires forall a, b :: 0 <= a < b < |r| ==> r[a] < r[b]
    requires forall a :: 0 <= a < |r| ==> 0 <= r[a] < |r|
    requires i < |r|
    ensures r[i] <= i
    decreases |r| - i
  {
    if i < |r| - 1 {
      AscendingTo(r, i + 1);
    }
  }

  /** With continuous indices the ascending order is 0, 1, ..., n - 1. */
  lemma AscendingContinuous(keys: set<int>)
    requires Continuous(keys)
    ensures forall i :: 0 <= i < |keys| ==> Ascending(keys)[i] == i
  {
    var r := Ascending(keys);
    AscendingSorted(keys);
    forall a | 0 <= a < |r|
      ensures 0 <= r[a] < |r|
    {
      assert r[a] in keys;
    }
    forall i | 0 <= i < |r|
      ensures r[i] == i
    {
      AscendingFrom(r, i);
      AscendingTo(r, i);
    }
  }

  /** The tags of the indices `ks`, in the order of `ks`. */
  function TagsAt(d: map<int, string>, ks: seq<int>): (r: seq<string>)
    requires forall i :: 0 <= i < |ks| ==> ks[i] in d
    ensures |r| == |ks|
    ensures forall i :: 0 <= i < |ks| ==> r[i] == d[ks[i]]
  {
    if ks == [] then [] else TagsAt(d, ks[..|ks| - 1]) + [d[ks[|ks| - 1]]]
  }

  /** What `get_model_tags` makes of the filled dictionary: nothing for an
      empty one, else the tags of the items sorted by index, once their number
      is the last index plus one. */
  function SortedTags(d: map<int, string>): Result<seq<string>>
  {
    if |d| == 0 then Ok([])
    else if !ContinuousAsWritten(d.Keys) then Err(ValueError)
    else Ok(TagsAt(d, Ascending(d.Keys)))
  }

  /** `get_model_tags(path)` on the lines of the file, `None` when the path is
      not a file. */
  function ModelTagsSpec(file: Option<seq<string>>): Result<seq<string>>
  {
    if file.None? then Err(FileNotFoundError)
    else
      var d :- IndexTags(map[], file.value);
      SortedTags(d)
  }

  /** What `get_model_tags` returns for the filled dictionary: `ValueError`
      exactly when the number of indices is not the largest one plus one;
      otherwise the tags in ascending index order, which with no negative
      index puts the tag of index `i` at position `i`. */
  lemma ModelTagsOrder(d: map<int, string>)
    ensures var r := SortedTags(d);
      && (r.Ok? <==> ContinuousAsWritten(d.Keys))
      && (r.Err? ==> r.error == ValueError)
      && (r.Ok? ==> |r.value| == |d| && forall i :: 0 <= i < |d| ==> r.value[i] == d[Ascending(d.Keys)[i]])
      && (r.Ok? && (forall k :: k in d ==> k >= 0) ==>
            forall i :: 0 <= i < |d| ==> i in d && r.value[i] == d[i])
  {
    var keys := d.Keys;
    if |d| == 0 {
      assert keys == {};
    } else if ContinuousAsWritten(keys) {
      var r := TagsAt(d, Ascending(keys));
      assert SortedTags(d) == Ok(r);
      if forall k :: k in d ==> k >= 0 {
        ContinuousCorrects(keys);
        AscendingContinuous(keys);
        forall i | 0 <= i < |d|
          ensures i in d && r[i] == d[i]
        {
          assert Ascending(keys)[i] == i;
        }
      }
    }
  }

  /** With indices 0 to n - 1 the check passes and the tag of index `i` is
      listed at position `i`. */
  lemma ContinuousSorted(d: map<int, string>)
    requires Continuous(d.Keys)
    ensures SortedTags(d).Ok? && |SortedTags(d).value| == |d|
    ensures forall i :: 0 <= i < |d| ==> i in d && SortedTags(d).value[i] == d[i]
  {
    ContinuousCorrects(d.Keys);
    ModelTagsOrder(d);
  }

  /** The last line naming an index decides its tag. */
  lemma {:induction false} LastLineWins(d: map<int, string>, lines: seq<string>, i: int, t: string)
    requires IndexTags(d, lines).Ok?
    requires lines != [] && ParseLine(lines[|lines| - 1]) == Ok(Some((i, t)))
    ensures i in IndexTags(d, lines).value && IndexTags(d, lines).value[i] == t
    decreases |lines|
  {
    if |lines| > 1 {
      assert lines[1..][|lines[1..]| - 1] == lines[|lines| - 1];
      match ParseLine(lines[0]) {
        case Ok(None) => LastLineWins(d, lines[1..], i, t);
        case Ok(Some((j, u))) => LastLineWins(d[j := u], lines[1..], i, t);
      }
    }
  }

  /** `get_model_tags`: fills the dictionary line by line, sorts the indices,
      checks that their number is the last one plus one and lists the tags in
      index order. */
  method GetModelTags(file: Option<seq<string>>) returns (r: Result<seq<string>>)
    ensures r == ModelTagsSpec(file)
  {
    if file.None? {
      return Err(FileNotFoundError);
    }
    var lines := file.value;
    var d: map<int, string> := map[];
    for k := 0 to |lines|
      invariant IndexTags(map[], lines) == IndexTags(d, lines[k..])
    {
      assert lines[k..][1..] == lines[k + 1..];
      var parsed := ParseLine(lines[k]);
      if parsed.Err? {
        return Err(ValueError);
      }
      if parsed.value.Some? {
        var (i, t) := parsed.value.value;
        d := d[i := t];
      }
    }
    assert lines[|lines|..] == [];
    r := ListTags(d);
  }

  /** One step of the sort: moving the smallest remaining index to the end
      of the sorted prefix. */
  lemma SortStep(done: seq<int>, rest: set<int>, keys: set<int>, m: int)
    requires done + Ascending(rest) == Ascending(keys) && IsMin(rest, m)
    ensures (done + [m]) + Ascending(rest - {m}) == Ascending(keys)
  {
    AscendingMin(rest, m);
    assert done + ([m] + Ascending(rest - {m})) == (done + [m]) + Ascending(rest - {m});
  }

  /** `sorted` on the indices: the smallest remaining index, time after time. */
  method SortIndices(keys: set<int>) returns (r: seq<int>)
    ensures r == Ascending(keys)
  {
    r := [];
    var rest := keys;
    while rest != {}
      invariant r + Ascending(rest) == Ascending(keys)
      decreases |rest|
    {
      MinExists(rest);
      var m :| IsMin(rest, m);
      SortStep(r, rest, keys, m);
      r := r + [m];
      rest := rest - {m};
    }
    assert r + [] == r;
  }

  /** The end of `get_model_tags`: the index check on the sorted items and
      the list of their tags. */
  method ListTags(d: map<int, string>) returns (r: Result<seq<string>>)
    ensures r == SortedTags(d)
  {
    if |d| == 0 {
      return Ok([]);
    }
    var keys := SortIndices(d.Keys);
    WrittenCheck(d.Keys);
    if |keys| != keys[|keys| - 1] + 1 {
      return Err(ValueError);
    }
    var tags: seq<string> := [];
    for i := 0 to |keys|
      invariant tags == TagsAt(d, keys[..i])
    {
      assert keys[..i + 1][..i] == keys[..i];
      tags := tags + [d[keys[i]]];
    }
    assert keys[..|keys|] == keys;
    r := Ok(tags);
  }

  // ---------------------------------------------------------------------------
  // Pairing images with their metadata

  /** What one listing entry contributes: nothing for a ".json" entry, an
      entry that is not a regular file, or one without a sibling metadata
      file; otherwise its stem as key and its path and metadata path. */
  function Entry(dir: string, name: string, files: set<string>): Option<(string, (string, string))>
  {
    var (stem, ext) := Paths.Splitext(name);
    if ext == ".json" then None
    else
      var path := Paths.JoinPath(dir, name);
      if path !in files then None
      else
        var meta := Paths.Splitext(path).0 + ".json";
        if meta !in files then None else Some((stem, (path, meta)))
  }

  /** The contributions of the listing, entry by entry. */
  function Entries(dir: string, names: seq<string>, files: set<string>): (r: seq<Option<(string, (string, string))>>)
    ensures |r| == |names|
    ensures forall k :: 0 <= k < |names| ==> r[k] == Entry(dir, names[k], files)
  {
    if names == [] then [] else [Entry(dir, names[0], files)] + Entries(dir, names[1..], files)
  }

  /** The dictionary `d` after recording the contributions in order; a later
      entry with the same key overwrites an earlier one. */
  function RecordAll(d: map<string, (string, string)>, es: seq<Option<(string, (string, string))>>): map<string, (string, string)>
    decreases |es|
  {
    if es == [] then d
    else RecordAll(if es[0].Some? then d[es[0].value.0 := es[0].value.1] else d, es[1..])
  }

  /** `get_image_id_image_metadata_path_tuple_dict(dir)` over a listing of
      the directory and the set of regular files in it. */
  function PairingSpec(isDir: bool, dir: string, names: seq<string>, files: set<string>): (r: Result<map<string, (string, string)>>)
    ensures r.Err? <==> !isDir
    ensures r.Err? ==> r.error == FileNotFoundError
  {
    if !isDir then Err(FileNotFoundError) else Ok(RecordAll(map[], Entries(dir, names, files)))
  }

  /** A key is recorded exactly when it was in `d` or some entry contributes it. */
  lemma {:induction false} RecordKeys(d: map<string, (string, string)>, es: seq<Option<(string, (string, string))>>, id: string)
    ensures id in RecordAll(d, es) <==> id in d || exists k :: 0 <= k < |es| && es[k].Some? && es[k].value.0 == id
    decreases |es|
  {
    if es != [] {
      var d1 := if es[0].Some? then d[es[0].value.0 := es[0].value.1] else d;
      RecordKeys(d1, es[1..], id);
      if exists k :: 0 <= k < |es| && es[k].Some? && es[k].value.0 == id {
        var k :| 0 <= k < |es| && es[k].Some? && es[k].value.0 == id;
        if k > 0 {
          assert es[1..][k - 1] == es[k];
        }
      }
      if exists k :: 0 <= k < |es[1..]| && es[1..][k].Some? && es[1..][k].value.0 == id {
        var k :| 0 <= k < |es[1..]| && es[1..][k].Some? && es[1..][k].value.0 == id;
        assert es[k + 1] == es[1..][k];
      }
    }
  }

  /** A recorded value comes from `d` or is the value of some contributing entry. */
  lemma {:induction false} RecordValues(d: map<string, (string, string)>, es: seq<Option<(string, (string, string))>>, id: string)
    requires id in RecordAll(d, es)
    ensures (id in d && RecordAll(d, es)[id] == d[id]) ||
      exists k :: 0 <= k < |es| && es[k] == Some((id, RecordAll(d, es)[id]))
    decreases |es|
  {
    if es != [] {
      var d1 := if es[0].Some? then d[es[0].value.0 := es[0].value.1] else d;
      RecordValues(d1, es[1..], id);
      var v := RecordAll(d, es)[id];
      if exists k :: 0 <= k < |es[1..]| && es[1..][k] == Some((id, v)) {
        var k :| 0 <= k < |es[1..]| && es[1..][k] == Some((id, v));
        assert es[k + 1] == es[1..][k];
      } else if es[0].Some? && es[0].value.0 == id {
        assert es[0] == Some((id, v));
      }
    }
  }

  /** An entry that is paired: not a ".json" file, a regular file, and with a
      regular file named by its stem and ".json" beside it. */
  predicate Paired(dir: string, name: string, files: set<string>)
  {
    var (stem, ext) := Paths.Splitext(name);
    ext != ".json" && Paths.JoinPath(dir, name) in files && Paths.JoinPath(dir, stem + ".json") in files
  }

  /** For a listing entry, the sibling metadata path the loop builds is the
      stem with ".json" joined to the directory. */
  lemma MetaPath(dir: string, name: string)
    requires name != [] && '/' !in name
    ensures Paths.Splitext(Paths.JoinPath(dir, name)).0 + ".json" == Paths.JoinPath(dir, Paths.Splitext(name).0 + ".json")
  {
    Paths.SplitextJoin(dir, name);
    Paths.SplitextRoot(name);
    assert name[0] != '/';
    Paths.JoinExtend(dir, Paths.Splitext(name).0, ".json");
  }

  /** Every listing entry is a plain name, as a directory listing gives. */
  predicate PlainNames(names: seq<string>)
  {
    forall k :: 0 <= k < |names| ==> names[k] != [] && '/' !in names[k]
  }

  /** A recorded pair: the image path is a regular file, and the metadata path
      is a regular file named by the key and ".json" in the directory. */
  predicate GoodPair(dir: string, files: set<string>, id: string, v: (string, string))
  {
    v.0 in files && v.1 in files && v.1 == Paths.JoinPath(dir, id + ".json")
  }

  /** A plain entry contributes exactly when it is paired, under its stem, and
      what it contributes is a good pair. */
  lemma EntryPaired(dir: string, name: string, files: set<string>)
    requires name != [] && '/' !in name
    ensures var e := Entry(dir, name, files);
      && (e.Some? <==> Paired(dir, name, files))
      && (e.Some? ==> e.value.0 == Paths.Splitext(name).0 && GoodPair(dir, files, e.value.0, e.value.1))
  {
    MetaPath(dir, name);
  }

  /** The pairing of a directory: an id is a key exactly when some paired
      entry has it as stem, and its pair is a regular file and the id's
      metadata file. */
  lemma PairingCharacterized(dir: string, names: seq<string>, files: set<string>, id: string)
    requires PlainNames(names)
    ensures var r := PairingSpec(true, dir, names, files).value;
      && (id in r <==> exists k :: 0 <= k < |names| && Paired(dir, names[k], files) && Paths.Splitext(names[k]).0 == id)
      && (id in r ==> GoodPair(dir, files, id, r[id]))
  {
    var es := Entries(dir, names, files);
    var r := RecordAll(map[], es);
    RecordKeys(map[], es, id);
    forall k | 0 <= k < |names|
      ensures (es[k].Some? && es[k].value.0 == id) <==> (Paired(dir, names[k], files) && Paths.Splitext(names[k]).0 == id)
    {
      EntryPaired(dir, names[k], files);
    }
    if id in r {
      RecordValues(map[], es, id);
      var k :| 0 <= k < |es| && es[k] == Some((id, r[id]));
      EntryPaired(dir, names[k], files);
    }
  }

  /** The pairing loop over the directory listing. */
  method Pairing(isDir: bool, dir: string, names: seq<string>, files: set<string>)
    returns (r: Result<map<string, (string, string)>>)
    ensures r == PairingSpec(isDir, dir, names, files)
  {
    if !isDir {
      return Err(FileNotFoundError);
    }
    ghost var es := Entries(dir, names, files);
    var d: map<string, (string, string)> := map[];
    for k := 0 to |names|
      invariant RecordAll(map[], es) == RecordAll(d, es[k..])
    {
      assert es[k..][1..] == es[k + 1..];
      var (stem, ext) := Paths.Splitext(names[k]);
      if ext != ".json" {
        var path := Paths.JoinPath(dir, names[k]);
        if path in files {
          var meta := Paths.Splitext(path).0 + ".json";
          if meta in files {
            d := d[stem := (path, meta)];
          }
        }
      }
    }
    assert es[|names|..] == [];
    r := Ok(d);
  }

  /** `get_existing_image_id_set(dir)`: the keys of the pairing. */
  function ExistingIds(isDir: bool, dir: string, names: seq<string>, files: set<string>): (r: Result<set<string>>)
    ensures r.Err? <==> !isDir
  {
    var p :- PairingSpec(isDir, dir, names, files);
    Ok(p.Keys)
  }

  /** An id is known exactly when some paired entry has it as stem. */
  lemma ExistingIdsPaired(dir: string, names: seq<string>, files: set<string>, id: string)
    requires PlainNames(names)
    ensures id in ExistingIds(true, dir, names, files).value <==>
      exists k :: 0 <= k < |names| && Paired(dir, names[k], files) && Paths.Splitext(names[k]).0 == id
  {
    PairingCharacterized(dir, names, files, id);
  }
}
