/** The tag-group dictionary both scrapers build for a post: group name to the
    list of tags in that group, in the order the groups were first seen. A tag
    is recorded once, in the group where it first appears. */
module TagGroups {
  import opened Wrappers

  /** One entry of the dictionary: a group name and its tags. */
  datatype Group = Group(name: string, tags: seq<string>)

  /** The group names, in dictionary order. */
  function Names(gs: seq<Group>): (r: seq<string>)
    ensures |r| == |gs|
    ensures forall k :: 0 <= k < |gs| ==> r[k] == gs[k].name
  {
    if gs == [] then [] else [gs[0].name] + Names(gs[1..])
  }

  /** No group name occurs twice: the keys of a dictionary. */
  predicate DistinctNames(gs: seq<Group>)
  {
    var ns := Names(gs);
    forall i, j :: 0 <= i < j < |ns| ==> ns[i] != ns[j]
  }

  /** Appends `tag` to the group called `name`, or adds the group `[tag]` at the
      end when there is none: `type_tags_dict.get(name)` followed by `append`
      or by a new entry. */
  function AddTag(gs: seq<Group>, name: string, tag: string): seq<Group>
  {
    if gs == [] then [Group(name, [tag])]
    else if gs[0].name == name then [Group(name, gs[0].tags + [tag])] + gs[1..]
    else [gs[0]] + AddTag(gs[1..], name, tag)
  }

  /** Every tag of every group, in dictionary order. */
  function AllTags(gs: seq<Group>): seq<string>
  {
    if gs == [] then [] else gs[0].tags + AllTags(gs[1..])
  }

  /** The first group holding `t`. */
  function GroupOf(gs: seq<Group>, t: string): Option<string>
  {
    if gs == [] then None
    else if t in gs[0].tags then Some(gs[0].name)
    else GroupOf(gs[1..], t)
  }

  /** The set of tags gathered so far holds exactly the tags of the groups, and
      each of them is in the groups once. */
  ghost predicate TagsOnce(gs: seq<Group>, seen: set<string>)
  {
    forall x :: multiset(AllTags(gs))[x] == (if x in seen then 1 else 0)
  }

  ghost predicate GroupsOk(gs: seq<Group>, seen: set<string>)
  {
    DistinctNames(gs) && TagsOnce(gs, seen) && |AllTags(gs)| == |seen|
  }

  lemma {:induction false} AddTagNames(gs: seq<Group>, name: string, tag: string)
    ensures Names(AddTag(gs, name, tag)) == if name in Names(gs) then Names(gs) else Names(gs) + [name]
  {
    if gs != [] {
      var r := AddTag(gs, name, tag);
      assert Names(gs) == [gs[0].name] + Names(gs[1..]);
      if gs[0].name == name {
        assert r[1..] == gs[1..];
        assert Names(r) == [name] + Names(gs[1..]);
        assert Names(gs)[0] == name;
      } else {
        assert r[1..] == AddTag(gs[1..], name, tag);
        AddTagNames(gs[1..], name, tag);
        assert Names(r) == [gs[0].name] + Names(r[1..]);
        assert (name in Names(gs)) == (name in Names(gs[1..]));
      }
    }
  }

  /** Adding a tag keeps the group names distinct. */
  lemma AddTagDistinct(gs: seq<Group>, name: string, tag: string)
    requires DistinctNames(gs)
    ensures DistinctNames(AddTag(gs, name, tag))
  {
    AddTagNames(gs, name, tag);
  }

  lemma {:induction false} AddTagMultiset(gs: seq<Group>, name: string, tag: string)
    ensures multiset(AllTags(AddTag(gs, name, tag))) == multiset(AllTags(gs)) + multiset{tag}
  {
    if gs != [] {
      var r := AddTag(gs, name, tag);
      if gs[0].name == name {
        assert r[1..] == gs[1..];
        assert AllTags(r) == (gs[0].tags + [tag]) + AllTags(gs[1..]);
      } else {
        AddTagMultiset(gs[1..], name, tag);
        assert r[1..] == AddTag(gs[1..], name, tag);
      }
    }
  }

  lemma {:induction false} GroupOfNone(gs: seq<Group>, t: string)
    ensures GroupOf(gs, t).None? <==> t !in AllTags(gs)
  {
    if gs != [] {
      GroupOfNone(gs[1..], t);
    }
  }

  /** A tag that was in no group lands in `name`; every other tag stays where it was. */
  lemma {:induction false} AddTagGroupOf(gs: seq<Group>, name: string, tag: string, t: string)
    requires GroupOf(gs, tag).None?
    ensures GroupOf(AddTag(gs, name, tag), t) == if t == tag then Some(name) else GroupOf(gs, t)
  {
    if gs != [] {
      var r := AddTag(gs, name, tag);
      if gs[0].name == name {
        assert r[1..] == gs[1..];
        if t == tag {
          assert t in r[0].tags;
        }
      } else {
        assert r[1..] == AddTag(gs[1..], name, tag);
        AddTagGroupOf(gs[1..], name, tag, t);
      }
    }
  }

  /** Adding a tag that was not gathered yet keeps the dictionary well formed. */
  lemma AddTagOk(gs: seq<Group>, seen: set<string>, name: string, tag: string)
    requires GroupsOk(gs, seen) && tag !in seen
    ensures GroupsOk(AddTag(gs, name, tag), seen + {tag})
  {
    AddTagDistinct(gs, name, tag);
    AddTagMultiset(gs, name, tag);
    var m := multiset(AllTags(AddTag(gs, name, tag)));
    assert |m| == |AllTags(AddTag(gs, name, tag))|;
    assert |m| == |multiset(AllTags(gs))| + 1;
  }

  // ---------------------------------------------------------------------------
  // The grouping loop

  /** The grouping loop of `get_type_tags_dict`, from the dictionary `gs` and the
      set `seen` over the remaining `(group, tag)` items: a tag already seen is
      skipped, any other is appended to its group. */
  function Collect(gs: seq<Group>, seen: set<string>, items: seq<(string, string)>): (seq<Group>, set<string>)
    decreases |items|
  {
    if items == [] then (gs, seen)
    else if items[0].1 in seen then Collect(gs, seen, items[1..])
    else Collect(AddTag(gs, items[0].0, items[0].1), seen + {items[0].1}, items[1..])
  }

  /** The tags of the items. */
  function ItemTags(items: seq<(string, string)>): set<string>
  {
    if items == [] then {} else {items[0].1} + ItemTags(items[1..])
  }

  /** The group of the first item carrying `t`. */
  function FirstGroupOf(items: seq<(string, string)>, t: string): (r: Option<string>)
    ensures r.Some? <==> t in ItemTags(items)
  {
    if items == [] then None
    else if items[0].1 == t then Some(items[0].0)
    else FirstGroupOf(items[1..], t)
  }

  /** The loop keeps the dictionary well formed and gathers every item's tag. */
  lemma {:induction false} CollectOk(gs: seq<Group>, seen: set<string>, items: seq<(string, string)>)
    requires GroupsOk(gs, seen)
    ensures GroupsOk(Collect(gs, seen, items).0, Collect(gs, seen, items).1)
    ensures Collect(gs, seen, items).1 == seen + ItemTags(items)
    decreases |items|
  {
    CollectSeen(gs, seen, items);
    if items != [] {
      var (g, t) := items[0];
      if t in seen {
        CollectOk(gs, seen, items[1..]);
      } else {
        AddTagOk(gs, seen, g, t);
        CollectOk(AddTag(gs, g, t), seen + {t}, items[1..]);
      }
    }
  }

  /** The loop gathers every item's tag into the set. */
  lemma {:induction false} CollectSeen(gs: seq<Group>, seen: set<string>, items: seq<(string, string)>)
    ensures Collect(gs, seen, items).1 == seen + ItemTags(items)
    decreases |items|
  {
    if items != [] {
      var (g, t) := items[0];
      assert ItemTags(items) == {t} + ItemTags(items[1..]);
      if t in seen {
        CollectSeen(gs, seen, items[1..]);
      } else {
        CollectSeen(AddTag(gs, g, t), seen + {t}, items[1..]);
      }
    }
  }

  /** First seen wins: a tag not yet in the dictionary ends up in the group of
      the first item that carries it. */
  lemma {:induction false} CollectGroupOf(gs: seq<Group>, seen: set<string>, items: seq<(string, string)>, t: string)
    requires GroupsOk(gs, seen)
    ensures GroupOf(Collect(gs, seen, items).0, t) ==
      if GroupOf(gs, t).Some? then GroupOf(gs, t) else FirstGroupOf(items, t)
    decreases |items|
  {
    if items != [] {
      var (g, x) := items[0];
      GroupOfNone(gs, x);
      GroupOfNone(gs, t);
      assert multiset(AllTags(gs))[x] == (if x in seen then 1 else 0);
      if x in seen {
        CollectGroupOf(gs, seen, items[1..], t);
      } else {
        AddTagOk(gs, seen, g, x);
        AddTagGroupOf(gs, g, x, t);
        CollectGroupOf(AddTag(gs, g, x), seen + {x}, items[1..], t);
      }
    }
  }

  /** The dictionary and the tag count `get_type_tags_dict` returns for the items
      that pass its filters: the groups are distinct, every distinct tag is in
      exactly one group, that group is the one where the tag first appeared, and
      the count is the number of distinct tags. */
  lemma GroupedProperties(items: seq<(string, string)>, t: string)
    ensures var (gs, seen) := Collect([], {}, items);
      && DistinctNames(gs)
      && seen == ItemTags(items)
      && |seen| == |AllTags(gs)|
      && multiset(AllTags(gs))[t] == (if t in ItemTags(items) then 1 else 0)
      && GroupOf(gs, t) == FirstGroupOf(items, t)
  {
    CollectOk([], {}, items);
    CollectGroupOf([], {}, items, t);
  }
}
