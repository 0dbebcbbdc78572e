/** The search-query grammar of utils/search_tags.py: sort tokens
    `sort:<field>[:asc|desc]`, range-filter tokens `<field>:<|>[=]<value>`, plain
    tags, the bound filter used to get past the site's paging depth, and the
    percent-encoded search string. */
module SearchTags {
  import opened Wrappers
  import opened Text
  import Percent

  // ---------------------------------------------------------------------------
  // Sort tags

  datatype SortTag = SortTag(sortType: string, descending: bool)

  /** The sort a query gets when it has no sort token. */
  const DefaultSort := SortTag("id", true)

  /** The sort fields a bound can be derived for. */
  predicate IsSortType(t: string)
  {
    t == "id" || t == "score"
  }

  /** `SortTag.__str__`. */
  function SortTagText(s: SortTag): string
  {
    "sort:" + s.sortType + ":" + (if s.descending then "desc" else "asc")
  }

  /** `SortTag.validate_sort_type`: `None` when the field is supported. */
  function ValidateSortType(t: string): (r: Option<Error>)
    ensures r.None? <==> IsSortType(t)
    ensures r.Some? ==> r.value == NotImplementedError
  {
    if t == "id" || t == "score" then None else Some(NotImplementedError)
  }

  /** `SortTag.from_tag`: `Ok(None)` for a token that is not a sort token. The
      `:`-separated parts are visited in order, so an unsupported field is
      reported before a fourth part is. */
  function SortFromTag(tag: string): Result<Option<SortTag>>
  {
    if !StartsWith(tag, "sort:") then Ok(None)
    else
      var parts := Split(tag, ':');
      if |parts| < 2 then Err(ValueError)
      else if ValidateSortType(parts[1]).Some? then Err(ValidateSortType(parts[1]).value)
      else if |parts| > 3 then Err(ValueError)
      else Ok(Some(SortTag(parts[1], !(|parts| == 3 && parts[2] == "asc"))))
  }

  predicate NoColon(s: string)
  {
    forall i :: 0 <= i < |s| ==> s[i] != ':'
  }

  lemma SplitSortPrefix(rest: string)
    ensures Split("sort:" + rest, ':') == ["sort"] + Split(rest, ':')
  {
    SplitFree("sort", ':', rest);
    assert "sort:" + rest == "sort" + [':'] + rest;
  }

  /** A token that does not start with `sort:` is not a sort token. */
  lemma SortFromTagNotSort(tag: string)
    requires !StartsWith(tag, "sort:")
    ensures SortFromTag(tag) == Ok(None)
  {
  }

  /** `sort:<field>`: the field must be id or score (so `sort:` itself is refused),
      and the direction is descending. */
  lemma SortFromTagField(field: string)
    requires NoColon(field)
    ensures IsSortType(field) ==> SortFromTag("sort:" + field) == Ok(Some(SortTag(field, true)))
    ensures !IsSortType(field) ==> SortFromTag("sort:" + field) == Err(NotImplementedError)
  {
    var tag := "sort:" + field;
    assert StartsWith(tag, "sort:") by { assert tag[..5] == "sort:"; }
    SplitSortPrefix(field);
    SplitFree(field, ':', []);
  }

  /** `sort:<field>:<dir>`: descending unless the direction is exactly `asc`. */
  lemma SortFromTagDirection(field: string, dir: string)
    requires NoColon(field) && NoColon(dir)
    ensures IsSortType(field) ==>
      SortFromTag("sort:" + field + ":" + dir) == Ok(Some(SortTag(field, dir != "asc")))
    ensures !IsSortType(field) ==>
      SortFromTag("sort:" + field + ":" + dir) == Err(NotImplementedError)
  {
    var tag := "sort:" + field + ":" + dir;
    assert StartsWith(tag, "sort:") by { assert tag[..5] == "sort:"; }
    assert tag == "sort:" + (field + [':'] + dir);
    SplitSortPrefix(field + [':'] + dir);
    SplitFree(field, ':', dir);
    SplitFree(dir, ':', []);
  }

  /** More than three `:`-separated parts with a supported field is a `ValueError`. */
  lemma SortFromTagTooManyParts(field: string, dir: string, more: string)
    requires NoColon(field) && NoColon(dir) && IsSortType(field)
    ensures SortFromTag("sort:" + field + ":" + dir + ":" + more) == Err(ValueError)
  {
    var tag := "sort:" + field + ":" + dir + ":" + more;
    assert StartsWith(tag, "sort:") by { assert tag[..5] == "sort:"; }
    assert tag == "sort:" + (field + [':'] + (dir + [':'] + more));
    SplitSortPrefix(field + [':'] + (dir + [':'] + more));
    SplitFree(field, ':', dir + [':'] + more);
    SplitFree(dir, ':', more);
  }

  /** Printing a supported sort tag and parsing it back gives the same tag. */
  lemma SortTagRoundTrip(s: SortTag)
    requires IsSortType(s.sortType)
    ensures SortFromTag(SortTagText(s)) == Ok(Some(s))
  {
    var dir := if s.descending then "desc" else "asc";
    assert SortTagText(s) == "sort:" + s.sortType + ":" + dir;
    SortFromTagDirection(s.sortType, dir);
  }

  // ---------------------------------------------------------------------------
  // Compare filter tags

  datatype CompareFilterTag = CompareFilterTag(compareType: string, lessThan: bool, withEqual: bool, target: string)

  /** `CompareFilterTag.__str__`. */
  function FilterText(f: CompareFilterTag): string
  {
    f.compareType + ":" + (if f.lessThan then "<" else ">") + (if f.withEqual then "=" else "") + f.target
  }

  /** Index of the first occurrence of `c` in `s`. */
  function IndexOf(s: string, c: char): (r: Option<nat>)
    ensures r.Some? ==> r.value < |s| && s[r.value] == c
    ensures r.Some? ==> forall i :: 0 <= i < r.value ==> s[i] != c
    ensures r.None? ==> forall i :: 0 <= i < |s| ==> s[i] != c
  {
    if s == [] then None
    else if s[0] == c then Some(0)
    else match IndexOf(s[1..], c)
      case None => None
      case Some(k) => Some(k + 1)
  }

  predicate AllLowerAscii(s: string)
  {
    forall i :: 0 <= i < |s| ==> IsLowerAscii(s[i])
  }

  predicate NoAsciiSpace(s: string)
  {
    forall i :: 0 <= i < |s| ==> !IsAsciiSpace(s[i])
  }

  /** The text `$` lets the pattern match: all of `tag`, or all but a final line feed. */
  function MatchBody(tag: string): string
  {
    if tag != [] && tag[|tag| - 1] == '\n' then tag[..|tag| - 1] else tag
  }

  /** Groups 2 to 4 of the pattern, `([<>]?)(=?)(\S*)`, over the text after the
      first `:`. The optional groups are greedy, and taking them greedily never
      makes a match fail that would otherwise succeed. */
  function OperatorParts(rest: string): (r: (string, string, string))
    ensures r.0 + r.1 + r.2 == rest
  {
    var g2 := if rest != [] && (rest[0] == '<' || rest[0] == '>') then rest[..1] else [];
    var rest2 := rest[|g2|..];
    var g3 := if rest2 != [] && rest2[0] == '=' then rest2[..1] else [];
    assert g2 + rest2 == rest;
    assert g3 + rest2[|g3|..] == rest2;
    (g2, g3, rest2[|g3|..])
  }

  /** The groups of `^([a-z]+):([<>]?)(=?)(\S*)$` under `re.ASCII` when `search`
      finds it in `tag`. */
  function FilterMatch(tag: string): (r: Option<(string, string, string, string)>)
    ensures r.Some? ==> MatchBody(tag) == r.value.0 + ":" + (r.value.1 + r.value.2 + r.value.3)
    ensures r.Some? ==> r.value.0 != [] && AllLowerAscii(r.value.0) && NoAsciiSpace(r.value.3)
    ensures r.Some? ==> OperatorParts(r.value.1 + r.value.2 + r.value.3) == (r.value.1, r.value.2, r.value.3)
  {
    var body := MatchBody(tag);
    match IndexOf(body, ':')
    case None => None
    case Some(k) =>
      var parts := OperatorParts(body[k + 1..]);
      if k >= 1 && AllLowerAscii(body[..k]) && NoAsciiSpace(parts.2)
      then ColonSplit(body, k); Some((body[..k], parts.0, parts.1, parts.2))
      else None
  }

  /** `CompareFilterTag.from_tag`: `Ok(None)` for a token that is not a filter. */
  function FilterFromTag(tag: string): Result<Option<CompareFilterTag>>
  {
    match FilterMatch(tag)
    case None => Ok(None)
    case Some((g1, g2, g3, g4)) =>
      if g4 == [] then Err(ValueError)
      else if g2 == [] then (if g3 == [] then Ok(None) else Err(ValueError))
      else Ok(Some(CompareFilterTag(g1, g2 == "<", g3 != [], g4)))
  }

  /** The filters whose printed form parses back to themselves. */
  predicate WellFormedFilter(f: CompareFilterTag)
  {
    && f.compareType != [] && AllLowerAscii(f.compareType)
    && f.target != [] && NoAsciiSpace(f.target)
    && (!f.withEqual ==> f.target[0] != '=')
  }

  lemma OperatorPartsOf(op: string, eq: string, target: string)
    requires op == "<" || op == ">"
    requires eq == "" || eq == "="
    requires target != [] && (eq == "" ==> target[0] != '=')
    ensures OperatorParts(op + eq + target) == (op, eq, target)
  {
    var rest := op + eq + target;
    assert rest[..1] == op;
    assert rest[1..] == eq + target;
    if eq == "=" {
      assert (eq + target)[..1] == eq;
      assert (eq + target)[1..] == target;
    }
  }

  lemma IndexOfPrefix(name: string, rest: string)
    requires AllLowerAscii(name)
    ensures IndexOf(name + ":" + rest, ':') == Some(|name|)
  {
    var t := name + ":" + rest;
    if name != [] {
      assert t[1..] == name[1..] + ":" + rest;
      IndexOfPrefix(name[1..], rest);
    }
  }

  /** Printing a well-formed filter and parsing it back gives the same filter. */
  lemma FilterRoundTrip(f: CompareFilterTag)
    requires WellFormedFilter(f)
    ensures FilterFromTag(FilterText(f)) == Ok(Some(f))
  {
    var op := if f.lessThan then "<" else ">";
    var eq := if f.withEqual then "=" else "";
    var rest := op + eq + f.target;
    assert FilterText(f) == f.compareType + ":" + rest;
    assert rest[|rest| - 1] == f.target[|f.target| - 1];
    FilterMatchOf(f.compareType, rest);
    OperatorPartsOf(op, eq, f.target);
  }

  /** The pattern on a lower-case name, a colon and text not ending in a line
      feed: the groups are the name and the operator parts of the text. */
  lemma FilterMatchOf(name: string, rest: string)
    requires name != [] && AllLowerAscii(name)
    requires rest != [] && rest[|rest| - 1] != '\n'
    ensures var p := OperatorParts(rest);
      FilterMatch(name + ":" + rest) == if NoAsciiSpace(p.2) then Some((name, p.0, p.1, p.2)) else None
  {
    ColonSlices(name, rest);
    IndexOfPrefix(name, rest);
  }

  lemma ColonSlices(name: string, rest: string)
    requires rest != []
    ensures var t := name + ":" + rest;
      && t[..|name|] == name && t[|name| + 1..] == rest && t[|t| - 1] == rest[|rest| - 1]
  {
  }

  lemma OperatorPartsShape(rest: string)
    ensures var p := OperatorParts(rest);
      && (p.0 == "" || p.0 == "<" || p.0 == ">")
      && (p.1 == "" || p.1 == "=")
      && (p.1 == "" && p.2 != [] ==> p.2[0] != '=')
  {
  }

  /** What a match of the filter pattern says about the token. */
  lemma FilterMatchShape(tag: string)
    requires FilterMatch(tag).Some?
    requires tag == [] || tag[|tag| - 1] != '\n'
    ensures var m := FilterMatch(tag).value;
      && tag == m.0 + ":" + (m.1 + m.2 + m.3)
      && m.0 != [] && AllLowerAscii(m.0) && NoAsciiSpace(m.3)
      && (m.1 == "" || m.1 == "<" || m.1 == ">")
      && (m.2 == "" || m.2 == "=")
      && (m.2 == "" && m.3 != [] ==> m.3[0] != '=')
  {
    var m := FilterMatch(tag).value;
    assert MatchBody(tag) == tag;
    OperatorPartsShape(m.1 + m.2 + m.3);
  }

  lemma ColonSplit(tag: string, k: nat)
    requires k < |tag| && tag[k] == ':'
    ensures tag == tag[..k] + ":" + tag[k + 1..]
  {
    assert tag[k..] == [':'] + tag[k + 1..];
    assert tag == tag[..k] + tag[k..];
  }

  lemma FilterTextOfParts(f: CompareFilterTag, m: (string, string, string, string))
    requires m.1 == "<" || m.1 == ">"
    requires m.2 == "" || m.2 == "="
    requires f == CompareFilterTag(m.0, m.1 == "<", m.2 != [], m.3)
    ensures FilterText(f) == m.0 + ":" + (m.1 + m.2 + m.3)
  {
  }

  /** A printed filter is exactly the token it was parsed from. */
  lemma FilterFromTagText(tag: string, f: CompareFilterTag)
    requires FilterFromTag(tag) == Ok(Some(f))
    requires tag == [] || tag[|tag| - 1] != '\n'
    ensures FilterText(f) == tag
    ensures WellFormedFilter(f)
  {
    var m := FilterMatch(tag).value;
    FilterMatchShape(tag);
    assert m.3 != [] && m.1 != [];
    assert f == CompareFilterTag(m.0, m.1 == "<", m.2 != [], m.3);
    FilterTextOfParts(f, m);
  }

  /** A token the pattern matches is a plain tag exactly when it has neither a
      comparison nor an `=`; a missing value or a bare `=` is a `ValueError`. */
  lemma FilterFromTagCases(tag: string)
    ensures FilterMatch(tag).None? ==> FilterFromTag(tag) == Ok(None)
    ensures FilterMatch(tag).Some? ==>
      var (g1, g2, g3, g4) := FilterMatch(tag).value;
      && (g4 == [] ==> FilterFromTag(tag) == Err(ValueError))
      && (g4 != [] && g2 == [] && g3 == [] ==> FilterFromTag(tag) == Ok(None))
      && (g4 != [] && g2 == [] && g3 != [] ==> FilterFromTag(tag) == Err(ValueError))
      && (g4 != [] && g2 != [] ==> FilterFromTag(tag).Ok? && FilterFromTag(tag).value.Some?)
  {
  }

  // ---------------------------------------------------------------------------
  // Classifying the user's tokens

  /** The query a `SearchTags` object holds. */
  datatype Query = Query(
    generalTags: seq<string>,
    sortTag: SortTag,
    compareFilterTags: seq<CompareFilterTag>,
    sortAssociated: Option<CompareFilterTag>)

  /** What the first loop of `SearchTags.__init__` has gathered so far. */
  datatype Scan = Scan(general: seq<string>, sort: Option<SortTag>, filters: seq<CompareFilterTag>)

  /** `tag.strip().lower()`. */
  function NormalizeToken(raw: string): string
  {
    Lower(Strip(raw))
  }

  /** How the first loop of `SearchTags.__init__` reads one token. */
  datatype TokenClass = Blank | SortToken(sort: SortTag) | CompareToken(filter: CompareFilterTag) | PlainToken(tag: string)

  /** One token of the first loop, before the check for a second sort token. */
  function ClassifyToken(raw: string): Result<TokenClass>
  {
    var tag := NormalizeToken(raw);
    if tag == [] then Ok(Blank)
    else if HasSpace(tag) then Err(ValueError)
    else match SortFromTag(tag)
      case Err(e) => Err(e)
      case Ok(Some(s)) => Ok(SortToken(s))
      case Ok(None) =>
        match FilterFromTag(tag)
        case Err(e) => Err(e)
        case Ok(Some(f)) => Ok(CompareToken(f))
        case Ok(None) => Ok(PlainToken(tag))
  }

  /** One token of the first loop of `SearchTags.__init__`. */
  function ScanStep(acc: Scan, raw: string): Result<Scan>
  {
    match ClassifyToken(raw)
    case Err(e) => Err(e)
    case Ok(Blank) => Ok(acc)
    case Ok(SortToken(s)) => if acc.sort.Some? then Err(ValueError) else Ok(acc.(sort := Some(s)))
    case Ok(CompareToken(f)) => Ok(acc.(filters := acc.filters + [f]))
    case Ok(PlainToken(t)) => Ok(acc.(general := acc.general + [t]))
  }

  /** The first loop of `SearchTags.__init__`, from `acc` over `tags` in order. */
  function ScanTokens(acc: Scan, tags: seq<string>): Result<Scan>
    decreases |tags|
  {
    if tags == [] then Ok(acc)
    else match ScanStep(acc, tags[0])
      case Err(e) => Err(e)
      case Ok(next) => ScanTokens(next, tags[1..])
  }

  /** A filter is associated with the sort when it bounds the sort's field in the
      sort's direction. */
  predicate Associated(f: CompareFilterTag, s: SortTag)
  {
    f.compareType == s.sortType && f.lessThan == s.descending
  }

  function AssociatedCount(fs: seq<CompareFilterTag>, s: SortTag): nat
  {
    if fs == [] then 0 else (if Associated(fs[0], s) then 1 else 0) + AssociatedCount(fs[1..], s)
  }

  /** The filters not associated with the sort, in their original order. */
  function Unassociated(fs: seq<CompareFilterTag>, s: SortTag): seq<CompareFilterTag>
  {
    if fs == [] then []
    else (if Associated(fs[0], s) then [] else [fs[0]]) + Unassociated(fs[1..], s)
  }

  function FirstAssociated(fs: seq<CompareFilterTag>, s: SortTag): Option<CompareFilterTag>
  {
    if fs == [] then None
    else if Associated(fs[0], s) then Some(fs[0])
    else FirstAssociated(fs[1..], s)
  }

  /** The second loop of `SearchTags.__init__`: the filters that stay, and the bound. */
  function SplitBound(fs: seq<CompareFilterTag>, s: SortTag): Result<(seq<CompareFilterTag>, Option<CompareFilterTag>)>
  {
    if AssociatedCount(fs, s) > 1 then Err(ValueError)
    else Ok((Unassociated(fs, s), FirstAssociated(fs, s)))
  }

  /** The end of `SearchTags.__init__`, after the first loop: the default sort,
      then the second loop. */
  function FinishQuery(scan: Result<Scan>): Result<Query>
  {
    match scan
    case Err(e) => Err(e)
    case Ok(acc) =>
      var sort := if acc.sort.Some? then acc.sort.value else DefaultSort;
      match SplitBound(acc.filters, sort)
      case Err(e) => Err(e)
      case Ok((rest, bound)) => Ok(Query(acc.general, sort, rest, bound))
  }

  /** The whole of `SearchTags.__init__`. */
  function ParseQuery(tags: seq<string>): Result<Query>
  {
    FinishQuery(ScanTokens(Scan([], None, []), tags))
  }

  lemma {:induction false} AssociatedSplit(fs: seq<CompareFilterTag>, s: SortTag, j: nat)
    requires j <= |fs|
    ensures AssociatedCount(fs, s) == AssociatedCount(fs[..j], s) + AssociatedCount(fs[j..], s)
    ensures Unassociated(fs, s) == Unassociated(fs[..j], s) + Unassociated(fs[j..], s)
  {
    if j > 0 {
      AssociatedSplit(fs[1..], s, j - 1);
      assert fs[1..][..j - 1] == fs[..j][1..];
      assert fs[1..][j - 1..] == fs[j..];
    }
  }

  lemma AssociatedOne(f: CompareFilterTag, s: SortTag)
    ensures AssociatedCount([f], s) == (if Associated(f, s) then 1 else 0)
    ensures Unassociated([f], s) == (if Associated(f, s) then [] else [f])
    ensures FirstAssociated([f], s) == (if Associated(f, s) then Some(f) else None)
  {
    assert [f][1..] == [];
  }

  lemma {:induction false} FirstAssociatedNone(fs: seq<CompareFilterTag>, s: SortTag)
    ensures AssociatedCount(fs, s) == 0 <==> FirstAssociated(fs, s).None?
    ensures FirstAssociated(fs, s).Some? ==> Associated(FirstAssociated(fs, s).value, s)
  {
    if fs != [] {
      FirstAssociatedNone(fs[1..], s);
    }
  }

  lemma ScanTokensUnfold(acc: Scan, tags: seq<string>, i: nat)
    requires i < |tags|
    ensures ScanTokens(acc, tags[i..]) ==
      (match ScanStep(acc, tags[i]) case Err(e) => Err(e) case Ok(next) => ScanTokens(next, tags[i + 1..]))
  {
    assert tags[i..][0] == tags[i];
    assert tags[i..][1..] == tags[i + 1..];
  }

  /** A filter or a plain tag is appended to its list. */
  lemma ScanStepAppends(acc: Scan, raw: string, c: TokenClass)
    requires ClassifyToken(raw) == Ok(c)
    requires c.CompareToken? || c.PlainToken?
    ensures c.CompareToken? ==> ScanStep(acc, raw) == Ok(acc.(filters := acc.filters + [c.filter]))
    ensures c.PlainToken? ==> ScanStep(acc, raw) == Ok(acc.(general := acc.general + [c.tag]))
  {
  }

  /** The first loop of `SearchTags.__init__`: each token is trimmed and
      lower-cased, empty ones are dropped, one with whitespace is refused, and the
      rest become the sort, a filter or a plain tag. */
  method ScanTags(tags: seq<string>) returns (r: Result<Scan>)
    ensures r == ScanTokens(Scan([], None, []), tags)
  {
    var general: seq<string> := [];
    var sort: Option<SortTag> := None;
    var filters: seq<CompareFilterTag> := [];
    var i := 0;
    while i < |tags|
      invariant 0 <= i <= |tags|
      invariant ScanTokens(Scan([], None, []), tags) == ScanTokens(Scan(general, sort, filters), tags[i..])
    {
      ghost var before := Scan(general, sort, filters);
      ghost var step := ScanStep(before, tags[i]);
      ScanTokensUnfold(before, tags, i);
      var tag := NormalizeToken(tags[i]);
      i := i + 1;
      if tag == [] {
        assert step == Ok(before);
        continue;
      }
      if HasSpace(tag) {
        assert step == Err(ValueError);
        return Err(ValueError);
      }
      var sortTag := SortFromTag(tag);
      if sortTag.Err? {
        assert step == Err(sortTag.error);
        return Err(sortTag.error);
      }
      if sortTag.value.Some? {
        if sort.Some? {
          assert step == Err(ValueError);
          return Err(ValueError);
        }
        sort := sortTag.value;
        assert step == Ok(Scan(general, sort, filters));
        continue;
      }
      var filter := FilterFromTag(tag);
      if filter.Err? {
        assert step == Err(filter.error);
        return Err(filter.error);
      }
      if filter.value.Some? {
        assert ClassifyToken(tags[i - 1]) == Ok(CompareToken(filter.value.value));
        ScanStepAppends(before, tags[i - 1], CompareToken(filter.value.value));
        filters := filters + [filter.value.value];
        continue;
      }
      assert ClassifyToken(tags[i - 1]) == Ok(PlainToken(tag));
      ScanStepAppends(before, tags[i - 1], PlainToken(tag));
      general := general + [tag];
    }
    r := Ok(Scan(general, sort, filters));
  }

  /** The second loop of `SearchTags.__init__`: walks the filters from the end and
      moves the one associated with the sort out of the list; a second one is a
      `ValueError`. */
  method ExtractBound(filters: seq<CompareFilterTag>, sortTag: SortTag)
    returns (r: Result<(seq<CompareFilterTag>, Option<CompareFilterTag>)>)
    ensures r == SplitBound(filters, sortTag)
  {
    var rest := filters;
    var bound: Option<CompareFilterTag> := None;
    var j := |filters|;
    while j > 0
      invariant 0 <= j <= |filters|
      invariant rest == filters[..j] + Unassociated(filters[j..], sortTag)
      invariant AssociatedCount(filters[j..], sortTag) <= 1
      invariant bound == FirstAssociated(filters[j..], sortTag)
    {
      var f := rest[j - 1];
      assert f == filters[j - 1];
      assert filters[j - 1..] == [f] + filters[j..];
      AssociatedSplit(filters[j - 1..], sortTag, 1);
      AssociatedOne(f, sortTag);
      assert filters[j - 1..][..1] == [f];
      assert filters[j - 1..][1..] == filters[j..];
      FirstAssociatedNone(filters[j..], sortTag);
      if f.compareType == sortTag.sortType && f.lessThan == sortTag.descending {
        if bound.Some? {
          AssociatedSplit(filters, sortTag, j - 1);
          return Err(ValueError);
        }
        bound := Some(f);
        rest := rest[..j - 1] + rest[j..];
        assert rest == filters[..j - 1] + Unassociated(filters[j - 1..], sortTag);
      } else {
        assert rest == filters[..j - 1] + Unassociated(filters[j - 1..], sortTag);
      }
      j := j - 1;
    }
    assert filters[0..] == filters;
    assert rest == Unassociated(filters, sortTag);
    r := Ok((rest, bound));
  }

  /** `SearchTags.__init__`: both loops; the sort defaults to id, descending. */
  method ClassifyTags(tags: seq<string>) returns (r: Result<Query>)
    ensures r == ParseQuery(tags)
  {
    var scan := ScanTags(tags);
    if scan.Err? {
      return Err(scan.error);
    }
    var sortTag := if scan.value.sort.Some? then scan.value.sort.value else DefaultSort;
    var split := ExtractBound(scan.value.filters, sortTag);
    if split.Err? {
      return Err(split.error);
    }
    r := Ok(Query(scan.value.general, sortTag, split.value.0, split.value.1));
  }

  // ---------------------------------------------------------------------------
  // What a parsed query looks like

  /** A token as the constructor keeps it: non-empty, free of whitespace and
      lower-case. */
  predicate CleanToken(t: string)
  {
    t != [] && !HasSpace(t) && Lower(t) == t
  }

  /** A token the constructor keeps as a plain tag. */
  predicate PlainTag(t: string)
  {
    CleanToken(t) && SortFromTag(t) == Ok(None) && FilterFromTag(t) == Ok(None)
  }

  /** A filter whose printed form the constructor reads back as that filter. */
  predicate FilterToken(f: CompareFilterTag)
  {
    WellFormedFilter(f) && CleanToken(FilterText(f)) && !StartsWith(FilterText(f), "sort:")
  }

  /** The queries the constructor can produce. */
  predicate WellFormedQuery(q: Query)
  {
    && IsSortType(q.sortTag.sortType)
    && (forall t :: t in q.generalTags ==> PlainTag(t))
    && (forall f :: f in q.compareFilterTags ==> FilterToken(f) && !Associated(f, q.sortTag))
    && (q.sortAssociated.Some? ==>
          FilterToken(q.sortAssociated.value) && Associated(q.sortAssociated.value, q.sortTag))
  }

  /** A token in the state the first loop leaves it in is returned unchanged by
      trimming and lower-casing. */
  lemma NormalizeClean(t: string)
    requires CleanToken(t)
    ensures NormalizeToken(t) == t
  {
    StripNoSpace(t);
  }

  /** What the first loop has gathered is always of the shape a query needs. */
  predicate ScanOk(acc: Scan)
  {
    && (forall t :: t in acc.general ==> PlainTag(t))
    && (forall f :: f in acc.filters ==> FilterToken(f))
    && (acc.sort.Some? ==> IsSortType(acc.sort.value.sortType))
  }

  lemma SortFromTagSupported(tag: string)
    requires SortFromTag(tag).Ok? && SortFromTag(tag).value.Some?
    ensures IsSortType(SortFromTag(tag).value.value.sortType)
  {
  }

  /** A token read as a sort names a supported field. */
  lemma ClassifiedSort(raw: string, s: SortTag)
    requires ClassifyToken(raw) == Ok(SortToken(s))
    ensures IsSortType(s.sortType)
  {
    SortFromTagSupported(NormalizeToken(raw));
  }

  /** The token kept as a plain tag is clean and is neither a sort nor a filter. */
  lemma ClassifiedPlain(raw: string, t: string)
    requires ClassifyToken(raw) == Ok(PlainToken(t))
    ensures PlainTag(t)
  {
    LowerIdempotent(Strip(raw));
  }

  /** Exactly the tokens starting with `sort:` are sort tokens or refused by the
      sort parser. */
  lemma SortFromTagNone(tag: string)
    ensures SortFromTag(tag) == Ok(None) <==> !StartsWith(tag, "sort:")
  {
  }

  lemma CleanFilterToken(tag: string, f: CompareFilterTag)
    requires CleanToken(tag) && !StartsWith(tag, "sort:")
    requires FilterFromTag(tag) == Ok(Some(f))
    ensures FilterToken(f)
  {
    assert tag[|tag| - 1] != '\n' by {
      assert !IsSpace(tag[|tag| - 1]);
    }
    FilterFromTagText(tag, f);
  }

  /** A token read as a filter is exactly that filter's printed form. */
  lemma ClassifiedCompare(raw: string, f: CompareFilterTag)
    requires ClassifyToken(raw) == Ok(CompareToken(f))
    ensures FilterToken(f)
  {
    var tag := NormalizeToken(raw);
    ClassifiedCompareParts(raw, f);
    LowerIdempotent(Strip(raw));
    SortFromTagNone(tag);
    CleanFilterToken(tag, f);
  }

  lemma ClassifiedCompareParts(raw: string, f: CompareFilterTag)
    requires ClassifyToken(raw) == Ok(CompareToken(f))
    ensures NormalizeToken(raw) != [] && !HasSpace(NormalizeToken(raw))
    ensures SortFromTag(NormalizeToken(raw)) == Ok(None)
    ensures FilterFromTag(NormalizeToken(raw)) == Ok(Some(f))
  {
  }

  lemma ScanStepOk(acc: Scan, raw: string)
    requires ScanOk(acc)
    requires ScanStep(acc, raw).Ok?
    ensures ScanOk(ScanStep(acc, raw).value)
  {
    match ClassifyToken(raw).value
    case Blank =>
    case SortToken(s) => ClassifiedSort(raw, s);
    case CompareToken(f) => ClassifiedCompare(raw, f); ScanStepAppends(acc, raw, CompareToken(f));
    case PlainToken(t) => ClassifiedPlain(raw, t); ScanStepAppends(acc, raw, PlainToken(t));
  }

  lemma {:induction false} ScanTokensOk(acc: Scan, tags: seq<string>)
    requires ScanOk(acc)
    requires ScanTokens(acc, tags).Ok?
    ensures ScanOk(ScanTokens(acc, tags).value)
    decreases |tags|
  {
    if tags != [] {
      ScanStepOk(acc, tags[0]);
      ScanTokensOk(ScanStep(acc, tags[0]).value, tags[1..]);
    }
  }

  lemma {:induction false} UnassociatedFrom(fs: seq<CompareFilterTag>, s: SortTag)
    ensures forall f :: f in Unassociated(fs, s) ==> f in fs && !Associated(f, s)
    ensures FirstAssociated(fs, s).Some? ==> FirstAssociated(fs, s).value in fs
  {
    if fs != [] {
      UnassociatedFrom(fs[1..], s);
    }
  }

  /** Every query the constructor builds is well formed: the filters left in the
      list are not associated with the sort, and the bound is. */
  lemma ParseQueryWellFormed(tags: seq<string>)
    requires ParseQuery(tags).Ok?
    ensures WellFormedQuery(ParseQuery(tags).value)
  {
    ScanTokensOk(Scan([], None, []), tags);
    var acc := ScanTokens(Scan([], None, []), tags).value;
    var sort := if acc.sort.Some? then acc.sort.value else DefaultSort;
    UnassociatedFrom(acc.filters, sort);
    FirstAssociatedNone(acc.filters, sort);
  }

  // ---------------------------------------------------------------------------
  // Properties of the constructor

  lemma {:induction false} ScanTokensAppend(acc: Scan, a: seq<string>, b: seq<string>)
    ensures ScanTokens(acc, a + b) ==
      (match ScanTokens(acc, a) case Err(e) => Err(e) case Ok(mid) => ScanTokens(mid, b))
    decreases |a|
  {
    if a == [] {
      assert a + b == b;
    } else {
      assert (a + b)[0] == a[0];
      assert (a + b)[1..] == a[1..] + b;
      match ScanStep(acc, a[0])
      case Err(e) =>
      case Ok(next) => ScanTokensAppend(next, a[1..], b);
    }
  }

  lemma ScanOne(acc: Scan, raw: string)
    ensures ScanTokens(acc, [raw]) == ScanStep(acc, raw)
  {
    assert [raw][1..] == [];
  }

  /** A token that trims to nothing is skipped. */
  lemma DropsEmptyToken(pre: seq<string>, t: string, post: seq<string>)
    requires NormalizeToken(t) == []
    ensures ParseQuery(pre + [t] + post) == ParseQuery(pre + post)
  {
    var init := Scan([], None, []);
    ScanTokensAppend(init, pre + [t], post);
    ScanTokensAppend(init, pre, [t]);
    ScanTokensAppend(init, pre, post);
    if ScanTokens(init, pre).Ok? {
      var mid := ScanTokens(init, pre).value;
      ScanOne(mid, t);
      assert ScanStep(mid, t) == Ok(mid);
      assert ScanTokens(init, pre + [t]) == Ok(mid);
    }
    assert ScanTokens(init, pre + [t] + post) == ScanTokens(init, pre + post);
  }

  /** A token with whitespace inside it is refused, unless an earlier token
      was already refused. */
  lemma RejectsInnerSpace(pre: seq<string>, t: string, post: seq<string>)
    requires ScanTokens(Scan([], None, []), pre).Ok?
    requires NormalizeToken(t) != [] && HasSpace(NormalizeToken(t))
    ensures ParseQuery(pre + [t] + post) == Err(ValueError)
  {
    var init := Scan([], None, []);
    ScanTokensAppend(init, pre + [t], post);
    ScanTokensAppend(init, pre, [t]);
    var mid := ScanTokens(init, pre).value;
    ScanOne(mid, t);
    assert ScanStep(mid, t) == Err(ValueError);
  }

  /** A second sort token is refused. */
  lemma RejectsSecondSort(pre: seq<string>, t: string, post: seq<string>)
    requires ScanTokens(Scan([], None, []), pre).Ok?
    requires ScanTokens(Scan([], None, []), pre).value.sort.Some?
    requires CleanToken(t) && SortFromTag(t).Ok? && SortFromTag(t).value.Some?
    ensures ParseQuery(pre + [t] + post) == Err(ValueError)
  {
    var init := Scan([], None, []);
    var mid := ScanTokens(init, pre).value;
    SecondSortStep(mid, t);
    ScanOne(mid, t);
    ScanTokensAppend(init, pre, [t]);
    assert ScanTokens(init, pre + [t]) == Err(ValueError);
    ScanTokensAppend(init, pre + [t], post);
  }

  lemma SecondSortStep(acc: Scan, t: string)
    requires acc.sort.Some?
    requires CleanToken(t) && SortFromTag(t).Ok? && SortFromTag(t).value.Some?
    ensures ScanStep(acc, t) == Err(ValueError)
  {
    ClassifySortToken(t);
  }

  lemma ClassifySortToken(t: string)
    requires CleanToken(t) && SortFromTag(t).Ok? && SortFromTag(t).value.Some?
    ensures ClassifyToken(t) == Ok(SortToken(SortFromTag(t).value.value))
  {
    NormalizeClean(t);
  }

  lemma ClassifyPlain(t: string)
    requires PlainTag(t)
    ensures ClassifyToken(t) == Ok(PlainToken(t))
  {
    NormalizeClean(t);
  }

  lemma AppendFirst<T>(a: seq<T>, s: seq<T>)
    requires s != []
    ensures a + [s[0]] + s[1..] == a + s
  {
    assert [s[0]] + s[1..] == s;
  }

  lemma {:induction false} ScanPlainTags(acc: Scan, ts: seq<string>)
    requires forall k :: 0 <= k < |ts| ==> PlainTag(ts[k])
    ensures ScanTokens(acc, ts) == Ok(acc.(general := acc.general + ts))
    decreases |ts|
  {
    if ts == [] {
      assert acc.general + ts == acc.general;
    } else {
      var next := acc.(general := acc.general + [ts[0]]);
      ClassifyPlain(ts[0]);
      ScanStepAppends(acc, ts[0], PlainToken(ts[0]));
      ScanTokensUnfold(acc, ts, 0);
      assert ts[0..] == ts;
      forall k | 0 <= k < |ts[1..]|
        ensures PlainTag(ts[1..][k])
      {
        assert ts[1..][k] == ts[k + 1];
      }
      ScanPlainTags(next, ts[1..]);
      AppendFirst(acc.general, ts);
    }
  }

  /** Plain tags keep their order, and with no sort token the sort is id, descending. */
  lemma PlainTagsDefaultSort(ts: seq<string>)
    requires forall k :: 0 <= k < |ts| ==> PlainTag(ts[k])
    ensures ParseQuery(ts) == Ok(Query(ts, DefaultSort, [], None))
  {
    ScanPlainTags(Scan([], None, []), ts);
    assert [] + ts == ts;
    assert SplitBound([], DefaultSort) == Ok(([], None));
  }

  // ---------------------------------------------------------------------------
  // The search string

  /** `str` of each filter, in order. */
  function FilterTexts(fs: seq<CompareFilterTag>): (r: seq<string>)
    ensures |r| == |fs|
    ensures forall k :: 0 <= k < |fs| ==> r[k] == FilterText(fs[k])
  {
    if fs == [] then [] else [FilterText(fs[0])] + FilterTexts(fs[1..])
  }

  /** The tokens `to_search_string` renders: the sort, the filters in order, the
      bound if there is one, then the plain tags. */
  function TokenTexts(q: Query): seq<string>
  {
    [SortTagText(q.sortTag)] + FilterTexts(q.compareFilterTags)
    + (if q.sortAssociated.Some? then [FilterText(q.sortAssociated.value)] else [])
    + q.generalTags
  }

  /** `urllib.parse.quote(t, safe="")` of each token. */
  function QuoteAll(ts: seq<string>): (r: seq<string>)
    ensures |r| == |ts|
    ensures forall k :: 0 <= k < |ts| ==> r[k] == Percent.Quote(ts[k])
  {
    if ts == [] then [] else [Percent.Quote(ts[0])] + QuoteAll(ts[1..])
  }

  /** `SearchTags.to_search_string`. */
  function SearchString(q: Query): string
  {
    Join(QuoteAll(TokenTexts(q)), "+")
  }

  /** Percent-decoding of each piece; `None` if one is malformed. */
  function UnquoteAll(ts: seq<string>): Option<seq<string>>
  {
    if ts == [] then Some([])
    else match Percent.Unquote(ts[0])
      case None => None
      case Some(t) =>
        match UnquoteAll(ts[1..])
        case None => None
        case Some(rest) => Some([t] + rest)
  }

  /** How the site reads a search string: split on `+`, then decode each piece. */
  function DecodeSearchString(s: string): Option<seq<string>>
  {
    UnquoteAll(Split(s, '+'))
  }

  lemma {:induction false} UnquoteQuoteAll(ts: seq<string>)
    ensures UnquoteAll(QuoteAll(ts)) == Some(ts)
  {
    if ts != [] {
      Percent.QuoteRoundTrip(ts[0]);
      UnquoteQuoteAll(ts[1..]);
      assert QuoteAll(ts)[1..] == QuoteAll(ts[1..]);
      assert [ts[0]] + ts[1..] == ts;
    }
  }

  /** Splitting the search string on `+` and decoding each piece gives back the
      rendered tokens: quoting leaves no `+` inside a token. */
  lemma SearchStringDecodes(q: Query)
    ensures DecodeSearchString(SearchString(q)) == Some(TokenTexts(q))
  {
    var ts := TokenTexts(q);
    var parts := QuoteAll(ts);
    forall k, i | 0 <= k < |parts| && 0 <= i < |parts[k]|
      ensures parts[k][i] != '+'
    {
      Percent.QuoteHasNoPlus(ts[k]);
    }
    SplitJoin(parts, '+');
    UnquoteQuoteAll(ts);
  }

  // ---------------------------------------------------------------------------
  // Reading a rendered query back

  /** A supported sort prints as a clean token that starts with `sort:`. */
  lemma SortTextClean(s: SortTag)
    requires IsSortType(s.sortType)
    ensures CleanToken(SortTagText(s))
  {
    var t := SortTagText(s);
    var dir := if s.descending then "desc" else "asc";
    assert t == "sort:" + s.sortType + ":" + dir;
    PlainAsciiClean(t);
  }

  lemma ClassifySort(s: SortTag)
    requires IsSortType(s.sortType)
    ensures ClassifyToken(SortTagText(s)) == Ok(SortToken(s))
  {
    SortTextClean(s);
    NormalizeClean(SortTagText(s));
    SortTagRoundTrip(s);
  }

  lemma ClassifyFilter(f: CompareFilterTag)
    requires FilterToken(f)
    ensures ClassifyToken(FilterText(f)) == Ok(CompareToken(f))
  {
    NormalizeClean(FilterText(f));
    SortFromTagNone(FilterText(f));
    FilterRoundTrip(f);
  }

  lemma {:induction false} ScanFilters(acc: Scan, fs: seq<CompareFilterTag>)
    requires forall k :: 0 <= k < |fs| ==> FilterToken(fs[k])
    ensures ScanTokens(acc, FilterTexts(fs)) == Ok(acc.(filters := acc.filters + fs))
    decreases |fs|
  {
    var ts := FilterTexts(fs);
    if fs == [] {
      assert acc.filters + fs == acc.filters;
    } else {
      var next := acc.(filters := acc.filters + [fs[0]]);
      ClassifyFilter(fs[0]);
      ScanStepAppends(acc, ts[0], CompareToken(fs[0]));
      ScanTokensUnfold(acc, ts, 0);
      assert ts[0..] == ts;
      assert ts[1..] == FilterTexts(fs[1..]);
      forall k | 0 <= k < |fs[1..]|
        ensures FilterToken(fs[1..][k])
      {
        assert fs[1..][k] == fs[k + 1];
      }
      ScanFilters(next, fs[1..]);
      AppendFirst(acc.filters, fs);
    }
  }

  /** No filter of `fs` is associated with the sort. */
  lemma {:induction false} NoneAssociated(fs: seq<CompareFilterTag>, s: SortTag, rest: seq<CompareFilterTag>)
    requires forall k :: 0 <= k < |fs| ==> !Associated(fs[k], s)
    ensures AssociatedCount(fs + rest, s) == AssociatedCount(rest, s)
    ensures Unassociated(fs + rest, s) == fs + Unassociated(rest, s)
    ensures FirstAssociated(fs + rest, s) == FirstAssociated(rest, s)
  {
    if fs == [] {
      assert fs + rest == rest;
    } else {
      assert (fs + rest)[0] == fs[0];
      assert (fs + rest)[1..] == fs[1..] + rest;
      forall k | 0 <= k < |fs[1..]|
        ensures !Associated(fs[1..][k], s)
      {
        assert fs[1..][k] == fs[k + 1];
      }
      NoneAssociated(fs[1..], s, rest);
      AppendFirst([], fs + Unassociated(rest, s));
      assert [fs[0]] + (fs[1..] + Unassociated(rest, s)) == fs + Unassociated(rest, s);
    }
  }

  /** The bound, as a list of at most one filter. */
  function BoundList(q: Query): seq<CompareFilterTag>
  {
    if q.sortAssociated.Some? then [q.sortAssociated.value] else []
  }

  lemma TokenTextsShape(q: Query)
    ensures TokenTexts(q) ==
      [SortTagText(q.sortTag)] + (FilterTexts(q.compareFilterTags + BoundList(q)) + q.generalTags)
  {
    var fs := q.compareFilterTags;
    var b := BoundList(q);
    assert FilterTexts(fs + b) == FilterTexts(fs) + FilterTexts(b);
  }

  lemma EmptyAppend<T>(s: seq<T>)
    ensures [] + s == s
  {
  }

  /** The first loop over a sort token, filter tokens and plain tags, in that order. */
  lemma ScanSortFiltersTags(s: SortTag, fb: seq<CompareFilterTag>, general: seq<string>)
    requires IsSortType(s.sortType)
    requires forall k :: 0 <= k < |fb| ==> FilterToken(fb[k])
    requires forall k :: 0 <= k < |general| ==> PlainTag(general[k])
    ensures ScanTokens(Scan([], None, []), [SortTagText(s)] + (FilterTexts(fb) + general)) ==
      Ok(Scan(general, Some(s), fb))
  {
    var init := Scan([], None, []);
    var afterSort := Scan([], Some(s), []);
    var afterFilters := Scan([], Some(s), fb);
    ClassifySort(s);
    assert ScanStep(init, SortTagText(s)) == Ok(afterSort);
    ScanOne(init, SortTagText(s));
    ScanTokensAppend(init, [SortTagText(s)], FilterTexts(fb) + general);
    assert ScanTokens(init, [SortTagText(s)] + (FilterTexts(fb) + general))
      == ScanTokens(afterSort, FilterTexts(fb) + general);
    ScanFilters(afterSort, fb);
    EmptyAppend(fb);
    assert ScanTokens(afterSort, FilterTexts(fb)) == Ok(afterFilters);
    ScanTokensAppend(afterSort, FilterTexts(fb), general);
    assert ScanTokens(afterSort, FilterTexts(fb) + general) == ScanTokens(afterFilters, general);
    ScanPlainTags(afterFilters, general);
    EmptyAppend(general);
    assert ScanTokens(afterFilters, general) == Ok(Scan(general, Some(s), fb));
  }

  /** The first loop over the rendered tokens of a well-formed query. */
  lemma ScanRendered(q: Query)
    requires WellFormedQuery(q)
    ensures ScanTokens(Scan([], None, []), TokenTexts(q)) ==
      Ok(Scan(q.generalTags, Some(q.sortTag), q.compareFilterTags + BoundList(q)))
  {
    var fb := q.compareFilterTags + BoundList(q);
    TokenTextsShape(q);
    forall k | 0 <= k < |fb|
      ensures FilterToken(fb[k])
    {
      if k < |q.compareFilterTags| {
        assert fb[k] in q.compareFilterTags;
      }
    }
    forall k | 0 <= k < |q.generalTags|
      ensures PlainTag(q.generalTags[k])
    {
      assert q.generalTags[k] in q.generalTags;
    }
    ScanSortFiltersTags(q.sortTag, fb, q.generalTags);
  }

  /** The second loop over the filters of a rendered well-formed query finds the bound. */
  lemma SplitRendered(q: Query)
    requires WellFormedQuery(q)
    ensures SplitBound(q.compareFilterTags + BoundList(q), q.sortTag) ==
      Ok((q.compareFilterTags, q.sortAssociated))
  {
    var fs := q.compareFilterTags;
    forall k | 0 <= k < |fs|
      ensures !Associated(fs[k], q.sortTag)
    {
      assert fs[k] in fs;
    }
    NoneAssociated(fs, q.sortTag, BoundList(q));
    assert fs + [] == fs;
    if q.sortAssociated.Some? {
      AssociatedOne(q.sortAssociated.value, q.sortTag);
    }
  }

  /** Reading back the tokens of a well-formed query gives the same query: the
      bound is printed after the other filters, and it is the only filter the
      constructor moves out of the list. */
  lemma RenderedQueryParses(q: Query)
    requires WellFormedQuery(q)
    ensures ParseQuery(TokenTexts(q)) == Ok(q)
  {
    ScanRendered(q);
    SplitRendered(q);
  }

  // ---------------------------------------------------------------------------
  // Moving the bound past the site's paging depth

  /** The bound `update_bound` installs: the sort's field, in the sort's
      direction, inclusive, at the last id or score reached. */
  function BoundFor(sort: SortTag, lastId: Option<string>, lastScore: Option<int>): (r: Result<CompareFilterTag>)
    ensures r.Ok? ==> Associated(r.value, sort) && r.value.withEqual
    ensures r.Ok? <==> (sort.sortType == "id" && lastId.Some?) || (sort.sortType == "score" && lastScore.Some?)
    ensures r.Err? ==> r.error == (if IsSortType(sort.sortType) then ValueError else NotImplementedError)
    ensures r.Ok? && sort.sortType == "id" ==> r.value.target == lastId.value
    ensures r.Ok? && sort.sortType == "score" ==> ParseInt(r.value.target) == lastScore
  {
    if sort.sortType == "id" then
      if lastId.None? then Err(ValueError)
      else Ok(CompareFilterTag("id", sort.descending, true, lastId.value))
    else if sort.sortType == "score" then
      if lastScore.None? then Err(ValueError)
      else
        ParseIntToString(lastScore.value);
        Ok(CompareFilterTag("score", sort.descending, true, IntToString(lastScore.value)))
    else Err(NotImplementedError)
  }

  /** `SearchTags.update_bound` on the query's value: only the bound changes. */
  function UpdatedQuery(q: Query, lastId: Option<string>, lastScore: Option<int>): (r: Result<Query>)
    ensures r.Ok? <==> BoundFor(q.sortTag, lastId, lastScore).Ok?
    ensures r.Ok? ==> (r.value.sortAssociated.Some? && r.value == q.(sortAssociated := r.value.sortAssociated))
  {
    match BoundFor(q.sortTag, lastId, lastScore)
    case Err(e) => Err(e)
    case Ok(b) => Ok(q.(sortAssociated := Some(b)))
  }

  /** Updating the bound twice from the same last-reached values changes nothing
      the second time. */
  lemma UpdateBoundIdempotent(q: Query, lastId: Option<string>, lastScore: Option<int>)
    requires UpdatedQuery(q, lastId, lastScore).Ok?
    ensures UpdatedQuery(UpdatedQuery(q, lastId, lastScore).value, lastId, lastScore)
      == UpdatedQuery(q, lastId, lastScore)
  {
  }

  /** The printed form of an inclusive bound up to its value. */
  function BoundHead(field: string, lessThan: bool): string
  {
    field + ":" + ((if lessThan then "<" else ">") + "=")
  }

  lemma BoundHeadClean(field: string, lessThan: bool)
    requires IsSortType(field)
    ensures !HasSpace(BoundHead(field, lessThan)) && Lower(BoundHead(field, lessThan)) == BoundHead(field, lessThan)
    ensures |BoundHead(field, lessThan)| >= 2 && BoundHead(field, lessThan)[1] != 'o'
  {
    var h := BoundHead(field, lessThan);
    if field == "id" {
      assert h == "id:" + (if lessThan then "<=" else ">=");
    } else {
      assert h == "score:" + (if lessThan then "<=" else ">=");
    }
    PlainAsciiClean(h);
  }

  lemma NotSortPrefix(t: string)
    requires |t| >= 2 && t[1] != 'o'
    ensures !StartsWith(t, "sort:")
  {
    if |t| >= 5 {
      assert t[..5][1] == t[1];
    }
  }

  lemma SortFieldLower(field: string)
    requires IsSortType(field)
    ensures field != [] && AllLowerAscii(field)
  {
    if field == "id" {
      assert field == ['i', 'd'];
    } else {
      assert field == ['s', 'c', 'o', 'r', 'e'];
    }
  }

  lemma TargetNoAsciiSpace(target: string)
    requires !HasSpace(target)
    ensures NoAsciiSpace(target)
  {
    forall i | 0 <= i < |target| ensures !IsAsciiSpace(target[i]) {
      assert !IsSpace(target[i]);
    }
  }

  /** An inclusive bound on a supported field at a clean value prints as a clean
      filter token. */
  lemma BoundFilterToken(field: string, lessThan: bool, target: string)
    requires IsSortType(field) && CleanToken(target)
    ensures FilterToken(CompareFilterTag(field, lessThan, true, target))
  {
    var b := CompareFilterTag(field, lessThan, true, target);
    assert FilterText(b) == BoundHead(field, lessThan) + target;
    BoundTextClean(field, lessThan, target);
    TargetNoAsciiSpace(target);
    SortFieldLower(field);
  }

  lemma BoundTextClean(field: string, lessThan: bool, target: string)
    requires IsSortType(field) && CleanToken(target)
    ensures CleanToken(BoundHead(field, lessThan) + target)
    ensures !StartsWith(BoundHead(field, lessThan) + target, "sort:")
  {
    var head := BoundHead(field, lessThan);
    BoundHeadClean(field, lessThan);
    CleanConcat(head, target);
    assert (head + target)[1] == head[1];
    NotSortPrefix(head + target);
  }

  /** The installed bound prints as a clean filter token. */
  lemma BoundToken(sort: SortTag, lastId: Option<string>, lastScore: Option<int>, b: CompareFilterTag)
    requires lastId.Some? ==> CleanToken(lastId.value)
    requires BoundFor(sort, lastId, lastScore) == Ok(b)
    ensures FilterToken(b)
  {
    BoundFilterToken(b.compareType, b.lessThan, b.target);
  }

  /** A well-formed query stays well formed when the bound is moved to a clean
      last-reached id or to a score. */
  lemma UpdateBoundWellFormed(q: Query, lastId: Option<string>, lastScore: Option<int>)
    requires WellFormedQuery(q)
    requires lastId.Some? ==> CleanToken(lastId.value)
    requires UpdatedQuery(q, lastId, lastScore).Ok?
    ensures WellFormedQuery(UpdatedQuery(q, lastId, lastScore).value)
  {
    BoundToken(q.sortTag, lastId, lastScore, BoundFor(q.sortTag, lastId, lastScore).value);
  }

  // ---------------------------------------------------------------------------
  // The `SearchTags` object

  /** A `SearchTags` object: the query fields its constructor fills and
      `update_bound` overwrites. */
  class SearchTags {
    var generalTags: seq<string>
    var sortTag: SortTag
    var compareFilterTags: seq<CompareFilterTag>
    var sortAssociated: Option<CompareFilterTag>

    /** The query the object holds. */
    function Value(): Query
      reads this
    {
      Query(generalTags, sortTag, compareFilterTags, sortAssociated)
    }

    constructor (q: Query)
      ensures Value() == q
    {
      generalTags := q.generalTags;
      sortTag := q.sortTag;
      compareFilterTags := q.compareFilterTags;
      sortAssociated := q.sortAssociated;
    }

    /** `SearchTags(tags)`: either the error the constructor raises, or a new
        object holding the parsed query. */
    static method FromTags(tags: seq<string>) returns (r: Result<SearchTags>)
      ensures r.Err? <==> ParseQuery(tags).Err?
      ensures r.Err? ==> r.error == ParseQuery(tags).error
      ensures r.Ok? ==> fresh(r.value) && r.value.Value() == ParseQuery(tags).value
    {
      var q := ClassifyTags(tags);
      if q.Err? {
        return Err(q.error);
      }
      var st := new SearchTags(q.value);
      r := Ok(st);
    }

    /** `update_bound`: on success only the bound changes; on an error the
        object is left as it was. */
    method UpdateBound(lastId: Option<string>, lastScore: Option<int>) returns (err: Option<Error>)
      modifies this
      ensures UpdatedQuery(old(Value()), lastId, lastScore).Ok? ==>
        err.None? && Value() == UpdatedQuery(old(Value()), lastId, lastScore).value
      ensures UpdatedQuery(old(Value()), lastId, lastScore).Err? ==>
        err == Some(UpdatedQuery(old(Value()), lastId, lastScore).error) && Value() == old(Value())
    {
      match sortTag.sortType {
        case "id" =>
          if lastId.None? {
            return Some(ValueError);
          }
          sortAssociated := Some(CompareFilterTag("id", sortTag.descending, true, lastId.value));
        case "score" =>
          if lastScore.None? {
            return Some(ValueError);
          }
          sortAssociated := Some(CompareFilterTag("score", sortTag.descending, true, IntToString(lastScore.value)));
        case _ =>
          return Some(NotImplementedError);
      }
      err := None;
    }

    /** `to_search_string`: the rendered tokens, each percent-encoded, joined by `+`. */
    method ToSearchString() returns (s: string)
      ensures s == SearchString(Value())
    {
      var texts := [SortTagText(sortTag)];
      for k := 0 to |compareFilterTags|
        invariant texts == [SortTagText(sortTag)] + FilterTexts(compareFilterTags[..k])
      {
        FilterTextsPrefix(compareFilterTags, k);
        texts := texts + [FilterText(compareFilterTags[k])];
      }
      PrefixAll(compareFilterTags);
      if sortAssociated.Some? {
        texts := texts + [FilterText(sortAssociated.value)];
      }
      texts := texts + generalTags;
      assert texts == TokenTexts(Value());
      s := JoinQuoted(texts);
    }
  }

  /** The quoted tokens joined by `+`, one token at a time. */
  method JoinQuoted(texts: seq<string>) returns (s: string)
    requires texts != []
    ensures s == Join(QuoteAll(texts), "+")
  {
    s := Percent.Quote(texts[0]);
    assert [texts[0]] == texts[..1];
    for k := 1 to |texts|
      invariant s == Join(QuoteAll(texts[..k]), "+")
    {
      JoinAppend(QuoteAll(texts[..k]), Percent.Quote(texts[k]), "+");
      QuoteAllPrefix(texts, k);
      s := s + "+" + Percent.Quote(texts[k]);
    }
    PrefixAll(texts);
  }

  lemma PrefixAll<T>(s: seq<T>)
    ensures s[..|s|] == s
  {
  }

  lemma FilterTextsPrefix(fs: seq<CompareFilterTag>, k: nat)
    requires k < |fs|
    ensures FilterTexts(fs[..k + 1]) == FilterTexts(fs[..k]) + [FilterText(fs[k])]
  {
  }

  lemma QuoteAllPrefix(ts: seq<string>, k: nat)
    requires k < |ts|
    ensures QuoteAll(ts[..k + 1]) == QuoteAll(ts[..k]) + [Percent.Quote(ts[k])]
  {
  }
}
