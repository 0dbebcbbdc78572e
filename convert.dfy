/** The converter from JSON metadata to caption files: for every image of the
    dataset, the tags `get_tags` selects are shuffled, turned into a caption
    and written beside the metadata as a `.txt` file, and the metadata file is
    removed unless asked otherwise. */
module Convert {
  import opened Wrappers
  import opened Utils
  import opened TagText
  import Paths

  /** The command line: `--no-delete`, the mutually exclusive `--exclude`
      and `--include` group-name lists, and `--no-rating-prefix`. */
  datatype ConvertArgs = ConvertArgs(
    noDelete: bool,
    excluded: Option<seq<string>>,
    included: Option<seq<string>>,
    noRatingPrefix: bool)

  /** The mutually exclusive group of the parser: `--exclude` and
      `--include` cannot both be given. */
  function CheckArgs(a: ConvertArgs): (r: Result<ConvertArgs>)
    ensures r.Ok? <==> !(a.excluded.Some? && a.included.Some?)
    ensures r.Ok? ==> r.value == a
    ensures r.Err? ==> r.error == ArgumentError
  {
    if a.excluded.Some? && a.included.Some? then Err(ArgumentError) else Ok(a)
  }

  /** A list argument as a `get_tags` selector. */
  function AsSelector(names: Option<seq<string>>): (r: Option<Selector>)
    ensures r.Some? <==> names.Some?
    ensures r.Some? ==> r.value == NameList(names.value)
  {
    match names
    case None => None
    case Some(ns) => Some(NameList(ns))
  }

  /** The tags `get_tags` gives for a metadata record under these arguments. */
  function Tags(a: ConvertArgs, m: Record): Result<seq<string>>
  {
    GetTagsSpec(m, AsSelector(a.excluded), AsSelector(a.included), a.noRatingPrefix)
  }

  // ---------------------------------------------------------------------------
  // random.shuffle

  /** Exchanges the elements at `i` and `j`. */
  function Swap(x: seq<string>, i: nat, j: nat): (r: seq<string>)
    requires i < |x| && j < |x|
    ensures multiset(r) == multiset(x)
  {
    var r := x[i := x[j]][j := x[i]];
    assert multiset(x[i := x[j]]) == multiset(x) - multiset{x[i]} + multiset{x[j]};
    r
  }

  /** The steps of `random.shuffle` from position `i` down to 1: position
      `i` is exchanged with position `randbelow(i + 1)`, the `step`-th draw
      of the generator being `rand(step)`. */
  function ShuffleDown(x: seq<string>, i: nat, rand: nat -> nat, step: nat): (r: seq<string>)
    requires i < |x|
    ensures multiset(r) == multiset(x)
    decreases i
  {
    if i == 0 then x else ShuffleDown(Swap(x, i, rand(step) % (i + 1)), i - 1, rand, step + 1)
  }

  /** `random.shuffle(x)` for the draws `rand`: the seeded generator is not
      modelled, any draws give some permutation. */
  function Shuffle(x: seq<string>, rand: nat -> nat): (r: seq<string>)
    ensures multiset(r) == multiset(x)
  {
    if |x| <= 1 then x else ShuffleDown(x, |x| - 1, rand, 0)
  }

  // ---------------------------------------------------------------------------
  // Converting

  /** What the converter does to the file system. */
  datatype Action = Write(path: string, text: string) | Remove(path: string)

  /** `os.path.splitext(metadata_path)[0] + ".txt"`. */
  function TxtPath(metadataPath: string): string
  {
    Paths.Splitext(metadataPath).0 + ".txt"
  }

  /** The caption file of `<dir>/<stem>.json` is `<dir>/<stem>.txt`, for a
      stem with some character other than a dot. */
  lemma TxtBesideJson(dir: string, stem: string)
    requires stem != [] && '/' !in stem
    requires exists k :: 0 <= k < |stem| && stem[k] != '.'
    ensures TxtPath(Paths.JoinPath(dir, stem + ".json")) == Paths.JoinPath(dir, stem + ".txt")
  {
    var file := stem + ".json";
    assert '/' !in file;
    Paths.SplitextJoin(dir, file);
    Paths.RFindLast(stem, '/');
    assert ".json"[1..] == "json";
    Paths.SplitextWithExt(stem, ".json");
    assert stem[0] != '/';
    Paths.JoinExtend(dir, stem, ".txt");
  }

  /** One converted metadata file with tags `tags`: the caption of the
      shuffled tags is written to the `.txt` path, then the metadata file is
      removed unless `--no-delete` is given. */
  function FileActions(a: ConvertArgs, metadataPath: string, tags: seq<string>, rand: nat -> nat): seq<Action>
  {
    [Write(TxtPath(metadataPath), Caption(Shuffle(tags, rand)))] + (if a.noDelete then [] else [Remove(metadataPath)])
  }

  /** What one file's conversion does: it writes the caption file first, a
      caption made of the selected tags, each as often as `get_tags` gave
      it, with underscores turned to spaces; and it removes the metadata
      file after that exactly when `--no-delete` is absent. */
  lemma FileActionsShape(a: ConvertArgs, metadataPath: string, tags: seq<string>, rand: nat -> nat)
    ensures var acts := FileActions(a, metadataPath, tags, rand);
      && |acts| == (if a.noDelete then 1 else 2)
      && acts[0].Write? && acts[0].path == TxtPath(metadataPath)
      && NoUnderscore(acts[0].text)
      && (exists parts :: acts[0].text == Text.Join(parts, ", ") && multiset(parts) == multiset(Spaced(tags)))
      && (!a.noDelete ==> acts[1] == Remove(metadataPath))
  {
    CaptionNoUnderscore(Shuffle(tags, rand));
    SpacedPermutation(tags, Shuffle(tags, rand));
  }

  /** Each metadata path with what `get_tags` gives for its record. */
  function Tagged(a: ConvertArgs, files: seq<(string, Record)>): (r: seq<(string, Result<seq<string>>)>)
    ensures |r| == |files| && forall k :: 0 <= k < |files| ==> r[k] == (files[k].0, Tags(a, files[k].1))
  {
    seq(|files|, k requires 0 <= k < |files| => (files[k].0, Tags(a, files[k].1)))
  }

  /** The loop over the files, from the first, given each file's `get_tags`
      result: the actions of the files converted so far, and the error that
      stopped it, if any. */
  function Run(a: ConvertArgs, tagged: seq<(string, Result<seq<string>>)>, rands: seq<nat -> nat>): (seq<Action>, Option<Error>)
    requires |rands| == |tagged|
  {
    if tagged == [] then ([], None)
    else
      var n := |tagged| - 1;
      var (acts, err) := Run(a, tagged[..n], rands[..n]);
      if err.Some? then (acts, err)
      else
        match tagged[n].1
        case Err(e) => (acts, Some(e))
        case Ok(tags) => (acts + FileActions(a, tagged[n].0, tags, rands[n]), None)
  }

  /** The run ends without error exactly when `get_tags` succeeds on every
      file, and otherwise with the error of the first file where it fails. */
  lemma {:induction false} RunErrors(a: ConvertArgs, tagged: seq<(string, Result<seq<string>>)>, rands: seq<nat -> nat>)
    requires |rands| == |tagged|
    ensures var err := Run(a, tagged, rands).1;
      && (err.None? <==> forall k :: 0 <= k < |tagged| ==> tagged[k].1.Ok?)
      && (err.Some? ==>
            exists k :: 0 <= k < |tagged| && tagged[k].1 == Err(err.value) &&
              forall j :: 0 <= j < k ==> tagged[j].1.Ok?)
  {
    if tagged != [] {
      var n := |tagged| - 1;
      RunErrors(a, tagged[..n], rands[..n]);
      assert forall k :: 0 <= k < n ==> tagged[..n][k] == tagged[k];
    }
  }

  /** Once the run has stopped, later files change nothing. */
  lemma {:induction false} RunStops(a: ConvertArgs, tagged: seq<(string, Result<seq<string>>)>, rands: seq<nat -> nat>, i: nat)
    requires |rands| == |tagged| && i <= |tagged|
    requires Run(a, tagged[..i], rands[..i]).1.Some?
    ensures Run(a, tagged, rands) == Run(a, tagged[..i], rands[..i])
    decreases |tagged| - i
  {
    if i < |tagged| {
      var j := i + 1;
      assert tagged[..j][..i] == tagged[..i] && rands[..j][..i] == rands[..i];
      RunStops(a, tagged, rands, j);
    } else {
      assert tagged[..i] == tagged && rands[..i] == rands;
    }
  }

  /** The body of the loop for one metadata file: `get_tags`, the shuffle,
      the caption file, and the removal unless `--no-delete` is given. */
  method ConvertFile(a: ConvertArgs, metadataPath: string, m: Record, rand: nat -> nat) returns (r: Result<seq<Action>>)
    ensures Tags(a, m).Err? ==> r == Err(Tags(a, m).error)
    ensures Tags(a, m).Ok? ==> r == Ok(FileActions(a, metadataPath, Tags(a, m).value, rand))
  {
    var tags := GetTags(m, AsSelector(a.excluded), AsSelector(a.included), a.noRatingPrefix);
    if tags.Err? {
      return Err(tags.error);
    }
    var shuffled := Shuffle(tags.value, rand);
    var text := Caption(shuffled);
    var actions := [Write(TxtPath(metadataPath), text)];
    if !a.noDelete {
      actions := actions + [Remove(metadataPath)];
    } else {
      assert actions + [] == actions;
    }
    return Ok(actions);
  }

  /** `main`: the argument check, then the loop over the metadata files in
      dictionary order. The result is what was done to the file system and
      the error that ended the run early, if any. */
  method Convert(a: ConvertArgs, files: seq<(string, Record)>, rands: seq<nat -> nat>)
    returns (actions: seq<Action>, error: Option<Error>)
    requires |rands| == |files|
    ensures CheckArgs(a).Err? ==> actions == [] && error == Some(ArgumentError)
    ensures CheckArgs(a).Ok? ==> (actions, error) == Run(a, Tagged(a, files), rands)
  {
    var checked := CheckArgs(a);
    if checked.Err? {
      return [], Some(checked.error);
    }
    ghost var tagged := Tagged(a, files);
    actions, error := [], None;
    var i := 0;
    while i < |files|
      invariant i <= |files|
      invariant (actions, error) == Run(a, tagged[..i], rands[..i])
    {
      assert tagged[..i + 1][..i] == tagged[..i] && rands[..i + 1][..i] == rands[..i];
      var r := ConvertFile(a, files[i].0, files[i].1, rands[i]);
      if r.Err? {
        error := Some(r.error);
        RunStops(a, tagged, rands, i + 1);
        return;
      }
      actions := actions + r.value;
      i := i + 1;
    }
    assert tagged[..i] == tagged && rands[..i] == rands;
  }
}
