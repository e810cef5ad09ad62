/** The settings and the dispatch of `ProcessEngine` (source/process_engine.py).
    The engine keeps three string settings in a dict that `update_setting`
    and `setValue` change in place; `process` reads them and runs one
    simplification per selected algorithm variant, with a smoothing pass
    after the Morley variants. Here `process` returns the sequence of calls
    it would make (a `Dispatch` trace) instead of calling MeshLab and R, and
    what the engine prints is returned as a list of `Notice`s. */
module ProcessEngine {
  import opened Wrappers
  import Text
  import Seqs

  /** `SUPPORTED_ALGORITHMS`, in its order, with its repeated entry. */
  const Supported: seq<string> := [
    "morley", "morley_preserveBoundary", "morley_remesh", "morley_remesh_preserveBoundary",
    "deVries", "deVries_preserveBoundary", "deVries_preserveBoundary", "deVries_remesh",
    "deVries_remesh_preserveBoundary"
  ]

  /** The default "algorithms" setting: every supported name, one missing
      space after a comma included. */
  const DefaultAlgorithms: string :=
    "morley, morley_preserveBoundary, morley_remesh, morley_remesh_preserveBoundary,deVries, "
    + "deVries_preserveBoundary, deVries_preserveBoundary, deVries_remesh, deVries_remesh_preserveBoundary"

  /** `DEFAULT_SETTINGS` */
  const DefaultSettings: map<string, string> :=
    map["inputFolder" := "data", "outputFolder" := "output", "algorithms" := DefaultAlgorithms]

  /** The defaults hold exactly the three settings, so an engine built
      on them accepts updates of those keys only, and `process` finds
      every setting it reads. */
  lemma DefaultKeys()
    ensures forall k :: k in DefaultSettings <==> k == "inputFolder" || k == "outputFolder" || k == "algorithms"
    ensures Plan(DefaultSettings).Success?
  {
  }

  /** What `setValue` prints. */
  datatype Notice =
    | NotSupported(name: string)  // an entry of "algorithms" that is skipped
    | NoneSupported               // "No supported algorithms were provided. No changes made."
    | NoPlyFiles(folder: string)  // the folder searched holds no .ply file

  // ---------------------------------------------------------------------
  // The "algorithms" setting

  /** `[a.strip() for a in value.split(',')]`: never empty, since a split
      always yields a piece. */
  function Entries(value: string): (r: seq<string>)
    ensures |r| >= 1
    ensures |r| == |Text.Split(value, ',')|
  {
    var pieces := Text.Split(value, ',');
    seq(|pieces|, i requires 0 <= i < |pieces| => Text.Strip(pieces[i]))
  }

  /** The entries the loop of `setValue` keeps: the supported ones, in
      order, repeats included. */
  function Kept(names: seq<string>): seq<string>
  {
    if names == [] then []
    else
      var last := names[|names| - 1];
      Kept(names[..|names| - 1]) + (if last in Supported then [last] else [])
  }

  /** The notices the same loop prints, one per skipped entry. */
  function Skips(names: seq<string>): seq<Notice>
  {
    if names == [] then []
    else
      var last := names[|names| - 1];
      Skips(names[..|names| - 1]) + (if last in Supported then [] else [NotSupported(last)])
  }

  /** The loop of `setValue` over the stripped entries. */
  method Screen(algorithms: seq<string>) returns (valid: seq<string>, notices: seq<Notice>)
    ensures valid == Kept(algorithms) && notices == Skips(algorithms)
  {
    valid := [];
    notices := [];
    for i := 0 to |algorithms|
      invariant valid == Kept(algorithms[..i]) && notices == Skips(algorithms[..i])
    {
      var a := algorithms[i];
      assert algorithms[..i + 1][..i] == algorithms[..i];
      if a !in Supported {
        notices := notices + [NotSupported(a)];
      } else {
        valid := valid + [a];
      }
    }
    assert algorithms[..|algorithms|] == algorithms;
  }

  /** An entry is kept exactly when it is supported. */
  lemma {:induction false} KeptMembers(names: seq<string>)
    ensures forall x :: x in Kept(names) <==> x in names && x in Supported
  {
    if names != [] {
      KeptMembers(names[..|names| - 1]);
      assert names == names[..|names| - 1] + [names[|names| - 1]];
    }
  }

  /** Each supported entry is kept as many times as it is given, and an
      unsupported one not at all: duplicates survive the screening. */
  lemma {:induction false} KeptCounts(names: seq<string>, x: string)
    ensures multiset(Kept(names))[x] == if x in Supported then multiset(names)[x] else 0
  {
    if names != [] {
      var init := names[..|names| - 1];
      var last := names[|names| - 1];
      KeptCounts(init, x);
      assert names == init + [last];
      assert Kept(names) == Kept(init) + (if last in Supported then [last] else []);
    }
  }

  /** An entry is reported exactly when it is not supported. */
  lemma {:induction false} SkipsMembers(names: seq<string>)
    ensures forall x :: NotSupported(x) in Skips(names) <==> x in names && x !in Supported
  {
    if names != [] {
      SkipsMembers(names[..|names| - 1]);
      assert names == names[..|names| - 1] + [names[|names| - 1]];
    }
  }

  /** Screening two lists one after the other keeps their order. */
  lemma {:induction false} KeptAppend(a: seq<string>, b: seq<string>)
    ensures Kept(a + b) == Kept(a) + Kept(b)
    decreases |b|
  {
    if b == [] {
      assert a + b == a;
    } else {
      var n := |b| - 1;
      assert (a + b)[..|a + b| - 1] == a + b[..n];
      KeptAppend(a, b[..n]);
      Seqs.Assoc(Kept(a), Kept(b[..n]), if b[n] in Supported then [b[n]] else []);
    }
  }

  /** A list of supported names is kept whole. */
  lemma {:induction false} KeptAll(names: seq<string>)
    requires forall i :: 0 <= i < |names| ==> names[i] in Supported
    ensures Kept(names) == names
  {
    if names != [] {
      KeptAll(names[..|names| - 1]);
      assert names == names[..|names| - 1] + [names[|names| - 1]];
    }
  }

  /** The value `setValue` stores under `key`: for "algorithms" the kept
      entries joined by ", ", unless none is kept, and then the value as
      given; any other value as given. */
  function Stored(key: string, value: string): string
  {
    if key == "algorithms" && Kept(Entries(value)) != [] then Text.Join(Kept(Entries(value)), ", ")
    else value
  }

  /** What `setValue` prints. The `.ply` check looks in the folder the
      setting held before the call, not in the new one. */
  function Notices(settings: map<string, string>, key: string, value: string, plyCount: string -> nat): seq<Notice>
    requires key in settings
  {
    ScreenNotices(key, value) + PlyNotices(settings, key, plyCount)
  }

  /** What the screening of an "algorithms" value prints. */
  function ScreenNotices(key: string, value: string): seq<Notice>
  {
    if key != "algorithms" then []
    else Skips(Entries(value)) + (if Kept(Entries(value)) == [] then [NoneSupported] else [])
  }

  /** What the `.ply` check of "inputFolder" prints. */
  function PlyNotices(settings: map<string, string>, key: string, plyCount: string -> nat): seq<Notice>
    requires key in settings
  {
    if key == "inputFolder" && plyCount(settings["inputFolder"]) == 0 then [NoPlyFiles(settings["inputFolder"])]
    else []
  }

  /** An entry that reads back unchanged from a ", "-joined list: no
      surrounding space and no comma. */
  predicate Plain(x: string)
  {
    Text.Stripped(x) && ',' !in x
  }

  /** Every entry is plain: stripped, and a piece of a split on ','. */
  lemma EntriesPlain(value: string)
    ensures forall i :: 0 <= i < |Entries(value)| ==> Plain(Entries(value)[i])
  {
    var pieces := Text.Split(value, ',');
    Text.SplitPieces(value, ',');
    forall i | 0 <= i < |pieces| ensures ',' !in Text.Strip(pieces[i]) {
      if ',' in Text.Strip(pieces[i]) {
        Text.StripWithin(pieces[i], ',');
      }
    }
  }

  /** `", ".join(xs)` for plain entries, split on ',' and stripped, gives
      `xs` back. */
  lemma {:induction false} JoinedEntries(xs: seq<string>)
    requires xs != [] && forall i :: 0 <= i < |xs| ==> Plain(xs[i])
    ensures Entries(Text.Join(xs, ", ")) == xs
  {
    var joined := Text.Join(xs, ", ");
    var pieces := [xs[0]] + Padded(xs[1..]);
    SplitJoined(xs);
    forall i | 0 <= i < |xs| ensures Text.Strip(pieces[i]) == xs[i] {
      PaddedStrip(xs, i);
    }
    EntriesOf(joined, xs);
  }

  /** The entries of a value are the stripped pieces of its split. */
  lemma EntriesOf(value: string, xs: seq<string>)
    requires |Text.Split(value, ',')| == |xs|
    requires forall i :: 0 <= i < |xs| ==> Text.Strip(Text.Split(value, ',')[i]) == xs[i]
    ensures Entries(value) == xs
  {
  }

  /** The pieces of a ", "-joined list of plain entries split on ','. */
  lemma SplitJoined(xs: seq<string>)
    requires xs != [] && forall i :: 0 <= i < |xs| ==> Plain(xs[i])
    ensures Text.Split(Text.Join(xs, ", "), ',') == [xs[0]] + Padded(xs[1..])
  {
    JoinPadded(xs);
    PaddedFree(xs);
    Text.SplitJoin([xs[0]] + Padded(xs[1..]), ',');
  }

  /** No piece of a ", "-joined list of plain entries holds a comma. */
  lemma PaddedFree(xs: seq<string>)
    requires xs != [] && forall i :: 0 <= i < |xs| ==> Plain(xs[i])
    ensures forall i :: 0 <= i < |xs| ==> ',' !in ([xs[0]] + Padded(xs[1..]))[i]
  {
    var pieces := [xs[0]] + Padded(xs[1..]);
    forall i | 0 <= i < |xs| ensures ',' !in pieces[i] {
      if i > 0 {
        assert pieces[i] == " " + xs[i];
      }
    }
  }

  /** Stripping a piece of a ", "-joined list of plain entries gives the
      entry. */
  lemma PaddedStrip(xs: seq<string>, i: nat)
    requires i < |xs| && Plain(xs[i])
    ensures Text.Strip(([xs[0]] + Padded(xs[1..]))[i]) == xs[i]
  {
    var piece := ([xs[0]] + Padded(xs[1..]))[i];
    Text.AllSpaceJoin([], []);
    if i == 0 {
      assert piece == [] + xs[0] + [];
      Text.StripPadded([], xs[0], []);
    } else {
      assert piece == " " + xs[1..][i - 1] + [];
      Text.StripPadded(" ", xs[i], []);
    }
  }

  /** Every name with a space in front. */
  function Padded(xs: seq<string>): (r: seq<string>)
    ensures |r| == |xs| && forall i :: 0 <= i < |xs| ==> r[i] == " " + xs[i]
  {
    seq(|xs|, i requires 0 <= i < |xs| => " " + xs[i])
  }

  /** Joining by ", " is joining by ',' after putting a space in front of
      every name but the first. */
  lemma {:induction false} JoinPadded(xs: seq<string>)
    requires xs != []
    ensures Text.Join(xs, ", ") == Text.Join([xs[0]] + Padded(xs[1..]), [','])
  {
    var pieces := [xs[0]] + Padded(xs[1..]);
    if |xs| > 1 {
      assert pieces[1..] == Padded(xs[1..]);
      JoinPaddedTail(xs[1..]);
      Seqs.Assoc(xs[0] + [','], " ", Text.Join(xs[1..], ", "));
      assert xs[0] + [','] + " " == xs[0] + ", ";
    }
  }

  lemma {:induction false} JoinPaddedTail(ys: seq<string>)
    requires ys != []
    ensures Text.Join(Padded(ys), [',']) == " " + Text.Join(ys, ", ")
    decreases |ys|
  {
    if |ys| > 1 {
      assert Padded(ys)[1..] == Padded(ys[1..]);
      JoinPaddedTail(ys[1..]);
      var tail := Text.Join(ys[1..], ", ");
      calc {
        Text.Join(Padded(ys), [',']);
        (" " + ys[0]) + [','] + (" " + tail);
        { Seqs.Assoc(" " + ys[0] + [','], " ", tail); }
        " " + ys[0] + [','] + " " + tail;
        { assert " " + ys[0] + [','] + " " == " " + (ys[0] + ", "); }
        " " + (ys[0] + ", ") + tail;
        { Seqs.Assoc(" ", ys[0] + ", ", tail); }
        " " + Text.Join(ys, ", ");
      }
    }
  }

  /** A stored "algorithms" value that kept something reads back as the
      kept entries: `process` sees exactly what `setValue` accepted. */
  lemma {:induction false} StoredReadBack(value: string)
    requires Kept(Entries(value)) != []
    ensures Entries(Stored("algorithms", value)) == Kept(Entries(value))
  {
    var es := Entries(value);
    var ks := Kept(es);
    KeptMembers(es);
    EntriesPlain(value);
    forall i | 0 <= i < |ks| ensures Plain(ks[i]) {
      assert ks[i] in es;
      var j :| 0 <= j < |es| && es[j] == ks[i];
    }
    JoinedEntries(ks);
  }

  /** Setting "algorithms" to what it was just set to changes nothing. */
  lemma {:induction false} StoredIdempotent(value: string)
    ensures Stored("algorithms", Stored("algorithms", value)) == Stored("algorithms", value)
  {
    var xs := Kept(Entries(value));
    if xs != [] {
      var joined := Text.Join(xs, ", ");
      assert Stored("algorithms", value) == joined;
      StoredReadBack(value);
      KeptMembers(Entries(value));
      assert forall i :: 0 <= i < |xs| ==> xs[i] in xs;
      KeptAll(xs);
      assert Kept(Entries(joined)) == xs;
    }
  }

  /** When no entry is supported the engine prints that it made no
      changes, yet it stores the value it was given. */
  lemma {:induction false} NoneSupportedStoresRaw(settings: map<string, string>, value: string, plyCount: string -> nat)
    requires "algorithms" in settings
    requires forall i :: 0 <= i < |Entries(value)| ==> Entries(value)[i] !in Supported
    ensures NoneSupported in Notices(settings, "algorithms", value, plyCount)
    ensures settings["algorithms" := Stored("algorithms", value)]["algorithms"] == value
  {
    KeptNone(Entries(value));
  }

  /** A list without a supported name keeps nothing. */
  lemma {:induction false} KeptNone(names: seq<string>)
    requires forall i :: 0 <= i < |names| ==> names[i] !in Supported
    ensures Kept(names) == []
  {
    if names != [] {
      KeptNone(names[..|names| - 1]);
    }
  }

  /** Only the value a setting held before decides the `.ply` notice for
      "inputFolder", whatever folder is set. */
  lemma {:induction false} PlyNoticeUsesOldFolder(settings: map<string, string>, a: string, b: string, plyCount: string -> nat)
    requires "inputFolder" in settings
    ensures Notices(settings, "inputFolder", a, plyCount) == Notices(settings, "inputFolder", b, plyCount)
    ensures Notices(settings, "inputFolder", a, plyCount) != [] <==> plyCount(settings["inputFolder"]) == 0
  {
  }

  // ---------------------------------------------------------------------
  // Dispatch

  /** The two clean-and-simplify scripts of the MeshLab interface. */
  datatype Script = MorleyClean | DeVriesClean

  /** One call `process` makes: `meshlab.simplifyAll` or `R.smooth()`. */
  datatype Dispatch =
    | Simplify(script: Script, inputDir: string, outputDir: string, remesh: bool, preserveBoundary: bool)
    | Smooth(targetDir: string)

  /** One of the `if name in algorithms` tests of `process` and the call it
      guards. */
  datatype Variant = Variant(name: string, script: Script, remesh: bool, preserveBoundary: bool)

  /** The tests before the smoothing pass, in order. */
  const MorleyVariants: seq<Variant> := [
    Variant("morley", MorleyClean, false, false),
    Variant("morley_preserveBoundary", MorleyClean, false, true),
    Variant("morley_remesh", MorleyClean, true, false),
    Variant("morley_remesh_preserveBoundary", MorleyClean, true, true)
  ]

  /** The tests after it, in order; one test is written twice. */
  const DeVriesVariants: seq<Variant> := [
    Variant("deVries", DeVriesClean, false, false),
    Variant("deVries_preserveBoundary", DeVriesClean, false, true),
    Variant("deVries_preserveBoundary", DeVriesClean, false, true),
    Variant("deVries_remesh", DeVriesClean, true, false),
    Variant("deVries_remesh_preserveBoundary", DeVriesClean, true, true)
  ]

  /** `f'{outputDir}/simplified_{name}'`, the folder a variant writes to. */
  function SimplifiedDir(outputDir: string, name: string): string
  {
    outputDir + "/simplified_" + name
  }

  /** The call a test makes. */
  function Call(v: Variant, inputDir: string, outputDir: string): Dispatch
  {
    Simplify(v.script, inputDir, SimplifiedDir(outputDir, v.name), v.remesh, v.preserveBoundary)
  }

  /** The call of one test, if its name is selected. */
  function Step(v: Variant, inputDir: string, outputDir: string, algorithms: seq<string>): seq<Dispatch>
  {
    if v.name in algorithms then [Call(v, inputDir, outputDir)] else []
  }

  /** The calls a run of tests makes, in order. */
  function Run(vs: seq<Variant>, inputDir: string, outputDir: string, algorithms: seq<string>): seq<Dispatch>
  {
    if vs == [] then []
    else Run(vs[..|vs| - 1], inputDir, outputDir, algorithms) + Step(vs[|vs| - 1], inputDir, outputDir, algorithms)
  }

  /** One more test of a run. */
  lemma {:induction false} RunStep(vs: seq<Variant>, k: nat, inputDir: string, outputDir: string, algorithms: seq<string>)
    requires k < |vs|
    ensures Run(vs[..k + 1], inputDir, outputDir, algorithms) ==
      Run(vs[..k], inputDir, outputDir, algorithms) + Step(vs[k], inputDir, outputDir, algorithms)
  {
    assert vs[..k + 1][..k] == vs[..k];
  }

  /** The calls of `process`: the Morley simplifications, `R.smooth()` with
      its default folder if any of them ran, then the de Vries ones. */
  function Dispatches(inputDir: string, outputDir: string, algorithms: seq<string>): seq<Dispatch>
  {
    Run(MorleyVariants, inputDir, outputDir, algorithms)
    + Smoothing(Run(MorleyVariants, inputDir, outputDir, algorithms))
    + Run(DeVriesVariants, inputDir, outputDir, algorithms)
  }

  /** `R.smooth()`, on its default folder, after Morley calls if there
      were any. */
  function Smoothing(morley: seq<Dispatch>): seq<Dispatch>
  {
    if morley != [] then [Smooth("output")] else []
  }

  /** What `process` does with the settings: a KeyError for a missing
      setting, read in the order the source reads them, or the calls. */
  function Plan(settings: map<string, string>): Result<seq<Dispatch>>
  {
    if "inputFolder" !in settings then Failure(KeyError("inputFolder"))
    else if "outputFolder" !in settings then Failure(KeyError("outputFolder"))
    else if "algorithms" !in settings then Failure(KeyError("algorithms"))
    else Success(Dispatches(settings["inputFolder"], settings["outputFolder"], Entries(settings["algorithms"])))
  }

  /** A run makes the call of a test exactly when the test's name is
      selected, and makes no other call. */
  lemma {:induction false} RunCalls(vs: seq<Variant>, inputDir: string, outputDir: string, algorithms: seq<string>)
    ensures forall d :: d in Run(vs, inputDir, outputDir, algorithms) <==>
      exists v :: v in vs && v.name in algorithms && d == Call(v, inputDir, outputDir)
  {
    if vs != [] {
      RunCalls(vs[..|vs| - 1], inputDir, outputDir, algorithms);
      Seqs.InitLast(vs);
    }
  }

  /** The number of times a run makes a call: the number of selected tests
      that make it. */
  lemma {:induction false} RunCount(vs: seq<Variant>, inputDir: string, outputDir: string, algorithms: seq<string>, v: Variant)
    ensures multiset(Run(vs, inputDir, outputDir, algorithms))[Call(v, inputDir, outputDir)] ==
      if v.name in algorithms then multiset(vs)[v] else 0
  {
    if vs != [] {
      var last := vs[|vs| - 1];
      RunCount(vs[..|vs| - 1], inputDir, outputDir, algorithms, v);
      Seqs.InitLast(vs);
      if Call(last, inputDir, outputDir) == Call(v, inputDir, outputDir) {
        CallInjective(last, v, inputDir, outputDir);
      }
    }
  }

  /** Different names give different output folders. */
  lemma CallInjective(v: Variant, w: Variant, inputDir: string, outputDir: string)
    requires Call(v, inputDir, outputDir) == Call(w, inputDir, outputDir)
    ensures v == w
  {
    var p := outputDir + "/simplified_";
    assert v.name == (p + v.name)[|p|..];
    assert w.name == (p + w.name)[|p|..];
  }

  /** Whether the tests are met does not depend on the order of the names
      or on repeats: two selections naming the same algorithms give the
      same calls. */
  lemma {:induction false} RunSameNames(vs: seq<Variant>, inputDir: string, outputDir: string, a: seq<string>, b: seq<string>)
    requires forall x :: x in a <==> x in b
    ensures Run(vs, inputDir, outputDir, a) == Run(vs, inputDir, outputDir, b)
  {
    if vs != [] {
      RunSameNames(vs[..|vs| - 1], inputDir, outputDir, a, b);
    }
  }

  lemma {:induction false} DispatchSameNames(inputDir: string, outputDir: string, a: seq<string>, b: seq<string>)
    requires forall x :: x in a <==> x in b
    ensures Dispatches(inputDir, outputDir, a) == Dispatches(inputDir, outputDir, b)
  {
    RunSameNames(MorleyVariants, inputDir, outputDir, a, b);
    RunSameNames(DeVriesVariants, inputDir, outputDir, a, b);
  }

  /** A run makes simplifications only. */
  lemma RunSimplifies(vs: seq<Variant>, inputDir: string, outputDir: string, algorithms: seq<string>)
    ensures forall d :: d in Run(vs, inputDir, outputDir, algorithms) ==> d.Simplify?
  {
    RunCalls(vs, inputDir, outputDir, algorithms);
  }

  /** `R.smooth()` runs once exactly when a Morley variant is selected, and
      always on the folder "output", whatever the output folder setting. */
  lemma {:induction false} SmoothOnce(inputDir: string, outputDir: string, algorithms: seq<string>)
    ensures multiset(Dispatches(inputDir, outputDir, algorithms))[Smooth("output")] ==
      if exists v :: v in MorleyVariants && v.name in algorithms then 1 else 0
    ensures forall d :: d in Dispatches(inputDir, outputDir, algorithms) && d.Smooth? ==> d == Smooth("output")
  {
    SmoothOnceIn(MorleyVariants, DeVriesVariants, inputDir, outputDir, algorithms);
    SmoothTargetIn(MorleyVariants, DeVriesVariants, inputDir, outputDir, algorithms);
  }

  lemma {:induction false} SmoothTargetIn(ms: seq<Variant>, ds: seq<Variant>, inputDir: string, outputDir: string, algorithms: seq<string>)
    ensures var m := Run(ms, inputDir, outputDir, algorithms);
      forall d :: d in m + Smoothing(m) + Run(ds, inputDir, outputDir, algorithms) && d.Smooth? ==> d == Smooth("output")
  {
    RunSimplifies(ms, inputDir, outputDir, algorithms);
    RunSimplifies(ds, inputDir, outputDir, algorithms);
  }

  lemma {:induction false} SmoothOnceIn(ms: seq<Variant>, ds: seq<Variant>, inputDir: string, outputDir: string, algorithms: seq<string>)
    ensures var m := Run(ms, inputDir, outputDir, algorithms);
      multiset(m + Smoothing(m) + Run(ds, inputDir, outputDir, algorithms))[Smooth("output")] ==
      if exists v :: v in ms && v.name in algorithms then 1 else 0
  {
    var m := Run(ms, inputDir, outputDir, algorithms);
    var d := Run(ds, inputDir, outputDir, algorithms);
    RunSelected(ms, inputDir, outputDir, algorithms);
    RunSimplifies(ms, inputDir, outputDir, algorithms);
    RunSimplifies(ds, inputDir, outputDir, algorithms);
    assert Smooth("output") !in m && Smooth("output") !in d;
    assert multiset(m)[Smooth("output")] == 0 && multiset(d)[Smooth("output")] == 0;
    assert multiset(m + Smoothing(m) + d) == multiset(m) + multiset(Smoothing(m)) + multiset(d);
  }

  /** A run makes a call exactly when one of its tests is selected. */
  lemma RunSelected(vs: seq<Variant>, inputDir: string, outputDir: string, algorithms: seq<string>)
    ensures Run(vs, inputDir, outputDir, algorithms) != [] <==> exists v :: v in vs && v.name in algorithms
  {
    var r := Run(vs, inputDir, outputDir, algorithms);
    RunCalls(vs, inputDir, outputDir, algorithms);
    if r != [] {
      assert r[0] in r;
    }
  }

  /** Every Morley simplification comes before the smoothing pass and
      every de Vries one after it. */
  lemma {:induction false} SmoothBetween(inputDir: string, outputDir: string, algorithms: seq<string>, i: nat, j: nat)
    requires i < j < |Dispatches(inputDir, outputDir, algorithms)|
    ensures var t := Dispatches(inputDir, outputDir, algorithms);
      && (t[j].Smooth? ==> t[i].Simplify? && t[i].script == MorleyClean)
      && (t[i].Smooth? ==> t[j].Simplify? && t[j].script == DeVriesClean)
      && (t[i].Simplify? && t[j].Simplify? && t[j].script == MorleyClean ==> t[i].script == MorleyClean)
  {
    VariantScripts();
    SmoothBetweenIn(MorleyVariants, DeVriesVariants, inputDir, outputDir, algorithms, i, j);
  }

  /** Each test of the Morley and of the de Vries list uses its own script. */
  lemma VariantScripts()
    ensures forall k :: 0 <= k < |MorleyVariants| ==> MorleyVariants[k].script == MorleyClean
    ensures forall k :: 0 <= k < |DeVriesVariants| ==> DeVriesVariants[k].script == DeVriesClean
  {
  }

  /** A run of tests that all use `script` makes calls of that script. */
  lemma {:induction false} RunScript(vs: seq<Variant>, script: Script, inputDir: string, outputDir: string, algorithms: seq<string>)
    requires forall k :: 0 <= k < |vs| ==> vs[k].script == script
    ensures forall k :: 0 <= k < |Run(vs, inputDir, outputDir, algorithms)| ==>
      Run(vs, inputDir, outputDir, algorithms)[k].Simplify? && Run(vs, inputDir, outputDir, algorithms)[k].script == script
  {
    var r := Run(vs, inputDir, outputDir, algorithms);
    RunCalls(vs, inputDir, outputDir, algorithms);
    forall k | 0 <= k < |r| ensures r[k].Simplify? && r[k].script == script {
      assert r[k] in r;
    }
  }

  lemma {:induction false} SmoothBetweenIn(ms: seq<Variant>, ds: seq<Variant>, inputDir: string, outputDir: string, algorithms: seq<string>, i: nat, j: nat)
    requires forall k :: 0 <= k < |ms| ==> ms[k].script == MorleyClean
    requires forall k :: 0 <= k < |ds| ==> ds[k].script == DeVriesClean
    requires var m := Run(ms, inputDir, outputDir, algorithms);
      i < j < |m + Smoothing(m) + Run(ds, inputDir, outputDir, algorithms)|
    ensures var m := Run(ms, inputDir, outputDir, algorithms);
      var t := m + Smoothing(m) + Run(ds, inputDir, outputDir, algorithms);
      && (t[j].Smooth? ==> t[i].Simplify? && t[i].script == MorleyClean)
      && (t[i].Smooth? ==> t[j].Simplify? && t[j].script == DeVriesClean)
      && (t[i].Simplify? && t[j].Simplify? && t[j].script == MorleyClean ==> t[i].script == MorleyClean)
  {
    var m := Run(ms, inputDir, outputDir, algorithms);
    var d := Run(ds, inputDir, outputDir, algorithms);
    var s := Smoothing(m);
    RunScript(ms, MorleyClean, inputDir, outputDir, algorithms);
    RunScript(ds, DeVriesClean, inputDir, outputDir, algorithms);
    var t := m + s + d;
    assert forall k :: 0 <= k < |m| ==> t[k] == m[k];
    assert forall k :: |m| <= k < |m| + |s| ==> t[k] == s[k - |m|];
    assert forall k :: |m| + |s| <= k < |t| ==> t[k] == d[k - |m| - |s|];
  }

  /** Each selected variant is simplified, with the flags its test sets,
      as many times as its test is written; an unselected one is not. */
  lemma {:induction false} SimplifyCounts(inputDir: string, outputDir: string, algorithms: seq<string>, v: Variant)
    ensures multiset(Dispatches(inputDir, outputDir, algorithms))[Call(v, inputDir, outputDir)] ==
      if v.name in algorithms then multiset(MorleyVariants + DeVriesVariants)[v] else 0
  {
    var m := Run(MorleyVariants, inputDir, outputDir, algorithms);
    RunCount(MorleyVariants, inputDir, outputDir, algorithms, v);
    RunCount(DeVriesVariants, inputDir, outputDir, algorithms, v);
    RunSimplifies(MorleyVariants, inputDir, outputDir, algorithms);
    assert Smooth("output") != Call(v, inputDir, outputDir);
  }

  /** Every test is written once, but the `deVries_preserveBoundary` one,
      which is written twice. */
  lemma VariantCounts(v: Variant)
    requires v in MorleyVariants + DeVriesVariants
    ensures multiset(MorleyVariants + DeVriesVariants)[v] == if v.name == "deVries_preserveBoundary" then 2 else 1
  {
  }

  /** The tests cover `SUPPORTED_ALGORITHMS`, in its order. */
  lemma VariantsMatchNames()
    ensures |MorleyVariants + DeVriesVariants| == |Supported|
    ensures forall i :: 0 <= i < |Supported| ==> (MorleyVariants + DeVriesVariants)[i].name == Supported[i]
  {
  }

  /** One more test after some calls already made. */
  lemma {:induction false} RunAfter(p: seq<Dispatch>, vs: seq<Variant>, k: nat, inputDir: string, outputDir: string, algorithms: seq<string>)
    requires k < |vs|
    ensures p + Run(vs[..k + 1], inputDir, outputDir, algorithms) ==
      p + Run(vs[..k], inputDir, outputDir, algorithms) + Step(vs[k], inputDir, outputDir, algorithms)
  {
    RunStep(vs, k, inputDir, outputDir, algorithms);
    Seqs.Assoc(p, Run(vs[..k], inputDir, outputDir, algorithms), Step(vs[k], inputDir, outputDir, algorithms));
  }

  /** A run of four tests, one test after the other. */
  lemma {:induction false} RunFour(p: seq<Dispatch>, vs: seq<Variant>, inputDir: string, outputDir: string, algorithms: seq<string>)
    requires |vs| == 4
    ensures p + Run(vs, inputDir, outputDir, algorithms) ==
      p + Step(vs[0], inputDir, outputDir, algorithms) + Step(vs[1], inputDir, outputDir, algorithms)
      + Step(vs[2], inputDir, outputDir, algorithms) + Step(vs[3], inputDir, outputDir, algorithms)
  {
    assert vs[..0] == [] && vs[..4] == vs;
    Seqs.AppendNil(p);
    RunAfter(p, vs, 0, inputDir, outputDir, algorithms);
    RunAfter(p, vs, 1, inputDir, outputDir, algorithms);
    RunAfter(p, vs, 2, inputDir, outputDir, algorithms);
    RunAfter(p, vs, 3, inputDir, outputDir, algorithms);
  }

  /** A run of five tests, one test after the other. */
  lemma {:induction false} RunFive(p: seq<Dispatch>, vs: seq<Variant>, inputDir: string, outputDir: string, algorithms: seq<string>)
    requires |vs| == 5
    ensures p + Run(vs, inputDir, outputDir, algorithms) ==
      p + Step(vs[0], inputDir, outputDir, algorithms) + Step(vs[1], inputDir, outputDir, algorithms)
      + Step(vs[2], inputDir, outputDir, algorithms) + Step(vs[3], inputDir, outputDir, algorithms)
      + Step(vs[4], inputDir, outputDir, algorithms)
  {
    assert vs[..0] == [] && vs[..5] == vs;
    Seqs.AppendNil(p);
    RunAfter(p, vs, 0, inputDir, outputDir, algorithms);
    RunAfter(p, vs, 1, inputDir, outputDir, algorithms);
    RunAfter(p, vs, 2, inputDir, outputDir, algorithms);
    RunAfter(p, vs, 3, inputDir, outputDir, algorithms);
    RunAfter(p, vs, 4, inputDir, outputDir, algorithms);
  }

  /** The Morley tests one by one, as `process` writes them. */
  lemma {:induction false} MorleyTrace(p: seq<Dispatch>, inputDir: string, outputDir: string, algorithms: seq<string>)
    ensures p + Run(MorleyVariants, inputDir, outputDir, algorithms) ==
      p
      + Step(Variant("morley", MorleyClean, false, false), inputDir, outputDir, algorithms)
      + Step(Variant("morley_preserveBoundary", MorleyClean, false, true), inputDir, outputDir, algorithms)
      + Step(Variant("morley_remesh", MorleyClean, true, false), inputDir, outputDir, algorithms)
      + Step(Variant("morley_remesh_preserveBoundary", MorleyClean, true, true), inputDir, outputDir, algorithms)
  {
    RunFour(p, MorleyVariants, inputDir, outputDir, algorithms);
  }

  /** The de Vries tests one by one, as `process` writes them. */
  lemma {:induction false} DeVriesTrace(p: seq<Dispatch>, inputDir: string, outputDir: string, algorithms: seq<string>)
    ensures p + Run(DeVriesVariants, inputDir, outputDir, algorithms) ==
      p
      + Step(Variant("deVries", DeVriesClean, false, false), inputDir, outputDir, algorithms)
      + Step(Variant("deVries_preserveBoundary", DeVriesClean, false, true), inputDir, outputDir, algorithms)
      + Step(Variant("deVries_preserveBoundary", DeVriesClean, false, true), inputDir, outputDir, algorithms)
      + Step(Variant("deVries_remesh", DeVriesClean, true, false), inputDir, outputDir, algorithms)
      + Step(Variant("deVries_remesh_preserveBoundary", DeVriesClean, true, true), inputDir, outputDir, algorithms)
  {
    RunFive(p, DeVriesVariants, inputDir, outputDir, algorithms);
  }

  /** One `if name in algorithms` test of `process`: the simplification
      is dispatched, and reported, exactly when the name is selected. */
  method SimplifyIf(trace: seq<Dispatch>, v: Variant, inputDir: string, outputDir: string, algorithms: seq<string>)
    returns (next: seq<Dispatch>, ran: bool)
    ensures next == trace + Step(v, inputDir, outputDir, algorithms)
    ensures ran <==> v.name in algorithms
  {
    next, ran := trace, false;
    if v.name in algorithms {
      next, ran := trace + [Simplify(v.script, inputDir, SimplifiedDir(outputDir, v.name), v.remesh, v.preserveBoundary)], true;
    }
  }

  // ---------------------------------------------------------------------
  // The engine

  class Engine {
    /** `self.settings` */
    var settings: map<string, string>

    /** `ProcessEngine(settings)`; starting R is not part of this model. */
    constructor (settings: map<string, string>)
      ensures this.settings == settings
    {
      this.settings := settings;
    }

    /** `update_setting`: an unknown key raises ValueError and changes
        nothing; a known one is set as `setValue` sets it. */
    method UpdateSetting(key: string, value: string, plyCount: string -> nat) returns (r: Outcome, notices: seq<Notice>)
      modifies this
      ensures key !in old(settings) ==> r == Fail(ValueError(key)) && settings == old(settings) && notices == []
      ensures key in old(settings) ==> r == Pass && notices == Notices(old(settings), key, value, plyCount)
      ensures key in old(settings) ==> settings == old(settings)[key := Stored(key, value)]
    {
      if key in settings {
        r, notices := SetValue(key, value, plyCount);
      } else {
        r, notices := Fail(ValueError(key)), [];
      }
    }

    /** `setValue`: only `settings[key]` changes. `plyCount` stands for
        the number of `.ply` files `glob` finds in a folder. */
    method SetValue(key: string, value: string, plyCount: string -> nat) returns (r: Outcome, notices: seq<Notice>)
      modifies this
      ensures key !in old(settings) ==> r == Fail(KeyError(key)) && settings == old(settings) && notices == []
      ensures key in old(settings) ==> r == Pass && notices == Notices(old(settings), key, value, plyCount)
      ensures key in old(settings) ==> settings == old(settings)[key := Stored(key, value)]
    {
      if key !in settings {
        return Fail(KeyError(key)), [];
      }
      var stored := value;
      var screened: seq<Notice> := [];
      if key == "algorithms" {
        var validAlgorithms, skipped := Screen(Entries(value));
        if |validAlgorithms| != 0 {
          stored, screened := Text.Join(validAlgorithms, ", "), skipped;
        } else {
          screened := skipped + [NoneSupported];
        }
      }
      assert stored == Stored(key, value) && screened == ScreenNotices(key, value);
      var warned: seq<Notice> := [];
      if key == "inputFolder" {
        var inputDir := settings["inputFolder"];
        if plyCount(inputDir) == 0 {
          warned := [NoPlyFiles(inputDir)];
        }
      }
      assert warned == PlyNotices(settings, key, plyCount);
      settings := settings[key := stored];
      r, notices := Pass, screened + warned;
    }

    /** `process`: the calls it makes, in the order it makes them. */
    method Process() returns (r: Result<seq<Dispatch>>)
      ensures r == Plan(settings)
    {
      if "inputFolder" !in settings {
        return Failure(KeyError("inputFolder"));
      }
      var inputDir := settings["inputFolder"];
      if "outputFolder" !in settings {
        return Failure(KeyError("outputFolder"));
      }
      var outputDir := settings["outputFolder"];
      if "algorithms" !in settings {
        return Failure(KeyError("algorithms"));
      }
      var algorithms := Entries(settings["algorithms"]);
      if |algorithms| < 1 {
        // "No algorithms provided." cannot be raised: a split has a piece
        assert false;
      }
      var morleyProcessed := false;
      var ran: bool;
      var trace: seq<Dispatch> := [];
      trace, ran := SimplifyIf(trace, Variant("morley", MorleyClean, false, false), inputDir, outputDir, algorithms);
      morleyProcessed := morleyProcessed || ran;
      trace, ran := SimplifyIf(trace, Variant("morley_preserveBoundary", MorleyClean, false, true), inputDir, outputDir, algorithms);
      morleyProcessed := morleyProcessed || ran;
      trace, ran := SimplifyIf(trace, Variant("morley_remesh", MorleyClean, true, false), inputDir, outputDir, algorithms);
      morleyProcessed := morleyProcessed || ran;
      trace, ran := SimplifyIf(trace, Variant("morley_remesh_preserveBoundary", MorleyClean, true, true), inputDir, outputDir, algorithms);
      morleyProcessed := morleyProcessed || ran;
      MorleyTrace([], inputDir, outputDir, algorithms);
      Seqs.AppendNil(Run(MorleyVariants, inputDir, outputDir, algorithms));
      assert trace == Run(MorleyVariants, inputDir, outputDir, algorithms);
      assert morleyProcessed <==> trace != [];
      // Smooth and clean in R; `R.smooth()` keeps its default folder
      if morleyProcessed {
        trace := trace + [Smooth("output")];
      }
      ghost var before := trace;
      trace, ran := SimplifyIf(trace, Variant("deVries", DeVriesClean, false, false), inputDir, outputDir, algorithms);
      trace, ran := SimplifyIf(trace, Variant("deVries_preserveBoundary", DeVriesClean, false, true), inputDir, outputDir, algorithms);
      trace, ran := SimplifyIf(trace, Variant("deVries_preserveBoundary", DeVriesClean, false, true), inputDir, outputDir, algorithms);
      trace, ran := SimplifyIf(trace, Variant("deVries_remesh", DeVriesClean, true, false), inputDir, outputDir, algorithms);
      trace, ran := SimplifyIf(trace, Variant("deVries_remesh_preserveBoundary", DeVriesClean, true, true), inputDir, outputDir, algorithms);
      DeVriesTrace(before, inputDir, outputDir, algorithms);
      assert trace == before + Run(DeVriesVariants, inputDir, outputDir, algorithms);
      return Success(trace);
    }
  }
}
