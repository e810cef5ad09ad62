/** Result aggregation (`combineData` in source/data.py).

    Every CSV file of the data folder is read, each of its rows is tagged
    with an algorithm label and a success flag derived from the file name,
    every `RFI` value that is not a number is replaced by "error" and tallied
    under its raw text, and the combined rows and the tally are written to
    two tables of the output folder. The folder listing is a parameter (the
    paths `glob` returns, in its order) and `isfloat` is an uninterpreted
    predicate on strings. */
module Data {
  import opened Wrappers
  import opened Dicts
  import opened CsvInterface
  import Text
  import Seqs

  // ---------------------------------------------------------------------
  // The algorithm label: re.sub(r"_(failed|analysis|errorCount).csv", "", name)

  /** `s` starts with `w`, then any character but a newline (the unescaped
      `.`), then `csv`. */
  predicate WordMatch(s: string, w: string)
  {
    |s| >= |w| + 4 && s[..|w|] == w && s[|w|] != '\n' && s[|w| + 1..|w| + 4] == "csv"
  }

  /** The length of the pattern's match at the start of `s`, if any. The
      three alternatives differ in their second character, so at most one
      of them can match. */
  function MatchLen(s: string): (r: Option<nat>)
    ensures r.Some? ==> 11 <= r.value <= |s| && s[0] == '_'
  {
    if WordMatch(s, "_failed") then Some(11)
    else if WordMatch(s, "_analysis") then Some(13)
    else if WordMatch(s, "_errorCount") then Some(15)
    else None
  }

  /** `re.sub` with an empty replacement: scanning left to right, every
      match is dropped and the scan resumes after it. */
  function Label(s: string): (r: string)
    ensures |r| <= |s|
    decreases |s|
  {
    if s == [] then []
    else match MatchLen(s)
      case Some(n) => Label(s[n..])
      case None => [s[0]] + Label(s[1..])
  }

  /** No match of the pattern starts before position `k` of `s`. */
  predicate NoMatchBefore(s: string, k: nat)
  {
    forall i :: 0 <= i < k && i < |s| ==> MatchLen(s[i..]).None?
  }

  /** A name without a match is returned unchanged, and a name with one is
      not: the label equals the name exactly when the pattern does not
      occur in it. */
  lemma {:induction false} LabelUnchanged(s: string)
    ensures Label(s) == s <==> NoMatchBefore(s, |s|)
    decreases |s|
  {
    if s != [] {
      LabelUnchanged(s[1..]);
      assert forall i :: 1 <= i < |s| ==> s[1..][i - 1..] == s[i..];
      match MatchLen(s)
      case Some(n) =>
        assert |Label(s)| <= |s| - n;
        assert s[0..] == s;
      case None =>
        assert s[0..] == s;
        if NoMatchBefore(s[1..], |s| - 1) {
          assert NoMatchBefore(s, |s|);
        }
        if NoMatchBefore(s, |s|) {
          forall i | 0 <= i < |s| - 1 ensures MatchLen(s[1..][i..]).None? {
            assert s[1..][i..] == s[i + 1..];
          }
        }
    }
  }

  /** Positions before the first match are copied unchanged. */
  lemma {:induction false} LabelPrefix(s: string, k: nat)
    requires k <= |s| && NoMatchBefore(s, k)
    ensures Label(s) == s[..k] + Label(s[k..])
    decreases k
  {
    if k > 0 {
      NoMatchShift(s, k);
      assert Label(s) == [s[0]] + Label(s[1..]);
      LabelPrefix(s[1..], k - 1);
      assert s[1..][k - 1..] == s[k..];
      assert [s[0]] + s[1..][..k - 1] == s[..k];
      Seqs.Assoc([s[0]], s[1..][..k - 1], Label(s[k..]));
    }
  }

  /** No match before `k` is none at the start and none before `k - 1` in the tail. */
  lemma {:induction false} NoMatchShift(s: string, k: nat)
    requires 0 < k <= |s| && NoMatchBefore(s, k)
    ensures MatchLen(s).None? && NoMatchBefore(s[1..], k - 1)
  {
    assert s[0..] == s;
    forall i | 0 <= i < k - 1 && i < |s| - 1 ensures MatchLen(s[1..][i..]).None? {
      assert s[1..][i..] == s[i + 1..];
    }
  }

  /** `sfx` is one whole match of the pattern. */
  predicate WholeMatch(sfx: string)
  {
    MatchLen(sfx) == Some(|sfx|)
  }

  /** An underscore, one of the three words, any character but a newline,
      and `csv` make a whole match. */
  lemma {:induction false} SuffixMatches(word: string, dot: char)
    requires word == "failed" || word == "analysis" || word == "errorCount"
    requires dot != '\n'
    ensures WholeMatch("_" + word + [dot] + "csv")
  {
    var sfx := "_" + word + [dot] + "csv";
    if word == "failed" {
      assert WordMatch(sfx, "_failed");
    } else if word == "analysis" {
      assert sfx[1] == 'a';
      assert WordMatch(sfx, "_analysis");
    } else {
      assert sfx[1] == 'e';
      assert WordMatch(sfx, "_errorCount");
    }
  }

  /** A name that is one whole match is labelled with the empty string. */
  lemma {:induction false} LabelWhole(s: string)
    requires WholeMatch(s)
    ensures Label(s) == []
  {
    assert s[|s|..] == [];
  }

  /** A name made of a stem in which no match starts, followed by a whole
      match, is labelled with the stem. */
  lemma {:induction false} LabelStripsSuffix(stem: string, sfx: string)
    requires WholeMatch(sfx) && NoMatchBefore(stem + sfx, |stem|)
    ensures Label(stem + sfx) == stem
  {
    var s := stem + sfx;
    LabelPrefix(s, |stem|);
    assert s[..|stem|] == stem && s[|stem|..] == sfx;
    LabelWhole(sfx);
  }

  /** Every match starts with an underscore, so a stem without one is
      always labelled with itself. */
  lemma {:induction false} LabelStripsSuffixPlain(stem: string, sfx: string)
    requires WholeMatch(sfx) && '_' !in stem
    ensures Label(stem + sfx) == stem
  {
    var s := stem + sfx;
    forall i | 0 <= i < |stem| ensures MatchLen(s[i..]).None? {
      assert s[i..][0] == stem[i];
    }
    LabelStripsSuffix(stem, sfx);
  }

  /** An algorithm's analysis file is labelled with the algorithm's name. */
  lemma {:induction false} MorleyAnalysisLabel(name: string)
    requires name == "morley_analysis.csv"
    ensures Label(name) == "morley"
  {
    UnescapedDot(name, "morley", "analysis", '.');
  }

  /** The `.` of the pattern is not escaped: any character but a newline
      may stand where the dot of ".csv" is expected. */
  lemma {:induction false} UnescapedDot(name: string, stem: string, word: string, dot: char)
    requires word == "failed" || word == "analysis" || word == "errorCount"
    requires dot != '\n' && '_' !in stem
    requires name == stem + "_" + word + [dot] + "csv"
    ensures Label(name) == stem
  {
    SuffixMatches(word, dot);
    var sfx := "_" + word + [dot] + "csv";
    LabelStripsSuffixPlain(stem, sfx);
    assert name == stem + sfx;
  }

  // ---------------------------------------------------------------------
  // The success flag: bool(re.search(r"analysis", name))

  /** `t` occurs in `s` at some position. */
  predicate OccursAt(s: string, t: string, i: int)
  {
    0 <= i && i + |t| <= |s| && s[i..i + |t|] == t
  }

  /** The recursive substring test finds exactly the occurrences. */
  lemma {:induction false} ContainsOccurs(s: string, t: string)
    ensures Text.Contains(s, t) <==> exists i :: OccursAt(s, t, i)
    decreases |s|
  {
    if t <= s {
      assert s[0..|t|] == t;
      assert OccursAt(s, t, 0);
    } else if s != [] {
      ContainsOccurs(s[1..], t);
      if exists i :: OccursAt(s[1..], t, i) {
        var i :| OccursAt(s[1..], t, i);
        OccursShift(s, t, i);
      }
      if exists i :: OccursAt(s, t, i) {
        var i :| OccursAt(s, t, i);
        if i > 0 {
          OccursShift(s, t, i - 1);
        }
      }
    }
  }

  /** An occurrence in the tail is an occurrence one position further on. */
  lemma {:induction false} OccursShift(s: string, t: string, i: nat)
    requires s != []
    ensures OccursAt(s[1..], t, i) <==> OccursAt(s, t, i + 1)
  {
    if i + 1 + |t| <= |s| {
      assert s[1..][i..i + |t|] == s[i + 1..i + 1 + |t|];
    }
  }

  /** `RFISuccess` of a file: its name contains "analysis". */
  function RfiSuccess(fileName: string): bool
  {
    Text.Contains(fileName, "analysis")
  }

  /** A file's flag is set exactly when "analysis" occurs in its name. */
  lemma {:induction false} RfiSuccessSpec(fileName: string)
    ensures RfiSuccess(fileName) <==> exists i :: OccursAt(fileName, "analysis", i)
  {
    ContainsOccurs(fileName, "analysis");
  }

  /** A name lacking one of the letters of "analysis" does not get the flag. */
  lemma {:induction false} NoFlagWithoutLetter(fileName: string, c: char)
    requires c in "analysis" && c !in fileName
    ensures !RfiSuccess(fileName)
  {
    RfiSuccessSpec(fileName);
    var j :| 0 <= j < 8 && "analysis"[j] == c;
    forall i | 0 <= i && i + 8 <= |fileName| ensures !OccursAt(fileName, "analysis", i) {
      assert fileName[i..i + 8][j] == fileName[i + j];
      assert fileName[i..i + 8][j] != "analysis"[j];
    }
  }

  /** An algorithm's failure file is not flagged as a success. */
  lemma {:induction false} MorleyFailedFlag()
    ensures !RfiSuccess("morley_failed.csv")
  {
    NoFlagWithoutLetter("morley_failed.csv", 'n');
  }

  // ---------------------------------------------------------------------
  // Tagging: dict(item, **{'Algorithm': algorithm, 'RFISuccess': rfiSuccess})

  /** A copy of `item` with the two provenance columns assigned, in that
      order: a column of either name that the file already had is
      overwritten in place, otherwise the column is added at the end. */
  function Tag(item: Record, algorithm: string, rfiSuccess: bool): (r: Record)
    ensures Get(r, "Algorithm") == Some(Text(algorithm))
    ensures Get(r, "RFISuccess") == Some(Flag(rfiSuccess))
    ensures forall k :: k != "Algorithm" && k != "RFISuccess" ==> Get(r, k) == Get(item, k)
    ensures Keys(item) <= Keys(r) && |Keys(r)| <= |Keys(item)| + 2
  {
    Set(Set(item, "Algorithm", Text(algorithm)), "RFISuccess", Flag(rfiSuccess))
  }

  /** The rows of the file at `path`, each tagged with the file's label and
      flag; reading a missing file fails. */
  function TaggedFile(files: Files, path: string): (r: Result<seq<Record>>)
    ensures r.Failure? <==> path !in files
    ensures r.Failure? ==> r.error == FileNotFoundError(path)
  {
    match ExtractData(files, path)
    case Failure(e) => Failure(e)
    case Success(recs) =>
      var name := Text.BaseName(path);
      Success(TagAll(recs, Label(name), RfiSuccess(name)))
  }

  /** `[dict(item, **tags) for item in items]` */
  function TagAll(items: seq<Record>, algorithm: string, rfiSuccess: bool): (r: seq<Record>)
    ensures |r| == |items|
  {
    if items == [] then []
    else [Tag(items[0], algorithm, rfiSuccess)] + TagAll(items[1..], algorithm, rfiSuccess)
  }

  lemma {:induction false} TagAllSpec(items: seq<Record>, algorithm: string, rfiSuccess: bool)
    ensures forall i :: 0 <= i < |items| ==> TagAll(items, algorithm, rfiSuccess)[i] == Tag(items[i], algorithm, rfiSuccess)
  {
    forall i | 0 <= i < |items| ensures TagAll(items, algorithm, rfiSuccess)[i] == Tag(items[i], algorithm, rfiSuccess) {
      TagAllAt(items, algorithm, rfiSuccess, i);
    }
  }

  lemma {:induction false} TagAllAt(items: seq<Record>, algorithm: string, rfiSuccess: bool, i: nat)
    requires i < |items|
    ensures TagAll(items, algorithm, rfiSuccess)[i] == Tag(items[i], algorithm, rfiSuccess)
  {
    if i > 0 {
      assert items[1..][i - 1] == items[i];
      TagAllAt(items[1..], algorithm, rfiSuccess, i - 1);
    }
  }

  /** Every row of a file carries that file's label and flag, and all of
      its other columns. */
  lemma {:induction false} TaggedFileRows(files: Files, path: string)
    requires path in files
    ensures |TaggedFile(files, path).value| == |Records(files[path])|
    ensures forall i :: 0 <= i < |TaggedFile(files, path).value| ==>
      TaggedFile(files, path).value[i] == Tag(Records(files[path])[i], Label(Text.BaseName(path)), RfiSuccess(Text.BaseName(path)))
  {
    TagAllSpec(Records(files[path]), Label(Text.BaseName(path)), RfiSuccess(Text.BaseName(path)));
  }

  /** The tagged rows of all files, in the listing's order, before any
      `RFI` value is replaced. */
  function Tagged(files: Files, paths: seq<string>): Result<seq<Record>>
  {
    if paths == [] then Success([])
    else
      var n := |paths| - 1;
      match Tagged(files, paths[..n])
      case Failure(e) => Failure(e)
      case Success(rows) =>
        match TaggedFile(files, paths[n])
        case Failure(e) => Failure(e)
        case Success(more) => Success(rows + more)
  }

  /** Every listed file exists. */
  predicate AllExist(files: Files, paths: seq<string>)
  {
    forall i :: 0 <= i < |paths| ==> paths[i] in files
  }

  lemma {:induction false} AllExistStep(files: Files, paths: seq<string>)
    requires paths != []
    ensures AllExist(files, paths) <==> AllExist(files, paths[..|paths| - 1]) && paths[|paths| - 1] in files
  {
    var init := paths[..|paths| - 1];
    assert forall i :: 0 <= i < |init| ==> init[i] == paths[i];
  }

  /** The combined rows exist exactly when every listed file does. */
  lemma {:induction false} TaggedOk(files: Files, paths: seq<string>)
    ensures Tagged(files, paths).Success? <==> AllExist(files, paths)
  {
    if paths != [] {
      var n := |paths| - 1;
      TaggedOk(files, paths[..n]);
      AllExistStep(files, paths);
      var t := Tagged(files, paths[..n]);
      var f := TaggedFile(files, paths[n]);
      assert Tagged(files, paths).Success? <==> t.Success? && f.Success?;
    }
  }

  /** There are as many combined rows as the files have data rows together. */
  lemma {:induction false} TaggedLength(files: Files, paths: seq<string>)
    requires Tagged(files, paths).Success?
    ensures |Tagged(files, paths).value| == RowCount(files, paths)
  {
    if paths != [] {
      var n := |paths| - 1;
      var t := Tagged(files, paths[..n]);
      var f := TaggedFile(files, paths[n]);
      assert t.Success? && f.Success?;
      TaggedLength(files, paths[..n]);
      assert |Tagged(files, paths).value| == |t.value| + |f.value|;
    }
  }

  /** The number of data rows of the listed files, all of which exist. */
  function RowCount(files: Files, paths: seq<string>): nat
  {
    if paths == [] then 0
    else
      var n := |paths| - 1;
      RowCount(files, paths[..n]) + (if paths[n] in files then |Records(files[paths[n]])| else 0)
  }

  // ---------------------------------------------------------------------
  // Replacing a non-numeric RFI

  /** A row after the `RFI` check, and the raw value it was tallied under
      when the check failed. */
  datatype Marked = Marked(row: Record, bad: Option<string>)

  /** The value `isfloat(row['RFI'])` inspects: a missing column raises
      KeyError and the None of a short row makes `float` raise TypeError,
      which `isfloat` does not catch. A flag or a number converts. A text
      that does not parse is replaced by "error". */
  function MarkRow(row: Record, isFloat: string -> bool): Result<Marked>
  {
    match Get(row, "RFI")
    case None => Failure(KeyError("RFI"))
    case Some(v) =>
      match v
      case Missing => Failure(TypeError)
      case Text(s) =>
        if isFloat(s) then Success(Marked(row, None))
        else Success(Marked(Set(row, "RFI", Text("error")), Some(s)))
      case Flag(_) => Success(Marked(row, None))
      case Number(_) => Success(Marked(row, None))
  }

  /** `isfloat(row['RFI'])` does not raise. */
  predicate RfiReadable(row: Record)
  {
    Get(row, "RFI").Some? && Get(row, "RFI") != Some(Missing)
  }

  /** A row passes the check unless its `RFI` column is missing or None;
      a text `isfloat` rejects is replaced by "error" and reported, and
      everything else about the row is kept. */
  lemma {:induction false} MarkRowSpec(row: Record, isFloat: string -> bool)
    ensures var r := MarkRow(row, isFloat);
      && (r.Success? <==> RfiReadable(row))
      && (Get(row, "RFI") == None ==> r == Failure(KeyError("RFI")))
      && (Get(row, "RFI") == Some(Missing) ==> r == Failure(TypeError))
    ensures var r := MarkRow(row, isFloat);
      r.Success? ==>
        && Keys(r.value.row) == Keys(row)
        && (forall k :: k != "RFI" ==> Get(r.value.row, k) == Get(row, k))
        && (r.value.bad.Some? <==> exists s :: Get(row, "RFI") == Some(Text(s)) && !isFloat(s))
        && (r.value.bad.Some? ==>
              Get(row, "RFI") == Some(Text(r.value.bad.value)) && Get(r.value.row, "RFI") == Some(Text("error")))
        && (r.value.bad.None? ==> r.value.row == row)
  {
  }

  /** The rows after the `RFI` check and the raw bad values in row order. */
  datatype Combined = Combined(data: seq<Record>, bad: seq<string>)

  /** The value a row reported, as a list of zero or one entries. */
  function Listed(bad: Option<string>): seq<string>
  {
    if bad.Some? then [bad.value] else []
  }

  /** Checks the rows in order; the first row that raises ends the run. */
  function MarkAll(rows: seq<Record>, isFloat: string -> bool): Result<Combined>
  {
    if rows == [] then Success(Combined([], []))
    else
      var n := |rows| - 1;
      match MarkAll(rows[..n], isFloat)
      case Failure(e) => Failure(e)
      case Success(c) =>
        match MarkRow(rows[n], isFloat)
        case Failure(e) => Failure(e)
        case Success(m) =>
          Success(Combined(c.data + [m.row], c.bad + Listed(m.bad)))
  }

  /** The raw `RFI` texts `isfloat` rejects, in row order. */
  function BadValues(rows: seq<Record>, isFloat: string -> bool): seq<string>
  {
    if rows == [] then []
    else
      (match Get(rows[0], "RFI")
       case Some(Text(s)) => if isFloat(s) then [] else [s]
       case _ => [])
      + BadValues(rows[1..], isFloat)
  }

  lemma {:induction false} BadValuesAppend(a: seq<Record>, b: seq<Record>, isFloat: string -> bool)
    ensures BadValues(a + b, isFloat) == BadValues(a, isFloat) + BadValues(b, isFloat)
    decreases |a|
  {
    if a == [] {
      assert a + b == b;
    } else {
      assert (a + b)[1..] == a[1..] + b;
      BadValuesAppend(a[1..], b, isFloat);
    }
  }

  /** The check passes exactly when every row has an `RFI` value that is
      not None. */
  lemma {:induction false} MarkAllOk(rows: seq<Record>, isFloat: string -> bool)
    ensures MarkAll(rows, isFloat).Success? <==> forall i :: 0 <= i < |rows| ==> RfiReadable(rows[i])
  {
    if rows != [] {
      var n := |rows| - 1;
      var init := rows[..n];
      MarkAllOk(init, isFloat);
      ReadableSnoc(rows, init);
      MarkRowSpec(rows[n], isFloat);
      var c := MarkAll(init, isFloat);
      if c.Success? {
        assert MarkAll(rows, isFloat).Success? == MarkRow(rows[n], isFloat).Success?;
      } else {
        assert MarkAll(rows, isFloat) == c;
      }
    }
  }

  /** Every row of a non-empty run is readable when every row before the
      last one is and the last one is. */
  lemma {:induction false} ReadableSnoc(rows: seq<Record>, init: seq<Record>)
    requires rows != [] && init == rows[..|rows| - 1]
    ensures (forall i :: 0 <= i < |rows| ==> RfiReadable(rows[i])) <==>
      (forall i :: 0 <= i < |init| ==> RfiReadable(init[i])) && RfiReadable(rows[|init|])
  {
    assert forall i :: 0 <= i < |init| ==> init[i] == rows[i];
  }

  /** A passing check keeps the rows in order, one for one. */
  lemma {:induction false} MarkAllRows(rows: seq<Record>, isFloat: string -> bool)
    requires MarkAll(rows, isFloat).Success?
    ensures |MarkAll(rows, isFloat).value.data| == |rows|
    ensures forall i :: 0 <= i < |rows| ==>
      MarkRow(rows[i], isFloat).Success? && MarkAll(rows, isFloat).value.data[i] == MarkRow(rows[i], isFloat).value.row
  {
    MarkAllLength(rows, isFloat);
    forall i | 0 <= i < |rows|
      ensures MarkRow(rows[i], isFloat).Success? && MarkAll(rows, isFloat).value.data[i] == MarkRow(rows[i], isFloat).value.row
    {
      MarkAllRowAt(rows, isFloat, i);
    }
  }

  lemma {:induction false} MarkAllLength(rows: seq<Record>, isFloat: string -> bool)
    requires MarkAll(rows, isFloat).Success?
    ensures |MarkAll(rows, isFloat).value.data| == |rows|
  {
    if rows != [] {
      MarkAllLast(rows, isFloat);
      MarkAllLength(rows[..|rows| - 1], isFloat);
    }
  }

  /** The `i`-th checked row is the `i`-th row, checked. */
  lemma {:induction false} MarkAllRowAt(rows: seq<Record>, isFloat: string -> bool, i: nat)
    requires MarkAll(rows, isFloat).Success? && i < |rows|
    ensures MarkRow(rows[i], isFloat).Success?
    ensures i < |MarkAll(rows, isFloat).value.data| && MarkAll(rows, isFloat).value.data[i] == MarkRow(rows[i], isFloat).value.row
  {
    var n := |rows| - 1;
    var init := rows[..n];
    MarkAllLast(rows, isFloat);
    MarkAllLength(init, isFloat);
    var c := MarkAll(init, isFloat).value;
    var m := MarkRow(rows[n], isFloat).value;
    if i < n {
      MarkAllRowAt(init, isFloat, i);
      assert init[i] == rows[i];
      assert (c.data + [m.row])[i] == c.data[i];
    } else {
      assert (c.data + [m.row])[i] == m.row;
    }
  }

  /** A passing check tallies exactly the rejected texts, in row order. */
  lemma {:induction false} MarkAllBad(rows: seq<Record>, isFloat: string -> bool)
    requires MarkAll(rows, isFloat).Success?
    ensures MarkAll(rows, isFloat).value.bad == BadValues(rows, isFloat)
  {
    if rows != [] {
      var n := |rows| - 1;
      var init := rows[..n];
      var c := MarkAll(init, isFloat).value;
      var m := MarkRow(rows[n], isFloat).value;
      MarkAllBad(init, isFloat);
      assert MarkAll(rows, isFloat).value.bad == c.bad + Listed(m.bad);
      BadValuesAppend(init, [rows[n]], isFloat);
      assert init + [rows[n]] == rows;
      assert [rows[n]][1..] == [];
      assert BadValues([rows[n]], isFloat) == Listed(m.bad);
    }
  }

  /** Two runs of rows pass the check together exactly when each passes. */
  lemma {:induction false} MarkAllAppendOk(a: seq<Record>, b: seq<Record>, isFloat: string -> bool)
    ensures MarkAll(a + b, isFloat).Success? <==> MarkAll(a, isFloat).Success? && MarkAll(b, isFloat).Success?
  {
    MarkAllOk(a, isFloat);
    MarkAllOk(b, isFloat);
    MarkAllOk(a + b, isFloat);
    assert forall i :: 0 <= i < |a| ==> (a + b)[i] == a[i];
    assert forall i :: 0 <= i < |b| ==> (a + b)[|a| + i] == b[i];
  }

  /** A non-empty run checks when its front and its last row do. */
  lemma {:induction false} MarkAllLast(xs: seq<Record>, isFloat: string -> bool)
    requires xs != [] && MarkAll(xs, isFloat).Success?
    ensures var n := |xs| - 1;
      && MarkAll(xs[..n], isFloat).Success? && MarkRow(xs[n], isFloat).Success?
      && MarkAll(xs, isFloat).value ==
         Combined(MarkAll(xs[..n], isFloat).value.data + [MarkRow(xs[n], isFloat).value.row],
                  MarkAll(xs[..n], isFloat).value.bad + Listed(MarkRow(xs[n], isFloat).value.bad))
  {
  }

  /** Checking one more row. */
  lemma {:induction false} MarkAllSnoc(xs: seq<Record>, x: Record, isFloat: string -> bool)
    requires MarkAll(xs, isFloat).Success? && MarkRow(x, isFloat).Success?
    ensures MarkAll(xs + [x], isFloat) ==
      Success(Combined(MarkAll(xs, isFloat).value.data + [MarkRow(x, isFloat).value.row],
                       MarkAll(xs, isFloat).value.bad + Listed(MarkRow(x, isFloat).value.bad)))
  {
    var ys := xs + [x];
    assert ys[..|ys| - 1] == xs;
    assert ys[|ys| - 1] == x;
  }

  /** Checking two runs of rows one after the other is checking them
      together: the rows and the tallied values are concatenated. */
  lemma {:induction false} MarkAllAppend(a: seq<Record>, b: seq<Record>, isFloat: string -> bool)
    requires MarkAll(a, isFloat).Success? && MarkAll(b, isFloat).Success?
    ensures MarkAll(a + b, isFloat) ==
      Success(Combined(MarkAll(a, isFloat).value.data + MarkAll(b, isFloat).value.data,
                       MarkAll(a, isFloat).value.bad + MarkAll(b, isFloat).value.bad))
    decreases |b|
  {
    var ca := MarkAll(a, isFloat).value;
    if b == [] {
      Seqs.AppendNil(a);
      Seqs.AppendNil(ca.data);
      Seqs.AppendNil(ca.bad);
    } else {
      var n := |b| - 1;
      var init := b[..n];
      var x := b[n];
      MarkAllLast(b, isFloat);
      var ci := MarkAll(init, isFloat).value;
      var m := MarkRow(x, isFloat).value;
      MarkAllAppend(a, init, isFloat);
      Seqs.SnocSplit(a, b);
      MarkAllSnoc(a + init, x, isFloat);
      Seqs.Assoc(ca.data, ci.data, [m.row]);
      Seqs.Assoc(ca.bad, ci.bad, Listed(m.bad));
    }
  }


  /** The rows of every file, tagged and checked file by file. A file that
      cannot be read or a row that raises ends the run. */
  function Combine(files: Files, paths: seq<string>, isFloat: string -> bool): Result<Combined>
  {
    if paths == [] then Success(Combined([], []))
    else
      var n := |paths| - 1;
      CombineNext(Combine(files, paths[..n], isFloat), TaggedFile(files, paths[n]), isFloat)
  }

  /** One round of the reading loop: the rows so far, then the next file's
      tagged rows checked, unless something has raised. */
  function CombineNext(sofar: Result<Combined>, file: Result<seq<Record>>, isFloat: string -> bool): Result<Combined>
  {
    match sofar
    case Failure(e) => Failure(e)
    case Success(c) =>
      match file
      case Failure(e) => Failure(e)
      case Success(rows) =>
        match MarkAll(rows, isFloat)
        case Failure(e) => Failure(e)
        case Success(m) => Success(Combined(c.data + m.data, c.bad + m.bad))
  }

  /** Checking file by file gives what checking all tagged rows at once
      gives: the combined data is the concatenation, in listing order, of
      each file's checked rows. (Which error is raised may differ, since
      the files are read one at a time.) */
  lemma {:induction false} CombineFlat(files: Files, paths: seq<string>, isFloat: string -> bool)
    ensures Combine(files, paths, isFloat).Success? <==>
      Tagged(files, paths).Success? && MarkAll(Tagged(files, paths).value, isFloat).Success?
    ensures Combine(files, paths, isFloat).Success? ==>
      Combine(files, paths, isFloat) == MarkAll(Tagged(files, paths).value, isFloat)
  {
    if paths != [] {
      var n := |paths| - 1;
      CombineFlat(files, paths[..n], isFloat);
      var t := Tagged(files, paths[..n]);
      var f := TaggedFile(files, paths[n]);
      if t.Success? && f.Success? {
        assert Tagged(files, paths) == Success(t.value + f.value);
        MarkAllAppendOk(t.value, f.value, isFloat);
        if MarkAll(t.value, isFloat).Success? && MarkAll(f.value, isFloat).Success? {
          MarkAllAppend(t.value, f.value, isFloat);
        }
      }
    }
  }

  // ---------------------------------------------------------------------
  // Bucketing the bad values

  /** The `errors` dict before any file is read. */
  const NoErrors: Record := Empty

  /** The count stored under `v`, or 0 when there is none. */
  function CountOf(errors: Record, v: string): nat
  {
    match Get(errors, v)
    case Some(Number(n)) => n
    case _ => 0
  }

  /** The `errors` dict after tallying `bad` in order: a new value is added
      at the end with count 1, a known one has its count raised in place. */
  function Tally(bad: seq<string>): Record
  {
    if bad == [] then NoErrors
    else Bump(Tally(bad[..|bad| - 1]), bad[|bad| - 1])
  }

  /** `errors[v] = errors.get(v, 0) + 1` */
  function Bump(errors: Record, v: string): Record
  {
    Set(errors, v, Number(CountOf(errors, v) + 1))
  }

  /** The tally lists each value once. */
  lemma {:induction false} TallyDistinct(bad: seq<string>)
    ensures Distinct(Keys(Tally(bad)))
  {
    if bad != [] {
      var init := bad[..|bad| - 1];
      var b := bad[|bad| - 1];
      TallyDistinct(init);
      SetDistinct(Tally(init), b, Number(CountOf(Tally(init), b) + 1));
    }
  }

  /** Each value is tallied with the number of times it occurs, and only
      values that occur are tallied. */
  lemma {:induction false} TallyCounts(bad: seq<string>, v: string)
    ensures Get(Tally(bad), v) == if v in bad then Some(Number(multiset(bad)[v])) else None
  {
    if bad != [] {
      var n := |bad| - 1;
      TallyCounts(bad[..n], v);
      if v == bad[n] {
        CountOfTally(bad[..n], v);
        TallyStepSame(bad, v);
      } else {
        TallyStepOther(bad, v);
      }
    }
  }

  /** Tallying a value raises its own count by one. */
  lemma {:induction false} TallyStepSame(bad: seq<string>, v: string)
    requires bad != [] && v == bad[|bad| - 1]
    requires CountOf(Tally(bad[..|bad| - 1]), v) == multiset(bad[..|bad| - 1])[v]
    ensures Get(Tally(bad), v) == Some(Number(multiset(bad)[v]))
  {
    var init := bad[..|bad| - 1];
    var t := Tally(init);
    TallyLast(bad);
    BumpSame(t, v);
    assert Get(Tally(bad), v) == Some(Number(CountOf(t, v) + 1));
    MultisetLast(bad);
    assert multiset(bad)[v] == CountOf(t, v) + 1;
  }

  lemma {:induction false} TallyLast(bad: seq<string>)
    requires bad != []
    ensures Tally(bad) == Bump(Tally(bad[..|bad| - 1]), bad[|bad| - 1])
  {
  }

  lemma {:induction false} MultisetLast(bad: seq<string>)
    requires bad != []
    ensures multiset(bad)[bad[|bad| - 1]] == multiset(bad[..|bad| - 1])[bad[|bad| - 1]] + 1
  {
    assert bad == bad[..|bad| - 1] + [bad[|bad| - 1]];
  }

  lemma {:induction false} CountOfTally(init: seq<string>, v: string)
    requires Get(Tally(init), v) == if v in init then Some(Number(multiset(init)[v])) else None
    ensures CountOf(Tally(init), v) == multiset(init)[v]
  {
    var t := Tally(init);
    if v in init {
      CountOfSome(t, v, multiset(init)[v]);
    } else {
      CountOfNone(t, v);
    }
  }

  lemma {:induction false} CountOfSome(t: Record, v: string, n: nat)
    requires Get(t, v) == Some(Number(n))
    ensures CountOf(t, v) == n
  {
  }

  lemma {:induction false} CountOfNone(t: Record, v: string)
    requires Get(t, v) == None
    ensures CountOf(t, v) == 0
  {
  }

  lemma {:induction false} BumpSame(t: Record, v: string)
    ensures Get(Bump(t, v), v) == Some(Number(CountOf(t, v) + 1))
  {
  }

  /** Tallying a value leaves the other counts alone. */
  lemma {:induction false} TallyStepOther(bad: seq<string>, v: string)
    requires bad != [] && v != bad[|bad| - 1]
    requires var init := bad[..|bad| - 1];
      Get(Tally(init), v) == if v in init then Some(Number(multiset(init)[v])) else None
    ensures Get(Tally(bad), v) == if v in bad then Some(Number(multiset(bad)[v])) else None
  {
    var init := bad[..|bad| - 1];
    var b := bad[|bad| - 1];
    TallyLast(bad);
    BumpOther(Tally(init), b, v);
    MultisetOther(bad, v);
  }

  lemma {:induction false} BumpOther(t: Record, b: string, v: string)
    requires v != b
    ensures Get(Bump(t, b), v) == Get(t, v)
  {
  }

  lemma {:induction false} MultisetOther(bad: seq<string>, v: string)
    requires bad != [] && v != bad[|bad| - 1]
    ensures multiset(bad)[v] == multiset(bad[..|bad| - 1])[v]
    ensures v in bad <==> v in bad[..|bad| - 1]
  {
    assert bad == bad[..|bad| - 1] + [bad[|bad| - 1]];
  }

  /** The position of the first occurrence of `v`. */
  function FirstIndex(bad: seq<string>, v: string): (i: nat)
    requires v in bad
    ensures i < |bad| && bad[i] == v && v !in bad[..i]
  {
    if bad[0] == v then 0
    else
      var i := FirstIndex(bad[1..], v);
      assert bad[..i + 1] == [bad[0]] + bad[1..][..i];
      i + 1
  }

  /** Only the first occurrence has no earlier one. */
  lemma {:induction false} FirstIndexUnique(bad: seq<string>, v: string, k: nat)
    requires k < |bad| && bad[k] == v && v !in bad[..k]
    ensures FirstIndex(bad, v) == k
  {
    var f := FirstIndex(bad, v);
    assert forall x :: 0 <= x < k ==> bad[..k][x] == bad[x];
    assert forall x :: 0 <= x < f ==> bad[..f][x] == bad[x];
  }

  /** The tallied values are exactly the values that occur. */
  lemma {:induction false} TallyMembers(bad: seq<string>)
    ensures forall v :: v in Keys(Tally(bad)) <==> v in bad
  {
    forall v ensures v in Keys(Tally(bad)) <==> v in bad {
      TallyCounts(bad, v);
    }
  }

  /** A new value goes after the known ones, a known one keeps its place. */
  lemma {:induction false} TallyKeysStep(bad: seq<string>)
    requires bad != []
    ensures var init := bad[..|bad| - 1];
      Keys(Tally(bad)) == if bad[|bad| - 1] in init then Keys(Tally(init)) else Keys(Tally(init)) + [bad[|bad| - 1]]
  {
    var init := bad[..|bad| - 1];
    TallyMembers(init);
    assert Tally(bad) == Bump(Tally(init), bad[|bad| - 1]);
  }

  /** The distinct values of `bad`, each where it first occurs. */
  function Dedup(bad: seq<string>): seq<string>
  {
    if bad == [] then []
    else
      var init := bad[..|bad| - 1];
      if bad[|bad| - 1] in init then Dedup(init) else Dedup(init) + [bad[|bad| - 1]]
  }

  /** The tally lists the distinct bad values in first-seen order. */
  lemma {:induction false} TallyKeys(bad: seq<string>)
    ensures Keys(Tally(bad)) == Dedup(bad)
  {
    if bad != [] {
      TallyKeys(bad[..|bad| - 1]);
      TallyKeysStep(bad);
    }
  }

  /** `Dedup(bad)` holds exactly the values of `bad`. */
  lemma {:induction false} DedupMembers(bad: seq<string>)
    ensures forall v :: v in Dedup(bad) <==> v in bad
  {
    if bad != [] {
      var init := bad[..|bad| - 1];
      DedupMembers(init);
      assert bad == init + [bad[|bad| - 1]];
    }
  }

  /** `Dedup(bad)` lists the values in the order of their first occurrence. */
  lemma {:induction false} DedupOrder(bad: seq<string>, i: nat, j: nat)
    requires i < j < |Dedup(bad)|
    ensures Dedup(bad)[i] in bad && Dedup(bad)[j] in bad
    ensures FirstIndex(bad, Dedup(bad)[i]) < FirstIndex(bad, Dedup(bad)[j])
  {
    DedupMembers(bad);
    var n := |bad| - 1;
    var init := bad[..n];
    var b := bad[n];
    DedupMembers(init);
    var ds := Dedup(init);
    var vi := Dedup(bad)[i];
    var vj := Dedup(bad)[j];
    assert bad == init + [b];
    assert vi == ds[i];
    FirstIndexAppend(init, b, vi);
    if j < |ds| {
      assert vj == ds[j];
      DedupOrder(init, i, j);
      FirstIndexAppend(init, b, vj);
    } else {
      FirstIndexLast(init, b);
    }
  }

  /** A value first occurring at the end has the last index. */
  lemma {:induction false} FirstIndexLast(init: seq<string>, b: string)
    requires b !in init
    ensures FirstIndex(init + [b], b) == |init|
  {
    assert (init + [b])[..|init|] == init;
    FirstIndexUnique(init + [b], b, |init|);
  }

  /** An occurrence added at the end does not move a first occurrence. */
  lemma {:induction false} FirstIndexAppend(init: seq<string>, b: string, v: string)
    requires v in init
    ensures v in init + [b] && FirstIndex(init + [b], v) == FirstIndex(init, v)
  {
    var k := FirstIndex(init, v);
    assert (init + [b])[..k] == init[..k];
    FirstIndexUnique(init + [b], v, k);
  }

  /** The counts stored under `ks`, added up. */
  function SumCounts(errors: Record, ks: seq<string>): nat
  {
    if ks == [] then 0
    else SumCounts(errors, ks[..|ks| - 1]) + CountOf(errors, ks[|ks| - 1])
  }

  /** Raising the count of one key raises the sum by one if the key is listed. */
  lemma {:induction false} SumBump(t: Record, u: Record, ks: seq<string>, b: string)
    requires Distinct(ks)
    requires forall k :: k != b ==> CountOf(u, k) == CountOf(t, k)
    requires CountOf(u, b) == CountOf(t, b) + 1
    ensures SumCounts(u, ks) == SumCounts(t, ks) + (if b in ks then 1 else 0)
  {
    if ks != [] {
      var n := |ks| - 1;
      var init := ks[..n];
      SumBump(t, u, init, b);
      Seqs.InitLast(ks);
    }
  }

  /** The counts add up to the number of bad values. */
  lemma {:induction false} TallySum(bad: seq<string>)
    ensures SumCounts(Tally(bad), Keys(Tally(bad))) == |bad|
  {
    if bad != [] {
      var n := |bad| - 1;
      var init := bad[..n];
      var b := bad[n];
      var t := Tally(init);
      var u := Tally(bad);
      TallySum(init);
      assert u == Bump(t, b);
      forall k | k != b ensures CountOf(u, k) == CountOf(t, k) {
        assert Get(u, k) == Get(t, k);
      }
      TallyDistinct(init);
      SumBump(t, u, Keys(t), b);
      if b !in Keys(t) {
        assert Keys(u) == Keys(t) + [b];
        assert Keys(u)[..|Keys(u)| - 1] == Keys(t);
      }
    }
  }

  /** The number of rows whose `RFI` reads "error". */
  function ErrorRows(data: seq<Record>): nat
  {
    if data == [] then 0
    else ErrorRows(data[..|data| - 1]) + (if Get(data[|data| - 1], "RFI") == Some(Text("error")) then 1 else 0)
  }

  /** Since `isfloat("error")` is false, a row reads "error" after the
      check exactly when its value was tallied: the tally has as many
      entries as there are "error" rows. */
  lemma {:induction false} ErrorRowsCounted(rows: seq<Record>, isFloat: string -> bool)
    requires !isFloat("error") && MarkAll(rows, isFloat).Success?
    ensures ErrorRows(MarkAll(rows, isFloat).value.data) == |MarkAll(rows, isFloat).value.bad|
  {
    if rows != [] {
      var n := |rows| - 1;
      var init := rows[..n];
      var c := MarkAll(init, isFloat).value;
      var m := MarkRow(rows[n], isFloat).value;
      ErrorRowsCounted(init, isFloat);
      MarkRowSpec(rows[n], isFloat);
      var data := c.data + [m.row];
      assert MarkAll(rows, isFloat).value == Combined(data, c.bad + Listed(m.bad));
      assert data[..|data| - 1] == c.data;
      assert Get(m.row, "RFI") == Some(Text("error")) <==> m.bad.Some?;
    }
  }

  /** `{'name': error, 'count': errors[error]}` */
  function CountRecord(name: string, count: nat): (r: Record)
    ensures Keys(r) == ["name", "count"]
    ensures Get(r, "name") == Some(Text(name)) && Get(r, "count") == Some(Number(count))
  {
    var tail := Entry("count", Number(count), Empty);
    assert Keys(tail) == ["count"];
    Entry("name", Text(name), tail)
  }

  /** `errorCounts`: one record per listed value, in the listed order. */
  function ErrorList(errors: Record, ks: seq<string>): (r: seq<Record>)
    ensures |r| == |ks|
  {
    if ks == [] then []
    else
      var n := |ks| - 1;
      ErrorList(errors, ks[..n]) + [CountRecord(ks[n], CountOf(errors, ks[n]))]
  }

  /** The `i`-th record of the list describes the `i`-th value. */
  lemma {:induction false} ErrorListAt(errors: Record, ks: seq<string>, i: nat)
    requires i < |ks|
    ensures ErrorList(errors, ks)[i] == CountRecord(ks[i], CountOf(errors, ks[i]))
  {
    var n := |ks| - 1;
    var front := ErrorList(errors, ks[..n]);
    var last := CountRecord(ks[n], CountOf(errors, ks[n]));
    assert ErrorList(errors, ks) == front + [last];
    if i < n {
      assert ks[..n][i] == ks[i];
      ErrorListAt(errors, ks[..n], i);
      assert (front + [last])[i] == front[i];
    } else {
      assert (front + [last])[i] == last;
    }
  }

  /** The error table: one `{name, count}` record per distinct bad value,
      in first-seen order, counting that value's occurrences. */
  lemma {:induction false} ErrorTable(bad: seq<string>, i: nat)
    requires i < |Keys(Tally(bad))|
    ensures var e := ErrorList(Tally(bad), Keys(Tally(bad)))[i];
      var v := Keys(Tally(bad))[i];
      && Keys(e) == ["name", "count"]
      && Get(e, "name") == Some(Text(v))
      && Get(e, "count") == Some(Number(multiset(bad)[v]))
      && v in bad
  {
    var t := Tally(bad);
    var v := Keys(t)[i];
    ErrorListAt(t, Keys(t), i);
    TallyCounts(bad, v);
    var e := CountRecord(v, CountOf(t, v));
    assert ErrorList(t, Keys(t))[i] == e;
    assert v in Keys(t);
    assert v in bad && CountOf(t, v) == multiset(bad)[v];
  }

  // ---------------------------------------------------------------------
  // combineData

  const FullAnalysisPath: string := "output/fullAnalysis.csv"
  const ErrorCountPath: string := "output/errorCount.csv"

  /** A list of dicts, as handed to `buildCsvFromData`. */
  function AsItems(recs: seq<Record>): (items: seq<Item>)
    ensures DictItems(items) == recs
  {
    if recs == [] then [] else [Dict(recs[0])] + AsItems(recs[1..])
  }

  /** The store and the outcome after `combineData`: nothing is written
      when reading or checking raises; otherwise the combined table is
      written, and then, if that passed, the error table. */
  function CombineEffect(files: Files, paths: seq<string>, isFloat: string -> bool): (Files, Outcome)
  {
    match Combine(files, paths, isFloat)
    case Failure(e) => (files, Fail(e))
    case Success(c) =>
      var full := BuildFromData(files, FullAnalysisPath, AsItems(c.data));
      if full.1.Fail? then full
      else
        var errors := Tally(c.bad);
        BuildFromData(full.0, ErrorCountPath, AsItems(ErrorList(errors, Keys(errors))))
  }

  /** With no rows at all the first `buildCsvFromData` raises
      StopIteration and nothing is written. */
  lemma {:induction false} NoRowsCrash(files: Files, paths: seq<string>, isFloat: string -> bool)
    requires Combine(files, paths, isFloat).Success? && Combine(files, paths, isFloat).value.data == []
    ensures CombineEffect(files, paths, isFloat) == (files, Fail(StopIteration))
  {
  }

  /** With no bad `RFI` value the error list holds no dict, so once the
      combined table is written the second `buildCsvFromData` raises
      StopIteration: `combineData` never ends normally without a bad value. */
  lemma {:induction false} NoBadValuesCrash(files: Files, paths: seq<string>, isFloat: string -> bool)
    requires Combine(files, paths, isFloat).Success? && Combine(files, paths, isFloat).value.bad == []
    ensures CombineEffect(files, paths, isFloat).1.Fail?
    ensures var full := BuildFromData(files, FullAnalysisPath, AsItems(Combine(files, paths, isFloat).value.data));
      full.1 == Pass ==> CombineEffect(files, paths, isFloat) == (full.0, Fail(StopIteration))
  {
    var c := Combine(files, paths, isFloat).value;
    assert Keys(Tally(c.bad)) == [];
    BuildFromDataNoDict(files, FullAnalysisPath, AsItems(c.data));
  }

  /** Once a row raises, later rows change nothing. */
  lemma {:induction false} MarkAllFailed(xs: seq<Record>, k: nat, isFloat: string -> bool)
    requires k <= |xs| && MarkAll(xs[..k], isFloat).Failure?
    ensures MarkAll(xs, isFloat) == MarkAll(xs[..k], isFloat)
    decreases |xs|
  {
    if k == |xs| {
      assert xs[..k] == xs;
    } else {
      var n := |xs| - 1;
      assert xs[..n][..k] == xs[..k];
      MarkAllFailed(xs[..n], k, isFloat);
    }
  }

  /** The `errors` dict after tallying `vs`, in order, on top of `errors`. */
  function BumpAll(errors: Record, vs: seq<string>): Record
  {
    if vs == [] then errors else Bump(BumpAll(errors, vs[..|vs| - 1]), vs[|vs| - 1])
  }

  /** Tallying more values continues the tally. */
  lemma {:induction false} BumpAllTally(bad: seq<string>, vs: seq<string>)
    ensures BumpAll(Tally(bad), vs) == Tally(bad + vs)
  {
    if vs == [] {
      assert bad + vs == bad;
    } else {
      var n := |vs| - 1;
      var all := bad + vs;
      assert all[..|all| - 1] == bad + vs[..n];
      assert all[|all| - 1] == vs[n];
      TallyLast(all);
      BumpAllLast(Tally(bad), vs);
      BumpAllTally(bad, vs[..n]);
    }
  }

  lemma {:induction false} BumpAllLast(errors: Record, vs: seq<string>)
    requires vs != []
    ensures BumpAll(errors, vs) == Bump(BumpAll(errors, vs[..|vs| - 1]), vs[|vs| - 1])
  {
  }

  /** Tallying what one row reported. */
  lemma {:induction false} BumpAllStep(errors: Record, vs: seq<string>, bad: Option<string>)
    ensures BumpAll(errors, vs + Listed(bad)) ==
      if bad.Some? then Bump(BumpAll(errors, vs), bad.value) else BumpAll(errors, vs)
  {
    if bad.Some? {
      assert (vs + [bad.value])[..|vs|] == vs;
    } else {
      assert vs + [] == vs;
    }
  }

  /** The source's two-step update of a value not yet counted (insert 0,
      then add one) is `Bump`. */
  lemma {:induction false} Increment(errors: Record, t: Record, v: string)
    requires v !in Keys(errors) && t == Set(errors, v, Number(0))
    ensures Set(t, v, Number(CountOf(t, v) + 1)) == Bump(errors, v)
  {
    assert CountOf(t, v) == 0 && CountOf(errors, v) == 0;
    SetTwice(errors, v, Number(0), Number(1));
  }

  /** `rows[j] = x` leaves the rows before and after `j` alone. */
  lemma {:induction false} UpdateAt(rows: seq<Record>, j: nat, x: Record)
    requires j < |rows|
    ensures rows[j := x][..j + 1] == rows[..j] + [x]
    ensures rows[j := x][j + 1..] == rows[j + 1..]
  {
  }

  /** A row the check accepts extends the checked prefix by its marked
      row and what it reported. */
  lemma {:induction false} MarkStep(xs: seq<Record>, j: nat, done: Combined, isFloat: string -> bool)
    requires j < |xs| && MarkAll(xs[..j], isFloat) == Success(done)
    requires MarkRow(xs[j], isFloat).Success?
    ensures var m := MarkRow(xs[j], isFloat).value;
      MarkAll(xs[..j + 1], isFloat) ==
        Success(Combined(done.data + [m.row], done.bad + Listed(m.bad)))
  {
    var ys := xs[..j + 1];
    assert ys[..j] == xs[..j];
    assert ys[j] == xs[j];
  }

  /** A row that raises ends the loop with its error. */
  lemma {:induction false} MarkStepFail(xs: seq<Record>, j: nat, done: Combined, isFloat: string -> bool)
    requires j < |xs| && MarkAll(xs[..j], isFloat) == Success(done)
    requires MarkRow(xs[j], isFloat).Failure?
    ensures MarkAll(xs, isFloat) == Failure(MarkRow(xs[j], isFloat).error)
  {
    var ys := xs[..j + 1];
    assert ys[..j] == xs[..j];
    assert ys[j] == xs[j];
    assert MarkAll(ys, isFloat) == Failure(MarkRow(xs[j], isFloat).error);
    MarkAllFailed(xs, j + 1, isFloat);
  }

  /** One pass of the inner loop of `combineData`: a rejected `RFI` text
      is counted in the `errors` dict and replaced by "error". */
  method CheckRow(row: Record, isFloat: string -> bool, errors: Record) returns (r: Result<(Record, Record)>)
    ensures MarkRow(row, isFloat).Failure? ==> r == Failure(MarkRow(row, isFloat).error)
    ensures MarkRow(row, isFloat).Success? ==>
      var m := MarkRow(row, isFloat).value;
      r == Success((m.row, if m.bad.Some? then Bump(errors, m.bad.value) else errors))
  {
    var rfi := Get(row, "RFI");
    if rfi.None? {
      return Failure(KeyError("RFI"));
    }
    if rfi.value == Missing {
      return Failure(TypeError);
    }
    if rfi.value.Text? && !isFloat(rfi.value.s) {
      var counts := CountError(errors, rfi.value.s);
      return Success((Set(row, "RFI", Text("error")), counts));
    }
    return Success((row, errors));
  }

  /** `errorCounts[raw] += 1`, after inserting 0 for a value not yet seen. */
  method CountError(errors: Record, raw: string) returns (counts: Record)
    ensures counts == Bump(errors, raw)
  {
    if raw !in Keys(errors) {
      var zeroed := Set(errors, raw, Number(0));
      Increment(errors, zeroed, raw);
      counts := Set(zeroed, raw, Number(CountOf(zeroed, raw) + 1));
    } else {
      counts := Set(errors, raw, Number(CountOf(errors, raw) + 1));
    }
  }

  /** The loop state of `MarkRows` after `j` rows: those rows are checked
      and marked in place, the rest are untouched, and `found` lists what
      they reported. */
  ghost predicate MarkedPrefix(xs: seq<Record>, j: nat, rows: seq<Record>, found: seq<string>, isFloat: string -> bool)
  {
    && j <= |xs| == |rows|
    && rows[j..] == xs[j..]
    && MarkAll(xs[..j], isFloat) == Success(Combined(rows[..j], found))
  }

  /** One more accepted row keeps the loop state. */
  lemma {:induction false} MarkedPrefixStep(xs: seq<Record>, j: nat, rows: seq<Record>, found: seq<string>, isFloat: string -> bool)
    requires MarkedPrefix(xs, j, rows, found, isFloat) && j < |xs|
    requires MarkRow(xs[j], isFloat).Success?
    ensures var m := MarkRow(xs[j], isFloat).value;
      MarkedPrefix(xs, j + 1, rows[j := m.row], found + Listed(m.bad), isFloat)
  {
    var m := MarkRow(xs[j], isFloat).value;
    assert rows[j] == rows[j..][0] == xs[j];
    MarkStep(xs, j, Combined(rows[..j], found), isFloat);
    UpdateAt(rows, j, m.row);
    assert rows[j := m.row][j + 1..] == rows[j..][1..] == xs[j..][1..] == xs[j + 1..];
  }

  /** The inner loop of `combineData` over one file's tagged rows: each
      row is checked in turn and overwritten in place by its marked form. */
  method MarkRows(extractedData: seq<Record>, isFloat: string -> bool, errors: Record)
    returns (r: Result<(seq<Record>, Record)>)
    ensures MarkAll(extractedData, isFloat).Failure? ==> r == Failure(MarkAll(extractedData, isFloat).error)
    ensures MarkAll(extractedData, isFloat).Success? ==>
      r == Success((MarkAll(extractedData, isFloat).value.data, BumpAll(errors, MarkAll(extractedData, isFloat).value.bad)))
  {
    var rows := extractedData;
    var tally := errors;
    ghost var found: seq<string> := [];
    assert extractedData[..0] == [];
    for j := 0 to |rows|
      invariant MarkedPrefix(extractedData, j, rows, found, isFloat)
      invariant tally == BumpAll(errors, found)
    {
      assert rows[j] == rows[j..][0] == extractedData[j];
      var step := CheckRow(rows[j], isFloat, tally);
      if step.Failure? {
        MarkStepFail(extractedData, j, Combined(rows[..j], found), isFloat);
        return Failure(step.error);
      }
      ghost var bad := MarkRow(rows[j], isFloat).value.bad;
      MarkedPrefixStep(extractedData, j, rows, found, isFloat);
      BumpAllStep(errors, found, bad);
      rows := rows[j := step.value.0];
      tally := step.value.1;
      found := found + Listed(bad);
    }
    assert extractedData[..|rows|] == extractedData;
    assert rows[..|rows|] == rows;
    return Success((rows, tally));
  }

  /** Reading one more file: its tagged rows are checked, and the first
      error, of the reading or of the check, ends the run. */
  lemma {:induction false} CombineStep(files: Files, paths: seq<string>, i: nat, isFloat: string -> bool)
    requires i < |paths|
    ensures Combine(files, paths[..i + 1], isFloat) ==
      CombineNext(Combine(files, paths[..i], isFloat), TaggedFile(files, paths[i]), isFloat)
  {
    var ps := paths[..i + 1];
    assert ps[..i] == paths[..i];
    assert ps[i] == paths[i];
  }

  /** Once a file raises, later files change nothing. */
  lemma {:induction false} CombineFailed(files: Files, paths: seq<string>, k: nat, isFloat: string -> bool)
    requires k <= |paths| && Combine(files, paths[..k], isFloat).Failure?
    ensures Combine(files, paths, isFloat) == Combine(files, paths[..k], isFloat)
    decreases |paths|
  {
    if k == |paths| {
      assert paths[..k] == paths;
    } else {
      var n := |paths| - 1;
      assert paths[..n][..k] == paths[..k];
      CombineFailed(files, paths[..n], k, isFloat);
    }
  }

  /** The first loop of `combineData`: every listed file is read, its rows
      tagged and checked, and the bad values tallied in `errors`. */
  method ReadAll(files: Files, paths: seq<string>, isFloat: string -> bool) returns (r: Result<(seq<Record>, Record)>)
    ensures Combine(files, paths, isFloat).Failure? ==> r == Failure(Combine(files, paths, isFloat).error)
    ensures Combine(files, paths, isFloat).Success? ==>
      r == Success((Combine(files, paths, isFloat).value.data, Tally(Combine(files, paths, isFloat).value.bad)))
  {
    var data: seq<Record> := [];
    var errors: Record := NoErrors;
    ghost var bad: seq<string> := [];
    for i := 0 to |paths|
      invariant Combine(files, paths[..i], isFloat) == Success(Combined(data, bad))
      invariant errors == Tally(bad)
    {
      CombineStep(files, paths, i, isFloat);
      var file := paths[i];
      var fileName := Text.BaseName(file);
      var algorithm := Label(fileName);
      var rfiSuccess := RfiSuccess(fileName);
      var extracted := ExtractData(files, file);
      if extracted.Failure? {
        CombineFailed(files, paths, i + 1, isFloat);
        return Failure(extracted.error);
      }
      var extractedData := TagAll(extracted.value, algorithm, rfiSuccess);
      assert extractedData == TaggedFile(files, file).value;
      var marked := MarkRows(extractedData, isFloat, errors);
      if marked.Failure? {
        CombineFailed(files, paths, i + 1, isFloat);
        return Failure(marked.error);
      }
      ghost var m := MarkAll(extractedData, isFloat).value;
      BumpAllTally(bad, m.bad);
      data := data + marked.value.0;
      errors := marked.value.1;
      bad := bad + m.bad;
    }
    assert paths[..|paths|] == paths;
    return Success((data, errors));
  }

  /** `combineData`: reads and checks every listed file, then writes the
      combined table and the error table. */
  method CombineData(store: FileStore, paths: seq<string>, isFloat: string -> bool) returns (r: Outcome)
    modifies store
    ensures (store.files, r) == CombineEffect(old(store.files), paths, isFloat)
  {
    var read := ReadAll(store.files, paths, isFloat);
    if read.Failure? {
      return Fail(read.error);
    }
    var data := read.value.0;
    var errors := read.value.1;
    var errorCounts := CountList(errors);
    r := store.BuildCsvFromData(FullAnalysisPath, AsItems(data));
    if r.Fail? {
      return;
    }
    r := store.BuildCsvFromData(ErrorCountPath, AsItems(errorCounts));
  }

  /** The second loop of `combineData`: one `{name, count}` record per key
      of `errors`, in key order. */
  method CountList(errors: Record) returns (errorCounts: seq<Record>)
    ensures errorCounts == ErrorList(errors, Keys(errors))
  {
    var errorList := Keys(errors);
    errorCounts := [];
    for k := 0 to |errorList|
      invariant errorCounts == ErrorList(errors, errorList[..k])
    {
      assert errorList[..k + 1][..k] == errorList[..k];
      var error := errorList[k];
      errorCounts := errorCounts + [CountRecord(error, CountOf(errors, error))];
    }
    assert errorList[..|errorList|] == errorList;
  }
}
