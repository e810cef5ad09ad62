/** The CSV table store (source/csvInterface.py).

    The file system is a map from path to table, a table being the rows that
    `csv.reader` would yield for the file; for every table the module writes,
    the first row is the header and the others are data rows. Writers append
    to that map; readers are functions of it. */
module CsvInterface {
  import opened Wrappers
  import opened Dicts
  import Seqs
  import Text

  type Row = seq<string>
  type Table = seq<Row>
  type Files = map<string, Table>

  /** An element of the list handed to the bulk writers, which skip
      everything that is not a dict. */
  datatype Item = Dict(rec: Record) | NotDict

  /** The fixed header `buildCsv` writes. */
  const FullAnalysisHeader: Row := [
    "File", "DNE", "Convex_DNE", "Concave_DNE", "Convex_Area", "Concave_Area", "RFI",
    "3D_Area", "2D_Area", "Alpha", "OPCR", "0 deg.", "5.625 deg.", "11.25 deg.",
    "16.875 deg.", "22.5 deg.", "28.125 deg.", "33.75 deg.", "39.375 deg.", "Slope"]

  /** The text `csv.writer` writes for one cell: `str(value)`, and the empty
      string for None. */
  function Render(v: Value): string
  {
    match v
    case Text(s) => s
    case Flag(b) => if b then "True" else "False"
    case Number(n) => Text.NatToString(n)
    case Missing => ""
  }

  // ---------------------------------------------------------------------
  // Writing

  /** The cells `writeRow` emits for `rec` under `keys`: the value of each
      key in key order, or KeyError for the first key `rec` lacks. */
  function Project(rec: Record, keys: seq<string>): Result<Row>
  {
    if keys == [] then Success([])
    else
      var init := keys[..|keys| - 1];
      var last := keys[|keys| - 1];
      match Project(rec, init)
      case Failure(e) => Failure(e)
      case Success(row) =>
        match Get(rec, last)
        case None => Failure(KeyError(last))
        case Some(v) => Success(row + [Render(v)])
  }

  /** `writeRow` succeeds exactly when every key is present, and then
      emits one cell per key, the key's value, dropping the record's other
      keys. */
  lemma {:induction false} ProjectSpec(rec: Record, keys: seq<string>)
    ensures Project(rec, keys).Success? <==> forall i :: 0 <= i < |keys| ==> keys[i] in Keys(rec)
    ensures Project(rec, keys).Success? ==> |Project(rec, keys).value| == |keys|
    ensures Project(rec, keys).Success? ==> forall i :: 0 <= i < |keys| ==>
      Project(rec, keys).value[i] == Render(Get(rec, keys[i]).value)
  {
    if keys != [] {
      var n := |keys| - 1;
      var init := keys[..n];
      ProjectSpec(rec, init);
      var p := Project(rec, init);
      if p.Success? {
        var g := Get(rec, keys[n]);
        if g.Some? {
          var row := p.value + [Render(g.value)];
          assert Project(rec, keys) == Success(row);
          forall i | 0 <= i < |keys|
            ensures keys[i] in Keys(rec) && row[i] == Render(Get(rec, keys[i]).value)
          {
            if i < n {
              assert init[i] == keys[i];
            }
          }
        } else {
          assert Project(rec, keys).Failure?;
        }
      } else {
        assert Project(rec, keys) == p;
        var j :| 0 <= j < n && init[j] !in Keys(rec);
        assert keys[j] !in Keys(rec);
      }
    }
  }

  /** When `writeRow` fails, it raises KeyError for the first absent key. */
  lemma {:induction false} ProjectFails(rec: Record, keys: seq<string>)
    requires Project(rec, keys).Failure?
    ensures exists i :: FirstMissing(rec, keys, i) && Project(rec, keys).error == KeyError(keys[i])
  {
    var n := |keys| - 1;
    var init := keys[..n];
    match Project(rec, init)
    case Failure(e) =>
      ProjectFails(rec, init);
      var i :| FirstMissing(rec, init, i) && e == KeyError(init[i]);
      FirstMissingPrefix(rec, keys, n, i);
    case Success(row) =>
      ProjectSpec(rec, init);
      FirstMissingPrefix(rec, keys, n, n);
  }

  /** The first key missing from a prefix of the keys, or the key right
      after a prefix whose keys are all present, is the first missing key. */
  lemma {:induction false} FirstMissingPrefix(rec: Record, keys: seq<string>, n: nat, i: nat)
    requires i <= n < |keys|
    requires forall j :: 0 <= j < i ==> keys[..n][j] in Keys(rec)
    requires keys[i] !in Keys(rec)
    ensures FirstMissing(rec, keys, i)
  {
    forall j | 0 <= j < i ensures keys[j] in Keys(rec) {
      assert keys[..n][j] == keys[j];
    }
  }

  /** `keys[i]` is the first key `rec` lacks. */
  predicate FirstMissing(rec: Record, keys: seq<string>, i: int)
  {
    0 <= i < |keys| && keys[i] !in Keys(rec) && forall j :: 0 <= j < i ==> keys[j] in Keys(rec)
  }

  /** The list `writeRow` builds by appending one cell per key. */
  method RowCells(rowObject: Record, keys: seq<string>) returns (r: Result<Row>)
    ensures r == Project(rowObject, keys)
  {
    var data: Row := [];
    for i := 0 to |keys|
      invariant Project(rowObject, keys[..i]) == Success(data)
    {
      assert keys[..i + 1][..i] == keys[..i];
      var v := Get(rowObject, keys[i]);
      if v.None? {
        ProjectFailedPrefix(rowObject, keys[..i + 1], keys[i + 1..]);
        assert keys[..i + 1] + keys[i + 1..] == keys;
        return Failure(KeyError(keys[i]));
      }
      data := data + [Render(v.value)];
    }
    assert keys[..|keys|] == keys;
    return Success(data);
  }

  /** Once a key is missing, later keys change nothing. */
  lemma {:induction false} ProjectFailedPrefix(rec: Record, xs: seq<string>, ys: seq<string>)
    requires Project(rec, xs).Failure?
    ensures Project(rec, xs + ys) == Project(rec, xs)
    decreases |ys|
  {
    if ys == [] {
      assert xs + ys == xs;
    } else {
      var init := ys[..|ys| - 1];
      ProjectFailedPrefix(rec, xs, init);
      assert (xs + ys)[..|xs + ys| - 1] == xs + init;
    }
  }

  /** The rows a writer loop appends for `items` under `keys`, and how the
      loop ends: it stops at the first item that lacks a key. */
  datatype Written = Written(rows: seq<Row>, outcome: Outcome)

  function Emit(items: seq<Record>, keys: seq<string>): Written
  {
    if items == [] then Written([], Pass)
    else
      var w := Emit(items[..|items| - 1], keys);
      if w.outcome.Fail? then w
      else match Project(items[|items| - 1], keys)
        case Failure(e) => Written(w.rows, Fail(e))
        case Success(row) => Written(w.rows + [row], Pass)
  }

  /** A writer loop writes the projections of a prefix of the items, all of
      them when it passes, and otherwise stops at the first item whose
      projection fails, raising that item's error. */
  lemma {:induction false} EmitSpec(items: seq<Record>, keys: seq<string>)
    ensures |Emit(items, keys).rows| <= |items|
    ensures forall i :: 0 <= i < |Emit(items, keys).rows| ==>
      Project(items[i], keys) == Success(Emit(items, keys).rows[i])
    ensures Emit(items, keys).outcome.Pass? <==> |Emit(items, keys).rows| == |items|
    ensures Emit(items, keys).outcome.Fail? ==>
      Project(items[|Emit(items, keys).rows|], keys) == Failure(Emit(items, keys).outcome.error)
  {
    if items != [] {
      var n := |items| - 1;
      EmitSpec(items[..n], keys);
      assert forall i :: 0 <= i < n ==> items[..n][i] == items[i];
    }
  }

  /** Once a writer loop has failed, later items change nothing. */
  lemma {:induction false} EmitFailed(xs: seq<Record>, ys: seq<Record>, keys: seq<string>)
    requires Emit(xs, keys).outcome.Fail?
    ensures Emit(xs + ys, keys) == Emit(xs, keys)
    decreases |ys|
  {
    if ys == [] {
      assert xs + ys == xs;
    } else {
      var init := ys[..|ys| - 1];
      EmitFailed(xs, init, keys);
      assert (xs + ys)[..|xs + ys| - 1] == xs + init;
    }
  }

  /** The items the generator `(item for item in data if isinstance(item, dict))` yields. */
  function DictItems(data: seq<Item>): (ds: seq<Record>)
    ensures |ds| <= |data|
  {
    if data == [] then []
    else (if data[0].Dict? then [data[0].rec] else []) + DictItems(data[1..])
  }

  /** The table after writing `header` to a file that does not exist yet;
      an existing file is left alone. */
  function CreateHeader(files: Files, fileName: string, header: Row): Files
  {
    if fileName in files then files else files[fileName := [header]]
  }

  /** The table after opening `fileName` in append mode (which creates it
      empty if absent) and writing `rows`. */
  function Appended(files: Files, fileName: string, rows: seq<Row>): Files
  {
    files[fileName := (if fileName in files then files[fileName] else []) + rows]
  }

  /** Two appends to one file are one append of both row lists. */
  lemma {:induction false} AppendedTwice(files: Files, fileName: string, a: seq<Row>, b: seq<Row>)
    ensures Appended(Appended(files, fileName, a), fileName, b) == Appended(files, fileName, a + b)
  {
    var t := if fileName in files then files[fileName] else [];
    assert t + a + b == t + (a + b);
  }

  /** The effect of `buildCsvFromData`. */
  function BuildFromData(files: Files, fileName: string, data: seq<Item>): (Files, Outcome)
  {
    var ds := DictItems(data);
    if ds == [] then (files, Fail(StopIteration))
    else
      var keys := Keys(ds[0]);
      var w := Emit(ds, keys);
      (Appended(CreateHeader(files, fileName, keys), fileName, w.rows), w.outcome)
  }

  /** The effect of `addDataToCsv`: the first dict only fixes the keys. */
  function AddData(files: Files, fileName: string, data: seq<Item>): (Files, Outcome)
  {
    var ds := DictItems(data);
    if ds == [] then (files, Fail(StopIteration))
    else
      var w := Emit(ds[1..], Keys(ds[0]));
      (Appended(files, fileName, w.rows), w.outcome)
  }

  /** The row `addObjectToCSV` writes: the item's values in its own key order. */
  function OwnRow(item: Record): (row: Row)
    ensures Project(item, Keys(item)) == Success(row)
    ensures |row| == |Keys(item)|
    ensures forall i :: 0 <= i < |row| ==> row[i] == Render(Get(item, Keys(item)[i]).value)
  {
    ProjectSpec(item, Keys(item));
    Project(item, Keys(item)).value
  }

  /** A header is written only to a new file: writing one again, whatever
      its keys, changes nothing, and every other file is left alone. */
  lemma {:induction false} CreateHeaderOnce(files: Files, fileName: string, header: Row, other: Row)
    ensures fileName in CreateHeader(files, fileName, header)
    ensures CreateHeader(files, fileName, header)[fileName] ==
      if fileName in files then files[fileName] else [header]
    ensures forall f :: f != fileName ==>
      (f in CreateHeader(files, fileName, header) <==> f in files)
    ensures forall f :: f != fileName && f in files ==> CreateHeader(files, fileName, header)[f] == files[f]
    ensures CreateHeader(CreateHeader(files, fileName, header), fileName, other) ==
      CreateHeader(files, fileName, header)
  {
  }

  /** When every item has all the keys, a writer loop writes every item's
      projection, in order. */
  lemma {:induction false} EmitAll(items: seq<Record>, keys: seq<string>)
    requires forall i :: 0 <= i < |items| ==> Project(items[i], keys).Success?
    ensures Emit(items, keys).outcome == Pass
    ensures |Emit(items, keys).rows| == |items|
    ensures forall i :: 0 <= i < |items| ==> Emit(items, keys).rows[i] == Project(items[i], keys).value
  {
    EmitSpec(items, keys);
  }

  /** A writer loop only ever raises KeyError. */
  lemma {:induction false} EmitRaisesKeyError(items: seq<Record>, keys: seq<string>)
    requires Emit(items, keys).outcome.Fail?
    ensures Emit(items, keys).outcome.error.KeyError?
  {
    EmitSpec(items, keys);
    ProjectFails(items[|Emit(items, keys).rows|], keys);
  }

  /** `buildCsvFromData` raises StopIteration exactly when `data` holds no
      dict, and then writes nothing. */
  lemma {:induction false} BuildFromDataNoDict(files: Files, fileName: string, data: seq<Item>)
    ensures BuildFromData(files, fileName, data).1 == Fail(StopIteration) <==> DictItems(data) == []
    ensures DictItems(data) == [] ==> BuildFromData(files, fileName, data).0 == files
  {
    var ds := DictItems(data);
    if ds != [] && Emit(ds, Keys(ds[0])).outcome.Fail? {
      EmitRaisesKeyError(ds, Keys(ds[0]));
    }
  }

  /** `buildCsvFromData` with at least one dict, every one of which has the
      first dict's keys, passes and writes its own file. */
  lemma {:induction false} BuildFromDataPasses(files: Files, fileName: string, data: seq<Item>)
    requires DictItems(data) != []
    requires forall i :: 0 <= i < |DictItems(data)| ==>
      Project(DictItems(data)[i], Keys(DictItems(data)[0])).Success?
    ensures BuildFromData(files, fileName, data).1 == Pass
    ensures fileName in BuildFromData(files, fileName, data).0
  {
    var ds := DictItems(data);
    EmitAll(ds, Keys(ds[0]));
  }

  /** Whatever happens, `buildCsvFromData` touches no file but its own. */
  lemma {:induction false} BuildFromDataOthers(files: Files, fileName: string, data: seq<Item>)
    ensures forall f :: f != fileName ==>
      (f in BuildFromData(files, fileName, data).0 <==> f in files)
    ensures forall f :: f != fileName && f in files ==> BuildFromData(files, fileName, data).0[f] == files[f]
  {
  }

  /** Its own file keeps its old rows, or gets the first dict's keys as
      header, and grows by one row per dict. */
  lemma {:induction false} BuildFromDataRows(files: Files, fileName: string, data: seq<Item>)
    requires DictItems(data) != []
    requires forall i :: 0 <= i < |DictItems(data)| ==>
      Project(DictItems(data)[i], Keys(DictItems(data)[0])).Success?
    ensures fileName in BuildFromData(files, fileName, data).0
    ensures var t := BuildFromData(files, fileName, data).0[fileName];
      var old_ := if fileName in files then files[fileName] else [Keys(DictItems(data)[0])];
      |t| == |old_| + |DictItems(data)| && t[..|old_|] == old_
  {
    var ds := DictItems(data);
    var keys := Keys(ds[0]);
    var old_ := if fileName in files then files[fileName] else [keys];
    BuildFromDataFile(files, fileName, data);
    var rows := Emit(ds, keys).rows;
    EmitAll(ds, keys);
    ConcatParts(old_, rows);
    var t := BuildFromData(files, fileName, data).0[fileName];
    assert t == old_ + rows;
  }

  /** The row after the old ones for the `i`-th dict is that dict projected
      onto the first dict's keys. */
  lemma {:induction false} BuildFromDataRowAt(files: Files, fileName: string, data: seq<Item>, i: nat)
    requires i < |DictItems(data)|
    requires forall j :: 0 <= j < |DictItems(data)| ==>
      Project(DictItems(data)[j], Keys(DictItems(data)[0])).Success?
    ensures fileName in BuildFromData(files, fileName, data).0
    ensures |Prior(files, fileName, Keys(DictItems(data)[0]))| + i < |BuildFromData(files, fileName, data).0[fileName]|
    ensures BuildFromData(files, fileName, data).0[fileName][|Prior(files, fileName, Keys(DictItems(data)[0]))| + i] ==
      Project(DictItems(data)[i], Keys(DictItems(data)[0])).value
  {
    var ds := DictItems(data);
    var keys := Keys(ds[0]);
    BuildFromDataFile(files, fileName, data);
    var rows := Emit(ds, keys).rows;
    EmitAll(ds, keys);
    ConcatAt(Prior(files, fileName, keys), rows, i);
  }

  /** The rows a file starts from: its own, or else just the header. */
  function Prior(files: Files, fileName: string, header: Row): seq<Row>
  {
    if fileName in files then files[fileName] else [header]
  }

  /** An element of the second part of a concatenation. */
  lemma {:induction false} ConcatAt<T>(a: seq<T>, b: seq<T>, i: nat)
    requires i < |b|
    ensures |a| + i < |a + b| && (a + b)[|a| + i] == b[i]
  {
  }

  /** The file `buildCsvFromData` writes: its old rows, or the header,
      then the writer loop's rows. */
  lemma {:induction false} BuildFromDataFile(files: Files, fileName: string, data: seq<Item>)
    requires DictItems(data) != []
    ensures fileName in BuildFromData(files, fileName, data).0
    ensures BuildFromData(files, fileName, data).0[fileName] ==
      Prior(files, fileName, Keys(DictItems(data)[0])) +
      Emit(DictItems(data), Keys(DictItems(data)[0])).rows
  {
  }

  /** The parts of a concatenation. */
  lemma {:induction false} ConcatParts(a: seq<Row>, b: seq<Row>)
    ensures |a + b| == |a| + |b|
    ensures (a + b)[..|a|] == a
    ensures forall i :: 0 <= i < |b| ==> (a + b)[|a| + i] == b[i]
  {
  }


  /** `addDataToCsv` never writes its first dict: with n dicts that all
      have the first one's keys it passes and appends n-1 rows to what the
      file held (`AddDataRowAt` says which). */
  lemma {:induction false} AddDataSkipsFirst(files: Files, fileName: string, data: seq<Item>)
    requires DictItems(data) != []
    requires forall i :: 0 <= i < |DictItems(data)| ==>
      Project(DictItems(data)[i], Keys(DictItems(data)[0])).Success?
    ensures AddData(files, fileName, data).1 == Pass
    ensures fileName in AddData(files, fileName, data).0
    ensures |AddData(files, fileName, data).0[fileName]| == |Existing(files, fileName)| + |DictItems(data)| - 1
    ensures AddData(files, fileName, data).0[fileName][..|Existing(files, fileName)|] == Existing(files, fileName)
  {
    var ds := DictItems(data);
    AddDataFile(files, fileName, data);
    AddDataRest(ds);
    EmitAll(ds[1..], Keys(ds[0]));
    ConcatParts(Existing(files, fileName), Emit(ds[1..], Keys(ds[0])).rows);
  }

  /** The row appended for the `i`-th dict (i >= 1) is that dict projected
      onto the first dict's keys; the first dict has no row. */
  lemma {:induction false} AddDataRowAt(files: Files, fileName: string, data: seq<Item>, i: nat)
    requires 1 <= i < |DictItems(data)|
    requires forall j :: 0 <= j < |DictItems(data)| ==>
      Project(DictItems(data)[j], Keys(DictItems(data)[0])).Success?
    ensures fileName in AddData(files, fileName, data).0
    ensures |Existing(files, fileName)| + i - 1 < |AddData(files, fileName, data).0[fileName]|
    ensures AddData(files, fileName, data).0[fileName][|Existing(files, fileName)| + i - 1] ==
      Project(DictItems(data)[i], Keys(DictItems(data)[0])).value
  {
    var ds := DictItems(data);
    var keys := Keys(ds[0]);
    AddDataFile(files, fileName, data);
    AddDataRest(ds);
    var rows := Emit(ds[1..], keys).rows;
    EmitAll(ds[1..], keys);
    assert ds[1..][i - 1] == ds[i];
    ConcatAt(Existing(files, fileName), rows, i - 1);
  }

  /** What every dict has, every dict after the first has. */
  lemma {:induction false} AddDataRest(ds: seq<Record>)
    requires ds != []
    requires forall i :: 0 <= i < |ds| ==> Project(ds[i], Keys(ds[0])).Success?
    ensures forall i :: 0 <= i < |ds[1..]| ==> Project(ds[1..][i], Keys(ds[0])).Success?
  {
    forall i | 0 <= i < |ds[1..]| ensures Project(ds[1..][i], Keys(ds[0])).Success? {
      assert ds[1..][i] == ds[i + 1];
    }
  }

  /** The rows an appended file starts from: its own, or none. */
  function Existing(files: Files, fileName: string): seq<Row>
  {
    if fileName in files then files[fileName] else []
  }

  /** The file `addDataToCsv` appends to: its old rows, or none, then the
      writer loop's rows for every dict after the first. */
  lemma {:induction false} AddDataFile(files: Files, fileName: string, data: seq<Item>)
    requires DictItems(data) != []
    ensures fileName in AddData(files, fileName, data).0
    ensures AddData(files, fileName, data).0[fileName] ==
      Existing(files, fileName) +
      Emit(DictItems(data)[1..], Keys(DictItems(data)[0])).rows
  {
  }

  /** The store the writers act on: the file system as a map from path to table. */
  class FileStore {
    var files: Files

    constructor (initial: Files)
      ensures files == initial
    {
      files := initial;
    }

    /** `buildCsv`: the fixed analysis header, written only to a new file. */
    method BuildCsv(fileName: string)
      modifies this
      ensures files == CreateHeader(old(files), fileName, FullAnalysisHeader)
    {
      if fileName !in files {
        files := files[fileName := [FullAnalysisHeader]];
      }
    }

    /** `buildCsvFromObject`: the dict's keys as header, written only to a new file. */
    method BuildCsvFromObject(fileName: string, dictionary: Record)
      modifies this
      ensures files == CreateHeader(old(files), fileName, Keys(dictionary))
    {
      var fields := Keys(dictionary);
      if fileName !in files {
        files := files[fileName := [fields]];
      }
    }

    /** `writeRow` on a writer open on `fileName`: one row, or KeyError and
      nothing written. */
    method WriteRow(fileName: string, rowObject: Record, keys: seq<string>) returns (r: Outcome)
      modifies this
      ensures Project(rowObject, keys).Success? ==>
        r == Pass && files == Appended(old(files), fileName, [Project(rowObject, keys).value])
      ensures Project(rowObject, keys).Failure? ==>
        r == Fail(Project(rowObject, keys).error) && files == old(files)
    {
      var cells := RowCells(rowObject, keys);
      match cells
      case Failure(e) =>
        r := Fail(e);
      case Success(row) =>
        files := Appended(files, fileName, [row]);
        r := Pass;
    }

    /** Writes `items` under `keys` to `fileName`, stopping at the first failure. */
    method WriteAll(fileName: string, items: seq<Record>, keys: seq<string>) returns (r: Outcome)
      modifies this
      ensures r == Emit(items, keys).outcome
      ensures files == Appended(old(files), fileName, Emit(items, keys).rows)
    {
      files := Appended(files, fileName, []);
      assert Emit(items[..0], keys) == Written([], Pass);
      var i := 0;
      r := Pass;
      while i < |items|
        invariant 0 <= i <= |items|
        invariant r == Pass
        invariant Emit(items[..i], keys).outcome == Pass
        invariant files == Appended(old(files), fileName, Emit(items[..i], keys).rows)
      {
        assert items[..i + 1][..i] == items[..i];
        ghost var before := Emit(items[..i], keys).rows;
        r := WriteRow(fileName, items[i], keys);
        if r.Fail? {
          EmitFailed(items[..i + 1], items[i + 1..], keys);
          assert items[..i + 1] + items[i + 1..] == items;
          return;
        }
        assert before + [Project(items[i], keys).value] == Emit(items[..i + 1], keys).rows;
        AppendedTwice(old(files), fileName, before, [Project(items[i], keys).value]);
        i := i + 1;
      }
      assert items[..|items|] == items;
    }

    /** `buildCsvFromData`: header from the first dict (only for a new
      file), then every dict, the first included, under the first dict's keys. */
    method BuildCsvFromData(fileName: string, data: seq<Item>) returns (r: Outcome)
      modifies this
      ensures (files, r) == BuildFromData(old(files), fileName, data)
    {
      var ds := DictItems(data);
      if ds == [] {
        return Fail(StopIteration);
      }
      var firstItem := ds[0];
      var keys := Keys(firstItem);
      BuildCsvFromObject(fileName, firstItem);
      r := WriteAll(fileName, ds, keys);
    }

    /** `addDataToCsv`: the first dict fixes the keys and is not written. */
    method AddDataToCsv(fileName: string, data: seq<Item>) returns (r: Outcome)
      modifies this
      ensures (files, r) == AddData(old(files), fileName, data)
    {
      var ds := DictItems(data);
      if ds == [] {
        return Fail(StopIteration);
      }
      var keys := Keys(ds[0]);
      r := WriteAll(fileName, ds[1..], keys);
    }

    /** `addObjectToCSV`: one row in the item's own key order. */
    method AddObjectToCsv(fileName: string, item: Record)
      modifies this
      ensures files == Appended(old(files), fileName, [OwnRow(item)])
    {
      var keys := Keys(item);
      var r := WriteRow(fileName, item, keys);
    }
  }

  // ---------------------------------------------------------------------
  // Reading

  /** The value csv.DictReader gives column `i` of `row`: the cell, or None
      when the row is too short. */
  function Cell(row: Row, i: nat): Value
  {
    if i < |row| then Text(row[i]) else Missing
  }

  /** The dict csv.DictReader builds from a data row: each header key in
      turn is assigned its cell. */
  function ToRecord(header: Row, row: Row): Record
  {
    if header == [] then Empty
    else
      var n := |header| - 1;
      Set(ToRecord(header[..n], row), header[n], Cell(row, n))
  }

  /** A record read back has exactly the header's keys. */
  lemma {:induction false} ToRecordMembers(header: Row, row: Row)
    ensures forall k :: k in Keys(ToRecord(header, row)) <==> k in header
  {
    if header != [] {
      var n := |header| - 1;
      var init := header[..n];
      ToRecordMembers(init, row);
      Seqs.InitLast(header);
    }
  }

  /** When the header names each column once, a record read back lists its
      keys in header order. */
  lemma {:induction false} ToRecordKeys(header: Row, row: Row)
    requires Distinct(header)
    ensures Keys(ToRecord(header, row)) == header
  {
    if header != [] {
      var n := |header| - 1;
      var init := header[..n];
      ToRecordKeys(init, row);
      assert header[n] !in init by {
        forall i | 0 <= i < n ensures init[i] != header[n] {
          assert init[i] == header[i];
        }
      }
      Seqs.InitLast(header);
    }
  }

  /** When the header names each column once, each column of a record read
      back holds that column's cell, None past the end of a short row. */
  lemma {:induction false} ToRecordValues(header: Row, row: Row, i: nat)
    requires Distinct(header) && i < |header|
    ensures Get(ToRecord(header, row), header[i]) == Some(Cell(row, i))
    decreases |header|
  {
    var n := |header| - 1;
    if i < n {
      ToRecordValues(header[..n], row, i);
      ToRecordEarlier(header, row, i);
      assert Get(ToRecord(header, row), header[i]) == Some(Cell(row, i));
    } else {
      ToRecordLast(header, row);
      assert Get(ToRecord(header, row), header[i]) == Some(Cell(row, i));
    }
  }

  /** The last column holds its cell. */
  lemma {:induction false} ToRecordLast(header: Row, row: Row)
    requires header != []
    ensures Get(ToRecord(header, row), header[|header| - 1]) == Some(Cell(row, |header| - 1))
  {
  }

  /** Assigning the last column leaves the earlier columns alone. */
  lemma {:induction false} ToRecordEarlier(header: Row, row: Row, i: nat)
    requires Distinct(header) && i < |header| - 1
    ensures Get(ToRecord(header, row), header[i]) == Get(ToRecord(header[..|header| - 1], row), header[..|header| - 1][i])
  {
    var n := |header| - 1;
    assert header[..n][i] == header[i];
    assert header[i] != header[n];
  }

  /** csv.DictReader over the data rows: blank rows are skipped. */
  function DataRecords(header: Row, rows: seq<Row>): (recs: seq<Record>)
    ensures |recs| <= |rows|
  {
    if rows == [] then []
    else (if rows[0] == [] then [] else [ToRecord(header, rows[0])]) + DataRecords(header, rows[1..])
  }

  lemma {:induction false} DataRecordsAppend(header: Row, a: seq<Row>, b: seq<Row>)
    ensures DataRecords(header, a + b) == DataRecords(header, a) + DataRecords(header, b)
    decreases |a|
  {
    if a == [] {
      assert a + b == b;
    } else {
      assert (a + b)[1..] == a[1..] + b;
      DataRecordsAppend(header, a[1..], b);
    }
  }

  /** Without blank rows, csv.DictReader yields one record per data row. */
  lemma {:induction false} DataRecordsNoBlank(header: Row, rows: seq<Row>)
    requires forall i :: 0 <= i < |rows| ==> rows[i] != []
    ensures |DataRecords(header, rows)| == |rows|
    ensures forall i :: 0 <= i < |rows| ==> DataRecords(header, rows)[i] == ToRecord(header, rows[i])
  {
    if rows != [] {
      DataRecordsNoBlank(header, rows[1..]);
      assert forall i :: 1 <= i < |rows| ==> rows[1..][i - 1] == rows[i];
    }
  }

  /** Every row of a table: the first is the header. */
  function Records(t: Table): seq<Record>
  {
    if t == [] then [] else DataRecords(t[0], t[1..])
  }

  /** `extractData`: the records of a file; a missing file cannot be opened. */
  function ExtractData(files: Files, filePath: string): (r: Result<seq<Record>>)
    ensures r.Failure? <==> filePath !in files
    ensures r.Failure? ==> r.error == FileNotFoundError(filePath)
  {
    if filePath in files then Success(Records(files[filePath]))
    else Failure(FileNotFoundError(filePath))
  }

  /** The `File`-keyed index `build_data_from_csv` builds from records:
      each record's `File` value maps to the rest of the record. */
  function Index(recs: seq<Record>): Result<map<Value, Record>>
  {
    if recs == [] then Success(map[])
    else
      var n := |recs| - 1;
      match Index(recs[..n])
      case Failure(e) => Failure(e)
      case Success(m) =>
        match Pop(recs[n], "File")
        case Failure(e) => Failure(e)
        case Success(p) => Success(m[p.0 := p.1])
  }

  /** Building the index raises KeyError exactly when some record has no
      `File` column. */
  lemma {:induction false} IndexSucceeds(recs: seq<Record>)
    ensures Index(recs).Success? <==> forall i :: 0 <= i < |recs| ==> "File" in Keys(recs[i])
    ensures Index(recs).Failure? ==> Index(recs).error == KeyError("File")
  {
    if recs != [] {
      var n := |recs| - 1;
      var init := recs[..n];
      IndexSucceeds(init);
      AllHaveFileSnoc(recs, init);
      var p := Index(init);
      if p.Failure? {
        assert Index(recs) == p;
      } else {
        var q := Pop(recs[n], "File");
        if q.Success? {
          assert Index(recs).Success?;
        } else {
          assert Index(recs) == Failure(q.error);
        }
      }
    }
  }

  /** Every record of a non-empty run has `File` when every record before
      the last one has and the last one has. */
  lemma {:induction false} AllHaveFileSnoc(recs: seq<Record>, init: seq<Record>)
    requires recs != [] && init == recs[..|recs| - 1]
    ensures (forall i :: 0 <= i < |recs| ==> "File" in Keys(recs[i])) <==>
      (forall i :: 0 <= i < |init| ==> "File" in Keys(init[i])) && "File" in Keys(recs[|init|])
  {
    assert forall i :: 0 <= i < |init| ==> init[i] == recs[i];
  }

  /** Some record carries `File` value `v`. */
  predicate HasFile(recs: seq<Record>, v: Value)
  {
    exists i :: 0 <= i < |recs| && Get(recs[i], "File") == Some(v)
  }

  /** The index's keys are exactly the records' `File` values. */
  lemma {:induction false} IndexKeys(recs: seq<Record>, v: Value)
    requires Index(recs).Success?
    ensures v in Index(recs).value <==> HasFile(recs, v)
  {
    if recs != [] {
      var n := |recs| - 1;
      var init := recs[..n];
      var m := Index(init).value;
      IndexKeys(init, v);
      var p := Pop(recs[n], "File").value;
      assert Index(recs).value == m[p.0 := p.1];
      if v == p.0 {
        assert Get(recs[n], "File") == Some(v);
      } else {
        if v in m {
          var i :| 0 <= i < n && Get(init[i], "File") == Some(v);
          assert init[i] == recs[i];
        }
        if HasFile(recs, v) {
          var i :| 0 <= i < |recs| && Get(recs[i], "File") == Some(v);
          assert init[i] == recs[i];
        }
      }
    }
  }

  /** Record `i` is the last one carrying its `File` value. */
  predicate LastWithFile(recs: seq<Record>, i: nat)
    requires i < |recs|
  {
    "File" in Keys(recs[i]) &&
    forall j :: i < j < |recs| ==> Get(recs[j], "File") != Get(recs[i], "File")
  }

  /** A later record with the same `File` value overwrites an earlier one:
      the index holds the last such record, without its `File` column. */
  lemma {:induction false} IndexLastWins(recs: seq<Record>, i: nat)
    requires Index(recs).Success? && i < |recs| && LastWithFile(recs, i)
    ensures Get(recs[i], "File").value in Index(recs).value
    ensures Index(recs).value[Get(recs[i], "File").value] == Pop(recs[i], "File").value.1
  {
    var n := |recs| - 1;
    var init := recs[..n];
    var m := Index(init).value;
    var p := Pop(recs[n], "File").value;
    assert Index(recs).value == m[p.0 := p.1];
    if i < n {
      assert init[i] == recs[i];
      assert LastWithFile(init, i);
      IndexLastWins(init, i);
      assert Get(recs[n], "File") != Get(recs[i], "File");
    }
  }

  /** `build_data_from_csv`: the `File`-keyed index of a file, or an empty
      map when there is no file. */
  method BuildDataFromCsv(files: Files, filePath: string) returns (r: Result<map<Value, Record>>)
    ensures filePath !in files ==> r == Success(map[])
    ensures filePath in files ==> r == Index(Records(files[filePath]))
  {
    var data: map<Value, Record> := map[];
    if filePath in files {
      var rows := Records(files[filePath]);
      for i := 0 to |rows|
        invariant Index(rows[..i]) == Success(data)
      {
        assert rows[..i + 1][..i] == rows[..i];
        var popped := Pop(rows[i], "File");
        if popped.Failure? {
          IndexSucceeds(rows);
          return Failure(popped.error);
        }
        var (fileKey, rest) := popped.value;
        data := data[fileKey := rest];
      }
      assert rows[..|rows|] == rows;
    }
    return Success(data);
  }

  /** A value as it comes back from a CSV file: the text written for it. */
  function AsRead(o: Option<Value>): Option<Value>
  {
    match o
    case None => None
    case Some(v) => Some(Text(Render(v)))
  }

  /** Reading back the projections of `ds` under `keys` gives, row for row,
      a dict over `keys` holding the text written for each value. */
  lemma {:induction false} ReadBackRows(keys: Row, ds: seq<Record>, rows: seq<Row>)
    requires keys != [] && Distinct(keys) && |rows| == |ds|
    requires forall i :: 0 <= i < |ds| ==> Project(ds[i], keys) == Success(rows[i])
    ensures |DataRecords(keys, rows)| == |ds|
    ensures forall i :: 0 <= i < |ds| ==> Keys(DataRecords(keys, rows)[i]) == keys
    ensures forall i, j :: 0 <= i < |ds| && 0 <= j < |keys| ==>
      Get(DataRecords(keys, rows)[i], keys[j]) == AsRead(Get(ds[i], keys[j]))
  {
    forall i | 0 <= i < |rows| ensures rows[i] != [] {
      ProjectSpec(ds[i], keys);
    }
    DataRecordsNoBlank(keys, rows);
    var recs := DataRecords(keys, rows);
    forall i | 0 <= i < |ds| ensures Keys(recs[i]) == keys {
      ToRecordKeys(keys, rows[i]);
    }
    forall i, j | 0 <= i < |ds| && 0 <= j < |keys|
      ensures Get(recs[i], keys[j]) == AsRead(Get(ds[i], keys[j]))
    {
      ProjectSpec(ds[i], keys);
      ToRecordValues(keys, rows[i], j);
    }
  }

  /** Reading a file back after `buildCsvFromData` gives the records it held
      before (none for a new file), then those of the written rows, as long
      as an existing file already carries the first dict's keys as header. */
  lemma {:induction false} ExtractAfterBuild(files: Files, fileName: string, data: seq<Item>)
    requires DictItems(data) != []
    requires fileName in files ==> files[fileName] != [] && files[fileName][0] == Keys(DictItems(data)[0])
    ensures ExtractData(BuildFromData(files, fileName, data).0, fileName) ==
      Success((if fileName in files then ExtractData(files, fileName).value else []) +
        DataRecords(Keys(DictItems(data)[0]), Emit(DictItems(data), Keys(DictItems(data)[0])).rows))
  {
    var keys := Keys(DictItems(data)[0]);
    var rows := Emit(DictItems(data), keys).rows;
    BuildFromDataFile(files, fileName, data);
    var table := BuildFromData(files, fileName, data).0[fileName];
    if fileName in files {
      var t := files[fileName];
      assert table == t + rows;
      assert table[1..] == t[1..] + rows;
      DataRecordsAppend(keys, t[1..], rows);
    } else {
      assert table == [keys] + rows;
      assert table[0] == keys && table[1..] == rows;
      assert Records(table) == [] + DataRecords(keys, rows);
    }
  }

  /** Writing dicts with `buildCsvFromData` and reading the file back with
      `extractData` gives the records the file held before (none for a new
      file), then, row for row, a dict over the first dict's keys whose
      values are the text `csv.writer` wrote for each written dict's values.
      An existing file must already carry those keys as its header. */
  lemma {:induction false} WriteReadBack(files: Files, fileName: string, data: seq<Item>)
    requires DictItems(data) != [] && Keys(DictItems(data)[0]) != []
    requires Distinct(Keys(DictItems(data)[0]))  // a Python dict lists each key once
    requires fileName in files ==> files[fileName] != [] && files[fileName][0] == Keys(DictItems(data)[0])
    requires forall i :: 0 <= i < |DictItems(data)| ==>
      Project(DictItems(data)[i], Keys(DictItems(data)[0])).Success?
    ensures ExtractData(BuildFromData(files, fileName, data).0, fileName).Success?
    ensures var recs := ExtractData(BuildFromData(files, fileName, data).0, fileName).value;
      var before := if fileName in files then ExtractData(files, fileName).value else [];
      var ds := DictItems(data);
      && |recs| == |before| + |ds|
      && recs[..|before|] == before
      && var added := recs[|before|..];
        && (forall i :: 0 <= i < |ds| ==> Keys(added[i]) == Keys(ds[0]))
        && forall i, j :: 0 <= i < |ds| && 0 <= j < |Keys(ds[0])| ==>
          Get(added[i], Keys(ds[0])[j]) == AsRead(Get(ds[i], Keys(ds[0])[j]))
  {
    var ds := DictItems(data);
    var keys := Keys(ds[0]);
    EmitAll(ds, keys);
    var rows := Emit(ds, keys).rows;
    ExtractAfterBuild(files, fileName, data);
    var before := if fileName in files then ExtractData(files, fileName).value else [];
    var recs := before + DataRecords(keys, rows);
    ReadBackRows(keys, ds, rows);
    assert recs[..|before|] == before && recs[|before|..] == DataRecords(keys, rows);
  }
}
