/** `read_maps` and `read_training_datasets` (main.py), starting from lines
    already split and converted to numbers: each file is a stem and its rows. */
module Loading {
  import opened Wrappers
  import opened Dicts

  /** One parsed line of a file. */
  type Row = seq<real>

  /** One map: start pose, the two corners of the ending area, and the
      remaining rows as the route's edge points. */
  datatype MapRecord = MapRecord(
    startPos: (real, real),
    startAngle: real,
    endAreaLt: Row,
    endAreaRb: Row,
    routeEdge: seq<Row>)

  /** One training example: the sensor distances and the wheel angle. */
  datatype TrainingData = TrainingData(i: Row, o: real)

  /** The dictionary built for one map file; indexing a missing row or a
      missing field of row 0 raises IndexError. */
  function BuildMap(rows: seq<Row>): (r: Result<MapRecord>)
    ensures r.Ok? <==> |rows| >= 3 && |rows[0]| >= 3
    ensures r.Fail? ==> r.raised == IndexError
    ensures r.Ok? ==> |r.value.routeEdge| == |rows| - 3
    ensures r.Ok? ==> [r.value.endAreaLt, r.value.endAreaRb] + r.value.routeEdge == rows[1..]
    ensures r.Ok? ==> rows[0][..3] == [r.value.startPos.0, r.value.startPos.1, r.value.startAngle]
  {
    if |rows| < 3 || |rows[0]| < 3 then Fail(IndexError)
    else
      assert rows[1..] == [rows[1], rows[2]] + rows[3..];
      Ok(MapRecord((rows[0][0], rows[0][1]), rows[0][2], rows[1], rows[2], rows[3..]))
  }

  /** The rows a map record is read back from: its first row holds exactly
      the start position and angle. */
  function MapRows(m: MapRecord): seq<Row> {
    [[m.startPos.0, m.startPos.1, m.startAngle], m.endAreaLt, m.endAreaRb] + m.routeEdge
  }

  /** Every map record is read back unchanged from its own rows. */
  lemma BuildMapRows(m: MapRecord)
    ensures BuildMap(MapRows(m)) == Ok(m)
  {
  }

  /** Reading a map and writing its rows back gives the same rows exactly
      when row 0 has no field beyond the third, which reading drops. */
  lemma MapRowsBuildMap(rows: seq<Row>)
    requires BuildMap(rows).Ok?
    ensures MapRows(BuildMap(rows).value) == rows <==> |rows[0]| == 3
  {
    var back := MapRows(BuildMap(rows).value);
    if |rows[0]| == 3 {
      assert back[0] == rows[0];
      assert back == [back[0]] + back[1..] && rows == [rows[0]] + rows[1..];
    } else {
      assert |back[0]| != |rows[0]|;
    }
  }

  /** One dataset line: every value but the last is an input, the last is
      the target; an empty line raises IndexError. */
  function SplitExample(raw: Row): (r: Result<TrainingData>)
    ensures r.Ok? <==> |raw| > 0
    ensures r.Fail? ==> r.raised == IndexError
    ensures r.Ok? ==> r.value.i + [r.value.o] == raw
    ensures r.Ok? ==> |r.value.i| == |raw| - 1
  {
    if |raw| == 0 then Fail(IndexError)
    else Ok(TrainingData(raw[..|raw| - 1], raw[|raw| - 1]))
  }

  /** The line an example is read from. */
  function JoinExample(t: TrainingData): Row {
    t.i + [t.o]
  }

  /** Splitting the line an example was written as gives the example back. */
  lemma SplitJoin(t: TrainingData)
    ensures SplitExample(JoinExample(t)) == Ok(t)
  {
  }

  /** The examples of one dataset file, one per line, in line order. */
  function ReadDataset(lines: seq<Row>): (r: Result<seq<TrainingData>>)
    ensures r.Ok? <==> forall j :: 0 <= j < |lines| ==> |lines[j]| > 0
    ensures r.Fail? ==> r.raised == IndexError
    ensures r.Ok? ==> |r.value| == |lines|
    ensures r.Ok? ==> forall j :: 0 <= j < |lines| ==> JoinExample(r.value[j]) == lines[j]
  {
    if lines == [] then Ok([])
    else
      var t :- SplitExample(lines[0]);
      var ts :- ReadDataset(lines[1..]);
      assert forall j :: 1 <= j < |lines| ==> lines[j] == lines[1..][j - 1];
      Ok([t] + ts)
  }

  /** The last file in `files` with stem `k`, as Python's `d[k] = ...`
      keeps the value assigned last. */
  function LastWith<T>(files: seq<(string, T)>, k: string): (r: Option<T>)
    ensures r.Some? ==> (k, r.value) in files
    ensures r.None? ==> forall j :: 0 <= j < |files| ==> files[j].0 != k
  {
    if files == [] then None
    else match LastWith(files[1..], k)
      case Some(t) => Some(t)
      case None => if files[0].0 == k then Some(files[0].1) else None
  }

  /** The dictionary loop: assign `build(contents)` under each file's stem in
      glob order; the first exception ends the whole read. */
  function Collect<T, U>(files: seq<(string, T)>, build: T -> Result<U>, d: Items<U>): (r: Result<Items<U>>)
    requires DistinctKeys(d)
    ensures r.Ok? <==> forall j :: 0 <= j < |files| ==> build(files[j].1).Ok?
    ensures r.Fail? ==> exists j :: 0 <= j < |files| && build(files[j].1) == Fail(r.raised)
    ensures r.Ok? ==> DistinctKeys(r.value)
  {
    if files == [] then Ok(d)
    else
      var u :- build(files[0].1);
      var r := Collect(files[1..], build, Assign(d, files[0].0, u));
      assert forall j :: 1 <= j < |files| ==> files[j] == files[1..][j - 1];
      r
  }

  /** `OrderedDict(sorted(d.items()))` over the dictionary `Collect` builds. */
  function Load<T, U>(files: seq<(string, T)>, build: T -> Result<U>): (r: Result<Items<U>>)
    ensures r.Ok? <==> forall j :: 0 <= j < |files| ==> build(files[j].1).Ok?
    ensures r.Fail? ==> exists j :: 0 <= j < |files| && build(files[j].1) == Fail(r.raised)
    ensures r.Ok? ==> Ascending(r.value) && DistinctKeys(r.value)
  {
    var d :- Collect(files, build, []);
    SortItemsSameEntries(d);
    Ok(SortItems(d))
  }

  /** `read_maps`. */
  function ReadMaps(files: seq<(string, seq<Row>)>): (r: Result<Items<MapRecord>>)
    ensures r.Ok? <==> forall j :: 0 <= j < |files| ==> |files[j].1| >= 3 && |files[j].1[0]| >= 3
    ensures r.Fail? ==> r.raised == IndexError
    ensures r.Ok? ==> Ascending(r.value)
  {
    Load(files, BuildMap)
  }

  /** `read_training_datasets`. */
  function ReadTrainingDatasets(files: seq<(string, seq<Row>)>): (r: Result<Items<seq<TrainingData>>>)
    ensures r.Ok? <==> forall j, n :: 0 <= j < |files| && 0 <= n < |files[j].1| ==> |files[j].1[n]| > 0
    ensures r.Fail? ==> r.raised == IndexError
    ensures r.Ok? ==> Ascending(r.value)
  {
    Load(files, ReadDataset)
  }

  /** Collecting from `d` leaves each stem bound to what its last file
      built, and every other stem bound as in `d`. */
  lemma {:induction false} CollectLookup<T, U>(files: seq<(string, T)>, build: T -> Result<U>, d: Items<U>, k: string)
    requires DistinctKeys(d)
    requires Collect(files, build, d).Ok?
    ensures Lookup(Collect(files, build, d).value, k) ==
      match LastWith(files, k)
      case Some(t) => Some(build(t).value)
      case None => Lookup(d, k)
  {
    if files != [] {
      var (stem, raw) := files[0];
      var u := build(raw).value;
      var d' := Assign(d, stem, u);
      assert Collect(files, build, d) == Collect(files[1..], build, d');
      CollectLookup(files[1..], build, d', k);
      AssignLookup(d, stem, u, k);
      match LastWith(files[1..], k)
      case Some(t) =>
      case None =>
        assert LastWith(files, k) == if stem == k then Some(raw) else None;
    }
  }

  /** After a successful load, every stem maps to what its last file built
      and no other key is present. */
  lemma LoadLookup<T, U>(files: seq<(string, T)>, build: T -> Result<U>, k: string)
    requires Load(files, build).Ok?
    ensures Lookup(Load(files, build).value, k) ==
      match LastWith(files, k)
      case Some(t) => Some(build(t).value)
      case None => None
  {
    var d := Collect(files, build, []).value;
    CollectLookup(files, build, [], k);
    SortItemsSameEntries(d);
  }
}
