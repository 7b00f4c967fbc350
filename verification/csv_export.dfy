/**
  `SaveFile`: the file name chosen for a finished maneuver and the rows written
  from the telemetry buffers. Text formatting of the numbers is left out; a row
  is the sequence of the 15 values in column order.
 */
module CsvExport {
  import opened SimTypes

  const Header: seq<string> := [
    "time(sec)", "speed(km/h)", "roll angle",
    "FL force", "FR force", "RL force", "RR force",
    "FL long-slip", "FR long-slip", "RL long-slip", "RR long-slip",
    "FL lat-slip", "FR lat-slip", "RL lat-slip", "RR lat-slip"]

  /** Number of columns of the header and of every row. */
  const Columns := 15

  /** Number of wheel telemetry series a row reads (front-left, front-right, rear-left, rear-right). */
  const RowWheels := 4

  const ResultsDir := "Results/"
  const Extension := ".csv"

  /** A written file: its path, header and rows in writing order. */
  datatype CsvFile = CsvFile(path: string, header: seq<string>, rows: seq<seq<real>>)

  /**
    What `SaveFile` leaves behind: the file (possibly cut short), whether the
    length-mismatch error was logged, and whether every row was written.
   */
  datatype Saved = Saved(file: CsvFile, mismatchLogged: bool, complete: bool)

  /**
    Roll angles above 300 degrees are shifted down by one full turn; any other
    value is kept.
   */
  function NormalizeRoll(roll: real): (r: real)
    ensures r == roll || r == roll - 360.0
    ensures r == roll <==> roll <= 300.0
    ensures 0.0 <= roll < 360.0 ==> -60.0 < r <= 300.0
  {
    if roll > 300.0 then roll - 360.0 else roll
  }

  /**
    The output path: `Results/<name>.csv` for a named configuration; otherwise
    `ic_<speed>.csv` or `ev_<speed>.csv`, because the weight prefix replaces the
    directory instead of being appended to it.
   */
  function SavePath(name: string, weight: WeightConfig, speed: real, format: real -> string): (p: string)
    ensures |p| >= |Extension| && p[|p| - |Extension|..] == Extension
    ensures name != "" ==> |p| == |ResultsDir| + |name| + |Extension| && p[..|ResultsDir|] == ResultsDir
    ensures name != "" ==> p[|ResultsDir|..|p| - |Extension|] == name
    ensures name == "" ==> |p| >= 3 && p[..3] == (if weight == IC then "ic_" else "ev_")
    ensures name == "" ==> |p| == 3 + |format(speed)| + |Extension| && p[3..|p| - |Extension|] == format(speed)
  {
    if name == "" then
      var prefix := match weight case IC => "ic" case EV => "ev";
      prefix + "_" + format(speed) + Extension
    else
      ResultsDir + name + Extension
  }

  /** The configuration name a path in the results directory was written for. */
  function ConfigNameOf(p: string): (name: string)
    requires |p| >= |ResultsDir| + |Extension|
    ensures |name| == |p| - |ResultsDir| - |Extension|
  {
    p[|ResultsDir|..|p| - |Extension|]
  }

  /** A named configuration's file name gives back the name. */
  lemma NamedPathRoundTrip(name: string, weight: WeightConfig, speed: real, format: real -> string)
    requires name != ""
    ensures ConfigNameOf(SavePath(name, weight, speed, format)) == name
  {
  }

  /** Without a name the file has no directory part, whenever the formatted speed has none. */
  lemma UnnamedPathHasNoDirectory(weight: WeightConfig, speed: real, format: real -> string)
    requires '/' !in format(speed)
    ensures '/' !in SavePath("", weight, speed, format)
  {
  }

  /** Index `i` is within all three series of one wheel. */
  predicate Covers(w: WheelSeries, i: nat)
  {
    i < |w.force| && i < |w.long| && i < |w.lat|
  }

  /** Row `i` can be written without an index going out of range. */
  predicate RowReadable(tel: Telemetry, i: nat)
  {
    && i < |tel.time| && i < |tel.velocity| && i < |tel.roll|
    && |tel.wheels| >= RowWheels
    && Covers(tel.wheels[0], i) && Covers(tel.wheels[1], i)
    && Covers(tel.wheels[2], i) && Covers(tel.wheels[3], i)
  }

  /** The 15 values of row `i`, in header order, with the roll angle normalized. */
  function Row(tel: Telemetry, i: nat): (row: seq<real>)
    requires RowReadable(tel, i)
    ensures |row| == Columns
    ensures row[0] == tel.time[i] && row[1] == tel.velocity[i] && row[2] == NormalizeRoll(tel.roll[i])
    ensures forall k :: 0 <= k < RowWheels ==>
      row[3 + k] == tel.wheels[k].force[i] && row[7 + k] == tel.wheels[k].long[i] && row[11 + k] == tel.wheels[k].lat[i]
  {
    var w := tel.wheels;
    [tel.time[i], tel.velocity[i], NormalizeRoll(tel.roll[i]),
     w[0].force[i], w[1].force[i], w[2].force[i], w[3].force[i],
     w[0].long[i], w[1].long[i], w[2].long[i], w[3].long[i],
     w[0].lat[i], w[1].lat[i], w[2].lat[i], w[3].lat[i]]
  }

  /** `rows` are the first `|rows|` rows of the telemetry, each as `Row` gives it. */
  predicate RowsMatch(tel: Telemetry, rows: seq<seq<real>>)
  {
    forall j :: 0 <= j < |rows| ==> RowReadable(tel, j) && rows[j] == Row(tel, j)
  }

  /**
    The row loop of `SaveFile`, continuing after the rows already written: one
    row per roll sample, stopping at the first row whose values cannot all be
    read (the exception ends the write). The result is all rows written and
    whether the loop ran to its end.
   */
  function WriteRows(tel: Telemetry, rows: seq<seq<real>>): (r: (seq<seq<real>>, bool))
    requires |rows| <= |tel.roll| && RowsMatch(tel, rows)
    decreases |tel.roll| - |rows|
    ensures |rows| <= |r.0| <= |tel.roll| && r.0[..|rows|] == rows
    ensures RowsMatch(tel, r.0)
    ensures r.1 <==> forall j :: |rows| <= j < |tel.roll| ==> RowReadable(tel, j)
    ensures r.1 ==> |r.0| == |tel.roll|
    ensures !r.1 ==> |r.0| < |tel.roll| && !RowReadable(tel, |r.0|)
  {
    var i := |rows|;
    if i == |tel.roll| then (rows, true)
    else if !RowReadable(tel, i) then (rows, false)
    else
      var rows' := rows + [Row(tel, i)];
      var r := WriteRows(tel, rows');
      assert r.0[..i] == rows by {
        assert r.0[..i] == r.0[..i + 1][..i];
      }
      r
  }

  /** The buffer lengths `SaveFile` compares before each row: roll against wheel 0's three series. */
  predicate LengthsAgree(tel: Telemetry)
    requires |tel.wheels| > 0
  {
    var c1 := |tel.roll|;
    c1 == |tel.wheels[0].force| && c1 == |tel.wheels[0].long| && c1 == |tel.wheels[0].lat|
  }

  /**
    `SaveFile`: a 15-column header, then one row per roll sample in index order.
    A length mismatch is only logged; the write stops early only when an index
    is out of range.
   */
  function SaveFile(name: string, weight: WeightConfig, speed: real, format: real -> string, tel: Telemetry): (s: Saved)
    ensures s.file.path == SavePath(name, weight, speed, format)
    ensures s.file.header == Header && |Header| == Columns
    ensures forall j :: 0 <= j < |s.file.rows| ==> |s.file.rows[j]| == Columns
    ensures RowsMatch(tel, s.file.rows)
    ensures s.complete <==> forall j :: 0 <= j < |tel.roll| ==> RowReadable(tel, j)
    ensures s.complete ==> |s.file.rows| == |tel.roll|
    ensures !s.complete ==> |s.file.rows| < |tel.roll| && !RowReadable(tel, |s.file.rows|)
    ensures s.mismatchLogged <==> |tel.roll| > 0 && |tel.wheels| > 0 && !LengthsAgree(tel)
  {
    var (rows, complete) := WriteRows(tel, []);
    var logged := |tel.roll| > 0 && |tel.wheels| > 0 && !LengthsAgree(tel);
    Saved(CsvFile(SavePath(name, weight, speed, format), Header, rows), logged, complete)
  }

  /**
    A mismatch between the roll buffer and wheel 0's buffers does not stop the
    export: as long as every buffer is long enough, all rows are written.
   */
  lemma MismatchOnlyLogged(name: string, weight: WeightConfig, speed: real, format: real -> string, tel: Telemetry)
    requires |tel.wheels| >= RowWheels && !LengthsAgree(tel) && |tel.roll| > 0
    requires |tel.time| >= |tel.roll| && |tel.velocity| >= |tel.roll|
    requires forall k :: 0 <= k < RowWheels ==> Covers(tel.wheels[k], |tel.roll| - 1)
    ensures SaveFile(name, weight, speed, format, tel).mismatchLogged
    ensures |SaveFile(name, weight, speed, format, tel).file.rows| == |tel.roll|
  {
  }
}
