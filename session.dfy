/**
 * The collection session run by `main()`: one record dictionary updated in
 * place by the acquisition events, the CSV file the operator chose, and the
 * "Save" action that appends the record as one row and starts a fresh
 * record. Window, sensor and logging calls are left out; sensor readings and
 * the operator's text inputs arrive as parameters.
 */
module Session {
  import opened Numeric
  import opened Schema
  import opened Acquisition

  /** The record with the three typed-in fields copied in, as "Save" does before writing. */
  function Filled(rec: Record, location: string, windSpeed: string, groundHum: string): Record {
    rec[CODE := Some(Text(location))][WIND_SPEED := Some(Text(windSpeed))][GROUND_HUM := Some(Text(groundHum))]
  }

  /** The row "Save" writes for `rec` and the three inputs. */
  function SavedRow(rec: Record, location: string, windSpeed: string, groundHum: string): Row
    requires WellFormed(rec)
  {
    FilledKeys(rec, location, windSpeed, groundHum);
    WellFormedWrites(Filled(rec, location, windSpeed, groundHum));
    DictRow(HeadersCSV, Filled(rec, location, windSpeed, groundHum)).value
  }

  /** Copying in the three inputs writes those three keys and no other. */
  lemma FilledKeys(rec: Record, location: string, windSpeed: string, groundHum: string)
    requires WellFormed(rec)
    ensures WellFormed(Filled(rec, location, windSpeed, groundHum))
    ensures Filled(rec, location, windSpeed, groundHum)[CODE] == Some(Text(location))
    ensures Filled(rec, location, windSpeed, groundHum)[WIND_SPEED] == Some(Text(windSpeed))
    ensures Filled(rec, location, windSpeed, groundHum)[GROUND_HUM] == Some(Text(groundHum))
    ensures forall k :: k in rec && k !in {CODE, WIND_SPEED, GROUND_HUM} ==>
              Filled(rec, location, windSpeed, groundHum)[k] == rec[k]
  {
  }

  /**
   * The saved row, column by column in header order: the location code,
   * latitude, longitude, the five acquired values around the ground
   * humidity and wind speed the operator typed in.
   */
  lemma SavedRowColumns(rec: Record, location: string, windSpeed: string, groundHum: string)
    requires WellFormed(rec)
    ensures SavedRow(rec, location, windSpeed, groundHum) ==
      [Some(Text(location)), rec[LAT], rec[LON], rec[AIR_TEMP], rec[CANOPY_TEMP], rec[HUM],
       Some(Text(groundHum)), Some(Text(windSpeed)), rec[PRESSURE], rec[IR_RAD], rec[UV_RAD]]
  {
    FilledKeys(rec, location, windSpeed, groundHum);
    WellFormedRowWrites(Filled(rec, location, windSpeed, groundHum));
  }

  /** The rows already in the file at `path`; a file that does not exist yet has none. */
  function RowsIn(files: map<string, seq<Row>>, path: string): seq<Row> {
    if path in files then files[path] else []
  }

  /** Files are only ever appended to: every row a file held is still there, in place. */
  predicate AppendOnly(before: map<string, seq<Row>>, after: map<string, seq<Row>>) {
    forall p :: p in before ==> p in after && before[p] <= after[p]
  }

  /**
   * How many of `events` the event loop handles, given whether a file has
   * been chosen: up to and including the first "Exit", or the first "Save"
   * while no file is chosen (its exception ends `main()`), or all of them.
   */
  function Handled(events: seq<Event>, chosen: bool): (n: nat)
    ensures n <= |events|
    ensures forall j :: 0 <= j < n - 1 ==> !events[j].ExitClicked?
    ensures !chosen ==> forall j :: 0 <= j < n - 1 ==> !events[j].SaveClicked? || exists i :: 0 <= i < j && events[i].FileChosen?
    ensures n < |events| ==> 0 < n && (events[n - 1].ExitClicked? || (events[n - 1].SaveClicked? && !chosen && forall i :: 0 <= i < n - 1 ==> !events[i].FileChosen?))
    decreases |events|
  {
    if events == [] then 0
    else match events[0]
      case ExitClicked => 1
      case SaveClicked(_, _, _, _) => if chosen then 1 + Handled(events[1..], chosen) else 1
      case FileChosen(_) => 1 + Handled(events[1..], true)
      case _ => 1 + Handled(events[1..], chosen)
  }

  /** What "Save" did: nothing, because no file was chosen, or one row written to `path`. */
  datatype SaveOutcome = NoFileChosen | Written(path: string, row: Row)

  /** One event of the event loop, with the readings or inputs its handler takes. */
  datatype Event =
    | Measure(a: Acquire)
    | AcquireAllClicked(readings: AllReadings)
    | FileChosen(path: string)
    | SaveClicked(location: string, windSpeed: string, groundHum: string, gps: GpsFix)
    /** "Set Theme" with a theme selected in the list box. */
    | ThemeChosen
    | AboutClicked
    | NoEvent
    | ExitClicked

  class Collector {
    /** The record dictionary being filled. */
    var record: Record
    /** The CSV file chosen with "Create and open file", if any. */
    var fpath: Option<string>
    /** The data rows of every CSV file, by path. */
    var files: map<string, seq<Row>>

    /**
     * The session invariant: the record has exactly the eleven header keys,
     * and latitude and longitude are never filled (the GPS fix is read and
     * thrown away).
     */
    ghost predicate Valid()
      reads this
    {
      WellFormed(record) && record[LAT] == None && record[LON] == None
    }

    /** Session start: an all-`None` record and no file chosen. */
    constructor (store: map<string, seq<Row>>)
      ensures Valid()
      ensures record == EmptyRecord() && fpath == None && files == store
    {
      record := EmptyRecord();
      fpath := None;
      files := store;
      EmptyRecordShape();
    }

    /** "Air temperature": the mean of the DHT22 temperature and BME280 index 1, rounded. */
    method AirTemperature(dht: DhtReading, press: BmeReading)
      requires Valid()
      modifies this
      ensures Valid()
      ensures record == Apply(old(record), AirRead(dht, press))
      ensures fpath == old(fpath) && files == old(files)
    {
      var value := (dht.temperature + press.at1) / 2.0;
      record := record[AIR_TEMP := Some(Num(Round2(value)))];
    }

    /** "Canopy temperature": the infrared camera reading, rounded. */
    method CanopyTemperature(camera: real)
      requires Valid()
      modifies this
      ensures Valid()
      ensures record == Apply(old(record), CanopyRead(camera))
      ensures fpath == old(fpath) && files == old(files)
    {
      record := record[CANOPY_TEMP := Some(Num(Round2(camera)))];
    }

    /** "Humidity": the mean of the DHT22 humidity and BME280 index 1, rounded. */
    method Humidity(dht: DhtReading, press: BmeReading)
      requires Valid()
      modifies this
      ensures Valid()
      ensures record == Apply(old(record), HumidityRead(dht, press))
      ensures fpath == old(fpath) && files == old(files)
    {
      var value := (dht.humidity + press.at1) / 2.0;
      record := record[HUM := Some(Num(Round2(value)))];
    }

    /** "Pressure": BME280 index 0, rounded. */
    method Pressure(press: BmeReading)
      requires Valid()
      modifies this
      ensures Valid()
      ensures record == Apply(old(record), PressureRead(press))
      ensures fpath == old(fpath) && files == old(files)
    {
      record := record[PRESSURE := Some(Num(Round2(press.at0)))];
    }

    /** "IR radiation": the light sensor reading, rounded. */
    method IrRadiation(light: real)
      requires Valid()
      modifies this
      ensures Valid()
      ensures record == Apply(old(record), IrRead(light))
      ensures fpath == old(fpath) && files == old(files)
    {
      record := record[IR_RAD := Some(Num(Round2(light)))];
    }

    /** "UV radiation": the UV sensor reading, rounded. */
    method UvRadiation(uv: real)
      requires Valid()
      modifies this
      ensures Valid()
      ensures record == Apply(old(record), UvRead(uv))
      ensures fpath == old(fpath) && files == old(files)
    {
      record := record[UV_RAD := Some(Num(Round2(uv)))];
    }

    /**
     * "Acquire all": the six handlers written out again, in the order air,
     * canopy, humidity, pressure, IR, UV, each on its own fresh readings.
     */
    method AcquireAll(r: AllReadings)
      requires Valid()
      modifies this
      ensures Valid()
      ensures record == ApplyAll(old(record), AllSteps(r))
      ensures fpath == old(fpath) && files == old(files)
    {
      var value := (r.dhtAir.temperature + r.pressAir.at1) / 2.0;
      record := record[AIR_TEMP := Some(Num(Round2(value)))];
      record := record[CANOPY_TEMP := Some(Num(Round2(r.camera)))];
      value := (r.dhtHum.humidity + r.pressHum.at1) / 2.0;
      record := record[HUM := Some(Num(Round2(value)))];
      record := record[PRESSURE := Some(Num(Round2(r.pressPressure.at0)))];
      record := record[IR_RAD := Some(Num(Round2(r.light)))];
      record := record[UV_RAD := Some(Num(Round2(r.uv)))];
      AcquireAllUpdates(old(record), r);
      assert record == ApplyAll(old(record), AllSteps(r));
      AcquisitionsSkipUnmeasured(old(record), AllSteps(r));
    }

    /** "Create and open file": remember the path the file dialog returned. */
    method OpenFile(path: string)
      requires Valid()
      modifies this
      ensures Valid()
      ensures fpath == Some(path)
      ensures record == old(record) && files == old(files)
    {
      fpath := Some(path);
    }

    /**
     * "Save". Without a chosen file nothing happens (the program's `open(None)`
     * raises before the record is touched). Otherwise the three inputs are
     * copied into the record, the record is appended to the chosen file as
     * one row in header order, and the record starts again all `None`. The
     * GPS fix is read and discarded.
     */
    method Save(location: string, windSpeed: string, groundHum: string, gps: GpsFix)
      returns (outcome: SaveOutcome)
      requires Valid()
      modifies this
      ensures Valid()
      ensures fpath == old(fpath)
      ensures old(fpath).None? ==>
                outcome == NoFileChosen && record == old(record) && files == old(files)
      ensures old(fpath).Some? ==>
                var path := old(fpath).value;
                var row := SavedRow(old(record), location, windSpeed, groundHum);
                && outcome == Written(path, row)
                && files == old(files)[path := RowsIn(old(files), path) + [row]]
                && record == EmptyRecord()
      ensures outcome.Written? ==> |outcome.row| == 11 && outcome.row[1] == None && outcome.row[2] == None
      ensures AppendOnly(old(files), files)
    {
      if fpath.None? {
        return NoFileChosen;
      }
      var path := fpath.value;
      ghost var before := record;
      record := record[CODE := Some(Text(location))];
      record := record[WIND_SPEED := Some(Text(windSpeed))];
      record := record[GROUND_HUM := Some(Text(groundHum))];
      assert record == Filled(before, location, windSpeed, groundHum);
      FilledKeys(before, location, windSpeed, groundHum);
      // The GPS fix `gps` is read but never stored: LAT and LON stay `None`.
      WellFormedWrites(record);
      var row := DictRow(HeadersCSV, record).value;
      assert row == SavedRow(before, location, windSpeed, groundHum) by {
        SavedRowColumns(before, location, windSpeed, groundHum);
      }
      files := files[path := RowsIn(files, path) + [row]];
      outcome := Written(path, row);
      record := EmptyRecord();
      EmptyRecordShape();
    }

    /**
     * One pass of the event loop: run the handler the event names. Returns
     * `true` when the loop ends: on "Exit", or on "Save" without a chosen
     * file, whose exception ends `main()`.
     */
    method Step(e: Event) returns (stop: bool)
      requires Valid()
      modifies this
      ensures Valid()
      ensures AppendOnly(old(files), files)
      ensures stop <==> e.ExitClicked? || (e.SaveClicked? && old(fpath).None?)
      ensures !e.FileChosen? ==> fpath == old(fpath)
      ensures !e.SaveClicked? && !e.FileChosen? ==> files == old(files)
      ensures e.Measure? ==> record == Apply(old(record), e.a)
      ensures e.AcquireAllClicked? ==> record == ApplyAll(old(record), AllSteps(e.readings))
      ensures e.FileChosen? ==> fpath == Some(e.path) && record == old(record) && files == old(files)
      ensures e.SaveClicked? && old(fpath).Some? ==>
                var path := old(fpath).value;
                && files == old(files)[path := RowsIn(old(files), path) +
                                         [SavedRow(old(record), e.location, e.windSpeed, e.groundHum)]]
                && record == EmptyRecord()
      ensures e.SaveClicked? && old(fpath).None? ==> record == old(record) && files == old(files)
      ensures e.ThemeChosen? || e.AboutClicked? || e.NoEvent? || e.ExitClicked? ==> record == old(record)
    {
      stop := false;
      match e
      case Measure(a) =>
        match a {
          case AirRead(dht, press) => AirTemperature(dht, press);
          case CanopyRead(camera) => CanopyTemperature(camera);
          case HumidityRead(dht, press) => Humidity(dht, press);
          case PressureRead(press) => Pressure(press);
          case IrRead(light) => IrRadiation(light);
          case UvRead(uv) => UvRadiation(uv);
        }
      case AcquireAllClicked(readings) =>
        AcquireAll(readings);
      case FileChosen(path) =>
        OpenFile(path);
      case SaveClicked(location, windSpeed, groundHum, gps) =>
        var outcome := Save(location, windSpeed, groundHum, gps);
        stop := outcome.NoFileChosen?;
      case ThemeChosen =>
      case AboutClicked =>
      case NoEvent =>
      case ExitClicked =>
        stop := true;
    }

    /**
     * The event loop over a sequence of events, up to the one that ends it.
     * Returns how many events were handled: exactly `Handled(events, _)` for
     * the file choice the session started with. Files only grow, and the
     * session invariant holds throughout.
     */
    method Run(events: seq<Event>) returns (handled: nat)
      requires Valid()
      modifies this
      ensures Valid()
      ensures AppendOnly(old(files), files)
      ensures handled == Handled(events, old(fpath).Some?)
    {
      handled := 0;
      var stop := false;
      while handled < |events| && !stop
        invariant Valid()
        invariant handled <= |events|
        invariant AppendOnly(old(files), files)
        invariant !stop ==> Handled(events, old(fpath).Some?) == handled + Handled(events[handled..], fpath.Some?)
        invariant stop ==> Handled(events, old(fpath).Some?) == handled
        decreases |events| - handled
      {
        var e := events[handled];
        assert events[handled..][0] == e && events[handled..][1..] == events[handled + 1..];
        stop := Step(e);
        handled := handled + 1;
      }
    }
  }

  /**
   * One collection from start to finish: choose a file, "Acquire all",
   * "Save". Air temperature is the mean of 20.0 and 22.0; humidity is the
   * mean of the DHT22's 40.0 and the same BME280 value 22.0.
   */
  method CollectOnce() returns (outcome: SaveOutcome)
    ensures outcome == Written("field.csv",
      [Some(Text("P1")), None, None, Some(Num(21.0)), Some(Num(18.5)), Some(Num(31.0)),
       Some(Text("40")), Some(Text("3.2")), Some(Num(1013.25)), Some(Num(120.0)), Some(Num(3.5))])
  {
    var c := new Collector(map[]);
    c.OpenFile("field.csv");
    var press := BmeReading(1013.25, 22.0, 55.0);
    var readings := AllReadings(DhtReading(20.0, 40.0), press, 18.5, DhtReading(20.0, 40.0), press,
                                press, 120.0, 3.5);
    c.AcquireAll(readings);
    AcquireAllFillsMeasured(EmptyRecord(), readings);
    ReconciledExamples();
    Round2Fixes(18.5);
    Round2Fixes(31.0);
    Round2Fixes(1013.25);
    Round2Fixes(120.0);
    Round2Fixes(3.5);
    outcome := c.Save("P1", "3.2", "40", GpsFix(45.07, 7.69));
    SavedRowColumns(ApplyAll(EmptyRecord(), AllSteps(readings)), "P1", "3.2", "40");
  }
}

