/**
 * The six acquisition handlers of the event loop, as data: which sensor
 * readings each one takes, how it reconciles them into one value, and which
 * key of the record it writes. The hardware stays outside: every reading is
 * a parameter.
 */
module Acquisition {
  import opened Numeric
  import opened Schema

  /** What the DHT22 temperature/humidity sensor's `measure()` returns: `(temperature, humidity)`. */
  datatype DhtReading = DhtReading(temperature: real, humidity: real)

  /**
   * What the BME280 pressure sensor's `measure()` returns: three values,
   * indexed 0, 1 and 2. The handlers read index 0 as the pressure and
   * index 1 both for the air temperature and for the humidity.
   */
  datatype BmeReading = BmeReading(at0: real, at1: real, at2: real)

  /** What the GPS receiver's `measure()` returns: `(lat, lng)`. */
  datatype GpsFix = GpsFix(lat: real, lng: real)

  /** One single-field acquisition together with the readings its handler takes. */
  datatype Acquire =
    | AirRead(dht: DhtReading, press: BmeReading)
    | CanopyRead(camera: real)
    | HumidityRead(dht: DhtReading, press: BmeReading)
    | PressureRead(press: BmeReading)
    | IrRead(light: real)
    | UvRead(uv: real)

  /** The six measured keys: the ones the acquisition handlers write. */
  predicate Measured(key: Field) {
    key in {AIR_TEMP, CANOPY_TEMP, HUM, PRESSURE, IR_RAD, UV_RAD}
  }

  /** The key an acquisition writes: always one of the six measured header names. */
  function Target(a: Acquire): (key: Field)
    ensures key in HeaderKeys() && Measured(key)
  {
    match a
    case AirRead(_, _) => AIR_TEMP
    case CanopyRead(_) => CANOPY_TEMP
    case HumidityRead(_, _) => HUM
    case PressureRead(_) => PRESSURE
    case IrRead(_) => IR_RAD
    case UvRead(_) => UV_RAD
  }

  /**
   * The value a handler computes before rounding: the mean of two readings
   * for air temperature and humidity, a single reading otherwise.
   */
  function Reconciled(a: Acquire): real {
    match a
    case AirRead(dht, press) => Mean(dht.temperature, press.at1)
    case CanopyRead(camera) => camera
    case HumidityRead(dht, press) => Mean(dht.humidity, press.at1)
    case PressureRead(press) => press.at0
    case IrRead(light) => light
    case UvRead(uv) => uv
  }

  /** The value a handler stores: its reconciled value rounded to two decimals. */
  function Stored(a: Acquire): real {
    Round2(Reconciled(a))
  }

  /** The record after one acquisition handler has run. */
  function Apply(rec: Record, a: Acquire): Record {
    rec[Target(a) := Some(Num(Stored(a)))]
  }

  /** The record after a sequence of acquisition handlers has run, first to last. */
  function ApplyAll(rec: Record, acqs: seq<Acquire>): Record
    decreases |acqs|
  {
    if acqs == [] then rec else ApplyAll(Apply(rec, acqs[0]), acqs[1..])
  }

  /**
   * The readings "Acquire all" takes. Each sensor is measured afresh for
   * each field, so the DHT22 is read twice and the BME280 three times.
   */
  datatype AllReadings = AllReadings(
    dhtAir: DhtReading, pressAir: BmeReading,
    camera: real,
    dhtHum: DhtReading, pressHum: BmeReading,
    pressPressure: BmeReading,
    light: real,
    uv: real)

  /** The order "Acquire all" runs the handlers in: air, canopy, humidity, pressure, IR, UV. */
  function AllSteps(r: AllReadings): seq<Acquire> {
    [AirRead(r.dhtAir, r.pressAir), CanopyRead(r.camera), HumidityRead(r.dhtHum, r.pressHum),
     PressureRead(r.pressPressure), IrRead(r.light), UvRead(r.uv)]
  }

  /**
   * An acquisition writes one key and nothing else: the key set is the same
   * (so a well-formed record stays well-formed), its target holds the stored
   * value, every other key keeps its value.
   */
  lemma ApplyWritesOneKey(rec: Record, a: Acquire)
    requires WellFormed(rec)
    ensures WellFormed(Apply(rec, a))
    ensures Apply(rec, a)[Target(a)] == Some(Num(Stored(a)))
    ensures IsCents(Stored(a))
    ensures forall k :: k in rec && k != Target(a) ==> Apply(rec, a)[k] == rec[k]
  {
  }

  /**
   * Any run of acquisitions keeps the key set, and leaves every key that
   * none of them targets as it was.
   */
  lemma {:induction false} ApplyAllFrame(rec: Record, acqs: seq<Acquire>)
    requires WellFormed(rec)
    ensures WellFormed(ApplyAll(rec, acqs))
    ensures forall k :: k in rec && (forall i :: 0 <= i < |acqs| ==> Target(acqs[i]) != k) ==>
              ApplyAll(rec, acqs)[k] == rec[k]
    decreases |acqs|
  {
    if acqs != [] {
      var next := Apply(rec, acqs[0]);
      ApplyWritesOneKey(rec, acqs[0]);
      ApplyAllFrame(next, acqs[1..]);
      forall k | k in rec && (forall i :: 0 <= i < |acqs| ==> Target(acqs[i]) != k)
        ensures ApplyAll(rec, acqs)[k] == rec[k]
      {
        assert Target(acqs[0]) != k;
        forall i | 0 <= i < |acqs[1..]| ensures Target(acqs[1..][i]) != k {
          assert acqs[1..][i] == acqs[i + 1];
        }
      }
    }
  }

  /** No acquisition ever writes the position or the three typed-in fields. */
  lemma AcquisitionsSkipUnmeasured(rec: Record, acqs: seq<Acquire>)
    requires WellFormed(rec)
    ensures WellFormed(ApplyAll(rec, acqs))
    ensures forall k :: k in {CODE, LAT, LON, GROUND_HUM, WIND_SPEED} ==> ApplyAll(rec, acqs)[k] == rec[k]
  {
    ApplyAllFrame(rec, acqs);
  }

  /**
   * "Acquire all" is the six single-field handlers run one after the other
   * in its fixed order, on the same readings.
   */
  lemma AcquireAllIsSixHandlers(rec: Record, r: AllReadings)
    ensures ApplyAll(rec, AllSteps(r)) ==
      Apply(Apply(Apply(Apply(Apply(Apply(rec,
        AirRead(r.dhtAir, r.pressAir)),
        CanopyRead(r.camera)),
        HumidityRead(r.dhtHum, r.pressHum)),
        PressureRead(r.pressPressure)),
        IrRead(r.light)),
        UvRead(r.uv))
  {
    var s := AllSteps(r);
    var r1 := Apply(rec, s[0]);
    var r2 := Apply(r1, s[1]);
    var r3 := Apply(r2, s[2]);
    var r4 := Apply(r3, s[3]);
    var r5 := Apply(r4, s[4]);
    var r6 := Apply(r5, s[5]);
    assert ApplyAll(r6, s[6..]) == r6;
    assert ApplyAll(r5, s[5..]) == ApplyAll(r6, s[6..]);
    assert ApplyAll(r4, s[4..]) == ApplyAll(r5, s[5..]);
    assert ApplyAll(r3, s[3..]) == ApplyAll(r4, s[4..]);
    assert ApplyAll(r2, s[2..]) == ApplyAll(r3, s[3..]);
    assert ApplyAll(r1, s[1..]) == ApplyAll(r2, s[2..]);
    assert ApplyAll(rec, s) == ApplyAll(r1, s[1..]);
  }

  /** "Acquire all" as the six map assignments of its handler, in order. */
  lemma AcquireAllUpdates(rec: Record, r: AllReadings)
    ensures ApplyAll(rec, AllSteps(r)) ==
      rec[AIR_TEMP := Some(Num(Round2(Mean(r.dhtAir.temperature, r.pressAir.at1))))]
         [CANOPY_TEMP := Some(Num(Round2(r.camera)))]
         [HUM := Some(Num(Round2(Mean(r.dhtHum.humidity, r.pressHum.at1))))]
         [PRESSURE := Some(Num(Round2(r.pressPressure.at0)))]
         [IR_RAD := Some(Num(Round2(r.light)))]
         [UV_RAD := Some(Num(Round2(r.uv)))]
  {
    AcquireAllIsSixHandlers(rec, r);
  }

  /**
   * After "Acquire all" every measured field holds a two-decimal number:
   * the mean of the DHT22 temperature and BME280 index 1 for air
   * temperature, the mean of the DHT22 humidity and BME280 index 1 for
   * humidity, BME280 index 0 for pressure, the camera, light and UV
   * readings for the rest. The other five fields are untouched.
   */
  lemma AcquireAllFillsMeasured(rec: Record, r: AllReadings)
    requires WellFormed(rec)
    ensures WellFormed(ApplyAll(rec, AllSteps(r)))
    ensures ApplyAll(rec, AllSteps(r))[AIR_TEMP] == Some(Num(Round2(Mean(r.dhtAir.temperature, r.pressAir.at1))))
    ensures ApplyAll(rec, AllSteps(r))[CANOPY_TEMP] == Some(Num(Round2(r.camera)))
    ensures ApplyAll(rec, AllSteps(r))[HUM] == Some(Num(Round2(Mean(r.dhtHum.humidity, r.pressHum.at1))))
    ensures ApplyAll(rec, AllSteps(r))[PRESSURE] == Some(Num(Round2(r.pressPressure.at0)))
    ensures ApplyAll(rec, AllSteps(r))[IR_RAD] == Some(Num(Round2(r.light)))
    ensures ApplyAll(rec, AllSteps(r))[UV_RAD] == Some(Num(Round2(r.uv)))
    ensures forall k :: k in {CODE, LAT, LON, GROUND_HUM, WIND_SPEED} ==> ApplyAll(rec, AllSteps(r))[k] == rec[k]
  {
    AcquireAllIsSixHandlers(rec, r);
    AcquisitionsSkipUnmeasured(rec, AllSteps(r));
  }
}
