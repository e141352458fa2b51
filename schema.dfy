/**
 * The measurement record of the data-collection application: a dictionary
 * keyed by the eleven CSV header names, each value unset (`None`) until an
 * acquisition or the save action fills it, and the row that `csv.DictWriter`
 * builds from it.
 */
module Schema {

  datatype Option<+T> = None | Some(value: T)

  datatype Result<+T, +E> = Success(value: T) | Failure(error: E)

  /** A stored value: a rounded sensor reading or text the operator typed in. */
  datatype Value = Num(x: real) | Text(s: string)

  /**
   * The eleven keys of the record dictionary; `Name` gives the text of each,
   * which is also its CSV header.
   */
  datatype Field =
    CODE | LAT | LON | AIR_TEMP | CANOPY_TEMP | HUM | GROUND_HUM | WIND_SPEED | PRESSURE | IR_RAD | UV_RAD

  function Name(f: Field): string {
    match f
    case CODE => "CODE"
    case LAT => "LAT"
    case LON => "LON"
    case AIR_TEMP => "AIR_TEMP"
    case CANOPY_TEMP => "CANOPY_TEMP"
    case HUM => "HUM"
    case GROUND_HUM => "GROUND_HUM"
    case WIND_SPEED => "WIND_SPEED"
    case PRESSURE => "PRESSURE"
    case IR_RAD => "IR_RAD"
    case UV_RAD => "UV_RAD"
  }

  /** The record dictionary: key to optional value. */
  type Record = map<Field, Option<Value>>

  /** One CSV row, one cell per field name, in field-name order. */
  type Row = seq<Option<Value>>

  /** The CSV header, which is also the column order of every saved row. */
  const HeadersCSV: seq<Field> :=
    [CODE, LAT, LON, AIR_TEMP, CANOPY_TEMP, HUM, GROUND_HUM, WIND_SPEED, PRESSURE, IR_RAD, UV_RAD]

  function HeaderKeys(): set<Field> {
    set h | h in HeadersCSV
  }

  /** Every key is present in the record (the key type admits no others). */
  predicate WellFormed(rec: Record) {
    forall f: Field :: f in rec
  }

  predicate Distinct(s: seq<Field>) {
    forall i, j :: 0 <= i < j < |s| ==> s[i] != s[j]
  }

  /** The record every collection starts from: every header name present, every value `None`. */
  function EmptyRecord(): Record {
    map h | h in HeaderKeys() :: None
  }

  /** A sequence without repetitions has as many distinct elements as it is long. */
  lemma {:induction false} DistinctCard(s: seq<Field>)
    requires Distinct(s)
    ensures |set x | x in s| == |s|
  {
    if s != [] {
      var rest := set x | x in s[1..];
      DistinctCard(s[1..]);
      forall j | 0 <= j < |s[1..]|
        ensures s[1..][j] != s[0]
      {
        assert s[1..][j] == s[j + 1];
      }
      assert s[0] !in rest;
      assert (set x | x in s) == {s[0]} + rest;
    }
  }

  /** The header lists each of the eleven keys exactly once. */
  lemma HeadersDistinct()
    ensures |HeadersCSV| == 11
    ensures Distinct(HeadersCSV)
    ensures forall f: Field :: f in HeadersCSV
  {
    forall f: Field
      ensures f in HeadersCSV
    {
      var i := match f
        case CODE => 0 case LAT => 1 case LON => 2 case AIR_TEMP => 3
        case CANOPY_TEMP => 4 case HUM => 5 case GROUND_HUM => 6 case WIND_SPEED => 7
        case PRESSURE => 8 case IR_RAD => 9 case UV_RAD => 10;
      assert HeadersCSV[i] == f;
    }
  }

  /** Different keys have different texts, so a key and its text determine each other. */
  lemma NamesDistinct(f: Field, g: Field)
    requires f != g
    ensures Name(f) != Name(g)
  {
  }

  /** The initial record holds exactly the eleven header names, all unset. */
  lemma EmptyRecordShape()
    ensures WellFormed(EmptyRecord())
    ensures |EmptyRecord()| == 11
    ensures forall i :: 0 <= i < |HeadersCSV| ==> EmptyRecord()[HeadersCSV[i]] == None
  {
    HeadersDistinct();
    DistinctCard(HeadersCSV);
    assert EmptyRecord().Keys == HeaderKeys();
  }

  /** The value `DictWriter` writes for `name`: the entry, or an empty cell when the key is absent. */
  function Lookup(rec: Record, name: Field): Option<Value> {
    if name in rec then rec[name] else None
  }

  /** The cells of a row: one lookup per field name, in field-name order. */
  function Cells(fieldnames: seq<Field>, rec: Record): (row: Row)
    ensures |row| == |fieldnames|
    ensures forall i :: 0 <= i < |fieldnames| ==> row[i] == Lookup(rec, fieldnames[i])
  {
    if fieldnames == [] then []
    else [Lookup(rec, fieldnames[0])] + Cells(fieldnames[1..], rec)
  }

  /** `DictWriter.writerow` refuses a dictionary with keys that are not field names. */
  datatype WriteError = ExtraFields(extra: set<Field>)

  /**
   * The row `DictWriter(f, fieldnames).writerow(rec)` appends: an error when
   * `rec` has a key outside `fieldnames`, otherwise the values of `rec` in
   * field-name order.
   */
  function DictRow(fieldnames: seq<Field>, rec: Record): Result<Row, WriteError> {
    if exists k :: k in rec && k !in fieldnames then
      Failure(ExtraFields(set k | k in rec && k !in fieldnames))
    else
      Success(Cells(fieldnames, rec))
  }

  /** A record with only header keys is always written: `DictWriter` finds no extra field. */
  lemma WellFormedWrites(rec: Record)
    requires WellFormed(rec)
    ensures DictRow(HeadersCSV, rec).Success?
  {
    HeadersDistinct();
  }

  /** The cells for the header, spelled out column by column. */
  lemma CellsOfHeaders(rec: Record)
    ensures Cells(HeadersCSV, rec) ==
      [Lookup(rec, CODE), Lookup(rec, LAT), Lookup(rec, LON), Lookup(rec, AIR_TEMP),
       Lookup(rec, CANOPY_TEMP), Lookup(rec, HUM), Lookup(rec, GROUND_HUM),
       Lookup(rec, WIND_SPEED), Lookup(rec, PRESSURE), Lookup(rec, IR_RAD), Lookup(rec, UV_RAD)]
  {
    var row := Cells(HeadersCSV, rec);
    assert |row| == 11;
    assert row[0] == Lookup(rec, HeadersCSV[0]);
  }

  /**
   * A well-formed record is always written, as the row of its eleven values
   * in header order.
   */
  lemma WellFormedRowWrites(rec: Record)
    requires WellFormed(rec)
    ensures DictRow(HeadersCSV, rec) ==
      Success([rec[CODE], rec[LAT], rec[LON], rec[AIR_TEMP], rec[CANOPY_TEMP], rec[HUM],
               rec[GROUND_HUM], rec[WIND_SPEED], rec[PRESSURE], rec[IR_RAD], rec[UV_RAD]])
  {
    WellFormedWrites(rec);
    CellsOfHeaders(rec);
  }
}
