# Measurement record of the field data-collection application

The application is a PySimpleGUI window on a field device. The operator
presses one button per measurement. Each press reads one or two sensors
(DHT22, BME280, MLX90614 infrared camera, TSL2591 light sensor, LTR390 UV
sensor). The handler averages two readings where two sensors overlap,
rounds the result to two decimals and stores it in a record dictionary.
"Save" copies the location code, wind speed and ground humidity the
operator typed in into the record. It appends the record to the chosen CSV
file as one row in header order and starts a new, all-`None` record.

This project models that record lifecycle inside `main()` in `GuiApp.py`.
The window, the sensor drivers and the file I/O stay outside the model.
Sensor readings and text inputs are parameters.

- `numeric.dfy` (module `Numeric`): `round(x, 2)` as Python defines it on
  the number it is given, the mean of two readings, and their properties.
  These are: nearest hundredth, ties to even, idempotent, monotone, and a
  reconciled value lies between the two rounded readings.
- `schema.dfy` (module `Schema`): the eleven keys and the header order of
  `headersCSV`, the all-`None` initial record, and the row
  `csv.DictWriter.writerow` builds. That includes its refusal of keys
  outside the field names.
- `acquisition.dfy` (module `Acquisition`): the six acquisition handlers as
  data. For each one it gives the readings it takes, how it reconciles them
  and which key it writes. `Apply` and `ApplyAll` are the specification of
  one handler and of a run of handlers. It also holds the lemmas about
  "Acquire all".
- `session.dfy` (module `Session`): class `Collector` holds the record
  dictionary, the chosen file path and the rows of each file. It has one
  method per event, the dispatch of one event-loop pass (`Step`) and the
  event loop (`Run`). Each acquisition method updates the record in place,
  and its postcondition ties the new record to `Apply`. The session
  invariant `Valid()` says that all eleven keys are present and that
  latitude and longitude stay `None`.

Three behaviours of the code are worth stating outright, because the model
follows them as written:

- The humidity handler averages the DHT22 humidity with BME280 index 1
  (`GuiApp.py:263`). That is the value the air-temperature handler averages
  with the DHT22 temperature (`GuiApp.py:241`). No other BME280 output feeds
  HUM. `CollectOnce` shows the consequence: one BME280 value of 22.0 feeds
  both AIR_TEMP and HUM.
- The GPS fix is read on "Save" and thrown away (`GuiApp.py:395-398`), so
  LAT and LON are `None` in every saved row. The session invariant keeps
  them `None`.
- The code has no per-field error recovery. A sensor or file exception ends
  `main()`. "Save" with no file chosen raises in `open(None)` before the
  record is touched. The model returns `NoFileChosen`, changes nothing, and
  `Step` reports that the loop ends.

## Model

| member | source | states |
|---|---|---|
| Numeric.RoundHalfEven | GuiApp.py:247 | the integer chosen is within one half of its argument, and on a tie it is the even one (Python's rounding rule) |
| Numeric.Round2 | GuiApp.py:247 | `round(x, 2)` returns a whole number of hundredths within 0.005 of `x` |
| Numeric.Round2Nearest | GuiApp.py:247 | no whole number of hundredths is nearer to `x` than `Round2(x)` |
| Numeric.Round2Fixes | GuiApp.py:247 | a value that already has two decimals is stored unchanged |
| Numeric.Round2Idempotent | GuiApp.py:247 | rounding a stored value again changes nothing |
| Numeric.RoundHalfEvenMonotone | GuiApp.py:247 | rounding to an integer never reverses the order of two numbers |
| Numeric.Round2Monotone | GuiApp.py:247 | `round(_, 2)` never reverses the order of two readings |
| Numeric.Mean | GuiApp.py:240-242 | the reconciled value is equidistant from both readings and lies between them |
| Numeric.RoundHalfEvenNearest | GuiApp.py:247 | no integer is nearer to the argument than the rounded one |
| Numeric.ReconciledBetween | GuiApp.py:240-247 | a rounded mean of two readings lies between the two readings rounded on their own |
| Numeric.ReconciledExamples | GuiApp.py:240-247 | 20.0 and 22.0 reconcile to 21.00; 21.333 and 22.667 reconcile to 22.00 |
| Schema.HeadersDistinct | GuiApp.py:162-165 | the header has eleven entries, no two the same, and every key of the record among them |
| Schema.NamesDistinct | GuiApp.py:184-196 | different keys have different header texts |
| Schema.EmptyRecordShape | GuiApp.py:184-196 | the initial record has exactly eleven keys, one per header entry, all `None` |
| Schema.Cells | GuiApp.py:399-400 | the row has one cell per field name, and cell i holds the record's value under field name i (empty when absent) |
| Schema.WellFormedWrites | GuiApp.py:399-400 | a record holding the header keys never makes `writerow` fail |
| Schema.CellsOfHeaders | GuiApp.py:162-165 | the row's columns are CODE, LAT, LON, AIR_TEMP, CANOPY_TEMP, HUM, GROUND_HUM, WIND_SPEED, PRESSURE, IR_RAD, UV_RAD in that order |
| Schema.WellFormedRowWrites | GuiApp.py:399-400 | a complete record is written as the eleven values in header order |
| Acquisition.Target | GuiApp.py:235-300 | every acquisition handler writes one of the six measured header keys |
| Acquisition.ApplyWritesOneKey | GuiApp.py:235-300 | one handler writes a two-decimal number to its own key, keeps the key set and leaves every other key as it was |
| Acquisition.ApplyAllFrame | GuiApp.py:235-300 | any run of handlers keeps the key set and leaves every key none of them targets unchanged |
| Acquisition.AcquisitionsSkipUnmeasured | GuiApp.py:302-366 | no acquisition writes CODE, LAT, LON, GROUND_HUM or WIND_SPEED |
| Acquisition.AcquireAllIsSixHandlers | GuiApp.py:302-366 | "Acquire all" gives the same record as the air, canopy, humidity, pressure, IR and UV handlers run in that order on the same readings |
| Acquisition.AcquireAllUpdates | GuiApp.py:302-366 | "Acquire all" is the six key assignments of its handler, in its order |
| Acquisition.AcquireAllFillsMeasured | GuiApp.py:302-366 | after "Acquire all" each measured key holds its rounded reconciled value: AIR_TEMP and HUM from BME280 index 1, PRESSURE from index 0. The five other keys are unchanged |
| Session.FilledKeys | GuiApp.py:391-393 | copying in the three inputs writes CODE, WIND_SPEED and GROUND_HUM and no other key |
| Session.SavedRowColumns | GuiApp.py:390-400 | the saved row is the typed-in code, LAT, LON, the three acquired temperature and humidity values, the typed-in ground humidity and wind speed, then pressure, IR and UV |
| Session.Collector.constructor | GuiApp.py:157-196 | a session starts with the all-`None` record and no file chosen |
| Session.Collector.AirTemperature | GuiApp.py:235-249 | AIR_TEMP becomes the rounded mean of the DHT22 temperature and BME280 index 1; every other key, the path and the files are unchanged |
| Session.Collector.CanopyTemperature | GuiApp.py:251-258 | CANOPY_TEMP becomes the rounded camera reading; nothing else changes |
| Session.Collector.Humidity | GuiApp.py:260-270 | HUM becomes the rounded mean of the DHT22 humidity and BME280 index 1; nothing else changes |
| Session.Collector.Pressure | GuiApp.py:272-280 | PRESSURE becomes BME280 index 0, rounded; nothing else changes |
| Session.Collector.IrRadiation | GuiApp.py:282-290 | IR_RAD becomes the rounded light-sensor reading; nothing else changes |
| Session.Collector.UvRadiation | GuiApp.py:292-300 | UV_RAD becomes the rounded UV reading; nothing else changes |
| Session.Collector.AcquireAll | GuiApp.py:302-366 | the record becomes the result of the six handlers run in order on their readings; the invariant holds |
| Session.Collector.OpenFile | GuiApp.py:378-384 | the chosen path is remembered; the record and the files are unchanged |
| Session.Collector.Save | GuiApp.py:388-415 | with no file, nothing changes. Otherwise the chosen file gains exactly one row, the saved row of the record and inputs, with LAT and LON empty. Other files are unchanged, and the record is again all `None` |
| Session.Collector.Step | GuiApp.py:219-433 | one loop pass runs the handler the event names and states its whole effect: an acquisition updates the record as `Apply`/`ApplyAll`, a file choice sets the path, Save with a file appends the saved row and resets the record, Theme, About, no event and Exit change nothing; it stops exactly on Exit or on Save without a file; files only grow |
| Session.Handled | GuiApp.py:219-433 | the loop handles at most all events; no event before the last handled one is Exit, and when no file is chosen at the start, none of them is a Save that precedes every file choice; if it stops early, the last handled event is Exit, or a Save with no file chosen at the start or at any event before it |
| Session.Collector.Run | GuiApp.py:219-433 | the event loop handles exactly `Handled(events, file chosen at start)` events, so it stops at the first Exit or first Save without a file; the invariant holds throughout and files only grow |
| Session.CollectOnce | GuiApp.py:302-415 | choosing a file, acquiring all fields and saving writes exactly the row P1, empty, empty, 21.0, 18.5, 31.0, 40, 3.2, 1013.25, 120.0, 3.5 |

## Left out

- Window and GUI code: layout, themes, "Set Theme", "About", the `"{:.2f}"`
  display strings, the display resets and the progress-bar loops. None of
  them affects the record. `Step` treats "Set Theme" and "About" as passes
  that change nothing. "Set Theme" with no theme selected raises an
  `IndexError` (`GuiApp.py:372`) that ends `main()`; that crash is not
  modelled, and `ThemeChosen` stands for "Set Theme" with a theme selected.
- Sensor drivers, their construction and the BME280 calibration call
  (`GuiApp.py:207-216`). These are hardware I/O. The readings are method
  parameters instead.
- Sensor exceptions. A failing `measure()` propagates out of `main()`.
  Every modelled reading succeeds.
- The file dialog. `FileManager/Openfile.py` is not part of this model, so
  the header row it may write is not modelled. `files` holds data rows
  only. Every chosen path is taken to be openable.
- The text encoding of `csv.DictWriter` and `open(..., 'a')`. A row is a
  sequence of optional values; how `None` and numbers are written as text
  is not modelled.
- Floating point. Readings are exact reals, `/` is exact division, and
  `round(x, 2)` is applied to the exact value. The binary representation of
  a float is not modelled.
- The debug print of each event's values and the logging setup and calls.
- The scratch variable `value`, which every handler resets to `None`. It
  never reaches the record.
- Session.Collector.Run: states the invariant, the append-only files and
  where the loop stopped. It does not state the final record in terms of
  the events.
