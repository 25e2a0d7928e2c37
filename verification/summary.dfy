/**
 * buildSummaryFile.py: one summary record per ride file for `summary.json`,
 * and the two per-file listings `print_total_fields` and
 * `print_selected_fields`.
 *
 * A FIT file is given as the messages fitparse returns for each message type
 * the script asks for. Floating-point arithmetic and `:.2f`/`:.6f` formatting
 * are not modelled: a converted value is kept as the number it was converted
 * from, together with the conversion and the number of decimals it is printed
 * with.
 */
module BuildSummary {
  import opened Wrappers
  import opened Text
  import opened Sorting
  import opened FileNames
  import opened FitRecords
  import Kml2Gpx

  /** The messages of one FIT file, by the message types the script asks for. */
  datatype FitFile = FitFile(activity: seq<Message>, session: seq<Message>, fileId: seq<Message>, records: seq<Message>)

  // ---------------------------------------------------------------------------
  // The `summary` dict

  /** A Python dict from field name to value, as its entries in insertion order. */
  type Summary = seq<Field>

  function Names(d: Summary): seq<string> {
    if d == [] then [] else Names(d[..|d| - 1]) + [d[|d| - 1].name]
  }

  predicate Distinct(s: seq<string>) {
    forall i, j :: 0 <= i < j < |s| ==> s[i] != s[j]
  }

  /** `d.get(name)`, None for a missing key. */
  function Find(d: Summary, name: string): Option<FitValue> {
    if d == [] then None
    else if d[|d| - 1].name == name then Some(d[|d| - 1].value)
    else Find(d[..|d| - 1], name)
  }

  /** `d[f.name] = f.value`: an existing key keeps its place and takes the new value, a new key goes last. */
  function Put(d: Summary, f: Field): (r: Summary)
    ensures Names(r) == if f.name in Names(d) then Names(d) else Names(d) + [f.name]
    ensures Find(r, f.name) == Some(f.value)
    ensures forall n :: n != f.name ==> Find(r, n) == Find(d, n)
  {
    if d == [] then [f]
    else
      var init, last := d[..|d| - 1], d[|d| - 1];
      assert (init + [f])[..|d| - 1] == init;
      if last.name == f.name then init + [f]
      else if f.name in Names(init) then
        var r := Put(init, f) + [last];
        assert r[..|r| - 1] == Put(init, f);
        r
      else
        assert (d + [f])[..|d|] == d;
        d + [f]
  }

  /** The dict after assigning the fields `fs` in order, starting from `d`. */
  function PutAll(d: Summary, fs: seq<Field>): Summary {
    if fs == [] then d else Put(PutAll(d, fs[..|fs| - 1]), fs[|fs| - 1])
  }

  /** The fields of the messages, one message after the other. */
  function Flatten(msgs: seq<Message>): seq<Field> {
    if msgs == [] then [] else Flatten(msgs[..|msgs| - 1]) + msgs[|msgs| - 1]
  }

  /** The fields that fill `summary`: those of the activity, then the session, then the file_id messages. */
  function SummaryFields(file: FitFile): seq<Field> {
    Flatten(file.activity) + Flatten(file.session) + Flatten(file.fileId)
  }

  function SummaryOf(file: FitFile): Summary {
    PutAll([], SummaryFields(file))
  }

  /** The value of the last field named `name` in `fs`, None when there is none. */
  function LastField(fs: seq<Field>, name: string): Option<FitValue> {
    if fs == [] then None
    else if fs[|fs| - 1].name == name then Some(fs[|fs| - 1].value)
    else LastField(fs[..|fs| - 1], name)
  }

  lemma {:induction false} PutAllAppend(d: Summary, a: seq<Field>, b: seq<Field>)
    ensures PutAll(d, a + b) == PutAll(PutAll(d, a), b)
    decreases |b|
  {
    if b == [] {
      assert a + b == a;
    } else {
      var init := b[..|b| - 1];
      AppendSplitsLast(a, b);
      PutAllAppend(d, a, init);
    }
  }

  /** `for field in msg: summary[field.name] = field.value`. */
  method AddFields(summary: Summary, msg: Message) returns (r: Summary)
    ensures r == PutAll(summary, msg)
  {
    r := summary;
    var i := 0;
    while i < |msg|
      invariant 0 <= i <= |msg|
      invariant r == PutAll(summary, msg[..i])
    {
      assert msg[..i + 1][..i] == msg[..i];
      r := Put(r, msg[i]);
      i := i + 1;
    }
    assert msg[..i] == msg;
  }

  /** `for msg in fitfile.get_messages(msg_type): ...` for one message type. */
  method AddMessages(summary: Summary, msgs: seq<Message>) returns (r: Summary)
    ensures r == PutAll(summary, Flatten(msgs))
  {
    r := summary;
    var i := 0;
    while i < |msgs|
      invariant 0 <= i <= |msgs|
      invariant r == PutAll(summary, Flatten(msgs[..i]))
    {
      assert msgs[..i + 1][..i] == msgs[..i];
      PutAllAppend(summary, Flatten(msgs[..i]), msgs[i]);
      r := AddFields(r, msgs[i]);
      i := i + 1;
    }
    assert msgs[..i] == msgs;
  }

  /** The loop over `['activity', 'session', 'file_id']`, one call per message type. */
  method CollectSummary(file: FitFile) returns (summary: Summary)
    ensures summary == SummaryOf(file)
  {
    summary := AddMessages([], file.activity);
    summary := AddMessages(summary, file.session);
    summary := AddMessages(summary, file.fileId);
    PutAllAppend([], Flatten(file.activity), Flatten(file.session));
    PutAllAppend([], Flatten(file.activity) + Flatten(file.session), Flatten(file.fileId));
  }

  // ---------------------------------------------------------------------------
  // The end position

  predicate HasPosition(record: Message) {
    LastValue(record, "position_lat") != FNone && LastValue(record, "position_long") != FNone
  }

  function PositionOf(record: Message): Position {
    Position(LastValue(record, "position_lat"), LastValue(record, "position_long"))
  }

  /** `(end_lat, end_long)` as a pair: the position of the last record that has both, None when no record has. */
  function EndPosition(records: seq<Message>): Option<Position> {
    if records == [] then None
    else if HasPosition(records[|records| - 1]) then Some(PositionOf(records[|records| - 1]))
    else EndPosition(records[..|records| - 1])
  }

  /** The inner loop over one record's fields, with its `if`/`elif`. */
  method ReadLatLon(record: Message) returns (lat: FitValue, lon: FitValue)
    ensures lat == LastValue(record, "position_lat") && lon == LastValue(record, "position_long")
  {
    lat, lon := FNone, FNone;
    var i := 0;
    while i < |record|
      invariant 0 <= i <= |record|
      invariant lat == LastValue(record[..i], "position_lat") && lon == LastValue(record[..i], "position_long")
    {
      assert record[..i + 1][..i] == record[..i];
      if record[i].name == "position_lat" {
        lat := record[i].value;
      } else if record[i].name == "position_long" {
        lon := record[i].value;
      }
      i := i + 1;
    }
    assert record[..i] == record;
  }

  /** The loop over the `record` messages that finds `end_lat` and `end_long`. */
  method FindEnd(records: seq<Message>) returns (endLat: FitValue, endLong: FitValue)
    ensures endLat == FNone <==> endLong == FNone
    ensures EndPosition(records) == if endLat != FNone then Some(Position(endLat, endLong)) else None
  {
    endLat, endLong := FNone, FNone;
    var i := 0;
    while i < |records|
      invariant 0 <= i <= |records|
      invariant endLat == FNone <==> endLong == FNone
      invariant EndPosition(records[..i]) == if endLat != FNone then Some(Position(endLat, endLong)) else None
    {
      assert records[..i + 1][..i] == records[..i];
      var lat, lon := ReadLatLon(records[i]);
      if lat != FNone && lon != FNone {
        endLat, endLong := lat, lon;
      }
      i := i + 1;
    }
    assert records[..i] == records;
  }

  // ---------------------------------------------------------------------------
  // The summary record

  /**
   * The keys copied into the record; `total_eplasped_time` is spelt as in the
   * script. The script's list is only tested for membership, so a set.
   */
  const Whitelist: set<string> := {
    "max_temperature", "min_temperature", "avg_temperature", "total_distance",
    "total_ascent", "total_descent", "total_calories", "total_eplasped_time",
    "enhanced_elapsed_time", "enhanced_avg_speed", "enhanced_max_speed",
    "avg_speed", "max_speed", "start_position_lat", "start_position_long"}

  /** The unit conversion applied to a key's value. */
  datatype Conversion =
    | MilesPerHour   // `v * 2.23694`
    | Fahrenheit     // `v * 1.8 + 32`
    | Feet           // `v * 3.28084`
    | Miles          // `v / 1609.34`
    | Degrees        // `v * (180.0 / 2147483648.0)`
    | Unconverted

  /** The first matching substring decides: speed, temp, ascent or descent, distance, start_position. */
  function ConversionOf(key: string): Conversion {
    if Contains(key, "speed") then MilesPerHour
    else if Contains(key, "temp") then Fahrenheit
    else if Contains(key, "ascent") || Contains(key, "descent") then Feet
    else if Contains(key, "distance") then Miles
    else if Contains(key, "start_position") then Degrees
    else Unconverted
  }

  /** Decimals printed for a float: 6 for the start position, 2 otherwise. */
  function Places(key: string): nat {
    if key == "start_position_lat" || key == "start_position_long" then 6 else 2
  }

  /** A value of the summary record as `json.dump` receives it. */
  datatype Cell =
    | Text(s: string)                                              // a string: the file name, or `f"{v}"` of an int
    | Fixed(number: FitValue, conversion: Conversion, places: nat)  // `f"{converted:.<places>f}"` of a float
    | Null                                                         // None
    | Raw(value: FitValue)                                         // any other value, kept as it is

  datatype Entry = Entry(key: string, cell: Cell)

  type SummaryRecord = seq<Entry>

  datatype SummaryError =
    | NotANumber(key: string)   // TypeError: a conversion multiplies or divides a value that is not a number

  /** The value stored for a whitelisted key: converted when its key calls for it, then formatted by its type. */
  function CellOf(key: string, v: FitValue): (r: Result<Cell, SummaryError>)
    ensures r.Err? <==> ConversionOf(key) != Unconverted && !Numeric(v)
    ensures r.Ok? && ConversionOf(key) != Unconverted ==> r.value == Fixed(v, ConversionOf(key), Places(key))
    ensures r == Ok(Null) <==> v == FNone && ConversionOf(key) == Unconverted
  {
    var c := ConversionOf(key);
    if c != Unconverted then
      if Numeric(v) then Ok(Fixed(v, c, Places(key))) else Err(NotANumber(key))
    else
      match v
      case FFloat(_) => Ok(Fixed(v, Unconverted, Places(key)))
      case FInt(i) => Ok(Text(IntToString(i)))
      case FNone => Ok(Null)
      case _ => Ok(Raw(v))
  }

  /** One pass of the loop over `summary.items()`: an earlier error stands, a whitelisted key adds its cell. */
  function AddCell(before: Result<seq<Entry>, SummaryError>, f: Field): Result<seq<Entry>, SummaryError> {
    match before
    case Err(e) => Err(e)
    case Ok(es) =>
      if f.name in Whitelist then
        match CellOf(f.name, f.value)
        case Err(e) => Err(e)
        case Ok(c) => Ok(es + [Entry(f.name, c)])
      else Ok(es)
  }

  /** The entries the whitelisted keys of `d` contribute, in the dict's order. */
  function Cells(d: Summary): Result<seq<Entry>, SummaryError> {
    if d == [] then Ok([]) else AddCell(Cells(d[..|d| - 1]), d[|d| - 1])
  }

  /** The `end_position_lat`/`end_position_long` entries, present when an end position was found. */
  function EndEntries(end: Option<Position>): Result<seq<Entry>, SummaryError> {
    match end
    case None => Ok([])
    case Some(p) =>
      if !Numeric(p.lat) then Err(NotANumber("position_lat"))
      else if !Numeric(p.lon) then Err(NotANumber("position_long"))
      else Ok([Entry("end_position_lat", Fixed(p.lat, Degrees, 6)), Entry("end_position_long", Fixed(p.lon, Degrees, 6))])
  }

  /** The record of a file: the file name, the whitelisted cells, the end position; None for an empty summary. */
  function RecordOf(name: string, file: FitFile): Result<Option<SummaryRecord>, SummaryError> {
    var summary := SummaryOf(file);
    if summary == [] then Ok(None)
    else
      match Cells(summary)
      case Err(e) => Err(e)
      case Ok(cells) =>
        match EndEntries(EndPosition(file.records))
        case Err(e) => Err(e)
        case Ok(ends) => Ok(Some([Entry("fitFileName", Text(name))] + cells + ends))
  }

  /** `summary_json` after `print_summary_fields`: the record is appended when there is one and a list was given. */
  function AfterSummary(name: string, file: FitFile, json: Option<seq<SummaryRecord>>): Result<Option<seq<SummaryRecord>>, SummaryError> {
    match RecordOf(name, file)
    case Err(e) => Err(e)
    case Ok(rec) => Ok(if rec.Some? && json.Some? then Some(json.value + [rec.value]) else json)
  }

  lemma CellsStep(d: Summary, i: nat)
    requires i < |d|
    ensures Cells(d[..i + 1]) == AddCell(Cells(d[..i]), d[i])
  {
    assert d[..i + 1][..i] == d[..i];
  }

  lemma {:induction false} CellsErrorPersists(d: Summary, i: nat)
    requires i <= |d| && Cells(d[..i]).Err?
    ensures Cells(d) == Cells(d[..i])
    decreases |d| - i
  {
    if i < |d| {
      CellsStep(d, i);
      CellsErrorPersists(d, i + 1);
    } else {
      assert d[..i] == d;
    }
  }

  /** The loop over `summary.items()`: the cells of the whitelisted keys, converted and formatted, in order. */
  method WhitelistedCells(summary: Summary) returns (r: Result<seq<Entry>, SummaryError>)
    ensures r == Cells(summary)
  {
    var cells := [];
    var i := 0;
    assert summary[..0] == [];
    while i < |summary|
      invariant 0 <= i <= |summary|
      invariant Cells(summary[..i]) == Ok(cells)
    {
      CellsStep(summary, i);
      var k, v := summary[i].name, summary[i].value;
      if k in Whitelist {
        var cell := CellOf(k, v);
        if cell.Err? {
          CellsErrorPersists(summary, i + 1);
          return Err(cell.error);
        }
        cells := cells + [Entry(k, cell.value)];
      }
      i := i + 1;
    }
    assert summary[..i] == summary;
    r := Ok(cells);
  }

  /** `print_summary_fields(fit_file, summary_json)`, returning the list as it is after the call. */
  method PrintSummaryFields(name: string, file: FitFile, summaryJson: Option<seq<SummaryRecord>>)
    returns (r: Result<Option<seq<SummaryRecord>>, SummaryError>)
    ensures r == AfterSummary(name, file, summaryJson)
  {
    var summary := CollectSummary(file);
    var endLat, endLong := FindEnd(file.records);
    if summary == [] {
      return Ok(summaryJson);
    }
    var cells := WhitelistedCells(summary);
    if cells.Err? {
      return Err(cells.error);
    }
    var record := [Entry("fitFileName", Text(name))] + cells.value;
    if endLat != FNone && endLong != FNone {
      if !Numeric(endLat) {
        return Err(NotANumber("position_lat"));
      }
      if !Numeric(endLong) {
        return Err(NotANumber("position_long"));
      }
      record := record + [Entry("end_position_lat", Fixed(endLat, Degrees, 6)), Entry("end_position_long", Fixed(endLong, Degrees, 6))];
    } else {
      assert record + [] == record;
    }
    if summaryJson.Some? {
      r := Ok(Some(summaryJson.value + [record]));
    } else {
      r := Ok(None);
    }
  }

  // ---------------------------------------------------------------------------
  // `get_fit_files` and `main`

  /** A file of the data directory with its messages. */
  datatype RideFile = RideFile(name: string, file: FitFile)

  /** What `glob('*.fit')` matches: a name ending in `.fit` (case-sensitive) that does not start with a dot. */
  predicate Globbed(name: string) {
    EndsWith(name, ".fit") && name[0] != '.'
  }

  function GlobFit(listing: seq<RideFile>): (r: seq<RideFile>)
    ensures forall i :: 0 <= i < |r| ==> Globbed(r[i].name)
    ensures forall f :: multiset(r)[f] == if Globbed(f.name) then multiset(listing)[f] else 0
  {
    if listing == [] then []
    else
      var init, last := listing[..|listing| - 1], listing[|listing| - 1];
      assert listing == init + [last];
      GlobFit(init) + (if Globbed(last.name) then [last] else [])
  }

  /** `extract_day_number`, as a key. */
  function DayNumber(f: RideFile): Key {
    DayKey(f.name)
  }

  /** `get_fit_files`: the matched files stably sorted by day number. */
  function FitFiles(listing: seq<RideFile>): seq<RideFile> {
    SortByKey(GlobFit(listing), DayNumber)
  }

  /** `summary_json` after `print_summary_fields` has run on each file in turn, or the first error. */
  function SummaryJson(files: seq<RideFile>): Result<seq<SummaryRecord>, SummaryError> {
    if files == [] then Ok([])
    else
      match SummaryJson(files[..|files| - 1])
      case Err(e) => Err(e)
      case Ok(js) =>
        match AfterSummary(files[|files| - 1].name, files[|files| - 1].file, Some(js))
        case Err(e) => Err(e)
        case Ok(after) => Ok(after.GetOr(js))
  }

  lemma SummaryJsonStep(files: seq<RideFile>, i: nat)
    requires i < |files|
    ensures SummaryJson(files[..i + 1]) ==
      match SummaryJson(files[..i])
      case Err(e) => Err(e)
      case Ok(js) =>
        match AfterSummary(files[i].name, files[i].file, Some(js))
        case Err(e) => Err(e)
        case Ok(after) => Ok(after.GetOr(js))
  {
    assert files[..i + 1][..i] == files[..i];
  }

  lemma {:induction false} SummaryJsonErrorPersists(files: seq<RideFile>, i: nat)
    requires i <= |files| && SummaryJson(files[..i]).Err?
    ensures SummaryJson(files) == SummaryJson(files[..i])
    decreases |files| - i
  {
    if i < |files| {
      SummaryJsonStep(files, i);
      SummaryJsonErrorPersists(files, i + 1);
    } else {
      assert files[..i] == files;
    }
  }

  /** `main`: the summary of every ride file of the directory, in day order, as dumped to `summary.json`. */
  method BuildSummaryFile(listing: seq<RideFile>) returns (r: Result<seq<SummaryRecord>, SummaryError>)
    ensures r == SummaryJson(FitFiles(listing))
  {
    var fitFiles := FitFiles(listing);
    var summaryJson: seq<SummaryRecord> := [];
    var i := 0;
    assert fitFiles[..0] == [];
    while i < |fitFiles|
      invariant 0 <= i <= |fitFiles|
      invariant SummaryJson(fitFiles[..i]) == Ok(summaryJson)
    {
      SummaryJsonStep(fitFiles, i);
      var after := PrintSummaryFields(fitFiles[i].name, fitFiles[i].file, Some(summaryJson));
      if after.Err? {
        SummaryJsonErrorPersists(fitFiles, i + 1);
        return Err(after.error);
      }
      summaryJson := after.value.GetOr(summaryJson);
      i := i + 1;
    }
    assert fitFiles[..i] == fitFiles;
    r := Ok(summaryJson);
  }

  // ---------------------------------------------------------------------------
  // `print_total_fields`: timestamps, elapsed times, the distance total and the H:MM:SS columns

  /** The `timestamps` and `elapsed_times` lists; an elapsed time is kept in whole seconds. */
  datatype Times = Times(timestamps: seq<FitValue>, elapsed: seq<int>)

  datatype TotalsError =
    | NotAFloat       // `float(field.value)` raises on an elapsed time
    | NotComparable   // the timestamps are not all datetimes, so `max`, `-` or `total_seconds` raises
    | NotScalable     // `last_distance * 0.000621371` raises on a text or datetime distance

  /**
   * `int(float(v))`: whole seconds of an elapsed time. How a float's text
   * truncates to an integer is the parameter `whole`; a string converts only
   * when `float()` accepts it.
   */
  function ElapsedSeconds(v: FitValue, whole: string -> int): Result<int, TotalsError> {
    match v
    case FInt(i) => Ok(i)
    case FFloat(t) => Ok(whole(t))
    case FText(s) => if Kml2Gpx.IsFloatText(s) then Ok(whole(s)) else Err(NotAFloat)
    case _ => Err(NotAFloat)
  }

  /** One field of the first loop: a timestamp is appended, an elapsed time converted and appended. */
  function CollectField(before: Result<Times, TotalsError>, f: Field, whole: string -> int): Result<Times, TotalsError> {
    match before
    case Err(e) => Err(e)
    case Ok(t) =>
      var t1 := if f.name == "timestamp" && f.value != FNone then t.(timestamps := t.timestamps + [f.value]) else t;
      if f.name == "enhanced_elapsed_time" && f.value != FNone then
        match ElapsedSeconds(f.value, whole)
        case Err(e) => Err(e)
        case Ok(sec) => Ok(t1.(elapsed := t1.elapsed + [sec]))
      else Ok(t1)
  }

  /** The lists after the fields `fs`, starting from `start`. */
  function CollectFrom(start: Result<Times, TotalsError>, fs: seq<Field>, whole: string -> int): Result<Times, TotalsError> {
    if fs == [] then start else CollectField(CollectFrom(start, fs[..|fs| - 1], whole), fs[|fs| - 1], whole)
  }

  function Collected(records: seq<Message>, whole: string -> int): Result<Times, TotalsError> {
    CollectFrom(Ok(Times([], [])), Flatten(records), whole)
  }

  lemma {:induction false} CollectFromAppend(start: Result<Times, TotalsError>, a: seq<Field>, b: seq<Field>, whole: string -> int)
    ensures CollectFrom(start, a + b, whole) == CollectFrom(CollectFrom(start, a, whole), b, whole)
    decreases |b|
  {
    if b == [] {
      assert a + b == a;
    } else {
      var ab := a + b;
      assert ab[..|ab| - 1] == a + b[..|b| - 1] && ab[|ab| - 1] == b[|b| - 1];
      CollectFromAppend(start, a, b[..|b| - 1], whole);
    }
  }

  lemma {:induction false} CollectFromError(e: TotalsError, fs: seq<Field>, whole: string -> int)
    ensures CollectFrom(Err(e), fs, whole) == Err(e)
    decreases |fs|
  {
    if fs != [] {
      CollectFromError(e, fs[..|fs| - 1], whole);
    }
  }

  /** Once a prefix of the fields fails, the rest of them do not matter. */
  lemma CollectFromStop(start: Result<Times, TotalsError>, fs: seq<Field>, i: nat, whole: string -> int)
    requires i <= |fs| && CollectFrom(start, fs[..i], whole).Err?
    ensures CollectFrom(start, fs, whole) == CollectFrom(start, fs[..i], whole)
  {
    CollectFromError(CollectFrom(start, fs[..i], whole).error, fs[i..], whole);
    CollectFromAppend(start, fs[..i], fs[i..], whole);
    assert fs[..i] + fs[i..] == fs;
  }

  /** The inner loop over one record's fields. */
  method CollectRecord(t: Times, record: Message, whole: string -> int) returns (r: Result<Times, TotalsError>)
    ensures r == CollectFrom(Ok(t), record, whole)
  {
    var timestamps, elapsedTimes := t.timestamps, t.elapsed;
    var i := 0;
    assert record[..0] == [];
    while i < |record|
      invariant 0 <= i <= |record|
      invariant CollectFrom(Ok(t), record[..i], whole) == Ok(Times(timestamps, elapsedTimes))
    {
      assert record[..i + 1][..i] == record[..i];
      var field := record[i];
      assert CollectFrom(Ok(t), record[..i + 1], whole) == CollectField(Ok(Times(timestamps, elapsedTimes)), field, whole);
      if field.name == "timestamp" && field.value != FNone {
        timestamps := timestamps + [field.value];
      }
      if field.name == "enhanced_elapsed_time" && field.value != FNone {
        var sec := ElapsedSeconds(field.value, whole);
        if sec.Err? {
          CollectFromStop(Ok(t), record, i + 1, whole);
          return Err(sec.error);
        }
        elapsedTimes := elapsedTimes + [sec.value];
      }
      i := i + 1;
    }
    assert record[..i] == record;
    r := Ok(Times(timestamps, elapsedTimes));
  }

  /** The first loop of `print_total_fields`, over the `record` messages. */
  method CollectTimes(records: seq<Message>, whole: string -> int) returns (r: Result<Times, TotalsError>)
    ensures r == Collected(records, whole)
  {
    var t := Times([], []);
    var i := 0;
    assert records[..0] == [];
    while i < |records|
      invariant 0 <= i <= |records|
      invariant CollectFrom(Ok(Times([], [])), Flatten(records[..i]), whole) == Ok(t)
    {
      assert records[..i + 1][..i] == records[..i];
      CollectFromAppend(Ok(Times([], [])), Flatten(records[..i]), records[i], whole);
      var next := CollectRecord(t, records[i], whole);
      if next.Err? {
        CollectFromError(next.error, Flatten(records[i + 1..]), whole);
        FlattenAppend(records[..i + 1], records[i + 1..]);
        assert records[..i + 1] + records[i + 1..] == records;
        CollectFromAppend(Ok(Times([], [])), Flatten(records[..i + 1]), Flatten(records[i + 1..]), whole);
        return Err(next.error);
      }
      t := next.value;
      i := i + 1;
    }
    assert records[..i] == records;
    r := Ok(t);
  }

  lemma {:induction false} FlattenAppend(a: seq<Message>, b: seq<Message>)
    ensures Flatten(a + b) == Flatten(a) + Flatten(b)
    decreases |b|
  {
    if b == [] {
      assert a + b == a;
    } else {
      var init, last := b[..|b| - 1], b[|b| - 1];
      AppendSplitsLast(a, b);
      FlattenAppend(a, init);
      assert Flatten(a + b) == Flatten(a + init) + last;
      assert Flatten(b) == Flatten(init) + last;
      SeqAssoc(Flatten(a), Flatten(init), last);
    }
  }

  function MaxOf(xs: seq<int>): int
    requires xs != []
  {
    if |xs| == 1 then xs[0]
    else
      var m := MaxOf(xs[..|xs| - 1]);
      if xs[|xs| - 1] > m then xs[|xs| - 1] else m
  }

  function MinOf(xs: seq<int>): int
    requires xs != []
  {
    if |xs| == 1 then xs[0]
    else
      var m := MinOf(xs[..|xs| - 1]);
      if xs[|xs| - 1] < m then xs[|xs| - 1] else m
  }

  predicate AllTimes(ts: seq<FitValue>) {
    forall i :: 0 <= i < |ts| ==> ts[i].FTime?
  }

  /** The timestamps in seconds. */
  function SecondsOf(ts: seq<FitValue>): (r: seq<int>)
    requires AllTimes(ts)
    ensures |r| == |ts| && forall i :: 0 <= i < |ts| ==> r[i] == ts[i].seconds
  {
    if ts == [] then [] else SecondsOf(ts[..|ts| - 1]) + [ts[|ts| - 1].seconds]
  }

  /** `duration`: `(max(timestamps) - min(timestamps)).total_seconds()`, or 0 without timestamps. */
  function Duration(t: Times): Result<int, TotalsError> {
    if t.timestamps == [] then Ok(0)
    else if AllTimes(t.timestamps) then Ok(MaxOf(SecondsOf(t.timestamps)) - MinOf(SecondsOf(t.timestamps)))
    else Err(NotComparable)
  }

  /** `elapsed_time`: the largest elapsed time, else the timestamp span, else 0. */
  function Elapsed(t: Times): Result<int, TotalsError> {
    if t.elapsed != [] then Ok(MaxOf(t.elapsed))
    else if t.timestamps != [] then Duration(t)
    else Ok(0)
  }

  /** `f"{h}:{m:02d}:{s:02d}"` with `h = s // 3600`, `m = (s % 3600) // 60`, `s = s % 60` (floor division). */
  function Hms(seconds: int): string {
    IntToString(seconds / 3600) + ":" + Pad2((seconds % 3600) / 60) + ":" + Pad2(seconds % 60)
  }

  /** The entry of a row for `field`, with `field` named `duration` or `elapsed_time`. */
  function TimeEntry(field: string, seconds: int): string {
    field + ": " + Hms(seconds)
  }

  /** The H:MM:SS entries of the printed row, one per `duration` or `elapsed_time` in `names`, in their order. */
  function TimeEntries(names: seq<string>, duration: int, elapsed: int): seq<string> {
    if names == [] then []
    else
      var field := names[|names| - 1];
      TimeEntries(names[..|names| - 1], duration, elapsed) +
      (if field == "duration" then [TimeEntry(field, duration)]
       else if field == "elapsed_time" then [TimeEntry(field, elapsed)]
       else [])
  }

  /** A field that assigns `last_distance`. */
  predicate SetsDistance(f: Field) {
    f.name == "distance" && f.value != FNone
  }

  /**
   * `last_distance` after the fields `fs`, starting from `start`: the last
   * value of a field named `distance` that is not None.
   */
  function LastDistanceFrom(start: Option<FitValue>, fs: seq<Field>): Option<FitValue> {
    if fs == [] then start
    else if SetsDistance(fs[|fs| - 1]) then Some(fs[|fs| - 1].value)
    else LastDistanceFrom(start, fs[..|fs| - 1])
  }

  /** The distance total: `last_distance * 0.000621371` accepts a number and raises on text or a datetime. */
  function DistanceTotal(lastDistance: Option<FitValue>): Result<(), TotalsError> {
    match lastDistance
    case None => Ok(())
    case Some(v) => if Numeric(v) then Ok(()) else Err(NotScalable)
  }

  /** The H:MM:SS entries `print_total_fields` prints for a file, or the error it raises. */
  function TotalTimes(records: seq<Message>, names: seq<string>, whole: string -> int): Result<seq<string>, TotalsError> {
    match Collected(records, whole)
    case Err(e) => Err(e)
    case Ok(t) =>
      var distance := if "distance" in names then DistanceTotal(LastDistanceFrom(None, Flatten(records))) else Ok(());
      var duration := if "duration" in names then Duration(t) else Ok(0);
      var elapsed := if "elapsed_time" in names then Elapsed(t) else Ok(0);
      if distance.Err? then Err(distance.error)
      else if duration.Err? then Err(duration.error)
      else if elapsed.Err? then Err(elapsed.error)
      else Ok(TimeEntries(names, duration.value, elapsed.value))
  }

  lemma {:induction false} LastDistanceAppend(start: Option<FitValue>, a: seq<Field>, b: seq<Field>)
    ensures LastDistanceFrom(start, a + b) == LastDistanceFrom(LastDistanceFrom(start, a), b)
    decreases |b|
  {
    if b == [] {
      assert a + b == a;
    } else {
      AppendSplitsLast(a, b);
      LastDistanceAppend(start, a, b[..|b| - 1]);
    }
  }

  /** The second loop's inner loop, over one record's fields. */
  method RecordDistance(last: Option<FitValue>, record: Message) returns (r: Option<FitValue>)
    ensures r == LastDistanceFrom(last, record)
  {
    r := last;
    for i := 0 to |record|
      invariant r == LastDistanceFrom(last, record[..i])
    {
      assert record[..i + 1][..i] == record[..i];
      if SetsDistance(record[i]) {
        r := Some(record[i].value);
      }
    }
    assert record[..|record|] == record;
  }

  /** The second loop of `print_total_fields`, over the `record` messages again. */
  method LastDistance(records: seq<Message>) returns (r: Option<FitValue>)
    ensures r == LastDistanceFrom(None, Flatten(records))
  {
    r := None;
    for i := 0 to |records|
      invariant r == LastDistanceFrom(None, Flatten(records[..i]))
    {
      assert records[..i + 1][..i] == records[..i];
      LastDistanceAppend(None, Flatten(records[..i]), records[i]);
      r := RecordDistance(r, records[i]);
    }
    assert records[..|records|] == records;
  }

  /** The H:MM:SS entry as the loop body computes it. */
  method FormatTime(field: string, seconds: int) returns (entry: string)
    ensures entry == TimeEntry(field, seconds)
  {
    var h := seconds / 3600;
    var m := (seconds % 3600) / 60;
    var s := seconds % 60;
    entry := field + ": " + IntToString(h) + ":" + Pad2(m) + ":" + Pad2(s);
  }

  /** The loop over `field_names` that builds the printed row, H:MM:SS entries only. */
  method TimeRow(names: seq<string>, duration: int, elapsed: int) returns (row: seq<string>)
    ensures row == TimeEntries(names, duration, elapsed)
  {
    row := [];
    for i := 0 to |names|
      invariant row == TimeEntries(names[..i], duration, elapsed)
    {
      assert names[..i + 1][..i] == names[..i];
      var field := names[i];
      if field == "duration" {
        var entry := FormatTime(field, duration);
        row := row + [entry];
      } else if field == "elapsed_time" {
        var entry := FormatTime(field, elapsed);
        row := row + [entry];
      }
    }
    assert names[..|names|] == names;
  }

  /** `print_total_fields(fit_file, field_names)`: its H:MM:SS entries, or the error it raises. */
  method PrintTotalFields(records: seq<Message>, names: seq<string>, whole: string -> int) returns (r: Result<seq<string>, TotalsError>)
    ensures r == TotalTimes(records, names, whole)
  {
    var t := CollectTimes(records, whole);
    if t.Err? {
      return Err(t.error);
    }
    if "distance" in names {
      var lastDistance := LastDistance(records);
      if lastDistance.Some? && !Numeric(lastDistance.value) {
        return Err(NotScalable);
      }
    }
    var duration := 0;
    if "duration" in names {
      var d := Duration(t.value);
      if d.Err? {
        return Err(d.error);
      }
      duration := d.value;
    }
    var elapsed := 0;
    if "elapsed_time" in names {
      var e := Elapsed(t.value);
      if e.Err? {
        return Err(e.error);
      }
      elapsed := e.value;
    }
    var row := TimeRow(names, duration, elapsed);
    r := Ok(row);
  }

  // ---------------------------------------------------------------------------
  // `print_selected_fields`

  /** The value of the first field named `name`, None when there is none. */
  function FirstValue(record: Message, name: string): Option<FitValue> {
    if record == [] then None
    else if record[0].name == name then Some(record[0].value)
    else FirstValue(record[1..], name)
  }

  /** A column: `str(value)` through `show`, or "N/A" when the field is absent or None. */
  function Column(value: Option<FitValue>, show: FitValue -> string): string {
    if value.None? || value.value == FNone then "N/A" else show(value.value)
  }

  /** The row of one record: a column per requested name. */
  function SelectedRow(record: Message, names: seq<string>, show: FitValue -> string): seq<string> {
    if names == [] then []
    else SelectedRow(record, names[..|names| - 1], show) + [Column(FirstValue(record, names[|names| - 1]), show)]
  }

  /** The loop over `field_names` for one record, with its inner search that stops at the first match. */
  method SelectRow(record: Message, names: seq<string>, show: FitValue -> string) returns (row: seq<string>)
    ensures row == SelectedRow(record, names, show)
  {
    row := [];
    for j := 0 to |names|
      invariant row == SelectedRow(record, names[..j], show)
    {
      assert names[..j + 1][..j] == names[..j];
      var value := FNone;
      var k := 0;
      while k < |record|
        invariant 0 <= k <= |record|
        invariant FirstValue(record, names[j]) == FirstValue(record[k..], names[j])
      {
        if record[k].name == names[j] {
          value := record[k].value;
          break;
        }
        assert record[k..][1..] == record[k + 1..];
        k := k + 1;
      }
      assert value == FirstValue(record, names[j]).GetOr(FNone);
      row := row + [if value != FNone then show(value) else "N/A"];
    }
    assert names[..|names|] == names;
  }

  /** `print_selected_fields`: the rows it prints, one per record, each joined with ", ". */
  method PrintSelectedFields(records: seq<Message>, names: seq<string>, show: FitValue -> string) returns (lines: seq<string>)
    ensures |lines| == |records|
    ensures forall i :: 0 <= i < |records| ==> lines[i] == Join(SelectedRow(records[i], names, show), ", ")
  {
    lines := [];
    for i := 0 to |records|
      invariant |lines| == i
      invariant forall k :: 0 <= k < i ==> lines[k] == Join(SelectedRow(records[k], names, show), ", ")
    {
      var row := SelectRow(records[i], names, show);
      lines := lines + [Join(row, ", ")];
    }
  }

  // ---------------------------------------------------------------------------
  // Properties of the summary record

  /** A key is in the dict exactly when looking it up finds a value. */
  lemma {:induction false} FindIff(d: Summary, n: string)
    ensures Find(d, n).Some? <==> n in Names(d)
    decreases |d|
  {
    if d != [] {
      FindIff(d[..|d| - 1], n);
    }
  }

  /** Assigning fields in order: the last assignment of a key wins, keys never assigned keep their old value. */
  lemma {:induction false} PutAllLookup(d: Summary, fs: seq<Field>, n: string)
    ensures Find(PutAll(d, fs), n) == if LastField(fs, n).Some? then LastField(fs, n) else Find(d, n)
    decreases |fs|
  {
    if fs != [] {
      PutAllLookup(d, fs[..|fs| - 1], n);
    }
  }

  lemma {:induction false} PutAllDistinct(d: Summary, fs: seq<Field>)
    requires Distinct(Names(d))
    ensures Distinct(Names(PutAll(d, fs)))
    decreases |fs|
  {
    if fs != [] {
      PutAllDistinct(d, fs[..|fs| - 1]);
    }
  }

  lemma {:induction false} PutAllEmpty(d: Summary, fs: seq<Field>)
    ensures PutAll(d, fs) == [] <==> d == [] && fs == []
    decreases |fs|
  {
    if fs != [] {
      var r := PutAll(d, fs);
      assert fs[|fs| - 1].name in Names(r);
    }
  }

  /**
   * The summary of a file: one key per field name, holding the value of the
   * last field with that name over the activity, session and file_id messages
   * in that order; it is empty exactly when those messages have no fields.
   */
  lemma SummaryMerge(file: FitFile, n: string)
    ensures Find(SummaryOf(file), n) == LastField(SummaryFields(file), n)
    ensures Distinct(Names(SummaryOf(file)))
    ensures SummaryOf(file) == [] <==> SummaryFields(file) == []
  {
    PutAllLookup([], SummaryFields(file), n);
    PutAllDistinct([], SummaryFields(file));
    PutAllEmpty([], SummaryFields(file));
  }

  /** A later message type overrides an earlier one: a session value replaces the activity value of the same name. */
  lemma LaterMessageWins(file: FitFile, n: string)
    requires LastField(Flatten(file.session), n).Some?
    requires LastField(Flatten(file.fileId), n).None?
    ensures Find(SummaryOf(file), n) == LastField(Flatten(file.session), n)
  {
    SummaryMerge(file, n);
    LastFieldAppend(Flatten(file.activity), Flatten(file.session), n);
    LastFieldAppend(Flatten(file.activity) + Flatten(file.session), Flatten(file.fileId), n);
  }

  lemma {:induction false} LastFieldAppend(a: seq<Field>, b: seq<Field>, n: string)
    ensures LastField(a + b, n) == if LastField(b, n).Some? then LastField(b, n) else LastField(a, n)
    decreases |b|
  {
    if b == [] {
      assert a + b == a;
    } else {
      var ab := a + b;
      assert ab[..|ab| - 1] == a + b[..|b| - 1] && ab[|ab| - 1] == b[|b| - 1];
      LastFieldAppend(a, b[..|b| - 1], n);
    }
  }

  /** There is no end position exactly when no record has both a latitude and a longitude. */
  lemma {:induction false} EndPositionIff(records: seq<Message>)
    ensures EndPosition(records).None? <==> forall j :: 0 <= j < |records| ==> !HasPosition(records[j])
    decreases |records|
  {
    if records != [] {
      var init := records[..|records| - 1];
      EndPositionIff(init);
      assert forall j :: 0 <= j < |init| ==> init[j] == records[j];
    }
  }

  /** The end position is the one of the last record that has both coordinates. */
  lemma {:induction false} EndPositionOfLast(records: seq<Message>, k: nat)
    requires k < |records| && HasPosition(records[k])
    requires forall j :: k < j < |records| ==> !HasPosition(records[j])
    ensures EndPosition(records) == Some(PositionOf(records[k]))
    decreases |records|
  {
    if k < |records| - 1 {
      EndPositionOfLast(records[..|records| - 1], k);
    }
  }

  /** Keeps the whitelisted names, in order. */
  function Whitelisted(names: seq<string>): seq<string> {
    if names == [] then []
    else Whitelisted(names[..|names| - 1]) + (if names[|names| - 1] in Whitelist then [names[|names| - 1]] else [])
  }

  function Keys(es: seq<Entry>): seq<string> {
    if es == [] then [] else Keys(es[..|es| - 1]) + [es[|es| - 1].key]
  }

  lemma {:induction false} KeysAppend(a: seq<Entry>, b: seq<Entry>)
    ensures Keys(a + b) == Keys(a) + Keys(b)
    decreases |b|
  {
    if b == [] {
      assert a + b == a;
    } else {
      var ab := a + b;
      assert ab[..|ab| - 1] == a + b[..|b| - 1];
      KeysAppend(a, b[..|b| - 1]);
    }
  }

  /** The cells follow the dict's order, one per whitelisted key. */
  lemma {:induction false} CellsKeys(d: Summary)
    requires Cells(d).Ok?
    ensures Keys(Cells(d).value) == Whitelisted(Names(d))
    decreases |d|
  {
    if d != [] {
      var init := d[..|d| - 1];
      CellsKeys(init);
      if d[|d| - 1].name in Whitelist {
        KeysAppend(Cells(init).value, [Entry(d[|d| - 1].name, CellOf(d[|d| - 1].name, d[|d| - 1].value).value)]);
      }
    }
  }

  /** Every cell is its key's value in the dict, converted and formatted by CellOf. */
  lemma {:induction false} CellsFaithful(d: Summary, i: nat)
    requires Cells(d).Ok? && i < |Cells(d).value|
    ensures var e := Cells(d).value[i];
            e.key in Whitelist && exists j :: 0 <= j < |d| && d[j].name == e.key && CellOf(e.key, d[j].value) == Ok(e.cell)
    decreases |d|
  {
    var init := d[..|d| - 1];
    if i < |Cells(init).value| {
      CellsFaithful(init, i);
      var e := Cells(init).value[i];
      var j :| 0 <= j < |init| && init[j].name == e.key && CellOf(e.key, init[j].value) == Ok(e.cell);
      assert d[j] == init[j];
    } else {
      assert Cells(d).value[i] == Entry(d[|d| - 1].name, CellOf(d[|d| - 1].name, d[|d| - 1].value).value);
    }
  }

  /** A whitelisted field whose value cannot be converted. */
  predicate BadCell(f: Field) {
    f.name in Whitelist && CellOf(f.name, f.value).Err?
  }

  lemma AddCellFails(before: Result<seq<Entry>, SummaryError>, f: Field)
    ensures AddCell(before, f).Err? <==> before.Err? || BadCell(f)
  {
  }

  lemma FailingStep(d: Summary, earlier: bool)
    requires d != []
    requires earlier ==> Cells(d[..|d| - 1]).Err?
    requires !earlier ==> BadCell(d[|d| - 1])
    ensures Cells(d).Err?
  {
    AddCellFails(Cells(d[..|d| - 1]), d[|d| - 1]);
  }

  /** One field that cannot be converted makes the whole record fail. */
  lemma {:induction false} BadCellFails(d: Summary, j: nat)
    requires j < |d| && BadCell(d[j])
    ensures Cells(d).Err?
    decreases |d|
  {
    var init := d[..|d| - 1];
    if j < |init| {
      assert init[j] == d[j];
      BadCellFails(init, j);
      FailingStep(d, true);
    } else {
      assert j == |d| - 1;
      FailingStep(d, false);
    }
  }

  /** A failing record has a field that cannot be converted. */
  lemma {:induction false} FailureHasBadCell(d: Summary) returns (j: nat)
    requires Cells(d).Err?
    ensures j < |d| && BadCell(d[j])
    decreases |d|
  {
    var init, last := d[..|d| - 1], d[|d| - 1];
    AddCellFails(Cells(init), last);
    if Cells(init).Err? {
      j := FailureHasBadCell(init);
      assert init[j] == d[j];
    } else {
      j := |d| - 1;
    }
  }

  /** The record fails exactly when a whitelisted key that is converted holds a value that is not a number. */
  lemma CellsFailIff(d: Summary)
    ensures Cells(d).Err? <==> exists j :: 0 <= j < |d| && BadCell(d[j])
  {
    if Cells(d).Err? {
      var j := FailureHasBadCell(d);
    }
    forall j | 0 <= j < |d| && BadCell(d[j])
      ensures Cells(d).Err?
    {
      BadCellFails(d, j);
    }
  }

  /**
   * The keys of a file's record: `fitFileName` first, then the whitelisted
   * keys of the summary in the summary's order, then the end position keys
   * when an end position was found.
   */
  lemma RecordKeys(name: string, file: FitFile)
    requires RecordOf(name, file).Ok? && RecordOf(name, file).value.Some?
    ensures var rec := RecordOf(name, file).value.value;
            rec[0] == Entry("fitFileName", Text(name)) &&
            Keys(rec) == ["fitFileName"] + Whitelisted(Names(SummaryOf(file))) +
              (if EndPosition(file.records).Some? then ["end_position_lat", "end_position_long"] else [])
  {
    var cells := Cells(SummaryOf(file)).value;
    var ends := EndEntries(EndPosition(file.records)).value;
    var head := [Entry("fitFileName", Text(name))];
    assert RecordOf(name, file).value.value == head + cells + ends;
    CellsKeys(SummaryOf(file));
    EndKeys(EndPosition(file.records));
    KeysAppend(head + cells, ends);
    KeysAppend(head, cells);
    assert Keys(head) == ["fitFileName"];
  }

  lemma EndKeys(end: Option<Position>)
    requires EndEntries(end).Ok?
    ensures Keys(EndEntries(end).value) == if end.Some? then ["end_position_lat", "end_position_long"] else []
  {
    if end.Some? {
      var ends := EndEntries(end).value;
      assert |ends| == 2 && ends[..1] == [ends[0]] && ends[..|ends| - 1] == ends[..1];
      assert Keys(ends[..1]) == Keys([]) + [ends[0].key] by {
        assert ends[..1][..0] == [];
      }
      assert Keys(ends) == Keys(ends[..1]) + [ends[1].key];
    }
  }

  /** A record exists exactly when the summary has a field, and an empty summary leaves the list as it was. */
  lemma RecordWhenSummary(name: string, file: FitFile, json: Option<seq<SummaryRecord>>)
    ensures RecordOf(name, file) == Ok(None) <==> SummaryFields(file) == []
    ensures SummaryFields(file) == [] ==> AfterSummary(name, file, json) == Ok(json)
    ensures AfterSummary(name, file, None) == Ok(None) || AfterSummary(name, file, None).Err?
  {
    PutAllEmpty([], SummaryFields(file));
  }

  lemma {:induction false} WhitelistedIn(names: seq<string>, n: string)
    ensures n in Whitelisted(names) <==> n in names && n in Whitelist
    decreases |names|
  {
    if names != [] {
      WhitelistedIn(names[..|names| - 1], n);
      assert names == names[..|names| - 1] + [names[|names| - 1]];
    }
  }

  /** Of the two elapsed-time keys, only `enhanced_elapsed_time` is whitelisted. */
  lemma ElapsedWhitelisting()
    ensures "total_elapsed_time" !in Whitelist && "enhanced_elapsed_time" in Whitelist
  {
  }

  /**
   * The misspelt whitelist entry: `total_elapsed_time` never reaches a record,
   * even when a session message carries it, while `enhanced_elapsed_time` does.
   */
  lemma TotalElapsedTimeDropped(name: string, file: FitFile)
    requires RecordOf(name, file).Ok? && RecordOf(name, file).value.Some?
    ensures "total_elapsed_time" !in Keys(RecordOf(name, file).value.value)
    ensures "enhanced_elapsed_time" in Names(SummaryOf(file)) ==> "enhanced_elapsed_time" in Keys(RecordOf(name, file).value.value)
  {
    ElapsedWhitelisting();
    RecordKeys(name, file);
    WhitelistedIn(Names(SummaryOf(file)), "total_elapsed_time");
    WhitelistedIn(Names(SummaryOf(file)), "enhanced_elapsed_time");
  }

  /** Every character of a contained string occurs in the containing one. */
  lemma {:induction false} ContainedCharsOccur(s: string, sub: string, c: char)
    ensures Contains(s, sub) && c in sub ==> c in s
    decreases |s|
  {
    if Contains(s, sub) && c in sub {
      if sub <= s {
        var i :| 0 <= i < |sub| && sub[i] == c;
        assert s[i] == c;
      } else {
        ContainedCharsOccur(s[1..], sub, c);
        assert c in s[1..];
      }
    }
  }

  lemma {:induction false} MissingChar(s: string, sub: string, c: char)
    requires c in sub && c !in s
    ensures !Contains(s, sub)
  {
    ContainedCharsOccur(s, sub, c);
  }

  lemma {:induction false} ContainsAt(s: string, sub: string, i: nat)
    requires i + |sub| <= |s| && s[i..i + |sub|] == sub
    ensures Contains(s, sub)
    decreases i
  {
    if i > 0 {
      assert s[1..][i - 1..i - 1 + |sub|] == s[i..i + |sub|];
      ContainsAt(s[1..], sub, i - 1);
    }
  }

  /** No character `a` of `s` is immediately followed by `b`. */
  predicate NoPair(s: string, a: char, b: char) {
    forall i :: 0 <= i < |s| - 1 ==> !(s[i] == a && s[i + 1] == b)
  }

  /** A string without some adjacent pair of `sub` does not contain `sub`. */
  lemma {:induction false} MissingPair(s: string, sub: string, j: nat)
    requires j + 1 < |sub| && NoPair(s, sub[j], sub[j + 1])
    ensures !Contains(s, sub)
    decreases |s|
  {
    if |sub| <= |s| {
      assert !(s[j] == sub[j] && s[j + 1] == sub[j + 1]);
      assert !(sub <= s);
    }
    if s != [] {
      assert NoPair(s[1..], sub[j], sub[j + 1]) by {
        forall i | 0 <= i < |s[1..]| - 1
          ensures !(s[1..][i] == sub[j] && s[1..][i + 1] == sub[j + 1])
        {
          assert s[1..][i] == s[i + 1] && s[1..][i + 1] == s[i + 2];
        }
      }
      MissingPair(s[1..], sub, j);
    }
  }

  /** A key ending in `speed` is converted to miles per hour, whatever else it contains. */
  lemma SpeedKey(k: string)
    requires EndsWith(k, "speed")
    ensures ConversionOf(k) == MilesPerHour
  {
    ContainsAt(k, "speed", |k| - 5);
  }

  /** A key ending in `temperature` without an `s` is converted to Fahrenheit. */
  lemma TemperatureKey(k: string)
    requires EndsWith(k, "temperature") && 's' !in k
    ensures ConversionOf(k) == Fahrenheit
  {
    MissingChar(k, "speed", 's');
    assert k[|k| - 11..|k| - 7] == "temp";
    ContainsAt(k, "temp", |k| - 11);
  }

  /** A key ending in `ascent` or `descent`, without a `p` or an `m`, is converted to feet. */
  lemma ElevationKey(k: string)
    requires EndsWith(k, "ascent") || EndsWith(k, "descent")
    requires 'p' !in k && 'm' !in k
    ensures ConversionOf(k) == Feet
  {
    MissingChar(k, "speed", 'p');
    MissingChar(k, "temp", 'm');
    if EndsWith(k, "ascent") {
      ContainsAt(k, "ascent", |k| - 6);
    } else {
      ContainsAt(k, "descent", |k| - 7);
    }
  }

  /** A key starting with `start_position`, without an `e` or a `d` after it, is converted to degrees. */
  lemma StartPositionKey(k: string)
    requires "start_position" <= k && 'e' !in k && 'd' !in k
    ensures ConversionOf(k) == Degrees
  {
    MissingChar(k, "speed", 'e');
    MissingChar(k, "temp", 'e');
    MissingChar(k, "ascent", 'e');
    MissingChar(k, "descent", 'd');
    MissingChar(k, "distance", 'd');
    ContainsAt(k, "start_position", 0);
  }

  /** A key with none of the letters p, m, n, d matches no conversion and is left as it is. */
  lemma UnconvertedKey(k: string)
    requires 'p' !in k && 'm' !in k && 'n' !in k && 'd' !in k
    ensures ConversionOf(k) == Unconverted
  {
    MissingChar(k, "speed", 'p');
    MissingChar(k, "temp", 'm');
    MissingChar(k, "ascent", 'n');
    MissingChar(k, "descent", 'd');
    MissingChar(k, "distance", 'd');
    MissingChar(k, "start_position", 'p');
  }

  /** A key ending in `distance`, without a `p`, an `m`, an `as` or a `de`, is converted to miles. */
  lemma DistanceKey(k: string)
    requires EndsWith(k, "distance") && 'p' !in k && 'm' !in k
    requires NoPair(k, 'a', 's') && NoPair(k, 'd', 'e')
    ensures ConversionOf(k) == Miles
  {
    assert !Contains(k, "speed") by { MissingChar(k, "speed", 'p'); }
    assert !Contains(k, "temp") by { MissingChar(k, "temp", 'm'); }
    assert !Contains(k, "ascent") by {
      assert "ascent"[0] == 'a' && "ascent"[1] == 's';
      MissingPair(k, "ascent", 0);
    }
    assert !Contains(k, "descent") by {
      assert "descent"[0] == 'd' && "descent"[1] == 'e';
      MissingPair(k, "descent", 0);
    }
    assert Contains(k, "distance") by { ContainsAt(k, "distance", |k| - 8); }
  }

  /** A key holding none of the pairs `ee`, `te`, `sc`, `de`, `di` and `st` matches no conversion. */
  lemma PairlessKey(k: string)
    requires NoPair(k, 'e', 'e') && NoPair(k, 't', 'e') && NoPair(k, 's', 'c')
    requires NoPair(k, 'd', 'e') && NoPair(k, 'd', 'i') && NoPair(k, 's', 't')
    ensures ConversionOf(k) == Unconverted
  {
    MissingPair(k, "speed", 2);
    MissingPair(k, "temp", 0);
    MissingPair(k, "ascent", 1);
    MissingPair(k, "descent", 0);
    MissingPair(k, "distance", 0);
    MissingPair(k, "start_position", 0);
  }

  /** The whitelisted speeds are converted to miles per hour. */
  lemma WhitelistSpeeds()
    ensures ConversionOf("enhanced_avg_speed") == MilesPerHour && ConversionOf("enhanced_max_speed") == MilesPerHour
    ensures ConversionOf("avg_speed") == MilesPerHour && ConversionOf("max_speed") == MilesPerHour
  {
    SpeedKey("enhanced_avg_speed");
    SpeedKey("enhanced_max_speed");
    SpeedKey("avg_speed");
    SpeedKey("max_speed");
  }

  /** `max_temperature` is converted to Fahrenheit. */
  lemma MaxTemperatureConverted()
    ensures ConversionOf("max_temperature") == Fahrenheit
  {
    TemperatureKey("max_temperature");
  }

  /** `total_descent` is converted to feet: it contains no `ascent`, and `descent` matches. */
  lemma TotalDescentConverted()
    ensures ConversionOf("total_descent") == Feet
  {
    ElevationKey("total_descent");
  }

  /** `start_position_lat` is converted to degrees. */
  lemma StartLatitudeConverted()
    ensures ConversionOf("start_position_lat") == Degrees
  {
    StartPositionKey("start_position_lat");
  }

  /** `total_distance` is converted to miles: it holds neither `as` nor `de`, so no elevation key matches first. */
  lemma TotalDistanceConverted()
    ensures ConversionOf("total_distance") == Miles
  {
    DistanceKey("total_distance");
  }

  /** `enhanced_elapsed_time` has none of the pairs `ee`, `te` and `sc`. */
  lemma EnhancedElapsedPairsA()
    ensures var k := "enhanced_elapsed_time";
            NoPair(k, 'e', 'e') && NoPair(k, 't', 'e') && NoPair(k, 's', 'c')
  {
  }

  /** `enhanced_elapsed_time` has none of the pairs `de`, `di` and `st`. */
  lemma EnhancedElapsedPairsB()
    ensures var k := "enhanced_elapsed_time";
            NoPair(k, 'd', 'e') && NoPair(k, 'd', 'i') && NoPair(k, 's', 't')
  {
  }

  /** `total_eplasped_time` has none of the pairs `ee`, `te` and `sc`. */
  lemma MisspeltElapsedPairsA()
    ensures var k := "total_eplasped_time";
            NoPair(k, 'e', 'e') && NoPair(k, 't', 'e') && NoPair(k, 's', 'c')
  {
  }

  /** `total_eplasped_time` has none of the pairs `de`, `di` and `st`. */
  lemma MisspeltElapsedPairsB()
    ensures var k := "total_eplasped_time";
            NoPair(k, 'd', 'e') && NoPair(k, 'd', 'i') && NoPair(k, 's', 't')
  {
  }

  /** `enhanced_elapsed_time` matches no conversion. */
  lemma EnhancedElapsedUnconverted()
    ensures ConversionOf("enhanced_elapsed_time") == Unconverted
  {
    EnhancedElapsedPairsA();
    EnhancedElapsedPairsB();
    PairlessKey("enhanced_elapsed_time");
  }

  /** The misspelt `total_eplasped_time` matches no conversion either. */
  lemma MisspeltElapsedUnconverted()
    ensures ConversionOf("total_eplasped_time") == Unconverted
  {
    MisspeltElapsedPairsA();
    MisspeltElapsedPairsB();
    PairlessKey("total_eplasped_time");
  }

  /** `total_calories` matches no conversion. */
  lemma CaloriesUnconverted()
    ensures ConversionOf("total_calories") == Unconverted
  {
    UnconvertedKey("total_calories");
  }

  /** The files are read in day order, and they are exactly the matched names of the directory. */
  lemma FitFilesOrder(listing: seq<RideFile>)
    ensures SortedBy(FitFiles(listing), DayNumber)
    ensures multiset(FitFiles(listing)) == multiset(GlobFit(listing))
    ensures forall i :: 0 <= i < |FitFiles(listing)| ==> Globbed(FitFiles(listing)[i].name)
  {
    SortSorts(GlobFit(listing), DayNumber);
    SortPermutes(GlobFit(listing), DayNumber);
    var fs := FitFiles(listing);
    forall i | 0 <= i < |fs|
      ensures Globbed(fs[i].name)
    {
      assert fs[i] in multiset(GlobFit(listing));
    }
  }

  /** Counts the files whose summary has a field. */
  function WithSummary(files: seq<RideFile>): nat {
    if files == [] then 0
    else WithSummary(files[..|files| - 1]) + (if SummaryFields(files[|files| - 1].file) != [] then 1 else 0)
  }

  /** One file adds its record, if it has a summary. */
  lemma SummaryJsonOfOne(f: RideFile)
    requires RecordOf(f.name, f.file).Ok?
    ensures var rec := RecordOf(f.name, f.file).value;
            SummaryJson([f]) == Ok(if rec.Some? then [rec.value] else [])
  {
    assert [f][..0] == [] && [f][0] == f;
    var rec := RecordOf(f.name, f.file).value;
    if rec.Some? {
      assert [] + [rec.value] == [rec.value];
    }
  }

  lemma AfterSummaryAssoc(name: string, file: FitFile, pa: seq<SummaryRecord>, pi: seq<SummaryRecord>)
    requires AfterSummary(name, file, Some(pi)).Ok?
    ensures AfterSummary(name, file, Some(pa + pi)) == Ok(Some(pa + AfterSummary(name, file, Some(pi)).value.value))
  {
    var rec := RecordOf(name, file).value;
    if rec.Some? {
      SeqAssoc(pa, pi, [rec.value]);
    }
  }

  /** Files add their records independently and in file order: `summary.json` of `a + b` is that of `a`, then that of `b`. */
  lemma {:induction false} SummaryJsonSplit(a: seq<RideFile>, b: seq<RideFile>)
    requires SummaryJson(a).Ok? && SummaryJson(b).Ok?
    ensures SummaryJson(a + b) == Ok(SummaryJson(a).value + SummaryJson(b).value)
    decreases |b|
  {
    if b == [] {
      assert a + b == a;
      assert SummaryJson(a).value + [] == SummaryJson(a).value;
    } else {
      var init, last := b[..|b| - 1], b[|b| - 1];
      AppendSplitsLast(a, b);
      SummaryJsonSplit(a, init);
      var pa, pi := SummaryJson(a).value, SummaryJson(init).value;
      AfterSummaryAssoc(last.name, last.file, pa, pi);
    }
  }

  /** `summary.json` holds one record per file with a summary, in file order, each starting with its file's name. */
  lemma {:induction false} SummaryJsonRecords(files: seq<RideFile>)
    requires SummaryJson(files).Ok?
    ensures |SummaryJson(files).value| == WithSummary(files)
    ensures forall i :: 0 <= i < |SummaryJson(files).value| ==>
              SummaryJson(files).value[i] != [] &&
              exists k :: 0 <= k < |files| && SummaryJson(files).value[i][0] == Entry("fitFileName", Text(files[k].name))
    decreases |files|
  {
    if files != [] {
      var init, last := files[..|files| - 1], files[|files| - 1];
      SummaryJsonRecords(init);
      RecordWhenSummary(last.name, last.file, Some(SummaryJson(init).value));
      var js := SummaryJson(files).value;
      forall i | 0 <= i < |js|
        ensures js[i] != [] && exists k :: 0 <= k < |files| && js[i][0] == Entry("fitFileName", Text(files[k].name))
      {
        if i < |SummaryJson(init).value| {
          var k :| 0 <= k < |init| && SummaryJson(init).value[i][0] == Entry("fitFileName", Text(init[k].name));
          assert files[k] == init[k];
        } else {
          assert js[i] == RecordOf(last.name, last.file).value.value;
          assert js[i][0] == Entry("fitFileName", Text(files[|files| - 1].name));
        }
      }
    }
  }

  // ---------------------------------------------------------------------------
  // Properties of `print_total_fields`

  /** MaxOf is the largest element of the list. */
  lemma {:induction false} MaxOfIsLargest(xs: seq<int>)
    requires xs != []
    ensures MaxOf(xs) in xs
    ensures forall i :: 0 <= i < |xs| ==> xs[i] <= MaxOf(xs)
    decreases |xs|
  {
    if |xs| > 1 {
      MaxOfIsLargest(xs[..|xs| - 1]);
      assert forall i :: 0 <= i < |xs| - 1 ==> xs[..|xs| - 1][i] == xs[i];
    }
  }

  /** MinOf is the smallest element of the list. */
  lemma {:induction false} MinOfIsSmallest(xs: seq<int>)
    requires xs != []
    ensures MinOf(xs) in xs
    ensures forall i :: 0 <= i < |xs| ==> MinOf(xs) <= xs[i]
    decreases |xs|
  {
    if |xs| > 1 {
      MinOfIsSmallest(xs[..|xs| - 1]);
      assert forall i :: 0 <= i < |xs| - 1 ==> xs[..|xs| - 1][i] == xs[i];
    }
  }

  /**
   * The duration exists exactly when every timestamp is a datetime; it is
   * then never negative and is the largest gap between two timestamps.
   */
  lemma DurationIsSpan(t: Times)
    ensures Duration(t).Ok? <==> AllTimes(t.timestamps)
    ensures Duration(t).Ok? ==> Duration(t).value >= 0
    ensures Duration(t).Ok? ==> forall i, j :: 0 <= i < |t.timestamps| && 0 <= j < |t.timestamps| ==>
              t.timestamps[i].seconds - t.timestamps[j].seconds <= Duration(t).value
    ensures Duration(t).Ok? && t.timestamps != [] ==>
              exists i, j :: 0 <= i < |t.timestamps| && 0 <= j < |t.timestamps| &&
                t.timestamps[i].seconds - t.timestamps[j].seconds == Duration(t).value
  {
    if t.timestamps != [] && AllTimes(t.timestamps) {
      var secs := SecondsOf(t.timestamps);
      MaxOfIsLargest(secs);
      MinOfIsSmallest(secs);
      var i :| 0 <= i < |secs| && secs[i] == MaxOf(secs);
      var j :| 0 <= j < |secs| && secs[j] == MinOf(secs);
      assert t.timestamps[i].seconds - t.timestamps[j].seconds == Duration(t).value;
    }
  }

  /**
   * The elapsed time is the largest elapsed time when there is one, and
   * otherwise the duration (which is 0 without timestamps).
   */
  lemma ElapsedRule(t: Times)
    ensures t.elapsed != [] ==>
              Elapsed(t).Ok? && Elapsed(t).value in t.elapsed &&
              forall i :: 0 <= i < |t.elapsed| ==> t.elapsed[i] <= Elapsed(t).value
    ensures t.elapsed == [] ==> Elapsed(t) == Duration(t)
  {
    if t.elapsed != [] {
      MaxOfIsLargest(t.elapsed);
    }
  }

  /**
   * `last_distance` is None exactly when no field assigns it; otherwise it is
   * the value of the last field that does.
   */
  lemma {:induction false} LastDistanceAt(fs: seq<Field>)
    ensures LastDistanceFrom(None, fs).None? <==> forall i :: 0 <= i < |fs| ==> !SetsDistance(fs[i])
    ensures LastDistanceFrom(None, fs).Some? ==>
              exists i :: 0 <= i < |fs| && SetsDistance(fs[i]) && LastDistanceFrom(None, fs).value == fs[i].value &&
                forall j :: i < j < |fs| ==> !SetsDistance(fs[j])
    decreases |fs|
  {
    if fs != [] {
      var init, last := fs[..|fs| - 1], fs[|fs| - 1];
      assert forall i :: 0 <= i < |init| ==> fs[i] == init[i];
      if SetsDistance(last) {
        assert LastDistanceFrom(None, fs) == Some(fs[|fs| - 1].value);
      } else {
        assert LastDistanceFrom(None, fs) == LastDistanceFrom(None, init);
        LastDistanceAt(init);
        if LastDistanceFrom(None, init).Some? {
          var i :| 0 <= i < |init| && SetsDistance(init[i]) && LastDistanceFrom(None, init).value == init[i].value &&
                   forall j :: i < j < |init| ==> !SetsDistance(init[j]);
          assert forall j :: i < j < |fs| ==> !SetsDistance(fs[j]);
        }
      }
    }
  }

  /**
   * Once the first loop succeeds, `print_total_fields` raises on the distance
   * total exactly when `distance` is asked for and the last distance is
   * neither an integer nor a float.
   */
  lemma DistanceFailsIff(records: seq<Message>, names: seq<string>, whole: string -> int)
    requires Collected(records, whole).Ok?
    ensures var d := LastDistanceFrom(None, Flatten(records));
            TotalTimes(records, names, whole) == Err(NotScalable) <==> "distance" in names && d.Some? && !Numeric(d.value)
  {
  }

  /** The values of the non-None `timestamp` fields, in order. */
  function TimestampValues(fs: seq<Field>): seq<FitValue> {
    if fs == [] then []
    else
      var f := fs[|fs| - 1];
      TimestampValues(fs[..|fs| - 1]) + (if f.name == "timestamp" && f.value != FNone then [f.value] else [])
  }

  /** An elapsed-time field `float()` cannot convert. */
  predicate BadElapsed(f: Field, whole: string -> int) {
    f.name == "enhanced_elapsed_time" && f.value != FNone && ElapsedSeconds(f.value, whole).Err?
  }

  /**
   * The first loop fails exactly when an elapsed time cannot be converted;
   * otherwise `timestamps` holds every non-None timestamp, in order.
   */
  lemma {:induction false} CollectedShape(fs: seq<Field>, whole: string -> int)
    ensures CollectFrom(Ok(Times([], [])), fs, whole).Err? <==> exists i :: 0 <= i < |fs| && BadElapsed(fs[i], whole)
    ensures CollectFrom(Ok(Times([], [])), fs, whole).Ok? ==>
              CollectFrom(Ok(Times([], [])), fs, whole).value.timestamps == TimestampValues(fs)
    decreases |fs|
  {
    if fs != [] {
      var init := fs[..|fs| - 1];
      CollectedShape(init, whole);
      assert forall i :: 0 <= i < |init| ==> init[i] == fs[i];
    }
  }

  /** `h:mm:ss` read back: hours with an optional minus sign, then two-digit minutes and seconds. */
  function ParseHms(t: string): Option<int> {
    if |t| < 7 || t[|t| - 3] != ':' || t[|t| - 6] != ':' then None
    else
      var h, m, s := ParseInt(t[..|t| - 6]), t[|t| - 5..|t| - 3], t[|t| - 2..];
      if h.Some? && AllDigits(m) && AllDigits(s) then Some(h.value * 3600 + DigitsValue(m) * 60 + DigitsValue(s))
      else None
  }

  /** Python's `int(t)` for an optionally negative string of digits. */
  function ParseInt(t: string): Option<int> {
    if t != [] && t[0] == '-' then
      if |t| > 1 && AllDigits(t[1..]) then var v: int := DigitsValue(t[1..]); Some(-v) else None
    else if t != [] && AllDigits(t) then Some(DigitsValue(t))
    else None
  }

  lemma ParseIntToString(i: int)
    ensures ParseInt(IntToString(i)) == Some(i)
  {
    if i < 0 {
      assert ("-" + NatToString(-i))[1..] == NatToString(-i);
    }
  }

  /** The three numbers of H:MM:SS: whole hours (floor division), then minutes and seconds below 60. */
  lemma HmsParts(seconds: int)
    ensures var h, m, s := seconds / 3600, (seconds % 3600) / 60, seconds % 60;
            0 <= m < 60 && 0 <= s < 60 && h * 3600 + m * 60 + s == seconds && (seconds >= 0 ==> h >= 0)
  {
    var q, r := seconds / 3600, seconds % 3600;
    assert seconds == q * 3600 + r && 0 <= r < 3600;
    var m, s := r / 60, r % 60;
    assert r == m * 60 + s && 0 <= s < 60 && 0 <= m < 60;
    assert seconds == (q * 60 + m) * 60 + s;
    assert seconds % 60 == s;
  }

  /** Reading back a text made of an integer and two two-digit fields. */
  lemma ParseHmsOf(hs: string, ms: string, ss: string)
    requires ParseInt(hs).Some? && |ms| == 2 && |ss| == 2 && AllDigits(ms) && AllDigits(ss)
    ensures ParseHms(hs + ":" + ms + ":" + ss) == Some(ParseInt(hs).value * 3600 + DigitsValue(ms) * 60 + DigitsValue(ss))
  {
    var t := hs + ":" + ms + ":" + ss;
    assert t[..|t| - 6] == hs;
    assert t[|t| - 5..|t| - 3] == ms;
    assert t[|t| - 2..] == ss;
  }

  /** Reading an H:MM:SS text back gives the seconds it was made from. */
  lemma HmsRoundTrip(seconds: int)
    ensures ParseHms(Hms(seconds)) == Some(seconds)
  {
    var h, m, s := seconds / 3600, (seconds % 3600) / 60, seconds % 60;
    HmsParts(seconds);
    ParseIntToString(h);
    ParseHmsOf(IntToString(h), Pad2(m), Pad2(s));
  }

  // ---------------------------------------------------------------------------
  // Properties of `print_selected_fields`

  /** The first field with the name decides, even when later fields with that name follow. */
  lemma {:induction false} FirstOccurrenceWins(record: Message, name: string, k: nat)
    requires k < |record| && record[k].name == name
    requires forall j :: 0 <= j < k ==> record[j].name != name
    ensures FirstValue(record, name) == Some(record[k].value)
    decreases k
  {
    if k > 0 {
      FirstOccurrenceWins(record[1..], name, k - 1);
    }
  }

  lemma {:induction false} AbsentIsNone(record: Message, name: string)
    requires forall j :: 0 <= j < |record| ==> record[j].name != name
    ensures FirstValue(record, name) == None
    decreases |record|
  {
    if record != [] {
      AbsentIsNone(record[1..], name);
    }
  }

  /**
   * A row has one column per requested name: "N/A" when the record has no
   * field with that name or its first such field is None, and otherwise the
   * first such field's value through `show`.
   */
  lemma {:induction false} SelectedRowColumns(record: Message, names: seq<string>, show: FitValue -> string)
    ensures |SelectedRow(record, names, show)| == |names|
    ensures forall i :: 0 <= i < |names| ==>
              SelectedRow(record, names, show)[i] ==
                (if FirstValue(record, names[i]).None? || FirstValue(record, names[i]).value == FNone then "N/A"
                 else show(FirstValue(record, names[i]).value))
    decreases |names|
  {
    if names != [] {
      SelectedRowColumns(record, names[..|names| - 1], show);
    }
  }

  /**
   * The two scans differ on a repeated name: `print_selected_fields` shows the
   * first `position_lat`, the end-position search keeps the last.
   */
  lemma FirstAndLastDiffer()
    ensures var record := [Field("position_lat", FInt(1)), Field("position_lat", FInt(2))];
            FirstValue(record, "position_lat") == Some(FInt(1)) && LastValue(record, "position_lat") == FInt(2)
  {
    var record := [Field("position_lat", FInt(1)), Field("position_lat", FInt(2))];
    FirstOccurrenceWins(record, "position_lat", 0);
    LastOccurrenceWins(record, "position_lat", 1);
  }
}
