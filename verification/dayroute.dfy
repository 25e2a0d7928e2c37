/**
 * drawDayRoute.py: `create_kml_from_summary` turns the ride summary (a JSON
 * list of records) into a KML text with one placemark per day start and a
 * final "End" placemark, written out verbatim with fixed indentation.
 *
 * The skip test for part files is modelled both as written (SummaryKml, which
 * keeps `Part_10` to `Part_19` because they contain `Part_1`) and as intended
 * (IntendedSummaryKml, which skips every part but part 1).
 */
module DayRoute {
  import opened Wrappers
  import opened Text
  import opened FileNames

  /**
   * A scalar JSON value as `json.load` returns it. A number without a fraction
   * or an exponent is an `int`; any other number is the float nearest to the
   * exact decimal value `mantissa * 10^exponent` of its text; `NaN`,
   * `Infinity` and `-Infinity`, which `json.load` accepts, are special floats.
   */
  datatype Json =
    | JNull
    | JBool(b: bool)
    | JInt(i: int)
    | JFloat(mantissa: int, exponent: int)
    | JNaN
    | JInfinity(negative: bool)
    | JStr(s: string)

  /** One summary record, a JSON object. */
  type Record = map<string, Json>

  datatype DayRouteError =
    | NameNotText   // `'Part' in fit_name` raises for a non-string file name

  const Header := "<?xml version=\"1.0\" encoding=\"UTF-8\"?>\n<kml xmlns=\"http://www.opengis.net/kml/2.2\">\n<Document>\n    <name>Ride Start Locations</name>\n"
  const Footer := "</Document>\n</kml>"

  /** `record.get(key)`. */
  function Get(rec: Record, key: string): Option<Json> {
    if key in rec then Some(rec[key]) else None
  }

  function Pow(b: nat, n: nat): nat
    decreases n
  {
    if n == 0 then 1 else b * Pow(b, n - 1)
  }

  /**
   * The double nearest to `mantissa * 10^exponent` is a zero: the value is 0,
   * or its magnitude is at most 2^-1075, half the least subnormal double (a
   * tie rounds to the even neighbour, which is 0).
   */
  predicate RoundsToZero(mantissa: int, exponent: int) {
    mantissa == 0 ||
    (exponent < 0 && (if mantissa < 0 then -mantissa else mantissa) * Pow(2, 1075) <= Pow(10, -exponent))
  }

  /** Python truthiness of a looked-up value: None, null, false, zero (including a float that underflows to zero) and "" are false; NaN and the infinities are true. */
  predicate Truthy(v: Option<Json>) {
    match v
    case None => false
    case Some(JNull) => false
    case Some(JBool(b)) => b
    case Some(JInt(i)) => i != 0
    case Some(JFloat(m, e)) => !RoundsToZero(m, e)
    case Some(JNaN) => true
    case Some(JInfinity(_)) => true
    case Some(JStr(s)) => s != []
  }

  /** `str(v)` inside the f-string; `num` is `str` of the float nearest to `mantissa * 10^exponent`. */
  function Show(v: Option<Json>, num: (int, int) -> string): string {
    match v
    case None => "None"
    case Some(JNull) => "None"
    case Some(JBool(b)) => if b then "True" else "False"
    case Some(JInt(i)) => IntToString(i)
    case Some(JFloat(m, e)) => num(m, e)
    case Some(JNaN) => "nan"
    case Some(JInfinity(negative)) => if negative then "-inf" else "inf"
    case Some(JStr(s)) => s
  }

  /** `record.get('fitFileName', '')`, which the skip test needs to be a string. */
  function NameOf(rec: Record): Result<string, DayRouteError> {
    match Get(rec, "fitFileName")
    case None => Ok("")
    case Some(JStr(s)) => Ok(s)
    case Some(_) => Err(NameNotText)
  }

  /** `'Part' in fit_name and 'Part_1' not in fit_name`, the skip test as written. */
  predicate SkippedAsWritten(name: string) {
    Contains(name, "Part") && !Contains(name, "Part_1")
  }

  /** `s` starts with `Part_1` and no further digit follows. */
  predicate PartOneAt(s: string) {
    "Part_1" <= s && (|s| == 6 || !IsDigit(s[6]))
  }

  predicate HasPartOne(s: string)
    decreases |s|
  {
    PartOneAt(s) || (s != [] && HasPartOne(s[1..]))
  }

  /** The skip test as intended: a part file other than part 1 (so `Part_10` is skipped too). */
  predicate Skipped(name: string) {
    Contains(name, "Part") && !HasPartOne(name)
  }

  /** Which skip test a run uses: the script's substring test, or the intended one. */
  datatype SkipTest = AsWritten | Intended

  predicate SkipsName(test: SkipTest, name: string) {
    match test
    case AsWritten => SkippedAsWritten(name)
    case Intended => Skipped(name)
  }

  /** `match.group(1) if match else fit_name`: the day digits, or the whole name. */
  function DayName(name: string): string {
    DaySearch(name).GetOr(name)
  }

  /** A placemark of the document: its name and the longitude and latitude texts. */
  datatype Mark = Mark(name: string, lon: string, lat: string)

  /** The text written for a placemark, with the altitude fixed at 0. */
  function Render(m: Mark): string {
    var name, lon, lat := m.name, m.lon, m.lat;
    "    <Placemark>\n        <name>" + name + "</name>\n        <Point>\n            <coordinates>" + lon + "," + lat +
    ",0</coordinates>\n        </Point>\n    </Placemark>\n"
  }

  /** The placemark one record adds, if any: skipped part files and records without a truthy start position add none. */
  function StartPlacemark(rec: Record, num: (int, int) -> string, test: SkipTest): Result<Option<Mark>, DayRouteError> {
    match NameOf(rec)
    case Err(e) => Err(e)
    case Ok(name) =>
      var lat, lon := Get(rec, "start_position_lat"), Get(rec, "start_position_long");
      if SkipsName(test, name) || !(Truthy(lat) && Truthy(lon)) then Ok(None)
      else Ok(Some(Mark(DayName(name), Show(lon, num), Show(lat, num))))
  }

  /** The loop's bookkeeping for one record: an earlier error stands, a new one stops, a placemark is appended. */
  function AddPlacemark(before: Result<seq<Mark>, DayRouteError>, p: Result<Option<Mark>, DayRouteError>): Result<seq<Mark>, DayRouteError> {
    match before
    case Err(e) => Err(e)
    case Ok(ps) =>
      match p
      case Err(e) => Err(e)
      case Ok(None) => Ok(ps)
      case Ok(Some(x)) => Ok(ps + [x])
  }

  /** The start placemarks of all records in order, or the error of the first record that raises. */
  function StartPlacemarks(data: seq<Record>, num: (int, int) -> string, test: SkipTest): Result<seq<Mark>, DayRouteError> {
    if data == [] then Ok([])
    else AddPlacemark(StartPlacemarks(data[..|data| - 1], num, test), StartPlacemark(data[|data| - 1], num, test))
  }

  /** The "End" placemark at the last record's end position, when it is truthy. */
  function EndPlacemark(data: seq<Record>, num: (int, int) -> string): (r: seq<Mark>)
    ensures |r| <= 1
    ensures r != [] <==>
              data != [] && Truthy(Get(data[|data| - 1], "end_position_lat")) &&
              Truthy(Get(data[|data| - 1], "end_position_long"))
    ensures r != [] ==>
              r[0] == Mark("End", Show(Get(data[|data| - 1], "end_position_long"), num),
                           Show(Get(data[|data| - 1], "end_position_lat"), num))
  {
    if data == [] then []
    else
      var last := data[|data| - 1];
      var lat, lon := Get(last, "end_position_lat"), Get(last, "end_position_long");
      if Truthy(lat) && Truthy(lon) then [Mark("End", Show(lon, num), Show(lat, num))] else []
  }

  /** The placemarks' texts, one after another. */
  function Concat(ms: seq<Mark>): string {
    if ms == [] then "" else Concat(ms[..|ms| - 1]) + Render(ms[|ms| - 1])
  }

  /** A text made of a head, a body and a tail starts with the head and ends with the tail. */
  lemma Framed(head: string, body: string, tail: string)
    ensures var t := head + body + tail;
            |t| >= |head| + |tail| && t[..|head|] == head && t[|t| - |tail|..] == tail
  {
  }

  /** The text written with the given skip test, or the error that stops it before anything is written. */
  function SummaryKmlWith(data: seq<Record>, num: (int, int) -> string, test: SkipTest): (r: Result<string, DayRouteError>)
    ensures r.Ok? ==>
              |r.value| >= |Header| + |Footer| && r.value[..|Header|] == Header && r.value[|r.value| - |Footer|..] == Footer
  {
    match StartPlacemarks(data, num, test)
    case Err(e) => Err(e)
    case Ok(ps) =>
      var body := Concat(ps + EndPlacemark(data, num));
      Framed(Header, body, Footer);
      Ok(Header + body + Footer)
  }

  /** The text `create_kml_from_summary` writes, with its skip test as written: it fails exactly when some file name is not a string. */
  function SummaryKml(data: seq<Record>, num: (int, int) -> string): (r: Result<string, DayRouteError>)
    ensures r.Err? <==> exists i :: 0 <= i < |data| && NameOf(data[i]).Err?
  {
    PlacemarksFailIff(data, num, AsWritten);
    SummaryKmlWith(data, num, AsWritten)
  }

  /** The text `create_kml_from_summary` was meant to write, skipping every part file but part 1; it fails exactly as the script does. */
  function IntendedSummaryKml(data: seq<Record>, num: (int, int) -> string): (r: Result<string, DayRouteError>)
    ensures r.Err? <==> exists i :: 0 <= i < |data| && NameOf(data[i]).Err?
  {
    PlacemarksFailIff(data, num, Intended);
    SummaryKmlWith(data, num, Intended)
  }

  lemma PlacemarksStep(data: seq<Record>, i: nat, num: (int, int) -> string, test: SkipTest)
    requires i < |data|
    ensures StartPlacemarks(data[..i + 1], num, test) == AddPlacemark(StartPlacemarks(data[..i], num, test), StartPlacemark(data[i], num, test))
  {
    var prefix := data[..i + 1];
    assert prefix[..|prefix| - 1] == data[..i] && prefix[|prefix| - 1] == data[i];
  }

  lemma {:induction false} PlacemarksErrorPersists(data: seq<Record>, i: nat, num: (int, int) -> string, test: SkipTest)
    requires i <= |data| && StartPlacemarks(data[..i], num, test).Err?
    ensures StartPlacemarks(data, num, test) == StartPlacemarks(data[..i], num, test)
    decreases |data| - i
  {
    if i < |data| {
      PlacemarksStep(data, i, num, test);
      PlacemarksErrorPersists(data, i + 1, num, test);
    } else {
      assert data[..i] == data;
    }
  }

  /**
   * One pass of the record loop: read the file name, skip a name that
   * contains `Part` but not `Part_1` (`continue`), and make a placemark when
   * the start position is truthy.
   */
  method RecordPlacemark(rec: Record, num: (int, int) -> string) returns (r: Result<Option<Mark>, DayRouteError>)
    ensures r == StartPlacemark(rec, num, AsWritten)
  {
    var fitName := "";
    if "fitFileName" in rec {
      if !rec["fitFileName"].JStr? {
        return Err(NameNotText);
      }
      fitName := rec["fitFileName"].s;
    }
    if Contains(fitName, "Part") && !Contains(fitName, "Part_1") {
      return Ok(None);
    }
    var lat, lon := Get(rec, "start_position_lat"), Get(rec, "start_position_long");
    var dayNum := DayName(fitName);
    if Truthy(lat) && Truthy(lon) {
      return Ok(Some(Mark(dayNum, Show(lon, num), Show(lat, num))));
    }
    return Ok(None);
  }

  /** `create_kml_from_summary`: collect the placemarks, add the "End" placemark, then write header, placemarks and footer. */
  method CreateKmlFromSummary(data: seq<Record>, num: (int, int) -> string) returns (r: Result<string, DayRouteError>)
    ensures r == SummaryKml(data, num)
  {
    var placemarks: seq<Mark> := [];
    for i := 0 to |data|
      invariant StartPlacemarks(data[..i], num, AsWritten) == Ok(placemarks)
    {
      PlacemarksStep(data, i, num, AsWritten);
      var p := RecordPlacemark(data[i], num);
      if p.Err? {
        PlacemarksErrorPersists(data, i + 1, num, AsWritten);
        return Err(p.error);
      }
      if p.value.Some? {
        placemarks := placemarks + [p.value.value];
      }
    }
    assert data[..|data|] == data;
    ghost var starts := placemarks;
    if data != [] {
      var last := data[|data| - 1];
      var endLat, endLon := Get(last, "end_position_lat"), Get(last, "end_position_long");
      if Truthy(endLat) && Truthy(endLon) {
        placemarks := placemarks + [Mark("End", Show(endLon, num), Show(endLat, num))];
      }
    }
    assert placemarks == starts + EndPlacemark(data, num);
    r := Ok(Header + Concat(placemarks) + Footer);
  }

  // ---------------------------------------------------------------------------
  // Properties

  lemma {:induction false} PlacemarksFailIff(data: seq<Record>, num: (int, int) -> string, test: SkipTest)
    ensures StartPlacemarks(data, num, test).Err? <==> exists i :: 0 <= i < |data| && NameOf(data[i]).Err?
    decreases |data|
  {
    if data != [] {
      var init := data[..|data| - 1];
      PlacemarksFailIff(init, num, test);
      assert forall i :: 0 <= i < |init| ==> init[i] == data[i];
      assert StartPlacemark(data[|data| - 1], num, test).Err? <==> NameOf(data[|data| - 1]).Err?;
    }
  }

  /** Nothing is written exactly when some record has a file name that is not a string, whichever skip test is used. */
  lemma SummaryFailsIff(data: seq<Record>, num: (int, int) -> string, test: SkipTest)
    ensures SummaryKmlWith(data, num, test).Err? <==> exists i :: 0 <= i < |data| && NameOf(data[i]).Err?
  {
    PlacemarksFailIff(data, num, test);
  }

  lemma AddPlacemarkAssoc(pa: seq<Mark>, pi: seq<Mark>, p: Result<Option<Mark>, DayRouteError>)
    requires AddPlacemark(Ok(pi), p).Ok?
    ensures AddPlacemark(Ok(pa + pi), p) == Ok(pa + AddPlacemark(Ok(pi), p).value)
  {
    if p.Ok? && p.value.Some? {
      assert pa + pi + [p.value.value] == pa + (pi + [p.value.value]);
    }
  }

  /** Records contribute independently: the placemarks of `a + b` are those of `a` followed by those of `b`. */
  lemma {:induction false} PlacemarksSplit(a: seq<Record>, b: seq<Record>, num: (int, int) -> string, test: SkipTest)
    requires StartPlacemarks(a, num, test).Ok? && StartPlacemarks(b, num, test).Ok?
    ensures StartPlacemarks(a + b, num, test) == Ok(StartPlacemarks(a, num, test).value + StartPlacemarks(b, num, test).value)
    decreases |b|
  {
    if b == [] {
      assert a + b == a;
      assert StartPlacemarks(a, num, test).value + [] == StartPlacemarks(a, num, test).value;
    } else {
      var init, last := b[..|b| - 1], b[|b| - 1];
      assert (a + b)[..|a + b| - 1] == a + init && (a + b)[|a + b| - 1] == last;
      PlacemarksSplit(a, init, num, test);
      var pa, pi := StartPlacemarks(a, num, test).value, StartPlacemarks(init, num, test).value;
      AddPlacemarkAssoc(pa, pi, StartPlacemark(last, num, test));
    }
  }

  /** The "End" placemark looks only at the last record, even one whose start is skipped. */
  lemma EndFromLastRecord(data: seq<Record>, rec: Record, num: (int, int) -> string)
    ensures EndPlacemark(data + [rec], num) == EndPlacemark([rec], num)
  {
    assert (data + [rec])[|data|] == rec;
  }

  /** A character-free prefix without `P` does not change whether `Part...` occurs. */
  lemma {:induction false} SkipNoP(t: string, u: string)
    requires forall i :: 0 <= i < |t| ==> t[i] != 'P'
    ensures Contains(t + u, "Part") == Contains(u, "Part")
    ensures Contains(t + u, "Part_1") == Contains(u, "Part_1")
    ensures HasPartOne(t + u) == HasPartOne(u)
    decreases |t|
  {
    if t != [] {
      var s := t + u;
      assert s[0] == t[0] != 'P';
      assert !("Part" <= s) && !("Part_1" <= s);
      assert s[1..] == t[1..] + u;
      SkipNoP(t[1..], u);
    } else {
      assert t + u == u;
    }
  }

  /** The part text of `Day_<ds>_Part_<ps>.fit`, as both skip tests see it. */
  lemma RideFilePart(ds: string, ps: string)
    requires AllDigits(ds) && ps != [] && AllDigits(ps)
    ensures var name := "Day_" + ds + "_Part_" + ps + ".fit";
            Contains(name, "Part") &&
            (Contains(name, "Part_1") <==> ps[0] == '1') &&
            (HasPartOne(name) <==> ps == "1")
  {
    var t, u := "Day_" + ds + "_", "Part_" + ps + ".fit";
    assert "Day_" + ds + "_Part_" + ps + ".fit" == t + u;
    assert forall i :: 0 <= i < |t| ==> t[i] == 'D' || t[i] == 'a' || t[i] == 'y' || t[i] == '_' || IsDigit(t[i]);
    SkipNoP(t, u);
    var v := u[1..];
    assert forall i :: 0 <= i < |v| ==> v[i] != 'P';
    SkipNoP(v, []);
    assert v + [] == v;
    assert u[..4] == "Part" && u[..5] == "Part_" && u[5] == ps[0];
    assert "Part_1" <= u <==> ps[0] == '1' by {
      if "Part_1" <= u { assert u[5] == "Part_1"[5]; }
      if ps[0] == '1' { assert u[..6] == "Part_1"; }
    }
    if ps != "1" && ps[0] == '1' {
      assert |ps| > 1 && u[6] == ps[1];
    }
  }

  /** Finding: as written, `Day_<d>_Part_1x.fit` (parts 10 to 19, 100, ...) is not skipped; the intended test skips every part but 1. */
  lemma PartTenFinding(ds: string, ps: string)
    requires AllDigits(ds) && ps != [] && AllDigits(ps)
    ensures ps[0] == '1' ==> !SkippedAsWritten("Day_" + ds + "_Part_" + ps + ".fit")
    ensures Skipped("Day_" + ds + "_Part_" + ps + ".fit") <==> ps != "1"
  {
    RideFilePart(ds, ps);
  }

  /**
   * As written, a record of part 10 to 19 (or 100 and up) with a truthy start
   * still gets a placemark named by its day; the intended test gives it none.
   */
  lemma PartTenPlacemark(rec: Record, num: (int, int) -> string, ds: string, ps: string)
    requires ds != [] && AllDigits(ds) && ps != [] && AllDigits(ps) && ps[0] == '1' && ps != "1"
    requires Get(rec, "fitFileName") == Some(JStr("Day_" + ds + "_Part_" + ps + ".fit"))
    requires Truthy(Get(rec, "start_position_lat")) && Truthy(Get(rec, "start_position_long"))
    ensures StartPlacemark(rec, num, AsWritten) ==
            Ok(Some(Mark(ds, Show(Get(rec, "start_position_long"), num), Show(Get(rec, "start_position_lat"), num))))
    ensures StartPlacemark(rec, num, Intended) == Ok(None)
  {
    var name := "Day_" + ds + "_Part_" + ps + ".fit";
    PartTenFinding(ds, ps);
    var rest := "_Part_" + ps + ".fit";
    assert name == "Day_" + ds + rest;
    DayNameOfRideFile(ds, rest);
  }

  // ---------------------------------------------------------------------------
  // Truthiness of the coordinates `json.load` gives

  lemma {:induction false} PowAdd(b: nat, x: nat, y: nat)
    ensures Pow(b, x + y) == Pow(b, x) * Pow(b, y)
    decreases y
  {
    if y > 0 {
      PowAdd(b, x, y - 1);
      var p, q := Pow(b, x), Pow(b, y - 1);
      assert Pow(b, x + y) == b * Pow(b, x + (y - 1));
      assert b * (p * q) == p * (b * q);
    }
  }

  lemma {:induction false} PowMul(b: nat, x: nat, y: nat)
    ensures Pow(b, x * y) == Pow(Pow(b, x), y)
    decreases y
  {
    if y > 0 {
      PowMul(b, x, y - 1);
      PowAdd(b, x * (y - 1), x);
      assert x * y == x * (y - 1) + x;
    }
  }

  lemma MulLe(x: nat, y: nat, z: nat)
    requires x <= y
    ensures x * z <= y * z
  {
  }

  lemma {:induction false} PowBase(a: nat, b: nat, n: nat)
    requires a <= b
    ensures Pow(a, n) <= Pow(b, n)
    decreases n
  {
    if n > 0 {
      PowBase(a, b, n - 1);
      var p, q := Pow(a, n - 1), Pow(b, n - 1);
      MulLe(a, b, p);
      MulLe(p, q, b);
      assert Pow(a, n) == a * p && Pow(b, n) == b * q;
    }
  }

  lemma {:induction false} PowPositive(b: nat, n: nat)
    requires 1 <= b
    ensures Pow(b, n) >= 1
    decreases n
  {
    if n > 0 {
      PowPositive(b, n - 1);
    }
  }

  lemma {:induction false} PowExp(b: nat, x: nat, y: nat)
    requires 1 <= b && x <= y
    ensures Pow(b, x) <= Pow(b, y)
  {
    PowAdd(b, x, y - x);
    PowPositive(b, y - x);
    var p, q := Pow(b, x), Pow(b, y - x);
    assert p * q >= p * 1;
    assert x + (y - x) == y;
  }

  lemma EightPowBelowTenPow(k: nat)
    ensures Pow(2, 3 * k) <= Pow(10, k)
  {
    PowMul(2, 3, k);
    PowBase(Pow(2, 3), 10, k);
  }

  lemma TenCubedBelowTwoTen(k: nat)
    ensures Pow(10, 3 * k) <= Pow(2, 10 * k)
  {
    PowMul(10, 3, k);
    PowBase(Pow(10, 3), Pow(2, 10), k);
    PowMul(2, 10, k);
  }

  lemma PowStrict(x: nat, y: nat)
    requires x < y
    ensures Pow(2, x) < Pow(2, y)
  {
    PowExp(2, x + 1, y);
    PowPositive(2, x);
  }

  /** 16 * 2^1075 = 2^1079 <= 2^1200 = 8^400 <= 10^400. */
  lemma TwoPowBelowTenPow()
    ensures 16 * Pow(2, 1075) <= Pow(10, 400)
  {
    PowAdd(2, 4, 1075);
    PowExp(2, 1079, 1200);
    EightPowBelowTenPow(400);
  }

  /** 10^300 = 1000^100 <= 1024^100 = 2^1000 < 2^1075. */
  lemma TenPowBelowTwoPow()
    ensures Pow(10, 300) < Pow(2, 1075)
  {
    TenCubedBelowTwoTen(100);
    PowStrict(1000, 1075);
  }

  /**
   * A one-digit mantissa at 10^-400 or below underflows: `json.load` gives
   * 0.0 (or -0.0), so such a coordinate is falsy although its text is not zero.
   */
  lemma UnderflowFalsy(m: int, e: int)
    requires -9 <= m <= 9 && e <= -400
    ensures !Truthy(Some(JFloat(m, e)))
  {
    var a := if m < 0 then -m else m;
    var two, ten := Pow(2, 1075), Pow(10, -e);
    MulLe(a, 16, two);
    TwoPowBelowTenPow();
    PowExp(10, 400, -e);
    assert a * two <= ten;
  }

  /** A non-zero mantissa rounds away from zero once 10^-exponent is below 2^1075. */
  lemma AboveHalfSubnormal(m: int, e: int)
    requires m != 0 && e < 0 && Pow(10, -e) < Pow(2, 1075)
    ensures !RoundsToZero(m, e)
  {
    var a := if m < 0 then -m else m;
    MulLe(1, a, Pow(2, 1075));
  }

  /** A non-zero float of magnitude 10^-300 or more is truthy, however it is written. */
  lemma NormalFloatTruthy(m: int, e: int)
    requires m != 0 && e >= -300
    ensures Truthy(Some(JFloat(m, e)))
  {
    if e < 0 {
      PowExp(10, -e, 300);
      TenPowBelowTwoPow();
      AboveHalfSubnormal(m, e);
    }
  }

  /** NaN and the infinities, which `json.load` accepts, are truthy; an int is truthy exactly when it is not 0. */
  lemma SpecialNumbersTruthy(i: int, negative: bool)
    ensures Truthy(Some(JNaN)) && Truthy(Some(JInfinity(negative)))
    ensures Truthy(Some(JInt(i))) <==> i != 0
    ensures Show(Some(JNaN), (m, e) => "") == "nan"
    ensures Show(Some(JInfinity(negative)), (m, e) => "") == (if negative then "-inf" else "inf")
  {
  }

  /** A name without `Part` is never skipped. */
  lemma WholeDayNotSkipped(name: string)
    requires !Contains(name, "Part")
    ensures !Skipped(name) && !SkippedAsWritten(name)
  {
  }

  /** A ride file's placemark is named by its day digits as written (leading zeros kept). */
  lemma {:induction false} DayNameOfRideFile(ds: string, rest: string)
    requires ds != [] && AllDigits(ds)
    requires rest == [] || !IsDigit(rest[0])
    ensures DayName("Day_" + ds + rest) == ds
  {
    var s := "Day_" + ds + rest;
    assert s[..4] == "Day_" && s[4..] == ds + rest;
    DigitSpanOfDigits(ds, rest);
    assert (ds + rest)[..|ds|] == ds;
  }
}
