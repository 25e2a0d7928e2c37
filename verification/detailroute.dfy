/**
 * drawDetailDayRoute.py and drawDetailRoute.py: every `.fit` file of the ride
 * directory, in day/part order, is sampled (every 30 seconds, or every 10
 * minutes) and all points are drawn as one red line named "US Ride Detail".
 * The day script also means to drop a point labelled with the two-digit day
 * number at the first sampled point of each `Day_<d>.fit` and
 * `Day_<d>_Part_1.fit`; as written its label pattern ends in `\\.fit$`, which
 * needs a backslash in the name, so DetailDayRoute labels no ordinary file and
 * IntendedDetailDayRoute is the script with the `\.fit$` it was meant to have.
 * A file that fitparse cannot read, or whose sampling raises, contributes
 * nothing; when no points are found nothing is written.
 */
module DetailRoute {
  import opened Wrappers
  import opened Text
  import opened Sorting
  import opened FileNames
  import opened FitRecords

  /** A directory entry: its name and its `record` messages, None when fitparse raises on it. */
  datatype FitInput = FitInput(name: string, records: Option<seq<Message>>)

  /** `seconds=30` in drawDetailDayRoute.py. */
  const DayGap: int := 30
  /** `timedelta(minutes=10)` in drawDetailRoute.py. */
  const RouteGap: int := 600

  /** A KML coordinate, longitude first. */
  datatype Coord = Coord(lon: FitValue, lat: FitValue)

  datatype Label = Label(name: string, at: Coord)

  datatype Line = Line(name: string, coords: seq<Coord>, width: nat, color: string)

  /** The features of the saved document: the labelled points, then the line. */
  datatype DetailKml = DetailKml(labels: seq<Label>, line: Line)

  const LineName := "US Ride Detail"
  const LineWidth: nat := 4
  /** `simplekml.Color.red`, in KML's aabbggrr order. */
  const LineColor := "ff0000ff"

  function InputKey(f: FitInput): Key {
    OrderKey(f.name)
  }

  /** The entries whose name ends in `.fit`, in listing order. */
  function FitInputs(listing: seq<FitInput>): (r: seq<FitInput>)
    ensures forall i :: 0 <= i < |r| ==> EndsWith(r[i].name, ".fit")
    ensures forall f :: multiset(r)[f] == if EndsWith(f.name, ".fit") then multiset(listing)[f] else 0
  {
    if listing == [] then []
    else
      var init, last := listing[..|listing| - 1], listing[|listing| - 1];
      assert listing == init + [last];
      FitInputs(init) + (if EndsWith(last.name, ".fit") then [last] else [])
  }

  /** `fit_files_in_order`: the `.fit` entries stably sorted by day and part. */
  function InputsInOrder(listing: seq<FitInput>): seq<FitInput> {
    SortByKey(FitInputs(listing), InputKey)
  }

  /** What the `try` block keeps of one file: its sampled points, or None when reading or sampling raises. */
  function FilePoints(f: FitInput, gap: int): Option<seq<Position>> {
    if f.records.None? then None
    else
      match Sampled(f.records.value, gap)
      case Ok(ps) => Some(ps)
      case Err(_) => None
  }

  /** The points a file adds to `all_points`. */
  function Contribution(f: FitInput, gap: int): seq<Position> {
    FilePoints(f, gap).GetOr([])
  }

  /** `all_points` after the loop: each file's contribution, in processing order. */
  function AllPoints(files: seq<FitInput>, gap: int): seq<Position> {
    if files == [] then [] else AllPoints(files[..|files| - 1], gap) + Contribution(files[|files| - 1], gap)
  }

  /**
   * The label the day script puts at a file's first point: the file name must
   * match the label pattern (with the given tail), the file must have points,
   * and its part must be absent or exactly the text "1".
   */
  function FileLabel(name: string, points: seq<Position>, tail: Tail): (r: Option<Label>)
    ensures r.Some? ==> points != [] && r.value.at == Coord(points[0].lon, points[0].lat)
    ensures r.Some? ==> |r.value.name| >= 2 && AllDigits(r.value.name)
  {
    match MatchDayPart(name, tail)
    case None => None
    case Some(m) =>
      if points != [] && (m.part.None? || m.part.value == "1") then
        Some(Label(Pad2(DigitsValue(m.day)), Coord(points[0].lon, points[0].lat)))
      else None
  }

  /** The label of a file of the day script, which samples every 30 seconds. */
  function LabelOf(f: FitInput, tail: Tail): Option<Label> {
    match FilePoints(f, DayGap)
    case Some(ps) => FileLabel(f.name, ps, tail)
    case None => None
  }

  /** The labels of the files that were read, in processing order. */
  function Labels(files: seq<FitInput>, tail: Tail): (r: seq<Label>)
    ensures |r| <= |files|
  {
    if files == [] then []
    else
      var mark := LabelOf(files[|files| - 1], tail);
      Labels(files[..|files| - 1], tail) + (if mark.Some? then [mark.value] else [])
  }

  /** `[(lon, lat) for lat, lon in all_points]`. */
  function LonLat(points: seq<Position>): (cs: seq<Coord>)
    ensures |cs| == |points|
    ensures forall i :: 0 <= i < |cs| ==> cs[i] == Coord(points[i].lon, points[i].lat)
  {
    if points == [] then [] else LonLat(points[..|points| - 1]) + [Coord(points[|points| - 1].lon, points[|points| - 1].lat)]
  }

  /** The saved document, or None ("No points found.") when there are no points. */
  function Document(labels: seq<Label>, points: seq<Position>): Option<DetailKml> {
    if points == [] then None else Some(DetailKml(labels, Line(LineName, LonLat(points), LineWidth, LineColor)))
  }

  /**
   * drawDetailDayRoute.py's `main` as written, with the label pattern's tail
   * `\\.fit$`: a document exactly when some point was read, whose line holds
   * every point swapped to (lon, lat) in processing order.
   */
  function DetailDayRoute(listing: seq<FitInput>): (r: Option<DetailKml>)
    ensures r.Some? <==> AllPoints(InputsInOrder(listing), DayGap) != []
    ensures r.Some? ==> r.value.line.name == LineName && r.value.line.coords == LonLat(AllPoints(InputsInOrder(listing), DayGap))
  {
    var files := InputsInOrder(listing);
    Document(Labels(files, BackslashFit), AllPoints(files, DayGap))
  }

  /** drawDetailDayRoute.py's `main` as intended, with the label pattern's tail `\.fit$`; the same line as the script as written. */
  function IntendedDetailDayRoute(listing: seq<FitInput>): (r: Option<DetailKml>)
    ensures r.Some? <==> AllPoints(InputsInOrder(listing), DayGap) != []
    ensures r.Some? ==> r.value.line.name == LineName && r.value.line.coords == LonLat(AllPoints(InputsInOrder(listing), DayGap))
  {
    var files := InputsInOrder(listing);
    Document(Labels(files, DotFit), AllPoints(files, DayGap))
  }

  /** drawDetailRoute.py's `main`: no labels, and a line of every point sampled every 10 minutes, when there is one. */
  function DetailRoute(listing: seq<FitInput>): (r: Option<DetailKml>)
    ensures r.Some? <==> AllPoints(InputsInOrder(listing), RouteGap) != []
    ensures r.Some? ==> r.value.labels == [] && r.value.line.coords == LonLat(AllPoints(InputsInOrder(listing), RouteGap))
  {
    Document([], AllPoints(InputsInOrder(listing), RouteGap))
  }

  /** The `try` block around one file: read it and sample it; any exception loses the file. */
  method ProcessFile(f: FitInput, gap: int) returns (points: Option<seq<Position>>)
    ensures points == FilePoints(f, gap)
  {
    if f.records.None? {
      return None;
    }
    var r := SampleFixes(f.records.value, gap);
    if r.Err? {
      return None;
    }
    points := Some(r.value);
  }

  lemma FilesStep(files: seq<FitInput>, i: nat, tail: Tail, gap: int)
    requires i < |files|
    ensures AllPoints(files[..i + 1], gap) == AllPoints(files[..i], gap) + Contribution(files[i], gap)
    ensures var mark := LabelOf(files[i], tail);
            Labels(files[..i + 1], tail) == Labels(files[..i], tail) + (if mark.Some? then [mark.value] else [])
  {
    var prefix := files[..i + 1];
    assert prefix[..|prefix| - 1] == files[..i] && prefix[|prefix| - 1] == files[i];
  }

  /** drawDetailDayRoute.py's `main`: label and collect each file in order, then build the line. */
  method DrawDetailDayRoute(listing: seq<FitInput>) returns (kml: Option<DetailKml>)
    ensures kml == DetailDayRoute(listing)
  {
    var files := InputsInOrder(listing);
    var labels: seq<Label> := [];
    var allPoints: seq<Position> := [];
    var i := 0;
    while i < |files|
      invariant 0 <= i <= |files|
      invariant labels == Labels(files[..i], BackslashFit)
      invariant allPoints == AllPoints(files[..i], DayGap)
    {
      FilesStep(files, i, BackslashFit, DayGap);
      var points := ProcessFile(files[i], DayGap);
      if points.Some? {
        var mark := FileLabel(files[i].name, points.value, BackslashFit);
        if mark.Some? {
          labels := labels + [mark.value];
        }
        allPoints := allPoints + points.value;
      }
      i := i + 1;
    }
    assert files[..i] == files;
    if allPoints != [] {
      kml := Some(DetailKml(labels, Line(LineName, LonLat(allPoints), LineWidth, LineColor)));
    } else {
      kml := None;
    }
  }

  /** drawDetailRoute.py's `main`: collect each file's points in order, then build the line. */
  method DrawDetailRoute(listing: seq<FitInput>) returns (kml: Option<DetailKml>)
    ensures kml == DetailRoute(listing)
  {
    var files := InputsInOrder(listing);
    var allPoints: seq<Position> := [];
    var i := 0;
    while i < |files|
      invariant 0 <= i <= |files|
      invariant allPoints == AllPoints(files[..i], RouteGap)
    {
      FilesStep(files, i, DotFit, RouteGap);
      var points := ProcessFile(files[i], RouteGap);
      if points.Some? {
        allPoints := allPoints + points.value;
      }
      i := i + 1;
    }
    assert files[..i] == files;
    if allPoints != [] {
      kml := Some(DetailKml([], Line(LineName, LonLat(allPoints), LineWidth, LineColor)));
    } else {
      kml := None;
    }
  }

  // ---------------------------------------------------------------------------
  // Properties

  /** The line is the concatenation of the files' points: splitting the file list splits the line. */
  lemma {:induction false} AllPointsSplit(a: seq<FitInput>, b: seq<FitInput>, gap: int)
    ensures AllPoints(a + b, gap) == AllPoints(a, gap) + AllPoints(b, gap)
    decreases |b|
  {
    if b == [] {
      assert a + b == a;
    } else {
      var init, c := b[..|b| - 1], Contribution(b[|b| - 1], gap);
      AppendSplitsLast(a, b);
      AllPointsSplit(a, init, gap);
      assert AllPoints(a + b, gap) == AllPoints(a + init, gap) + c;
      assert AllPoints(b, gap) == AllPoints(init, gap) + c;
      SeqAssoc(AllPoints(a, gap), AllPoints(init, gap), c);
    }
  }

  /** One file is labelled by its own label, if it gets one. */
  lemma LabelsOfOne(f: FitInput, tail: Tail)
    ensures Labels([f], tail) == if LabelOf(f, tail).Some? then [LabelOf(f, tail).value] else []
  {
    assert [f][..0] == [];
  }

  /** Files are labelled independently and in order: the labels of `a + b` are those of `a`, then those of `b`. */
  lemma {:induction false} LabelsSplit(a: seq<FitInput>, b: seq<FitInput>, tail: Tail)
    ensures Labels(a + b, tail) == Labels(a, tail) + Labels(b, tail)
    decreases |b|
  {
    if b == [] {
      assert a + b == a;
    } else {
      var init, mark := b[..|b| - 1], LabelOf(b[|b| - 1], tail);
      var c := if mark.Some? then [mark.value] else [];
      AppendSplitsLast(a, b);
      LabelsSplit(a, init, tail);
      assert Labels(a + b, tail) == Labels(a + init, tail) + c;
      assert Labels(b, tail) == Labels(init, tail) + c;
      SeqAssoc(Labels(a, tail), Labels(init, tail), c);
    }
  }

  /** Nothing is written exactly when no file contributes a point. */
  lemma {:induction false} NoPointsIff(files: seq<FitInput>, gap: int)
    ensures AllPoints(files, gap) == [] <==> forall i :: 0 <= i < |files| ==> Contribution(files[i], gap) == []
    decreases |files|
  {
    if files != [] {
      var init := files[..|files| - 1];
      NoPointsIff(init, gap);
      assert forall i :: 0 <= i < |init| ==> init[i] == files[i];
    }
  }

  /** The files are processed in day/part order, and they are exactly the `.fit` entries. */
  lemma ProcessingOrder(listing: seq<FitInput>)
    ensures SortedBy(InputsInOrder(listing), InputKey)
    ensures multiset(InputsInOrder(listing)) == multiset(FitInputs(listing))
  {
    SortSorts(FitInputs(listing), InputKey);
    SortPermutes(FitInputs(listing), InputKey);
  }

  /** The saved line is every collected point, with latitude and longitude swapped into KML order. */
  lemma SavedLine(labels: seq<Label>, points: seq<Position>)
    ensures Document(labels, points).Some? <==> points != []
    ensures Document(labels, points).Some? ==>
              var line := Document(labels, points).value.line;
              line.name == "US Ride Detail" && line.width == 4 && line.color == LineColor && |line.coords| == |points| &&
              forall i :: 0 <= i < |points| ==> line.coords[i] == Coord(points[i].lon, points[i].lat)
  {
  }

  /** A file with points named `Day_<d>.fit` or `Day_<d>_Part_1.fit` is labelled with `d` as two digits at its first point. */
  lemma DayStartLabelled(d: nat, points: seq<Position>)
    requires points != []
    ensures FileLabel("Day_" + NatToString(d) + ".fit", points, DotFit) == Some(Label(Pad2(d), Coord(points[0].lon, points[0].lat)))
    ensures FileLabel("Day_" + NatToString(d) + "_Part_" + "1" + ".fit", points, DotFit) == Some(Label(Pad2(d), Coord(points[0].lon, points[0].lat)))
  {
    FitTail(".fit");
    MatchWithoutPart(NatToString(d), ".fit", DotFit);
    assert NatToString(1) == "1";
    MatchWithPart(NatToString(d), "1", ".fit", DotFit);
  }

  /** Later parts get no label, and neither does `Part_01`: the part is compared as text. */
  lemma LaterPartsUnlabelled(d: nat, p: string, points: seq<Position>)
    requires p != [] && AllDigits(p) && p != "1"
    ensures FileLabel("Day_" + NatToString(d) + "_Part_" + p + ".fit", points, DotFit) == None
  {
    FitTail(".fit");
    MatchWithPart(NatToString(d), p, ".fit", DotFit);
  }

  /** A file without points gets no label. */
  lemma EmptyFileUnlabelled(name: string, tail: Tail)
    ensures FileLabel(name, [], tail) == None
  {
  }

  /** As written, the day script labels nothing for a listing whose names hold no backslash: its document is the bare line. */
  lemma AsWrittenDayRouteUnlabelled(listing: seq<FitInput>)
    requires forall i, j :: 0 <= i < |listing| && 0 <= j < |listing[i].name| ==> listing[i].name[j] != '\\'
    ensures DetailDayRoute(listing).Some? ==> DetailDayRoute(listing).value.labels == []
    ensures DetailDayRoute(listing).Some? <==> IntendedDetailDayRoute(listing).Some?
  {
    var files := InputsInOrder(listing);
    SortPermutes(FitInputs(listing), InputKey);
    forall i, j | 0 <= i < |files| && 0 <= j < |files[i].name|
      ensures files[i].name[j] != '\\'
    {
      assert multiset(FitInputs(listing))[files[i]] > 0;
      assert files[i] in listing;
    }
    AsWrittenLabelsNothing(files);
  }

  /** As written, the label pattern needs a backslash in the name, so no file of an ordinary listing is ever labelled. */
  lemma {:induction false} AsWrittenLabelsNothing(files: seq<FitInput>)
    requires forall i, j :: 0 <= i < |files| && 0 <= j < |files[i].name| ==> files[i].name[j] != '\\'
    ensures Labels(files, BackslashFit) == []
    decreases |files|
  {
    if files != [] {
      var init := files[..|files| - 1];
      AsWrittenLabelsNothing(init);
      AsWrittenNeedsBackslash(files[|files| - 1].name);
    }
  }
}
