/**
 * convertKml2Gpx.py: reads the coordinates of every KML placemark and writes
 * a GPX 1.1 document with one waypoint per point placemark and one track
 * (holding one segment) per line placemark.
 *
 * Numbers stay the text the KML holds; `float()` is modelled by the predicate
 * IsFloatText (which texts it accepts), and the way `str(float(x))` prints a
 * number back is the parameter `repr`.
 */
module Kml2Gpx {
  import opened Wrappers
  import opened Text
  import opened Xml

  /** Tags of the KML 2.2 namespace, as ElementTree spells them. */
  const KmlNs := "{http://www.opengis.net/kml/2.2}"

  // ---------------------------------------------------------------------------
  // float()

  /** `digit (["_"] digit)*`: digits, with single underscores only between two digits. */
  predicate IsDigitPart(s: string) {
    s != [] &&
    forall i :: 0 <= i < |s| && !IsDigit(s[i]) ==>
      s[i] == '_' && 0 < i < |s| - 1 && IsDigit(s[i - 1]) && IsDigit(s[i + 1])
  }

  /** The first index of `a` or `b` in `s`, or `|s|` when neither occurs. */
  function FirstOf(s: string, a: char, b: char): (k: nat)
    ensures k <= |s|
    ensures forall i :: 0 <= i < k ==> s[i] != a && s[i] != b
    ensures k < |s| ==> s[k] == a || s[k] == b
  {
    if s == [] || s[0] == a || s[0] == b then 0 else 1 + FirstOf(s[1..], a, b)
  }

  /** A decimal mantissa: `12`, `12.`, `12.5` or `.5`. */
  predicate IsMantissa(m: string) {
    var d := FirstOf(m, '.', '.');
    if d == |m| then IsDigitPart(m)
    else
      var whole, frac := m[..d], m[d + 1..];
      (whole != [] || frac != []) &&
      (whole == [] || IsDigitPart(whole)) && (frac == [] || IsDigitPart(frac))
  }

  function Unsigned(s: string): string {
    if s != [] && (s[0] == '+' || s[0] == '-') then s[1..] else s
  }

  /** The texts Python's `float()` accepts (ASCII spellings, no surrounding whitespace). */
  predicate IsFloatText(s: string) {
    var body := Unsigned(s);
    EqualsIgnoreCase(body, "inf") || EqualsIgnoreCase(body, "infinity") || EqualsIgnoreCase(body, "nan") ||
    var e := FirstOf(body, 'e', 'E');
    IsMantissa(body[..e]) && (e == |body| || IsDigitPart(Unsigned(body[e + 1..])))
  }

  lemma {:induction false} FirstOfAbsent(s: string, a: char, b: char)
    requires forall i :: 0 <= i < |s| ==> s[i] != a && s[i] != b
    ensures FirstOf(s, a, b) == |s|
    decreases |s|
  {
    if s != [] {
      FirstOfAbsent(s[1..], a, b);
    }
  }

  lemma {:induction false} FirstOfAt(s: string, a: char, b: char, k: nat)
    requires k < |s| && (s[k] == a || s[k] == b)
    requires forall i :: 0 <= i < k ==> s[i] != a && s[i] != b
    ensures FirstOf(s, a, b) == k
    decreases k
  {
    if k > 0 {
      FirstOfAt(s[1..], a, b, k - 1);
    }
  }

  /** A signed mantissa with no exponent is a float. */
  lemma MantissaIsFloat(sign: string, body: string)
    requires sign == "" || sign == "-"
    requires IsMantissa(body)
    requires forall i :: 0 <= i < |body| ==> body[i] != 'e' && body[i] != 'E' && body[i] != '+' && body[i] != '-'
    ensures IsFloatText(sign + body)
  {
    assert Unsigned(sign + body) == body;
    FirstOfAbsent(body, 'e', 'E');
    assert body[..|body|] == body;
  }

  /** Digits, a dot and digits form a mantissa. */
  lemma DecimalMantissa(whole: string, frac: string)
    requires whole != [] && AllDigits(whole) && AllDigits(frac)
    ensures IsMantissa(whole + "." + frac)
    ensures IsMantissa(whole)
  {
    var body := whole + "." + frac;
    forall i | 0 <= i < |whole|
      ensures body[i] != '.'
    {
      assert body[i] == whole[i];
    }
    FirstOfAt(body, '.', '.', |whole|);
    assert body[..|whole|] == whole && body[|whole| + 1..] == frac;
    FirstOfAbsent(whole, '.', '.');
  }

  /** No character of a decimal numeral is an exponent marker or a sign. */
  lemma DecimalHasNoExponent(whole: string, frac: string)
    requires AllDigits(whole) && AllDigits(frac)
    ensures var body := whole + "." + frac;
            forall i :: 0 <= i < |body| ==> body[i] != 'e' && body[i] != 'E' && body[i] != '+' && body[i] != '-'
  {
    var body := whole + "." + frac;
    forall i | 0 <= i < |body|
      ensures body[i] != 'e' && body[i] != 'E' && body[i] != '+' && body[i] != '-'
    {
      if i < |whole| { assert body[i] == whole[i]; }
      else if i > |whole| { assert body[i] == frac[i - |whole| - 1]; }
    }
  }

  /** Digits with an optional minus sign and fraction, as GPS coordinates are usually written, are floats. */
  lemma DecimalIsFloat(sign: string, whole: string, frac: string)
    requires sign == "" || sign == "-"
    requires whole != [] && AllDigits(whole) && AllDigits(frac)
    ensures IsFloatText(sign + (whole + "." + frac))
    ensures IsFloatText(sign + whole)
  {
    DecimalHasNoExponent(whole, frac);
    DecimalMantissa(whole, frac);
    MantissaIsFloat(sign, whole + "." + frac);
    MantissaIsFloat(sign, whole);
  }

  /** `float("None")` fails: a coordinate GPX did not have is not a number. */
  lemma NoneIsNotFloat()
    ensures !IsFloatText("None")
  {
    var body := "None";
    assert Unsigned(body) == body;
    assert !EqualsIgnoreCase(body, "inf") && !EqualsIgnoreCase(body, "infinity");
    assert LowerChar(body[1]) != LowerChar("nan"[1]);
    var e := FirstOf(body, 'e', 'E');
    assert e == 3;
    var m := body[..e];
    assert FirstOf(m, '.', '.') == |m|;
    assert !IsDigit(m[0]);
  }

  // ---------------------------------------------------------------------------
  // parse_kml_coordinates

  /** A decoded coordinate tuple `(lat, lon, ele)`, each the text `float()` accepted. */
  datatype Coord = Coord(lat: string, lon: string, ele: Option<string>)

  /** Why the conversion stops. */
  datatype ConvertError =
    | NoCoordinateText      // the coordinates element has no text: `None.strip()` raises
    | NotAFloat(text: string) // `float(text)` raises ValueError

  /**
   * One whitespace-separated token: fewer than two comma-separated fields and
   * it is skipped; otherwise fields 0, 1 and (when present) 2 are longitude,
   * latitude and elevation, converted in that order; further fields are ignored.
   */
  function DecodeToken(token: string): Result<Option<Coord>, ConvertError> {
    var parts := SplitOn(token, ',');
    if |parts| < 2 then Ok(None)
    else if !IsFloatText(parts[0]) then Err(NotAFloat(parts[0]))
    else if !IsFloatText(parts[1]) then Err(NotAFloat(parts[1]))
    else if |parts| > 2 && !IsFloatText(parts[2]) then Err(NotAFloat(parts[2]))
    else Ok(Some(Coord(parts[1], parts[0], if |parts| > 2 then Some(parts[2]) else None)))
  }

  /** The tuples of a token sequence, in order; the first token that fails ends the conversion. */
  function DecodeTokens(tokens: seq<string>): Result<seq<Coord>, ConvertError> {
    if tokens == [] then Ok([])
    else AddToken(DecodeTokens(tokens[..|tokens| - 1]), DecodeToken(tokens[|tokens| - 1]))
  }

  /** The tuples so far, extended by one token's outcome; an error so far or now wins. */
  function AddToken(acc: Result<seq<Coord>, ConvertError>, t: Result<Option<Coord>, ConvertError>): Result<seq<Coord>, ConvertError> {
    if acc.Err? then acc
    else if t.Err? then Err(t.error)
    else if t.value.None? then acc
    else Ok(acc.value + [t.value.value])
  }

  lemma DecodeStep(tokens: seq<string>, i: nat)
    requires i < |tokens|
    ensures DecodeTokens(tokens[..i + 1]) == AddToken(DecodeTokens(tokens[..i]), DecodeToken(tokens[i]))
  {
    var prefix := tokens[..i + 1];
    assert prefix[..|prefix| - 1] == tokens[..i] && prefix[|prefix| - 1] == tokens[i];
  }

  /** `parse_kml_coordinates(text)`, with the text of an element that may have none. */
  function Coordinates(text: Option<string>): Result<seq<Coord>, ConvertError> {
    match text
    case None => Err(NoCoordinateText)
    case Some(t) => DecodeTokens(Words(Strip(t)))
  }

  /** Once a prefix of the tokens fails, the whole sequence fails with the same error. */
  lemma {:induction false} DecodeErrorPersists(tokens: seq<string>, i: nat)
    requires i <= |tokens| && DecodeTokens(tokens[..i]).Err?
    ensures DecodeTokens(tokens) == DecodeTokens(tokens[..i])
    decreases |tokens| - i
  {
    if i < |tokens| {
      assert tokens[..|tokens| - 1][..i] == tokens[..i];
      DecodeErrorPersists(tokens[..|tokens| - 1], i);
    } else {
      assert tokens[..i] == tokens;
    }
  }

  /** `parse_kml_coordinates`: the token loop. */
  method ParseKmlCoordinates(text: Option<string>) returns (r: Result<seq<Coord>, ConvertError>)
    ensures r == Coordinates(text)
  {
    if text.None? {
      return Err(NoCoordinateText);
    }
    var tokens := Words(Strip(text.value));
    var coords := [];
    var i := 0;
    while i < |tokens|
      invariant 0 <= i <= |tokens|
      invariant DecodeTokens(tokens[..i]) == Ok(coords)
    {
      DecodeStep(tokens, i);
      if DecodeToken(tokens[i]).Err? {
        DecodeErrorPersists(tokens, i + 1);
      }
      var parts := SplitOn(tokens[i], ',');
      if |parts| >= 2 {
        if !IsFloatText(parts[0]) {
          return Err(NotAFloat(parts[0]));
        }
        if !IsFloatText(parts[1]) {
          return Err(NotAFloat(parts[1]));
        }
        var ele := None;
        if |parts| > 2 {
          if !IsFloatText(parts[2]) {
            return Err(NotAFloat(parts[2]));
          }
          ele := Some(parts[2]);
        }
        coords := coords + [Coord(parts[1], parts[0], ele)];
      }
      i := i + 1;
    }
    assert tokens[..i] == tokens;
    r := Ok(coords);
  }

  /** A token is skipped exactly when it holds no comma. */
  lemma SkippedToken(token: string)
    ensures DecodeToken(token) == Ok(None) <==> ',' !in token
  {
    if ',' !in token {
      SplitOnWithoutSeparator(token, ',');
    } else {
      var k := FirstOf(token, ',', ',');
      assert ',' !in token[..k];
      assert token == token[..k] + [','] + token[k + 1..];
      SplitOnFirstField(token[..k], token[k + 1..], ',');
    }
  }

  /**
   * A successful decoding yields at most one tuple per token, exactly one when
   * every token holds a comma, and every field of every tuple is a float.
   */
  lemma {:induction false} DecodedTuples(tokens: seq<string>)
    ensures DecodeTokens(tokens).Ok? ==>
      var cs := DecodeTokens(tokens).value;
      |cs| <= |tokens| &&
      ((forall i :: 0 <= i < |tokens| ==> ',' in tokens[i]) ==> |cs| == |tokens|) &&
      forall i :: 0 <= i < |cs| ==>
        IsFloatText(cs[i].lat) && IsFloatText(cs[i].lon) && (cs[i].ele.Some? ==> IsFloatText(cs[i].ele.value))
    decreases |tokens|
  {
    if tokens != [] {
      var init := tokens[..|tokens| - 1];
      DecodedTuples(init);
      SkippedToken(tokens[|tokens| - 1]);
      assert forall i :: 0 <= i < |init| ==> init[i] == tokens[i];
    }
  }

  /** The conversion fails exactly when some token fails on its own. */
  lemma {:induction false} DecodeFailsIffSomeTokenFails(tokens: seq<string>)
    ensures DecodeTokens(tokens).Err? <==> exists i :: 0 <= i < |tokens| && DecodeToken(tokens[i]).Err?
    decreases |tokens|
  {
    if tokens != [] {
      var init := tokens[..|tokens| - 1];
      DecodeFailsIffSomeTokenFails(init);
      if DecodeTokens(init).Err? {
        var i :| 0 <= i < |init| && DecodeToken(init[i]).Err?;
        assert tokens[i] == init[i];
      }
      if exists i :: 0 <= i < |tokens| && DecodeToken(tokens[i]).Err? {
        var i :| 0 <= i < |tokens| && DecodeToken(tokens[i]).Err?;
        if i < |init| {
          assert init[i] == tokens[i];
        }
      }
    }
  }

  // ---------------------------------------------------------------------------
  // kml_to_gpx

  /** `pm.find("kml:name")`: its text, which may be None; "Unnamed" when there is no such child. */
  function PlacemarkName(pm: Element): Option<string> {
    match Find(pm, KmlNs + "name")
    case None => Some("Unnamed")
    case Some(e) => e.text
  }

  /** The first `inner` child of the first element of `es` that has one. */
  function FirstChildWith(es: seq<Element>, inner: string): Option<Element> {
    if es == [] then None
    else match Find(es[0], inner)
      case Some(c) => Some(c)
      case None => FirstChildWith(es[1..], inner)
  }

  /** `pm.find(".//kml:<outer>/kml:coordinates")`. */
  function CoordinatesAt(pm: Element, outer: string): Option<Element> {
    FirstChildWith(WithTag(Descendants(pm), KmlNs + outer), KmlNs + "coordinates")
  }

  /** `ET.SubElement(parent, tag).text = text`, for a text that may be None. */
  function TextChild(tag: string, text: Option<string>): Element {
    Element(tag, map[], text, [])
  }

  /** The `ele` child, present only when the tuple has an elevation. */
  function EleChild(c: Coord, repr: string -> string): seq<Element> {
    if c.ele.Some? then [TextChild("ele", Some(repr(c.ele.value)))] else []
  }

  function LatLon(c: Coord, repr: string -> string): map<string, string> {
    map["lat" := repr(c.lat), "lon" := repr(c.lon)]
  }

  /** The GPX waypoint of a point placemark: `lat`/`lon` attributes, then `ele` (if any) and `name`. */
  function WptElement(c: Coord, name: Option<string>, repr: string -> string): Element {
    Element("wpt", LatLon(c, repr), None, EleChild(c, repr) + [TextChild("name", name)])
  }

  function TrkPoints(cs: seq<Coord>, repr: string -> string): (r: seq<Element>)
    ensures |r| == |cs|
  {
    if cs == [] then []
    else
      var c := cs[|cs| - 1];
      TrkPoints(cs[..|cs| - 1], repr) + [Element("trkpt", LatLon(c, repr), None, EleChild(c, repr))]
  }

  /** The GPX track of a line placemark: its name, then one segment holding every tuple. */
  function TrkElement(cs: seq<Coord>, name: Option<string>, repr: string -> string): Element {
    Node("trk", [TextChild("name", name), Node("trkseg", TrkPoints(cs, repr))])
  }

  /**
   * What one placemark contributes: a point wins over a line (the loop moves on
   * after a point, even one with no tuples); a placemark with neither
   * contributes nothing.
   */
  function PlacemarkOutput(pm: Element, repr: string -> string): Result<seq<Element>, ConvertError> {
    var name := PlacemarkName(pm);
    match CoordinatesAt(pm, "Point")
    case Some(point) =>
      (match Coordinates(point.text)
       case Err(e) => Err(e)
       case Ok(cs) => Ok(if cs == [] then [] else [WptElement(cs[0], name, repr)]))
    case None =>
      match CoordinatesAt(pm, "LineString")
      case None => Ok([])
      case Some(line) =>
        match Coordinates(line.text)
        case Err(e) => Err(e)
        case Ok(cs) => Ok([TrkElement(cs, name, repr)])
  }

  /** The children so far, extended by one placemark's output; an error so far or now wins. */
  function Extend(acc: Result<seq<Element>, ConvertError>, out: Result<seq<Element>, ConvertError>): Result<seq<Element>, ConvertError> {
    if acc.Err? then acc else if out.Err? then Err(out.error) else Ok(acc.value + out.value)
  }

  /** The children of the GPX root for a sequence of placemarks; the first failing one stops it all. */
  function GpxChildren(pms: seq<Element>, repr: string -> string): Result<seq<Element>, ConvertError> {
    if pms == [] then Ok([])
    else Extend(GpxChildren(pms[..|pms| - 1], repr), PlacemarkOutput(pms[|pms| - 1], repr))
  }

  function GpxAttrs(): map<string, string> {
    map["version" := "1.1", "creator" := "kml_to_gpx_python", "xmlns" := "http://www.topografix.com/GPX/1/1"]
  }

  /** Every `Placemark` below the KML root, in document order (`.//kml:Placemark`). */
  function Placemarks(root: Element): seq<Element> {
    WithTag(Descendants(root), KmlNs + "Placemark")
  }

  /** The GPX document `kml_to_gpx` builds from a KML document. */
  function GpxDocument(root: Element, repr: string -> string): Result<Element, ConvertError> {
    match GpxChildren(Placemarks(root), repr)
    case Err(e) => Err(e)
    case Ok(xs) => Ok(Element("gpx", GpxAttrs(), None, xs))
  }

  /** The body of the placemark loop for one placemark. */
  method ConvertPlacemark(pm: Element, repr: string -> string) returns (r: Result<seq<Element>, ConvertError>)
    ensures r == PlacemarkOutput(pm, repr)
  {
    var name := PlacemarkName(pm);
    var point := CoordinatesAt(pm, "Point");
    if point.Some? {
      var coords := ParseKmlCoordinates(point.value.text);
      if coords.Err? {
        return Err(coords.error);
      }
      if coords.value != [] {
        return Ok([WptElement(coords.value[0], name, repr)]);
      }
      return Ok([]);
    }
    var line := CoordinatesAt(pm, "LineString");
    if line.Some? {
      var coords := ParseKmlCoordinates(line.value.text);
      if coords.Err? {
        return Err(coords.error);
      }
      var points := [];
      var i := 0;
      while i < |coords.value|
        invariant 0 <= i <= |coords.value|
        invariant points == TrkPoints(coords.value[..i], repr)
      {
        var c := coords.value[i];
        points := points + [Element("trkpt", LatLon(c, repr), None, EleChild(c, repr))];
        assert coords.value[..i + 1][..i] == coords.value[..i];
        i := i + 1;
      }
      assert coords.value[..i] == coords.value;
      return Ok([Node("trk", [TextChild("name", name), Node("trkseg", points)])]);
    }
    return Ok([]);
  }

  /** Once a prefix of the placemarks fails, the whole conversion fails with the same error. */
  lemma {:induction false} ConvertErrorPersists(pms: seq<Element>, repr: string -> string, i: nat)
    requires i <= |pms| && GpxChildren(pms[..i], repr).Err?
    ensures GpxChildren(pms, repr) == GpxChildren(pms[..i], repr)
    decreases |pms| - i
  {
    if i < |pms| {
      assert pms[..|pms| - 1][..i] == pms[..i];
      ConvertErrorPersists(pms[..|pms| - 1], repr, i);
    } else {
      assert pms[..i] == pms;
    }
  }

  /** One turn of the placemark loop. */
  lemma ConvertStep(pms: seq<Element>, repr: string -> string, i: nat)
    requires i < |pms|
    ensures GpxChildren(pms[..i + 1], repr) == Extend(GpxChildren(pms[..i], repr), PlacemarkOutput(pms[i], repr))
  {
    var prefix := pms[..i + 1];
    assert prefix[..|prefix| - 1] == pms[..i] && prefix[|prefix| - 1] == pms[i];
  }

  /** `kml_to_gpx`: the placemark loop over the parsed KML tree. */
  method KmlToGpx(root: Element, repr: string -> string) returns (r: Result<Element, ConvertError>)
    ensures r == GpxDocument(root, repr)
  {
    var pms := Placemarks(root);
    var children := [];
    var i := 0;
    while i < |pms|
      invariant 0 <= i <= |pms|
      invariant GpxChildren(pms[..i], repr) == Ok(children)
    {
      var out := ConvertPlacemark(pms[i], repr);
      ConvertStep(pms, repr, i);
      if out.Err? {
        ConvertErrorPersists(pms, repr, i + 1);
        return Err(out.error);
      }
      children := children + out.value;
      i := i + 1;
    }
    assert pms[..i] == pms;
    r := Ok(Element("gpx", GpxAttrs(), None, children));
  }

  // ---------------------------------------------------------------------------
  // Properties of the conversion

  /** A placemark with point coordinates gives at most one waypoint, built from its first tuple, and never a track. */
  lemma PointWins(pm: Element, repr: string -> string)
    requires CoordinatesAt(pm, "Point").Some?
    ensures var out := PlacemarkOutput(pm, repr);
            var cs := Coordinates(CoordinatesAt(pm, "Point").value.text);
            out.Ok? <==> cs.Ok?
    ensures var out := PlacemarkOutput(pm, repr);
            var cs := Coordinates(CoordinatesAt(pm, "Point").value.text);
            out.Ok? ==>
              (cs.value == [] ==> out.value == []) &&
              (cs.value != [] ==> out.value == [WptElement(cs.value[0], PlacemarkName(pm), repr)])
  {
  }

  /**
   * A placemark with line coordinates and no point gives exactly one track:
   * a `name` child with the placemark's name ("Unnamed" when it has no `name`
   * child), then exactly one `trkseg` whose points are those of all the tuples.
   */
  lemma LineGivesOneTrack(pm: Element, repr: string -> string)
    requires CoordinatesAt(pm, "Point").None? && CoordinatesAt(pm, "LineString").Some?
    requires Coordinates(CoordinatesAt(pm, "LineString").value.text).Ok?
    ensures var cs := Coordinates(CoordinatesAt(pm, "LineString").value.text).value;
            PlacemarkOutput(pm, repr) == Ok([TrkElement(cs, PlacemarkName(pm), repr)])
    ensures var cs := Coordinates(CoordinatesAt(pm, "LineString").value.text).value;
            var trk := TrkElement(cs, PlacemarkName(pm), repr);
            trk.tag == "trk" &&
            trk.children == [TextChild("name", PlacemarkName(pm)), Node("trkseg", TrkPoints(cs, repr))] &&
            |trk.children[1].children| == |cs|
    ensures Find(pm, KmlNs + "name").None? ==> PlacemarkName(pm) == Some("Unnamed")
    ensures Find(pm, KmlNs + "name").Some? ==> PlacemarkName(pm) == Find(pm, KmlNs + "name").value.text
  {
  }

  /** A placemark with neither point nor line coordinates contributes nothing. */
  lemma NeitherGivesNothing(pm: Element, repr: string -> string)
    requires CoordinatesAt(pm, "Point").None? && CoordinatesAt(pm, "LineString").None?
    ensures PlacemarkOutput(pm, repr) == Ok([])
  {
  }

  /** The i-th track point carries the i-th tuple's latitude and longitude, and an `ele` child exactly when it has an elevation. */
  lemma {:induction false} TrackPointAt(cs: seq<Coord>, repr: string -> string, i: nat)
    requires i < |cs|
    ensures var p := TrkPoints(cs, repr)[i];
            p.tag == "trkpt" && p.attrs == map["lat" := repr(cs[i].lat), "lon" := repr(cs[i].lon)] &&
            (cs[i].ele.Some? <==> p.children != []) &&
            (cs[i].ele.Some? ==> p.children == [TextChild("ele", Some(repr(cs[i].ele.value)))])
    decreases |cs|
  {
    if i < |cs| - 1 {
      TrackPointAt(cs[..|cs| - 1], repr, i);
    }
  }

  /** A waypoint has an `ele` child before its `name` exactly when the tuple has an elevation. */
  lemma WaypointChildren(c: Coord, name: Option<string>, repr: string -> string)
    ensures var w := WptElement(c, name, repr);
            w.attrs == map["lat" := repr(c.lat), "lon" := repr(c.lon)] &&
            (c.ele.Some? ==> w.children == [TextChild("ele", Some(repr(c.ele.value))), TextChild("name", name)]) &&
            (c.ele.None? ==> w.children == [TextChild("name", name)])
  {
  }

  /** Each placemark contributes at most one element. */
  lemma AtMostOnePerPlacemark(pm: Element, repr: string -> string)
    ensures PlacemarkOutput(pm, repr).Ok? ==> |PlacemarkOutput(pm, repr).value| <= 1
  {
  }

  /**
   * The whole conversion fails exactly when some placemark fails, and
   * otherwise writes at most one element per placemark; the output keeps the
   * placemarks' document order (each contributes its slice in turn).
   */
  lemma {:induction false} ConversionOutcome(pms: seq<Element>, repr: string -> string)
    ensures GpxChildren(pms, repr).Err? <==> exists i :: 0 <= i < |pms| && PlacemarkOutput(pms[i], repr).Err?
    ensures GpxChildren(pms, repr).Ok? ==> |GpxChildren(pms, repr).value| <= |pms|
    decreases |pms|
  {
    if pms != [] {
      var init := pms[..|pms| - 1];
      ConversionOutcome(init, repr);
      AtMostOnePerPlacemark(pms[|pms| - 1], repr);
      if GpxChildren(init, repr).Err? {
        var i :| 0 <= i < |init| && PlacemarkOutput(init[i], repr).Err?;
        assert pms[i] == init[i];
      }
      if exists i :: 0 <= i < |pms| && PlacemarkOutput(pms[i], repr).Err? {
        var i :| 0 <= i < |pms| && PlacemarkOutput(pms[i], repr).Err?;
        if i < |init| {
          assert init[i] == pms[i];
        }
      }
    }
  }

  /** Output order: the output for `pms + [pm]` is the output for `pms` followed by that of `pm`. */
  lemma AppendPlacemark(pms: seq<Element>, pm: Element, repr: string -> string)
    requires GpxChildren(pms, repr).Ok? && PlacemarkOutput(pm, repr).Ok?
    ensures GpxChildren(pms + [pm], repr) == Ok(GpxChildren(pms, repr).value + PlacemarkOutput(pm, repr).value)
  {
    assert (pms + [pm])[..|pms|] == pms;
  }
}
