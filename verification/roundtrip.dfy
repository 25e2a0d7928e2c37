/**
 * What convertKml2Gpx.py reads back from the coordinates convertGpx2Kml.py
 * writes: a point's `lon,lat[,ele]` token decodes to the same latitude,
 * longitude and (truthy) elevation, a line's space-separated token list
 * decodes to the same points in the same order, and a point without a
 * latitude or longitude makes the reverse conversion fail on the text "None".
 */
module RoundTrip {
  import opened Wrappers
  import opened Text
  import opened Xml
  import opened Gpx2Kml
  import opened Kml2Gpx

  /** A coordinate text that survives the trip: a float, non-empty, no comma, no whitespace. */
  predicate Plain(s: string) {
    s != [] && IsFloatText(s) && ',' !in s && NoSpace(s)
  }

  /** A GPX point whose coordinates survive the trip; an empty elevation is allowed (it is dropped). */
  predicate PlainPoint(p: Point) {
    p.lon.Some? && p.lat.Some? && Plain(p.lon.value) && Plain(p.lat.value) &&
    (Truthy(p.ele) ==> Plain(p.ele.value))
  }

  /** The tuple the KML side reads for a GPX point: the elevation only when it was truthy. */
  function Expected(p: Point): Coord
    requires PlainPoint(p)
  {
    Coord(p.lat.value, p.lon.value, if Truthy(p.ele) then p.ele else None)
  }

  function ExpectedList(ps: seq<Point>): (cs: seq<Coord>)
    requires forall i :: 0 <= i < |ps| ==> PlainPoint(ps[i])
    ensures |cs| == |ps|
  {
    if ps == [] then [] else ExpectedList(ps[..|ps| - 1]) + [Expected(ps[|ps| - 1])]
  }

  /** One point: the token written for it decodes to its own coordinates. */
  lemma TokenRoundTrip(p: Point)
    requires PlainPoint(p)
    ensures DecodeToken(CoordToken(p.lon, p.lat, p.ele)) == Ok(Some(Expected(p)))
  {
    CoordTokenFields(p.lon, p.lat, p.ele);
  }

  /** A point whose latitude is missing is written as `lon,None`, which the reverse conversion rejects. */
  lemma MissingLatitude(lon: string, ele: Option<string>)
    requires Plain(lon) && (Truthy(ele) ==> ',' !in ele.value)
    ensures DecodeToken(CoordToken(Some(lon), None, ele)) == Err(NotAFloat("None"))
  {
    CoordTokenFields(Some(lon), None, ele);
    NoneIsNotFloat();
  }

  /** A point whose longitude is missing is written as `None,...`, which the reverse conversion rejects. */
  lemma MissingLongitude(lat: Option<string>, ele: Option<string>)
    requires ',' !in Show(lat) && (Truthy(ele) ==> ',' !in ele.value)
    ensures DecodeToken(CoordToken(None, lat, ele)) == Err(NotAFloat("None"))
  {
    CoordTokenFields(None, lat, ele);
    NoneIsNotFloat();
  }

  /** Two whitespace-free texts joined by a comma are whitespace-free. */
  lemma CommaJoinNoSpace(a: string, b: string)
    requires NoSpace(a) && NoSpace(b)
    ensures NoSpace(a + "," + b)
  {
    var t := a + "," + b;
    forall i | 0 <= i < |t| ensures !IsSpace(t[i]) {
      if i < |a| { assert t[i] == a[i]; }
      else if i > |a| { assert t[i] == b[i - |a| - 1]; }
    }
  }

  /** A token of a plain point is a non-empty word. */
  lemma TokenIsWord(p: Point)
    requires PlainPoint(p)
    ensures var t := CoordToken(p.lon, p.lat, p.ele);
            t != [] && NoSpace(t) && !IsSpace(t[0]) && !IsSpace(t[|t| - 1])
  {
    var lon, lat := p.lon.value, p.lat.value;
    CommaJoinNoSpace(lon, lat);
    if Truthy(p.ele) {
      CommaJoinNoSpace(lon + "," + lat, p.ele.value);
    }
  }

  lemma {:induction false} TokensAreWords(ps: seq<Point>)
    requires forall i :: 0 <= i < |ps| ==> PlainPoint(ps[i])
    ensures forall i :: 0 <= i < |TokenList(ps)| ==> TokenList(ps)[i] != [] && NoSpace(TokenList(ps)[i])
    ensures forall i :: 0 <= i < |TokenList(ps)| ==> !IsSpace(TokenList(ps)[i][0]) && !IsSpace(TokenList(ps)[i][|TokenList(ps)[i]| - 1])
    decreases |ps|
  {
    if ps != [] {
      TokensAreWords(ps[..|ps| - 1]);
      TokenIsWord(ps[|ps| - 1]);
    }
  }

  /** Joining non-empty words with spaces starts with the first word's first character and ends with the last word's last one. */
  lemma {:induction false} JoinEnds(ws: seq<string>)
    requires |ws| >= 1 && forall i :: 0 <= i < |ws| ==> ws[i] != []
    ensures var s := Join(ws, " ");
            s != [] && s[0] == ws[0][0] && s[|s| - 1] == ws[|ws| - 1][|ws[|ws| - 1]| - 1]
    decreases |ws|
  {
    if |ws| > 1 {
      JoinEnds(ws[1..]);
    }
  }

  /** The tokens of plain points decode to their own coordinates, in order. */
  lemma {:induction false} TokensRoundTrip(ps: seq<Point>)
    requires forall i :: 0 <= i < |ps| ==> PlainPoint(ps[i])
    ensures DecodeTokens(TokenList(ps)) == Ok(ExpectedList(ps))
    decreases |ps|
  {
    if ps != [] {
      var init := ps[..|ps| - 1];
      TokensRoundTrip(init);
      TokenRoundTrip(ps[|ps| - 1]);
      assert TokenList(ps)[..|ps| - 1] == TokenList(init);
    }
  }

  /** A line: the coordinate text written for plain points decodes to the same points, in order. */
  lemma LineRoundTrip(ps: seq<Point>)
    requires forall i :: 0 <= i < |ps| ==> PlainPoint(ps[i])
    ensures Coordinates(Some(CoordText(ps))) == Ok(ExpectedList(ps))
  {
    var ts := TokenList(ps);
    TokensAreWords(ps);
    if ts != [] {
      JoinEnds(ts);
    }
    StripUnpadded(CoordText(ps));
    WordsOfJoin(ts);
    TokensRoundTrip(ps);
  }
}
