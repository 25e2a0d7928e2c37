# Bike-ride tooling, modelled in Dafny

The repository turns a cross-country bike ride into maps and a summary. Its Python scripts do the following:

- **convertGpx2Kml.py** reads the waypoints, routes and tracks of a GPX document. It writes a KML document with one placemark per waypoint, one per route, and one per non-empty segment of each track.
- **convertKml2Gpx.py** does the reverse. A point placemark becomes a GPX waypoint, and a line placemark becomes a track with one segment.
- **drawDetailDayRoute.py** and **drawDetailRoute.py** read every `Day_<d>[_Part_<p>].fit` file in day and part order. They sample the GPS fixes, one every 30 seconds or one every 10 minutes, and draw all the points as one red line. The day script means to label the start of each day with the two-digit day number. Its label pattern ends in `\\.fit$` in a raw string, so as written it labels no ordinary file name; see "Findings" below.
- **drawDayRoute.py** reads `summary.json`. It writes a KML text with one placemark per day start and a final "End" placemark. Its part-file test skips `Part_2` but, as written, keeps `Part_10` to `Part_19`; see "Findings" below.
- **mergeAllRountes.py** concatenates the `.fit` files in day order. It strips the header of every file after the first.
- **buildSummaryFile.py** builds one record per FIT file:
  - the merged activity, session and file_id fields;
  - whitelisted keys with unit conversions;
  - the end position.

  It also formats the H:MM:SS totals of a file and prints per-record field listings.

The Dafny modules follow the scripts:

| file | module | models |
|---|---|---|
| `wrappers.dfy` | `Wrappers` | `Option` and `Result` |
| `text.dfy` | `Text` | `str.split`, `strip`, `join`, `in`, `endswith` and `str(int)` on `seq<char>` |
| `xml.dfy` | `Xml` | an ElementTree element with `find` and `findall` |
| `sorting.dfy` | `Sorting` | the sort keys and Python's stable `list.sort(key=...)` |
| `filenames.dfy` | `FileNames` | the `Day_(\d+)(?:_Part_(\d+))?` regular expressions and the order keys |
| `fitrecords.dfy` | `FitRecords` | fitparse messages, and the every-N-seconds sampler shared by the two detail scripts |
| `gpx2kml.dfy` | `Gpx2Kml` | `parse_gpx`, `q` and `build_kml` |
| `kml2gpx.dfy` | `Kml2Gpx` | `parse_kml_coordinates` and `kml_to_gpx` |
| `roundtrip.dfy` | `RoundTrip` | the coordinates written by one converter, as read back by the other |
| `detailroute.dfy` | `DetailRoute` | the `main` of both detail scripts |
| `dayroute.dfy` | `DayRoute` | `create_kml_from_summary` |
| `mergefit.dfy` | `MergeFit` | `extract_day_number` and the merge loop |
| `summary.dfy` | `BuildSummary` | `print_summary_fields`, `get_fit_files`, `main`, `print_total_fields` and `print_selected_fields` |

Each loop of the scripts is a `method` with its invariants. Each method is proved equal to a recursive function over the input, and the properties are lemmas about those functions. Files, directories and parsed documents are parameters: a directory listing is a sequence of names with their contents, an XML file is its element tree, and a FIT file is the messages fitparse returns. An exception that ends a script is an `Err` result.

## Model

| member | source | states |
|---|---|---|
| Text.Words | convertKml2Gpx.py:7 | every word of `split()` is non-empty and holds no whitespace |
| Text.WordsOfJoin | convertKml2Gpx.py:7 | splitting on whitespace undoes a single-space join of non-empty, whitespace-free words |
| Text.StripUnpadded | convertKml2Gpx.py:7 | `strip()` leaves alone a text with no whitespace at either end |
| Text.TrimLeftFacts | convertGpx2Kml.py:30 | stripping on the left removes a prefix of dropped characters and stops at the first kept one |
| Text.TrimRightFacts | convertGpx2Kml.py:30 | stripping on the right removes a suffix of dropped characters and stops at the last kept one |
| Text.SplitOn | convertKml2Gpx.py:8 | `split(',')` gives at least one field and no field holds the separator |
| Text.JoinSplitOn | convertKml2Gpx.py:8 | joining the fields of `split(sep)` with `sep` gives the text back |
| Text.SplitOnJoin | convertKml2Gpx.py:8 | splitting a join of separator-free fields gives the fields back |
| Text.NatToString | convertGpx2Kml.py:143 | `str(n)` is a non-empty digit string whose value is `n`, with no leading zero unless `n` is 0 |
| Text.Pad2 | drawDetailDayRoute.py:67 | `f"{n:02d}"` is a digit string of value `n`, exactly two digits when `n < 100` |
| Xml.WithTagFacts | convertGpx2Kml.py:42 | `findall(tag)` keeps exactly the children with that tag and no more elements than there are children |
| Xml.FindFirst | convertGpx2Kml.py:45 | `find(tag)` is the first child with that tag |
| Sorting.BelowIsStrictTotal | drawDetailDayRoute.py:7-16 | comparing the `(day, part)` and `(inf, inf)` keys is a strict total order |
| Sorting.SortPermutes | drawDetailDayRoute.py:20 | `sort(key=...)` returns the input's elements, each as often as in the input |
| Sorting.SortSorts | drawDetailDayRoute.py:20 | the sorted list never has a later key below an earlier one |
| Sorting.SortIsStable | drawDetailDayRoute.py:20 | elements sharing a key keep their input order |
| FileNames.DaySearch | mergeAllRountes.py:5-7 | the group found by `re.search(r'Day_(\d+)')` is a non-empty digit string |
| FileNames.CanonicalDayKey | mergeAllRountes.py:5-7 | `Day_<d>` followed by a non-digit gets day number `d` |
| FileNames.FitNames | drawDetailDayRoute.py:19 | every kept name ends in `.fit`, and every `.fit` name is kept as often as it is listed, and nothing else |
| FileNames.MatchWithoutPart | drawDetailDayRoute.py:11 | `Day_<digits>.fit` matches with that day and no part |
| FileNames.MatchWithPart | drawDetailDayRoute.py:11 | `Day_<digits>_Part_<digits>.fit` matches with that day and part |
| FileNames.CanonicalOrderKey | drawDetailDayRoute.py:7-16 | `Day_<d>.fit` is keyed `(d, 0)` and `Day_<d>_Part_<p>.fit` is keyed `(d, p)`, including `.FIT` and a final newline |
| FileNames.UnmatchedLast | drawDetailDayRoute.py:16-20 | once a name keyed `(inf, inf)` occurs in the ordered list, every later name is keyed `(inf, inf)` too |
| FileNames.OrderedFilesArePermutation | drawDetailDayRoute.py:18-21 | the ordered list is a permutation of the `.fit` names of the listing |
| FileNames.UpperCaseFitKeyed | drawDetailDayRoute.py:10-15 | the order key ignores case, so `Day_1.FIT` gets the key (1, 0) |
| FileNames.UpperCaseFitDropped | drawDetailDayRoute.py:18-20 | the case-sensitive `.fit` filter drops `Day_1.FIT` before it is keyed |
| FileNames.AsWrittenNeedsBackslash | drawDetailDayRoute.py:61 | the label pattern as written matches no name that holds no backslash |
| FileNames.LabelRegexFinding | drawDetailDayRoute.py:61 | the pattern as written misses `Day_01.fit`, while `\.fit$` matches it with day "01" and no part |
| FitRecords.LastOccurrenceWins | drawDetailDayRoute.py:30-36 | the field loop leaves the value of the last field with the name |
| FitRecords.AbsentFieldIsNone | drawDetailDayRoute.py:27-36 | a name with no field leaves None |
| FitRecords.FixOf | drawDetailDayRoute.py:27-37 | a record has a fix exactly when its last latitude, longitude and timestamp are all not None, and the fix holds those three values |
| FitRecords.Fixes | drawDetailDayRoute.py:26-37 | there are no more fixes than records |
| FitRecords.FixesOfOne | drawDetailDayRoute.py:26-37 | one record yields its own fix, or nothing when it has none |
| FitRecords.FixesSplit | drawDetailDayRoute.py:26-37 | records yield their fixes independently and in record order: the fixes of `a + b` are those of `a`, then those of `b` |
| FitRecords.Positions | drawDetailDayRoute.py:41 | each kept fix becomes `(lat, lon)`, in order |
| FitRecords.ReadFix | drawDetailDayRoute.py:27-36 | the `if`/`elif` loop reads the last `position_lat`, `position_long` and `timestamp` values |
| FitRecords.SampleFixes | drawDetailDayRoute.py:23-43 | the sampling loop returns exactly the positions of `Sampled`, or its error |
| FitRecords.SampleSpacing | drawDetailDayRoute.py:40-42 | consecutive kept fixes are at least `gap` seconds apart |
| FitRecords.SampleShape | drawDetailDayRoute.py:40-42 | the kept fixes are an order-preserving selection of the input fixes: strictly increasing positions, each kept fix the input fix at its position, the first at position 0 |
| FitRecords.KeptFromInput | drawDetailDayRoute.py:40-42 | the first fix is always kept, and only input fixes are kept |
| FitRecords.SampleFailsIff | drawDetailDayRoute.py:37-42 | sampling raises exactly when a coordinate is not a number or, with two or more fixes, a timestamp is not a datetime |
| FitRecords.SampleKeepsSpacedInput | drawDetailDayRoute.py:40-42 | fixes already `gap` apart are all kept |
| FitRecords.KeptIff | drawDetailDayRoute.py:40-42 | a new fix is kept exactly when nothing was kept yet or it is at least `gap` after the last kept one; otherwise nothing changes |
| Gpx2Kml.NamespaceDetection | convertGpx2Kml.py:28-35 | a root tag `{uri}local` yields `uri` and `q` builds `{uri}tag`; a tag without `}` yields bare tags |
| Gpx2Kml.PointList | convertGpx2Kml.py:63-68 | one point per point element |
| Gpx2Kml.WaypointList | convertGpx2Kml.py:42-53 | one waypoint per `wpt` element |
| Gpx2Kml.RouteList | convertGpx2Kml.py:56-70 | one route per `rte` element |
| Gpx2Kml.SegmentsOf | convertGpx2Kml.py:80-89 | no more segments than `trkseg` elements, and none of them empty |
| Gpx2Kml.AllPoints | convertGpx2Kml.py:80-87 | one point list per `trkseg` element, the i-th holding the points of the i-th `trkseg` |
| Gpx2Kml.TrackList | convertGpx2Kml.py:73-91 | one track per `trk` element |
| Gpx2Kml.ParsedInDocumentOrder | convertGpx2Kml.py:42-91 | the i-th waypoint, route, track and point come from the i-th element |
| Gpx2Kml.SegmentsOfOne | convertGpx2Kml.py:80-89 | one `trkseg` gives its point list, or nothing when it has no `trkpt` |
| Gpx2Kml.SegmentsSplit | convertGpx2Kml.py:80-89 | segments are kept independently and in order, also in a track that mixes empty and non-empty ones: the segments of `a + b` are those of `a`, then those of `b` |
| Gpx2Kml.SegmentsKept | convertGpx2Kml.py:88-89 | a track has no segments exactly when every `trkseg` is empty, and it keeps all of them when none is empty |
| Gpx2Kml.ReadPoints | convertGpx2Kml.py:63-68 | the point loop returns the points of the `tag` children in order |
| Gpx2Kml.ReadWaypoints | convertGpx2Kml.py:42-53 | the waypoint loop returns `WaypointList` |
| Gpx2Kml.ReadRoutes | convertGpx2Kml.py:56-70 | the route loop returns `RouteList` |
| Gpx2Kml.ReadSegments | convertGpx2Kml.py:80-89 | the segment loop stores only the segments that read a point |
| Gpx2Kml.ReadTracks | convertGpx2Kml.py:73-91 | the track loop returns `TrackList` |
| Gpx2Kml.ParseGpx | convertGpx2Kml.py:24-93 | waypoints, routes and tracks are read from the root's `q("wpt")`, `q("rte")` and `q("trk")` children, with the namespace detected once |
| Gpx2Kml.TokenList | convertGpx2Kml.py:130-133 | one coordinate token per point |
| Gpx2Kml.CoordTokenFields | convertGpx2Kml.py:130-131 | a token splits on commas into longitude, latitude and, only for a truthy elevation, the elevation |
| Gpx2Kml.SegmentPlacemarks | convertGpx2Kml.py:138-156 | one placemark per stored segment |
| Gpx2Kml.WaypointPlacemarks | convertGpx2Kml.py:107-117 | one placemark per waypoint |
| Gpx2Kml.RoutePlacemarks | convertGpx2Kml.py:120-134 | one placemark per route |
| Gpx2Kml.NewPlacemark | convertGpx2Kml.py:108-111 | a placemark holds its name, a description only when the description is non-empty, then its geometry |
| Gpx2Kml.AppendWaypoints | convertGpx2Kml.py:107-117 | the waypoint loop appends the waypoint placemarks in order |
| Gpx2Kml.AppendRoutes | convertGpx2Kml.py:120-134 | the route loop appends the route placemarks in order |
| Gpx2Kml.AppendSegments | convertGpx2Kml.py:138-156 | the segment loop of one track appends its segment placemarks in order |
| Gpx2Kml.AppendTracks | convertGpx2Kml.py:137-156 | the track loop appends every track's segment placemarks in order |
| Gpx2Kml.BuildKml | convertGpx2Kml.py:96-158 | `build_kml` builds the KML tree of the name, waypoint, route and track placemarks |
| Gpx2Kml.WaypointAndRoutePlacemarkAt | convertGpx2Kml.py:107-134 | the i-th waypoint or route placemark comes from the i-th waypoint or route |
| Gpx2Kml.SegmentPlacemarkAt | convertGpx2Kml.py:138-156 | the j-th segment placemark is named for segment j + 1 and drawn from segment j |
| Gpx2Kml.PlacemarkTotal | convertGpx2Kml.py:137-156 | there are as many track placemarks as stored segments |
| Gpx2Kml.TrackPlacemarkAt | convertGpx2Kml.py:137-156 | segment j of track k follows the placemarks of the earlier tracks |
| Gpx2Kml.PlacemarkOrder | convertGpx2Kml.py:100-134 | the document holds its name, then every waypoint placemark, then every route placemark, then the track placemarks |
| Gpx2Kml.TrackSegmentPlacemark | convertGpx2Kml.py:137-156 | segment j of track k sits after the header, the waypoints, the routes and the earlier tracks |
| Gpx2Kml.SegmentNamesDistinct | convertGpx2Kml.py:141-145 | a track's segment placemarks have distinct names extending the track name, and a lone segment keeps the bare name |
| Kml2Gpx.MantissaIsFloat | convertKml2Gpx.py:10-11 | `float()` accepts a signed decimal mantissa without exponent |
| Kml2Gpx.DecimalIsFloat | convertKml2Gpx.py:10-11 | `float()` accepts `[-]digits[.digits]` |
| Kml2Gpx.NoneIsNotFloat | convertKml2Gpx.py:10 | `float("None")` raises |
| Kml2Gpx.ParseKmlCoordinates | convertKml2Gpx.py:5-13 | the token loop returns the decoded tuples, or the error of the first bad token |
| Kml2Gpx.SkippedToken | convertKml2Gpx.py:8-9 | a token is skipped exactly when it holds no comma |
| Kml2Gpx.DecodedTuples | convertKml2Gpx.py:7-13 | at most one tuple per token, exactly one when every token has a comma, and every field is a float |
| Kml2Gpx.DecodeFailsIffSomeTokenFails | convertKml2Gpx.py:7-13 | decoding fails exactly when some token fails on its own |
| Kml2Gpx.TrkPoints | convertKml2Gpx.py:52-55 | one `trkpt` per tuple |
| Kml2Gpx.ConvertPlacemark | convertKml2Gpx.py:29-56 | the loop body returns the placemark's output: a waypoint, a track, nothing, or the error |
| Kml2Gpx.KmlToGpx | convertKml2Gpx.py:15-60 | the placemark loop returns the GPX document, or the error of the first failing placemark |
| Kml2Gpx.PointWins | convertKml2Gpx.py:33-42 | a point placemark gives at most one waypoint, from its first tuple, and never a track |
| Kml2Gpx.LineGivesOneTrack | convertKml2Gpx.py:29-56 | a line placemark (with no point) gives exactly `[trk]`: the track's children are a `name` child with the placemark's name, or "Unnamed" when it has no `name` child, and exactly one `trkseg` whose children are `TrkPoints` of all the tuples |
| Kml2Gpx.NeitherGivesNothing | convertKml2Gpx.py:28-56 | a placemark without point or line coordinates contributes nothing |
| Kml2Gpx.TrackPointAt | convertKml2Gpx.py:52-55 | the i-th track point has the i-th tuple's `lat`/`lon`, and an `ele` child exactly when the tuple has an elevation |
| Kml2Gpx.WaypointChildren | convertKml2Gpx.py:37-41 | a waypoint has an `ele` child before `name` exactly when the tuple has an elevation |
| Kml2Gpx.AtMostOnePerPlacemark | convertKml2Gpx.py:28-56 | each placemark contributes at most one element |
| Kml2Gpx.ConversionOutcome | convertKml2Gpx.py:28-56 | conversion fails exactly when some placemark fails, and otherwise gives at most one child per placemark |
| Kml2Gpx.AppendPlacemark | convertKml2Gpx.py:28-56 | the output for the placemarks plus one more is the earlier output followed by that placemark's |
| RoundTrip.TokenRoundTrip | convertKml2Gpx.py:7-12 | the token written for a plain GPX point decodes to its latitude, longitude and truthy elevation |
| RoundTrip.MissingLatitude | convertKml2Gpx.py:10 | a point written without a latitude fails to convert back, on "None" |
| RoundTrip.MissingLongitude | convertKml2Gpx.py:10 | a point written without a longitude fails to convert back, on "None" |
| RoundTrip.TokensRoundTrip | convertKml2Gpx.py:7-13 | the tokens of plain points decode to the same points, in order |
| RoundTrip.LineRoundTrip | convertGpx2Kml.py:130-134 | a line's coordinate text read back gives the same points, in order |
| DetailRoute.DetailDayRoute | drawDetailDayRoute.py:45-80 | the day script's `main` as written saves a document exactly when some point was read; its line, "US Ride Detail", holds every point swapped to (lon, lat) in processing order |
| DetailRoute.IntendedDetailDayRoute | drawDetailDayRoute.py:45-80 | the day script with `\.fit$` saves exactly when some point was read, with the same line as the script as written |
| DetailRoute.DetailRoute | drawDetailRoute.py:46-70 | the route script's `main` saves exactly when some point was read, with no labels and a line of every point, sampled every 600 seconds, swapped to (lon, lat) |
| DetailRoute.FitInputs | drawDetailDayRoute.py:19 | every kept entry ends in `.fit`, and every `.fit` entry is kept as often as it is listed, and nothing else |
| DetailRoute.FileLabel | drawDetailDayRoute.py:61-69 | a label sits at the file's first point, and its name is a digit string of at least two digits |
| DetailRoute.Labels | drawDetailDayRoute.py:54-70 | at most one label per file |
| DetailRoute.LabelsOfOne | drawDetailDayRoute.py:57-69 | one file gets its own label, or none |
| DetailRoute.LabelsSplit | drawDetailDayRoute.py:54-70 | files are labelled independently and in processing order: the labels of `a + b` are those of `a`, then those of `b` |
| DetailRoute.LonLat | drawDetailDayRoute.py:74 | the line coordinates are the points with latitude and longitude swapped, in order |
| DetailRoute.ProcessFile | drawDetailDayRoute.py:56-72 | the `try` block keeps the file's sampled points, or nothing when reading or sampling raises |
| DetailRoute.DrawDetailDayRoute | drawDetailDayRoute.py:45-80 | the day script's loop, with its label pattern as written, builds the labels and line of `DetailDayRoute` |
| DetailRoute.DrawDetailRoute | drawDetailRoute.py:46-70 | the route script's loop builds the line of `DetailRoute`, sampled every 600 seconds |
| DetailRoute.AllPointsSplit | drawDetailDayRoute.py:54-70 | the points of two file lists are the points of each, concatenated |
| DetailRoute.NoPointsIff | drawDetailDayRoute.py:73-80 | nothing is written exactly when no file contributes a point |
| DetailRoute.ProcessingOrder | drawDetailDayRoute.py:18-21 | files are processed in day/part order, and they are exactly the `.fit` entries |
| DetailRoute.SavedLine | drawDetailDayRoute.py:73-77 | a document exists exactly when there are points; its line is "US Ride Detail" through every point, width 4, colour `LineColor` (red) |
| DetailRoute.DayStartLabelled | drawDetailDayRoute.py:61-69 | with `\.fit$`, `Day_<d>.fit` and `Day_<d>_Part_1.fit` are labelled `d` as two digits at their first point |
| DetailRoute.LaterPartsUnlabelled | drawDetailDayRoute.py:62-66 | any other part, `Part_01` included, gets no label |
| DetailRoute.EmptyFileUnlabelled | drawDetailDayRoute.py:62 | a file without points gets no label |
| DetailRoute.AsWrittenLabelsNothing | drawDetailDayRoute.py:61 | with the pattern as written, no file of a backslash-free listing is labelled |
| DetailRoute.AsWrittenDayRouteUnlabelled | drawDetailDayRoute.py:54-80 | for a listing whose names hold no backslash, the day script as written saves no labelled point, and it saves a document exactly when the intended script would |
| DayRoute.SummaryKmlWith | drawDayRoute.py:8-44 | a written text starts with the fixed header and ends with the fixed footer |
| DayRoute.SummaryKml | drawDayRoute.py:4-44 | `create_kml_from_summary` as written fails exactly when some record's file name is not a string |
| DayRoute.IntendedSummaryKml | drawDayRoute.py:4-44 | with the intended skip test the script fails on exactly the same data |
| DayRoute.UnderflowFalsy | drawDayRoute.py:21-27 | a coordinate with a one-digit mantissa at 10^-400 or below, such as `1e-400`, loads as a zero float and so is falsy |
| DayRoute.NormalFloatTruthy | drawDayRoute.py:21-27 | a non-zero float coordinate of magnitude at least 10^-300 is truthy |
| DayRoute.SpecialNumbersTruthy | drawDayRoute.py:21-27 | `NaN`, `Infinity` and `-Infinity` load as truthy floats shown as `nan`, `inf` and `-inf`; an int is truthy exactly when it is not 0 |
| DayRoute.EndPlacemark | drawDayRoute.py:32-38 | there is an "End" placemark exactly when the data is non-empty and the last record's end latitude and longitude are both truthy; it is named "End" and placed at that longitude and latitude |
| DayRoute.RecordPlacemark | drawDayRoute.py:17-29 | one pass of the record loop, with the skip test as written, gives that record's start placemark, nothing, or the error |
| DayRoute.CreateKmlFromSummary | drawDayRoute.py:4-44 | the text written, with the skip test as written, is the header, the start placemarks, the "End" placemark and the footer, or the error |
| DayRoute.PlacemarksFailIff | drawDayRoute.py:16-19 | collecting fails exactly when some record's file name is not a string |
| DayRoute.SummaryFailsIff | drawDayRoute.py:15-44 | with either skip test, nothing is written exactly when some record's file name is not a string |
| DayRoute.PlacemarksSplit | drawDayRoute.py:15-29 | the placemarks of two record lists are the placemarks of each, concatenated |
| DayRoute.EndFromLastRecord | drawDayRoute.py:32-38 | the "End" placemark depends only on the last record |
| DayRoute.RideFilePart | drawDayRoute.py:19 | for `Day_<ds>_Part_<ps>.fit`, the as-written test sees `Part_1` exactly when `ps` starts with 1, and the intended test sees part 1 exactly when `ps` is "1" |
| DayRoute.PartTenFinding | drawDayRoute.py:19 | as written, parts 10 to 19 and 100 up are not skipped; the intended test skips every part but 1 |
| DayRoute.PartTenPlacemark | drawDayRoute.py:17-29 | as written, a `Day_<ds>_Part_1x.fit` record with a truthy start gets a placemark named `ds`; with the intended test it gets none |
| DayRoute.WholeDayNotSkipped | drawDayRoute.py:19 | a name without `Part` is never skipped |
| DayRoute.DayNameOfRideFile | drawDayRoute.py:25-26 | a ride file's placemark is named by its day digits, leading zeros kept |
| MergeFit.FitEntries | mergeAllRountes.py:12 | every kept entry ends in `.fit`, and every `.fit` entry is kept as often as it is listed, and nothing else |
| MergeFit.HeaderEnd | mergeAllRountes.py:27-28 | the header slice never runs past the file |
| MergeFit.MergeAllRoutes | mergeAllRountes.py:9-36 | the merge loop returns the bytes `MergeAll` writes, None when there are none, or the error an empty later file raises |
| MergeFit.StrippedIsSuffix | mergeAllRountes.py:27-28 | stripping removes exactly the first `header_size` bytes, capped at the length |
| MergeFit.MergedFailsIff | mergeAllRountes.py:15-28 | the merge fails exactly when some file after the first is empty |
| MergeFit.MergedShape | mergeAllRountes.py:15-28 | the merge starts with the whole first file, and its length is the first file's plus every later payload |
| MergeFit.ReadOrder | mergeAllRountes.py:12-13 | files are read in day order, and they are exactly the `.fit` entries |
| MergeFit.NothingWrittenIff | mergeAllRountes.py:31-36 | nothing is written exactly when the merged bytes are empty |
| MergeFit.OversizedHeaderAddsNothing | mergeAllRountes.py:27-28 | a later file whose header size is at least its length adds nothing |
| BuildSummary.Put | buildSummaryFile.py:16 | assigning a key keeps an existing key's place or appends a new one, stores the value, and changes no other key |
| BuildSummary.AddFields | buildSummaryFile.py:15-16 | the field loop assigns every field of the message in order |
| BuildSummary.AddMessages | buildSummaryFile.py:14-16 | the message loop assigns every field of every message in order |
| BuildSummary.CollectSummary | buildSummaryFile.py:11-16 | the summary is the activity, then session, then file_id fields assigned in order |
| BuildSummary.PutAllLookup | buildSummaryFile.py:13-16 | the last assignment of a key wins, and keys never assigned keep their value |
| BuildSummary.SummaryMerge | buildSummaryFile.py:11-33 | each key holds the last value of that name over the three message types, keys are distinct, and the summary is empty exactly when there are no fields |
| BuildSummary.LaterMessageWins | buildSummaryFile.py:13-16 | a session value overrides an activity value of the same name |
| BuildSummary.ReadLatLon | buildSummaryFile.py:21-27 | the `if`/`elif` loop reads the last `position_lat` and `position_long` values |
| BuildSummary.FindEnd | buildSummaryFile.py:18-30 | both end coordinates are None or neither is, and they are the position of the last record with both |
| BuildSummary.EndPositionIff | buildSummaryFile.py:18-30 | there is no end position exactly when no record has both coordinates |
| BuildSummary.EndPositionOfLast | buildSummaryFile.py:20-30 | the end position is that of the last record with both coordinates |
| BuildSummary.CellOf | buildSummaryFile.py:52-69 | a value fails exactly when its key is converted and the value is not a number; a converted value records its conversion and 6 or 2 decimals; None stays None only when unconverted |
| BuildSummary.WhitelistedCells | buildSummaryFile.py:35-71 | the loop over `summary.items()` returns `Cells`, the converted cells of the whitelisted keys |
| BuildSummary.CellsKeys | buildSummaryFile.py:35-71 | the cells follow the summary's order, one per whitelisted key |
| BuildSummary.CellsFaithful | buildSummaryFile.py:35-71 | every cell is its key's summary value through `CellOf` |
| BuildSummary.CellsFailIff | buildSummaryFile.py:52-61 | the record fails exactly when a converted whitelisted key holds a non-number |
| BuildSummary.WhitelistedIn | buildSummaryFile.py:36-51 | a key is kept exactly when it is in the summary and in the whitelist |
| BuildSummary.RecordKeys | buildSummaryFile.py:33-81 | a record is `fitFileName`, then the whitelisted summary keys in order, then the end keys when an end position exists |
| BuildSummary.EndKeys | buildSummaryFile.py:73-81 | the end entries are `end_position_lat` and `end_position_long`, or none |
| BuildSummary.RecordWhenSummary | buildSummaryFile.py:33-85 | a record exists exactly when the summary has a field; without one the list is unchanged, and without a list nothing is kept |
| BuildSummary.PrintSummaryFields | buildSummaryFile.py:7-85 | `print_summary_fields` appends the file's record, or nothing, or fails, as `AfterSummary` says |
| BuildSummary.TotalElapsedTimeDropped | buildSummaryFile.py:36-51 | `total_elapsed_time` never reaches a record, while `enhanced_elapsed_time` does whenever the summary has it |
| BuildSummary.SpeedKey | buildSummaryFile.py:52-53 | a key ending in `speed` is converted to miles per hour |
| BuildSummary.TemperatureKey | buildSummaryFile.py:52-55 | a key ending in `temperature` with no `s` is converted to Fahrenheit |
| BuildSummary.ElevationKey | buildSummaryFile.py:52-57 | a key ending in `ascent` or `descent` with no `p` or `m` is converted to feet |
| BuildSummary.DistanceKey | buildSummaryFile.py:52-59 | a key ending in `distance` with no `p`, `m`, `as` or `de` is converted to miles |
| BuildSummary.StartPositionKey | buildSummaryFile.py:52-61 | a key starting with `start_position` and holding no `e` or `d` after it is converted to degrees |
| BuildSummary.UnconvertedKey | buildSummaryFile.py:52-61 | a key with none of the letters p, m, n, d is not converted |
| BuildSummary.PairlessKey | buildSummaryFile.py:52-61 | a key with none of the pairs `ee`, `te`, `sc`, `de`, `di`, `st` is not converted |
| BuildSummary.WhitelistSpeeds | buildSummaryFile.py:46-53 | the four whitelisted speeds are converted to miles per hour |
| BuildSummary.MaxTemperatureConverted | buildSummaryFile.py:37-55 | `max_temperature` is converted to Fahrenheit |
| BuildSummary.TotalDescentConverted | buildSummaryFile.py:42-57 | `total_descent` is converted to feet |
| BuildSummary.TotalDistanceConverted | buildSummaryFile.py:40-59 | `total_distance` is converted to miles |
| BuildSummary.StartLatitudeConverted | buildSummaryFile.py:50-61 | `start_position_lat` is converted to degrees |
| BuildSummary.CaloriesUnconverted | buildSummaryFile.py:43-61 | `total_calories` is not converted |
| BuildSummary.EnhancedElapsedUnconverted | buildSummaryFile.py:45-61 | `enhanced_elapsed_time` is not converted |
| BuildSummary.MisspeltElapsedUnconverted | buildSummaryFile.py:44-61 | `total_eplasped_time` is not converted |
| BuildSummary.GlobFit | buildSummaryFile.py:93 | every kept file's name ends in `.fit` and does not start with a dot, and every such file is kept as often as it is listed, and nothing else |
| BuildSummary.FitFilesOrder | buildSummaryFile.py:92-95 | files come in day order and are exactly the matched names |
| BuildSummary.BuildSummaryFile | buildSummaryFile.py:178-190 | `main` collects `SummaryJson` of the ordered files |
| BuildSummary.SummaryJsonRecords | buildSummaryFile.py:182-184 | there is one record per file with a summary, each starting with a file's name |
| BuildSummary.SummaryJsonOfOne | buildSummaryFile.py:33-83 | one file adds its own record, or nothing when its summary is empty |
| BuildSummary.SummaryJsonSplit | buildSummaryFile.py:182-184 | files add their records independently and in file order: `summary.json` of `a + b` is that of `a`, then that of `b` |
| BuildSummary.CollectRecord | buildSummaryFile.py:113-122 | the field loop of one record extends the timestamp and elapsed-time lists, or fails |
| BuildSummary.CollectTimes | buildSummaryFile.py:112-122 | the record loop returns `Collected` |
| BuildSummary.CollectedShape | buildSummaryFile.py:112-122 | collecting fails exactly when an elapsed time is not a float, and otherwise keeps every non-None timestamp in order |
| BuildSummary.MaxOfIsLargest | buildSummaryFile.py:142 | `max` is an element and no element is larger |
| BuildSummary.MinOfIsSmallest | buildSummaryFile.py:136 | `min` is an element and no element is smaller |
| BuildSummary.SecondsOf | buildSummaryFile.py:136 | the timestamps in seconds, one for one |
| BuildSummary.DurationIsSpan | buildSummaryFile.py:134-139 | the duration exists exactly when all timestamps are datetimes; it is non-negative and is the widest gap between two timestamps |
| BuildSummary.ElapsedRule | buildSummaryFile.py:140-146 | the elapsed time is the largest elapsed time, or else the duration |
| BuildSummary.FormatTime | buildSummaryFile.py:152-158 | the loop body formats a time entry as `field: H:MM:SS` |
| BuildSummary.TimeRow | buildSummaryFile.py:148-160 | the row loop gives one H:MM:SS entry per `duration` or `elapsed_time` name, in order |
| BuildSummary.LastDistance | buildSummaryFile.py:124-129 | the second record loop leaves `last_distance` equal to `LastDistanceFrom` over all record fields |
| BuildSummary.RecordDistance | buildSummaryFile.py:127-129 | the inner field loop sets `last_distance` to the last non-None `distance` value |
| BuildSummary.LastDistanceAt | buildSummaryFile.py:125-129 | `last_distance` is None exactly when no field is a non-None `distance`; otherwise it is the value of the last such field |
| BuildSummary.DistanceFailsIff | buildSummaryFile.py:124-132 | after the first loop succeeds, the result is the distance `TypeError` exactly when `distance` is asked for and the last distance is neither an int nor a float |
| BuildSummary.PrintTotalFields | buildSummaryFile.py:106-161 | `print_total_fields` gives the H:MM:SS entries of `TotalTimes`, or its error: an elapsed time `float()` rejects, a text or datetime `distance` multiplied at :132, or timestamps that are not datetimes, in the script's order |
| BuildSummary.HmsParts | buildSummaryFile.py:154-157 | hours, minutes and seconds recombine to the seconds, with minutes and seconds below 60 |
| BuildSummary.HmsRoundTrip | buildSummaryFile.py:152-158 | reading the H:MM:SS text back gives the seconds |
| BuildSummary.SelectRow | buildSummaryFile.py:167-174 | the name loop with its inner `break` gives `SelectedRow` |
| BuildSummary.PrintSelectedFields | buildSummaryFile.py:163-175 | one line per record, its columns joined by ", " |
| BuildSummary.FirstOccurrenceWins | buildSummaryFile.py:170-173 | the inner search takes the first field with the name |
| BuildSummary.AbsentIsNone | buildSummaryFile.py:169-174 | a name with no field gives None |
| BuildSummary.SelectedRowColumns | buildSummaryFile.py:166-174 | one column per name: "N/A" for an absent or None value, otherwise `str` of the first value |
| BuildSummary.FirstAndLastDiffer | buildSummaryFile.py:170-173 | with a repeated field name, the listing shows the first value and the end-position search keeps the last |

## Left out

- Reading and writing files, `argparse`, `os.listdir`, `glob`, `print` and `json.dump` are left out. Inputs are parameters, and results are return values.
- ElementTree parsing and serialisation are left out: `ET.parse`, `minidom` pretty-printing, `ET.indent` and `register_namespace`. Documents are `Xml.Element` trees.
- convertGpx2Kml.py's `main` is left out. It uses the input's base name as the document name; `BuildKml` takes the name as a parameter.
- fitparse's decoding of FIT files is left out. A file is given as its decoded messages.
  - In the two detail scripts, a file that fails to decode is `None` and contributes nothing, as their `try` block does.
  - In buildSummaryFile.py, `FitFile()` raising aborts `main` before `summary.json` is written. `BuildSummary.RideFile` holds decoded messages only, so that abort is not modelled.
- Floating point is left out:
  - the semicircle-to-degree scaling, the unit conversions and the `:.2f`/`:.6f` formatting of buildSummaryFile.py keep the raw number, the conversion and the number of decimals;
  - the coordinates of convertKml2Gpx.py stay text, and `str(float(x))` is the parameter `repr`.
- `float()` of text with surrounding whitespace is left out. `Kml2Gpx.IsFloatText` accepts `inf`, `infinity` and `nan` in any case, as `float()` does.
- Unicode digits are left out. `re`'s `\d` and `int()` also accept non-ASCII decimal digits; the model's `Text.IsDigit` accepts only `0` to `9`, so a name or number spelt with other digits is not matched or converted.
- BuildSummary.ElapsedSeconds: the truncation of a float elapsed time by `int()` is the parameter `whole`. `int(max(...))` equals `max` of the truncated values because truncation is monotone. An elapsed time of `inf` or `nan` also goes through `whole`: the `OverflowError` or `ValueError` that `int()` raises on it, and how `max` orders a `nan`, are not modelled.
- BuildSummary.PrintTotalFields: the field sums and the value of the `distance` total are float arithmetic and are left out. Only the `duration` and `elapsed_time` H:MM:SS entries and the `TypeError` the distance multiplication raises on a text or datetime value are modelled.
- BuildSummary.PrintSelectedFields: `str(value)` is the parameter `show`.
- DayRoute.CreateKmlFromSummary: `str` of a finite float is the parameter `num`, given the exact decimal value of the number's text. Ints, `nan` and `inf` are shown exactly. Parsing the JSON text is not modelled: a record holds the values `json.load` returns. JSON values are scalars; nested arrays and objects are left out. Python's limit on the digits of an int converted from or to text is not modelled.
- DetailRoute.Labels: its own contract states only the bound of one label per file. Which files are labelled, and in what order, is stated by DetailRoute.LabelsOfOne and DetailRoute.LabelsSplit.
- FitRecords.Fixes: its own contract states only that there are no more fixes than records. Which records give a fix, and in what order, is stated by FitRecords.FixesOfOne and FitRecords.FixesSplit.
- `os.path.join` prefixes are left out, so a directory name containing `Day_` does not change the keys.
- `list_all_fields`, convertToGpx.py and mergeRoutes.py are not part of this model.
- BuildSummary.PrintSummaryFields: `summary_record.update` is modelled as appending entries, because the whitelisted keys of a summary are distinct and the end keys are never whitelisted.

## Findings

| source | as written | input that shows it | evidently intended | confidence | as-written member | corrected member |
|---|---|---|---|---|---|---|
| drawDetailDayRoute.py:61 | `r"Day_(\d+)(?:_Part_(\d+))?\\.fit$"` needs a literal backslash before the extension, so no ride file is ever labelled | `Day_01.fit` | `\.fit$`, as in `extract_order_key` at line 11 | not executed | DetailRoute.AsWrittenDayRouteUnlabelled | DetailRoute.DayStartLabelled |
| drawDayRoute.py:19 | `'Part_1' not in fit_name` also sees `Part_1` in `Part_10` to `Part_19` and `Part_100` up, so those parts are not skipped | `Day_3_Part_12.fit` | skip every part file except part 1 | not executed | DayRoute.PartTenPlacemark | DayRoute.RideFilePart |

For the first finding, DetailRoute.DetailDayRoute and the method DetailRoute.DrawDetailDayRoute are the script as written: they use the pattern ending in `\\.fit$`. FileNames.LabelRegexFinding, FileNames.AsWrittenNeedsBackslash, DetailRoute.AsWrittenLabelsNothing and DetailRoute.AsWrittenDayRouteUnlabelled show that this labels nothing. DetailRoute.IntendedDetailDayRoute is the script with `\.fit$`; DetailRoute.DayStartLabelled and DetailRoute.LaterPartsUnlabelled state its labels.

For the second finding, DayRoute.SummaryKml and the methods DayRoute.RecordPlacemark and DayRoute.CreateKmlFromSummary are the script as written: they use DayRoute.SkippedAsWritten. DayRoute.IntendedSummaryKml uses the intended DayRoute.Skipped; DayRoute.PartTenFinding, DayRoute.RideFilePart and DayRoute.PartTenPlacemark compare the two tests.
