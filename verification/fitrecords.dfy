/**
 * FIT messages as the scripts see them through fitparse: each message is a
 * sequence of named fields, and a field's value may be None. Datetimes are
 * whole seconds.
 *
 * The sampling rule shared by `fit_latlon_every_n_seconds`
 * (drawDetailDayRoute.py) and `fit_latlon_every_n_minutes` (drawDetailRoute.py)
 * lives here: keep the first fix, then every fix at least `gap` seconds after
 * the last kept one. A fix whose coordinates are not numbers, or whose time
 * cannot be subtracted from the last kept time, raises.
 */
module FitRecords {
  import opened Wrappers
  import opened Text

  /** A decoded field value; FNone is Python's None. */
  datatype FitValue = FNone | FInt(i: int) | FFloat(text: string) | FTime(seconds: int) | FText(s: string)

  datatype Field = Field(name: string, value: FitValue)

  type Message = seq<Field>

  /** Values that `lat * (180.0 / 2147483648.0)` accepts. */
  predicate Numeric(v: FitValue) {
    v.FInt? || v.FFloat?
  }

  /**
   * The value a loop `for field in msg: if field.name == name: v = field.value`
   * leaves in `v`: the value of the last field with that name, None when there is none.
   */
  function LastValue(msg: Message, name: string): FitValue {
    if msg == [] then FNone
    else if msg[|msg| - 1].name == name then msg[|msg| - 1].value
    else LastValue(msg[..|msg| - 1], name)
  }

  /** The last field with the name decides, even over earlier fields with a value. */
  lemma {:induction false} LastOccurrenceWins(msg: Message, name: string, k: nat)
    requires k < |msg| && msg[k].name == name
    requires forall j :: k < j < |msg| ==> msg[j].name != name
    ensures LastValue(msg, name) == msg[k].value
    decreases |msg|
  {
    if k < |msg| - 1 {
      LastOccurrenceWins(msg[..|msg| - 1], name, k);
    }
  }

  lemma {:induction false} AbsentFieldIsNone(msg: Message, name: string)
    requires forall j :: 0 <= j < |msg| ==> msg[j].name != name
    ensures LastValue(msg, name) == FNone
    decreases |msg|
  {
    if msg != [] {
      AbsentFieldIsNone(msg[..|msg| - 1], name);
    }
  }

  /** A record with a latitude, a longitude and a timestamp, none of them None. */
  datatype Fix = Fix(lat: FitValue, lon: FitValue, time: FitValue)

  /** The fix of a record: `position_lat`, `position_long` and `timestamp` all present. */
  function FixOf(msg: Message): (r: Option<Fix>)
    ensures r.Some? <==>
              LastValue(msg, "position_lat") != FNone && LastValue(msg, "position_long") != FNone &&
              LastValue(msg, "timestamp") != FNone
    ensures r.Some? ==>
              r.value.lat == LastValue(msg, "position_lat") && r.value.lon == LastValue(msg, "position_long") &&
              r.value.time == LastValue(msg, "timestamp")
  {
    var lat, lon, ts := LastValue(msg, "position_lat"), LastValue(msg, "position_long"), LastValue(msg, "timestamp");
    if lat != FNone && lon != FNone && ts != FNone then Some(Fix(lat, lon, ts)) else None
  }

  /** The fixes of the records that have one, in record order. */
  function Fixes(records: seq<Message>): (fs: seq<Fix>)
    ensures |fs| <= |records|
  {
    if records == [] then []
    else
      var f := FixOf(records[|records| - 1]);
      Fixes(records[..|records| - 1]) + (if f.Some? then [f.value] else [])
  }

  /** A single record yields its fix, if it has one. */
  lemma FixesOfOne(m: Message)
    ensures Fixes([m]) == if FixOf(m).Some? then [FixOf(m).value] else []
  {
    assert [m][..0] == [];
  }

  /** Records yield their fixes independently and in order: the fixes of `a + b` are those of `a`, then those of `b`. */
  lemma {:induction false} FixesSplit(a: seq<Message>, b: seq<Message>)
    ensures Fixes(a + b) == Fixes(a) + Fixes(b)
    decreases |b|
  {
    if b == [] {
      assert a + b == a;
    } else {
      var init, f := b[..|b| - 1], FixOf(b[|b| - 1]);
      var tail := if f.Some? then [f.value] else [];
      AppendSplitsLast(a, b);
      FixesSplit(a, init);
      assert Fixes(a + b) == Fixes(a + init) + tail;
      assert Fixes(b) == Fixes(init) + tail;
      SeqAssoc(Fixes(a), Fixes(init), tail);
    }
  }

  /** Why sampling a file raises. */
  datatype SampleError =
    | CoordinateNotNumeric   // the degree conversion multiplies a non-number
    | TimeNotDatetime        // a timestamp that is not a datetime meets the last kept time

  /**
   * One sampling decision: the coordinates are converted first; the fix is
   * kept when nothing is kept yet, or when both times are datetimes and it
   * comes at least `gap` seconds after the last kept fix.
   */
  function Decide(kept: seq<Fix>, f: Fix, gap: int): Result<seq<Fix>, SampleError> {
    if !Numeric(f.lat) || !Numeric(f.lon) then Err(CoordinateNotNumeric)
    else if kept == [] then Ok([f])
    else
      var last := kept[|kept| - 1].time;
      if f.time.FTime? && last.FTime? then
        if f.time.seconds - last.seconds >= gap then Ok(kept + [f]) else Ok(kept)
      else Err(TimeNotDatetime)
  }

  /** The fixes the sampler keeps, deciding on each fix in turn; the first error ends the file. */
  function Sample(fixes: seq<Fix>, gap: int): Result<seq<Fix>, SampleError> {
    if fixes == [] then Ok([])
    else
      match Sample(fixes[..|fixes| - 1], gap)
      case Err(e) => Err(e)
      case Ok(kept) => Decide(kept, fixes[|fixes| - 1], gap)
  }

  /** A point as the scripts store it, (lat, lon), before the semicircle-to-degree scaling. */
  datatype Position = Position(lat: FitValue, lon: FitValue)

  function Positions(fixes: seq<Fix>): (ps: seq<Position>)
    ensures |ps| == |fixes|
    ensures forall i :: 0 <= i < |ps| ==> ps[i] == Position(fixes[i].lat, fixes[i].lon)
  {
    if fixes == [] then [] else Positions(fixes[..|fixes| - 1]) + [Position(fixes[|fixes| - 1].lat, fixes[|fixes| - 1].lon)]
  }

  /** What sampling a file's records returns: the kept positions, or the error it raises. */
  function Sampled(records: seq<Message>, gap: int): Result<seq<Position>, SampleError> {
    match Sample(Fixes(records), gap)
    case Ok(kept) => Ok(Positions(kept))
    case Err(e) => Err(e)
  }

  /** The per-record field loop: the last `position_lat`, `position_long` and `timestamp` values. */
  method ReadFix(msg: Message) returns (lat: FitValue, lon: FitValue, timestamp: FitValue)
    ensures lat == LastValue(msg, "position_lat")
    ensures lon == LastValue(msg, "position_long")
    ensures timestamp == LastValue(msg, "timestamp")
  {
    lat, lon, timestamp := FNone, FNone, FNone;
    var i := 0;
    while i < |msg|
      invariant 0 <= i <= |msg|
      invariant lat == LastValue(msg[..i], "position_lat")
      invariant lon == LastValue(msg[..i], "position_long")
      invariant timestamp == LastValue(msg[..i], "timestamp")
    {
      assert msg[..i + 1][..i] == msg[..i];
      var field := msg[i];
      if field.name == "position_lat" {
        lat := field.value;
      } else if field.name == "position_long" {
        lon := field.value;
      } else if field.name == "timestamp" {
        timestamp := field.value;
      }
      i := i + 1;
    }
    assert msg[..i] == msg;
  }

  lemma FixesStep(records: seq<Message>, i: nat)
    requires i < |records|
    ensures var f := FixOf(records[i]);
            Fixes(records[..i + 1]) == Fixes(records[..i]) + (if f.Some? then [f.value] else [])
  {
    var prefix := records[..i + 1];
    assert prefix[..|prefix| - 1] == records[..i] && prefix[|prefix| - 1] == records[i];
  }

  /** Sampling one more record: its fix, if it has one, is decided on after the records before it. */
  lemma SampleStep(records: seq<Message>, i: nat, gap: int)
    requires i < |records|
    ensures var f, before := FixOf(records[i]), Sample(Fixes(records[..i]), gap);
            Sample(Fixes(records[..i + 1]), gap) ==
              if f.None? || before.Err? then before else Decide(before.value, f.value, gap)
  {
    FixesStep(records, i);
    var fs := Fixes(records[..i]);
    var f := FixOf(records[i]);
    if f.Some? {
      assert (fs + [f.value])[..|fs|] == fs;
    } else {
      assert fs + [] == fs;
    }
  }

  /** Once a record raised, the rest of the file does not matter. */
  lemma {:induction false} SampleErrorPersists(records: seq<Message>, i: nat, gap: int)
    requires i <= |records| && Sample(Fixes(records[..i]), gap).Err?
    ensures Sample(Fixes(records), gap) == Sample(Fixes(records[..i]), gap)
    decreases |records| - i
  {
    if i < |records| {
      SampleStep(records, i, gap);
      SampleErrorPersists(records, i + 1, gap);
    } else {
      assert records[..i] == records;
    }
  }

  /** The time of the last kept fix, `last_time` in the scripts; None before the first keep. */
  function LastTime(kept: seq<Fix>): Option<FitValue> {
    if kept == [] then None else Some(kept[|kept| - 1].time)
  }

  /** One kept fix seen through what the loop keeps: the output points and the last kept time. */
  lemma KeepStep(kept: seq<Fix>, f: Fix)
    ensures Positions(kept + [f]) == Positions(kept) + [Position(f.lat, f.lon)]
    ensures LastTime(kept + [f]) == Some(f.time)
  {
    assert (kept + [f])[..|kept|] == kept;
  }

  /**
   * The sampling loop: a record with a fix is kept when nothing was kept yet
   * or at least `gap` seconds have passed since the last kept time.
   */
  method SampleFixes(records: seq<Message>, gap: int) returns (r: Result<seq<Position>, SampleError>)
    ensures r == Sampled(records, gap)
  {
    var points: seq<Position> := [];
    var lastTime: Option<FitValue> := None;
    ghost var kept: seq<Fix> := [];
    var i := 0;
    while i < |records|
      invariant 0 <= i <= |records|
      invariant Sample(Fixes(records[..i]), gap) == Ok(kept)
      invariant points == Positions(kept) && lastTime == LastTime(kept)
    {
      SampleStep(records, i, gap);
      var lat, lon, timestamp := ReadFix(records[i]);
      if lat != FNone && lon != FNone && timestamp != FNone {
        var fix := Fix(lat, lon, timestamp);
        if !Numeric(lat) || !Numeric(lon) {
          SampleErrorPersists(records, i + 1, gap);
          return Err(CoordinateNotNumeric);
        }
        if lastTime.None? {
          KeepStep(kept, fix);
          points, lastTime, kept := points + [Position(lat, lon)], Some(timestamp), kept + [fix];
        } else if timestamp.FTime? && lastTime.value.FTime? {
          if timestamp.seconds - lastTime.value.seconds >= gap {
            KeepStep(kept, fix);
            points, lastTime, kept := points + [Position(lat, lon)], Some(timestamp), kept + [fix];
          }
        } else {
          SampleErrorPersists(records, i + 1, gap);
          return Err(TimeNotDatetime);
        }
      }
      i := i + 1;
    }
    assert records[..i] == records;
    r := Ok(points);
  }

  // ---------------------------------------------------------------------------
  // Properties of the sampling rule

  /** `b` has a datetime at least `gap` seconds after the datetime of `a`. */
  predicate FarEnough(a: Fix, b: Fix, gap: int) {
    a.time.FTime? && b.time.FTime? && b.time.seconds - a.time.seconds >= gap
  }

  /** Consecutive fixes have datetimes at least `gap` seconds apart. */
  predicate Spaced(fixes: seq<Fix>, gap: int) {
    forall k :: 0 <= k < |fixes| - 1 ==> FarEnough(fixes[k], fixes[k + 1], gap)
  }

  lemma {:induction false} SampleSpacing(fixes: seq<Fix>, gap: int)
    requires Sample(fixes, gap).Ok?
    ensures Spaced(Sample(fixes, gap).value, gap)
    decreases |fixes|
  {
    if fixes != [] {
      var init := fixes[..|fixes| - 1];
      SampleSpacing(init, gap);
      var kept := Sample(init, gap).value;
      var out := Sample(fixes, gap).value;
      if out != kept && kept != [] {
        assert out == kept + [fixes[|fixes| - 1]];
        forall k | 0 <= k < |out| - 1
          ensures FarEnough(out[k], out[k + 1], gap)
        {
          if k < |kept| - 1 {
            assert out[k] == kept[k] && out[k + 1] == kept[k + 1];
          }
        }
      }
    }
  }

  /** Where in `fixes` the fixes the sampler keeps stand, in the order they are kept. */
  ghost function KeptPositions(fixes: seq<Fix>, gap: int): seq<nat>
    requires Sample(fixes, gap).Ok?
    decreases |fixes|
  {
    if fixes == [] then []
    else
      var init := fixes[..|fixes| - 1];
      if |Sample(fixes, gap).value| == |Sample(init, gap).value| then KeptPositions(init, gap)
      else KeptPositions(init, gap) + [|fixes| - 1]
  }

  /** `idx` lists strictly increasing positions of `fixes`, and `kept[j]` is the fix at position `idx[j]`. */
  ghost predicate SubsequenceAt(kept: seq<Fix>, fixes: seq<Fix>, idx: seq<nat>) {
    |idx| == |kept| &&
    (forall j :: 0 <= j < |idx| ==> idx[j] < |fixes| && kept[j] == fixes[idx[j]]) &&
    (forall j, k :: 0 <= j < k < |idx| ==> idx[j] < idx[k])
  }

  /**
   * What a successful sample keeps: an order-preserving selection of the
   * input fixes, each taken once, that starts with the first fix.
   */
  lemma {:induction false} SampleShape(fixes: seq<Fix>, gap: int)
    requires Sample(fixes, gap).Ok?
    ensures SubsequenceAt(Sample(fixes, gap).value, fixes, KeptPositions(fixes, gap))
    ensures fixes != [] ==> KeptPositions(fixes, gap) != [] && KeptPositions(fixes, gap)[0] == 0
    decreases |fixes|
  {
    if fixes != [] {
      var init := fixes[..|fixes| - 1];
      SampleShape(init, gap);
      var kept, idx := Sample(init, gap).value, KeptPositions(init, gap);
      var out, oidx := Sample(fixes, gap).value, KeptPositions(fixes, gap);
      if |out| != |kept| {
        assert out == kept + [fixes[|fixes| - 1]];
        assert oidx == idx + [|fixes| - 1];
        forall j | 0 <= j < |oidx|
          ensures oidx[j] < |fixes| && out[j] == fixes[oidx[j]]
        {
          if j < |idx| {
            assert oidx[j] == idx[j] && out[j] == kept[j] && init[idx[j]] == fixes[idx[j]];
          }
        }
      } else {
        assert out == kept;
        forall j | 0 <= j < |oidx|
          ensures oidx[j] < |fixes| && out[j] == fixes[oidx[j]]
        {
          assert init[idx[j]] == fixes[idx[j]];
        }
      }
    }
  }

  /** The sampler keeps the first fix and only fixes of the input. */
  lemma KeptFromInput(fixes: seq<Fix>, gap: int)
    requires Sample(fixes, gap).Ok?
    ensures var kept := Sample(fixes, gap).value;
            (fixes != [] ==> kept != [] && kept[0] == fixes[0]) &&
            (forall j :: 0 <= j < |kept| ==> kept[j] in fixes)
  {
    SampleShape(fixes, gap);
    var kept, idx := Sample(fixes, gap).value, KeptPositions(fixes, gap);
    forall j | 0 <= j < |kept|
      ensures kept[j] in fixes
    {
      assert kept[j] == fixes[idx[j]];
    }
  }

  /** Every fix can be converted, and when there are two or more, every time is a datetime. */
  predicate Convertible(fixes: seq<Fix>) {
    (forall i :: 0 <= i < |fixes| ==> Numeric(fixes[i].lat) && Numeric(fixes[i].lon)) &&
    (|fixes| >= 2 ==> forall i :: 0 <= i < |fixes| ==> fixes[i].time.FTime?)
  }

  /** Sampling raises exactly when some fix cannot be converted or some time cannot be subtracted. */
  lemma {:induction false} SampleFailsIff(fixes: seq<Fix>, gap: int)
    ensures Sample(fixes, gap).Ok? <==> Convertible(fixes)
    decreases |fixes|
  {
    if fixes != [] {
      var init, f := fixes[..|fixes| - 1], fixes[|fixes| - 1];
      SampleFailsIff(init, gap);
      assert forall i :: 0 <= i < |init| ==> init[i] == fixes[i];
      if Sample(init, gap).Ok? {
        KeptFromInput(init, gap);
        var kept := Sample(init, gap).value;
        if kept != [] {
          assert kept[|kept| - 1] in init;
        }
      }
    }
  }

  /** Fixes already spaced at least `gap` apart are all kept. */
  lemma {:induction false} SampleKeepsSpacedInput(fixes: seq<Fix>, gap: int)
    requires forall i :: 0 <= i < |fixes| ==> Numeric(fixes[i].lat) && Numeric(fixes[i].lon)
    requires Spaced(fixes, gap)
    ensures Sample(fixes, gap) == Ok(fixes)
    decreases |fixes|
  {
    if fixes != [] {
      var init := fixes[..|fixes| - 1];
      SampleKeepsSpacedInput(init, gap);
      assert init + [fixes[|fixes| - 1]] == fixes;
    }
  }

  /**
   * After a successful prefix, a new convertible fix with a datetime is kept
   * exactly when nothing was kept yet or it comes at least `gap` seconds after
   * the last kept fix; the earlier decisions stand either way.
   */
  lemma KeptIff(fixes: seq<Fix>, f: Fix, gap: int)
    requires Sample(fixes, gap).Ok? && Sample(fixes + [f], gap).Ok?
    ensures var before, after := Sample(fixes, gap).value, Sample(fixes + [f], gap).value;
            (after == before + [f] <==> before == [] || f.time.seconds - before[|before| - 1].time.seconds >= gap) &&
            (after != before + [f] ==> after == before)
  {
    assert (fixes + [f])[..|fixes|] == fixes;
  }
}
