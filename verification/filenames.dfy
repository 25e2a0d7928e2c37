/**
 * Ride file names: `Day_<d>[_Part_<p>].fit`.
 *
 * The regular expressions of the scripts are modelled by scanning functions:
 * `re.match(r"Day_(\d+)(?:_Part_(\d+))?\.fit$", base, re.IGNORECASE)` is
 * MatchDayPart with the DotFit tail, and `re.search(r'Day_(\d+)', name)` is
 * DaySearch. `$` also matches just before a final newline, as in Python.
 */
module FileNames {
  import opened Wrappers
  import opened Text
  import opened Sorting

  /** The groups of a successful `Day_(\d+)(?:_Part_(\d+))?` match. */
  datatype NameMatch = NameMatch(day: string, part: Option<string>)

  /** What must follow the day (and part) for the whole name to match. */
  datatype Tail =
    | DotFit          // `\.fit$`: a dot, then `fit`
    | BackslashFit    // `\\.fit$`: a backslash, any character but a newline, then `fit`

  predicate StartsWithIgnoreCase(s: string, prefix: string) {
    |prefix| <= |s| && EqualsIgnoreCase(s[..|prefix|], prefix)
  }

  /** The rest of the name after the groups, up to the end or to a final newline (`$`). */
  predicate AtEnd(t: string) {
    t == [] || t == "\n"
  }

  predicate TailMatches(t: string, tail: Tail) {
    match tail
    case DotFit => |t| >= 4 && EqualsIgnoreCase(t[..4], ".fit") && AtEnd(t[4..])
    case BackslashFit =>
      |t| >= 5 && t[0] == '\\' && t[1] != '\n' && EqualsIgnoreCase(t[2..5], "fit") && AtEnd(t[5..])
  }

  /**
   * `re.match("Day_(\d+)(?:_Part_(\d+))?" + tail, base, re.IGNORECASE)`: the
   * optional part group is tried first and skipped only when the name does
   * not match with it.
   */
  function MatchDayPart(base: string, tail: Tail): Option<NameMatch> {
    if !StartsWithIgnoreCase(base, "Day_") then None
    else
      var r := base[4..];
      var n := DigitSpan(r);
      if n == 0 then None
      else
        var day, rest := r[..n], r[n..];
        var withPart :=
          if StartsWithIgnoreCase(rest, "_Part_") && DigitSpan(rest[6..]) > 0
             && TailMatches(rest[6..][DigitSpan(rest[6..])..], tail)
          then Some(NameMatch(day, Some(rest[6..][..DigitSpan(rest[6..])])))
          else None;
        if withPart.Some? then withPart
        else if TailMatches(rest, tail) then Some(NameMatch(day, None))
        else None
  }

  /** `extract_order_key(base)`: `(day, part)` with part 0 when absent, or `(inf, inf)`. */
  function OrderKey(base: string): Key {
    match MatchDayPart(base, DotFit)
    case None => Infinite
    case Some(m) => Finite(DigitsValue(m.day), if m.part.Some? then DigitsValue(m.part.value) else 0)
  }

  /** `re.search(r'Day_(\d+)', s).group(1)`: the digits after the leftmost `Day_` that has any. */
  function DaySearch(s: string): (r: Option<string>)
    ensures r.Some? ==> r.value != [] && AllDigits(r.value)
    decreases |s|
  {
    if |s| < 4 then None
    else if s[..4] == "Day_" && DigitSpan(s[4..]) > 0 then Some(s[4..][..DigitSpan(s[4..])])
    else DaySearch(s[1..])
  }

  /** `extract_day_number(name)`, as a key: `day` orders like `(day, 0)`, and `inf` stays last. */
  function DayKey(name: string): Key {
    match DaySearch(name)
    case None => Infinite
    case Some(d) => Finite(DigitsValue(d), 0)
  }

  /** `[f for f in names if f.endswith('.fit')]`: only lower-case `.fit` names are kept. */
  function FitNames(names: seq<string>): (r: seq<string>)
    ensures forall i :: 0 <= i < |r| ==> EndsWith(r[i], ".fit")
    ensures forall x :: multiset(r)[x] == if EndsWith(x, ".fit") then multiset(names)[x] else 0
  {
    if names == [] then []
    else
      var init, last := names[..|names| - 1], names[|names| - 1];
      assert names == init + [last];
      FitNames(init) + (if EndsWith(last, ".fit") then [last] else [])
  }

  function OrderKeyOf(name: string): Key {
    OrderKey(name)
  }

  /** `fit_files_in_order`: the `.fit` names of the listing, stably sorted by their order key. */
  function FitFilesInOrder(listing: seq<string>): seq<string> {
    SortByKey(FitNames(listing), OrderKeyOf)
  }

  // ---------------------------------------------------------------------------
  // Properties

  lemma {:induction false} DigitSpanOfDigits(s: string, t: string)
    requires AllDigits(s)
    requires t == [] || !IsDigit(t[0])
    ensures DigitSpan(s + t) == |s|
    decreases |s|
  {
    if s != [] {
      assert (s + t)[1..] == s[1..] + t;
      DigitSpanOfDigits(s[1..], t);
    }
  }

  lemma {:induction false} FitTail(t: string)
    requires t == ".fit" || t == ".FIT" || t == ".fit\n"
    ensures TailMatches(t, DotFit)
  {
    assert t[..4] == ".fit" || t[..4] == ".FIT";
  }

  /** A name `Day_<digits><tail>` with no part group matches with that day. */
  lemma MatchWithoutPart(ds: string, t: string, tail: Tail)
    requires ds != [] && AllDigits(ds)
    requires TailMatches(t, tail) && t[0] != '_'
    ensures MatchDayPart("Day_" + ds + t, tail) == Some(NameMatch(ds, None))
  {
    var s := "Day_" + ds + t;
    assert s == "Day_" + (ds + t);
    StartsWithItself("Day_", ds + t);
    assert s[4..] == ds + t;
    DigitSpanOfDigits(ds, t);
    assert (ds + t)[..|ds|] == ds && (ds + t)[|ds|..] == t;
    NoPartGroup(t);
    MatchWithoutPartFound(s, ds, t, tail);
  }

  /** A rest that does not start with `_` has no part group. */
  lemma NoPartGroup(t: string)
    requires t != [] && t[0] != '_'
    ensures !StartsWithIgnoreCase(t, "_Part_")
  {
    assert LowerChar(t[0]) != LowerChar("_Part_"[0]);
    assert |t| >= 6 ==> t[..6][0] == t[0];
  }

  /** How the pattern reads a name once its day digits and tail are located and no part group follows. */
  lemma MatchWithoutPartFound(s: string, ds: string, t: string, tail: Tail)
    requires StartsWithIgnoreCase(s, "Day_") && |s| >= 4 && s[4..] == ds + t
    requires ds != [] && DigitSpan(ds + t) == |ds| && (ds + t)[..|ds|] == ds && (ds + t)[|ds|..] == t
    requires !StartsWithIgnoreCase(t, "_Part_") && TailMatches(t, tail)
    ensures MatchDayPart(s, tail) == Some(NameMatch(ds, None))
  {
  }

  lemma StartsWithItself(p: string, t: string)
    ensures StartsWithIgnoreCase(p + t, p)
  {
    assert (p + t)[..|p|] == p;
  }

  /** The pieces the part group finds in `_Part_<digits><tail>`. */
  lemma PartGroup(ps: string, t: string)
    requires ps != [] && AllDigits(ps) && t != [] && !IsDigit(t[0])
    ensures var rest := "_Part_" + ps + t;
            StartsWithIgnoreCase(rest, "_Part_") && rest[6..] == ps + t &&
            DigitSpan(rest[6..]) == |ps| && rest[6..][..|ps|] == ps && rest[6..][|ps|..] == t
  {
    StartsWithItself("_Part_", ps + t);
    assert "_Part_" + ps + t == "_Part_" + (ps + t);
    DigitSpanOfDigits(ps, t);
    assert (ps + t)[..|ps|] == ps && (ps + t)[|ps|..] == t;
  }

  /** A name `Day_<digits>_Part_<digits><tail>` matches with that day and part. */
  lemma MatchWithPart(ds: string, ps: string, t: string, tail: Tail)
    requires ds != [] && AllDigits(ds) && ps != [] && AllDigits(ps)
    requires TailMatches(t, tail) && !IsDigit(t[0])
    ensures MatchDayPart("Day_" + ds + "_Part_" + ps + t, tail) == Some(NameMatch(ds, Some(ps)))
  {
    var rest := "_Part_" + ps + t;
    var s := "Day_" + ds + "_Part_" + ps + t;
    assert s == "Day_" + (ds + rest);
    StartsWithItself("Day_", ds + rest);
    assert s[4..] == ds + rest;
    DigitSpanOfDigits(ds, rest);
    assert (ds + rest)[..|ds|] == ds && (ds + rest)[|ds|..] == rest;
    PartGroup(ps, t);
    MatchWithPartFound(s, ds, rest, ps, t, tail);
  }

  /** How the pattern reads a name once its day digits, part digits and tail are located. */
  lemma MatchWithPartFound(s: string, ds: string, rest: string, ps: string, t: string, tail: Tail)
    requires StartsWithIgnoreCase(s, "Day_") && |s| >= 4 && s[4..] == ds + rest
    requires ds != [] && DigitSpan(ds + rest) == |ds| && (ds + rest)[..|ds|] == ds && (ds + rest)[|ds|..] == rest
    requires StartsWithIgnoreCase(rest, "_Part_") && |rest| >= 6 && ps != []
    requires DigitSpan(rest[6..]) == |ps| && rest[6..][..|ps|] == ps && rest[6..][|ps|..] == t && TailMatches(t, tail)
    ensures MatchDayPart(s, tail) == Some(NameMatch(ds, Some(ps)))
  {
  }

  /** The canonical names get the key they spell: `Day_<d>.fit` is `(d, 0)` and `Day_<d>_Part_<p>.fit` is `(d, p)`. */
  lemma CanonicalOrderKey(d: nat, p: nat, ext: string)
    requires ext == ".fit" || ext == ".FIT" || ext == ".fit\n"
    ensures OrderKey("Day_" + NatToString(d) + ext) == Finite(d, 0)
    ensures OrderKey("Day_" + NatToString(d) + "_Part_" + NatToString(p) + ext) == Finite(d, p)
  {
    FitTail(ext);
    MatchWithoutPart(NatToString(d), ext, DotFit);
    MatchWithPart(NatToString(d), NatToString(p), ext, DotFit);
  }

  /** Every name that does not start with `Day_` (in any case) is keyed `(inf, inf)` and so sorts after every ride file. */
  lemma UnmatchedLast(listing: seq<string>, i: nat, j: nat)
    requires var fs := FitFilesInOrder(listing); i < j < |fs|
    requires OrderKey(FitFilesInOrder(listing)[i]) == Infinite
    ensures OrderKey(FitFilesInOrder(listing)[j]) == Infinite
  {
    SortSorts(FitNames(listing), OrderKeyOf);
    var fs := FitFilesInOrder(listing);
    assert !Below(OrderKeyOf(fs[j]), OrderKeyOf(fs[i]));
  }

  /** The ordered list holds exactly the `.fit` names of the listing, each as often as listed. */
  lemma OrderedFilesArePermutation(listing: seq<string>)
    ensures multiset(FitFilesInOrder(listing)) == multiset(FitNames(listing))
    ensures forall i :: 0 <= i < |FitFilesInOrder(listing)| ==> EndsWith(FitFilesInOrder(listing)[i], ".fit")
  {
    SortPermutes(FitNames(listing), OrderKeyOf);
    var fs := FitFilesInOrder(listing);
    forall i | 0 <= i < |fs|
      ensures EndsWith(fs[i], ".fit")
    {
      assert fs[i] in multiset(FitNames(listing));
    }
  }

  /** The key accepts an upper-case `.FIT` (the pattern ignores case). */
  lemma UpperCaseFitKeyed()
    ensures OrderKey("Day_1.FIT") == Finite(1, 0)
  {
    FitTail(".FIT");
    MatchWithoutPart("1", ".FIT", DotFit);
    assert "Day_" + "1" + ".FIT" == "Day_1.FIT";
    assert DigitsValue("1") == 1;
  }

  /** ... but such a file is dropped by the case-sensitive `.fit` filter before it is keyed. */
  lemma UpperCaseFitDropped()
    ensures FitFilesInOrder(["Day_1.FIT"]) == []
  {
    assert !EndsWith("Day_1.FIT", ".fit");
    assert FitNames(["Day_1.FIT"]) == [];
  }

  /** `extract_day_number` of a name that starts with `Day_<d>`. */
  lemma {:induction false} CanonicalDayKey(d: nat, rest: string)
    requires rest == [] || !IsDigit(rest[0])
    ensures DayKey("Day_" + NatToString(d) + rest) == Finite(d, 0)
  {
    var ds := NatToString(d);
    var s := "Day_" + ds + rest;
    assert s[..4] == "Day_" && s[4..] == ds + rest;
    DigitSpanOfDigits(ds, rest);
    assert (ds + rest)[..|ds|] == ds;
  }

  /** The label regex as written (`\\.fit$` in a raw string) never matches a name without a backslash. */
  lemma {:induction false} AsWrittenNeedsBackslash(base: string)
    requires forall i :: 0 <= i < |base| ==> base[i] != '\\'
    ensures MatchDayPart(base, BackslashFit) == None
  {
    if StartsWithIgnoreCase(base, "Day_") {
      var r := base[4..];
      var n := DigitSpan(r);
      if n > 0 {
        var rest := r[n..];
        assert forall i :: 0 <= i < |rest| ==> rest[i] == base[4 + n + i];
        if StartsWithIgnoreCase(rest, "_Part_") && DigitSpan(rest[6..]) > 0 {
          var r2 := rest[6..];
          var t := r2[DigitSpan(r2)..];
          assert t == [] || t[0] == base[4 + n + 6 + DigitSpan(r2)];
        }
      }
    }
  }

  /** The label regex as written misses `Day_01.fit`; the intended `\.fit$` matches it with day "01" and no part. */
  lemma LabelRegexFinding()
    ensures MatchDayPart("Day_01.fit", BackslashFit) == None
    ensures MatchDayPart("Day_01.fit", DotFit) == Some(NameMatch("01", None))
  {
    AsWrittenNeedsBackslash("Day_01.fit");
    IntendedLabelMatch();
  }

  lemma IntendedLabelMatch()
    ensures MatchDayPart("Day_01.fit", DotFit) == Some(NameMatch("01", None))
  {
    FitTail(".fit");
    MatchWithoutPart("01", ".fit", DotFit);
    assert "Day_" + "01" + ".fit" == "Day_01.fit";
  }
}
