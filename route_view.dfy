/** `RouteView`: the check-route banner. The route result is classified as a
    pass, a failure or a repair, and a repair result is shown as "Repair at"
    followed by the station it names. The regular expression
    `/R_([A-Za-z0-9_]+)/` is written out as a left-to-right scan. */
module RouteView {
  import opened Wrappers
  import opened Text
  import opened Json

  const MatchNotAFunction := "TypeError: rawResult.match is not a function"

  /** The characters of the class `[A-Za-z0-9_]`. */
  predicate IsWordChar(c: char) {
    ('A' <= c <= 'Z') || ('a' <= c <= 'z') || ('0' <= c <= '9') || c == '_'
  }

  /** The pattern matches at `i`: "R_" there, followed by at least one word
      character. */
  predicate RepairAt(s: string, i: int) {
    OccursAt(s, "R_", i) && i + 2 < |s| && IsWordChar(s[i + 2])
  }

  /** The scan for the leftmost match at or after `from`. */
  function FindRepair(s: string, from: nat): (r: Option<nat>)
    ensures r.Some? ==> from <= r.value && RepairAt(s, r.value)
    ensures r.Some? ==> forall j :: from <= j < r.value ==> !RepairAt(s, j)
    ensures r.None? ==> forall j :: from <= j ==> !RepairAt(s, j)
    decreases |s| - from
  {
    if from + 2 >= |s| then None
    else if s[from] == 'R' && s[from + 1] == '_' && IsWordChar(s[from + 2]) then Some(from)
    else FindRepair(s, from + 1)
  }

  /** The greedy `+`: the longest run of word characters at the start of `s`. */
  function WordRun(s: string): (r: string)
    ensures |r| <= |s| && r == s[..|r|]
    ensures forall k :: 0 <= k < |r| ==> IsWordChar(r[k])
    ensures |r| < |s| ==> !IsWordChar(s[|r|])
  {
    if |s| > 0 && IsWordChar(s[0]) then [s[0]] + WordRun(s[1..]) else []
  }

  /** `rawResult.match(/R_([A-Za-z0-9_]+)/)?.[1]`: the capture group of the
      leftmost match. */
  function RepairStation(s: string): Option<string> {
    match FindRepair(s, 0)
    case None => None
    case Some(i) => Some(WordRun(s[i + 2..]))
  }

  /** The match is the maximal run of word characters after the first "R_"
      that has one, and there is no match exactly when no "R_" is followed by
      a word character. */
  lemma RepairStationIsFirstMatch(s: string)
    ensures RepairStation(s).None? <==> forall i :: 0 <= i < |s| ==> !RepairAt(s, i)
    ensures RepairStation(s).Some? ==> exists i :: (
        0 <= i < |s| && RepairAt(s, i)
        && (forall j :: 0 <= j < i ==> !RepairAt(s, j))
        && OccursAt(s, RepairStation(s).value, i + 2)
        && RepairStation(s).value != []
        && (i + 2 + |RepairStation(s).value| == |s| || !IsWordChar(s[i + 2 + |RepairStation(s).value|])))
  {
    match FindRepair(s, 0)
    case None =>
    case Some(i) =>
      var run := WordRun(s[i + 2..]);
      assert s[i + 2..][0] == s[i + 2];
      assert s[i + 2..i + 2 + |run|] == run;
  }

  /** The background and border colour of the banner. */
  datatype Colour = Gray | Green | Red | Yellow

  datatype Banner = Banner(display: string, isPass: bool, isFail: bool, isRepair: bool, colour: Colour)

  /** The banner for a result string. */
  function Classify(raw: string): (r: Banner)
    ensures r.isRepair <==> RepairStation(raw).Some?
    ensures r.isRepair ==> r.display == "Repair at " + RepairStation(raw).value
    ensures !r.isRepair ==> r.display == raw
    ensures r.isPass <==> Contains(ToUpper(raw), "PASS") || Contains(ToUpper(raw), "OK")
    ensures r.isFail <==> !r.isPass && !r.isRepair
  {
    var station := RepairStation(raw);
    var display := if station.Some? then "Repair at " + station.value else raw;
    var isRepair := station.Some?;
    var up := ToUpper(raw);
    var isPass := Contains(up, "PASS") || Contains(up, "OK");
    var isFail := !isPass && !isRepair;
    var colour :=
      if isRepair then Yellow
      else if isFail then Red
      else if isPass then Green
      else Gray;
    Banner(display, isPass, isFail, isRepair, colour)
  }

  /** Every result is in at least one state, a failure is neither a pass
      nor a repair, and the colour follows repair over failure over pass, so
      the neutral gray is never shown. */
  lemma BannerStates(raw: string)
    ensures var b := Classify(raw);
      (b.isPass || b.isFail || b.isRepair)
      && (b.isFail ==> !b.isPass && !b.isRepair)
      && (b.colour == Yellow <==> b.isRepair)
      && (b.colour == Red <==> b.isFail)
      && (b.colour == Green <==> b.isPass && !b.isRepair)
      && b.colour != Gray
  {
  }

  /** `data.RESULT || JSON.stringify(data)`: `stringified` is what
      `JSON.stringify(data)` returns, which is always a string for a parsed
      value. A truthy `RESULT` that is not a string has no `match` method. */
  function RawResult(data: Value, stringified: string): (r: Result<string, string>)
    ensures Field(data, "RESULT").Str? && Truthy(Field(data, "RESULT")) ==> r == Ok(Field(data, "RESULT").s)
    ensures !Truthy(Field(data, "RESULT")) ==> r == Ok(stringified)
    ensures r.Err? <==> Truthy(Field(data, "RESULT")) && !Field(data, "RESULT").Str?
  {
    var result := Field(data, "RESULT");
    if !Truthy(result) then Ok(stringified)
    else if result.Str? then Ok(result.s)
    else Err(MatchNotAFunction)
  }

  /** The component: nothing for falsy `data`, the banner otherwise. */
  function Render(data: Value, stringified: string): (r: Result<Option<Banner>, string>)
    ensures !Truthy(data) ==> r == Ok(None)
    ensures Truthy(data) ==> (r.Err? <==> RawResult(data, stringified).Err?)
    ensures Truthy(data) && r.Ok? ==> r.value == Some(Classify(RawResult(data, stringified).value))
  {
    if !Truthy(data) then Ok(None)
    else
      match RawResult(data, stringified)
      case Err(e) => Err(e)
      case Ok(raw) => Ok(Some(Classify(raw)))
  }

  /** A result naming a repair station is shown as a repair even when it
      also reads as a pass. */
  lemma RepairWins(prefix: string, station: string, suffix: string)
    requires station != [] && forall k :: 0 <= k < |station| ==> IsWordChar(station[k])
    requires suffix == [] || !IsWordChar(suffix[0])
    requires forall i :: 0 <= i < |prefix| ==> !RepairAt(prefix + "R_" + station + suffix, i)
    ensures Classify(prefix + "R_" + station + suffix).display == "Repair at " + station
    ensures Classify(prefix + "R_" + station + suffix).colour == Yellow
  {
    var s := prefix + "R_" + station + suffix;
    var i := |prefix|;
    assert s[i..i + 2] == "R_";
    assert s[i + 2] == station[0];
    assert RepairAt(s, i);
    assert FindRepair(s, 0) == Some(i);
    var t := s[i + 2..];
    assert t == station + suffix;
    WordRunOf(station, suffix);
  }

  lemma {:induction false} WordRunOf(run: string, rest: string)
    requires forall k :: 0 <= k < |run| ==> IsWordChar(run[k])
    requires rest == [] || !IsWordChar(rest[0])
    ensures WordRun(run + rest) == run
  {
    if run != [] {
      assert (run + rest)[0] == run[0];
      assert (run + rest)[1..] == run[1..] + rest;
      WordRunOf(run[1..], rest);
    }
  }
}
