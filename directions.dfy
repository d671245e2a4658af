/**
  `DirectionsHelper`: walking directions from Google, with the Open Route
  Service route reader beside it. Responses are given as parsed values; `_`,
  the translation function, is given as the two words it is asked for.
*/
module Directions {
  import opened Wrappers
  import opened Text
  import Geocoding

  type Point = Geocoding.Point

  /** `OrsDirectionsApiError`, `GoogleDirectionsApiError`, or anything else that
      escapes (a body that is not JSON, a route without legs or steps, a request
      that could not be sent). */
  datatype DirectionsError =
    | OrsDirectionsApiError(message: string)
    | GoogleDirectionsApiError(message: string)
    | OtherError(message: string)

  datatype Outcome<+T> = Ok(value: T) | Raised(error: DirectionsError)

  /** The `Directions` named tuple. */
  datatype Directions = Directions(walkTime: Option<string>, walkDist: string, route: seq<Point>)

  /** The words `_('minute')` and `_('miles')` translate to. */
  datatype Words = Words(minute: string, miles: string)

  // ---------------------------------------------------------------------------
  // Google

  /** A step: its `start_location` and `end_location` as (lng, lat). */
  datatype Step = Step(start: Point, end: Point)

  /** A leg: its steps and the `text` of its `duration` and `distance`. */
  datatype Leg = Leg(steps: seq<Step>, durationText: string, distanceText: string)

  datatype GoogleJson = GoogleJson(status: string, routes: seq<seq<Leg>>)

  datatype GoogleResponse = GoogleResponse(status: nat, json: Option<GoogleJson>) | GoogleRequestFailed

  /** The route drawn on the map: every step's start, then the last step's end. */
  function RoutePoints(steps: seq<Step>): (route: seq<Point>)
    ensures steps == [] ==> route == []
    ensures steps != [] ==> |route| == |steps| + 1 && route[|steps|] == steps[|steps| - 1].end
    ensures forall i :: 0 <= i < |steps| ==> route[i] == steps[i].start
  {
    var starts := seq(|steps|, i requires 0 <= i < |steps| => steps[i].start);
    var ends := seq(|steps|, i requires 0 <= i < |steps| => steps[i].end);
    starts + (if ends == [] then [] else [ends[|ends| - 1]])
  }

  const GoogleErrorPrefix := "Google Directions API error: "

  /** `get_google_route` on the response of the directions request. */
  function GetGoogleRoute(response: GoogleResponse, words: Words): (r: Outcome<Directions>)
    ensures response.GoogleResponse? && response.status != 200 ==>
      r == Raised(GoogleDirectionsApiError(GoogleErrorPrefix + "HTTP status code " + DecimalString(response.status)))
    ensures r.Raised? && r.error.GoogleDirectionsApiError? ==>
      response.GoogleResponse? && (response.status != 200 || (response.json.Some? && response.json.value.status != "OK"))
    ensures r.Ok? ==>
      && response.GoogleResponse? && response.status == 200 && response.json.Some?
      && response.json.value.status == "OK"
      && response.json.value.routes != [] && response.json.value.routes[0] != []
      && var leg := response.json.value.routes[0][0];
         r.value == Directions(Some(ReplaceAll(leg.durationText, "mins", words.minute)),
                               ReplaceAll(leg.distanceText, "mi", words.miles),
                               RoutePoints(leg.steps))
  {
    match response
    case GoogleRequestFailed => Raised(OtherError("ConnectionError"))
    case GoogleResponse(status, json) =>
      if status != 200 then
        Raised(GoogleDirectionsApiError(GoogleErrorPrefix + "HTTP status code " + DecimalString(status)))
      else if json.None? then Raised(OtherError("ValueError"))
      else if json.value.status != "OK" then Raised(GoogleDirectionsApiError(GoogleErrorPrefix + json.value.status))
      else if json.value.routes == [] || json.value.routes[0] == [] then Raised(OtherError("IndexError"))
      else
        var leg := json.value.routes[0][0];
        Ok(Directions(Some(ReplaceAll(leg.durationText, "mins", words.minute)),
                      ReplaceAll(leg.distanceText, "mi", words.miles),
                      RoutePoints(leg.steps)))
  }

  /** `get_directions`: Google's route, `None` when Google reports an error; any
      other exception passes through. The Open Route Service fallback is written
      after the `return None` and never runs. */
  function GetDirections(google: GoogleResponse, words: Words): (r: Outcome<Option<Directions>>)
    ensures r.Ok? && r.value.Some? <==> GetGoogleRoute(google, words).Ok?
    ensures r.Ok? && r.value.Some? ==> r.value.value == GetGoogleRoute(google, words).value
    ensures r == Ok(None) <==> GetGoogleRoute(google, words).Raised? && GetGoogleRoute(google, words).error.GoogleDirectionsApiError?
    ensures r.Raised? ==> r.error.OtherError? && r == Raised(GetGoogleRoute(google, words).error)
  {
    match GetGoogleRoute(google, words)
    case Ok(directions) => Ok(Some(directions))
    case Raised(e) => if e.GoogleDirectionsApiError? then Ok(None) else Raised(e)
  }

  /** A rejected directions request and a status other than `OK` both leave the page without directions. */
  lemma GoogleErrorsGiveNoDirections(status: nat, json: Option<GoogleJson>, words: Words)
    ensures status != 200 ==> GetDirections(GoogleResponse(status, json), words) == Ok(None)
    ensures status == 200 && json.Some? && json.value.status != "OK" ==>
      GetDirections(GoogleResponse(status, json), words) == Ok(None)
  {
  }

  // ---------------------------------------------------------------------------
  // Open Route Service

  /** The length of the longest prefix of `s` made of digits. */
  function DigitPrefix(s: string): (n: nat)
    ensures n <= |s| && AllDigits(s[..n])
    ensures n < |s| ==> !IsDigit(s[n])
  {
    if s == [] || !IsDigit(s[0]) then 0
    else
      var n := 1 + DigitPrefix(s[1..]);
      assert s[..n] == [s[0]] + s[1..][..n - 1];
      n
  }

  lemma {:induction false} DigitPrefixOf(digits: string, rest: string)
    requires AllDigits(digits)
    requires rest == [] || !IsDigit(rest[0])
    ensures DigitPrefix(digits + rest) == |digits|
  {
    if digits != [] {
      assert (digits + rest)[1..] == digits[1..] + rest;
      DigitPrefixOf(digits[1..], rest);
    } else {
      assert digits + rest == rest;
    }
  }

  /** `re.compile("PT([0-9]+)M([0-9]+)S").match(text)`: group 1 when the text
      starts with a match. Nothing anchors the end, so any text may follow. */
  function MatchOrsTime(text: string): (r: Option<string>)
    ensures r.Some? ==>
      && "PT" <= text && r.value != [] && AllDigits(r.value)
      && 2 + |r.value| < |text| && text[2..2 + |r.value|] == r.value && text[2 + |r.value|] == 'M'
  {
    if |text| < 2 || text[..2] != "PT" then None
    else
      var afterPt := text[2..];
      var m := DigitPrefix(afterPt);
      if m == 0 || m == |afterPt| || afterPt[m] != 'M' then None
      else
        var afterM := afterPt[m + 1..];
        var s := DigitPrefix(afterM);
        if s == 0 || s == |afterM| || afterM[s] != 'S' then None
        else Some(afterPt[..m])
  }

  /** `PT`, the minutes, `M`, the seconds, `S`, then the rest of the text. */
  function OrsTimeText(minutes: string, seconds: string, tail: string): string
  {
    "PT" + (minutes + ("M" + (seconds + ("S" + tail))))
  }

  /** The text has the shape the pattern describes, with `minutes` as group 1. */
  ghost predicate OrsTimeShape(text: string, minutes: string)
  {
    exists seconds: string, tail: string ::
      && minutes != [] && AllDigits(minutes)
      && seconds != [] && AllDigits(seconds)
      && text == OrsTimeText(minutes, seconds, tail)
  }

  lemma MatchOfShape(minutes: string, seconds: string, tail: string)
    requires minutes != [] && AllDigits(minutes) && seconds != [] && AllDigits(seconds)
    ensures MatchOrsTime(OrsTimeText(minutes, seconds, tail)) == Some(minutes)
  {
    var afterS := "S" + tail;
    var afterM := seconds + afterS;
    var m := "M" + afterM;
    var afterPt := minutes + m;
    var text := "PT" + afterPt;
    assert text[..2] == "PT" && text[2..] == afterPt;
    DigitPrefixOf(minutes, m);
    assert afterPt[|minutes|] == 'M';
    assert afterPt[|minutes| + 1..] == afterM;
    assert afterPt[..|minutes|] == minutes;
    DigitPrefixOf(seconds, afterS);
    assert afterM[|seconds|] == 'S';
  }

  /** The text after `PT`, cut at its `M` and at the `S` that follows, put back together. */
  lemma Reassemble(afterPt: string, m: nat, s: nat)
    requires m < |afterPt| && afterPt[m] == 'M'
    requires s < |afterPt[m + 1..]| && afterPt[m + 1..][s] == 'S'
    ensures afterPt == afterPt[..m] + ("M" + (afterPt[m + 1..][..s] + ("S" + afterPt[m + 1..][s + 1..])))
  {
    var afterM := afterPt[m + 1..];
    assert afterM == afterM[..s] + ("S" + afterM[s + 1..]);
    assert afterPt == afterPt[..m] + ("M" + afterM);
  }

  /** A text cut after `PT` at the end of a digit run and its `M`, then at the
      end of a second digit run and its `S`, has the shape. */
  lemma ShapeOfParts(text: string, m: nat, s: nat)
    requires |text| >= 2 && text[..2] == "PT"
    requires 0 < m < |text[2..]| && AllDigits(text[2..][..m]) && text[2..][m] == 'M'
    requires 0 < s < |text[2..][m + 1..]| && AllDigits(text[2..][m + 1..][..s]) && text[2..][m + 1..][s] == 'S'
    ensures OrsTimeShape(text, text[2..][..m])
  {
    var afterPt := text[2..];
    var afterM := afterPt[m + 1..];
    Reassemble(afterPt, m, s);
    assert text == "PT" + afterPt by {
      assert text == text[..2] + text[2..];
    }
    var minutes, seconds, tail := afterPt[..m], afterM[..s], afterM[s + 1..];
    assert text == OrsTimeText(minutes, seconds, tail);
  }

  lemma ShapeOfMatch(text: string)
    requires MatchOrsTime(text).Some?
    ensures OrsTimeShape(text, MatchOrsTime(text).value)
  {
    var afterPt := text[2..];
    var m := DigitPrefix(afterPt);
    var s := DigitPrefix(afterPt[m + 1..]);
    ShapeOfParts(text, m, s);
  }

  /** The match succeeds with group 1 equal to `minutes` exactly when the text is
      `PT`, the minutes, `M`, some seconds, `S`, and anything after. */
  lemma OrsTimeMatches(text: string, minutes: string)
    ensures MatchOrsTime(text) == Some(minutes) <==> OrsTimeShape(text, minutes)
  {
    if MatchOrsTime(text) == Some(minutes) {
      ShapeOfMatch(text);
    }
    if OrsTimeShape(text, minutes) {
      var seconds, tail :| && minutes != [] && AllDigits(minutes)
        && seconds != [] && AllDigits(seconds)
        && text == OrsTimeText(minutes, seconds, tail);
      MatchOfShape(minutes, seconds, tail);
    }
  }

  /** `walk_time` of an ORS route: the minutes and the word for "minute"; the seconds are dropped. */
  function OrsWalkTime(text: string, words: Words): (w: Option<string>)
    ensures w.Some? <==> exists minutes :: OrsTimeShape(text, minutes)
    ensures forall minutes :: OrsTimeShape(text, minutes) ==> w == Some(minutes + " " + words.minute)
  {
    ShapeDeterminesMatch(text);
    match MatchOrsTime(text)
    case Some(minutes) =>
      ShapeOfMatch(text);
      Some(minutes + " " + words.minute)
    case None => None
  }

  /** Any shape the text has fixes what the pattern matches. */
  lemma ShapeDeterminesMatch(text: string)
    ensures forall minutes :: OrsTimeShape(text, minutes) ==> MatchOrsTime(text) == Some(minutes)
  {
    forall minutes | OrsTimeShape(text, minutes) ensures MatchOrsTime(text) == Some(minutes) {
      OrsTimeMatches(text, minutes);
    }
  }

  lemma OrsWalkTimeDropsSeconds(minutes: string, seconds: string, tail: string, words: Words)
    requires minutes != [] && AllDigits(minutes) && seconds != [] && AllDigits(seconds)
    ensures OrsWalkTime(OrsTimeText(minutes, seconds, tail), words) == Some(minutes + " " + words.minute)
  {
    MatchOfShape(minutes, seconds, tail);
  }

  /** Without the `PT` start there is no walk time, whatever follows. */
  lemma OrsWalkTimeNeedsPrefix(text: string, words: Words)
    requires !("PT" <= text)
    ensures OrsWalkTime(text, words) == None
  {
  }

  /** The route summary the XPath queries select: the `TotalDistance` value, the
      `TotalTime` text and the points of the route geometry. */
  datatype OrsSummary = OrsSummary(totalDistance: string, totalTime: string, positions: seq<Point>)

  datatype OrsResponse = OrsResponse(status: nat, summary: OrsSummary)

  /** `get_ors_route` */
  function GetOrsRoute(response: OrsResponse, words: Words): (r: Outcome<Directions>)
    ensures response.status != 200 <==> r.Raised?
    ensures r.Raised? ==> r.error == OrsDirectionsApiError("Open Route Service API error: HTTP status code " + DecimalString(response.status))
    ensures r.Ok? ==>
      && r.value.walkDist == response.summary.totalDistance + " " + words.miles
      && r.value.route == response.summary.positions
      && (r.value.walkTime.Some? <==> MatchOrsTime(response.summary.totalTime).Some?)
      && r.value.walkTime == OrsWalkTime(response.summary.totalTime, words)
  {
    if response.status != 200 then
      Raised(OrsDirectionsApiError("Open Route Service API error: HTTP status code " + DecimalString(response.status)))
    else
      Ok(Directions(OrsWalkTime(response.summary.totalTime, words),
                    response.summary.totalDistance + " " + words.miles,
                    response.summary.positions))
  }
}
