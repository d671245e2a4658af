/**
  The module-level `geocode` and `geocode_point_only`: try AddressBase, then
  MapIt, and let the kind of exception decide whether to re-raise or move on.
  The loops are proved against `Fallback`, the outcome of the first attempt that
  is not skipped, computed over the outcomes every geocoder would give.
*/
module GeocodeChain {
  import opened Postcodes
  import opened Geocoding

  /** `(AddressBaseGeocoder(postcode), MapitGeocoder(postcode))`: each constructor
      stores its own `format_postcode` of the input (MapIt keeps it as it is). */
  function ChainGeocoders(postcode: string): seq<Geocoder>
  {
    [AddressBaseGeocoder(FormatPostcode(postcode)), MapitGeocoder(postcode)]
  }

  /** The outcome each geocoder of the chain would give, in order. */
  function Outcomes(postcode: string, stores: Stores, pointOnly: bool): seq<Result<GeocodeResult>>
  {
    OutcomesOf(ChainGeocoders(postcode), stores, pointOnly)
  }

  /** The outcome each of `geocoders` would give, in order. */
  function OutcomesOf(geocoders: seq<Geocoder>, stores: Stores, pointOnly: bool): (os: seq<Result<GeocodeResult>>)
    ensures |os| == |geocoders|
  {
    seq(|geocoders|, i requires 0 <= i < |geocoders| => RunOutcome(geocoders[i], stores, pointOnly))
  }

  const ExhaustedMessage := "Could not geocode from any source"

  /** Whether the `except` clauses move on to the next source. `geocode` re-raises
      `MultipleCouncilsException` and `PostcodeError`; `geocode_point_only`
      re-raises `PostcodeError` only. `ObjectDoesNotExist` and
      `CodesNotFoundException` have their own clause, and the bare `except:`
      takes everything else, `RateLimitError` included. */
  predicate SkipsSource(kind: ExceptionKind, pointOnly: bool)
  {
    if pointOnly then
      match kind
      case ObjectDoesNotExist => true
      case PostcodeError => false
      case _ => true
    else
      match kind
      case ObjectDoesNotExist => true
      case CodesNotFoundException => true
      case MultipleCouncilsException => false
      case PostcodeError => false
      case _ => true
  }

  predicate Skipped(outcome: Result<GeocodeResult>, pointOnly: bool)
  {
    outcome.Raised? && SkipsSource(outcome.exception.kind, pointOnly)
  }

  /** The index of the first outcome that ends the loop: a result, or an exception that is re-raised. */
  function FirstDecisive(outcomes: seq<Result<GeocodeResult>>, pointOnly: bool): (k: nat)
    ensures k <= |outcomes|
    ensures forall j :: 0 <= j < k ==> Skipped(outcomes[j], pointOnly)
    ensures k < |outcomes| ==> !Skipped(outcomes[k], pointOnly)
  {
    if outcomes == [] then 0
    else if !Skipped(outcomes[0], pointOnly) then 0
    else 1 + FirstDecisive(outcomes[1..], pointOnly)
  }

  /** What the loop returns or raises. */
  function Fallback(outcomes: seq<Result<GeocodeResult>>, pointOnly: bool): Result<GeocodeResult>
  {
    var k := FirstDecisive(outcomes, pointOnly);
    if k < |outcomes| then outcomes[k] else Raised(Exception(PostcodeError, ExhaustedMessage))
  }

  /** How many geocoders the loop runs. */
  function Attempts(outcomes: seq<Result<GeocodeResult>>, pointOnly: bool): nat
  {
    var k := FirstDecisive(outcomes, pointOnly);
    if k < |outcomes| then k + 1 else |outcomes|
  }

  /** `geocode(postcode)`; `attempts` counts the geocoders that were run. */
  method Geocode(postcode: string, stores: Stores) returns (r: Result<GeocodeResult>, ghost attempts: nat)
    ensures r == Fallback(Outcomes(postcode, stores, false), false)
    ensures attempts == Attempts(Outcomes(postcode, stores, false), false)
  {
    r, attempts := TryInTurn(ChainGeocoders(postcode), stores);
  }

  /** The loop of `geocode` over its geocoders. */
  method TryInTurn(geocoders: seq<Geocoder>, stores: Stores) returns (r: Result<GeocodeResult>, ghost attempts: nat)
    ensures r == Fallback(OutcomesOf(geocoders, stores, false), false)
    ensures attempts == Attempts(OutcomesOf(geocoders, stores, false), false)
  {
    ghost var outcomes := OutcomesOf(geocoders, stores, false);
    attempts := 0;
    var i := 0;
    while i < |geocoders|
      invariant 0 <= i <= |geocoders| && attempts == i
      invariant forall j :: 0 <= j < i ==> Skipped(outcomes[j], false)
    {
      r := Run(geocoders[i], stores, false);
      assert r == outcomes[i];
      attempts := attempts + 1;
      if r.Ok? {
        DecidedAt(outcomes, false, i);
        return;
      }
      match r.exception.kind {
        case ObjectDoesNotExist =>
        case CodesNotFoundException =>
        case MultipleCouncilsException =>
          DecidedAt(outcomes, false, i);
          return;
        case PostcodeError =>
          DecidedAt(outcomes, false, i);
          return;
        case _ =>
      }
      assert Skipped(r, false);
      i := i + 1;
    }
    FallbackExhausted(outcomes, false);
    r := Raised(Exception(PostcodeError, ExhaustedMessage));
  }

  /** `geocode_point_only(postcode, sleep)`; `sleeps` counts the `time.sleep(1.3)` calls. */
  method GeocodePointOnly(postcode: string, stores: Stores, sleep: bool)
    returns (r: Result<GeocodeResult>, ghost sleeps: nat, ghost attempts: nat)
    ensures r == Fallback(Outcomes(postcode, stores, true), true)
    ensures attempts == Attempts(Outcomes(postcode, stores, true), true)
    ensures sleeps == if sleep then FirstDecisive(Outcomes(postcode, stores, true), true) else 0
  {
    r, sleeps, attempts := TryPointsInTurn(ChainGeocoders(postcode), stores, sleep);
  }

  /** The loop of `geocode_point_only` over its geocoders. */
  method TryPointsInTurn(geocoders: seq<Geocoder>, stores: Stores, sleep: bool)
    returns (r: Result<GeocodeResult>, ghost sleeps: nat, ghost attempts: nat)
    ensures r == Fallback(OutcomesOf(geocoders, stores, true), true)
    ensures attempts == Attempts(OutcomesOf(geocoders, stores, true), true)
    ensures sleeps == if sleep then FirstDecisive(OutcomesOf(geocoders, stores, true), true) else 0
  {
    ghost var outcomes := OutcomesOf(geocoders, stores, true);
    sleeps, attempts := 0, 0;
    var i := 0;
    while i < |geocoders|
      invariant 0 <= i <= |geocoders| && attempts == i
      invariant sleeps == if sleep then i else 0
      invariant forall j :: 0 <= j < i ==> Skipped(outcomes[j], true)
    {
      r := Run(geocoders[i], stores, true);
      assert r == outcomes[i];
      attempts := attempts + 1;
      if r.Ok? {
        DecidedAt(outcomes, true, i);
        return;
      }
      var kind := r.exception.kind;
      if kind == ObjectDoesNotExist {
        if sleep {
          sleeps := sleeps + 1;
        }
      } else if kind == PostcodeError {
        DecidedAt(outcomes, true, i);
        return;
      } else {
        if sleep {
          sleeps := sleeps + 1;
        }
      }
      i := i + 1;
    }
    FallbackExhausted(outcomes, true);
    r := Raised(Exception(PostcodeError, ExhaustedMessage));
  }

  /** The first outcome that is not skipped is the decisive one. */
  lemma {:induction false} FirstDecisiveAt(outcomes: seq<Result<GeocodeResult>>, pointOnly: bool, i: nat)
    requires i <= |outcomes|
    requires forall j :: 0 <= j < i ==> Skipped(outcomes[j], pointOnly)
    requires i < |outcomes| ==> !Skipped(outcomes[i], pointOnly)
    ensures FirstDecisive(outcomes, pointOnly) == i
  {
    if i > 0 {
      assert Skipped(outcomes[0], pointOnly);
      FirstDecisiveAt(outcomes[1..], pointOnly, i - 1);
    }
  }

  /** The loop stops at the first outcome it does not skip, after running that many geocoders. */
  lemma DecidedAt(outcomes: seq<Result<GeocodeResult>>, pointOnly: bool, i: nat)
    requires i < |outcomes| && !Skipped(outcomes[i], pointOnly)
    requires forall j :: 0 <= j < i ==> Skipped(outcomes[j], pointOnly)
    ensures FirstDecisive(outcomes, pointOnly) == i
    ensures Fallback(outcomes, pointOnly) == outcomes[i]
    ensures Attempts(outcomes, pointOnly) == i + 1
  {
    FirstDecisiveAt(outcomes, pointOnly, i);
  }

  // ---------------------------------------------------------------------------
  // What the chain promises

  /** The chain returns a result exactly when some source succeeds after every
      earlier one was skipped, and then it returns that result unchanged. */
  lemma FallbackReturnsFirstSuccess(outcomes: seq<Result<GeocodeResult>>, pointOnly: bool, g: GeocodeResult)
    ensures Fallback(outcomes, pointOnly) == Ok(g) <==>
      exists i :: 0 <= i < |outcomes| && outcomes[i] == Ok(g)
        && forall j :: 0 <= j < i ==> Skipped(outcomes[j], pointOnly)
  {
    if exists i :: 0 <= i < |outcomes| && outcomes[i] == Ok(g)
        && forall j :: 0 <= j < i ==> Skipped(outcomes[j], pointOnly) {
      var i :| 0 <= i < |outcomes| && outcomes[i] == Ok(g)
        && forall j :: 0 <= j < i ==> Skipped(outcomes[j], pointOnly);
      FirstDecisiveAt(outcomes, pointOnly, i);
    }
  }

  /** When every source is skipped, the generic `PostcodeError` is raised after all were run. */
  lemma FallbackExhausted(outcomes: seq<Result<GeocodeResult>>, pointOnly: bool)
    requires forall j :: 0 <= j < |outcomes| ==> Skipped(outcomes[j], pointOnly)
    ensures FirstDecisive(outcomes, pointOnly) == |outcomes|
    ensures Fallback(outcomes, pointOnly) == Raised(Exception(PostcodeError, ExhaustedMessage))
    ensures Attempts(outcomes, pointOnly) == |outcomes|
  {
    FirstDecisiveAt(outcomes, pointOnly, |outcomes|);
  }

  /** The only exceptions that can leave the chain are `PostcodeError` and, in
      full mode, `MultipleCouncilsException`. */
  lemma FallbackRaisesOnly(outcomes: seq<Result<GeocodeResult>>, pointOnly: bool)
    requires Fallback(outcomes, pointOnly).Raised?
    ensures var k := Fallback(outcomes, pointOnly).exception.kind;
      k == PostcodeError || (!pointOnly && k == MultipleCouncilsException)
  {
  }

  /** Which exceptions each loop skips: `RateLimitError` falls to the bare `except:`
      in both, and point-only mode skips everything but `PostcodeError`. */
  lemma SkippedKinds(kind: ExceptionKind)
    ensures SkipsSource(RateLimitError, false) && SkipsSource(RateLimitError, true)
    ensures SkipsSource(kind, true) <==> kind != PostcodeError
    ensures SkipsSource(kind, false) <==> kind !in {PostcodeError, MultipleCouncilsException}
  {
  }

  // ---------------------------------------------------------------------------
  // The chain over the two real sources

  /** When AddressBase has no rows for the formatted postcode, MapIt is consulted
      and its outcome decides, unless it is skipped too. */
  lemma NoAddressBaseRowsConsultsMapit(postcode: string, stores: Stores, pointOnly: bool)
    requires AddressesFor(stores.addresses, FormatPostcode(postcode)) == []
    ensures var os := Outcomes(postcode, stores, pointOnly);
      var mapit := MapitOutcome(stores.mapit(postcode), stores.councilTypes);
      && Attempts(os, pointOnly) == 2
      && Fallback(os, pointOnly) == if Skipped(mapit, pointOnly) then Raised(Exception(PostcodeError, ExhaustedMessage)) else mapit
  {
    var os := Outcomes(postcode, stores, pointOnly);
    assert Skipped(os[0], pointOnly);
    if Skipped(os[1], pointOnly) {
      FirstDecisiveAt(os, pointOnly, 2);
    } else {
      FirstDecisiveAt(os, pointOnly, 1);
    }
  }

  /** Rows in two local authorities raise `MultipleCouncilsException` from `geocode`,
      and MapIt is never consulted. */
  lemma MultipleCouncilsStopsGeocode(postcode: string, stores: Stores)
    requires var rows := AddressesFor(stores.addresses, FormatPostcode(postcode));
      var records := OnsadFor(stores.onsad, Uprns(rows));
      rows != [] && exists i, j :: 0 <= i < |records| && 0 <= j < |records| && records[i].lad != records[j].lad
    ensures var os := Outcomes(postcode, stores, false);
      && Fallback(os, false) == Raised(Exception(MultipleCouncilsException, MultipleCouncilsMessage(FormatPostcode(postcode))))
      && Attempts(os, false) == 1
  {
    var p := FormatPostcode(postcode);
    var rows := AddressesFor(stores.addresses, p);
    CodesOutcomeMeaning(p, OnsadFor(stores.onsad, Uprns(rows)));
    var os := Outcomes(postcode, stores, false);
    FirstDecisiveAt(os, false, 0);
  }

  /** MapIt's rate limit does not reach the caller: after AddressBase found nothing,
      a 403 from MapIt ends in the generic `PostcodeError`. */
  lemma RateLimitIsSwallowed(postcode: string, stores: Stores, pointOnly: bool, json: Wrappers.Option<MapitJson>)
    requires AddressesFor(stores.addresses, FormatPostcode(postcode)) == []
    requires stores.mapit(postcode) == Response(403, json)
    ensures Fallback(Outcomes(postcode, stores, pointOnly), pointOnly) == Raised(Exception(PostcodeError, ExhaustedMessage))
  {
    NoAddressBaseRowsConsultsMapit(postcode, stores, pointOnly);
  }

  /** In point-only mode AddressBase rows are enough: their centre is returned and MapIt is not asked. */
  lemma PointOnlyUsesAddressBase(postcode: string, stores: Stores, sleep: bool)
    requires AddressesFor(stores.addresses, FormatPostcode(postcode)) != []
    ensures var os := Outcomes(postcode, stores, true);
      var centre := stores.centre(AddressesFor(stores.addresses, FormatPostcode(postcode)));
      && Fallback(os, true) == Ok(AddressBasePoint(centre.x, centre.y))
      && Attempts(os, true) == 1
      && FirstDecisive(os, true) == 0
  {
    FirstDecisiveAt(Outcomes(postcode, stores, true), true, 0);
  }
}
