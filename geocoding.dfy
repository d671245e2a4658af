/**
  The two geocoders of the data finder: `AddressBaseGeocoder`, which looks the
  postcode up in the AddressBase and ONSAD tables, and `MapitGeocoder`, which
  asks the MapIt service. Tables, the MapIt answer, the centroid computation and
  the `COUNCIL_TYPES` setting are inputs, gathered in `Stores`.
*/
module Geocoding {
  import opened Wrappers
  import opened Text

  // ---------------------------------------------------------------------------
  // Exceptions

  /** The exception classes an attempt can end with. None of them is a subclass
      of another: in particular `RateLimitError` derives from `Exception`, not
      from `PostcodeError`, so an `except PostcodeError` clause does not catch it. */
  datatype ExceptionKind =
    | PostcodeError
    | MultipleCouncilsException
    | CodesNotFoundException
    | RateLimitError
    | ObjectDoesNotExist          // Django's, raised when AddressBase has no rows
    | OtherException              // anything else: a failed request, a KeyError, a ValueError

  datatype Exception = Exception(kind: ExceptionKind, message: string)

  /** A call either returns a value or raises. */
  datatype Result<+T> = Ok(value: T) | Raised(exception: Exception)

  // ---------------------------------------------------------------------------
  // Inputs

  datatype Point = Point(x: real, y: real)

  /** A row of AddressBase's `Address` table. */
  datatype Address = Address(uprn: string, postcode: string, location: Point)

  /** A row of the `Onsad` table: the administrative codes of one UPRN. */
  datatype OnsadRecord = OnsadRecord(uprn: string, cty: string, lad: string, ctry: string, rgn: string, eer: string)

  /** One entry of MapIt's `areas` object: its `type`, and `codes['gss']` if present. */
  datatype MapitArea = MapitArea(areaType: string, gss: Option<string>)

  /** The keys of a parsed MapIt JSON object that the geocoder reads; `None` is an absent key.
      `areas` lists the entries of the `areas` object in iteration order. */
  datatype MapitJson = MapitJson(
    areas: Option<seq<MapitArea>>,
    lon: Option<real>,
    lat: Option<real>,
    code: Option<string>,
    error: Option<string>)

  /** What `requests.get` gave: a status and a body that parses as JSON or not
      (`json` is `None` when `res.json()` raises `ValueError`), or an exception. */
  datatype HttpResponse = Response(status: nat, json: Option<MapitJson>) | RequestFailed

  /** The collaborators: the two tables, MapIt's answer for a postcode,
      `centre_from_points_qs`, and `settings.COUNCIL_TYPES`. */
  datatype Stores = Stores(
    addresses: seq<Address>,
    onsad: seq<OnsadRecord>,
    mapit: string -> HttpResponse,
    centre: seq<Address> -> Point,
    councilTypes: seq<string>)

  /** The dictionaries a geocoder returns, one variant per shape and `source`. */
  datatype GeocodeResult =
    | AddressBasePoint(lon: real, lat: real)
    | AddressBaseCodes(lon: real, lat: real, council: string, codes: set<string>)
    | MapitCodes(lon: real, lat: real, councilGss: Option<string>, gssCodes: seq<string>)

  // ---------------------------------------------------------------------------
  // MapitGeocoder.call_mapit

  const RateLimitMessage := "Mapit error 403: Rate limit exceeded"
  const NotFoundMessage := "Mapit error 404: Not Found"
  const NoLocationMessage := "No location information"

  function UnknownErrorMessage(status: nat): string
  {
    "Mapit error " + DecimalString(status) + ": unknown"
  }

  function ErrorMessage(code: string, error: string): string
  {
    "Mapit error " + code + ": " + error
  }

  /** `call_mapit`: the parsed body on status 200, otherwise the exception its status calls for. */
  function CallMapit(response: HttpResponse): (r: Result<MapitJson>)
    ensures r.Ok? <==> response.Response? && response.status == 200 && response.json.Some?
    ensures r.Ok? ==> r.value == response.json.value
  {
    match response
    case RequestFailed => Raised(Exception(OtherException, "ConnectionError"))
    case Response(status, json) =>
      if status != 200 then
        if status == 403 then Raised(Exception(RateLimitError, RateLimitMessage))
        else if status == 404 then Raised(Exception(PostcodeError, NotFoundMessage))
        else match json
          case None => Raised(Exception(PostcodeError, UnknownErrorMessage(status)))
          case Some(body) =>
            if body.error.Some? then
              if body.code.Some? then Raised(Exception(PostcodeError, ErrorMessage(body.code.value, body.error.value)))
              else Raised(Exception(OtherException, "KeyError: 'code'"))
            else Raised(Exception(PostcodeError, UnknownErrorMessage(status)))
      else match json
        case None => Raised(Exception(OtherException, "ValueError"))
        case Some(body) => Ok(body)
  }

  /** The status decides: only 200 with a JSON body succeeds, 403 is the rate
      limit, 404 an unknown postcode, and any other status reports MapIt's own
      `code` and `error` when the body carries them. */
  lemma CallMapitCases(response: HttpResponse)
    ensures CallMapit(response).Ok? <==> response.Response? && response.status == 200 && response.json.Some?
    ensures CallMapit(response).Ok? ==> CallMapit(response).value == response.json.value
    ensures response.Response? && response.status == 403 ==>
      CallMapit(response) == Raised(Exception(RateLimitError, RateLimitMessage))
    ensures response.Response? && response.status == 404 ==>
      CallMapit(response) == Raised(Exception(PostcodeError, NotFoundMessage))
    ensures response.Response? && response.status !in {200, 403, 404} ==>
      var j := response.json;
      && (j.Some? && j.value.error.Some? && j.value.code.Some? ==>
            CallMapit(response) == Raised(Exception(PostcodeError, ErrorMessage(j.value.code.value, j.value.error.value))))
      && (j.None? || j.value.error.None? ==>
            CallMapit(response) == Raised(Exception(PostcodeError, UnknownErrorMessage(response.status))))
      && (j.Some? && j.value.error.Some? && j.value.code.None? ==>
            CallMapit(response).Raised? && CallMapit(response).exception.kind == OtherException)
    ensures CallMapit(response).Raised? && CallMapit(response).exception.kind == RateLimitError ==> response.Response? && response.status == 403
  {
  }

  // ---------------------------------------------------------------------------
  // MapitGeocoder.geocode

  /** The `gss` codes of the areas that have one, in the order of the areas. */
  function GssCodes(areas: seq<MapitArea>): seq<string>
  {
    if areas == [] then []
    else
      var last := areas[|areas| - 1];
      GssCodes(areas[..|areas| - 1]) + (if last.gss.Some? then [last.gss.value] else [])
  }

  predicate IsCouncilArea(area: MapitArea, councilTypes: seq<string>)
  {
    area.gss.Some? && area.areaType in councilTypes
  }

  /** The `gss` code of the last council-type area that has one, if any. */
  function CouncilGss(areas: seq<MapitArea>, councilTypes: seq<string>): Option<string>
  {
    if areas == [] then None
    else
      var last := areas[|areas| - 1];
      if IsCouncilArea(last, councilTypes) then Some(last.gss.value)
      else CouncilGss(areas[..|areas| - 1], councilTypes)
  }

  /** What `MapitGeocoder.geocode` returns or raises for a MapIt answer. */
  function MapitOutcome(response: HttpResponse, councilTypes: seq<string>): Result<GeocodeResult>
  {
    match CallMapit(response)
    case Raised(e) => Raised(e)
    case Ok(json) =>
      if json.areas.None? then Raised(Exception(OtherException, "KeyError: 'areas'"))
      else if json.lon.None? || json.lat.None? then Raised(Exception(PostcodeError, NoLocationMessage))
      else Ok(MapitCodes(json.lon.value, json.lat.value,
                         CouncilGss(json.areas.value, councilTypes), GssCodes(json.areas.value)))
  }

  /** `MapitGeocoder.geocode` (and `geocode_point_only`, which calls it). */
  method MapitGeocode(response: HttpResponse, councilTypes: seq<string>) returns (r: Result<GeocodeResult>)
    ensures r == MapitOutcome(response, councilTypes)
  {
    var res := CallMapit(response);
    if res.Raised? {
      return Raised(res.exception);
    }
    var json := res.value;
    if json.areas.None? {
      return Raised(Exception(OtherException, "KeyError: 'areas'"));
    }
    var areas := json.areas.value;
    var gssCodes: seq<string> := [];
    var councilGss: Option<string> := None;
    var i := 0;
    while i < |areas|
      invariant 0 <= i <= |areas|
      invariant gssCodes == GssCodes(areas[..i])
      invariant councilGss == CouncilGss(areas[..i], councilTypes)
    {
      assert areas[..i + 1][..i] == areas[..i];
      if areas[i].gss.Some? {
        var gss := areas[i].gss.value;
        gssCodes := gssCodes + [gss];
        if areas[i].areaType in councilTypes {
          councilGss := Some(gss);
        }
      }
      i := i + 1;
    }
    assert areas[..i] == areas;
    if json.lon.None? || json.lat.None? {
      return Raised(Exception(PostcodeError, NoLocationMessage));
    }
    r := Ok(MapitCodes(json.lon.value, json.lat.value, councilGss, gssCodes));
  }

  /** The codes are listed in area order: the list for a concatenation is the concatenation of the lists. */
  lemma {:induction false} GssCodesAppend(a: seq<MapitArea>, b: seq<MapitArea>)
    ensures GssCodes(a + b) == GssCodes(a) + GssCodes(b)
    decreases |b|
  {
    if b == [] {
      assert a + b == a;
    } else {
      assert (a + b)[..|a + b| - 1] == a + b[..|b| - 1];
      GssCodesAppend(a, b[..|b| - 1]);
    }
  }

  /** A code is listed exactly when some area carries it. */
  lemma {:induction false} GssCodesMembers(areas: seq<MapitArea>, g: string)
    ensures g in GssCodes(areas) <==> exists i :: 0 <= i < |areas| && areas[i].gss == Some(g)
  {
    if areas != [] {
      var init := areas[..|areas| - 1];
      GssCodesMembers(init, g);
      assert forall i :: 0 <= i < |init| ==> init[i] == areas[i];
    }
  }

  /** `council_gss` is None exactly when no area with a code has a council type, and
      otherwise the code of the last such area. */
  lemma {:induction false} CouncilGssIsLast(areas: seq<MapitArea>, councilTypes: seq<string>)
    ensures CouncilGss(areas, councilTypes).None? <==>
      forall i :: 0 <= i < |areas| ==> !IsCouncilArea(areas[i], councilTypes)
    ensures CouncilGss(areas, councilTypes).Some? ==>
      exists i :: 0 <= i < |areas| && IsCouncilArea(areas[i], councilTypes)
        && areas[i].gss == CouncilGss(areas, councilTypes)
        && forall j :: i < j < |areas| ==> !IsCouncilArea(areas[j], councilTypes)
  {
    if areas != [] {
      var last := |areas| - 1;
      var init := areas[..last];
      if IsCouncilArea(areas[last], councilTypes) {
        assert areas[last].gss == CouncilGss(areas, councilTypes);
      } else {
        CouncilGssIsLast(init, councilTypes);
        assert CouncilGss(areas, councilTypes) == CouncilGss(init, councilTypes);
        assert forall i :: 0 <= i < |init| ==> init[i] == areas[i];
        if CouncilGss(init, councilTypes).Some? {
          var i :| 0 <= i < |init| && IsCouncilArea(init[i], councilTypes)
            && init[i].gss == CouncilGss(init, councilTypes)
            && forall j :: i < j < |init| ==> !IsCouncilArea(init[j], councilTypes);
          assert forall j :: i < j < |areas| ==> !IsCouncilArea(areas[j], councilTypes);
        }
      }
    }
  }

  /** The council code, when there is one, is among the listed codes. */
  lemma CouncilGssListed(areas: seq<MapitArea>, councilTypes: seq<string>)
    requires CouncilGss(areas, councilTypes).Some?
    ensures CouncilGss(areas, councilTypes).value in GssCodes(areas)
  {
    CouncilGssIsLast(areas, councilTypes);
    GssCodesMembers(areas, CouncilGss(areas, councilTypes).value);
  }

  /** A successful MapIt geocode carries the location MapIt gave and the codes
      of its areas, the council code among them. */
  lemma MapitSuccess(response: HttpResponse, councilTypes: seq<string>)
    requires MapitOutcome(response, councilTypes).Ok?
    ensures response.Response? && response.status == 200 && response.json.Some?
    ensures var json := response.json.value;
      var res := MapitOutcome(response, councilTypes).value;
      && json.areas.Some? && res.MapitCodes?
      && json.lon == Some(res.lon) && json.lat == Some(res.lat)
      && res.gssCodes == GssCodes(json.areas.value)
      && (res.councilGss.Some? ==> res.councilGss.value in res.gssCodes)
  {
    var json := response.json.value;
    if CouncilGss(json.areas.value, councilTypes).Some? {
      CouncilGssListed(json.areas.value, councilTypes);
    }
  }

  // ---------------------------------------------------------------------------
  // AddressBaseGeocoder

  /** `Address.objects.filter(postcode=postcode)` */
  function AddressesFor(table: seq<Address>, postcode: string): (rows: seq<Address>)
    ensures forall a :: a in rows ==> a in table && a.postcode == postcode
    ensures forall a :: a in table && a.postcode == postcode ==> a in rows
  {
    if table == [] then []
    else (if table[0].postcode == postcode then [table[0]] else []) + AddressesFor(table[1..], postcode)
  }

  /** `get_uprns` */
  function Uprns(addresses: seq<Address>): (uprns: seq<string>)
    ensures |uprns| == |addresses|
    ensures forall i :: 0 <= i < |addresses| ==> uprns[i] == addresses[i].uprn
  {
    seq(|addresses|, i requires 0 <= i < |addresses| => addresses[i].uprn)
  }

  /** `Onsad.objects.filter(uprn__in=uprns)` */
  function OnsadFor(table: seq<OnsadRecord>, uprns: seq<string>): (rows: seq<OnsadRecord>)
    ensures forall a :: a in rows ==> a in table && a.uprn in uprns
    ensures forall a :: a in table && a.uprn in uprns ==> a in rows
  {
    if table == [] then []
    else (if table[0].uprn in uprns then [table[0]] else []) + OnsadFor(table[1..], uprns)
  }

  /** The five codes `get_codes` collects from one ONSAD record. */
  function RecordCodes(a: OnsadRecord): set<string>
  {
    {a.cty, a.lad, a.ctry, a.rgn, a.eer}
  }

  function AllCodes(records: seq<OnsadRecord>): set<string>
  {
    if records == [] then {}
    else AllCodes(records[..|records| - 1]) + RecordCodes(records[|records| - 1])
  }

  /** `set([a.lad for a in addresses])` */
  function Lads(records: seq<OnsadRecord>): set<string>
  {
    set i | 0 <= i < |records| :: records[i].lad
  }

  datatype Codes = Codes(councilGss: string, gssCodes: set<string>)

  const CodesNotFoundMessage := "Found no records in ONSAD for supplied UPRNs"

  function MultipleCouncilsMessage(postcode: string): string
  {
    "Postcode " + postcode + " covers UPRNs in more than one local authority"
  }

  /** What `get_codes` returns or raises for the ONSAD rows its query found. */
  function CodesOutcome(postcode: string, records: seq<OnsadRecord>): Result<Codes>
  {
    if |records| == 0 then Raised(Exception(CodesNotFoundException, CodesNotFoundMessage))
    else if |Lads(records)| != 1 then Raised(Exception(MultipleCouncilsException, MultipleCouncilsMessage(postcode)))
    else Ok(Codes(records[0].lad, AllCodes(records)))
  }

  /** `AddressBaseGeocoder.get_codes`; the query result is not compared with `uprns`
      (a count mismatch is deliberately ignored), so only the rows decide the result. */
  method GetCodes(postcode: string, uprns: seq<string>, onsad: seq<OnsadRecord>) returns (r: Result<Codes>)
    ensures r == CodesOutcome(postcode, OnsadFor(onsad, uprns))
  {
    var records := OnsadFor(onsad, uprns);
    if |records| == 0 {
      return Raised(Exception(CodesNotFoundException, CodesNotFoundMessage));
    }
    if |records| != |uprns| {
      // left as it is
    }
    var councilIds := set i | 0 <= i < |records| :: records[i].lad;
    var gssCodes: set<string> := {};
    var i := 0;
    while i < |records|
      invariant 0 <= i <= |records|
      invariant gssCodes == AllCodes(records[..i])
    {
      assert records[..i + 1][..i] == records[..i];
      gssCodes := AddRecordCodes(gssCodes, records[i]);
      i := i + 1;
    }
    assert records[..i] == records;
    assert councilIds == Lads(records);
    if |councilIds| == 1 {
      assert records[0].lad in councilIds;
      var councilGss :| councilGss in councilIds;
      SingletonMembers(councilIds, councilGss, records[0].lad);
      r := Ok(Codes(councilGss, gssCodes));
    } else {
      r := Raised(Exception(MultipleCouncilsException, MultipleCouncilsMessage(postcode)));
    }
  }

  /** The inner loop of `get_codes`: add the five codes of one record. */
  method AddRecordCodes(gssCodes: set<string>, record: OnsadRecord) returns (r: set<string>)
    ensures r == gssCodes + RecordCodes(record)
  {
    r := gssCodes;
    var extraCodes := [record.cty, record.lad, record.ctry, record.rgn, record.eer];
    var j := 0;
    while j < |extraCodes|
      invariant 0 <= j <= |extraCodes|
      invariant r == gssCodes + (set c | c in extraCodes[..j])
    {
      assert extraCodes[..j + 1] == extraCodes[..j] + [extraCodes[j]];
      r := r + {extraCodes[j]};
      j := j + 1;
    }
    assert extraCodes[..j] == extraCodes;
    assert (set c | c in extraCodes) == RecordCodes(record);
  }

  /** A code is collected exactly when some record carries it in one of its five fields. */
  lemma {:induction false} AllCodesMembers(records: seq<OnsadRecord>, c: string)
    ensures c in AllCodes(records) <==> exists i :: 0 <= i < |records| && c in RecordCodes(records[i])
  {
    if records != [] {
      var init := records[..|records| - 1];
      AllCodesMembers(init, c);
      assert forall i :: 0 <= i < |init| ==> init[i] == records[i];
    }
  }

  /** There is one local authority exactly when the rows are non-empty and agree on `lad`. */
  lemma OneLad(records: seq<OnsadRecord>)
    ensures |Lads(records)| == 1 <==>
      |records| > 0 && forall i :: 0 <= i < |records| ==> records[i].lad == records[0].lad
  {
    if |records| > 0 {
      var lads := Lads(records);
      assert records[0].lad in lads;
      if forall i :: 0 <= i < |records| ==> records[i].lad == records[0].lad {
        assert lads == {records[0].lad};
      }
      if |lads| == 1 {
        forall i | 0 <= i < |records| ensures records[i].lad == records[0].lad {
          assert records[i].lad in lads;
          SingletonMembers(lads, records[i].lad, records[0].lad);
        }
      }
    } else {
      assert Lads(records) == {};
    }
  }

  /** `get_codes`: no rows raise `CodesNotFoundException`; rows in two local
      authorities raise `MultipleCouncilsException`; otherwise the council is the
      one `lad` and the codes are exactly the five fields of every row. */
  lemma CodesOutcomeMeaning(postcode: string, records: seq<OnsadRecord>)
    ensures CodesOutcome(postcode, records).Raised? && CodesOutcome(postcode, records).exception.kind == CodesNotFoundException
      <==> records == []
    ensures CodesOutcome(postcode, records) == Raised(Exception(MultipleCouncilsException, MultipleCouncilsMessage(postcode)))
      <==> exists i, j :: 0 <= i < |records| && 0 <= j < |records| && records[i].lad != records[j].lad
    ensures CodesOutcome(postcode, records).Ok? ==>
      var codes := CodesOutcome(postcode, records).value;
      && (forall i :: 0 <= i < |records| ==> records[i].lad == codes.councilGss)
      && codes.councilGss in codes.gssCodes
      && (forall c :: c in codes.gssCodes <==> exists i :: 0 <= i < |records| && c in RecordCodes(records[i]))
  {
    OneLad(records);
    if CodesOutcome(postcode, records).Ok? {
      var codes := CodesOutcome(postcode, records).value;
      forall c ensures c in codes.gssCodes <==> exists i :: 0 <= i < |records| && c in RecordCodes(records[i]) {
        AllCodesMembers(records, c);
      }
      assert codes.councilGss in RecordCodes(records[0]);
    }
    if exists i, j :: 0 <= i < |records| && 0 <= j < |records| && records[i].lad != records[j].lad {
      var i, j :| 0 <= i < |records| && 0 <= j < |records| && records[i].lad != records[j].lad;
      assert records[i].lad != records[0].lad || records[j].lad != records[0].lad;
    }
  }

  const NoAddressesPrefix := "No addresses found for postcode "

  /** What `AddressBaseGeocoder.geocode` (`pointOnly` false) or `geocode_point_only`
      returns or raises for the geocoder's postcode. */
  function AddressBaseOutcome(postcode: string, stores: Stores, pointOnly: bool): Result<GeocodeResult>
  {
    var rows := AddressesFor(stores.addresses, postcode);
    if rows == [] then Raised(Exception(ObjectDoesNotExist, NoAddressesPrefix + postcode))
    else if pointOnly then
      var centre := stores.centre(rows);
      Ok(AddressBasePoint(centre.x, centre.y))
    else
      match CodesOutcome(postcode, OnsadFor(stores.onsad, Uprns(rows)))
      case Raised(e) => Raised(e)
      case Ok(codes) =>
        var centre := stores.centre(rows);
        Ok(AddressBaseCodes(centre.x, centre.y, codes.councilGss, codes.gssCodes))
  }

  /** `AddressBaseGeocoder.geocode` */
  method AddressBaseGeocode(postcode: string, stores: Stores) returns (r: Result<GeocodeResult>)
    ensures r == AddressBaseOutcome(postcode, stores, false)
  {
    var addresses := AddressesFor(stores.addresses, postcode);
    if addresses == [] {
      return Raised(Exception(ObjectDoesNotExist, NoAddressesPrefix + postcode));
    }
    var codes := GetCodes(postcode, Uprns(addresses), stores.onsad);
    if codes.Raised? {
      return Raised(codes.exception);
    }
    var centre := stores.centre(addresses);
    r := Ok(AddressBaseCodes(centre.x, centre.y, codes.value.councilGss, codes.value.gssCodes));
  }

  /** `AddressBaseGeocoder.geocode_point_only` */
  method AddressBaseGeocodePointOnly(postcode: string, stores: Stores) returns (r: Result<GeocodeResult>)
    ensures r == AddressBaseOutcome(postcode, stores, true)
  {
    var addresses := AddressesFor(stores.addresses, postcode);
    if addresses == [] {
      return Raised(Exception(ObjectDoesNotExist, NoAddressesPrefix + postcode));
    }
    var centre := stores.centre(addresses);
    r := Ok(AddressBasePoint(centre.x, centre.y));
  }

  /** The exceptions each AddressBase geocode can raise: only "not found" without
      codes; "not found", "no codes" and "several councils" with them. */
  lemma AddressBaseRaises(postcode: string, stores: Stores, pointOnly: bool)
    requires AddressBaseOutcome(postcode, stores, pointOnly).Raised?
    ensures var k := AddressBaseOutcome(postcode, stores, pointOnly).exception.kind;
      if pointOnly then k == ObjectDoesNotExist
      else k in {ObjectDoesNotExist, CodesNotFoundException, MultipleCouncilsException}
  {
  }

  // ---------------------------------------------------------------------------
  // BaseGeocoder.run

  /** A geocoder with the postcode its constructor stored. */
  datatype Geocoder = AddressBaseGeocoder(postcode: string) | MapitGeocoder(postcode: string)

  function RunOutcome(g: Geocoder, stores: Stores, pointOnly: bool): Result<GeocodeResult>
  {
    match g
    case AddressBaseGeocoder(p) => AddressBaseOutcome(p, stores, pointOnly)
    case MapitGeocoder(p) => MapitOutcome(stores.mapit(p), stores.councilTypes)
  }

  /** `BaseGeocoder.run(point_only)` */
  method Run(g: Geocoder, stores: Stores, pointOnly: bool) returns (r: Result<GeocodeResult>)
    ensures r == RunOutcome(g, stores, pointOnly)
  {
    match g
    case AddressBaseGeocoder(p) =>
      if pointOnly {
        r := AddressBaseGeocodePointOnly(p, stores);
      } else {
        r := AddressBaseGeocode(p, stores);
      }
    case MapitGeocoder(p) =>
      r := MapitGeocode(stores.mapit(p), stores.councilTypes);
  }
}
