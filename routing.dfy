/**
  `RoutingHelper`: from a postcode, the page the user is sent to. The helper
  holds the normalised postcode, the residential addresses recorded at it and
  the local-authority ids of its blacklist rows; the two tables are given as
  sequences of rows.
*/
module Routing {
  import opened Text
  import opened Postcodes

  /** A row of `ResidentialAddress`. */
  datatype ResidentialAddress = ResidentialAddress(postcode: string, pollingStationId: string, address: string, slug: string)

  /** A row of `Blacklist`: a postcode known to straddle local authorities. */
  datatype BlacklistRow = BlacklistRow(postcode: string, lad: string)

  /** `ResidentialAddress.objects.filter(postcode=postcode)`, in table order. */
  function AddressesAt(table: seq<ResidentialAddress>, postcode: string): (r: seq<ResidentialAddress>)
    ensures |r| <= |table|
    ensures forall a :: a in r <==> a in table && a.postcode == postcode
  {
    if table == [] then []
    else (if table[0].postcode == postcode then [table[0]] else []) + AddressesAt(table[1..], postcode)
  }

  /** `Blacklist.objects.filter(postcode=postcode)`, in table order. */
  function BlacklistRowsFor(blacklist: seq<BlacklistRow>, postcode: string): (rows: seq<BlacklistRow>)
    ensures |rows| <= |blacklist|
    ensures forall row :: row in rows <==> row in blacklist && row.postcode == postcode
  {
    if blacklist == [] then []
    else (if blacklist[0].postcode == postcode then [blacklist[0]] else []) + BlacklistRowsFor(blacklist[1..], postcode)
  }

  /** `[row.lad for row in Blacklist.objects.filter(postcode=postcode)]`: one entry per row, in order. */
  function BlacklistedCouncils(blacklist: seq<BlacklistRow>, postcode: string): (r: seq<string>)
    ensures var rows := BlacklistRowsFor(blacklist, postcode);
      |r| == |rows| && forall k :: 0 <= k < |r| ==> r[k] == rows[k].lad
    ensures forall lad :: lad in r <==> BlacklistRow(postcode, lad) in blacklist
  {
    var rows := BlacklistRowsFor(blacklist, postcode);
    var r := seq(|rows|, k requires 0 <= k < |rows| => rows[k].lad);
    forall lad ensures lad in r <==> BlacklistRow(postcode, lad) in blacklist {
      if lad in r {
        var k :| 0 <= k < |r| && r[k] == lad;
        assert rows[k] in rows;
        assert rows[k] == BlacklistRow(postcode, lad);
      }
      if BlacklistRow(postcode, lad) in blacklist {
        var k :| 0 <= k < |rows| && rows[k] == BlacklistRow(postcode, lad);
        assert r[k] == lad;
      }
    }
    r
  }

  /** Two rows for the postcode somewhere in the table. */
  predicate TwoRowsFor(blacklist: seq<BlacklistRow>, postcode: string)
  {
    exists i, j :: 0 <= i < j < |blacklist| && blacklist[i].postcode == postcode && blacklist[j].postcode == postcode
  }

  /** Some row for the postcode in the table. */
  predicate SomeRowFor(blacklist: seq<BlacklistRow>, postcode: string)
  {
    exists j :: 0 <= j < |blacklist| && blacklist[j].postcode == postcode
  }

  /** The filter keeps a row exactly when the table has one for the postcode. */
  lemma SomeRow(blacklist: seq<BlacklistRow>, postcode: string)
    ensures |BlacklistRowsFor(blacklist, postcode)| > 0 <==> SomeRowFor(blacklist, postcode)
  {
    var rows := BlacklistRowsFor(blacklist, postcode);
    if |rows| > 0 {
      assert rows[0] in blacklist;
    }
    if SomeRowFor(blacklist, postcode) {
      var j :| 0 <= j < |blacklist| && blacklist[j].postcode == postcode;
      assert blacklist[j] in rows;
    }
  }

  /** Two rows for the postcode: the first row and a later one, or two after the first. */
  lemma TwoRowsSplit(blacklist: seq<BlacklistRow>, postcode: string)
    requires blacklist != []
    ensures TwoRowsFor(blacklist, postcode) <==>
      (blacklist[0].postcode == postcode && SomeRowFor(blacklist[1..], postcode)) || TwoRowsFor(blacklist[1..], postcode)
  {
    var rest := blacklist[1..];
    if TwoRowsFor(blacklist, postcode) {
      var i, j :| 0 <= i < j < |blacklist| && blacklist[i].postcode == postcode && blacklist[j].postcode == postcode;
      assert rest[j - 1] == blacklist[j];
      if i > 0 {
        assert rest[i - 1] == blacklist[i];
      }
    }
    if blacklist[0].postcode == postcode && SomeRowFor(rest, postcode) {
      var j :| 0 <= j < |rest| && rest[j].postcode == postcode;
      assert blacklist[j + 1] == rest[j];
    }
    if TwoRowsFor(rest, postcode) {
      var i, j :| 0 <= i < j < |rest| && rest[i].postcode == postcode && rest[j].postcode == postcode;
      assert blacklist[i + 1] == rest[i] && blacklist[j + 1] == rest[j];
    }
  }

  /** The filter keeps more than one row exactly when the table has two rows for the postcode. */
  lemma {:induction false} MoreThanOneRow(blacklist: seq<BlacklistRow>, postcode: string)
    ensures |BlacklistRowsFor(blacklist, postcode)| > 1 <==> TwoRowsFor(blacklist, postcode)
  {
    if blacklist != [] {
      var rest := blacklist[1..];
      MoreThanOneRow(rest, postcode);
      SomeRow(rest, postcode);
      TwoRowsSplit(blacklist, postcode);
    }
  }

  /** `addresses.values('polling_station_id').distinct()` */
  function StationIds(addresses: seq<ResidentialAddress>): set<string>
  {
    set a | a in addresses :: a.pollingStationId
  }

  datatype RouteType = MultipleCouncils | SingleAddress | MultipleAddresses | PostcodeRoute

  /** The keyword arguments of an `Endpoint`. */
  datatype EndpointArgs = PostcodeArg(postcode: string) | AddressSlugArg(addressSlug: string)

  datatype Endpoint = Endpoint(view: string, kwargs: EndpointArgs)

  class RoutingHelper {
    var postcode: string
    var addresses: seq<ResidentialAddress>
    var councils: seq<string>

    /** `__init__`: normalise the postcode, then load the addresses and the blacklisted councils. */
    constructor (postcode: string, table: seq<ResidentialAddress>, blacklist: seq<BlacklistRow>)
      ensures this.postcode == Normalize(postcode)
      ensures addresses == AddressesAt(table, this.postcode)
      ensures councils == BlacklistedCouncils(blacklist, this.postcode)
    {
      this.postcode := Normalize(postcode);
      addresses := [];
      councils := [];
      new;
      var _ := GetAddresses(table);
      var _ := GetCouncilsFromBlacklist(blacklist);
    }

    /** `get_addresses` */
    method GetAddresses(table: seq<ResidentialAddress>) returns (r: seq<ResidentialAddress>)
      modifies this
      ensures addresses == AddressesAt(table, postcode) && r == addresses
      ensures postcode == old(postcode) && councils == old(councils)
    {
      addresses := AddressesAt(table, postcode);
      r := addresses;
    }

    /** `get_councils_from_blacklist` */
    method GetCouncilsFromBlacklist(blacklist: seq<BlacklistRow>) returns (r: seq<string>)
      modifies this
      ensures councils == BlacklistedCouncils(blacklist, postcode) && r == councils
      ensures postcode == old(postcode) && addresses == old(addresses)
    {
      councils := BlacklistedCouncils(blacklist, postcode);
      r := councils;
    }

    /** `has_addresses` */
    function HasAddresses(): (b: bool)
      reads this
      ensures b <==> |addresses| > 0
    {
      addresses != []
    }

    /** `has_single_address` as written: `self.addresses.count == 1` compares the
        bound method `count` with 1, which is never equal. */
    function HasSingleAddress(): (b: bool)
      reads this
      ensures !b
    {
      false
    }

    /** `has_single_address` as intended: `self.addresses.count() == 1`. */
    function HasOneAddress(): (b: bool)
      reads this
      ensures b <==> exists a :: addresses == [a]
    {
      assert |addresses| == 1 ==> addresses == [addresses[0]];
      |addresses| == 1
    }

    /** `address_have_single_station`: one distinct polling station among the addresses. */
    function AddressHaveSingleStation(): (b: bool)
      reads this
      ensures b <==> addresses != [] && SameStation(addresses)
    {
      SingleStationIff(addresses);
      |StationIds(addresses)| == 1
    }

    /** `route_type`. It counts blacklist rows, not distinct councils. */
    function GetRouteType(): (r: RouteType)
      reads this
      ensures r == MultipleCouncils <==> |councils| > 1
      ensures r == PostcodeRoute <==> |councils| <= 1 && addresses == []
      ensures r == SingleAddress <==> |councils| <= 1 && addresses != [] && SameStation(addresses)
      ensures r == MultipleAddresses <==> |councils| <= 1 && addresses != [] && !SameStation(addresses)
    {
      if |councils| > 1 then MultipleCouncils
      else if HasAddresses() then
        if AddressHaveSingleStation() then SingleAddress else MultipleAddresses
      else PostcodeRoute
    }

    /** `get_endpoint`: the view for the route type with its argument. */
    function GetEndpoint(): (e: Endpoint)
      reads this
      ensures GetRouteType() == MultipleCouncils ==> e == Endpoint("multiple_councils_view", PostcodeArg(postcode))
      ensures GetRouteType() == SingleAddress ==> addresses != [] && e == Endpoint("address_view", AddressSlugArg(addresses[0].slug))
      ensures GetRouteType() == MultipleAddresses ==> e == Endpoint("address_select_view", PostcodeArg(postcode))
      ensures GetRouteType() == PostcodeRoute ==> e == Endpoint("postcode_view", PostcodeArg(postcode))
    {
      match GetRouteType()
      case MultipleCouncils => Endpoint("multiple_councils_view", PostcodeArg(postcode))
      case SingleAddress => Endpoint("address_view", AddressSlugArg(addresses[0].slug))
      case MultipleAddresses => Endpoint("address_select_view", PostcodeArg(postcode))
      case PostcodeRoute => Endpoint("postcode_view", PostcodeArg(postcode))
    }
  }

  /** Every address is served by the station of the first one. */
  predicate SameStation(addresses: seq<ResidentialAddress>)
    requires addresses != []
  {
    forall i :: 0 <= i < |addresses| ==> addresses[i].pollingStationId == addresses[0].pollingStationId
  }

  /** One distinct station id exactly when every address has the first address's station. */
  lemma SingleStationIff(addresses: seq<ResidentialAddress>)
    ensures addresses != [] ==> (|StationIds(addresses)| == 1 <==> SameStation(addresses))
  {
    if addresses != [] {
      var ids := StationIds(addresses);
      var first := addresses[0].pollingStationId;
      assert first in ids;
      if SameStation(addresses) {
        assert ids == {first};
      }
      if |ids| == 1 {
        forall i | 0 <= i < |addresses| ensures addresses[i].pollingStationId == first {
          SingletonMembers(ids, addresses[i].pollingStationId, first);
        }
      }
    }
  }

  /** `route_type` is `multiple_councils` exactly when the blacklist has two rows
      for the postcode, whatever councils they name. */
  lemma MultipleCouncilsIffTwoRows(h: RoutingHelper, blacklist: seq<BlacklistRow>)
    requires h.councils == BlacklistedCouncils(blacklist, h.postcode)
    ensures h.GetRouteType() == MultipleCouncils <==> TwoRowsFor(blacklist, h.postcode)
  {
    MoreThanOneRow(blacklist, h.postcode);
  }

  /** Two blacklist rows for the postcode send the user to the "multiple councils"
      page even when both name the same council. */
  lemma DuplicateBlacklistRowsCount(h: RoutingHelper, lad: string)
    requires h.councils == BlacklistedCouncils([BlacklistRow(h.postcode, lad), BlacklistRow(h.postcode, lad)], h.postcode)
    ensures h.councils == [lad, lad]
    ensures h.GetRouteType() == MultipleCouncils
  {
    var row := BlacklistRow(h.postcode, lad);
    assert [row, row][1..] == [row];
    assert [row][1..] == [];
  }

  /** The postcode handed to a view is in `[A-Z0-9]*`, whatever the user typed. */
  lemma EndpointPostcodeIsNormalized(h: RoutingHelper, typed: string)
    requires h.postcode == Normalize(typed)
    ensures h.GetEndpoint().kwargs.PostcodeArg? ==>
      forall i :: 0 <= i < |h.GetEndpoint().kwargs.postcode| ==> IsUpperAlnum(h.GetEndpoint().kwargs.postcode[i])
  {
  }

  /** `has_single_address` disagrees with its intent whenever the postcode has exactly one address. */
  lemma HasSingleAddressFinding(h: RoutingHelper, a: ResidentialAddress)
    requires h.addresses == [a]
    ensures !h.HasSingleAddress() && h.HasOneAddress()
  {
  }
}
